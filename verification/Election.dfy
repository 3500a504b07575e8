/** Leader election and the start barrier: coordinator/coordinator.go over the
    key-value store of storage/rediscache.go.

    Processes interleave freely. `TrySet` is two separate store operations, SetNX and
    then Get, and renewal sets the key's time to live without checking who owns it.
    Any call may fail, and a failed SetNX may still have taken effect.
 */
module Election {
  import opened Options
  import opened Runs

  const LEADER_KEY: string := "leader-"
  const STARTED_KEY: string := "started-"

  // ----------------------------------------------------------------- the store

  /** One lifetime of a key: from the SetNX that created it until it runs out. */
  datatype Life = Life(key: string, value: string, born: nat, until: nat)

  /** Where a process is in `AwaitLeader`: `Claimed` lies between SetNX and Get. */
  datatype Role = Outside | Claimed(won: bool) | Leader | Follower | Failed

  /** Where a leader is in `SendStart`. */
  datatype Notice = NotSent | Posting | Posted | PostFailed | Aborted

  /** A coordinator. `own` is the identifier it made up, `identifier` the one it
      holds after the election; `electedAt` and `life` record the Get that elected it,
      `refreshedAt` and `ttl` its last call that set the leader key's time to live. */
  datatype Proc = Proc(
    name: string, own: string, initial: nat, renewal: nat,
    role: Role, identifier: string, electedAt: nat, life: nat, refreshedAt: nat, ttl: nat,
    notice: Notice, posted: bool, released: bool)

  /** `lives` lists every lifetime there has been; `current` maps a key to its last one. */
  datatype State = State(now: nat, lives: seq<Life>, current: map<string, nat>, procs: seq<Proc>)

  predicate Live(s: State, k: string) {
    k in s.current && s.current[k] < |s.lives| && s.now < s.lives[s.current[k]].until
  }

  function SetNX(s: State, k: string, v: string, ttl: nat): State {
    if Live(s, k) then s
    else s.(lives := s.lives + [Life(k, v, s.now, s.now + ttl)], current := s.current[k := |s.lives|])
  }

  function Get(s: State, k: string): Option<string> {
    if Live(s, k) then Some(s.lives[s.current[k]].value) else None
  }

  function ExpireIn(s: State, k: string, ttl: nat): State {
    if Live(s, k)
    then s.(lives := s.lives[s.current[k] := s.lives[s.current[k]].(until := s.now + ttl)])
    else s
  }

  // ------------------------------------------------------------- the processes

  datatype Act =
    | Advance(d: nat)
    | Claim(p: nat)                         // AwaitLeader: SetNX
    | ClaimFails(p: nat, applied: bool)     // ... whose reply is lost
    | Learn(p: nat)                         // AwaitLeader: Get
    | LearnFails(p: nat)
    | Renew(p: nat)                         // the leader's renewal loop
    | Post(p: nat)                          // SendStart: SetNX
    | Confirm(p: nat)                       // SendStart: Get
    | ConfirmFails(p: nat)                  // SendStart: a reply is lost
    | RenewStart(p: nat)                    // the start renewal loop
    | Poll(p: nat)                          // AwaitStart: Exists

  function LeaderKey(p: Proc): string {
    LEADER_KEY + p.name
  }

  function StartedKey(p: Proc): string {
    STARTED_KEY + p.identifier
  }

  predicate MayPost(p: Proc) {
    p.role.Leader? && p.identifier != "" && !p.notice.Posting? && !p.notice.Aborted?
  }

  /** What an act of process p does to the store. */
  function StoreAfter(s: State, a: Act, p: Proc): State {
    match a
    case Claim(_) => if p.role.Outside? then SetNX(s, LeaderKey(p), p.own, p.initial) else s
    case ClaimFails(_, applied) =>
      if p.role.Outside? && applied then SetNX(s, LeaderKey(p), p.own, p.initial) else s
    case Renew(_) => if p.role.Leader? then ExpireIn(s, LeaderKey(p), p.renewal) else s
    case Post(_) => if MayPost(p) then SetNX(s, StartedKey(p), p.identifier, p.initial) else s
    case RenewStart(_) => if p.notice.Posted? then ExpireIn(s, StartedKey(p), p.renewal) else s
    case _ => s
  }

  function Learned(s: State, p: Proc): Proc {
    match Get(s, LeaderKey(p))
    case None => p.(role := Failed)
    case Some(v) =>
      p.(identifier := v, role := if v == p.own then Leader else Follower,
         electedAt := s.now, life := s.current[LeaderKey(p)])
  }

  /** What it does to the process itself. */
  function ProcAfter(s: State, a: Act, p: Proc): Proc {
    match a
    case Claim(_) =>
      if p.role.Outside?
      then p.(role := Claimed(!Live(s, LeaderKey(p))), refreshedAt := s.now, ttl := p.initial) else p
    case ClaimFails(_, _) => if p.role.Outside? then p.(role := Failed) else p
    case Learn(_) => if p.role.Claimed? then Learned(s, p) else p
    case LearnFails(_) => if p.role.Claimed? then p.(role := Failed) else p
    case Renew(_) => if p.role.Leader? then p.(refreshedAt := s.now, ttl := p.renewal) else p
    case Post(_) => if MayPost(p) then p.(notice := Posting, posted := true) else p
    case Confirm(_) =>
      if !p.notice.Posting? then p
      else (match Get(s, StartedKey(p))
            case None => p.(notice := PostFailed)
            case Some(v) => p.(notice := if v == p.identifier then Posted else Aborted))
    case ConfirmFails(_) => if p.notice.Posting? then p.(notice := PostFailed) else p
    case Poll(_) =>
      if p.role.Follower? && p.identifier != "" && Live(s, StartedKey(p)) then p.(released := true) else p
    case _ => p
  }

  function With(s: State, i: nat, p: Proc): State
    requires i < |s.procs|
  {
    s.(procs := s.procs[i := p])
  }

  function Do(s: State, a: Act): State {
    if a.Advance? then s.(now := s.now + a.d)
    else if a.p < |s.procs|
    then With(StoreAfter(s, a, s.procs[a.p]), a.p, ProcAfter(s, a, s.procs[a.p]))
    else s
  }

  function Run(s: State, acts: seq<Act>): State {
    After(Do, s, acts)
  }

  /** Every coordinator fresh, the store empty, times to live positive. */
  predicate Starting(s: State) {
    && s.lives == [] && s.current == map[]
    && forall p <- s.procs ::
         p.role.Outside? && p.notice.NotSent? && !p.posted && !p.released && p.initial > 0 && p.renewal > 0
  }

  predicate Distinct(s: State) {
    forall i, j :: 0 <= i < j < |s.procs| ==> s.procs[i].own != s.procs[j].own
  }

  /** What never changes back in a process. */
  predicate Later(p: Proc, p': Proc) {
    && p'.own == p.own && p'.name == p.name
    && (p.role.Leader? ==> p'.role.Leader?)
    && (p.posted ==> p'.posted)
    && (!p.role.Outside? ==> !p'.role.Outside?)
    && (p.role.Leader? || p.role.Follower? ==> p'.role == p.role && p'.identifier == p.identifier)
  }

  lemma ProcAfterIsLater(s: State, a: Act, p: Proc)
    ensures Later(p, ProcAfter(s, a, p))
  {
  }

  lemma StoreAfterKeepsProcs(s: State, a: Act, p: Proc)
    ensures StoreAfter(s, a, p).procs == s.procs && StoreAfter(s, a, p).now == s.now
    ensures a.Learn? ==> StoreAfter(s, a, p) == s
  {
  }

  lemma DoIsLater(s: State, a: Act)
    ensures |Do(s, a).procs| == |s.procs|
    ensures forall q: nat | q < |s.procs| :: Later(s.procs[q], Do(s, a).procs[q])
  {
    if !a.Advance? && a.p < |s.procs| {
      StoreAfterKeepsProcs(s, a, s.procs[a.p]);
      ProcAfterIsLater(s, a, s.procs[a.p]);
    }
  }

  lemma {:induction false} ProcsKeepTheirNames(s: State, acts: seq<Act>)
    ensures |Run(s, acts).procs| == |s.procs|
    ensures forall i: nat | i < |s.procs| :: Later(s.procs[i], Run(s, acts).procs[i])
  {
    if acts == [] {
    } else {
      var t := Run(s, acts[..|acts| - 1]);
      ProcsKeepTheirNames(s, acts[..|acts| - 1]);
      DoIsLater(t, acts[|acts| - 1]);
      forall i: nat | i < |s.procs| ensures Later(s.procs[i], Run(s, acts).procs[i]) {
        assert Later(s.procs[i], t.procs[i]) && Later(t.procs[i], Run(s, acts).procs[i]);
      }
    }
  }

  /** Leader keys and started keys never collide, and each kind determines its suffix. */
  lemma KeysAreApart(x: string, y: string)
    ensures LEADER_KEY + x != STARTED_KEY + y
    ensures LEADER_KEY + x == LEADER_KEY + y ==> x == y
    ensures STARTED_KEY + x == STARTED_KEY + y ==> x == y
  {
    assert (LEADER_KEY + x)[0] == 'l' && (STARTED_KEY + y)[0] == 's';
    assert (LEADER_KEY + x)[7..] == x && (LEADER_KEY + y)[7..] == y;
    assert (STARTED_KEY + x)[8..] == x && (STARTED_KEY + y)[8..] == y;
  }

  /** A key that has run out comes back only by a SetNX, and then with the value of the
      process that makes it. */
  lemma DeadKeysStayDead(s: State, a: Act, k: string)
    requires StoreInv(s) && !Live(s, k) && Live(Do(s, a), k)
    ensures (a.Claim? || a.ClaimFails? || a.Post?) && a.p < |s.procs|
    ensures var p := s.procs[a.p];
            if a.Post? then k == StartedKey(p) && Get(Do(s, a), k) == Some(p.identifier)
            else k == LeaderKey(p) && Get(Do(s, a), k) == Some(p.own)
  {
  }

  // ------------------------------------------- without any assumption on timing

  /** Lifetimes of a key follow one another without overlap. */
  predicate StoreInv(s: State) {
    && (forall i: nat | i < |s.lives| :: s.lives[i].born <= s.now && s.lives[i].born < s.lives[i].until
                                         && s.lives[i].key in s.current && i <= s.current[s.lives[i].key])
    && (forall k <- s.current :: s.current[k] < |s.lives| && s.lives[s.current[k]].key == k)
    && (forall i: nat, j: nat | i < j < |s.lives| && s.lives[i].key == s.lives[j].key ::
          s.lives[i].until <= s.lives[j].born)
  }

  /** A process elected or turned away by a Get saw the lifetime it recorded. */
  predicate SawInv(s: State, p: Proc) {
    && p.initial > 0 && p.renewal > 0
    && (p.role.Leader? || p.role.Follower? ==>
          && p.life < |s.lives|
          && s.lives[p.life].key == LeaderKey(p) && s.lives[p.life].value == p.identifier
          && s.lives[p.life].born <= p.electedAt < s.lives[p.life].until
          && p.electedAt <= s.now
          && (p.role.Leader? <==> p.identifier == p.own))
  }

  predicate LifeInv(s: State) {
    StoreInv(s) && forall i: nat | i < |s.procs| :: SawInv(s, s.procs[i])
  }

  lemma SetNXKeepsLifeInv(s: State, k: string, v: string, ttl: nat)
    requires LifeInv(s) && ttl > 0
    ensures LifeInv(SetNX(s, k, v, ttl))
  {
    var s' := SetNX(s, k, v, ttl);
    if !Live(s, k) {
      forall i: nat | i < |s.lives| && s.lives[i].key == k ensures s.lives[i].until <= s.now {
        var c := s.current[k];
        if i < c {
          assert s.lives[i].until <= s.lives[c].born;
        }
      }
      forall i: nat | i < |s'.procs| ensures SawInv(s', s'.procs[i]) {
        assert SawInv(s, s.procs[i]);
      }
    }
  }

  lemma ExpireInKeepsLifeInv(s: State, k: string, ttl: nat)
    requires LifeInv(s) && ttl > 0
    ensures LifeInv(ExpireIn(s, k, ttl))
  {
    var s' := ExpireIn(s, k, ttl);
    if Live(s, k) {
      var c := s.current[k];
      forall i: nat | i < |s'.procs| ensures SawInv(s', s'.procs[i]) {
        assert SawInv(s, s.procs[i]);
      }
      forall i: nat, j: nat | i < j < |s'.lives| && s'.lives[i].key == s'.lives[j].key
        ensures s'.lives[i].until <= s'.lives[j].born
      {
        assert i != c;
      }
    }
  }

  lemma WithKeepsLifeInv(s: State, i: nat, p: Proc)
    requires LifeInv(s) && i < |s.procs| && SawInv(s, p)
    ensures LifeInv(With(s, i, p))
  {
    var s' := With(s, i, p);
    forall j: nat | j < |s'.procs| ensures SawInv(s', s'.procs[j]) {
      assert j != i ==> SawInv(s, s.procs[j]);
    }
  }

  lemma StoreAfterKeepsLifeInv(s: State, a: Act, p: Proc)
    requires LifeInv(s) && p in s.procs
    ensures LifeInv(StoreAfter(s, a, p))
  {
    assert p.initial > 0 && p.renewal > 0 by {
      var i: nat :| i < |s.procs| && s.procs[i] == p;
      assert SawInv(s, s.procs[i]);
    }
    match a {
      case Claim(_) => SetNXKeepsLifeInv(s, LeaderKey(p), p.own, p.initial);
      case ClaimFails(_, _) => SetNXKeepsLifeInv(s, LeaderKey(p), p.own, p.initial);
      case Renew(_) => ExpireInKeepsLifeInv(s, LeaderKey(p), p.renewal);
      case Post(_) => SetNXKeepsLifeInv(s, StartedKey(p), p.identifier, p.initial);
      case RenewStart(_) => ExpireInKeepsLifeInv(s, StartedKey(p), p.renewal);
      case _ =>
    }
  }

  lemma LearnedSaw(s: State, p: Proc)
    requires StoreInv(s) && SawInv(s, p)
    ensures SawInv(s, Learned(s, p))
  {
  }

  lemma ProcAfterSaw(s: State, a: Act, p: Proc, t: State)
    requires SawInv(t, p) && (a.Learn? ==> t == s && StoreInv(s))
    ensures SawInv(t, ProcAfter(s, a, p))
  {
    if a.Learn? {
      LearnedSaw(s, p);
    }
  }

  lemma DoKeepsLifeInv(s: State, a: Act)
    requires LifeInv(s)
    ensures LifeInv(Do(s, a))
  {
    if a.Advance? {
      forall i: nat | i < |s.procs| ensures SawInv(Do(s, a), s.procs[i]) {
        assert SawInv(s, s.procs[i]);
      }
    } else if a.p < |s.procs| {
      var p := s.procs[a.p];
      var t := StoreAfter(s, a, p);
      StoreAfterKeepsLifeInv(s, a, p);
      StoreAfterKeepsProcs(s, a, p);
      assert SawInv(t, t.procs[a.p]);
      ProcAfterSaw(s, a, p, t);
      WithKeepsLifeInv(t, a.p, ProcAfter(s, a, p));
    }
  }

  lemma {:induction false} ReachableLifeInv(s: State, acts: seq<Act>)
    requires Starting(s)
    ensures LifeInv(Run(s, acts))
  {
    if acts == [] {
      forall i: nat | i < |s.procs| ensures SawInv(s, s.procs[i]) {
        assert s.procs[i] in s.procs;
      }
    } else {
      ReachableLifeInv(s, acts[..|acts| - 1]);
      DoKeepsLifeInv(Run(s, acts[..|acts| - 1]), acts[|acts| - 1]);
    }
  }

  /** The leader key was absent at some time after one moment and not after another. */
  ghost predicate LapsedBetween(s: State, k: string, early: nat, late: nat) {
    exists i: nat, j: nat :: i < j < |s.lives| && s.lives[i].key == k && s.lives[j].key == k &&
      early < s.lives[i].until <= s.lives[j].born <= late
  }

  /** However calls are timed: one lifetime of the key elects at most one leader, and
      two leaders of one name mean that the key ran out between the Gets that
      elected them. */
  lemma TwoLeadersMeanTheKeyLapsed(s0: State, acts: seq<Act>, i: nat, j: nat)
    requires Starting(s0) && Distinct(s0) && i < |s0.procs| && j < |s0.procs| && i != j
    requires s0.procs[i].name == s0.procs[j].name
    requires var s := Run(s0, acts); |s.procs| == |s0.procs| && s.procs[i].role.Leader? && s.procs[j].role.Leader?
    ensures var s := Run(s0, acts);
            var p, q := s.procs[i], s.procs[j];
            && p.life != q.life
            && if p.life < q.life then LapsedBetween(s, LeaderKey(p), p.electedAt, q.electedAt)
               else LapsedBetween(s, LeaderKey(p), q.electedAt, p.electedAt)
  {
    ReachableLifeInv(s0, acts);
    ProcsKeepTheirNames(s0, acts);
    var s := Run(s0, acts);
    assert SawInv(s, s.procs[i]) && SawInv(s, s.procs[j]);
  }

  // ------------------------------------------------------------- the start barrier

  /** Process q made up x, leads, and has posted the start under x. */
  predicate PostedBy(s: State, x: string, q: nat) {
    q < |s.procs| && s.procs[q].own == x && s.procs[q].role.Leader? && s.procs[q].posted
  }

  predicate ClaimedBy(s: State, key: string, x: string, q: nat) {
    q < |s.procs| && s.procs[q].own == x && LeaderKey(s.procs[q]) == key && !s.procs[q].role.Outside?
  }

  /** Who can have created a lifetime, and with which value. */
  ghost predicate OriginInv(s: State, l: Life) {
    || (l.key == STARTED_KEY + l.value && StartPosted(s, l.value))
    || (exists q: nat :: ClaimedBy(s, l.key, l.value, q))
  }

  ghost predicate StartPosted(s: State, x: string) {
    exists q: nat :: PostedBy(s, x, q)
  }

  ghost predicate NoticeInv(s: State, p: Proc) {
    && !p.notice.Aborted?
    && (!p.notice.NotSent? ==> p.role.Leader?)
    && (p.released ==> p.role.Follower? && StartPosted(s, p.identifier))
  }

  ghost predicate BarrierInv(s: State) {
    && LifeInv(s)
    && (forall i: nat | i < |s.lives| :: OriginInv(s, s.lives[i]))
    && (forall i: nat | i < |s.procs| :: NoticeInv(s, s.procs[i]))
  }

  lemma PostsPersist(s: State, s': State, x: string)
    requires |s'.procs| == |s.procs|
    requires forall q: nat | q < |s.procs| :: Later(s.procs[q], s'.procs[q])
    ensures StartPosted(s, x) ==> StartPosted(s', x)
  {
    if q: nat :| PostedBy(s, x, q) {
      assert Later(s.procs[q], s'.procs[q]);
      assert PostedBy(s', x, q);
    }
  }

  lemma OriginPersists(s: State, s': State, l: Life)
    requires |s'.procs| == |s.procs|
    requires forall q: nat | q < |s.procs| :: Later(s.procs[q], s'.procs[q])
    ensures OriginInv(s, l) ==> OriginInv(s', l)
  {
    PostsPersist(s, s', l.value);
    if OriginInv(s, l) {
      if q: nat :| ClaimedBy(s, l.key, l.value, q) {
        assert Later(s.procs[q], s'.procs[q]);
        assert ClaimedBy(s', l.key, l.value, q);
      }
    }
  }

  /** A lifetime of the started key of x holds x, and its poster leads under x. */
  lemma StartedLifeOrigin(s: State, l: Life, x: string)
    requires OriginInv(s, l) && l.key == STARTED_KEY + x
    ensures l.value == x && StartPosted(s, x)
  {
    KeysAreApart(l.value, x);
    if q: nat :| ClaimedBy(s, l.key, l.value, q) {
      KeysAreApart(s.procs[q].name, x);
    }
  }

  lemma NewLifeOrigin(s: State, a: Act, l: Life)
    requires LifeInv(s) && !a.Advance? && a.p < |s.procs|
    requires var t := StoreAfter(s, a, s.procs[a.p]); |t.lives| > |s.lives| && l == t.lives[|s.lives|]
    ensures OriginInv(Do(s, a), l)
  {
    assert SawInv(s, s.procs[a.p]);
    if a.Post? {
      assert PostedBy(Do(s, a), l.value, a.p);
    } else {
      assert ClaimedBy(Do(s, a), l.key, l.value, a.p);
    }
  }

  /** A store operation keeps the key and the value of every lifetime. */
  lemma StoreAfterKeepsLives(s: State, a: Act, p: Proc)
    requires StoreInv(s)
    ensures |s.lives| <= |StoreAfter(s, a, p).lives| <= |s.lives| + 1
    ensures forall i: nat | i < |s.lives| ::
              StoreAfter(s, a, p).lives[i] == s.lives[i].(until := StoreAfter(s, a, p).lives[i].until)
  {
  }

  lemma DoKeepsOrigins(s: State, a: Act, i: nat)
    requires BarrierInv(s) && i < |Do(s, a).lives|
    ensures OriginInv(Do(s, a), Do(s, a).lives[i])
  {
    var s' := Do(s, a);
    DoIsLater(s, a);
    if a.Advance? || a.p >= |s.procs| {
      OriginPersists(s, s', s.lives[i]);
    } else {
      StoreAfterKeepsLives(s, a, s.procs[a.p]);
      if i < |s.lives| {
        OriginPersists(s, s', s.lives[i]);
      } else {
        NewLifeOrigin(s, a, s'.lives[i]);
      }
    }
  }

  /** A started key that is live holds its own suffix, and its poster leads under it. */
  lemma StartedKeyHolds(s: State, x: string)
    requires BarrierInv(s) && Live(s, STARTED_KEY + x)
    ensures Get(s, STARTED_KEY + x) == Some(x) && StartPosted(s, x)
  {
    var l := s.lives[s.current[STARTED_KEY + x]];
    assert OriginInv(s, l);
    StartedLifeOrigin(s, l, x);
  }

  /** What the two acts that look at the started key make of it. */
  lemma NoticeOfKey(s: State, a: Act, p: Proc)
    requires NoticeInv(s, p) && (a.Confirm? || a.Poll?)
    requires Live(s, StartedKey(p)) ==> Get(s, StartedKey(p)) == Some(p.identifier) && StartPosted(s, p.identifier)
    ensures NoticeInv(s, ProcAfter(s, a, p))
  {
  }

  /** No other act than these two looks at the started key. */
  lemma NoticeOtherwise(s: State, a: Act, p: Proc)
    requires NoticeInv(s, p) && !a.Confirm? && !a.Poll?
    ensures NoticeInv(s, ProcAfter(s, a, p))
  {
    var p' := ProcAfter(s, a, p);
    assert p'.released == p.released && !p'.notice.Aborted?;
    assert !p'.notice.NotSent? ==> p'.role.Leader?;
    assert p.released ==> p'.role.Follower? && p'.identifier == p.identifier;
  }

  /** The start marks of one process after one act. */
  lemma NoticeAfter(s: State, a: Act, p: Proc)
    requires BarrierInv(s) && NoticeInv(s, p)
    ensures NoticeInv(s, ProcAfter(s, a, p))
  {
    if a.Confirm? || a.Poll? {
      if Live(s, StartedKey(p)) {
        StartedKeyHolds(s, p.identifier);
      }
      NoticeOfKey(s, a, p);
    } else {
      NoticeOtherwise(s, a, p);
    }
  }

  lemma DoKeepsNotice(s: State, a: Act, i: nat)
    requires BarrierInv(s) && i < |s.procs|
    ensures |Do(s, a).procs| == |s.procs| && NoticeInv(Do(s, a), Do(s, a).procs[i])
  {
    var s' := Do(s, a);
    DoIsLater(s, a);
    if !a.Advance? && a.p < |s.procs| {
      StoreAfterKeepsProcs(s, a, s.procs[a.p]);
      NoticeAfter(s, a, s.procs[a.p]);
    }
    assert NoticeInv(s, s.procs[i]);
    assert NoticeInv(s, s'.procs[i]);
    PostsPersist(s, s', s'.procs[i].identifier);
  }

  lemma DoKeepsBarrierInv(s: State, a: Act)
    requires BarrierInv(s)
    ensures BarrierInv(Do(s, a))
  {
    DoKeepsLifeInv(s, a);
    DoIsLater(s, a);
    forall i: nat | i < |Do(s, a).lives| ensures OriginInv(Do(s, a), Do(s, a).lives[i]) {
      DoKeepsOrigins(s, a, i);
    }
    forall i: nat | i < |Do(s, a).procs| ensures NoticeInv(Do(s, a), Do(s, a).procs[i]) {
      DoKeepsNotice(s, a, i);
    }
  }

  lemma {:induction false} RunKeepsBarrierInv(s: State, acts: seq<Act>)
    requires BarrierInv(s)
    ensures BarrierInv(Run(s, acts))
  {
    if acts == [] {
    } else {
      RunKeepsBarrierInv(s, acts[..|acts| - 1]);
      DoKeepsBarrierInv(Run(s, acts[..|acts| - 1]), acts[|acts| - 1]);
    }
  }

  lemma ReachableBarrierInv(s: State, acts: seq<Act>)
    requires Starting(s)
    ensures BarrierInv(Run(s, acts))
  {
    ReachableLifeInv(s, []);
    forall i: nat | i < |s.procs| ensures NoticeInv(s, s.procs[i]) {
      assert s.procs[i] in s.procs;
    }
    RunKeepsBarrierInv(s, acts);
  }

  /** The abort on a mismatch in `SendStart` cannot happen, and a follower is released
      only by a start posted by the leader whose identifier it recorded: another
      process of its own name. */
  lemma ReleasedOnlyByItsLeader(s0: State, acts: seq<Act>, i: nat)
    requires Starting(s0) && Distinct(s0) && i < |s0.procs|
    ensures var s := Run(s0, acts);
            && |s.procs| == |s0.procs|
            && !s.procs[i].notice.Aborted?
            && (s.procs[i].released ==>
                  exists q: nat ::
                    q != i && PostedBy(s, s.procs[i].identifier, q) && s.procs[q].name == s.procs[i].name)
  {
    ReachableBarrierInv(s0, acts);
    ProcsKeepTheirNames(s0, acts);
    var s := Run(s0, acts);
    assert NoticeInv(s, s.procs[i]);
    if s.procs[i].released {
      var q := FollowedProc(s, i);
      var poster: nat :| PostedBy(s, s.procs[i].identifier, poster);
      assert Later(s0.procs[q], s.procs[q]) && Later(s0.procs[poster], s.procs[poster]);
      assert poster == q;
    }
  }

  /** A follower holds the identifier of another process of its name. */
  lemma FollowedProc(s: State, i: nat) returns (q: nat)
    requires BarrierInv(s) && i < |s.procs| && s.procs[i].role.Follower?
    ensures q < |s.procs| && q != i && s.procs[q].own == s.procs[i].identifier && s.procs[q].name == s.procs[i].name
  {
    var p := s.procs[i];
    assert SawInv(s, p);
    var l := s.lives[p.life];
    assert OriginInv(s, l);
    KeysAreApart(p.name, l.value);
    q :| ClaimedBy(s, l.key, l.value, q);
    KeysAreApart(s.procs[q].name, p.name);
  }
}
