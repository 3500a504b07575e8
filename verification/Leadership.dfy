/** Election when renewals keep up: the timing under which the coordinator's protocol
    has exactly one leader (coordinator/coordinator.go over storage/rediscache.go).
 */
module Leadership {
  import opened Options
  import opened Runs
  import opened Election

  predicate Renews(p: Proc) {
    p.role == Claimed(true) || p.role.Leader?
  }

  /** Nothing fails, and time never passes the end of the time to live that a process
      due to renew has itself set last. */
  predicate Gentle(s: State, a: Act) {
    match a
    case Advance(d) => forall p <- s.procs :: Renews(p) ==> s.now + d < p.refreshedAt + p.ttl
    case ClaimFails(_, _) => false
    case LearnFails(_) => false
    case _ => true
  }

  predicate Orderly(s: State, acts: seq<Act>) {
    acts == [] || (Orderly(s, acts[..|acts| - 1]) && Gentle(Run(s, acts[..|acts| - 1]), acts[|acts| - 1]))
  }

  /** Process w owns the live leader key, whose end is the one w set. */
  predicate Holds(s: State, w: nat) {
    w < |s.procs| &&
    var p := s.procs[w];
    && Renews(p) && (p.role.Leader? ==> p.identifier == p.own)
    && Live(s, LeaderKey(p))
    && s.lives[s.current[LeaderKey(p)]].value == p.own
    && s.lives[s.current[LeaderKey(p)]].until == p.refreshedAt + p.ttl
  }

  predicate Behind(s: State, p: Proc, w: nat) {
    w < |s.procs| && s.procs[w].name == p.name &&
    (p.role == Claimed(false) || (p.role.Follower? && p.identifier == s.procs[w].own))
  }

  ghost predicate Placed(s: State, i: nat)
    requires i < |s.procs|
  {
    s.procs[i].role.Outside? || Holds(s, i) || exists w: nat :: Holds(s, w) && Behind(s, s.procs[i], w)
  }

  /** A leader key that exists has a holder. */
  ghost predicate Held(s: State, key: string) {
    exists w: nat :: Holds(s, w) && LeaderKey(s.procs[w]) == key
  }

  ghost predicate TimelyInv(s: State) {
    && LifeInv(s) && Distinct(s)
    && (forall i: nat | i < |s.procs| :: Placed(s, i))
    && (forall i: nat | i < |s.procs| && LeaderKey(s.procs[i]) in s.current :: Held(s, LeaderKey(s.procs[i])))
  }

  lemma OneHolder(s: State, i: nat, j: nat)
    requires Distinct(s) && Holds(s, i) && Holds(s, j) && s.procs[i].name == s.procs[j].name
    ensures i == j
  {
  }

  /** The leader key k of holder w is as it was. */
  predicate KeyUntouched(s: State, s': State, k: string) {
    && s'.now == s.now && k in s.current && k in s'.current && s'.current[k] == s.current[k] < |s.lives|
    && s.current[k] < |s'.lives| && s'.lives[s.current[k]] == s.lives[s.current[k]]
  }

  /** A store operation on one key leaves every other key as it was. */
  lemma OtherKeysUntouched(s: State, k: string, v: string, ttl: nat, other: string)
    requires StoreInv(s) && k != other && other in s.current
    ensures KeyUntouched(s, SetNX(s, k, v, ttl), other)
    ensures KeyUntouched(s, ExpireIn(s, k, ttl), other)
  {
  }

  lemma TouchesOwnKeysOnly(s: State, a: Act, i: nat)
    requires StoreInv(s) && !a.Advance? && i < |s.procs| && a.p < |s.procs|
    requires LeaderKey(s.procs[i]) in s.current
    requires LeaderKey(s.procs[i]) == LeaderKey(s.procs[a.p]) ==>
               (a.Claim? || a.ClaimFails? ==> !s.procs[a.p].role.Outside?) &&
               (a.Renew? ==> !s.procs[a.p].role.Leader?)
    ensures KeyUntouched(s, StoreAfter(s, a, s.procs[a.p]), LeaderKey(s.procs[i]))
  {
    var p, k := s.procs[a.p], LeaderKey(s.procs[i]);
    KeysAreApart(s.procs[i].name, p.identifier);
    OtherKeysUntouched(s, StartedKey(p), p.identifier, p.initial, k);
    OtherKeysUntouched(s, StartedKey(p), p.identifier, p.renewal, k);
    if k != LeaderKey(p) {
      OtherKeysUntouched(s, LeaderKey(p), p.own, p.initial, k);
      OtherKeysUntouched(s, LeaderKey(p), p.own, p.renewal, k);
    }
  }

  lemma LeaderKeysAppearByClaimOnly(s: State, a: Act, key: string)
    requires !a.Advance? && a.p < |s.procs| && (exists n: string :: key == LEADER_KEY + n)
    ensures key in Do(s, a).current && key !in s.current ==>
              (a.Claim? || a.ClaimFails?) && key == LeaderKey(s.procs[a.p])
  {
    var n: string :| key == LEADER_KEY + n;
    KeysAreApart(n, s.procs[a.p].identifier);
  }

  /** A holder whose key is untouched still holds it after a change that keeps its
      claim, whoever made the change. */
  lemma HoldsAfter(s: State, t: State, w: nat, i: nat, p: Proc)
    requires Holds(s, w) && KeyUntouched(s, t, LeaderKey(s.procs[w])) && t.procs == s.procs && i < |t.procs|
    requires i == w ==> Renews(p) && (p.role.Leader? ==> p.identifier == p.own) && p.own == s.procs[w].own &&
                        p.name == s.procs[w].name && p.refreshedAt == s.procs[w].refreshedAt && p.ttl == s.procs[w].ttl
    ensures Holds(With(t, i, p), w)
  {
    var k := LeaderKey(s.procs[w]);
    assert LeaderKey(With(t, i, p).procs[w]) == k;
  }

  lemma HolderRenews(s: State, w: nat)
    requires LifeInv(s) && Holds(s, w) && s.procs[w].role.Leader?
    ensures Holds(Do(s, Renew(w)), w)
  {
    assert SawInv(s, s.procs[w]);
  }

  /** What the holder's other acts leave of its claim. */
  lemma HolderKeepsClaim(s: State, a: Act)
    requires LifeInv(s) && Gentle(s, a) && !a.Advance? && Holds(s, a.p) && !(a.Renew? && s.procs[a.p].role.Leader?)
    ensures var p, p' := s.procs[a.p], ProcAfter(s, a, s.procs[a.p]);
            Renews(p') && (p'.role.Leader? ==> p'.identifier == p'.own) && p'.own == p.own &&
            p'.name == p.name && p'.refreshedAt == p.refreshedAt && p'.ttl == p.ttl
  {
  }

  lemma HolderActs(s: State, a: Act)
    requires TimelyInv(s) && Gentle(s, a) && !a.Advance? && Holds(s, a.p)
    ensures |Do(s, a).procs| == |s.procs| && Holds(Do(s, a), a.p)
  {
    var p := s.procs[a.p];
    StoreAfterKeepsProcs(s, a, p);
    if a.Renew? && p.role.Leader? {
      HolderRenews(s, a.p);
    } else {
      HolderKeepsClaim(s, a);
      TouchesOwnKeysOnly(s, a, a.p);
      HoldsAfter(s, StoreAfter(s, a, p), a.p, a.p, ProcAfter(s, a, p));
    }
  }

  lemma HolderPersists(s: State, a: Act, w: nat)
    requires TimelyInv(s) && Gentle(s, a) && Holds(s, w)
    ensures |Do(s, a).procs| == |s.procs| && Holds(Do(s, a), w)
    ensures Do(s, a).procs[w].own == s.procs[w].own && Do(s, a).procs[w].name == s.procs[w].name
  {
    DoIsLater(s, a);
    assert Later(s.procs[w], Do(s, a).procs[w]);
    if a.Advance? {
      assert s.procs[w] in s.procs;
    } else if a.p == w {
      HolderActs(s, a);
    } else if a.p < |s.procs| {
      OthersLeaveHolder(s, a, w);
    }
  }

  lemma OthersLeaveHolder(s: State, a: Act, w: nat)
    requires TimelyInv(s) && Gentle(s, a) && Holds(s, w) && !a.Advance? && a.p != w && a.p < |s.procs|
    ensures |Do(s, a).procs| == |s.procs| && Holds(Do(s, a), w)
  {
    var p, k := s.procs[a.p], LeaderKey(s.procs[w]);
    StoreAfterKeepsProcs(s, a, p);
    if LeaderKey(p) == k {
      KeysAreApart(s.procs[w].name, p.name);
      SameNameIsNoLeader(s, w, a.p);
    }
    if a.Claim? && p.role.Outside? && LeaderKey(p) == k {
      assert StoreAfter(s, a, p) == s;
    } else {
      TouchesOwnKeysOnly(s, a, w);
    }
    HoldsAfter(s, StoreAfter(s, a, p), w, a.p, ProcAfter(s, a, p));
  }

  lemma SameNameIsNoLeader(s: State, w: nat, i: nat)
    requires TimelyInv(s) && Holds(s, w) && i < |s.procs| && i != w && s.procs[i].name == s.procs[w].name
    ensures !s.procs[i].role.Leader?
  {
    assert Placed(s, i);
  }

  lemma ClaimantIsPlaced(s: State, i: nat)
    requires TimelyInv(s) && i < |s.procs| && s.procs[i].role.Outside?
    ensures |Do(s, Claim(i)).procs| == |s.procs| && Placed(Do(s, Claim(i)), i)
  {
    var p, s' := s.procs[i], Do(s, Claim(i));
    StoreAfterKeepsProcs(s, Claim(i), p);
    assert SawInv(s, p);
    if LeaderKey(p) in s.current {
      var w: nat :| Holds(s, w) && LeaderKey(s.procs[w]) == LeaderKey(p);
      KeysAreApart(s.procs[w].name, p.name);
      HolderPersists(s, Claim(i), w);
      assert Behind(s', s'.procs[i], w);
    } else {
      assert Holds(s', i);
    }
  }

  lemma JoinerStaysBehind(s: State, a: Act, w: nat)
    requires TimelyInv(s) && Gentle(s, a) && !a.Advance? && a.p < |s.procs|
    requires Holds(s, w) && Behind(s, s.procs[a.p], w)
    ensures Behind(s, ProcAfter(s, a, s.procs[a.p]), w)
  {
    if a.Learn? && s.procs[a.p].role.Claimed? {
      assert s.procs[w].own != s.procs[a.p].own;
    }
  }

  /** The process that acts finds its place again. */
  lemma ActorIsPlaced(s: State, a: Act)
    requires TimelyInv(s) && Gentle(s, a) && !a.Advance? && a.p < |s.procs|
    ensures |Do(s, a).procs| == |s.procs| && Placed(Do(s, a), a.p)
  {
    var p, s' := s.procs[a.p], Do(s, a);
    StoreAfterKeepsProcs(s, a, p);
    assert Placed(s, a.p);
    if Holds(s, a.p) {
      HolderPersists(s, a, a.p);
    } else if p.role.Outside? {
      if a.Claim? {
        ClaimantIsPlaced(s, a.p);
      }
    } else {
      var w: nat :| Holds(s, w) && Behind(s, p, w);
      HolderPersists(s, a, w);
      JoinerStaysBehind(s, a, w);
      assert Behind(s', s'.procs[a.p], w);
    }
  }

  lemma DoKeepsTimelyInv(s: State, a: Act)
    requires TimelyInv(s) && Gentle(s, a)
    ensures TimelyInv(Do(s, a))
  {
    var s' := Do(s, a);
    DoKeepsLifeInv(s, a);
    DoIsLater(s, a);
    assert Distinct(s') by {
      forall i, j | 0 <= i < j < |s'.procs| ensures s'.procs[i].own != s'.procs[j].own {
        assert Later(s.procs[i], s'.procs[i]) && Later(s.procs[j], s'.procs[j]);
      }
    }
    forall i: nat | i < |s'.procs| ensures Placed(s', i) {
      if !a.Advance? && a.p == i {
        ActorIsPlaced(s, a);
      } else {
        BystanderIsPlaced(s, a, i);
      }
    }
    forall i: nat | i < |s'.procs| && LeaderKey(s'.procs[i]) in s'.current
      ensures Held(s', LeaderKey(s'.procs[i]))
    {
      KeyStaysHeld(s, a, i);
    }
  }

  lemma BystanderIsPlaced(s: State, a: Act, i: nat)
    requires TimelyInv(s) && Gentle(s, a) && i < |s.procs| && (a.Advance? || a.p != i)
    ensures |Do(s, a).procs| == |s.procs| && Placed(Do(s, a), i)
  {
    var s' := Do(s, a);
    DoIsLater(s, a);
    if !a.Advance? && a.p < |s.procs| {
      StoreAfterKeepsProcs(s, a, s.procs[a.p]);
    }
    assert s'.procs[i] == s.procs[i] && Placed(s, i);
    if Holds(s, i) {
      HolderPersists(s, a, i);
    } else if !s.procs[i].role.Outside? {
      var w: nat :| Holds(s, w) && Behind(s, s.procs[i], w);
      HolderPersists(s, a, w);
      assert Behind(s', s'.procs[i], w);
    }
  }

  lemma KeyStaysHeld(s: State, a: Act, i: nat)
    requires TimelyInv(s) && Gentle(s, a)
    requires |Do(s, a).procs| == |s.procs| && i < |s.procs| && LeaderKey(Do(s, a).procs[i]) in Do(s, a).current
    ensures Held(Do(s, a), LeaderKey(Do(s, a).procs[i]))
  {
    var s' := Do(s, a);
    DoIsLater(s, a);
    var key := LeaderKey(s'.procs[i]);
    assert Later(s.procs[i], s'.procs[i]) && key == LeaderKey(s.procs[i]);
    if key in s.current {
      var w: nat :| Holds(s, w) && LeaderKey(s.procs[w]) == key;
      HolderPersists(s, a, w);
      assert Holds(s', w) && LeaderKey(s'.procs[w]) == key;
    } else {
      assert key == LEADER_KEY + s.procs[i].name;
      LeaderKeysAppearByClaimOnly(s, a, key);
      ActorIsPlaced(s, a);
      StoreAfterKeepsProcs(s, a, s.procs[a.p]);
      assert SawInv(s, s.procs[a.p]);
      assert Holds(s', a.p) && LeaderKey(s'.procs[a.p]) == key;
    }
  }

  lemma {:induction false} ReachableTimelyInv(s: State, acts: seq<Act>)
    requires Starting(s) && Distinct(s) && Orderly(s, acts)
    ensures TimelyInv(Run(s, acts))
  {
    if acts == [] {
      ReachableLifeInv(s, acts);
      forall i: nat | i < |s.procs| ensures Placed(s, i) {
        assert s.procs[i] in s.procs;
      }
    } else {
      ReachableTimelyInv(s, acts[..|acts| - 1]);
      DoKeepsTimelyInv(Run(s, acts[..|acts| - 1]), acts[|acts| - 1]);
    }
  }

  /** Process i's place in its election: it has not failed, its leader key is live
      once it has claimed, no leader of its name is another one or has another
      identifier than the one i follows, and a decided election has a leader. */
  ghost predicate WellLed(s: State, i: nat)
    requires i < |s.procs|
  {
    var p := s.procs[i];
    && !p.role.Failed?
    && (!p.role.Outside? ==> Live(s, LeaderKey(p)))
    && (forall j: nat | j < |s.procs| && s.procs[j].role.Leader? && s.procs[j].name == p.name ::
          && (p.role.Leader? ==> i == j)
          && (p.role.Follower? ==> p.identifier == s.procs[j].own))
    && (!p.role.Outside? && (forall q <- s.procs :: q.name == p.name ==> !q.role.Claimed?) ==>
          exists j: nat :: j < |s.procs| && s.procs[j].role.Leader? && s.procs[j].name == p.name)
  }

  lemma LeadersAreTheHolder(s: State, w: nat, j: nat)
    requires TimelyInv(s) && Holds(s, w) && j < |s.procs| && s.procs[j].role.Leader?
    requires s.procs[j].name == s.procs[w].name
    ensures j == w
  {
    assert Placed(s, j);
    OneHolder(s, j, w);
  }

  lemma TimelyIsWellLed(s: State, i: nat)
    requires TimelyInv(s) && i < |s.procs|
    ensures WellLed(s, i)
  {
    assert Placed(s, i);
    if !s.procs[i].role.Outside? {
      var w: nat := i;
      if !Holds(s, i) {
        w :| Holds(s, w) && Behind(s, s.procs[i], w);
      }
      assert s.procs[w] in s.procs && s.procs[w].name == s.procs[i].name;
      forall j: nat | j < |s.procs| && s.procs[j].role.Leader? && s.procs[j].name == s.procs[i].name
        ensures j == w
      {
        LeadersAreTheHolder(s, w, j);
      }
    }
  }

  /** With distinct identifiers, no failures, and every renewal made before the time
      to live in force runs out, every process is well led in every reachable state:
      the leader key never lapses and at most one process of a name is ever leader. */
  lemma ExactlyOneLeader(s0: State, acts: seq<Act>, i: nat)
    requires Starting(s0) && Distinct(s0) && Orderly(s0, acts) && i < |s0.procs|
    ensures |Run(s0, acts).procs| == |s0.procs| && WellLed(Run(s0, acts), i)
  {
    ReachableTimelyInv(s0, acts);
    ProcsKeepTheirNames(s0, acts);
    TimelyIsWellLed(Run(s0, acts), i);
  }

  /** The time to live that the holder of a leader key has set last is over. */
  predicate Overdue(p: Proc, time: int) {
    p.refreshedAt + p.ttl <= time
  }

  /** A claim leaves a live key as it is and otherwise fills it with the claimant. */
  lemma ClaimTakesExactlyAnUnheldKey(s: State, j: nat)
    requires j < |s.procs| && s.procs[j].role.Outside? && s.procs[j].initial > 0
    ensures var p, s' := s.procs[j], Do(s, Claim(j));
            && |s'.procs| == |s.procs| && Live(s', LeaderKey(p)) && s'.procs[j] == ProcAfter(s, Claim(j), p)
            && Get(s', LeaderKey(p)) == if Live(s, LeaderKey(p)) then Get(s, LeaderKey(p)) else Some(p.own)
  {
    StoreAfterKeepsProcs(s, Claim(j), s.procs[j]);
  }

  /** The key does not run out while these acts happen. */
  predicate StaysLive(s: State, k: string, acts: seq<Act>) {
    Live(Run(s, acts), k) && (acts == [] || StaysLive(s, k, acts[..|acts| - 1]))
  }

  /** Time passes and others act. */
  predicate OthersOnly(acts: seq<Act>, j: nat) {
    forall a <- acts :: a.Advance? || a.p != j
  }

  /** No act changes what a key holds as long as it lives. */
  lemma LiveKeyKeepsValue(s: State, a: Act, k: string)
    requires Live(s, k) && Live(Do(s, a), k)
    ensures Get(Do(s, a), k) == Get(s, k)
  {
    if !a.Advance? && a.p < |s.procs| {
      var p := s.procs[a.p];
      StoreOpsKeepValue(s, LeaderKey(p), p.own, p.initial, k);
      StoreOpsKeepValue(s, LeaderKey(p), p.own, p.renewal, k);
      StoreOpsKeepValue(s, StartedKey(p), p.identifier, p.initial, k);
      StoreOpsKeepValue(s, StartedKey(p), p.identifier, p.renewal, k);
      assert StoreValue(StoreAfter(s, a, p), k) == StoreValue(s, k);
    }
  }

  function StoreValue(s: State, k: string): Option<string> {
    if k in s.current && s.current[k] < |s.lives| then Some(s.lives[s.current[k]].value) else None
  }

  lemma StoreOpsKeepValue(s: State, key: string, v: string, ttl: nat, k: string)
    requires Live(s, k)
    ensures StoreValue(SetNX(s, key, v, ttl), k) == StoreValue(s, k)
    ensures StoreValue(ExpireIn(s, key, ttl), k) == StoreValue(s, k)
  {
  }

  lemma {:induction false} OthersKeepKeyAndClaim(s: State, j: nat, k: string, acts: seq<Act>)
    requires j < |s.procs| && OthersOnly(acts, j) && StaysLive(s, k, acts)
    ensures |Run(s, acts).procs| == |s.procs| && Run(s, acts).procs[j] == s.procs[j]
    ensures Live(s, k) && Live(Run(s, acts), k) && Get(Run(s, acts), k) == Get(s, k)
  {
    if acts == [] {
    } else {
      var before, a := acts[..|acts| - 1], acts[|acts| - 1];
      var t := Run(s, before);
      assert a in acts;
      OthersKeepKeyAndClaim(s, j, k, before);
      LiveKeyKeepsValue(t, a, k);
      DoIsLater(t, a);
      if !a.Advance? && a.p < |t.procs| {
        StoreAfterKeepsProcs(t, a, t.procs[a.p]);
      }
    }
  }

  /** `AwaitLeader` of process j: SetNX, whatever others do, Get. */
  function Joins(j: nat, between: seq<Act>): seq<Act> {
    [Claim(j)] + between + [Learn(j)]
  }

  /** What a claimant learns while the key lives: it leads exactly if the key was unheld. */
  lemma JoinerLearns(s: State, j: nat, between: seq<Act>)
    requires j < |s.procs| && s.procs[j].role.Outside? && s.procs[j].initial > 0 && OthersOnly(between, j)
    requires StaysLive(Do(s, Claim(j)), LeaderKey(s.procs[j]), between)
    ensures var k, t := LeaderKey(s.procs[j]), Run(s, Joins(j, between));
            var value := if Live(s, k) then Get(s, k) else Some(s.procs[j].own);
            && |t.procs| == |s.procs| && value.Some?
            && t.procs[j].role == (if value == Some(s.procs[j].own) then Leader else Follower)
            && t.procs[j].identifier == value.value
  {
    var s1, k := Do(s, Claim(j)), LeaderKey(s.procs[j]);
    ClaimTakesExactlyAnUnheldKey(s, j);
    OthersKeepKeyAndClaim(s1, j, k, between);
    AfterOne(Do, s, Claim(j));
    AfterBoth(Do, s, [Claim(j)], between);
    AfterBoth(Do, s, [Claim(j)] + between, [Learn(j)]);
    AfterOne(Do, Run(s1, between), Learn(j));
    StoreAfterKeepsProcs(Run(s1, between), Learn(j), Run(s1, between).procs[j]);
  }

  /** After a pause, a second process of a leader's name that joins becomes leader too if
      and only if the leader's last renewal has run out by then; if it has not, it follows
      that leader. The first leads on in either case. Between the joiner's SetNX and its
      Get others may do anything, as long as the key that it found or made lives. */
  lemma SecondLeaderExactlyWhenLate(s: State, w: nat, j: nat, d: nat, between: seq<Act>)
    requires TimelyInv(s) && Holds(s, w) && s.procs[w].role.Leader?
    requires j < |s.procs| && s.procs[j].role.Outside? && s.procs[j].name == s.procs[w].name
    requires OthersOnly(between, j) && StaysLive(Do(Do(s, Advance(d)), Claim(j)), LeaderKey(s.procs[j]), between)
    ensures var t := Run(Do(s, Advance(d)), Joins(j, between));
            && |t.procs| == |s.procs| && t.procs[w].role.Leader? && t.procs[w].identifier == s.procs[w].own
            && (t.procs[j].role.Leader? <==> Overdue(s.procs[w], s.now + d))
            && (!Overdue(s.procs[w], s.now + d) ==>
                  t.procs[j].role.Follower? && t.procs[j].identifier == s.procs[w].own)
  {
    var s1 := Do(s, Advance(d));
    assert SawInv(s, s.procs[j]) && s.procs[w].own != s.procs[j].own;
    assert Live(s1, LeaderKey(s.procs[j])) <==> !Overdue(s.procs[w], s.now + d);
    JoinerLearns(s1, j, between);
    ProcsKeepTheirNames(s1, Joins(j, between));
    assert Later(s1.procs[w], Run(s1, Joins(j, between)).procs[w]);
  }

  /** So it is after every orderly run: the timing that `Orderly` asks of renewals cannot
      be relaxed as long as someone may still join. */
  lemma SecondLeaderInRunExactlyWhenLate(s0: State, acts: seq<Act>, i: nat, j: nat, d: nat, between: seq<Act>)
    requires Starting(s0) && Distinct(s0) && Orderly(s0, acts)
    requires var s := Run(s0, acts);
             && i < |s.procs| && s.procs[i].role.Leader?
             && j < |s.procs| && s.procs[j].role.Outside? && s.procs[j].name == s.procs[i].name
             && OthersOnly(between, j)
             && StaysLive(Do(Do(s, Advance(d)), Claim(j)), LeaderKey(s.procs[j]), between)
    ensures var s := Run(s0, acts);
            var t := Run(s0, acts + ([Advance(d)] + Joins(j, between)));
            && |t.procs| == |s.procs| && t.procs[i].role.Leader?
            && (t.procs[j].role.Leader? <==> Overdue(s.procs[i], s.now + d))
  {
    var s := Run(s0, acts);
    ReachableTimelyInv(s0, acts);
    assert Placed(s, i);
    SecondLeaderExactlyWhenLate(s, i, j, d, between);
    AfterBoth(Do, s0, acts, [Advance(d)] + Joins(j, between));
    AfterBoth(Do, s, [Advance(d)], Joins(j, between));
    AfterOne(Do, s, Advance(d));
  }

  /** An instance that can be reached: two processes with times to live of one. */
  lemma LateRenewalElectsTwo(name: string, first: string, second: string)
    requires first != second
    ensures var p := Proc(name, first, 1, 1, Outside, "", 0, 0, 0, 0, NotSent, false, false);
            var s0 := State(0, [], map[], [p, p.(own := second)]);
            var t := Run(s0, [Claim(0), Learn(0)] + ([Advance(1)] + Joins(1, [])));
            Starting(s0) && Distinct(s0) && Orderly(s0, [Claim(0), Learn(0)]) &&
            |t.procs| == 2 && t.procs[0].role.Leader? && t.procs[1].role.Leader?
  {
    var p := Proc(name, first, 1, 1, Outside, "", 0, 0, 0, 0, NotSent, false, false);
    var s0 := State(0, [], map[], [p, p.(own := second)]);
    AfterOne(Do, s0, Claim(0));
    AfterTwo(Do, s0, Claim(0), Learn(0));
    assert [Claim(0), Learn(0)][..1] == [Claim(0)] && [Claim(0)][..0] == [];
    assert Orderly(s0, []);
    assert Orderly(s0, [Claim(0)]);
    var later := Do(Run(s0, [Claim(0), Learn(0)]), Advance(1));
    ClaimTakesExactlyAnUnheldKey(later, 1);
    assert Run(Do(later, Claim(1)), []) == Do(later, Claim(1));
    SecondLeaderInRunExactlyWhenLate(s0, [Claim(0), Learn(0)], 0, 1, 1, []);
  }
}
