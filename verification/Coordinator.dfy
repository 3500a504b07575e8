/** A coordinator in the source's own form (coordinator/coordinator.go): an object that
    assigns its `identifier` and `isLeader` while other processes change the shared
    store between its calls (storage/rediscache.go), proved against the machine of
    `Election`.
 */
module Coordinator {
  import opened Options
  import opened Runs
  import opened Election

  /** The shared store together with what is recorded of every process. Each call is
      made on behalf of an act, which says what it means to its process. */
  class RedisCache {
    var world: State

    constructor (world: State)
      ensures this.world == world
    {
      this.world := world;
    }

    /** Other processes act, and time passes, before the next call is served. */
    method Elapse(others: seq<Act>)
      modifies this
      ensures world == Run(old(world), others)
    {
      for i := 0 to |others|
        invariant world == Run(old(world), others[..i])
      {
        AfterOneMore(Do, old(world), others, i);
        world := Do(world, others[i]);
      }
      assert others[..|others|] == others;
    }

    method SetNX(k: string, v: string, life: nat, act: Act)
      requires !act.Advance? && act.p < |world.procs|
      requires StoreAfter(world, act, world.procs[act.p]) == Election.SetNX(world, k, v, life)
      modifies this
      ensures world == Do(old(world), act)
    {
      var p := ProcAfter(world, act, world.procs[act.p]);
      if !Live(world, k) {
        world := world.(lives := world.lives + [Life(k, v, world.now, world.now + life)],
                        current := world.current[k := |world.lives|]);
      }
      world := With(world, act.p, p);
    }

    method Get(k: string, act: Act) returns (v: Option<string>)
      requires !act.Advance? && act.p < |world.procs| && StoreAfter(world, act, world.procs[act.p]) == world
      modifies this
      ensures v == Election.Get(old(world), k) && world == Do(old(world), act)
    {
      v := if Live(world, k) then Some(world.lives[world.current[k]].value) else None;
      world := With(world, act.p, ProcAfter(world, act, world.procs[act.p]));
    }

    /** A failed call counts no key. */
    method Exists(k: string, fails: bool) returns (found: bool, err: bool)
      ensures err == fails && (found <==> !fails && Live(world, k))
    {
      found, err := !fails && Live(world, k), fails;
    }

    /** SetNX and then Get, with whatever others do in between. */
    method TrySet(k: string, v: string, life: nat, put: Act, others: seq<Act>, get: Act)
      returns (value: Option<string>)
      requires !put.Advance? && put.p < |world.procs|
      requires StoreAfter(world, put, world.procs[put.p]) == Election.SetNX(world, k, v, life)
      requires Reads(get) && get.p == put.p
      modifies this
      ensures world == Run(old(world), [put] + others + [get])
      ensures value == Election.Get(Run(old(world), [put] + others), k)
    {
      SetNX(k, v, life, put);
      AfterOne(Do, old(world), put);
      AfterBoth(Do, old(world), [put], others);
      Elapse(others);
      assert world == Run(old(world), [put] + others);
      ProcsKeepTheirNames(old(world), [put] + others);
      AfterBoth(Do, old(world), [put] + others, [get]);
      value := Get(k, get);
    }
  }

  /** What befalls a `TrySet`: the request for SetNX or its reply is lost, or others act
      before the Get, whose reply may be lost too. */
  datatype Fate = RequestLost | ReplyLost | Between(others: seq<Act>, getOk: bool)

  /** Acts that leave the election and the start call of process `me` alone: those of
      other processes, and its own renewals. */
  predicate Aside(me: nat, a: Act) {
    a.Advance? || a.p != me || a.Renew? || a.RenewStart?
  }

  predicate AllAside(me: nat, fate: Fate) {
    fate.Between? ==> forall a <- fate.others :: Aside(me, a)
  }

  predicate SameCall(p: Proc, q: Proc) {
    q == p.(refreshedAt := q.refreshedAt, ttl := q.ttl)
  }

  lemma {:induction false} AsideLeavesAlone(s: State, me: nat, others: seq<Act>)
    requires me < |s.procs| && forall a <- others :: Aside(me, a)
    ensures |Run(s, others).procs| == |s.procs| && SameCall(s.procs[me], Run(s, others).procs[me])
  {
    if others == [] {
    } else {
      var before, a := others[..|others| - 1], others[|others| - 1];
      AsideLeavesAlone(s, me, before);
      var t := Run(s, before);
      assert Aside(me, a);
      DoIsLater(t, a);
      if !a.Advance? && a.p < |t.procs| {
        StoreAfterKeepsProcs(t, a, t.procs[a.p]);
      }
    }
  }

  predicate Reads(act: Act) {
    act.Learn? || act.LearnFails? || act.Confirm? || act.ConfirmFails?
  }

  /** Two calls of one process with others in between, as its own record sees them. */
  lemma TwoCalls(s: State, me: nat, first: Act, others: seq<Act>, second: Act)
    requires me < |s.procs| && !first.Advance? && first.p == me && Reads(second) && second.p == me
    requires forall a <- others :: Aside(me, a)
    ensures var t, u := Run(s, [first] + others), Run(s, [first] + others + [second]);
            && |t.procs| == |u.procs| == |s.procs|
            && SameCall(ProcAfter(s, first, s.procs[me]), t.procs[me])
            && u.procs[me] == ProcAfter(t, second, t.procs[me])
  {
    StoreAfterKeepsProcs(s, first, s.procs[me]);
    AfterOne(Do, s, first);
    AsideLeavesAlone(Do(s, first), me, others);
    AfterBoth(Do, s, [first], others);
    AfterBoth(Do, s, [first] + others, [second]);
    var t := Run(s, [first] + others);
    AfterOne(Do, t, second);
  }

  /** The acts a call of `AwaitLeader` amounts to. */
  function Claims(me: nat, fate: Fate): seq<Act> {
    match fate
    case RequestLost => [ClaimFails(me, false)]
    case ReplyLost => [ClaimFails(me, true)]
    case Between(others, getOk) => [Claim(me)] + others + [if getOk then Learn(me) else LearnFails(me)]
  }

  /** The store as the Get of a `TrySet` finds it. */
  function BeforeGet(s: State, first: Act, fate: Fate): State {
    if fate.Between? then Run(s, [first] + fate.others) else s
  }

  /** The acts a call of `SendStart` amounts to. */
  function Posts(me: nat, fate: Fate): seq<Act> {
    match fate
    case RequestLost => []
    case ReplyLost => [Post(me), ConfirmFails(me)]
    case Between(others, getOk) => [Post(me)] + others + [if getOk then Confirm(me) else ConfirmFails(me)]
  }

  /** A claim whose claimant learns nothing. */
  lemma LostClaim(s: State, me: nat, applied: bool)
    requires me < |s.procs| && s.procs[me].role.Outside?
    ensures var u := Run(s, [ClaimFails(me, applied)]);
            && u == Do(s, ClaimFails(me, applied))
            && |u.procs| == |s.procs| && u.procs[me] == s.procs[me].(role := Failed)
  {
    AfterOne(Do, s, ClaimFails(me, applied));
    StoreAfterKeepsProcs(s, ClaimFails(me, applied), s.procs[me]);
  }

  /** A start posted without the poster learning of it. */
  lemma LostPost(s: State, me: nat)
    requires me < |s.procs| && MayPost(s.procs[me])
    ensures Run(s, [Post(me), ConfirmFails(me)]) == Run(Do(s, Post(me)), [ConfirmFails(me)])
    ensures var u := Run(s, [Post(me), ConfirmFails(me)]);
            |u.procs| == |s.procs| && u.procs[me] == s.procs[me].(notice := PostFailed, posted := true)
  {
    AfterOne(Do, Do(s, Post(me)), ConfirmFails(me));
    AfterTwo(Do, s, Post(me), ConfirmFails(me));
    StoreAfterKeepsProcs(s, Post(me), s.procs[me]);
  }

  /** The abort of `SendStart` is never reached from a state the protocol can reach. */
  lemma NeverAborts(s: State, me: nat, acts: seq<Act>)
    requires me < |s.procs|
    ensures |Run(s, acts).procs| == |s.procs|
    ensures BarrierInv(s) ==> !Run(s, acts).procs[me].notice.Aborted?
  {
    ProcsKeepTheirNames(s, acts);
    if BarrierInv(s) {
      RunKeepsBarrierInv(s, acts);
      assert NoticeInv(Run(s, acts), Run(s, acts).procs[me]);
    }
  }

  datatype Start = Started | StartFailed | Aborts

  datatype Wait = Released | Refused | StillWaiting

  /** One round of `AwaitStart`: whether its Exists fails, and what happens until the next. */
  datatype Round = Round(fails: bool, others: seq<Act>)

  class Coordinator {
    const cache: RedisCache
    const me: nat
    const name: string
    const keyLifeInitial: nat
    var isLeader: bool
    var identifier: string

    constructor (cache: RedisCache, me: nat)
      requires me < |cache.world.procs| && !Decided(cache.world.procs[me])
      ensures this.cache == cache && this.me == me && Agrees() && !isLeader && identifier == ""
    {
      this.cache, this.me := cache, me;
      name, keyLifeInitial := cache.world.procs[me].name, cache.world.procs[me].initial;
      isLeader, identifier := false, "";
    }

    function Self(): Proc
      requires me < |cache.world.procs|
      reads cache
    {
      cache.world.procs[me]
    }

    /** The fields say what the machine records of this process. */
    ghost predicate Agrees()
      reads this, cache
    {
      && me < |cache.world.procs|
      && Self().name == name && Self().initial == keyLifeInitial
      && (isLeader <==> Self().role.Leader?)
      && identifier == if Decided(Self()) then Self().identifier else ""
    }

    /** Claims the leader key and learns who leads. */
    method AwaitLeader(ourIdentifier: string, fate: Fate, checkFails: bool) returns (r: Result<bool>)
      requires Agrees() && Self().role.Outside? && Self().own == ourIdentifier && AllAside(me, fate)
      modifies this, cache
      ensures cache.world == Run(old(cache.world), Claims(me, fate)) && Agrees()
      ensures if r.Ok? then Decided(Self()) else Self().role.Failed?
      ensures r.Ok? ==> r.value == isLeader
      ensures r.Ok? <==>
                fate.Between? && fate.getOk && Live(BeforeGet(old(cache.world), Claim(me), fate), LEADER_KEY + name)
      ensures r.Ok? ==>
                Some(identifier) == Election.Get(BeforeGet(old(cache.world), Claim(me), fate), LEADER_KEY + name)
      ensures r.Ok? ==> (isLeader <==> identifier == ourIdentifier)
    {
      ghost var w := cache.world;
      if !fate.Between? {
        LostClaim(w, me, fate.ReplyLost?);
        if fate.ReplyLost? {
          cache.SetNX(LEADER_KEY + name, ourIdentifier, keyLifeInitial, ClaimFails(me, true));
        } else {
          cache.Elapse([ClaimFails(me, false)]);
        }
        return Err;
      }
      var get := if fate.getOk then Learn(me) else LearnFails(me);
      TwoCalls(w, me, Claim(me), fate.others, get);
      var result := cache.TrySet(LEADER_KEY + name, ourIdentifier, keyLifeInitial, Claim(me), fate.others, get);
      if !fate.getOk || result.None? {
        return Err;
      }
      identifier := result.value;
      isLeader := identifier == ourIdentifier;
      if isLeader {
        var started, err := cache.Exists(STARTED_KEY + identifier, checkFails);
        if err && started {
          assert false;
        }
      }
      return Ok(isLeader);
    }

    /** Announces the start under the leader's own identifier. */
    method SendStart(fate: Fate) returns (r: Start)
      requires Agrees() && !Self().notice.Posting? && !Self().notice.Aborted? && AllAside(me, fate)
      modifies cache
      ensures Agrees()
      ensures identifier == "" || !isLeader ==> r == StartFailed && cache.world == old(cache.world)
      ensures identifier != "" && isLeader ==>
                && cache.world == Run(old(cache.world), Posts(me, fate))
                && (fate.RequestLost? ==> r == StartFailed)
                && (!fate.RequestLost? ==> (r == Started <==> Self().notice.Posted?))
                && (r == Aborts <==> Self().notice.Aborted?)
                && (!fate.RequestLost? && r == StartFailed ==> Self().notice.PostFailed?)
                && (r == Started <==>
                      fate.Between? && fate.getOk &&
                      Election.Get(BeforeGet(old(cache.world), Post(me), fate), STARTED_KEY + identifier) ==
                        Some(identifier))
      ensures BarrierInv(old(cache.world)) ==> r != Aborts
    {
      if identifier == "" || !isLeader {
        return StartFailed;
      }
      ghost var w := cache.world;
      var startedKey := STARTED_KEY + identifier;
      if fate.RequestLost? {
        return StartFailed;
      }
      if fate.ReplyLost? {
        LostPost(w, me);
        cache.SetNX(startedKey, identifier, keyLifeInitial, Post(me));
        cache.Elapse([ConfirmFails(me)]);
        return StartFailed;
      }
      var get := if fate.getOk then Confirm(me) else ConfirmFails(me);
      TwoCalls(w, me, Post(me), fate.others, get);
      var result := cache.TrySet(startedKey, identifier, keyLifeInitial, Post(me), fate.others, get);
      if !fate.getOk || result.None? {
        return StartFailed;
      }
      if result.value != identifier {
        NeverAborts(w, me, Posts(me, fate));
        return Aborts;
      }
      return Started;
    }

    /** One round, for a follower: asks, and if in vain waits. */
    method Ask(round: Round) returns (r: Wait)
      requires Agrees() && identifier != "" && !isLeader && forall a <- round.others :: Aside(me, a)
      modifies cache
      ensures Agrees()
      ensures r == if round.fails then Refused
                   else if Live(old(cache.world), STARTED_KEY + identifier) then Released else StillWaiting
      ensures cache.world == match r
              case Refused => old(cache.world)
              case Released => Do(old(cache.world), Poll(me))
              case StillWaiting => Run(Do(old(cache.world), Poll(me)), round.others)
      ensures r == Released ==> Self().role.Follower? && Self().released
    {
      ghost var w := cache.world;
      var started, err := cache.Exists(STARTED_KEY + identifier, round.fails);
      if err {
        return Refused;
      }
      AfterOne(Do, w, Poll(me));
      cache.Elapse([Poll(me)]);
      if started {
        return Released;
      }
      AsideLeavesAlone(cache.world, me, round.others);
      cache.Elapse(round.others);
      return StillWaiting;
    }

    /** The polling loop, for a follower: n rounds are in vain. `trail(i)` is the world at
        the i-th Exists. */
    method PollUntil(rounds: seq<Round>, ghost trail: nat -> State) returns (r: Wait, n: nat)
      requires Agrees() && identifier != "" && !isLeader && trail(0) == cache.world
      requires forall round <- rounds :: forall a <- round.others :: Aside(me, a)
      requires forall i: nat | i < |rounds| :: Passes(trail, me, rounds, i)
      modifies cache
      ensures Agrees() && n <= |rounds|
      ensures forall i: nat | i < n :: !rounds[i].fails && !Live(trail(i), STARTED_KEY + identifier)
      ensures cache.world == if r == Released then Do(trail(n), Poll(me)) else trail(n)
      ensures match r
              case Released => n < |rounds| && !rounds[n].fails && Live(trail(n), STARTED_KEY + identifier)
              case Refused => n < |rounds| && rounds[n].fails
              case StillWaiting => n == |rounds|
      ensures r == Released ==> Self().role.Follower? && Self().released
    {
      n, r := 0, StillWaiting;
      while n < |rounds|
        invariant n <= |rounds| && Agrees() && cache.world == trail(n) && r == StillWaiting
        invariant forall i: nat | i < n :: !rounds[i].fails && !Live(trail(i), STARTED_KEY + identifier)
      {
        assert Passes(trail, me, rounds, n);
        assert rounds[n] in rounds;
        r := Ask(rounds[n]);
        if r != StillWaiting {
          break;
        }
        n := n + 1;
      }
    }

    /** Polls until the leader this process follows has announced the start: released at
        the first round whose Exists succeeds while the started key is live, refused if an
        Exists fails before that, and else still waiting. */
    method AwaitStart(rounds: seq<Round>) returns (r: Wait, ghost acts: seq<Act>)
      requires Agrees() && forall round <- rounds :: forall a <- round.others :: Aside(me, a)
      modifies cache
      ensures Agrees() && cache.world == Run(old(cache.world), acts)
      ensures identifier == "" || isLeader ==> r == Refused && acts == []
      ensures r == Released ==> Self().role.Follower? && Self().released
      ensures identifier != "" && !isLeader ==>
                && (r == Released <==> exists i: nat :: ReleasedIn(old(cache.world), identifier, me, rounds, i))
                && (r == Refused <==> exists i: nat :: RefusedIn(old(cache.world), identifier, me, rounds, i))
    {
      acts := [];
      if identifier == "" || isLeader {
        return Refused, acts;
      }
      ghost var w0 := cache.world;
      ghost var trail := WorldsAsked(w0, me, rounds);
      var n;
      r, n := PollUntil(rounds, trail);
      acts := ActsBefore(me, rounds, n) + if r == Released then [Poll(me)] else [];
      AfterAppended(Do, w0, ActsBefore(me, rounds, n), Poll(me));
      NothingAdded(ActsBefore(me, rounds, n));
      FirstRoundDecides(w0, identifier, me, rounds, n);
    }
  }

  lemma NothingAdded(acts: seq<Act>)
    ensures acts + [] == acts
  {
  }

  /** What has happened before the i-th Exists of `AwaitStart`. */
  function ActsBefore(me: nat, rounds: seq<Round>, i: nat): seq<Act>
    requires i <= |rounds|
  {
    if i == 0 then [] else ActsBefore(me, rounds, i - 1) + [Poll(me)] + rounds[i - 1].others
  }

  /** The started key is live at the i-th Exists. */
  predicate LiveIn(w0: State, x: string, me: nat, rounds: seq<Round>, i: nat)
    requires i <= |rounds|
  {
    Live(Run(w0, ActsBefore(me, rounds, i)), STARTED_KEY + x)
  }

  /** The first i rounds succeed in asking, and find no started key. */
  predicate AllInVain(w0: State, x: string, me: nat, rounds: seq<Round>, i: nat)
    requires i <= |rounds|
  {
    forall j: nat | j < i :: !rounds[j].fails && !LiveIn(w0, x, me, rounds, j)
  }

  predicate ReleasedIn(w0: State, x: string, me: nat, rounds: seq<Round>, i: nat) {
    i < |rounds| && AllInVain(w0, x, me, rounds, i) && !rounds[i].fails && LiveIn(w0, x, me, rounds, i)
  }

  predicate RefusedIn(w0: State, x: string, me: nat, rounds: seq<Round>, i: nat) {
    i < |rounds| && AllInVain(w0, x, me, rounds, i) && rounds[i].fails
  }

  lemma RoundPasses(w0: State, me: nat, rounds: seq<Round>, n: nat)
    requires n < |rounds|
    ensures var w := Run(w0, ActsBefore(me, rounds, n));
            && Run(w, [Poll(me)]) == Do(w, Poll(me))
            && Run(w0, ActsBefore(me, rounds, n) + [Poll(me)]) == Do(w, Poll(me))
            && Run(w0, ActsBefore(me, rounds, n + 1)) == Run(Do(w, Poll(me)), rounds[n].others)
  {
    var acts := ActsBefore(me, rounds, n);
    AfterOne(Do, Run(w0, acts), Poll(me));
    AfterAppended(Do, w0, acts, Poll(me));
    AfterBoth(Do, w0, acts + [Poll(me)], rounds[n].others);
  }

  /** The world moves on by one round. */
  ghost predicate Passes(trail: nat -> State, me: nat, rounds: seq<Round>, i: nat)
    requires i < |rounds|
  {
    trail(i + 1) == Run(Do(trail(i), Poll(me)), rounds[i].others)
  }

  function WorldAt(w0: State, me: nat, rounds: seq<Round>, i: nat): State {
    if i <= |rounds| then Run(w0, ActsBefore(me, rounds, i)) else w0
  }

  lemma WorldsAsked(w0: State, me: nat, rounds: seq<Round>) returns (trail: nat -> State)
    ensures forall i: nat | i <= |rounds| :: trail(i) == Run(w0, ActsBefore(me, rounds, i))
    ensures trail(0) == w0 && forall i: nat | i < |rounds| :: Passes(trail, me, rounds, i)
  {
    trail := (i: nat) => WorldAt(w0, me, rounds, i);
    forall i: nat | i < |rounds| ensures Passes(trail, me, rounds, i) {
      RoundPasses(w0, me, rounds, i);
      assert trail(i) == WorldAt(w0, me, rounds, i) && trail(i + 1) == WorldAt(w0, me, rounds, i + 1);
    }
  }

  /** The first round that is not in vain decides, and no other. */
  lemma FirstRoundDecides(w0: State, x: string, me: nat, rounds: seq<Round>, n: nat)
    requires n <= |rounds| && AllInVain(w0, x, me, rounds, n)
    requires n < |rounds| ==> rounds[n].fails || LiveIn(w0, x, me, rounds, n)
    ensures (exists i: nat :: ReleasedIn(w0, x, me, rounds, i)) <==> n < |rounds| && !rounds[n].fails
    ensures (exists i: nat :: RefusedIn(w0, x, me, rounds, i)) <==> n < |rounds| && rounds[n].fails
  {
    if n < |rounds| {
      assert ReleasedIn(w0, x, me, rounds, n) || RefusedIn(w0, x, me, rounds, n);
    }
    forall i: nat | ReleasedIn(w0, x, me, rounds, i) || RefusedIn(w0, x, me, rounds, i) ensures i == n {
    }
  }

  predicate Decided(p: Proc) {
    p.role.Leader? || p.role.Follower?
  }
}
