/** The start barrier opens: a start that is posted and renewed in time releases every
    follower of its leader that polls (coordinator/coordinator.go over
    storage/rediscache.go).
 */
module StartBarrier {
  import opened Options
  import opened Runs
  import opened Election
  import opened Leadership

  /** When the last lifetime of a key runs out. */
  function DueOf(s: State, k: string): nat {
    if k in s.current && s.current[k] < |s.lives| then s.lives[s.current[k]].until else 0
  }

  predicate RenewsStart(s: State, a: Act, i: nat) {
    a == RenewStart(i) && i < |s.procs| && s.procs[i].notice.Posted?
  }

  /** When the start of process i runs out after some acts: at the end of the time to live
      that it posted it with, or renewed it with last. */
  function StartDue(s: State, acts: seq<Act>, i: nat, due: nat): nat {
    if acts == [] then due
    else
      var before, a := acts[..|acts| - 1], acts[|acts| - 1];
      var t := Run(s, before);
      if RenewsStart(t, a, i) then t.now + t.procs[i].renewal else StartDue(s, before, i, due)
  }

  /** Time never reaches that end. */
  predicate InTime(s: State, acts: seq<Act>, i: nat, due: nat) {
    Run(s, acts).now < StartDue(s, acts, i, due) && (acts == [] || InTime(s, acts[..|acts| - 1], i, due))
  }

  lemma StaysDistinct(s: State, acts: seq<Act>)
    requires Distinct(s)
    ensures |Run(s, acts).procs| == |s.procs| && Distinct(Run(s, acts))
  {
    ProcsKeepTheirNames(s, acts);
    var t := Run(s, acts);
    forall i, j | 0 <= i < j < |t.procs| ensures t.procs[i].own != t.procs[j].own {
      assert Later(s.procs[i], t.procs[i]) && Later(s.procs[j], t.procs[j]);
    }
  }

  /** What the invariant says of one process. */
  lemma ProcFacts(s: State, i: nat)
    requires BarrierInv(s) && i < |s.procs|
    ensures s.procs[i].initial > 0 && s.procs[i].renewal > 0
    ensures s.procs[i].role.Leader? ==> s.procs[i].identifier == s.procs[i].own
    ensures !s.procs[i].notice.NotSent? ==> s.procs[i].role.Leader?
  {
    assert SawInv(s, s.procs[i]) && NoticeInv(s, s.procs[i]);
  }

  /** Nobody but its leader touches a started key that is live. */
  lemma OthersLeaveStart(s: State, a: Act, i: nat)
    requires StoreInv(s) && Distinct(s) && i < |s.procs| && !a.Advance? && a.p < |s.procs|
    requires s.procs[i].identifier == s.procs[i].own
    requires s.procs[a.p].notice.Posted? ==> s.procs[a.p].identifier == s.procs[a.p].own
    requires Live(s, StartedKey(s.procs[i])) && !RenewsStart(s, a, i)
    ensures var k, s' := StartedKey(s.procs[i]), StoreAfter(s, a, s.procs[a.p]); KeyUntouched(s, s', k)
  {
    var p, k := s.procs[a.p], StartedKey(s.procs[i]);
    KeysAreApart(p.name, s.procs[i].identifier);
    KeysAreApart(p.identifier, s.procs[i].identifier);
    match a {
      case Claim(_) => OtherKeysUntouched(s, LeaderKey(p), p.own, p.initial, k);
      case ClaimFails(_, _) => OtherKeysUntouched(s, LeaderKey(p), p.own, p.initial, k);
      case Renew(_) => OtherKeysUntouched(s, LeaderKey(p), p.own, p.renewal, k);
      case Post(_) =>
        if StartedKey(p) != k { OtherKeysUntouched(s, StartedKey(p), p.identifier, p.initial, k); }
      case RenewStart(_) =>
        if StartedKey(p) != k { OtherKeysUntouched(s, StartedKey(p), p.identifier, p.renewal, k); }
      case _ =>
    }
  }

  lemma StartKeyStep(s: State, a: Act, i: nat)
    requires StoreInv(s) && Distinct(s) && i < |s.procs| && s.procs[i].identifier == s.procs[i].own
    requires !a.Advance? && a.p < |s.procs| && s.procs[a.p].notice.Posted? ==>
               s.procs[a.p].identifier == s.procs[a.p].own
    requires Live(s, StartedKey(s.procs[i]))
    ensures DueOf(Do(s, a), StartedKey(s.procs[i])) ==
            if RenewsStart(s, a, i) then s.now + s.procs[i].renewal else DueOf(s, StartedKey(s.procs[i]))
    ensures StartedKey(s.procs[i]) in Do(s, a).current
    ensures Do(s, a).current[StartedKey(s.procs[i])] < |Do(s, a).lives|
  {
    if !a.Advance? && a.p < |s.procs| && !RenewsStart(s, a, i) {
      OthersLeaveStart(s, a, i);
    }
  }

  lemma LeadersStartStep(s: State, a: Act, i: nat)
    requires BarrierInv(s) && Distinct(s) && i < |s.procs| && s.procs[i].role.Leader?
    requires Live(s, StartedKey(s.procs[i]))
    ensures var k, d := StartedKey(s.procs[i]), DueOf(Do(s, a), StartedKey(s.procs[i]));
            && d == (if RenewsStart(s, a, i) then s.now + s.procs[i].renewal else DueOf(s, k))
            && (Do(s, a).now < d ==> Live(Do(s, a), k))
  {
    ProcFacts(s, i);
    if !a.Advance? && a.p < |s.procs| {
      ProcFacts(s, a.p);
    }
    StartKeyStep(s, a, i);
  }

  /** A start that is renewed in time stays live, whatever everyone else does. */
  lemma {:induction false} RenewalsKeepTheStart(s: State, acts: seq<Act>, i: nat)
    requires BarrierInv(s) && Distinct(s) && i < |s.procs| && s.procs[i].role.Leader?
    requires Live(s, StartedKey(s.procs[i])) && InTime(s, acts, i, DueOf(s, StartedKey(s.procs[i])))
    ensures var k, t := StartedKey(s.procs[i]), Run(s, acts);
            && |t.procs| == |s.procs| && t.procs[i].role.Leader? && StartedKey(t.procs[i]) == k
            && Live(t, k) && DueOf(t, k) == StartDue(s, acts, i, DueOf(s, k))
  {
    var k := StartedKey(s.procs[i]);
    if acts == [] {
    } else {
      var before, a := acts[..|acts| - 1], acts[|acts| - 1];
      var t := Run(s, before);
      RenewalsKeepTheStart(s, before, i);
      RunKeepsBarrierInv(s, before);
      StaysDistinct(s, before);
      LeadersStartStep(t, a, i);
      DoIsLater(t, a);
      assert Later(t.procs[i], Do(t, a).procs[i]);
    }
  }

  /** What a leader that posts leaves: a live started key. */
  lemma PostMakesLive(s: State, i: nat)
    requires i < |s.procs| && MayPost(s.procs[i]) && s.procs[i].initial > 0
    ensures var k, t := StartedKey(s.procs[i]), Do(s, Post(i));
            && |t.procs| == |s.procs| && t.procs[i] == s.procs[i].(notice := Posting, posted := true)
            && t.now == s.now
            && Live(t, k) && DueOf(t, k) == if Live(s, k) then DueOf(s, k) else s.now + s.procs[i].initial
  {
    StoreAfterKeepsProcs(s, Post(i), s.procs[i]);
  }

  /** The Get of `SendStart` reads back the leader's own identifier, if the key lives. */
  lemma ConfirmSucceeds(s: State, i: nat)
    requires i < |s.procs| && s.procs[i].notice.Posting?
    requires Get(s, StartedKey(s.procs[i])) == Some(s.procs[i].identifier)
    ensures var t := Do(s, Confirm(i));
            && |t.procs| == |s.procs| && t.procs[i] == s.procs[i].(notice := Posted)
            && t.lives == s.lives && t.current == s.current && t.now == s.now
  {
  }

  /** Both steps of `SendStart`, from a state of the protocol. */
  lemma SendStartSucceeds(s: State, i: nat)
    requires BarrierInv(s) && Distinct(s) && i < |s.procs| && MayPost(s.procs[i])
    ensures var k, t := StartedKey(s.procs[i]), Run(s, [Post(i), Confirm(i)]);
            && |t.procs| == |s.procs| && BarrierInv(t) && Distinct(t)
            && t.procs[i] == s.procs[i].(notice := Posted, posted := true)
            && Live(t, k) && DueOf(t, k) == if Live(s, k) then DueOf(s, k) else s.now + s.procs[i].initial
  {
    var s1 := Do(s, Post(i));
    ProcFacts(s, i);
    PostMakesLive(s, i);
    DoKeepsBarrierInv(s, Post(i));
    StartedKeyHolds(s1, s.procs[i].identifier);
    ConfirmSucceeds(s1, i);
    AfterTwo(Do, s, Post(i), Confirm(i));
    RunKeepsBarrierInv(s, [Post(i), Confirm(i)]);
    StaysDistinct(s, [Post(i), Confirm(i)]);
  }

  lemma FollowerStays(s: State, acts: seq<Act>, j: nat)
    requires j < |s.procs| && s.procs[j].role.Follower?
    ensures var t := Run(s, acts);
            && |t.procs| == |s.procs| && t.procs[j].role.Follower? && t.procs[j].identifier == s.procs[j].identifier
  {
    ProcsKeepTheirNames(s, acts);
    assert Later(s.procs[j], Run(s, acts).procs[j]);
  }

  lemma PollReleases(s: State, j: nat)
    requires j < |s.procs| && s.procs[j].role.Follower? && s.procs[j].identifier != ""
    requires Live(s, StartedKey(s.procs[j]))
    ensures |Do(s, Poll(j)).procs| == |s.procs| && Do(s, Poll(j)).procs[j].released
  {
  }

  /** Polls of a follower succeed as long as its leader's renewals keep up. */
  lemma StartReachesFollower(t: State, i: nat, j: nat, between: seq<Act>)
    requires BarrierInv(t) && Distinct(t) && i < |t.procs| && t.procs[i].role.Leader? && t.procs[i].identifier != ""
    requires j < |t.procs| && t.procs[j].role.Follower? && t.procs[j].identifier == t.procs[i].identifier
    requires Live(t, StartedKey(t.procs[i])) && InTime(t, between, i, DueOf(t, StartedKey(t.procs[i])))
    ensures var u := Do(Run(t, between), Poll(j)); |u.procs| == |t.procs| && u.procs[j].released
  {
    RenewalsKeepTheStart(t, between, i);
    FollowerStays(t, between, j);
    PollReleases(Run(t, between), j);
  }

  /** A leader and a process that follows it. */
  predicate Led(s: State, i: nat, j: nat) {
    && i < |s.procs| && MayPost(s.procs[i])
    && j < |s.procs| && s.procs[j].role.Follower? && s.procs[j].identifier == s.procs[i].identifier
  }

  /** From every reachable state: a leader posts its start and has it confirmed; then, as
      long as its renewals keep up, every poll of a process that follows it succeeds,
      whatever all processes do in between. */
  lemma StartReleasesFollowers(s0: State, acts: seq<Act>, i: nat, j: nat, between: seq<Act>)
    requires Starting(s0) && Distinct(s0) && Led(Run(s0, acts), i, j)
    requires var s := Run(s0, acts);
             var t := Run(s, [Post(i), Confirm(i)]);
             InTime(t, between, i, DueOf(t, StartedKey(s.procs[i])))
    ensures var s := Run(s0, acts);
            var k, t := StartedKey(s.procs[i]), Run(s, [Post(i), Confirm(i)]);
            && |t.procs| == |s.procs| && t.procs[i].notice.Posted?
            && DueOf(t, k) == (if Live(s, k) then DueOf(s, k) else s.now + s.procs[i].initial)
            && var u := Do(Run(t, between), Poll(j)); |u.procs| == |s.procs| && u.procs[j].released
  {
    var s := Run(s0, acts);
    ReachableBarrierInv(s0, acts);
    StaysDistinct(s0, acts);
    SendStartSucceeds(s, i);
    FollowerStays(s, [Post(i), Confirm(i)], j);
    StartReachesFollower(Run(s, [Post(i), Confirm(i)]), i, j, between);
  }

  /** After an orderly election that is every process of the name that has learned. */
  lemma OrderlyFollowersAreLed(s0: State, acts: seq<Act>, i: nat, j: nat)
    requires Starting(s0) && Distinct(s0) && Orderly(s0, acts)
    requires var s := Run(s0, acts);
             && i < |s.procs| && MayPost(s.procs[i])
             && j < |s.procs| && s.procs[j].role.Follower? && s.procs[j].name == s.procs[i].name
    ensures Led(Run(s0, acts), i, j)
  {
    ProcsKeepTheirNames(s0, acts);
    ExactlyOneLeader(s0, acts, j);
    ReachableBarrierInv(s0, acts);
    ProcFacts(Run(s0, acts), i);
  }
}
