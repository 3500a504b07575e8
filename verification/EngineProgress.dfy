/** What `ct-fetch` can always still do: take in the next leaf of a log, finish what is on
    the channel, and shut down with everything finished (cmd/ct-fetch/ct-fetch.go).
    Progress is stated as the existence of a continuation from every reachable state.
 */
module EngineProgress {
  import opened Runs
  import opened Download
  import opened Checkpoints
  import opened Engine

  /** Some continuation of s ends in s'. */
  ghost predicate Reaches(s: State, s': State) {
    exists acts: seq<Act> :: Run(s, acts) == s'
  }

  lemma ReachesItself(s: State)
    ensures Reaches(s, s)
  {
    assert Run(s, []) == s;
  }

  lemma ReachesNext(s: State, a: Act)
    ensures Reaches(s, Do(s, a))
  {
    AfterOne(Do, s, a);
    assert Run(s, [a]) == Do(s, a);
  }

  lemma ReachesOn(s: State, t: State, u: State)
    requires Reaches(s, t) && Reaches(t, u)
    ensures Reaches(s, u)
  {
    var a :| Run(s, a) == t;
    var b :| Run(t, b) == u;
    AfterBoth(Do, s, a, b);
    assert Run(s, a + b) == u;
  }

  lemma {:induction false} ReachesKeepsInv(s: State, acts: seq<Act>)
    requires Inv(s)
    ensures Inv(Run(s, acts))
  {
    if acts == [] {
    } else {
      ReachesKeepsInv(s, acts[..|acts| - 1]);
      DoKeepsInv(Run(s, acts[..|acts| - 1]), acts[|acts| - 1]);
    }
  }

  // ----------------------------------------------------------------- the threads

  /** Only threads have moved. */
  predicate OnlyHands(s: State, s': State) {
    && s' == s.(taken := s'.taken, finished := s'.finished, hands := s'.hands, threads := s'.threads)
    && |s'.hands| == |s.hands|
  }

  predicate Working(s: State, t: nat) {
    t < |s.hands| && Alive(s.hands[t])
  }

  lemma HandStep(s: State, a: Act)
    requires HandsInv(s) && (a.Register? || a.Receive? || a.Finish? || a.Quit?) && a.t < |s.hands|
    ensures HandsInv(Do(s, a)) && OnlyHands(s, Do(s, a)) && Reaches(s, Do(s, a)) && Do(s, a) == HandActs(s, a)
  {
    HandKeepsHands(s, a);
    ReachesNext(s, a);
  }

  /** A thread that is idle or busy can be idle. */
  lemma BecomesIdle(s: State, t: nat) returns (s': State)
    requires HandsInv(s) && Working(s, t)
    ensures HandsInv(s') && OnlyHands(s, s') && Reaches(s, s')
    ensures s'.taken == s.taken && s.finished <= s'.finished && s'.hands[t].Idle?
    ensures s.hands[t].Busy? ==> s.hands[t].pos in s'.finished
  {
    if s.hands[t].Busy? {
      HandStep(s, Finish(t));
      s' := Do(s, Finish(t));
    } else {
      ReachesItself(s);
      s' := s;
    }
  }

  /** A living thread receives the next entry and finishes it. */
  lemma NextIsFinished(s: State, t: nat) returns (s': State)
    requires HandsInv(s) && Working(s, t) && |s.taken| < |s.sent|
    ensures HandsInv(s') && OnlyHands(s, s') && Reaches(s, s')
    ensures |s'.taken| == |s.taken| + 1 && s.finished <= s'.finished && |s.taken| in s'.finished && Working(s', t)
  {
    var s1 := BecomesIdle(s, t);
    HandStep(s1, Receive(t));
    var s2 := Do(s1, Receive(t));
    s' := BecomesIdle(s2, t);
    ReachesOn(s, s1, s2);
    ReachesOn(s, s2, s');
  }

  /** With a living thread, everything on the channel can come to be received. */
  lemma {:induction false} ReceivedUpTo(s: State, t: nat, n: nat) returns (s': State)
    requires HandsInv(s) && Working(s, t) && |s.taken| <= n <= |s.sent|
    ensures HandsInv(s') && OnlyHands(s, s') && Reaches(s, s')
    ensures |s'.taken| == n && s.finished <= s'.finished && Working(s', t)
    ensures |s.taken| < n ==> n - 1 in s'.finished
    decreases n - |s.taken|
  {
    if |s.taken| == n {
      ReachesItself(s);
      s' := s;
    } else {
      var s1 := NextIsFinished(s, t);
      s' := ReceivedUpTo(s1, t, n);
      ReachesOn(s, s1, s');
    }
  }

  /** With a living thread, any entry on the channel can come to be finished. */
  lemma EveryEntryCanBeFinished(s: State, t: nat, p: nat) returns (s': State)
    requires HandsInv(s) && Working(s, t) && p < |s.sent|
    ensures HandsInv(s') && OnlyHands(s, s') && Reaches(s, s') && p in s'.finished
  {
    if p in s.finished {
      ReachesItself(s);
      s' := s;
    } else if p < |s.taken| {
      assert TakenInv(s, p);
      s' := BecomesIdle(s, s.taken[p]);
    } else {
      s' := ReceivedUpTo(s, t, p + 1);
    }
  }

  // -------------------------------------------------------------------- shutdown

  function Weight(h: Hand): nat {
    match h
    case Idle => 1
    case Busy(_) => 2
    case _ => 0
  }

  function Weights(hands: seq<Hand>): nat {
    if hands == [] then 0 else Weights(hands[..|hands| - 1]) + Weight(hands[|hands| - 1])
  }

  lemma {:induction false} WeightsFall(hands: seq<Hand>, t: nat, h: Hand)
    requires t < |hands| && Weight(h) < Weight(hands[t])
    ensures Weights(hands[t := h]) < Weights(hands)
  {
    var last := |hands| - 1;
    if t == last {
      assert hands[t := h][..last] == hands[..last];
    } else {
      assert hands[t := h][..last] == hands[..last][t := h];
      WeightsFall(hands[..last], t, h);
    }
  }

  predicate Registered(s: State) {
    exists t: nat :: t < |s.hands| && !s.hands[t].Unborn?
  }

  /** Main can go past both wait groups, with everything finished. */
  ghost predicate Done(s: State) {
    s.closed && s.threads == 0 && Drained(s) && Registered(s)
  }

  lemma NobodyWorks(s: State)
    requires HandsInv(s) && s.closed && Registered(s) && forall t: nat :: !Working(s, t)
    ensures Done(s)
  {
    forall t: nat | t < |s.hands| ensures !Alive(s.hands[t]) {
      assert !Working(s, t);
    }
    assert Living(s.hands) == {};
    ClosedIsDrained(s);
  }

  /** All threads of a closed and emptied channel can return. */
  lemma {:induction false} AllQuit(s: State) returns (s': State)
    requires HandsInv(s) && s.closed && |s.taken| == |s.sent| && Registered(s)
    ensures Reaches(s, s') && Done(s')
    decreases Weights(s.hands)
  {
    if t: nat :| Working(s, t) {
      var a := if s.hands[t].Busy? then Finish(t) else Quit(t);
      HandStep(s, a);
      var s1 := Do(s, a);
      WeightsFall(s.hands, t, s1.hands[t]);
      assert !s1.hands[t].Unborn?;
      s' := AllQuit(s1);
      ReachesOn(s, s1, s');
    } else {
      NobodyWorks(s);
      ReachesItself(s);
      s' := s;
    }
  }

  /** From every state with the channel closed and some thread registered, the program can
      come to its end with everything received and finished. */
  lemma ClosedComesToAnEnd(s: State) returns (s': State)
    requires HandsInv(s) && s.closed && Registered(s)
    ensures Reaches(s, s') && Done(s')
  {
    if t: nat :| Working(s, t) {
      var s1 := ReceivedUpTo(s, t, |s.sent|);
      assert !s1.hands[t].Unborn?;
      s' := AllQuit(s1);
      ReachesOn(s, s1, s');
    } else {
      NobodyWorks(s);
      ReachesItself(s);
      s' := s;
    }
  }

  /** Only one log's worker has moved. */
  predicate OnlyLog(s: State, s': State, l: LogId) {
    l in s.logs && l in s'.logs && s' == s.(logs := s.logs[l := s'.logs[l]])
  }

  lemma OnlyLogOn(s: State, t: State, u: State, l: LogId)
    requires OnlyLog(s, t, l) && OnlyLog(t, u, l)
    ensures OnlyLog(s, u, l)
  {
    assert t.logs[l := u.logs[l]] == s.logs[l := u.logs[l]];
  }

  predicate Int64Stores(w: Worker) {
    && (w.stores.cache.Some? ==> w.stores.cache.value <= MAX_INT64)
    && (w.stores.backend.Some? ==> w.stores.backend.value <= MAX_INT64)
  }

  const STOP: Moment := Moment(Failed, Signal, true, true)

  lemma StopStep(w: Worker)
    requires !w.phase.Stopped?
    ensures PhaseRank(Step(w, STOP).phase) < PhaseRank(w.phase)
    ensures Int64Stores(w) ==> Int64Stores(Step(w, STOP))
    ensures !(Offering(w) && STOP.choice.Accepted?)
  {
  }

  /** A signal or a failed request stops any downloader. */
  lemma {:induction false} DownloaderStops(s: State, l: LogId) returns (s': State)
    requires l in s.logs && l !in s.left
    ensures Reaches(s, s') && OnlyLog(s, s', l) && s'.logs[l].phase.Stopped?
    ensures Int64Stores(s.logs[l]) ==> Int64Stores(s'.logs[l])
    decreases PhaseRank(s.logs[l].phase)
  {
    if s.logs[l].phase.Stopped? {
      ReachesItself(s);
      s' := s;
      assert s.logs == s.logs[l := s.logs[l]];
    } else {
      StopStep(s.logs[l]);
      ReachesNext(s, Fetch(l, STOP));
      var s1 := Do(s, Fetch(l, STOP));
      assert s1 == s.(logs := s.logs[l := Step(s.logs[l], STOP)]);
      s' := DownloaderStops(s1, l);
      OnlyLogOn(s, s1, s', l);
      ReachesOn(s, s1, s');
    }
  }

  predicate OnlyDownloaders(s: State, s': State) {
    && s'.logs.Keys == s.logs.Keys
    && s' == s.(logs := s'.logs, left := s'.left, waiting := s'.waiting)
  }

  /** One downloader stops and leaves. */
  lemma OneLeaves(s: State, l: LogId) returns (s': State)
    requires l in s.logs && l !in s.left
    ensures Reaches(s, s') && OnlyDownloaders(s, s') && s'.left == s.left + {l} && s'.waiting == s.waiting - 1
  {
    var s1 := DownloaderStops(s, l);
    ReachesNext(s1, Leave(l));
    s' := Do(s1, Leave(l));
    assert s1.logs.Keys == s.logs.Keys;
    ReachesOn(s, s1, s');
  }

  lemma {:induction false} AllLeave(s: State) returns (s': State)
    requires ShutdownInv(s)
    ensures Reaches(s, s') && ShutdownInv(s') && OnlyDownloaders(s, s') && s'.left == s'.logs.Keys
    decreases |s.logs.Keys - s.left|
  {
    if s.left == s.logs.Keys {
      ReachesItself(s);
      s' := s;
    } else {
      var l :| l in s.logs.Keys - s.left;
      if s.closed {
        CloseMeansAllLeft(s);
      }
      var s1 := OneLeaves(s, l);
      assert s1.logs.Keys - s1.left == (s.logs.Keys - s.left) - {l};
      s' := AllLeave(s1);
      ReachesOn(s, s1, s');
    }
  }

  /** Some thread can have registered, if there is one at all. */
  lemma SomeoneRegisters(s: State) returns (s': State)
    requires HandsInv(s) && |s.hands| > 0
    ensures Reaches(s, s') && HandsInv(s') && OnlyHands(s, s') && s'.taken == s.taken && Registered(s')
  {
    if Registered(s) {
      ReachesItself(s);
      s' := s;
    } else {
      HandStep(s, Register(0));
      s' := Do(s, Register(0));
      assert !s'.hands[0].Unborn?;
    }
  }

  /** The downloaders go and main closes the channel. */
  lemma ChannelIsClosed(s: State) returns (s': State)
    requires HandsInv(s) && ShutdownInv(s)
    ensures Reaches(s, s') && HandsInv(s') && s'.closed && s'.hands == s.hands
  {
    var s1 := AllLeave(s);
    assert s1.logs.Keys - s1.left == {};
    ReachesNext(s1, Close);
    s' := Do(s1, Close);
    HandsUntouched(s, s');
    ReachesOn(s, s1, s');
  }

  /** From every reachable state a program with threads can be shut down, with everything
      that was sent received and finished. */
  lemma EveryStateCanShutDown(s0: State, acts: seq<Act>) returns (more: seq<Act>)
    requires Starting(s0) && |s0.hands| > 0
    ensures Done(Run(Run(s0, acts), more))
  {
    var s := Run(s0, acts);
    Engine.ReachableInv(s0, acts);
    HandsNeverChangeInNumber(s0, acts);
    more := CanShutDown(s);
  }

  lemma CanShutDown(s: State) returns (more: seq<Act>)
    requires HandsInv(s) && ShutdownInv(s) && |s.hands| > 0
    ensures Done(Run(s, more))
  {
    var s1 := ChannelIsClosed(s);
    var s2 := SomeoneRegisters(s1);
    var s3 := ClosedComesToAnEnd(s2);
    ReachesOn(s, s1, s2);
    ReachesOn(s, s2, s3);
    more :| Run(s, more) == s3;
  }

  // ------------------------------------------------------------- the next leaf

  /** An offered entry is taken exactly when the channel has room: it blocks with 16384
      entries in it, and not before. */
  lemma OfferBlocksExactlyWhenFull(s: State, l: LogId, m: Moment)
    requires ShutdownInv(s) && l in s.logs && l !in s.left && Offering(s.logs[l]) && m.choice.Accepted?
    ensures var s', w := Do(s, Fetch(l, m)), s.logs[l];
            if |s.sent| - |s.taken| >= 16384 then s' == s
            else s' == s.(logs := s.logs[l := Step(w, m)],
                          sent := s.sent + [Item(l, w.index, w.phase.pending[0].body)])
  {
    if s.closed {
      CloseMeansAllLeft(s);
    }
  }

  /** A program that has not been closed and has threads can have a working one. */
  lemma SomeoneWorks(s: State) returns (s': State, t: nat)
    requires HandsInv(s) && |s.hands| > 0 && !s.closed
    ensures Reaches(s, s') && HandsInv(s') && OnlyHands(s, s') && Working(s', t)
  {
    s' := SomeoneRegisters(s);
    t :| t < |s'.hands| && !s'.hands[t].Unborn?;
    assert HandInv(s', t);
  }

  /** And room on the channel. */
  lemma RoomIsMade(s: State, t: nat) returns (s': State)
    requires HandsInv(s) && Working(s, t)
    ensures Reaches(s, s') && HandsInv(s') && OnlyHands(s, s') && Working(s', t)
    ensures |s'.sent| - |s'.taken| < CAPACITY
  {
    if |s.sent| - |s.taken| < CAPACITY {
      ReachesItself(s);
      s' := s;
    } else {
      s' := NextIsFinished(s, t);
    }
  }

  /** The worker of a stopped log that goes on where the stores say and gets one leaf. */
  function WithLeaf(w: Worker, body: int): Worker
    requires Int64Stores(w)
  {
    var start := Load(w.stores, true, true);
    Step(Resumed(w, 0, 0, start + 1, true, true), Moment(Entries([Good(body)]), Signal, true, true))
  }

  lemma LeafIsOffered(w: Worker, body: int)
    requires Int64Stores(w) && w.phase.Stopped?
    ensures var v := WithLeaf(w, body);
            && Resumed(w, 0, 0, Load(w.stores, true, true) + 1, true, true).phase.Asking?
            && v.phase == Delivering([Good(body)]) && v.stores == w.stores
            && v.index == Load(w.stores, true, true)
  {
  }

  lemma LogGoesOn(s: State, a: Act)
    requires a.Again? && a.log in s.logs && a.log !in s.left && s.logs[a.log].phase.Stopped?
    ensures var s' := Do(s, a);
            && OnlyLog(s, s', a.log) && Reaches(s, s')
            && s'.logs[a.log] == Resumed(s.logs[a.log], a.offset, a.limit, a.treeSize, a.cacheOk, a.backendOk)
  {
    ReachesNext(s, a);
  }

  lemma LogGetsAnswer(s: State, l: LogId, m: Moment)
    requires l in s.logs && l !in s.left && s.logs[l].phase.Asking?
    ensures var s' := Do(s, Fetch(l, m));
            OnlyLog(s, s', l) && Reaches(s, s') && s'.logs[l] == Step(s.logs[l], m)
  {
    ReachesNext(s, Fetch(l, m));
  }

  lemma NextLeafIsOffered(s: State, l: LogId, body: int) returns (s': State)
    requires l in s.logs && l !in s.left && Int64Stores(s.logs[l])
    ensures Reaches(s, s') && OnlyLog(s, s', l) && s'.logs[l].phase == Delivering([Good(body)])
    ensures s'.logs[l].index == Load(s'.logs[l].stores, true, true)
  {
    var s1 := DownloaderStops(s, l);
    var w := s1.logs[l];
    LeafIsOffered(w, body);
    var again := Again(l, 0, 0, Load(w.stores, true, true) + 1, true, true);
    LogGoesOn(s1, again);
    var s2 := Do(s1, again);
    var m := Moment(Entries([Good(body)]), Signal, true, true);
    LogGetsAnswer(s2, l, m);
    s' := Do(s2, Fetch(l, m));
    OnlyLogOn(s, s1, s2, l);
    OnlyLogOn(s, s2, s', l);
    ReachesOn(s, s1, s2);
    ReachesOn(s, s2, s');
  }

  /** A leaf that is offered gets through, when there is room and a living thread. */
  lemma OfferGetsThrough(s: State, l: LogId, body: int, t: nat) returns (s': State)
    requires ShutdownInv(s) && HandsInv(s) && Working(s, t) && |s.sent| - |s.taken| < CAPACITY
    requires l in s.logs && l !in s.left && s.logs[l].phase == Delivering([Good(body)])
    ensures Reaches(s, s') && s'.sent == s.sent + [Item(l, s.logs[l].index, body)] && |s.sent| in s'.finished
    ensures l in s'.logs && s'.logs[l].stores == s.logs[l].stores
  {
    var accept := Fetch(l, Moment(Failed, Accepted, true, true));
    if s.closed {
      CloseMeansAllLeft(s);
    }
    OfferBlocksExactlyWhenFull(s, l, accept.m);
    ReachesNext(s, accept);
    var s1 := Do(s, accept);
    HandsUntouched(s, s1);
    s' := EveryEntryCanBeFinished(s1, t, |s.sent|);
    ReachesOn(s, s1, s');
  }

  lemma CanTakeNextLeaf(s: State, l: LogId, body: int) returns (s': State)
    requires ShutdownInv(s) && HandsInv(s) && |s.hands| > 0 && l in s.logs && l !in s.left && Int64Stores(s.logs[l])
    ensures Reaches(s, s') && l in s'.logs
    ensures s'.sent == s.sent + [Item(l, Load(s'.logs[l].stores, true, true), body)] && |s.sent| in s'.finished
  {
    if s.closed {
      CloseMeansAllLeft(s);
    }
    var s1, t := SomeoneWorks(s);
    var s2 := RoomIsMade(s1, t);
    var s3 := NextLeafIsOffered(s2, l, body);
    assert s3.logs.Keys == s2.logs.Keys;
    HandsUntouched(s2, s3);
    s' := OfferGetsThrough(s3, l, body, t);
    ReachesOn(s, s1, s2);
    ReachesOn(s, s2, s3);
    ReachesOn(s, s3, s');
  }

  /** From every reachable state in which a log's downloader has not gone, with at least
      one thread: the log's next leaf, whatever it holds, can come to be fetched at the
      position that is saved, sent and finished. */
  lemma NextLeafGetsThrough(s0: State, acts: seq<Act>, l: LogId, body: int) returns (more: seq<Act>)
    requires Starting(s0) && |s0.hands| > 0
    requires var s := Run(s0, acts); l in s.logs && l !in s.left && Int64Stores(s.logs[l])
    ensures var s, s' := Run(s0, acts), Run(Run(s0, acts), more);
            && l in s'.logs && |s.sent| in s'.finished
            && s'.sent == s.sent + [Item(l, Load(s'.logs[l].stores, true, true), body)]
  {
    var s := Run(s0, acts);
    Engine.ReachableInv(s0, acts);
    HandsNeverChangeInNumber(s0, acts);
    var s' := CanTakeNextLeaf(s, l, body);
    more :| Run(s, more) == s';
  }

  lemma CanBeFinished(s: State, p: nat) returns (s': State)
    requires HandsInv(s) && |s.hands| > 0 && p < |s.sent|
    ensures Reaches(s, s') && p in s'.finished
  {
    var s1 := SomeoneRegisters(s);
    if t: nat :| Working(s1, t) {
      s' := EveryEntryCanBeFinished(s1, t, p);
      ReachesOn(s, s1, s');
    } else {
      if !s1.closed {
        var t: nat :| t < |s1.hands| && !s1.hands[t].Unborn?;
        assert HandInv(s1, t) && Working(s1, t);
        assert false;
      }
      NobodyWorks(s1);
      s' := s1;
    }
  }

  /** And in every reachable state any entry on the channel can come to be finished. */
  lemma EverySentCanBeFinished(s0: State, acts: seq<Act>, p: nat) returns (more: seq<Act>)
    requires Starting(s0) && |s0.hands| > 0 && p < |Run(s0, acts).sent|
    ensures p in Run(Run(s0, acts), more).finished
  {
    var s := Run(s0, acts);
    Engine.ReachableInv(s0, acts);
    HandsNeverChangeInNumber(s0, acts);
    var s' := CanBeFinished(s, p);
    more :| Run(s, more) == s';
  }
}
