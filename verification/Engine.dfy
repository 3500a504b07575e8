/** The whole of `ct-fetch`: one downloader per log, the bounded entry channel, the
    database threads and the shutdown sequence of `main`
    (cmd/ct-fetch/ct-fetch.go). Any interleaving of their steps is a list of acts;
    an act that is not enabled leaves the state as it is.
 */
module Engine {
  import opened Runs
  import opened Counting
  import opened Download
  import opened Checkpoints

  const CAPACITY: nat := 1024 * 16

  type LogId = string

  datatype Item = Item(log: LogId, index: uint64, body: int)

  /** A database thread: not yet past `ThreadWaitGroup.Add`, waiting on the channel,
      working on the entry that was sent at a position, or returned. */
  datatype Hand = Unborn | Idle | Busy(pos: nat) | Gone

  /** `sent` is every entry ever put on the channel, in order; `taken[p]` the thread
      that received the p-th; what lies between |taken| and |sent| is in the channel.
      `waiting` and `threads` are the counters of the two wait groups. */
  datatype State = State(
    logs: map<LogId, Worker>, left: set<LogId>, waiting: int, closed: bool, panicked: bool,
    sent: seq<Item>, taken: seq<nat>, finished: set<nat>, hands: seq<Hand>, threads: int)

  datatype Act =
    | Fetch(log: LogId, m: Moment)
    | Again(log: LogId, offset: uint64, limit: uint64, treeSize: uint64, cacheOk: bool, backendOk: bool)
    | Leave(log: LogId)
    | Close
    | Register(t: nat)
    | Receive(t: nat)
    | Finish(t: nat)
    | Quit(t: nat)

  function DownloaderActs(s: State, l: LogId, m: Moment): State
    requires l in s.logs
  {
    var w := s.logs[l];
    var s' := s.(logs := s.logs[l := Step(w, m)]);
    if !(Offering(w) && m.choice.Accepted?) then s'
    else if s.closed then s.(panicked := true)
    else if |s.sent| - |s.taken| >= CAPACITY then s
    else s'.(sent := s.sent + [Item(l, w.index, w.phase.pending[0].body)])
  }

  function HandActs(s: State, a: Act): State
    requires a.Register? || a.Receive? || a.Finish? || a.Quit?
    requires a.t < |s.hands|
  {
    match (a, s.hands[a.t])
    case (Register(t), Unborn) => s.(hands := s.hands[t := Idle], threads := s.threads + 1)
    case (Receive(t), Idle) =>
      if |s.taken| < |s.sent| then s.(hands := s.hands[t := Busy(|s.taken|)], taken := s.taken + [t]) else s
    case (Finish(t), Busy(p)) => s.(hands := s.hands[t := Idle], finished := s.finished + {p})
    case (Quit(t), Idle) =>
      if s.closed && |s.taken| == |s.sent| then s.(hands := s.hands[t := Gone], threads := s.threads - 1) else s
    case _ => s
  }

  function Do(s: State, a: Act): State {
    match a
    case Fetch(l, m) => if l in s.logs && l !in s.left then DownloaderActs(s, l, m) else s
    case Again(l, offset, limit, treeSize, cacheOk, backendOk) =>
      if l in s.logs && l !in s.left && s.logs[l].phase.Stopped?
      then s.(logs := s.logs[l := Resumed(s.logs[l], offset, limit, treeSize, cacheOk, backendOk)])
      else s
    case Leave(l) =>
      if l in s.logs && l !in s.left && s.logs[l].phase.Stopped?
      then s.(left := s.left + {l}, waiting := s.waiting - 1)
      else s
    case Close => if s.waiting == 0 && !s.closed then s.(closed := true) else s
    case _ => if a.t < |s.hands| then HandActs(s, a) else s
  }

  function Run(s: State, acts: seq<Act>): State {
    After(Do, s, acts)
  }

  /** A process about to start: nothing sent, every downloader counted, and the
      stores holding whatever earlier processes left there. */
  ghost predicate Starting(s: State) {
    && s.left == {} && s.waiting == |s.logs.Keys| && !s.closed && !s.panicked
    && s.sent == [] && s.taken == [] && s.finished == {} && s.threads == 0
    && (forall t: nat | t < |s.hands| :: s.hands[t] == Unborn)
    && forall l <- s.logs :: s.logs[l].handled == [] && s.logs[l].phase.Stopped?
  }

  // ---------------------------------------------------------------- invariants

  predicate SentAt(s: State, l: LogId, i: int, p: nat) {
    p < |s.sent| && s.sent[p].log == l && s.sent[p].index == i
  }

  predicate Carried(s: State, l: LogId, h: Handled, p: nat) {
    p < |s.sent| && h.verdict.Sent? && s.sent[p] == Item(l, h.index, h.verdict.body)
  }

  /** What downloader l handled as h is, unaltered, somewhere on the channel. */
  ghost predicate OnChannel(s: State, l: LogId, h: Handled) {
    exists p :: Carried(s, l, h, p)
  }

  /** The item at position p was handled by its own log's downloader. */
  predicate FromDownloader(s: State, p: nat)
    requires p < |s.sent|
  {
    s.sent[p].log in s.logs && Handled(s.sent[p].index, Sent(s.sent[p].body)) in s.logs[s.sent[p].log].handled
  }

  /** The channel saw exactly what the downloaders sent. */
  ghost predicate LogsInv(s: State) {
    && (forall l, h :: l in s.logs && h in s.logs[l].handled && h.verdict.Sent? ==> OnChannel(s, l, h))
    && (forall p: nat | p < |s.sent| :: FromDownloader(s, p))
  }

  ghost predicate ShutdownInv(s: State) {
    && !s.panicked
    && s.left <= s.logs.Keys && s.waiting == |s.logs.Keys - s.left|
    && (s.closed ==> s.waiting == 0)
  }

  predicate Alive(h: Hand) {
    h.Idle? || h.Busy?
  }

  function Living(hands: seq<Hand>): set<nat> {
    set t: nat | t < |hands| && Alive(hands[t])
  }

  /** Each receipt was by a registered thread, and is finished or still in its hands. */
  predicate TakenInv(s: State, p: nat)
    requires p < |s.taken|
  {
    && s.taken[p] < |s.hands| && !s.hands[s.taken[p]].Unborn?
    && (p !in s.finished ==> s.hands[s.taken[p]] == Busy(p))
  }

  predicate HandInv(s: State, t: nat)
    requires t < |s.hands|
  {
    match s.hands[t]
    case Busy(p) => p < |s.taken| && s.taken[p] == t && p !in s.finished
    case Gone => s.closed && |s.taken| == |s.sent|
    case _ => true
  }

  predicate HandsInv(s: State) {
    && |s.taken| <= |s.sent| <= |s.taken| + CAPACITY
    && (forall p <- s.finished :: p < |s.taken|)
    && (forall p: nat | p < |s.taken| :: TakenInv(s, p))
    && (forall t: nat | t < |s.hands| :: HandInv(s, t))
    && s.threads == |Living(s.hands)|
  }

  ghost predicate Inv(s: State) {
    LogsInv(s) && ShutdownInv(s) && HandsInv(s)
  }

  lemma StartingInv(s: State)
    requires Starting(s)
    ensures Inv(s)
  {
    assert s.logs.Keys - s.left == s.logs.Keys;
    assert Living(s.hands) == {};
  }

  lemma CloseMeansAllLeft(s: State)
    requires ShutdownInv(s) && s.closed
    ensures s.left == s.logs.Keys
  {
    assert s.logs.Keys - s.left == {};
  }

  lemma StepHandles(w: Worker, m: Moment)
    ensures Offering(w) && m.choice.Accepted? ==>
              Step(w, m).handled == w.handled + [Handled(w.index, Sent(w.phase.pending[0].body))]
    ensures !(Offering(w) && m.choice.Accepted?) ==>
              Step(w, m).handled == w.handled || Step(w, m).handled == w.handled + [Handled(w.index, Rejected)]
  {
  }

  lemma ChannelGrows(s: State, s': State, l: LogId, h: Handled)
    requires OnChannel(s, l, h) && s.sent <= s'.sent
    ensures OnChannel(s', l, h)
  {
    var p :| Carried(s, l, h, p);
    assert Carried(s', l, h, p);
  }

  lemma FetchKeepsLogs(s: State, l: LogId, m: Moment)
    requires LogsInv(s) && l in s.logs
    ensures LogsInv(DownloaderActs(s, l, m))
  {
    var s' := DownloaderActs(s, l, m);
    var w := s.logs[l];
    StepHandles(w, m);
    forall l', h | l' in s'.logs && h in s'.logs[l'].handled && h.verdict.Sent?
      ensures OnChannel(s', l', h)
    {
      if h in s.logs[l'].handled {
        ChannelGrows(s, s', l', h);
      } else {
        assert Carried(s', l', h, |s.sent|);
      }
    }
    forall p: nat | p < |s'.sent| ensures FromDownloader(s', p) {
      if p < |s.sent| {
        assert FromDownloader(s, p);
      }
    }
  }

  lemma FetchKeepsInv(s: State, l: LogId, m: Moment)
    requires Inv(s) && l in s.logs && l !in s.left
    ensures Inv(DownloaderActs(s, l, m))
  {
    FetchKeepsLogs(s, l, m);
    if s.closed {
      CloseMeansAllLeft(s);
    }
    assert DownloaderActs(s, l, m).logs.Keys == s.logs.Keys;
    HandsUntouched(s, DownloaderActs(s, l, m));
  }

  lemma AgainKeepsInv(s: State, a: Act)
    requires Inv(s) && a.Again?
    ensures Inv(Do(s, a))
  {
    var s' := Do(s, a);
    if s' != s {
      var l := a.log;
      assert s'.logs.Keys == s.logs.Keys;
      HandsUntouched(s, s');
      SameHandled(s, s');
    }
  }

  lemma LeaveKeepsInv(s: State, l: LogId)
    requires Inv(s)
    ensures Inv(Do(s, Leave(l)))
  {
    var s' := Do(s, Leave(l));
    if s' != s {
      assert s.logs.Keys - s'.left == (s.logs.Keys - s.left) - {l};
      SameHandled(s, s');
      HandsUntouched(s, s');
    }
  }

  lemma SameHandled(s: State, s': State)
    requires LogsInv(s) && s'.logs.Keys == s.logs.Keys && s'.sent == s.sent
    requires forall l <- s'.logs :: s'.logs[l].handled == s.logs[l].handled
    ensures LogsInv(s')
  {
    forall l, h | l in s'.logs && h in s'.logs[l].handled && h.verdict.Sent? ensures OnChannel(s', l, h) {
      ChannelGrows(s, s', l, h);
    }
    forall p: nat | p < |s'.sent| ensures FromDownloader(s', p) {
      assert FromDownloader(s, p);
    }
  }

  lemma LivingAfter(hands: seq<Hand>, t: nat, h: Hand)
    requires t < |hands|
    ensures |Living(hands[t := h])| ==
            |Living(hands)| + (if Alive(h) then 1 else 0) - (if Alive(hands[t]) then 1 else 0)
  {
    assert Living(hands[t := h]) == if Alive(h) then Living(hands) + {t} else Living(hands) - {t};
  }

  lemma ReceiveKeepsHands(s: State, t: nat)
    requires HandsInv(s) && t < |s.hands| && s.hands[t].Idle? && |s.taken| < |s.sent|
    ensures HandsInv(HandActs(s, Receive(t)))
  {
    var s' := HandActs(s, Receive(t));
    LivingAfter(s.hands, t, Busy(|s.taken|));
    forall p: nat | p < |s'.taken| ensures TakenInv(s', p) {
      if p < |s.taken| { assert TakenInv(s, p); }
    }
    forall u: nat | u < |s'.hands| ensures HandInv(s', u) {
      assert HandInv(s, u);
    }
  }

  lemma FinishKeepsHands(s: State, t: nat)
    requires HandsInv(s) && t < |s.hands| && s.hands[t].Busy?
    ensures HandsInv(HandActs(s, Finish(t)))
  {
    var s' := HandActs(s, Finish(t));
    LivingAfter(s.hands, t, Idle);
    assert HandInv(s, t);
    forall p: nat | p < |s'.taken| ensures TakenInv(s', p) {
      assert TakenInv(s, p);
    }
    forall u: nat | u < |s'.hands| ensures HandInv(s', u) {
      assert HandInv(s, u);
    }
  }

  lemma RegisterOrQuitKeepsHands(s: State, a: Act)
    requires HandsInv(s) && (a.Register? || a.Quit?) && a.t < |s.hands|
    ensures HandsInv(HandActs(s, a))
  {
    var s', t := HandActs(s, a), a.t;
    LivingAfter(s.hands, t, s'.hands[t]);
    forall p: nat | p < |s'.taken| ensures TakenInv(s', p) {
      assert TakenInv(s, p);
    }
    forall u: nat | u < |s'.hands| ensures HandInv(s', u) {
      assert HandInv(s, u);
    }
  }

  lemma HandKeepsHands(s: State, a: Act)
    requires HandsInv(s) && (a.Register? || a.Receive? || a.Finish? || a.Quit?) && a.t < |s.hands|
    ensures HandsInv(HandActs(s, a))
  {
    match (a, s.hands[a.t]) {
      case (Receive(t), Idle) => if |s.taken| < |s.sent| { ReceiveKeepsHands(s, t); }
      case (Finish(t), Busy(_)) => FinishKeepsHands(s, t);
      case (Register(_), _) => RegisterOrQuitKeepsHands(s, a);
      case (Quit(_), _) => RegisterOrQuitKeepsHands(s, a);
      case _ =>
    }
  }

  lemma HandKeepsInv(s: State, a: Act)
    requires Inv(s) && (a.Register? || a.Receive? || a.Finish? || a.Quit?) && a.t < |s.hands|
    ensures Inv(HandActs(s, a))
  {
    var s' := HandActs(s, a);
    HandKeepsHands(s, a);
    assert s' == s.(hands := s'.hands, taken := s'.taken, finished := s'.finished, threads := s'.threads);
    SameHandled(s, s');
  }

  lemma HandsUntouched(s: State, s': State)
    requires HandsInv(s) && s'.hands == s.hands && s'.taken == s.taken && s'.finished == s.finished
    requires s'.threads == s.threads && (s.closed ==> s'.closed && s'.sent == s.sent)
    requires |s.sent| <= |s'.sent| <= |s.taken| + CAPACITY
    ensures HandsInv(s')
  {
    forall p: nat | p < |s'.taken| ensures TakenInv(s', p) {
      assert TakenInv(s, p);
    }
    forall t: nat | t < |s'.hands| ensures HandInv(s', t) {
      assert HandInv(s, t);
    }
  }

  lemma DoKeepsInv(s: State, a: Act)
    requires Inv(s)
    ensures Inv(Do(s, a))
  {
    match a {
      case Fetch(l, m) => if l in s.logs && l !in s.left { FetchKeepsInv(s, l, m); }
      case Again(_, _, _, _, _, _) => AgainKeepsInv(s, a);
      case Leave(l) => LeaveKeepsInv(s, l);
      case Close =>
        SameHandled(s, Do(s, a));
        HandsUntouched(s, Do(s, a));
      case _ => if a.t < |s.hands| { HandKeepsInv(s, a); }
    }
  }

  lemma {:induction false} ReachableInv(s: State, acts: seq<Act>)
    requires Starting(s)
    ensures Inv(Run(s, acts))
  {
    if acts == [] {
      StartingInv(s);
    } else {
      ReachableInv(s, acts[..|acts| - 1]);
      DoKeepsInv(Run(s, acts[..|acts| - 1]), acts[|acts| - 1]);
    }
  }

  // --------------------------------------------------------- checkpoints, all logs

  ghost predicate AllSound(s: State) {
    forall l <- s.logs :: Sound(s.logs[l])
  }

  predicate NoOffset(acts: seq<Act>) {
    forall a <- acts :: a.Again? ==> a.offset == 0
  }

  lemma DoKeepsSound(s: State, a: Act)
    requires AllSound(s) && (a.Again? ==> a.offset == 0)
    ensures AllSound(Do(s, a))
  {
    match a {
      case Fetch(l, m) => if l in s.logs { StepKeepsSound(s.logs[l], m); }
      case Again(l, _, limit, treeSize, cacheOk, backendOk) =>
        if l in s.logs { ResumeKeepsSound(s.logs[l], limit, treeSize, cacheOk, backendOk); }
      case _ =>
    }
  }

  /** Without an offset, checkpoints of all logs stay sound whatever the others do. */
  lemma {:induction false} ReachableSound(s: State, acts: seq<Act>)
    requires AllSound(s) && NoOffset(acts)
    ensures AllSound(Run(s, acts))
  {
    if acts == [] {
    } else {
      ReachableSound(s, acts[..|acts| - 1]);
      DoKeepsSound(Run(s, acts[..|acts| - 1]), acts[|acts| - 1]);
    }
  }

  // ------------------------------------------------------------ shutdown: draining

  /** Every entry sent was received, by the one thread `taken` names, and finished. */
  ghost predicate Drained(s: State) {
    && |s.taken| == |s.sent|
    && (forall p: nat :: p in s.finished <==> p < |s.sent|)
  }

  /** Once the channel is closed and no thread is counted, it is empty and done with,
      if and only if some thread had registered or nothing was sent. */
  lemma ClosedIsDrained(s: State)
    requires HandsInv(s) && s.closed && s.threads == 0
    ensures Drained(s) <==> (exists t: nat :: t < |s.hands| && !s.hands[t].Unborn?) || s.sent == []
  {
    forall t: nat | t < |s.hands| ensures !Alive(s.hands[t]) && HandInv(s, t) {
      assert t !in Living(s.hands);
    }
    if t: nat :| t < |s.hands| && !s.hands[t].Unborn? {
      assert s.hands[t].Gone?;
      forall p: nat | p < |s.taken| ensures p in s.finished {
        assert TakenInv(s, p);
      }
    }
    if s.sent != [] && Drained(s) {
      assert TakenInv(s, 0);
    }
  }

  lemma NothingIsSentAfterClose(s: State)
    requires ShutdownInv(s) && s.closed
    ensures s.left == s.logs.Keys && forall a: Act :: Do(s, a).sent == s.sent && !Do(s, a).panicked
  {
    CloseMeansAllLeft(s);
  }

  /** When `main` has closed the channel and `ThreadWaitGroup.Wait` lets it pass,
      everything sent has been received by exactly one thread and finished, if and
      only if some thread had registered or nothing was sent. No send ever met a
      closed channel. */
  lemma ShutdownDrains(s0: State, acts: seq<Act>)
    requires Starting(s0)
    ensures var s := Run(s0, acts);
            && !s.panicked && LogsInv(s)
            && (s.closed ==> s.left == s.logs.Keys && forall a: Act :: Do(s, a).sent == s.sent && !Do(s, a).panicked)
            && (s.closed && s.threads == 0 ==>
                  (Drained(s) <==> (exists t: nat :: t < |s.hands| && !s.hands[t].Unborn?) || s.sent == []))
  {
    ReachableInv(s0, acts);
    var s := Run(s0, acts);
    if s.closed {
      NothingIsSentAfterClose(s);
      if s.threads == 0 {
        ClosedIsDrained(s);
      }
    }
  }

  // ------------------------------------------------------- what a crash can lose

  /** Positions of entries that were sent but that no thread has finished. */
  function Unfinished(s: State): set<nat> {
    set p: nat | p < |s.sent| && p !in s.finished
  }

  function HeldBy(s: State, t: nat): nat {
    if t < |s.hands| && s.hands[t].Busy? then s.hands[t].pos else 0
  }

  lemma UnfinishedIsQueuedOrHeld(s: State, p: nat, queued: set<nat>, inHand: set<nat>)
    requires HandsInv(s) && p in Unfinished(s)
    requires forall q: nat :: |s.taken| <= q < |s.sent| ==> q in queued
    requires forall t: nat :: t < |s.hands| ==> HeldBy(s, t) in inHand
    ensures p in queued + inHand
  {
    if p < |s.taken| {
      assert TakenInv(s, p);
      assert HeldBy(s, s.taken[p]) == p;
    }
  }

  lemma UnfinishedIsBounded(s: State)
    requires HandsInv(s)
    ensures |Unfinished(s)| <= CAPACITY + |s.hands|
  {
    var queued, threads := Interval(|s.taken|, |s.sent|), Interval(0, |s.hands|);
    var inHand := Image(threads, t => HeldBy(s, t));
    forall t: nat | t < |s.hands| ensures HeldBy(s, t) in inHand {
      assert t in threads;
    }
    forall p | p in Unfinished(s) ensures p in queued + inHand {
      UnfinishedIsQueuedOrHeld(s, p, queued, inHand);
    }
    SubsetIsNoLarger(Unfinished(s), queued + inHand);
  }

  predicate BelowCheckpoint(w: Worker, i: nat) {
    (w.stores.cache.Some? && i < w.stores.cache.value) ||
    (w.stores.backend.Some? && i < w.stores.backend.value)
  }

  /** Index i of log l would be skipped after a crash now, although nobody dealt with
      it: it lies below a saved checkpoint, was not dealt with before this process,
      is not an erroneous leaf, and no thread has finished it. */
  ghost predicate AtRisk(s: State, at: (LogId, nat)) {
    at.0 in s.logs &&
    var w := s.logs[at.0];
    && BelowCheckpoint(w, at.1) && at.1 !in w.base
    && (forall h <- w.handled :: h.index == at.1 ==> h.verdict.Sent?)
    && (forall p <- s.finished :: !SentAt(s, at.0, at.1, p))
  }

  lemma AtRiskIsInFlight(s: State, at: (LogId, nat)) returns (p: nat)
    requires Inv(s) && AllSound(s) && AtRisk(s, at)
    ensures p in Unfinished(s) && SentAt(s, at.0, at.1, p)
  {
    var w := s.logs[at.0];
    assert Covered(w, at.1);
    var k: nat :| k < |w.handled| && w.handled[k].index == at.1;
    assert w.handled[k] in w.handled && OnChannel(s, at.0, w.handled[k]);
    p :| Carried(s, at.0, w.handled[k], p);
  }

  /** In every reachable state, over all logs together and whatever the offset, at most
      16384 + NumThreads entries were sent and are unfinished. */
  lemma BacklogIsBounded(s0: State, acts: seq<Act>)
    requires Starting(s0)
    ensures |Unfinished(Run(s0, acts))| <= 16384 + |s0.hands|
  {
    ReachableInv(s0, acts);
    HandsNeverChangeInNumber(s0, acts);
    UnfinishedIsBounded(Run(s0, acts));
  }

  /** So, without an offset, no more indices than that are at risk: checkpoints run ahead
      of the database by no more than the channel and one entry a thread. */
  lemma CrashLosesAtMostTheChannel(s0: State, acts: seq<Act>, risky: set<(LogId, nat)>)
    requires Starting(s0) && AllSound(s0) && NoOffset(acts)
    requires forall at <- risky :: AtRisk(Run(s0, acts), at)
    ensures |risky| <= 16384 + |s0.hands|
  {
    var s := Run(s0, acts);
    ReachableInv(s0, acts);
    ReachableSound(s0, acts);
    BacklogIsBounded(s0, acts);
    var image := Image(Unfinished(s), p => EntryAt(s, p));
    forall at | at in risky ensures at in image {
      var p := AtRiskIsInFlight(s, at);
      assert EntryAt(s, p) == at;
    }
    SubsetIsNoLarger(risky, image);
  }

  function EntryAt(s: State, p: nat): (LogId, nat) {
    if p < |s.sent| then (s.sent[p].log, s.sent[p].index) else ("", 0)
  }

  lemma DoKeepsHandCount(s: State, a: Act)
    ensures |Do(s, a).hands| == |s.hands|
  {
  }

  lemma {:induction false} HandsNeverChangeInNumber(s: State, acts: seq<Act>)
    ensures |Run(s, acts).hands| == |s.hands|
  {
    if acts == [] {
    } else {
      HandsNeverChangeInNumber(s, acts[..|acts| - 1]);
      DoKeepsHandCount(Run(s, acts[..|acts| - 1]), acts[|acts| - 1]);
    }
  }
}
