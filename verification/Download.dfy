/** One log's downloader: cmd/ct-fetch/ct-fetch.go, from the choice of the range
    to the end of `downloadCTRangeToChannel` and the save that follows it.

    The downloader is a deterministic machine over moments of its environment. A
    moment says what the log would answer, what a `select` would yield, and
    whether the two stores would accept a save; the machine's phase decides which
    of these it looks at. A run that stops having moments has crashed.
 */
module Download {
  import opened Options
  import opened Runs

  const MAX_INT64: int := 0x7fff_ffff_ffff_ffff
  const TWO_64: int := 0x1_0000_0000_0000_0000
  const BATCH: int := 1000

  type uint64 = x: int | 0 <= x < TWO_64

  /** A sum of two uint64 values as Go computes it. */
  function Wrap(x: int): uint64
    requires 0 <= x < 2 * TWO_64
  {
    if x < TWO_64 then x else x - TWO_64
  }

  // ---------------------------------------------------------------- environment

  /** A raw leaf as `LogEntryFromLeaf` judges it. */
  datatype Leaf = Good(body: int) | Erroneous

  datatype Reply = TooManyRequests | Failed | Entries(leaves: seq<Leaf>)

  datatype Choice = Signal | SaveTick | Accepted

  datatype Moment = Moment(reply: Reply, choice: Choice, cacheOk: bool, backendOk: bool)

  // ------------------------------------------------------------------- machine

  /** The two places a checkpoint is kept. */
  datatype Stores = Stores(cache: Option<uint64>, backend: Option<uint64>)

  datatype Verdict = Sent(body: int) | Rejected

  datatype Handled = Handled(index: uint64, verdict: Verdict)

  datatype Range = Range(first: uint64, last: uint64)

  datatype Outcome = NothingToDo | ReachedEnd | Signalled | RequestFailed | Crashed

  datatype Phase =
    | Asking
    | Delivering(pending: seq<Leaf>)
    | Saving(how: Outcome)
    | Stopped(why: Outcome)

  /** `handled` lists, in order, every index the worker has sent or rejected;
      `asked` the ranges it has requested; `saved` the values it has handed to
      `SaveLogState`. `base` holds the indices dealt with before the worker existed. */
  datatype Worker = Worker(
    start: uint64, end: uint64, index: uint64, phase: Phase,
    handled: seq<Handled>, asked: seq<Range>, saved: seq<uint64>,
    stores: Stores, base: set<int>)

  /** The last index requested together with `index`: `max` in the source. */
  function LastIndex(index: uint64, end: uint64): uint64
    requires index < end
  {
    var max := Wrap(index + BATCH);
    if max >= end then end - 1 else max
  }

  /** `NewLogWorker`'s choice of where to begin. */
  function StartPos(offset: uint64, stored: uint64): uint64 {
    if offset > 0 then offset else stored
  }

  /** `NewLogWorker`'s choice of where to end, with its wrapping addition. */
  function EndPos(start: uint64, limit: uint64, treeSize: uint64): uint64 {
    if limit > 0 && Wrap(start + limit) < treeSize then Wrap(start + limit) else treeSize
  }

  /** `saveState` then `SaveLogState`: cache first, then backend; either may refuse. */
  function Save(s: Stores, index: uint64, cacheOk: bool, backendOk: bool): Stores {
    if index > MAX_INT64 then s
    else Stores(if cacheOk then Some(index) else s.cache,
                if backendOk then Some(index) else s.backend)
  }

  /** `GetLogState`: the cache's record, else the backend's, else a brand new one.
      A store that cannot be read counts as one without a record. */
  function Load(s: Stores, cacheOk: bool, backendOk: bool): uint64 {
    if cacheOk && s.cache.Some? then s.cache.value
    else if backendOk && s.backend.Some? then s.backend.value
    else 0
  }

  /** `Run` on entry: a worker with an empty range returns at once, saving nothing. */
  function Begin(w: Worker, start: uint64, end: uint64): Worker {
    w.(start := start, end := end, index := start,
       phase := if start == end then Stopped(NothingToDo) else Asking)
  }

  function Fresh(start: uint64, end: uint64, stores: Stores): Worker {
    Begin(Worker(start, end, start, Asking, [], [], [], stores, {}), start, end)
  }

  function Checkpoint(w: Worker, m: Moment): Worker {
    w.(saved := w.saved + [w.index], stores := Save(w.stores, w.index, m.cacheOk, m.backendOk))
  }

  function Handle(w: Worker, v: Verdict, rest: seq<Leaf>): Worker {
    w.(handled := w.handled + [Handled(w.index, v)], index := Wrap(w.index + 1), phase := Delivering(rest))
  }

  function Ask(w: Worker, m: Moment): Worker
    requires w.index < w.end
  {
    var w' := w.(asked := w.asked + [Range(w.index, LastIndex(w.index, w.end))]);
    match m.reply
    case TooManyRequests => w'
    case Failed => w'.(phase := Saving(RequestFailed))
    case Entries(leaves) => w'.(phase := Delivering(leaves))
  }

  function Deliver(w: Worker, pending: seq<Leaf>, m: Moment): Worker {
    if pending == [] then w.(phase := Asking)
    else if pending[0].Erroneous? then Handle(w, Rejected, pending[1..])
    else match m.choice
      case Signal => w.(phase := Saving(Signalled))
      case SaveTick => Checkpoint(w, m)
      case Accepted => Handle(w, Sent(pending[0].body), pending[1..])
  }

  function Step(w: Worker, m: Moment): Worker {
    match w.phase
    case Asking => if w.index < w.end then Ask(w, m) else w.(phase := Saving(ReachedEnd))
    case Delivering(pending) => Deliver(w, pending, m)
    case Saving(how) => Checkpoint(w, m).(phase := Stopped(how))
    case Stopped(_) => w
  }

  function Play(w: Worker, env: seq<Moment>): Worker {
    After(Step, w, env)
  }

  /** The entries that reached the channel. */
  function SentOf(hs: seq<Handled>): seq<Handled> {
    if hs == [] then []
    else SentOf(hs[..|hs| - 1]) + (if hs[|hs| - 1].verdict.Sent? then [hs[|hs| - 1]] else [])
  }

  // ------------------------------------------------- the range that is chosen

  /** A request is well formed exactly when the addition did not wrap; it then asks for
      as much as it may. */
  lemma LastIndexExact(index: uint64, end: uint64)
    requires index < end
    ensures (index <= LastIndex(index, end) < end && LastIndex(index, end) - index <= BATCH)
            <==> index + BATCH < TWO_64
    ensures index + BATCH < TWO_64 ==> LastIndex(index, end) == end - 1 || LastIndex(index, end) == index + 1000
  {
    if index + BATCH >= TWO_64 {
      assert Wrap(index + BATCH) == index + BATCH - TWO_64;
    }
  }

  /** The end never passes the tree; the range is a range unless the limit wrapped
      to a value inside the tree; a positive limit bounds every proper range. Without a
      limit the run goes to the end of the tree, and one that does not wrap leaves out
      nothing of the tree that lies within it. */
  lemma EndPosExact(start: uint64, limit: uint64, treeSize: uint64)
    ensures EndPos(start, limit, treeSize) <= treeSize
    ensures start <= EndPos(start, limit, treeSize) <==>
            start <= treeSize && (start + limit < TWO_64 || start + limit - TWO_64 >= treeSize)
    ensures limit > 0 && start <= EndPos(start, limit, treeSize) ==>
              EndPos(start, limit, treeSize) - start <= limit
    ensures limit == 0 ==> EndPos(start, limit, treeSize) == treeSize
    ensures start + limit < TWO_64 ==>
              EndPos(start, limit, treeSize) == treeSize || EndPos(start, limit, treeSize) - start == limit
  {
    if start + limit >= TWO_64 {
      assert Wrap(start + limit) == start + limit - TWO_64;
    }
  }

  // ------------------------------------------------------------ one whole run

  /** No answer is so long that counting its leaves would pass 2^64. With an end
      within int64, Go's own bound on slice lengths makes this true. */
  predicate Addressable(end: uint64, env: seq<Moment>) {
    forall m <- env :: m.reply.Entries? ==> end + |m.reply.leaves| <= TWO_64
  }

  predicate AnswerFits(w: Worker, m: Moment) {
    w.phase.Asking? && w.index < w.end && m.reply.Entries? ==>
      |m.reply.leaves| <= LastIndex(w.index, w.end) - w.index + 1
  }

  /** No answer holds more leaves than were requested. */
  predicate WithinRequest(w: Worker, env: seq<Moment>) {
    env == [] ||
    (WithinRequest(w, env[..|env| - 1]) && AnswerFits(Play(w, env[..|env| - 1]), env[|env| - 1]))
  }

  predicate InOrder(w: Worker) {
    && w.index == w.start + |w.handled|
    && forall k: nat | k < |w.handled| :: w.handled[k].index == w.start + k
  }

  /** Counting the leaves in hand stays below 2^64. */
  predicate NoWrap(w: Worker) {
    w.phase.Delivering? ==> w.index + |w.phase.pending| < TWO_64
  }

  predicate RunInv(w: Worker) {
    && InOrder(w) && NoWrap(w)
    && (forall c <- w.saved :: w.start <= c <= w.index)
    && (w.phase == Saving(ReachedEnd) || w.phase == Stopped(ReachedEnd) ==> w.index >= w.end)
    && (w.phase.Saving? ==> !w.phase.how.NothingToDo?)
    && (w.phase == Stopped(NothingToDo) ==> w.index == w.end)
    && (w.phase.Stopped? && w.phase.why.Signalled? ==> |w.saved| > 0 && w.saved[|w.saved| - 1] == w.index)
  }

  lemma StepKeepsRunInv(w: Worker, m: Moment)
    requires RunInv(w) && (m.reply.Entries? ==> w.end + |m.reply.leaves| <= TWO_64)
    ensures RunInv(Step(w, m)) && Step(w, m).start == w.start && Step(w, m).end == w.end
  {
  }

  /** In any run the indices handled are start, start+1, ... without gap, repeat or
      reordering, up to but excluding the final index; no checkpoint passes the
      final index, so the index pending at a signal is neither sent nor saved. */
  lemma {:induction false} RunHandlesEachIndexOnce(start: uint64, end: uint64, stores: Stores, env: seq<Moment>)
    requires Addressable(end, env)
    ensures var w := Play(Fresh(start, end, stores), env);
            RunInv(w) && w.start == start && w.end == end
  {
    if env == [] {
    } else {
      var before := env[..|env| - 1];
      RunHandlesEachIndexOnce(start, end, stores, before);
      StepKeepsRunInv(Play(Fresh(start, end, stores), before), env[|env| - 1]);
    }
  }

  ghost predicate AnswerIsTrue(log: int -> Leaf, w: Worker, m: Moment) {
    w.phase.Asking? && m.reply.Entries? ==>
      forall j: nat | j < |m.reply.leaves| :: m.reply.leaves[j] == log(w.index + j)
  }

  /** A truthful log: every answer to a request from `i` holds the leaves i, i+1, ... */
  ghost predicate Truthful(log: int -> Leaf, w: Worker, env: seq<Moment>) {
    env == [] ||
    (Truthful(log, w, env[..|env| - 1]) && AnswerIsTrue(log, Play(w, env[..|env| - 1]), env[|env| - 1]))
  }

  function Judge(leaf: Leaf): Verdict {
    if leaf.Good? then Sent(leaf.body) else Rejected
  }

  ghost predicate MatchesLog(log: int -> Leaf, w: Worker) {
    && (forall h <- w.handled :: h.verdict == Judge(log(h.index)))
    && (w.phase.Delivering? ==>
          forall j: nat | j < |w.phase.pending| :: w.phase.pending[j] == log(w.index + j))
  }

  /** Against a truthful log, each index below the final one got the verdict of its
      own leaf: good leaves were sent with their own contents, bad ones rejected. */
  lemma {:induction false} RunDeliversTheLog(log: int -> Leaf, start: uint64, end: uint64, stores: Stores,
                                             env: seq<Moment>)
    requires Addressable(end, env) && Truthful(log, Fresh(start, end, stores), env)
    ensures var w := Play(Fresh(start, end, stores), env);
            MatchesLog(log, w) && RunInv(w) && w.start == start && w.end == end
  {
    var w0 := Fresh(start, end, stores);
    if env == [] {
    } else {
      var before, m := env[..|env| - 1], env[|env| - 1];
      RunDeliversTheLog(log, start, end, stores, before);
      TruthfulNow(log, w0, env);
      StepMatchesLog(log, Play(w0, before), m);
      StepKeepsRunInv(Play(w0, before), m);
    }
  }

  lemma TruthfulNow(log: int -> Leaf, w: Worker, env: seq<Moment>)
    requires env != [] && Truthful(log, w, env)
    ensures Truthful(log, w, env[..|env| - 1]) && AnswerIsTrue(log, Play(w, env[..|env| - 1]), env[|env| - 1])
  {
  }

  lemma StepMatchesLog(log: int -> Leaf, w: Worker, m: Moment)
    requires NoWrap(w) && MatchesLog(log, w) && AnswerIsTrue(log, w, m)
    ensures MatchesLog(log, Step(w, m))
  {
    if w.phase.Delivering? && w.phase.pending != [] {
      var p := w.phase.pending;
      assert p[0] == log(w.index + 0);
      forall j: nat | j < |p[1..]| ensures p[1..][j] == log(w.index + 1 + j) {
        assert p[1..][j] == p[j + 1] == log(w.index + (j + 1));
      }
    }
  }

  /** What reaches the channel is strictly increasing in the index. */
  lemma {:induction false} SentIsIncreasing(hs: seq<Handled>, start: int)
    requires forall k: nat | k < |hs| :: hs[k].index == start + k
    ensures forall i, j :: 0 <= i < j < |SentOf(hs)| ==> SentOf(hs)[i].index < SentOf(hs)[j].index
    ensures forall h :: h in SentOf(hs) <==> h in hs && h.verdict.Sent?
  {
    if hs == [] {
    } else {
      var front, last := hs[..|hs| - 1], hs[|hs| - 1];
      SentIsIncreasing(front, start);
      assert hs == front + [last];
      assert forall h <- SentOf(front) :: h.index < last.index;
    }
  }

  // ------------------------------------------------------------- a clean end

  predicate WithinEnd(w: Worker) {
    if w.start <= w.end
    then w.index <= w.end && (w.phase.Delivering? ==> w.index + |w.phase.pending| <= w.end)
    else w.index == w.start && !w.phase.Delivering?
  }

  /** With answers that stay within the request, a run over a proper range never
      passes its end, and one that ends neither by a signal nor by an error has
      handled exactly [start, end). A run that starts beyond its end is not taken for
      one with nothing to do, but handles nothing all the same. */
  lemma {:induction false} CleanRunReachesEnd(start: uint64, end: uint64, stores: Stores, env: seq<Moment>)
    requires end + BATCH <= TWO_64
    requires WithinRequest(Fresh(start, end, stores), env)
    ensures var w := Play(Fresh(start, end, stores), env);
            && WithinEnd(w) && RunInv(w) && w.start == start && w.end == end
            && (w.phase.Stopped? && (w.phase.why.ReachedEnd? || w.phase.why.NothingToDo?) ==>
                  w.index == if start <= end then end else start)
  {
    var w0 := Fresh(start, end, stores);
    if env == [] {
    } else {
      var before := env[..|env| - 1];
      CleanRunReachesEnd(start, end, stores, before);
      StepStaysWithinEnd(Play(w0, before), env[|before|]);
    }
  }

  lemma StepStaysWithinEnd(w: Worker, m: Moment)
    requires RunInv(w) && WithinEnd(w) && w.end + BATCH <= TWO_64
    requires AnswerFits(w, m)
    ensures RunInv(Step(w, m)) && WithinEnd(Step(w, m)) && Step(w, m).start == w.start && Step(w, m).end == w.end
  {
    if w.phase.Asking? && w.index < w.end {
      LastIndexExact(w.index, w.end);
    }
  }

  /** Every range ever requested lies in [start, end), spans at most 1001 entries,
      and was computed without wrapping. */
  lemma {:induction false} RequestsStayInRange(start: uint64, end: uint64, stores: Stores, env: seq<Moment>)
    requires Addressable(end, env) && end + BATCH <= TWO_64
    ensures forall r <- Play(Fresh(start, end, stores), env).asked ::
              start <= r.first <= r.last < end && r.last - r.first <= BATCH
  {
    if env == [] {
    } else {
      var before := env[..|env| - 1];
      RequestsStayInRange(start, end, stores, before);
      RunHandlesEachIndexOnce(start, end, stores, before);
      var w := Play(Fresh(start, end, stores), before);
      if w.index < w.end {
        LastIndexExact(w.index, w.end);
      }
    }
  }

  // ------------------------------------------------------------- termination

  function PlayFor(w: Worker, env: nat -> Moment, from: nat, n: nat): Worker {
    Along(Step, w, env, from, n)
  }

  /** An endless environment in which the log always makes progress and the channel
      is always accepted from in the end. */
  ghost predicate Fair(end: uint64, env: nat -> Moment, quiet: nat) {
    && (forall i :: env(i).reply.Entries? ==>
          env(i).reply.leaves != [] && end + |env(i).reply.leaves| <= TWO_64)
    && (forall i :: i >= quiet ==> !env(i).reply.TooManyRequests?)
    && (forall i: nat :: Served(env, i))
  }

  ghost predicate Served(env: nat -> Moment, i: nat) {
    exists j :: j >= i && !env(j).choice.SaveTick?
  }

  function Goal(w: Worker): int {
    w.index + if w.phase.Delivering? then |w.phase.pending| else 0
  }

  function ToGo(w: Worker): nat {
    if (w.phase.Asking? || w.phase.Delivering?) && Goal(w) < w.end then w.end - Goal(w) else 0
  }

  function PhaseRank(p: Phase): nat {
    match p
    case Delivering(pending) => |pending| + 3
    case Asking => 2
    case Saving(_) => 1
    case Stopped(_) => 0
  }

  /** How many save ticks are served before the channel or a signal is. */
  lemma TicksBeforeChoice(w: Worker, env: nat -> Moment, from: nat, until: nat) returns (n: nat)
    requires Offering(w)
    requires from <= until && !env(until).choice.SaveTick?
    ensures !env(from + n).choice.SaveTick?
    ensures PlayFor(w, env, from, n) == w.(saved := PlayFor(w, env, from, n).saved,
                                           stores := PlayFor(w, env, from, n).stores)
    decreases until - from
  {
    if env(from).choice.SaveTick? {
      n := TicksBeforeChoice(Step(w, env(from)), env, from + 1, until);
      n := n + 1;
    } else {
      n := 0;
    }
  }

  predicate Descends(w: Worker, w': Worker) {
    ToGo(w') < ToGo(w) || (ToGo(w') == ToGo(w) && PhaseRank(w'.phase) < PhaseRank(w.phase))
  }

  predicate Offering(w: Worker) {
    w.phase.Delivering? && w.phase.pending != [] && w.phase.pending[0].Good?
  }

  lemma StepDescends(w: Worker, m: Moment)
    requires RunInv(w) && !w.phase.Stopped? && !m.reply.TooManyRequests?
    requires m.reply.Entries? ==> m.reply.leaves != []
    requires Offering(w) ==> !m.choice.SaveTick?
    ensures Descends(w, Step(w, m))
  {
  }

  /** From any unfinished state, some number of moments brings the run closer to its end. */
  lemma NextDescent(w: Worker, env: nat -> Moment, from: nat, quiet: nat) returns (n: nat)
    requires RunInv(w) && Fair(w.end, env, quiet) && from >= quiet && !w.phase.Stopped?
    ensures Descends(w, PlayFor(w, env, from, n))
  {
    var ticks := 0;
    if Offering(w) {
      assert Served(env, from);
      var until :| until >= from && !env(until).choice.SaveTick?;
      ticks := TicksBeforeChoice(w, env, from, until);
    }
    RunInvAlong(w, env, from, ticks, quiet);
    var w1, at := PlayFor(w, env, from, ticks), from + ticks;
    StepDescends(w1, env(at));
    AlongSplits(Step, w, env, from, ticks, 1);
    assert PlayFor(w1, env, at, 1) == PlayFor(Step(w1, env(at)), env, at + 1, 0);
    n := ticks + 1;
  }

  lemma {:induction false} StopsFrom(w: Worker, env: nat -> Moment, from: nat, quiet: nat) returns (n: nat)
    requires RunInv(w) && Fair(w.end, env, quiet) && from >= quiet
    ensures PlayFor(w, env, from, n).phase.Stopped?
    decreases ToGo(w), PhaseRank(w.phase)
  {
    if w.phase.Stopped? {
      n := 0;
    } else {
      var closer := NextDescent(w, env, from, quiet);
      RunInvAlong(w, env, from, closer, quiet);
      var rest := StopsFrom(PlayFor(w, env, from, closer), env, from + closer, quiet);
      AlongSplits(Step, w, env, from, closer, rest);
      n := closer + rest;
    }
  }

  lemma {:induction false} RunInvAlong(w: Worker, env: nat -> Moment, from: nat, n: nat, quiet: nat)
    requires RunInv(w) && Fair(w.end, env, quiet)
    ensures RunInv(PlayFor(w, env, from, n)) && PlayFor(w, env, from, n).end == w.end
    decreases n
  {
    if n == 0 {
    } else {
      StepKeepsRunInv(w, env(from));
      RunInvAlong(Step(w, env(from)), env, from + 1, n - 1, quiet);
    }
  }

  /** With non-empty answers, finitely many 429s and a channel that is accepted from
      in the end, the nested loops stop. */
  lemma DownloadTerminates(start: uint64, end: uint64, stores: Stores, env: nat -> Moment, quiet: nat)
    requires Fair(end, env, quiet)
    ensures exists n :: PlayFor(Fresh(start, end, stores), env, 0, n).phase.Stopped?
  {
    var w0 := Fresh(start, end, stores);
    RunInvAlong(w0, env, 0, quiet, quiet);
    var rest := StopsFrom(PlayFor(w0, env, 0, quiet), env, quiet, quiet);
    AlongSplits(Step, w0, env, 0, quiet, rest);
    assert PlayFor(w0, env, 0, quiet + rest).phase.Stopped?;
  }
}
