/** How runs end and begin: why a run stops, what it has saved by then, where the next one
    goes on, and that retries and save ticks change nothing else
    (cmd/ct-fetch/ct-fetch.go).
 */
module DownloadEnds {
  import opened Options
  import opened Runs
  import opened Download
  import opened Checkpoints

  // ------------------------------------------------------------- why a run stops

  /** The moment that made a run stop for this reason. */
  predicate Stops(w: Worker, m: Moment, how: Outcome) {
    match how
    case ReachedEnd => w.phase.Asking? && w.index >= w.end
    case Signalled => Offering(w) && m.choice.Signal?
    case RequestFailed => w.phase.Asking? && w.index < w.end && m.reply.Failed?
    case _ => false
  }

  lemma {:induction false} StoppedForAReason(w0: Worker, env: seq<Moment>) returns (k: nat)
    requires w0.phase.Asking?
    requires Play(w0, env).phase.Saving? || Play(w0, env).phase.Stopped?
    ensures k < |env|
    ensures var w, s := Play(w0, env), Play(w0, env[..k]);
            Stops(s, env[k], if w.phase.Saving? then w.phase.how else w.phase.why) && w.index == s.index
  {
    if env == [] {
      assert false;
    } else {
      var last := |env| - 1;
      var w := Play(w0, env[..last]);
      if w.phase.Saving? || w.phase.Stopped? {
        k := StoppedForAReason(w0, env[..last]);
        assert env[..last][..k] == env[..k];
      } else {
        k := last;
      }
    }
  }

  // ------------------------------------------------------------- the final save

  /** Each store that accepts a save then holds the index. */
  predicate Holds(s: Stores, index: uint64, m: Moment) {
    && (m.cacheOk ==> s.cache == Some(index) && forall readable: bool :: Load(s, true, readable) == index)
    && (m.backendOk ==> s.backend == Some(index) && Load(s, false, true) == index)
  }

  /** A run that has stopped, having had something to do, has saved its final index: the
      last moment before it stopped was a save, and the stores that accepted it hold it. */
  lemma {:induction false} StoppedRunHasSaved(w0: Worker, env: seq<Moment>) returns (k: nat)
    requires w0.phase.Asking? && Play(w0, env).phase.Stopped?
    ensures k < |env|
    ensures var w := Play(w0, env);
            && w.saved != [] && w.saved[|w.saved| - 1] == w.index
            && (w.index <= MAX_INT64 ==> Holds(w.stores, w.index, env[k]))
  {
    if env == [] {
      assert false;
    } else {
      var last := |env| - 1;
      var w := Play(w0, env[..last]);
      if w.phase.Stopped? {
        k := StoppedRunHasSaved(w0, env[..last]);
      } else {
        k := last;
        assert w.phase.Saving?;
      }
    }
  }

  /** A clean run over a proper range within int64, with answers that stay within the
      request, ends with every store that accepts its last save holding exactly its end. */
  lemma CleanRunSavesItsEnd(start: uint64, end: uint64, stores: Stores, env: seq<Moment>) returns (k: nat)
    requires start < end <= MAX_INT64 && WithinRequest(Fresh(start, end, stores), env)
    requires Play(Fresh(start, end, stores), env).phase == Stopped(ReachedEnd)
    ensures k < |env|
    ensures var w := Play(Fresh(start, end, stores), env);
            w.index == end && w.saved != [] && w.saved[|w.saved| - 1] == end && Holds(w.stores, end, env[k])
  {
    CleanRunReachesEnd(start, end, stores, env);
    k := StoppedRunHasSaved(Fresh(start, end, stores), env);
  }

  /** What each moment saves: the position, at a tick while an entry waits for the channel
      and when the run ends, and never else. */
  lemma SavesExactly(w: Worker, m: Moment)
    ensures var now := w.phase.Saving? || (Offering(w) && m.choice.SaveTick?);
            && Step(w, m).saved == w.saved + (if now then [w.index] else [])
            && (!now ==> Step(w, m).stores == w.stores)
            && (now && w.index <= MAX_INT64 ==> Holds(Step(w, m).stores, w.index, m))
            && (now ==> Step(w, m).index == w.index)
  {
  }

  // ----------------------------------------------------------- retries and ticks

  predicate IsRetry(w: Worker, m: Moment) {
    w.phase.Asking? && w.index < w.end && m.reply.TooManyRequests?
  }

  predicate IsTick(w: Worker, m: Moment) {
    Offering(w) && m.choice.SaveTick?
  }

  /** The moments of an environment that are neither answered 429 nor a save tick. */
  function Telling(w: Worker, env: seq<Moment>): seq<Moment> {
    if env == [] then []
    else
      var before, m := env[..|env| - 1], env[|env| - 1];
      Telling(w, before) + if IsRetry(Play(w, before), m) || IsTick(Play(w, before), m) then [] else [m]
  }

  /** A worker without its record of requests and saves. */
  predicate SameButRecords(w: Worker, v: Worker) {
    w == v.(asked := w.asked, saved := w.saved, stores := w.stores)
  }

  lemma StepIgnoresRecords(w: Worker, v: Worker, m: Moment)
    requires SameButRecords(w, v)
    ensures SameButRecords(Step(w, m), Step(v, m))
    ensures IsRetry(w, m) || IsTick(w, m) ==> SameButRecords(Step(w, m), v)
  {
  }

  /** However often the log answers 429 and however often the ticker fires, a run handles
      the same leaves in the same way and ends in the same way as without. */
  lemma {:induction false} RetriesAndTicksDoNotMatter(w: Worker, env: seq<Moment>)
    ensures SameButRecords(Play(w, env), Play(w, Telling(w, env)))
  {
    if env == [] {
    } else {
      var before, m := env[..|env| - 1], env[|env| - 1];
      var kept := Telling(w, before);
      RetriesAndTicksDoNotMatter(w, before);
      StepIgnoresRecords(Play(w, before), Play(w, kept), m);
      AfterAppended(Step, w, kept, m);
      assert kept + [] == kept;
    }
  }

  /** Every leaf of an answer is used, one a moment when the channel accepts, without
      another request. */
  lemma {:induction false} AnswerIsUsedUp(w: Worker, env: seq<Moment>)
    requires w.phase.Delivering? && |env| <= |w.phase.pending|
    requires forall m <- env :: m.choice.Accepted?
    ensures var v := Play(w, env);
            && v.phase == Delivering(w.phase.pending[|env|..]) && v.asked == w.asked
            && |v.handled| == |w.handled| + |env|
  {
    if env == [] {
    } else {
      var k := |env| - 1;
      AnswerIsUsedUp(w, env[..k]);
      assert env[k] in env;
      assert w.phase.pending[k..][1..] == w.phase.pending[k + 1..];
    }
  }

  // -------------------------------------------------------------- where runs begin

  /** Indices handled since a run began at `start`, when n had been handled before. */
  predicate HandledFrom(w: Worker, n: nat, start: uint64) {
    && n <= |w.handled| && w.index == start + (|w.handled| - n)
    && forall k: nat | n <= k < |w.handled| :: w.handled[k].index == start + (k - n)
  }

  lemma StepHandlesFrom(w: Worker, m: Moment, n: nat, start: uint64)
    requires HandledFrom(w, n, start) && NoWrap(w)
    requires m.reply.Entries? ==> w.end + |m.reply.leaves| <= TWO_64
    ensures HandledFrom(Step(w, m), n, start) && NoWrap(Step(w, m)) && w.handled <= Step(w, m).handled
    ensures Step(w, m).end == w.end
  {
  }

  /** A run begins at the offset if there is one, wherever the stores are, and else at what
      they give; and from there handles each index once. */
  lemma {:induction false} ResumedRunHandlesFrom(w: Worker, offset: uint64, limit: uint64, treeSize: uint64,
                                                 cacheOk: bool, backendOk: bool, env: seq<Moment>)
    requires Addressable(treeSize, env)
    ensures var start := if offset > 0 then offset else Load(w.stores, cacheOk, backendOk);
            var v := Play(Resumed(w, offset, limit, treeSize, cacheOk, backendOk), env);
            && HandledFrom(v, |w.handled|, start) && w.handled <= v.handled
            && NoWrap(v) && v.end <= treeSize
  {
    if env == [] {
      var start := StartPos(offset, Load(w.stores, cacheOk, backendOk));
      EndPosExact(start, limit, treeSize);
    } else {
      var before, m := env[..|env| - 1], env[|env| - 1];
      ResumedRunHandlesFrom(w, offset, limit, treeSize, cacheOk, backendOk, before);
      var v := Play(Resumed(w, offset, limit, treeSize, cacheOk, backendOk), before);
      assert m in env;
      StepHandlesFrom(v, m, |w.handled|, if offset > 0 then offset else Load(w.stores, cacheOk, backendOk));
    }
  }

  // ------------------------------------------------------------- the whole log

  /** A run that never passes its end, with nothing missing below where it is. */
  predicate Whole(w: Worker) {
    && NoWrap(w) && WithinEnd(w) && w.start <= w.end && CoveredBelow(w, w.index)
    && (w.phase == Saving(ReachedEnd) || w.phase == Stopped(ReachedEnd) || w.phase == Stopped(NothingToDo) ==>
          w.index >= w.end)
  }

  lemma StepStaysWhole(w: Worker, m: Moment)
    requires Whole(w) && w.end + BATCH <= TWO_64 && AnswerFits(w, m)
    requires w.phase.Saving? ==> !w.phase.how.NothingToDo?
    ensures Whole(Step(w, m)) && Step(w, m).end == w.end
    ensures Step(w, m).phase.Saving? ==> !Step(w, m).phase.how.NothingToDo?
  {
    var w' := Step(w, m);
    HandledOnlyGrows(w, m);
    if w.phase.Asking? && w.index < w.end {
      LastIndexExact(w.index, w.end);
    }
    if w'.index != w.index {
      assert w'.handled[|w.handled|].index == w.index;
      assert Covered(w', w.index);
    }
  }

  lemma {:induction false} RunStaysWhole(w: Worker, env: seq<Moment>)
    requires Whole(w) && w.end + BATCH <= TWO_64 && WithinRequest(w, env)
    requires w.phase.Saving? ==> !w.phase.how.NothingToDo?
    ensures Whole(Play(w, env)) && Play(w, env).end == w.end
    ensures Play(w, env).phase.Saving? ==> !Play(w, env).phase.how.NothingToDo?
  {
    if env == [] {
    } else {
      RunStaysWhole(w, env[..|env| - 1]);
      StepStaysWhole(Play(w, env[..|env| - 1]), env[|env| - 1]);
    }
  }

  /** The whole log is fetched: without limit or offset, from any sound state whose
      position lies in the tree, a clean run leaves every index of the tree dealt with;
      and once the cache has accepted the last save, the next run with the same tree has
      nothing to do. */
  lemma CleanRunCoversTheTree(w: Worker, treeSize: uint64, cacheOk: bool, backendOk: bool, env: seq<Moment>)
    returns (k: nat)
    requires Sound(w) && w.phase.Stopped? && Load(w.stores, cacheOk, backendOk) <= treeSize <= MAX_INT64
    requires WithinRequest(Resumed(w, 0, 0, treeSize, cacheOk, backendOk), env)
    requires var v := Play(Resumed(w, 0, 0, treeSize, cacheOk, backendOk), env);
             v.phase == Stopped(ReachedEnd) || v.phase == Stopped(NothingToDo)
    ensures var r := Resumed(w, 0, 0, treeSize, cacheOk, backendOk);
            var v := Play(r, env);
            && CoveredBelow(v, treeSize)
            && (r.phase.Asking? ==> k < |env| && Holds(v.stores, treeSize, env[k]))
            && (r.phase.Asking? && env[k].cacheOk ==>
                  forall readable: bool ::
                    Resumed(v, 0, 0, treeSize, true, readable).phase == Stopped(NothingToDo))
  {
    var r := Resumed(w, 0, 0, treeSize, cacheOk, backendOk);
    EndPosExact(Load(w.stores, cacheOk, backendOk), 0, treeSize);
    ResumeKeepsSound(w, 0, treeSize, cacheOk, backendOk);
    assert forall i :: Covered(w, i) == Covered(r, i);
    RunStaysWhole(r, env);
    var v := Play(r, env);
    assert v.index == treeSize;
    k := 0;
    if r.phase.Asking? {
      k := StoppedRunHasSaved(r, env);
      EndPosExact(treeSize, 0, treeSize);
    }
  }
}
