/** Checkpoint and resume over whole histories of one log: any number of runs, with
    crashes, failed saves and unreadable stores in between
    (cmd/ct-fetch/ct-fetch.go and storage/filesystemdatabase.go).

    `MaxEntry` is the next index to fetch, so a checkpoint is sound when every
    smaller index has been dealt with.
 */
module Checkpoints {
  import opened Options
  import opened Runs
  import opened Download

  /** What can happen to a log: its running worker lives through a moment, its
      process dies, or a new run begins from whatever the stores give. */
  datatype Move =
    | Live(m: Moment)
    | Crash
    | Resume(offset: uint64, limit: uint64, treeSize: uint64, cacheOk: bool, backendOk: bool)

  function Resumed(w: Worker, offset: uint64, limit: uint64, treeSize: uint64,
                   cacheOk: bool, backendOk: bool): Worker
  {
    var start := StartPos(offset, Load(w.stores, cacheOk, backendOk));
    Begin(w, start, EndPos(start, limit, treeSize))
  }

  /** A run can only begin once the one before it is over. */
  function Next(w: Worker, move: Move): Worker {
    match move
    case Live(m) => Step(w, m)
    case Crash => w.(phase := Stopped(Crashed))
    case Resume(offset, limit, treeSize, cacheOk, backendOk) =>
      if w.phase.Stopped? then Resumed(w, offset, limit, treeSize, cacheOk, backendOk) else w
  }

  function History(w: Worker, moves: seq<Move>): Worker {
    After(Next, w, moves)
  }

  /** Index i was sent to the channel, rejected as erroneous, or dealt with earlier. */
  predicate Covered(w: Worker, i: int) {
    i in w.base || exists k: nat :: k < |w.handled| && w.handled[k].index == i
  }

  predicate CoveredBelow(w: Worker, n: int) {
    forall i: nat | i < n :: Covered(w, i)
  }

  predicate StoresSound(w: Worker) {
    && (w.stores.cache.Some? ==> CoveredBelow(w, w.stores.cache.value))
    && (w.stores.backend.Some? ==> CoveredBelow(w, w.stores.backend.value))
  }

  /** What is saved is sound, and so is what a running worker could save now: an index
      beyond int64 is never saved. */
  predicate Sound(w: Worker) {
    StoresSound(w) && (!w.phase.Stopped? && w.index <= MAX_INT64 ==> CoveredBelow(w, w.index))
  }

  lemma HandledOnlyGrows(w: Worker, m: Moment)
    ensures w.handled <= Step(w, m).handled && w.base == Step(w, m).base
    ensures forall i :: Covered(w, i) ==> Covered(Step(w, m), i)
  {
    var w' := Step(w, m);
    forall i | Covered(w, i) ensures Covered(w', i) {
      if i !in w.base {
        var k: nat :| k < |w.handled| && w.handled[k].index == i;
        assert w'.handled[k].index == i;
      }
    }
  }

  lemma StepKeepsSound(w: Worker, m: Moment)
    requires Sound(w)
    ensures Sound(Step(w, m))
  {
    var w' := Step(w, m);
    HandledOnlyGrows(w, m);
    if !w'.phase.Stopped? && w'.index != w.index {
      assert w'.handled[|w.handled|].index == w.index;
      assert Covered(w', w.index);
    }
  }

  lemma ResumeKeepsSound(w: Worker, limit: uint64, treeSize: uint64, cacheOk: bool, backendOk: bool)
    requires Sound(w)
    ensures CoveredBelow(w, Load(w.stores, cacheOk, backendOk))
    ensures Sound(Resumed(w, 0, limit, treeSize, cacheOk, backendOk))
  {
    var w' := Resumed(w, 0, limit, treeSize, cacheOk, backendOk);
    assert forall i :: Covered(w, i) == Covered(w', i);
  }

  /** No gap, ever: without an offset, whatever the history, every index below a
      checkpoint in either store has been sent or rejected, and so has every index
      below the position the next run would resume from. */
  lemma {:induction false} NoHistoryLeavesAGap(w: Worker, moves: seq<Move>, cacheOk: bool, backendOk: bool)
    requires Sound(w)
    requires forall mv <- moves :: mv.Resume? ==> mv.offset == 0
    ensures var h := History(w, moves);
            Sound(h) && StoresSound(h) && CoveredBelow(h, Load(h.stores, cacheOk, backendOk))
  {
    if moves == [] {
      ResumeKeepsSound(w, 0, 0, cacheOk, backendOk);
    } else {
      var before, move := moves[..|moves| - 1], moves[|moves| - 1];
      NoHistoryLeavesAGap(w, before, cacheOk, backendOk);
      var v := History(w, before);
      match move {
        case Live(m) => StepKeepsSound(v, m);
        case Crash =>
          assert forall i :: Covered(v, i) == Covered(Next(v, move), i);
        case Resume(_, limit, treeSize, cOk, bOk) =>
          ResumeKeepsSound(v, limit, treeSize, cOk, bOk);
      }
      ResumeKeepsSound(History(w, moves), 0, 0, cacheOk, backendOk);
    }
  }

  /** A crash at any moment ends the run and nothing else: what the stores hold and what
      was handled stays, and the next run begins where the stores say. */
  lemma ACrashOnlyEndsTheRun(w: Worker, limit: uint64, treeSize: uint64, cacheOk: bool, backendOk: bool)
    ensures var h := History(w, [Crash, Resume(0, limit, treeSize, cacheOk, backendOk)]);
            && h.index == Load(w.stores, cacheOk, backendOk) && h.stores == w.stores
            && h.handled == w.handled && h.base == w.base
            && (h.phase.Asking? <==> h.index != EndPos(h.index, limit, treeSize))
  {
    AfterTwo(Next, w, Crash, Resume(0, limit, treeSize, cacheOk, backendOk));
  }

  /** A log no one has fetched from is sound. */
  lemma NewLogIsSound(start: uint64, end: uint64)
    ensures Sound(Fresh(start, end, Stores(None, None)).(phase := Stopped(NothingToDo)))
  {
  }

  // ------------------------------------------------------------------ progress

  /** Where the next run would resume, if both stores can be read. */
  function Position(w: Worker): uint64 {
    Load(w.stores, true, true)
  }

  /** Answers and trees that an int64 can count. */
  predicate Countable(moves: seq<Move>) {
    forall mv <- moves ::
      && (mv.Resume? ==> mv.treeSize <= MAX_INT64)
      && (mv.Live? && mv.m.reply.Entries? ==> |mv.m.reply.leaves| <= MAX_INT64)
  }

  predicate CountableAnswers(env: seq<Moment>) {
    forall m <- env :: m.reply.Entries? ==> |m.reply.leaves| <= MAX_INT64
  }

  /** A run that would fetch something, from before the saved position. */
  predicate Behind(w: Worker, start: uint64, end: uint64) {
    start != end && start < Position(w)
  }

  /** This move begins a run behind the saved position. */
  predicate FallsBehind(w: Worker, mv: Move) {
    mv.Resume? && w.phase.Stopped? &&
    var start := StartPos(mv.offset, Load(w.stores, mv.cacheOk, mv.backendOk));
    Behind(w, start, EndPos(start, mv.limit, mv.treeSize))
  }

  predicate NeverFallsBehind(w: Worker, moves: seq<Move>) {
    moves == [] ||
    (NeverFallsBehind(w, moves[..|moves| - 1]) && !FallsBehind(History(w, moves[..|moves| - 1]), moves[|moves| - 1]))
  }

  /** The index never wraps, and a running worker is at or past the saved position. */
  predicate Ahead(w: Worker) {
    && w.end <= MAX_INT64
    && (w.phase.Delivering? ==> w.index + |w.phase.pending| < TWO_64)
    && (!w.phase.Stopped? ==> Position(w) <= w.index)
  }

  /** Reading puts a run behind exactly when the cache has a record that cannot be read,
      and what is read instead is smaller; or the cache has none, and the backend's
      cannot be read and is not zero. An unreadable backend behind a cache that can be
      read does no harm. */
  lemma ReadsBehindExactly(s: Stores, cacheOk: bool, backendOk: bool)
    ensures Load(s, cacheOk, backendOk) < Load(s, true, true) <==>
            || (!cacheOk && s.cache.Some? &&
                s.cache.value > if backendOk && s.backend.Some? then s.backend.value else 0)
            || (s.cache.None? && !backendOk && s.backend.Some? && s.backend.value > 0)
  {
  }

  lemma MoveKeepsAhead(w: Worker, mv: Move)
    requires Ahead(w) && Countable([mv]) && !FallsBehind(w, mv)
    ensures Ahead(Next(w, mv)) && Position(w) <= Position(Next(w, mv))
  {
    assert mv in [mv];
  }

  /** Progress is never lost: over any history in which no run begins behind the saved
      position, the position to resume from never decreases, however saves fail. */
  lemma {:induction false} ProgressIsNeverLost(w: Worker, moves: seq<Move>, more: seq<Move>)
    requires Ahead(w) && Countable(moves + more) && NeverFallsBehind(w, moves + more)
    ensures Ahead(History(w, moves + more))
    ensures Position(History(w, moves)) <= Position(History(w, moves + more))
    decreases |moves| + |more|
  {
    var all := moves + more;
    if more == [] {
      assert all == moves;
      if moves == [] {
      } else {
        assert moves[..|moves| - 1] + [] == all[..|all| - 1];
        ProgressIsNeverLost(w, moves[..|moves| - 1], []);
        LastMoveKeepsAhead(w, all);
      }
    } else {
      var before := more[..|more| - 1];
      assert all[..|all| - 1] == moves + before;
      ProgressIsNeverLost(w, moves, before);
      LastMoveKeepsAhead(w, all);
    }
  }

  lemma LastMoveKeepsAhead(w: Worker, all: seq<Move>)
    requires all != [] && Countable(all) && NeverFallsBehind(w, all) && Ahead(History(w, all[..|all| - 1]))
    ensures Ahead(History(w, all)) && Position(History(w, all[..|all| - 1])) <= Position(History(w, all))
  {
    var last := all[|all| - 1];
    assert Countable([last]) by {
      assert last in all;
    }
    MoveKeepsAhead(History(w, all[..|all| - 1]), last);
  }

  /** Some environment makes a run from `start` lower the saved position. */
  ghost predicate CanLoseProgress(w: Worker, start: uint64, end: uint64) {
    exists env: seq<Moment> :: CountableAnswers(env) && Position(Play(Begin(w, start, end), env)) < Position(w)
  }

  lemma {:induction false} PlayKeepsAhead(w: Worker, env: seq<Moment>)
    requires Ahead(w) && CountableAnswers(env)
    ensures Ahead(Play(w, env)) && Position(w) <= Position(Play(w, env))
  {
    if env == [] {
    } else {
      var before, m := env[..|env| - 1], env[|env| - 1];
      PlayKeepsAhead(w, before);
      assert Countable([Live(m)]) by {
        assert m in env;
      }
      MoveKeepsAhead(Play(w, before), Live(m));
    }
  }

  /** A run can lower the saved position if and only if it would fetch something from
      before it: it overwrites the newer record as soon as it is stopped, and every
      entry in between will be fetched again. */
  lemma ProgressIsLostExactlyWhenBehind(w: Worker, start: uint64, end: uint64)
    requires w.phase.Stopped? && Position(w) <= MAX_INT64 && end <= MAX_INT64
    ensures CanLoseProgress(w, start, end) <==> Behind(w, start, end)
  {
    var b := Begin(w, start, end);
    if Behind(w, start, end) {
      var m := Moment(Failed, Signal, true, true);
      AfterTwo(Step, b, m, m);
      assert CountableAnswers([m, m]) && Position(Play(b, [m, m])) < Position(w);
    } else {
      forall env: seq<Moment> | CountableAnswers(env) ensures Position(w) <= Position(Play(b, env)) {
        PlayKeepsAhead(b, env);
      }
    }
  }

  /** In particular for the run that `NewLogWorker` begins without an offset: it can lose
      progress exactly when something is to be fetched and reading put it behind. */
  lemma ResumeLosesProgressExactly(w: Worker, limit: uint64, treeSize: uint64, cacheOk: bool, backendOk: bool)
    requires w.phase.Stopped? && Position(w) <= MAX_INT64 && treeSize <= MAX_INT64
    ensures var start := Load(w.stores, cacheOk, backendOk);
            var end := EndPos(start, limit, treeSize);
            && (CanLoseProgress(w, start, end) <==> start != end && start < Position(w))
            && (cacheOk && w.stores.cache.Some? ==> !CanLoseProgress(w, start, end))
  {
    var start := Load(w.stores, cacheOk, backendOk);
    ProgressIsLostExactlyWhenBehind(w, start, EndPos(start, limit, treeSize));
  }

  /** An instance: the cache at 7 cannot be read, the backend is at 3. */
  lemma UnreadableCacheLosesProgress()
    ensures var w := Fresh(0, 0, Stores(Some(7), Some(3)));
            CanLoseProgress(w, Load(w.stores, false, true), EndPos(Load(w.stores, false, true), 0, 9))
  {
    ResumeLosesProgressExactly(Fresh(0, 0, Stores(Some(7), Some(3))), 0, 9, false, true);
  }

  // -------------------------------------------------------------- with an offset

  /** Every environment of a run begun at `start` leaves the stores sound. */
  ghost predicate NeverUnsound(w: Worker, start: uint64, end: uint64) {
    forall env: seq<Moment> :: StoresSound(Play(Begin(w, start, end), env))
  }

  lemma {:induction false} PlayKeepsSound(w: Worker, env: seq<Moment>)
    requires Sound(w)
    ensures Sound(Play(w, env))
  {
    if env == [] {
    } else {
      PlayKeepsSound(w, env[..|env| - 1]);
      StepKeepsSound(Play(w, env[..|env| - 1]), env[|env| - 1]);
    }
  }

  /** A starting point is safe exactly when nothing will be fetched, or it is too large
      to be saved, or everything below it was already dealt with: otherwise a run
      stopped before it has fetched anything saves its starting point. */
  lemma StartIsSafeExactlyWhenCovered(w: Worker, start: uint64, end: uint64)
    requires Sound(w) && w.phase.Stopped?
    ensures NeverUnsound(w, start, end) <==> start == end || start > MAX_INT64 || CoveredBelow(w, start)
  {
    var b := Begin(w, start, end);
    assert forall i :: Covered(w, i) == Covered(b, i);
    if start == end || start > MAX_INT64 || CoveredBelow(w, start) {
      forall env: seq<Moment> ensures StoresSound(Play(b, env)) {
        PlayKeepsSound(b, env);
      }
    } else {
      StoppedAtOnceSavesItsStart(w, start, end);
    }
  }

  lemma StoppedAtOnceSavesItsStart(w: Worker, start: uint64, end: uint64)
    requires start != end && start <= MAX_INT64 && !CoveredBelow(w, start)
    ensures !NeverUnsound(w, start, end)
  {
    var b, m := Begin(w, start, end), Moment(Failed, Signal, true, true);
    var w' := Play(b, [m, m]);
    AfterTwo(Step, b, m, m);
    assert w'.stores.cache == Some(start) && w'.handled == w.handled && w'.base == w.base;
    assert forall i :: Covered(w', i) == Covered(w, i);
    assert !StoresSound(w');
  }

  /** A concrete loss: a first run at offset 5 that fails at once leaves both stores
      claiming the five entries it never saw. */
  lemma OffsetCanSkipEntries()
    ensures var w := Fresh(0, 0, Stores(None, None));
            var h := History(w, [Resume(5, 0, 9, true, true), Live(Moment(Failed, Signal, true, true)),
                                 Live(Moment(Failed, Signal, true, true))]);
            Sound(w) && h.stores == Stores(Some(5), Some(5)) && !Covered(h, 0) && !StoresSound(h)
  {
    var w := Fresh(0, 0, Stores(None, None));
    var r, l := Resume(5, 0, 9, true, true), Live(Moment(Failed, Signal, true, true));
    assert [r, l, l][..2] == [r, l];
    AfterTwo(Next, w, r, l);
    var h := History(w, [r, l, l]);
    assert h == Next(Next(Next(w, r), l), l);
    assert !Covered(h, 0);
  }
}
