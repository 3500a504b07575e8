/** From log to store: the program of `Engine` whose database threads call the `Store`
    of `StoreProtocol` for each entry they take off the channel
    (cmd/ct-fetch/ct-fetch.go, storage/filesystemdatabase.go).
 */
module Pipeline {
  import opened Options
  import opened Runs
  import opened Download
  import opened Checkpoints
  import Engine
  import StoreProtocol

  type Cert = StoreProtocol.Cert

  /** What a database thread makes of an entry: the certificate to store, if it parses,
      has an issuer and is not filtered out. */
  type Reader = int -> Option<Cert>

  /** The contents of every log. */
  type Logs = Engine.LogId -> (int -> Leaf)

  /** The first `earlier` jobs are those of earlier processes; `at[k]` is the position on
      the channel of the entry that job earlier + k stores. */
  datatype State = State(engine: Engine.State, store: StoreProtocol.State, earlier: nat, at: seq<nat>)

  datatype Act = Move(a: Engine.Act) | Work(b: StoreProtocol.Act)

  /** A thread is done with its entry when its `Store`, if it called one, has returned. */
  predicate MayFinish(s: State, t: nat) {
    t < |s.engine.hands| && s.engine.hands[t].Busy? ==>
      forall k: nat | k < |s.at| && s.earlier + k < |s.store.jobs| ::
        s.at[k] == s.engine.hands[t].pos ==> s.store.jobs[s.earlier + k].stage.Returned?
  }

  /** The thread that has just taken the entry at p begins to store it. */
  function Taken(read: Reader, s: State, p: nat): State
    requires p < |s.engine.sent|
  {
    match read(s.engine.sent[p].body)
    case None => s
    case Some(c) => s.(store := StoreProtocol.Called(s.store, c), at := s.at + [p])
  }

  predicate Receives(s: State, a: Engine.Act) {
    a.Receive? && a.t < |s.engine.hands| && s.engine.hands[a.t].Idle? && |s.engine.taken| < |s.engine.sent|
  }

  function Do(read: Reader, s: State, act: Act): State {
    match act
    case Work(b) => s.(store := StoreProtocol.Do(s.store, b))
    case Move(a) =>
      if a.Finish? && !MayFinish(s, a.t) then s
      else if Receives(s, a) then Taken(read, s, |s.engine.taken|).(engine := Engine.Do(s.engine, a))
      else s.(engine := Engine.Do(s.engine, a))
  }

  function Run(read: Reader, s: State, acts: seq<Act>): State {
    After((v: State, act: Act) => Do(read, v, act), s, acts)
  }

  predicate JobFor(s: StoreProtocol.State, c: Cert, j: nat) {
    j < |s.jobs| && s.jobs[j].cert == c
  }

  /** Only certificates that some process has called `Store` for are in the backend. */
  ghost predicate PemsHaveJobs(s: StoreProtocol.State) {
    forall c <- s.pems :: exists j: nat :: JobFor(s, c, j)
  }

  /** A process about to start, over whatever earlier processes left in the logs' records,
      in the remote cache and in the backend. */
  ghost predicate Starting(s: State) {
    && Engine.Starting(s.engine) && Engine.AllSound(s.engine)
    && StoreProtocol.Inv(s.store) && PemsHaveJobs(s.store)
    && (forall job <- s.store.jobs :: job.stage.Returned?)
    && s.earlier == |s.store.jobs| && s.at == []
  }

  // -------------------------------------------------------------- assumptions

  predicate NoOffset(acts: seq<Act>) {
    forall act <- acts :: act.Move? && act.a.Again? ==> act.a.offset == 0
  }

  /** The answer to a request, if this act makes one, is true and can be counted. */
  ghost predicate TruthfulAct(logs: Logs, s: State, act: Act) {
    act.Move? && act.a.Fetch? && act.a.log in s.engine.logs ==>
      var w, m := s.engine.logs[act.a.log], act.a.m;
      AnswerIsTrue(logs(act.a.log), w, m) && (m.reply.Entries? ==> w.end + |m.reply.leaves| <= TWO_64)
  }

  ghost predicate AllTruthful(logs: Logs, read: Reader, s: State, acts: seq<Act>) {
    acts == [] ||
    (AllTruthful(logs, read, s, acts[..|acts| - 1]) &&
     TruthfulAct(logs, Run(read, s, acts[..|acts| - 1]), acts[|acts| - 1]))
  }

  // ---------------------------------------------------------------- invariant

  ghost predicate LogsMatch(logs: Logs, s: State) {
    forall l <- s.engine.logs :: NoWrap(s.engine.logs[l]) && MatchesLog(logs(l), s.engine.logs[l])
  }

  predicate StoresAt(s: State, p: nat, j: nat) {
    j < |s.at| && s.at[j] == p
  }

  /** The k-th job of this process stores what the entry at its position holds, and has
      returned if that entry is finished. */
  predicate JobFits(read: Reader, s: State, k: nat)
    requires k < |s.at|
  {
    && s.earlier + k < |s.store.jobs| && s.at[k] < |s.engine.taken| && s.at[k] < |s.engine.sent|
    && read(s.engine.sent[s.at[k]].body) == Some(s.store.jobs[s.earlier + k].cert)
    && (s.at[k] in s.engine.finished ==> s.store.jobs[s.earlier + k].stage.Returned?)
  }

  ghost predicate HasJob(read: Reader, s: State, p: nat)
    requires p < |s.engine.sent|
  {
    read(s.engine.sent[p].body).Some? ==> exists k: nat :: StoresAt(s, p, k)
  }

  /** A PEM was there at the start or is of a certificate that this process stores. */
  ghost predicate PemsInv(s0: State, s: State) {
    forall c <- s.store.pems :: c in s0.store.pems || exists j: nat :: j >= s.earlier && JobFor(s.store, c, j)
  }

  ghost predicate JobsInv(read: Reader, s: State) {
    && s.earlier + |s.at| == |s.store.jobs| && |s.engine.taken| <= |s.engine.sent|
    && (forall j: nat | j < s.earlier :: s.store.jobs[j].stage.Returned?)
    && (forall k: nat | k < |s.at| :: JobFits(read, s, k))
    && (forall p: nat | p < |s.engine.taken| :: HasJob(read, s, p))
    && PemsHaveJobs(s.store)
  }

  ghost predicate Inv(logs: Logs, read: Reader, s: State) {
    && Engine.Inv(s.engine) && Engine.AllSound(s.engine) && StoreProtocol.Inv(s.store)
    && LogsMatch(logs, s) && JobsInv(read, s)
  }

  /** How an act of the engine moves entries along. */
  lemma EngineMoves(e: Engine.State, a: Engine.Act)
    ensures var e' := Engine.Do(e, a);
            && e.sent <= e'.sent
            && (if a.Receive? && a.t < |e.hands| && e.hands[a.t].Idle? && |e.taken| < |e.sent|
                then e'.taken == e.taken + [a.t] && e'.finished == e.finished
                else e'.taken == e.taken)
            && (e'.finished == e.finished ||
                (a.Finish? && a.t < |e.hands| && e.hands[a.t].Busy? && e'.finished == e.finished + {e.hands[a.t].pos}))
  {
  }

  lemma WorkKeepsJobs(read: Reader, s: State, b: StoreProtocol.Act)
    requires JobsInv(read, s)
    ensures JobsInv(read, Do(read, s, Work(b)))
  {
    var s' := Do(read, s, Work(b));
    StoreProtocol.DoKeepsCerts(s.store, b);
    forall k: nat | k < |s'.at| ensures JobFits(read, s', k) {
      assert JobFits(read, s, k);
    }
    forall p: nat | p < |s'.engine.taken| ensures HasJob(read, s', p) {
      assert HasJob(read, s, p);
      if k: nat :| StoresAt(s, p, k) {
        assert StoresAt(s', p, k);
      }
    }
    forall c | c in s'.store.pems ensures exists j: nat :: JobFor(s'.store, c, j) {
      if c in s.store.pems {
        var j: nat :| JobFor(s.store, c, j);
        assert JobFor(s'.store, c, j);
      } else {
        var j: nat :| j < |s.store.jobs| && s.store.jobs[j].cert == c && !s.store.jobs[j].stage.Returned?;
        assert JobFor(s'.store, c, j);
      }
    }
  }

  /** Entries move along the channel and threads finish, but none takes a new entry. */
  lemma PassingKeepsJobs(read: Reader, s: State, a: Engine.Act)
    requires JobsInv(read, s) && Engine.Inv(Engine.Do(s.engine, a))
    requires !Receives(s, a) && (a.Finish? ==> MayFinish(s, a.t))
    ensures JobsInv(read, Do(read, s, Move(a)))
  {
    var s' := Do(read, s, Move(a));
    EngineMoves(s.engine, a);
    forall j: nat | j < |s'.at| ensures JobFits(read, s', j) {
      assert JobFits(read, s, j);
    }
    forall p: nat | p < |s'.engine.taken| ensures HasJob(read, s', p) {
      assert HasJob(read, s, p);
      if j: nat :| StoresAt(s, p, j) {
        assert StoresAt(s', p, j);
      }
    }
  }

  lemma ReceivingKeepsJobs(read: Reader, s: State, a: Engine.Act)
    requires JobsInv(read, s) && Engine.HandsInv(s.engine) && Receives(s, a)
    ensures JobsInv(read, Do(read, s, Move(a)))
  {
    var s', newest := Do(read, s, Move(a)), |s.engine.taken|;
    EngineMoves(s.engine, a);
    forall j: nat | j < |s'.at| ensures JobFits(read, s', j) {
      assert j < |s.at| ==> JobFits(read, s, j);
    }
    forall p: nat | p < |s'.engine.taken| ensures HasJob(read, s', p) {
      if p < newest {
        assert HasJob(read, s, p);
        if j: nat :| StoresAt(s, p, j) {
          assert StoresAt(s', p, j);
        }
      } else if read(s.engine.sent[p].body).Some? {
        assert StoresAt(s', p, |s.at|);
      }
    }
    forall c | c in s'.store.pems ensures exists j: nat :: JobFor(s'.store, c, j) {
      var j: nat :| JobFor(s.store, c, j);
      assert JobFor(s'.store, c, j);
    }
  }

  lemma FetchKeepsMatch(log: int -> Leaf, w: Worker, m: Moment)
    requires NoWrap(w) && MatchesLog(log, w) && AnswerIsTrue(log, w, m)
    requires m.reply.Entries? ==> w.end + |m.reply.leaves| <= TWO_64
    ensures NoWrap(Step(w, m)) && MatchesLog(log, Step(w, m))
  {
    StepMatchesLog(log, w, m);
  }

  /** An act of the engine leaves a log's worker as it is, or is a moment of its run, or
      begins another. */
  lemma WorkerMoves(e: Engine.State, a: Engine.Act, l: Engine.LogId)
    requires l in e.logs
    ensures var e' := Engine.Do(e, a);
            && l in e'.logs && e'.logs.Keys == e.logs.Keys
            && var w, w' := e.logs[l], e'.logs[l];
               || w' == w
               || (a.Fetch? && a.log == l && w' == Step(w, a.m))
               || (a.Again? && a.log == l &&
                   w' == Resumed(w, a.offset, a.limit, a.treeSize, a.cacheOk, a.backendOk))
  {
  }

  lemma MoveKeepsMatch(logs: Logs, read: Reader, s: State, a: Engine.Act)
    requires LogsMatch(logs, s) && TruthfulAct(logs, s, Move(a))
    ensures LogsMatch(logs, s.(engine := Engine.Do(s.engine, a)))
  {
    var e' := Engine.Do(s.engine, a);
    forall l | l in e'.logs ensures NoWrap(e'.logs[l]) && MatchesLog(logs(l), e'.logs[l]) {
      assert l in s.engine.logs by {
        if k :| k in s.engine.logs {
          WorkerMoves(s.engine, a, k);
        }
      }
      WorkerMoves(s.engine, a, l);
      if a.Fetch? && a.log == l {
        FetchKeepsMatch(logs(l), s.engine.logs[l], a.m);
      }
    }
  }

  lemma ReceivingKeepsStore(read: Reader, s: State, a: Engine.Act)
    requires StoreProtocol.Inv(s.store) && Receives(s, a)
    ensures StoreProtocol.Inv(Do(read, s, Move(a)).store) && Do(read, s, Move(a)).engine == Engine.Do(s.engine, a)
  {
    var entry := read(s.engine.sent[|s.engine.taken|].body);
    if entry.Some? {
      StoreProtocol.CalledKeepsInv(s.store, entry.value);
    }
  }

  lemma MoveKeepsInv(logs: Logs, read: Reader, s: State, a: Engine.Act)
    requires Inv(logs, read, s) && TruthfulAct(logs, s, Move(a)) && (a.Again? ==> a.offset == 0)
    ensures Inv(logs, read, Do(read, s, Move(a)))
  {
    Engine.DoKeepsInv(s.engine, a);
    Engine.DoKeepsSound(s.engine, a);
    MoveKeepsMatch(logs, read, s, a);
    if Receives(s, a) {
      ReceivingKeepsJobs(read, s, a);
      ReceivingKeepsStore(read, s, a);
    } else if !(a.Finish? && !MayFinish(s, a.t)) {
      PassingKeepsJobs(read, s, a);
    }
  }

  lemma DoKeepsInv(logs: Logs, read: Reader, s: State, act: Act)
    requires Inv(logs, read, s) && TruthfulAct(logs, s, act)
    requires act.Move? && act.a.Again? ==> act.a.offset == 0
    ensures Inv(logs, read, Do(read, s, act))
  {
    match act {
      case Work(b) =>
        StoreProtocol.DoKeepsInv(s.store, b);
        WorkKeepsJobs(read, s, b);
      case Move(a) =>
        MoveKeepsInv(logs, read, s, a);
    }
  }

  lemma {:induction false} ReachableInv(logs: Logs, read: Reader, s: State, acts: seq<Act>)
    requires Starting(s) && NoOffset(acts) && AllTruthful(logs, read, s, acts)
    ensures Inv(logs, read, Run(read, s, acts))
  {
    if acts == [] {
      Engine.StartingInv(s.engine);
      forall j: nat | j < s.earlier ensures s.store.jobs[j].stage.Returned? {
        assert s.store.jobs[j] in s.store.jobs;
      }
    } else {
      ReachableInv(logs, read, s, acts[..|acts| - 1]);
      DoKeepsInv(logs, read, Run(read, s, acts[..|acts| - 1]), acts[|acts| - 1]);
    }
  }

  // ------------------------------------------------------------------ end to end

  /** `main` has been let past both wait groups, and some thread had registered. */
  predicate ShutDown(s: State) {
    && s.engine.closed && s.engine.threads == 0
    && exists t: nat :: t < |s.engine.hands| && !s.engine.hands[t].Unborn?
  }

  lemma JobReturned(read: Reader, s: State, j: nat)
    requires JobsInv(read, s) && Engine.Drained(s.engine) && j < |s.store.jobs|
    ensures s.store.jobs[j].stage.Returned?
  {
    if j >= s.earlier {
      assert JobFits(read, s, j - s.earlier);
    }
  }

  lemma AllStoresReturned(read: Reader, s: State, c: Cert)
    requires JobsInv(read, s) && Engine.Drained(s.engine)
    ensures StoreProtocol.AllReturned(s.store, c)
  {
    forall job | job in s.store.jobs ensures job.stage.Returned? {
      var j: nat :| j < |s.store.jobs| && s.store.jobs[j] == job;
      JobReturned(read, s, j);
    }
  }

  /** A certificate sits at an index of a log. */
  predicate LeafHolds(logs: Logs, read: Reader, l: Engine.LogId, i: int, c: Cert) {
    logs(l)(i).Good? && read(logs(l)(i).body) == Some(c)
  }

  /** A leaf whose index was dealt with by this process has a job. */
  lemma CoveredLeafHasJob(logs: Logs, read: Reader, s: State, l: Engine.LogId, i: nat, c: Cert)
    requires Inv(logs, read, s) && Engine.Drained(s.engine) && l in s.engine.logs
    requires Covered(s.engine.logs[l], i) && i !in s.engine.logs[l].base && LeafHolds(logs, read, l, i, c)
    ensures exists job :: job in s.store.jobs && job.cert == c
  {
    var w := s.engine.logs[l];
    var k: nat :| k < |w.handled| && w.handled[k].index == i;
    var h := w.handled[k];
    assert h in w.handled && h.verdict == Judge(logs(l)(i));
    assert Engine.OnChannel(s.engine, l, h);
    var p :| Engine.Carried(s.engine, l, h, p);
    assert HasJob(read, s, p);
    var n: nat :| StoresAt(s, p, n);
    assert JobFits(read, s, n);
    assert s.store.jobs[s.earlier + n] in s.store.jobs;
  }

  lemma LeafIsStoredOnce(logs: Logs, read: Reader, s: State, l: Engine.LogId, i: nat, c: Cert)
    requires Inv(logs, read, s) && Engine.Drained(s.engine) && l in s.engine.logs
    requires Engine.BelowCheckpoint(s.engine.logs[l], i) && i !in s.engine.logs[l].base
    requires LeafHolds(logs, read, l, i, c) && c.bucket !in s.store.expired
    ensures exists job :: job in s.store.jobs && job.cert == c
    ensures multiset(s.store.pems)[c] == if StoreProtocol.WriteLost(s.store, c) then 0 else 1
  {
    AllStoresReturned(read, s, c);
    StoreProtocol.MissingExactly(s.store, c);
    assert Covered(s.engine.logs[l], i) by {
      assert Sound(s.engine.logs[l]);
    }
    CoveredLeafHasJob(logs, read, s, l, i, c);
  }

  /** No failed call and no lost reply, no lost write. */
  lemma UndisturbedIsNotLost(s: StoreProtocol.State, c: Cert)
    requires exists job :: job in s.jobs && job.cert == c
    requires forall job <- s.jobs :: job.cert == c ==> !StoreProtocol.Disturbed(job)
    ensures !StoreProtocol.WriteLost(s, c)
  {
  }

  /** End to end: after a shutdown, without an offset and with truthful logs, take any
      index below any checkpoint that was not dealt with before this process, whose leaf
      holds a certificate. Unless the set of its bucket has run out, that certificate has
      exactly one PEM, or none if and only if its write was lost in one of the known ways
      by a Store of this process or of an earlier one. */
  lemma EveryLeafIsStoredOnce(logs: Logs, read: Reader, s0: State, acts: seq<Act>, l: Engine.LogId, i: nat, c: Cert)
    requires Starting(s0) && NoOffset(acts) && AllTruthful(logs, read, s0, acts)
    requires var s := Run(read, s0, acts);
             && ShutDown(s) && l in s.engine.logs
             && Engine.BelowCheckpoint(s.engine.logs[l], i) && i !in s.engine.logs[l].base
             && LeafHolds(logs, read, l, i, c) && c.bucket !in s.store.expired
    ensures var s := Run(read, s0, acts);
            && multiset(s.store.pems)[c] == (if StoreProtocol.WriteLost(s.store, c) then 0 else 1)
            && ((forall job <- s.store.jobs :: job.cert == c ==> !StoreProtocol.Disturbed(job)) ==>
                  multiset(s.store.pems)[c] == 1)
  {
    var s := Run(read, s0, acts);
    ReachableInv(logs, read, s0, acts);
    Engine.ClosedIsDrained(s.engine);
    LeafIsStoredOnce(logs, read, s, l, i, c);
    if forall job <- s.store.jobs :: job.cert == c ==> !StoreProtocol.Disturbed(job) {
      UndisturbedIsNotLost(s.store, c);
    }
  }

  lemma DoKeepsPems(read: Reader, s0: State, s: State, act: Act)
    requires JobsInv(read, s) && PemsInv(s0, s)
    ensures PemsInv(s0, Do(read, s, act))
  {
    var s' := Do(read, s, act);
    if act.Work? {
      StoreProtocol.DoKeepsCerts(s.store, act.b);
    }
    forall c | c in s'.store.pems && c !in s0.store.pems
      ensures exists j: nat :: j >= s'.earlier && JobFor(s'.store, c, j)
    {
      if c in s.store.pems {
        var j: nat :| j >= s.earlier && JobFor(s.store, c, j);
        assert JobFor(s'.store, c, j);
      } else {
        var j: nat :| j < |s.store.jobs| && s.store.jobs[j].cert == c && !s.store.jobs[j].stage.Returned?;
        assert j >= s'.earlier && JobFor(s'.store, c, j);
      }
    }
  }

  lemma {:induction false} NewPemsHaveNewJobs(logs: Logs, read: Reader, s: State, acts: seq<Act>)
    requires Starting(s) && NoOffset(acts) && AllTruthful(logs, read, s, acts)
    ensures PemsInv(s, Run(read, s, acts))
  {
    if acts == [] {
    } else {
      var before := acts[..|acts| - 1];
      NewPemsHaveNewJobs(logs, read, s, before);
      ReachableInv(logs, read, s, before);
      DoKeepsPems(read, s, Run(read, s, before), acts[|acts| - 1]);
    }
  }

  /** What is on the channel is a leaf of a log. */
  lemma SentIsFromLog(logs: Logs, s: State, p: nat) returns (l: Engine.LogId, i: int)
    requires Engine.LogsInv(s.engine) && LogsMatch(logs, s) && p < |s.engine.sent|
    ensures l in s.engine.logs && logs(l)(i) == Good(s.engine.sent[p].body)
  {
    var item := s.engine.sent[p];
    assert Engine.FromDownloader(s.engine, p);
    l, i := item.log, item.index;
    var h := Handled(item.index, Sent(item.body));
    assert h in s.engine.logs[l].handled && h.verdict == Judge(logs(l)(i));
  }

  /** And nothing else is stored: every PEM that was not there when the process started is
      of a certificate that some log holds. */
  lemma EveryPemIsFromALog(logs: Logs, read: Reader, s0: State, acts: seq<Act>, c: Cert)
    requires Starting(s0) && NoOffset(acts) && AllTruthful(logs, read, s0, acts)
    requires c in Run(read, s0, acts).store.pems && c !in s0.store.pems
    ensures exists l: Engine.LogId, i: int :: l in Run(read, s0, acts).engine.logs && LeafHolds(logs, read, l, i, c)
  {
    var s := Run(read, s0, acts);
    ReachableInv(logs, read, s0, acts);
    NewPemsHaveNewJobs(logs, read, s0, acts);
    var j: nat :| j >= s.earlier && JobFor(s.store, c, j);
    assert JobFits(read, s, j - s.earlier);
    var l, i := SentIsFromLog(logs, s, s.at[j - s.earlier]);
    assert LeafHolds(logs, read, l, i, c);
  }

  // ------------------------------------------------------ one process after another

  /** The jobs of a process that ends die with it. */
  function AllDie(s: StoreProtocol.State, n: nat): StoreProtocol.State {
    if n == 0 then s else StoreProtocol.Do(AllDie(s, n - 1), StoreProtocol.Die(n - 1))
  }

  lemma {:induction false} DeadJobs(s: StoreProtocol.State, n: nat)
    requires StoreProtocol.Inv(s) && PemsHaveJobs(s) && n <= |s.jobs|
    ensures var t := AllDie(s, n);
            && StoreProtocol.Inv(t) && PemsHaveJobs(t) && |t.jobs| == |s.jobs|
            && forall j: nat | j < n :: t.jobs[j].stage.Returned?
  {
    if n == 0 {
    } else {
      DeadJobs(s, n - 1);
      var t, t' := AllDie(s, n - 1), AllDie(s, n);
      StoreProtocol.DoKeepsInv(t, StoreProtocol.Die(n - 1));
      forall c | c in t'.pems ensures exists j: nat :: JobFor(t', c, j) {
        var j: nat :| JobFor(t, c, j);
        assert JobFor(t', c, j);
      }
    }
  }

  /** What the next process finds of a log: its records, and its indices dealt with. */
  function Rested(w: Worker): Worker {
    w.(phase := Stopped(Crashed), handled := [],
       base := w.base + set k: nat | k < |w.handled| :: w.handled[k].index)
  }

  lemma RestedIsSound(w: Worker)
    requires Sound(w)
    ensures Sound(Rested(w))
  {
    forall i ensures Covered(w, i) <==> Covered(Rested(w), i) {
      if k: nat :| k < |w.handled| && w.handled[k].index == i {
        assert i in Rested(w).base;
      }
    }
  }

  function RestartedEngine(e: Engine.State, threads: nat): Engine.State {
    Engine.State(map l | l in e.logs :: Rested(e.logs[l]), {}, |e.logs.Keys|,
                 false, false, [], [], {}, seq(threads, _ => Engine.Unborn), 0)
  }

  lemma EngineRestarts(e: Engine.State, threads: nat)
    requires Engine.AllSound(e)
    ensures Engine.Starting(RestartedEngine(e, threads)) && Engine.AllSound(RestartedEngine(e, threads))
  {
    var e' := RestartedEngine(e, threads);
    assert e'.logs.Keys == e.logs.Keys;
    forall l | l in e'.logs ensures Sound(e'.logs[l]) {
      RestedIsSound(e.logs[l]);
    }
  }

  /** The next process, with some number of database threads, after this one has ended at
      any moment and in any way. */
  function Restarted(s: State, threads: nat): State {
    State(RestartedEngine(s.engine, threads), AllDie(s.store, |s.store.jobs|), |s.store.jobs|, [])
  }

  /** Whenever a process ends, the next one can start: so what is proved of one process
      holds of every one in any succession of processes, crashes included. */
  lemma ProcessesSucceed(logs: Logs, read: Reader, s: State, threads: nat)
    requires Inv(logs, read, s)
    ensures Starting(Restarted(s, threads))
  {
    EngineRestarts(s.engine, threads);
    DeadJobs(s.store, |s.store.jobs|);
  }

  /** The first process of all: nothing stored, and no index of any log dealt with. */
  lemma FirstProcessStarts(s: State)
    requires Engine.Starting(s.engine) && s.earlier == 0 && s.at == []
    requires forall l <- s.engine.logs :: s.engine.logs[l].stores == Stores(None, None)
    requires StoreProtocol.Starting(s.store) && s.store.jobs == []
    ensures Starting(s)
  {
    StoreProtocol.StartingInv(s.store);
  }
}
