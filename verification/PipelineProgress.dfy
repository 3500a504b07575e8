/** The program with its Stores can always still be shut down: every continuation of the
    engine has one of the pipeline, in which each thread's `Store` returns before the
    thread is done with its entry (cmd/ct-fetch/ct-fetch.go).
 */
module PipelineProgress {
  import opened Runs
  import Engine
  import EngineProgress
  import StoreProtocol
  import opened Pipeline

  ghost predicate Reaches(read: Reader, s: State, s': State) {
    exists acts: seq<Act> :: Run(read, s, acts) == s'
  }

  lemma ReachesItself(read: Reader, s: State)
    ensures Reaches(read, s, s)
  {
    assert Run(read, s, []) == s;
  }

  lemma {:induction false} RunBoth(read: Reader, s: State, a: seq<Act>, b: seq<Act>)
    ensures Run(read, s, a + b) == Run(read, Run(read, s, a), b)
  {
    if b == [] {
      assert a + b == a;
    } else {
      RunBoth(read, s, a, b[..|b| - 1]);
      assert (a + b)[..|a + b| - 1] == a + b[..|b| - 1];
    }
  }

  lemma ReachesOn(read: Reader, s: State, t: State, act: Act)
    requires Reaches(read, s, t)
    ensures Reaches(read, s, Do(read, t, act))
  {
    var acts :| Run(read, s, acts) == t;
    var more := acts + [act];
    assert more[..|more| - 1] == acts;
    assert Run(read, s, more) == Do(read, t, act);
  }

  lemma ReachesFar(read: Reader, s: State, t: State, u: State)
    requires Reaches(read, s, t) && Reaches(read, t, u)
    ensures Reaches(read, s, u)
  {
    var a :| Run(read, s, a) == t;
    var b :| Run(read, t, b) == u;
    RunBoth(read, s, a, b);
    assert Run(read, s, a + b) == u;
  }

  // --------------------------------------------------------------- Stores return

  function StepsLeft(stage: StoreProtocol.Stage): nat {
    match stage
    case Inserting => 6
    case Expiring => 5
    case Accumulating => 4
    case Allocating => 3
    case Writing => 2
    case Marking => 1
    case Returned => 0
  }

  /** Only Stores have moved, and those that had returned have not. */
  predicate OnlyStores(s: State, s': State) {
    && s' == s.(store := s'.store) && |s'.store.jobs| == |s.store.jobs|
    && forall j: nat | j < |s.store.jobs| :: s.store.jobs[j].stage.Returned? ==> s'.store.jobs[j].stage.Returned?
  }

  lemma JobSteps(read: Reader, s: State, j: nat)
    requires j < |s.store.jobs| && !s.store.jobs[j].stage.Returned?
    ensures var s' := Do(read, s, Work(StoreProtocol.Go(j, true, false)));
            OnlyStores(s, s') && StepsLeft(s'.store.jobs[j].stage) < StepsLeft(s.store.jobs[j].stage)
  {
    StoreProtocol.SharedKeepsJobs(s.store, s.store.jobs[j], true, false);
  }

  lemma {:induction false} JobReturns(read: Reader, s: State, j: nat) returns (s': State)
    requires j < |s.store.jobs|
    ensures Reaches(read, s, s') && OnlyStores(s, s') && s'.store.jobs[j].stage.Returned?
    decreases StepsLeft(s.store.jobs[j].stage)
  {
    if s.store.jobs[j].stage.Returned? {
      ReachesItself(read, s);
      s' := s;
    } else {
      var act := Work(StoreProtocol.Go(j, true, false));
      JobSteps(read, s, j);
      ReachesItself(read, s);
      ReachesOn(read, s, s, act);
      s' := JobReturns(read, Do(read, s, act), j);
      ReachesFar(read, s, Do(read, s, act), s');
    }
  }

  lemma {:induction false} JobsReturn(read: Reader, s: State, n: nat) returns (s': State)
    requires n <= |s.store.jobs|
    ensures Reaches(read, s, s') && OnlyStores(s, s')
    ensures forall j: nat | j < n :: s'.store.jobs[j].stage.Returned?
  {
    if n == 0 {
      ReachesItself(read, s);
      s' := s;
    } else {
      var s1 := JobsReturn(read, s, n - 1);
      s' := JobReturns(read, s1, n - 1);
      ReachesFar(read, s, s1, s');
    }
  }

  // ------------------------------------------------------ the engine's runs lifted

  /** Whatever the engine does next the pipeline can do, once its Stores have returned. */
  lemma EngineStep(read: Reader, s: State, a: Engine.Act) returns (s': State)
    ensures Reaches(read, s, s') && s'.engine == Engine.Do(s.engine, a)
  {
    var s1 := JobsReturn(read, s, |s.store.jobs|);
    assert MayFinish(s1, if a.Finish? then a.t else 0);
    ReachesOn(read, s, s1, Move(a));
    s' := Do(read, s1, Move(a));
  }

  lemma {:induction false} EngineRun(read: Reader, s: State, more: seq<Engine.Act>) returns (s': State)
    ensures Reaches(read, s, s') && s'.engine == Engine.Run(s.engine, more)
  {
    if more == [] {
      ReachesItself(read, s);
      s' := s;
    } else {
      var s1 := EngineRun(read, s, more[..|more| - 1]);
      s' := EngineStep(read, s1, more[|more| - 1]);
      ReachesFar(read, s, s1, s');
    }
  }

  lemma {:induction false} EngineKeepsInv(read: Reader, s: State, acts: seq<Act>)
    requires Engine.Starting(s.engine)
    ensures Engine.Inv(Run(read, s, acts).engine) && |Run(read, s, acts).engine.hands| == |s.engine.hands|
  {
    if acts == [] {
      Engine.StartingInv(s.engine);
    } else {
      var t, act := Run(read, s, acts[..|acts| - 1]), acts[|acts| - 1];
      EngineKeepsInv(read, s, acts[..|acts| - 1]);
      if act.Move? {
        Engine.DoKeepsInv(t.engine, act.a);
        Engine.DoKeepsHandCount(t.engine, act.a);
      }
    }
  }

  /** From every reachable state, whatever its Stores are at and whatever has failed, the
      program can be shut down, with everything it had sent received and finished. */
  lemma EveryStateCanShutDown(read: Reader, s0: State, acts: seq<Act>) returns (more: seq<Act>)
    requires Engine.Starting(s0.engine) && |s0.engine.hands| > 0
    ensures var s' := Run(read, Run(read, s0, acts), more); ShutDown(s') && Engine.Drained(s'.engine)
  {
    var s := Run(read, s0, acts);
    EngineKeepsInv(read, s0, acts);
    var engineMore := EngineProgress.CanShutDown(s.engine);
    var s' := EngineRun(read, s, engineMore);
    assert EngineProgress.Done(s'.engine);
    more :| Run(read, s, more) == s';
  }

  /** And the next leaf of any log whose downloader has not gone can be taken in, its
      `Store` called and returned. */
  lemma NextLeafGetsThrough(read: Reader, s0: State, acts: seq<Act>, l: Engine.LogId, body: int)
    returns (more: seq<Act>)
    requires Engine.Starting(s0.engine) && |s0.engine.hands| > 0
    requires var e := Run(read, s0, acts).engine;
             l in e.logs && l !in e.left && EngineProgress.Int64Stores(e.logs[l])
    ensures var s, s' := Run(read, s0, acts), Run(read, Run(read, s0, acts), more);
            && |s.engine.sent| in s'.engine.finished && |s'.engine.sent| == |s.engine.sent| + 1
            && s'.engine.sent[|s.engine.sent|].log == l && s'.engine.sent[|s.engine.sent|].body == body
            && forall j: nat | j < |s'.store.jobs| :: s'.store.jobs[j].stage.Returned?
  {
    var s := Run(read, s0, acts);
    EngineKeepsInv(read, s0, acts);
    var e' := EngineProgress.CanTakeNextLeaf(s.engine, l, body);
    var engineMore :| Engine.Run(s.engine, engineMore) == e';
    var s1 := EngineRun(read, s, engineMore);
    var s' := JobsReturn(read, s1, |s1.store.jobs|);
    ReachesFar(read, s, s1, s');
    more :| Run(read, s, more) == s';
  }
}
