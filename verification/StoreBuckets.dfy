/** Whether a bucket with PEMs is allocated, so that its issuer is listed for its date:
    the issuer's object marks the date before anything can fail, and only the job that
    found it unmarked allocates (storage/filesystemdatabase.go,
    storage/issuermetadata.go).
 */
module StoreBuckets {
  import opened Options
  import opened Runs
  import opened StoreProtocol

  /** The job found its bucket's date unmarked, and failed or died before allocating. */
  predicate LostAllocation(job: Job) {
    job.first && (job.failedAt == Some(Accumulating) || job.failedAt == Some(Allocating))
  }

  /** The job found its bucket's date unmarked, and has allocated the bucket. */
  predicate HasAllocated(job: Job) {
    job.first && !job.stage.Allocating? && !LostAllocation(job)
  }

  predicate JobAllocInv(s: State, job: Job) {
    && (job.first ==> !job.stage.Inserting? && !job.stage.Expiring? && !job.stage.Accumulating?)
    && (job.first || job.wrote || job.stage.Allocating? || job.stage.Writing? ==> job.cert.bucket in s.marked)
    && (job.wrote ==> job.stage.Marking? || job.stage.Returned?)
    && (HasAllocated(job) ==> job.cert.bucket in s.buckets)
    && (job.failedAt.Some? ==> job.stage.Returned?)
  }

  predicate IsFirst(s: State, b: Bucket, j: nat) {
    j < |s.jobs| && s.jobs[j].cert.bucket == b && s.jobs[j].first
  }

  predicate IsAllocator(s: State, b: Bucket, j: nat) {
    j < |s.jobs| && s.jobs[j].cert.bucket == b && HasAllocated(s.jobs[j])
  }

  ghost predicate BucketInv(s: State, b: Bucket) {
    && (b in s.marked ==> exists j: nat :: IsFirst(s, b, j))
    && (b in s.buckets ==> exists j: nat :: IsAllocator(s, b, j))
  }

  ghost predicate AllocInv(s: State) {
    && (forall j: nat | j < |s.jobs| :: JobAllocInv(s, s.jobs[j]))
    && (forall b: Bucket :: BucketInv(s, b))
    && (forall c <- s.pems :: exists j: nat :: Wrote(s, c, j))
  }

  /** What one step of a job does to the marks and the allocations. */
  lemma StepMarks(s: State, job: Job, ok: bool, flag: bool)
    requires JobAllocInv(s, job)
    ensures var s', job' := Shared(s, job, ok, flag), Own(s, job, ok, flag);
            && JobAllocInv(s', job') && job'.cert == job.cert
            && (job.first ==> job'.first) && (job.wrote ==> job'.wrote)
            && (HasAllocated(job) ==> HasAllocated(job'))
            && s.marked <= s'.marked <= s.marked + {job.cert.bucket}
            && s.buckets <= s'.buckets <= s.buckets + {job.cert.bucket}
            && (s'.marked != s.marked ==> job'.first)
            && (s'.buckets != s.buckets ==> HasAllocated(job'))
            && (s'.pems == s.pems || (s'.pems == s.pems + [job.cert] && job'.wrote))
            && s'.jobs == s.jobs
  {
  }

  lemma GoKeepsBucketInv(s: State, j: nat, ok: bool, flag: bool, b: Bucket)
    requires AllocInv(s) && j < |s.jobs|
    ensures BucketInv(Do(s, Go(j, ok, flag)), b)
  {
    var s', job := Do(s, Go(j, ok, flag)), s.jobs[j];
    assert BucketInv(s, b) && JobAllocInv(s, job);
    StepMarks(s, job, ok, flag);
    if b in s.marked {
      var k: nat :| IsFirst(s, b, k);
      assert IsFirst(s', b, k);
    } else if b in s'.marked {
      assert IsFirst(s', b, j);
    }
    if b in s.buckets {
      var k: nat :| IsAllocator(s, b, k);
      assert IsAllocator(s', b, k);
    } else if b in s'.buckets {
      assert IsAllocator(s', b, j);
    }
  }

  lemma MarksGrow(s: State, s': State, job: Job)
    requires s.marked <= s'.marked && s.buckets <= s'.buckets
    ensures JobAllocInv(s, job) ==> JobAllocInv(s', job)
  {
  }

  lemma GoKeepsAlloc(s: State, j: nat, ok: bool, flag: bool)
    requires AllocInv(s) && j < |s.jobs|
    ensures AllocInv(Do(s, Go(j, ok, flag)))
  {
    var s', job := Do(s, Go(j, ok, flag)), s.jobs[j];
    assert JobAllocInv(s, job);
    StepMarks(s, job, ok, flag);
    forall i: nat | i < |s'.jobs| ensures JobAllocInv(s', s'.jobs[i]) {
      assert JobAllocInv(s, s.jobs[i]);
      MarksGrow(s, s', s'.jobs[i]);
    }
    forall b: Bucket ensures BucketInv(s', b) {
      GoKeepsBucketInv(s, j, ok, flag, b);
    }
    forall c | c in s'.pems ensures exists i: nat :: Wrote(s', c, i) {
      if c in s.pems {
        var i: nat :| Wrote(s, c, i);
        assert Wrote(s', c, i);
      } else {
        assert Wrote(s', c, j);
      }
    }
  }

  lemma DieKeepsAlloc(s: State, j: nat)
    requires AllocInv(s) && j < |s.jobs|
    ensures AllocInv(Do(s, Die(j)))
  {
    var s' := Do(s, Die(j));
    forall i: nat | i < |s'.jobs| ensures JobAllocInv(s', s'.jobs[i]) {
      assert JobAllocInv(s, s.jobs[i]);
    }
    forall b: Bucket ensures BucketInv(s', b) {
      assert BucketInv(s, b) && JobAllocInv(s, s.jobs[j]);
      if k: nat :| IsFirst(s, b, k) {
        assert IsFirst(s', b, k);
      }
      if k: nat :| IsAllocator(s, b, k) {
        assert IsAllocator(s', b, k);
      }
    }
    forall c | c in s'.pems ensures exists i: nat :: Wrote(s', c, i) {
      var i: nat :| Wrote(s, c, i);
      assert Wrote(s', c, i);
    }
  }

  lemma AdvanceKeepsAlloc(s: State, d: nat)
    requires AllocInv(s)
    ensures AllocInv(Do(s, Advance(d)))
  {
    var s' := Do(s, Advance(d));
    forall i: nat | i < |s'.jobs| ensures JobAllocInv(s', s'.jobs[i]) {
      assert JobAllocInv(s, s.jobs[i]);
    }
    forall b: Bucket ensures BucketInv(s', b) {
      assert BucketInv(s, b);
      if k: nat :| IsFirst(s, b, k) {
        assert IsFirst(s', b, k);
      }
      if k: nat :| IsAllocator(s, b, k) {
        assert IsAllocator(s', b, k);
      }
    }
    forall c | c in s'.pems ensures exists i: nat :: Wrote(s', c, i) {
      var i: nat :| Wrote(s, c, i);
      assert Wrote(s', c, i);
    }
  }

  lemma {:induction false} ReachableAlloc(s: State, acts: seq<Act>)
    requires Starting(s)
    ensures AllocInv(Run(s, acts))
  {
    if acts == [] {
      forall i: nat | i < |s.jobs| ensures JobAllocInv(s, s.jobs[i]) {
        assert s.jobs[i] in s.jobs;
      }
    } else {
      var t := Run(s, acts[..|acts| - 1]);
      ReachableAlloc(s, acts[..|acts| - 1]);
      match acts[|acts| - 1] {
        case Advance(d) => AdvanceKeepsAlloc(t, d);
        case Die(j) => if j < |t.jobs| { DieKeepsAlloc(t, j); }
        case Go(j, ok, flag) => if j < |t.jobs| { GoKeepsAlloc(t, j, ok, flag); }
      }
    }
  }

  predicate BucketReturned(s: State, b: Bucket) {
    forall job <- s.jobs :: job.cert.bucket == b ==> job.stage.Returned?
  }

  /** When all Stores of a bucket have returned or died, the bucket is not allocated if and
      only if each job that found its date unmarked failed or died before allocating it;
      and if the bucket has a PEM, there was such a job. */
  lemma BucketIsUnlistedExactly(s0: State, acts: seq<Act>, b: Bucket)
    requires Starting(s0) && BucketReturned(Run(s0, acts), b)
    ensures var s := Run(s0, acts);
            && (b !in s.buckets <==>
                  forall job <- s.jobs :: job.cert.bucket == b && job.first ==> LostAllocation(job))
            && ((exists c :: c in s.pems && c.bucket == b) ==>
                  exists job :: job in s.jobs && job.cert.bucket == b && job.first)
  {
    ReachableAlloc(s0, acts);
    var s := Run(s0, acts);
    assert BucketInv(s, b);
    if b in s.buckets {
      var j: nat :| IsAllocator(s, b, j);
      assert s.jobs[j] in s.jobs;
    }
    forall job | job in s.jobs && job.cert.bucket == b && job.first && !LostAllocation(job) ensures b in s.buckets {
      var j: nat :| j < |s.jobs| && s.jobs[j] == job;
      assert JobAllocInv(s, s.jobs[j]);
    }
    if c :| c in s.pems && c.bucket == b {
      var i: nat :| Wrote(s, c, i);
      assert JobAllocInv(s, s.jobs[i]);
      var j: nat :| IsFirst(s, b, j);
      assert s.jobs[j] in s.jobs;
    }
  }

  /** A Store of a new certificate, undisturbed, up to its allocation. */
  lemma FindsMark(s: State, j: nat)
    requires j < |s.jobs| && s.jobs[j] == NewJob(s.jobs[j].cert)
    requires s.jobs[j].cert.bucket in s.marked && s.jobs[j].cert.serial !in Members(s, s.jobs[j].cert.bucket)
    ensures var go := Go(j, true, false);
            var t := Do(Do(Do(s, go), go), go);
            && |t.jobs| == |s.jobs| && t.buckets == s.buckets && t.pems == s.pems
            && t.jobs[j] == s.jobs[j].(stage := Allocating, added := true, unknown := true)
  {
    var go := Go(j, true, false);
    var s1 := Do(s, go);
    assert s1.jobs[j] == s.jobs[j].(stage := Expiring, added := true, unknown := true) && s1.marked == s.marked;
    var s2 := Do(s1, go);
    assert s2.jobs[j] == s1.jobs[j].(stage := Accumulating) && s2.marked == s.marked;
  }

  /** And on to its end. */
  lemma WritesUnallocated(s: State, j: nat)
    requires j < |s.jobs| && s.jobs[j].stage.Allocating? && !s.jobs[j].first
    ensures var go := Go(j, true, false);
            var t := Do(Do(Do(s, go), go), go);
            && |t.jobs| == |s.jobs| && t.buckets == s.buckets && t.pems == s.pems + [s.jobs[j].cert]
            && t.jobs[j] == s.jobs[j].(stage := Returned, wrote := true)
  {
    var go := Go(j, true, false);
    var s1 := Do(s, go);
    assert s1.jobs[j] == s.jobs[j].(stage := Writing) && s1.buckets == s.buckets && s1.pems == s.pems;
    var s2 := Do(s1, go);
    assert s2.jobs[j] == s1.jobs[j].(stage := Marking, wrote := true) && s2.buckets == s.buckets;
  }

  lemma FailsAfterMark(c: Cert, d: Cert) returns (s: State)
    requires c.bucket == d.bucket && c.serial != d.serial && 0 < c.bucket.date
    ensures var s0, go := State(0, map[], {}, {}, {}, [], [NewJob(c), NewJob(d)]), Go(0, true, false);
            s == Do(Do(Do(s0, go), go), Go(0, false, false))
    ensures |s.jobs| == 2 && s.jobs[1] == NewJob(d) && s.jobs[0].stage.Returned? && s.buckets == {} && s.pems == []
    ensures d.bucket in s.marked && d.serial !in Members(s, d.bucket)
  {
    var s0, go := State(0, map[], {}, {}, {}, [], [NewJob(c), NewJob(d)]), Go(0, true, false);
    var s1 := Do(s0, go);
    assert s1.jobs[0].stage.Expiring? && s1.jobs[0].unknown && Members(s1, d.bucket) == {c.serial};
    var s2 := Do(s1, go);
    assert s2.jobs[0].stage.Accumulating? && Members(s2, d.bucket) == {c.serial};
    s := Do(s2, Go(0, false, false));
  }

  /** It does happen, from the start: a Store fails in `Accumulate`, after the mark, and the
      next Store of another certificate of the bucket succeeds; its PEM's bucket is never
      allocated. */
  lemma APemWithoutABucket(c: Cert, d: Cert)
    requires c.bucket == d.bucket && c.serial != d.serial && 0 < c.bucket.date
    ensures var s0 := State(0, map[], {}, {}, {}, [], [NewJob(c), NewJob(d)]);
            var go, next := Go(0, true, false), Go(1, true, false);
            var failed := Do(Do(Do(s0, go), go), Go(0, false, false));
            var s := Do(Do(Do(Do(Do(Do(failed, next), next), next), next), next), next);
            && Starting(s0) && |s.jobs| == 2 && s.jobs[1].stage.Returned? && s.jobs[1].failedAt.None?
            && d in s.pems && d.bucket !in s.buckets
  {
    var next := Go(1, true, false);
    var failed := FailsAfterMark(c, d);
    FindsMark(failed, 1);
    WritesUnallocated(Do(Do(Do(failed, next), next), next), 1);
  }
}
