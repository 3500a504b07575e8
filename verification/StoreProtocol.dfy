/** Concurrent deduplication: any number of database threads inside
    `FilesystemDatabase.Store` (storage/filesystemdatabase.go,
    storage/knowncertificates.go), each remote or backend call one atomic step.

    The remote set of serials decides who writes a certificate. Any call may fail, and
    a failed insert may still have taken effect. The client repeats a request whose
    reply was lost, so an insert may also take effect and then be answered "known".
 */
module StoreProtocol {
  import opened Options
  import opened Runs

  /** Certificates that expire within one hour and share an issuer. The set of their
      serials expires at `date`, the start of that hour. */
  datatype Bucket = Bucket(date: int, issuer: string)

  datatype Cert = Cert(bucket: Bucket, serial: string)

  /** The serials of a bucket, and the time to live if one has been set. */
  datatype Remote = Remote(members: set<string>, expiry: Option<int>)

  datatype Stage = Inserting | Expiring | Accumulating | Allocating | Writing | Marking | Returned

  /** A call of `Store`: `added` whether its insert put the serial into the set,
      `unknown` whether it was told so, `wrote` whether it has written the PEM, `first`
      whether it found the bucket's date not yet marked in the issuer's object,
      `failedAt` the stage at which a call of its own failed or its process died. A job
      that has died counts as returned. */
  datatype Job = Job(cert: Cert, stage: Stage, added: bool, unknown: bool, first: bool, wrote: bool,
                     failedAt: Option<Stage>)

  /** `expired` holds every bucket whose set of serials has ever run out, `marked` every
      bucket whose date some issuer object has marked, `buckets` those allocated. */
  datatype State = State(now: int, remote: map<Bucket, Remote>, expired: set<Bucket>, marked: set<Bucket>,
                         buckets: set<Bucket>, pems: seq<Cert>, jobs: seq<Job>)

  /** `ok`: the step's call succeeds. `flag`: the first reply to an insert is lost
      although it took effect; the expiry is already set on this bucket's object; the
      job's issuer object is a new one without marks. `Die`: the job's process ends before its next step. */
  datatype Act = Advance(d: nat) | Go(j: nat, ok: bool, flag: bool) | Die(j: nat)

  function NewJob(c: Cert): Job {
    Job(c, Inserting, false, false, false, false, None)
  }

  predicate Alive(s: State, b: Bucket) {
    b in s.remote && (s.remote[b].expiry.None? || s.now < s.remote[b].expiry.value)
  }

  function Members(s: State, b: Bucket): set<string> {
    if Alive(s, b) then s.remote[b].members else {}
  }

  function SetInsert(s: State, c: Cert): State {
    s.(remote := s.remote[c.bucket :=
      Remote(Members(s, c.bucket) + {c.serial}, if Alive(s, c.bucket) then s.remote[c.bucket].expiry else None)])
  }

  function ExpireAt(s: State, b: Bucket, at: int): State {
    if Alive(s, b)
    then s.(remote := s.remote[b := s.remote[b].(expiry := Some(at))],
            expired := s.expired + if at <= s.now then {b} else {})
    else s
  }

  /** The buckets whose set has run out by some time. */
  function DueBy(s: State, time: int): set<Bucket> {
    set b | b in s.remote && s.remote[b].expiry.Some? && s.remote[b].expiry.value <= time
  }

  function With(s: State, j: nat, job: Job): State
    requires j < |s.jobs|
  {
    s.(jobs := s.jobs[j := job])
  }

  /** The shared stores after one step of a job. */
  function Shared(s: State, job: Job, ok: bool, flag: bool): State {
    match job.stage
    case Inserting => if ok || flag then SetInsert(s, job.cert) else s
    case Expiring => if ok && !flag then ExpireAt(s, job.cert.bucket, job.cert.bucket.date) else s
    case Accumulating => s.(marked := s.marked + {job.cert.bucket})
    case Allocating => if ok && job.first then s.(buckets := s.buckets + {job.cert.bucket}) else s
    case Writing => if ok then s.(pems := s.pems + [job.cert]) else s
    case _ => s
  }

  predicate AddsSerial(s: State, job: Job, ok: bool, flag: bool) {
    job.stage.Inserting? && (ok || flag) && job.cert.serial !in Members(s, job.cert.bucket)
  }

  /** The date is marked before anything of `Accumulate` can fail. */
  predicate FindsUnmarked(s: State, job: Job, flag: bool) {
    job.stage.Accumulating? && (flag || job.cert.bucket !in s.marked)
  }

  /** The job itself after that step. A failure to set the expiry is only logged. */
  function Own(s: State, job: Job, ok: bool, flag: bool): Job {
    if !ok && !job.stage.Expiring? && !job.stage.Returned?
    then job.(stage := Returned, failedAt := Some(job.stage), added := job.added || AddsSerial(s, job, ok, flag),
              first := job.first || FindsUnmarked(s, job, flag))
    else match job.stage
      case Inserting =>
        var added := AddsSerial(s, job, ok, flag);
        job.(stage := Expiring, added := added, unknown := added && !flag)
      case Expiring => job.(stage := if job.unknown then Accumulating else Marking)
      case Accumulating => job.(stage := Allocating, first := FindsUnmarked(s, job, flag))
      case Allocating => job.(stage := Writing)
      case Writing => job.(stage := Marking, wrote := true)
      case Marking => job.(stage := Returned)
      case Returned => job
  }

  function Dead(job: Job): Job {
    if job.stage.Returned? then job else job.(stage := Returned, failedAt := Some(job.stage))
  }

  function Do(s: State, a: Act): State {
    match a
    case Die(j) => if j < |s.jobs| then With(s, j, Dead(s.jobs[j])) else s
    case Advance(d) => s.(now := s.now + d, expired := s.expired + DueBy(s, s.now + d))
    case Go(j, ok, flag) =>
      if j < |s.jobs| then With(Shared(s, s.jobs[j], ok, flag), j, Own(s, s.jobs[j], ok, flag)) else s
  }

  function Run(s: State, acts: seq<Act>): State {
    After(Do, s, acts)
  }

  predicate Starting(s: State) {
    && s.remote == map[] && s.expired == {} && s.marked == {} && s.buckets == {} && s.pems == []
    && forall job <- s.jobs :: job == NewJob(job.cert)
  }

  /** What is inserted is there, also in a set that had run out; a set whose expiry is set
      to a time that is past is gone; and a failure to set it stops no Store. */
  lemma RemoteSteps(s: State, job: Job, at: int, flag: bool)
    ensures Members(SetInsert(s, job.cert), job.cert.bucket) == Members(s, job.cert.bucket) + {job.cert.serial}
    ensures Alive(s, job.cert.bucket) ==>
              Members(ExpireAt(s, job.cert.bucket, at), job.cert.bucket) ==
              (if at <= s.now then {} else Members(s, job.cert.bucket))
    ensures job.stage.Expiring? ==>
              Own(s, job, false, flag) == Own(s, job, true, flag) && Shared(s, job, false, flag) == s
  {
  }

  // ----------------------------------------------------------------- invariant

  /** A set only ever expires at its bucket's date, and what has run out is noted. */
  predicate RemoteInv(s: State) {
    && (forall b <- s.remote :: s.remote[b].expiry.Some? ==> s.remote[b].expiry.value == b.date)
    && (forall b <- s.remote :: b !in s.expired ==> Alive(s, b))
    && (forall b <- s.expired :: b.date <= s.now)
  }

  /** A job that was told its certificate is new and then failed or died before it had
      written it. */
  predicate FailedAfterTold(job: Job) {
    job.unknown && (job.failedAt == Some(Expiring) || job.failedAt == Some(Accumulating) ||
                    job.failedAt == Some(Allocating) || job.failedAt == Some(Writing))
  }

  /** A job whose insert took effect without its learning so. */
  predicate Unheard(job: Job) {
    job.added && !job.unknown
  }

  predicate JobInv(s: State, job: Job) {
    && (job.stage.Inserting? ==> job == NewJob(job.cert))
    && (job.unknown ==> job.added)
    && (job.cert.bucket !in s.expired && !job.stage.Inserting? && (job.added || job.failedAt != Some(Inserting)) ==>
          job.cert.serial in Members(s, job.cert.bucket))
    && (job.stage.Accumulating? || job.stage.Allocating? || job.stage.Writing? ==> job.unknown && !job.wrote)
    && (job.wrote ==> job.unknown && (job.stage.Marking? || job.stage.Returned?))
    && (job.stage.Marking? ==> (job.unknown ==> job.wrote))
    && (job.failedAt.Some? ==> job.stage.Returned?)
    && (job.failedAt == Some(Inserting) ==> !job.unknown)
    && (job.stage.Returned? && job.unknown ==> (job.wrote <==> !FailedAfterTold(job)))
  }

  predicate Wrote(s: State, c: Cert, j: nat) {
    j < |s.jobs| && s.jobs[j].cert == c && s.jobs[j].wrote
  }

  predicate Added(s: State, c: Cert, j: nat) {
    j < |s.jobs| && s.jobs[j].cert == c && s.jobs[j].added
  }

  ghost predicate OneAdder(s: State, c: Cert) {
    forall i: nat, j: nat | Added(s, c, i) && Added(s, c, j) :: i == j
  }

  ghost predicate HasAdder(s: State, c: Cert) {
    exists j: nat :: Added(s, c, j)
  }

  ghost predicate OneWrite(s: State, c: Cert) {
    multiset(s.pems)[c] == if exists j: nat :: Wrote(s, c, j) then 1 else 0
  }

  ghost predicate CertInv(s: State, c: Cert) {
    c.bucket !in s.expired ==>
      && OneAdder(s, c) && OneWrite(s, c)
      && (c.serial in Members(s, c.bucket) ==> HasAdder(s, c))
  }

  ghost predicate Inv(s: State) {
    && RemoteInv(s)
    && (forall j: nat | j < |s.jobs| :: JobInv(s, s.jobs[j]))
    && (forall c: Cert :: CertInv(s, c))
  }

  // ------------------------------------------------------------- preservation

  predicate Inserts(job: Job, ok: bool, flag: bool) {
    job.stage.Inserting? && (ok || flag)
  }

  lemma RemoteInvAfter(s: State, job: Job, ok: bool, flag: bool)
    requires RemoteInv(s)
    ensures RemoteInv(Shared(s, job, ok, flag)) && s.expired <= Shared(s, job, ok, flag).expired
  {
  }

  lemma MembersAfter(s: State, job: Job, ok: bool, flag: bool, b: Bucket)
    requires RemoteInv(s) && b !in Shared(s, job, ok, flag).expired
    ensures Members(Shared(s, job, ok, flag), b) ==
            Members(s, b) + if Inserts(job, ok, flag) && b == job.cert.bucket then {job.cert.serial} else {}
  {
  }

  lemma SharedKeepsJobs(s: State, job: Job, ok: bool, flag: bool)
    ensures Shared(s, job, ok, flag).jobs == s.jobs && Shared(s, job, ok, flag).now == s.now
    ensures Shared(s, job, ok, flag).pems == s.pems + if job.stage.Writing? && ok then [job.cert] else []
  {
  }

  lemma JobStays(s: State, job: Job, ok: bool, flag: bool, other: Job)
    requires RemoteInv(s) && JobInv(s, other)
    ensures JobInv(Shared(s, job, ok, flag), other)
  {
    RemoteInvAfter(s, job, ok, flag);
    if other.cert.bucket !in Shared(s, job, ok, flag).expired {
      MembersAfter(s, job, ok, flag, other.cert.bucket);
    }
  }

  lemma JobMoves(s: State, job: Job, ok: bool, flag: bool)
    requires RemoteInv(s) && JobInv(s, job)
    ensures JobInv(Shared(s, job, ok, flag), Own(s, job, ok, flag))
  {
    RemoteInvAfter(s, job, ok, flag);
    if job.cert.bucket !in Shared(s, job, ok, flag).expired {
      MembersAfter(s, job, ok, flag, job.cert.bucket);
    }
  }

  /** What one step changes in the marks a certificate's invariant looks at. */
  lemma OwnMarks(s: State, job: Job, ok: bool, flag: bool)
    requires JobInv(s, job)
    ensures var job' := Own(s, job, ok, flag);
            && job'.cert == job.cert
            && (job'.added <==> job.added || AddsSerial(s, job, ok, flag))
            && (job'.wrote <==> job.wrote || (job.stage.Writing? && ok))
  {
  }

  /** Who has added and who has written a certificate after one step. */
  lemma MarksAfter(s: State, j: nat, ok: bool, flag: bool, c: Cert, k: nat)
    requires Inv(s) && j < |s.jobs|
    ensures var s', job := Do(s, Go(j, ok, flag)), s.jobs[j];
            && (Added(s', c, k) <==> Added(s, c, k) || (k == j && job.cert == c && AddsSerial(s, job, ok, flag)))
            && (Wrote(s', c, k) <==> Wrote(s, c, k) || (k == j && job.cert == c && job.stage.Writing? && ok))
  {
    SharedKeepsJobs(s, s.jobs[j], ok, flag);
    assert JobInv(s, s.jobs[j]);
    OwnMarks(s, s.jobs[j], ok, flag);
  }

  lemma AddedIsMember(s: State, c: Cert, k: nat)
    requires Inv(s) && c.bucket !in s.expired
    ensures Added(s, c, k) ==> c.serial in Members(s, c.bucket)
  {
    if Added(s, c, k) {
      assert JobInv(s, s.jobs[k]);
    }
  }

  lemma AdderStaysUnique(s: State, j: nat, ok: bool, flag: bool, c: Cert)
    requires Inv(s) && j < |s.jobs| && c.bucket !in s.expired
    ensures OneAdder(Do(s, Go(j, ok, flag)), c)
  {
    var s' := Do(s, Go(j, ok, flag));
    assert CertInv(s, c);
    forall i: nat, k: nat | Added(s', c, i) && Added(s', c, k) ensures i == k {
      MarksAfter(s, j, ok, flag, c, i);
      MarksAfter(s, j, ok, flag, c, k);
      AddedIsMember(s, c, i);
      AddedIsMember(s, c, k);
    }
  }

  lemma WriterAdded(s: State, c: Cert, k: nat)
    requires Inv(s)
    ensures Wrote(s, c, k) ==> Added(s, c, k) && !s.jobs[k].stage.Writing?
  {
    if Wrote(s, c, k) {
      assert JobInv(s, s.jobs[k]);
    }
  }

  lemma WritingIsFirst(s: State, j: nat)
    requires Inv(s) && j < |s.jobs| && s.jobs[j].stage.Writing? && s.jobs[j].cert.bucket !in s.expired
    ensures forall k: nat :: !Wrote(s, s.jobs[j].cert, k)
  {
    var c := s.jobs[j].cert;
    assert CertInv(s, c) && JobInv(s, s.jobs[j]) && Added(s, c, j);
    forall k: nat ensures !Wrote(s, c, k) {
      WriterAdded(s, c, k);
    }
  }

  lemma WriteStaysUnique(s: State, j: nat, ok: bool, flag: bool, c: Cert)
    requires Inv(s) && j < |s.jobs| && c.bucket !in s.expired
    ensures OneWrite(Do(s, Go(j, ok, flag)), c)
  {
    var s', job := Do(s, Go(j, ok, flag)), s.jobs[j];
    SharedKeepsJobs(s, job, ok, flag);
    assert CertInv(s, c);
    forall k: nat
      ensures Wrote(s', c, k) <==> Wrote(s, c, k) || (k == j && job.cert == c && job.stage.Writing? && ok)
    {
      MarksAfter(s, j, ok, flag, c, k);
    }
    if job.cert == c && job.stage.Writing? && ok {
      assert Wrote(s', c, j);
      WritingIsFirst(s, j);
    }
  }

  lemma MemberWasAdded(s: State, j: nat, ok: bool, flag: bool, c: Cert)
    requires Inv(s) && j < |s.jobs| && c.bucket !in Do(s, Go(j, ok, flag)).expired
    requires c.serial in Members(Do(s, Go(j, ok, flag)), c.bucket)
    ensures HasAdder(Do(s, Go(j, ok, flag)), c)
  {
    var s', job := Do(s, Go(j, ok, flag)), s.jobs[j];
    RemoteInvAfter(s, job, ok, flag);
    MembersAfter(s, job, ok, flag, c.bucket);
    assert CertInv(s, c);
    if c.serial in Members(s, c.bucket) {
      var k: nat :| Added(s, c, k);
      MarksAfter(s, j, ok, flag, c, k);
      assert Added(s', c, k);
    } else {
      MarksAfter(s, j, ok, flag, c, j);
      assert Added(s', c, j);
    }
  }

  lemma GoKeepsCertInv(s: State, j: nat, ok: bool, flag: bool, c: Cert)
    requires Inv(s) && j < |s.jobs|
    ensures CertInv(Do(s, Go(j, ok, flag)), c)
  {
    var s' := Do(s, Go(j, ok, flag));
    RemoteInvAfter(s, s.jobs[j], ok, flag);
    if c.bucket !in s'.expired {
      AdderStaysUnique(s, j, ok, flag, c);
      WriteStaysUnique(s, j, ok, flag, c);
      if c.serial in Members(s', c.bucket) {
        MemberWasAdded(s, j, ok, flag, c);
      }
    }
  }

  lemma OtherJobsDoNotMatter(s: State, j: nat, job: Job, other: Job)
    requires j < |s.jobs|
    ensures JobInv(With(s, j, job), other) <==> JobInv(s, other)
  {
  }

  lemma GoKeepsJobInv(s: State, j: nat, ok: bool, flag: bool, i: nat)
    requires Inv(s) && j < |s.jobs| && i < |s.jobs|
    ensures |Do(s, Go(j, ok, flag)).jobs| == |s.jobs|
    ensures JobInv(Do(s, Go(j, ok, flag)), Do(s, Go(j, ok, flag)).jobs[i])
  {
    var t, job := Shared(s, s.jobs[j], ok, flag), s.jobs[j];
    SharedKeepsJobs(s, job, ok, flag);
    var job' := With(t, j, Own(s, job, ok, flag)).jobs[i];
    assert JobInv(t, job') by {
      assert JobInv(s, s.jobs[i]) && JobInv(s, job);
      if i == j {
        JobMoves(s, job, ok, flag);
      } else {
        JobStays(s, job, ok, flag, s.jobs[i]);
      }
    }
    OtherJobsDoNotMatter(t, j, Own(s, job, ok, flag), job');
  }

  lemma GoKeepsInv(s: State, j: nat, ok: bool, flag: bool)
    requires Inv(s) && j < |s.jobs|
    ensures Inv(Do(s, Go(j, ok, flag)))
  {
    var s' := Do(s, Go(j, ok, flag));
    RemoteInvAfter(s, s.jobs[j], ok, flag);
    SharedKeepsJobs(s, s.jobs[j], ok, flag);
    forall i: nat | i < |s'.jobs| ensures JobInv(s', s'.jobs[i]) {
      GoKeepsJobInv(s, j, ok, flag, i);
    }
    forall c: Cert ensures CertInv(s', c) {
      GoKeepsCertInv(s, j, ok, flag, c);
    }
  }

  lemma AdvanceKeepsInv(s: State, d: nat)
    requires Inv(s)
    ensures Inv(Do(s, Advance(d)))
  {
    var s' := Do(s, Advance(d));
    forall j: nat | j < |s'.jobs| ensures JobInv(s', s'.jobs[j]) {
      assert JobInv(s, s.jobs[j]);
    }
    forall c: Cert ensures CertInv(s', c) {
      assert CertInv(s, c);
      assert forall j: nat :: (Wrote(s', c, j) <==> Wrote(s, c, j)) && (Added(s', c, j) <==> Added(s, c, j));
    }
  }

  lemma DieKeepsInv(s: State, j: nat)
    requires Inv(s) && j < |s.jobs|
    ensures Inv(Do(s, Die(j)))
  {
    var s' := Do(s, Die(j));
    forall i: nat | i < |s'.jobs| ensures JobInv(s', s'.jobs[i]) {
      assert JobInv(s, s.jobs[i]);
      OtherJobsDoNotMatter(s, j, Dead(s.jobs[j]), s'.jobs[i]);
    }
    forall c: Cert ensures CertInv(s', c) {
      assert CertInv(s, c);
      assert forall k: nat :: (Wrote(s', c, k) <==> Wrote(s, c, k)) && (Added(s', c, k) <==> Added(s, c, k));
    }
  }

  lemma DoKeepsInv(s: State, a: Act)
    requires Inv(s)
    ensures Inv(Do(s, a))
  {
    match a {
      case Die(j) => if j < |s.jobs| { DieKeepsInv(s, j); }
      case Advance(d) => AdvanceKeepsInv(s, d);
      case Go(j, ok, flag) => if j < |s.jobs| { GoKeepsInv(s, j, ok, flag); }
    }
  }

  /** A database thread calls `Store` for one more certificate. */
  function Called(s: State, c: Cert): State {
    s.(jobs := s.jobs + [NewJob(c)])
  }

  lemma CalledKeepsInv(s: State, c: Cert)
    requires Inv(s)
    ensures Inv(Called(s, c))
  {
    var s' := Called(s, c);
    forall j: nat | j < |s'.jobs| ensures JobInv(s', s'.jobs[j]) {
      assert j < |s.jobs| ==> JobInv(s, s.jobs[j]);
    }
    forall x: Cert ensures CertInv(s', x) {
      assert CertInv(s, x);
      assert forall j: nat :: (Wrote(s', x, j) <==> Wrote(s, x, j)) && (Added(s', x, j) <==> Added(s, x, j));
    }
  }

  /** No step changes which certificate a job is for, nor a job that has returned; and
      only certificates of jobs are written. */
  lemma DoKeepsCerts(s: State, a: Act)
    ensures var s' := Do(s, a);
            && |s'.jobs| == |s.jobs|
            && (forall j: nat | j < |s.jobs| :: s'.jobs[j].cert == s.jobs[j].cert &&
                  (s.jobs[j].stage.Returned? ==> s'.jobs[j] == s.jobs[j]))
            && (forall c <- s'.pems :: c in s.pems ||
                  exists j: nat :: j < |s.jobs| && s.jobs[j].cert == c && !s.jobs[j].stage.Returned?)
  {
    if a.Go? && a.j < |s.jobs| {
      SharedKeepsJobs(s, s.jobs[a.j], a.ok, a.flag);
    }
  }

  lemma StartingInv(s: State)
    requires Starting(s)
    ensures Inv(s)
  {
    forall j: nat | j < |s.jobs| ensures s.jobs[j] == NewJob(s.jobs[j].cert) {
      assert s.jobs[j] in s.jobs;
    }
    forall c: Cert ensures CertInv(s, c) {
      assert forall j: nat :: !Wrote(s, c, j) && !Added(s, c, j);
    }
  }

  lemma {:induction false} RunKeepsInv(s: State, acts: seq<Act>)
    requires Inv(s)
    ensures Inv(Run(s, acts))
  {
    if acts == [] {
    } else {
      RunKeepsInv(s, acts[..|acts| - 1]);
      DoKeepsInv(Run(s, acts[..|acts| - 1]), acts[|acts| - 1]);
    }
  }

  lemma ReachableInv(s: State, acts: seq<Act>)
    requires Starting(s)
    ensures Inv(Run(s, acts))
  {
    StartingInv(s);
    RunKeepsInv(s, acts);
  }

  // ------------------------------------------------------------------- results

  /** Before its date no set runs out; and one that never got an expiry never does. */
  lemma NothingRunsOutEarly(s0: State, acts: seq<Act>, b: Bucket)
    requires Starting(s0)
    ensures var s := Run(s0, acts);
            && (s.now < b.date ==> b !in s.expired)
            && (b !in s.expired && b in s.remote ==> s.remote[b].expiry.None? || s.now < b.date)
  {
    ReachableInv(s0, acts);
  }

  predicate AllReturned(s: State, c: Cert) {
    forall job <- s.jobs :: job.cert == c ==> job.stage.Returned?
  }

  /** A call of this job failed, or was answered as if it had done nothing. */
  predicate Disturbed(job: Job) {
    job.failedAt.Some? || Unheard(job)
  }

  /** As long as the bucket's set has not run out, under any interleaving and any
      failures: at most one `Store` of a certificate is told it is unknown, its PEM is
      written at most once, and a written PEM has its serial in the remote set. If no
      call of a `Store` of it failed and all that were started have returned, it was
      written exactly once. */
  lemma EachCertIsWrittenOnce(s0: State, acts: seq<Act>, c: Cert)
    requires Starting(s0) && c.bucket !in Run(s0, acts).expired
    ensures var s := Run(s0, acts);
            && (forall i: nat, j: nat | i < |s.jobs| && j < |s.jobs| && s.jobs[i].cert == c && s.jobs[j].cert == c ::
                  s.jobs[i].unknown && s.jobs[j].unknown ==> i == j)
            && multiset(s.pems)[c] <= 1
            && (c in s.pems ==> c.serial in Members(s, c.bucket))
            && (AllReturned(s, c) && (forall job <- s.jobs :: job.cert == c ==> !Disturbed(job)) &&
                (exists job :: job in s.jobs && job.cert == c) ==>
                  multiset(s.pems)[c] == 1)
  {
    ReachableInv(s0, acts);
    var s := Run(s0, acts);
    assert CertInv(s, c);
    forall i: nat, j: nat | i < |s.jobs| && j < |s.jobs| && s.jobs[i].cert == c && s.jobs[j].cert == c
                            && s.jobs[i].unknown && s.jobs[j].unknown
      ensures i == j
    {
      assert JobInv(s, s.jobs[i]) && JobInv(s, s.jobs[j]);
      assert Added(s, c, i) && Added(s, c, j);
    }
    if c in s.pems {
      assert multiset(s.pems)[c] > 0;
      var j: nat :| Wrote(s, c, j);
      assert JobInv(s, s.jobs[j]);
    }
    if AllReturned(s, c) {
      MissingExactly(s, c);
    }
  }

  /** No insert of this job took effect. */
  predicate NeverInserted(job: Job) {
    job.failedAt == Some(Inserting) && !job.added
  }

  /** Why the PEM of a certificate is missing: the one job told that it is new failed
      before it had written, or the insert that took effect was not heard of, or no
      insert ever took effect. */
  predicate WriteLost(s: State, c: Cert) {
    || (exists job :: job in s.jobs && job.cert == c && FailedAfterTold(job))
    || (exists job :: job in s.jobs && job.cert == c && Unheard(job))
    || (forall job <- s.jobs :: job.cert == c ==> NeverInserted(job))
  }

  lemma MissingExactly(s: State, c: Cert)
    requires Inv(s) && c.bucket !in s.expired && AllReturned(s, c)
    ensures multiset(s.pems)[c] == if WriteLost(s, c) then 0 else 1
  {
    assert CertInv(s, c);
    forall j: nat | j < |s.jobs| ensures s.jobs[j] in s.jobs && JobInv(s, s.jobs[j]) {}
    if j: nat :| Wrote(s, c, j) {
      WriterExcludesLoss(s, c, j);
    } else if !WriteLost(s, c) {
      var job :| job in s.jobs && job.cert == c && !NeverInserted(job);
      var i: nat :| i < |s.jobs| && s.jobs[i] == job;
      assert JobInv(s, s.jobs[i]);
      var j: nat :| Added(s, c, j);
      assert s.jobs[j] in s.jobs && JobInv(s, s.jobs[j]);
      assert Wrote(s, c, j);
    }
  }

  lemma WriterExcludesLoss(s: State, c: Cert, j: nat)
    requires Inv(s) && c.bucket !in s.expired && AllReturned(s, c) && Wrote(s, c, j)
    ensures !WriteLost(s, c)
  {
    assert CertInv(s, c) && JobInv(s, s.jobs[j]) && Added(s, c, j) && s.jobs[j] in s.jobs;
    forall job | job in s.jobs && job.cert == c ensures !FailedAfterTold(job) && !Unheard(job) {
      var i: nat :| i < |s.jobs| && s.jobs[i] == job;
      assert JobInv(s, s.jobs[i]);
      if job.added {
        assert Added(s, c, i);
      }
    }
  }

  /** Once every `Store` of a certificate has returned, its PEM is missing if and only if
      the write was lost in one of these ways; otherwise it was written exactly once. */
  lemma PemIsMissingExactly(s0: State, acts: seq<Act>, c: Cert)
    requires Starting(s0) && c.bucket !in Run(s0, acts).expired && AllReturned(Run(s0, acts), c)
    ensures var s := Run(s0, acts);
            && (c !in s.pems <==> WriteLost(s, c))
            && (!WriteLost(s, c) ==> multiset(s.pems)[c] == 1)
  {
    ReachableInv(s0, acts);
    MissingExactly(Run(s0, acts), c);
  }

  lemma {:induction false} ReturnedStays(s: State, acts: seq<Act>, j: nat)
    requires j < |s.jobs| && s.jobs[j].stage.Returned?
    ensures |Run(s, acts).jobs| == |s.jobs| && Run(s, acts).jobs[j] == s.jobs[j]
  {
    if acts == [] {
    } else {
      var t, a := Run(s, acts[..|acts| - 1]), acts[|acts| - 1];
      ReturnedStays(s, acts[..|acts| - 1], j);
      if a.Go? && a.j < |t.jobs| {
        SharedKeepsJobs(t, t.jobs[a.j], a.ok, a.flag);
      }
    }
  }

  /** A serial is marked before its PEM is written: once the one job whose insert took
      effect has returned without writing, the PEM is not written, and no other job is
      told that the certificate is new, whatever happens until the set runs out. */
  lemma AFailedWriteIsNeverRetried(s0: State, acts: seq<Act>, more: seq<Act>, j: nat)
    requires Starting(s0)
    requires j < |Run(s0, acts).jobs|
    requires var job := Run(s0, acts).jobs[j]; job.stage.Returned? && job.added && !job.wrote
    requires Run(s0, acts).jobs[j].cert.bucket !in Run(Run(s0, acts), more).expired
    ensures var c, t := Run(s0, acts).jobs[j].cert, Run(Run(s0, acts), more);
            && c !in t.pems
            && forall k: nat | k < |t.jobs| && t.jobs[k].cert == c && k != j :: !t.jobs[k].unknown
  {
    var s := Run(s0, acts);
    var t, c := Run(s, more), s.jobs[j].cert;
    ReachableInv(s0, acts);
    RunKeepsInv(s, more);
    ReturnedStays(s, more, j);
    assert CertInv(t, c) && Added(t, c, j);
    forall k: nat | k < |t.jobs| && t.jobs[k].cert == c && k != j ensures !t.jobs[k].unknown && !t.jobs[k].wrote {
      assert JobInv(t, t.jobs[k]);
      assert !Added(t, c, k);
    }
    assert forall k: nat :: !Wrote(t, c, k);
  }

  /** Such a job exists after one failed write. */
  lemma AWriteCanFail(c: Cert)
    ensures var s0 := State(0, map[], {}, {}, {}, [], [NewJob(c)]);
            var go := Go(0, true, false);
            var s := Do(Do(Do(Do(Do(s0, go), go), go), go), Go(0, false, false));
            Starting(s0) && s.jobs[0].stage.Returned? && s.jobs[0].unknown && FailedAfterTold(s.jobs[0])
  {
  }

  /** An insert can take effect without its job learning so, in two ways: its reply is lost
      and the call fails; or the client repeats it, the serial counts as known, and the
      Store succeeds without writing. */
  lemma AnInsertCanGoUnheard(c: Cert)
    ensures var s0, go := State(0, map[], {}, {}, {}, [], [NewJob(c)]), Go(0, true, false);
            var lost, repeated := Do(s0, Go(0, false, true)), Do(Do(Do(s0, Go(0, true, true)), go), go);
            && Starting(s0)
            && lost.jobs[0].failedAt == Some(Inserting) && Unheard(lost.jobs[0]) && c.serial in Members(lost, c.bucket)
            && repeated.jobs[0].stage.Returned? && repeated.jobs[0].failedAt.None? && Unheard(repeated.jobs[0])
            && repeated.pems == []
  {
    var s0, go := State(0, map[], {}, {}, {}, [], [NewJob(c)]), Go(0, true, false);
    var s1 := Do(s0, Go(0, true, true));
    assert s1.jobs[0].stage.Expiring? && Unheard(s1.jobs[0]);
    var s2 := Do(s1, go);
    assert s2.jobs[0].stage.Marking? && s2.pems == [];
  }

  /** From its date on a bucket's set counts only if no expiry was ever set on it: a
      `Store` is then told its certificate is new unless such a set holds it. */
  lemma AfterExpiryItIsNewAgain(s: State, j: nat)
    requires RemoteInv(s) && j < |s.jobs| && s.jobs[j].stage.Inserting?
    requires s.jobs[j].cert.bucket.date <= s.now
    ensures var c, s' := s.jobs[j].cert, Do(s, Go(j, true, false));
            && |s'.jobs| == |s.jobs|
            && (s'.jobs[j].unknown <==>
                  !(c.bucket in s.remote && s.remote[c.bucket].expiry.None? &&
                    c.serial in s.remote[c.bucket].members))
  {
  }

  /** How many steps of its own a job takes among these acts. */
  function StepsOf(acts: seq<Act>, j: nat): nat {
    if acts == [] then 0
    else StepsOf(acts[..|acts| - 1], j) + if acts[|acts| - 1].Go? && acts[|acts| - 1].j == j then 1 else 0
  }

  /** None of a job's own calls fails, and it does not die. Others may do anything. */
  predicate Undisturbed(acts: seq<Act>, j: nat) {
    forall a <- acts :: (a.Go? && a.j == j ==> a.ok) && a != Die(j)
  }

  function StepsTo(stage: Stage): nat {
    match stage
    case Expiring => 0
    case Accumulating => 1
    case Allocating => 2
    case Writing => 3
    case _ => 4
  }

  /** A job on its way from being told that its certificate is new to having written it. */
  predicate OnItsWay(job: Job) {
    job.unknown && !job.stage.Inserting? && (job.wrote <==> StepsTo(job.stage) == 4)
  }

  lemma OwnStepGoesOn(s: State, job: Job, flag: bool)
    requires OnItsWay(job)
    ensures var job' := Own(s, job, true, flag);
            && job'.cert == job.cert && OnItsWay(job') && (job'.wrote <==> job.wrote || job.stage.Writing?)
            && StepsTo(job'.stage) == if job.wrote then 4 else StepsTo(job.stage) + 1
  {
  }

  /** What one act does to such a job, unless it disturbs it. */
  lemma ActGoesOn(t: State, a: Act, j: nat)
    requires j < |t.jobs| && OnItsWay(t.jobs[j]) && (a.Go? && a.j == j ==> a.ok) && a != Die(j)
    ensures var t', job, own := Do(t, a), t.jobs[j], a.Go? && a.j == j;
            && |t'.jobs| == |t.jobs| && t'.jobs[j].cert == job.cert && OnItsWay(t'.jobs[j])
            && (t'.jobs[j].wrote <==> job.wrote || (own && job.stage.Writing?))
            && StepsTo(t'.jobs[j].stage) == (if job.wrote || !own then StepsTo(job.stage) else StepsTo(job.stage) + 1)
            && multiset(t'.pems)[job.cert] >= multiset(t.pems)[job.cert] + if own && job.stage.Writing? then 1 else 0
  {
    if a.Go? && a.j < |t.jobs| {
      SharedKeepsJobs(t, t.jobs[a.j], a.ok, a.flag);
      if a.j == j {
        OwnStepGoesOn(t, t.jobs[j], a.flag);
      }
    }
  }

  /** A job told that its certificate is new writes it with its fourth step from there,
      whatever other jobs do and whatever is already written. */
  lemma {:induction false} ToldUnknownWrites(s: State, acts: seq<Act>, j: nat)
    requires j < |s.jobs| && s.jobs[j].unknown && s.jobs[j].stage.Expiring? && !s.jobs[j].wrote
    requires Undisturbed(acts, j)
    ensures var t, c := Run(s, acts), s.jobs[j].cert;
            && |t.jobs| == |s.jobs| && t.jobs[j].cert == c && OnItsWay(t.jobs[j])
            && StepsTo(t.jobs[j].stage) == (if StepsOf(acts, j) < 4 then StepsOf(acts, j) else 4)
            && multiset(t.pems)[c] >= multiset(s.pems)[c] + if t.jobs[j].wrote then 1 else 0
  {
    if acts == [] {
    } else {
      var before, a := acts[..|acts| - 1], acts[|acts| - 1];
      assert a in acts;
      ToldUnknownWrites(s, before, j);
      ActGoesOn(Run(s, before), a, j);
    }
  }

  /** And unless a call of its own fails it writes the PEM, whether or not there is one
      already, and whatever other jobs do in between. */
  lemma AfterExpiryItIsWrittenAgain(s: State, acts: seq<Act>, j: nat)
    requires RemoteInv(s) && j < |s.jobs| && s.jobs[j] == NewJob(s.jobs[j].cert)
    requires s.jobs[j].cert.bucket in s.remote && !Alive(s, s.jobs[j].cert.bucket)
    requires Undisturbed(acts, j) && StepsOf(acts, j) >= 4
    ensures var c, t := s.jobs[j].cert, Run(Do(s, Go(j, true, false)), acts);
            |t.jobs| == |s.jobs| && t.jobs[j].wrote && multiset(t.pems)[c] >= multiset(s.pems)[c] + 1
  {
    var s1 := Do(s, Go(j, true, false));
    assert s1.pems == s.pems && s1.jobs[j].unknown && s1.jobs[j].stage.Expiring?;
    ToldUnknownWrites(s1, acts, j);
  }

  /** From the start: two Stores of a certificate, one before and one after its bucket's
      date, leave two PEMs of it. */
  lemma TwoPemsAfterExpiry(c: Cert)
    requires 0 < c.bucket.date
    ensures var s0 := State(0, map[], {}, {}, {}, [], [NewJob(c), NewJob(c)]);
            var go, again := Go(0, true, false), Go(1, true, false);
            var later := Do(Do(Do(Do(Do(Do(s0, go), go), go), go), go), Advance(c.bucket.date));
            var s := Run(Do(later, again), [again, again, again, again]);
            Starting(s0) && multiset(s.pems)[c] >= 2
  {
    var s0 := State(0, map[], {}, {}, {}, [], [NewJob(c), NewJob(c)]);
    var go, again := Go(0, true, false), Go(1, true, false);
    var once := FirstPem(c);
    var later := Do(once, Advance(c.bucket.date));
    assert StepsOf([again, again, again, again], 1) == 4 by {
      FourSteps(again, 1);
    }
    AfterExpiryItIsWrittenAgain(later, [again, again, again, again], 1);
  }

  lemma FourSteps(a: Act, j: nat)
    requires a.Go? && a.j == j
    ensures StepsOf([a, a, a, a], j) == 4
  {
    assert [a, a, a, a][..3] == [a, a, a] && [a, a, a][..2] == [a, a] && [a, a][..1] == [a] && [a][..0] == [];
    assert StepsOf([a], j) == 1;
    assert StepsOf([a, a], j) == 2;
    assert StepsOf([a, a, a], j) == 3;
  }

  /** The first of two Stores, before the date. */
  lemma FirstPem(c: Cert) returns (s: State)
    requires 0 < c.bucket.date
    ensures var s0, go := State(0, map[], {}, {}, {}, [], [NewJob(c), NewJob(c)]), Go(0, true, false);
            s == Do(Do(Do(Do(Do(s0, go), go), go), go), go)
    ensures RemoteInv(s) && |s.jobs| == 2 && s.jobs[1] == NewJob(c) && s.now == 0 && s.pems == [c]
    ensures c.bucket in s.remote && s.remote[c.bucket].expiry == Some(c.bucket.date)
  {
    var go := Go(0, true, false);
    s := State(0, map[], {}, {}, {}, [], [NewJob(c), NewJob(c)]);
    s := Do(s, go);
    assert s.jobs[0] == Job(c, Expiring, true, true, false, false, None) && s.remote.Keys == {c.bucket};
    s := Do(s, go);
    assert s.jobs[0].stage.Accumulating? && s.remote.Keys == {c.bucket};
    s := Do(s, go);
    s := Do(s, go);
    assert s.jobs[0].stage.Writing?;
    s := Do(s, go);
  }
}
