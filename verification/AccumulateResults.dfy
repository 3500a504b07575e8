/** What concurrent calls of `Accumulate` leave in the remote sets: exactly what
    inserting every distribution point and every issuer name each time would
    (storage/issuermetadata.go, storage/filesystemdatabase.go).
 */
module AccumulateResults {
  import opened Options
  import opened AccumulateProtocol

  /** Some call has distribution point j recorded as the URL of e, for the issuer of e. */
  predicate WantsCrlAt(norm: Normaliser, calls: seq<Call>, e: (string, string), t: nat, j: nat) {
    t < |calls| && calls[t].issuer == e.0 && j < |calls[t].cert.dps| && norm(calls[t].cert.dps[j]) == Some(e.1)
  }

  ghost predicate WantsCrl(norm: Normaliser, calls: seq<Call>, e: (string, string)) {
    exists t: nat, j: nat :: WantsCrlAt(norm, calls, e, t, j)
  }

  ghost predicate WantsDn(calls: seq<Call>, e: (string, string)) {
    exists t: nat :: t < |calls| && calls[t].issuer == e.0 && calls[t].cert.dn == e.1
  }

  // ------------------------------------------------------------------ one call

  predicate InLoop(pc: Pc) {
    pc.CheckDp? || AtDp(pc)
  }

  predicate AtDp(pc: Pc) {
    pc.RUnlockDp? || pc.LockDp? || pc.MarkDp? || MarkedDp(pc)
  }

  predicate MarkedDp(pc: Pc) {
    pc.UnlockDp? || pc.RLockDp? || pc.InsertDp?
  }

  predicate PastLoop(pc: Pc) {
    pc.RUnlockEnd? || pc.LockDn? || pc.MarkDn? || pc.UnlockDn? || pc.InsertDn? || pc == Returned(true)
  }

  predicate MarkedDn(pc: Pc) {
    pc.UnlockDn? || pc.InsertDn?
  }

  /** What a call knows of its object's maps, as long as it has met no failure. */
  predicate CallKnows(o: Obj, c: Call) {
    && c.i <= |c.cert.dps|
    && (InLoop(c.pc) || PastLoop(c.pc) ==> forall j: nat | j < c.i :: c.cert.dps[j] in o.crls)
    && (AtDp(c.pc) ==> c.i < |c.cert.dps|)
    && (MarkedDp(c.pc) ==> c.cert.dps[c.i] in o.crls)
    && (PastLoop(c.pc) ==> c.i == |c.cert.dps|)
    && (Attached(c) && !c.pc.RLockFirst? && !c.pc.ReadSeen? && c.seenDn ==> c.cert.dn in o.dns)
    && (MarkedDn(c.pc) || c.pc == Returned(true) ==> c.cert.dn in o.dns)
  }

  lemma KnowledgeGrows(o: Obj, o': Obj, c: Call)
    requires CallKnows(o, c) && o.dns <= o'.dns && o.crls <= o'.crls
    ensures CallKnows(o', c)
  {
  }

  lemma StepKeepsKnowledge(norm: Normaliser, o: Obj, t: nat, c: Call, ok: bool)
    requires CallKnows(o, c) && Attached(c)
    ensures CallKnows(ObjAfter(o, t, c), CallAfter(norm, o, c, ok))
  {
    if c.pc.CheckDp? || c.pc.InsertDp? {
      LoopStepKeepsKnowledge(norm, o, c, ok);
    }
  }

  lemma LoopStepKeepsKnowledge(norm: Normaliser, o: Obj, c: Call, ok: bool)
    requires CallKnows(o, c) && (c.pc.CheckDp? || c.pc.InsertDp?)
    ensures CallKnows(o, CallAfter(norm, o, c, ok))
  {
    var c' := CallAfter(norm, o, c, ok);
    if c.i < |c.cert.dps| && c'.pc.CheckDp? {
      assert c'.i == c.i + 1;
    }
  }

  // ------------------------------------------------------------- all the calls

  /** Call t has marked dp in object o and is on its way to insert it. */
  predicate InsertingDp(s: State, o: nat, dp: string, t: nat) {
    t < |s.calls| && s.calls[t].obj == o && MarkedDp(s.calls[t].pc) &&
    s.calls[t].i < |s.calls[t].cert.dps| && s.calls[t].cert.dps[s.calls[t].i] == dp
  }

  predicate InsertingDn(s: State, o: nat, dn: string, t: nat) {
    t < |s.calls| && s.calls[t].obj == o && MarkedDn(s.calls[t].pc) && s.calls[t].cert.dn == dn
  }

  /** Call t, on object o, has met a failed insert. */
  predicate FailedOn(s: State, o: nat, t: nat) {
    t < |s.calls| && s.calls[t].obj == o && (s.calls[t].pc.RUnlockErr? || s.calls[t].pc == Returned(false))
  }

  ghost predicate SomeoneFailed(s: State, o: nat) {
    exists t: nat :: FailedOn(s, o, t)
  }

  /** A marked entry is in the remote set, on its way there, or a call on its object
      has failed. */
  ghost predicate CrlSettled(norm: Normaliser, s: State, o: nat, dp: string)
    requires o < |s.objs|
  {
    norm(dp).Some? ==>
      ((s.objs[o].issuer, norm(dp).value) in s.crls || SomeoneFailed(s, o) || exists t: nat :: InsertingDp(s, o, dp, t))
  }

  ghost predicate DnSettled(s: State, o: nat, dn: string)
    requires o < |s.objs|
  {
    (s.objs[o].issuer, dn) in s.dns || SomeoneFailed(s, o) || exists t: nat :: InsertingDn(s, o, dn, t)
  }

  ghost predicate Settled(norm: Normaliser, s: State, o: nat)
    requires o < |s.objs|
  {
    && (forall dp <- s.objs[o].crls :: CrlSettled(norm, s, o, dp))
    && (forall dn <- s.objs[o].dns :: DnSettled(s, o, dn))
  }

  predicate Knows(s: State, t: nat)
    requires t < |s.calls|
  {
    if Attached(s.calls[t]) then s.calls[t].obj < |s.objs| && CallKnows(s.objs[s.calls[t].obj], s.calls[t])
    else s.calls[t].i == 0
  }

  ghost predicate Inv(norm: Normaliser, s0: State, s: State) {
    && LockInv(s)
    && (forall t: nat | t < |s.calls| :: Knows(s, t))
    && (forall o: nat | o < |s.objs| :: Settled(norm, s, o))
    && |s.calls| == |s0.calls|
    && (forall t: nat | t < |s.calls| :: s.calls[t].issuer == s0.calls[t].issuer && s.calls[t].cert == s0.calls[t].cert)
    && s0.crls <= s.crls && s0.dns <= s.dns
    && (forall e <- s.crls :: e in s0.crls || WantsCrl(norm, s0.calls, e))
    && (forall e <- s.dns :: e in s0.dns || WantsDn(s0.calls, e))
  }

  lemma FindKeepsFailures(s: State, t: nat, o: nat)
    requires t < |s.calls| && !Attached(s.calls[t])
    ensures SomeoneFailed(s, o) ==> SomeoneFailed(Find(s, t), o)
  {
    if u: nat :| FailedOn(s, o, u) {
      assert FailedOn(Find(s, t), o, u);
    }
  }

  lemma ProceedKeepsFailures(norm: Normaliser, s: State, t: nat, ok: bool, o: nat)
    requires t < |s.calls| && s.calls[t].obj < |s.objs|
    ensures SomeoneFailed(s, o) ==> SomeoneFailed(Proceed(norm, s, t, ok), o)
  {
    if u: nat :| FailedOn(s, o, u) {
      assert FailedOn(Proceed(norm, s, t, ok), o, u);
    }
  }

  lemma FindKeepsCrls(norm: Normaliser, s: State, t: nat, o: nat, dp: string)
    requires t < |s.calls| && !Attached(s.calls[t]) && o < |s.objs| && CrlSettled(norm, s, o, dp)
    ensures CrlSettled(norm, Find(s, t), o, dp)
  {
    FindKeepsFailures(s, t, o);
    if u: nat :| InsertingDp(s, o, dp, u) {
      assert InsertingDp(Find(s, t), o, dp, u);
    }
  }

  lemma FindKeepsDns(s: State, t: nat, o: nat, dn: string)
    requires t < |s.calls| && !Attached(s.calls[t]) && o < |s.objs| && DnSettled(s, o, dn)
    ensures DnSettled(Find(s, t), o, dn)
  {
    FindKeepsFailures(s, t, o);
    if u: nat :| InsertingDn(s, o, dn, u) {
      assert InsertingDn(Find(s, t), o, dn, u);
    }
  }

  lemma FindKeepsSettled(norm: Normaliser, s: State, t: nat, o: nat)
    requires t < |s.calls| && !Attached(s.calls[t]) && o < |s.objs| && Settled(norm, s, o)
    ensures Settled(norm, Find(s, t), o)
  {
    var s' := Find(s, t);
    forall dp | dp in s'.objs[o].crls ensures CrlSettled(norm, s', o, dp) {
      FindKeepsCrls(norm, s, t, o, dp);
    }
    forall dn | dn in s'.objs[o].dns ensures DnSettled(s', o, dn) {
      FindKeepsDns(s, t, o, dn);
    }
  }

  lemma FindKeepsKnowledge(s: State, t: nat, u: nat)
    requires LockInv(s) && t < |s.calls| && !Attached(s.calls[t]) && u < |s.calls| && Knows(s, t) && Knows(s, u)
    ensures Knows(Find(s, t), u)
  {
  }

  lemma FindKeepsInv(norm: Normaliser, s0: State, s: State, t: nat)
    requires Inv(norm, s0, s) && t < |s.calls| && !Attached(s.calls[t])
    ensures Inv(norm, s0, Find(s, t))
  {
    var s' := Find(s, t);
    FindKeepsLockInv(s, t);
    forall u: nat | u < |s'.calls| ensures Knows(s', u) {
      FindKeepsKnowledge(s, t, u);
    }
    forall o: nat | o < |s'.objs| ensures Settled(norm, s', o) {
      if o < |s.objs| {
        FindKeepsSettled(norm, s, t, o);
      }
    }
  }

  lemma ProceedKeepsCrls(norm: Normaliser, s: State, t: nat, ok: bool, o: nat, dp: string)
    requires LockInv(s) && t < |s.calls| && Knows(s, t) && Attached(s.calls[t]) && o < |s.objs|
    requires Enabled(s.objs[s.calls[t].obj], s.calls[t].pc) && Settled(norm, s, o)
    requires dp in Proceed(norm, s, t, ok).objs[o].crls
    ensures CrlSettled(norm, Proceed(norm, s, t, ok), o, dp)
  {
    var s', c := Proceed(norm, s, t, ok), s.calls[t];
    assert CallInv(s, t);
    ObjMovesOn(s.objs[c.obj], t, c);
    ProceedKeepsFailures(norm, s, t, ok, o);
    if norm(dp).Some? {
      if dp !in s.objs[o].crls {
        assert InsertingDp(s', o, dp, t);
      } else {
        assert CrlSettled(norm, s, o, dp);
        if u: nat :| InsertingDp(s, o, dp, u) {
          if u == t && c.pc.InsertDp? {
            assert ok ==> (c.issuer, norm(dp).value) in s'.crls;
            assert !ok ==> FailedOn(s', o, t);
          } else {
            assert InsertingDp(s', o, dp, u);
          }
        }
      }
    }
  }

  lemma ProceedKeepsDns(norm: Normaliser, s: State, t: nat, ok: bool, o: nat, dn: string)
    requires LockInv(s) && t < |s.calls| && Knows(s, t) && Attached(s.calls[t]) && o < |s.objs|
    requires Enabled(s.objs[s.calls[t].obj], s.calls[t].pc) && Settled(norm, s, o)
    requires dn in Proceed(norm, s, t, ok).objs[o].dns
    ensures DnSettled(Proceed(norm, s, t, ok), o, dn)
  {
    var s', c := Proceed(norm, s, t, ok), s.calls[t];
    assert CallInv(s, t);
    ObjMovesOn(s.objs[c.obj], t, c);
    ProceedKeepsFailures(norm, s, t, ok, o);
    if dn !in s.objs[o].dns {
      assert InsertingDn(s', o, dn, t);
    } else {
      assert DnSettled(s, o, dn);
      if u: nat :| InsertingDn(s, o, dn, u) {
        if u == t && c.pc.InsertDn? {
          assert ok ==> (c.issuer, dn) in s'.dns;
          assert !ok ==> FailedOn(s', o, t);
        } else {
          assert InsertingDn(s', o, dn, u);
        }
      }
    }
  }

  lemma ProceedAddsWanted(norm: Normaliser, s0: State, s: State, t: nat, ok: bool)
    requires Inv(norm, s0, s) && t < |s.calls| && Attached(s.calls[t])
    ensures forall e <- NewCrls(norm, s.calls[t], ok) :: WantsCrl(norm, s0.calls, e)
    ensures forall e <- NewDns(s.calls[t], ok) :: WantsDn(s0.calls, e)
  {
    var c := s.calls[t];
    if c.pc.InsertDp? && Url(norm, c).Some? {
      assert WantsCrlAt(norm, s0.calls, (c.issuer, Url(norm, c).value), t, c.i);
    }
  }

  lemma ProceedKeepsKnowledge(norm: Normaliser, s: State, t: nat, ok: bool, u: nat)
    requires t < |s.calls| && u < |s.calls| && Attached(s.calls[t]) && Knows(s, t) && Knows(s, u)
    requires Enabled(s.objs[s.calls[t].obj], s.calls[t].pc)
    ensures Knows(Proceed(norm, s, t, ok), u)
  {
    var c := s.calls[t];
    CallMovesOn(norm, s.objs[c.obj], c, ok);
    ObjMovesOn(s.objs[c.obj], t, c);
    if u == t {
      StepKeepsKnowledge(norm, s.objs[c.obj], t, c, ok);
    } else if Attached(s.calls[u]) && s.calls[u].obj == c.obj {
      KnowledgeGrows(s.objs[c.obj], ObjAfter(s.objs[c.obj], t, c), s.calls[u]);
    }
  }

  lemma DoKeepsInv(norm: Normaliser, s0: State, s: State, a: Act)
    requires Inv(norm, s0, s)
    ensures Inv(norm, s0, Do(norm, s, a))
  {
    if a.t < |s.calls| {
      assert Knows(s, a.t);
      var c := s.calls[a.t];
      if !Attached(c) {
        FindKeepsInv(norm, s0, s, a.t);
      } else if Enabled(s.objs[c.obj], c.pc) {
        var s' := Do(norm, s, a);
        DoKeepsLockInv(norm, s, a);
        CallMovesOn(norm, s.objs[c.obj], c, a.ok);
        ProceedAddsWanted(norm, s0, s, a.t, a.ok);
        forall u: nat | u < |s'.calls| ensures Knows(s', u) {
          ProceedKeepsKnowledge(norm, s, a.t, a.ok, u);
        }
        forall o: nat | o < |s'.objs| ensures Settled(norm, s', o) {
          forall dp | dp in s'.objs[o].crls ensures CrlSettled(norm, s', o, dp) {
            ProceedKeepsCrls(norm, s, a.t, a.ok, o, dp);
          }
          forall dn | dn in s'.objs[o].dns ensures DnSettled(s', o, dn) {
            ProceedKeepsDns(norm, s, a.t, a.ok, o, dn);
          }
        }
      }
    }
  }

  lemma {:induction false} ReachableInv(norm: Normaliser, s0: State, acts: seq<Act>)
    requires Starting(s0)
    ensures Inv(norm, s0, Run(norm, s0, acts))
  {
    if acts == [] {
      ReachableLockInv(norm, s0, []);
      forall t: nat | t < |s0.calls| ensures Knows(s0, t) {
        assert s0.calls[t] in s0.calls;
      }
    } else {
      ReachableInv(norm, s0, acts[..|acts| - 1]);
      DoKeepsInv(norm, s0, Run(norm, s0, acts[..|acts| - 1]), acts[|acts| - 1]);
    }
  }

  // ------------------------------------------------------------------- results

  predicate AllReturned(s: State) {
    forall c <- s.calls :: c.pc.Returned?
  }

  ghost predicate AFailureOf(s: State, issuer: string) {
    exists t: nat :: t < |s.calls| && s.calls[t].issuer == issuer && s.calls[t].pc == Returned(false)
  }

  /** What can be missing once every call has returned: only entries of an issuer for
      which some call returned an error. */
  lemma MissingMeansAFailure(norm: Normaliser, s0: State, acts: seq<Act>, e: (string, string))
    requires Starting(s0) && AllReturned(Run(norm, s0, acts))
    ensures var s := Run(norm, s0, acts);
            && (WantsCrl(norm, s0.calls, e) && e !in s.crls ==> AFailureOf(s, e.0))
            && (WantsDn(s0.calls, e) && e !in s.dns ==> AFailureOf(s, e.0))
  {
    ReachableInv(norm, s0, acts);
    var s := Run(norm, s0, acts);
    if t: nat, j: nat :| WantsCrlAt(norm, s0.calls, e, t, j) {
      RecordedUnlessFailed(norm, s, t, j);
    }
    if t: nat :| t < |s0.calls| && s0.calls[t].issuer == e.0 && s0.calls[t].cert.dn == e.1 {
      RecordedUnlessFailed(norm, s, t, 0);
    }
  }

  lemma FailureOnObject(s: State, o: nat)
    requires LockInv(s) && o < |s.objs| && AllReturned(s)
    ensures SomeoneFailed(s, o) ==> AFailureOf(s, s.objs[o].issuer)
  {
    if u: nat :| FailedOn(s, o, u) {
      assert s.calls[u] in s.calls && CallInv(s, u);
    }
  }

  lemma RecordedUnlessFailed(norm: Normaliser, s: State, t: nat, j: nat)
    requires LockInv(s) && t < |s.calls| && Knows(s, t) && AllReturned(s)
    requires forall o: nat | o < |s.objs| :: Settled(norm, s, o)
    ensures (s.calls[t].issuer, s.calls[t].cert.dn) in s.dns || AFailureOf(s, s.calls[t].issuer)
    ensures j < |s.calls[t].cert.dps| && norm(s.calls[t].cert.dps[j]).Some? ==>
              (s.calls[t].issuer, norm(s.calls[t].cert.dps[j]).value) in s.crls || AFailureOf(s, s.calls[t].issuer)
  {
    var c := s.calls[t];
    assert c in s.calls && CallInv(s, t);
    forall u: nat, x: string ensures !InsertingDp(s, c.obj, x, u) && !InsertingDn(s, c.obj, x, u) {
      if u < |s.calls| { assert s.calls[u] in s.calls; }
    }
    if c.pc == Returned(true) {
      assert Settled(norm, s, c.obj);
      FailureOnObject(s, c.obj);
      assert DnSettled(s, c.obj, c.cert.dn);
      if j < |c.cert.dps| {
        assert CrlSettled(norm, s, c.obj, c.cert.dps[j]);
      }
    }
  }

  /** Nothing lost, nothing invented: when every call has returned without an error,
      the remote sets hold what they held at the start and exactly the http(s)
      distribution points and issuer names of all the calls, under any interleaving
      and however many objects one issuer came to have. Whatever fails, nothing
      unasked for is ever added. */
  lemma RemoteSetsAreComplete(norm: Normaliser, s0: State, acts: seq<Act>, e: (string, string))
    requires Starting(s0)
    ensures var s := Run(norm, s0, acts);
            && (e in s.crls ==> e in s0.crls || WantsCrl(norm, s0.calls, e))
            && (e in s.dns ==> e in s0.dns || WantsDn(s0.calls, e))
            && ((forall c <- s.calls :: c.pc == Returned(true)) ==>
                  && (e in s0.crls || WantsCrl(norm, s0.calls, e) ==> e in s.crls)
                  && (e in s0.dns || WantsDn(s0.calls, e) ==> e in s.dns))
  {
    ReachableInv(norm, s0, acts);
    var s := Run(norm, s0, acts);
    if forall c <- s.calls :: c.pc == Returned(true) {
      assert !AFailureOf(s, e.0) by {
        assert forall t: nat | t < |s.calls| :: s.calls[t] in s.calls;
      }
      if t: nat, j: nat :| WantsCrlAt(norm, s0.calls, e, t, j) {
        RecordedUnlessFailed(norm, s, t, j);
      }
      if t: nat :| t < |s0.calls| && s0.calls[t].issuer == e.0 && s0.calls[t].cert.dn == e.1 {
        RecordedUnlessFailed(norm, s, t, 0);
      }
    }
  }
}
