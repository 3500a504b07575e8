/** What a failed insert of `Accumulate` leaves undone: an entry is marked in the local
    map of its object before it is inserted, so after a failure only a call that does
    not see the mark can still record it (storage/issuermetadata.go).
 */
module AccumulateFailures {
  import opened Options
  import opened AccumulateProtocol
  import opened AccumulateResults

  /** An entry of one of the two remote sets of an issuer. */
  datatype Entry = CrlEntry(issuer: string, url: string) | NameEntry(issuer: string, dn: string)

  predicate Recorded(s: State, e: Entry) {
    match e
    case CrlEntry(issuer, url) => (issuer, url) in s.crls
    case NameEntry(issuer, dn) => (issuer, dn) in s.dns
  }

  /** This step of a call records the entry. */
  predicate Records(norm: Normaliser, e: Entry, c: Call, ok: bool) {
    match e
    case CrlEntry(issuer, url) => (issuer, url) in NewCrls(norm, c, ok)
    case NameEntry(issuer, dn) => (issuer, dn) in NewDns(c, ok)
  }

  // ------------------------------------------------------------ hope of one call

  predicate BeforeLoop(pc: Pc) {
    pc.RLockFirst? || pc.ReadSeen? || pc.RUnlockFirst? ||
    pc.LockDate? || pc.MarkDate? || pc.UnlockDate? || pc.RLockLoop?
  }

  /** Distribution point j gives the URL, and the call is on its way to insert it, or has
      yet to look at it and will find it unmarked. */
  predicate UrlAhead(norm: Normaliser, o: Obj, c: Call, url: string, j: nat) {
    && j < |c.cert.dps| && norm(c.cert.dps[j]) == Some(url)
    && ((AtDp(c.pc) && j == c.i) ||
        ((BeforeLoop(c.pc) || (InLoop(c.pc) && j >= c.i)) && c.cert.dps[j] !in o.crls))
  }

  /** A call that has not seen the name of its issuer marked and has not returned. */
  predicate WillInsertDn(c: Call) {
    && Attached(c) && !c.pc.RUnlockErr? && !c.pc.Returned?
    && (!c.seenDn || c.pc.LockDn? || c.pc.MarkDn? || c.pc.UnlockDn? || c.pc.InsertDn?)
  }

  predicate DnAhead(o: Obj, c: Call, dn: string) {
    c.cert.dn == dn && if c.pc.RLockFirst? || c.pc.ReadSeen? then dn !in o.dns else WillInsertDn(c)
  }

  /** A call on an object that records the entry if none of its inserts fails and no one
      marks the entry first. */
  ghost predicate CallHopes(norm: Normaliser, e: Entry, o: Obj, c: Call) {
    c.issuer == e.issuer &&
    match e
    case CrlEntry(_, url) => exists j: nat :: UrlAhead(norm, o, c, url, j)
    case NameEntry(_, dn) => DnAhead(o, c, dn)
  }

  lemma FewerMarksMoreHope(norm: Normaliser, e: Entry, o: Obj, o': Obj, c: Call)
    requires o.crls <= o'.crls && o.dns <= o'.dns && CallHopes(norm, e, o', c)
    ensures CallHopes(norm, e, o, c)
  {
    if e.CrlEntry? {
      var j: nat :| UrlAhead(norm, o', c, e.url, j);
      assert UrlAhead(norm, o, c, e.url, j);
    }
  }

  /** What hope for a URL a step leaves behind, it found. */
  lemma UrlWasAhead(norm: Normaliser, o: Obj, t: nat, c: Call, ok: bool, url: string, j: nat)
    requires Attached(c) && UrlAhead(norm, ObjAfter(o, t, c), CallAfter(norm, o, c, ok), url, j)
    ensures UrlAhead(norm, o, c, url, j)
  {
  }

  lemma HopeWasThere(norm: Normaliser, e: Entry, o: Obj, t: nat, c: Call, ok: bool)
    requires Attached(c)
    ensures CallHopes(norm, e, ObjAfter(o, t, c), CallAfter(norm, o, c, ok)) ==> CallHopes(norm, e, o, c)
    ensures Records(norm, e, c, ok) ==> CallHopes(norm, e, o, c)
  {
    match e {
      case CrlEntry(_, url) =>
        if j: nat :| UrlAhead(norm, ObjAfter(o, t, c), CallAfter(norm, o, c, ok), url, j) {
          UrlWasAhead(norm, o, t, c, ok, url, j);
        }
        if Records(norm, e, c, ok) {
          assert UrlAhead(norm, o, c, url, c.i);
        }
      case NameEntry(_, dn) =>
    }
  }

  /** A hopeful call that steps without failing records the entry or stays hopeful. */
  lemma UrlStaysAhead(norm: Normaliser, o: Obj, t: nat, c: Call, url: string, j: nat)
    requires Attached(c) && UrlAhead(norm, o, c, url, j)
    ensures Records(norm, CrlEntry(c.issuer, url), c, true) ||
            UrlAhead(norm, ObjAfter(o, t, c), CallAfter(norm, o, c, true), url, j) ||
            UrlAhead(norm, ObjAfter(o, t, c), CallAfter(norm, o, c, true), url, c.i)
  {
  }

  lemma HopeGoesOn(norm: Normaliser, e: Entry, o: Obj, t: nat, c: Call)
    requires Attached(c) && CallHopes(norm, e, o, c)
    ensures Records(norm, e, c, true) || CallHopes(norm, e, ObjAfter(o, t, c), CallAfter(norm, o, c, true))
  {
    if e.CrlEntry? {
      var j: nat :| UrlAhead(norm, o, c, e.url, j);
      UrlStaysAhead(norm, o, t, c, e.url, j);
    }
  }

  /** Whoever marks the entry that another call hopes for is about to insert it. */
  lemma HopePassesOn(norm: Normaliser, e: Entry, o: Obj, t: nat, c: Call, ok: bool, other: Call)
    requires Attached(c) && c.issuer == e.issuer && CallHopes(norm, e, o, other)
    ensures CallHopes(norm, e, ObjAfter(o, t, c), other) ||
            CallHopes(norm, e, ObjAfter(o, t, c), CallAfter(norm, o, c, ok))
  {
    if e.CrlEntry? {
      var o' := ObjAfter(o, t, c);
      var j: nat :| UrlAhead(norm, o, other, e.url, j);
      if !UrlAhead(norm, o', other, e.url, j) {
        assert c.pc.MarkDp? && c.i < |c.cert.dps| && other.cert.dps[j] == c.cert.dps[c.i];
        assert UrlAhead(norm, o', CallAfter(norm, o, c, ok), e.url, c.i);
      }
    }
  }

  // ------------------------------------------------------------- hope of a state

  predicate CreatePending(s: State, issuer: string) {
    exists t: nat :: t < |s.calls| && s.calls[t].pc.Create? && s.calls[t].issuer == issuer
  }

  function Blank(issuer: string): Obj {
    Obj(issuer, {}, {}, {}, {}, None)
  }

  /** The object a call works on, or the best one that it could still come to work on: a
      new one if one is being made or none has been. */
  function ObjectOf(s: State, t: nat): Obj
    requires t < |s.calls|
  {
    var c := s.calls[t];
    if Attached(c) then if c.obj < |s.objs| then s.objs[c.obj] else Blank(c.issuer)
    else if c.issuer in s.meta && s.meta[c.issuer] < |s.objs| && !CreatePending(s, c.issuer)
    then s.objs[s.meta[c.issuer]]
    else Blank(c.issuer)
  }

  /** A call that has not found its object yet counts as one that has just found it. */
  function Begun(c: Call): Call {
    if Attached(c) then c else Call(c.issuer, c.cert, RLockFirst, 0, c.i, c.seenDate, c.seenDn)
  }

  ghost predicate Hopes(norm: Normaliser, e: Entry, s: State, t: nat) {
    t < |s.calls| && CallHopes(norm, e, ObjectOf(s, t), Begun(s.calls[t]))
  }

  ghost predicate Hope(norm: Normaliser, e: Entry, s: State) {
    exists t: nat :: Hopes(norm, e, s, t)
  }

  lemma HopeFromLess(norm: Normaliser, e: Entry, s: State, s': State, t: nat)
    requires t < |s.calls| && t < |s'.calls| && Begun(s.calls[t]) == Begun(s'.calls[t])
    requires ObjectOf(s, t).crls <= ObjectOf(s', t).crls && ObjectOf(s, t).dns <= ObjectOf(s', t).dns
    ensures Hopes(norm, e, s', t) ==> Hopes(norm, e, s, t)
  {
    if Hopes(norm, e, s', t) {
      FewerMarksMoreHope(norm, e, ObjectOf(s, t), ObjectOf(s', t), Begun(s.calls[t]));
    }
  }

  /** Which object a freshly attached call has does not matter to its hope. */
  lemma SameHope(norm: Normaliser, e: Entry, o: Obj, c: Call, c': Call)
    requires c'.(obj := c.obj) == c
    ensures CallHopes(norm, e, o, c) <==> CallHopes(norm, e, o, c')
  {
    if e.CrlEntry? {
      assert forall j: nat :: UrlAhead(norm, o, c, e.url, j) <==> UrlAhead(norm, o, c', e.url, j);
    }
  }

  // --------------------------------------------------------- no step makes hope

  /** What finding or making an object does to pending creations and to objects. */
  lemma FindKeepsObjects(s: State, t: nat, u: nat)
    requires LockInv(s) && t < |s.calls| && !Attached(s.calls[t]) && u < |s.calls|
    ensures var s' := Find(s, t);
            && |s'.calls| == |s.calls|
            && (u != t ==> s'.calls[u] == s.calls[u])
            && Begun(s'.calls[u]) == Begun(s.calls[u]).(obj := Begun(s'.calls[u]).obj)
            && ObjectOf(s, u).crls <= ObjectOf(s', u).crls && ObjectOf(s, u).dns <= ObjectOf(s', u).dns
  {
    var s' := Find(s, t);
    assert CallInv(s, u) && CallInv(s, t);
    if s.calls[t].pc.Create? {
      assert CreatePending(s, s.calls[t].issuer);
    }
    if !Attached(s.calls[u]) && s.calls[u].issuer != s.calls[t].issuer {
      OtherCreations(s, s', t, s.calls[u].issuer);
    } else if !Attached(s.calls[u]) && s.calls[t].pc.Lookup? && s.calls[t].issuer in s.meta {
      OtherCreations(s, s', t, s.calls[t].issuer);
    }
  }

  lemma OtherCreations(s: State, s': State, t: nat, issuer: string)
    requires |s'.calls| == |s.calls| && t < |s.calls|
    requires forall u: nat | u < |s.calls| && u != t :: s'.calls[u] == s.calls[u]
    requires s.calls[t].pc.Create? && s.calls[t].issuer == issuer <==>
             s'.calls[t].pc.Create? && s'.calls[t].issuer == issuer
    ensures CreatePending(s', issuer) <==> CreatePending(s, issuer)
  {
    if u: nat :| u < |s.calls| && s.calls[u].pc.Create? && s.calls[u].issuer == issuer {
      assert s'.calls[u].pc.Create? && s'.calls[u].issuer == issuer;
    }
  }

  lemma FindMakesNoHope(norm: Normaliser, e: Entry, s: State, t: nat, u: nat)
    requires LockInv(s) && t < |s.calls| && !Attached(s.calls[t])
    ensures Hopes(norm, e, Find(s, t), u) ==> Hopes(norm, e, s, u)
  {
    var s' := Find(s, t);
    if Hopes(norm, e, s', u) {
      FindKeepsObjects(s, t, u);
      FewerMarksMoreHope(norm, e, ObjectOf(s, u), ObjectOf(s', u), Begun(s'.calls[u]));
      SameHope(norm, e, ObjectOf(s, u), Begun(s.calls[u]), Begun(s'.calls[u]));
    }
  }

  /** What a step on an object does to the object that another call hopes in. */
  lemma ProceedKeepsObjects(norm: Normaliser, s: State, t: nat, ok: bool, u: nat)
    requires LockInv(s) && t < |s.calls| && Attached(s.calls[t]) && u < |s.calls| && u != t
    requires s.calls[t].obj < |s.objs| && Enabled(s.objs[s.calls[t].obj], s.calls[t].pc)
    ensures var s', o := Proceed(norm, s, t, ok), s.objs[s.calls[t].obj];
            && |s'.calls| == |s.calls| && s'.calls[u] == s.calls[u]
            && (ObjectOf(s', u) == ObjectOf(s, u) ||
                (ObjectOf(s, u) == o && ObjectOf(s', u) == ObjAfter(o, t, s.calls[t]) && o.issuer == s.calls[u].issuer))
  {
    var s', c := Proceed(norm, s, t, ok), s.calls[t];
    assert CallInv(s, u) && CallInv(s, t);
    CallMovesOn(norm, s.objs[c.obj], c, ok);
    OtherCreations(s, s', t, s.calls[u].issuer);
  }

  lemma ProceedMakesNoHope(norm: Normaliser, e: Entry, s: State, t: nat, ok: bool, u: nat)
    requires LockInv(s) && t < |s.calls| && Attached(s.calls[t])
    requires s.calls[t].obj < |s.objs| && Enabled(s.objs[s.calls[t].obj], s.calls[t].pc)
    ensures Hopes(norm, e, Proceed(norm, s, t, ok), u) ==> Hopes(norm, e, s, u)
  {
    var s', c := Proceed(norm, s, t, ok), s.calls[t];
    var o := s.objs[c.obj];
    CallMovesOn(norm, o, c, ok);
    ObjMovesOn(o, t, c);
    if Hopes(norm, e, s', u) {
      if u == t {
        HopeWasThere(norm, e, o, t, c, ok);
      } else {
        ProceedKeepsObjects(norm, s, t, ok, u);
        HopeFromLess(norm, e, s, s', u);
      }
    }
  }

  lemma NoStepMakesHope(norm: Normaliser, e: Entry, s: State, a: Act)
    requires LockInv(s) && !Recorded(s, e) && !Hope(norm, e, s)
    ensures !Recorded(Do(norm, s, a), e) && !Hope(norm, e, Do(norm, s, a))
  {
    var s' := Do(norm, s, a);
    if a.t < |s.calls| {
      assert CallInv(s, a.t);
      var c := s.calls[a.t];
      if !Attached(c) {
        forall u: nat ensures !Hopes(norm, e, s', u) {
          FindMakesNoHope(norm, e, s, a.t, u);
        }
      } else if Enabled(s.objs[c.obj], c.pc) {
        HopeWasThere(norm, e, s.objs[c.obj], a.t, c, a.ok);
        assert !Hopes(norm, e, s, a.t);
        forall u: nat ensures !Hopes(norm, e, s', u) {
          ProceedMakesNoHope(norm, e, s, a.t, a.ok, u);
        }
      }
    }
  }

  lemma {:induction false} NoHopeNoRecord(norm: Normaliser, e: Entry, s: State, acts: seq<Act>)
    requires LockInv(s) && !Recorded(s, e) && !Hope(norm, e, s)
    ensures LockInv(Run(norm, s, acts)) && !Recorded(Run(norm, s, acts), e) && !Hope(norm, e, Run(norm, s, acts))
  {
    if acts == [] {
    } else {
      var t := Run(norm, s, acts[..|acts| - 1]);
      NoHopeNoRecord(norm, e, s, acts[..|acts| - 1]);
      DoKeepsLockInv(norm, t, acts[|acts| - 1]);
      NoStepMakesHope(norm, e, t, acts[|acts| - 1]);
    }
  }

  // --------------------------------------------------- a good scheduler keeps hope

  /** The next act of a scheduler that makes pending objects first, never blocks and
      meets no failure. */
  predicate GoodStep(s: State, e: Entry, t: nat) {
    CanMove(s, t) &&
    (CreatePending(s, e.issuer) ==> s.calls[t].pc.Create? && s.calls[t].issuer == e.issuer)
  }

  /** Finding or making an object, at the right time, takes no mark-free object away. */
  lemma FindIsNoWorse(s: State, e: Entry, t: nat, u: nat)
    requires LockInv(s) && GoodStep(s, e, t) && !Attached(s.calls[t])
    requires u < |s.calls| && s.calls[u].issuer == e.issuer
    ensures var s' := Find(s, t);
            && |s'.calls| == |s.calls|
            && Begun(s'.calls[u]) == Begun(s.calls[u]).(obj := Begun(s'.calls[u]).obj)
            && ObjectOf(s', u).crls <= ObjectOf(s, u).crls && ObjectOf(s', u).dns <= ObjectOf(s, u).dns
  {
    assert CallInv(s, u) && CallInv(s, t);
    if s.calls[t].pc.Create? {
      MakingIsNoWorse(s, e, t, u);
    } else {
      LookingIsNoWorse(s, e, t, u);
    }
  }

  lemma MakingIsNoWorse(s: State, e: Entry, t: nat, u: nat)
    requires LockInv(s) && GoodStep(s, e, t) && s.calls[t].pc.Create?
    requires u < |s.calls| && s.calls[u].issuer == e.issuer && CallInv(s, u)
    ensures var s' := Find(s, t);
            && |s'.calls| == |s.calls|
            && Begun(s'.calls[u]) == Begun(s.calls[u]).(obj := Begun(s'.calls[u]).obj)
            && ObjectOf(s', u).crls <= ObjectOf(s, u).crls && ObjectOf(s', u).dns <= ObjectOf(s, u).dns
  {
    if s.calls[t].issuer == e.issuer {
      assert CreatePending(s, e.issuer);
    } else {
      OtherCreations(s, Find(s, t), t, e.issuer);
    }
  }

  lemma LookingIsNoWorse(s: State, e: Entry, t: nat, u: nat)
    requires LockInv(s) && GoodStep(s, e, t) && s.calls[t].pc.Lookup?
    requires u < |s.calls| && s.calls[u].issuer == e.issuer && CallInv(s, u)
    ensures var s' := Find(s, t);
            && |s'.calls| == |s.calls|
            && Begun(s'.calls[u]) == Begun(s.calls[u]).(obj := Begun(s'.calls[u]).obj)
            && ObjectOf(s', u).crls <= ObjectOf(s, u).crls && ObjectOf(s', u).dns <= ObjectOf(s, u).dns
  {
    if s.calls[t].issuer != e.issuer || s.calls[t].issuer in s.meta {
      OtherCreations(s, Find(s, t), t, e.issuer);
    }
  }

  lemma GoodFindKeepsHope(norm: Normaliser, e: Entry, s: State, t: nat)
    requires LockInv(s) && Hope(norm, e, s) && GoodStep(s, e, t) && !Attached(s.calls[t])
    ensures Hope(norm, e, Find(s, t))
  {
    var s' := Find(s, t);
    var u: nat :| Hopes(norm, e, s, u);
    FindIsNoWorse(s, e, t, u);
    SameHope(norm, e, ObjectOf(s, u), Begun(s.calls[u]), Begun(s'.calls[u]));
    FewerMarksMoreHope(norm, e, ObjectOf(s', u), ObjectOf(s, u), Begun(s'.calls[u]));
    assert Hopes(norm, e, s', u);
  }

  lemma GoodProceedKeepsHope(norm: Normaliser, e: Entry, s: State, t: nat)
    requires LockInv(s) && Hope(norm, e, s) && t < |s.calls| && Attached(s.calls[t])
    requires s.calls[t].obj < |s.objs| && Enabled(s.objs[s.calls[t].obj], s.calls[t].pc)
    ensures Recorded(Proceed(norm, s, t, true), e) || Hope(norm, e, Proceed(norm, s, t, true))
  {
    var s', c := Proceed(norm, s, t, true), s.calls[t];
    var o := s.objs[c.obj];
    CallMovesOn(norm, o, c, true);
    assert CallInv(s, t);
    var u: nat :| Hopes(norm, e, s, u);
    if u == t {
      HopeGoesOn(norm, e, o, t, c);
      assert Records(norm, e, c, true) || Hopes(norm, e, s', t);
    } else {
      ProceedKeepsObjects(norm, s, t, true, u);
      if ObjectOf(s', u) == ObjectOf(s, u) {
        assert Hopes(norm, e, s', u);
      } else {
        HopePassesOn(norm, e, o, t, c, true, Begun(s.calls[u]));
        assert Hopes(norm, e, s', u) || Hopes(norm, e, s', t);
      }
    }
  }

  lemma GoodStepKeepsHope(norm: Normaliser, e: Entry, s: State, t: nat)
    requires LockInv(s) && Hope(norm, e, s) && GoodStep(s, e, t)
    ensures Recorded(Do(norm, s, Act(t, true)), e) || Hope(norm, e, Do(norm, s, Act(t, true)))
  {
    if Attached(s.calls[t]) {
      GoodProceedKeepsHope(norm, e, s, t);
    } else {
      GoodFindKeepsHope(norm, e, s, t);
    }
  }

  // ------------------------------------------------------- and comes to an end

  function Left(c: Call): nat {
    if c.i < |c.cert.dps| then |c.cert.dps| - c.i else 0
  }

  /** More than the number of steps a call can still take. */
  function Rank(c: Call): nat {
    match c.pc
    case Lookup => 8 * |c.cert.dps| + 15
    case Create => 8 * |c.cert.dps| + 14
    case RLockFirst => 8 * |c.cert.dps| + 13
    case ReadSeen => 8 * |c.cert.dps| + 12
    case RUnlockFirst => 8 * |c.cert.dps| + 11
    case LockDate => 8 * |c.cert.dps| + 10
    case MarkDate => 8 * |c.cert.dps| + 9
    case UnlockDate => 8 * |c.cert.dps| + 8
    case RLockLoop => 8 * |c.cert.dps| + 7
    case CheckDp => 8 * Left(c) + 6
    case RUnlockDp => 8 * Left(c) + 5
    case LockDp => 8 * Left(c) + 4
    case MarkDp => 8 * Left(c) + 3
    case UnlockDp => 8 * Left(c) + 2
    case RLockDp => 8 * Left(c) + 1
    case InsertDp => 8 * Left(c)
    case RUnlockEnd => 5
    case LockDn => 4
    case MarkDn => 3
    case UnlockDn => 2
    case InsertDn => 1
    case RUnlockErr => 1
    case Returned(_) => 0
  }

  lemma LoopStepLowersRank(norm: Normaliser, o: Obj, c: Call, ok: bool)
    requires CallKnows(o, c) && InLoop(c.pc)
    ensures Rank(CallAfter(norm, o, c, ok)) < Rank(c)
  {
    var c' := CallAfter(norm, o, c, ok);
    if c'.pc.CheckDp? {
      assert Left(c') == Left(c) - 1;
    } else {
      assert c'.i == c.i && Left(c') == Left(c);
    }
  }

  lemma CallStepLowersRank(norm: Normaliser, o: Obj, c: Call, ok: bool)
    requires CallKnows(o, c) && Attached(c) && !c.pc.Returned?
    ensures Rank(CallAfter(norm, o, c, ok)) < Rank(c)
  {
    if InLoop(c.pc) {
      LoopStepLowersRank(norm, o, c, ok);
    }
  }

  function Total(calls: seq<Call>): nat {
    if calls == [] then 0 else Total(calls[..|calls| - 1]) + Rank(calls[|calls| - 1])
  }

  lemma {:induction false} TotalFalls(calls: seq<Call>, t: nat, c: Call)
    requires t < |calls| && Rank(c) < Rank(calls[t])
    ensures Total(calls[t := c]) < Total(calls)
  {
    var last := |calls| - 1;
    if t == last {
      assert calls[t := c][..last] == calls[..last];
    } else {
      assert calls[t := c][..last] == calls[..last][t := c];
      TotalFalls(calls[..last], t, c);
    }
  }

  lemma StepLowersTotal(norm: Normaliser, s: State, t: nat, ok: bool)
    requires LockInv(s) && CanMove(s, t) && Knows(s, t)
    ensures Total(Do(norm, s, Act(t, ok)).calls) < Total(s.calls)
  {
    var c := s.calls[t];
    if Attached(c) {
      CallStepLowersRank(norm, s.objs[c.obj], c, ok);
      TotalFalls(s.calls, t, CallAfter(norm, s.objs[c.obj], c, ok));
    } else {
      TotalFalls(s.calls, t, Find(s, t).calls[t]);
    }
  }

  lemma SomeGoodStep(norm: Normaliser, e: Entry, s: State) returns (t: nat)
    requires LockInv(s) && Hope(norm, e, s)
    ensures GoodStep(s, e, t)
  {
    if CreatePending(s, e.issuer) {
      t :| t < |s.calls| && s.calls[t].pc.Create? && s.calls[t].issuer == e.issuer;
    } else {
      var u: nat :| Hopes(norm, e, s, u);
      t := SomeoneCanMove(s, u);
    }
  }

  lemma {:induction false} RunStartsWith(norm: Normaliser, s: State, a: Act, rest: seq<Act>)
    ensures Run(norm, s, [a] + rest) == Run(norm, Do(norm, s, a), rest)
  {
    var acts := [a] + rest;
    if rest == [] {
      assert acts[..0] == [] && Run(norm, s, []) == s;
    } else {
      var front := rest[..|rest| - 1];
      assert acts[..|acts| - 1] == [a] + front;
      RunStartsWith(norm, s, a, front);
    }
  }

  /** Where there is hope, some continuation records the entry. */
  lemma {:induction false} HopeIsEnough(norm: Normaliser, e: Entry, s0: State, s: State) returns (more: seq<Act>)
    requires Inv(norm, s0, s) && (Recorded(s, e) || Hope(norm, e, s))
    ensures Recorded(Run(norm, s, more), e)
    decreases Total(s.calls)
  {
    if Recorded(s, e) {
      more := [];
    } else {
      var t := SomeGoodStep(norm, e, s);
      var a := Act(t, true);
      GoodStepKeepsHope(norm, e, s, t);
      StepLowersTotal(norm, s, t, true);
      DoKeepsInv(norm, s0, s, a);
      var rest := HopeIsEnough(norm, e, s0, Do(norm, s, a));
      RunStartsWith(norm, s, a, rest);
      more := [a] + rest;
    }
  }

  // ------------------------------------------------------------------- results

  ghost predicate CanStillBeRecorded(norm: Normaliser, s: State, e: Entry) {
    exists more: seq<Act> :: Recorded(Run(norm, s, more), e)
  }

  /** Whatever has happened so far, an entry that is not recorded can still come to be
      recorded if and only if some call that has neither failed nor returned nor left it
      behind is on its way to insert it, or will look for it in an object without its
      mark. */
  lemma RecordedLaterExactlyWhenHope(norm: Normaliser, s0: State, acts: seq<Act>, e: Entry)
    requires Starting(s0) && !Recorded(Run(norm, s0, acts), e)
    ensures CanStillBeRecorded(norm, Run(norm, s0, acts), e) <==> Hope(norm, e, Run(norm, s0, acts))
  {
    var s := Run(norm, s0, acts);
    ReachableInv(norm, s0, acts);
    if Hope(norm, e, s) {
      var more := HopeIsEnough(norm, e, s0, s);
    } else {
      forall more: seq<Act> ensures !Recorded(Run(norm, s, more), e) {
        NoHopeNoRecord(norm, e, s, more);
      }
    }
  }

  ghost predicate AskedFor(norm: Normaliser, s: State, e: Entry) {
    match e
    case CrlEntry(issuer, url) => WantsCrl(norm, s.calls, (issuer, url))
    case NameEntry(issuer, dn) => WantsDn(s.calls, (issuer, dn))
  }

  /** At the start there is hope of exactly what some call asks for. */
  lemma HopeAtStart(norm: Normaliser, s0: State, e: Entry)
    requires Starting(s0)
    ensures Hope(norm, e, s0) <==> AskedFor(norm, s0, e)
  {
    forall t: nat | t < |s0.calls| ensures s0.calls[t].pc.Lookup? {
      assert s0.calls[t] in s0.calls;
    }
    match e {
      case CrlEntry(issuer, url) =>
        if t: nat :| Hopes(norm, e, s0, t) {
          var j: nat :| UrlAhead(norm, ObjectOf(s0, t), Begun(s0.calls[t]), url, j);
          assert WantsCrlAt(norm, s0.calls, (issuer, url), t, j);
        }
        if t: nat, j: nat :| WantsCrlAt(norm, s0.calls, (issuer, url), t, j) {
          assert UrlAhead(norm, ObjectOf(s0, t), Begun(s0.calls[t]), url, j);
          assert Hopes(norm, e, s0, t);
        }
      case NameEntry(issuer, dn) =>
        if t: nat :| t < |s0.calls| && s0.calls[t].issuer == issuer && s0.calls[t].cert.dn == dn {
          assert Hopes(norm, e, s0, t);
        }
    }
  }

  /** Call t is at the insert of this entry. */
  predicate Inserting(norm: Normaliser, s: State, t: nat, e: Entry) {
    t < |s.calls| && s.calls[t].issuer == e.issuer &&
    match e
    case CrlEntry(_, url) => s.calls[t].pc.InsertDp? && Url(norm, s.calls[t]) == Some(url)
    case NameEntry(_, dn) => s.calls[t].pc.InsertDn? && s.calls[t].cert.dn == dn
  }

  ghost predicate AnotherHopes(norm: Normaliser, s: State, t: nat, e: Entry) {
    exists u: nat :: u != t && Hopes(norm, e, s, u)
  }

  lemma AFailedStep(norm: Normaliser, s: State, t: nat, e: Entry)
    requires LockInv(s) && Inserting(norm, s, t, e)
    ensures var s', c := Do(norm, s, Act(t, false)), s.calls[t];
            && c.obj < |s.objs| && Enabled(s.objs[c.obj], c.pc) && s' == Proceed(norm, s, t, false)
            && ObjAfter(s.objs[c.obj], t, c) == s.objs[c.obj]
            && |s'.calls| == |s.calls| && (s'.calls[t].pc.RUnlockErr? || s'.calls[t].pc.Returned?)
            && s'.crls == s.crls && s'.dns == s.dns
  {
    assert CallInv(s, t);
  }

  /** An insert that fails ends its own call's hope and leaves the others theirs. */
  lemma AFailureEndsOwnHope(norm: Normaliser, s: State, t: nat, e: Entry)
    requires LockInv(s) && Inserting(norm, s, t, e) && !Recorded(s, e)
    ensures var s' := Do(norm, s, Act(t, false));
            !Recorded(s', e) && (Hope(norm, e, s') <==> AnotherHopes(norm, s, t, e))
  {
    var s' := Do(norm, s, Act(t, false));
    AFailedStep(norm, s, t, e);
    assert !Hopes(norm, e, s', t);
    forall u: nat | u != t ensures Hopes(norm, e, s', u) <==> Hopes(norm, e, s, u) {
      if u < |s.calls| {
        ProceedKeepsObjects(norm, s, t, false, u);
      }
    }
  }

  /** So without another call's hope it is never recorded, whatever happens. */
  lemma AFailedInsertIsNeverRepaired(norm: Normaliser, s: State, t: nat, acts: seq<Act>, e: Entry)
    requires LockInv(s) && Inserting(norm, s, t, e) && !Recorded(s, e) && !AnotherHopes(norm, s, t, e)
    ensures !Recorded(Run(norm, Do(norm, s, Act(t, false)), acts), e)
  {
    AFailureEndsOwnHope(norm, s, t, e);
    DoKeepsLockInv(norm, s, Act(t, false));
    NoHopeNoRecord(norm, e, Do(norm, s, Act(t, false)), acts);
  }

  /** When an insert fails, the entry can still come to be recorded if and only if another
      call has hope of it. */
  lemma AFailedInsertIsRepairedExactly(norm: Normaliser, s0: State, acts: seq<Act>, t: nat, e: Entry)
    requires Starting(s0)
    requires Inserting(norm, Run(norm, s0, acts), t, e) && !Recorded(Run(norm, s0, acts), e)
    ensures var s := Run(norm, s0, acts);
            CanStillBeRecorded(norm, Do(norm, s, Act(t, false)), e) <==> AnotherHopes(norm, s, t, e)
  {
    var s := Run(norm, s0, acts);
    ReachableInv(norm, s0, acts);
    AFailureEndsOwnHope(norm, s, t, e);
    var longer := acts + [Act(t, false)];
    assert longer[..|longer| - 1] == acts;
    assert Run(norm, s0, longer) == Do(norm, s, Act(t, false));
    RecordedLaterExactlyWhenHope(norm, s0, longer, e);
  }
}
