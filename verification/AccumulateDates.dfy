/** What `Accumulate` says of dates: whether some call on the same issuer object has marked
    the date before (storage/issuermetadata.go). On that answer `Store` allocates.
 */
module AccumulateDates {
  import opened Options
  import opened AccumulateProtocol

  /** A call on an object that has not yet marked its date or found it marked. */
  predicate BeforeMark(c: Call) {
    c.pc.RLockFirst? || c.pc.ReadSeen? || (c.pc.RUnlockFirst? && !c.seenDate) || c.pc.LockDate? || c.pc.MarkDate?
  }

  /** The call found its date unmarked in object o, and has marked it. */
  predicate MarkedItself(s: State, o: nat, date: string, t: nat) {
    && t < |s.calls| && Attached(s.calls[t]) && s.calls[t].obj == o && s.calls[t].cert.date == date
    && !s.calls[t].seenDate && !BeforeMark(s.calls[t])
  }

  predicate CallDates(s: State, t: nat)
    requires t < |s.calls|
  {
    var c := s.calls[t];
    Attached(c) ==>
      && c.obj < |s.objs|
      && (!BeforeMark(c) ==> c.cert.date in s.objs[c.obj].dates)
      && (c.pc.LockDate? || c.pc.MarkDate? ==> !c.seenDate)
  }

  ghost predicate HasFinder(s: State, o: nat, date: string) {
    exists t: nat :: MarkedItself(s, o, date, t)
  }

  ghost predicate DatesInv(s: State) {
    && (forall t: nat | t < |s.calls| :: CallDates(s, t))
    && (forall o: nat, date | o < |s.objs| && date in s.objs[o].dates :: HasFinder(s, o, date))
    && (forall k <- s.meta :: s.meta[k] < |s.objs|)
  }

  lemma FindKeepsDates(s: State, t: nat)
    requires DatesInv(s) && t < |s.calls| && !Attached(s.calls[t])
    ensures DatesInv(Find(s, t))
  {
    var s' := Find(s, t);
    forall u: nat | u < |s'.calls| ensures CallDates(s', u) {
      assert CallDates(s, u);
    }
    forall o: nat, date | o < |s'.objs| && date in s'.objs[o].dates ensures HasFinder(s', o, date) {
      assert HasFinder(s, o, date);
      var u: nat :| MarkedItself(s, o, date, u);
      assert MarkedItself(s', o, date, u);
    }
  }

  /** One step of a call: its marks, and what it has seen. */
  lemma StepDates(norm: Normaliser, o: Obj, t: nat, c: Call, ok: bool)
    requires Attached(c) && (!BeforeMark(c) ==> c.cert.date in o.dates)
    requires c.pc.LockDate? || c.pc.MarkDate? ==> !c.seenDate
    ensures var o', c' := ObjAfter(o, t, c), CallAfter(norm, o, c, ok);
            && Attached(c') && c'.obj == c.obj && c'.cert == c.cert
            && (!BeforeMark(c') ==> c'.cert.date in o'.dates)
            && (c'.pc.LockDate? || c'.pc.MarkDate? ==> !c'.seenDate)
            && o.dates <= o'.dates
            && (o'.dates != o.dates ==> o'.dates == o.dates + {c.cert.date} && !BeforeMark(c') && !c'.seenDate)
            && (!BeforeMark(c) ==> !BeforeMark(c') && c'.seenDate == c.seenDate)
  {
  }

  lemma ProceedKeepsDates(norm: Normaliser, s: State, t: nat, ok: bool)
    requires DatesInv(s) && t < |s.calls| && Attached(s.calls[t]) && s.calls[t].obj < |s.objs|
    ensures DatesInv(Proceed(norm, s, t, ok))
  {
    var s', c := Proceed(norm, s, t, ok), s.calls[t];
    assert CallDates(s, t);
    StepDates(norm, s.objs[c.obj], t, c, ok);
    forall u: nat | u < |s'.calls| ensures CallDates(s', u) {
      assert CallDates(s, u);
    }
    forall o: nat, date | o < |s'.objs| && date in s'.objs[o].dates ensures HasFinder(s', o, date) {
      if date in s.objs[o].dates {
        assert HasFinder(s, o, date);
        var u: nat :| MarkedItself(s, o, date, u);
        assert MarkedItself(s', o, date, u);
      } else {
        assert MarkedItself(s', o, date, t);
      }
    }
  }

  lemma {:induction false} ReachableDates(norm: Normaliser, s: State, acts: seq<Act>)
    requires Starting(s)
    ensures DatesInv(Run(norm, s, acts))
  {
    if acts == [] {
      forall t: nat | t < |s.calls| ensures CallDates(s, t) {
        assert s.calls[t] in s.calls;
      }
    } else {
      var t, a := Run(norm, s, acts[..|acts| - 1]), acts[|acts| - 1];
      ReachableDates(norm, s, acts[..|acts| - 1]);
      if a.t < |t.calls| {
        if !Attached(t.calls[a.t]) {
          FindKeepsDates(t, a.t);
        } else if t.calls[a.t].obj < |t.objs| && Enabled(t.objs[t.calls[a.t].obj], t.calls[a.t].pc) {
          ProceedKeepsDates(norm, t, a.t, a.ok);
        }
      }
    }
  }

  /** After any interleaving and any failures, a call that reads its object's dates is told
      that its date was seen if and only if some call on the object found the date unmarked
      and has marked it; and every call that has got past that point, so every one that has
      returned with or without an error, implies that there is such a call. */
  lemma SeenExactlyIfMarked(norm: Normaliser, s0: State, acts: seq<Act>, t: nat, ok: bool)
    requires Starting(s0)
    requires var s := Run(norm, s0, acts);
             t < |s.calls| && s.calls[t].pc.ReadSeen? && CanMove(s, t)
    ensures var s, s' := Run(norm, s0, acts), Do(norm, Run(norm, s0, acts), Act(t, ok));
            var c := s.calls[t];
            && |s'.calls| == |s.calls|
            && (s'.calls[t].seenDate <==> HasFinder(s, c.obj, c.cert.date))
            && forall u: nat | u < |s.calls| && Attached(s.calls[u]) && s.calls[u].obj == c.obj &&
                               s.calls[u].cert.date == c.cert.date && !BeforeMark(s.calls[u]) ::
                 s'.calls[t].seenDate
  {
    ReachableDates(norm, s0, acts);
    var s := Run(norm, s0, acts);
    assert CallDates(s, t);
    if u: nat :| MarkedItself(s, s.calls[t].obj, s.calls[t].cert.date, u) {
      assert CallDates(s, u);
    }
    forall u: nat | u < |s.calls| && Attached(s.calls[u]) && s.calls[u].obj == s.calls[t].obj &&
                    s.calls[u].cert.date == s.calls[t].cert.date && !BeforeMark(s.calls[u])
      ensures s.calls[t].cert.date in s.objs[s.calls[t].obj].dates
    {
      assert CallDates(s, u);
    }
  }
}
