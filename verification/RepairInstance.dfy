/** A failing run of `Accumulate` from the start, in which only another spelling of the
    same URL can repair the failure (storage/issuermetadata.go).
 */
module RepairInstance {
  import opened Options
  import opened AccumulateProtocol
  import opened AccumulateResults
  import opened AccumulateFailures

  /** Where a call with one distribution point is after k steps, its insert failing. */
  function PcAt(k: nat): Pc {
    match k
    case 0 => RLockFirst
    case 1 => ReadSeen
    case 2 => RUnlockFirst
    case 3 => LockDate
    case 4 => MarkDate
    case 5 => UnlockDate
    case 6 => RLockLoop
    case 7 => CheckDp
    case 8 => RUnlockDp
    case 9 => LockDp
    case 10 => MarkDp
    case 11 => UnlockDp
    case 12 => RLockDp
    case 13 => InsertDp
    case 14 => RUnlockErr
    case _ => Returned(false)
  }

  function CallAt(issuer: string, cert: Cert, k: nat): Call {
    Call(issuer, cert, PcAt(k), 0, 0, false, false)
  }

  function ObjAt(issuer: string, cert: Cert, dp: string, k: nat): Obj {
    Obj(issuer, if k > 4 then {cert.date} else {}, {}, if k > 10 then {dp} else {},
        if Held(PcAt(k)) == Read then {0} else {}, if Held(PcAt(k)) == Write then Some(0) else None)
  }

  lemma CallStep(norm: Normaliser, issuer: string, cert: Cert, dp: string, k: nat)
    requires k < 15 && cert.dps == [dp] && norm(dp).Some?
    ensures CallAfter(norm, ObjAt(issuer, cert, dp, k), CallAt(issuer, cert, k), false) == CallAt(issuer, cert, k + 1)
  {
  }

  lemma ObjStep(issuer: string, cert: Cert, dp: string, k: nat)
    requires k < 15 && cert.dps == [dp]
    ensures Enabled(ObjAt(issuer, cert, dp, k), PcAt(k))
    ensures ObjAfter(ObjAt(issuer, cert, dp, k), 0, CallAt(issuer, cert, k)) == ObjAt(issuer, cert, dp, k + 1)
  {
  }

  function Waiting(issuer: string, cert: Cert): Call {
    Call(issuer, cert, Lookup, 0, 0, false, false)
  }

  /** The first call at work on an object, the second not begun. */
  function Working(o: Obj, c: Call, second: Call): State {
    State([o], map[c.issuer := 0], [c, second], {}, {})
  }

  lemma WorkingStep(norm: Normaliser, o: Obj, c: Call, second: Call)
    requires Attached(c) && c.obj == 0 && Enabled(o, c.pc)
    ensures Do(norm, Working(o, c, second), Act(0, false)) ==
            Working(ObjAfter(o, 0, c), CallAfter(norm, o, c, false), second)
  {
    var s := Working(o, c, second);
    assert NewCrls(norm, c, false) == {} && NewDns(c, false) == {};
    assert s.objs[0 := ObjAfter(o, 0, c)] == [ObjAfter(o, 0, c)];
    assert s.calls[0 := CallAfter(norm, o, c, false)] == [CallAfter(norm, o, c, false), second];
  }

  function Failing(n: nat): seq<Act> {
    if n == 0 then [] else Failing(n - 1) + [Act(0, false)]
  }

  lemma RunOneMore(norm: Normaliser, s: State, n: nat)
    ensures Run(norm, s, Failing(n + 1)) == Do(norm, Run(norm, s, Failing(n)), Act(0, false))
  {
    var acts := Failing(n + 1);
    assert acts[..|acts| - 1] == Failing(n);
  }

  function Beginning(issuer: string, first: Cert, second: Cert): State {
    State([], map[], [Waiting(issuer, first), Waiting(issuer, second)], {}, {})
  }

  lemma FindAndMake(norm: Normaliser, issuer: string, first: Cert, second: Cert, dp: string)
    ensures Run(norm, Beginning(issuer, first, second), Failing(2)) ==
            Working(ObjAt(issuer, first, dp, 0), CallAt(issuer, first, 0), Waiting(issuer, second))
  {
    var s0 := Beginning(issuer, first, second);
    RunOneMore(norm, s0, 0);
    RunOneMore(norm, s0, 1);
    assert Run(norm, s0, Failing(0)) == s0;
    var s1 := s0.(calls := [Waiting(issuer, first).(pc := Create), Waiting(issuer, second)]);
    assert Do(norm, s0, Act(0, false)) == s1;
    assert Do(norm, s1, Act(0, false)).calls == [CallAt(issuer, first, 0), Waiting(issuer, second)];
  }

  lemma {:induction false} RunAlone(norm: Normaliser, issuer: string, first: Cert, second: Cert, dp: string, k: nat)
    requires k <= 15 && first.dps == [dp] && norm(dp).Some?
    ensures Run(norm, Beginning(issuer, first, second), Failing(k + 2)) ==
            Working(ObjAt(issuer, first, dp, k), CallAt(issuer, first, k), Waiting(issuer, second))
  {
    if k == 0 {
      FindAndMake(norm, issuer, first, second, dp);
    } else {
      RunAlone(norm, issuer, first, second, dp, k - 1);
      RunOneMore(norm, Beginning(issuer, first, second), k + 1);
      ObjStep(issuer, first, dp, k - 1);
      CallStep(norm, issuer, first, dp, k - 1);
      WorkingStep(norm, ObjAt(issuer, first, dp, k - 1), CallAt(issuer, first, k - 1), Waiting(issuer, second));
    }
  }

  /** After the first call has failed, the second hopes only if its own distribution
      point is spelt differently. */
  lemma SecondHopes(norm: Normaliser, o: Obj, c: Call, second: Call, url: string)
    requires c.pc == Returned(false) && second.pc.Lookup? && second.issuer == c.issuer && o.issuer == c.issuer
    requires |second.cert.dps| == 1 && norm(second.cert.dps[0]) == Some(url) && second.i == 0
    ensures Hope(norm, CrlEntry(c.issuer, url), Working(o, c, second)) <==> second.cert.dps[0] !in o.crls
  {
    var s, e := Working(o, c, second), CrlEntry(c.issuer, url);
    assert !Hopes(norm, e, s, 0);
    assert ObjectOf(s, 1) == o by {
      assert !CreatePending(s, c.issuer);
    }
    assert Hopes(norm, e, s, 1) <==> UrlAhead(norm, o, Begun(second), url, 0);
  }

  /** From the start: the first call's insert fails and the call returns its error. A
      second call with the same distribution point never records the URL; one that
      spells the same URL differently still can. */
  lemma OnlyAnotherSpellingRepairs(norm: Normaliser, issuer: string, first: Cert, second: Cert,
                                   dp: string, other: string, url: string)
    requires first.dps == [dp] && second.dps == [other] && norm(dp) == Some(url) && norm(other) == Some(url)
    ensures var s0 := Beginning(issuer, first, second);
            var s := Run(norm, s0, Failing(17));
            && Starting(s0) && |s.calls| == 2 && s.calls[0].pc == Returned(false) && s.calls[1].pc.Lookup?
            && (CanStillBeRecorded(norm, s, CrlEntry(issuer, url)) <==> dp != other)
  {
    RunAlone(norm, issuer, first, second, dp, 15);
    SecondHopes(norm, ObjAt(issuer, first, dp, 15), CallAt(issuer, first, 15), Waiting(issuer, second), url);
    RecordedLaterExactlyWhenHope(norm, Beginning(issuer, first, second), Failing(17), CrlEntry(issuer, url));
  }
}
