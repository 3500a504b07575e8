/** Concurrent calls of `IssuerMetadata.Accumulate`, one atomic step per lock
    operation, map access or remote insert (storage/issuermetadata.go), on objects
    found or made by `GetIssuerMetadata` (storage/filesystemdatabase.go), which may
    race and make two objects for one issuer.
 */
module AccumulateProtocol {
  import opened Options
  import opened Runs

  datatype Cert = Cert(date: string, dn: string, dps: seq<string>)

  /** The next thing a call will do. */
  datatype Pc =
    | Lookup | Create
    | RLockFirst | ReadSeen | RUnlockFirst
    | LockDate | MarkDate | UnlockDate
    | RLockLoop | CheckDp
    | RUnlockDp | LockDp | MarkDp | UnlockDp | RLockDp | InsertDp
    | RUnlockErr | RUnlockEnd
    | LockDn | MarkDn | UnlockDn | InsertDn
    | Returned(ok: bool)

  datatype Call = Call(issuer: string, cert: Cert, pc: Pc, obj: nat, i: nat, seenDate: bool, seenDn: bool)

  /** An `IssuerMetadata`: its local maps, and who holds its read-write mutex. */
  datatype Obj = Obj(issuer: string, dates: set<string>, dns: set<string>, crls: set<string>,
                     readers: set<nat>, writer: Option<nat>)

  /** `crls` and `dns` are the remote sets, as (issuer, entry) pairs. */
  datatype State = State(objs: seq<Obj>, meta: map<string, nat>, calls: seq<Call>,
                         crls: set<(string, string)>, dns: set<(string, string)>)

  /** Call t takes a step; `ok` says whether a remote insert would succeed. */
  datatype Act = Act(t: nat, ok: bool)

  datatype Lock = Nothing | Read | Write

  function Held(pc: Pc): Lock {
    match pc
    case ReadSeen | RUnlockFirst | CheckDp | RUnlockDp | InsertDp | RUnlockErr | RUnlockEnd => Read
    case MarkDate | UnlockDate | MarkDp | UnlockDp | MarkDn | UnlockDn => Write
    case _ => Nothing
  }

  predicate Attached(c: Call) {
    !c.pc.Lookup? && !c.pc.Create?
  }

  predicate WantsRead(pc: Pc) {
    pc.RLockFirst? || pc.RLockLoop? || pc.RLockDp?
  }

  predicate WantsWrite(pc: Pc) {
    pc.LockDate? || pc.LockDp? || pc.LockDn?
  }

  /** Whether the mutex lets the call go on. */
  predicate Enabled(o: Obj, pc: Pc) {
    (WantsRead(pc) ==> o.writer.None?) && (WantsWrite(pc) ==> o.writer.None? && o.readers == {})
  }

  function ObjAfter(o: Obj, t: nat, c: Call): Obj {
    match c.pc
    case RLockFirst | RLockLoop | RLockDp => o.(readers := o.readers + {t})
    case RUnlockFirst | RUnlockDp | RUnlockErr | RUnlockEnd => o.(readers := o.readers - {t})
    case LockDate | LockDp | LockDn => o.(writer := Some(t))
    case UnlockDate | UnlockDp | UnlockDn => o.(writer := None)
    case MarkDate => o.(dates := o.dates + {c.cert.date})
    case MarkDp => if c.i < |c.cert.dps| then o.(crls := o.crls + {c.cert.dps[c.i]}) else o
    case MarkDn => o.(dns := o.dns + {c.cert.dn})
    case _ => o
  }

  function NextPc(norm: Normaliser, o: Obj, c: Call, ok: bool): Pc {
    match c.pc
    case RLockFirst => ReadSeen
    case ReadSeen => RUnlockFirst
    case RUnlockFirst => if c.seenDate then RLockLoop else LockDate
    case LockDate => MarkDate
    case MarkDate => UnlockDate
    case UnlockDate => RLockLoop
    case RLockLoop => CheckDp
    case CheckDp =>
      if c.i >= |c.cert.dps| then RUnlockEnd else if c.cert.dps[c.i] in o.crls then CheckDp else RUnlockDp
    case RUnlockDp => LockDp
    case LockDp => MarkDp
    case MarkDp => UnlockDp
    case UnlockDp => RLockDp
    case RLockDp => InsertDp
    case InsertDp => if !ok && Url(norm, c).Some? then RUnlockErr else CheckDp
    case RUnlockErr => Returned(false)
    case RUnlockEnd => if c.seenDn then Returned(true) else LockDn
    case LockDn => MarkDn
    case MarkDn => UnlockDn
    case UnlockDn => InsertDn
    case InsertDn => Returned(ok)
    case _ => c.pc
  }

  /** The loop index after a step: a distribution point is done with when it is found
      known, or when its insert has not failed. */
  function NextI(norm: Normaliser, o: Obj, c: Call, ok: bool): nat {
    if c.pc.RLockLoop? then 0
    else if (c.pc.CheckDp? || c.pc.InsertDp?) && NextPc(norm, o, c, ok).CheckDp? then c.i + 1
    else c.i
  }

  function CallAfter(norm: Normaliser, o: Obj, c: Call, ok: bool): Call {
    Call(c.issuer, c.cert, NextPc(norm, o, c, ok), c.obj, NextI(norm, o, c, ok),
         if c.pc.ReadSeen? then c.cert.date in o.dates else c.seenDate,
         if c.pc.ReadSeen? then c.cert.dn in o.dns else c.seenDn)
  }

  function Url(norm: Normaliser, c: Call): Option<string> {
    if c.i < |c.cert.dps| then norm(c.cert.dps[c.i]) else None
  }

  function NewCrls(norm: Normaliser, c: Call, ok: bool): set<(string, string)> {
    if c.pc.InsertDp? && ok && Url(norm, c).Some? then {(c.issuer, Url(norm, c).value)} else {}
  }

  function NewDns(c: Call, ok: bool): set<(string, string)> {
    if c.pc.InsertDn? && ok then {(c.issuer, c.cert.dn)} else {}
  }

  /** `GetIssuerMetadata`: a look under the read lock, then, if that found nothing, a
      new object stored under the write lock whatever happened in between. */
  function Find(s: State, t: nat): State
    requires t < |s.calls| && !Attached(s.calls[t])
  {
    var c := s.calls[t];
    if c.pc.Create?
    then s.(objs := s.objs + [Obj(c.issuer, {}, {}, {}, {}, None)], meta := s.meta[c.issuer := |s.objs|],
            calls := s.calls[t := c.(pc := RLockFirst, obj := |s.objs|)])
    else if c.issuer in s.meta then s.(calls := s.calls[t := c.(pc := RLockFirst, obj := s.meta[c.issuer])])
    else s.(calls := s.calls[t := c.(pc := Create)])
  }

  function Proceed(norm: Normaliser, s: State, t: nat, ok: bool): State
    requires t < |s.calls| && s.calls[t].obj < |s.objs|
  {
    var c := s.calls[t];
    var o := s.objs[c.obj];
    s.(objs := s.objs[c.obj := ObjAfter(o, t, c)], calls := s.calls[t := CallAfter(norm, o, c, ok)],
       crls := s.crls + NewCrls(norm, c, ok), dns := s.dns + NewDns(c, ok))
  }

  function Do(norm: Normaliser, s: State, a: Act): State {
    if a.t >= |s.calls| then s
    else if !Attached(s.calls[a.t]) then Find(s, a.t)
    else if s.calls[a.t].obj < |s.objs| && Enabled(s.objs[s.calls[a.t].obj], s.calls[a.t].pc)
    then Proceed(norm, s, a.t, a.ok)
    else s
  }

  function Run(norm: Normaliser, s: State, acts: seq<Act>): State {
    After((v: State, a: Act) => Do(norm, v, a), s, acts)
  }

  /** No objects yet, every call at its beginning; the remote sets hold anything. */
  predicate Starting(s: State) {
    s.objs == [] && s.meta == map[] && forall c <- s.calls :: c.pc.Lookup? && c.i == 0
  }

  // -------------------------------------------------------------- lock discipline

  /** Call t holds lock k of object o. */
  predicate Holds(s: State, t: nat, o: nat, k: Lock) {
    t < |s.calls| && Attached(s.calls[t]) && s.calls[t].obj == o && Held(s.calls[t].pc) == k
  }

  ghost predicate ObjInv(s: State, o: nat)
    requires o < |s.objs|
  {
    && (forall t: nat :: t in s.objs[o].readers <==> Holds(s, t, o, Read))
    && (forall t: nat :: s.objs[o].writer == Some(t) <==> Holds(s, t, o, Write))
    && (s.objs[o].writer.Some? ==> s.objs[o].readers == {})
  }

  predicate CallInv(s: State, t: nat)
    requires t < |s.calls|
  {
    Attached(s.calls[t]) ==> s.calls[t].obj < |s.objs| && s.objs[s.calls[t].obj].issuer == s.calls[t].issuer
  }

  ghost predicate LockInv(s: State) {
    && (forall o: nat | o < |s.objs| :: ObjInv(s, o))
    && (forall t: nat | t < |s.calls| :: CallInv(s, t))
    && (forall k <- s.meta :: s.meta[k] < |s.objs| && s.objs[s.meta[k]].issuer == k)
  }

  lemma FindKeepsLockInv(s: State, t: nat)
    requires LockInv(s) && t < |s.calls| && !Attached(s.calls[t])
    ensures LockInv(Find(s, t))
  {
    var s' := Find(s, t);
    forall o: nat | o < |s'.objs| ensures ObjInv(s', o) {
      assert forall u: nat, k: Lock | k != Nothing :: Holds(s', u, o, k) <==> Holds(s, u, o, k);
      if o < |s.objs| {
        assert ObjInv(s, o);
      } else {
        forall u: nat, k: Lock ensures !Holds(s, u, o, k) {
          if u < |s.calls| { assert CallInv(s, u); }
        }
      }
    }
    forall u: nat | u < |s'.calls| ensures CallInv(s', u) {
      assert CallInv(s, u);
    }
  }

  lemma ProceedKeepsOtherObj(norm: Normaliser, s: State, t: nat, ok: bool, o: nat)
    requires LockInv(s) && t < |s.calls| && Attached(s.calls[t]) && o < |s.objs|
    requires s.calls[t].obj < |s.objs| && s.calls[t].obj != o
    ensures ObjInv(Proceed(norm, s, t, ok), o)
  {
    var s' := Proceed(norm, s, t, ok);
    assert ObjInv(s, o);
    assert forall u: nat, k: Lock :: Holds(s', u, o, k) <==> Holds(s, u, o, k);
  }

  lemma ProceedKeepsOwnObj(norm: Normaliser, s: State, t: nat, ok: bool)
    requires LockInv(s) && t < |s.calls| && Attached(s.calls[t]) && s.calls[t].obj < |s.objs|
    requires Enabled(s.objs[s.calls[t].obj], s.calls[t].pc)
    ensures ObjInv(Proceed(norm, s, t, ok), s.calls[t].obj)
  {
    var s', c := Proceed(norm, s, t, ok), s.calls[t];
    var o := c.obj;
    assert ObjInv(s, o);
    forall u: nat, k: Lock | u != t ensures Holds(s', u, o, k) <==> Holds(s, u, o, k) {}
    LocksMoveTogether(norm, s.objs[o], t, c, ok);
    assert Holds(s, t, o, Held(c.pc));
    assert Holds(s', t, o, Held(CallAfter(norm, s.objs[o], c, ok).pc));
  }

  predicate Unlocks(pc: Pc) {
    pc.RUnlockFirst? || pc.RUnlockDp? || pc.RUnlockErr? || pc.RUnlockEnd? ||
    pc.UnlockDate? || pc.UnlockDp? || pc.UnlockDn?
  }

  function HeldNext(pc: Pc): Lock {
    if WantsRead(pc) then Read else if WantsWrite(pc) then Write else if Unlocks(pc) then Nothing else Held(pc)
  }

  lemma CallMovesOn(norm: Normaliser, o: Obj, c: Call, ok: bool)
    requires Attached(c)
    ensures var c' := CallAfter(norm, o, c, ok);
            && Held(c'.pc) == HeldNext(c.pc) && Attached(c')
            && c'.obj == c.obj && c'.issuer == c.issuer && c'.cert == c.cert
  {
  }

  lemma ObjMovesOn(o: Obj, t: nat, c: Call)
    requires Attached(c) && Enabled(o, c.pc)
    ensures var o' := ObjAfter(o, t, c);
            && o'.issuer == o.issuer && o.dates <= o'.dates && o.dns <= o'.dns && o.crls <= o'.crls
            && (WantsRead(c.pc) ==> o'.readers == o.readers + {t} && o'.writer == None)
            && (WantsWrite(c.pc) ==> o'.readers == {} && o'.writer == Some(t))
            && (Unlocks(c.pc) && Held(c.pc) == Read ==> o'.readers == o.readers - {t} && o'.writer == o.writer)
            && (Unlocks(c.pc) && Held(c.pc) == Write ==> o'.readers == o.readers && o'.writer == None)
            && (!WantsRead(c.pc) && !WantsWrite(c.pc) && !Unlocks(c.pc) ==>
                  o'.readers == o.readers && o'.writer == o.writer)
  {
  }

  /** A step changes what the mutex records of t exactly as it changes what t holds. */
  lemma LocksMoveTogether(norm: Normaliser, o: Obj, t: nat, c: Call, ok: bool)
    requires Attached(c) && Enabled(o, c.pc)
    requires t in o.readers <==> Held(c.pc) == Read
    requires o.writer == Some(t) <==> Held(c.pc) == Write
    requires o.writer.Some? ==> o.readers == {}
    ensures var o', c' := ObjAfter(o, t, c), CallAfter(norm, o, c, ok);
            && (t in o'.readers <==> Held(c'.pc) == Read) && (o'.writer == Some(t) <==> Held(c'.pc) == Write)
            && o'.readers - {t} == o.readers - {t}
            && (forall u: nat | u != t :: o'.writer == Some(u) <==> o.writer == Some(u))
            && (o'.writer.Some? ==> o'.readers == {})
            && Attached(c') && c'.obj == c.obj && c'.issuer == c.issuer && c'.cert == c.cert
            && o'.issuer == o.issuer
  {
    CallMovesOn(norm, o, c, ok);
    ObjMovesOn(o, t, c);
    UnlocksWhatItHolds(c.pc);
  }

  lemma UnlocksWhatItHolds(pc: Pc)
    ensures Unlocks(pc) ==> Held(pc) != Nothing && !WantsRead(pc) && !WantsWrite(pc)
    ensures WantsRead(pc) || WantsWrite(pc) ==> Held(pc) == Nothing
  {
  }

  lemma DoKeepsLockInv(norm: Normaliser, s: State, a: Act)
    requires LockInv(s)
    ensures LockInv(Do(norm, s, a))
  {
    var s' := Do(norm, s, a);
    if a.t < |s.calls| {
      assert CallInv(s, a.t);
      if !Attached(s.calls[a.t]) {
        FindKeepsLockInv(s, a.t);
      } else if Enabled(s.objs[s.calls[a.t].obj], s.calls[a.t].pc) {
        var o := s.calls[a.t].obj;
        assert ObjInv(s, o) && Holds(s, a.t, o, Held(s.calls[a.t].pc));
        LocksMoveTogether(norm, s.objs[o], a.t, s.calls[a.t], a.ok);
        forall p: nat | p < |s'.objs| ensures ObjInv(s', p) {
          if p == o { ProceedKeepsOwnObj(norm, s, a.t, a.ok); }
          else { ProceedKeepsOtherObj(norm, s, a.t, a.ok, p); }
        }
        forall u: nat | u < |s'.calls| ensures CallInv(s', u) {
          assert CallInv(s, u);
        }
      }
    }
  }

  lemma {:induction false} ReachableLockInv(norm: Normaliser, s: State, acts: seq<Act>)
    requires Starting(s)
    ensures LockInv(Run(norm, s, acts))
  {
    if acts == [] {
      forall t: nat | t < |s.calls| ensures CallInv(s, t) {
        assert s.calls[t] in s.calls;
      }
    } else {
      ReachableLockInv(norm, s, acts[..|acts| - 1]);
      DoKeepsLockInv(norm, Run(norm, s, acts[..|acts| - 1]), acts[|acts| - 1]);
    }
  }

  predicate WritesMap(pc: Pc) {
    pc.MarkDate? || pc.MarkDp? || pc.MarkDn?
  }

  predicate ReadsMap(pc: Pc) {
    pc.ReadSeen? || pc.CheckDp?
  }

  predicate SameObj(s: State, t: nat, u: nat) {
    && t < |s.calls| && u < |s.calls| && t != u && Attached(s.calls[t]) && Attached(s.calls[u])
    && s.calls[t].obj == s.calls[u].obj
  }

  /** Some call waits for the write lock of an object. */
  predicate WriterWaits(s: State, o: nat) {
    exists u: nat :: u < |s.calls| && Attached(s.calls[u]) && s.calls[u].obj == o && WantsWrite(s.calls[u].pc)
  }

  /** A call that could take a step even if a waiting writer keeps new readers out, as
      Go's mutex does once the writer has announced itself. */
  predicate CanMove(s: State, t: nat) {
    t < |s.calls| && !s.calls[t].pc.Returned? &&
    (Attached(s.calls[t]) ==>
      && s.calls[t].obj < |s.objs| && Enabled(s.objs[s.calls[t].obj], s.calls[t].pc)
      && (WantsRead(s.calls[t].pc) ==> !WriterWaits(s, s.calls[t].obj)))
  }

  /** Whatever the distribution points, the interleaving and the failing inserts: a
      map is written only by the one holder of its write lock, with no one else
      holding or reading; a call that asks for a lock, or has returned, holds none;
      and while any call has not returned, some call can move, even if waiting writers
      come before new readers. */
  lemma LocksAreDisciplined(norm: Normaliser, s0: State, acts: seq<Act>)
    requires Starting(s0)
    ensures var s := Run(norm, s0, acts);
            && (forall t: nat, u: nat | SameObj(s, t, u) && WritesMap(s.calls[t].pc) ::
                  Held(s.calls[u].pc) == Nothing && !ReadsMap(s.calls[u].pc) && !WritesMap(s.calls[u].pc))
            && (forall t: nat, o: nat | t < |s.calls| && o < |s.objs| &&
                  (WantsRead(s.calls[t].pc) || WantsWrite(s.calls[t].pc) || s.calls[t].pc.Returned?) ::
                  t !in s.objs[o].readers && s.objs[o].writer != Some(t))
            && ((exists t: nat :: t < |s.calls| && !s.calls[t].pc.Returned?) ==> exists u: nat :: CanMove(s, u))
  {
    ReachableLockInv(norm, s0, acts);
    var s := Run(norm, s0, acts);
    forall t: nat, u: nat | SameObj(s, t, u) && WritesMap(s.calls[t].pc)
      ensures Held(s.calls[u].pc) == Nothing && !ReadsMap(s.calls[u].pc) && !WritesMap(s.calls[u].pc)
    {
      WriterIsAlone(s, t, u);
    }
    forall t: nat, o: nat | t < |s.calls| && o < |s.objs| &&
      (WantsRead(s.calls[t].pc) || WantsWrite(s.calls[t].pc) || s.calls[t].pc.Returned?)
      ensures t !in s.objs[o].readers && s.objs[o].writer != Some(t)
    {
      assert ObjInv(s, o);
    }
    if t: nat :| t < |s.calls| && !s.calls[t].pc.Returned? {
      var u := SomeoneCanMove(s, t);
    }
  }

  lemma WriterIsAlone(s: State, t: nat, u: nat)
    requires LockInv(s) && SameObj(s, t, u) && Held(s.calls[t].pc) == Write
    ensures Held(s.calls[u].pc) == Nothing
  {
    var o := s.calls[t].obj;
    assert CallInv(s, t) && ObjInv(s, o);
    assert Holds(s, t, o, Write) && Holds(s, u, o, Held(s.calls[u].pc));
  }

  /** A holder is not waiting for anything. */
  lemma HolderCanMove(s: State, u: nat, o: nat)
    requires LockInv(s) && o < |s.objs| && (Holds(s, u, o, Read) || Holds(s, u, o, Write))
    ensures CanMove(s, u)
  {
    assert CallInv(s, u);
    UnlocksWhatItHolds(s.calls[u].pc);
  }

  lemma SomeoneCanMove(s: State, t: nat) returns (u: nat)
    requires LockInv(s) && t < |s.calls| && !s.calls[t].pc.Returned?
    ensures CanMove(s, u)
  {
    u := t;
    assert CallInv(s, t);
    if Attached(s.calls[t]) {
      var o := s.calls[t].obj;
      assert ObjInv(s, o);
      if s.objs[o].writer.Some? {
        u := s.objs[o].writer.value;
        HolderCanMove(s, u, o);
      } else if s.objs[o].readers != {} {
        u :| u in s.objs[o].readers;
        HolderCanMove(s, u, o);
      } else if WantsRead(s.calls[t].pc) && WriterWaits(s, o) {
        u :| u < |s.calls| && Attached(s.calls[u]) && s.calls[u].obj == o && WantsWrite(s.calls[u].pc);
      }
    }
  }
}
