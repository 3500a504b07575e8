/** What a failure-free `FilesystemDatabase.Store` does to the in-memory cache and
    backend, as one function of the database's state, and what every sequence of
    stores keeps (storage/filesystemdatabase.go, storage/issuermetadata.go,
    storage/mockcache.go, storage/mockbackend.go).
 */
module DatabaseSpec {
  import opened Options
  import opened Base64
  import opened SortedSlices
  import opened MockCache
  import opened KnownCertificates
  import opened Identifiers
  import opened Calendar

  /** What `Store` reads of a certificate and of its issuer. */
  datatype Cert = Cert(notAfter: int, digest: seq<byte>, serial: seq<byte>, raw: string, dn: string, dps: seq<string>)

  /** A SHA-256 digest, and a date whose year has four digits. */
  predicate Storable(c: Cert) {
    |c.digest| == 32 && c.notAfter >= 0 && InRange(c.notAfter / HOUR)
  }

  /** The local maps of one `IssuerMetadata`. */
  datatype Meta = Meta(dates: set<string>, dns: set<string>, crls: set<string>)

  /** What the backend has been asked to do, in order. */
  datatype Event = Allocated(date: string, issuer: string) | WrotePem(date: string, issuer: string, serial: seq<byte>)

  datatype Db = Db(sets: map<string, seq<string>>, meta: map<string, Meta>,
                   issuers: map<string, seq<string>>, lists: map<string, seq<seq<byte>>>,
                   pems: map<string, string>, log: seq<Event>)

  function EmptyDb(): Db {
    Db(map[], map[], map[], map[], map[], [])
  }

  // ------------------------------------------------------------------ one store

  function InsertInto(sets: map<string, seq<string>>, key: string, entry: string): map<string, seq<string>> {
    sets[key := Inserted(Entries(sets, key), entry)]
  }

  function CrlKey(issuer: string): string {
    "crl::" + issuer
  }

  function IssuersKey(issuer: string): string {
    "issuer::" + issuer
  }

  function AddCrl(norm: Normaliser, sets: map<string, seq<string>>, key: string, dp: string): map<string, seq<string>> {
    if norm(dp).Some? then InsertInto(sets, key, norm(dp).value) else sets
  }

  /** The loop over the distribution points: the remote sets and the local map after it. */
  function AddCrls(norm: Normaliser, sets: map<string, seq<string>>, known: set<string>, key: string,
                   dps: seq<string>): (map<string, seq<string>>, set<string>)
    decreases |dps|
  {
    if dps == [] then (sets, known)
    else if dps[0] in known then AddCrls(norm, sets, known, key, dps[1..])
    else AddCrls(norm, AddCrl(norm, sets, key, dps[0]), known + {dps[0]}, key, dps[1..])
  }

  /** `Accumulate`: its effect on the remote sets and on its object. */
  function Accumulated(norm: Normaliser, sets: map<string, seq<string>>, m: Meta, issuer: string,
                       date: string, c: Cert): (map<string, seq<string>>, Meta)
  {
    var (sets1, crls) := AddCrls(norm, sets, m.crls, CrlKey(issuer), c.dps);
    (if c.dn in m.dns then sets1 else InsertInto(sets1, IssuersKey(issuer), c.dn),
     Meta(m.dates + {date}, m.dns + {c.dn}, crls))
  }

  function MetaOf(meta: map<string, Meta>, issuer: string): Meta {
    if issuer in meta then meta[issuer] else Meta({}, {}, {})
  }

  function ListOf(lists: map<string, seq<seq<byte>>>, key: string): seq<seq<byte>> {
    if key in lists then lists[key] else []
  }

  function PemKey(date: string, issuer: string, serial: seq<byte>): string {
    "pem" + date + issuer + Encode(serial)
  }

  function Allocate(db: Db, date: string, issuer: string): Db {
    db.(issuers := db.issuers[date := Inserted(Entries(db.issuers, date), issuer)],
        log := db.log + [Allocated(date, issuer)])
  }

  function WritePem(db: Db, date: string, issuer: string, serial: seq<byte>, raw: string): Db {
    db.(pems := db.pems[PemKey(date, issuer, serial) := raw],
        lists := db.lists[date + issuer := ListOf(db.lists, date + issuer) + [serial]],
        log := db.log + [WrotePem(date, issuer, serial)])
  }

  function SetKey(date: string, issuer: string): string {
    SERIALS + "::" + (date + "::" + issuer)
  }

  predicate IsNew(db: Db, d: string, i: string, c: Cert) {
    BinaryString(c.serial) !in Entries(db.sets, SetKey(d, i))
  }

  /** After `WasUnknown`. */
  function SerialInserted(db: Db, d: string, i: string, c: Cert): Db {
    db.(sets := InsertInto(db.sets, SetKey(d, i), BinaryString(c.serial)))
  }

  lemma SerialInsertedParts(db: Db, db': Db, d: string, i: string, c: Cert, key: string, b: string)
    requires key == SetKey(d, i) && b == BinaryString(c.serial)
    requires db' == db.(sets := db.sets[key := Inserted(Entries(db.sets, key), b)])
    ensures db' == SerialInserted(db, d, i, c)
  {
  }

  /** After `Accumulate`. */
  function AccumulatedIn(norm: Normaliser, db: Db, d: string, i: string, c: Cert): Db {
    var (sets, m) := Accumulated(norm, db.sets, MetaOf(db.meta, i), i, d, c);
    db.(sets := sets, meta := db.meta[i := m])
  }

  /** After the allocation, if the date was new to the issuer, and the PEM. */
  function WrittenNew(db: Db, seen: bool, d: string, i: string, c: Cert): Db {
    WritePem(if seen then db else Allocate(db, d, i), d, i, c.serial, c.raw)
  }

  /** A store into the bucket of a date ID and an issuer ID. */
  function StoredIn(norm: Normaliser, db: Db, d: string, i: string, c: Cert): Db {
    var inserted := SerialInserted(db, d, i, c);
    if !IsNew(db, d, i, c) then inserted
    else WrittenNew(AccumulatedIn(norm, inserted, d, i, c), d in MetaOf(db.meta, i).dates, d, i, c)
  }

  function DateOfCert(c: Cert): string
    requires Storable(c)
  {
    var e := NewExpDateFromTime(c.notAfter);
    assert e.date / HOUR == c.notAfter / HOUR;
    DateId(e)
  }

  function Stored(norm: Normaliser, db: Db, c: Cert): Db
    requires Storable(c)
  {
    StoredIn(norm, db, DateOfCert(c), DigestId(c.digest), c)
  }

  function StoreAll(norm: Normaliser, db: Db, cs: seq<Cert>): Db
    requires forall c <- cs :: Storable(c)
  {
    if cs == [] then db else Stored(norm, StoreAll(norm, db, cs[..|cs| - 1]), cs[|cs| - 1])
  }

  // ------------------------------------------------------------------ invariant

  /** IDs as `Store` makes them: an hour of 13 characters, a digest of 44. */
  predicate Ids(d: string, i: string) {
    |d| == 13 && |i| == 44
  }

  predicate NoRepeats(list: seq<seq<byte>>) {
    forall j, k | 0 <= j < k < |list| :: list[j] != list[k]
  }

  function Serials(db: Db, d: string, i: string): seq<seq<byte>> {
    ListOf(db.lists, d + i)
  }

  /** The backend lists a bucket's serials once each, the same as the remote set. */
  ghost predicate ListInv(db: Db, d: string, i: string) {
    && NoRepeats(Serials(db, d, i))
    && (forall s: seq<byte> :: s in Serials(db, d, i) <==> BinaryString(s) in Entries(db.sets, SetKey(d, i)))
  }

  /** And the same as the stored PEMs. */
  ghost predicate PemInv(db: Db, d: string, i: string) {
    forall s: seq<byte> :: s in Serials(db, d, i) <==> PemKey(d, i, s) in db.pems
  }

  /** A bucket has serials exactly when its issuer is listed for its date, which is
      when the issuer's object has seen the date; and then it has been allocated. */
  predicate AllocInv(db: Db, d: string, i: string) {
    && (Serials(db, d, i) != [] <==> i in Entries(db.issuers, d))
    && (Serials(db, d, i) != [] <==> d in MetaOf(db.meta, i).dates)
    && (Serials(db, d, i) != [] ==> Allocated(d, i) in db.log)
  }

  ghost predicate BucketInv(db: Db, d: string, i: string) {
    ListInv(db, d, i) && PemInv(db, d, i) && AllocInv(db, d, i)
  }

  predicate AllocatedAt(log: seq<Event>, p: int, d: string, i: string) {
    0 <= p < |log| && log[p] == Allocated(d, i)
  }

  /** Every bucket is allocated before its first PEM is written. */
  ghost predicate AllocatedFirst(log: seq<Event>) {
    forall p | 0 <= p < |log| && log[p].WrotePem? ::
      exists q :: q < p && AllocatedAt(log, q, log[p].date, log[p].issuer)
  }

  predicate Slices(m: map<string, seq<string>>) {
    forall k <- m :: Sorted(m[k])
  }

  ghost predicate DbInv(db: Db) {
    && Slices(db.sets) && Slices(db.issuers)
    && (forall d, i | |d| == 13 && i in Entries(db.issuers, d) :: |i| == 44)
    && AllocatedFirst(db.log)
    && forall d, i | Ids(d, i) :: BucketInv(db, d, i)
  }

  // --------------------------------------------------------------- preservation

  lemma BucketKeysAreApart(d: string, i: string, d': string, i': string)
    requires Ids(d, i) && Ids(d', i')
    ensures SetKey(d, i) == SetKey(d', i') <==> d == d' && i == i'
    ensures d + i == d' + i' <==> d == d' && i == i'
  {
    EqualHalves(d, i, d', i');
    EqualHalves(SERIALS + "::", d + "::" + i, SERIALS + "::", d' + "::" + i');
    EqualHalves(d + "::", i, d' + "::", i');
    EqualHalves(d, "::", d', "::");
  }

  lemma PemKeysAreApart(d: string, i: string, s: seq<byte>, d': string, i': string, s': seq<byte>)
    requires Ids(d, i) && Ids(d', i')
    ensures PemKey(d, i, s) == PemKey(d', i', s') <==> d == d' && i == i' && s == s'
  {
    EqualHalves("pem" + d + i, Encode(s), "pem" + d' + i', Encode(s'));
    EqualHalves("pem" + d, i, "pem" + d', i');
    EqualHalves("pem", d, "pem", d');
    DecodeUndoesEncode(s);
    DecodeUndoesEncode(s');
  }

  lemma OtherSetsApart(d: string, i: string, x: string)
    ensures SetKey(d, i) != CrlKey(x) && SetKey(d, i) != IssuersKey(x)
  {
    assert SetKey(d, i)[0] == 's' && CrlKey(x)[0] == 'c' && IssuersKey(x)[0] == 'i';
  }

  lemma InsertIntoKeepsSlices(sets: map<string, seq<string>>, key: string, entry: string)
    requires Slices(sets)
    ensures Slices(InsertInto(sets, key, entry))
    ensures forall x :: x in Entries(InsertInto(sets, key, entry), key) <==> x in Entries(sets, key) || x == entry
  {
    InsertedIsSet(Entries(sets, key), entry);
  }

  lemma {:induction false} AddCrlsTouchesItsKey(norm: Normaliser, sets: map<string, seq<string>>, known: set<string>,
                                                key: string, dps: seq<string>)
    requires Slices(sets)
    ensures Slices(AddCrls(norm, sets, known, key, dps).0)
    ensures forall k | k != key :: Entries(AddCrls(norm, sets, known, key, dps).0, k) == Entries(sets, k)
    decreases |dps|
  {
    if dps == [] {
    } else {
      if dps[0] in known {
        AddCrlsTouchesItsKey(norm, sets, known, key, dps[1..]);
      } else {
        if norm(dps[0]).Some? { InsertIntoKeepsSlices(sets, key, norm(dps[0]).value); }
        AddCrlsTouchesItsKey(norm, AddCrl(norm, sets, key, dps[0]), known + {dps[0]}, key, dps[1..]);
      }
    }
  }

  lemma AccumulatedTouchesItsKeys(norm: Normaliser, sets: map<string, seq<string>>, m: Meta,
                                  i: string, d: string, c: Cert)
    requires Slices(sets)
    ensures Slices(Accumulated(norm, sets, m, i, d, c).0)
    ensures forall k | k != CrlKey(i) && k != IssuersKey(i) ::
              Entries(Accumulated(norm, sets, m, i, d, c).0, k) == Entries(sets, k)
  {
    AddCrlsTouchesItsKey(norm, sets, m.crls, CrlKey(i), c.dps);
    InsertIntoKeepsSlices(AddCrls(norm, sets, m.crls, CrlKey(i), c.dps).0, IssuersKey(i), c.dn);
  }

  /** What a store does to the remote sets of serials. */
  ghost predicate SetsStep(db: Db, db': Db, d: string, i: string, c: Cert) {
    && Slices(db'.sets)
    && (forall x :: x in Entries(db'.sets, SetKey(d, i)) <==>
          x in Entries(db.sets, SetKey(d, i)) || x == BinaryString(c.serial))
    && (forall d', i' | SetKey(d', i') != SetKey(d, i) ::
          Entries(db'.sets, SetKey(d', i')) == Entries(db.sets, SetKey(d', i')))
  }

  lemma StoreDoesSetsStep(norm: Normaliser, db: Db, d: string, i: string, c: Cert)
    requires Slices(db.sets)
    ensures SetsStep(db, StoredIn(norm, db, d, i, c), d, i, c)
  {
    var key, b := SetKey(d, i), BinaryString(c.serial);
    InsertIntoKeepsSlices(db.sets, key, b);
    AccumulatedTouchesItsKeys(norm, InsertInto(db.sets, key, b), MetaOf(db.meta, i), i, d, c);
    forall d', i' ensures SetKey(d', i') != CrlKey(i) && SetKey(d', i') != IssuersKey(i) {
      OtherSetsApart(d', i', i);
    }
  }

  /** What the store of a new certificate does to everything else. */
  ghost predicate NewStep(db: Db, db': Db, d: string, i: string, c: Cert) {
    var seen := d in MetaOf(db.meta, i).dates;
    && db'.lists == db.lists[d + i := Serials(db, d, i) + [c.serial]]
    && db'.pems == db.pems[PemKey(d, i, c.serial) := c.raw]
    && db'.issuers == (if seen then db.issuers else db.issuers[d := Inserted(Entries(db.issuers, d), i)])
    && db'.log == db.log + (if seen then [] else [Allocated(d, i)]) + [WrotePem(d, i, c.serial)]
    && MetaOf(db'.meta, i).dates == MetaOf(db.meta, i).dates + {d}
    && (forall x | x != i :: MetaOf(db'.meta, x) == MetaOf(db.meta, x))
  }

  lemma StoreDoesNewStep(norm: Normaliser, db: Db, d: string, i: string, c: Cert)
    ensures if IsNew(db, d, i, c) then NewStep(db, StoredIn(norm, db, d, i, c), d, i, c)
            else StoredIn(norm, db, d, i, c) == db.(sets := StoredIn(norm, db, d, i, c).sets)
  {
  }

  lemma OwnListKept(db: Db, db': Db, d: string, i: string, c: Cert)
    requires ListInv(db, d, i) && SetsStep(db, db', d, i, c) && IsNew(db, d, i, c) && NewStep(db, db', d, i, c)
    ensures ListInv(db', d, i)
  {
    var list := Serials(db, d, i);
    assert Serials(db', d, i) == list + [c.serial] && c.serial !in list;
    forall s: seq<byte> ensures s in list + [c.serial] <==> BinaryString(s) in Entries(db'.sets, SetKey(d, i)) {
      BinaryStringIsReversible(s);
      BinaryStringIsReversible(c.serial);
    }
  }

  lemma OwnPemsKept(db: Db, db': Db, d: string, i: string, c: Cert)
    requires PemInv(db, d, i) && Ids(d, i) && NewStep(db, db', d, i, c)
    ensures PemInv(db', d, i)
  {
    assert Serials(db', d, i) == Serials(db, d, i) + [c.serial];
    forall s: seq<byte> ensures s in Serials(db', d, i) <==> PemKey(d, i, s) in db'.pems {
      PemKeysAreApart(d, i, s, d, i, c.serial);
    }
  }

  lemma OwnAllocKept(db: Db, db': Db, d: string, i: string, c: Cert)
    requires AllocInv(db, d, i) && Slices(db.issuers) && NewStep(db, db', d, i, c)
    ensures AllocInv(db', d, i)
  {
    InsertedIsSet(Entries(db.issuers, d), i);
    assert Serials(db', d, i) == Serials(db, d, i) + [c.serial];
    if d !in MetaOf(db.meta, i).dates {
      assert db'.log[|db.log|] == Allocated(d, i);
    }
  }

  lemma OtherListKept(db: Db, db': Db, d: string, i: string, c: Cert, d': string, i': string)
    requires BucketInv(db, d', i') && SetsStep(db, db', d, i, c) && NewStep(db, db', d, i, c)
    requires Ids(d, i) && Ids(d', i') && !(d == d' && i == i')
    ensures ListInv(db', d', i') && PemInv(db', d', i') && Serials(db', d', i') == Serials(db, d', i')
  {
    BucketKeysAreApart(d, i, d', i');
    assert Entries(db'.sets, SetKey(d', i')) == Entries(db.sets, SetKey(d', i'));
    forall s: seq<byte> ensures PemKey(d', i', s) in db'.pems <==> PemKey(d', i', s) in db.pems {
      PemKeysAreApart(d', i', s, d, i, c.serial);
    }
  }

  lemma OtherAllocKept(db: Db, db': Db, d: string, i: string, c: Cert, d': string, i': string)
    requires AllocInv(db, d', i') && Slices(db.issuers) && NewStep(db, db', d, i, c)
    requires Serials(db', d', i') == Serials(db, d', i') && !(d == d' && i == i')
    ensures AllocInv(db', d', i')
  {
    InsertedIsSet(Entries(db.issuers, d), i);
  }

  lemma SetsOnlyKept(db: Db, db': Db, d: string, i: string, c: Cert, d': string, i': string)
    requires BucketInv(db, d', i') && SetsStep(db, db', d, i, c) && !IsNew(db, d, i, c) && db' == db.(sets := db'.sets)
    ensures BucketInv(db', d', i')
  {
    assert forall x :: x in Entries(db'.sets, SetKey(d', i')) <==> x in Entries(db.sets, SetKey(d', i'));
  }

  lemma BucketKept(db: Db, db': Db, d: string, i: string, c: Cert, d': string, i': string)
    requires DbInv(db) && SetsStep(db, db', d, i, c) && Ids(d, i) && Ids(d', i')
    requires if IsNew(db, d, i, c) then NewStep(db, db', d, i, c) else db' == db.(sets := db'.sets)
    ensures BucketInv(db', d', i')
  {
    assert BucketInv(db, d', i');
    if !IsNew(db, d, i, c) {
      SetsOnlyKept(db, db', d, i, c, d', i');
    } else if d == d' && i == i' {
      OwnListKept(db, db', d, i, c);
      OwnPemsKept(db, db', d, i, c);
      OwnAllocKept(db, db', d, i, c);
    } else {
      OtherListKept(db, db', d, i, c, d', i');
      OtherAllocKept(db, db', d, i, c, d', i');
    }
  }

  lemma LogKept(db: Db, db': Db, d: string, i: string, c: Cert)
    requires AllocatedFirst(db.log) && AllocInv(db, d, i) && NewStep(db, db', d, i, c)
    ensures AllocatedFirst(db'.log)
  {
    var log, last := db'.log, |db'.log| - 1;
    forall p | 0 <= p < |log| && log[p].WrotePem?
      ensures exists q :: q < p && AllocatedAt(log, q, log[p].date, log[p].issuer)
    {
      if p < |db.log| {
        var q :| q < p && AllocatedAt(db.log, q, db.log[p].date, db.log[p].issuer);
        assert AllocatedAt(log, q, log[p].date, log[p].issuer);
      } else if d in MetaOf(db.meta, i).dates {
        var q :| 0 <= q < |db.log| && db.log[q] == Allocated(d, i);
        assert AllocatedAt(log, q, d, i);
      } else {
        assert AllocatedAt(log, last - 1, d, i);
      }
    }
  }

  lemma IssuersKept(db: Db, db': Db, d: string, i: string, c: Cert)
    requires Slices(db.issuers) && Ids(d, i) && NewStep(db, db', d, i, c)
    requires forall d, i | |d| == 13 && i in Entries(db.issuers, d) :: |i| == 44
    ensures Slices(db'.issuers)
    ensures forall d, i | |d| == 13 && i in Entries(db'.issuers, d) :: |i| == 44
  {
    InsertedIsSet(Entries(db.issuers, d), i);
    forall d', i' | |d'| == 13 && i' in Entries(db'.issuers, d') ensures |i'| == 44 {
      assert i' == i || i' in Entries(db.issuers, d');
    }
  }

  lemma StoreKeepsDbInv(norm: Normaliser, db: Db, d: string, i: string, c: Cert)
    requires DbInv(db) && Ids(d, i)
    ensures DbInv(StoredIn(norm, db, d, i, c))
  {
    StoreDoesSetsStep(norm, db, d, i, c);
    StoreDoesNewStep(norm, db, d, i, c);
    StepKeepsDbInv(db, StoredIn(norm, db, d, i, c), d, i, c);
  }

  lemma StepKeepsDbInv(db: Db, db': Db, d: string, i: string, c: Cert)
    requires DbInv(db) && SetsStep(db, db', d, i, c) && Ids(d, i)
    requires if IsNew(db, d, i, c) then NewStep(db, db', d, i, c) else db' == db.(sets := db'.sets)
    ensures DbInv(db')
  {
    forall d', i' | Ids(d', i') ensures BucketInv(db', d', i') {
      BucketKept(db, db', d, i, c, d', i');
    }
    if IsNew(db, d, i, c) {
      assert BucketInv(db, d, i);
      LogKept(db, db', d, i, c);
      IssuersKept(db, db', d, i, c);
    }
  }

  /** After any sequence of stores from an empty database: every bucket was allocated
      before its first PEM, each date's issuer list is sorted, without repeats and
      exactly the issuers with a stored PEM, each serial list is without repeats, and
      remote sets, lists and PEMs agree. */
  lemma {:induction false} StoresKeepBackendAndCacheInStep(norm: Normaliser, cs: seq<Cert>)
    requires forall c <- cs :: Storable(c)
    ensures DbInv(StoreAll(norm, EmptyDb(), cs))
  {
    if cs == [] {
    } else {
      var c := cs[|cs| - 1];
      StoresKeepBackendAndCacheInStep(norm, cs[..|cs| - 1]);
      CertIds(c);
      StoreKeepsDbInv(norm, StoreAll(norm, EmptyDb(), cs[..|cs| - 1]), DateOfCert(c), DigestId(c.digest), c);
    }
  }

  lemma CertIds(c: Cert)
    requires Storable(c)
    ensures Ids(DateOfCert(c), DigestId(c.digest))
  {
    var e := NewExpDateFromTime(c.notAfter);
    DateFromTimeRoundTrip(c.notAfter);
    DateIdLength(e);
    DigestIsClean(c.digest);
  }

  lemma DateIdLength(e: ExpDate)
    requires Regular(e) && e.hourResolution
    ensures |DateId(e)| == 13
  {
    ParseUndoesDateId(e);
  }

  /** What the invariant says of one date's issuer list. */
  lemma IssuerListIsExact(db: Db, d: string, i: string)
    requires DbInv(db) && Ids(d, i)
    ensures Sorted(Entries(db.issuers, d))
    ensures i in Entries(db.issuers, d) <==> exists s: seq<byte> :: PemKey(d, i, s) in db.pems
  {
    assert BucketInv(db, d, i);
    if Serials(db, d, i) != [] {
      assert Serials(db, d, i)[0] in Serials(db, d, i);
    }
  }
}
