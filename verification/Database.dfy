/** The database in the source's own form: objects whose methods update the remote
    cache, the backend and their local maps, proved against `DatabaseSpec`
    (storage/filesystemdatabase.go, storage/issuermetadata.go, storage/mockbackend.go).
 */
module Database {
  import opened Options
  import opened Base64
  import opened SortedSlices
  import opened MockCache
  import opened KnownCertificates
  import opened Identifiers
  import opened Text
  import opened DatabaseSpec

  class IssuerMetadata {
    const issuer: string
    const cache: MockRemoteCache
    var knownExpDates: set<string>
    var knownIssuerDNs: set<string>
    var knownCrlDPs: set<string>

    constructor (issuer: string, cache: MockRemoteCache)
      ensures this.issuer == issuer && this.cache == cache && Local() == Meta({}, {}, {})
    {
      this.issuer, this.cache := issuer, cache;
      knownExpDates, knownIssuerDNs, knownCrlDPs := {}, {}, {};
    }

    function Local(): Meta
      reads this
    {
      Meta(knownExpDates, knownIssuerDNs, knownCrlDPs)
    }

    /** Records a distribution point under its URL; anything but http and https is ignored. */
    method AddCRL(norm: Normaliser, dp: string)
      requires cache.Valid()
      modifies cache`data
      ensures cache.Valid() && cache.data == AddCrl(norm, old(cache.data), CrlKey(issuer), dp)
    {
      var url := norm(dp);
      if url.Some? {
        var _ := cache.SetInsert(CrlKey(issuer), url.value);
      }
    }

    /** The loop over the distribution points. */
    method AddCRLs(norm: Normaliser, dps: seq<string>)
      requires cache.Valid()
      modifies this`knownCrlDPs, cache`data
      ensures cache.Valid()
      ensures (cache.data, knownCrlDPs) ==
              AddCrls(norm, old(cache.data), old(knownCrlDPs), CrlKey(issuer), dps)
    {
      var k := 0;
      while k < |dps|
        invariant k <= |dps| && cache.Valid()
        invariant AddCrls(norm, cache.data, knownCrlDPs, CrlKey(issuer), dps[k..]) ==
                  AddCrls(norm, old(cache.data), old(knownCrlDPs), CrlKey(issuer), dps)
      {
        var dp := dps[k];
        assert dps[k..][1..] == dps[k + 1..];
        if dp !in knownCrlDPs {
          knownCrlDPs := knownCrlDPs + {dp};
          AddCRL(norm, dp);
        }
        k := k + 1;
      }
    }

    /** Notes a certificate's date, distribution points and issuer name, each in the
        remote sets only if it is new to this object; says whether the date was. */
    method Accumulate(norm: Normaliser, date: string, c: Cert) returns (seenDateBefore: bool)
      requires cache.Valid()
      modifies this, cache`data
      ensures cache.Valid() && (seenDateBefore <==> date in old(knownExpDates))
      ensures (cache.data, Local()) == Accumulated(norm, old(cache.data), old(Local()), issuer, date, c)
    {
      seenDateBefore := date in knownExpDates;
      var seenIssuerDn := c.dn in knownIssuerDNs;
      if !seenDateBefore {
        knownExpDates := knownExpDates + {date};
      }
      assert knownExpDates == old(knownExpDates) + {date};
      AddCRLs(norm, c.dps);
      if !seenIssuerDn {
        knownIssuerDNs := knownIssuerDNs + {c.dn};
        var _ := cache.SetInsert(IssuersKey(issuer), c.dn);
      }
      assert knownIssuerDNs == old(knownIssuerDNs) + {c.dn};
    }
  }

  class MockBackend {
    var expDateToIssuer: map<string, seq<string>>
    var expDateIssuerIDToSerials: map<string, seq<seq<byte>>>
    var store: map<string, string>
    ghost var log: seq<Event>

    constructor ()
      ensures expDateToIssuer == map[] && expDateIssuerIDToSerials == map[] && store == map[] && log == []
    {
      expDateToIssuer, expDateIssuerIDToSerials, store, log := map[], map[], map[], [];
    }

    /** Puts the issuer into its date's sorted list, unless it is there. */
    method AllocateExpDateAndIssuer(date: string, issuer: string)
      requires Slices(expDateToIssuer)
      modifies this`expDateToIssuer, this`log
      ensures Slices(expDateToIssuer)
      ensures expDateToIssuer == old(expDateToIssuer)[date := Inserted(Entries(old(expDateToIssuer), date), issuer)]
      ensures log == old(log) + [Allocated(date, issuer)]
    {
      var issuers := Entries(expDateToIssuer, date);
      var i := Search(issuers, issuer);
      InsertedAtBound(issuers, issuer, i);
      InsertedIsSet(issuers, issuer);
      if i < |issuers| && issuers[i] == issuer {
        assert expDateToIssuer[date] == issuers;
      } else {
        expDateToIssuer := expDateToIssuer[date := issuers[..i] + [issuer] + issuers[i..]];
      }
      log := log + [Allocated(date, issuer)];
    }

    method StoreCertificatePEM(serial: seq<byte>, date: string, issuer: string, pem: string)
      modifies this`expDateIssuerIDToSerials, this`store, this`log
      ensures store == old(store)[PemKey(date, issuer, serial) := pem]
      ensures expDateIssuerIDToSerials == old(expDateIssuerIDToSerials)[
                date + issuer := ListOf(old(expDateIssuerIDToSerials), date + issuer) + [serial]]
      ensures log == old(log) + [WrotePem(date, issuer, serial)]
    {
      store := store[PemKey(date, issuer, serial) := pem];
      var val := ListOf(expDateIssuerIDToSerials, date + issuer);
      expDateIssuerIDToSerials := expDateIssuerIDToSerials[date + issuer := val + [serial]];
      log := log + [WrotePem(date, issuer, serial)];
    }
  }

  /** Times of expiry after a bucket's object has had its say: it sets one only once. */
  function Expiring(times: map<string, int>, flagged: bool, key: string, at: int): map<string, int> {
    if flagged then times else times[key := at]
  }

  /** A certificate's bucket expires at the start of the hour in which the certificate does. */
  function ExpiryOf(c: Cert): int {
    c.notAfter - c.notAfter % HOUR
  }

  /** The local key of a certificate's bucket. */
  function LocalId(c: Cert): string
    requires Storable(c)
  {
    RegularDate(c);
    LocalKey(NewExpDateFromTime(c.notAfter), DigestId(c.digest))
  }

  lemma RegularDate(c: Cert)
    requires Storable(c)
    ensures Regular(NewExpDateFromTime(c.notAfter)) && DateId(NewExpDateFromTime(c.notAfter)) == DateOfCert(c)
    ensures NewExpDateFromTime(c.notAfter).date == ExpiryOf(c)
  {
    DateFromTimeRoundTrip(c.notAfter);
    assert NewExpDateFromTime(c.notAfter).date / HOUR == c.notAfter / HOUR;
  }

  /** An issuer's object that has just been made counts as none. */
  lemma FoundOrMade(norm: Normaliser, db: Db, db': Db, d: string, i: string, c: Cert)
    requires db' == db.(meta := db.meta[i := MetaOf(db.meta, i)])
    ensures AccumulatedIn(norm, db', d, i, c) == AccumulatedIn(norm, db, d, i, c)
  {
    assert MetaOf(db'.meta, i) == MetaOf(db.meta, i);
  }

  class FilesystemDatabase {
    const cache: MockRemoteCache
    const backend: MockBackend
    var knownCertsCache: map<string, KnownCertificates>
    var meta: map<string, IssuerMetadata>

    constructor (cache: MockRemoteCache, backend: MockBackend)
      requires cache.Valid() && Slices(backend.expDateToIssuer)
      ensures this.cache == cache && this.backend == backend && knownCertsCache == map[] && meta == map[]
      ensures Valid()
    {
      this.cache, this.backend := cache, backend;
      knownCertsCache, meta := map[], map[];
    }

    /** Local objects sit under their own keys and share the one remote cache. */
    ghost predicate Valid()
      reads this, cache, backend
    {
      && cache.Valid() && Slices(backend.expDateToIssuer)
      && (forall k <- meta :: meta[k].issuer == k && meta[k].cache == cache)
      && AllCached(knownCertsCache)
    }

    ghost predicate AllCached(cached: map<string, KnownCertificates>) {
      forall k <- cached :: CachedUnder(cached[k], k)
    }

    ghost predicate CachedUnder(kc: KnownCertificates, k: string) {
      kc.cache == cache && Regular(kc.expDate) && LocalKey(kc.expDate, kc.issuer) == k
    }

    /** All cached buckets are of digest issuers, as `Store` makes them. */
    ghost predicate Digests()
      reads this
    {
      forall k <- knownCertsCache :: |knownCertsCache[k].issuer| == 44
    }

    /** The object kept under a local key survives eviction and has set its expiry. */
    ghost predicate Flagged(id: string, evicted: set<string>)
      reads this, knownCertsCache.Values
    {
      id in knownCertsCache && id !in evicted && knownCertsCache[id].expirySet
    }

    ghost function State(): Db
      reads this, cache, backend, meta.Values
    {
      Db(cache.data, Metas(),
         backend.expDateToIssuer, backend.expDateIssuerIDToSerials, backend.store, backend.log)
    }

    /** An object found under a bucket's local key is that bucket's, if their issuer IDs
        are of one length or their dates of one resolution. */
    lemma FoundIsRequested(kc: KnownCertificates, e: ExpDate, issuer: string)
      requires Regular(e) && CachedUnder(kc, LocalKey(e, issuer))
      ensures |kc.issuer| == |issuer| || kc.expDate.hourResolution == e.hourResolution ==>
                kc.issuer == issuer && SameDate(kc.expDate, e) && kc.Key() == SetKey(DateId(e), issuer)
    {
      if |kc.issuer| == |issuer| || kc.expDate.hourResolution == e.hourResolution {
        LocalKeyIsInjective(kc.expDate, kc.issuer, e, issuer);
        DateIdIsInjective(kc.expDate, e);
      }
    }

    lemma CachedStays(cached: map<string, KnownCertificates>, evicted: set<string>, id: string, kc: KnownCertificates)
      requires AllCached(cached) && CachedUnder(kc, id)
      ensures AllCached((cached - evicted)[id := kc])
    {
    }

    lemma CachedUnderKey(cached: map<string, KnownCertificates>, id: string)
      requires AllCached(cached) && id in cached
      ensures CachedUnder(cached[id], id)
    {
    }

    /** The object kept under a local key, if it has survived eviction, or else a new one. */
    method CachedOrNew(id: string, e: ExpDate, issuer: string, evicted: set<string>) returns (kc: KnownCertificates)
      modifies this`knownCertsCache
      ensures knownCertsCache == (old(knownCertsCache) - evicted)[id := kc]
      ensures if id in old(knownCertsCache) && id !in evicted then kc == old(knownCertsCache)[id]
              else fresh(kc) && !kc.expirySet && kc.cache == cache && kc.expDate == e && kc.issuer == issuer
    {
      knownCertsCache := knownCertsCache - evicted;
      if id in knownCertsCache {
        kc := knownCertsCache[id];
        assert knownCertsCache[id := kc] == knownCertsCache;
      } else {
        kc := new KnownCertificates(e, issuer, cache);
        knownCertsCache := knownCertsCache[id := kc];
      }
    }

    /** The object under the requested local key, whatever has been evicted meanwhile; it
        is the requested bucket's, unless a day and an hour collide. */
    method GetKnownCertificates(e: ExpDate, issuer: string, evicted: set<string>) returns (kc: KnownCertificates)
      requires Valid() && Regular(e)
      modifies this`knownCertsCache
      ensures Valid() && CachedUnder(kc, LocalKey(e, issuer))
      ensures |kc.issuer| == |issuer| || kc.expDate.hourResolution == e.hourResolution ==>
                kc.issuer == issuer && SameDate(kc.expDate, e) && kc.Key() == SetKey(DateId(e), issuer)
      ensures var id := LocalKey(e, issuer);
              && knownCertsCache == (old(knownCertsCache) - evicted)[id := kc]
              && if id in old(knownCertsCache) && id !in evicted then kc == old(knownCertsCache)[id]
                 else fresh(kc) && !kc.expirySet && kc.issuer == issuer
    {
      ghost var before, id := knownCertsCache, LocalKey(e, issuer);
      kc := CachedOrNew(LocalKey(e, issuer), e, issuer, evicted);
      if id in before {
        CachedUnderKey(before, id);
      }
      CachedStays(before, evicted, id, kc);
      FoundIsRequested(kc, e, issuer);
    }

    /** The issuer's object, made on first request. */
    method GetIssuerMetadata(issuer: string) returns (im: IssuerMetadata)
      requires Valid()
      modifies this`meta
      ensures Valid() && im.issuer == issuer && im.cache == cache
      ensures meta == old(meta)[issuer := im]
      ensures if issuer in old(meta) then im == old(meta)[issuer] else fresh(im)
      ensures im.Local() == MetaOf(old(Metas()), issuer)
      ensures State() == old(State()).(meta := old(Metas())[issuer := im.Local()])
    {
      if issuer in meta {
        im := meta[issuer];
      } else {
        im := new IssuerMetadata(issuer, cache);
        meta := meta[issuer := im];
      }
    }

    ghost function Metas(): map<string, Meta>
      reads this, meta.Values
    {
      map k | k in meta :: meta[k].Local()
    }

    twostate lemma MetasKept()
      requires meta == old(meta) && forall k <- meta :: unchanged(meta[k])
      ensures Metas() == old(Metas())
    {
    }

    /** Only the maps of issuer i have changed. */
    twostate lemma OneMetaChanged(i: string)
      requires meta == old(meta) && i in meta
      requires forall k | k in meta && k != i :: unchanged(meta[k])
      ensures Metas() == old(Metas())[i := meta[i].Local()]
    {
    }

    method AccumulateOn(norm: Normaliser, im: IssuerMetadata, d: string, i: string, c: Cert) returns (seen: bool)
      requires Valid() && i in meta && meta[i] == im
      modifies cache`data, im
      ensures Valid() && (seen <==> d in old(im.Local()).dates)
      ensures State() == AccumulatedIn(norm, old(State()), d, i, c)
    {
      assert forall k | k in meta && k != i :: meta[k] != im;
      seen := im.Accumulate(norm, d, c);
      OneMetaChanged(i);
    }

    /** `GetIssuerMetadata(issuer).Accumulate(cert)`. */
    method AccumulateFor(norm: Normaliser, d: string, i: string, c: Cert) returns (seen: bool)
      requires Valid()
      modifies this`meta, cache`data, meta.Values
      ensures Valid() && fresh(meta.Values - old(meta).Values)
      ensures seen <==> d in MetaOf(old(Metas()), i).dates
      ensures State() == AccumulatedIn(norm, old(State()), d, i, c)
    {
      var im := GetIssuerMetadata(i);
      ghost var db := State();
      seen := AccumulateOn(norm, im, d, i, c);
      FoundOrMade(norm, old(State()), db, d, i, c);
    }

    /** Allocation of the bucket if the date was new, then the certificate itself. */
    method WriteNew(seen: bool, d: string, i: string, c: Cert)
      requires Valid()
      modifies backend
      ensures Valid()
      ensures State() == WrittenNew(old(State()), seen, d, i, c)
    {
      if !seen {
        backend.AllocateExpDateAndIssuer(d, i);
      }
      backend.StoreCertificatePEM(c.serial, d, i, c.raw);
      MetasKept();
    }

    method InsertSerialOn(kc: KnownCertificates, d: string, i: string, c: Cert) returns (unknown: bool)
      requires Valid() && kc.cache == cache && Regular(kc.expDate) && kc.Key() == SetKey(d, i)
      modifies kc, cache`data, cache`expirations
      ensures Valid() && kc.expirySet
      ensures unknown <==> IsNew(old(State()), d, i, c)
      ensures State() == SerialInserted(old(State()), d, i, c)
      ensures cache.expirations ==
              Expiring(old(cache.expirations), old(kc.expirySet), SetKey(d, i), kc.expDate.date)
    {
      ghost var key := kc.Key();
      unknown := kc.WasUnknown(c.serial);
      MetasKept();
      SerialInsertedParts(old(State()), State(), d, i, c, key, BinaryString(c.serial));
    }

    /** The object of a bucket that `Store` asks for. */
    method GetForStore(e: ExpDate, i: string, evicted: set<string>) returns (kc: KnownCertificates)
      requires Valid() && Digests() && Regular(e) && |i| == 44
      modifies this`knownCertsCache
      ensures Valid() && Digests() && State() == old(State())
      ensures kc.cache == cache && Regular(kc.expDate) && kc.expDate.date == e.date && kc.Key() == SetKey(DateId(e), i)
      ensures kc in old(knownCertsCache).Values || fresh(kc)
      ensures LocalKey(e, i) in knownCertsCache && knownCertsCache[LocalKey(e, i)] == kc
      ensures kc.expirySet == old(Flagged(LocalKey(e, i), evicted))
    {
      kc := GetKnownCertificates(e, i, evicted);
      MetasKept();
    }

    /** Metadata, allocation and PEM of a certificate that is new. */
    method AddNew(norm: Normaliser, d: string, i: string, c: Cert)
      requires Valid()
      modifies this`meta, cache`data, backend, meta.Values
      ensures Valid()
      ensures State() == WrittenNew(AccumulatedIn(norm, old(State()), d, i, c),
                                    d in MetaOf(old(Metas()), i).dates, d, i, c)
    {
      var seen := AccumulateFor(norm, d, i, c);
      WriteNew(seen, d, i, c);
    }

    /** The rest of `Store`, once the bucket's object is at hand. */
    method StoreOn(norm: Normaliser, kc: KnownCertificates, d: string, i: string, c: Cert)
      requires Valid() && kc.cache == cache && Regular(kc.expDate) && kc.Key() == SetKey(d, i)
      modifies this`meta, cache`data, cache`expirations, backend, meta.Values, kc
      ensures Valid() && kc.expirySet && State() == StoredIn(norm, old(State()), d, i, c)
      ensures cache.expirations ==
              Expiring(old(cache.expirations), old(kc.expirySet), SetKey(d, i), kc.expDate.date)
    {
      var unknown := InsertSerialOn(kc, d, i, c);
      if unknown {
        AddNew(norm, d, i, c);
      }
    }

    /** A store into the bucket of a date and an issuer, whose local key is `id`. */
    method StoreUnder(norm: Normaliser, e: ExpDate, d: string, i: string, c: Cert, ghost id: string,
                      evicted: set<string>)
      requires Valid() && Digests() && Regular(e) && |i| == 44 && d == DateId(e) && id == LocalKey(e, i)
      modifies this, cache, backend, meta.Values, knownCertsCache.Values
      ensures Valid() && Digests() && State() == StoredIn(norm, old(State()), d, i, c)
      ensures cache.expirations ==
              Expiring(old(cache.expirations), old(Flagged(id, evicted)), SetKey(d, i), e.date)
      ensures id in knownCertsCache && knownCertsCache[id].expirySet
    {
      ghost var times, flagged := cache.expirations, Flagged(id, evicted);
      var knownCerts := GetForStore(e, i, evicted);
      assert knownCerts.expirySet == flagged && cache.expirations == times && knownCertsCache[id] == knownCerts;
      StoreOn(norm, knownCerts, d, i, c);
      assert cache.expirations == Expiring(times, flagged, SetKey(d, i), e.date);
    }

    /** Stores a certificate: sets, maps and backend end in the state the specification
        gives, and the bucket's key expires at the start of its hour, unless the bucket's
        object, having survived eviction, has set that before. */
    method Store(norm: Normaliser, c: Cert, evicted: set<string>)
      requires Valid() && Digests() && Storable(c)
      modifies this, cache, backend, meta.Values, knownCertsCache.Values
      ensures Valid() && Digests() && State() == Stored(norm, old(State()), c)
      ensures cache.expirations ==
              Expiring(old(cache.expirations), old(Flagged(LocalId(c), evicted)),
                       SetKey(DateOfCert(c), DigestId(c.digest)), ExpiryOf(c))
      ensures LocalId(c) in knownCertsCache && knownCertsCache[LocalId(c)].expirySet
    {
      CertIds(c);
      RegularDate(c);
      StoreUnder(norm, NewExpDateFromTime(c.notAfter), DateOfCert(c), DigestId(c.digest), c, LocalId(c), evicted);
    }
  }

  /** `GetIssuerAndDatesFromCache` over whatever the key scan delivers: an error if a key
      is malformed; otherwise each issuer with the dates of its keys, those that do not
      parse left out. */
  method GetIssuerAndDatesFromCache(keys: seq<string>) returns (r: Result<map<string, seq<ExpDate>>>)
    ensures r.Err? <==> exists key :: key in keys && ReadKey(key).Malformed?
    ensures r.Ok? ==> forall issuer, date: ExpDate ::
              (issuer in r.value && date in r.value[issuer]) <==>
              exists key :: key in keys && ReadKey(key) == Bucket(date, issuer)
    ensures r.Ok? ==> forall issuer <- r.value :: r.value[issuer] != []
  {
    var issuers: map<string, seq<ExpDate>> := map[];
    for k := 0 to |keys|
      invariant forall key <- keys[..k] :: !ReadKey(key).Malformed?
      invariant forall issuer, date: ExpDate ::
                  (issuer in issuers && date in issuers[issuer]) <==>
                  exists key :: key in keys[..k] && ReadKey(key) == Bucket(date, issuer)
      invariant forall issuer <- issuers :: issuers[issuer] != []
    {
      var reading := ReadKey(keys[k]);
      assert keys[..k + 1] == keys[..k] + [keys[k]];
      if reading.Malformed? {
        assert keys[k] in keys;
        return Err;
      }
      if reading.Bucket? {
        var dates := if reading.issuer in issuers then issuers[reading.issuer] else [];
        ghost var before := issuers;
        issuers := issuers[reading.issuer := dates + [reading.date]];
      }
    }
    assert keys[..|keys|] == keys;
    r := Ok(issuers);
  }

  predicate KeyOf(key: string, buckets: set<(ExpDate, string)>, b: (ExpDate, string)) {
    b in buckets && Regular(b.0) && key == SerialKey(b.0, b.1)
  }

  /** A scan that delivers the serial keys of some buckets, in any order and with any
      repeats: it is read without error exactly when no issuer ID holds "::", and then
      yields exactly those buckets. */
  lemma ScanYieldsExactlyTheBuckets(keys: seq<string>, buckets: set<(ExpDate, string)>)
    requires forall b <- buckets :: Regular(b.0) && SerialKey(b.0, b.1) in keys
    requires forall key <- keys :: exists b :: KeyOf(key, buckets, b)
    ensures (exists key :: key in keys && ReadKey(key).Malformed?) <==>
            (exists b :: b in buckets && Contains(b.1, "::"))
    ensures forall issuer, date: ExpDate | !Contains(issuer, "::") ::
              (exists key :: key in keys && ReadKey(key) == Bucket(date, issuer)) <==>
              (exists b :: b in buckets && b.1 == issuer && AsParsed(b.0) == date)
  {
    forall b | b in buckets
      ensures ReadKey(SerialKey(b.0, b.1)) ==
              if Contains(b.1, "::") then Malformed else Bucket(AsParsed(b.0), b.1)
    {
      SerialKeyIsReadExactly(b.0, b.1);
    }
    if key :| key in keys && ReadKey(key).Malformed? {
      var b :| KeyOf(key, buckets, b);
      assert b in buckets && Contains(b.1, "::");
    }
    forall issuer, date: ExpDate, key | key in keys && ReadKey(key) == Bucket(date, issuer)
      ensures exists b :: b in buckets && b.1 == issuer && AsParsed(b.0) == date
    {
      var b :| KeyOf(key, buckets, b);
      assert b in buckets && b.1 == issuer && AsParsed(b.0) == date;
    }
  }
}
