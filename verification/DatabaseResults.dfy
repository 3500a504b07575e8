/** Two more results of sequences of stores: the PEM kept of a certificate is that of its
    first store, and an issuer's object never asks the remote cache about what it has
    seen (storage/filesystemdatabase.go, storage/issuermetadata.go).
 */
module DatabaseResults {
  import opened Options
  import opened SortedSlices
  import opened MockCache
  import opened KnownCertificates
  import opened Identifiers
  import opened DatabaseSpec

  // ------------------------------------------------------------------- contents

  /** Both have one bucket and one serial. */
  predicate Same(c: Cert, d: Cert)
    requires Storable(c) && Storable(d)
  {
    DateOfCert(c) == DateOfCert(d) && DigestId(c.digest) == DigestId(d.digest) && c.serial == d.serial
  }

  function KeyOf(c: Cert): string
    requires Storable(c)
  {
    PemKey(DateOfCert(c), DigestId(c.digest), c.serial)
  }

  /** PEM keys are equal exactly for certificates of one bucket and one serial. */
  lemma SameKeys(c: Cert, d: Cert)
    requires Storable(c) && Storable(d)
    ensures KeyOf(c) == KeyOf(d) <==> Same(c, d)
  {
    CertIds(c);
    CertIds(d);
    PemKeysAreApart(DateOfCert(c), DigestId(c.digest), c.serial, DateOfCert(d), DigestId(d.digest), d.serial);
  }

  /** A certificate is new to the database exactly if none the same has a PEM. */
  lemma NewExactlyWithoutPem(db: Db, c: Cert)
    requires DbInv(db) && Storable(c)
    ensures IsNew(db, DateOfCert(c), DigestId(c.digest), c) <==> KeyOf(c) !in db.pems
  {
    CertIds(c);
    var d, i := DateOfCert(c), DigestId(c.digest);
    assert BucketInv(db, d, i);
    assert c.serial in Serials(db, d, i) <==> BinaryString(c.serial) in Entries(db.sets, SetKey(d, i));
    assert c.serial in Serials(db, d, i) <==> PemKey(d, i, c.serial) in db.pems;
  }

  lemma StoredPems(norm: Normaliser, db: Db, c: Cert)
    requires Storable(c)
    ensures var isNew := IsNew(db, DateOfCert(c), DigestId(c.digest), c);
            Stored(norm, db, c).pems == if isNew then db.pems[KeyOf(c) := c.raw] else db.pems
  {
  }

  /** What stores bring, each under the key of its PEM. */
  function Brought(cs: seq<Cert>): (ps: seq<(string, string)>)
    requires forall c <- cs :: Storable(c)
    ensures |ps| == |cs|
  {
    if cs == [] then [] else Brought(cs[..|cs| - 1]) + [(KeyOf(cs[|cs| - 1]), cs[|cs| - 1].raw)]
  }

  function PutNew(m: map<string, string>, p: (string, string)): map<string, string> {
    if p.0 in m then m else m[p.0 := p.1]
  }

  function AllPut(ps: seq<(string, string)>): map<string, string> {
    if ps == [] then map[] else PutNew(AllPut(ps[..|ps| - 1]), ps[|ps| - 1])
  }

  lemma OneStorePuts(norm: Normaliser, db: Db, c: Cert)
    requires DbInv(db) && Storable(c)
    ensures Stored(norm, db, c).pems == PutNew(db.pems, (KeyOf(c), c.raw))
  {
    NewExactlyWithoutPem(db, c);
    StoredPems(norm, db, c);
  }

  /** Each store puts its PEM under its key unless there is one. */
  lemma {:induction false} StoresPut(norm: Normaliser, cs: seq<Cert>)
    requires forall c <- cs :: Storable(c)
    ensures StoreAll(norm, EmptyDb(), cs).pems == AllPut(Brought(cs))
  {
    if cs == [] {
    } else {
      var before, last := cs[..|cs| - 1], cs[|cs| - 1];
      StoresPut(norm, before);
      StoresKeepBackendAndCacheInStep(norm, before);
      OneStorePuts(norm, StoreAll(norm, EmptyDb(), before), last);
      assert Brought(cs)[..|cs| - 1] == Brought(before);
    }
  }

  /** The k-th pair is the first under this key. */
  predicate IsFirst(ps: seq<(string, string)>, key: string, k: nat) {
    k < |ps| && ps[k].0 == key && forall j: nat | j < k :: ps[j].0 != key
  }

  /** What is there is exactly what was first put under each key. */
  lemma {:induction false} FirstIsKept(ps: seq<(string, string)>, key: string)
    ensures key in AllPut(ps) <==> exists k: nat :: IsFirst(ps, key, k)
    ensures forall k: nat :: IsFirst(ps, key, k) && key in AllPut(ps) ==> AllPut(ps)[key] == ps[k].1
  {
    if ps == [] {
    } else {
      var before := ps[..|ps| - 1];
      FirstIsKept(before, key);
      forall k: nat
        ensures IsFirst(ps, key, k) <==>
                (IsFirst(before, key, k) || (k == |before| && ps[k].0 == key && key !in AllPut(before)))
      {
        if k == |before| {
          FirstOrNone(before, key);
        }
      }
      if key in AllPut(before) {
        var k: nat :| IsFirst(before, key, k);
        assert IsFirst(ps, key, k);
      } else if ps[|before|].0 == key {
        assert IsFirst(ps, key, |before|);
      }
    }
  }

  lemma {:induction false} FirstOrNone(ps: seq<(string, string)>, key: string)
    ensures (exists k: nat :: IsFirst(ps, key, k)) || forall j: nat | j < |ps| :: ps[j].0 != key
  {
    if ps == [] {
    } else {
      var before := ps[..|ps| - 1];
      FirstOrNone(before, key);
      if k: nat :| IsFirst(before, key, k) {
        assert IsFirst(ps, key, k);
      } else if ps[|before|].0 == key {
        assert IsFirst(ps, key, |before|);
      }
    }
  }

  /** After any sequence of stores there is a PEM under exactly the keys of the
      certificates among them, and it is the one that the first store under its key
      brought. */
  lemma EveryPemIsTheFirst(norm: Normaliser, cs: seq<Cert>, key: string)
    requires forall c <- cs :: Storable(c)
    ensures var ps, pems := Brought(cs), StoreAll(norm, EmptyDb(), cs).pems;
            && (key in pems <==> exists k: nat :: IsFirst(ps, key, k))
            && forall k: nat :: IsFirst(ps, key, k) && key in pems ==> pems[key] == ps[k].1
  {
    StoresPut(norm, cs);
    FirstIsKept(Brought(cs), key);
  }

  // ------------------------------------------------------------------ spared calls

  lemma {:induction false} CrlsAreMarked(norm: Normaliser, sets: map<string, seq<string>>, known: set<string>,
                                         key: string, dps: seq<string>)
    ensures AddCrls(norm, sets, known, key, dps).1 == known + set dp | dp in dps
    decreases |dps|
  {
    if dps == [] {
    } else {
      var rest := dps[1..];
      assert forall dp :: dp in dps <==> dp == dps[0] || dp in rest;
      if dps[0] in known {
        CrlsAreMarked(norm, sets, known, key, rest);
      } else {
        CrlsAreMarked(norm, AddCrl(norm, sets, key, dps[0]), known + {dps[0]}, key, rest);
      }
    }
  }

  lemma {:induction false} KnownCrlsAreSpared(norm: Normaliser, sets: map<string, seq<string>>, known: set<string>,
                                              key: string, dps: seq<string>)
    requires forall dp <- dps :: dp in known
    ensures AddCrls(norm, sets, known, key, dps) == (sets, known)
    decreases |dps|
  {
    if dps == [] {
    } else {
      KnownCrlsAreSpared(norm, sets, known, key, dps[1..]);
    }
  }

  /** `Accumulate` marks the date, the issuer name and every distribution point, and exactly
      these; and of what is marked it never asks the remote cache again, whatever that
      holds by then. */
  lemma AccumulateMarksAndSpares(norm: Normaliser, sets: map<string, seq<string>>, m: Meta, i: string, d: string,
                                 c: Cert, later: map<string, seq<string>>)
    ensures var m' := Accumulated(norm, sets, m, i, d, c).1;
            && m' == Meta(m.dates + {d}, m.dns + {c.dn}, m.crls + set dp | dp in c.dps)
            && Accumulated(norm, later, m', i, d, c) == (later, m')
  {
    CrlsAreMarked(norm, sets, m.crls, CrlKey(i), c.dps);
    var m' := Accumulated(norm, sets, m, i, d, c).1;
    KnownCrlsAreSpared(norm, later, m'.crls, CrlKey(i), c.dps);
    assert m'.dates + {d} == m'.dates && m'.dns + {c.dn} == m'.dns;
  }

  /** The key scan for "serials::*" finds the serial keys and none of the issuers' sets. */
  lemma SerialKeysAreScanned(e: ExpDate, i: string, x: string)
    requires Regular(e)
    ensures "serials::" <= SerialKey(e, i)
    ensures !("serials::" <= CrlKey(x)) && !("serials::" <= IssuersKey(x))
    ensures "crl::" <= CrlKey(x) && "issuer::" <= IssuersKey(x) && "pem" <= PemKey(x, i, [])
  {
    assert CrlKey(x)[0] == 'c' && IssuersKey(x)[0] == 'i';
  }
}
