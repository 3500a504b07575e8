/** The local maps of an `IssuerMetadata` only spare calls: any sequence of stores
    leaves the remote sets as if every distribution point and every issuer name had
    been inserted each time (storage/issuermetadata.go).
 */
module LocalMaps {
  import opened Options
  import opened SortedSlices
  import opened MockCache
  import opened KnownCertificates
  import opened Identifiers
  import opened DatabaseSpec

  type Sets = map<string, seq<string>>

  // ------------------------------------------------- the form without local maps

  function InsertAll(norm: Normaliser, sets: Sets, key: string, dps: seq<string>): Sets
    decreases |dps|
  {
    if dps == [] then sets else InsertAll(norm, AddCrl(norm, sets, key, dps[0]), key, dps[1..])
  }

  function Asked(norm: Normaliser, sets: Sets, i: string, c: Cert): Sets {
    InsertInto(InsertAll(norm, sets, CrlKey(i), c.dps), IssuersKey(i), c.dn)
  }

  /** A store that keeps nothing locally. */
  function AskingStore(norm: Normaliser, sets: Sets, d: string, i: string, c: Cert): Sets {
    var inserted := InsertInto(sets, SetKey(d, i), BinaryString(c.serial));
    if BinaryString(c.serial) in Entries(sets, SetKey(d, i)) then inserted
    else Asked(norm, inserted, i, c)
  }

  function AskingAll(norm: Normaliser, sets: Sets, cs: seq<Cert>): Sets
    requires forall c <- cs :: Storable(c)
  {
    if cs == [] then sets
    else var c := cs[|cs| - 1];
         AskingStore(norm, AskingAll(norm, sets, cs[..|cs| - 1]), DateOfCert(c), DigestId(c.digest), c)
  }

  // ------------------------------------------------------------------ agreement

  predicate CrlsRecorded(norm: Normaliser, sets: Sets, known: set<string>, key: string) {
    forall dp <- known :: norm(dp).Some? ==> norm(dp).value in Entries(sets, key)
  }

  /** What an issuer's maps have marked is in the remote sets. */
  predicate Recorded(norm: Normaliser, sets: Sets, m: Meta, i: string) {
    && CrlsRecorded(norm, sets, m.crls, CrlKey(i))
    && forall dn <- m.dns :: dn in Entries(sets, IssuersKey(i))
  }

  predicate AllRecorded(norm: Normaliser, db: Db) {
    Slices(db.sets) && forall i <- db.meta :: Recorded(norm, db.sets, db.meta[i], i)
  }

  ghost predicate Grown(sets: Sets, sets': Sets) {
    Slices(sets') && forall k, x :: x in Entries(sets, k) ==> x in Entries(sets', k)
  }

  lemma {:induction false} InsertedAgain(s: seq<string>, entry: string)
    requires Sorted(s) && entry in s
    ensures Inserted(s, entry) == s
    decreases |s|
  {
    if s[0] == entry {
    } else {
      var j: nat :| j < |s| && s[j] == entry;
      LessIsTotal(s[0], entry);
      assert s[1..][j - 1] == entry;
      InsertedAgain(s[1..], entry);
    }
  }

  lemma InsertIntoGrows(sets: Sets, key: string, entry: string)
    requires Slices(sets)
    ensures Grown(sets, InsertInto(sets, key, entry)) && entry in Entries(InsertInto(sets, key, entry), key)
    ensures entry in Entries(sets, key) ==> InsertInto(sets, key, entry) == sets
  {
    InsertIntoKeepsSlices(sets, key, entry);
    if entry in Entries(sets, key) {
      InsertedAgain(Entries(sets, key), entry);
    }
  }

  lemma {:induction false} CrlsAsIfAsking(norm: Normaliser, sets: Sets, known: set<string>, key: string,
                                          dps: seq<string>)
    requires Slices(sets) && CrlsRecorded(norm, sets, known, key)
    ensures AddCrls(norm, sets, known, key, dps).0 == InsertAll(norm, sets, key, dps)
    ensures Grown(sets, InsertAll(norm, sets, key, dps))
    ensures CrlsRecorded(norm, InsertAll(norm, sets, key, dps), AddCrls(norm, sets, known, key, dps).1, key)
    decreases |dps|
  {
    if dps == [] {
    } else {
      var sets1 := AddCrl(norm, sets, key, dps[0]);
      if norm(dps[0]).Some? {
        InsertIntoGrows(sets, key, norm(dps[0]).value);
      }
      CrlsAsIfAsking(norm, sets1, if dps[0] in known then known else known + {dps[0]}, key, dps[1..]);
    }
  }

  lemma RecordedGrows(norm: Normaliser, sets: Sets, sets': Sets, m: Meta, i: string)
    requires Recorded(norm, sets, m, i) && Grown(sets, sets')
    ensures Recorded(norm, sets', m, i)
  {
  }

  /** One `Accumulate`, on an object whose maps agree with the remote sets. */
  lemma AccumulatesAsIfAsking(norm: Normaliser, sets: Sets, m: Meta, i: string, d: string, c: Cert)
    requires Slices(sets) && Recorded(norm, sets, m, i)
    ensures Accumulated(norm, sets, m, i, d, c).0 == Asked(norm, sets, i, c)
    ensures Grown(sets, Asked(norm, sets, i, c))
    ensures Recorded(norm, Asked(norm, sets, i, c), Accumulated(norm, sets, m, i, d, c).1, i)
  {
    CrlsAsIfAsking(norm, sets, m.crls, CrlKey(i), c.dps);
    InsertIntoGrows(InsertAll(norm, sets, CrlKey(i), c.dps), IssuersKey(i), c.dn);
  }

  /** What asking adds: the URLs of the http(s) distribution points, and nothing else. */
  lemma {:induction false} InsertAllIsExact(norm: Normaliser, sets: Sets, key: string, dps: seq<string>)
    requires Slices(sets)
    ensures Slices(InsertAll(norm, sets, key, dps))
    ensures forall x :: x in Entries(InsertAll(norm, sets, key, dps), key) <==>
                        x in Entries(sets, key) || exists dp :: dp in dps && norm(dp) == Some(x)
    ensures forall k | k != key :: Entries(InsertAll(norm, sets, key, dps), k) == Entries(sets, k)
    decreases |dps|
  {
    if dps == [] {
    } else {
      if norm(dps[0]).Some? {
        InsertIntoKeepsSlices(sets, key, norm(dps[0]).value);
      }
      InsertAllIsExact(norm, AddCrl(norm, sets, key, dps[0]), key, dps[1..]);
      assert forall dp :: dp in dps <==> dp == dps[0] || dp in dps[1..];
    }
  }

  lemma AskedIsExact(norm: Normaliser, sets: Sets, i: string, c: Cert)
    requires Slices(sets)
    ensures forall x :: x in Entries(Asked(norm, sets, i, c), CrlKey(i)) <==>
                        x in Entries(sets, CrlKey(i)) || exists dp :: dp in c.dps && norm(dp) == Some(x)
    ensures forall x :: x in Entries(Asked(norm, sets, i, c), IssuersKey(i)) <==>
                        x in Entries(sets, IssuersKey(i)) || x == c.dn
  {
    assert CrlKey(i)[0] == 'c' && IssuersKey(i)[0] == 'i';
    InsertAllIsExact(norm, sets, CrlKey(i), c.dps);
    InsertIntoKeepsSlices(InsertAll(norm, sets, CrlKey(i), c.dps), IssuersKey(i), c.dn);
  }

  lemma StoredParts(norm: Normaliser, db: Db, d: string, i: string, c: Cert)
    ensures var inserted := InsertInto(db.sets, SetKey(d, i), BinaryString(c.serial));
            var (sets, m) := Accumulated(norm, inserted, MetaOf(db.meta, i), i, d, c);
            var db' := StoredIn(norm, db, d, i, c);
            if IsNew(db, d, i, c) then db'.sets == sets && db'.meta == db.meta[i := m]
            else db'.sets == inserted && db'.meta == db.meta
  {
  }

  /** One store, from a state whose maps agree with the remote sets. */
  lemma StoreAsIfAsking(norm: Normaliser, db: Db, d: string, i: string, c: Cert)
    requires AllRecorded(norm, db)
    ensures StoredIn(norm, db, d, i, c).sets == AskingStore(norm, db.sets, d, i, c)
    ensures AllRecorded(norm, StoredIn(norm, db, d, i, c))
  {
    var inserted := InsertInto(db.sets, SetKey(d, i), BinaryString(c.serial));
    var m := MetaOf(db.meta, i);
    StoredParts(norm, db, d, i, c);
    InsertIntoGrows(db.sets, SetKey(d, i), BinaryString(c.serial));
    RecordedGrows(norm, db.sets, inserted, m, i);
    AccumulatesAsIfAsking(norm, inserted, m, i, d, c);
    var db' := StoredIn(norm, db, d, i, c);
    forall x | x in db'.meta ensures Recorded(norm, db'.sets, db'.meta[x], x) {
      if x in db.meta {
        RecordedGrows(norm, db.sets, db'.sets, db.meta[x], x);
      }
    }
  }

  /** Any sequence of stores from an empty database. */
  lemma {:induction false} StoresAsIfAsking(norm: Normaliser, cs: seq<Cert>)
    requires forall c <- cs :: Storable(c)
    ensures StoreAll(norm, EmptyDb(), cs).sets == AskingAll(norm, map[], cs)
    ensures AllRecorded(norm, StoreAll(norm, EmptyDb(), cs))
  {
    if cs == [] {
    } else {
      var c, before := cs[|cs| - 1], cs[..|cs| - 1];
      StoresAsIfAsking(norm, before);
      StoreAsIfAsking(norm, StoreAll(norm, EmptyDb(), before), DateOfCert(c), DigestId(c.digest), c);
    }
  }
}
