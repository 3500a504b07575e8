/** The in-memory remote cache: sorted string slices by key, with times of expiry
    that are only acted upon when some operation cleans up (storage/mockcache.go).
 */
module MockCache {
  import opened SortedSlices

  function Entries(data: map<string, seq<string>>, key: string): seq<string> {
    if key in data then data[key] else []
  }

  function Repeated(s: seq<string>, n: nat): seq<string> {
    if n == 0 then [] else Repeated(s, n - 1) + s
  }

  lemma {:induction false} RepeatedHolds(s: seq<string>, n: nat)
    ensures forall x :: x in Repeated(s, n) <==> n > 0 && x in s
  {
    if n == 0 {
    } else {
      RepeatedHolds(s, n - 1);
    }
  }

  /** What is left while an expiry sweep at `now` has still to look at some keys. */
  function Surviving<V>(before: map<string, V>, due: map<string, int>, ahead: set<string>, now: int): map<string, V> {
    map k | k in before && !(k in due && k !in ahead && due[k] < now) :: before[k]
  }

  /** Looking at one more key drops it if it is due. */
  lemma SweepOne<V>(before: map<string, V>, due: map<string, int>, ahead: set<string>, key: string, now: int)
    requires key in ahead && key in due
    ensures Surviving(before, due, ahead - {key}, now) ==
            if due[key] < now then Surviving(before, due, ahead, now) - {key} else Surviving(before, due, ahead, now)
  {
  }

  class MockRemoteCache {
    var data: map<string, seq<string>>
    var expirations: map<string, int>
    var duplicate: nat

    constructor ()
      ensures Valid() && data == map[] && expirations == map[] && duplicate == 0
    {
      data, expirations, duplicate := map[], map[], 0;
    }

    ghost predicate Valid()
      reads this
    {
      forall k <- data :: Sorted(data[k])
    }

    /** What an expiry sweep at `now` leaves. */
    ghost predicate Swept(before: map<string, seq<string>>, due: map<string, int>, now: int)
      reads this
    {
      data == Surviving(before, due, {}, now) && expirations == Surviving(due, due, {}, now)
    }

    method CleanupExpiry(now: int)
      modifies this`data, this`expirations
      ensures Swept(old(data), old(expirations), now)
      ensures old(Valid()) ==> Valid()
    {
      var keys := expirations.Keys;
      ghost var due := expirations;
      while keys != {}
        invariant keys <= due.Keys
        invariant data == Surviving(old(data), due, keys, now)
        invariant expirations == Surviving(due, due, keys, now)
        decreases keys
      {
        var key :| key in keys;
        SweepOne(old(data), due, keys, key, now);
        SweepOne(due, due, keys, key, now);
        if expirations[key] < now {
          data := data - {key};
          expirations := expirations - {key};
        }
        keys := keys - {key};
      }
    }

    /** Returns true exactly for a new entry; the slice becomes the sorted set with it. */
    method SetInsert(key: string, entry: string) returns (added: bool)
      requires Valid()
      modifies this`data
      ensures Valid()
      ensures added <==> entry !in Entries(old(data), key)
      ensures data == old(data)[key := Inserted(Entries(old(data), key), entry)]
    {
      var s := Entries(data, key);
      var idx := Search(s, entry);
      InsertedAtBound(s, entry, idx);
      InsertedIsSet(s, entry);
      if idx < |s| && s[idx] == entry {
        assert data[key] == s;
        return false;
      }
      data := data[key := s[..idx] + [entry] + s[idx..]];
      return true;
    }

    method SetContains(key: string, entry: string, now: int) returns (found: bool)
      requires Valid()
      modifies this`data, this`expirations
      ensures Valid() && Swept(old(data), old(expirations), now)
      ensures found <==> entry in Members(Entries(data, key))
    {
      CleanupExpiry(now);
      var s := Entries(data, key);
      var idx := Search(s, entry);
      InsertedAtBound(s, entry, idx);
      found := idx < |s| && s[idx] == entry;
    }

    method SetCardinality(key: string) returns (n: nat)
      requires Valid()
      ensures n == |Members(Entries(data, key))| && n == |Entries(data, key)|
    {
      n := |Entries(data, key)|;
      SortedSize(Entries(data, key));
    }

    /** What the channel carries: the slice, once and then `duplicate` times more. */
    method SetToChan(key: string, now: int) returns (stream: seq<string>)
      requires Valid()
      modifies this`data, this`expirations
      ensures Valid() && Swept(old(data), old(expirations), now)
      ensures stream == Repeated(Entries(data, key), duplicate + 1)
    {
      CleanupExpiry(now);
      stream := [];
      for i := 0 to duplicate + 1
        invariant stream == Repeated(Entries(data, key), i)
      {
        stream := stream + Entries(data, key);
      }
    }

    method ExpireAt(key: string, at: int)
      modifies this`expirations
      ensures expirations == old(expirations)[key := at]
    {
      expirations := expirations[key := at];
    }

    /** Returns the value already there, or sets and returns the one given. */
    method TrySet(key: string, v: string, now: int, life: int) returns (value: string)
      requires Valid() && (key in data ==> data[key] != [])
      modifies this`data, this`expirations
      ensures Valid()
      ensures key in old(data) ==> value == old(data)[key][0] && data == old(data) && expirations == old(expirations)
      ensures key !in old(data) ==> value == v && data == old(data)[key := [v]] &&
                                    expirations == old(expirations)[key := now + life]
    {
      if key in data {
        return data[key][0];
      }
      data := data[key := [v]];
      ExpireAt(key, now + life);
      return v;
    }
  }
}
