/** The serials known for one bucket: storage/knowncertificates.go over the in-memory
    cache. The bucket's local object also remembers whether it has set an expiry.
 */
module KnownCertificates {
  import opened SortedSlices
  import opened MockCache
  import opened Base64
  import opened Identifiers

  /** `Serial.BinaryString`: the bytes as a string of as many characters. */
  function BinaryString(serial: seq<byte>): string {
    seq(|serial|, i requires 0 <= i < |serial| => serial[i] as char)
  }

  /** `NewSerialFromBinaryString`. */
  function FromBinaryString(s: string): seq<byte> {
    seq(|s|, i requires 0 <= i < |s| => (s[i] as int % 256) as byte)
  }

  /** Go strings are byte strings. */
  predicate IsByteString(s: string) {
    forall i | 0 <= i < |s| :: (s[i] as int) < 256
  }

  lemma BinaryStringIsReversible(serial: seq<byte>)
    ensures IsByteString(BinaryString(serial)) && FromBinaryString(BinaryString(serial)) == serial
    ensures |BinaryString(serial)| == |serial|
    ensures forall i | 0 <= i < |serial| :: BinaryString(serial)[i] as int == serial[i]
  {
    var s := BinaryString(serial);
    forall i | 0 <= i < |serial| ensures s[i] as int == serial[i] && FromBinaryString(s)[i] == serial[i] {}
  }

  lemma ByteStringIsReversible(s: string)
    requires IsByteString(s)
    ensures BinaryString(FromBinaryString(s)) == s
  {
    var b := FromBinaryString(s);
    forall i | 0 <= i < |s| ensures BinaryString(b)[i] == s[i] {
      assert b[i] == s[i] as int;
    }
  }

  class KnownCertificates {
    const expDate: ExpDate
    const issuer: string
    const cache: MockRemoteCache
    var expirySet: bool

    constructor (expDate: ExpDate, issuer: string, cache: MockRemoteCache)
      ensures this.expDate == expDate && this.issuer == issuer && this.cache == cache && !expirySet
    {
      this.expDate, this.issuer, this.cache := expDate, issuer, cache;
      expirySet := false;
    }

    function Key(): string
      requires Regular(expDate)
    {
      SerialKey(expDate, issuer)
    }

    /** True exactly the first time a serial is seen; the first call of this object also
        sets the bucket to expire at its date. */
    method WasUnknown(serial: seq<byte>) returns (unknown: bool)
      requires Regular(expDate) && cache.Valid()
      modifies this`expirySet, cache`data, cache`expirations
      ensures cache.Valid() && expirySet
      ensures unknown <==> BinaryString(serial) !in Entries(old(cache.data), Key())
      ensures cache.data == old(cache.data)[Key() := Inserted(Entries(old(cache.data), Key()), BinaryString(serial))]
      ensures cache.expirations ==
              if old(expirySet) then old(cache.expirations) else old(cache.expirations)[Key() := expDate.date]
    {
      unknown := cache.SetInsert(Key(), BinaryString(serial));
      if !expirySet {
        cache.ExpireAt(Key(), expDate.date);
        expirySet := true;
      }
    }

    method Count() returns (n: nat)
      requires Regular(expDate) && cache.Valid()
      ensures n == |Entries(cache.data, Key())|
    {
      n := cache.SetCardinality(Key());
    }

    /** Every known serial once, however often the scan repeats them, in some order; so
        as many as `Count` says. */
    method Known(now: int) returns (list: seq<seq<byte>>)
      requires Regular(expDate) && cache.Valid()
      requires forall x <- Entries(cache.data, Key()) :: IsByteString(x)
      modifies cache`data, cache`expirations
      ensures cache.Valid() && cache.Swept(old(cache.data), old(cache.expirations), now)
      ensures forall i, j | 0 <= i < j < |list| :: list[i] != list[j]
      ensures forall b: seq<byte> :: b in list <==> BinaryString(b) in Entries(cache.data, Key())
      ensures |list| == |Entries(cache.data, Key())|
    {
      var stream := cache.SetToChan(Key(), now);
      RepeatedHolds(Entries(cache.data, Key()), cache.duplicate + 1);
      var serials := Collected(stream);
      assert serials == Members(Entries(cache.data, Key()));
      SortedSize(Entries(cache.data, Key()));
      list := Parsed(serials);
    }
  }

  /** The loop that fills a hash set from the channel. */
  method Collected(stream: seq<string>) returns (serials: set<string>)
    ensures serials == Members(stream)
  {
    serials := {};
    for i := 0 to |stream|
      invariant serials == Members(stream[..i])
    {
      serials := serials + {stream[i]};
      assert stream[..i + 1] == stream[..i] + [stream[i]];
    }
    assert stream[..|stream|] == stream;
  }

  /** The loop that turns the hash set into a list, in no particular order. */
  method Parsed(serials: set<string>) returns (list: seq<seq<byte>>)
    requires forall x <- serials :: IsByteString(x)
    ensures |list| == |serials|
    ensures forall i, j | 0 <= i < j < |list| :: list[i] != list[j]
    ensures forall b: seq<byte> :: b in list <==> BinaryString(b) in serials
  {
    list := [];
    var left := serials;
    ghost var strs: seq<string> := [];
    while left != {}
      invariant left <= serials && |list| == |serials| - |left|
      invariant SerialsOf(strs, list)
      invariant forall x :: x in strs <==> x in serials && x !in left
      decreases left
    {
      var str :| str in left;
      ByteStringIsReversible(str);
      list := list + [FromBinaryString(str)];
      strs := strs + [str];
      left := left - {str};
    }
    SerialsAreFaithful(strs, list);
  }

  /** Distinct byte strings and, position by position, the serials they stand for. */
  ghost predicate SerialsOf(strs: seq<string>, list: seq<seq<byte>>) {
    && |strs| == |list|
    && (forall i, j | 0 <= i < j < |strs| :: strs[i] != strs[j])
    && (forall i | 0 <= i < |strs| :: BinaryString(list[i]) == strs[i])
  }

  lemma SerialsAreFaithful(strs: seq<string>, list: seq<seq<byte>>)
    requires SerialsOf(strs, list)
    ensures forall i, j | 0 <= i < j < |list| :: list[i] != list[j]
    ensures forall b: seq<byte> :: b in list <==> BinaryString(b) in strs
  {
    forall i, j | 0 <= i < j < |list| ensures list[i] != list[j] {
      assert BinaryString(list[i]) != BinaryString(list[j]);
    }
    forall b: seq<byte> ensures b in list <==> BinaryString(b) in strs {
      BinaryStringIsReversible(b);
      if BinaryString(b) in strs {
        var i :| 0 <= i < |strs| && strs[i] == BinaryString(b);
        BinaryStringIsReversible(list[i]);
        assert list[i] == b;
      }
    }
  }
}
