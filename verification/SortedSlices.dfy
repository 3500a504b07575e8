/** Sorted slices of strings kept by binary search and insertion, as the in-memory
    cache and backend keep their sets (storage/mockcache.go, storage/mockbackend.go).
 */
module SortedSlices {
  import opened Runs

  /** `strings.Compare(a, b) < 0` */
  predicate Less(a: string, b: string) {
    b != "" && (a == "" || a[0] < b[0] || (a[0] == b[0] && Less(a[1..], b[1..])))
  }

  lemma {:induction false} LessIsTotal(a: string, b: string)
    ensures a == b || Less(a, b) || Less(b, a)
    ensures !(Less(a, b) && Less(b, a))
    decreases |a|
  {
    if a == "" || b == "" || a[0] != b[0] {
    } else {
      LessIsTotal(a[1..], b[1..]);
      assert a == [a[0]] + a[1..] && b == [b[0]] + b[1..];
    }
  }

  lemma {:induction false} LessIsIrreflexive(a: string)
    ensures !Less(a, a)
    decreases |a|
  {
    if a == "" {
    } else {
      LessIsIrreflexive(a[1..]);
    }
  }

  lemma {:induction false} LessIsTransitive(a: string, b: string, c: string)
    requires Less(a, b) && Less(b, c)
    ensures Less(a, c)
    decreases |a|
  {
    if a == "" || a[0] != b[0] || b[0] != c[0] {
    } else {
      LessIsTransitive(a[1..], b[1..], c[1..]);
    }
  }

  /** Both agree up to k, where a ends or has the smaller character. */
  predicate SmallerAt(a: string, b: string, k: nat) {
    k <= |a| && k < |b| && a[..k] == b[..k] && (k == |a| || a[k] < b[k])
  }

  lemma HeadsAgree(a: string, b: string, k: nat)
    ensures SmallerAt(a, b, k) && k > 0 ==> a[0] == b[0]
  {
    if SmallerAt(a, b, k) && k > 0 {
      assert a[0] == a[..k][0] && b[0] == b[..k][0];
    }
  }

  /** The order is lexicographic, smaller characters and shorter texts first. */
  lemma {:induction false} LessIsLexicographic(a: string, b: string)
    ensures Less(a, b) <==> exists k: nat :: SmallerAt(a, b, k)
    decreases |a|
  {
    if b == "" {
    } else if a == "" || a[0] < b[0] {
      assert SmallerAt(a, b, 0);
    } else if a[0] == b[0] {
      LessIsLexicographic(a[1..], b[1..]);
      if k: nat :| SmallerAt(a[1..], b[1..], k) {
        assert a[..k + 1] == [a[0]] + a[1..][..k] && b[..k + 1] == [b[0]] + b[1..][..k];
        assert SmallerAt(a, b, k + 1);
      }
      if k: nat :| SmallerAt(a, b, k) {
        assert k > 0;
        assert a[1..][..k - 1] == a[..k][1..] && b[1..][..k - 1] == b[..k][1..];
        assert SmallerAt(a[1..], b[1..], k - 1);
      }
    } else {
      forall k: nat ensures !SmallerAt(a, b, k) {
        HeadsAgree(a, b, k);
      }
    }
  }

  /** Strictly ascending, so without duplicates. */
  predicate Sorted(s: seq<string>) {
    forall i, j | 0 <= i < j < |s| :: Less(s[i], s[j])
  }

  /** Where an entry belongs: everything before is smaller, nothing from there on is. */
  predicate LowerBound(s: seq<string>, entry: string, i: nat) {
    && i <= |s|
    && (forall j: nat | j < i :: Less(s[j], entry))
    && (forall j: nat | i <= j < |s| :: !Less(s[j], entry))
  }

  /** `sort.Search` for the first element not below `entry`. */
  method Search(s: seq<string>, entry: string) returns (i: nat)
    ensures i <= |s| && (Sorted(s) ==> LowerBound(s, entry, i))
  {
    i := 0;
    var j: nat := |s|;
    while i < j
      invariant i <= j <= |s|
      invariant Sorted(s) ==> forall k: nat | k < i :: Less(s[k], entry)
      invariant Sorted(s) ==> forall k: nat | j <= k < |s| :: !Less(s[k], entry)
    {
      var h := (i + j) / 2;
      if Sorted(s) {
        Neighbours(s, entry, h);
      }
      if Less(s[h], entry) {
        i := h + 1;
      } else {
        j := h;
      }
    }
  }

  lemma Neighbours(s: seq<string>, entry: string, h: nat)
    requires Sorted(s) && h < |s|
    ensures Less(s[h], entry) ==> forall k: nat | k <= h :: Less(s[k], entry)
    ensures !Less(s[h], entry) ==> forall k: nat | h <= k < |s| :: !Less(s[k], entry)
  {
    forall k: nat | k < h && Less(s[h], entry) ensures Less(s[k], entry) {
      LessIsTransitive(s[k], s[h], entry);
    }
    forall k: nat | h < k < |s| && !Less(s[h], entry) ensures !Less(s[k], entry) {
      if Less(s[k], entry) {
        LessIsTransitive(s[h], s[k], entry);
      }
    }
  }

  /** The set with one more entry, as a sorted slice. */
  function Inserted(s: seq<string>, entry: string): seq<string> {
    if s == [] then [entry]
    else if s[0] == entry then s
    else if Less(entry, s[0]) then [entry] + s
    else [s[0]] + Inserted(s[1..], entry)
  }

  /** Inserting at the lower bound, unless the entry is there, is inserting in order. */
  lemma {:induction false} InsertedAtBound(s: seq<string>, entry: string, i: nat)
    requires Sorted(s) && LowerBound(s, entry, i)
    ensures Inserted(s, entry) == if i < |s| && s[i] == entry then s else s[..i] + [entry] + s[i..]
    ensures i < |s| && s[i] == entry <==> entry in s
    decreases |s|
  {
    if s == [] {
    } else if i > 0 {
      LessIsTotal(s[0], entry);
      var t := s[1..];
      InsertedAtBound(t, entry, i - 1);
      InsertBehindHead(s, entry, i);
    } else {
      NotBelowMeansAbsent(s, entry);
      assert s[..0] + [entry] + s[0..] == [entry] + s;
    }
  }

  lemma InsertBehindHead(s: seq<string>, entry: string, i: nat)
    requires 0 < i <= |s|
    ensures s[..i] + [entry] + s[i..] == [s[0]] + (s[1..][..i - 1] + [entry] + s[1..][i - 1..])
    ensures s == [s[0]] + s[1..]
  {
  }

  /** When nothing is below the entry, only the first element can be the entry. */
  lemma NotBelowMeansAbsent(s: seq<string>, entry: string)
    requires Sorted(s) && s != [] && !Less(s[0], entry)
    ensures s[0] != entry ==> Less(entry, s[0]) && entry !in s
  {
    LessIsTotal(s[0], entry);
    LessIsIrreflexive(entry);
    if s[0] != entry {
      forall j: nat | j < |s| ensures s[j] != entry {
        if j > 0 { LessIsTransitive(entry, s[0], s[j]); }
      }
    }
  }

  /** Insertion keeps the slice sorted and adds exactly the entry. */
  lemma {:induction false} InsertedIsSet(s: seq<string>, entry: string)
    requires Sorted(s)
    ensures Sorted(Inserted(s, entry))
    ensures forall x :: x in Inserted(s, entry) <==> x in s || x == entry
    decreases |s|
  {
    if s == [] || s[0] == entry {
    } else {
      LessIsTotal(s[0], entry);
      if Less(entry, s[0]) {
        forall j: nat | j < |s| ensures Less(entry, s[j]) {
          if j > 0 { LessIsTransitive(entry, s[0], s[j]); }
        }
      } else {
        var t := s[1..];
        InsertedIsSet(t, entry);
        assert forall x :: x in s <==> x == s[0] || x in t;
        forall x | x in Inserted(t, entry) ensures Less(s[0], x) {
          if x in t {
            var j: nat :| j < |t| && t[j] == x;
            assert x == s[j + 1];
          }
        }
      }
    }
  }

  /** Any list of insertions leaves the distinct entries, in order. */
  lemma {:induction false} InsertionsSortAndDeduplicate(entries: seq<string>)
    ensures Sorted(After(Inserted, [], entries))
    ensures forall x :: x in After(Inserted, [], entries) <==> x in entries
  {
    if entries == [] {
    } else {
      var front, last := entries[..|entries| - 1], entries[|entries| - 1];
      InsertionsSortAndDeduplicate(front);
      InsertedIsSet(After(Inserted, [], front), last);
      assert entries == front + [last];
    }
  }

  function Members(s: seq<string>): set<string> {
    set x | x in s
  }

  /** A sorted slice is as long as the set it holds is large. */
  lemma {:induction false} SortedSize(s: seq<string>)
    requires Sorted(s)
    ensures |Members(s)| == |s|
  {
    if s == [] {
    } else {
      var front, last := s[..|s| - 1], s[|s| - 1];
      SortedSize(front);
      assert s == front + [last];
      LessIsIrreflexive(last);
      assert last !in front;
      assert Members(s) == Members(front) + {last};
    }
  }
}
