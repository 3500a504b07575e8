/** Splitting text at a separator, as `strings.Split` does: leftmost occurrences first. */
module Text {

  predicate OccursAt(s: string, sep: string, i: int) {
    0 <= i && i + |sep| <= |s| && s[i..i + |sep|] == sep
  }

  /** The first occurrence of `sep` at or after `from`, or -1. */
  function IndexFrom(s: string, sep: string, from: nat): (k: int)
    requires from <= |s|
    ensures k == -1 ==> forall i | i >= from :: !OccursAt(s, sep, i)
    ensures k != -1 ==> from <= k && OccursAt(s, sep, k) && forall i | from <= i < k :: !OccursAt(s, sep, i)
    decreases |s| - from
  {
    if OccursAt(s, sep, from) then from
    else if from == |s| then -1
    else IndexFrom(s, sep, from + 1)
  }

  function Split(s: string, sep: string): (parts: seq<string>)
    requires sep != ""
    ensures |parts| >= 1
    decreases |s|
  {
    var k := IndexFrom(s, sep, 0);
    if k == -1 then [s] else [s[..k]] + Split(s[k + |sep|..], sep)
  }

  function Join(parts: seq<string>, sep: string): string {
    if parts == [] then ""
    else if |parts| == 1 then parts[0]
    else parts[0] + sep + Join(parts[1..], sep)
  }

  predicate Contains(s: string, sep: string) {
    exists i :: 0 <= i <= |s| && OccursAt(s, sep, i)
  }

  lemma SplitStep(s: string, sep: string)
    requires sep != ""
    ensures var k := IndexFrom(s, sep, 0);
            if k == -1 then Split(s, sep) == [s]
            else Split(s, sep) == [s[..k]] + Split(s[k + |sep|..], sep) && s == s[..k] + sep + s[k + |sep|..]
  {
    var k := IndexFrom(s, sep, 0);
    if k != -1 {
      CutAround(s, sep, k);
    }
  }

  lemma CutAround(s: string, sep: string, k: int)
    requires OccursAt(s, sep, k)
    ensures s == s[..k] + sep + s[k + |sep|..]
  {
  }

  /** Joining the parts of a split gives the text back. */
  lemma {:induction false} SplitThenJoin(s: string, sep: string)
    requires sep != ""
    ensures Join(Split(s, sep), sep) == s
    decreases |s|
  {
    SplitStep(s, sep);
    var k := IndexFrom(s, sep, 0);
    if k == -1 {
    } else {
      SplitThenJoin(s[k + |sep|..], sep);
      JoinOneMore(s[..k], Split(s[k + |sep|..], sep), sep);
    }
  }

  /** No part of a split holds the separator. */
  lemma {:induction false} PartsHoldNone(s: string, sep: string)
    requires sep != ""
    ensures forall p <- Split(s, sep) :: !Contains(p, sep)
    decreases |s|
  {
    SplitStep(s, sep);
    var k := IndexFrom(s, sep, 0);
    if k == -1 {
    } else {
      PartsHoldNone(s[k + |sep|..], sep);
      HeadHoldsNone(s, sep, k);
    }
  }

  lemma JoinOneMore(head: string, parts: seq<string>, sep: string)
    requires parts != []
    ensures Join([head] + parts, sep) == head + sep + Join(parts, sep)
  {
    assert ([head] + parts)[1..] == parts;
  }

  lemma HeadHoldsNone(s: string, sep: string, k: int)
    requires sep != "" && 0 <= k <= |s| && forall i | 0 <= i < k :: !OccursAt(s, sep, i)
    ensures !Contains(s[..k], sep)
  {
    forall i | 0 <= i <= k ensures !OccursAt(s[..k], sep, i) {
      if i + |sep| <= k {
        assert s[..k][i..i + |sep|] == s[i..i + |sep|];
        assert !OccursAt(s, sep, i);
      }
    }
  }

  /** The first separator after `a` is the one that follows it. */
  predicate EndsCleanly(a: string, sep: string) {
    forall i | 0 <= i < |a| :: !OccursAt(a + sep, sep, i)
  }

  /** Splitting after `a` yields `a` as the first part exactly when `a` ends cleanly. */
  lemma SplitAfter(a: string, sep: string, b: string)
    requires sep != ""
    ensures EndsCleanly(a, sep) ==> Split(a + sep + b, sep) == [a] + Split(b, sep)
    ensures !EndsCleanly(a, sep) ==> |Split(a + sep + b, sep)[0]| < |a|
  {
    var s := a + sep + b;
    var k := IndexFrom(s, sep, 0);
    assert OccursAt(s, sep, |a|);
    if EndsCleanly(a, sep) {
      forall i | 0 <= i < |a| ensures !OccursAt(s, sep, i) {
        if OccursAt(s, sep, i) {
          assert (a + sep)[i..i + |sep|] == s[i..i + |sep|];
          assert OccursAt(a + sep, sep, i);
        }
      }
      assert k == |a| && s[..k] == a && s[k + |sep|..] == b;
    } else {
      var i :| 0 <= i < |a| && OccursAt(a + sep, sep, i);
      assert s[i..i + |sep|] == (a + sep)[i..i + |sep|];
      assert OccursAt(s, sep, i);
    }
  }

  /** Without its separator a text is a single part. */
  lemma SplitWhole(s: string, sep: string)
    requires sep != "" && !Contains(s, sep)
    ensures Split(s, sep) == [s]
  {
  }

  /** With its separator it is more than one. */
  lemma SplitHasMany(s: string, sep: string)
    requires sep != "" && Contains(s, sep)
    ensures |Split(s, sep)| >= 2
  {
    var i :| 0 <= i <= |s| && OccursAt(s, sep, i);
    assert IndexFrom(s, sep, 0) != -1;
  }

  lemma ColonsAt(s: string, i: int)
    ensures OccursAt(s, "::", i) <==> 0 <= i < |s| - 1 && s[i] == ':' && s[i + 1] == ':'
  {
    if 0 <= i < |s| - 1 {
      assert s[i..i + 2] == [s[i], s[i + 1]];
    }
  }

  /** For the doubled colon, a text ends cleanly unless it holds one or ends in ':'. */
  lemma CleanForColons(a: string)
    ensures EndsCleanly(a, "::") <==> !Contains(a, "::") && (a == "" || a[|a| - 1] != ':')
  {
    if a != "" && a[|a| - 1] == ':' {
      ColonsAt(a + "::", |a| - 1);
    }
    if Contains(a, "::") {
      UncleanWithin(a);
    }
    if i :| 0 <= i < |a| && OccursAt(a + "::", "::", i) {
      ColonsAt(a + "::", i);
      ColonsAt(a, i);
    }
  }

  lemma UncleanWithin(a: string)
    requires Contains(a, "::")
    ensures !EndsCleanly(a, "::")
  {
    var i :| 0 <= i <= |a| && OccursAt(a, "::", i);
    ColonsAt(a, i);
    ColonsAt(a + "::", i);
  }

  /** A text without ':' ends cleanly and holds no doubled colon. */
  lemma NoColonIsClean(a: string)
    requires ':' !in a
    ensures EndsCleanly(a, "::") && !Contains(a, "::")
  {
    forall i ensures !OccursAt(a, "::", i) {
      ColonsAt(a, i);
    }
    CleanForColons(a);
  }

  /** A single-character separator is clean after a text without it. */
  lemma CleanForChar(a: string, c: char)
    ensures EndsCleanly(a, [c]) <==> c !in a
    ensures Contains(a, [c]) <==> c in a
  {
    forall i | 0 <= i < |a| ensures OccursAt(a + [c], [c], i) <==> a[i] == c {
      assert (a + [c])[i..i + 1] == [a[i]];
    }
    forall i | 0 <= i < |a| ensures OccursAt(a, [c], i) <==> a[i] == c {
      assert a[i..i + 1] == [a[i]];
    }
    if c in a {
      var i :| 0 <= i < |a| && a[i] == c;
      assert OccursAt(a + [c], [c], i) && OccursAt(a, [c], i);
    }
  }
}
