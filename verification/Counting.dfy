/** Cardinalities of images and of intervals. */
module Counting {

  ghost function Image<A, B>(dom: set<A>, f: A -> B): (r: set<B>)
    ensures |r| <= |dom|
    ensures forall a | a in dom :: f(a) in r
  {
    if dom == {} then {}
    else
      var a :| a in dom;
      Image(dom - {a}, f) + {f(a)}
  }

  lemma SubsetIsNoLarger<A>(small: set<A>, large: set<A>)
    requires small <= large
    ensures |small| <= |large|
  {
    assert large == small + (large - small);
  }

  /** The naturals from `lo` up to but excluding `hi`. */
  function Interval(lo: nat, hi: nat): (r: set<nat>)
    requires lo <= hi
    ensures forall p: nat :: p in r <==> lo <= p < hi
    ensures |r| == hi - lo
  {
    if lo == hi then {} else Interval(lo, hi - 1) + {hi - 1}
  }
}
