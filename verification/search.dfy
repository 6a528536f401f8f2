/** First-match search over an ordered sequence: the shape shared by the
    attachment fallback list, the MIME table and the handler's ordered
    validation guards. */
module Search {
  import opened Wrappers

  /** `k` is the position of the first element of `xs` satisfying `p`. */
  ghost predicate IsFirst<T>(xs: seq<T>, p: T -> bool, k: int) {
    && 0 <= k < |xs|
    && p(xs[k])
    && forall j :: 0 <= j < k ==> !p(xs[j])
  }

  /** No element of `xs` satisfies `p`. */
  ghost predicate NoneMatch<T>(xs: seq<T>, p: T -> bool) {
    forall j :: 0 <= j < |xs| ==> !p(xs[j])
  }

  /** The index of the first element satisfying `p`, or None. */
  function FirstIndex<T>(xs: seq<T>, p: T -> bool): (r: Option<nat>)
    ensures r.Some? ==> IsFirst(xs, p, r.value)
    ensures r.None? <==> NoneMatch(xs, p)
    decreases |xs|
  {
    if |xs| == 0 then None
    else if p(xs[0]) then Some(0)
    else
      match FirstIndex(xs[1..], p)
      case None => None
      case Some(k) => Some(k + 1)
  }

  /** The first match is unique: any position that is a first match is the
      one `FirstIndex` reports. */
  lemma FirstIndexUnique<T>(xs: seq<T>, p: T -> bool, k: int)
    requires IsFirst(xs, p, k)
    ensures FirstIndex(xs, p) == Some(k)
  {
    assert !NoneMatch(xs, p) by { assert p(xs[k]); }
  }

  /** Nothing after the first match is ever reported ahead of it: if some
      position `i` satisfies `p`, the reported position is at or before `i`. */
  lemma FirstIndexNoLater<T>(xs: seq<T>, p: T -> bool, i: int)
    requires 0 <= i < |xs| && p(xs[i])
    ensures FirstIndex(xs, p).Some?
    ensures FirstIndex(xs, p).value <= i
  {
    assert !NoneMatch(xs, p);
  }
}
