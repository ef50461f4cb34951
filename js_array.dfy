/**
 * `Array.prototype.filter` and `Array.prototype.slice` as the pages use
 * them, on sequences.
 */
module JsArray {

  /** `xs.filter(keep)`: the elements `keep` accepts, in their original order.
      Everything kept comes from `xs` and is accepted, and every accepted
      element of `xs` is kept. */
  function Filter<T>(xs: seq<T>, keep: T -> bool): (r: seq<T>)
    ensures |r| <= |xs|
    ensures forall k :: 0 <= k < |r| ==> keep(r[k]) && r[k] in xs
    ensures forall k :: 0 <= k < |xs| && keep(xs[k]) ==> xs[k] in r
  {
    if xs == [] then []
    else
      var rest := Filter(xs[1..], keep);
      assert forall k :: 1 <= k < |xs| ==> xs[k] == xs[1..][k - 1];
      (if keep(xs[0]) then [xs[0]] else []) + rest
  }

  /** Filtering keeps order: it distributes over concatenation. */
  lemma {:induction false} FilterAppend<T>(xs: seq<T>, ys: seq<T>, keep: T -> bool)
    ensures Filter(xs + ys, keep) == Filter(xs, keep) + Filter(ys, keep)
  {
    if xs == [] {
      assert xs + ys == ys;
    } else {
      assert (xs + ys)[1..] == xs[1..] + ys;
      FilterAppend(xs[1..], ys, keep);
    }
  }

  /** An element survives the filter exactly as often as it occurs, if accepted. */
  lemma {:induction false} FilterCounts<T>(xs: seq<T>, keep: T -> bool, x: T)
    ensures multiset(Filter(xs, keep))[x] == if keep(x) then multiset(xs)[x] else 0
  {
    if xs != [] {
      var head: seq<T> := if keep(xs[0]) then [xs[0]] else [];
      FilterCounts(xs[1..], keep, x);
      assert Filter(xs, keep) == head + Filter(xs[1..], keep);
      assert multiset(xs) == multiset([xs[0]]) + multiset(xs[1..]) by {
        assert xs == [xs[0]] + xs[1..];
      }
    }
  }

  /** Two complementary filters split a sequence: every element lands in exactly
      one of them. */
  lemma {:induction false} FilterComplement<T>(xs: seq<T>, keep: T -> bool, drop: T -> bool)
    requires forall x :: drop(x) == !keep(x)
    ensures multiset(Filter(xs, keep)) + multiset(Filter(xs, drop)) == multiset(xs)
    ensures |Filter(xs, keep)| + |Filter(xs, drop)| == |xs|
  {
    if xs != [] {
      FilterComplement(xs[1..], keep, drop);
      assert xs == [xs[0]] + xs[1..];
    }
  }

  /** How `slice` reads one of its (relative) bounds against a length. */
  function RelativeIndex(i: int, len: nat): (r: nat)
    ensures r <= len
  {
    if i < 0 then (if len + i < 0 then 0 else len + i)
    else if i > len then len
    else i
  }

  /** `xs.slice(start, end)`: always one contiguous run of `xs`. */
  function Slice<T>(xs: seq<T>, start: int, end: int): (r: seq<T>)
    ensures exists a, b :: 0 <= a <= b <= |xs| && r == xs[a..b]
  {
    var a := RelativeIndex(start, |xs|);
    var b := RelativeIndex(end, |xs|);
    if a < b then xs[a..b] else assert xs[a..a] == []; []
  }

  /** With bounds that are not negative, `slice` is the window between them
      cut off at the end of the array: never longer than `end - start`. */
  lemma SliceWithinBounds<T>(xs: seq<T>, start: int, end: int)
    requires 0 <= start <= end
    ensures var a := if start <= |xs| then start else |xs|;
      var b := if end <= |xs| then end else |xs|;
      Slice(xs, start, end) == xs[a..b]
    ensures |Slice(xs, start, end)| <= end - start
    ensures start >= |xs| ==> Slice(xs, start, end) == []
  {
  }
}
