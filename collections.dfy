/**
 * Generic sequence helpers shared by the apps: the two array methods they
 * use, `Array.prototype.filter` and `Array.prototype.find`, as pure
 * functions, plus the notion of an order-preserving subsequence.
 */
module Collections {

  datatype Option<+T> = None | Some(value: T)

  /** `a` can be obtained from `b` by deleting elements, keeping the order. */
  predicate IsSubsequence<T(==)>(a: seq<T>, b: seq<T>)
    decreases |b|
  {
    a == [] ||
    (b != [] && ((a[0] == b[0] && IsSubsequence(a[1..], b[1..])) || IsSubsequence(a, b[1..])))
  }

  /** `xs.filter(keep)`: the elements that pass `keep`, in their original order. */
  function KeepIf<T(==, !new)>(xs: seq<T>, keep: T -> bool): (r: seq<T>)
    ensures |r| <= |xs|
    ensures forall x :: x in r <==> x in xs && keep(x)
    ensures forall x :: multiset(r)[x] == if keep(x) then multiset(xs)[x] else 0
    ensures IsSubsequence(r, xs)
    ensures (forall x :: x in xs ==> keep(x)) ==> r == xs
    decreases |xs|
  {
    if xs == [] then []
    else
      var rest := KeepIf(xs[1..], keep);
      assert xs == [xs[0]] + xs[1..];
      if keep(xs[0]) then [xs[0]] + rest else rest
  }

  /** `xs.find(test)`: the first element that passes `test`, or `undefined` (None). */
  function FindFirst<T>(xs: seq<T>, test: T -> bool): (r: Option<T>)
    ensures r.None? <==> forall i :: 0 <= i < |xs| ==> !test(xs[i])
    ensures r.Some? ==> exists i :: 0 <= i < |xs| && xs[i] == r.value && test(xs[i]) &&
                                    forall j :: 0 <= j < i ==> !test(xs[j])
    decreases |xs|
  {
    if xs == [] then None
    else if test(xs[0]) then Some(xs[0])
    else
      var r := FindFirst(xs[1..], test);
      assert forall i :: 1 <= i < |xs| ==> xs[i] == xs[1..][i - 1];
      r
  }
}
