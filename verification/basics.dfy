/** Generic helpers over sequences that model how the document store answers
    queries: `findOne` picks the first match in natural order, taken here to be
    insertion order (the store does not guarantee it),
    `countDocuments` counts matches, `$sum` folds an amount over matches. */
module Basics {

  datatype Option<T> = None | Some(value: T)

  /** Index of the first element satisfying `p`, or None when nothing matches. */
  function FirstWhere<T>(xs: seq<T>, p: T -> bool): (r: Option<nat>)
    ensures r.Some? ==> r.value < |xs| && p(xs[r.value])
    ensures r.Some? ==> forall j :: 0 <= j < r.value ==> !p(xs[j])
    ensures r.None? <==> forall j :: 0 <= j < |xs| ==> !p(xs[j])
    decreases |xs|
  {
    if |xs| == 0 then None
    else if p(xs[0]) then Some(0)
    else match FirstWhere(xs[1..], p)
      case None => None
      case Some(k) => Some(k + 1)
  }

  /** Two sequences that agree on `p` everywhere have the same first match. */
  lemma FirstWhereSameMatches<T>(xs: seq<T>, ys: seq<T>, p: T -> bool)
    requires |xs| == |ys|
    requires forall j :: 0 <= j < |xs| ==> p(xs[j]) == p(ys[j])
    ensures FirstWhere(xs, p) == FirstWhere(ys, p)
  {
    match FirstWhere(xs, p)
    case None =>
    case Some(i) =>
      assert p(ys[i]);
  }

  /** Appending a match to a sequence with none makes the new element the first match. */
  lemma FirstWhereAppendMatch<T>(xs: seq<T>, x: T, p: T -> bool)
    requires FirstWhere(xs, p).None? && p(x)
    ensures FirstWhere(xs + [x], p) == Some(|xs|)
  {
    assert (xs + [x])[|xs|] == x;
    assert forall j :: 0 <= j < |xs| ==> (xs + [x])[j] == xs[j];
  }

  /** Removes the element at index `i`, keeping the others in order. */
  function RemoveAt<T>(xs: seq<T>, i: nat): (r: seq<T>)
    requires i < |xs|
    ensures |r| == |xs| - 1
    ensures forall j :: 0 <= j < i ==> r[j] == xs[j]
    ensures forall j :: i <= j < |r| ==> r[j] == xs[j + 1]
    ensures multiset(r) + multiset{xs[i]} == multiset(xs)
  {
    assert xs == xs[..i] + [xs[i]] + xs[i + 1..];
    xs[..i] + xs[i + 1..]
  }

  /** `findOneAndDelete`: removes the first match, if there is one. */
  function DeleteFirst<T>(xs: seq<T>, p: T -> bool): (r: seq<T>)
    ensures FirstWhere(xs, p).None? ==> r == xs
    ensures FirstWhere(xs, p).Some? ==> r == RemoveAt(xs, FirstWhere(xs, p).value)
  {
    match FirstWhere(xs, p)
    case None => xs
    case Some(i) => RemoveAt(xs, i)
  }

  /** Number of elements satisfying `p`. */
  function Count<T>(xs: seq<T>, p: T -> bool): (r: nat)
    ensures r <= |xs|
    ensures r == 0 <== forall j :: 0 <= j < |xs| ==> !p(xs[j])
  {
    if |xs| == 0 then 0
    else Count(xs[..|xs| - 1], p) + (if p(xs[|xs| - 1]) then 1 else 0)
  }

  lemma CountAppend<T>(xs: seq<T>, x: T, p: T -> bool)
    ensures Count(xs + [x], p) == Count(xs, p) + (if p(x) then 1 else 0)
  {
    assert (xs + [x])[..|xs|] == xs;
  }

  /** Replacing an element by one that `p` judges the same keeps the count. */
  lemma {:induction false} CountUpdateSame<T>(xs: seq<T>, i: nat, v: T, p: T -> bool)
    requires i < |xs|
    requires p(xs[i]) == p(v)
    ensures Count(xs[i := v], p) == Count(xs, p)
  {
    var n := |xs| - 1;
    if i < n {
      assert xs[i := v][..n] == xs[..n][i := v];
      CountUpdateSame(xs[..n], i, v, p);
    } else {
      assert xs[i := v][..n] == xs[..n];
    }
  }

  /** Sum of `f` over the elements satisfying `p`. */
  function SumWhere<T>(xs: seq<T>, p: T -> bool, f: T -> int): int
  {
    if |xs| == 0 then 0
    else SumWhere(xs[..|xs| - 1], p, f) + (if p(xs[|xs| - 1]) then f(xs[|xs| - 1]) else 0)
  }

  lemma SumWhereAppend<T>(xs: seq<T>, x: T, p: T -> bool, f: T -> int)
    ensures SumWhere(xs + [x], p, f) == SumWhere(xs, p, f) + (if p(x) then f(x) else 0)
  {
    assert (xs + [x])[..|xs|] == xs;
  }

  /** Replacing one element changes the sum by exactly that element's change. */
  lemma {:induction false} SumWhereUpdate<T>(xs: seq<T>, i: nat, v: T, p: T -> bool, f: T -> int)
    requires i < |xs|
    ensures SumWhere(xs[i := v], p, f)
         == SumWhere(xs, p, f) - (if p(xs[i]) then f(xs[i]) else 0) + (if p(v) then f(v) else 0)
  {
    var n := |xs| - 1;
    if i < n {
      assert xs[i := v][..n] == xs[..n][i := v];
      SumWhereUpdate(xs[..n], i, v, p, f);
    } else {
      assert xs[i := v][..n] == xs[..n];
    }
  }

  /** Removing one element lowers the sum by exactly that element's share. */
  lemma {:induction false} SumWhereRemoveAt<T>(xs: seq<T>, i: nat, p: T -> bool, f: T -> int)
    requires i < |xs|
    ensures SumWhere(RemoveAt(xs, i), p, f) == SumWhere(xs, p, f) - (if p(xs[i]) then f(xs[i]) else 0)
  {
    var n := |xs| - 1;
    if i == n {
      assert RemoveAt(xs, i) == xs[..n];
    } else {
      var ys := xs[..n];
      assert RemoveAt(xs, i) == RemoveAt(ys, i) + [xs[n]];
      SumWhereAppend(RemoveAt(ys, i), xs[n], p, f);
      SumWhereRemoveAt(ys, i, p, f);
    }
  }

  /** The elements satisfying `p`, in their original order. */
  function Filter<T>(xs: seq<T>, p: T -> bool): (r: seq<T>)
    ensures |r| <= |xs|
    ensures forall j :: 0 <= j < |r| ==> p(r[j])
    ensures forall j :: 0 <= j < |r| ==> r[j] in xs
    ensures forall j :: 0 <= j < |xs| && p(xs[j]) ==> xs[j] in r
  {
    if |xs| == 0 then []
    else
      var init := xs[..|xs| - 1];
      var last := xs[|xs| - 1];
      assert xs == init + [last];
      Filter(init, p) + (if p(last) then [last] else [])
  }

  /** The filter keeps exactly as many elements as `Count` counts. */
  lemma {:induction false} FilterLength<T>(xs: seq<T>, p: T -> bool)
    ensures |Filter(xs, p)| == Count(xs, p)
  {
    if |xs| > 0 {
      FilterLength(xs[..|xs| - 1], p);
    }
  }

  /** The sequence in reverse order. */
  function Reverse<T>(xs: seq<T>): (r: seq<T>)
    ensures |r| == |xs|
    ensures forall j :: 0 <= j < |xs| ==> r[j] == xs[|xs| - 1 - j]
    ensures forall j :: 0 <= j < |r| ==> r[j] in xs
  {
    if |xs| == 0 then [] else [xs[|xs| - 1]] + Reverse(xs[..|xs| - 1])
  }

  /** `skip(k).limit(n)`: at most `n` elements, taken in order from position `k` on. */
  function Window<T>(xs: seq<T>, k: nat, n: nat): (r: seq<T>)
    ensures |r| <= n
    ensures k >= |xs| ==> r == []
    ensures k < |xs| ==> |r| == (if n <= |xs| - k then n else |xs| - k)
    ensures k + |r| <= |xs| || r == []
    ensures forall j :: 0 <= j < |r| ==> r[j] == xs[k + j]
    ensures forall j :: 0 <= j < |r| ==> r[j] in xs
  {
    if k >= |xs| then []
    else if k + n <= |xs| then xs[k..k + n]
    else xs[k..]
  }

  /** `sort(newest first).skip(k).limit(n)` over a sequence kept oldest
      first: the `j`-th result is the `(k + j)`-th element counted from the end. */
  function NewestWindow<T>(xs: seq<T>, k: nat, n: nat): (r: seq<T>)
    ensures |r| == (if k >= |xs| then 0 else if n <= |xs| - k then n else |xs| - k)
    ensures forall j :: 0 <= j < |r| ==> k + j < |xs| && r[j] == xs[|xs| - 1 - (k + j)]
    ensures forall j :: 0 <= j < |r| ==> r[j] in xs
  {
    Window(Reverse(xs), k, n)
  }
}
