/** Shared containers, stable sorting, and the decimal rounding the code relies on. */
module Basics {

  datatype Option<+T> = None | Some(value: T)

  /** A value, or the ValueError the script stops with. */
  datatype Result<+T> = Ok(result: T) | ValueError(message: string)

  function RemoveAt<T>(xs: seq<T>, i: nat): (r: seq<T>)
    requires i < |xs|
  {
    xs[..i] + xs[i+1..]
  }

  /** Sum of f over a list. */
  function Sum<T>(xs: seq<T>, f: T -> real): real {
    if xs == [] then 0.0 else Sum(xs[..|xs|-1], f) + f(xs[|xs|-1])
  }

  lemma {:induction false} SumConcat<T>(xs: seq<T>, ys: seq<T>, f: T -> real)
    ensures Sum(xs + ys, f) == Sum(xs, f) + Sum(ys, f)
  {
    if ys == [] {
      assert xs + ys == xs;
    } else {
      assert (xs + ys)[..|xs + ys| - 1] == xs + ys[..|ys| - 1];
      SumConcat(xs, ys[..|ys| - 1], f);
    }
  }

  /** The sum around position i. */
  lemma SumAround<T>(xs: seq<T>, i: nat, f: T -> real)
    requires i < |xs|
    ensures Sum(xs, f) == Sum(xs[..i], f) + f(xs[i]) + Sum(xs[i+1..], f)
  {
    var front := xs[..i+1];
    assert front[..i] == xs[..i] && front[i] == xs[i];
    assert xs == front + xs[i+1..];
    SumConcat(front, xs[i+1..], f);
  }

  lemma SumSingle<T>(x: T, f: T -> real)
    ensures Sum([x], f) == f(x)
  {
    assert [x][..0] == [];
  }

  lemma SumRemoveAt<T>(xs: seq<T>, i: nat, f: T -> real)
    requires i < |xs|
    ensures Sum(RemoveAt(xs, i), f) == Sum(xs, f) - f(xs[i])
  {
    hide Sum;
    SumAround(xs, i, f);
    SumConcat(xs[..i], xs[i+1..], f);
  }

  /** Any one element of a set that is not empty. */
  method Pick<T>(s: set<T>) returns (x: T)
    requires s != {}
    ensures x in s
  {
    x :| x in s;
  }

  lemma UnionCount<T>(a: set<T>, b: set<T>)
    requires a !! b
    ensures |a + b| == |a| + |b|
  {
  }

  lemma DifferenceCount<T>(a: set<T>, b: set<T>)
    requires b <= a
    ensures |a - b| == |a| - |b|
  {
    UnionCount(a - b, b);
    assert (a - b) + b == a;
  }

  /** The rows LIMIT returns: any limit of them, or all when there are fewer. */
  method PickSome<T>(s: set<T>, limit: nat) returns (picked: set<T>)
    ensures picked <= s && |picked| == if limit < |s| then limit else |s|
  {
    picked := {};
    while |picked| < limit && picked != s
      invariant picked <= s && |picked| <= limit
      decreases |s - picked|
    {
      DifferenceCount(s, picked);
      assert s - picked != {} by { assert picked + (s - picked) == s; }
      var x := Pick(s - picked);
      assert s - (picked + {x}) == (s - picked) - {x};
      UnionCount(picked, {x});
      DifferenceCount(s - picked, {x});
      picked := picked + {x};
    }
    DifferenceCount(s, picked);
  }

  /** Working off a set in batches: what one more batch leaves to do. */
  lemma BatchStep<T>(all: set<T>, done: set<T>, batch: set<T>)
    requires done <= all && batch <= all - done
    ensures done + batch <= all
    ensures |done + batch| == |done| + |batch|
    ensures |all - (done + batch)| == |all - done| - |batch|
    ensures |batch| == |all - done| ==> done + batch == all
  {
    UnionCount(done, batch);
    DifferenceCount(all - done, batch);
    assert all - (done + batch) == (all - done) - batch;
    if |batch| == |all - done| {
      assert all - (done + batch) == {};
      assert all == (done + batch) + (all - (done + batch));
    }
  }

  // ----- stable sorting by a comparison, as Python's sorted() does it -----

  ghost predicate TotalPreorder<T(!new)>(le: (T, T) -> bool) {
    && (forall x, y :: le(x, y) || le(y, x))
    && (forall x, y, z :: le(x, y) && le(y, z) ==> le(x, z))
  }

  ghost predicate SortedBy<T>(xs: seq<T>, le: (T, T) -> bool) {
    forall i, j :: 0 <= i < j < |xs| ==> le(xs[i], xs[j])
  }

  /** Insert x after every element that does not have to come later than it. */
  function InsertStable<T>(xs: seq<T>, x: T, le: (T, T) -> bool): seq<T> {
    if xs == [] then [x]
    else if le(xs[|xs|-1], x) then xs + [x]
    else InsertStable(xs[..|xs|-1], x, le) + [xs[|xs|-1]]
  }

  function StableSort<T>(xs: seq<T>, le: (T, T) -> bool): seq<T> {
    if xs == [] then [] else InsertStable(StableSort(xs[..|xs|-1], le), xs[|xs|-1], le)
  }

  lemma {:induction false} InsertStableMultiset<T>(xs: seq<T>, x: T, le: (T, T) -> bool)
    ensures multiset(InsertStable(xs, x, le)) == multiset(xs) + multiset{x}
  {
    if xs != [] && !le(xs[|xs|-1], x) {
      InsertStableMultiset(xs[..|xs|-1], x, le);
      assert xs == xs[..|xs|-1] + [xs[|xs|-1]];
    }
  }

  lemma {:induction false} InsertStableSorted<T(!new)>(xs: seq<T>, x: T, le: (T, T) -> bool)
    requires TotalPreorder(le) && SortedBy(xs, le)
    ensures SortedBy(InsertStable(xs, x, le), le)
  {
    if xs != [] && !le(xs[|xs|-1], x) {
      var front, last := xs[..|xs|-1], xs[|xs|-1];
      InsertStableSorted(front, x, le);
      InsertStableMultiset(front, x, le);
      var r := InsertStable(front, x, le);
      forall i | 0 <= i < |r| ensures le(r[i], last) {
        assert r[i] in multiset(r);
        assert r[i] in multiset(front) + multiset{x};
      }
    }
  }

  lemma EmptyIsSorted<T>(le: (T, T) -> bool)
    ensures SortedBy([], le)
  {
  }

  /** The result is an ordered rearrangement of the input. */
  lemma {:induction false} StableSortCorrect<T(!new)>(xs: seq<T>, le: (T, T) -> bool)
    requires TotalPreorder(le)
    ensures SortedBy(StableSort(xs, le), le)
    ensures multiset(StableSort(xs, le)) == multiset(xs)
  {
    hide TotalPreorder, SortedBy, InsertStable;
    if xs == [] {
      EmptyIsSorted(le);
    } else {
      var front, last := xs[..|xs|-1], xs[|xs|-1];
      StableSortCorrect(front, le);
      InsertStableSorted(StableSort(front, le), last, le);
      InsertStableMultiset(StableSort(front, le), last, le);
      assert xs == front + [last];
    }
  }

  /** A class of elements that compare equal keeps its input order: stability. */
  function Only<T>(xs: seq<T>, p: T -> bool): seq<T> {
    if xs == [] then [] else Only(xs[..|xs|-1], p) + if p(xs[|xs|-1]) then [xs[|xs|-1]] else []
  }

  lemma {:induction false} InsertStableKeepsClass<T(!new)>(xs: seq<T>, x: T, le: (T, T) -> bool, p: T -> bool)
    requires forall y, z :: p(y) && p(z) ==> le(y, z)
    ensures Only(InsertStable(xs, x, le), p) == Only(xs, p) + if p(x) then [x] else []
  {
    if xs == [] {
      assert [x][..0] == [];
    } else if le(xs[|xs|-1], x) {
      assert (xs + [x])[..|xs|] == xs;
    } else {
      var front, last := xs[..|xs|-1], xs[|xs|-1];
      InsertStableKeepsClass(front, x, le, p);
      var r := InsertStable(front, x, le);
      assert (r + [last])[..|r|] == r;
    }
  }

  lemma {:induction false} StableSortIsStable<T(!new)>(xs: seq<T>, le: (T, T) -> bool, p: T -> bool)
    requires forall y, z :: p(y) && p(z) ==> le(y, z)
    ensures Only(StableSort(xs, le), p) == Only(xs, p)
  {
    if xs != [] {
      StableSortIsStable(xs[..|xs|-1], le, p);
      InsertStableKeepsClass(StableSort(xs[..|xs|-1], le), xs[|xs|-1], le, p);
    }
  }

  // ----- Decimal.quantize with the default ROUND_HALF_EVEN -----

  /** n is the integer nearest to x, the even one if two are equally near. */
  predicate NearestEven(n: int, x: real) {
    && -0.5 <= n as real - x <= 0.5
    && (n as real - x == 0.5 || n as real - x == -0.5 ==> n % 2 == 0)
  }

  /** y is x rounded to whole multiples of 1/unit. */
  ghost predicate Quantized(y: real, x: real, unit: real)
    requires unit > 0.0
  {
    UnitsOf(y, x * unit, unit)
  }

  ghost predicate UnitsOf(y: real, z: real, unit: real)
    requires unit > 0.0
  {
    exists n: int :: NearestEven(n, z) && y == n as real / unit
  }

  function RoundHalfEven(x: real): (r: int)
    ensures -0.5 <= r as real - x <= 0.5
    ensures NearestEven(r, x)
  {
    var f := x.Floor;
    var frac := x - f as real;
    if frac < 0.5 || (frac == 0.5 && f % 2 == 0) then f else f + 1
  }

  lemma RoundHalfEvenMonotone(x: real, y: real)
    requires x <= y
    ensures RoundHalfEven(x) <= RoundHalfEven(y)
  {
    assert x.Floor <= y.Floor;
  }

  /** Python's int(): truncation toward zero. */
  function Truncate(x: real): int {
    if x >= 0.0 then x.Floor else -((-x).Floor)
  }
}
