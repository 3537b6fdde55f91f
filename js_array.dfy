/** The JavaScript array operations the client uses, as functions on
    sequences: `filter`, `map` and the (stable, since ES2019) `sort` with a
    comparator returning a negative, zero or positive number. */
module JsArray {

  /** `xs.filter(p)`: a fresh array holding the elements that satisfy `p`. */
  function Filter<T>(xs: seq<T>, p: T -> bool): (r: seq<T>)
    ensures |r| <= |xs|
    ensures forall i :: 0 <= i < |r| ==> p(r[i])
  {
    if xs == [] then []
    else (if p(xs[0]) then [xs[0]] else []) + Filter(xs[1..], p)
  }

  /** `filter` keeps the relative order: it distributes over concatenation. */
  lemma {:induction false} FilterConcat<T>(a: seq<T>, b: seq<T>, p: T -> bool)
    ensures Filter(a + b, p) == Filter(a, p) + Filter(b, p)
  {
    if a == [] {
      assert a + b == b;
    } else {
      assert (a + b)[1..] == a[1..] + b;
      FilterConcat(a[1..], b, p);
    }
  }

  /** `filter` keeps every occurrence of a satisfying element and none of the others. */
  lemma {:induction false} FilterCount<T>(xs: seq<T>, p: T -> bool, x: T)
    ensures multiset(Filter(xs, p))[x] == if p(x) then multiset(xs)[x] else 0
  {
    if xs != [] {
      FilterCount(xs[1..], p, x);
      assert xs == [xs[0]] + xs[1..];
    }
  }

  /** `filter` returns elements of its input only, never more copies than it has. */
  lemma FilterSubMultiset<T>(xs: seq<T>, p: T -> bool)
    ensures multiset(Filter(xs, p)) <= multiset(xs)
  {
    forall x ensures multiset(Filter(xs, p))[x] <= multiset(xs)[x] {
      FilterCount(xs, p, x);
    }
  }

  /** An element is kept exactly when it occurs and satisfies the predicate. */
  lemma FilterMember<T>(xs: seq<T>, p: T -> bool, x: T)
    ensures x in Filter(xs, p) <==> x in xs && p(x)
  {
  }

  /** When every element satisfies the predicate, `filter` returns the array unchanged. */
  lemma {:induction false} FilterAll<T>(xs: seq<T>, p: T -> bool)
    requires forall i :: 0 <= i < |xs| ==> p(xs[i])
    ensures Filter(xs, p) == xs
  {
    if xs != [] {
      FilterAll(xs[1..], p);
    }
  }

  /** `xs.map(f)`. */
  function Map<T, U>(xs: seq<T>, f: T -> U): (r: seq<U>)
    ensures |r| == |xs|
    ensures forall i :: 0 <= i < |xs| ==> r[i] == f(xs[i])
  {
    if xs == [] then [] else [f(xs[0])] + Map(xs[1..], f)
  }

  /** Any two elements are comparable: one of them is not after the other. */
  ghost predicate Total<T(!new)>(cmp: (T, T) -> int) {
    forall a, b :: cmp(a, b) <= 0 || cmp(b, a) <= 0
  }

  /** "Not after" chains. */
  ghost predicate Transitive<T(!new)>(cmp: (T, T) -> int) {
    forall a, b, c :: cmp(a, b) <= 0 && cmp(b, c) <= 0 ==> cmp(a, c) <= 0
  }

  /** A comparator whose "not after" relation `cmp(a, b) <= 0` is total and
      transitive, as `localeCompare` is. */
  ghost predicate TotalPreorder<T(!new)>(cmp: (T, T) -> int) {
    Total(cmp) && Transitive(cmp)
  }

  /** No element is placed after one it should come after. */
  ghost predicate SortedBy<T>(xs: seq<T>, cmp: (T, T) -> int) {
    forall i, j :: 0 <= i < j < |xs| ==> cmp(xs[i], xs[j]) <= 0
  }

  /** Places `x` before the first element it is not after. */
  function Insert<T>(x: T, ys: seq<T>, cmp: (T, T) -> int): (r: seq<T>)
    ensures multiset(r) == multiset(ys) + multiset{x}
  {
    if ys == [] then [x]
    else if cmp(x, ys[0]) <= 0 then [x] + ys
    else
      assert ys == [ys[0]] + ys[1..];
      [ys[0]] + Insert(x, ys[1..], cmp)
  }

  /** `xs.slice().sort(cmp)`: a stable insertion sort over a fresh copy. */
  function SortBy<T>(xs: seq<T>, cmp: (T, T) -> int): (r: seq<T>)
    ensures multiset(r) == multiset(xs)
  {
    if xs == [] then []
    else
      assert xs == [xs[0]] + xs[1..];
      Insert(xs[0], SortBy(xs[1..], cmp), cmp)
  }

  /** Each element is not after its successor. */
  ghost predicate Chained<T>(xs: seq<T>, cmp: (T, T) -> int) {
    forall i :: 0 < i < |xs| ==> cmp(xs[i - 1], xs[i]) <= 0
  }

  /** Insertion keeps neighbours in order; only totality is needed. */
  lemma {:induction false} InsertChained<T(!new)>(x: T, ys: seq<T>, cmp: (T, T) -> int)
    requires Total(cmp) && Chained(ys, cmp)
    ensures Chained(Insert(x, ys, cmp), cmp)
  {
    if ys != [] && cmp(x, ys[0]) > 0 {
      var rest := ys[1..];
      assert Chained(rest, cmp) by {
        forall i | 0 < i < |rest| ensures cmp(rest[i - 1], rest[i]) <= 0 {
          assert rest[i - 1] == ys[i] && rest[i] == ys[i + 1];
        }
      }
      InsertChained(x, rest, cmp);
      var tail := Insert(x, rest, cmp);
      var r := [ys[0]] + tail;
      assert Insert(x, ys, cmp) == r;
      assert cmp(ys[0], tail[0]) <= 0 by {
        assert cmp(ys[0], x) <= 0;
        assert tail[0] == x || (|rest| > 0 && tail[0] == ys[1]);
      }
      forall i | 0 < i < |r| ensures cmp(r[i - 1], r[i]) <= 0 {
        if i > 1 {
          assert r[i - 1] == tail[i - 2] && r[i] == tail[i - 1];
        }
      }
    }
  }

  lemma {:induction false} SortByChained<T(!new)>(xs: seq<T>, cmp: (T, T) -> int)
    requires Total(cmp)
    ensures Chained(SortBy(xs, cmp), cmp)
  {
    if xs != [] {
      SortByChained(xs[1..], cmp);
      InsertChained(xs[0], SortBy(xs[1..], cmp), cmp);
    }
  }

  /** Under a transitive comparator neighbours in order means all pairs in order. */
  lemma {:induction false} ChainedPair<T(!new)>(xs: seq<T>, cmp: (T, T) -> int, i: int, j: int)
    requires Transitive(cmp) && Chained(xs, cmp) && 0 <= i < j < |xs|
    ensures cmp(xs[i], xs[j]) <= 0
    decreases j - i
  {
    if j > i + 1 {
      ChainedPair(xs, cmp, i, j - 1);
      assert cmp(xs[j - 1], xs[j]) <= 0;
    }
  }

  /** With a consistent comparator, `sort` orders the whole array. */
  lemma SortBySorted<T(!new)>(xs: seq<T>, cmp: (T, T) -> int)
    requires TotalPreorder(cmp)
    ensures SortedBy(SortBy(xs, cmp), cmp)
  {
    var r := SortBy(xs, cmp);
    SortByChained(xs, cmp);
    forall i, j | 0 <= i < j < |r| ensures cmp(r[i], r[j]) <= 0 {
      ChainedPair(r, cmp, i, j);
    }
  }

  /** A comparator that never asks to move an element (for instance one that
      always returns 0) leaves the array in its original order. */
  lemma {:induction false} SortByNeutral<T>(xs: seq<T>, cmp: (T, T) -> int)
    requires forall a, b :: cmp(a, b) <= 0
    ensures SortBy(xs, cmp) == xs
  {
    if xs != [] {
      SortByNeutral(xs[1..], cmp);
    }
  }

  /** The elements the comparator ranks equal to `k`. */
  function EquivTo<T>(k: T, cmp: (T, T) -> int): T -> bool {
    y => cmp(k, y) <= 0 && cmp(y, k) <= 0
  }

  /** Two elements ranked equal to the same `k` are not out of order. */
  lemma EquivNotAfter<T(!new)>(x: T, y: T, cmp: (T, T) -> int, k: T)
    requires TotalPreorder(cmp)
    requires EquivTo(k, cmp)(x) && EquivTo(k, cmp)(y)
    ensures cmp(x, y) <= 0
  {
  }

  /** `filter` on an array that starts with `x`. */
  lemma FilterCons<T>(x: T, ys: seq<T>, p: T -> bool)
    ensures Filter([x] + ys, p) == (if p(x) then [x] else []) + Filter(ys, p)
  {
  }

  /** Inserting `x` puts it before every element it shares a class `e` with,
      so the class's elements keep their order. */
  lemma {:induction false} InsertFilter<T>(x: T, ys: seq<T>, cmp: (T, T) -> int, e: T -> bool)
    requires forall i :: 0 <= i < |ys| && e(x) && e(ys[i]) ==> cmp(x, ys[i]) <= 0
    ensures Filter(Insert(x, ys, cmp), e) == (if e(x) then [x] else []) + Filter(ys, e)
  {
    if ys == [] {
      FilterCons(x, [], e);
      assert [x] + [] == [x];
    } else if cmp(x, ys[0]) <= 0 {
      FilterCons(x, ys, e);
    } else {
      var rest := ys[1..];
      var tail := Insert(x, rest, cmp);
      assert Insert(x, ys, cmp) == [ys[0]] + tail;
      FilterCons(ys[0], tail, e);
      forall i | 0 <= i < |rest| && e(x) && e(rest[i]) ensures cmp(x, rest[i]) <= 0 {
        assert rest[i] == ys[i + 1];
      }
      InsertFilter(x, rest, cmp, e);
      assert ys == [ys[0]] + rest;
      FilterCons(ys[0], rest, e);
      if e(x) {
        assert !e(ys[0]);
      }
    }
  }

  lemma InsertStable<T(!new)>(x: T, ys: seq<T>, cmp: (T, T) -> int, k: T)
    requires TotalPreorder(cmp)
    ensures Filter(Insert(x, ys, cmp), EquivTo(k, cmp)) ==
            (if EquivTo(k, cmp)(x) then [x] else []) + Filter(ys, EquivTo(k, cmp))
  {
    var e := EquivTo(k, cmp);
    forall i | 0 <= i < |ys| && e(x) && e(ys[i]) ensures cmp(x, ys[i]) <= 0 {
      EquivNotAfter(x, ys[i], cmp, k);
    }
    InsertFilter(x, ys, cmp, e);
  }

  /** `sort` is stable: the elements ranked equal to any `k` keep their
      relative order. */
  lemma {:induction false} SortByStable<T(!new)>(xs: seq<T>, cmp: (T, T) -> int, k: T)
    requires TotalPreorder(cmp)
    ensures Filter(SortBy(xs, cmp), EquivTo(k, cmp)) == Filter(xs, EquivTo(k, cmp))
  {
    if xs != [] {
      SortByStable(xs[1..], cmp, k);
      InsertStable(xs[0], SortBy(xs[1..], cmp), cmp, k);
    }
  }
}
