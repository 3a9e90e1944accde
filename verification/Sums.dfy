/** Finite sums over sequences, and how they split. */
module Sums {

  function Sum<T>(xs: seq<T>, f: T -> int): int {
    if xs == [] then 0 else Sum(xs[..|xs| - 1], f) + f(xs[|xs| - 1])
  }

  function Filter<T>(xs: seq<T>, p: T -> bool): seq<T> {
    if xs == [] then []
    else if p(xs[|xs| - 1]) then Filter(xs[..|xs| - 1], p) + [xs[|xs| - 1]]
    else Filter(xs[..|xs| - 1], p)
  }

  lemma {:induction false} FilterMembers<T>(xs: seq<T>, p: T -> bool)
    ensures forall x :: x in Filter(xs, p) <==> x in xs && p(x)
  {
    if xs != [] {
      var last := |xs| - 1;
      FilterMembers(xs[..last], p);
      assert xs == xs[..last] + [xs[last]];
    }
  }

  lemma {:induction false} FilterSame<T>(xs: seq<T>, p: T -> bool, q: T -> bool)
    requires forall x :: x in xs ==> p(x) == q(x)
    ensures Filter(xs, p) == Filter(xs, q)
  {
    if xs != [] { FilterSame(xs[..|xs| - 1], p, q); }
  }

  lemma {:induction false} SumSame<T>(xs: seq<T>, f: T -> int, g: T -> int)
    requires forall x :: x in xs ==> f(x) == g(x)
    ensures Sum(xs, f) == Sum(xs, g)
  {
    if xs != [] { SumSame(xs[..|xs| - 1], f, g); }
  }

  /** A sum over a filter: the terms where the filter is false count as zero. */
  lemma {:induction false} SumFilter<T>(xs: seq<T>, p: T -> bool, f: T -> int, h: T -> int)
    requires forall x :: x in xs ==> h(x) == if p(x) then f(x) else 0
    ensures Sum(Filter(xs, p), f) == Sum(xs, h)
  {
    if xs != [] {
      var last := |xs| - 1;
      SumFilter(xs[..last], p, f, h);
      if p(xs[last]) { SumSnoc(Filter(xs[..last], p), xs[last], f); }
    }
  }

  lemma SumSnoc<T>(xs: seq<T>, x: T, f: T -> int)
    ensures Sum(xs + [x], f) == Sum(xs, f) + f(x)
  {
    assert (xs + [x])[..|xs|] == xs;
  }

  lemma SumFilterSnoc<T>(xs: seq<T>, x: T, p: T -> bool, f: T -> int)
    ensures Sum(Filter(xs + [x], p), f) == Sum(Filter(xs, p), f) + if p(x) then f(x) else 0
  {
    assert (xs + [x])[..|xs|] == xs;
    SumSnoc(Filter(xs, p), x, f);
  }

  lemma {:induction false} SumOfSums<T>(xs: seq<T>, f: T -> int, g: T -> int, h: T -> int)
    requires forall x :: x in xs ==> h(x) == f(x) + g(x)
    ensures Sum(xs, h) == Sum(xs, f) + Sum(xs, g)
  {
    if xs != [] { SumOfSums(xs[..|xs| - 1], f, g, h); }
  }

  lemma {:induction false} SumNonNegative<T>(xs: seq<T>, f: T -> int)
    requires forall x :: x in xs ==> f(x) >= 0
    ensures Sum(xs, f) >= 0
    ensures Sum(xs, f) == 0 <==> forall x :: x in xs ==> f(x) == 0
  {
    if xs != [] {
      var last := |xs| - 1;
      SumNonNegative(xs[..last], f);
      assert xs == xs[..last] + [xs[last]];
    }
  }

  lemma {:induction false} SumZero<T>(xs: seq<T>, f: T -> int)
    requires forall x :: x in xs ==> f(x) == 0
    ensures Sum(xs, f) == 0
  {
    if xs != [] { SumZero(xs[..|xs| - 1], f); }
  }

  lemma {:induction false} SumConcat<T>(xs: seq<T>, ys: seq<T>, f: T -> int)
    ensures Sum(xs + ys, f) == Sum(xs, f) + Sum(ys, f)
  {
    if ys == [] {
      assert xs + ys == xs;
    } else {
      var last := |ys| - 1;
      SumConcat(xs, ys[..last], f);
      assert (xs + ys)[..|xs + ys| - 1] == xs + ys[..last];
    }
  }

  /** Summing the rows of a table and summing its columns give the same. */
  lemma {:induction false} SumExchange<S, T>(xs: seq<S>, ys: seq<T>, rows: S -> (T -> int), columns: T -> (S -> int),
                                             rowTotal: S -> int, columnTotal: T -> int)
    requires forall x, y :: x in xs && y in ys ==> rows(x)(y) == columns(y)(x)
    requires forall x :: x in xs ==> rowTotal(x) == Sum(ys, rows(x))
    requires forall y :: y in ys ==> columnTotal(y) == Sum(xs, columns(y))
    ensures Sum(xs, rowTotal) == Sum(ys, columnTotal)
  {
    if xs == [] {
      SumZero(ys, columnTotal);
    } else {
      var last := |xs| - 1;
      var z := xs[last];
      var rest := y => Sum(xs[..last], columns(y));
      SumExchange(xs[..last], ys, rows, columns, rowTotal, rest);
      SumOfSums(ys, rest, rows(z), columnTotal);
    }
  }

  // ---- order does not matter -----------------------------------------------------------------------------------

  lemma SumMiddle<T>(a: seq<T>, x: T, b: seq<T>, f: T -> int)
    ensures Sum(a + [x] + b, f) == Sum(a + b, f) + f(x)
  {
    SumConcat(a + [x], b, f);
    SumSnoc(a, x, f);
    SumConcat(a, b, f);
  }

  /** Where a permutation holds the last element, and that taking it out leaves a permutation of the rest. */
  lemma FindLast<T>(xs: seq<T>, ys: seq<T>) returns (a: seq<T>, b: seq<T>)
    requires multiset(xs) == multiset(ys) && xs != []
    ensures ys == a + [xs[|xs| - 1]] + b
    ensures multiset(xs[..|xs| - 1]) == multiset(a + b)
  {
    var last := |xs| - 1;
    assert xs == xs[..last] + [xs[last]];
    assert xs[last] in multiset(ys);
    var i :| 0 <= i < |ys| && ys[i] == xs[last];
    a, b := ys[..i], ys[i + 1..];
    assert ys == a + [ys[i]] + b;
    assert multiset(a + b) == multiset(ys) - multiset{ys[i]};
  }

  lemma PermutedNothing<T>(ys: seq<T>)
    requires multiset(ys) == multiset{}
    ensures ys == []
  {
    assert |multiset(ys)| == 0;
  }

  lemma {:induction false} SumPermuted<T>(xs: seq<T>, ys: seq<T>, f: T -> int)
    requires multiset(xs) == multiset(ys)
    ensures Sum(xs, f) == Sum(ys, f)
  {
    if xs == [] {
      PermutedNothing(ys);
    } else {
      var a, b := FindLast(xs, ys);
      SumPermuted(xs[..|xs| - 1], a + b, f);
      SumMiddle(a, xs[|xs| - 1], b, f);
    }
  }

  lemma {:induction false} FilterConcat<T>(xs: seq<T>, ys: seq<T>, p: T -> bool)
    ensures Filter(xs + ys, p) == Filter(xs, p) + Filter(ys, p)
  {
    if ys == [] {
      assert xs + ys == xs;
    } else {
      var last := |ys| - 1;
      FilterConcat(xs, ys[..last], p);
      assert (xs + ys)[..|xs + ys| - 1] == xs + ys[..last];
    }
  }

  lemma FilterSnoc<T>(a: seq<T>, x: T, p: T -> bool)
    ensures Filter(a + [x], p) == Filter(a, p) + if p(x) then [x] else []
  {
    assert (a + [x])[..|a|] == a;
  }

  lemma FilterMiddle<T>(a: seq<T>, x: T, b: seq<T>, p: T -> bool)
    ensures multiset(Filter(a + [x] + b, p)) == multiset(Filter(a + b, p)) + if p(x) then multiset{x} else multiset{}
  {
    FilterConcat(a + [x], b, p);
    FilterSnoc(a, x, p);
    FilterConcat(a, b, p);
  }

  lemma FilterLast<T>(xs: seq<T>, p: T -> bool)
    requires xs != []
    ensures multiset(Filter(xs, p)) ==
      multiset(Filter(xs[..|xs| - 1], p)) + if p(xs[|xs| - 1]) then multiset{xs[|xs| - 1]} else multiset{}
  {
  }

  lemma {:induction false} FilterPermuted<T>(xs: seq<T>, ys: seq<T>, p: T -> bool)
    requires multiset(xs) == multiset(ys)
    ensures multiset(Filter(xs, p)) == multiset(Filter(ys, p))
  {
    if xs == [] {
      PermutedNothing(ys);
    } else {
      var a, b := FindLast(xs, ys);
      FilterPermuted(xs[..|xs| - 1], a + b, p);
      FilterMiddle(a, xs[|xs| - 1], b, p);
      FilterLast(xs, p);
    }
  }

  lemma {:induction false} FilterAll<T>(xs: seq<T>, p: T -> bool)
    requires forall x :: x in xs ==> p(x)
    ensures Filter(xs, p) == xs
  {
    if xs != [] { FilterAll(xs[..|xs| - 1], p); }
  }

  lemma {:induction false} FilterNone<T>(xs: seq<T>, p: T -> bool)
    requires forall x :: x in xs ==> !p(x)
    ensures Filter(xs, p) == []
  {
    if xs != [] { FilterNone(xs[..|xs| - 1], p); }
  }

  lemma {:induction false} FilterSplits<T>(xs: seq<T>, p: T -> bool, q: T -> bool)
    requires forall x :: x in xs ==> (q(x) <==> !p(x))
    ensures multiset(Filter(xs, p)) + multiset(Filter(xs, q)) == multiset(xs)
  {
    if xs != [] {
      var last := |xs| - 1;
      assert xs == xs[..last] + [xs[last]];
      FilterSplits(xs[..last], p, q);
    }
  }

  lemma SameMembers<T>(xs: seq<T>, ys: seq<T>)
    requires multiset(xs) == multiset(ys)
    ensures forall x :: x in xs <==> x in ys
  {
    forall x ensures x in xs <==> x in ys {
      assert x in xs <==> x in multiset(xs);
      assert x in ys <==> x in multiset(ys);
    }
  }

  // ---- sets -----------------------------------------------------------------------------------------------------

  lemma Pick<T>(s: set<T>) returns (x: T)
    requires s != {}
    ensures x in s
  {
    x :| x in s;
  }

  /** Two sets of one size that differ in one element at most are the same. */
  lemma OneDiffers<T>(a: set<T>, b: set<T>, x: T)
    requires |a| == |b| && forall y :: y != x ==> (y in a <==> y in b)
    ensures a == b
  {
    assert a - {x} == b - {x};
    assert a == if x in a then a - {x} + {x} else a - {x};
    assert b == if x in b then b - {x} + {x} else b - {x};
  }
}
