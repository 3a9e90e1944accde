/** Real-valued totals over the keys of a map, independent of the order of the keys. */
module Totals {
  import opened Sums

  ghost function Total<K>(s: set<K>, f: K -> real): real {
    if s == {} then 0.0
    else
      var k :| k in s;
      f(k) + Total(s - {k}, f)
  }

  lemma {:induction false} TotalRemove<K>(s: set<K>, k: K, f: K -> real)
    requires k in s
    ensures Total(s, f) == f(k) + Total(s - {k}, f)
  {
    var j :| j in s && Total(s, f) == f(j) + Total(s - {j}, f);
    if j != k {
      TotalRemove(s - {j}, k, f);
      TotalRemove(s - {k}, j, f);
      assert s - {j} - {k} == s - {k} - {j};
    }
  }

  lemma {:induction false} TotalSame<K>(s: set<K>, f: K -> real, g: K -> real)
    requires forall k :: k in s ==> f(k) == g(k)
    ensures Total(s, f) == Total(s, g)
  {
    if s != {} {
      var k :| k in s;
      TotalRemove(s, k, f);
      TotalRemove(s, k, g);
      TotalSame(s - {k}, f, g);
    }
  }

  lemma {:induction false} TotalPlus<K>(s: set<K>, f: K -> real, g: K -> real, h: K -> real)
    requires forall k :: k in s ==> h(k) == f(k) + g(k)
    ensures Total(s, h) == Total(s, f) + Total(s, g)
  {
    if s != {} {
      var k :| k in s;
      TotalRemove(s, k, f);
      TotalRemove(s, k, g);
      TotalRemove(s, k, h);
      TotalPlus(s - {k}, f, g, h);
    }
  }

  lemma {:induction false} TotalZero<K>(s: set<K>, f: K -> real)
    requires forall k :: k in s ==> f(k) == 0.0
    ensures Total(s, f) == 0.0
  {
    if s != {} {
      var k :| k in s;
      TotalRemove(s, k, f);
      TotalZero(s - {k}, f);
    }
  }

  /** A function that is zero except at one key. */
  lemma TotalPoint<K>(s: set<K>, f: K -> real, k: K, a: real)
    requires forall j :: j in s ==> f(j) == if j == k then a else 0.0
    ensures Total(s, f) == if k in s then a else 0.0
  {
    if k in s {
      TotalRemove(s, k, f);
      TotalZero(s - {k}, f);
    } else {
      TotalZero(s, f);
    }
  }

  /** A set that has one element more, or the same. */
  lemma TotalOneMore<K>(before: set<K>, after: set<K>, k: K, f: K -> real)
    requires k !in before && forall j :: j != k ==> (j in after <==> j in before)
    ensures Total(after, f) == Total(before, f) + if k in after then f(k) else 0.0
  {
    if k in after {
      TotalRemove(after, k, f);
      assert after - {k} == before;
    } else {
      assert after == before;
    }
  }

  lemma {:induction false} TotalSplit<K>(s: set<K>, t: set<K>, f: K -> real)
    requires s !! t
    ensures Total(s + t, f) == Total(s, f) + Total(t, f)
  {
    if t == {} {
      assert s + t == s;
    } else {
      var k :| k in t;
      TotalRemove(t, k, f);
      TotalRemove(s + t, k, f);
      assert s + t - {k} == s + (t - {k});
      TotalSplit(s, t - {k}, f);
    }
  }

  // ---- totals over sequences -----------------------------------------------------------------------------------

  function SumOf<T>(xs: seq<T>, f: T -> real): real {
    if xs == [] then 0.0 else SumOf(xs[..|xs| - 1], f) + f(xs[|xs| - 1])
  }

  lemma SumOfSnoc<T>(xs: seq<T>, x: T, f: T -> real)
    ensures SumOf(xs + [x], f) == SumOf(xs, f) + f(x)
  {
    assert (xs + [x])[..|xs|] == xs;
  }

  lemma {:induction false} SumOfConcat<T>(xs: seq<T>, ys: seq<T>, f: T -> real)
    ensures SumOf(xs + ys, f) == SumOf(xs, f) + SumOf(ys, f)
  {
    if ys == [] {
      assert xs + ys == xs;
    } else {
      var last := |ys| - 1;
      SumOfConcat(xs, ys[..last], f);
      assert (xs + ys)[..|xs + ys| - 1] == xs + ys[..last];
    }
  }

  lemma {:induction false} SumOfPlus<T>(xs: seq<T>, f: T -> real, g: T -> real, h: T -> real)
    requires forall x :: x in xs ==> h(x) == f(x) + g(x)
    ensures SumOf(xs, h) == SumOf(xs, f) + SumOf(xs, g)
  {
    if xs != [] { SumOfPlus(xs[..|xs| - 1], f, g, h); }
  }

  lemma {:induction false} SumOfSame<T>(xs: seq<T>, f: T -> real, g: T -> real)
    requires forall x :: x in xs ==> f(x) == g(x)
    ensures SumOf(xs, f) == SumOf(xs, g)
  {
    if xs != [] { SumOfSame(xs[..|xs| - 1], f, g); }
  }

  // ---- groups --------------------------------------------------------------------------------------------------

  function HasKey<T, K(==)>(key: T -> K, k: K): T -> bool { x => key(x) == k }

  function KeyIn<T, K(==)>(key: T -> K, s: set<K>): T -> bool { x => key(x) in s }

  function KeyOut<T, K(==)>(key: T -> K, s: set<K>): T -> bool { x => key(x) !in s }

  function Group<T, K(==)>(xs: seq<T>, key: T -> K, k: K): seq<T> { Filter(xs, HasKey(key, k)) }

  ghost function GroupSum<T, K>(xs: seq<T>, key: T -> K, f: T -> real): K -> real {
    k => SumOf(Group(xs, key, k), f)
  }

  /** The groups of the keys in s add up to the elements whose key is in s. */
  lemma {:induction false} GroupsAddUp<T, K>(xs: seq<T>, key: T -> K, s: set<K>, f: T -> real)
    ensures Total(s, GroupSum(xs, key, f)) == SumOf(Filter(xs, KeyIn(key, s)), f)
  {
    if xs == [] {
      TotalZero(s, GroupSum(xs, key, f));
    } else {
      var rest, z := xs[..|xs| - 1], xs[|xs| - 1];
      GroupsAddUp(rest, key, s, f);
      var point := (k: K) => if k == key(z) then f(z) else 0.0;
      TotalPoint(s, point, key(z), f(z));
      forall k | k in s ensures GroupSum(xs, key, f)(k) == GroupSum(rest, key, f)(k) + point(k) {
        SumOfSnoc(Group(rest, key, k), z, f);
      }
      TotalPlus(s, GroupSum(rest, key, f), point, GroupSum(xs, key, f));
      SumOfSnoc(Filter(rest, KeyIn(key, s)), z, f);
    }
  }

  lemma {:induction false} InAndOut<T, K>(xs: seq<T>, key: T -> K, s: set<K>, f: T -> real)
    ensures SumOf(Filter(xs, KeyIn(key, s)), f) + SumOf(Filter(xs, KeyOut(key, s)), f) == SumOf(xs, f)
  {
    if xs != [] {
      var rest, z := xs[..|xs| - 1], xs[|xs| - 1];
      InAndOut(rest, key, s, f);
      SumOfSnoc(Filter(rest, KeyIn(key, s)), z, f);
      SumOfSnoc(Filter(rest, KeyOut(key, s)), z, f);
    }
  }

  /** Two filters that never keep the same element, and one that keeps what either does. */
  lemma {:induction false} FiltersAddUp<T>(xs: seq<T>, p: T -> bool, q: T -> bool, both: T -> bool, f: T -> real)
    requires forall x :: x in xs ==> !(p(x) && q(x)) && both(x) == (p(x) || q(x))
    ensures SumOf(Filter(xs, both), f) == SumOf(Filter(xs, p), f) + SumOf(Filter(xs, q), f)
  {
    if xs != [] {
      var rest, z := xs[..|xs| - 1], xs[|xs| - 1];
      FiltersAddUp(rest, p, q, both, f);
      SumOfSnoc(Filter(rest, p), z, f);
      SumOfSnoc(Filter(rest, q), z, f);
      SumOfSnoc(Filter(rest, both), z, f);
    }
  }

  function KeysOf<T, K>(xs: seq<T>, key: T -> K): set<K> {
    set i | 0 <= i < |xs| :: key(xs[i])
  }

  lemma KeysAre<T, K>(xs: seq<T>, key: T -> K)
    ensures forall k :: k in KeysOf(xs, key) <==> exists x :: x in xs && key(x) == k
  {
    forall x | x in xs ensures key(x) in KeysOf(xs, key) { var i :| 0 <= i < |xs| && xs[i] == x; }
  }

  lemma {:induction false} NothingOut<T, K>(xs: seq<T>, key: T -> K, s: set<K>)
    requires KeysOf(xs, key) <= s
    ensures Filter(xs, KeyOut(key, s)) == []
  {
    if xs != [] {
      assert forall i :: 0 <= i < |xs| ==> key(xs[i]) in KeysOf(xs, key);
      NothingOut(xs[..|xs| - 1], key, s);
    }
  }

  /** All groups together are the whole sequence. */
  lemma AllGroupsAddUp<T, K>(xs: seq<T>, key: T -> K, s: set<K>, f: T -> real)
    requires KeysOf(xs, key) <= s
    ensures Total(s, GroupSum(xs, key, f)) == SumOf(xs, f)
  {
    GroupsAddUp(xs, key, s, f);
    InAndOut(xs, key, s, f);
    NothingOut(xs, key, s);
  }

  method GroupBy<T, K(==)>(rows: seq<T>, key: T -> K) returns (m: map<K, seq<T>>)
    ensures m.Keys == KeysOf(rows, key)
    ensures forall k :: k in m ==> m[k] == Group(rows, key, k)
  {
    m := map[];
    for i := 0 to |rows|
      invariant m.Keys == KeysOf(rows[..i], key)
      invariant forall k :: k in m ==> m[k] == Group(rows[..i], key, k)
    {
      var k := key(rows[i]);
      assert rows[..i + 1][..i] == rows[..i];
      KeysGrow(rows, key, i);
      if k !in m { NoGroup(rows[..i], key, k); }
      m := m[k := (if k in m then m[k] else []) + [rows[i]]];
    }
    assert rows[..|rows|] == rows;
  }

  lemma KeysGrow<T, K>(rows: seq<T>, key: T -> K, i: nat)
    requires i < |rows|
    ensures KeysOf(rows[..i + 1], key) == KeysOf(rows[..i], key) + {key(rows[i])}
  {
    var next := rows[..i + 1];
    forall j | 0 <= j < i ensures key(rows[..i][j]) in KeysOf(next, key) { assert next[j] == rows[..i][j]; }
    assert next[i] == rows[i];
  }

  lemma {:induction false} NoGroup<T, K>(rows: seq<T>, key: T -> K, k: K)
    requires k !in KeysOf(rows, key)
    ensures Group(rows, key, k) == []
  {
    if rows != [] {
      var last := |rows| - 1;
      assert forall i :: 0 <= i < |rows| ==> key(rows[i]) in KeysOf(rows, key);
      NoGroup(rows[..last], key, k);
    }
  }

  /** Elements with distinct keys: adding up the elements is adding up the keys. */
  lemma {:induction false} SumOverKeys<T, K>(xs: seq<T>, key: T -> K, f: T -> real, g: K -> real)
    requires forall i, j :: 0 <= i < j < |xs| ==> key(xs[i]) != key(xs[j])
    requires forall x :: x in xs ==> f(x) == g(key(x))
    ensures SumOf(xs, f) == Total(KeysOf(xs, key), g)
  {
    if xs == [] {
      assert KeysOf(xs, key) == {};
    } else {
      var rest, last := xs[..|xs| - 1], xs[|xs| - 1];
      SumOverKeys(rest, key, f, g);
      KeysGrow(xs, key, |xs| - 1);
      assert xs[..|xs|] == xs;
      assert key(last) !in KeysOf(rest, key);
      TotalRemove(KeysOf(xs, key), key(last), g);
      assert KeysOf(xs, key) - {key(last)} == KeysOf(rest, key);
    }
  }

  function AsReal<T>(f: T -> int): T -> real { x => f(x) as real }

  lemma {:induction false} SumAsReal<T>(xs: seq<T>, f: T -> int)
    ensures Sum(xs, f) as real == SumOf(xs, AsReal(f))
  {
    if xs != [] { SumAsReal(xs[..|xs| - 1], f); }
  }
}
