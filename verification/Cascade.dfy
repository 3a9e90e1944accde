/** Cross-filtering ("cascading") filter options: `filters/cascade.ts`.
  *
  * A combo is one co-occurrence of the six filter dimensions in the sales data. `ComputeCascade`
  * scans the combos, finds which selected values are still valid, prunes one dimension and starts
  * again. `ClosedForm` says what that loop ends in, without a loop.
  */
module Cascade {
  import opened Prelude

  const NDIMS := 6
  const MAX_PASSES := NDIMS + 2

  // Dimensions in the order of DIMENSIONS: company, segment, channel, sales team, salesperson, customer.
  type Dim = d: int | 0 <= d < NDIMS witness 0

  // The most specific dimension (customer) is pruned first, the company last.
  const PRUNE_ORDER: seq<Dim> := [5, 4, 3, 2, 1, 0]

  type Combo = c: seq<Option<string>> | |c| == NDIMS witness [None, None, None, None, None, None]
  type Selection = s: seq<seq<string>> | |s| == NDIMS witness [[], [], [], [], [], []]

  // ---- what a combo, a selection and an option mean ---------------------------------------------

  /** An empty list restricts nothing; a null value never satisfies a restriction. */
  predicate Allows(allowed: seq<string>, v: Option<string>) {
    allowed == [] || (v.Some? && v.value in allowed)
  }

  predicate InScope(c: Combo, scope: Selection) {
    forall d: Dim :: Allows(scope[d], c[d])
  }

  predicate Matches(c: Combo, sel: Selection) {
    forall d: Dim :: Allows(sel[d], c[d])
  }

  /** Satisfies every dimension's selection except perhaps that of `d`. */
  predicate MatchesOthers(c: Combo, sel: Selection, d: Dim) {
    forall e: Dim :: e != d ==> Allows(sel[e], c[e])
  }

  /** The values of dimension `d` in a combo that is in scope and satisfies every OTHER selection. */
  ghost function ValidOptions(combos: seq<Combo>, sel: Selection, scope: Selection, d: Dim): set<string> {
    set c: Combo | c in combos && InScope(c, scope) && MatchesOthers(c, sel, d) && c[d].Some? :: c[d].value
  }

  /** The values of dimension `d` in a combo that is in scope and satisfies every selection. */
  ghost function Projection(combos: seq<Combo>, sel: Selection, scope: Selection, d: Dim): set<string> {
    set c: Combo | c in combos && InScope(c, scope) && Matches(c, sel) && c[d].Some? :: c[d].value
  }

  ghost predicate HasMatch(combos: seq<Combo>, sel: Selection, scope: Selection) {
    exists c: Combo :: c in combos && InScope(c, scope) && Matches(c, sel)
  }

  function MatchCount(combos: seq<Combo>, sel: Selection, scope: Selection): nat {
    if combos == [] then 0
    else MatchCount(combos[..|combos| - 1], sel, scope)
         + if InScope(combos[|combos| - 1], scope) && Matches(combos[|combos| - 1], sel) then 1 else 0
  }

  /** The members of `vs` that are in `ok`, in their order. */
  function Keep(vs: seq<string>, ok: set<string>): seq<string> {
    if vs == [] then []
    else if vs[0] in ok then [vs[0]] + Keep(vs[1..], ok) else Keep(vs[1..], ok)
  }

  // ---- the closed form --------------------------------------------------------------------------

  /** `sel` with the first `n` dimensions of PRUNE_ORDER emptied. */
  function Clear(sel: Selection, n: nat): Selection
    requires n <= NDIMS
  {
    seq(NDIMS, d requires 0 <= d < NDIMS => if NDIMS - 1 - d < n then [] else sel[d])
  }

  /** `sel` with the shortest prefix of PRUNE_ORDER emptied, from length `n` on, that leaves a match. */
  ghost function ClearedFrom(combos: seq<Combo>, sel: Selection, scope: Selection, n: nat): Selection
    requires n <= NDIMS
    decreases NDIMS - n
  {
    if n == NDIMS || HasMatch(combos, Clear(sel, n), scope) then Clear(sel, n)
    else ClearedFrom(combos, sel, scope, n + 1)
  }

  ghost function Narrow(combos: seq<Combo>, sel: Selection, scope: Selection): Selection {
    seq(NDIMS, d requires 0 <= d < NDIMS => Keep(sel[d], Projection(combos, sel, scope, d)))
  }

  /** What the pass loop returns: clear the shortest prefix, then keep only values that still match. */
  ghost function ClosedForm(combos: seq<Combo>, sel: Selection, scope: Selection): Selection {
    Narrow(combos, ClearedFrom(combos, sel, scope, 0), scope)
  }

  // ---- lemmas about Keep ------------------------------------------------------------------------

  lemma {:induction false} KeepMembers(vs: seq<string>, ok: set<string>)
    ensures forall v :: v in Keep(vs, ok) <==> v in vs && v in ok
    ensures |Keep(vs, ok)| <= |vs|
    ensures (forall v :: v in vs ==> v in ok) ==> Keep(vs, ok) == vs
  {
    if vs != [] {
      KeepMembers(vs[1..], ok);
      assert vs == [vs[0]] + vs[1..];
      assert forall v :: v in vs <==> v == vs[0] || v in vs[1..];
    }
  }

  lemma NonEmptyHasMember(vs: seq<string>)
    ensures vs == [] || exists v :: v in vs
  {
    if vs != [] { assert vs[0] in vs; }
  }

  lemma {:induction false} KeepKeep(vs: seq<string>, a: set<string>, b: set<string>)
    requires b <= a
    ensures Keep(Keep(vs, a), b) == Keep(vs, b)
  {
    if vs != [] {
      KeepKeep(vs[1..], a, b);
      if vs[0] in a {
        assert ([vs[0]] + Keep(vs[1..], a))[1..] == Keep(vs[1..], a);
      }
    }
  }

  lemma {:induction false} CountZero(combos: seq<Combo>, sel: Selection, scope: Selection)
    ensures MatchCount(combos, sel, scope) == 0 <==> !HasMatch(combos, sel, scope)
  {
    if combos != [] {
      var last := |combos| - 1;
      CountZero(combos[..last], sel, scope);
      assert combos == combos[..last] + [combos[last]];
    }
  }

  // ---- options and matches, read off the lists ----------------------------------------------------

  /** Some combo carries the value, every scope list that is not empty holds the combo's value of its dimension, and
    * so does every selection list of another dimension. */
  ghost predicate IsOption(combos: seq<Combo>, sel: Selection, scope: Selection, d: Dim, v: string) {
    exists c: Combo ::
      && c in combos && c[d] == Some(v)
      && (forall e: Dim :: scope[e] == [] || (c[e].Some? && c[e].value in scope[e]))
      && (forall e: Dim :: e == d || sel[e] == [] || (c[e].Some? && c[e].value in sel[e]))
  }

  lemma OptionsAre(combos: seq<Combo>, sel: Selection, scope: Selection, d: Dim, v: string)
    ensures v in ValidOptions(combos, sel, scope, d) <==> IsOption(combos, sel, scope, d, v)
  {
    if v in ValidOptions(combos, sel, scope, d) {
      var c: Combo :| c in combos && InScope(c, scope) && MatchesOthers(c, sel, d) && c[d] == Some(v);
      forall e: Dim ensures scope[e] == [] || (c[e].Some? && c[e].value in scope[e]) {
        assert Allows(scope[e], c[e]);
      }
      forall e: Dim ensures e == d || sel[e] == [] || (c[e].Some? && c[e].value in sel[e]) {
        if e != d { assert Allows(sel[e], c[e]); }
      }
    }
    if c: Combo :|
      && c in combos && c[d] == Some(v)
      && (forall e: Dim :: scope[e] == [] || (c[e].Some? && c[e].value in scope[e]))
      && (forall e: Dim :: e == d || sel[e] == [] || (c[e].Some? && c[e].value in sel[e]))
    {
      assert InScope(c, scope) && MatchesOthers(c, sel, d);
    }
  }

  /** Every scope list and every selection list that is not empty holds the combo's value of its dimension. */
  predicate MeetsLists(c: Combo, sel: Selection, scope: Selection) {
    forall e: Dim ::
      && (scope[e] == [] || (c[e].Some? && c[e].value in scope[e]))
      && (sel[e] == [] || (c[e].Some? && c[e].value in sel[e]))
  }

  lemma MatchIs(c: Combo, sel: Selection, scope: Selection)
    ensures InScope(c, scope) && Matches(c, sel) <==> MeetsLists(c, sel, scope)
  {
    if InScope(c, scope) && Matches(c, sel) {
      forall e: Dim
        ensures scope[e] == [] || (c[e].Some? && c[e].value in scope[e])
        ensures sel[e] == [] || (c[e].Some? && c[e].value in sel[e])
      {
        assert Allows(scope[e], c[e]) && Allows(sel[e], c[e]);
      }
    }
  }

  /** The positions of the combos that meet all lists. */
  function MatchesAt(combos: seq<Combo>, sel: Selection, scope: Selection): set<int> {
    set i | 0 <= i < |combos| && MeetsLists(combos[i], sel, scope)
  }

  lemma OneComboMore(combos: seq<Combo>, combo: Combo, sel: Selection, scope: Selection)
    ensures |MatchesAt(combos + [combo], sel, scope)| ==
      |MatchesAt(combos, sel, scope)| + if MeetsLists(combo, sel, scope) then 1 else 0
  {
    var next := combos + [combo];
    assert forall i :: 0 <= i < |combos| ==> next[i] == combos[i];
    assert MatchesAt(next, sel, scope) ==
      MatchesAt(combos, sel, scope) + if MeetsLists(combo, sel, scope) then {|combos|} else {};
  }

  lemma {:induction false} MatchesAreCounted(combos: seq<Combo>, sel: Selection, scope: Selection)
    ensures MatchCount(combos, sel, scope) == |MatchesAt(combos, sel, scope)|
  {
    if combos == [] {
      assert MatchesAt(combos, sel, scope) == {};
    } else {
      var rest, last := combos[..|combos| - 1], combos[|combos| - 1];
      MatchesAreCounted(rest, sel, scope);
      MatchIs(last, sel, scope);
      OneComboMore(rest, last, sel, scope);
      assert combos == rest + [last];
    }
  }

  // ---- one pruning pass keeps the closed form -----------------------------------------------------

  /** Without a match no selected value is valid: a valid one would complete a match. */
  lemma NoMatchNoValid(combos: seq<Combo>, sel: Selection, scope: Selection, d: Dim)
    ensures HasMatch(combos, sel, scope) || forall v :: v in sel[d] ==> v !in ValidOptions(combos, sel, scope, d)
  {
    forall v | v in sel[d] && v in ValidOptions(combos, sel, scope, d) ensures HasMatch(combos, sel, scope) {
      var c: Combo :| c in combos && InScope(c, scope) && MatchesOthers(c, sel, d) && c[d].Some? && c[d].value == v;
      assert Matches(c, sel);
    }
  }

  /** With a match, the valid values of a non-empty dimension are its projection. */
  lemma ValidIsProjection(combos: seq<Combo>, sel: Selection, scope: Selection, d: Dim)
    requires sel[d] != []
    ensures forall v :: v in sel[d] ==>
      (v in ValidOptions(combos, sel, scope, d) <==> v in Projection(combos, sel, scope, d))
    ensures Projection(combos, sel, scope, d) <= ValidOptions(combos, sel, scope, d)
  {
    forall v | v in sel[d] && v in ValidOptions(combos, sel, scope, d)
      ensures v in Projection(combos, sel, scope, d)
    {
      var c: Combo :| c in combos && InScope(c, scope) && MatchesOthers(c, sel, d) && c[d].Some? && c[d].value == v;
      assert Matches(c, sel);
    }
    forall v | v in Projection(combos, sel, scope, d)
      ensures v in ValidOptions(combos, sel, scope, d)
    {
      var c: Combo :| c in combos && InScope(c, scope) && Matches(c, sel) && c[d].Some? && c[d].value == v;
      assert MatchesOthers(c, sel, d);
    }
  }

  /** The selection after dropping the invalid values of `d`. */
  ghost function Drop(combos: seq<Combo>, sel: Selection, scope: Selection, d: Dim): Selection {
    sel[d := Keep(sel[d], ValidOptions(combos, sel, scope, d))]
  }

  ghost predicate Stale(combos: seq<Combo>, sel: Selection, scope: Selection, d: Dim) {
    exists v :: v in sel[d] && v !in ValidOptions(combos, sel, scope, d)
  }

  ghost predicate FirstStale(combos: seq<Combo>, sel: Selection, scope: Selection, d: Dim) {
    Stale(combos, sel, scope, d) && forall e: Dim :: e > d ==> !Stale(combos, sel, scope, e)
  }

  /** When something matches, dropping invalid values of `d` changes neither the matches nor any validity. */
  lemma DropKeepsMatches(combos: seq<Combo>, sel: Selection, scope: Selection, d: Dim, c: Combo)
    requires c in combos && InScope(c, scope)
    requires HasMatch(combos, sel, scope) && sel[d] != []
    ensures Matches(c, Drop(combos, sel, scope, d)) <==> Matches(c, sel)
  {
    KeepMembers(sel[d], ValidOptions(combos, sel, scope, d));
    var kept := Keep(sel[d], ValidOptions(combos, sel, scope, d));
    var next := Drop(combos, sel, scope, d);
    var m: Combo :| m in combos && InScope(m, scope) && Matches(m, sel);
    assert Allows(sel[d], m[d]) && MatchesOthers(m, sel, d);
    assert m[d].value in kept;
    if Matches(c, sel) {
      assert Allows(sel[d], c[d]) && MatchesOthers(c, sel, d);
      assert c[d].value in kept;
      forall e: Dim ensures Allows(next[e], c[e]) { assert Allows(sel[e], c[e]); }
    }
    if Matches(c, next) {
      forall e: Dim ensures Allows(sel[e], c[e]) { assert Allows(next[e], c[e]); }
    }
  }

  lemma ProjectionUnchanged(combos: seq<Combo>, sel: Selection, scope: Selection, d: Dim, e: Dim)
    requires HasMatch(combos, sel, scope) && sel[d] != []
    ensures Projection(combos, Drop(combos, sel, scope, d), scope, e) == Projection(combos, sel, scope, e)
    ensures HasMatch(combos, Drop(combos, sel, scope, d), scope)
  {
    forall c: Combo | c in combos && InScope(c, scope)
      ensures Matches(c, Drop(combos, sel, scope, d)) <==> Matches(c, sel)
    {
      DropKeepsMatches(combos, sel, scope, d, c);
    }
  }

  lemma ClearAgain(sel: Selection, d: Dim, n: nat)
    requires n <= NDIMS && forall e: Dim :: e > d ==> sel[e] == []
    ensures n > NDIMS - 1 - d ==> Clear(sel[d := []], n) == Clear(sel, n)
    ensures n <= NDIMS - 1 - d ==> Clear(sel, n) == sel
    ensures n <= NDIMS - d ==> Clear(sel[d := []], n) == sel[d := []]
  {
  }

  /** Clearing the first non-empty dimension of a selection without a match changes nothing about the result. */
  lemma {:induction false} ClearedUnchanged(combos: seq<Combo>, sel: Selection, scope: Selection, d: Dim, n: nat)
    requires n <= NDIMS && !HasMatch(combos, sel, scope)
    requires forall e: Dim :: e > d ==> sel[e] == []
    ensures ClearedFrom(combos, sel, scope, n) == ClearedFrom(combos, sel[d := []], scope, n)
    decreases NDIMS - n
  {
    var next: Selection := sel[d := []];
    ClearAgain(sel, d, n);
    if n <= NDIMS - 1 - d && HasMatch(combos, next, scope) {
      ClearedSkips(combos, sel, scope, d, n);
    } else if n < NDIMS && !HasMatch(combos, Clear(sel, n), scope) {
      ClearedUnchanged(combos, sel, scope, d, n + 1);
      NextCleared(combos, sel, scope, n);
      NextCleared(combos, next, scope, n);
    }
  }

  lemma NextCleared(combos: seq<Combo>, sel: Selection, scope: Selection, n: nat)
    requires n < NDIMS && !HasMatch(combos, Clear(sel, n), scope)
    ensures ClearedFrom(combos, sel, scope, n) == ClearedFrom(combos, sel, scope, n + 1)
  {
  }

  lemma {:induction false} ClearedSkips(combos: seq<Combo>, sel: Selection, scope: Selection, d: Dim, n: nat)
    requires n <= NDIMS - 1 - d && !HasMatch(combos, sel, scope) && HasMatch(combos, sel[d := []], scope)
    requires forall e: Dim :: e > d ==> sel[e] == []
    ensures ClearedFrom(combos, sel, scope, n) == sel[d := []]
    decreases NDIMS - n
  {
    ClearAgain(sel, d, n);
    ClearAgain(sel, d, n + 1);
    if n < NDIMS - 1 - d {
      ClearedSkips(combos, sel, scope, d, n + 1);
    }
  }

  lemma NoStaleAboveIsEmpty(combos: seq<Combo>, sel: Selection, scope: Selection, e: Dim)
    requires !HasMatch(combos, sel, scope) && !Stale(combos, sel, scope, e)
    ensures sel[e] == []
  {
    NoMatchNoValid(combos, sel, scope, e);
    NonEmptyHasMember(sel[e]);
  }

  lemma DropKeepsClosedForm(combos: seq<Combo>, sel: Selection, scope: Selection, d: Dim)
    requires FirstStale(combos, sel, scope, d)
    ensures ClosedForm(combos, Drop(combos, sel, scope, d), scope) == ClosedForm(combos, sel, scope)
  {
    var next := Drop(combos, sel, scope, d);
    if HasMatch(combos, sel, scope) {
      assert Clear(sel, 0) == sel && Clear(next, 0) == next;
      ProjectionUnchanged(combos, sel, scope, d, d);
      assert ClearedFrom(combos, sel, scope, 0) == sel && ClearedFrom(combos, next, scope, 0) == next;
      forall e: Dim
        ensures Keep(next[e], Projection(combos, next, scope, e)) == Keep(sel[e], Projection(combos, sel, scope, e))
      {
        ProjectionUnchanged(combos, sel, scope, d, e);
        if e == d {
          ValidIsProjection(combos, sel, scope, d);
          KeepKeep(sel[d], ValidOptions(combos, sel, scope, d), Projection(combos, sel, scope, d));
        }
      }
      assert Narrow(combos, next, scope) == Narrow(combos, sel, scope);
    } else {
      forall e: Dim | e > d ensures sel[e] == [] { NoStaleAboveIsEmpty(combos, sel, scope, e); }
      NoMatchNoValid(combos, sel, scope, d);
      KeepMembers(sel[d], ValidOptions(combos, sel, scope, d));
      var kept := Keep(sel[d], ValidOptions(combos, sel, scope, d));
      NonEmptyHasMember(kept);
      assert next == sel[d := []];
      ClearedUnchanged(combos, sel, scope, d, 0);
    }
  }

  /** When nothing is stale the loop is at the closed form. */
  lemma NoStaleIsClosedForm(combos: seq<Combo>, sel: Selection, scope: Selection)
    requires forall d: Dim :: !Stale(combos, sel, scope, d)
    ensures ClosedForm(combos, sel, scope) == sel
  {
    if HasMatch(combos, sel, scope) {
      assert Clear(sel, 0) == sel;
    } else {
      forall e: Dim ensures sel[e] == [] { NoStaleAboveIsEmpty(combos, sel, scope, e); }
      AllEmptyCleared(combos, sel, scope, 0);
    }
    assert ClearedFrom(combos, sel, scope, 0) == sel;
    forall e: Dim ensures Keep(sel[e], Projection(combos, sel, scope, e)) == sel[e] {
      if sel[e] != [] {
        ValidIsProjection(combos, sel, scope, e);
        assert !Stale(combos, sel, scope, e);
        KeepMembers(sel[e], Projection(combos, sel, scope, e));
      }
    }
    assert Narrow(combos, sel, scope) == sel;
  }

  lemma {:induction false} AllEmptyCleared(combos: seq<Combo>, sel: Selection, scope: Selection, n: nat)
    requires n <= NDIMS && forall e: Dim :: sel[e] == []
    ensures ClearedFrom(combos, sel, scope, n) == sel
    decreases NDIMS - n
  {
    assert Clear(sel, n) == sel;
    if n < NDIMS { AllEmptyCleared(combos, sel, scope, n + 1); }
  }

  // ---- convergence: each pass settles one dimension for good ---------------------------------------

  ghost function StaleDims(combos: seq<Combo>, sel: Selection, scope: Selection): set<Dim> {
    set d: Dim | Stale(combos, sel, scope, d)
  }

  function NonEmptyDims(sel: Selection): set<Dim> {
    set d: Dim | sel[d] != []
  }

  lemma DropSettles(combos: seq<Combo>, sel: Selection, scope: Selection, d: Dim)
    requires Stale(combos, sel, scope, d)
    ensures StaleDims(combos, Drop(combos, sel, scope, d), scope) <= StaleDims(combos, sel, scope) - {d}
  {
    var next := Drop(combos, sel, scope, d);
    KeepMembers(sel[d], ValidOptions(combos, sel, scope, d));
    assert ValidOptions(combos, next, scope, d) == ValidOptions(combos, sel, scope, d) by {
      forall c: Combo ensures MatchesOthers(c, next, d) <==> MatchesOthers(c, sel, d) {}
    }
    forall e: Dim | Stale(combos, next, scope, e)
      ensures e != d && Stale(combos, sel, scope, e)
    {
      var v :| v in next[e] && v !in ValidOptions(combos, next, scope, e);
      if e != d && HasMatch(combos, sel, scope) {
        ProjectionUnchanged(combos, sel, scope, d, e);
        ValidIsProjection(combos, sel, scope, e);
        ValidIsProjection(combos, next, scope, e);
      } else if e != d {
        NoMatchNoValid(combos, sel, scope, e);
        assert v in sel[e];
      }
    }
  }

  lemma CardinalityMonotone(a: set<Dim>, b: set<Dim>)
    requires a <= b
    ensures |a| <= |b|
  {
    assert b == a + (b - a);
  }

  lemma StaleAreNonEmpty(combos: seq<Combo>, sel: Selection, scope: Selection)
    ensures |StaleDims(combos, sel, scope)| <= |NonEmptyDims(sel)| <= NDIMS
  {
    assert StaleDims(combos, sel, scope) <= NonEmptyDims(sel);
    CardinalityMonotone(StaleDims(combos, sel, scope), NonEmptyDims(sel));
    var all: set<Dim> := {0, 1, 2, 3, 4, 5};
    assert NonEmptyDims(sel) <= all;
    CardinalityMonotone(NonEmptyDims(sel), all);
  }

  // ---- the loop -----------------------------------------------------------------------------------

  /** How many dimensions one combo fails, counted up to two; a combo outside the scope counts as two. */
  method CountFailures(combo: Combo, sel: Selection, scope: Selection) returns (failures: nat, failedIndex: int)
    ensures failures == 0 <==> InScope(combo, scope) && Matches(combo, sel)
    ensures failures == 1 ==> 0 <= failedIndex < NDIMS && !Allows(sel[failedIndex], combo[failedIndex])
    ensures failures == 1 ==> InScope(combo, scope) && MatchesOthers(combo, sel, failedIndex)
    ensures failures > 1 ==> !InScope(combo, scope) || forall d: Dim :: !MatchesOthers(combo, sel, d)
  {
    failedIndex, failures := -1, 0;
    for i := 0 to NDIMS
      invariant failures <= 1
      invariant forall d: Dim :: d < i ==> Allows(scope[d], combo[d])
      invariant failures == 0 ==> forall d: Dim :: d < i ==> Allows(sel[d], combo[d])
      invariant failures == 1 ==> 0 <= failedIndex < i && !Allows(sel[failedIndex], combo[failedIndex])
      invariant failures == 1 ==> forall d: Dim :: d < i && d != failedIndex ==> Allows(sel[d], combo[d])
    {
      if !Allows(scope[i], combo[i]) {
        failures := 2;
        break;
      }
      if !Allows(sel[i], combo[i]) {
        failures := failures + 1;
        if failures > 1 {
          assert failedIndex != i && !Allows(sel[i], combo[i]) && !Allows(sel[failedIndex], combo[failedIndex]);
          failedIndex := i;
          break;
        }
        failedIndex := i;
      }
    }
  }

  /** One scan of the combos: the options of every dimension and the number of full matches. */
  method Scan(combos: seq<Combo>, sel: Selection, scope: Selection) returns (options: seq<set<string>>, matching: nat)
    ensures |options| == NDIMS
    ensures forall d: Dim :: options[d] == ValidOptions(combos, sel, scope, d)
    ensures matching == MatchCount(combos, sel, scope)
  {
    options, matching := [{}, {}, {}, {}, {}, {}], 0;
    for n := 0 to |combos|
      invariant |options| == NDIMS
      invariant forall d: Dim :: options[d] == ValidOptions(combos[..n], sel, scope, d)
      invariant matching == MatchCount(combos[..n], sel, scope)
    {
      var combo := combos[n];
      var failures, failedIndex := CountFailures(combo, sel, scope);
      ghost var before := options;
      if failures == 0 {
        matching := matching + 1;
        for d := 0 to NDIMS
          invariant |options| == NDIMS
          invariant forall e: Dim ::
            options[e] == (if e < d && combo[e].Some? then before[e] + {combo[e].value} else before[e])
        {
          if combo[d].Some? { options := options[d := options[d] + {combo[d].value}]; }
        }
      } else if failures == 1 {
        if combo[failedIndex].Some? {
          options := options[failedIndex := options[failedIndex] + {combo[failedIndex].value}];
        }
      }
      assert combos[..n + 1] == combos[..n] + [combo];
      forall d: Dim ensures options[d] == ValidOptions(combos[..n + 1], sel, scope, d) {
        ScanStep(combos[..n], combo, sel, scope, d);
      }
    }
    assert combos[..|combos|] == combos;
  }

  lemma ScanStep(combos: seq<Combo>, combo: Combo, sel: Selection, scope: Selection, d: Dim)
    ensures ValidOptions(combos + [combo], sel, scope, d) == ValidOptions(combos, sel, scope, d) +
      if InScope(combo, scope) && MatchesOthers(combo, sel, d) && combo[d].Some? then {combo[d].value} else {}
  {
    var more := combos + [combo];
    forall v | v in ValidOptions(combos, sel, scope, d) ensures v in ValidOptions(more, sel, scope, d) {
      var c: Combo :| c in combos && InScope(c, scope) && MatchesOthers(c, sel, d) && c[d].Some? && c[d].value == v;
      assert c in more;
    }
    assert combo in more;
  }

  /** The first dimension of PRUNE_ORDER holding a selected value that is not an option. */
  method FindDropDim(current: Selection, options: seq<set<string>>) returns (dropDim: Option<Dim>)
    requires |options| == NDIMS
    ensures dropDim.None? ==> forall d: Dim, v :: v in current[d] ==> v in options[d]
    ensures dropDim.Some? ==> exists v :: v in current[dropDim.value] && v !in options[dropDim.value]
    ensures dropDim.Some? ==> forall d: Dim, v :: d > dropDim.value && v in current[d] ==> v in options[d]
  {
    for i := 0 to |PRUNE_ORDER|
      invariant forall d: Dim, v :: d > 5 - i && v in current[d] ==> v in options[d]
    {
      var d := PRUNE_ORDER[i];
      assert d == 5 - i;
      if exists v :: v in current[d] && v !in options[d] { return Some(d); }
    }
    return None;
  }

  /** `computeCascade`: always leaves the pass loop by its break, at the closed form. */
  method ComputeCascade(combos: seq<Combo>, selection: Selection, scope: Selection)
    returns (options: seq<set<string>>, current: Selection, matching: nat, ghost passes: nat)
    ensures current == ClosedForm(combos, selection, scope)
    ensures |options| == NDIMS && forall d: Dim :: options[d] == ValidOptions(combos, current, scope, d)
    ensures forall d: Dim, v :: v in current[d] ==> v in options[d]
    ensures matching == MatchCount(combos, current, scope) == |MatchesAt(combos, current, scope)|
    ensures forall d: Dim, v :: v in options[d] <==> IsOption(combos, current, scope, d, v)
    ensures passes <= |NonEmptyDims(selection)| + 1 < MAX_PASSES
  {
    current, options, matching, passes := selection, [{}, {}, {}, {}, {}, {}], 0, 0;
    ghost var broke := false;
    StaleAreNonEmpty(combos, selection, scope);
    for pass := 0 to MAX_PASSES
      invariant !broke && passes == pass
      invariant ClosedForm(combos, current, scope) == ClosedForm(combos, selection, scope)
      invariant pass + |StaleDims(combos, current, scope)| <= |NonEmptyDims(selection)| <= NDIMS
    {
      passes := passes + 1;
      options, matching := Scan(combos, current, scope);
      var dropDim := FindDropDim(current, options);
      if dropDim.None? {
        assert forall d: Dim :: !Stale(combos, current, scope, d);
        NoStaleIsClosedForm(combos, current, scope);
        broke := true;
        break;
      }
      var d: Dim := dropDim.value;
      assert FirstStale(combos, current, scope, d);
      DropKeepsClosedForm(combos, current, scope, d);
      DropSettles(combos, current, scope, d);
      CardinalityMonotone(StaleDims(combos, Drop(combos, current, scope, d), scope),
                          StaleDims(combos, current, scope) - {d});
      current := current[d := Keep(current[d], options[d])];
    }
    assert broke;
    MatchesAreCounted(combos, current, scope);
    forall d: Dim, v ensures v in options[d] <==> IsOption(combos, current, scope, d, v) {
      OptionsAre(combos, current, scope, d, v);
    }
  }

  // ---- what the closed form promises ----------------------------------------------------------------

  /** The length of the shortest prefix of PRUNE_ORDER, from `n` on, whose clearing leaves a match. */
  ghost function ClearCount(combos: seq<Combo>, sel: Selection, scope: Selection, n: nat): (k: nat)
    requires n <= NDIMS
    ensures n <= k <= NDIMS
    decreases NDIMS - n
  {
    if n == NDIMS || HasMatch(combos, Clear(sel, n), scope) then n else ClearCount(combos, sel, scope, n + 1)
  }

  lemma {:induction false} ClearedIsShortest(combos: seq<Combo>, sel: Selection, scope: Selection, n: nat)
    requires n <= NDIMS
    ensures var k := ClearCount(combos, sel, scope, n);
      && ClearedFrom(combos, sel, scope, n) == Clear(sel, k)
      && (k < NDIMS ==> HasMatch(combos, Clear(sel, k), scope))
      && (forall j :: n <= j < k ==> !HasMatch(combos, Clear(sel, j), scope))
    decreases NDIMS - n
  {
    if n < NDIMS && !HasMatch(combos, Clear(sel, n), scope) {
      ClearedIsShortest(combos, sel, scope, n + 1);
    }
  }

  ghost predicate AnyInScope(combos: seq<Combo>, scope: Selection) {
    exists c: Combo :: c in combos && InScope(c, scope)
  }

  /** The result empties the shortest prefix of PRUNE_ORDER whose clearing leaves a match (all of it when
    * none does); a later dimension keeps exactly its selected values that occur in a match of the cleared
    * selection, and loses a non-empty selection only when no combo is in scope. */
  lemma ClosedFormShape(combos: seq<Combo>, sel: Selection, scope: Selection) returns (k: nat)
    ensures k <= NDIMS
    ensures k < NDIMS ==> HasMatch(combos, Clear(sel, k), scope)
    ensures forall j :: 0 <= j < k ==> !HasMatch(combos, Clear(sel, j), scope)
    ensures forall i :: 0 <= i < k ==> ClosedForm(combos, sel, scope)[PRUNE_ORDER[i]] == []
    ensures forall i, v :: k <= i < NDIMS ==>
      (v in ClosedForm(combos, sel, scope)[PRUNE_ORDER[i]] <==>
       v in sel[PRUNE_ORDER[i]] && v in Projection(combos, Clear(sel, k), scope, PRUNE_ORDER[i]))
    ensures forall i :: k <= i < NDIMS && sel[PRUNE_ORDER[i]] != [] ==>
      ClosedForm(combos, sel, scope)[PRUNE_ORDER[i]] != []
  {
    k := ClearCount(combos, sel, scope, 0);
    ClearedIsShortest(combos, sel, scope, 0);
    var cleared := Clear(sel, k);
    forall i | 0 <= i < NDIMS
      ensures PRUNE_ORDER[i] == 5 - i
      ensures i < k ==> ClosedForm(combos, sel, scope)[PRUNE_ORDER[i]] == []
    {
    }
    forall i, v | k <= i < NDIMS
      ensures v in ClosedForm(combos, sel, scope)[PRUNE_ORDER[i]] <==>
        v in sel[PRUNE_ORDER[i]] && v in Projection(combos, cleared, scope, PRUNE_ORDER[i])
    {
      KeepMembers(cleared[PRUNE_ORDER[i]], Projection(combos, cleared, scope, PRUNE_ORDER[i]));
    }
    forall i | k <= i < NDIMS && sel[PRUNE_ORDER[i]] != []
      ensures ClosedForm(combos, sel, scope)[PRUNE_ORDER[i]] != []
    {
      var d := PRUNE_ORDER[i];
      var c: Combo :| c in combos && InScope(c, scope) && Matches(c, cleared);
      assert Allows(cleared[d], c[d]) && cleared[d] == sel[d];
      KeepMembers(cleared[d], Projection(combos, cleared, scope, d));
      assert c[d].value in Keep(cleared[d], Projection(combos, cleared, scope, d));
    }
  }

  /** A combo that matches survives narrowing every dimension to what matches. */
  lemma MatchSurvivesNarrow(combos: seq<Combo>, sel: Selection, scope: Selection, c: Combo)
    requires c in combos && InScope(c, scope) && Matches(c, sel)
    ensures Matches(c, Narrow(combos, sel, scope))
  {
    forall d: Dim ensures Allows(Narrow(combos, sel, scope)[d], c[d]) {
      assert Allows(sel[d], c[d]);
      KeepMembers(sel[d], Projection(combos, sel, scope, d));
    }
  }

  lemma SomeMatchAfterClearing(combos: seq<Combo>, sel: Selection, scope: Selection, n: nat)
    requires n <= NDIMS && AnyInScope(combos, scope)
    ensures HasMatch(combos, ClearedFrom(combos, sel, scope, n), scope)
  {
    ClearedIsShortest(combos, sel, scope, n);
    var any: Combo :| any in combos && InScope(any, scope);
    assert Matches(any, Clear(sel, NDIMS));
  }

  /** The result still matches a combo unless no combo at all is in scope. */
  lemma ResultMatchesUnlessOutOfScope(combos: seq<Combo>, sel: Selection, scope: Selection)
    ensures MatchCount(combos, ClosedForm(combos, sel, scope), scope) == 0 <==> !AnyInScope(combos, scope)
  {
    CountZero(combos, ClosedForm(combos, sel, scope), scope);
    if AnyInScope(combos, scope) {
      SomeMatchAfterClearing(combos, sel, scope, 0);
      var c: Combo :| c in combos && InScope(c, scope) && Matches(c, ClearedFrom(combos, sel, scope, 0));
      MatchSurvivesNarrow(combos, ClearedFrom(combos, sel, scope, 0), scope, c);
    }
  }

  /** Every kept value is a valid option of the result, so running the cascade again changes nothing. */
  lemma ResultIsFixpoint(combos: seq<Combo>, sel: Selection, scope: Selection)
    ensures forall d: Dim :: !Stale(combos, ClosedForm(combos, sel, scope), scope, d)
    ensures ClosedForm(combos, ClosedForm(combos, sel, scope), scope) == ClosedForm(combos, sel, scope)
  {
    var cleared := ClearedFrom(combos, sel, scope, 0);
    var result := ClosedForm(combos, sel, scope);
    forall d: Dim, v | v in result[d]
      ensures v in ValidOptions(combos, result, scope, d)
    {
      KeepMembers(cleared[d], Projection(combos, cleared, scope, d));
      var c: Combo :| c in combos && InScope(c, scope) && Matches(c, cleared) && c[d].Some? && c[d].value == v;
      MatchSurvivesNarrow(combos, cleared, scope, c);
      assert MatchesOthers(c, result, d);
    }
    NoStaleIsClosedForm(combos, result, scope);
  }
}
