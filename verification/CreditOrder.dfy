/**
 * When the placement depends on the order of the lines (`measures/debtAging.ts`, lines 202-297). An invoice takes its
 * dates and payment term from its first line read, so only lines that disagree on them can make a difference.
 */
module CreditOrder {
  import opened Prelude
  import opened Sums
  import opened Totals
  import opened CreditPolicy
  import opened CreditPlacement

  // ---- another order ---------------------------------------------------------------------------------------------

  lemma MovesAre(lines: seq<Line>)
    ensures forall m :: m in Moves(lines) <==> exists l :: l in lines && l.move == m
  {
    forall l | l in lines ensures l.move in Moves(lines) {
      var i :| 0 <= i < |lines| && lines[i] == l;
    }
  }

  lemma SameMoves(xs: seq<Line>, ys: seq<Line>)
    requires multiset(xs) == multiset(ys)
    ensures Moves(xs) == Moves(ys)
  {
    SameMembers(xs, ys);
    MovesAre(xs);
    MovesAre(ys);
  }

  lemma SameOpenDue(xs: seq<Line>, ys: seq<Line>, m: int, all: bool)
    requires forall l :: l in xs <==> l in ys
    ensures OpenDue(xs, m, all) == OpenDue(ys, m, all)
  {
    OpenDueIs(xs, m, all);
    OpenDueIs(ys, m, all);
  }

  /** Residual and open due date do not depend on the order. */
  lemma SameAmounts(xs: seq<Line>, ys: seq<Line>, m: int, all: bool)
    requires multiset(xs) == multiset(ys)
    ensures Residual(xs, m, all) == Residual(ys, m, all) && OpenDue(xs, m, all) == OpenDue(ys, m, all)
  {
    SameMembers(xs, ys);
    FilterPermuted(xs, ys, OfMove(m));
    SumPermuted(Filter(xs, OfMove(m)), Filter(ys, OfMove(m)), AmountIn(all));
    SameOpenDue(xs, ys, m, all);
  }

  /** The invoice of a line as it reads when that line comes first. */
  function Read(lines: seq<Line>, l: Line, all: bool): Invoice {
    Invoice(Residual(lines, l.move, all), OpenDue(lines, l.move, all), l.attributes)
  }

  predicate IsFirst(lines: seq<Line>, i: nat) {
    i < |lines| && forall k :: 0 <= k < i ==> lines[k].move != lines[i].move
  }

  lemma {:induction false} FirstOf(lines: seq<Line>, m: int) returns (i: nat)
    requires m in Moves(lines)
    ensures IsFirst(lines, i) && lines[i].move == m && lines[i].attributes == FirstAttributes(lines, m)
  {
    MovesGrow(lines);
    var rest := lines[..|lines| - 1];
    if m in Moves(rest) {
      i := FirstOf(rest, m);
    } else {
      i := |lines| - 1;
      assert forall k :: 0 <= k < i ==> rest[k].move in Moves(rest);
    }
  }

  lemma FirstDecides(lines: seq<Line>, i: nat)
    requires IsFirst(lines, i)
    ensures lines[i].move in Moves(lines) && FirstAttributes(lines, lines[i].move) == lines[i].attributes
  {
    var j := FirstOf(lines, lines[i].move);
  }

  /** Every invoice of a reading comes from one of its lines. */
  ghost predicate IsReading(invoices: map<int, Invoice>, lines: seq<Line>, all: bool) {
    invoices.Keys == Moves(lines) &&
    forall m :: m in invoices ==> exists l :: l in lines && l.move == m && invoices[m] == Read(lines, l, all)
  }

  lemma OrderGivesReading(xs: seq<Line>, ys: seq<Line>, all: bool)
    requires multiset(xs) == multiset(ys)
    ensures IsReading(Invoices(ys, all), xs, all)
  {
    SameMembers(xs, ys);
    SameMoves(xs, ys);
    MovesOfInvoices(ys, all);
    forall m | m in Moves(ys)
      ensures exists l :: l in xs && l.move == m && Invoices(ys, all)[m] == Read(xs, l, all)
    {
      InvoiceIs(ys, m, all);
      SameAmounts(xs, ys, m, all);
      var i := FirstOf(ys, m);
      assert ys[i] in xs;
    }
  }

  function ToFront(xs: seq<Line>, i: nat): seq<Line>
    requires i < |xs|
  {
    [xs[i]] + xs[..i] + xs[i + 1..]
  }

  lemma FrontPermutes(xs: seq<Line>, i: nat)
    requires i < |xs|
    ensures multiset(ToFront(xs, i)) == multiset(xs)
  {
    assert xs == xs[..i] + [xs[i]] + xs[i + 1..];
  }

  /** Moving a line to the front reads its invoice from it and leaves every other invoice as it was. */
  lemma FrontReads(xs: seq<Line>, i: nat, all: bool)
    requires i < |xs|
    ensures Invoices(ToFront(xs, i), all) == Invoices(xs, all)[xs[i].move := Read(xs, xs[i], all)]
  {
    var ys := ToFront(xs, i);
    FrontPermutes(xs, i);
    SameMoves(xs, ys);
    MovesOfInvoices(xs, all);
    MovesOfInvoices(ys, all);
    forall m | m in Moves(xs)
      ensures Invoices(ys, all)[m] == Invoices(xs, all)[xs[i].move := Read(xs, xs[i], all)][m]
    {
      InvoiceIs(xs, m, all);
      InvoiceIs(ys, m, all);
      SameAmounts(xs, ys, m, all);
      FrontAttributes(xs, i, m);
    }
    assert xs[i].move in Moves(xs);
  }

  lemma FrontFirst(xs: seq<Line>, i: nat, j: nat)
    requires i < |xs| && IsFirst(xs, j) && xs[j].move != xs[i].move
    ensures var k := if j < i then j + 1 else j; IsFirst(ToFront(xs, i), k) && ToFront(xs, i)[k] == xs[j]
  {
    var ys := ToFront(xs, i);
    assert forall n :: 0 <= n < |ys| ==> ys[n] == if n == 0 then xs[i] else if n <= i then xs[n - 1] else xs[n];
  }

  lemma FrontAttributes(xs: seq<Line>, i: nat, m: int)
    requires i < |xs| && m in Moves(xs) && m in Moves(ToFront(xs, i))
    ensures FirstAttributes(ToFront(xs, i), m) == if m == xs[i].move then xs[i].attributes else FirstAttributes(xs, m)
  {
    if m == xs[i].move {
      FirstDecides(ToFront(xs, i), 0);
    } else {
      var j := FirstOf(xs, m);
      FrontFirst(xs, i, j);
      FirstDecides(ToFront(xs, i), if j < i then j + 1 else j);
    }
  }

  // ---- what one invoice adds to the overdue figures ---------------------------------------------------------------

  datatype Late = Late(overdue: int, company: int, counted: bool)

  function OneInvoice(m: int, inv: Invoice): map<int, Invoice> { map[m := inv] }

  /** What the lines of invoice m add when the invoice reads as inv. */
  function LateOf(lines: seq<Line>, m: int, inv: Invoice, asOf: int, all: bool): Late {
    var own, one := Filter(lines, OfMove(m)), OneInvoice(m, inv);
    Late(LateSum(own, one, asOf, AmountIn(all)), LateSum(own, one, asOf, Company()),
         m in OverdueMoves(own, one, asOf, all))
  }

  function MoveIn(s: set<int>): Line -> bool { (l: Line) => l.move in s }

  lemma LateOfMove(lines: seq<Line>, m: int, invoices: map<int, Invoice>, asOf: int, f: Line -> int)
    requires m in invoices
    ensures LateSum(Filter(lines, OfMove(m)), invoices, asOf, f) ==
      LateSum(Filter(lines, OfMove(m)), OneInvoice(m, invoices[m]), asOf, f)
  {
    FilterMembers(lines, OfMove(m));
    FilterSame(Filter(lines, OfMove(m)), LateIn(invoices, asOf), LateIn(OneInvoice(m, invoices[m]), asOf));
  }

  lemma {:induction false} LateSplit(lines: seq<Line>, s: set<int>, m: int, invoices: map<int, Invoice>, asOf: int,
                                     f: Line -> int)
    requires m !in s
    ensures LateSum(Filter(lines, MoveIn(s + {m})), invoices, asOf, f) ==
      LateSum(Filter(lines, MoveIn(s)), invoices, asOf, f) + LateSum(Filter(lines, OfMove(m)), invoices, asOf, f)
  {
    if lines != [] {
      var rest, last := lines[..|lines| - 1], lines[|lines| - 1];
      LateSplit(rest, s, m, invoices, asOf, f);
      LateStep(Filter(rest, MoveIn(s + {m})), last, invoices, asOf, f);
      LateStep(Filter(rest, MoveIn(s)), last, invoices, asOf, f);
      LateStep(Filter(rest, OfMove(m)), last, invoices, asOf, f);
    }
  }

  lemma {:induction false} AllMovesIn(lines: seq<Line>, s: set<int>)
    requires forall l :: l in lines ==> l.move in s
    ensures Filter(lines, MoveIn(s)) == lines
  {
    if lines != [] { AllMovesIn(lines[..|lines| - 1], s); }
  }

  lemma {:induction false} NoMoveIn(lines: seq<Line>)
    ensures Filter(lines, MoveIn({})) == []
  {
    if lines != [] { NoMoveIn(lines[..|lines| - 1]); }
  }

  /** Two readings under which each invoice of s adds the same. */
  lemma {:induction false} SameOverMoves(lines: seq<Line>, s: set<int>, x: map<int, Invoice>, y: map<int, Invoice>,
                                         asOf: int, f: Line -> int)
    requires forall m :: m in s ==> m in x && m in y
    requires forall m :: m in s ==>
      LateSum(Filter(lines, OfMove(m)), x, asOf, f) == LateSum(Filter(lines, OfMove(m)), y, asOf, f)
    ensures LateSum(Filter(lines, MoveIn(s)), x, asOf, f) == LateSum(Filter(lines, MoveIn(s)), y, asOf, f)
  {
    if s == {} {
      NoMoveIn(lines);
    } else {
      var m := Pick(s);
      var t := s - {m};
      assert s == t + {m};
      SameOverMoves(lines, t, x, y, asOf, f);
      LateSplit(lines, t, m, x, asOf, f);
      LateSplit(lines, t, m, y, asOf, f);
    }
  }

  lemma WholeLateSum(lines: seq<Line>, m: int, invoices: map<int, Invoice>, asOf: int, f: Line -> int)
    requires m in invoices && m in Moves(lines)
    ensures LateSum(lines, invoices, asOf, f) ==
      LateSum(Filter(lines, MoveIn(Moves(lines) - {m})), invoices, asOf, f) +
      LateSum(Filter(lines, OfMove(m)), OneInvoice(m, invoices[m]), asOf, f)
  {
    var s := Moves(lines) - {m};
    MovesAre(lines);
    assert s + {m} == Moves(lines);
    AllMovesIn(lines, Moves(lines));
    LateSplit(lines, s, m, invoices, asOf, f);
    LateOfMove(lines, m, invoices, asOf, f);
  }

  /** An invoice is counted as overdue by its own lines and its own reading alone. */
  lemma CountedByOwn(lines: seq<Line>, m: int, invoices: map<int, Invoice>, asOf: int, all: bool)
    requires m in invoices
    ensures m in OverdueMoves(lines, invoices, asOf, all) <==> LateOf(lines, m, invoices[m], asOf, all).counted
  {
    var own, one := Filter(lines, OfMove(m)), OneInvoice(m, invoices[m]);
    FilterMembers(lines, OfMove(m));
    if m in OverdueMoves(lines, invoices, asOf, all) {
      var i :| 0 <= i < |lines| && CountsAsOverdue(invoices, lines[i], asOf, all) && lines[i].move == m;
      assert lines[i] in own;
      OverdueLineCounts(own, lines[i], one, asOf, all);
    }
    if m in OverdueMoves(own, one, asOf, all) {
      var i :| 0 <= i < |own| && CountsAsOverdue(one, own[i], asOf, all) && own[i].move == m;
      assert own[i] in lines;
      OverdueLineCounts(lines, own[i], invoices, asOf, all);
    }
  }

  // ---- the condition ----------------------------------------------------------------------------------------------

  /** An unpaid balance has a due date whichever line is read first. */
  predicate SameUnpaid(lines: seq<Line>, all: bool) {
    forall i :: 0 <= i < |lines| && Residual(lines, lines[i].move, all) > 0 && lines[i].move in Invoices(lines, all) ==>
      (DueDate(Read(lines, lines[i], all)).Some? <==> DueDate(Invoices(lines, all)[lines[i].move]).Some?)
  }

  /** Each invoice adds the same overdue figures whichever line is read first. */
  predicate SameLate(lines: seq<Line>, asOf: int, all: bool) {
    forall i :: 0 <= i < |lines| && lines[i].move in Invoices(lines, all) ==>
      LateOf(lines, lines[i].move, Read(lines, lines[i], all), asOf, all) ==
      LateOf(lines, lines[i].move, Invoices(lines, all)[lines[i].move], asOf, all)
  }

  /** The deciding invoice m shows the same due date and term, and comes first, whichever lines are read first. */
  predicate StaysDeciding(lines: seq<Line>, m: int, all: bool)
    requires m in Invoices(lines, all)
  {
    (forall i :: 0 <= i < |lines| && lines[i].move == m ==>
     SameShown(Read(lines, lines[i], all), Invoices(lines, all)[m])) &&
    (forall i, j :: 0 <= i < |lines| && 0 <= j < |lines| && lines[i].move == m ==>
      ComesBefore(lines, lines[i], lines[j], all))
  }

  predicate SameShown(a: Invoice, b: Invoice) {
    DueDate(a) == DueDate(b) && a.attributes.term == b.attributes.term
  }

  /** As they read from these lines, the invoice of a decides before the invoice of b. */
  predicate ComesBefore(lines: seq<Line>, a: Line, b: Line, all: bool) {
    var x, y := Read(lines, a, all), Read(lines, b, all);
    (a.move != b.move && y.residual > 0 && DueDate(x).Some? && DueDate(y).Some?) ==> Precedes(a.move, x, b.move, y)
  }

  /** What a customer's lines must fulfil for its placement not to depend on their order. */
  ghost predicate OrderFree(lines: seq<Line>, asOf: int, all: bool) {
    SameUnpaid(lines, all) &&
    (Unpaid(Invoices(lines, all)) != {} ==>
      SameLate(lines, asOf, all) &&
      forall m :: IsDeciding(Invoices(lines, all), m) ==> StaysDeciding(lines, m, all))
  }

  // ---- the condition suffices -------------------------------------------------------------------------------------

  lemma ReadIndex(lines: seq<Line>, invoices: map<int, Invoice>, m: int, all: bool) returns (i: nat)
    requires IsReading(invoices, lines, all) && m in invoices
    ensures i < |lines| && lines[i].move == m && invoices[m] == Read(lines, lines[i], all)
    ensures m in Invoices(lines, all) && invoices[m].residual == Invoices(lines, all)[m].residual
  {
    var l :| l in lines && l.move == m && invoices[m] == Read(lines, l, all);
    i :| 0 <= i < |lines| && lines[i] == l;
    InvoiceIs(lines, m, all);
  }

  lemma ReadingUnpaid(lines: seq<Line>, invoices: map<int, Invoice>, all: bool)
    requires IsReading(invoices, lines, all) && SameUnpaid(lines, all)
    ensures Unpaid(invoices) == Unpaid(Invoices(lines, all))
  {
    MovesOfInvoices(lines, all);
    forall m | m in Moves(lines) ensures IsUnpaid(invoices, m) <==> IsUnpaid(Invoices(lines, all), m) {
      var i := ReadIndex(lines, invoices, m, all);
    }
  }

  lemma ReadingLateOf(lines: seq<Line>, invoices: map<int, Invoice>, m: int, asOf: int, all: bool)
    requires IsReading(invoices, lines, all) && SameLate(lines, asOf, all) && m in invoices
    ensures m in Invoices(lines, all)
    ensures LateOf(lines, m, invoices[m], asOf, all) == LateOf(lines, m, Invoices(lines, all)[m], asOf, all)
  {
    var i := ReadIndex(lines, invoices, m, all);
  }

  lemma ReadingLate(lines: seq<Line>, invoices: map<int, Invoice>, asOf: int, all: bool)
    requires IsReading(invoices, lines, all) && SameLate(lines, asOf, all)
    ensures LateSum(lines, invoices, asOf, AmountIn(all)) == LateSum(lines, Invoices(lines, all), asOf, AmountIn(all))
    ensures LateSum(lines, invoices, asOf, Company()) == LateSum(lines, Invoices(lines, all), asOf, Company())
    ensures OverdueMoves(lines, invoices, asOf, all) == OverdueMoves(lines, Invoices(lines, all), asOf, all)
  {
    var actual := Invoices(lines, all);
    MovesOfInvoices(lines, all);
    forall m | m in Moves(lines)
      ensures LateOf(lines, m, invoices[m], asOf, all) == LateOf(lines, m, actual[m], asOf, all)
    {
      ReadingLateOf(lines, invoices, m, asOf, all);
    }
    SameLateSum(lines, invoices, actual, asOf, AmountIn(all), all);
    SameLateSum(lines, invoices, actual, asOf, Company(), all);
    SameCounted(lines, invoices, actual, asOf, all);
  }

  lemma SameCounted(lines: seq<Line>, x: map<int, Invoice>, y: map<int, Invoice>, asOf: int, all: bool)
    requires x.Keys == Moves(lines) && y.Keys == Moves(lines)
    requires forall m :: m in Moves(lines) ==> LateOf(lines, m, x[m], asOf, all) == LateOf(lines, m, y[m], asOf, all)
    ensures OverdueMoves(lines, x, asOf, all) == OverdueMoves(lines, y, asOf, all)
  {
    forall m | m in Moves(lines)
      ensures m in OverdueMoves(lines, x, asOf, all) <==> m in OverdueMoves(lines, y, asOf, all)
    {
      CountedByOwn(lines, m, x, asOf, all);
      CountedByOwn(lines, m, y, asOf, all);
    }
  }

  lemma SameLateSum(lines: seq<Line>, x: map<int, Invoice>, y: map<int, Invoice>, asOf: int, f: Line -> int, all: bool)
    requires f == AmountIn(all) || f == Company()
    requires x.Keys == Moves(lines) && y.Keys == Moves(lines)
    requires forall m :: m in Moves(lines) ==> LateOf(lines, m, x[m], asOf, all) == LateOf(lines, m, y[m], asOf, all)
    ensures LateSum(lines, x, asOf, f) == LateSum(lines, y, asOf, f)
  {
    MovesAre(lines);
    AllMovesIn(lines, Moves(lines));
    forall m | m in Moves(lines)
      ensures LateSum(Filter(lines, OfMove(m)), x, asOf, f) == LateSum(Filter(lines, OfMove(m)), y, asOf, f)
    {
      LateOfMove(lines, m, x, asOf, f);
      LateOfMove(lines, m, y, asOf, f);
    }
    SameOverMoves(lines, Moves(lines), x, y, asOf, f);
  }

  lemma ReadingDeciding(lines: seq<Line>, invoices: map<int, Invoice>, m: int, all: bool)
    requires IsReading(invoices, lines, all) && SameUnpaid(lines, all)
    requires IsDeciding(Invoices(lines, all), m) && StaysDeciding(lines, m, all)
    ensures IsDeciding(invoices, m) && SameShown(invoices[m], Invoices(lines, all)[m])
  {
    ReadingUnpaid(lines, invoices, all);
    assert m in Unpaid(invoices);
    var i := ReadIndex(lines, invoices, m, all);
    forall n | n in Unpaid(invoices) && n != m ensures Precedes(m, invoices[m], n, invoices[n]) {
      var j := ReadIndex(lines, invoices, n, all);
      assert ComesBefore(lines, lines[i], lines[j], all);
    }
  }

  /** Sums over the same lines in another order, read the same way. */
  lemma PermutedSum(xs: seq<Line>, ys: seq<Line>, invoices: map<int, Invoice>, asOf: int, f: Line -> int)
    requires multiset(xs) == multiset(ys)
    ensures LateSum(xs, invoices, asOf, f) == LateSum(ys, invoices, asOf, f)
  {
    FilterPermuted(xs, ys, LateIn(invoices, asOf));
    SumPermuted(Filter(xs, LateIn(invoices, asOf)), Filter(ys, LateIn(invoices, asOf)), f);
  }

  lemma OverdueWithin(xs: seq<Line>, ys: seq<Line>, invoices: map<int, Invoice>, asOf: int, all: bool)
    requires forall l :: l in xs ==> l in ys
    ensures OverdueMoves(xs, invoices, asOf, all) <= OverdueMoves(ys, invoices, asOf, all)
  {
    forall m | m in OverdueMoves(xs, invoices, asOf, all) ensures m in OverdueMoves(ys, invoices, asOf, all) {
      var i :| 0 <= i < |xs| && CountsAsOverdue(invoices, xs[i], asOf, all) && xs[i].move == m;
      assert xs[i] in ys;
      OverdueLineCounts(ys, xs[i], invoices, asOf, all);
    }
  }

  lemma OneDeciding(invoices: map<int, Invoice>, m: int, n: int)
    requires IsDeciding(invoices, m) && IsDeciding(invoices, n)
    ensures m == n
  {
    assert m in Unpaid(invoices) && n in Unpaid(invoices);
  }

  /** Read the same way, the same lines in another order place the same. */
  lemma PermutedPlacement(xs: seq<Line>, ys: seq<Line>, invoices: map<int, Invoice>, m: int, asOf: int, all: bool)
    requires multiset(xs) == multiset(ys) && IsUnpaid(invoices, m)
    ensures PlacementOf(xs, invoices, m, asOf, all) == PlacementOf(ys, invoices, m, asOf, all)
  {
    SameMembers(xs, ys);
    SumPermuted(xs, ys, AmountIn(all));
    SumPermuted(xs, ys, Company());
    PermutedSum(xs, ys, invoices, asOf, AmountIn(all));
    PermutedSum(xs, ys, invoices, asOf, Company());
    OverdueWithin(xs, ys, invoices, asOf, all);
    OverdueWithin(ys, xs, invoices, asOf, all);
    assert OverdueMoves(xs, invoices, asOf, all) == OverdueMoves(ys, invoices, asOf, all);
  }

  lemma EntryOfShown(total: int, totalCompany: int, unpaid: nat, overdue: int, overdueCompany: int,
                     overdueInvoices: nat, m: int, a: Invoice, b: Invoice, asOf: int)
    requires SameShown(a, b) && DueDate(a).Some?
    ensures Entry(total, totalCompany, unpaid, overdue, overdueCompany, overdueInvoices, m, a, asOf) ==
      Entry(total, totalCompany, unpaid, overdue, overdueCompany, overdueInvoices, m, b, asOf)
  {
  }

  lemma SameEntry(lines: seq<Line>, x: map<int, Invoice>, y: map<int, Invoice>, m: int, asOf: int, all: bool)
    requires IsUnpaid(x, m) && IsUnpaid(y, m) && SameShown(x[m], y[m]) && Unpaid(x) == Unpaid(y)
    requires LateSum(lines, x, asOf, AmountIn(all)) == LateSum(lines, y, asOf, AmountIn(all))
    requires LateSum(lines, x, asOf, Company()) == LateSum(lines, y, asOf, Company())
    requires OverdueMoves(lines, x, asOf, all) == OverdueMoves(lines, y, asOf, all)
    ensures PlacementOf(lines, x, m, asOf, all) == PlacementOf(lines, y, m, asOf, all)
  {
    EntryOfShown(Sum(lines, AmountIn(all)), Sum(lines, Company()), |Unpaid(x)|,
                 LateSum(lines, x, asOf, AmountIn(all)), LateSum(lines, x, asOf, Company()),
                 |OverdueMoves(lines, x, asOf, all)|, m, x[m], y[m], asOf);
  }

  lemma OrderFreeSuffices(xs: seq<Line>, ys: seq<Line>, p: Option<Placement>, q: Option<Placement>, asOf: int,
                          all: bool)
    requires multiset(xs) == multiset(ys) && OrderFree(xs, asOf, all)
    requires IsPlaced(p, xs, asOf, all) && IsPlaced(q, ys, asOf, all)
    ensures p == q
  {
    var x, y := Invoices(xs, all), Invoices(ys, all);
    OrderGivesReading(xs, ys, all);
    ReadingUnpaid(xs, y, all);
    if p.Some? {
      var m :| IsDeciding(x, m) && p.value == PlacementOf(xs, x, m, asOf, all);
      var n :| IsDeciding(y, n) && q.value == PlacementOf(ys, y, n, asOf, all);
      ReadingDeciding(xs, y, m, all);
      OneDeciding(y, m, n);
      ReadingLate(xs, y, asOf, all);
      SameEntry(xs, x, y, m, asOf, all);
      PermutedPlacement(xs, ys, y, m, asOf, all);
    }
  }

  // ---- the condition is needed ------------------------------------------------------------------------------------

  lemma {:induction false} BestExists(invoices: map<int, Invoice>, seen: set<int>) returns (best: Option<int>)
    requires forall n :: n in seen ==> IsUnpaid(invoices, n)
    ensures IsBest(invoices, best, seen)
  {
    if seen == {} {
      best := None;
    } else {
      var m := Pick(seen);
      var before := BestExists(invoices, seen - {m});
      BestStep(invoices, before, seen - {m}, m);
      best := Better(invoices, before, m);
      assert seen - {m} + {m} == seen;
    }
  }

  /** Any lines are placed, or left out, in exactly one way. */
  lemma PlacementExists(lines: seq<Line>, asOf: int, all: bool) returns (p: Option<Placement>)
    ensures IsPlaced(p, lines, asOf, all)
  {
    var invoices := Invoices(lines, all);
    var best := BestExists(invoices, Unpaid(invoices));
    BestIsDeciding(invoices, best);
    if best.None? {
      p := None;
    } else {
      p := Some(PlacementOf(lines, invoices, best.value, asOf, all));
      PlacedByDeciding(lines, invoices, best.value, asOf, all);
    }
  }

  /** Whatever the order of the lines, they are placed the same. */
  ghost predicate IgnoresOrder(lines: seq<Line>, p: Option<Placement>, asOf: int, all: bool) {
    forall ys, q :: multiset(ys) == multiset(lines) && IsPlaced(q, ys, asOf, all) ==> q == p
  }

  /** The figures of a placement, taken from a reading of the lines in any order. */
  lemma PlacedFigures(xs: seq<Line>, ys: seq<Line>, q: Option<Placement>, asOf: int, all: bool)
    requires multiset(ys) == multiset(xs) && IsPlaced(q, ys, asOf, all)
    ensures q.None? <==> Unpaid(Invoices(ys, all)) == {}
    ensures q.Some? ==> var y := Invoices(ys, all);
      q.value.unpaid == |Unpaid(y)| && q.value.overdue == LateSum(xs, y, asOf, AmountIn(all)) &&
      q.value.overdueCompany == LateSum(xs, y, asOf, Company()) &&
      q.value.overdueInvoices == |OverdueMoves(xs, y, asOf, all)| && IsDeciding(y, q.value.move) &&
      q.value.term == y[q.value.move].attributes.term && Some(q.value.due) == DueDate(y[q.value.move])
  {
    if q.Some? {
      var y := Invoices(ys, all);
      var m :| IsDeciding(y, m) && q.value == PlacementOf(ys, y, m, asOf, all);
      PermutedPlacement(xs, ys, y, m, asOf, all);
    }
  }

  /** Reading line i first: the figures it leads to are those of p. */
  lemma FrontFigures(xs: seq<Line>, i: nat, p: Option<Placement>, asOf: int, all: bool)
    requires i < |xs| && IsPlaced(p, xs, asOf, all) && IgnoresOrder(xs, p, asOf, all)
    ensures IsPlaced(p, ToFront(xs, i), asOf, all) && multiset(ToFront(xs, i)) == multiset(xs)
    ensures Invoices(ToFront(xs, i), all) == Invoices(xs, all)[xs[i].move := Read(xs, xs[i], all)]
  {
    FrontPermutes(xs, i);
    FrontReads(xs, i, all);
    var q := PlacementExists(ToFront(xs, i), asOf, all);
  }

  lemma UnpaidCount(x: map<int, Invoice>, m: int, inv: Invoice)
    requires m in x && |Unpaid(x)| == |Unpaid(x[m := inv])|
    ensures IsUnpaid(x, m) <==> IsUnpaid(x[m := inv], m)
  {
    OneDiffers(Unpaid(x), Unpaid(x[m := inv]), m);
    assert m in Unpaid(x) <==> IsUnpaid(x, m);
    assert m in Unpaid(x[m := inv]) <==> IsUnpaid(x[m := inv], m);
  }

  lemma UnpaidNeeded(xs: seq<Line>, i: nat, p: Option<Placement>, asOf: int, all: bool)
    requires i < |xs| && IsPlaced(p, xs, asOf, all) && IgnoresOrder(xs, p, asOf, all) && xs[i].move in Invoices(xs, all)
    ensures Residual(xs, xs[i].move, all) > 0 ==>
      (DueDate(Read(xs, xs[i], all)).Some? <==> DueDate(Invoices(xs, all)[xs[i].move]).Some?)
  {
    FrontFigures(xs, i, p, asOf, all);
    PlacedFigures(xs, xs, p, asOf, all);
    PlacedFigures(xs, ToFront(xs, i), p, asOf, all);
    InvoiceIs(xs, xs[i].move, all);
    UnpaidCount(Invoices(xs, all), xs[i].move, Read(xs, xs[i], all));
  }

  lemma OthersLate(lines: seq<Line>, x: map<int, Invoice>, m: int, inv: Invoice, asOf: int, f: Line -> int)
    requires x.Keys == Moves(lines) && m in x
    ensures var s := Moves(lines) - {m};
      LateSum(Filter(lines, MoveIn(s)), x, asOf, f) == LateSum(Filter(lines, MoveIn(s)), x[m := inv], asOf, f)
  {
    var s, y := Moves(lines) - {m}, x[m := inv];
    forall n | n in s
      ensures LateSum(Filter(lines, OfMove(n)), x, asOf, f) == LateSum(Filter(lines, OfMove(n)), y, asOf, f)
    {
      LateOfMove(lines, n, x, asOf, f);
      LateOfMove(lines, n, y, asOf, f);
    }
    SameOverMoves(lines, s, x, y, asOf, f);
  }

  lemma LateSumNeeded(lines: seq<Line>, x: map<int, Invoice>, m: int, inv: Invoice, asOf: int, f: Line -> int)
    requires x.Keys == Moves(lines) && m in x
    requires LateSum(lines, x, asOf, f) == LateSum(lines, x[m := inv], asOf, f)
    ensures LateSum(Filter(lines, OfMove(m)), OneInvoice(m, x[m]), asOf, f) ==
      LateSum(Filter(lines, OfMove(m)), OneInvoice(m, inv), asOf, f)
  {
    OthersLate(lines, x, m, inv, asOf, f);
    WholeLateSum(lines, m, x, asOf, f);
    WholeLateSum(lines, m, x[m := inv], asOf, f);
  }

  lemma LateNeeded(xs: seq<Line>, i: nat, p: Option<Placement>, asOf: int, all: bool)
    requires i < |xs| && IsPlaced(p, xs, asOf, all) && IgnoresOrder(xs, p, asOf, all) && p.Some?
    requires xs[i].move in Invoices(xs, all)
    ensures LateOf(xs, xs[i].move, Read(xs, xs[i], all), asOf, all) ==
      LateOf(xs, xs[i].move, Invoices(xs, all)[xs[i].move], asOf, all)
  {
    var x, m, inv := Invoices(xs, all), xs[i].move, Read(xs, xs[i], all);
    MovesOfInvoices(xs, all);
    FrontFigures(xs, i, p, asOf, all);
    PlacedFigures(xs, xs, p, asOf, all);
    PlacedFigures(xs, ToFront(xs, i), p, asOf, all);
    LateSumNeeded(xs, x, m, inv, asOf, AmountIn(all));
    LateSumNeeded(xs, x, m, inv, asOf, Company());
    CountNeeded(xs, x, m, inv, asOf, all);
  }

  lemma CountNeeded(lines: seq<Line>, x: map<int, Invoice>, m: int, inv: Invoice, asOf: int, all: bool)
    requires x.Keys == Moves(lines) && m in x
    requires |OverdueMoves(lines, x, asOf, all)| == |OverdueMoves(lines, x[m := inv], asOf, all)|
    ensures LateOf(lines, m, x[m], asOf, all).counted <==> LateOf(lines, m, inv, asOf, all).counted
  {
    var y := x[m := inv];
    forall n | n != m ensures n in OverdueMoves(lines, x, asOf, all) <==> n in OverdueMoves(lines, y, asOf, all) {
      if n in x {
        CountedByOwn(lines, n, x, asOf, all);
        CountedByOwn(lines, n, y, asOf, all);
      }
    }
    OneDiffers(OverdueMoves(lines, x, asOf, all), OverdueMoves(lines, y, asOf, all), m);
    CountedByOwn(lines, m, x, asOf, all);
    CountedByOwn(lines, m, y, asOf, all);
  }

  lemma DecidingNeeded(xs: seq<Line>, m: int, i: nat, p: Option<Placement>, asOf: int, all: bool)
    requires i < |xs| && xs[i].move == m && IsDeciding(Invoices(xs, all), m)
    requires IsPlaced(p, xs, asOf, all) && IgnoresOrder(xs, p, asOf, all) && p.Some?
    ensures SameShown(Read(xs, xs[i], all), Invoices(xs, all)[m])
  {
    FrontFigures(xs, i, p, asOf, all);
    PlacedFigures(xs, xs, p, asOf, all);
    PlacedFigures(xs, ToFront(xs, i), p, asOf, all);
    OneDeciding(Invoices(xs, all), m, p.value.move);
  }

  /** Reading line i first and line j before it: every order still gives p, and both lines are read from. */
  lemma TwoInFront(xs: seq<Line>, i: nat, j: nat, p: Option<Placement>, asOf: int, all: bool) returns (zs: seq<Line>)
    requires i < |xs| && j < |xs| && IsPlaced(p, xs, asOf, all) && IgnoresOrder(xs, p, asOf, all)
    ensures multiset(zs) == multiset(xs) && IsPlaced(p, zs, asOf, all)
    ensures var z := Invoices(zs, all);
      xs[i].move in z && xs[j].move in z && z[xs[j].move] == Read(xs, xs[j], all) &&
      (xs[i].move != xs[j].move ==> z[xs[i].move] == Read(xs, xs[i], all))
  {
    FrontFigures(xs, i, p, asOf, all);
    var ys := ToFront(xs, i);
    assert xs[j] in multiset(xs);
    assert xs[j] in multiset(ys);
    var k :| 0 <= k < |ys| && ys[k] == xs[j];
    FrontFigures(ys, k, p, asOf, all);
    zs := ToFront(ys, k);
    SameAmounts(xs, ys, xs[j].move, all);
  }

  lemma BeforeNeeded(xs: seq<Line>, m: int, i: nat, j: nat, p: Option<Placement>, asOf: int, all: bool)
    requires i < |xs| && j < |xs| && xs[i].move == m && IsDeciding(Invoices(xs, all), m)
    requires IsPlaced(p, xs, asOf, all) && IgnoresOrder(xs, p, asOf, all) && p.Some?
    ensures ComesBefore(xs, xs[i], xs[j], all)
  {
    var zs := TwoInFront(xs, i, j, p, asOf, all);
    PlacedFigures(xs, xs, p, asOf, all);
    PlacedFigures(xs, zs, p, asOf, all);
    OneDeciding(Invoices(xs, all), m, p.value.move);
    BothFront(xs, xs[i], xs[j], Invoices(zs, all), all);
  }

  lemma BothFront(xs: seq<Line>, a: Line, b: Line, z: map<int, Invoice>, all: bool)
    requires IsDeciding(z, a.move) && a.move in z && b.move in z && z[b.move] == Read(xs, b, all)
    requires a.move != b.move ==> z[a.move] == Read(xs, a, all)
    ensures ComesBefore(xs, a, b, all)
  {
    assert b.move in Unpaid(z) <==> IsUnpaid(z, b.move);
  }

  lemma OrderFreeNeeded(xs: seq<Line>, p: Option<Placement>, asOf: int, all: bool)
    requires IsPlaced(p, xs, asOf, all) && IgnoresOrder(xs, p, asOf, all)
    ensures OrderFree(xs, asOf, all)
  {
    var x := Invoices(xs, all);
    forall i | 0 <= i < |xs| && Residual(xs, xs[i].move, all) > 0 && xs[i].move in x
      ensures DueDate(Read(xs, xs[i], all)).Some? <==> DueDate(x[xs[i].move]).Some?
    {
      UnpaidNeeded(xs, i, p, asOf, all);
    }
    if Unpaid(x) != {} {
      PlacedFigures(xs, xs, p, asOf, all);
      forall i | 0 <= i < |xs| && xs[i].move in x
        ensures LateOf(xs, xs[i].move, Read(xs, xs[i], all), asOf, all) ==
          LateOf(xs, xs[i].move, x[xs[i].move], asOf, all)
      {
        LateNeeded(xs, i, p, asOf, all);
      }
      forall m | IsDeciding(x, m) ensures StaysDeciding(xs, m, all) {
        forall i | 0 <= i < |xs| && xs[i].move == m ensures SameShown(Read(xs, xs[i], all), x[m]) {
          DecidingNeeded(xs, m, i, p, asOf, all);
        }
        forall i, j | 0 <= i < |xs| && 0 <= j < |xs| && xs[i].move == m ensures ComesBefore(xs, xs[i], xs[j], all) {
          BeforeNeeded(xs, m, i, j, p, asOf, all);
        }
      }
    }
  }

  /** A customer's placement does not depend on the order of its lines exactly when they are order free. */
  lemma PlacementIgnoresOrderIff(xs: seq<Line>, p: Option<Placement>, asOf: int, all: bool)
    requires IsPlaced(p, xs, asOf, all)
    ensures IgnoresOrder(xs, p, asOf, all) <==> OrderFree(xs, asOf, all)
  {
    if IgnoresOrder(xs, p, asOf, all) { OrderFreeNeeded(xs, p, asOf, all); }
    if OrderFree(xs, asOf, all) {
      forall ys, q | multiset(ys) == multiset(xs) && IsPlaced(q, ys, asOf, all) ensures q == p {
        OrderFreeSuffices(xs, ys, p, q, asOf, all);
      }
    }
  }

  // ---- all customers ---------------------------------------------------------------------------------------------

  /** Whatever the order of the lines, every customer is placed the same. */
  ghost predicate AllIgnoreOrder(lines: seq<Line>, placed: map<GroupKey, Placement>, asOf: int, all: bool) {
    forall ys, q :: multiset(ys) == multiset(lines) && ArePlaced(q, ys, asOf, all) ==> q == placed
  }

  lemma OnePlacement(lines: seq<Line>, p: Option<Placement>, q: Option<Placement>, asOf: int, all: bool)
    requires IsPlaced(p, lines, asOf, all) && IsPlaced(q, lines, asOf, all)
    ensures p == q
  {
    var x := Invoices(lines, all);
    if p.Some? {
      var m :| IsDeciding(x, m) && p.value == PlacementOf(lines, x, m, asOf, all);
      var n :| IsDeciding(x, n) && q.value == PlacementOf(lines, x, n, asOf, all);
      OneDeciding(x, m, n);
    }
  }

  lemma {:induction false} GroupsArePlaced(lines: seq<Line>, keys: set<GroupKey>, asOf: int, all: bool)
    returns (placed: map<GroupKey, Placement>)
    ensures PlacedAmong(placed, keys, lines, asOf, all)
  {
    if keys == {} {
      placed := map[];
    } else {
      var k := Pick(keys);
      var before := GroupsArePlaced(lines, keys - {k}, asOf, all);
      var p := PlacementExists(Group(lines, KeyOf(all), k), asOf, all);
      PlaceOneMore(before, keys - {k}, lines, asOf, all, k, p);
      placed := With(before, k, p);
      assert keys - {k} + {k} == keys;
    }
  }

  lemma KeysWithin(xs: seq<Line>, ys: seq<Line>, all: bool)
    requires forall l :: l in xs ==> l in ys
    ensures KeysOf(xs, KeyOf(all)) <= KeysOf(ys, KeyOf(all))
  {
    forall i | 0 <= i < |xs| ensures KeyOf(all)(xs[i]) in KeysOf(ys, KeyOf(all)) {
      assert xs[i] in ys;
      var j :| 0 <= j < |ys| && ys[j] == xs[i];
    }
  }

  lemma SameMaps(p: map<GroupKey, Placement>, q: map<GroupKey, Placement>, keys: set<GroupKey>)
    requires p.Keys <= keys && q.Keys <= keys && forall k :: k in keys ==> PlacedFor(p, k) == PlacedFor(q, k)
    ensures p == q
  {
    assert forall k :: k in p ==> PlacedFor(p, k) == PlacedFor(q, k);
    assert forall k :: k in q ==> PlacedFor(p, k) == PlacedFor(q, k);
    assert p.Keys == q.Keys;
  }

  lemma GroupsSuffice(xs: seq<Line>, ys: seq<Line>, p: map<GroupKey, Placement>, q: map<GroupKey, Placement>,
                      asOf: int, all: bool)
    requires multiset(xs) == multiset(ys) && ArePlaced(p, xs, asOf, all) && ArePlaced(q, ys, asOf, all)
    requires forall k :: k in KeysOf(xs, KeyOf(all)) ==> OrderFree(Group(xs, KeyOf(all), k), asOf, all)
    ensures p == q
  {
    var keys := KeysOf(xs, KeyOf(all));
    SameMembers(xs, ys);
    KeysWithin(xs, ys, all);
    KeysWithin(ys, xs, all);
    forall k | k in keys ensures PlacedFor(p, k) == PlacedFor(q, k) {
      FilterPermuted(xs, ys, HasKey(KeyOf(all), k));
      OrderFreeSuffices(Group(xs, KeyOf(all), k), Group(ys, KeyOf(all), k), PlacedFor(p, k), PlacedFor(q, k), asOf,
                        all);
    }
    SameMaps(p, q, keys);
  }

  /** Any order of one customer's lines comes from an order of all lines. */
  lemma ReorderedGroup(xs: seq<Line>, gs: seq<Line>, k: GroupKey, all: bool) returns (ys: seq<Line>)
    requires multiset(gs) == multiset(Group(xs, KeyOf(all), k))
    ensures multiset(ys) == multiset(xs) && Group(ys, KeyOf(all), k) == gs
  {
    var others := Filter(xs, KeyOut(KeyOf(all), {k}));
    ys := gs + others;
    FilterSplits(xs, HasKey(KeyOf(all), k), KeyOut(KeyOf(all), {k}));
    SameMembers(gs, Group(xs, KeyOf(all), k));
    FilterMembers(xs, HasKey(KeyOf(all), k));
    FilterMembers(xs, KeyOut(KeyOf(all), {k}));
    FilterConcat(gs, others, HasKey(KeyOf(all), k));
    FilterAll(gs, HasKey(KeyOf(all), k));
    FilterNone(others, HasKey(KeyOf(all), k));
  }

  lemma GroupIgnoresOrder(xs: seq<Line>, p: map<GroupKey, Placement>, k: GroupKey, asOf: int, all: bool)
    requires ArePlaced(p, xs, asOf, all) && AllIgnoreOrder(xs, p, asOf, all) && k in KeysOf(xs, KeyOf(all))
    ensures IgnoresOrder(Group(xs, KeyOf(all), k), PlacedFor(p, k), asOf, all)
  {
    forall gs, g | multiset(gs) == multiset(Group(xs, KeyOf(all), k)) && IsPlaced(g, gs, asOf, all)
      ensures g == PlacedFor(p, k)
    {
      var ys := ReorderedGroup(xs, gs, k, all);
      SameMembers(xs, ys);
      KeysWithin(xs, ys, all);
      var q := GroupsArePlaced(ys, KeysOf(ys, KeyOf(all)), asOf, all);
      assert ArePlaced(q, ys, asOf, all);
      OnePlacement(gs, g, PlacedFor(q, k), asOf, all);
    }
  }

  /**
   * No customer's placement depends on the order of the lines exactly when the lines of every customer are order
   * free.
   */
  lemma PlacementsIgnoreOrderIff(xs: seq<Line>, p: map<GroupKey, Placement>, asOf: int, all: bool)
    requires ArePlaced(p, xs, asOf, all)
    ensures AllIgnoreOrder(xs, p, asOf, all) <==>
      forall k :: k in KeysOf(xs, KeyOf(all)) ==> OrderFree(Group(xs, KeyOf(all), k), asOf, all)
  {
    if AllIgnoreOrder(xs, p, asOf, all) {
      forall k | k in KeysOf(xs, KeyOf(all)) ensures OrderFree(Group(xs, KeyOf(all), k), asOf, all) {
        GroupIgnoresOrder(xs, p, k, asOf, all);
        OrderFreeNeeded(Group(xs, KeyOf(all), k), PlacedFor(p, k), asOf, all);
      }
    }
    if forall k :: k in KeysOf(xs, KeyOf(all)) ==> OrderFree(Group(xs, KeyOf(all), k), asOf, all) {
      forall ys, q | multiset(ys) == multiset(xs) && ArePlaced(q, ys, asOf, all) ensures q == p {
        GroupsSuffice(xs, ys, p, q, asOf, all);
      }
    }
  }

  // ---- lines that agree, and lines that do not --------------------------------------------------------------------

  /** Lines of one invoice repeat the same attributes. */
  predicate Agree(lines: seq<Line>) {
    forall i, j :: 0 <= i < |lines| && 0 <= j < |lines| && lines[i].move == lines[j].move ==>
      lines[i].attributes == lines[j].attributes
  }

  lemma AgreeReads(lines: seq<Line>, i: nat, all: bool)
    requires Agree(lines) && i < |lines| && lines[i].move in Invoices(lines, all)
    ensures Read(lines, lines[i], all) == Invoices(lines, all)[lines[i].move]
  {
    InvoiceIs(lines, lines[i].move, all);
    var j := FirstOf(lines, lines[i].move);
  }

  lemma AgreeBefore(lines: seq<Line>, m: int, i: nat, j: nat, all: bool)
    requires i < |lines| && j < |lines| && lines[i].move == m && IsDeciding(Invoices(lines, all), m)
    requires lines[j].move in Invoices(lines, all)
    requires Read(lines, lines[i], all) == Invoices(lines, all)[m]
    requires Read(lines, lines[j], all) == Invoices(lines, all)[lines[j].move]
    ensures ComesBefore(lines, lines[i], lines[j], all)
  {
    var x := Invoices(lines, all);
    assert lines[j].move in Unpaid(x) <==> IsUnpaid(x, lines[j].move);
  }

  lemma AgreeStays(lines: seq<Line>, m: int, all: bool)
    requires IsDeciding(Invoices(lines, all), m)
    requires forall i :: 0 <= i < |lines| ==>
      lines[i].move in Invoices(lines, all) && Read(lines, lines[i], all) == Invoices(lines, all)[lines[i].move]
    ensures StaysDeciding(lines, m, all)
  {
    forall i, j | 0 <= i < |lines| && 0 <= j < |lines| && lines[i].move == m
      ensures ComesBefore(lines, lines[i], lines[j], all)
    {
      AgreeBefore(lines, m, i, j, all);
    }
  }

  /** Lines that repeat their invoice's attributes are order free. */
  lemma AgreeIsOrderFree(lines: seq<Line>, asOf: int, all: bool)
    requires Agree(lines)
    ensures OrderFree(lines, asOf, all)
  {
    var x := Invoices(lines, all);
    MovesOfInvoices(lines, all);
    forall i | 0 <= i < |lines|
      ensures lines[i].move in x && Read(lines, lines[i], all) == x[lines[i].move]
    {
      assert lines[i].move in Moves(lines);
      AgreeReads(lines, i, all);
    }
    forall m | IsDeciding(x, m) ensures StaysDeciding(lines, m, all) { AgreeStays(lines, m, all); }
  }

  /** Two lines of one invoice with different terms: the term shown is that of the line read first. */
  lemma OrderMatters(a: Line, b: Line, p: Option<Placement>, q: Option<Placement>)
    requires a == Line(1, "LYD", 5, Some(10), Attributes(Some(10), None, None, 30), 100, 100)
    requires b == Line(1, "LYD", 5, Some(10), Attributes(Some(10), None, None, 60), 100, 100)
    requires IsPlaced(p, [a, b], 20, false) && IsPlaced(q, [b, a], 20, false)
    ensures p.Some? && q.Some? && p.value.term == 30 && q.value.term == 60
  {
    TwoLines(a, b);
    TwoLines(b, a);
    PlacedFigures([a, b], [a, b], p, 20, false);
    PlacedFigures([b, a], [b, a], q, 20, false);
    assert 5 in Unpaid(Invoices([a, b], false)) && 5 in Unpaid(Invoices([b, a], false));
  }

  lemma TwoLines(a: Line, b: Line)
    requires a.move == b.move && a.due == b.due && a.due.Some? && a.docAmount > 0 && b.docAmount > 0
    ensures Invoices([a, b], false) == map[a.move := Invoice(a.docAmount + b.docAmount, a.due, a.attributes)]
  {
    var lines := [a, b];
    assert lines[..1] == [a] && [a][..0] == [];
    assert Invoices([a], false) == map[a.move := Invoice(a.docAmount, a.due, a.attributes)];
  }
}
