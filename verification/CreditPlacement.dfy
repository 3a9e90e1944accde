/**
 * Where every customer stands in the credit policy: the unpaid invoice with the earliest due date decides
 * (`measures/debtAging.ts`, lines 187-297 and 330-388). Dates are day numbers, money is in millionths.
 */
module CreditPlacement {
  import opened Prelude
  import opened Sums
  import opened Totals
  import opened CreditPolicy

  datatype Line = Line(customer: int, currency: string, move: int, due: Option<int>, attributes: Attributes,
                       docAmount: int, companyAmount: int)

  /** What a line repeats of its invoice. */
  datatype Attributes = Attributes(invoiceDue: Option<int>, invoiceDate: Option<int>, termDays: Option<int>, term: int)

  datatype Invoice = Invoice(residual: int, openDue: Option<int>, attributes: Attributes)

  datatype Source = Instalment | OfInvoice | PaymentTerm | InvoiceDate
  datatype Due = Due(date: int, source: Source)

  datatype Placement = Placement(total: int, totalCompany: int, unpaid: nat, overdue: int, overdueCompany: int,
                                 overdueInvoices: nat, move: int, term: int, due: Due, days: int, zone: Option<nat>,
                                 next: Option<Next>, approaching: bool, action: Option<nat>)

  function DueDate(inv: Invoice): Option<Due> {
    if inv.openDue.Some? then Some(Due(inv.openDue.value, Instalment))
    else if inv.attributes.invoiceDue.Some? then Some(Due(inv.attributes.invoiceDue.value, OfInvoice))
    else if inv.attributes.invoiceDate.None? then None
    else if inv.attributes.termDays.Some? then
      Some(Due(inv.attributes.invoiceDate.value + inv.attributes.termDays.value, PaymentTerm))
    else Some(Due(inv.attributes.invoiceDate.value, InvoiceDate))
  }

  // ---- the invoices of a group -------------------------------------------------------------------------------

  function AmountOf(l: Line, all: bool): int { if all then l.companyAmount else l.docAmount }

  function AmountIn(all: bool): Line -> int { (l: Line) => AmountOf(l, all) }

  function Company(): Line -> int { (l: Line) => l.companyAmount }

  function OfMove(m: int): Line -> bool { (l: Line) => l.move == m }

  function Moves(lines: seq<Line>): set<int> { set i | 0 <= i < |lines| :: lines[i].move }

  function Residual(lines: seq<Line>, m: int, all: bool): int { Sum(Filter(lines, OfMove(m)), AmountIn(all)) }

  /** A line with an open amount and a due date of its own. */
  predicate IsInstalment(l: Line, m: int, all: bool) { l.move == m && AmountOf(l, all) > 0 && l.due.Some? }

  /** The earliest due date among the invoice's open lines. */
  function OpenDue(lines: seq<Line>, m: int, all: bool): Option<int> {
    if lines == [] then None
    else
      var before, l := OpenDue(lines[..|lines| - 1], m, all), lines[|lines| - 1];
      if IsInstalment(l, m, all) && (before.None? || l.due.value < before.value) then l.due else before
  }

  /** The attributes on the invoice's first line. */
  function FirstAttributes(lines: seq<Line>, m: int): Attributes
    requires m in Moves(lines)
  {
    var rest := lines[..|lines| - 1];
    if m in Moves(rest) then FirstAttributes(rest, m)
    else
      MovesGrow(lines);
      lines[|lines| - 1].attributes
  }

  lemma MovesGrow(lines: seq<Line>)
    requires lines != []
    ensures Moves(lines) == Moves(lines[..|lines| - 1]) + {lines[|lines| - 1].move}
  {
    var rest := lines[..|lines| - 1];
    assert forall i :: 0 <= i < |rest| ==> rest[i] == lines[i];
  }

  function InvoiceOf(lines: seq<Line>, m: int, all: bool): Invoice
    requires m in Moves(lines)
  {
    Invoice(Residual(lines, m, all), OpenDue(lines, m, all), FirstAttributes(lines, m))
  }

  function WithLine(invoices: map<int, Invoice>, l: Line, all: bool): map<int, Invoice> {
    invoices[l.move := AddLine(if l.move in invoices then invoices[l.move] else Invoice(0, None, l.attributes), l, all)]
  }

  /** Every invoice of the lines, read line by line. */
  function Invoices(lines: seq<Line>, all: bool): map<int, Invoice> {
    if lines == [] then map[] else WithLine(Invoices(lines[..|lines| - 1], all), lines[|lines| - 1], all)
  }

  /** Reading line by line gives each invoice its residual, its earliest open due date and its attributes. */
  lemma {:induction false} InvoiceIs(lines: seq<Line>, m: int, all: bool)
    ensures m in Invoices(lines, all) <==> m in Moves(lines)
    ensures m in Moves(lines) ==> Invoices(lines, all)[m] == InvoiceOf(lines, m, all)
  {
    if lines != [] {
      var rest, last := lines[..|lines| - 1], lines[|lines| - 1];
      assert lines == rest + [last];
      MovesGrow(lines);
      InvoiceIs(rest, m, all);
      if m in Moves(lines) { InvoiceStep(rest, last, m, all); }
    }
  }

  lemma InvoiceStep(lines: seq<Line>, l: Line, m: int, all: bool)
    requires m in Moves(lines + [l])
    ensures m != l.move ==> m in Moves(lines) && InvoiceOf(lines + [l], m, all) == InvoiceOf(lines, m, all)
    ensures m == l.move ==> InvoiceOf(lines + [l], m, all) == AddLine(
      if m in Moves(lines) then InvoiceOf(lines, m, all) else Invoice(0, None, l.attributes), l, all)
  {
    var next := lines + [l];
    assert next[..|next| - 1] == lines;
    MovesGrow(next);
    if m == l.move {
      SumSnoc(Filter(lines, OfMove(m)), l, AmountIn(all));
      if m !in Moves(lines) { NothingOfMove(lines, m, all); }
    }
  }

  lemma {:induction false} NothingOfMove(lines: seq<Line>, m: int, all: bool)
    requires m !in Moves(lines)
    ensures Filter(lines, OfMove(m)) == [] && OpenDue(lines, m, all) == None
  {
    if lines != [] {
      MovesGrow(lines);
      NothingOfMove(lines[..|lines| - 1], m, all);
    }
  }

  /** One line read into its invoice. */
  function AddLine(inv: Invoice, l: Line, all: bool): Invoice {
    inv.(
      residual := inv.residual + AmountOf(l, all),
      openDue := if AmountOf(l, all) > 0 && l.due.Some? && (inv.openDue.None? || l.due.value < inv.openDue.value)
                 then l.due else inv.openDue)
  }

  lemma ReadStep(lines: seq<Line>, i: nat, all: bool)
    requires i < |lines|
    ensures Invoices(lines[..i + 1], all) == WithLine(Invoices(lines[..i], all), lines[i], all)
    ensures Sum(lines[..i + 1], AmountIn(all)) == Sum(lines[..i], AmountIn(all)) + AmountOf(lines[i], all)
    ensures Sum(lines[..i + 1], Company()) == Sum(lines[..i], Company()) + lines[i].companyAmount
  {
    assert lines[..i + 1][..i] == lines[..i];
  }

  method ReadInvoices(lines: seq<Line>, all: bool) returns (invoices: map<int, Invoice>, total: int, totalCompany: int)
    ensures invoices == Invoices(lines, all)
    ensures total == Sum(lines, AmountIn(all)) && totalCompany == Sum(lines, Company())
  {
    invoices, total, totalCompany := map[], 0, 0;
    for i := 0 to |lines|
      invariant invoices == Invoices(lines[..i], all)
      invariant total == Sum(lines[..i], AmountIn(all)) && totalCompany == Sum(lines[..i], Company())
    {
      var l := lines[i];
      ReadStep(lines, i, all);
      total := total + AmountOf(l, all);
      totalCompany := totalCompany + l.companyAmount;
      invoices := WithLine(invoices, l, all);
    }
    assert lines[..|lines|] == lines;
  }

  // ---- overdue lines ------------------------------------------------------------------------------------------

  /** The line's own due date, else the due date of its invoice. */
  function LineDue(l: Line, inv: Invoice): Option<int> {
    if l.due.Some? then l.due
    else if DueDate(inv).Some? then Some(DueDate(inv).value.date)
    else None
  }

  predicate IsLate(l: Line, inv: Invoice, asOf: int) {
    LineDue(l, inv).Some? && LineDue(l, inv).value + OVERDUE_OFFSET_DAYS <= asOf
  }

  predicate LateLine(invoices: map<int, Invoice>, l: Line, asOf: int) {
    l.move in invoices && IsLate(l, invoices[l.move], asOf)
  }

  function LateIn(invoices: map<int, Invoice>, asOf: int): Line -> bool { (l: Line) => LateLine(invoices, l, asOf) }

  /** An open overdue line of an unpaid invoice. */
  predicate CountsAsOverdue(invoices: map<int, Invoice>, l: Line, asOf: int, all: bool) {
    LateLine(invoices, l, asOf) && AmountOf(l, all) > 0 && invoices[l.move].residual > 0
  }

  function OverdueMoves(lines: seq<Line>, invoices: map<int, Invoice>, asOf: int, all: bool): set<int> {
    set i | 0 <= i < |lines| && CountsAsOverdue(invoices, lines[i], asOf, all) :: lines[i].move
  }

  lemma OverdueMovesGrow(lines: seq<Line>, l: Line, invoices: map<int, Invoice>, asOf: int, all: bool)
    ensures OverdueMoves(lines + [l], invoices, asOf, all) ==
      OverdueMoves(lines, invoices, asOf, all) + if CountsAsOverdue(invoices, l, asOf, all) then {l.move} else {}
  {
    var next := lines + [l];
    assert forall i :: 0 <= i < |lines| ==> next[i] == lines[i];
    assert next[|lines|] == l;
  }

  /** The late lines added up. */
  function LateSum(lines: seq<Line>, invoices: map<int, Invoice>, asOf: int, f: Line -> int): int {
    Sum(Filter(lines, LateIn(invoices, asOf)), f)
  }

  lemma LateStep(lines: seq<Line>, l: Line, invoices: map<int, Invoice>, asOf: int, f: Line -> int)
    ensures Sum(Filter(lines + [l], LateIn(invoices, asOf)), f) ==
      Sum(Filter(lines, LateIn(invoices, asOf)), f) + if LateLine(invoices, l, asOf) then f(l) else 0
  {
    assert (lines + [l])[..|lines|] == lines;
    SumSnoc(Filter(lines, LateIn(invoices, asOf)), l, f);
  }

  lemma OverdueStep(lines: seq<Line>, i: nat, invoices: map<int, Invoice>, asOf: int, all: bool)
    requires i < |lines| && invoices.Keys == Moves(lines)
    ensures lines[i].move in invoices
    ensures LateSum(lines[..i + 1], invoices, asOf, AmountIn(all)) ==
      LateSum(lines[..i], invoices, asOf, AmountIn(all)) +
      if LateLine(invoices, lines[i], asOf) then AmountOf(lines[i], all) else 0
    ensures LateSum(lines[..i + 1], invoices, asOf, Company()) == LateSum(lines[..i], invoices, asOf, Company()) +
      if LateLine(invoices, lines[i], asOf) then lines[i].companyAmount else 0
    ensures OverdueMoves(lines[..i + 1], invoices, asOf, all) == OverdueMoves(lines[..i], invoices, asOf, all) +
      if CountsAsOverdue(invoices, lines[i], asOf, all) then {lines[i].move} else {}
  {
    assert lines[i].move in Moves(lines);
    assert lines[..i + 1] == lines[..i] + [lines[i]];
    OverdueMovesGrow(lines[..i], lines[i], invoices, asOf, all);
    LateStep(lines[..i], lines[i], invoices, asOf, AmountIn(all));
    LateStep(lines[..i], lines[i], invoices, asOf, Company());
  }

  lemma MovesOfInvoices(lines: seq<Line>, all: bool)
    ensures Invoices(lines, all).Keys == Moves(lines)
  {
    forall m ensures m in Invoices(lines, all) <==> m in Moves(lines) { InvoiceIs(lines, m, all); }
  }

  method ReadOverdue(lines: seq<Line>, invoices: map<int, Invoice>, asOf: int, all: bool)
      returns (overdue: int, overdueCompany: int, moves: set<int>)
    requires invoices.Keys == Moves(lines)
    ensures overdue == LateSum(lines, invoices, asOf, AmountIn(all))
    ensures overdueCompany == LateSum(lines, invoices, asOf, Company())
    ensures moves == OverdueMoves(lines, invoices, asOf, all)
  {
    overdue, overdueCompany, moves := 0, 0, {};
    for i := 0 to |lines|
      invariant overdue == LateSum(lines[..i], invoices, asOf, AmountIn(all))
      invariant overdueCompany == LateSum(lines[..i], invoices, asOf, Company())
      invariant moves == OverdueMoves(lines[..i], invoices, asOf, all)
    {
      var l := lines[i];
      OverdueStep(lines, i, invoices, asOf, all);
      var inv := invoices[l.move];
      if !IsLate(l, inv, asOf) { continue; }
      overdue := overdue + AmountOf(l, all);
      overdueCompany := overdueCompany + l.companyAmount;
      if AmountOf(l, all) > 0 && inv.residual > 0 { moves := moves + {l.move}; }
    }
    assert lines[..|lines|] == lines;
  }

  // ---- the deciding invoice -------------------------------------------------------------------------------------

  predicate IsUnpaid(invoices: map<int, Invoice>, m: int) {
    m in invoices && invoices[m].residual > 0 && DueDate(invoices[m]).Some?
  }

  function Unpaid(invoices: map<int, Invoice>): set<int> { set m | m in invoices && IsUnpaid(invoices, m) }

  /** No date sorts before every date. */
  predicate DateLess(a: Option<int>, b: Option<int>) {
    b.Some? && (a.None? || a.value < b.value)
  }

  /** The order of unpaid invoices: due date, then invoice date, then move id. */
  predicate Precedes(m: int, a: Invoice, n: int, b: Invoice)
    requires DueDate(a).Some? && DueDate(b).Some?
  {
    var x, y := DueDate(a).value.date, DueDate(b).value.date;
    x < y ||
    (x == y && (DateLess(a.attributes.invoiceDate, b.attributes.invoiceDate) ||
                (a.attributes.invoiceDate == b.attributes.invoiceDate && m < n)))
  }

  predicate IsDeciding(invoices: map<int, Invoice>, m: int) {
    IsUnpaid(invoices, m) &&
    forall n :: n in Unpaid(invoices) && n != m ==> Precedes(m, invoices[m], n, invoices[n])
  }

  /** The best of some unpaid invoices. */
  predicate IsBest(invoices: map<int, Invoice>, best: Option<int>, seen: set<int>) {
    (forall n :: n in seen ==> IsUnpaid(invoices, n)) &&
    (best.None? <==> seen == {}) &&
    (best.Some? ==> best.value in seen) &&
    (best.Some? ==> forall n :: n in seen && n != best.value ==>
      Precedes(best.value, invoices[best.value], n, invoices[n]))
  }

  lemma PrecedesOrder(m: int, a: Invoice, n: int, b: Invoice, k: int, c: Invoice)
    requires DueDate(a).Some? && DueDate(b).Some? && DueDate(c).Some?
    ensures Precedes(m, a, n, b) && Precedes(n, b, k, c) ==> Precedes(m, a, k, c)
    ensures m != n ==> Precedes(m, a, n, b) || Precedes(n, b, m, a)
  {
  }

  function Better(invoices: map<int, Invoice>, best: Option<int>, m: int): Option<int>
    requires IsUnpaid(invoices, m) && (best.Some? ==> IsUnpaid(invoices, best.value))
  {
    if best.None? || Precedes(m, invoices[m], best.value, invoices[best.value]) then Some(m) else best
  }

  lemma BestStep(invoices: map<int, Invoice>, best: Option<int>, seen: set<int>, m: int)
    requires IsBest(invoices, best, seen) && m !in seen && IsUnpaid(invoices, m)
    ensures IsBest(invoices, Better(invoices, best, m), seen + {m})
  {
    if best.Some? {
      forall n | n in seen && n != best.value
        ensures Better(invoices, best, m) == Some(m) ==> Precedes(m, invoices[m], n, invoices[n])
      {
        PrecedesOrder(m, invoices[m], best.value, invoices[best.value], n, invoices[n]);
      }
      PrecedesOrder(m, invoices[m], best.value, invoices[best.value], m, invoices[m]);
    }
  }

  method FindDeciding(invoices: map<int, Invoice>) returns (best: Option<int>, count: nat)
    ensures best.None? <==> Unpaid(invoices) == {}
    ensures best.Some? ==> IsDeciding(invoices, best.value)
    ensures count == |Unpaid(invoices)|
  {
    best := None;
    var unpaid := Unpaid(invoices);
    var todo := unpaid;
    ghost var seen: set<int> := {};
    while todo != {}
      invariant seen !! todo && seen + todo == unpaid && IsBest(invoices, best, seen)
      decreases todo
    {
      var m :| m in todo;
      BestStep(invoices, best, seen, m);
      best := Better(invoices, best, m);
      todo, seen := todo - {m}, seen + {m};
    }
    assert seen == unpaid;
    BestIsDeciding(invoices, best);
    count := |unpaid|;
  }

  lemma BestIsDeciding(invoices: map<int, Invoice>, best: Option<int>)
    requires IsBest(invoices, best, Unpaid(invoices))
    ensures best.Some? ==> IsDeciding(invoices, best.value)
    ensures best.None? <==> Unpaid(invoices) == {}
  {
  }

  // ---- the placement of a group ---------------------------------------------------------------------------------

  /** The entry of a customer whose deciding invoice is m. */
  function Entry(total: int, totalCompany: int, unpaid: nat, overdue: int, overdueCompany: int, overdueInvoices: nat,
                 m: int, inv: Invoice, asOf: int): Placement
    requires DueDate(inv).Some?
  {
    var due := DueDate(inv).value;
    var days := asOf - (due.date + OVERDUE_OFFSET_DAYS);
    var notYetDue := days < 0;
    var zones := CREDIT_POLICY_ZONES;
    Placement(total, totalCompany, unpaid, overdue, overdueCompany, overdueInvoices, m, inv.attributes.term, due, days,
              if notYetDue then None else ZoneForDays(days, zones), if notYetDue then None else NextZone(days, zones),
              !notYetDue && ApproachingNextZone(days, zones), ActionForDays(days, zones))
  }

  function PlacementOf(lines: seq<Line>, invoices: map<int, Invoice>, m: int, asOf: int, all: bool): Placement
    requires IsUnpaid(invoices, m)
  {
    Entry(Sum(lines, AmountIn(all)), Sum(lines, Company()), |Unpaid(invoices)|,
          LateSum(lines, invoices, asOf, AmountIn(all)), LateSum(lines, invoices, asOf, Company()),
          |OverdueMoves(lines, invoices, asOf, all)|, m, invoices[m], asOf)
  }

  /** What a group is given: nothing without an unpaid invoice, else the placement by its deciding invoice. */
  ghost predicate IsPlacedBy(p: Option<Placement>, lines: seq<Line>, invoices: map<int, Invoice>, asOf: int, all: bool)
  {
    (p.None? <==> Unpaid(invoices) == {}) &&
    (p.Some? ==> exists m :: IsDeciding(invoices, m) && p.value == PlacementOf(lines, invoices, m, asOf, all))
  }

  ghost predicate IsPlaced(p: Option<Placement>, lines: seq<Line>, asOf: int, all: bool) {
    IsPlacedBy(p, lines, Invoices(lines, all), asOf, all)
  }

  method PlaceGroup(lines: seq<Line>, asOf: int, all: bool) returns (p: Option<Placement>)
    ensures IsPlaced(p, lines, asOf, all)
  {
    var invoices, total, totalCompany := ReadInvoices(lines, all);
    MovesOfInvoices(lines, all);
    var overdue, overdueCompany, moves := ReadOverdue(lines, invoices, asOf, all);
    var best, count := FindDeciding(invoices);
    if best.None? { return None; }
    p := Some(Entry(total, totalCompany, count, overdue, overdueCompany, |moves|, best.value, invoices[best.value],
                    asOf));
    PlacedByDeciding(lines, invoices, best.value, asOf, all);
  }

  lemma PlacedByDeciding(lines: seq<Line>, invoices: map<int, Invoice>, m: int, asOf: int, all: bool)
    requires IsDeciding(invoices, m)
    ensures IsPlacedBy(Some(PlacementOf(lines, invoices, m, asOf, all)), lines, invoices, asOf, all)
  {
    assert m in Unpaid(invoices);
  }

  // ---- coherence: zone against overdue invoices -----------------------------------------------------------------

  lemma {:induction false} OpenDueIs(lines: seq<Line>, m: int, all: bool)
    ensures OpenDue(lines, m, all).None? <==> forall l :: l in lines ==> !IsInstalment(l, m, all)
    ensures OpenDue(lines, m, all).Some? ==> forall l :: l in lines && IsInstalment(l, m, all) ==>
      OpenDue(lines, m, all).value <= l.due.value
    ensures OpenDue(lines, m, all).Some? ==> exists l ::
      l in lines && IsInstalment(l, m, all) && l.due == OpenDue(lines, m, all)
  {
    if lines != [] {
      var rest, last := lines[..|lines| - 1], lines[|lines| - 1];
      OpenDueIs(rest, m, all);
      assert lines == rest + [last];
      if OpenDue(lines, m, all) == last.due && IsInstalment(last, m, all) { assert last in lines; }
    }
  }

  lemma {:induction false} SomePositive(lines: seq<Line>, all: bool) returns (l: Line)
    requires Sum(lines, AmountIn(all)) > 0
    ensures l in lines && AmountOf(l, all) > 0
  {
    var last := |lines| - 1;
    if AmountOf(lines[last], all) > 0 { l := lines[last]; } else { l := SomePositive(lines[..last], all); }
  }

  /** An unpaid invoice has an open line due on the invoice's own due date. */
  lemma DueLineExists(lines: seq<Line>, m: int, all: bool) returns (l: Line)
    requires IsUnpaid(Invoices(lines, all), m)
    ensures l in lines && l.move == m && AmountOf(l, all) > 0
    ensures LineDue(l, Invoices(lines, all)[m]) == Some(DueDate(Invoices(lines, all)[m]).value.date)
  {
    InvoiceIs(lines, m, all);
    OpenDueIs(lines, m, all);
    FilterMembers(lines, OfMove(m));
    if OpenDue(lines, m, all).Some? {
      l :| l in lines && IsInstalment(l, m, all) && l.due == OpenDue(lines, m, all);
    } else {
      l := SomePositive(Filter(lines, OfMove(m)), all);
    }
  }

  lemma OpenLineDueLater(lines: seq<Line>, l: Line, all: bool)
    requires l in lines && AmountOf(l, all) > 0 && l.move in Invoices(lines, all)
    ensures var inv := Invoices(lines, all)[l.move];
      LineDue(l, inv).Some? ==> DueDate(inv).Some? && DueDate(inv).value.date <= LineDue(l, inv).value
  {
    InvoiceIs(lines, l.move, all);
    OpenDueIs(lines, l.move, all);
    assert l.due.Some? ==> IsInstalment(l, l.move, all);
  }

  /** The deciding invoice is overdue exactly when some invoice has an open overdue line. */
  lemma DecidingIsOverdueIff(lines: seq<Line>, m: int, asOf: int, all: bool)
    requires IsDeciding(Invoices(lines, all), m)
    ensures DueDate(Invoices(lines, all)[m]).value.date + OVERDUE_OFFSET_DAYS <= asOf <==>
      OverdueMoves(lines, Invoices(lines, all), asOf, all) != {}
  {
    var invoices := Invoices(lines, all);
    if DueDate(invoices[m]).value.date + OVERDUE_OFFSET_DAYS <= asOf {
      var l := DueLineExists(lines, m, all);
      OverdueLineCounts(lines, l, invoices, asOf, all);
    }
    if OverdueMoves(lines, invoices, asOf, all) != {} {
      var n :| n in OverdueMoves(lines, invoices, asOf, all);
      var i :| 0 <= i < |lines| && CountsAsOverdue(invoices, lines[i], asOf, all) && lines[i].move == n;
      OpenLineDueLater(lines, lines[i], all);
      DecidingIsEarliest(invoices, m, n);
    }
  }

  lemma OverdueLineCounts(lines: seq<Line>, l: Line, invoices: map<int, Invoice>, asOf: int, all: bool)
    requires l in lines && CountsAsOverdue(invoices, l, asOf, all)
    ensures l.move in OverdueMoves(lines, invoices, asOf, all)
  {
    var i :| 0 <= i < |lines| && lines[i] == l;
  }

  lemma DecidingIsEarliest(invoices: map<int, Invoice>, m: int, n: int)
    requires IsDeciding(invoices, m) && IsUnpaid(invoices, n)
    ensures DueDate(invoices[m]).value.date <= DueDate(invoices[n]).value.date
  {
    assert n in Unpaid(invoices);
  }

  /** A customer is in a zone exactly when it has at least one overdue invoice, counted from the lines. */
  lemma ZoneIffOverdueInvoice(lines: seq<Line>, m: int, asOf: int, all: bool)
    requires IsDeciding(Invoices(lines, all), m)
    ensures var p := PlacementOf(lines, Invoices(lines, all), m, asOf, all); p.zone.Some? <==> p.overdueInvoices >= 1
  {
    DecidingIsOverdueIff(lines, m, asOf, all);
    NonEmptyIff(OverdueMoves(lines, Invoices(lines, all), asOf, all));
  }

  lemma NonEmptyIff(s: set<int>)
    ensures |s| >= 1 <==> s != {}
  {
  }

  // ---- all customers ----------------------------------------------------------------------------------------------

  /** Per customer and currency, or per customer over every currency. */
  datatype GroupKey = GroupKey(customer: int, currency: Option<string>)

  function KeyOf(all: bool): Line -> GroupKey {
    (l: Line) => GroupKey(l.customer, if all then None else Some(l.currency))
  }

  function PlacedFor(placed: map<GroupKey, Placement>, k: GroupKey): Option<Placement> {
    if k in placed then Some(placed[k]) else None
  }

  ghost predicate ArePlaced(placed: map<GroupKey, Placement>, lines: seq<Line>, asOf: int, all: bool) {
    PlacedAmong(placed, KeysOf(lines, KeyOf(all)), lines, asOf, all)
  }

  /** The groups placed so far. */
  ghost predicate PlacedAmong(placed: map<GroupKey, Placement>, keys: set<GroupKey>, lines: seq<Line>, asOf: int,
                              all: bool)
  {
    placed.Keys <= keys &&
    forall k :: k in keys ==> IsPlaced(PlacedFor(placed, k), Group(lines, KeyOf(all), k), asOf, all)
  }

  lemma PlaceOneMore(placed: map<GroupKey, Placement>, keys: set<GroupKey>, lines: seq<Line>, asOf: int, all: bool,
                     k: GroupKey, p: Option<Placement>)
    requires PlacedAmong(placed, keys, lines, asOf, all) && k !in keys
    requires IsPlaced(p, Group(lines, KeyOf(all), k), asOf, all)
    ensures PlacedAmong(With(placed, k, p), keys + {k}, lines, asOf, all)
  {
    forall j | j in keys + {k}
      ensures IsPlaced(PlacedFor(With(placed, k, p), j), Group(lines, KeyOf(all), j), asOf, all)
    {
      WithFor(placed, k, p, j);
    }
  }

  function With(placed: map<GroupKey, Placement>, k: GroupKey, p: Option<Placement>): map<GroupKey, Placement> {
    if p.Some? then placed[k := p.value] else placed
  }

  lemma WithFor(placed: map<GroupKey, Placement>, k: GroupKey, p: Option<Placement>, j: GroupKey)
    requires k !in placed
    ensures PlacedFor(With(placed, k, p), j) == if j == k then p else PlacedFor(placed, j)
  {
  }

  method PlaceCustomers(lines: seq<Line>, asOf: int, all: bool) returns (placed: map<GroupKey, Placement>)
    ensures ArePlaced(placed, lines, asOf, all)
  {
    var groups := GroupBy(lines, KeyOf(all));
    placed := map[];
    var todo := groups.Keys;
    ghost var done: set<GroupKey> := {};
    while todo != {}
      invariant done !! todo && done + todo == groups.Keys
      invariant PlacedAmong(placed, done, lines, asOf, all)
      decreases todo
    {
      var k :| k in todo;
      todo := todo - {k};
      var p := PlaceGroup(groups[k], asOf, all);
      PlaceOneMore(placed, done, lines, asOf, all, k, p);
      placed := With(placed, k, p);
      done := done + {k};
    }
    assert done == KeysOf(lines, KeyOf(all));
  }

  lemma PlacedBy(placed: map<GroupKey, Placement>, lines: seq<Line>, asOf: int, all: bool, k: GroupKey) returns (m: int)
    requires ArePlaced(placed, lines, asOf, all) && k in placed
    ensures var group := Group(lines, KeyOf(all), k);
      IsDeciding(Invoices(group, all), m) && placed[k] == PlacementOf(group, Invoices(group, all), m, asOf, all)
  {
    var group := Group(lines, KeyOf(all), k);
    assert IsPlaced(PlacedFor(placed, k), group, asOf, all);
    m :| IsDeciding(Invoices(group, all), m) && placed[k] == PlacementOf(group, Invoices(group, all), m, asOf, all);
  }

  /** Every placed customer is in a zone exactly when it has an overdue invoice. */
  lemma PlacedCoherently(placed: map<GroupKey, Placement>, lines: seq<Line>, asOf: int, all: bool, k: GroupKey)
    requires ArePlaced(placed, lines, asOf, all) && k in placed
    ensures placed[k].zone.Some? <==> placed[k].overdueInvoices >= 1
  {
    var m := PlacedBy(placed, lines, asOf, all, k);
    ZoneIffOverdueInvoice(Group(lines, KeyOf(all), k), m, asOf, all);
  }
}
