/**
 * What a placed customer's standing says, read off its own lines and the policy's days (`measures/debtAging.ts`,
 * lines 187-297). Nothing here names the functions the placement is computed with.
 */
module CreditStanding {
  import opened Prelude
  import opened Sums
  import opened Totals
  import opened CreditPolicy
  import opened CreditPlacement

  // ---- the lines of a customer -----------------------------------------------------------------------------------

  function Document(): Line -> int { (l: Line) => l.docAmount }
  function InCompany(): Line -> int { (l: Line) => l.companyAmount }

  /** Of the customer, and of the currency unless every currency is taken together. */
  predicate Mine(l: Line, k: GroupKey, all: bool) {
    l.customer == k.customer && if all then k.currency == None else k.currency == Some(l.currency)
  }

  function IsMine(k: GroupKey, all: bool): Line -> bool { (l: Line) => Mine(l, k, all) }

  lemma GroupIs(lines: seq<Line>, k: GroupKey, all: bool)
    ensures Group(lines, KeyOf(all), k) == Filter(lines, IsMine(k, all))
  {
    FilterSame(lines, HasKey(KeyOf(all), k), IsMine(k, all));
  }

  /** The amount of a line in the view: of the company when every currency is taken together. */
  function InView(all: bool): Line -> int { if all then InCompany() else Document() }

  function MoveIs(m: int): Line -> bool { (l: Line) => l.move == m }

  /** The lines of invoice m. */
  function OwnLines(mine: seq<Line>, m: int): seq<Line> { Filter(mine, MoveIs(m)) }

  lemma OwnLinesAre(mine: seq<Line>, m: int, all: bool)
    ensures Filter(mine, OfMove(m)) == OwnLines(mine, m)
    ensures Residual(mine, m, all) == Sum(OwnLines(mine, m), InView(all))
    ensures m in Moves(mine) <==> OwnLines(mine, m) != []
  {
    FilterSame(mine, OfMove(m), MoveIs(m));
    SumSame(OwnLines(mine, m), AmountIn(all), InView(all));
    FilterMembers(mine, MoveIs(m));
    if OwnLines(mine, m) != [] {
      assert OwnLines(mine, m)[0] in mine;
      var i :| 0 <= i < |mine| && mine[i] == OwnLines(mine, m)[0];
    }
    if m in Moves(mine) {
      var i :| 0 <= i < |mine| && mine[i].move == m;
      assert mine[i] in OwnLines(mine, m);
    }
  }

  lemma {:induction false} FirstOwn(mine: seq<Line>, m: int)
    requires m in Moves(mine) && OwnLines(mine, m) != []
    ensures FirstAttributes(mine, m) == OwnLines(mine, m)[0].attributes
  {
    var rest := mine[..|mine| - 1];
    MovesGrow(mine);
    OwnLinesAre(rest, m, true);
    if m in Moves(rest) { FirstOwn(rest, m); }
  }

  // ---- the due date of an invoice --------------------------------------------------------------------------------

  /** An open line with a due date of its own. */
  predicate Installed(l: Line, all: bool) { InView(all)(l) > 0 && l.due.Some? }

  predicate NoInstalment(own: seq<Line>, all: bool) { forall l :: l in own ==> !Installed(l, all) }

  /** Where the due date of an invoice with these lines comes from: the earliest instalment still open, else the due
    * date of the invoice, else its date and the days of its payment term, else its date. */
  ghost predicate DueFrom(own: seq<Line>, all: bool, d: Due)
    requires own != []
  {
    var a := own[0].attributes;
    match d.source
    case Instalment =>
      (exists l :: l in own && Installed(l, all) && l.due.value == d.date) &&
      (forall l :: l in own && Installed(l, all) ==> d.date <= l.due.value)
    case OfInvoice => NoInstalment(own, all) && a.invoiceDue == Some(d.date)
    case PaymentTerm =>
      NoInstalment(own, all) && a.invoiceDue.None? && a.invoiceDate.Some? && a.termDays.Some? &&
      d.date == a.invoiceDate.value + a.termDays.value
    case InvoiceDate =>
      NoInstalment(own, all) && a.invoiceDue.None? && a.termDays.None? && a.invoiceDate == Some(d.date)
  }

  lemma InstalledAre(mine: seq<Line>, m: int, all: bool)
    ensures forall l :: l in OwnLines(mine, m) && Installed(l, all) <==> l in mine && IsInstalment(l, m, all)
  {
    FilterMembers(mine, MoveIs(m));
    forall l ensures l in OwnLines(mine, m) && Installed(l, all) <==> l in mine && IsInstalment(l, m, all) {
      assert InView(all)(l) == AmountOf(l, all);
    }
  }

  lemma DueIs(mine: seq<Line>, m: int, all: bool, d: Due)
    requires m in Moves(mine) && OwnLines(mine, m) != [] && m in Invoices(mine, all)
    ensures DueDate(Invoices(mine, all)[m]) == Some(d) <==> DueFrom(OwnLines(mine, m), all, d)
  {
    InvoiceIs(mine, m, all);
    OpenDueIs(mine, m, all);
    FirstOwn(mine, m);
    InstalledAre(mine, m, all);
  }

  // ---- the deciding invoice --------------------------------------------------------------------------------------

  /** An invoice with something left to pay and a due date. */
  ghost predicate IsUnpaidDue(mine: seq<Line>, m: int, all: bool, d: Due) {
    var own := OwnLines(mine, m);
    own != [] && Sum(own, InView(all)) > 0 && DueFrom(own, all, d)
  }

  lemma UnpaidIs(mine: seq<Line>, m: int, all: bool, d: Due)
    ensures IsUnpaidDue(mine, m, all, d) <==>
      IsUnpaid(Invoices(mine, all), m) && DueDate(Invoices(mine, all)[m]) == Some(d)
  {
    MovesOfInvoices(mine, all);
    OwnLinesAre(mine, m, all);
    InvoiceIs(mine, m, all);
    if m in Moves(mine) { DueIs(mine, m, all, d); }
  }

  /** No date comes before every date. */
  predicate Older(a: Option<int>, b: Option<int>) {
    match (a, b)
    case (None, Some(_)) => true
    case (Some(x), Some(y)) => x < y
    case (_, None) => false
  }

  /** Invoice m, due on d and dated a, comes before invoice n: due first, or else older, or else numbered lower. */
  predicate ComesFirst(m: int, d: int, a: Option<int>, n: int, e: int, b: Option<int>) {
    if d != e then d < e else if a != b then Older(a, b) else m < n
  }

  /** The date on the first of the lines. */
  function DateOn(own: seq<Line>): Option<int>
    requires own != []
  {
    own[0].attributes.invoiceDate
  }

  lemma PrecedesIs(m: int, x: Invoice, n: int, y: Invoice)
    requires DueDate(x).Some? && DueDate(y).Some? && m != n
    ensures Precedes(m, x, n, y) <==>
      ComesFirst(m, DueDate(x).value.date, x.attributes.invoiceDate, n, DueDate(y).value.date, y.attributes.invoiceDate)
  {
  }

  /** The deciding invoice of some lines comes before every other unpaid one. */
  lemma DecidingComesFirst(mine: seq<Line>, all: bool, m: int, d: Due, n: int, e: Due)
    requires IsDeciding(Invoices(mine, all), m) && IsUnpaidDue(mine, m, all, d)
    requires n != m && IsUnpaidDue(mine, n, all, e)
    ensures ComesFirst(m, d.date, DateOn(OwnLines(mine, m)), n, e.date, DateOn(OwnLines(mine, n)))
  {
    var invoices := Invoices(mine, all);
    UnpaidIs(mine, m, all, d);
    UnpaidIs(mine, n, all, e);
    AttributesRead(mine, m, all);
    AttributesRead(mine, n, all);
    assert n in Unpaid(invoices);
    PrecedesIs(m, invoices[m], n, invoices[n]);
  }

  /**
   * The deciding invoice is unpaid and due, gives its date, its source and its payment term, and comes before every
   * other unpaid invoice.
   */
  lemma Decides(placed: map<GroupKey, Placement>, lines: seq<Line>, asOf: int, all: bool, k: GroupKey)
    requires ArePlaced(placed, lines, asOf, all) && k in placed
    ensures var mine, m, d := Filter(lines, IsMine(k, all)), placed[k].move, placed[k].due;
      && IsUnpaidDue(mine, m, all, d)
      && placed[k].term == OwnLines(mine, m)[0].attributes.term
      && forall n, e :: n != m && IsUnpaidDue(mine, n, all, e) ==>
           ComesFirst(m, d.date, DateOn(OwnLines(mine, m)), n, e.date, DateOn(OwnLines(mine, n)))
  {
    GroupIs(lines, k, all);
    var mine := Filter(lines, IsMine(k, all));
    var m := PlacedBy(placed, lines, asOf, all, k);
    UnpaidIs(mine, m, all, placed[k].due);
    AttributesRead(mine, m, all);
    forall n, e | n != m && IsUnpaidDue(mine, n, all, e)
      ensures ComesFirst(m, placed[k].due.date, DateOn(OwnLines(mine, m)), n, e.date, DateOn(OwnLines(mine, n)))
    {
      DecidingComesFirst(mine, all, m, placed[k].due, n, e);
    }
  }

  /** A customer is placed exactly when it has an unpaid invoice with a due date. */
  lemma PlacedIff(placed: map<GroupKey, Placement>, lines: seq<Line>, asOf: int, all: bool, k: GroupKey)
    requires ArePlaced(placed, lines, asOf, all)
    ensures k in placed <==> exists m, d :: IsUnpaidDue(Filter(lines, IsMine(k, all)), m, all, d)
  {
    GroupIs(lines, k, all);
    var mine := Filter(lines, IsMine(k, all));
    if m, d :| IsUnpaidDue(mine, m, all, d) {
      UnpaidIs(mine, m, all, d);
      if k !in KeysOf(lines, KeyOf(all)) {
        NoGroup(lines, KeyOf(all), k);
        MovesOfInvoices(mine, all);
      }
      assert m in Unpaid(Invoices(mine, all));
      assert IsPlaced(PlacedFor(placed, k), mine, asOf, all);
    }
    if k in placed { Decides(placed, lines, asOf, all, k); }
  }

  lemma AttributesRead(mine: seq<Line>, m: int, all: bool)
    requires m in Invoices(mine, all)
    ensures OwnLines(mine, m) != [] && Invoices(mine, all)[m].attributes == OwnLines(mine, m)[0].attributes
  {
    MovesOfInvoices(mine, all);
    OwnLinesAre(mine, m, all);
    InvoiceIs(mine, m, all);
    FirstOwn(mine, m);
  }

  // ---- the figures -----------------------------------------------------------------------------------------------

  /** Overdue by its own due date, or by that of its invoice when it has none. */
  ghost predicate Overdue(mine: seq<Line>, l: Line, asOf: int, all: bool) {
    if l.due.Some? then l.due.value < asOf
    else OwnLines(mine, l.move) != [] && exists d :: DueFrom(OwnLines(mine, l.move), all, d) && d.date < asOf
  }

  ghost function IsOverdue(mine: seq<Line>, asOf: int, all: bool): Line -> bool {
    (l: Line) => Overdue(mine, l, asOf, all)
  }

  lemma OverdueIs(mine: seq<Line>, l: Line, asOf: int, all: bool)
    requires l in mine
    ensures LateLine(Invoices(mine, all), l, asOf) <==> Overdue(mine, l, asOf, all)
  {
    MovesOfInvoices(mine, all);
    OwnLinesAre(mine, l.move, all);
    var i :| 0 <= i < |mine| && mine[i] == l;
    assert l.move in Moves(mine);
    forall d { DueIs(mine, l.move, all, d); }
    var inv := Invoices(mine, all)[l.move];
    if DueDate(inv).Some? { assert DueFrom(OwnLines(mine, l.move), all, DueDate(inv).value); }
  }

  /** The open overdue lines of unpaid invoices, by their invoices. */
  ghost function OverdueInvoices(mine: seq<Line>, asOf: int, all: bool): set<int> {
    set l |
      l in mine && Overdue(mine, l, asOf, all) && InView(all)(l) > 0 &&
      Sum(OwnLines(mine, l.move), InView(all)) > 0
      :: l.move
  }

  ghost function UnpaidInvoices(mine: seq<Line>, all: bool): set<int> {
    set l | l in mine && exists d :: IsUnpaidDue(mine, l.move, all, d) :: l.move
  }

  /** Every figure of a placed customer, added up and counted over its own lines. */
  lemma Figures(placed: map<GroupKey, Placement>, lines: seq<Line>, asOf: int, all: bool, k: GroupKey)
    requires ArePlaced(placed, lines, asOf, all) && k in placed
    ensures var mine := Filter(lines, IsMine(k, all));
      && placed[k].total == Sum(mine, InView(all))
      && placed[k].totalCompany == Sum(mine, InCompany())
      && placed[k].overdue == Sum(Filter(mine, IsOverdue(mine, asOf, all)), InView(all))
      && placed[k].overdueCompany == Sum(Filter(mine, IsOverdue(mine, asOf, all)), InCompany())
      && placed[k].overdueInvoices == |OverdueInvoices(mine, asOf, all)|
      && placed[k].unpaid == |UnpaidInvoices(mine, all)|
  {
    GroupIs(lines, k, all);
    var mine := Filter(lines, IsMine(k, all));
    var m := PlacedBy(placed, lines, asOf, all, k);
    var invoices := Invoices(mine, all);
    SumSame(mine, AmountIn(all), InView(all));
    SumSame(mine, Company(), InCompany());
    forall l | l in mine ensures LateIn(invoices, asOf)(l) == IsOverdue(mine, asOf, all)(l) {
      OverdueIs(mine, l, asOf, all);
    }
    FilterSame(mine, LateIn(invoices, asOf), IsOverdue(mine, asOf, all));
    var late := Filter(mine, IsOverdue(mine, asOf, all));
    SumSame(late, AmountIn(all), InView(all));
    SumSame(late, Company(), InCompany());
    CountedAre(mine, asOf, all);
    UnpaidAre(mine, all);
  }

  lemma CountedAre(mine: seq<Line>, asOf: int, all: bool)
    ensures OverdueMoves(mine, Invoices(mine, all), asOf, all) == OverdueInvoices(mine, asOf, all)
  {
    var invoices := Invoices(mine, all);
    MovesOfInvoices(mine, all);
    forall i | 0 <= i < |mine|
      ensures CountsAsOverdue(invoices, mine[i], asOf, all) <==>
        Overdue(mine, mine[i], asOf, all) && InView(all)(mine[i]) > 0 &&
        Sum(OwnLines(mine, mine[i].move), InView(all)) > 0
    {
      OverdueIs(mine, mine[i], asOf, all);
      OwnLinesAre(mine, mine[i].move, all);
      InvoiceIs(mine, mine[i].move, all);
    }
    forall l | l in mine && CountsAsOverdue(invoices, l, asOf, all)
      ensures l.move in OverdueMoves(mine, invoices, asOf, all)
    {
      OverdueLineCounts(mine, l, invoices, asOf, all);
    }
    forall n | n in OverdueInvoices(mine, asOf, all) ensures n in OverdueMoves(mine, invoices, asOf, all) {
      var l :| l in mine && Overdue(mine, l, asOf, all) && InView(all)(l) > 0 &&
        Sum(OwnLines(mine, l.move), InView(all)) > 0 && l.move == n;
      var i :| 0 <= i < |mine| && mine[i] == l;
    }
  }

  lemma UnpaidAre(mine: seq<Line>, all: bool)
    ensures Unpaid(Invoices(mine, all)) == UnpaidInvoices(mine, all)
  {
    var invoices := Invoices(mine, all);
    MovesOfInvoices(mine, all);
    forall m, d { UnpaidIs(mine, m, all, d); }
    forall m | m in Unpaid(invoices) ensures m in UnpaidInvoices(mine, all) {
      assert IsUnpaidDue(mine, m, all, DueDate(invoices[m]).value);
      var i :| 0 <= i < |mine| && mine[i].move == m;
      assert mine[i] in mine;
    }
  }

  // ---- the policy --------------------------------------------------------------------------------------------------

  /** Days overdue are counted from the day after the due date; 15, 30 and 44 are the last days of the first three
    * zones, 60 and 65 those of the first two actions of the last zone. */
  lemma StandsInPolicy(placed: map<GroupKey, Placement>, lines: seq<Line>, asOf: int, all: bool, k: GroupKey)
    requires ArePlaced(placed, lines, asOf, all) && k in placed
    ensures placed[k].days == asOf - placed[k].due.date - 1
    ensures placed[k].zone.None? <==> placed[k].days < 0
    ensures placed[k].zone.Some? ==>
      && placed[k].zone.value < |CREDIT_POLICY_ZONES|
      && Contains(CREDIT_POLICY_ZONES[placed[k].zone.value].span, placed[k].days)
    ensures placed[k].zone == Some(0) <==> 0 <= placed[k].days <= 15
    ensures placed[k].zone == Some(1) <==> 16 <= placed[k].days <= 30
    ensures placed[k].zone == Some(2) <==> 31 <= placed[k].days <= 44
    ensures placed[k].zone == Some(3) <==> 45 <= placed[k].days
    ensures placed[k].next.Some? <==> 0 <= placed[k].days < 45
    ensures placed[k].next.Some? ==>
      && placed[k].zone.Some? && placed[k].next.value.zone == placed[k].zone.value + 1 < |CREDIT_POLICY_ZONES|
      && placed[k].days + placed[k].next.value.inDays == CREDIT_POLICY_ZONES[placed[k].next.value.zone].span.min
    ensures placed[k].approaching <==>
      9 <= placed[k].days <= 15 || 24 <= placed[k].days <= 30 || 38 <= placed[k].days <= 44
    ensures placed[k].action == if placed[k].days < 45 then None
                                else if placed[k].days <= 60 then Some(0)
                                else if placed[k].days <= 65 then Some(1) else Some(2)
  {
    var m := PlacedBy(placed, lines, asOf, all, k);
    LookedUpBy(placed[k], lines, Invoices(Group(lines, KeyOf(all), k), all), m, asOf, all, k);
    InForce(placed[k].days);
  }

  /** The placement is what the lookups say about its days. */
  lemma LookedUpBy(p: Placement, lines: seq<Line>, invoices: map<int, Invoice>, m: int, asOf: int, all: bool,
                   k: GroupKey)
    requires IsUnpaid(invoices, m) && p == PlacementOf(Group(lines, KeyOf(all), k), invoices, m, asOf, all)
    ensures p.days == asOf - p.due.date - 1
    ensures p.zone == ZoneForDays(p.days, CREDIT_POLICY_ZONES) && p.next == NextZone(p.days, CREDIT_POLICY_ZONES)
    ensures p.action == ActionForDays(p.days, CREDIT_POLICY_ZONES)
    ensures p.approaching <==> p.next.Some? && p.next.value.inDays <= 7
  {
  }

  /** The lookups on the policy in force. */
  lemma InForce(day: int)
    ensures ZoneForDays(day, CREDIT_POLICY_ZONES) == if day < 0 then None
                                                     else if day <= 15 then Some(0)
                                                     else if day <= 30 then Some(1)
                                                     else if day <= 44 then Some(2) else Some(3)
    ensures NextZone(day, CREDIT_POLICY_ZONES) == if day < 0 || day > 44 then None
                                                  else if day <= 15 then Some(Next(1, 16 - day))
                                                  else if day <= 30 then Some(Next(2, 31 - day))
                                                  else Some(Next(3, 45 - day))
    ensures ActionForDays(day, CREDIT_POLICY_ZONES) == if day < 45 then None
                                                       else if day <= 60 then Some(0)
                                                       else if day <= 65 then Some(1) else Some(2)
  {
    PolicyInForceIsAccepted();
    var zones := CREDIT_POLICY_ZONES;
    var i: nat := if day <= 15 then 0 else if day <= 30 then 1 else if day <= 44 then 2 else 3;
    ZoneLookup(day, zones, i);
    if day >= 45 {
      ActionIsFound(day, zones, 3);
      var j := if day <= 60 then 0 else if day <= 65 then 1 else 2;
      assert Contains(zones[3].areas.value[j].span, day);
    }
  }
}
