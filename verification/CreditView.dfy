/** The credit policy page: the customers shown and their zone totals (`measures/debtAging.ts`, lines 330-388). */
module CreditView {
  import opened Prelude
  import opened Sums
  import opened Totals
  import opened CreditPolicy
  import opened CreditPlacement
  import opened CreditStanding

  /** A row of the page. */
  datatype Customer = Customer(key: GroupKey, place: Placement)

  datatype ZoneSummary = ZoneSummary(customers: int, amount: int, amountCompany: int)

  // ---- who is shown --------------------------------------------------------------------------------------------

  /** Overdue, and of the chosen payment term if any. */
  predicate IsShown(p: Placement, term: Option<int>) { p.days >= 0 && (term.None? || p.term == term.value) }

  predicate DistinctCustomers(shown: seq<Customer>) {
    forall i, j :: 0 <= i < j < |shown| ==> shown[i].key != shown[j].key
  }

  /** Every placed customer that is to be shown, exactly once. */
  ghost predicate AreShown(shown: seq<Customer>, placed: map<GroupKey, Placement>, term: Option<int>) {
    DistinctCustomers(shown) &&
    forall c :: c in shown <==> c.key in placed && placed[c.key] == c.place && IsShown(c.place, term)
  }

  method ShownOf(placed: map<GroupKey, Placement>, term: Option<int>) returns (shown: seq<Customer>)
    ensures AreShown(shown, placed, term)
  {
    shown := [];
    var todo := placed.Keys;
    while todo != {}
      invariant todo <= placed.Keys
      invariant forall c :: c in shown <==>
        c.key in placed && c.key !in todo && placed[c.key] == c.place && IsShown(c.place, term)
      invariant DistinctCustomers(shown)
      decreases todo
    {
      var k :| k in todo;
      todo := todo - {k};
      if IsShown(placed[k], term) {
        assert forall c :: c in shown ==> c.key != k;
        shown := shown + [Customer(k, placed[k])];
      }
    }
  }

  lemma ZoneFromDays(lines: seq<Line>, invoices: map<int, Invoice>, m: int, asOf: int, all: bool)
    requires IsUnpaid(invoices, m)
    ensures var p := PlacementOf(lines, invoices, m, asOf, all);
      (p.zone.Some? <==> p.days >= 0) && (p.zone.Some? ==> p.zone.value < |CREDIT_POLICY_ZONES|)
  {
    DayHasZone(asOf - (DueDate(invoices[m]).value.date + OVERDUE_OFFSET_DAYS), CREDIT_POLICY_ZONES);
  }

  lemma DayHasZone(day: int, zones: seq<Zone>)
    requires |zones| > 0
    ensures ZoneForDays(day, zones).Some? <==> day >= 0
    ensures ZoneForDays(day, zones).Some? ==> ZoneForDays(day, zones).value < |zones|
  {
  }

  lemma ShownIsInZone(placed: map<GroupKey, Placement>, lines: seq<Line>, asOf: int, all: bool, k: GroupKey,
                      term: Option<int>)
    requires ArePlaced(placed, lines, asOf, all) && k in placed && IsShown(placed[k], term)
    ensures placed[k].zone.Some? && placed[k].zone.value < |CREDIT_POLICY_ZONES| && placed[k].overdueInvoices >= 1
  {
    var group := Group(lines, KeyOf(all), k);
    var m := PlacedBy(placed, lines, asOf, all, k);
    ZoneFromDays(group, Invoices(group, all), m, asOf, all);
    PlacedCoherently(placed, lines, asOf, all, k);
  }

  // ---- totals over the rows ------------------------------------------------------------------------------------

  function InZone(i: nat): Customer -> bool { (c: Customer) => c.place.zone == Some(i) }
  function BelowZone(n: nat): Customer -> bool { (c: Customer) => c.place.zone.Some? && c.place.zone.value < n }
  function One(): Customer -> int { (c: Customer) => 1 }
  function Overdue(): Customer -> int { (c: Customer) => c.place.overdue }
  function OverdueCompany(): Customer -> int { (c: Customer) => c.place.overdueCompany }

  function SummaryOf(list: seq<Customer>): ZoneSummary {
    ZoneSummary(Sum(list, One()), Sum(list, Overdue()), Sum(list, OverdueCompany()))
  }

  /** The sum of f over the zones before n. */
  function ZonesSum(shown: seq<Customer>, n: nat, f: Customer -> int): int {
    if n == 0 then 0 else ZonesSum(shown, n - 1, f) + Sum(Filter(shown, InZone(n - 1)), f)
  }

  lemma {:induction false} OneZoneMore(shown: seq<Customer>, n: nat, f: Customer -> int)
    ensures Sum(Filter(shown, BelowZone(n + 1)), f) ==
      Sum(Filter(shown, BelowZone(n)), f) + Sum(Filter(shown, InZone(n)), f)
  {
    if shown != [] {
      var rest, last := shown[..|shown| - 1], shown[|shown| - 1];
      OneZoneMore(rest, n, f);
      assert shown == rest + [last];
      SumFilterSnoc(rest, last, BelowZone(n + 1), f);
      SumFilterSnoc(rest, last, BelowZone(n), f);
      SumFilterSnoc(rest, last, InZone(n), f);
    }
  }

  lemma {:induction false} NoZoneBelow(shown: seq<Customer>)
    ensures Filter(shown, BelowZone(0)) == []
  {
    if shown != [] { NoZoneBelow(shown[..|shown| - 1]); }
  }

  lemma {:induction false} ZonesBelow(shown: seq<Customer>, n: nat, f: Customer -> int)
    ensures ZonesSum(shown, n, f) == Sum(Filter(shown, BelowZone(n)), f)
  {
    if n == 0 {
      NoZoneBelow(shown);
    } else {
      ZonesBelow(shown, n - 1, f);
      OneZoneMore(shown, n - 1, f);
    }
  }

  lemma {:induction false} AllBelow(shown: seq<Customer>, n: nat)
    requires forall c :: c in shown ==> c.place.zone.Some? && c.place.zone.value < n
    ensures Filter(shown, BelowZone(n)) == shown
  {
    if shown != [] { AllBelow(shown[..|shown| - 1], n); }
  }

  /** Over customers that all are in a zone, the zone figures add up to the overall figures. */
  lemma ZoneTotalsAddUp(shown: seq<Customer>, f: Customer -> int)
    requires forall c :: c in shown ==> c.place.zone.Some? && c.place.zone.value < |CREDIT_POLICY_ZONES|
    ensures ZonesSum(shown, |CREDIT_POLICY_ZONES|, f) == Sum(shown, f)
  {
    ZonesBelow(shown, |CREDIT_POLICY_ZONES|, f);
    AllBelow(shown, |CREDIT_POLICY_ZONES|);
  }

  function Customers(): ZoneSummary -> int { (z: ZoneSummary) => z.customers }
  function Amount(): ZoneSummary -> int { (z: ZoneSummary) => z.amount }
  function AmountCompany(): ZoneSummary -> int { (z: ZoneSummary) => z.amountCompany }

  function AddedUp(zones: seq<ZoneSummary>): ZoneSummary {
    ZoneSummary(Sum(zones, Customers()), Sum(zones, Amount()), Sum(zones, AmountCompany()))
  }

  /** The summaries of the first n zones. */
  function ZoneSummaries(shown: seq<Customer>, n: nat): (zones: seq<ZoneSummary>)
    ensures |zones| == n
  {
    if n == 0 then [] else ZoneSummaries(shown, n - 1) + [SummaryOf(Filter(shown, InZone(n - 1)))]
  }

  lemma {:induction false} SummaryAt(shown: seq<Customer>, n: nat, i: nat)
    requires i < n
    ensures ZoneSummaries(shown, n)[i] == SummaryOf(Filter(shown, InZone(i)))
  {
    if i < n - 1 { SummaryAt(shown, n - 1, i); }
  }

  lemma {:induction false} SummariesAddUp(shown: seq<Customer>, n: nat)
    ensures AddedUp(ZoneSummaries(shown, n)) ==
      ZoneSummary(ZonesSum(shown, n, One()), ZonesSum(shown, n, Overdue()), ZonesSum(shown, n, OverdueCompany()))
  {
    if n > 0 {
      SummariesAddUp(shown, n - 1);
      var before, zone := ZoneSummaries(shown, n - 1), SummaryOf(Filter(shown, InZone(n - 1)));
      SumSnoc(before, zone, Customers());
      SumSnoc(before, zone, Amount());
      SumSnoc(before, zone, AmountCompany());
    }
  }

  lemma ZonesMakeTotal(shown: seq<Customer>)
    requires forall c :: c in shown ==> c.place.zone.Some? && c.place.zone.value < |CREDIT_POLICY_ZONES|
    ensures AddedUp(ZoneSummaries(shown, |CREDIT_POLICY_ZONES|)) == SummaryOf(shown)
  {
    SummariesAddUp(shown, |CREDIT_POLICY_ZONES|);
    ZoneTotalsAddUp(shown, One());
    ZoneTotalsAddUp(shown, Overdue());
    ZoneTotalsAddUp(shown, OverdueCompany());
  }

  /** The zone figures and the overall figures of customers that all are in a zone agree. */
  method Summarise(shown: seq<Customer>) returns (zones: seq<ZoneSummary>, total: ZoneSummary)
    requires forall c :: c in shown ==> c.place.zone.Some? && c.place.zone.value < |CREDIT_POLICY_ZONES|
    ensures zones == ZoneSummaries(shown, |CREDIT_POLICY_ZONES|)
    ensures total == SummaryOf(shown) == AddedUp(zones)
  {
    zones := [];
    for i := 0 to |CREDIT_POLICY_ZONES|
      invariant zones == ZoneSummaries(shown, i)
    {
      zones := zones + [SummaryOf(Filter(shown, InZone(i)))];
    }
    total := SummaryOf(shown);
    ZonesMakeTotal(shown);
  }

  /** The customers one by one: how many, and their overdue amounts. */
  function Counted(list: seq<Customer>): ZoneSummary {
    if list == [] then ZoneSummary(0, 0, 0)
    else
      var z, p := Counted(list[..|list| - 1]), list[|list| - 1].place;
      ZoneSummary(z.customers + 1, z.amount + p.overdue, z.amountCompany + p.overdueCompany)
  }

  function OfZone(key: string): Customer -> bool {
    (c: Customer) =>
      c.place.zone.Some? && c.place.zone.value < |CREDIT_POLICY_ZONES| &&
      CREDIT_POLICY_ZONES[c.place.zone.value].key == key
  }

  lemma {:induction false} CountedIs(list: seq<Customer>)
    ensures SummaryOf(list) == Counted(list)
  {
    if list != [] { CountedIs(list[..|list| - 1]); }
  }

  /** A zone's figures are those of the customers standing in the zone of that name. */
  lemma ZoneIs(shown: seq<Customer>, i: nat)
    requires i < |CREDIT_POLICY_ZONES|
    ensures SummaryOf(Filter(shown, InZone(i))) == Counted(Filter(shown, OfZone(CREDIT_POLICY_ZONES[i].key)))
  {
    CountedIs(Filter(shown, InZone(i)));
    FilterSame(shown, InZone(i), OfZone(CREDIT_POLICY_ZONES[i].key));
  }

  // ---- totals over the placed customers ---------------------------------------------------------------------------

  /** The customers shown, in one zone or in all of them. */
  function ShownKeys(placed: map<GroupKey, Placement>, term: Option<int>, zone: Option<nat>): set<GroupKey> {
    set k | k in placed && IsShown(placed[k], term) && (zone.None? || placed[k].zone == zone)
  }

  ghost function OverdueAt(placed: map<GroupKey, Placement>): GroupKey -> real {
    k => if k in placed then placed[k].overdue as real else 0.0
  }

  ghost function OverdueCompanyAt(placed: map<GroupKey, Placement>): GroupKey -> real {
    k => if k in placed then placed[k].overdueCompany as real else 0.0
  }

  /** A summary counts each of the given customers once. */
  ghost predicate Summarises(s: ZoneSummary, placed: map<GroupKey, Placement>, keys: set<GroupKey>) {
    s.customers == |keys| &&
    s.amount as real == Total(keys, OverdueAt(placed)) &&
    s.amountCompany as real == Total(keys, OverdueCompanyAt(placed))
  }

  function CustomerKey(): Customer -> GroupKey { (c: Customer) => c.key }

  lemma {:induction false} DistinctCount(list: seq<Customer>)
    requires DistinctCustomers(list)
    ensures Sum(list, One()) == |KeysOf(list, CustomerKey())|
  {
    if list == [] {
      assert KeysOf(list, CustomerKey()) == {};
    } else {
      var rest, last := list[..|list| - 1], list[|list| - 1];
      DistinctCount(rest);
      KeysGrow(list, CustomerKey(), |list| - 1);
      assert list[..|list|] == list;
      assert last.key !in KeysOf(rest, CustomerKey());
    }
  }

  lemma ListSummarises(list: seq<Customer>, placed: map<GroupKey, Placement>, keys: set<GroupKey>)
    requires DistinctCustomers(list) && KeysOf(list, CustomerKey()) == keys
    requires forall c :: c in list ==> c.key in placed && placed[c.key] == c.place
    ensures Summarises(SummaryOf(list), placed, keys)
  {
    DistinctCount(list);
    SumAsReal(list, Overdue());
    SumAsReal(list, OverdueCompany());
    SumOverKeys(list, CustomerKey(), AsReal(Overdue()), OverdueAt(placed));
    SumOverKeys(list, CustomerKey(), AsReal(OverdueCompany()), OverdueCompanyAt(placed));
  }

  lemma {:induction false} FilterDistinct(shown: seq<Customer>, p: Customer -> bool)
    requires DistinctCustomers(shown)
    ensures DistinctCustomers(Filter(shown, p))
  {
    FilterMembers(shown, p);
    if shown != [] {
      var rest, last := shown[..|shown| - 1], shown[|shown| - 1];
      FilterDistinct(rest, p);
      FilterMembers(rest, p);
      assert forall c :: c in rest ==> c.key != last.key;
    }
  }

  lemma ZoneKeys(shown: seq<Customer>, placed: map<GroupKey, Placement>, term: Option<int>, zone: nat)
    requires AreShown(shown, placed, term)
    ensures KeysOf(Filter(shown, InZone(zone)), CustomerKey()) == ShownKeys(placed, term, Some(zone))
  {
    var list := Filter(shown, InZone(zone));
    FilterMembers(shown, InZone(zone));
    forall k | k in ShownKeys(placed, term, Some(zone)) ensures k in KeysOf(list, CustomerKey()) {
      var c := Customer(k, placed[k]);
      assert c in list;
      var i :| 0 <= i < |list| && list[i] == c;
      assert CustomerKey()(list[i]) == k;
    }
    forall i | 0 <= i < |list| ensures list[i].key in ShownKeys(placed, term, Some(zone)) {
      assert list[i] in shown;
    }
  }

  lemma AllKeys(shown: seq<Customer>, placed: map<GroupKey, Placement>, term: Option<int>)
    requires AreShown(shown, placed, term)
    ensures KeysOf(shown, CustomerKey()) == ShownKeys(placed, term, None)
  {
    forall k | k in ShownKeys(placed, term, None) ensures k in KeysOf(shown, CustomerKey()) {
      var c := Customer(k, placed[k]);
      assert c in shown;
      var i :| 0 <= i < |shown| && shown[i] == c;
      assert CustomerKey()(shown[i]) == k;
    }
    forall i | 0 <= i < |shown| ensures shown[i].key in ShownKeys(placed, term, None) {
      assert shown[i] in shown;
    }
  }

  lemma TotalSummarises(shown: seq<Customer>, placed: map<GroupKey, Placement>, term: Option<int>)
    requires AreShown(shown, placed, term)
    ensures Summarises(SummaryOf(shown), placed, ShownKeys(placed, term, None))
  {
    AllKeys(shown, placed, term);
    ListSummarises(shown, placed, ShownKeys(placed, term, None));
  }

  lemma ZoneSummarises(shown: seq<Customer>, placed: map<GroupKey, Placement>, term: Option<int>, zone: nat)
    requires AreShown(shown, placed, term)
    ensures Summarises(SummaryOf(Filter(shown, InZone(zone))), placed, ShownKeys(placed, term, Some(zone)))
  {
    FilterMembers(shown, InZone(zone));
    FilterDistinct(shown, InZone(zone));
    ZoneKeys(shown, placed, term, zone);
    ListSummarises(Filter(shown, InZone(zone)), placed, ShownKeys(placed, term, Some(zone)));
  }

  // ---- the page ---------------------------------------------------------------------------------------------------

  function InCurrency(currency: string): Line -> bool { (l: Line) => l.currency == currency }

  /** The lines of the view: one currency, or every currency together. */
  function Chosen(lines: seq<Line>, all: bool, currency: string): seq<Line> {
    if all then lines else Filter(lines, InCurrency(currency))
  }

  /**
   * Every placed customer that is overdue, and of the term, is shown once; each zone counts and adds up exactly its
   * customers, the total all of them, and the zones make the total.
   */
  method BuildCreditPolicy(lines: seq<Line>, asOf: int, all: bool, currency: string, term: Option<int>)
      returns (zones: seq<ZoneSummary>, total: ZoneSummary, shown: seq<Customer>, placed: map<GroupKey, Placement>)
    ensures ArePlaced(placed, Chosen(lines, all, currency), asOf, all)
    ensures AreShown(shown, placed, term)
    ensures forall c :: c in shown <==>
      && c.key in placed && placed[c.key] == c.place && c.place.due.date < asOf
      && (term == None || term == Some(c.place.term))
    ensures forall c :: c in shown ==> c.place.zone.Some? && c.place.overdueInvoices >= 1
    ensures |zones| == |CREDIT_POLICY_ZONES|
    ensures forall i :: 0 <= i < |zones| ==> Summarises(zones[i], placed, ShownKeys(placed, term, Some(i)))
    ensures Summarises(total, placed, ShownKeys(placed, term, None))
    ensures total == AddedUp(zones) == Counted(shown)
    ensures forall i :: 0 <= i < |zones| ==> zones[i] == Counted(Filter(shown, OfZone(CREDIT_POLICY_ZONES[i].key)))
  {
    placed := PlaceCustomers(Chosen(lines, all, currency), asOf, all);
    shown := ShownOf(placed, term);
    forall c | c in shown
      ensures c.place.zone.Some? && c.place.zone.value < |CREDIT_POLICY_ZONES| && c.place.overdueInvoices >= 1
    {
      ShownIsInZone(placed, Chosen(lines, all, currency), asOf, all, c.key, term);
    }
    zones, total := Summarise(shown);
    CountedIs(shown);
    forall i | 0 <= i < |zones|
      ensures Summarises(zones[i], placed, ShownKeys(placed, term, Some(i)))
      ensures zones[i] == Counted(Filter(shown, OfZone(CREDIT_POLICY_ZONES[i].key)))
    {
      SummaryAt(shown, |zones|, i);
      ZoneIs(shown, i);
      ZoneSummarises(shown, placed, term, i);
    }
    TotalSummarises(shown, placed, term);
    forall k | k in placed ensures placed[k].days == asOf - placed[k].due.date - 1 {
      StandsInPolicy(placed, Chosen(lines, all, currency), asOf, all, k);
    }
  }

  /** The lines of the view: those in its currency, or all of them. */
  lemma ChosenAre(lines: seq<Line>, all: bool, currency: string)
    ensures forall l :: l in Chosen(lines, all, currency) <==> l in lines && (all || l.currency == currency)
  {
    FilterMembers(lines, InCurrency(currency));
  }
}
