/**
 * Page 1 totals and their breakdown by brand, company and category (`marcomKpi/spending.ts`, lines 63-90 and
 * 171-205; `marcomKpi/common.ts`, lines 18-55).
 */
module Spending {
  import opened Prelude
  import opened Rationals
  import opened Sums
  import opened Totals
  import opened Proration
  import opened SpendMerge

  datatype Brand = Brand(id: int, company: Option<int>)
  datatype Agg = Agg(spend: Rat, campaign: Rat, other: Rat)
  datatype Breakdown = Breakdown(all: Agg, perBrand: seq<Agg>, perCompany: map<Option<int>, Agg>,
                                 perCategory: map<string, Rat>)

  // Named pickers, so that the same sum is the same expression everywhere.

  function RowCampaign(): Row -> real { (row: Row) => Worth(row.campaign) }
  function RowOther(): Row -> real { (row: Row) => Worth(row.other) }
  function LineAmount(): OtherSpend -> real { (line: OtherSpend) => Worth(line.amount) }
  function RowBrand(): Row -> int { (row: Row) => row.key.brand }
  function BrandCompany(): Brand -> Option<int> { (b: Brand) => b.company }
  function BrandId(): Brand -> int { (b: Brand) => b.id }
  function LineCategory(): OtherSpend -> string { (line: OtherSpend) => line.category }
  function LineKey(): OtherSpend -> Key { (line: OtherSpend) => line.key }

  predicate RowsExact(rows: seq<Row>) {
    forall r :: r in rows ==> Canonical(r.spend) && Canonical(r.campaign) && Canonical(r.other)
  }

  ghost predicate IsAgg(a: Agg, rows: seq<Row>) {
    Canonical(a.spend) && Canonical(a.campaign) && Canonical(a.other) &&
    Worth(a.spend) == SumOf(rows, RowSpend()) &&
    Worth(a.campaign) == SumOf(rows, RowCampaign()) &&
    Worth(a.other) == SumOf(rows, RowOther())
  }

  method Aggregate(rows: seq<Row>) returns (a: Agg)
    requires RowsExact(rows)
    ensures IsAgg(a, rows)
  {
    ZeroAndOne();
    a := Agg(ZERO, ZERO, ZERO);
    for i := 0 to |rows|
      invariant IsAgg(a, rows[..i])
    {
      var r := rows[i];
      assert rows[..i + 1] == rows[..i] + [r];
      AddRow(a, rows[..i], r);
      a := Agg(Add(a.spend, r.spend), Add(a.campaign, r.campaign), Add(a.other, r.other));
    }
    assert rows[..|rows|] == rows;
  }

  lemma AddRow(a: Agg, rows: seq<Row>, r: Row)
    requires IsAgg(a, rows) && Canonical(r.spend) && Canonical(r.campaign) && Canonical(r.other)
    ensures IsAgg(Agg(Add(a.spend, r.spend), Add(a.campaign, r.campaign), Add(a.other, r.other)), rows + [r])
  {
    AddWorth(a.spend, r.spend);
    AddWorth(a.campaign, r.campaign);
    AddWorth(a.other, r.other);
    SumOfSnoc(rows, r, RowSpend());
    SumOfSnoc(rows, r, RowCampaign());
    SumOfSnoc(rows, r, RowOther());
  }

  lemma AddWorth(a: Rat, b: Rat)
    requires Canonical(a) && Canonical(b)
    ensures Canonical(Add(a, b)) && Worth(Add(a, b)) == Worth(a) + Worth(b)
  {
    AddValue(a, b);
  }

  // ---- grouping ------------------------------------------------------------------------------------------------

  function RowsOfBrand(current: seq<Row>, id: int): seq<Row> { Group(current, RowBrand(), id) }

  /** `brandIds.flatMap((id) => byBrand.get(id) ?? [])`. */
  function RowsOfBrands(current: seq<Row>, brands: seq<Brand>): seq<Row> {
    if brands == [] then []
    else RowsOfBrands(current, brands[..|brands| - 1]) + RowsOfBrand(current, brands[|brands| - 1].id)
  }

  lemma {:induction false} BrandRowsExact(current: seq<Row>, brands: seq<Brand>)
    requires RowsExact(current)
    ensures RowsExact(RowsOfBrands(current, brands))
  {
    if brands != [] {
      BrandRowsExact(current, brands[..|brands| - 1]);
      FilterMembers(current, HasKey(RowBrand(), brands[|brands| - 1].id));
    }
  }

  ghost predicate IsBreakdown(b: Breakdown, current: seq<Row>, brands: seq<Brand>, lines: seq<OtherSpend>) {
    IsAgg(b.all, current) &&
    |b.perBrand| == |brands| &&
    (forall i :: 0 <= i < |brands| ==> IsAgg(b.perBrand[i], RowsOfBrand(current, brands[i].id))) &&
    b.perCompany.Keys == KeysOf(brands, BrandCompany()) &&
    (forall c :: c in b.perCompany ==>
      IsAgg(b.perCompany[c], RowsOfBrands(current, Group(brands, BrandCompany(), c)))) &&
    b.perCategory.Keys == KeysOf(lines, LineCategory()) &&
    (forall c :: c in b.perCategory ==> IsCategoryTotal(b.perCategory[c], lines, c))
  }

  method BuildBreakdown(current: seq<Row>, brands: seq<Brand>, lines: seq<OtherSpend>) returns (b: Breakdown)
    requires RowsExact(current) && OthersExact(lines)
    ensures IsBreakdown(b, current, brands, lines)
  {
    var all := Aggregate(current);
    var perBrand := AggregateBrands(current, brands);
    var perCompany := AggregateCompanies(current, brands);
    var perCategory := TotalCategories(lines);
    b := Breakdown(all, perBrand, perCompany, perCategory);
  }

  method AggregateBrands(current: seq<Row>, brands: seq<Brand>) returns (perBrand: seq<Agg>)
    requires RowsExact(current)
    ensures |perBrand| == |brands|
    ensures forall i :: 0 <= i < |brands| ==> IsAgg(perBrand[i], RowsOfBrand(current, brands[i].id))
  {
    var byBrand := GroupBy(current, RowBrand());
    perBrand := [];
    for i := 0 to |brands|
      invariant |perBrand| == i
      invariant forall j :: 0 <= j < i ==> IsAgg(perBrand[j], RowsOfBrand(current, brands[j].id))
    {
      var id := brands[i].id;
      if id !in byBrand { NoGroup(current, RowBrand(), id); }
      FilterMembers(current, HasKey(RowBrand(), id));
      var a := Aggregate(if id in byBrand then byBrand[id] else []);
      perBrand := perBrand + [a];
    }
  }

  method AggregateCompanies(current: seq<Row>, brands: seq<Brand>) returns (perCompany: map<Option<int>, Agg>)
    requires RowsExact(current)
    ensures perCompany.Keys == KeysOf(brands, BrandCompany())
    ensures forall c :: c in perCompany ==>
      IsAgg(perCompany[c], RowsOfBrands(current, Group(brands, BrandCompany(), c)))
  {
    var companies := GroupBy(brands, BrandCompany());
    perCompany := map[];
    var todo := companies.Keys;
    while todo != {}
      invariant todo <= companies.Keys && perCompany.Keys == companies.Keys - todo
      invariant forall c :: c in perCompany ==>
        IsAgg(perCompany[c], RowsOfBrands(current, Group(brands, BrandCompany(), c)))
      decreases todo
    {
      var c :| c in todo;
      todo := todo - {c};
      BrandRowsExact(current, companies[c]);
      var a := Aggregate(RowsOfBrands(current, companies[c]));
      perCompany := perCompany[c := a];
    }
  }

  /** The amount of one category's lines. */
  ghost predicate IsCategoryTotal(t: Rat, lines: seq<OtherSpend>, category: string) {
    Canonical(t) && Worth(t) == SumOf(Group(lines, LineCategory(), category), LineAmount())
  }

  method TotalCategory(lines: seq<OtherSpend>, category: string, group: seq<OtherSpend>) returns (t: Rat)
    requires OthersExact(lines) && group == Group(lines, LineCategory(), category)
    ensures IsCategoryTotal(t, lines, category)
  {
    FilterMembers(lines, HasKey(LineCategory(), category));
    t := TotalLines(group);
  }

  method TotalCategories(lines: seq<OtherSpend>) returns (perCategory: map<string, Rat>)
    requires OthersExact(lines)
    ensures perCategory.Keys == KeysOf(lines, LineCategory())
    ensures forall c :: c in perCategory ==> IsCategoryTotal(perCategory[c], lines, c)
  {
    var otherByCat := GroupBy(lines, LineCategory());
    perCategory := map[];
    var todo := otherByCat.Keys;
    while todo != {}
      invariant todo <= otherByCat.Keys && perCategory.Keys == otherByCat.Keys - todo
      invariant forall c :: c in perCategory ==> IsCategoryTotal(perCategory[c], lines, c)
      decreases todo
    {
      var c :| c in todo;
      todo := todo - {c};
      var t := TotalCategory(lines, c, otherByCat[c]);
      perCategory := perCategory[c := t];
    }
  }

  method TotalLines(lines: seq<OtherSpend>) returns (t: Rat)
    requires forall l :: l in lines ==> Canonical(l.amount)
    ensures Canonical(t) && Worth(t) == SumOf(lines, LineAmount())
  {
    ZeroAndOne();
    t := ZERO;
    for i := 0 to |lines|
      invariant Canonical(t) && Worth(t) == SumOf(lines[..i], LineAmount())
    {
      assert lines[..i + 1] == lines[..i] + [lines[i]];
      SumOfSnoc(lines[..i], lines[i], LineAmount());
      AddWorth(t, lines[i].amount);
      t := Add(t, lines[i].amount);
    }
    assert lines[..|lines|] == lines;
  }

  // ---- the figures, from the rows themselves --------------------------------------------------------------------

  datatype Money = Money(spend: real, campaign: real, other: real)

  function Figures(a: Agg): Money { Money(Worth(a.spend), Worth(a.campaign), Worth(a.other)) }

  /** Each column of the rows added up. */
  function Added(rows: seq<Row>): Money {
    if rows == [] then Money(0.0, 0.0, 0.0)
    else
      var m, r := Added(rows[..|rows| - 1]), rows[|rows| - 1];
      Money(m.spend + Worth(r.spend), m.campaign + Worth(r.campaign), m.other + Worth(r.other))
  }

  function AddedLines(lines: seq<OtherSpend>): real {
    if lines == [] then 0.0 else AddedLines(lines[..|lines| - 1]) + Worth(lines[|lines| - 1].amount)
  }

  lemma {:induction false} AddedIs(rows: seq<Row>)
    ensures Added(rows) == Money(SumOf(rows, RowSpend()), SumOf(rows, RowCampaign()), SumOf(rows, RowOther()))
  {
    if rows != [] { AddedIs(rows[..|rows| - 1]); }
  }

  lemma {:induction false} AddedLinesAre(lines: seq<OtherSpend>)
    ensures AddedLines(lines) == SumOf(lines, LineAmount())
  {
    if lines != [] { AddedLinesAre(lines[..|lines| - 1]); }
  }

  /** The row's brand is among these. */
  function OfBrands(brands: seq<Brand>): Row -> bool {
    (row: Row) => exists i :: 0 <= i < |brands| && brands[i].id == row.key.brand
  }

  function OfBrand(id: int): Row -> bool { (row: Row) => row.key.brand == id }

  /** The row's brand belongs to the company (None: to no company). */
  function OfCompany(brands: seq<Brand>, company: Option<int>): Row -> bool {
    (row: Row) => exists b :: b in brands && b.id == row.key.brand && b.company == company
  }

  function OfCategory(category: string): OtherSpend -> bool { (line: OtherSpend) => line.category == category }

  lemma BrandRowsAre(current: seq<Row>, id: int)
    ensures RowsOfBrand(current, id) == Filter(current, OfBrand(id))
  {
    FilterSame(current, HasKey(RowBrand(), id), OfBrand(id));
  }

  lemma {:induction false} BrandsRowsAre(current: seq<Row>, brands: seq<Brand>, f: Row -> real)
    requires DistinctIds(brands)
    ensures SumOf(RowsOfBrands(current, brands), f) == SumOf(Filter(current, OfBrands(brands)), f)
  {
    if brands == [] {
      FilterNone(current, OfBrands(brands));
    } else {
      var rest, last := brands[..|brands| - 1], brands[|brands| - 1];
      BrandsRowsAre(current, rest, f);
      BrandRowsAre(current, last.id);
      SumOfConcat(RowsOfBrands(current, rest), RowsOfBrand(current, last.id), f);
      forall r: Row
        ensures OfBrands(brands)(r) == (OfBrands(rest)(r) || OfBrand(last.id)(r))
        ensures !(OfBrands(rest)(r) && OfBrand(last.id)(r))
      {
        if i :| 0 <= i < |brands| && brands[i].id == r.key.brand { assert i < |rest| ==> rest[i] == brands[i]; }
        if i :| 0 <= i < |rest| && rest[i].id == r.key.brand { assert brands[i] == rest[i]; }
        assert brands[|brands| - 1] == last;
      }
      FiltersAddUp(current, OfBrands(rest), OfBrand(last.id), OfBrands(brands), f);
    }
  }

  lemma {:induction false} CompanyBrandsDistinct(brands: seq<Brand>, company: Option<int>)
    requires DistinctIds(brands)
    ensures DistinctIds(Group(brands, BrandCompany(), company))
  {
    FilterMembers(brands, HasKey(BrandCompany(), company));
    if brands != [] {
      var rest, last := brands[..|brands| - 1], brands[|brands| - 1];
      CompanyBrandsDistinct(rest, company);
      FilterMembers(rest, HasKey(BrandCompany(), company));
      assert forall b :: b in rest ==> b.id != last.id;
    }
  }

  lemma CompanyRowsAre(current: seq<Row>, brands: seq<Brand>, company: Option<int>, f: Row -> real)
    requires DistinctIds(brands)
    ensures SumOf(RowsOfBrands(current, Group(brands, BrandCompany(), company)), f) ==
      SumOf(Filter(current, OfCompany(brands, company)), f)
  {
    var group := Group(brands, BrandCompany(), company);
    CompanyBrandsDistinct(brands, company);
    BrandsRowsAre(current, group, f);
    FilterMembers(brands, HasKey(BrandCompany(), company));
    forall r: Row ensures OfBrands(group)(r) == OfCompany(brands, company)(r) {
      if b :| b in brands && b.id == r.key.brand && b.company == company {
        var i :| 0 <= i < |group| && group[i] == b;
        assert group[i].id == r.key.brand;
      }
      if i :| 0 <= i < |group| && group[i].id == r.key.brand { assert group[i] in group; }
    }
    FilterSame(current, OfBrands(group), OfCompany(brands, company));
  }

  /**
   * Every figure of a breakdown adds up its column over the right rows: all of them; those of the brand; those of the
   * brands of the company; and, by category, the lines of the category.
   */
  lemma BreakdownIs(b: Breakdown, current: seq<Row>, brands: seq<Brand>, lines: seq<OtherSpend>)
    requires IsBreakdown(b, current, brands, lines) && DistinctIds(brands)
    ensures Figures(b.all) == Added(current)
    ensures forall i :: 0 <= i < |brands| ==> Figures(b.perBrand[i]) == Added(Filter(current, OfBrand(brands[i].id)))
    ensures forall c :: c in b.perCompany <==> exists x :: x in brands && x.company == c
    ensures forall c :: c in b.perCompany ==> Figures(b.perCompany[c]) == Added(Filter(current, OfCompany(brands, c)))
    ensures forall c :: c in b.perCategory <==> exists l :: l in lines && l.category == c
    ensures forall c :: c in b.perCategory ==>
      Worth(b.perCategory[c]) == AddedLines(Filter(lines, OfCategory(c)))
  {
    AddedIs(current);
    forall i | 0 <= i < |brands| ensures Figures(b.perBrand[i]) == Added(Filter(current, OfBrand(brands[i].id))) {
      BrandRowsAre(current, brands[i].id);
      AddedIs(Filter(current, OfBrand(brands[i].id)));
    }
    forall c | c in b.perCompany ensures Figures(b.perCompany[c]) == Added(Filter(current, OfCompany(brands, c))) {
      CompanyFigures(b.perCompany[c], current, brands, c);
    }
    forall c | c in b.perCategory ensures Worth(b.perCategory[c]) == AddedLines(Filter(lines, OfCategory(c))) {
      FilterSame(lines, HasKey(LineCategory(), c), OfCategory(c));
      AddedLinesAre(Filter(lines, OfCategory(c)));
    }
    KeysAre(brands, BrandCompany());
    KeysAre(lines, LineCategory());
  }

  lemma CompanyFigures(a: Agg, current: seq<Row>, brands: seq<Brand>, c: Option<int>)
    requires DistinctIds(brands) && IsAgg(a, RowsOfBrands(current, Group(brands, BrandCompany(), c)))
    ensures Figures(a) == Added(Filter(current, OfCompany(brands, c)))
  {
    AddedIs(Filter(current, OfCompany(brands, c)));
    CompanyRowsAre(current, brands, c, RowSpend());
    CompanyRowsAre(current, brands, c, RowCampaign());
    CompanyRowsAre(current, brands, c, RowOther());
  }

  // ---- the breakdowns add up ------------------------------------------------------------------------------------

  function AggSpend(): Agg -> real { (a: Agg) => Worth(a.spend) }

  ghost function BrandSum(current: seq<Row>, f: Row -> real): Brand -> real {
    (b: Brand) => SumOf(RowsOfBrand(current, b.id), f)
  }

  predicate DistinctIds(brands: seq<Brand>) {
    forall i, j :: 0 <= i < j < |brands| ==> brands[i].id != brands[j].id
  }

  function Ids(brands: seq<Brand>): set<int> { KeysOf(brands, BrandId()) }

  lemma BrandsAreIds(current: seq<Row>, brands: seq<Brand>, f: Row -> real)
    requires DistinctIds(brands)
    ensures SumOf(brands, BrandSum(current, f)) == Total(Ids(brands), GroupSum(current, RowBrand(), f))
  {
    SumOverKeys(brands, BrandId(), BrandSum(current, f), GroupSum(current, RowBrand(), f));
  }

  /** The listed brands hold every row except those of brands not listed. */
  lemma BrandsAddUp(current: seq<Row>, brands: seq<Brand>, f: Row -> real)
    requires DistinctIds(brands)
    ensures SumOf(brands, BrandSum(current, f)) + SumOf(Filter(current, KeyOut(RowBrand(), Ids(brands))), f) ==
      SumOf(current, f)
  {
    BrandsAreIds(current, brands, f);
    GroupsAddUp(current, RowBrand(), Ids(brands), f);
    InAndOut(current, RowBrand(), Ids(brands), f);
  }

  lemma {:induction false} FlatMapSum(current: seq<Row>, brands: seq<Brand>, f: Row -> real)
    ensures SumOf(RowsOfBrands(current, brands), f) == SumOf(brands, BrandSum(current, f))
  {
    if brands != [] {
      var rest, last := brands[..|brands| - 1], brands[|brands| - 1];
      FlatMapSum(current, rest, f);
      SumOfConcat(RowsOfBrands(current, rest), RowsOfBrand(current, last.id), f);
    }
  }

  ghost function CompanySum(current: seq<Row>, brands: seq<Brand>, f: Row -> real): Option<int> -> real {
    c => SumOf(RowsOfBrands(current, Group(brands, BrandCompany(), c)), f)
  }

  /** The companies, "no company" included, hold exactly what the brands hold. */
  lemma CompaniesAddUp(current: seq<Row>, brands: seq<Brand>, f: Row -> real)
    ensures Total(KeysOf(brands, BrandCompany()), CompanySum(current, brands, f)) == SumOf(brands, BrandSum(current, f))
  {
    var companies := KeysOf(brands, BrandCompany());
    forall c | c in companies
      ensures CompanySum(current, brands, f)(c) == GroupSum(brands, BrandCompany(), BrandSum(current, f))(c)
    {
      FlatMapSum(current, Group(brands, BrandCompany(), c), f);
    }
    TotalSame(companies, CompanySum(current, brands, f), GroupSum(brands, BrandCompany(), BrandSum(current, f)));
    AllGroupsAddUp(brands, BrandCompany(), companies, BrandSum(current, f));
  }

  ghost function SpendOfCompany(b: Breakdown): Option<int> -> real {
    c => if c in b.perCompany then Worth(b.perCompany[c].spend) else 0.0
  }

  ghost function AmountOfCategory(b: Breakdown): string -> real {
    c => if c in b.perCategory then Worth(b.perCategory[c]) else 0.0
  }

  lemma {:induction false} SameByIndex(aggs: seq<Agg>, brands: seq<Brand>, current: seq<Row>)
    requires |aggs| == |brands|
    requires forall i :: 0 <= i < |brands| ==> IsAgg(aggs[i], RowsOfBrand(current, brands[i].id))
    ensures SumOf(aggs, AggSpend()) == SumOf(brands, BrandSum(current, RowSpend()))
  {
    if brands != [] {
      var n := |brands| - 1;
      SameByIndex(aggs[..n], brands[..n], current);
    }
  }

  /**
   * The per-brand and the per-company figures always add up to the same amount, and that is the page total exactly
   * when the rows of brands not listed spend nothing altogether.
   */
  lemma BreakdownAddsUp(b: Breakdown, current: seq<Row>, brands: seq<Brand>, lines: seq<OtherSpend>)
    requires IsBreakdown(b, current, brands, lines) && DistinctIds(brands)
    ensures Total(b.perCompany.Keys, SpendOfCompany(b)) == SumOf(b.perBrand, AggSpend())
    ensures SumOf(b.perBrand, AggSpend()) == Worth(b.all.spend) <==>
      SumOf(Filter(current, KeyOut(RowBrand(), Ids(brands))), RowSpend()) == 0.0
  {
    SameByIndex(b.perBrand, brands, current);
    BrandsAddUp(current, brands, RowSpend());
    CompaniesAddUp(current, brands, RowSpend());
    TotalSame(b.perCompany.Keys, SpendOfCompany(b), CompanySum(current, brands, RowSpend()));
  }

  lemma OneRowSpend(current: seq<Row>)
    requires |current| == 1 && current[0].spend == ONE
    ensures SumOf(current, RowSpend()) == 1.0
  {
    ZeroAndOne();
    assert current[..0] == [];
  }

  /**
   * A page whose brand list lacks the brand of its row: the row is in the total and in no brand and no company.
   */
  lemma UnlistedBrandIsMissed(b: Breakdown, current: seq<Row>, brands: seq<Brand>)
    requires current == [Row(Key(2026, 1, 7), [], ONE, ZERO, ONE)] && brands == [Brand(3, Some(1)), Brand(4, None)]
    requires IsBreakdown(b, current, brands, [])
    ensures Worth(b.all.spend) == 1.0
    ensures SumOf(b.perBrand, AggSpend()) == 0.0 && Total(b.perCompany.Keys, SpendOfCompany(b)) == 0.0
  {
    OneRowSpend(current);
    FilterAll(current, KeyOut(RowBrand(), Ids(brands)));
    SameByIndex(b.perBrand, brands, current);
    BrandsAddUp(current, brands, RowSpend());
    BreakdownAddsUp(b, current, brands, []);
  }

  predicate BrandListed(brands: seq<Brand>, id: int) {
    exists i :: 0 <= i < |brands| && brands[i].id == id
  }

  /** Every row of a listed brand: the page total is the sum of its brands and of its companies. */
  lemma ListedBrandsAddUp(b: Breakdown, current: seq<Row>, brands: seq<Brand>, lines: seq<OtherSpend>)
    requires IsBreakdown(b, current, brands, lines) && DistinctIds(brands)
    requires forall r :: r in current ==> BrandListed(brands, r.key.brand)
    ensures SumOf(b.perBrand, AggSpend()) == Worth(b.all.spend) == Total(b.perCompany.Keys, SpendOfCompany(b))
  {
    BreakdownAddsUp(b, current, brands, lines);
    NothingOut(current, RowBrand(), Ids(brands));
  }

  // ---- campaigns plus categories --------------------------------------------------------------------------------

  function YearIs(year: int): Row -> bool { (row: Row) => row.key.year == year }
  function LineYearIs(year: int): OtherSpend -> bool { (line: OtherSpend) => line.key.year == year }

  lemma {:induction false} FilterSorted(rows: seq<Row>, p: Row -> bool)
    requires Sorted(rows)
    ensures Sorted(Filter(rows, p))
    ensures forall r :: r in Filter(rows, p) <==> r in rows && p(r)
  {
    FilterMembers(rows, p);
    if rows != [] {
      var rest, last := rows[..|rows| - 1], rows[|rows| - 1];
      FilterSorted(rest, p);
      assert forall r :: r in rest ==> Less(r.key, last.key);
    }
  }

  /** The brands of everything that was read for the page are listed. */
  predicate ReadsListed(brands: seq<Brand>, p1: seq<Page1>, campaigns: seq<Campaign>, others: seq<OtherSpend>) {
    (forall i :: 0 <= i < |p1| ==> BrandListed(brands, p1[i].key.brand)) &&
    (forall i :: 0 <= i < |campaigns| ==> BrandListed(brands, campaigns[i].brand)) &&
    (forall i :: 0 <= i < |others| ==> BrandListed(brands, others[i].key.brand))
  }

  /** The page of one year: when everything read has a listed brand, brands, companies and total agree. */
  lemma PageBrandsAddUp(b: Breakdown, rows: seq<Row>, year: int, brands: seq<Brand>, p1: seq<Page1>,
                        campaigns: seq<Campaign>, others: seq<OtherSpend>, cells: seq<Cell>, allowed: Option<set<int>>)
    requires AllExact(campaigns) && OthersExact(others) && IsMerge(rows, p1, campaigns, others, cells, allowed)
    requires IsBreakdown(b, Filter(rows, YearIs(year)), brands, Filter(others, LineYearIs(year))) && DistinctIds(brands)
    requires ReadsListed(brands, p1, campaigns, others)
    ensures SumOf(b.perBrand, AggSpend()) == Worth(b.all.spend) == Total(b.perCompany.Keys, SpendOfCompany(b))
  {
    var current := Filter(rows, YearIs(year));
    FilterMembers(rows, YearIs(year));
    forall r | r in current ensures BrandListed(brands, r.key.brand) {
      assert r in rows;
      var i :| 0 <= i < |rows| && rows[i] == r;
      assert rows[i].key in RowKeys(rows);
      assert HasPage1(p1, r.key) || HasSpend(campaigns, cells, others, r.key);
    }
    ListedBrandsAddUp(b, current, brands, Filter(others, LineYearIs(year)));
  }

  /** Looking for one key in the lines of its year is looking for it in all lines. */
  lemma {:induction false} OneKeyInItsYear(others: seq<OtherSpend>, k: Key)
    requires OthersExact(others)
    ensures OthersTotal(others, {k}) == SumOf(Group(Filter(others, LineYearIs(k.year)), LineKey(), k), LineAmount())
  {
    if others != [] {
      var rest, last := others[..|others| - 1], others[|others| - 1];
      OneKeyInItsYear(rest, k);
      var lines := Filter(rest, LineYearIs(k.year));
      if last.key.year == k.year { assert (lines + [last])[..|lines|] == lines; }
      SumOfSnoc(Group(lines, LineKey(), k), last, LineAmount());
    }
  }

  lemma OtherOfYear(rows: seq<Row>, year: int, p1: seq<Page1>, campaigns: seq<Campaign>, others: seq<OtherSpend>,
                    cells: seq<Cell>, allowed: Option<set<int>>)
    requires AllExact(campaigns) && OthersExact(others) && IsMerge(rows, p1, campaigns, others, cells, allowed)
    ensures var current := Filter(rows, YearIs(year)); var lines := Filter(others, LineYearIs(year));
      SumOf(current, RowOther()) == SumOf(Filter(lines, KeyIn(LineKey(), RowKeys(current))), LineAmount())
  {
    var current := Filter(rows, YearIs(year));
    var lines := Filter(others, LineYearIs(year));
    FilterSorted(rows, YearIs(year));
    forall r | r in current ensures RowOther()(r) == GroupSum(lines, LineKey(), LineAmount())(r.key) {
      OneKeyInItsYear(others, r.key);
    }
    RowsAreKeys(current, RowOther(), GroupSum(lines, LineKey(), LineAmount()));
    GroupsAddUp(lines, LineKey(), RowKeys(current), LineAmount());
  }

  /** The year's other-spend lines that no row of the page holds. */
  function Unheld(rows: seq<Row>, year: int, others: seq<OtherSpend>): seq<OtherSpend> {
    Filter(Filter(others, LineYearIs(year)), KeyOut(LineKey(), RowKeys(Filter(rows, YearIs(year)))))
  }

  /**
   * Spend by category on the page of one year: the Campaigns bucket plus the category buckets are the page total
   * plus the lines that no row holds.
   */
  lemma CategoriesAddUp(b: Breakdown, rows: seq<Row>, year: int, brands: seq<Brand>, p1: seq<Page1>,
                        campaigns: seq<Campaign>,
                        others: seq<OtherSpend>, cells: seq<Cell>, allowed: Option<set<int>>)
    requires AllExact(campaigns) && OthersExact(others) && IsMerge(rows, p1, campaigns, others, cells, allowed)
    requires IsBreakdown(b, Filter(rows, YearIs(year)), brands, Filter(others, LineYearIs(year)))
    ensures Worth(b.all.campaign) + Total(b.perCategory.Keys, AmountOfCategory(b)) ==
      Worth(b.all.spend) + SumOf(Unheld(rows, year, others), LineAmount())
  {
    var current := Filter(rows, YearIs(year));
    var lines := Filter(others, LineYearIs(year));
    FilterSorted(rows, YearIs(year));
    assert forall r :: r in current ==> RowSpend()(r) == RowCampaign()(r) + RowOther()(r);
    SumOfPlus(current, RowCampaign(), RowOther(), RowSpend());
    OtherOfYear(rows, year, p1, campaigns, others, cells, allowed);
    InAndOut(lines, LineKey(), RowKeys(current), LineAmount());
    TotalSame(b.perCategory.Keys, AmountOfCategory(b), GroupSum(lines, LineCategory(), LineAmount()));
    AllGroupsAddUp(lines, LineCategory(), b.perCategory.Keys, LineAmount());
  }

  /** Lines of allowed brands are always held, so then the buckets add up to the page total exactly. */
  lemma AllowedLinesAreHeld(rows: seq<Row>, year: int, p1: seq<Page1>, campaigns: seq<Campaign>,
                            others: seq<OtherSpend>,
                            cells: seq<Cell>, allowed: Option<set<int>>)
    requires AllExact(campaigns) && OthersExact(others) && IsMerge(rows, p1, campaigns, others, cells, allowed)
    requires forall l :: l in others ==> Allowed(allowed, l.key)
    ensures Unheld(rows, year, others) == []
  {
    var current := Filter(rows, YearIs(year));
    var lines := Filter(others, LineYearIs(year));
    FilterMembers(others, LineYearIs(year));
    FilterSorted(rows, YearIs(year));
    forall i | 0 <= i < |lines| ensures lines[i].key in RowKeys(current) {
      var l := lines[i];
      assert l in others;
      var j :| 0 <= j < |others| && others[j] == l;
      assert HasSpend(campaigns, cells, others, l.key);
      var m :| 0 <= m < |rows| && rows[m].key == l.key;
      assert rows[m] in current;
    }
    NothingOut(lines, LineKey(), RowKeys(current));
  }
}
