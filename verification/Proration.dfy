/** Campaign spend spread over calendar months by active days (`marcomKpi/totalSpend.ts`, lines 20-49). */
module Proration {
  import opened Prelude
  import opened Calendar
  import opened Rationals
  import opened Totals

  /** Start and end are day numbers, both active. */
  datatype Campaign = Campaign(brand: int, start: int, end: int, spend: Rat)
  datatype Cell = Cell(year: int, month: int)
  datatype Key = Key(year: int, month: int, brand: int)

  function IndexOf(cell: Cell): int { MonthIndex(cell.year, cell.month) }

  function KeyOf(c: Campaign, cell: Cell): Key { Key(cell.year, cell.month, c.brand) }

  // ---- days of a campaign in a month -----------------------------------------------------------------------

  function OverlapDays(start: int, end: int, cell: Cell): nat {
    var first := FirstDay(MonthIndex(cell.year, cell.month));
    var last := FirstDay(MonthIndex(cell.year, cell.month + 1)) - 1;
    var lo := if start < first then first else start;
    var hi := if last < end then last else end;
    if hi < lo then 0 else hi - lo + 1
  }

  /** The days of [start, end] whose month is one of the given months, counted one by one. */
  function DaysWithin(start: int, end: int, months: set<int>): nat
    decreases end - start + 1
  {
    if end < start then 0
    else DaysWithin(start, end - 1, months) + (if MonthHolding(end) in months then 1 else 0)
  }

  lemma DayInMonth(n: int, t: int)
    ensures FirstDay(t) <= n < FirstDay(t + 1) <==> MonthHolding(n) in {t}
  {
    if FirstDay(t) <= n < FirstDay(t + 1) { OneMonthHolds(n, t); }
  }

  lemma {:induction false} OverlapCountsDays(start: int, end: int, cell: Cell)
    ensures OverlapDays(start, end, cell) == DaysWithin(start, end, {IndexOf(cell)})
    decreases end - start + 1
  {
    if start <= end {
      OverlapCountsDays(start, end - 1, cell);
      DayInMonth(end, IndexOf(cell));
      FirstDayGrows(IndexOf(cell), IndexOf(cell) + 1);
    }
  }

  function Months(cells: seq<Cell>): set<int> {
    set i | 0 <= i < |cells| :: IndexOf(cells[i])
  }

  predicate DistinctMonths(cells: seq<Cell>) {
    forall i, j :: 0 <= i < j < |cells| ==> IndexOf(cells[i]) != IndexOf(cells[j])
  }

  function OverlapSum(start: int, end: int, cells: seq<Cell>): nat {
    if cells == [] then 0
    else OverlapSum(start, end, cells[..|cells| - 1]) + OverlapDays(start, end, cells[|cells| - 1])
  }

  lemma {:induction false} DaysWithinAdds(start: int, end: int, a: set<int>, b: set<int>)
    requires a !! b
    ensures DaysWithin(start, end, a + b) == DaysWithin(start, end, a) + DaysWithin(start, end, b)
    decreases end - start + 1
  {
    if start <= end { DaysWithinAdds(start, end - 1, a, b); }
  }

  lemma {:induction false} DaysWithinNothing(start: int, end: int)
    ensures DaysWithin(start, end, {}) == 0
    decreases end - start + 1
  {
    if start <= end { DaysWithinNothing(start, end - 1); }
  }

  /** Over distinct months the overlaps add up to the days the months cover, each day counted once. */
  lemma {:induction false} OverlapsAddUp(start: int, end: int, cells: seq<Cell>)
    requires DistinctMonths(cells)
    ensures OverlapSum(start, end, cells) == DaysWithin(start, end, Months(cells))
  {
    if cells == [] {
      DaysWithinNothing(start, end);
      assert Months(cells) == {};
    } else {
      var rest, last := cells[..|cells| - 1], cells[|cells| - 1];
      OverlapsAddUp(start, end, rest);
      OverlapCountsDays(start, end, last);
      assert Months(cells) == Months(rest) + {IndexOf(last)};
      DaysWithinAdds(start, end, Months(rest), {IndexOf(last)});
    }
  }

  lemma {:induction false} AllDaysWithin(start: int, end: int, months: set<int>)
    requires start <= end + 1
    ensures DaysWithin(start, end, months) <= end - start + 1
    ensures DaysWithin(start, end, months) == end - start + 1 <==>
      forall n :: start <= n <= end ==> MonthHolding(n) in months
    decreases end - start + 1
  {
    if start <= end {
      AllDaysWithin(start, end - 1, months);
      assert MonthHolding(end) in months || !(forall n :: start <= n <= end ==> MonthHolding(n) in months);
    }
  }

  /** A run of n months from month t on. */
  predicate IsRun(cells: seq<Cell>, t: int) {
    forall i :: 0 <= i < |cells| ==> IndexOf(cells[i]) == t + i
  }

  lemma RunHolds(n: int, cells: seq<Cell>, t: int)
    requires IsRun(cells, t) && FirstDay(t) <= n < FirstDay(t + |cells|)
    ensures MonthHolding(n) in Months(cells)
  {
    FirstDayOrder(t, MonthHolding(n) + 1);
    FirstDayOrder(MonthHolding(n), t + |cells|);
    assert IndexOf(cells[MonthHolding(n) - t]) == MonthHolding(n);
  }

  /** Over any run of consecutive months covering [start, end] the overlaps add up to all its days. */
  lemma RunCoversAllDays(start: int, end: int, cells: seq<Cell>, t: int)
    requires start <= end && IsRun(cells, t) && FirstDay(t) <= start && end < FirstDay(t + |cells|)
    ensures DistinctMonths(cells) && OverlapSum(start, end, cells) == end - start + 1
  {
    OverlapsAddUp(start, end, cells);
    forall n | start <= n <= end ensures MonthHolding(n) in Months(cells) { RunHolds(n, cells, t); }
    AllDaysWithin(start, end, Months(cells));
  }

  // ---- shares of spend ---------------------------------------------------------------------------------------

  function Duration(c: Campaign): int { c.end - c.start + 1 }

  predicate AllExact(campaigns: seq<Campaign>) {
    forall i :: 0 <= i < |campaigns| ==> Canonical(campaigns[i].spend)
  }

  /** The exact share of an amount x that a campaign's days place in a month. */
  ghost function Share(x: real, c: Campaign, cell: Cell): real {
    Portion(x, OverlapDays(c.start, c.end, cell), Duration(c))
  }

  /** The portion of an amount x for a days out of d: the amount that d times over makes x a times over. */
  ghost function Portion(x: real, a: int, d: int): real {
    if d <= 0 then 0.0
    else
      PortionExists(x, a, d);
      var p :| IsPortion(p, x, a, d);
      p
  }

  /** p is to x as a is to d. */
  predicate IsPortion(p: real, x: real, a: int, d: int) {
    p * d as real == x * a as real
  }

  lemma PortionExists(x: real, a: int, d: int)
    requires d > 0
    ensures IsPortion(x * Frac(a, d), x, a, d)
  {
    FracTimes(a, d);
    RealProduct3(x, Frac(a, d), d as real, a as real);
  }

  predicate Contributes(c: Campaign, cell: Cell, k: Key) {
    Duration(c) > 0 && OverlapDays(c.start, c.end, cell) > 0 && KeyOf(c, cell) == k
  }

  /** The shares of one campaign, of an amount x, that belong to the given keys. */
  ghost function CampaignTotal(x: real, c: Campaign, cells: seq<Cell>, keys: set<Key>): real {
    if cells == [] then 0.0
    else
      CampaignTotal(x, c, cells[..|cells| - 1], keys) +
      (if KeyOf(c, cells[|cells| - 1]) in keys then Share(x, c, cells[|cells| - 1]) else 0.0)
  }

  ghost function CampaignsTotal(campaigns: seq<Campaign>, cells: seq<Cell>, keys: set<Key>): real
    requires AllExact(campaigns)
  {
    if campaigns == [] then 0.0
    else
      CampaignsTotal(campaigns[..|campaigns| - 1], cells, keys) +
      CampaignTotal(Value(campaigns[|campaigns| - 1].spend), campaigns[|campaigns| - 1], cells, keys)
  }

  predicate ExactMap(m: map<Key, Rat>) {
    forall k :: k in m ==> Canonical(m[k])
  }

  /** What a map holds for a key: nothing counts as zero. */
  ghost function Amount(m: map<Key, Rat>, k: Key): real
    requires ExactMap(m)
  {
    if k in m then Value(m[k]) else 0.0
  }

  /** `out.set(k, (out.get(k) ?? ZERO).add(x))`. */
  function AddTo(m: map<Key, Rat>, k: Key, x: Rat): map<Key, Rat>
    requires ExactMap(m) && Canonical(x)
  {
    ZeroAndOne();
    m[k := Add(if k in m then m[k] else ZERO, x)]
  }

  lemma AddToAdds(m: map<Key, Rat>, k: Key, x: Rat)
    requires ExactMap(m) && Canonical(x)
    ensures ExactMap(AddTo(m, k, x)) && AddTo(m, k, x).Keys == m.Keys + {k}
    ensures forall j :: Amount(AddTo(m, k, x), j) == Amount(m, j) + if j == k then Value(x) else 0.0
  {
    ZeroAndOne();
    AddValue(if k in m then m[k] else ZERO, x);
  }

  lemma ShareIsExact(c: Campaign, cell: Cell)
    requires Canonical(c.spend) && Duration(c) > 0
    ensures var days := Of(OverlapDays(c.start, c.end, cell), Duration(c));
      days.Some? && Canonical(days.value) && Canonical(Mul(c.spend, days.value)) &&
      Value(Mul(c.spend, days.value)) == Share(Value(c.spend), c, cell)
  {
    ProductIsPortion(c.spend, OverlapDays(c.start, c.end, cell), Duration(c));
  }

  /** `spend.mul(days / duration)` is the portion. */
  lemma ProductIsPortion(spend: Rat, a: int, d: int)
    requires Canonical(spend) && d > 0
    ensures Of(a, d).Some? && Canonical(Of(a, d).value) && Canonical(Mul(spend, Of(a, d).value))
    ensures Value(Mul(spend, Of(a, d).value)) == Portion(Value(spend), a, d)
  {
    OfIsCanonical(a, d);
    MulValue(spend, Of(a, d).value);
    PortionIs(Value(spend), a, d);
  }

  lemma RealProduct3(x: real, f: real, d: real, a: real)
    requires f * d == a
    ensures x * f * d == x * a
  {
    assert x * f * d == x * (f * d);
  }

  lemma PortionTimes(x: real, a: int, d: int)
    ensures d > 0 ==> IsPortion(Portion(x, a, d), x, a, d)
    ensures a == 0 ==> Portion(x, a, d) == 0.0
  {
  }

  lemma PortionIs(x: real, a: int, d: int)
    requires d > 0
    ensures Portion(x, a, d) == x * Frac(a, d)
  {
    PortionTimes(x, a, d);
    PortionExists(x, a, d);
    RealCancel(Portion(x, a, d), x * Frac(a, d), d as real);
  }

  lemma NoDaysNoShare(x: real, c: Campaign, cell: Cell)
    requires Duration(c) <= 0 || OverlapDays(c.start, c.end, cell) == 0
    ensures Share(x, c, cell) == 0.0
  {
    PortionTimes(x, 0, Duration(c));
  }

  lemma {:induction false} EmptyCampaign(x: real, c: Campaign, cells: seq<Cell>, keys: set<Key>)
    requires Duration(c) <= 0
    ensures CampaignTotal(x, c, cells, keys) == 0.0
  {
    if cells != [] { EmptyCampaign(x, c, cells[..|cells| - 1], keys); }
  }

  lemma CampaignStep(x: real, c: Campaign, cells: seq<Cell>, j: nat, keys: set<Key>)
    requires j < |cells|
    ensures CampaignTotal(x, c, cells[..j + 1], keys) ==
      CampaignTotal(x, c, cells[..j], keys) + (if KeyOf(c, cells[j]) in keys then Share(x, c, cells[j]) else 0.0)
  {
    assert cells[..j + 1][..j] == cells[..j];
  }

  lemma CampaignsStep(campaigns: seq<Campaign>, i: nat, cells: seq<Cell>, keys: set<Key>)
    requires AllExact(campaigns) && i < |campaigns|
    ensures CampaignsTotal(campaigns[..i + 1], cells, keys) ==
      CampaignsTotal(campaigns[..i], cells, keys) + CampaignTotal(Value(campaigns[i].spend), campaigns[i], cells, keys)
  {
    assert campaigns[..i + 1][..i] == campaigns[..i];
  }

  /** Every key holds the shares of its brand's campaigns in its month, and only keys with active days appear. */
  method ProrateCampaigns(campaigns: seq<Campaign>, cells: seq<Cell>) returns (out: map<Key, Rat>)
    requires AllExact(campaigns)
    ensures ExactMap(out)
    ensures forall k :: Amount(out, k) == CampaignsTotal(campaigns, cells, {k})
    ensures forall k :: k in out <==>
      exists i, j :: 0 <= i < |campaigns| && 0 <= j < |cells| && Contributes(campaigns[i], cells[j], k)
  {
    out := map[];
    for i := 0 to |campaigns|
      invariant ExactMap(out)
      invariant forall k :: Amount(out, k) == CampaignsTotal(campaigns[..i], cells, {k})
      invariant forall k :: k in out <==>
        exists p, q :: 0 <= p < i && 0 <= q < |cells| && Contributes(campaigns[p], cells[q], k)
    {
      var c := campaigns[i];
      forall k ensures CampaignsTotal(campaigns[..i + 1], cells, {k}) ==
          CampaignsTotal(campaigns[..i], cells, {k}) + CampaignTotal(Value(c.spend), c, cells, {k})
      {
        CampaignsStep(campaigns, i, cells, {k});
      }
      if Duration(c) <= 0 {
        forall k ensures CampaignTotal(Value(c.spend), c, cells, {k}) == 0.0 {
          EmptyCampaign(Value(c.spend), c, cells, {k});
        }
        continue;
      }
      out := ProrateOne(c, cells, out);
    }
    assert campaigns[..|campaigns|] == campaigns;
  }

  /** The inner loop: one campaign over all cells. */
  method ProrateOne(c: Campaign, cells: seq<Cell>, before: map<Key, Rat>) returns (out: map<Key, Rat>)
    requires Canonical(c.spend) && Duration(c) > 0 && ExactMap(before)
    ensures ExactMap(out)
    ensures forall k :: Amount(out, k) == Amount(before, k) + CampaignTotal(Value(c.spend), c, cells, {k})
    ensures forall k :: k in out <==> k in before || exists j :: 0 <= j < |cells| && Contributes(c, cells[j], k)
  {
    out := before;
    ghost var x := Value(c.spend);
    for j := 0 to |cells|
      invariant ExactMap(out)
      invariant forall k :: Amount(out, k) == Amount(before, k) + CampaignTotal(x, c, cells[..j], {k})
      invariant forall k :: k in out <==> k in before || exists q :: 0 <= q < j && Contributes(c, cells[q], k)
    {
      var days := OverlapDays(c.start, c.end, cells[j]);
      forall k ensures CampaignTotal(x, c, cells[..j + 1], {k}) ==
          CampaignTotal(x, c, cells[..j], {k}) + (if KeyOf(c, cells[j]) == k then Share(x, c, cells[j]) else 0.0)
      {
        CampaignStep(x, c, cells, j, {k});
      }
      if days == 0 {
        NoDaysNoShare(x, c, cells[j]);
        continue;
      }
      ShareIsExact(c, cells[j]);
      var share := Mul(c.spend, Of(days, Duration(c)).value);
      AddToAdds(out, KeyOf(c, cells[j]), share);
      out := AddTo(out, KeyOf(c, cells[j]), share);
    }
    assert cells[..|cells|] == cells;
  }

  // ---- what a key holds, by the dates of the days ------------------------------------------------------------

  /** The days of [start, end] dated in a month, counted one by one. */
  function DaysDated(start: int, end: int, year: int, month: int): nat
    decreases end - start + 1
  {
    if end < start then 0
    else
      DaysDated(start, end - 1, year, month) +
      (if DateOf(end).year == year && DateOf(end).month == month then 1 else 0)
  }

  lemma DatedIn(n: int, year: int, month: int)
    requires 1 <= month <= 12
    ensures MonthHolding(n) == MonthIndex(year, month) <==> DateOf(n).year == year && DateOf(n).month == month
  {
    IndexRoundTrip(year, month);
    DateOfDay(n, MonthHolding(n));
  }

  lemma {:induction false} WithinIsDated(start: int, end: int, year: int, month: int)
    requires 1 <= month <= 12
    ensures DaysWithin(start, end, {MonthIndex(year, month)}) == DaysDated(start, end, year, month)
    decreases end - start + 1
  {
    if start <= end {
      WithinIsDated(start, end - 1, year, month);
      DatedIn(end, year, month);
    }
  }

  lemma OverlapIsDated(start: int, end: int, cell: Cell)
    requires 1 <= cell.month <= 12
    ensures OverlapDays(start, end, cell) == DaysDated(start, end, cell.year, cell.month)
  {
    OverlapCountsDays(start, end, cell);
    WithinIsDated(start, end, cell.year, cell.month);
  }

  predicate Dated(n: int, year: int, month: int) { DateOf(n).year == year && DateOf(n).month == month }

  /** Some day of [start, end] is dated in a month. */
  ghost predicate HasDay(start: int, end: int, year: int, month: int) {
    exists n :: start <= n <= end && Dated(n, year, month)
  }

  lemma OneDayLess(start: int, end: int, year: int, month: int)
    requires start <= end
    ensures HasDay(start, end, year, month) <==> HasDay(start, end - 1, year, month) || Dated(end, year, month)
  {
    if n :| start <= n <= end && Dated(n, year, month) { assert n == end || n <= end - 1; }
  }

  lemma {:induction false} SomeDayDated(start: int, end: int, year: int, month: int)
    ensures DaysDated(start, end, year, month) > 0 <==> HasDay(start, end, year, month)
    decreases end - start + 1
  {
    if start <= end {
      SomeDayDated(start, end - 1, year, month);
      OneDayLess(start, end, year, month);
    }
  }

  predicate ValidMonths(cells: seq<Cell>) {
    forall i :: 0 <= i < |cells| ==> 1 <= cells[i].month <= 12
  }

  /** The part of a campaign's spend for a key: of its brand, in proportion to the days dated in its month. */
  ghost function PartFor(k: Key): Campaign -> real {
    (c: Campaign) =>
      if c.brand == k.brand && Canonical(c.spend)
      then Portion(Value(c.spend), DaysDated(c.start, c.end, k.year, k.month), c.end - c.start + 1) else 0.0
  }

  predicate HasCell(cells: seq<Cell>, k: Key) {
    exists i :: 0 <= i < |cells| && cells[i] == Cell(k.year, k.month)
  }

  lemma OneCellMore(cells: seq<Cell>, k: Key)
    requires cells != [] && DistinctMonths(cells)
    ensures var rest, last := cells[..|cells| - 1], cells[|cells| - 1];
      && (HasCell(cells, k) <==> HasCell(rest, k) || last == Cell(k.year, k.month))
      && !(HasCell(rest, k) && last == Cell(k.year, k.month))
  {
    var rest, last := cells[..|cells| - 1], cells[|cells| - 1];
    if i :| 0 <= i < |rest| && rest[i] == Cell(k.year, k.month) {
      assert cells[i] == rest[i] && IndexOf(cells[i]) != IndexOf(last);
    }
    if i :| 0 <= i < |cells| && cells[i] == Cell(k.year, k.month) { assert i < |rest| ==> rest[i] == cells[i]; }
  }

  lemma ShareIsPart(c: Campaign, cell: Cell, k: Key)
    requires Canonical(c.spend) && 1 <= cell.month <= 12
    ensures (if KeyOf(c, cell) in {k} then Share(Value(c.spend), c, cell) else 0.0) ==
      if cell == Cell(k.year, k.month) then PartFor(k)(c) else 0.0
  {
    OverlapIsDated(c.start, c.end, cell);
  }

  lemma {:induction false} PartOfCampaign(c: Campaign, cells: seq<Cell>, k: Key)
    requires Canonical(c.spend) && ValidMonths(cells) && DistinctMonths(cells)
    ensures CampaignTotal(Value(c.spend), c, cells, {k}) == if HasCell(cells, k) then PartFor(k)(c) else 0.0
  {
    if cells != [] {
      PartOfCampaign(c, cells[..|cells| - 1], k);
      OneCellMore(cells, k);
      ShareIsPart(c, cells[|cells| - 1], k);
    }
  }

  /** Over distinct calendar months, each month's and brand's key holds the parts of that brand's campaigns. */
  lemma {:induction false} KeyHoldsParts(campaigns: seq<Campaign>, cells: seq<Cell>, k: Key)
    requires AllExact(campaigns) && ValidMonths(cells) && DistinctMonths(cells)
    ensures CampaignsTotal(campaigns, cells, {k}) == if HasCell(cells, k) then SumOf(campaigns, PartFor(k)) else 0.0
  {
    if campaigns != [] {
      KeyHoldsParts(campaigns[..|campaigns| - 1], cells, k);
      PartOfCampaign(campaigns[|campaigns| - 1], cells, k);
    }
  }

  // ---- conservation ------------------------------------------------------------------------------------------

  ghost function CampaignAt(x: real, c: Campaign, cells: seq<Cell>): Key -> real {
    k => CampaignTotal(x, c, cells, {k})
  }

  ghost function CampaignsAt(campaigns: seq<Campaign>, cells: seq<Cell>): Key -> real
    requires AllExact(campaigns)
  {
    k => CampaignsTotal(campaigns, cells, {k})
  }

  lemma {:induction false} CampaignKeysAddUp(x: real, c: Campaign, cells: seq<Cell>, keys: set<Key>)
    ensures Total(keys, CampaignAt(x, c, cells)) == CampaignTotal(x, c, cells, keys)
  {
    if cells == [] {
      TotalZero(keys, CampaignAt(x, c, cells));
    } else {
      var rest, last := cells[..|cells| - 1], cells[|cells| - 1];
      CampaignKeysAddUp(x, c, rest, keys);
      var point := (k: Key) => if k == KeyOf(c, last) then Share(x, c, last) else 0.0;
      TotalPoint(keys, point, KeyOf(c, last), Share(x, c, last));
      TotalPlus(keys, CampaignAt(x, c, rest), point, CampaignAt(x, c, cells));
    }
  }

  /** Adding up the keys of any set gives the shares that belong to that set. */
  lemma {:induction false} KeysAddUp(campaigns: seq<Campaign>, cells: seq<Cell>, keys: set<Key>)
    requires AllExact(campaigns)
    ensures Total(keys, CampaignsAt(campaigns, cells)) == CampaignsTotal(campaigns, cells, keys)
  {
    if campaigns == [] {
      TotalZero(keys, CampaignsAt(campaigns, cells));
    } else {
      var rest, last := campaigns[..|campaigns| - 1], campaigns[|campaigns| - 1];
      KeysAddUp(rest, cells, keys);
      CampaignKeysAddUp(Value(last.spend), last, cells, keys);
      TotalPlus(keys, CampaignsAt(rest, cells), CampaignAt(Value(last.spend), last, cells),
                CampaignsAt(campaigns, cells));
    }
  }

  /** `keys` leaves out no month in which the campaign is active. */
  predicate HoldsAll(c: Campaign, cells: seq<Cell>, keys: set<Key>) {
    forall j :: 0 <= j < |cells| && OverlapDays(c.start, c.end, cells[j]) > 0 ==> KeyOf(c, cells[j]) in keys
  }

  lemma PortionsAdd(p: real, q: real, x: real, a: int, b: int, d: int)
    requires IsPortion(p, x, a, d) && IsPortion(q, x, b, d)
    ensures IsPortion(p + q, x, a + b, d)
  {
    assert (a + b) as real == a as real + b as real;
  }

  lemma WholePortion(p: real, x: real, d: int)
    requires d > 0 && IsPortion(p, x, d, d)
    ensures p == x
  {
    RealCancel(p, x, d as real);
  }

  lemma {:induction false} SharesAreProportional(x: real, c: Campaign, cells: seq<Cell>, keys: set<Key>)
    requires Duration(c) > 0 && HoldsAll(c, cells, keys)
    ensures IsPortion(CampaignTotal(x, c, cells, keys), x, OverlapSum(c.start, c.end, cells), Duration(c))
  {
    if cells != [] {
      var rest, last := cells[..|cells| - 1], cells[|cells| - 1];
      SharesAreProportional(x, c, rest, keys);
      PortionTimes(x, OverlapDays(c.start, c.end, last), Duration(c));
      PortionsAdd(CampaignTotal(x, c, rest, keys), Share(x, c, last), x,
                  OverlapSum(c.start, c.end, rest), OverlapDays(c.start, c.end, last), Duration(c));
      if KeyOf(c, last) !in keys { NoDaysNoShare(x, c, last); }
    }
  }

  /**
   * Over distinct months the shares of an amount are to the amount as the covered days are to the duration; when
   * the months cover the campaign, they are exactly the amount.
   */
  lemma SpendIsConserved(x: real, c: Campaign, cells: seq<Cell>, keys: set<Key>)
    requires Duration(c) > 0 && DistinctMonths(cells) && HoldsAll(c, cells, keys)
    ensures IsPortion(CampaignTotal(x, c, cells, keys), x, DaysWithin(c.start, c.end, Months(cells)), Duration(c))
    ensures (forall n :: c.start <= n <= c.end ==> MonthHolding(n) in Months(cells)) ==>
      CampaignTotal(x, c, cells, keys) == x
  {
    SharesAreProportional(x, c, cells, keys);
    OverlapsAddUp(c.start, c.end, cells);
    AllDaysWithin(c.start, c.end, Months(cells));
    if forall n :: c.start <= n <= c.end ==> MonthHolding(n) in Months(cells) {
      WholePortion(CampaignTotal(x, c, cells, keys), x, Duration(c));
    }
  }
}
