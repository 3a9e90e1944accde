/**
 * Collection periods: days, Saturday-to-Friday weeks and calendar months between two dates
 * (`measures/debtCollections.ts`, `lib/businessWeek.ts`). Dates are day numbers; `Calendar` shows that dates written
 * as text and day numbers correspond one to one, in the same order.
 */
module Periods {
  import opened Prelude
  import opened Calendar

  datatype Grain = Day | Week | Month
  datatype Period = Period(start: int, end: int)
  datatype QueryError = TooManyPeriods | FromAfterTo

  const MAX_PERIODS := 400

  function DefaultPeriods(g: Grain): nat {
    match g
    case Day => 30
    case Week => 12
    case Month => 12
  }

  // ---- date arithmetic of the source -----------------------------------------------------------------------

  function AddMonths(n: int, k: int): int { FirstDay(MonthHolding(n) + k) }

  function PeriodStart(n: int, g: Grain): int {
    match g
    case Day => n
    case Month => FirstDay(MonthHolding(n))
    case Week => WeekStart(n)
  }

  function PeriodEnd(start: int, g: Grain): int {
    match g
    case Day => start
    case Week => start + 6
    case Month => AddMonths(start, 1) - 1
  }

  function NextStart(start: int, g: Grain): int {
    match g
    case Month => AddMonths(start, 1)
    case Week => start + 7
    case Day => start + 1
  }

  /** On written dates: the first of the month, and `addMonths`, are what they are on day numbers. */
  lemma MonthsOnDates(d: Date, k: int)
    requires Valid(d)
    ensures DayNumber(Date(d.year, d.month, 1)) == PeriodStart(DayNumber(d), Month)
    ensures var t := MonthIndex(d.year, d.month + k);
      DayNumber(Date(YearOf(t), MonthOf(t), 1)) == AddMonths(DayNumber(d), k)
  {
    DateInItsMonth(d);
  }

  // ---- the grid of periods ---------------------------------------------------------------------------------

  /** The number of the period of grain g that holds a day. */
  function PeriodNo(g: Grain, n: int): int {
    match g
    case Day => n
    case Week => n / 7
    case Month => MonthHolding(n)
  }

  /** The first day of period number k. */
  function FirstOf(g: Grain, k: int): int {
    match g
    case Day => k
    case Week => 7 * k
    case Month => FirstDay(k)
  }

  function PeriodAt(g: Grain, k: int): Period {
    Period(FirstOf(g, k), FirstOf(g, k + 1) - 1)
  }

  /** How many periods meet [from, to]; a start after the end still yields its period when they share it. */
  function PeriodCount(g: Grain, from: int, to: int): nat {
    var n := PeriodNo(g, to) - PeriodNo(g, from) + 1;
    if n < 0 then 0 else n
  }

  /** The n periods from number k on. */
  function Consecutive(g: Grain, k: int, n: nat): (list: seq<Period>)
    ensures |list| == n && forall i :: 0 <= i < n ==> list[i] == PeriodAt(g, k + i)
  {
    seq(n, (i: int) => PeriodAt(g, k + i))
  }

  lemma OnePeriodMore(g: Grain, k: int, n: nat)
    ensures Consecutive(g, k, n + 1) == Consecutive(g, k, n) + [PeriodAt(g, k + n)]
  {
  }

  function PeriodList(g: Grain, from: int, to: int): seq<Period> {
    Consecutive(g, PeriodNo(g, from), PeriodCount(g, from, to))
  }

  lemma FirstOfOrder(g: Grain, j: int, k: int)
    ensures FirstOf(g, j) < FirstOf(g, k) <==> j < k
  {
    if g == Month { FirstDayOrder(j, k); }
  }

  /** A day lies in period k exactly when k is its period number. */
  lemma HeldBy(g: Grain, n: int, k: int)
    ensures FirstOf(g, k) <= n < FirstOf(g, k + 1) <==> k == PeriodNo(g, n)
  {
    if g == Month && FirstDay(k) <= n < FirstDay(k + 1) { OneMonthHolds(n, k); }
  }

  /** `periodStart` is the first day of the period holding the date. */
  lemma PeriodStartIs(n: int, g: Grain)
    ensures PeriodStart(n, g) == FirstOf(g, PeriodNo(g, n))
  {
  }

  lemma MonthOfFirst(t: int)
    ensures MonthHolding(FirstDay(t)) == t
  {
    FirstDayGrows(t, t + 1);
    OneMonthHolds(FirstDay(t), t);
  }

  /** From a period's start, `periodEnd` is its last day and `nextStart` the start of the next one. */
  lemma StepsAlongGrid(g: Grain, k: int)
    ensures PeriodEnd(FirstOf(g, k), g) == PeriodAt(g, k).end
    ensures NextStart(FirstOf(g, k), g) == FirstOf(g, k + 1)
  {
    if g == Month { MonthOfFirst(k); }
  }

  lemma StartsUpTo(g: Grain, k: int, to: int)
    ensures FirstOf(g, k) <= to <==> k <= PeriodNo(g, to)
  {
    HeldBy(g, to, PeriodNo(g, to));
    FirstOfOrder(g, k, PeriodNo(g, to) + 1);
    FirstOfOrder(g, PeriodNo(g, to), k);
  }

  /** At the start of period k: whether it still begins by `to`, its end, and the next start. */
  lemma OneStep(g: Grain, k: int, s: int, to: int)
    requires s == FirstOf(g, k)
    ensures s <= to <==> k <= PeriodNo(g, to)
    ensures Period(s, PeriodEnd(s, g)) == PeriodAt(g, k) && NextStart(s, g) == FirstOf(g, k + 1)
  {
    StartsUpTo(g, k, to);
    StepsAlongGrid(g, k);
  }

  /** The consecutive periods from the one holding `from` to the one holding `to`, or an error above 400. */
  method PeriodsBetween(from: int, to: int, g: Grain) returns (r: Result<seq<Period>, QueryError>)
    ensures r == if PeriodCount(g, from, to) > MAX_PERIODS then Err(TooManyPeriods) else Ok(PeriodList(g, from, to))
  {
    var out: seq<Period> := [];
    ghost var first, last := PeriodNo(g, from), PeriodNo(g, to);
    var s := PeriodStart(from, g);
    PeriodStartIs(from, g);
    while s <= to && |out| <= MAX_PERIODS
      invariant s == FirstOf(g, first + |out|)
      invariant |out| <= MAX_PERIODS + 1 && (out != [] ==> first + |out| <= last + 1)
      invariant out == Consecutive(g, first, |out|)
      decreases MAX_PERIODS + 1 - |out|
    {
      OneStep(g, first + |out|, s, to);
      OnePeriodMore(g, first, |out|);
      out := out + [Period(s, PeriodEnd(s, g))];
      s := NextStart(s, g);
    }
    OneStep(g, first + |out|, s, to);
    if |out| > MAX_PERIODS {
      r := Err(TooManyPeriods);
    } else {
      r := Ok(out);
    }
  }

  // ---- what the list of periods is for ----------------------------------------------------------------------

  predicate Holds(p: Period, n: int) { p.start <= n <= p.end }

  lemma NumbersGrow(g: Grain, a: int, b: int)
    requires a <= b
    ensures PeriodNo(g, a) <= PeriodNo(g, b)
  {
    HeldBy(g, a, PeriodNo(g, a));
    StartsUpTo(g, PeriodNo(g, a), b);
  }

  lemma HeldInList(g: Grain, from: int, to: int, n: int, i: nat)
    requires i < PeriodCount(g, from, to)
    ensures Holds(PeriodList(g, from, to)[i], n) <==> PeriodNo(g, from) + i == PeriodNo(g, n)
    ensures PeriodList(g, from, to)[i].start == FirstOf(g, PeriodNo(g, from) + i)
  {
    HeldBy(g, n, PeriodNo(g, from) + i);
  }

  /** Every date of the range lies in exactly one period of the list, the one starting at its `periodStart`. */
  lemma PeriodsPartition(g: Grain, from: int, to: int, n: int) returns (i: nat)
    requires from <= n <= to
    ensures i < |PeriodList(g, from, to)| && PeriodList(g, from, to)[i].start == PeriodStart(n, g)
    ensures forall j :: 0 <= j < |PeriodList(g, from, to)| ==> (Holds(PeriodList(g, from, to)[j], n) <==> j == i)
  {
    NumbersGrow(g, from, n);
    NumbersGrow(g, n, to);
    i := PeriodNo(g, n) - PeriodNo(g, from);
    HeldInList(g, from, to, n, i);
    PeriodStartIs(n, g);
    forall j | 0 <= j < |PeriodList(g, from, to)| ensures Holds(PeriodList(g, from, to)[j], n) <==> j == i {
      HeldInList(g, from, to, n, j);
    }
  }

  lemma PeriodMeets(g: Grain, k: int, from: int, to: int)
    requires PeriodNo(g, from) <= k <= PeriodNo(g, to)
    ensures FirstOf(g, k) <= to && from < FirstOf(g, k + 1)
  {
    StartsUpTo(g, k, to);
    HeldBy(g, from, PeriodNo(g, from));
    FirstOfOrder(g, k + 1, PeriodNo(g, from) + 1);
  }

  /** Every listed period meets the range. */
  lemma PeriodsMeetRange(g: Grain, from: int, to: int, i: nat)
    requires i < PeriodCount(g, from, to)
    ensures PeriodList(g, from, to)[i].start <= to && from <= PeriodList(g, from, to)[i].end
  {
    PeriodMeets(g, PeriodNo(g, from) + i, from, to);
  }

  lemma MonthIs(t: int)
    ensures DateOf(FirstDay(t)).day == 1 && FirstDay(t + 1) - FirstDay(t) == MonthLength(t)
  {
    MonthsAbut(t);
    MonthOfFirst(t);
    DateOfDay(FirstDay(t), t);
  }

  /** What a period is, by the calendar: a day; a Saturday to the Friday after it; the first to the last of a month. */
  lemma PeriodIs(g: Grain, k: int)
    ensures g == Day ==> PeriodAt(g, k).start == PeriodAt(g, k).end
    ensures g == Week ==> Weekday(PeriodAt(g, k).start) == SATURDAY && PeriodAt(g, k).end == PeriodAt(g, k).start + 6
    ensures g == Month ==> DateOf(PeriodAt(g, k).start).day == 1 && DateOf(PeriodAt(g, k).end + 1).day == 1
  {
    match g
    case Day =>
    case Week => SaturdayIs(k);
    case Month =>
      MonthIs(k);
      MonthIs(k + 1);
  }

  lemma SaturdayIs(k: int)
    ensures Weekday(7 * k) == SATURDAY
  {
  }

  /** Each period is not empty and ends the day before the next one begins. */
  lemma PeriodsAbut(g: Grain, from: int, to: int, i: nat)
    requires i < PeriodCount(g, from, to)
    ensures PeriodList(g, from, to)[i].start <= PeriodList(g, from, to)[i].end
    ensures i + 1 < PeriodCount(g, from, to) ==>
      PeriodList(g, from, to)[i].end + 1 == PeriodList(g, from, to)[i + 1].start
  {
    FirstOfOrder(g, PeriodNo(g, from) + i, PeriodNo(g, from) + i + 1);
  }

  // ---- the requested or default range -------------------------------------------------------------------------

  datatype Range = Range(from: int, to: int)

  function DefaultTo(today: int, g: Grain): int { PeriodEnd(PeriodStart(today, g), g) }

  function DefaultFrom(to: int, g: Grain): int {
    var last := PeriodStart(to, g);
    var n := DefaultPeriods(g) - 1;
    if g == Month then AddMonths(last, -n) else last - n * (if g == Week then 7 else 1)
  }

  lemma DefaultToIs(today: int, g: Grain)
    ensures DefaultTo(today, g) == PeriodAt(g, PeriodNo(g, today)).end
    ensures PeriodNo(g, DefaultTo(today, g)) == PeriodNo(g, today)
  {
    var k := PeriodNo(g, today);
    PeriodStartIs(today, g);
    StepsAlongGrid(g, k);
    FirstOfOrder(g, k, k + 1);
    HeldBy(g, FirstOf(g, k + 1) - 1, k);
  }

  lemma BackOnGrid(g: Grain, k: int, n: int)
    ensures (if g == Month then AddMonths(FirstOf(g, k), -n) else FirstOf(g, k) - n * (if g == Week then 7 else 1)) ==
            FirstOf(g, k - n)
  {
    if g == Month { MonthOfFirst(k); }
  }

  lemma FirstInPeriod(g: Grain, k: int)
    ensures PeriodNo(g, FirstOf(g, k)) == k
  {
    FirstOfOrder(g, k, k + 1);
    HeldBy(g, FirstOf(g, k), k);
  }

  /** Without a start date the range holds exactly the default number of periods, whatever its end. */
  lemma DefaultRangeLength(to: int, g: Grain)
    ensures DefaultFrom(to, g) <= to
    ensures PeriodCount(g, DefaultFrom(to, g), to) == DefaultPeriods(g)
  {
    var k, n := PeriodNo(g, to), DefaultPeriods(g) - 1;
    PeriodStartIs(to, g);
    BackOnGrid(g, k, n);
    FirstInPeriod(g, k - n);
    StartsUpTo(g, k - n, to);
  }

  /** The dates of a collections query: given, or the default number of periods ending with the current one. */
  method ParseRange(from: Option<int>, to: Option<int>, g: Grain, today: int) returns (r: Result<Range, QueryError>)
    ensures r.Ok? ==> r.value.from <= r.value.to && PeriodCount(g, r.value.from, r.value.to) <= MAX_PERIODS
    ensures r.Ok? ==> ((from.Some? ==> r.value.from == from.value) && (to.Some? ==> r.value.to == to.value))
    ensures from.None? ==> (r.Ok? && PeriodCount(g, r.value.from, r.value.to) == if g == Day then 30 else 12)
    ensures (r.Ok? && to.None?) ==> r.value.to == PeriodAt(g, PeriodNo(g, today)).end
    ensures r.Err? && from.Some? ==>
      r.error == if from.value > (if to.Some? then to.value else PeriodAt(g, PeriodNo(g, today)).end) then FromAfterTo
                 else TooManyPeriods
    ensures r.Err? <==>
      from.Some? && (var end := if to.Some? then to.value else PeriodAt(g, PeriodNo(g, today)).end;
                     from.value > end || PeriodCount(g, from.value, end) > 400)
  {
    var end := if to.Some? then to.value else DefaultTo(today, g);
    DefaultToIs(today, g);
    var start := if from.Some? then from.value else DefaultFrom(end, g);
    DefaultRangeLength(end, g);
    if start > end { return Err(FromAfterTo); }
    var periods := PeriodsBetween(start, end, g);
    if periods.Err? { return Err(periods.error); }
    r := Ok(Range(start, end));
  }
}
