/** The proleptic Gregorian calendar: months, dates and their day numbers. */
module Calendar {

  datatype Date = Date(year: int, month: int, day: int)

  predicate IsLeap(y: int) {
    y % 4 == 0 && (y % 100 != 0 || y % 400 == 0)
  }

  function DaysInYear(y: int): int { if IsLeap(y) then 366 else 365 }

  function DaysInMonth(y: int, m: int): int {
    if m == 2 then (if IsLeap(y) then 29 else 28)
    else if m == 4 || m == 6 || m == 9 || m == 11 then 30
    else 31
  }

  // A month index counts months from January of year 0; a day number counts days from 1 January of year 0.

  function MonthIndex(year: int, month: int): int { 12 * year + month - 1 }

  function YearOf(t: int): int { t / 12 }

  function MonthOf(t: int): (m: int)
    ensures 1 <= m <= 12
  {
    t % 12 + 1
  }

  function MonthLength(t: int): (n: int)
    ensures 28 <= n <= 31
  {
    DaysInMonth(YearOf(t), MonthOf(t))
  }

  /** The day number of the first day of a month. */
  function FirstDay(t: int): int
    decreases if t < 0 then -t else t
  {
    if t == 0 then 0
    else if t > 0 then FirstDay(t - 1) + MonthLength(t - 1)
    else FirstDay(t + 1) - MonthLength(t)
  }

  /** Every month starts the day after the one before it ends. */
  lemma MonthsAbut(t: int)
    ensures FirstDay(t + 1) == FirstDay(t) + MonthLength(t)
  {
  }

  lemma {:induction false} FirstDayGrows(t: int, u: int)
    requires t < u
    ensures FirstDay(t) + 28 <= FirstDay(u)
    decreases u - t
  {
    MonthsAbut(t);
    if t + 1 < u { FirstDayGrows(t + 1, u); }
  }

  lemma FirstDayOrder(t: int, u: int)
    ensures FirstDay(t) < FirstDay(u) <==> t < u
  {
    if t < u { FirstDayGrows(t, u); }
    if u < t { FirstDayGrows(u, t); }
  }

  lemma {:induction false} AtMostOnePerMonth(t: int)
    requires t <= 0
    ensures FirstDay(t) <= t
    decreases -t
  {
    if t < 0 { AtMostOnePerMonth(t + 1); }
  }

  /** The month holding a day. */
  function MonthHolding(n: int): (t: int)
    ensures FirstDay(t) <= n < FirstDay(t + 1)
  {
    var start := if n >= 0 then 0 else n;
    AtMostOnePerMonth(start);
    MonthFrom(n, start)
  }

  function MonthFrom(n: int, t: int): (u: int)
    requires FirstDay(t) <= n
    ensures FirstDay(u) <= n < FirstDay(u + 1)
    decreases n - FirstDay(t)
  {
    if n < FirstDay(t + 1) then t
    else
      FirstDayGrows(t, t + 1);
      MonthFrom(n, t + 1)
  }

  lemma OneMonthHolds(n: int, t: int)
    requires FirstDay(t) <= n < FirstDay(t + 1)
    ensures t == MonthHolding(n)
  {
    var u := MonthHolding(n);
    FirstDayOrder(t, u + 1);
    FirstDayOrder(u, t + 1);
  }

  // ---- the closed form ----------------------------------------------------------------------------------------

  /** Days before 1 January of a year, from the multiples of 4, 100 and 400 below it. */
  function DaysBeforeYear(y: int): int {
    365 * y + MultiplesBelow(y, 4) - MultiplesBelow(y, 100) + MultiplesBelow(y, 400)
  }

  /** The multiples of n from 0 up to y, y itself not counted. */
  function MultiplesBelow(y: int, n: int): int
    requires n > 0
  {
    (y + n - 1) / n
  }

  function DaysBeforeMonth(y: int, m: int): int
    requires 1 <= m <= 12
  {
    if m == 1 then 0 else DaysBeforeMonth(y, m - 1) + DaysInMonth(y, m - 1)
  }

  function ClosedForm(t: int): int {
    DaysBeforeYear(YearOf(t)) + DaysBeforeMonth(YearOf(t), MonthOf(t))
  }

  lemma YearsAbut(y: int)
    ensures DaysBeforeYear(y + 1) == DaysBeforeYear(y) + DaysInYear(y)
  {
    OneMultiple(y, 4);
    OneMultiple(y, 100);
    OneMultiple(y, 400);
    CoarserMultiples(y);
    LeapSum(y % 4 == 0, y % 100 == 0, y % 400 == 0);
  }

  lemma CoarserMultiples(y: int)
    ensures y % 400 == 0 ==> y % 100 == 0
    ensures y % 100 == 0 ==> y % 4 == 0
  {
    if y % 400 == 0 { QuotientIs(y, 100, 4 * (y / 400), 0); }
    if y % 100 == 0 { QuotientIs(y, 4, 25 * (y / 100), 0); }
  }

  lemma LeapSum(by4: bool, by100: bool, by400: bool)
    requires (by400 ==> by100) && (by100 ==> by4)
    ensures (if by4 then 1 else 0) - (if by100 then 1 else 0) + (if by400 then 1 else 0) ==
      if by4 && (!by100 || by400) then 1 else 0
  {
  }

  lemma OneMultiple(y: int, n: int)
    requires n > 1
    ensures MultiplesBelow(y + 1, n) == MultiplesBelow(y, n) + (if y % n == 0 then 1 else 0)
  {
    var q, r := y / n, y % n;
    assert y == n * q + r;
    QuotientIs(y + n, n, q + 1, r);
    if r == 0 {
      QuotientIs(y + n - 1, n, q, n - 1);
    } else {
      QuotientIs(y + n - 1, n, q + 1, r - 1);
    }
  }

  lemma DaysOfYear(y: int)
    ensures DaysBeforeMonth(y, 12) + 31 == DaysInYear(y)
  {
    assert DaysBeforeMonth(y, 2) == 31;
    assert DaysBeforeMonth(y, 3) == 31 + DaysInMonth(y, 2);
    assert DaysBeforeMonth(y, 5) == DaysBeforeMonth(y, 3) + 61;
    assert DaysBeforeMonth(y, 7) == DaysBeforeMonth(y, 5) + 61;
    assert DaysBeforeMonth(y, 9) == DaysBeforeMonth(y, 7) + 62;
    assert DaysBeforeMonth(y, 11) == DaysBeforeMonth(y, 9) + 61;
  }

  lemma ClosedFormStep(t: int)
    ensures ClosedForm(t + 1) == ClosedForm(t) + MonthLength(t)
  {
    if t % 12 == 11 {
      QuotientIs(t + 1, 12, t / 12 + 1, 0);
      YearsAbut(YearOf(t));
      DaysOfYear(YearOf(t));
    } else {
      QuotientIs(t + 1, 12, t / 12, t % 12 + 1);
    }
  }

  /** Adding up month lengths gives the usual leap-year formula. */
  lemma {:induction false} FirstDayClosedForm(t: int)
    ensures FirstDay(t) == ClosedForm(t)
    decreases if t < 0 then -t else t
  {
    if t > 0 {
      FirstDayClosedForm(t - 1);
      ClosedFormStep(t - 1);
    } else if t < 0 {
      FirstDayClosedForm(t + 1);
      ClosedFormStep(t);
    }
  }

  /** Days before a month within its year, by a formula that knows no month lengths. */
  lemma {:induction false} MonthOffset(y: int, m: int)
    requires 1 <= m <= 12
    ensures DaysBeforeMonth(y, m) == (367 * m - 362) / 12 - if m <= 2 then 0 else if IsLeap(y) then 1 else 2
  {
    if m > 1 { MonthOffset(y, m - 1); }
  }

  /** Every month of every year starts where the usual formula says: so many days after the year began, one or two
    * fewer from March on. */
  lemma MonthStartIs(y: int, m: int)
    requires 1 <= m <= 12
    ensures FirstDay(MonthIndex(y, m)) == 365 * y + (y + 3) / 4 - (y + 99) / 100 + (y + 399) / 400
              + (367 * m - 362) / 12
              - if m <= 2 then 0 else if y % 4 == 0 && (y % 100 != 0 || y % 400 == 0) then 1 else 2
  {
    FirstDayClosedForm(MonthIndex(y, m));
    IndexRoundTrip(y, m);
    MonthOffset(y, m);
  }

  /** A date's day number, from its fields alone. */
  lemma DayNumberIs(d: Date)
    requires Valid(d)
    ensures DayNumber(d) == 365 * d.year + (d.year + 3) / 4 - (d.year + 99) / 100 + (d.year + 399) / 400
              + (367 * d.month - 362) / 12 + d.day - 1
              - if d.month <= 2 then 0
                else if d.year % 4 == 0 && (d.year % 100 != 0 || d.year % 400 == 0) then 1 else 2
  {
    MonthStartIs(d.year, d.month);
  }

  // ---- dates ------------------------------------------------------------------------------------------------

  predicate Valid(d: Date) {
    1 <= d.month <= 12 && 1 <= d.day <= DaysInMonth(d.year, d.month)
  }

  function MonthOfDate(d: Date): int { MonthIndex(d.year, d.month) }

  function DayNumber(d: Date): int {
    FirstDay(MonthOfDate(d)) + d.day - 1
  }

  function DateOf(n: int): Date {
    var t := MonthHolding(n);
    Date(YearOf(t), MonthOf(t), n - FirstDay(t) + 1)
  }

  lemma QuotientIs(x: int, n: int, q: int, r: int)
    requires n > 0 && x == n * q + r && 0 <= r < n
    ensures x / n == q && x % n == r
  {
    var p, s := x / n, x % n;
    assert x == n * p + s;
    assert n * (p - q) == n * p - n * q;
    SmallMultiple(n, p - q);
  }

  lemma SmallMultiple(n: int, k: int)
    requires n > 0 && -n < n * k < n
    ensures k == 0
  {
    Scaled(1, k, n);
    Scaled(k, -1, n);
  }

  lemma Scaled(a: int, b: int, n: int)
    ensures n >= 0 && a <= b ==> n * a <= n * b
  {
  }

  lemma IndexRoundTrip(year: int, month: int)
    requires 1 <= month <= 12
    ensures YearOf(MonthIndex(year, month)) == year && MonthOf(MonthIndex(year, month)) == month
  {
    QuotientIs(MonthIndex(year, month), 12, year, month - 1);
  }

  lemma DateInItsMonth(d: Date)
    requires Valid(d)
    ensures FirstDay(MonthOfDate(d)) <= DayNumber(d) < FirstDay(MonthOfDate(d) + 1)
    ensures MonthHolding(DayNumber(d)) == MonthOfDate(d)
  {
    IndexRoundTrip(d.year, d.month);
    MonthsAbut(MonthOfDate(d));
    OneMonthHolds(DayNumber(d), MonthOfDate(d));
  }

  lemma DateRoundTrip(d: Date)
    requires Valid(d)
    ensures DateOf(DayNumber(d)) == d
  {
    var t := MonthOfDate(d);
    DateInItsMonth(d);
    DateOfDay(DayNumber(d), t);
    assert YearOf(t) == d.year && MonthOf(t) == d.month by { IndexRoundTrip(d.year, d.month); }
    assert DayNumber(d) - FirstDay(t) + 1 == d.day;
  }

  lemma DateOfDay(n: int, t: int)
    requires t == MonthHolding(n)
    ensures DateOf(n) == Date(YearOf(t), MonthOf(t), n - FirstDay(t) + 1)
  {
  }

  lemma DayRoundTrip(n: int)
    ensures Valid(DateOf(n)) && DayNumber(DateOf(n)) == n
  {
    MonthsAbut(MonthHolding(n));
  }

  /** Year, then month, then day. */
  predicate Before(a: Date, b: Date) {
    a.year < b.year || (a.year == b.year && (a.month < b.month || (a.month == b.month && a.day < b.day)))
  }

  /** Comparing dates field by field compares their day numbers. */
  lemma FieldOrderIsDayOrder(a: Date, b: Date)
    requires Valid(a) && Valid(b)
    ensures Before(a, b) <==> DayNumber(a) < DayNumber(b)
  {
    DateInItsMonth(a);
    DateInItsMonth(b);
    FirstDayOrder(MonthOfDate(a), MonthOfDate(b));
    FirstDayOrder(MonthOfDate(a) + 1, MonthOfDate(b) + 1);
    if MonthOfDate(a) < MonthOfDate(b) { FirstDayOrder(MonthOfDate(b), MonthOfDate(a) + 1); }
    if MonthOfDate(b) < MonthOfDate(a) { FirstDayOrder(MonthOfDate(a), MonthOfDate(b) + 1); }
  }

  // ---- dates as text ------------------------------------------------------------------------------------------

  /** Text order: the first character that differs decides, and a beginning comes before its continuation. */
  predicate TextLess(a: string, b: string) {
    if b == "" then false
    else if a == "" then true
    else if a[0] != b[0] then a[0] < b[0]
    else TextLess(a[1..], b[1..])
  }

  function Digit(n: int): char
    requires 0 <= n < 10
  {
    (n + '0' as int) as char
  }

  /** The last w digits of a number. */
  function Pad(n: nat, w: nat): (s: string)
    ensures |s| == w
  {
    if w == 0 then "" else Pad(n / 10, w - 1) + [Digit(n % 10)]
  }

  function Pow10(w: nat): nat { if w == 0 then 1 else 10 * Pow10(w - 1) }

  lemma {:induction false} TextOfParts(a: string, b: string, x: string, y: string)
    requires |a| == |b|
    ensures TextLess(a + x, b + y) <==> TextLess(a, b) || (a == b && TextLess(x, y))
    decreases |a|
  {
    if a == "" {
      assert a + x == x && b + y == y;
    } else {
      TextOfParts(a[1..], b[1..], x, y);
      assert (a + x)[1..] == a[1..] + x && (b + y)[1..] == b[1..] + y;
      assert a == b <==> a[0] == b[0] && a[1..] == b[1..];
    }
  }

  /** Numbers of one width compare as their text does. */
  lemma {:induction false} PadOrder(m: nat, n: nat, w: nat)
    requires m < Pow10(w) && n < Pow10(w)
    ensures TextLess(Pad(m, w), Pad(n, w)) <==> m < n
    ensures Pad(m, w) == Pad(n, w) <==> m == n
  {
    if w > 0 {
      var a, b, x, y := Pad(m / 10, w - 1), Pad(n / 10, w - 1), [Digit(m % 10)], [Digit(n % 10)];
      PadOrder(m / 10, n / 10, w - 1);
      TextOfParts(a, b, x, y);
      assert TextLess(x, y) <==> m % 10 < n % 10;
      assert (a + x)[..|a|] == a && (b + y)[..|b|] == b && (a + x)[|a|] == x[0] && (b + y)[|b|] == y[0];
    }
  }

  /** `YYYY-MM-DD`. */
  function IsoText(d: Date): string
    requires Valid(d) && 0 <= d.year < 10_000
  {
    Pad(d.year, 4) + ("-" + (Pad(d.month, 2) + ("-" + Pad(d.day, 2))))
  }

  /** The number a text of digits writes. */
  function NumberOf(s: string): int {
    if s == "" then 0 else 10 * NumberOf(s[..|s| - 1]) + (s[|s| - 1] as int - '0' as int)
  }

  lemma {:induction false} PadWrites(n: nat, w: nat)
    requires n < Pow10(w)
    ensures NumberOf(Pad(n, w)) == n
  {
    if w > 0 {
      PadWrites(n / 10, w - 1);
      assert Pad(n, w)[..w - 1] == Pad(n / 10, w - 1);
    }
  }

  /** A date's text is four digits of the year, two of the month and two of the day, with dashes between. */
  lemma IsoTextWrites(d: Date)
    requires Valid(d) && 0 <= d.year < 10_000
    ensures var t := IsoText(d);
      && |t| == 10 && t[4] == t[7] == '-'
      && NumberOf(t[..4]) == d.year && NumberOf(t[5..7]) == d.month && NumberOf(t[8..]) == d.day
  {
    var t := IsoText(d);
    assert Pow10(2) == 100 && Pow10(4) == 100 * Pow10(2);
    PadWrites(d.year, 4);
    PadWrites(d.month, 2);
    PadWrites(d.day, 2);
    assert t[..4] == Pad(d.year, 4) && t[5..7] == Pad(d.month, 2) && t[8..] == Pad(d.day, 2);
  }

  lemma DashBefore(a: string, b: string)
    ensures TextLess("-" + a, "-" + b) <==> TextLess(a, b)
  {
    TextOfParts("-", "-", a, b);
  }

  /** ISO dates compared as text compare their days. */
  lemma IsoTextOrder(a: Date, b: Date)
    requires Valid(a) && Valid(b) && 0 <= a.year < 10_000 && 0 <= b.year < 10_000
    ensures TextLess(IsoText(a), IsoText(b)) <==> DayNumber(a) < DayNumber(b)
  {
    assert Pow10(2) == 100 && Pow10(4) == 100 * Pow10(2);
    PadOrder(a.year, b.year, 4);
    PadOrder(a.month, b.month, 2);
    PadOrder(a.day, b.day, 2);
    var x, y := Pad(a.month, 2) + ("-" + Pad(a.day, 2)), Pad(b.month, 2) + ("-" + Pad(b.day, 2));
    TextOfParts(Pad(a.year, 4), Pad(b.year, 4), "-" + x, "-" + y);
    DashBefore(x, y);
    TextOfParts(Pad(a.month, 2), Pad(b.month, 2), "-" + Pad(a.day, 2), "-" + Pad(b.day, 2));
    DashBefore(Pad(a.day, 2), Pad(b.day, 2));
    FieldOrderIsDayOrder(a, b);
  }

  // ---- days of the week ---------------------------------------------------------------------------------------

  /** 0 is Sunday; 1 January of year 0 was a Saturday. */
  function Weekday(n: int): (w: int)
    ensures 0 <= w < 7
  {
    (n + 6) % 7
  }

  const FRIDAY := 5
  const SATURDAY := 6

  lemma NewYear(y: int)
    ensures DayNumber(Date(y, 1, 1)) == DaysBeforeYear(y)
  {
    FirstDayClosedForm(12 * y);
    QuotientIs(12 * y, 12, y, 0);
  }

  /** 1 January 1970 is day 719528, a Thursday. */
  lemma EpochIsThursday(y: int)
    requires y == 1970
    ensures DayNumber(Date(y, 1, 1)) == 719528 && Weekday(DayNumber(Date(y, 1, 1))) == 4
  {
    NewYear(y);
  }

  /** The Saturday on or before a day: the start of its business week. */
  function WeekStart(n: int): int {
    n - (Weekday(n) + 1) % 7
  }

  lemma WeekStartIsSaturday(n: int)
    ensures Weekday(WeekStart(n)) == SATURDAY && WeekStart(n) <= n < WeekStart(n) + 7
    ensures forall s :: Weekday(s) == SATURDAY && s <= n < s + 7 ==> s == WeekStart(n)
  {
  }
}
