/** Working days of a window, counted and listed (`measures/criticalNumber.ts`, lines 67-85 and 239-287). */
module WorkingDays {
  import opened Prelude
  import opened Calendar

  /** An official holiday on one day; no company means the whole country. */
  datatype OffDay = OffDay(date: int, company: Option<string>)

  /** The companies filtered for; None without a company filter. */
  type Scope = Option<set<string>>

  predicate MatchesScope(row: OffDay, scope: Scope) {
    row.company.None? || row.company.value == "" || scope.None? || row.company.value in scope.value
  }

  predicate IsFriday(n: int) { Weekday(n) == FRIDAY }

  /** The official rows of a window are read for that window only. */
  predicate Within(rows: seq<OffDay>, start: int, end: int) {
    forall i :: 0 <= i < |rows| ==> start <= rows[i].date <= end
  }

  // ---- the count -----------------------------------------------------------------------------------------------

  function DayCount(start: int, end: int, p: int -> bool): nat
    decreases end - start + 1
  {
    if end < start then 0 else DayCount(start, end - 1, p) + (if p(end) then 1 else 0)
  }

  function Friday(): int -> bool { (n: int) => IsFriday(n) }

  method CountWeeklyRestDays(start: int, end: int) returns (count: nat)
    ensures count == DayCount(start, end, Friday())
  {
    count := 0;
    var cur := start;
    while cur <= end
      invariant cur == start || start < cur <= end + 1
      invariant count == DayCount(start, cur - 1, Friday())
      decreases end - cur + 1
    {
      if IsFriday(cur) { count := count + 1; }
      cur := cur + 1;
    }
    if end < start { assert DayCount(start, end, Friday()) == 0; }
  }

  /** The rows that count as holidays, one date per row. */
  function HolidayDates(rows: seq<OffDay>, scope: Scope): seq<int> {
    if rows == [] then []
    else
      var last := rows[|rows| - 1];
      HolidayDates(rows[..|rows| - 1], scope) +
      (if MatchesScope(last, scope) && !IsFriday(last.date) then [last.date] else [])
  }

  /** Calendar days less Fridays less holiday rows, not below zero. */
  function DaysLeft(start: int, end: int, rows: seq<OffDay>, scope: Scope): nat {
    var left := end - start + 1 - DayCount(start, end, Friday()) - |HolidayDates(rows, scope)|;
    if left < 0 then 0 else left
  }

  method ComputeWorkingDays(start: int, end: int, rows: seq<OffDay>, scope: Scope) returns (n: nat)
    ensures n == DaysLeft(start, end, rows, scope)
  {
    var rest := CountWeeklyRestDays(start, end);
    var official := 0;
    for i := 0 to |rows|
      invariant official == |HolidayDates(rows[..i], scope)|
    {
      assert rows[..i + 1][..i] == rows[..i];
      if MatchesScope(rows[i], scope) && !IsFriday(rows[i].date) { official := official + 1; }
    }
    assert rows[..|rows|] == rows;
    var left := end - start + 1 - rest - official;
    n := if left < 0 then 0 else left;
  }

  // ---- the list ------------------------------------------------------------------------------------------------

  function HolidayKeys(rows: seq<OffDay>, scope: Scope): set<int> {
    set i | 0 <= i < |rows| && MatchesScope(rows[i], scope) :: rows[i].date
  }

  predicate IsWorking(n: int, holidays: set<int>) { !IsFriday(n) && n !in holidays }

  /** The working days of [start, end] in date order. */
  function DaysList(start: int, end: int, holidays: set<int>): seq<int>
    decreases end - start + 1
  {
    if end < start then []
    else DaysList(start, end - 1, holidays) + (if IsWorking(end, holidays) then [end] else [])
  }

  method ListWorkingDays(start: int, end: int, rows: seq<OffDay>, scope: Scope) returns (days: seq<int>)
    ensures days == DaysList(start, end, HolidayKeys(rows, scope))
  {
    var holidays := HolidayKeys(rows, scope);
    days := [];
    var cur := start;
    while cur <= end
      invariant cur == start || start < cur <= end + 1
      invariant days == DaysList(start, cur - 1, holidays)
      decreases end - cur + 1
    {
      if IsWorking(cur, holidays) { days := days + [cur]; }
      cur := cur + 1;
    }
  }

  // ---- both, by the calendar and the rows themselves ---------------------------------------------------------

  /** 2 January 1970, day 719529, was a Friday. */
  lemma EpochFriday(d: Date)
    requires d == Date(1970, 1, 2)
    ensures DayNumber(d) == 719529 && IsFriday(DayNumber(d))
  {
    EpochIsThursday(d.year);
  }

  /** Every seventh day from that Friday. */
  predicate SeventhDay(n: int) { (n - 719529) % 7 == 0 }

  lemma FridaysAre(n: int)
    ensures IsFriday(n) <==> SeventhDay(n)
  {
  }

  /** A row counts when it names no company, or no company is filtered for, or its company is among those. */
  predicate Counts(row: OffDay, scope: Scope) {
    match (row.company, scope)
    case (None, _) => true
    case (Some(c), None) => true
    case (Some(c), Some(companies)) => c == "" || c in companies
  }

  /** A day of the window is listed, once and in order, exactly when it is no Friday and no row that counts names it. */
  lemma ListedAre(start: int, end: int, rows: seq<OffDay>, scope: Scope)
    ensures var days := DaysList(start, end, HolidayKeys(rows, scope));
      && (forall i, j :: 0 <= i < j < |days| ==> days[i] < days[j])
      && forall n :: n in days <==>
           && start <= n <= end && !SeventhDay(n)
           && !exists i :: 0 <= i < |rows| && rows[i].date == n && Counts(rows[i], scope)
  {
    DaysListed(start, end, HolidayKeys(rows, scope));
    forall n ensures n in HolidayKeys(rows, scope) <==>
        exists i :: 0 <= i < |rows| && rows[i].date == n && Counts(rows[i], scope)
    {
      forall i | 0 <= i < |rows| ensures Counts(rows[i], scope) <==> MatchesScope(rows[i], scope) {}
    }
  }

  lemma {:induction false} DaysListed(start: int, end: int, holidays: set<int>)
    ensures var days := DaysList(start, end, holidays);
      && (forall i, j :: 0 <= i < j < |days| ==> days[i] < days[j])
      && forall n :: n in days <==> start <= n <= end && !SeventhDay(n) && n !in holidays
    decreases end - start + 1
  {
    if start <= end {
      DaysListed(start, end - 1, holidays);
      FridaysAre(end);
      var before := DaysList(start, end - 1, holidays);
      assert forall i :: 0 <= i < |before| ==> before[i] in before;
    }
  }

  ghost function Fridays(start: int, end: int): set<int> {
    set n | start <= n <= end && SeventhDay(n)
  }

  ghost function CountingRows(rows: seq<OffDay>, scope: Scope): set<int> {
    set i | 0 <= i < |rows| && Counts(rows[i], scope) && !SeventhDay(rows[i].date)
  }

  lemma {:induction false} FridaysCounted(start: int, end: int)
    ensures DayCount(start, end, Friday()) == |Fridays(start, end)|
    decreases end - start + 1
  {
    if start <= end {
      FridaysCounted(start, end - 1);
      FridaysAre(end);
      assert Fridays(start, end) == Fridays(start, end - 1) + if IsFriday(end) then {end} else {};
    }
  }

  lemma {:induction false} RowsCounted(rows: seq<OffDay>, scope: Scope)
    ensures |HolidayDates(rows, scope)| == |CountingRows(rows, scope)|
  {
    if rows != [] {
      var last := |rows| - 1;
      RowsCounted(rows[..last], scope);
      FridaysAre(rows[last].date);
      assert CountingRows(rows, scope) == CountingRows(rows[..last], scope) +
        if Counts(rows[last], scope) && !IsFriday(rows[last].date) then {last} else {};
    }
  }

  /** The count: days of the window, less its Fridays, less every row that counts and is not for a Friday. */
  lemma LeftAre(start: int, end: int, rows: seq<OffDay>, scope: Scope)
    ensures var left := end - start + 1 - |Fridays(start, end)| - |CountingRows(rows, scope)|;
      DaysLeft(start, end, rows, scope) == if left < 0 then 0 else left
  {
    FridaysCounted(start, end);
    RowsCounted(rows, scope);
  }

  // ---- counted against listed ----------------------------------------------------------------------------------

  function In(s: set<int>): int -> bool { (n: int) => n in s }

  function Inside(s: set<int>, start: int, end: int): set<int> { set n | n in s && start <= n <= end }

  lemma {:induction false} CountOfSet(start: int, end: int, s: set<int>)
    ensures DayCount(start, end, In(s)) == |Inside(s, start, end)|
    decreases end - start + 1
  {
    if end < start {
      assert Inside(s, start, end) == {};
    } else {
      CountOfSet(start, end - 1, s);
      assert Inside(s, start, end) == Inside(s, start, end - 1) + if end in s then {end} else {};
    }
  }

  function Dates(dates: seq<int>): set<int> { set i | 0 <= i < |dates| :: dates[i] }

  predicate Distinct(dates: seq<int>) {
    forall i, j :: 0 <= i < j < |dates| ==> dates[i] != dates[j]
  }

  lemma {:induction false} DistinctSize(dates: seq<int>)
    ensures |Dates(dates)| <= |dates|
    ensures |Dates(dates)| == |dates| <==> Distinct(dates)
  {
    if dates == [] {
      assert Dates(dates) == {};
    } else {
      var rest, last := dates[..|dates| - 1], dates[|dates| - 1];
      DistinctSize(rest);
      assert Dates(dates) == Dates(rest) + {last};
      if last in Dates(rest) {
        var i :| 0 <= i < |rest| && rest[i] == last;
        assert dates[i] == dates[|dates| - 1];
      }
    }
  }

  /** The days that are holidays but not Fridays are the dates of the rows that count. */
  lemma {:induction false} HolidayMembers(rows: seq<OffDay>, scope: Scope)
    ensures forall n :: n in Dates(HolidayDates(rows, scope)) <==> n in HolidayKeys(rows, scope) && !IsFriday(n)
  {
    if rows == [] {
      assert HolidayKeys(rows, scope) == {};
    } else {
      var rest, last := rows[..|rows| - 1], rows[|rows| - 1];
      HolidayMembers(rest, scope);
      assert HolidayKeys(rows, scope) ==
        HolidayKeys(rest, scope) + if MatchesScope(last, scope) then {last.date} else {};
      var d := HolidayDates(rest, scope);
      DatesSnoc(d, last.date);
      assert d + [] == d;
    }
  }

  lemma DatesSnoc(d: seq<int>, n: int)
    ensures Dates(d + [n]) == Dates(d) + {n}
  {
    forall i | 0 <= i < |d| ensures d[i] in Dates(d + [n]) { assert (d + [n])[i] == d[i]; }
    assert (d + [n])[|d|] == n;
  }

  lemma WindowNotEmpty(rows: seq<OffDay>, start: int, end: int)
    requires Within(rows, start, end) && rows != []
    ensures start <= end
  {
    assert start <= rows[0].date;
  }

  lemma {:induction false} ListLength(start: int, end: int, holidays: set<int>, days: set<int>)
    requires forall n :: start <= n <= end ==> (n in days <==> n in holidays && !IsFriday(n))
    ensures |DaysList(start, end, holidays)| + DayCount(start, end, Friday()) + DayCount(start, end, In(days)) ==
      if end < start then 0 else end - start + 1
    decreases end - start + 1
  {
    if start <= end { ListLength(start, end - 1, holidays, days); }
  }

  /**
   * The counted working days never exceed the listed ones, and are as many exactly when no two counted holiday rows
   * share a date, or no working day is left at all.
   */
  lemma CountedAgainstListed(start: int, end: int, rows: seq<OffDay>, scope: Scope, n: nat)
    requires Within(rows, start, end)
    requires n == DaysLeft(start, end, rows, scope)
    ensures n <= |DaysList(start, end, HolidayKeys(rows, scope))|
    ensures n == |DaysList(start, end, HolidayKeys(rows, scope))| <==>
      Distinct(HolidayDates(rows, scope)) || DaysList(start, end, HolidayKeys(rows, scope)) == []
  {
    var dates := HolidayDates(rows, scope);
    HolidayMembers(rows, scope);
    DistinctSize(dates);
    ListLength(start, end, HolidayKeys(rows, scope), Dates(dates));
    CountOfSet(start, end, Dates(dates));
    assert Inside(Dates(dates), start, end) == Dates(dates);
    if rows != [] { WindowNotEmpty(rows, start, end); }
  }

  /** Two rows for one Saturday: the count says no working day, the list holds the Sunday. */
  lemma TwoHolidaysOnOneDay(rows: seq<OffDay>)
    requires rows == [OffDay(0, None), OffDay(0, None)]
    ensures HolidayDates(rows, None) == [0, 0] && DayCount(0, 1, Friday()) == 0
    ensures DaysList(0, 1, HolidayKeys(rows, None)) == [1]
  {
    assert rows[..1] == [OffDay(0, None)] && rows[..1][..0] == [];
    assert HolidayDates(rows[..1], None) == [0];
    assert 0 in HolidayKeys(rows, None) by { assert rows[0].date == 0; }
    assert DaysList(0, 0, HolidayKeys(rows, None)) == [];
  }
}
