/**
 * Pace against the Daily Critical Number: the yearly gap, the missing value and the daily, weekly and monthly buckets
 * (`measures/criticalNumber.ts`, lines 289-310, 486-512 and 754-998).
 */
module Pace {
  import opened Prelude
  import opened Calendar
  import opened Periods
  import opened Totals
  import WorkingDays

  datatype PaceDay = PaceDay(date: int, working: bool, actual: real)

  /** The Daily Critical Number of each day. */
  type Target = int -> real

  // ---- target sums ---------------------------------------------------------------------------------------------

  /** A running sum kept as a count per distinct value. */
  class TargetSum {
    var counts: map<real, nat>
    ghost var amount: real

    ghost predicate Valid()
      reads this
    {
      amount == Total(counts.Keys, Products(counts))
    }

    constructor ()
      ensures Valid() && amount == 0.0 && counts == map[]
    {
      counts := map[];
      amount := 0.0;
    }

    method Add(value: real)
      requires Valid()
      modifies this
      ensures Valid() && amount == old(amount) + value
      ensures counts == CountedOnce(old(counts), value)
    {
      CountOneMore(counts, value);
      counts := CountedOnce(counts, value);
      amount := amount + value;
    }

    method GetTotal() returns (total: real)
      requires Valid()
      ensures total == amount
    {
      total := 0.0;
      var todo := counts.Keys;
      while todo != {}
        invariant todo <= counts.Keys
        invariant total + Total(todo, Products(counts)) == amount
        decreases todo
      {
        var value :| value in todo;
        TotalRemove(todo, value, Products(counts));
        total := total + counts[value] as real * value;
        todo := todo - {value};
      }
    }
  }

  ghost function Products(counts: map<real, nat>): real -> real {
    v => if v in counts then counts[v] as real * v else 0.0
  }

  ghost function Once(v: real): real -> real {
    k => if k == v then v else 0.0
  }

  function CountedOnce(before: map<real, nat>, v: real): map<real, nat> {
    before[v := (if v in before then before[v] else 0) + 1]
  }

  lemma ProductsStep(before: map<real, nat>, v: real, k: real)
    ensures k in CountedOnce(before, v) ==>
      Products(CountedOnce(before, v))(k) == Products(before)(k) + Once(v)(k)
  {
    if k == v { OneMore(if v in before then before[v] else 0, v); }
  }

  lemma CountOneMore(before: map<real, nat>, v: real)
    ensures Total(CountedOnce(before, v).Keys, Products(CountedOnce(before, v))) ==
      Total(before.Keys, Products(before)) + v
  {
    var keys := before.Keys + {v};
    assert CountedOnce(before, v).Keys == keys;
    forall k | k in keys ensures Products(CountedOnce(before, v))(k) == Products(before)(k) + Once(v)(k) {
      ProductsStep(before, v, k);
    }
    TotalPlus(keys, Products(before), Once(v), Products(CountedOnce(before, v)));
    TotalPoint(keys, Once(v), v, v);
    if v !in before {
      TotalRemove(keys, v, Products(before));
      assert keys - {v} == before.Keys;
    } else {
      assert keys == before.Keys;
    }
  }

  lemma OneMore(n: nat, v: real)
    ensures (n + 1) as real * v == n as real * v + v
  {
    assert (n + 1) as real == n as real + 1.0;
  }

  /** The sum of the target over some days. */
  method SumTarget(days: seq<int>, target: Target) returns (total: real)
    ensures total == SumOf(days, target)
  {
    var sum := new TargetSum();
    for i := 0 to |days|
      invariant fresh(sum) && sum.Valid() && sum.amount == SumOf(days[..i], target)
    {
      assert days[..i + 1][..i] == days[..i];
      sum.Add(DailyTargetOn(target, days[i]));
    }
    assert days[..|days|] == days;
    total := sum.GetTotal();
  }

  // ---- the pace days of a window ---------------------------------------------------------------------------------

  function ActualOn(actuals: map<int, real>, n: int): real {
    if n in actuals then actuals[n] else 0.0
  }

  function PaceDaysOf(start: int, anchor: int, holidays: set<int>, actuals: map<int, real>): seq<PaceDay>
    decreases anchor - start + 1
  {
    if anchor < start then []
    else
      PaceDaysOf(start, anchor - 1, holidays, actuals) +
      [PaceDay(anchor, WorkingDays.IsWorking(anchor, holidays), ActualOn(actuals, anchor))]
  }

  method FetchYtdPaceDays(start: int, anchor: int, rows: seq<WorkingDays.OffDay>, scope: WorkingDays.Scope,
                          actuals: map<int, real>) returns (days: seq<PaceDay>)
    ensures days == PaceDaysOf(start, anchor, WorkingDays.HolidayKeys(rows, scope), actuals)
  {
    var holidays := WorkingDays.HolidayKeys(rows, scope);
    days := [];
    var cur := start;
    while cur <= anchor
      invariant cur == start || start < cur <= anchor + 1
      invariant days == PaceDaysOf(start, cur - 1, holidays, actuals)
      decreases anchor - cur + 1
    {
      days := days + [PaceDay(cur, WorkingDays.IsWorking(cur, holidays), ActualOn(actuals, cur))];
      cur := cur + 1;
    }
  }

  predicate Ascending(days: seq<PaceDay>) {
    forall i, j :: 0 <= i < j < |days| ==> days[i].date < days[j].date
  }

  function DailyTargetOn(target: Target, n: int): real { target(n) }

  /** The target a day adds: nothing unless it is a working day. */
  function TargetOf(target: Target, d: PaceDay): real {
    if d.working then DailyTargetOn(target, d.date) else 0.0
  }

  function DayTarget(target: Target): PaceDay -> real { (d: PaceDay) => TargetOf(target, d) }

  function DayActual(): PaceDay -> real { (d: PaceDay) => d.actual }

  function WorkedDays(days: seq<PaceDay>): nat {
    if days == [] then 0 else WorkedDays(days[..|days| - 1]) + (if days[|days| - 1].working then 1 else 0)
  }

  function Expected(days: seq<PaceDay>, target: Target): real { SumOf(days, DayTarget(target)) }

  function Actual(days: seq<PaceDay>): real { SumOf(days, DayActual()) }

  /** How far the days are ahead of the target. */
  function Gap(days: seq<PaceDay>, target: Target): real { Actual(days) - Expected(days, target) }

  lemma {:induction false} PaceDaysAscend(start: int, anchor: int, holidays: set<int>, actuals: map<int, real>)
    ensures Ascending(PaceDaysOf(start, anchor, holidays, actuals))
    ensures |PaceDaysOf(start, anchor, holidays, actuals)| == if anchor < start then 0 else anchor - start + 1
    ensures forall d :: d in PaceDaysOf(start, anchor, holidays, actuals) ==> start <= d.date <= anchor
    decreases anchor - start + 1
  {
    if start <= anchor { PaceDaysAscend(start, anchor - 1, holidays, actuals); }
  }

  /** The listed working days carry exactly the target of the pace days. */
  lemma {:induction false} ListedTargetIsExpected(start: int, anchor: int, holidays: set<int>, actuals: map<int, real>,
                                                  target: Target)
    ensures SumOf(WorkingDays.DaysList(start, anchor, holidays), target) ==
      Expected(PaceDaysOf(start, anchor, holidays, actuals), target)
    decreases anchor - start + 1
  {
    if start <= anchor {
      ListedTargetIsExpected(start, anchor - 1, holidays, actuals, target);
      var listed := WorkingDays.DaysList(start, anchor - 1, holidays);
      var days := PaceDaysOf(start, anchor - 1, holidays, actuals);
      var day := PaceDay(anchor, WorkingDays.IsWorking(anchor, holidays), ActualOn(actuals, anchor));
      SumOfSnoc(days, day, DayTarget(target));
      SumOfSnoc(listed, anchor, target);
      assert listed + [] == listed;
    }
  }

  // ---- the window, by its days ------------------------------------------------------------------------------------

  /** The days of a window that carry a target: neither a Friday nor a holiday. */
  ghost function TargetDays(start: int, anchor: int, holidays: set<int>): set<int> {
    set n | start <= n <= anchor && !WorkingDays.SeventhDay(n) && n !in holidays
  }

  ghost function SalesDays(start: int, anchor: int, actuals: map<int, real>): set<int> {
    set n | n in actuals && start <= n <= anchor
  }

  ghost function SalesOn(actuals: map<int, real>): int -> real { n => if n in actuals then actuals[n] else 0.0 }

  /** Over a window, every day's sales count, and the target of every day that is neither a Friday nor a holiday. */
  lemma {:induction false} WindowIs(start: int, anchor: int, holidays: set<int>, actuals: map<int, real>,
                                    target: Target)
    ensures var days := PaceDaysOf(start, anchor, holidays, actuals);
      && Expected(days, target) == Total(TargetDays(start, anchor, holidays), target)
      && Actual(days) == Total(SalesDays(start, anchor, actuals), SalesOn(actuals))
    decreases anchor - start + 1
  {
    if anchor < start {
      assert TargetDays(start, anchor, holidays) == {} && SalesDays(start, anchor, actuals) == {};
    } else {
      WindowIs(start, anchor - 1, holidays, actuals, target);
      WorkingDays.FridaysAre(anchor);
      var days := PaceDaysOf(start, anchor - 1, holidays, actuals);
      var day := PaceDay(anchor, WorkingDays.IsWorking(anchor, holidays), ActualOn(actuals, anchor));
      SumOfSnoc(days, day, DayTarget(target));
      SumOfSnoc(days, day, DayActual());
      TotalOneMore(TargetDays(start, anchor - 1, holidays), TargetDays(start, anchor, holidays), anchor, target);
      TotalOneMore(SalesDays(start, anchor - 1, actuals), SalesDays(start, anchor, actuals), anchor, SalesOn(actuals));
    }
  }

  /** The working days of a window are those days. */
  lemma {:induction false} WorkedAre(start: int, anchor: int, holidays: set<int>, actuals: map<int, real>)
    ensures WorkedDays(PaceDaysOf(start, anchor, holidays, actuals)) == |TargetDays(start, anchor, holidays)|
    decreases anchor - start + 1
  {
    if start <= anchor {
      WorkedAre(start, anchor - 1, holidays, actuals);
      WorkingDays.FridaysAre(anchor);
      var days := PaceDaysOf(start, anchor - 1, holidays, actuals);
      var day := PaceDay(anchor, WorkingDays.IsWorking(anchor, holidays), ActualOn(actuals, anchor));
      assert (days + [day])[..|days|] == days;
      assert TargetDays(start, anchor, holidays) ==
        TargetDays(start, anchor - 1, holidays) + if day.working then {anchor} else {};
    }
  }

  // ---- the yearly counter -----------------------------------------------------------------------------------------

  datatype Counter = Counter(elapsedDays: nat, totalDays: nat, expected: real, gap: real, periodTarget: real,
                             achievement: Option<real>)

  method ComputePeriodCounter(start: int, anchor: int, end: int, elapsedRows: seq<WorkingDays.OffDay>,
                              fullRows: seq<WorkingDays.OffDay>, scope: WorkingDays.Scope, actual: real, target: Target)
      returns (c: Counter)
    requires WorkingDays.Within(elapsedRows, start, anchor) && WorkingDays.Within(fullRows, start, end)
    ensures c.expected == SumOf(WorkingDays.DaysList(start, anchor, WorkingDays.HolidayKeys(elapsedRows, scope)),
                                target)
    ensures c.periodTarget == SumOf(WorkingDays.DaysList(start, end, WorkingDays.HolidayKeys(fullRows, scope)), target)
    ensures c.gap == actual - c.expected
    ensures c.achievement == if c.expected > 0.0 then Some(actual / c.expected) else None
    ensures c.elapsedDays == WorkingDays.DaysLeft(start, anchor, elapsedRows, scope)
    ensures c.totalDays == WorkingDays.DaysLeft(start, end, fullRows, scope)
    ensures c.elapsedDays <= |WorkingDays.DaysList(start, anchor, WorkingDays.HolidayKeys(elapsedRows, scope))|
    ensures c.totalDays <= |WorkingDays.DaysList(start, end, WorkingDays.HolidayKeys(fullRows, scope))|
  {
    var elapsedCount := WorkingDays.ComputeWorkingDays(start, anchor, elapsedRows, scope);
    var fullCount := WorkingDays.ComputeWorkingDays(start, end, fullRows, scope);
    WorkingDays.CountedAgainstListed(start, anchor, elapsedRows, scope, elapsedCount);
    WorkingDays.CountedAgainstListed(start, end, fullRows, scope, fullCount);
    var elapsed := WorkingDays.ListWorkingDays(start, anchor, elapsedRows, scope);
    var full := WorkingDays.ListWorkingDays(start, end, fullRows, scope);
    var expected := SumTarget(elapsed, target);
    var whole := SumTarget(full, target);
    c := Counter(elapsedCount, fullCount, expected, actual - expected, whole,
                 if expected > 0.0 then Some(actual / expected) else None);
  }

  // ---- the missing value --------------------------------------------------------------------------------------------

  datatype Missing = Missing(value: real, days: int, expectedValue: real, expectedDays: nat,
                             running: seq<real>, monthly: map<int, real>)

  /** The missing value read off the first n days, zero while the day has no target. */
  function MissingAfter(days: seq<PaceDay>, target: Target, n: nat): real
    requires 0 < n <= |days|
  {
    if DailyTargetOn(target, days[n - 1].date) > 0.0 then -Gap(days[..n], target) else 0.0
  }

  function PerDay(value: real, target: real): real {
    if target > 0.0 then value / target else 0.0
  }

  /** The running totals of a walk over the first i days. */
  datatype Walk = Walk(expected: real, actual: real, worked: nat)

  function After(days: seq<PaceDay>, i: nat, target: Target): Walk
    requires i <= |days|
  {
    if i == 0 then Walk(0.0, 0.0, 0)
    else
      var w, d := After(days, i - 1, target), days[i - 1];
      Walk(w.expected + TargetOf(target, d), w.actual + d.actual, w.worked + (if d.working then 1 else 0))
  }

  lemma {:induction false} AfterIs(days: seq<PaceDay>, i: nat, target: Target)
    requires i <= |days|
    ensures After(days, i, target) == Walk(Expected(days[..i], target), Actual(days[..i]), WorkedDays(days[..i]))
  {
    if i > 0 {
      AfterIs(days, i - 1, target);
      Prefix(days, i - 1, target);
    }
  }

  /** The days before the one still in progress. */
  function Finished(days: seq<PaceDay>, inProgress: Option<int>): nat
    ensures Finished(days, inProgress) <= |days|
  {
    if days == [] then 0
    else if inProgress.Some? && days[|days| - 1].date >= inProgress.value then Finished(days[..|days| - 1], inProgress)
    else |days|
  }

  /** Half up, as in JavaScript. */
  function Round(x: real): int { (x + 0.5).Floor }

  /** The position after the last of the first n days that lies in a month, 0 when there is none. */
  function LastIn(days: seq<PaceDay>, month: int, n: nat): (k: nat)
    requires n <= |days|
    ensures k <= n
  {
    if n == 0 then 0
    else if MonthHolding(days[n - 1].date) == month then n
    else LastIn(days, month, n - 1)
  }

  ghost predicate MonthlyIsRight(monthly: map<int, real>, days: seq<PaceDay>, target: Target, n: nat)
    requires n <= |days|
  {
    (forall month :: month in monthly <==> LastIn(days, month, n) > 0) &&
    (forall month :: month in monthly ==> monthly[month] == MissingAfter(days, target, LastIn(days, month, n)))
  }

  lemma Prefix(days: seq<PaceDay>, i: nat, target: Target)
    requires i < |days|
    ensures Expected(days[..i + 1], target) == Expected(days[..i], target) + TargetOf(target, days[i])
    ensures Actual(days[..i + 1]) == Actual(days[..i]) + days[i].actual
    ensures WorkedDays(days[..i + 1]) == WorkedDays(days[..i]) + (if days[i].working then 1 else 0)
  {
    assert days[..i + 1][..i] == days[..i];
  }

  /** The finished days are those before the one in progress. */
  lemma {:induction false} FinishedPrefix(days: seq<PaceDay>, inProgress: Option<int>, i: nat)
    requires Ascending(days) && i < |days|
    ensures i < Finished(days, inProgress) <==> inProgress.None? || days[i].date < inProgress.value
  {
    var last := |days| - 1;
    assert days[i].date <= days[last].date;
    if inProgress.Some? && days[last].date >= inProgress.value && i < last {
      FinishedPrefix(days[..last], inProgress, i);
    }
  }

  /** How many of the first i days are finished. */
  function FinishedOf(days: seq<PaceDay>, inProgress: Option<int>, i: nat): (n: nat)
    requires i <= |days|
    ensures n <= i <= |days|
  {
    if i <= Finished(days, inProgress) then i else Finished(days, inProgress)
  }

  lemma FinishedStep(days: seq<PaceDay>, inProgress: Option<int>, i: nat)
    requires Ascending(days) && i < |days|
    ensures inProgress.Some? && days[i].date >= inProgress.value ==>
      FinishedOf(days, inProgress, i + 1) == FinishedOf(days, inProgress, i)
    ensures !(inProgress.Some? && days[i].date >= inProgress.value) ==>
      FinishedOf(days, inProgress, i) == i && FinishedOf(days, inProgress, i + 1) == i + 1
  {
    FinishedPrefix(days, inProgress, i);
  }

  lemma AfterStep(days: seq<PaceDay>, i: nat, target: Target, w: Walk)
    requires i < |days| && After(days, i, target) == w
    ensures After(days, i + 1, target) ==
      Walk(w.expected + TargetOf(target, days[i]), w.actual + days[i].actual,
           w.worked + (if days[i].working then 1 else 0))
  {
  }

  /** The running missing days, one value for each of the first n days. */
  function RunningDays(days: seq<PaceDay>, target: Target, n: nat): (r: seq<real>)
    requires n <= |days|
    ensures |r| == n
  {
    if n == 0 then []
    else
      RunningDays(days, target, n - 1) +
      [PerDay(MissingAfter(days, target, n), DailyTargetOn(target, days[n - 1].date))]
  }

  lemma MissingIs(days: seq<PaceDay>, target: Target, i: nat, cumTarget: real, cumActual: real)
    requires i < |days|
    requires cumTarget == After(days, i + 1, target).expected && cumActual == After(days, i + 1, target).actual
    ensures MissingAfter(days, target, i + 1) ==
      if DailyTargetOn(target, days[i].date) > 0.0 then cumTarget - cumActual else 0.0
  {
    AfterIs(days, i + 1, target);
  }

  /** Both trends after the first n days. */
  ghost predicate TrendsAre(running: seq<real>, monthly: map<int, real>, days: seq<PaceDay>, target: Target, n: nat)
    requires n <= |days|
  {
    running == RunningDays(days, target, n) && MonthlyIsRight(monthly, days, target, n)
  }

  lemma TrendStep(running: seq<real>, monthly: map<int, real>, days: seq<PaceDay>, target: Target, i: nat,
                  missing: real)
    requires i < |days| && TrendsAre(running, monthly, days, target, i) && missing == MissingAfter(days, target, i + 1)
    ensures TrendsAre(running + [PerDay(missing, DailyTargetOn(target, days[i].date))],
                      monthly[MonthHolding(days[i].date) := missing], days, target, i + 1)
  {
  }

  /** The part of the walk that extends both trends. */
  method NoteDay(running: seq<real>, monthly: map<int, real>, days: seq<PaceDay>, i: nat, target: Target,
                 cumTarget: real, cumActual: real)
      returns (running': seq<real>, monthly': map<int, real>)
    requires i < |days| && TrendsAre(running, monthly, days, target, i)
    requires cumTarget == After(days, i + 1, target).expected && cumActual == After(days, i + 1, target).actual
    ensures TrendsAre(running', monthly', days, target, i + 1)
  {
    var dayValue := DailyTargetOn(target, days[i].date);
    var missing := if dayValue > 0.0 then cumTarget - cumActual else 0.0;
    MissingIs(days, target, i, cumTarget, cumActual);
    TrendStep(running, monthly, days, target, i, missing);
    running' := running + [PerDay(missing, dayValue)];
    monthly' := monthly[MonthHolding(days[i].date) := missing];
  }

  /** A working day adds its target. */
  method CountDay(sum: TargetSum, day: PaceDay, target: Target, before: nat) returns (worked: nat)
    requires sum.Valid()
    modifies sum
    ensures sum.Valid() && sum.amount == old(sum.amount) + TargetOf(target, day)
    ensures worked == before + (if day.working then 1 else 0)
  {
    worked := before;
    if day.working {
      worked := worked + 1;
      sum.Add(DailyTargetOn(target, day.date));
    }
  }

  lemma FinishedAll(days: seq<PaceDay>, inProgress: Option<int>)
    ensures FinishedOf(days, inProgress, |days|) == Finished(days, inProgress)
  {
  }

  /** One day of the walk. */
  method WalkDay(sum: TargetSum, days: seq<PaceDay>, i: nat, target: Target, inProgress: Option<int>,
                 actualBefore: real, workedBefore: nat, runningBefore: seq<real>, monthlyBefore: map<int, real>)
      returns (cumActual: real, worked: nat, running: seq<real>, monthly: map<int, real>)
    requires Ascending(days) && i < |days| && sum.Valid()
    requires After(days, i, target) == Walk(sum.amount, actualBefore, workedBefore)
    requires TrendsAre(runningBefore, monthlyBefore, days, target, FinishedOf(days, inProgress, i))
    modifies sum
    ensures sum.Valid() && After(days, i + 1, target) == Walk(sum.amount, cumActual, worked)
    ensures TrendsAre(running, monthly, days, target, FinishedOf(days, inProgress, i + 1))
  {
    var day := days[i];
    FinishedStep(days, inProgress, i);
    AfterStep(days, i, target, Walk(sum.amount, actualBefore, workedBefore));
    cumActual := actualBefore + day.actual;
    worked := CountDay(sum, day, target, workedBefore);
    running, monthly := runningBefore, monthlyBefore;
    if inProgress.Some? && day.date >= inProgress.value { return; }
    var cumTarget := sum.GetTotal();
    running, monthly := NoteDay(running, monthly, days, i, target, cumTarget, cumActual);
  }

  /** The walk over all days: its totals, and both trends up to the day in progress. */
  method WalkDays(days: seq<PaceDay>, target: Target, inProgress: Option<int>)
      returns (walk: Walk, running: seq<real>, monthly: map<int, real>)
    requires Ascending(days)
    ensures walk == After(days, |days|, target)
    ensures TrendsAre(running, monthly, days, target, Finished(days, inProgress))
  {
    var worked, cumActual := 0, 0.0;
    var sum := new TargetSum();
    running, monthly := [], map[];
    for i := 0 to |days|
      invariant fresh(sum) && sum.Valid()
      invariant After(days, i, target) == Walk(sum.amount, cumActual, worked)
      invariant TrendsAre(running, monthly, days, target, FinishedOf(days, inProgress, i))
    {
      cumActual, worked, running, monthly :=
        WalkDay(sum, days, i, target, inProgress, cumActual, worked, running, monthly);
    }
    FinishedAll(days, inProgress);
    var total := sum.GetTotal();
    walk := Walk(total, cumActual, worked);
  }

  method ComputeMissingSummary(days: seq<PaceDay>, anchor: int, target: Target, inProgress: Option<int>)
      returns (m: Missing)
    requires Ascending(days)
    ensures m.expectedValue == Expected(days, target) && m.expectedDays == WorkedDays(days)
    ensures m.value == if DailyTargetOn(target, anchor) > 0.0 then -Gap(days, target) else 0.0
    ensures m.days ==
      if DailyTargetOn(target, anchor) > 0.0 then Round(PerDay(m.value, DailyTargetOn(target, anchor))) else 0
    ensures TrendsAre(m.running, m.monthly, days, target, Finished(days, inProgress))
  {
    var walk, running, monthly := WalkDays(days, target, inProgress);
    AfterIs(days, |days|, target);
    assert days[..|days|] == days;
    var anchorValue := DailyTargetOn(target, anchor);
    var value := if anchorValue > 0.0 then walk.expected - walk.actual else 0.0;
    m := Missing(value, if anchorValue > 0.0 then Round(PerDay(value, anchorValue)) else 0, walk.expected, walk.worked,
                 running, monthly);
  }

  // ---- the trends, day by day ---------------------------------------------------------------------------------------

  /** What is missing after the first n days, when the last of them has a target. */
  predicate IsMissing(value: real, days: seq<PaceDay>, target: Target, n: nat)
    requires 0 < n <= |days|
  {
    if target(days[n - 1].date) > 0.0 then value == Expected(days[..n], target) - Actual(days[..n]) else value == 0.0
  }

  lemma MissingSays(days: seq<PaceDay>, target: Target, n: nat)
    requires 0 < n <= |days|
    ensures IsMissing(MissingAfter(days, target, n), days, target, n)
  {
  }

  /** An entry of the running trend is what is missing so far, in days of its day's target. */
  lemma RunningEntry(running: seq<real>, days: seq<PaceDay>, target: Target, n: nat, i: nat, t: real)
    requires i < n <= |days| && running == RunningDays(days, target, n) && t == target(days[i].date)
    ensures t > 0.0 ==> IsMissing(running[i] * t, days, target, i + 1)
    ensures t <= 0.0 ==> running[i] == 0.0
  {
    var v := MissingAfter(days, target, i + 1);
    MissingSays(days, target, i + 1);
    RunningAt(days, target, n, i);
    PerDayTimes(v, t);
    assert t > 0.0 ==> running[i] * t == v;
  }

  /** The monthly trend has one entry per month with a finished day: what was missing on the last of them. */
  lemma MonthlySays(running: seq<real>, monthly: map<int, real>, days: seq<PaceDay>, target: Target,
                    inProgress: Option<int>, i: nat)
    requires Ascending(days) && i < |running| <= |days|
    requires TrendsAre(running, monthly, days, target, Finished(days, inProgress))
    ensures MonthHolding(days[i].date) in monthly
    ensures (forall j :: i < j < |running| ==> MonthHolding(days[j].date) != MonthHolding(days[i].date)) ==>
      IsMissing(monthly[MonthHolding(days[i].date)], days, target, i + 1)
  {
    LastInIs(days, MonthHolding(days[i].date), |running|, i);
  }

  lemma {:induction false} RunningAt(days: seq<PaceDay>, target: Target, n: nat, i: nat)
    requires i < n <= |days|
    ensures RunningDays(days, target, n)[i] ==
      PerDay(MissingAfter(days, target, i + 1), DailyTargetOn(target, days[i].date))
  {
    if i < n - 1 { RunningAt(days, target, n - 1, i); }
  }

  lemma PerDayTimes(value: real, target: real)
    ensures if target > 0.0 then PerDay(value, target) * target == value else PerDay(value, target) == 0.0
  {
  }

  lemma {:induction false} LastInIs(days: seq<PaceDay>, month: int, n: nat, i: nat)
    requires i < n <= |days| && MonthHolding(days[i].date) == month
    ensures LastIn(days, month, n) > i
    ensures (forall j :: i < j < n ==> MonthHolding(days[j].date) != month) ==> LastIn(days, month, n) == i + 1
  {
    if MonthHolding(days[n - 1].date) != month { LastInIs(days, month, n - 1, i); }
  }

  /** The missing days are the missing value in days of the anchor's target, to the nearest, a half going up. */
  lemma RoundIs(days: int, value: real, target: real)
    requires target > 0.0 && days == Round(PerDay(value, target))
    ensures (days as real - 0.5) * target <= value < (days as real + 0.5) * target
  {
    var x := PerDay(value, target);
    PerDayTimes(value, target);
    assert days as real <= x + 0.5 < days as real + 1.0;
    TimesKeepsOrder(days as real - 0.5, x, target);
    TimesKeepsOrder(x, days as real + 0.5, target);
  }

  lemma TimesKeepsOrder(a: real, b: real, t: real)
    requires t > 0.0
    ensures a <= b ==> a * t <= b * t
    ensures a < b ==> a * t < b * t
  {
  }

  // ---- the buckets --------------------------------------------------------------------------------------------------

  datatype Bucket = Bucket(start: int, end: int, workingDays: nat, target: real, actual: real, cumTarget: real,
                           cumActual: real, inProgress: bool)

  datatype Trend = Trend(bucket: Bucket, gap: real, gapDays: real, cumGap: real, cumGapDays: real)

  /** The day positions at which buckets begin, and the end. */
  predicate AreCuts(cuts: seq<nat>, n: nat, buckets: nat) {
    |cuts| == buckets + 1 && cuts[0] == 0 && cuts[buckets] == n &&
    forall i, j :: 0 <= i < j <= buckets ==> cuts[i] < cuts[j]
  }

  /** A bucket covers the days from position a to b: all of one period, with the sums up to its last day. */
  predicate Covers(b: Bucket, days: seq<PaceDay>, a: nat, end: nat, g: Grain, target: Target, inProgress: Option<int>)
    requires a < end <= |days|
  {
    b.start == days[a].date && b.end == days[end - 1].date &&
    PeriodNo(g, b.start) == PeriodNo(g, b.end) &&
    b.workingDays == WorkedDays(days[a..end]) &&
    b.target == Expected(days[a..end], target) &&
    b.actual == Actual(days[a..end]) &&
    b.cumTarget == Expected(days[..end], target) &&
    b.cumActual == Actual(days[..end]) &&
    (b.inProgress <==> inProgress.Some? && exists i :: a <= i < end && days[i].date == inProgress.value)
  }

  /**
   * The buckets cut the first n days into consecutive runs, one per period, whose columns are the sums of their days
   * and whose cumulative columns are the sums of all days so far.
   */
  predicate IsBucketingTo(buckets: seq<Bucket>, cuts: seq<nat>, days: seq<PaceDay>, n: nat, g: Grain, target: Target,
                          inProgress: Option<int>)
    requires n <= |days|
  {
    AreCuts(cuts, n, |buckets|) &&
    (forall j :: 0 <= j < |buckets| ==> Covers(buckets[j], days, cuts[j], cuts[j + 1], g, target, inProgress)) &&
    (forall i, j :: 0 <= i < j < |buckets| ==> PeriodNo(g, buckets[i].start) < PeriodNo(g, buckets[j].start))
  }

  predicate IsBucketing(buckets: seq<Bucket>, cuts: seq<nat>, days: seq<PaceDay>, g: Grain, target: Target,
                        inProgress: Option<int>)
  {
    IsBucketingTo(buckets, cuts, days, |days|, g, target, inProgress)
  }

  lemma SliceGrows(days: seq<PaceDay>, a: nat, i: nat, target: Target)
    requires a <= i < |days|
    ensures Expected(days[a..i + 1], target) == Expected(days[a..i], target) + TargetOf(target, days[i])
    ensures Actual(days[a..i + 1]) == Actual(days[a..i]) + days[i].actual
    ensures WorkedDays(days[a..i + 1]) == WorkedDays(days[a..i]) + (if days[i].working then 1 else 0)
  {
    assert days[a..i + 1][..i - a] == days[a..i];
  }

  function AddDay(b: Bucket, day: PaceDay, dayTarget: real, cumTarget: real, cumActual: real,
                  inProgress: Option<int>): Bucket
  {
    Bucket(b.start, day.date, b.workingDays + (if day.working then 1 else 0), b.target + dayTarget,
           b.actual + day.actual, cumTarget, cumActual,
           b.inProgress || (inProgress.Some? && day.date == inProgress.value))
  }

  lemma ExtendsCover(b: Bucket, days: seq<PaceDay>, a: nat, i: nat, g: Grain, target: Target, inProgress: Option<int>)
    requires a < i < |days| && Covers(b, days, a, i, g, target, inProgress)
    requires PeriodNo(g, days[i].date) == PeriodNo(g, b.start)
    ensures Covers(AddDay(b, days[i], TargetOf(target, days[i]), Expected(days[..i + 1], target), Actual(days[..i + 1]),
                          inProgress),
                   days, a, i + 1, g, target, inProgress)
  {
    SliceGrows(days, a, i, target);
  }

  lemma StartsCover(days: seq<PaceDay>, i: nat, g: Grain, target: Target, inProgress: Option<int>)
    requires i < |days|
    ensures Covers(AddDay(Bucket(days[i].date, days[i].date, 0, 0.0, 0.0, 0.0, 0.0, false), days[i],
                          TargetOf(target, days[i]),
                          Expected(days[..i + 1], target), Actual(days[..i + 1]), inProgress),
                   days, i, i + 1, g, target, inProgress)
  {
    SliceGrows(days, i, i, target);
    assert days[i..i] == [];
  }

  /** The index by key points at every bucket. */
  predicate IsIndex(byKey: map<int, nat>, buckets: seq<Bucket>, g: Grain) {
    (forall k :: k in byKey ==> byKey[k] < |buckets| && PeriodNo(g, buckets[byKey[k]].start) == k) &&
    (forall j :: 0 <= j < |buckets| ==> PeriodNo(g, buckets[j].start) in byKey)
  }

  lemma LaterDayIsInLastOrNew(buckets: seq<Bucket>, cuts: seq<nat>, byKey: map<int, nat>, days: seq<PaceDay>, i: nat,
                              g: Grain, target: Target, inProgress: Option<int>)
    requires Ascending(days) && i < |days| && IsBucketingTo(buckets, cuts, days, i, g, target, inProgress)
    requires IsIndex(byKey, buckets, g)
    ensures var k := PeriodNo(g, days[i].date);
      if k in byKey then |buckets| > 0 && byKey[k] == |buckets| - 1
      else forall j :: 0 <= j < |buckets| ==> PeriodNo(g, buckets[j].start) < k
  {
    if buckets != [] {
      var last := |buckets| - 1;
      assert Covers(buckets[last], days, cuts[last], cuts[last + 1], g, target, inProgress);
      NumbersGrow(g, buckets[last].end, days[i].date);
    }
  }

  lemma NewBucket(buckets: seq<Bucket>, cuts: seq<nat>, byKey: map<int, nat>, days: seq<PaceDay>, i: nat, g: Grain,
                  target: Target, inProgress: Option<int>, b: Bucket)
    requires i < |days| && IsBucketingTo(buckets, cuts, days, i, g, target, inProgress) && IsIndex(byKey, buckets, g)
    requires Covers(b, days, i, i + 1, g, target, inProgress)
    requires forall j :: 0 <= j < |buckets| ==> PeriodNo(g, buckets[j].start) < PeriodNo(g, b.start)
    ensures IsBucketingTo(buckets + [b], cuts + [i + 1], days, i + 1, g, target, inProgress)
    ensures IsIndex(byKey[PeriodNo(g, b.start) := |buckets|], buckets + [b], g)
  {
  }

  lemma GrownBucket(buckets: seq<Bucket>, cuts: seq<nat>, byKey: map<int, nat>, days: seq<PaceDay>, i: nat, g: Grain,
                    target: Target, inProgress: Option<int>, b: Bucket)
    requires i < |days| && IsBucketingTo(buckets, cuts, days, i, g, target, inProgress) && IsIndex(byKey, buckets, g)
    requires |buckets| > 0 && Covers(b, days, cuts[|buckets| - 1], i + 1, g, target, inProgress)
    requires b.start == buckets[|buckets| - 1].start
    ensures IsBucketingTo(buckets[|buckets| - 1 := b], cuts[|buckets| := i + 1], days, i + 1, g, target, inProgress)
    ensures IsIndex(byKey, buckets[|buckets| - 1 := b], g)
  {
  }

  /** The day's own bucket: the last one, or a new one. */
  method PlaceDay(before: seq<Bucket>, ghost cutsBefore: seq<nat>, byKeyBefore: map<int, nat>, days: seq<PaceDay>,
                  i: nat, g: Grain, target: Target, inProgress: Option<int>, cumTarget: real, cumActual: real)
      returns (periods: seq<Bucket>, ghost cuts: seq<nat>, byKey: map<int, nat>)
    requires Ascending(days) && i < |days| && IsBucketingTo(before, cutsBefore, days, i, g, target, inProgress)
    requires IsIndex(byKeyBefore, before, g)
    requires cumTarget == After(days, i + 1, target).expected && cumActual == After(days, i + 1, target).actual
    ensures IsBucketingTo(periods, cuts, days, i + 1, g, target, inProgress) && IsIndex(byKey, periods, g)
  {
    var day := days[i];
    var key := PeriodNo(g, day.date);
    var dayTarget := if day.working then DailyTargetOn(target, day.date) else 0.0;
    AfterIs(days, i + 1, target);
    LaterDayIsInLastOrNew(before, cutsBefore, byKeyBefore, days, i, g, target, inProgress);
    if key !in byKeyBefore {
      var b := AddDay(Bucket(day.date, day.date, 0, 0.0, 0.0, 0.0, 0.0, false), day, dayTarget, cumTarget, cumActual,
                      inProgress);
      StartsCover(days, i, g, target, inProgress);
      NewBucket(before, cutsBefore, byKeyBefore, days, i, g, target, inProgress, b);
      periods, cuts, byKey := before + [b], cutsBefore + [i + 1], byKeyBefore[key := |before|];
    } else {
      var j := byKeyBefore[key];
      var b := AddDay(before[j], day, dayTarget, cumTarget, cumActual, inProgress);
      ExtendsCover(before[j], days, cutsBefore[j], i, g, target, inProgress);
      GrownBucket(before, cutsBefore, byKeyBefore, days, i, g, target, inProgress, b);
      periods, cuts, byKey := before[j := b], cutsBefore[|before| := i + 1], byKeyBefore;
    }
  }

  function BucketsOf(trend: seq<Trend>): (buckets: seq<Bucket>)
    ensures |buckets| == |trend|
  {
    seq(|trend|, j requires 0 <= j < |trend| => trend[j].bucket)
  }

  /** The rows of a view: a bucketing of the days, with the gap columns of each bucket. */
  ghost predicate IsTrend(trend: seq<Trend>, days: seq<PaceDay>, g: Grain, target: Target, inProgress: Option<int>) {
    (forall j :: 0 <= j < |trend| ==> trend[j] == TrendOf(trend[j].bucket, target)) &&
    exists cuts :: IsBucketing(BucketsOf(trend), cuts, days, g, target, inProgress)
  }

  method BucketPaceDays(days: seq<PaceDay>, target: Target, g: Grain, inProgress: Option<int>)
    returns (trend: seq<Trend>)
    requires Ascending(days)
    ensures IsTrend(trend, days, g, target, inProgress)
  {
    var periods: seq<Bucket> := [];
    var byKey: map<int, nat> := map[];
    var cumTarget, cumActual := 0.0, 0.0;
    ghost var cuts: seq<nat> := [0];
    for i := 0 to |days|
      invariant IsBucketingTo(periods, cuts, days, i, g, target, inProgress) && IsIndex(byKey, periods, g)
      invariant After(days, i, target).expected == cumTarget && After(days, i, target).actual == cumActual
    {
      var day := days[i];
      cumTarget := cumTarget + (if day.working then DailyTargetOn(target, day.date) else 0.0);
      cumActual := cumActual + day.actual;
      periods, cuts, byKey := PlaceDay(periods, cuts, byKey, days, i, g, target, inProgress, cumTarget, cumActual);
    }
    trend := FinishBuckets(periods, target);
    assert BucketsOf(trend) == periods;
    assert IsBucketing(BucketsOf(trend), cuts, days, g, target, inProgress);
  }

  /** The gap columns, filled in once all days are walked. */
  method FinishBuckets(buckets: seq<Bucket>, target: Target) returns (trend: seq<Trend>)
    ensures |trend| == |buckets| && forall j :: 0 <= j < |trend| ==> trend[j] == TrendOf(buckets[j], target)
  {
    trend := [];
    for j := 0 to |buckets|
      invariant |trend| == j && forall p :: 0 <= p < j ==> trend[p] == TrendOf(buckets[p], target)
    {
      trend := trend + [TrendOf(buckets[j], target)];
    }
  }

  function TrendOf(b: Bucket, target: Target): Trend {
    var gap, cumGap := b.actual - b.target, b.cumActual - b.cumTarget;
    Trend(b, gap, PerDay(gap, DailyTargetOn(target, b.end)), cumGap, PerDay(cumGap, DailyTargetOn(target, b.end)))
  }

  /** The gap columns of a row: actual less target, and the same in days of the target of the row's last day. */
  lemma ColumnsAre(trend: seq<Trend>, days: seq<PaceDay>, g: Grain, target: Target, inProgress: Option<int>, j: nat)
    requires IsTrend(trend, days, g, target, inProgress) && j < |trend|
    ensures var b := trend[j].bucket;
      && trend[j].gap + b.target == b.actual && trend[j].cumGap + b.cumTarget == b.cumActual
      && if target(b.end) > 0.0
         then trend[j].gapDays * target(b.end) == trend[j].gap && trend[j].cumGapDays * target(b.end) == trend[j].cumGap
         else trend[j].gapDays == 0.0 && trend[j].cumGapDays == 0.0
  {
    var b := trend[j].bucket;
    PerDayTimes(b.actual - b.target, target(b.end));
    PerDayTimes(b.cumActual - b.cumTarget, target(b.end));
  }

  // ---- agreement --------------------------------------------------------------------------------------------------

  lemma {:induction false} SumOfSlices(days: seq<PaceDay>, a: nat, b: nat, f: PaceDay -> real)
    requires a <= b <= |days|
    ensures SumOf(days[..b], f) == SumOf(days[..a], f) + SumOf(days[a..b], f)
  {
    assert days[..b] == days[..a] + days[a..b];
    SumOfConcat(days[..a], days[a..b], f);
  }

  function BucketTarget(): Bucket -> real { (b: Bucket) => b.target }
  function BucketActual(): Bucket -> real { (b: Bucket) => b.actual }

  /** The cumulative columns are the prefix sums of the columns. */
  lemma {:induction false} CumulativeIsPrefixSum(buckets: seq<Bucket>, cuts: seq<nat>, days: seq<PaceDay>, g: Grain,
                                                 target: Target, inProgress: Option<int>, j: nat)
    requires IsBucketing(buckets, cuts, days, g, target, inProgress) && j < |buckets|
    ensures buckets[j].cumTarget == SumOf(buckets[..j + 1], BucketTarget())
    ensures buckets[j].cumActual == SumOf(buckets[..j + 1], BucketActual())
  {
    assert buckets[..j + 1][..j] == buckets[..j];
    assert Covers(buckets[j], days, cuts[j], cuts[j + 1], g, target, inProgress);
    SumOfSlices(days, cuts[j], cuts[j + 1], DayTarget(target));
    SumOfSlices(days, cuts[j], cuts[j + 1], DayActual());
    if j > 0 {
      CumulativeIsPrefixSum(buckets, cuts, days, g, target, inProgress, j - 1);
      assert Covers(buckets[j - 1], days, cuts[j - 1], cuts[j], g, target, inProgress);
    } else {
      assert days[..0] == [];
    }
  }

  /** Whatever the grain, the last cumulative gap is the gap of all days. */
  lemma LastGap(buckets: seq<Bucket>, cuts: seq<nat>, days: seq<PaceDay>, g: Grain, target: Target,
                inProgress: Option<int>)
    requires IsBucketing(buckets, cuts, days, g, target, inProgress)
    ensures buckets == [] <==> days == []
    ensures days != [] ==> TrendOf(buckets[|buckets| - 1], target).cumGap == Gap(days, target)
  {
    if buckets != [] {
      var last := |buckets| - 1;
      assert Covers(buckets[last], days, cuts[last], cuts[last + 1], g, target, inProgress);
      assert days[..|days|] == days;
    }
  }

  lemma LastGapOfTrend(trend: seq<Trend>, days: seq<PaceDay>, g: Grain, target: Target, inProgress: Option<int>)
    requires IsTrend(trend, days, g, target, inProgress) && days != []
    ensures trend != [] && trend[|trend| - 1].cumGap == Gap(days, target)
  {
    var cuts :| IsBucketing(BucketsOf(trend), cuts, days, g, target, inProgress);
    LastGap(BucketsOf(trend), cuts, days, g, target, inProgress);
  }

  /** The yearly counter's gap is the gap of the pace days, when both read the same sales. */
  lemma YearlyGapAgrees(c: Counter, start: int, anchor: int, holidays: set<int>, actuals: map<int, real>, actual: real,
                        target: Target)
    requires c.expected == SumOf(WorkingDays.DaysList(start, anchor, holidays), target) && c.gap == actual - c.expected
    requires actual == Actual(PaceDaysOf(start, anchor, holidays, actuals))
    ensures c.gap == Gap(PaceDaysOf(start, anchor, holidays, actuals), target)
  {
    ListedTargetIsExpected(start, anchor, holidays, actuals, target);
  }

  /** The missing value is the negated gap exactly when the anchor has a target, or nothing is missing. */
  lemma MissingAgreesIff(value: real, days: seq<PaceDay>, anchor: int, target: Target)
    requires value == if DailyTargetOn(target, anchor) > 0.0 then -Gap(days, target) else 0.0
    ensures value == -Gap(days, target) <==> DailyTargetOn(target, anchor) > 0.0 || Gap(days, target) == 0.0
  {
  }

  /** A target until yesterday and none today: the gap is 5 behind, the missing value says 0. */
  lemma NoTargetHidesTheGap(days: seq<PaceDay>, target: Target, value: real)
    requires days == [PaceDay(0, true, 0.0), PaceDay(1, true, 0.0)]
    requires DailyTargetOn(target, 0) == 5.0 && DailyTargetOn(target, 1) == 0.0
    requires value == if DailyTargetOn(target, 1) > 0.0 then -Gap(days, target) else 0.0
    ensures Gap(days, target) == -5.0 && value == 0.0
  {
    var first := [PaceDay(0, true, 0.0)];
    assert days[..1] == first && first[..0] == [];
    assert SumOf(first[..0], DayTarget(target)) == 0.0 && SumOf(first[..0], DayActual()) == 0.0;
    assert SumOf(first, DayTarget(target)) == 5.0 && SumOf(first, DayActual()) == 0.0;
    assert Expected(days, target) == SumOf(first, DayTarget(target)) + TargetOf(target, days[1]);
    assert Actual(days) == SumOf(first, DayActual()) + days[1].actual;
  }

  /** All routes for one request: the yearly counter, the missing value and the three bucketings. */
  method ComputeOverview(start: int, anchor: int, end: int, rows: seq<WorkingDays.OffDay>,
                         fullRows: seq<WorkingDays.OffDay>, scope: WorkingDays.Scope, actuals: map<int, real>,
                         actual: real, target: Target, inProgress: Option<int>)
      returns (c: Counter, m: Missing, daily: seq<Trend>, weekly: seq<Trend>, monthly: seq<Trend>)
    requires start <= anchor
    requires WorkingDays.Within(rows, start, anchor) && WorkingDays.Within(fullRows, start, end)
    requires actual == Actual(PaceDaysOf(start, anchor, WorkingDays.HolidayKeys(rows, scope), actuals))
    ensures daily != [] && weekly != [] && monthly != []
    ensures daily[|daily| - 1].cumGap == weekly[|weekly| - 1].cumGap == monthly[|monthly| - 1].cumGap == c.gap
    ensures m.value == -c.gap <==> DailyTargetOn(target, anchor) > 0.0 || c.gap == 0.0
    ensures m.expectedValue == c.expected
  {
    var holidays := WorkingDays.HolidayKeys(rows, scope);
    c := ComputePeriodCounter(start, anchor, end, rows, fullRows, scope, actual, target);
    var days := FetchYtdPaceDays(start, anchor, rows, scope, actuals);
    PaceDaysAscend(start, anchor, holidays, actuals);
    m := ComputeMissingSummary(days, anchor, target, inProgress);
    daily := BucketPaceDays(days, target, Day, inProgress);
    LastGapOfTrend(daily, days, Day, target, inProgress);
    weekly := BucketPaceDays(days, target, Week, inProgress);
    LastGapOfTrend(weekly, days, Week, target, inProgress);
    monthly := BucketPaceDays(days, target, Month, inProgress);
    LastGapOfTrend(monthly, days, Month, target, inProgress);
    YearlyGapAgrees(c, start, anchor, holidays, actuals, actual, target);
    MissingAgreesIff(m.value, days, anchor, target);
    ListedTargetIsExpected(start, anchor, holidays, actuals, target);
  }
}
