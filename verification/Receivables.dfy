/** Weekly receivables report: `ar_weekly/engine.py`. Amounts are integer cents of the document currency,
  * so rounding to two places and the half-cent tolerance are exact; dates are day numbers. */
module Receivables {
  import opened Prelude
  import opened Sums

  datatype Kind = Invoice | Credit
  datatype Settle = Cash | CreditNote | Other
  datatype Line = Line(id: nat, kind: Kind, date: int, due: int, residual: int)
  datatype Partial = Partial(debitLine: nat, creditLine: nat, amtDebit: int, amtCredit: int, maxDate: int,
                             settle: Settle)
  datatype Bucket = Bucket(key: int, low: int, high: Option<int>)

  // ---- a balance on a past date ------------------------------------------------------------------------

  function DebitTerm(id: nat, d: int): Partial -> int {
    (p: Partial) => if p.debitLine == id && p.maxDate > d then p.amtDebit else 0
  }

  function CreditTerm(id: nat, d: int): Partial -> int {
    (p: Partial) => if p.creditLine == id && p.maxDate > d then p.amtCredit else 0
  }

  /** Money reconciled after day `d` against line `id` as the debit side. */
  function DebitedAfter(partials: seq<Partial>, id: nat, d: int): int {
    Sum(partials, DebitTerm(id, d))
  }

  function CreditedAfter(partials: seq<Partial>, id: nat, d: int): int {
    Sum(partials, CreditTerm(id, d))
  }

  /** `residual_at`: the balance now plus what was reconciled later; nothing before the line's own date. */
  function ResidualAt(l: Line, partials: seq<Partial>, d: int): int {
    if l.date <= d then l.residual + DebitedAfter(partials, l.id, d) - CreditedAfter(partials, l.id, d) else 0
  }

  function BucketFor(days: int, buckets: seq<Bucket>): int
    requires buckets != []
  {
    if days <= 0 then 0
    else if exists i :: 0 <= i < |buckets| && InBucket(days, buckets[i]) then FirstBucket(days, buckets).key
    else buckets[|buckets| - 1].key
  }

  predicate InBucket(days: int, b: Bucket) {
    days >= b.low && (b.high.None? || days <= b.high.value)
  }

  function FirstBucket(days: int, buckets: seq<Bucket>): (b: Bucket)
    requires exists i :: 0 <= i < |buckets| && InBucket(days, buckets[i])
    ensures b in buckets && InBucket(days, b)
    ensures exists i :: IsFirst(days, buckets, i) && buckets[i] == b
  {
    if InBucket(days, buckets[0]) then
      assert IsFirst(days, buckets, 0);
      buckets[0]
    else
      assert exists i :: 0 <= i < |buckets[1..]| && InBucket(days, buckets[1..][i]) by {
        var i :| 0 <= i < |buckets| && InBucket(days, buckets[i]);
        assert buckets[1..][i - 1] == buckets[i];
      }
      var b := FirstBucket(days, buckets[1..]);
      assert exists i :: IsFirst(days, buckets, i) && buckets[i] == b by {
        var i :| IsFirst(days, buckets[1..], i) && buckets[1..][i] == b;
        assert forall j :: 1 <= j < i + 1 ==> buckets[j] == buckets[1..][j - 1];
        assert IsFirst(days, buckets, i + 1);
      }
      b
  }

  /** Position i is the first bucket that holds the days. */
  predicate IsFirst(days: int, buckets: seq<Bucket>, i: int) {
    0 <= i < |buckets| && InBucket(days, buckets[i]) && forall j :: 0 <= j < i ==> !InBucket(days, buckets[j])
  }

  /** Not late: 0; late: the first bucket that holds the days; none holds them: the last bucket. */
  lemma BucketForIs(days: int, buckets: seq<Bucket>)
    requires buckets != []
    ensures days <= 0 ==> BucketFor(days, buckets) == 0
    ensures days > 0 ==> forall i :: IsFirst(days, buckets, i) ==> BucketFor(days, buckets) == buckets[i].key
    ensures days > 0 && (forall b :: b in buckets ==> !InBucket(days, b)) ==>
      BucketFor(days, buckets) == buckets[|buckets| - 1].key
  {
    if days > 0 {
      forall i | IsFirst(days, buckets, i) ensures BucketFor(days, buckets) == buckets[i].key {
        var j :| IsFirst(days, buckets, j) && buckets[j] == FirstBucket(days, buckets);
      }
    }
  }

  /** By the bounds: the bucket whose range holds the late days, when no bucket before it does. */
  lemma BucketByBounds(days: int, buckets: seq<Bucket>, i: nat)
    requires days > 0 && i < |buckets|
    requires buckets[i].low <= days && (buckets[i].high == None || days <= buckets[i].high.value)
    requires forall j :: 0 <= j < i ==>
      days < buckets[j].low || (buckets[j].high.Some? && buckets[j].high.value < days)
    ensures BucketFor(days, buckets) == buckets[i].key
  {
    BucketForIs(days, buckets);
    assert IsFirst(days, buckets, i);
  }

  // ---- one week's movement ------------------------------------------------------------------------------

  predicate IsOverdue(l: Line, partials: seq<Partial>, d: int) {
    l.kind == Invoice && l.due < d && ResidualAt(l, partials, d) > 0
  }

  function BalanceTerm(partials: seq<Partial>, d: int): Line -> int {
    (l: Line) => ResidualAt(l, partials, d)
  }

  function OverdueTest(partials: seq<Partial>, d: int): Line -> bool {
    (l: Line) => IsOverdue(l, partials, d)
  }

  function NotIn(ids: set<nat>): Line -> bool {
    (l: Line) => l.id !in ids
  }

  function IsInvoice(): Line -> bool {
    (l: Line) => l.kind == Invoice
  }

  function OverdueLines(lines: seq<Line>, partials: seq<Partial>, d: int): seq<Line> {
    Filter(lines, OverdueTest(partials, d))
  }

  function Overdue(lines: seq<Line>, partials: seq<Partial>, d: int): int {
    Sum(OverdueLines(lines, partials, d), BalanceTerm(partials, d))
  }

  function Ids(lines: seq<Line>): set<nat> {
    set l | l in lines :: l.id
  }

  function AppliedTerm(id: nat, w0: int, w1: int): Partial -> int {
    (p: Partial) => if p.debitLine == id && w0 < p.maxDate <= w1 then p.amtDebit else 0
  }

  /** Money applied between `w0` (exclusive) and `w1` (inclusive) to one line. */
  function Applied(partials: seq<Partial>, id: nat, w0: int, w1: int): int {
    Sum(partials, AppliedTerm(id, w0, w1))
  }

  function WindowTerm(ids: set<nat>, w0: int, w1: int): Partial -> int {
    (p: Partial) => if p.debitLine in ids && w0 < p.maxDate <= w1 then p.amtDebit else 0
  }

  function ClassTerm(ids: set<nat>, w0: int, w1: int, settle: Settle): Partial -> int {
    (p: Partial) => if p.debitLine in ids && w0 < p.maxDate <= w1 && p.settle == settle then p.amtDebit else 0
  }

  /** Money of one settlement class applied in the week to a set of lines. */
  function AppliedBy(partials: seq<Partial>, ids: set<nat>, w0: int, w1: int, settle: Settle): int {
    Sum(partials, ClassTerm(ids, w0, w1, settle))
  }

  datatype WeekResult = WeekResult(
    startOverdue: int, collectedOverdue: int, creditNotesOverdue: int, otherOverdue: int, collectedTotal: int,
    newOverdue: int, endOverdue: int, unexplained: int)
  {
    function Adjustments(): int { creditNotesOverdue + otherOverdue }
    function Remaining(): int { startOverdue - collectedOverdue - Adjustments() }
  }

  function WeekOf(lines: seq<Line>, partials: seq<Partial>, w0: int, w1: int): WeekResult {
    var startSet := Ids(OverdueLines(lines, partials, w0));
    var start, end := Overdue(lines, partials, w0), Overdue(lines, partials, w1);
    var newly := Sum(Filter(OverdueLines(lines, partials, w1), NotIn(startSet)), BalanceTerm(partials, w1));
    var cash := AppliedBy(partials, startSet, w0, w1, Cash);
    var notes := AppliedBy(partials, startSet, w0, w1, CreditNote);
    var other := AppliedBy(partials, startSet, w0, w1, Other);
    var invoices := Ids(Filter(lines, IsInvoice()));
    WeekResult(start, cash, notes, other, AppliedBy(partials, invoices, w0, w1, Cash), newly, end,
               start - cash - notes - other + newly - end)
  }

  /** The report's weeks: week k ends 7k days before the report date. */
  function Weeks(lines: seq<Line>, partials: seq<Partial>, asOf: int, n: nat): seq<WeekResult> {
    seq(n, k requires 0 <= k < n => WeekOf(lines, partials, asOf - 7 * (k + 1), asOf - 7 * k))
  }

  // ---- the ledger conditions the identities need -------------------------------------------------------------

  predicate DistinctIds(lines: seq<Line>) {
    forall i, j :: 0 <= i < j < |lines| ==> lines[i].id != lines[j].id
  }

  /** Invoice lines are only ever the debit side of a reconciliation. */
  predicate OnlyDebited(lines: seq<Line>, partials: seq<Partial>) {
    forall l, p :: l in lines && l.kind == Invoice && p in partials ==> p.creditLine != l.id
  }

  // ---- movement of one line over a week ------------------------------------------------------------------------

  lemma AfterSplits(partials: seq<Partial>, id: nat, w0: int, w1: int)
    requires w0 <= w1
    ensures DebitedAfter(partials, id, w0) == Applied(partials, id, w0, w1) + DebitedAfter(partials, id, w1)
  {
    SumOfSums(partials, AppliedTerm(id, w0, w1), DebitTerm(id, w1), DebitTerm(id, w0));
  }

  lemma NeverCredited(partials: seq<Partial>, id: nat, d: int)
    requires forall p :: p in partials ==> p.creditLine != id
    ensures CreditedAfter(partials, id, d) == 0
  {
    SumZero(partials, CreditTerm(id, d));
  }

  lemma LineMoves(lines: seq<Line>, partials: seq<Partial>, l: Line, w0: int, w1: int)
    requires OnlyDebited(lines, partials) && l in lines && l.kind == Invoice && l.date <= w0 <= w1
    ensures ResidualAt(l, partials, w1) == ResidualAt(l, partials, w0) - Applied(partials, l.id, w0, w1)
  {
    AfterSplits(partials, l.id, w0, w1);
    NeverCredited(partials, l.id, w0);
    NeverCredited(partials, l.id, w1);
  }

  // ---- sums over the starting overdue lines -----------------------------------------------------------------------

  function LineTerm(partials: seq<Partial>, w0: int, w1: int): Line -> int {
    (l: Line) => Applied(partials, l.id, w0, w1)
  }

  function PartialOfLine(w0: int, w1: int): Line -> (Partial -> int) {
    (l: Line) => AppliedTerm(l.id, w0, w1)
  }

  function LineOfPartial(w0: int, w1: int): Partial -> (Line -> int) {
    (p: Partial) => (l: Line) => AppliedTerm(l.id, w0, w1)(p)
  }

  lemma {:induction false} ColumnOf(lines: seq<Line>, p: Partial, w0: int, w1: int)
    requires DistinctIds(lines)
    ensures Sum(lines, LineOfPartial(w0, w1)(p)) == WindowTerm(Ids(lines), w0, w1)(p)
  {
    if lines != [] {
      var last := |lines| - 1;
      ColumnOf(lines[..last], p, w0, w1);
      assert LineOfPartial(w0, w1)(p)(lines[last]) == AppliedTerm(lines[last].id, w0, w1)(p);
      assert lines == lines[..last] + [lines[last]];
      assert Ids(lines) == Ids(lines[..last]) + {lines[last].id};
      assert lines[last].id !in Ids(lines[..last]);
    }
  }

  lemma ThreeClasses(partials: seq<Partial>, ids: set<nat>, w0: int, w1: int)
    ensures AppliedBy(partials, ids, w0, w1, Cash) + AppliedBy(partials, ids, w0, w1, CreditNote) +
      AppliedBy(partials, ids, w0, w1, Other)
            == Sum(partials, WindowTerm(ids, w0, w1))
  {
    var two := (p: Partial) => ClassTerm(ids, w0, w1, Cash)(p) + ClassTerm(ids, w0, w1, CreditNote)(p);
    SumOfSums(partials, ClassTerm(ids, w0, w1, Cash), ClassTerm(ids, w0, w1, CreditNote), two);
    SumOfSums(partials, two, ClassTerm(ids, w0, w1, Other), WindowTerm(ids, w0, w1));
  }

  /** Money applied to a set of lines, over the three settlement classes, is what was applied to each line. */
  lemma AppliedPerLine(lines: seq<Line>, partials: seq<Partial>, w0: int, w1: int)
    requires DistinctIds(lines)
    ensures AppliedBy(partials, Ids(lines), w0, w1, Cash) + AppliedBy(partials, Ids(lines), w0, w1, CreditNote)
            + AppliedBy(partials, Ids(lines), w0, w1, Other)
            == Sum(lines, LineTerm(partials, w0, w1))
  {
    ThreeClasses(partials, Ids(lines), w0, w1);
    forall p | p in partials ensures Sum(lines, LineOfPartial(w0, w1)(p)) == WindowTerm(Ids(lines), w0, w1)(p) {
      ColumnOf(lines, p, w0, w1);
    }
    SumExchange(lines, partials, PartialOfLine(w0, w1), LineOfPartial(w0, w1), LineTerm(partials, w0, w1),
                WindowTerm(Ids(lines), w0, w1));
  }

  lemma {:induction false} FilterDistinct(lines: seq<Line>, p: Line -> bool)
    requires DistinctIds(lines)
    ensures DistinctIds(Filter(lines, p))
  {
    if lines != [] {
      var last := |lines| - 1;
      FilterDistinct(lines[..last], p);
      FilterMembers(lines[..last], p);
      var kept := Filter(lines[..last], p);
      forall i | 0 <= i < |kept| ensures kept[i].id != lines[last].id {
        assert kept[i] in lines[..last];
      }
    }
  }

  // ---- the movement identities ------------------------------------------------------------------------------------

  function OverApplied(partials: seq<Partial>, d: int): Line -> int {
    (l: Line) => if ResidualAt(l, partials, d) < 0 then ResidualAt(l, partials, d) else 0
  }

  function StillOverdue(partials: seq<Partial>, d: int): Line -> int {
    (l: Line) => if ResidualAt(l, partials, d) > 0 then ResidualAt(l, partials, d) else 0
  }

  /** The starting overdue lines lose exactly what was applied to them during the week. */
  lemma StartMoves(lines: seq<Line>, partials: seq<Partial>, w0: int, w1: int)
    requires DistinctIds(lines) && OnlyDebited(lines, partials) && w0 <= w1
    ensures var start := OverdueLines(lines, partials, w0);
      Sum(start, BalanceTerm(partials, w0)) == Sum(start, BalanceTerm(partials, w1)) +
        Sum(start, LineTerm(partials, w0, w1))
  {
    var start := OverdueLines(lines, partials, w0);
    FilterMembers(lines, OverdueTest(partials, w0));
    forall l | l in start
      ensures BalanceTerm(partials, w0)(l) == BalanceTerm(partials, w1)(l) + LineTerm(partials, w0, w1)(l)
    {
      LineMoves(lines, partials, l, w0, w1);
    }
    SumOfSums(start, BalanceTerm(partials, w1), LineTerm(partials, w0, w1), BalanceTerm(partials, w0));
  }

  function When(partials: seq<Partial>, d: int, ids: set<nat>, inside: bool): Line -> int {
    (l: Line) => if IsOverdue(l, partials, d) && ((l.id in ids) == inside) then ResidualAt(l, partials, d) else 0
  }

  /** The overdue at the week's end is the new overdue plus what is left on the starting lines. */
  lemma EndSplits(lines: seq<Line>, partials: seq<Partial>, w0: int, w1: int)
    requires DistinctIds(lines) && w0 <= w1
    ensures var start := OverdueLines(lines, partials, w0);
      Overdue(lines, partials, w1) ==
        Sum(Filter(OverdueLines(lines, partials, w1), NotIn(Ids(start))), BalanceTerm(partials, w1)) +
          Sum(start, StillOverdue(partials, w1))
  {
    var start := OverdueLines(lines, partials, w0);
    var ids := Ids(start);
    var end := OverdueLines(lines, partials, w1);
    var out := (l: Line) => if l.id !in ids then ResidualAt(l, partials, w1) else 0;
    SumFilter(end, NotIn(ids), BalanceTerm(partials, w1), out);
    SumFilter(lines, OverdueTest(partials, w1), out, When(partials, w1, ids, false));
    var all := (l: Line) => if IsOverdue(l, partials, w1) then ResidualAt(l, partials, w1) else 0;
    SumFilter(lines, OverdueTest(partials, w1), BalanceTerm(partials, w1), all);
    SumOfSums(lines, When(partials, w1, ids, false), When(partials, w1, ids, true), all);
    FilterMembers(lines, OverdueTest(partials, w0));
    forall l | l in lines
      ensures When(partials, w1, ids, true)(l) ==
        if OverdueTest(partials, w0)(l) then StillOverdue(partials, w1)(l) else 0
    {
      if l.id in ids && l !in start {
        var s :| s in start && s.id == l.id;
        SameId(lines, s, l);
      }
    }
    SumFilter(lines, OverdueTest(partials, w0), StillOverdue(partials, w1), When(partials, w1, ids, true));
  }

  lemma SameId(lines: seq<Line>, a: Line, b: Line)
    requires DistinctIds(lines) && a in lines && b in lines && a.id == b.id
    ensures a == b
  {
  }

  /** `unexplained` is exactly what was applied to starting overdue lines beyond their balance, and `remaining`
    * plus the new overdue miss the end by as much. */
  lemma UnexplainedIsOverApplied(lines: seq<Line>, partials: seq<Partial>, w0: int, w1: int)
    requires DistinctIds(lines) && OnlyDebited(lines, partials) && w0 <= w1
    ensures var w := WeekOf(lines, partials, w0, w1);
      && w.unexplained == Sum(OverdueLines(lines, partials, w0), OverApplied(partials, w1))
      && w.Remaining() + w.newOverdue == w.endOverdue + w.unexplained
  {
    var start := OverdueLines(lines, partials, w0);
    FilterDistinct(lines, OverdueTest(partials, w0));
    AppliedPerLine(start, partials, w0, w1);
    StartMoves(lines, partials, w0, w1);
    EndSplits(lines, partials, w0, w1);
    SumOfSums(start, StillOverdue(partials, w1), OverApplied(partials, w1), BalanceTerm(partials, w1));
  }

  predicate NeverOverApplied(lines: seq<Line>, partials: seq<Partial>, d: int) {
    forall l :: l in lines && l.kind == Invoice ==> ResidualAt(l, partials, d) >= 0
  }

  /** The movement of a week is fully explained exactly when no starting overdue line was over-applied. */
  lemma ExplainedIff(lines: seq<Line>, partials: seq<Partial>, w0: int, w1: int)
    requires DistinctIds(lines) && OnlyDebited(lines, partials) && w0 <= w1
    ensures WeekOf(lines, partials, w0, w1).unexplained == 0
            <==> NeverOverApplied(OverdueLines(lines, partials, w0), partials, w1)
  {
    UnexplainedIsOverApplied(lines, partials, w0, w1);
    var start := OverdueLines(lines, partials, w0);
    FilterMembers(lines, OverdueTest(partials, w0));
    var short := (l: Line) => -OverApplied(partials, w1)(l);
    SumNonNegative(start, short);
    SumOfSums(start, OverApplied(partials, w1), short, _ => 0);
    SumZero(start, _ => 0);
  }

  /** An invoice of 5 that 8 was applied to leaves 3 unexplained. */
  lemma OverApplicationUnexplained(lines: seq<Line>, partials: seq<Partial>)
    requires lines == [Line(1, Invoice, 0, 0, -3)] && partials == [Partial(1, 2, 8, 8, 5, Cash)]
    ensures WeekOf(lines, partials, 1, 7).unexplained == -3
  {
    var l := lines[0];
    UnfoldOne(partials, DebitTerm(1, 1));
    UnfoldOne(partials, CreditTerm(1, 1));
    UnfoldOne(partials, DebitTerm(1, 7));
    UnfoldOne(partials, CreditTerm(1, 7));
    assert ResidualAt(l, partials, 1) == 5 && ResidualAt(l, partials, 7) == -3;
    var none := lines[..0];
    assert none == [] && Filter(none, OverdueTest(partials, 1)) == [];
    assert OverdueTest(partials, 1)(l);
    assert OverdueLines(lines, partials, 1) == [l];
    UnexplainedIsOverApplied(lines, partials, 1, 7);
    UnfoldOne([l], OverApplied(partials, 7));
  }

  lemma UnfoldOne<T>(xs: seq<T>, f: T -> int)
    requires |xs| == 1
    ensures Sum(xs, f) == f(xs[0])
  {
    assert xs[..0] == [];
  }

  /** Collections never exceed the starting overdue. */
  lemma CollectedWithinStart(lines: seq<Line>, partials: seq<Partial>, w0: int, w1: int)
    requires DistinctIds(lines) && OnlyDebited(lines, partials) && w0 <= w1
    requires NeverOverApplied(lines, partials, w1) && forall p :: p in partials ==> p.amtDebit >= 0
    ensures var w := WeekOf(lines, partials, w0, w1);
      && 0 <= w.collectedOverdue <= w.startOverdue
      && w.unexplained == 0 && w.Remaining() + w.newOverdue == w.endOverdue
  {
    var start := OverdueLines(lines, partials, w0);
    FilterMembers(lines, OverdueTest(partials, w0));
    ExplainedIff(lines, partials, w0, w1);
    UnexplainedIsOverApplied(lines, partials, w0, w1);
    FilterDistinct(lines, OverdueTest(partials, w0));
    AppliedPerLine(start, partials, w0, w1);
    StartMoves(lines, partials, w0, w1);
    SumNonNegative(start, BalanceTerm(partials, w1));
    SumNonNegative(partials, ClassTerm(Ids(start), w0, w1, Cash));
    SumNonNegative(partials, ClassTerm(Ids(start), w0, w1, CreditNote));
    SumNonNegative(partials, ClassTerm(Ids(start), w0, w1, Other));
  }

  // ---- every figure of a week, from the lines and the payments themselves ------------------------------------------

  function DebitAmount(): Partial -> int { (p: Partial) => p.amtDebit }

  /** Applied in the week, by settlement class, to one of the lines. */
  function PaidOn(lines: seq<Line>, w0: int, w1: int, settle: Settle): Partial -> bool {
    (p: Partial) => p.settle == settle && w0 < p.maxDate <= w1 && exists l :: l in lines && l.id == p.debitLine
  }

  /** What an invoice line owes on day d when it was due before. */
  function LateBalance(partials: seq<Partial>, d: int): Line -> int {
    (l: Line) => if l.kind == Invoice && l.due < d && ResidualAt(l, partials, d) > 0 then ResidualAt(l, partials, d)
                 else 0
  }

  /** The same of a line that owed nothing late on day w0. */
  function NewLateBalance(partials: seq<Partial>, w0: int, w1: int): Line -> int {
    (l: Line) => if LateBalance(partials, w0)(l) == 0 then LateBalance(partials, w1)(l) else 0
  }

  function LateOn(partials: seq<Partial>, d: int): Line -> bool { (l: Line) => LateBalance(partials, d)(l) > 0 }

  function InvoiceKind(): Line -> bool { (l: Line) => l.kind.Invoice? }

  lemma PaidIs(partials: seq<Partial>, lines: seq<Line>, w0: int, w1: int, settle: Settle)
    ensures AppliedBy(partials, Ids(lines), w0, w1, settle) ==
      Sum(Filter(partials, PaidOn(lines, w0, w1, settle)), DebitAmount())
  {
    SumFilter(partials, PaidOn(lines, w0, w1, settle), DebitAmount(), ClassTerm(Ids(lines), w0, w1, settle));
  }

  lemma NewlyIs(lines: seq<Line>, partials: seq<Partial>, w0: int, w1: int)
    requires DistinctIds(lines)
    ensures Sum(Filter(OverdueLines(lines, partials, w1), NotIn(Ids(OverdueLines(lines, partials, w0)))),
                BalanceTerm(partials, w1)) == Sum(lines, NewLateBalance(partials, w0, w1))
  {
    var ids := Ids(OverdueLines(lines, partials, w0));
    var out := (l: Line) => if l.id !in ids then ResidualAt(l, partials, w1) else 0;
    SumFilter(OverdueLines(lines, partials, w1), NotIn(ids), BalanceTerm(partials, w1), out);
    FilterMembers(lines, OverdueTest(partials, w0));
    forall l | l in lines
      ensures NewLateBalance(partials, w0, w1)(l) == if OverdueTest(partials, w1)(l) then out(l) else 0
    {
      if l.id in ids {
        var o :| o in OverdueLines(lines, partials, w0) && o.id == l.id;
        SameId(lines, o, l);
      }
      assert l.id in ids <==> IsOverdue(l, partials, w0);
      assert IsOverdue(l, partials, w0) <==> LateBalance(partials, w0)(l) != 0;
      assert IsOverdue(l, partials, w1) <==> LateBalance(partials, w1)(l) != 0;
      assert OverdueTest(partials, w1)(l) ==> LateBalance(partials, w1)(l) == ResidualAt(l, partials, w1);
    }
    SumFilter(lines, OverdueTest(partials, w1), out, NewLateBalance(partials, w0, w1));
  }

  /** The figures of a week: the late balances at its start and end, the late balances of lines that were not late at
    * its start, and the money applied in it - in cash, by credit note and otherwise to the lines late at its start, and
    * in cash to any invoice. */
  lemma WeekIs(lines: seq<Line>, partials: seq<Partial>, w0: int, w1: int)
    requires DistinctIds(lines)
    ensures var w, late := WeekOf(lines, partials, w0, w1), Filter(lines, LateOn(partials, w0));
      && w.startOverdue == Sum(lines, LateBalance(partials, w0))
      && w.endOverdue == Sum(lines, LateBalance(partials, w1))
      && w.newOverdue == Sum(lines, NewLateBalance(partials, w0, w1))
      && w.collectedOverdue == Sum(Filter(partials, PaidOn(late, w0, w1, Cash)), DebitAmount())
      && w.creditNotesOverdue == Sum(Filter(partials, PaidOn(late, w0, w1, CreditNote)), DebitAmount())
      && w.otherOverdue == Sum(Filter(partials, PaidOn(late, w0, w1, Other)), DebitAmount())
      && w.collectedTotal ==
         Sum(Filter(partials, PaidOn(Filter(lines, InvoiceKind()), w0, w1, Cash)), DebitAmount())
  {
    SumFilter(lines, OverdueTest(partials, w0), BalanceTerm(partials, w0), LateBalance(partials, w0));
    SumFilter(lines, OverdueTest(partials, w1), BalanceTerm(partials, w1), LateBalance(partials, w1));
    FilterSame(lines, OverdueTest(partials, w0), LateOn(partials, w0));
    FilterSame(lines, IsInvoice(), InvoiceKind());
    NewlyIs(lines, partials, w0, w1);
    var late := Filter(lines, LateOn(partials, w0));
    PaidIs(partials, late, w0, w1, Cash);
    PaidIs(partials, late, w0, w1, CreditNote);
    PaidIs(partials, late, w0, w1, Other);
    PaidIs(partials, Filter(lines, InvoiceKind()), w0, w1, Cash);
  }

  function CollectedTotal(): WeekResult -> int { (w: WeekResult) => w.collectedTotal }

  lemma {:induction false} WeeksHold(lines: seq<Line>, partials: seq<Partial>, asOf: int, n: nat)
    ensures Sum(Weeks(lines, partials, asOf, n), CollectedTotal()) ==
      AppliedBy(partials, Ids(Filter(lines, InvoiceKind())), asOf - 7 * n, asOf, Cash)
  {
    var ids := Ids(Filter(lines, InvoiceKind()));
    if n == 0 {
      SumZero(partials, ClassTerm(ids, asOf, asOf, Cash));
    } else {
      var from, start := asOf - 7 * n, asOf - 7 * (n - 1);
      WeeksHold(lines, partials, asOf, n - 1);
      OneWeekMore(lines, partials, asOf, n - 1);
      TotalOfWeek(lines, partials, from, start);
      WindowSplits(partials, ids, from, start, asOf, Cash);
    }
  }

  /** The n weeks up to the report date hold all cash of the last 7n days, each payment in one week. */
  lemma WeeksHoldAllCash(lines: seq<Line>, partials: seq<Partial>, asOf: int, n: nat)
    ensures Sum(Weeks(lines, partials, asOf, n), CollectedTotal()) ==
      Sum(Filter(partials, PaidOn(Filter(lines, InvoiceKind()), asOf - 7 * n, asOf, Cash)), DebitAmount())
  {
    WeeksHold(lines, partials, asOf, n);
    PaidIs(partials, Filter(lines, InvoiceKind()), asOf - 7 * n, asOf, Cash);
  }

  lemma OneWeekMore(lines: seq<Line>, partials: seq<Partial>, asOf: int, n: nat)
    ensures Weeks(lines, partials, asOf, n + 1) ==
      Weeks(lines, partials, asOf, n) + [WeekOf(lines, partials, asOf - 7 * (n + 1), asOf - 7 * n)]
    ensures Sum(Weeks(lines, partials, asOf, n + 1), CollectedTotal()) ==
      Sum(Weeks(lines, partials, asOf, n), CollectedTotal()) +
      WeekOf(lines, partials, asOf - 7 * (n + 1), asOf - 7 * n).collectedTotal
  {
    SumSnoc(Weeks(lines, partials, asOf, n), WeekOf(lines, partials, asOf - 7 * (n + 1), asOf - 7 * n),
            CollectedTotal());
  }

  lemma TotalOfWeek(lines: seq<Line>, partials: seq<Partial>, w0: int, w1: int)
    ensures WeekOf(lines, partials, w0, w1).collectedTotal ==
      AppliedBy(partials, Ids(Filter(lines, InvoiceKind())), w0, w1, Cash)
  {
    FilterSame(lines, IsInvoice(), InvoiceKind());
  }

  lemma WindowSplits(partials: seq<Partial>, ids: set<nat>, w0: int, w1: int, w2: int, settle: Settle)
    requires w0 <= w1 <= w2
    ensures AppliedBy(partials, ids, w0, w2, settle) ==
      AppliedBy(partials, ids, w0, w1, settle) + AppliedBy(partials, ids, w1, w2, settle)
  {
    SumOfSums(partials, ClassTerm(ids, w0, w1, settle), ClassTerm(ids, w1, w2, settle),
              ClassTerm(ids, w0, w2, settle));
  }

  /** Each week starts where the week before it ended. */
  lemma WeeksChain(lines: seq<Line>, partials: seq<Partial>, asOf: int, n: nat, k: nat)
    requires k + 1 < n
    ensures Weeks(lines, partials, asOf, n)[k].startOverdue == Weeks(lines, partials, asOf, n)[k + 1].endOverdue
    ensures Weeks(lines, partials, asOf, n)[0].endOverdue == Overdue(lines, partials, asOf)
  {
  }

  // ---- the snapshot: KPIs, aging buckets, not-yet-due windows -----------------------------------------------------

  function OpenTest(partials: seq<Partial>, d: int): Line -> bool {
    (l: Line) => l.kind == Invoice && ResidualAt(l, partials, d) > 0
  }

  /** The open invoice lines of the snapshot. */
  function OpenInvoices(lines: seq<Line>, partials: seq<Partial>, d: int): seq<Line> {
    Filter(lines, OpenTest(partials, d))
  }

  function InBucketKey(d: int, buckets: seq<Bucket>, key: int): Line -> bool
    requires buckets != []
  {
    (l: Line) => BucketFor(d - l.due, buckets) == key
  }

  function PastBucketZero(d: int, buckets: seq<Bucket>): Line -> bool
    requires buckets != []
  {
    (l: Line) => BucketFor(d - l.due, buckets) > 0
  }

  function KpiOverdue(lines: seq<Line>, partials: seq<Partial>, d: int, buckets: seq<Bucket>): int
    requires buckets != []
  {
    Sum(Filter(OpenInvoices(lines, partials, d), PastBucketZero(d, buckets)), BalanceTerm(partials, d))
  }

  function AgingAmount(lines: seq<Line>, partials: seq<Partial>, d: int, buckets: seq<Bucket>): Bucket -> int
    requires buckets != []
  {
    (b: Bucket) => Sum(Filter(Filter(OpenInvoices(lines, partials, d), PastBucketZero(d, buckets)),
                              InBucketKey(d, buckets, b.key)), BalanceTerm(partials, d))
  }

  /** Bucket keys are positive and distinct, as in the settings. */
  predicate BucketsOk(buckets: seq<Bucket>) {
    && buckets != []
    && (forall b :: b in buckets ==> b.key > 0)
    && (forall i, j :: 0 <= i < j < |buckets| ==> buckets[i].key != buckets[j].key)
  }

  const DEFAULT_BUCKETS := [
    Bucket(1, 1, Some(15)), Bucket(2, 16, Some(30)), Bucket(3, 31, Some(60)), Bucket(4, 61, Some(90)),
      Bucket(5, 91, None)]

  lemma DefaultBucketsOk()
    ensures BucketsOk(DEFAULT_BUCKETS)
  {
  }

  /** The default buckets end after 15, 30, 60 and 90 days. */
  lemma DefaultBucketIs(days: int)
    ensures BucketFor(days, DEFAULT_BUCKETS) == if days <= 0 then 0 else if days <= 15 then 1 else if days <= 30 then 2
                                                else if days <= 60 then 3 else if days <= 90 then 4 else 5
  {
    var i := if days <= 15 then 0 else if days <= 30 then 1 else if days <= 60 then 2 else if days <= 90 then 3 else 4;
    BucketForIs(days, DEFAULT_BUCKETS);
    assert days > 0 ==> IsFirst(days, DEFAULT_BUCKETS, i);
  }

  lemma BucketPositiveIffLate(days: int, buckets: seq<Bucket>)
    requires BucketsOk(buckets)
    ensures BucketFor(days, buckets) > 0 <==> days > 0
    ensures days > 0 ==> exists b :: b in buckets && b.key == BucketFor(days, buckets)
  {
    assert buckets[|buckets| - 1] in buckets;
  }

  /** The KPI counts the same lines as the week's end. */
  lemma KpiIsWeekEnd(lines: seq<Line>, partials: seq<Partial>, d: int, buckets: seq<Bucket>)
    requires BucketsOk(buckets)
    ensures KpiOverdue(lines, partials, d, buckets) == Overdue(lines, partials, d)
  {
    var open := OpenInvoices(lines, partials, d);
    var late := (l: Line) => if PastBucketZero(d, buckets)(l) then ResidualAt(l, partials, d) else 0;
    SumFilter(open, PastBucketZero(d, buckets), BalanceTerm(partials, d), late);
    var all := (l: Line) => if IsOverdue(l, partials, d) then ResidualAt(l, partials, d) else 0;
    forall l | l in lines ensures all(l) == if OpenTest(partials, d)(l) then late(l) else 0 {
      BucketPositiveIffLate(d - l.due, buckets);
    }
    SumFilter(lines, OpenTest(partials, d), late, all);
    SumFilter(lines, OverdueTest(partials, d), BalanceTerm(partials, d), all);
  }

  lemma {:induction false} OneBucketEach(buckets: seq<Bucket>, key: int, amount: int, f: Bucket -> int)
    requires forall i, j :: 0 <= i < j < |buckets| ==> buckets[i].key != buckets[j].key
    requires forall b :: b in buckets ==> f(b) == if key == b.key then amount else 0
    ensures Sum(buckets, f) == if exists b :: b in buckets && b.key == key then amount else 0
  {
    if buckets != [] {
      var last := |buckets| - 1;
      OneBucketEach(buckets[..last], key, amount, f);
      assert buckets == buckets[..last] + [buckets[last]];
      if key == buckets[last].key {
        forall b | b in buckets[..last] ensures b.key != key { }
      }
    }
  }

  function BucketShare(partials: seq<Partial>, d: int, buckets: seq<Bucket>): Bucket -> (Line -> int)
    requires buckets != []
  {
    (b: Bucket) => (l: Line) => if BucketFor(d - l.due, buckets) == b.key then ResidualAt(l, partials, d) else 0
  }

  function LineShare(partials: seq<Partial>, d: int, buckets: seq<Bucket>): Line -> (Bucket -> int)
    requires buckets != []
  {
    (l: Line) => (b: Bucket) => if BucketFor(d - l.due, buckets) == b.key then ResidualAt(l, partials, d) else 0
  }

  function PastDue(lines: seq<Line>, partials: seq<Partial>, d: int, buckets: seq<Bucket>): seq<Line>
    requires buckets != []
  {
    Filter(OpenInvoices(lines, partials, d), PastBucketZero(d, buckets))
  }

  lemma AmountOfBucket(lines: seq<Line>, partials: seq<Partial>, d: int, buckets: seq<Bucket>, b: Bucket)
    requires BucketsOk(buckets)
    ensures AgingAmount(lines, partials, d, buckets)(b) ==
      Sum(PastDue(lines, partials, d, buckets), BucketShare(partials, d, buckets)(b))
  {
    SumFilter(PastDue(lines, partials, d, buckets), InBucketKey(d, buckets, b.key), BalanceTerm(partials, d),
              BucketShare(partials, d, buckets)(b));
  }

  lemma BucketOfLine(partials: seq<Partial>, d: int, buckets: seq<Bucket>, l: Line)
    requires BucketsOk(buckets) && PastBucketZero(d, buckets)(l)
    ensures BalanceTerm(partials, d)(l) == Sum(buckets, LineShare(partials, d, buckets)(l))
  {
    BucketPositiveIffLate(d - l.due, buckets);
    OneBucketEach(buckets, BucketFor(d - l.due, buckets), ResidualAt(l, partials, d),
                  LineShare(partials, d, buckets)(l));
  }

  lemma BucketsAddUp(lines: seq<Line>, partials: seq<Partial>, d: int, buckets: seq<Bucket>)
    requires BucketsOk(buckets)
    ensures Sum(buckets, AgingAmount(lines, partials, d, buckets)) == KpiOverdue(lines, partials, d, buckets)
  {
    var od := PastDue(lines, partials, d, buckets);
    FilterMembers(OpenInvoices(lines, partials, d), PastBucketZero(d, buckets));
    forall b | b in buckets
      ensures AgingAmount(lines, partials, d, buckets)(b) == Sum(od, BucketShare(partials, d, buckets)(b))
    {
      AmountOfBucket(lines, partials, d, buckets, b);
    }
    forall l | l in od ensures BalanceTerm(partials, d)(l) == Sum(buckets, LineShare(partials, d, buckets)(l)) {
      BucketOfLine(partials, d, buckets, l);
    }
    SumExchange(buckets, od, BucketShare(partials, d, buckets), LineShare(partials, d, buckets),
                AgingAmount(lines, partials, d, buckets), BalanceTerm(partials, d));
  }

  /** The aging buckets add up to the overdue KPI, which is the end of the latest week. */
  lemma AgingAddsUp(lines: seq<Line>, partials: seq<Partial>, asOf: int, buckets: seq<Bucket>, n: nat)
    requires BucketsOk(buckets) && n > 0
    ensures Sum(buckets, AgingAmount(lines, partials, asOf, buckets)) == KpiOverdue(lines, partials, asOf, buckets)
    ensures KpiOverdue(lines, partials, asOf, buckets) == Weeks(lines, partials, asOf, n)[0].endOverdue
  {
    BucketsAddUp(lines, partials, asOf, buckets);
    KpiIsWeekEnd(lines, partials, asOf, buckets);
  }

  // Windows of the not-yet-due lines: 0-6, 7-30 and 31 or more days ahead.

  function AheadTest(d: int, lo: int, hi: Option<int>): Line -> bool {
    (l: Line) => l.due - d >= lo && (hi.None? || l.due - d <= hi.value)
  }

  function NotDueLines(lines: seq<Line>, partials: seq<Partial>, d: int, buckets: seq<Bucket>): seq<Line>
    requires buckets != []
  {
    Filter(OpenInvoices(lines, partials, d), InBucketKey(d, buckets, 0))
  }

  function WindowAmount(nd: seq<Line>, partials: seq<Partial>, d: int, lo: int, hi: Option<int>): int {
    Sum(Filter(nd, AheadTest(d, lo, hi)), BalanceTerm(partials, d))
  }

  /** The three windows cover the not-yet-due balance, and with the overdue they make the gross balance. */
  lemma NotDueAddsUp(lines: seq<Line>, partials: seq<Partial>, d: int, buckets: seq<Bucket>)
    requires BucketsOk(buckets)
    ensures var nd := NotDueLines(lines, partials, d, buckets);
      && WindowAmount(nd, partials, d, 0, Some(6)) + WindowAmount(nd, partials, d, 7, Some(30))
         + WindowAmount(nd, partials, d, 31, None)
         == Sum(nd, BalanceTerm(partials, d))
      && Sum(nd, BalanceTerm(partials, d)) + KpiOverdue(lines, partials, d, buckets)
         == Sum(OpenInvoices(lines, partials, d), BalanceTerm(partials, d))
  {
    var open := OpenInvoices(lines, partials, d);
    var nd := NotDueLines(lines, partials, d, buckets);
    var part := (lo: int, hi: Option<int>) =>
      (l: Line) => if AheadTest(d, lo, hi)(l) then ResidualAt(l, partials, d) else 0;
    SumFilter(nd, AheadTest(d, 0, Some(6)), BalanceTerm(partials, d), part(0, Some(6)));
    SumFilter(nd, AheadTest(d, 7, Some(30)), BalanceTerm(partials, d), part(7, Some(30)));
    SumFilter(nd, AheadTest(d, 31, None), BalanceTerm(partials, d), part(31, None));
    var two := (l: Line) => part(0, Some(6))(l) + part(7, Some(30))(l);
    SumOfSums(nd, part(0, Some(6)), part(7, Some(30)), two);
    FilterMembers(open, InBucketKey(d, buckets, 0));
    forall l: Line ensures BucketFor(d - l.due, buckets) == 0 <==> l.due >= d {
      BucketPositiveIffLate(d - l.due, buckets);
    }
    SumOfSums(nd, two, part(31, None), BalanceTerm(partials, d));
    var late := (l: Line) => if PastBucketZero(d, buckets)(l) then ResidualAt(l, partials, d) else 0;
    var early := (l: Line) => if InBucketKey(d, buckets, 0)(l) then ResidualAt(l, partials, d) else 0;
    SumFilter(open, PastBucketZero(d, buckets), BalanceTerm(partials, d), late);
    SumFilter(open, InBucketKey(d, buckets, 0), BalanceTerm(partials, d), early);
    forall l: Line ensures BalanceTerm(partials, d)(l) == early(l) + late(l) {
      BucketPositiveIffLate(d - l.due, buckets);
    }
    SumOfSums(open, early, late, BalanceTerm(partials, d));
  }
}
