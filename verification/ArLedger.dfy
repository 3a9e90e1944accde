/** The receivables ledger (`demo_odoo.py`, the reconciliation step) and what the report reads from it
  * (`extract.py`, steps 1-3). The report rebuilds past balances from that reading alone. */
module ArLedger {
  import opened Prelude
  import opened Sums
  import opened Receivables

  datatype MoveType = OutInvoice | OutRefund | OutReceipt | JournalEntry
  datatype Payment = Payment(inbound: bool, customer: bool)

  /** A posted receivable line. `amount` is its original signed amount, `residual` what is open now. */
  datatype Entry = Entry(
    amount: int, residual: int, date: int, due: int, moveType: MoveType,
    linePayment: Option<Payment>, movePayment: Option<Payment>, statementLine: bool, bankOrCash: bool)
  {
    /** How a reconciliation against this line reads when the line is the credit side. */
    function SettleClass(): Settle {
      if moveType == OutRefund then CreditNote
      else if linePayment.Some? || movePayment.Some? || statementLine || bankOrCash then Cash
      else Other
    }

    predicate Reconciled() { residual == 0 }

    predicate DebtMove() { moveType != JournalEntry }

    /** `in_scope`: an inbound customer payment, or without a payment a customer invoice, refund or receipt. */
    predicate InScope() {
      var pay := if linePayment.Some? then linePayment else movePayment;
      if pay.Some? then pay.value.inbound && pay.value.customer else DebtMove()
    }

    /** The domain the open lines are read with. */
    predicate ReadAsOpen() {
      !Reconciled() && residual != 0 && (DebtMove() || (linePayment.Some? && linePayment.value.inbound))
    }
  }

  datatype Ledger = Ledger(entries: map<nat, Entry>, partials: seq<Partial>)

  // ---- what the ledger keeps -----------------------------------------------------------------------------

  function DebitPart(id: nat): Partial -> int {
    (p: Partial) => if p.debitLine == id then p.amtDebit else 0
  }

  function CreditPart(id: nat): Partial -> int {
    (p: Partial) => if p.creditLine == id then p.amtCredit else 0
  }

  /** What is open now is the original amount less everything reconciled. */
  ghost predicate Balanced(g: Ledger, id: nat)
    requires id in g.entries
  {
    g.entries[id].residual == g.entries[id].amount - Sum(g.partials, DebitPart(id)) + Sum(g.partials, CreditPart(id))
  }

  /** A debit line was never reconciled beyond its amount and never from the credit side; and the reverse. */
  ghost predicate WithinAmount(g: Ledger, id: nat)
    requires id in g.entries
  {
    var e := g.entries[id];
    && (e.amount >= 0 ==> 0 <= e.residual && forall p :: p in g.partials ==> p.creditLine != id)
    && (e.amount <= 0 ==> e.residual <= 0 && forall p :: p in g.partials ==> p.debitLine != id)
  }

  ghost predicate PartialOk(g: Ledger, p: Partial) {
    && p.debitLine in g.entries && p.creditLine in g.entries && p.amtDebit > 0 && p.amtCredit > 0
    && p.maxDate >= g.entries[p.debitLine].date && p.maxDate >= g.entries[p.creditLine].date
    && p.settle == g.entries[p.creditLine].SettleClass()
  }

  ghost predicate LedgerOk(g: Ledger) {
    && (forall id :: id in g.entries ==> Balanced(g, id) && WithinAmount(g, id))
    && (forall p :: p in g.partials ==> PartialOk(g, p))
  }

  function Min(a: int, b: int): int { if a <= b then a else b }
  function Max(a: int, b: int): int { if a >= b then a else b }

  class ReceivableLedger {
    var entries: map<nat, Entry>
    var partials: seq<Partial>

    ghost function Contents(): Ledger
      reads this
    {
      Ledger(entries, partials)
    }

    constructor ()
      ensures LedgerOk(Contents()) && entries == map[] && partials == []
    {
      entries, partials := map[], [];
    }

    /** `_add` of a line: nothing of it is reconciled yet. */
    method AddEntry(id: nat, e: Entry)
      requires LedgerOk(Contents()) && id !in entries && e.residual == e.amount
      modifies this
      ensures LedgerOk(Contents())
      ensures entries == old(entries)[id := e] && partials == old(partials)
    {
      ghost var before := Contents();
      entries := entries[id := e];
      AddKeepsLedger(before, Contents(), id, e);
    }

    /** `_reconcile`: applies as much of `amt` as both lines still have open, dated by the later of the two. */
    method Reconcile(debit: nat, credit: nat, amt: int)
      requires LedgerOk(Contents()) && debit in entries && credit in entries
      modifies this
      ensures LedgerOk(Contents())
      ensures var open := Min(amt, Min(old(entries)[debit].residual, -old(entries)[credit].residual));
        if open <= 0 then Contents() == old(Contents())
        else
          && partials == old(partials) +
            [Partial(debit, credit, open, open, Max(old(entries)[debit].date, old(entries)[credit].date),
                                                  old(entries)[credit].SettleClass())]
          && entries == old(entries)[debit := old(entries)[debit].(residual := old(entries)[debit].residual - open)]
                                    [credit := old(entries)[credit].(residual := old(entries)[credit].residual + open)]
    {
      var open := Min(amt, Min(entries[debit].residual, -entries[credit].residual));
      if open <= 0 { return; }
      ghost var before := Contents();
      assert debit != credit;
      var p := Partial(debit, credit, open, open, Max(entries[debit].date, entries[credit].date),
                       entries[credit].SettleClass());
      partials := partials + [p];
      entries := entries[debit := entries[debit].(residual := entries[debit].residual - open)];
      entries := entries[credit := entries[credit].(residual := entries[credit].residual + open)];
      ReconcileKeepsLedger(before, Contents(), p);
    }
  }

  lemma AddKeepsLedger(before: Ledger, after: Ledger, id: nat, e: Entry)
    requires LedgerOk(before) && id !in before.entries && e.residual == e.amount
    requires after == Ledger(before.entries[id := e], before.partials)
    ensures LedgerOk(after)
  {
    forall p | p in after.partials ensures PartialOk(after, p) && p.debitLine != id && p.creditLine != id {
      assert PartialOk(before, p);
    }
    SumZero(after.partials, DebitPart(id));
    SumZero(after.partials, CreditPart(id));
    forall x | x in after.entries ensures Balanced(after, x) && WithinAmount(after, x) {
      if x != id { assert Balanced(before, x) && WithinAmount(before, x); }
    }
  }

  lemma StaysBalanced(before: Ledger, after: Ledger, p: Partial, id: nat)
    requires id in before.entries && id in after.entries && Balanced(before, id) && p.debitLine != p.creditLine
    requires after.partials == before.partials + [p]
    requires after.entries[id].amount == before.entries[id].amount
    requires after.entries[id].residual == before.entries[id].residual -
      (if id == p.debitLine then p.amtDebit else 0) + (if id == p.creditLine then p.amtCredit else 0)
    ensures Balanced(after, id)
  {
    SumSnoc(before.partials, p, DebitPart(id));
    SumSnoc(before.partials, p, CreditPart(id));
  }

  lemma ReconcileKeepsLedger(before: Ledger, after: Ledger, p: Partial)
    requires LedgerOk(before) && p.debitLine in before.entries && p.creditLine in before.entries &&
      p.debitLine != p.creditLine
    requires p.amtDebit == p.amtCredit > 0 && p.amtDebit <= before.entries[p.debitLine].residual &&
      p.amtCredit <= -before.entries[p.creditLine].residual
    requires p.maxDate == Max(before.entries[p.debitLine].date, before.entries[p.creditLine].date)
    requires p.settle == before.entries[p.creditLine].SettleClass()
    requires after.partials == before.partials + [p]
    requires after.entries == before.entries
      [p.debitLine := before.entries[p.debitLine].(residual := before.entries[p.debitLine].residual - p.amtDebit)]
      [p.creditLine := before.entries[p.creditLine].(residual := before.entries[p.creditLine].residual + p.amtCredit)]
    ensures LedgerOk(after)
  {
    assert WithinAmount(before, p.debitLine) && WithinAmount(before, p.creditLine);
    forall id | id in after.entries ensures Balanced(after, id) && WithinAmount(after, id) {
      assert Balanced(before, id) && WithinAmount(before, id);
      StaysBalanced(before, after, p, id);
    }
    forall q | q in after.partials ensures PartialOk(after, q) {
      if q in before.partials { assert PartialOk(before, q); }
    }
  }

  // ---- the balance on a past day, from the ledger's whole history --------------------------------------------

  function DebitUntil(id: nat, d: int): Partial -> int {
    (p: Partial) => if p.debitLine == id && p.maxDate <= d then p.amtDebit else 0
  }

  function CreditUntil(id: nat, d: int): Partial -> int {
    (p: Partial) => if p.creditLine == id && p.maxDate <= d then p.amtCredit else 0
  }

  /** Original amount and the reconciliations made up to day `d`; nothing before the line's own date. */
  function BalanceOn(g: Ledger, id: nat, d: int): int
    requires id in g.entries
  {
    if g.entries[id].date <= d then
      g.entries[id].amount - Sum(g.partials, DebitUntil(id, d)) + Sum(g.partials, CreditUntil(id, d))
    else 0
  }

  function LineOf(id: nat, e: Entry): Line {
    var kind := if (e.moveType == OutInvoice || e.moveType == OutReceipt) && e.amount > 0 then Invoice else Credit;
    Line(id, kind, e.date, e.due, e.residual)
  }

  lemma UntilAndAfter(g: Ledger, id: nat, d: int)
    ensures Sum(g.partials, DebitPart(id)) == Sum(g.partials, DebitUntil(id, d)) + DebitedAfter(g.partials, id, d)
    ensures Sum(g.partials, CreditPart(id)) == Sum(g.partials, CreditUntil(id, d)) + CreditedAfter(g.partials, id, d)
  {
    SumOfSums(g.partials, DebitUntil(id, d), DebitTerm(id, d), DebitPart(id));
    SumOfSums(g.partials, CreditUntil(id, d), CreditTerm(id, d), CreditPart(id));
  }

  /** The reconciliations read since a day: those dated after it. */
  function After(since: int): Partial -> bool {
    (p: Partial) => p.maxDate > since
  }

  lemma ReadPartialsSuffice(partials: seq<Partial>, since: int, id: nat, d: int)
    requires since <= d
    ensures DebitedAfter(Filter(partials, After(since)), id, d) == DebitedAfter(partials, id, d)
    ensures CreditedAfter(Filter(partials, After(since)), id, d) == CreditedAfter(partials, id, d)
  {
    SumFilter(partials, After(since), DebitTerm(id, d), DebitTerm(id, d));
    SumFilter(partials, After(since), CreditTerm(id, d), CreditTerm(id, d));
  }

  // ---- the extraction -----------------------------------------------------------------------------------------

  /** The lines on either side of the partials. */
  function Touched(partials: seq<Partial>): set<nat> {
    (set p | p in partials :: p.debitLine) + (set p | p in partials :: p.creditLine)
  }

  ghost predicate IsRead(g: Ledger, since: int, id: nat) {
    id in g.entries && (g.entries[id].ReadAsOpen() || id in Touched(Filter(g.partials, After(since))))
  }

  /** Steps 1-3 of `extract`: open lines, the partials since a day, the closed lines those touch. */
  method Extract(g: Ledger, since: int) returns (lines: seq<Line>, partials: seq<Partial>)
    ensures partials == Filter(g.partials, After(since))
    ensures forall l :: l in lines <==>
      IsRead(g, since, l.id) && g.entries[l.id].InScope() && l == LineOf(l.id, g.entries[l.id])
    ensures DistinctIds(lines)
    ensures forall p :: p in partials <==> p in g.partials && since < p.maxDate
    ensures forall l :: l in lines ==> l.id in g.entries && ReadFrom(l, g.entries[l.id])
    ensures forall id :: id in Ids(lines) <==> id in g.entries && ToBeRead(g.entries[id], id, partials)
  {
    var have := set id | id in g.entries && g.entries[id].ReadAsOpen();
    partials := [];
    var need := {};
    for n := 0 to |g.partials|
      invariant partials == Filter(g.partials[..n], After(since))
      invariant need == Touched(partials)
    {
      var p := g.partials[n];
      assert g.partials[..n + 1][..n] == g.partials[..n];
      if p.maxDate > since {
        TouchedMore(partials, p);
        partials := partials + [p];
        need := need + {p.debitLine, p.creditLine};
      }
    }
    assert g.partials[..|g.partials|] == g.partials;
    var all := set id | id in have + need && id in g.entries;
    lines := [];
    var todo := all;
    while todo != {}
      invariant todo <= all
      invariant forall l :: l in lines <==>
        l.id in all - todo && g.entries[l.id].InScope() && l == LineOf(l.id, g.entries[l.id])
      invariant DistinctIds(lines)
      decreases todo
    {
      var id :| id in todo;
      if g.entries[id].InScope() { lines := lines + [LineOf(id, g.entries[id])]; }
      todo := todo - {id};
    }
    FilterMembers(g.partials, After(since));
    ReadAre(g, since, lines, partials);
  }

  /** A line carries its entry's dates and what is open of it; it is an invoice when it is a positive line of a customer
    * invoice or receipt. */
  predicate ReadFrom(l: Line, e: Entry) {
    && l.date == e.date && l.due == e.due && l.residual == e.residual
    && (l.kind == Invoice <==> e.amount > 0 && (e.moveType == OutInvoice || e.moveType == OutReceipt))
  }

  /** Something is open on an invoice, refund, receipt or inbound payment, or one of the reconciliations read names the
    * line; and the payment it belongs to, if any, is an inbound one of a customer, else it is an invoice, refund or
    * receipt. */
  predicate ToBeRead(e: Entry, id: nat, partials: seq<Partial>) {
    && (|| (exists p :: p in partials && (p.debitLine == id || p.creditLine == id))
        || (e.residual != 0 && (e.moveType != JournalEntry || (e.linePayment.Some? && e.linePayment.value.inbound))))
    && (match (e.linePayment, e.movePayment)
        case (Some(p), _) => p == Payment(true, true)
        case (None, Some(p)) => p == Payment(true, true)
        case (None, None) => e.moveType == OutInvoice || e.moveType == OutRefund || e.moveType == OutReceipt)
  }

  lemma ReadAre(g: Ledger, since: int, lines: seq<Line>, partials: seq<Partial>)
    requires partials == Filter(g.partials, After(since))
    requires forall l :: l in lines <==>
      IsRead(g, since, l.id) && g.entries[l.id].InScope() && l == LineOf(l.id, g.entries[l.id])
    ensures forall l :: l in lines ==> l.id in g.entries && ReadFrom(l, g.entries[l.id])
    ensures forall id :: id in Ids(lines) <==> id in g.entries && ToBeRead(g.entries[id], id, partials)
  {
    forall id | id in g.entries ensures id in Ids(lines) <==> ToBeRead(g.entries[id], id, partials) {
      assert id in Touched(partials) <==> exists p :: p in partials && (p.debitLine == id || p.creditLine == id);
      if IsRead(g, since, id) && g.entries[id].InScope() { assert LineOf(id, g.entries[id]) in lines; }
    }
  }

  /** How a reconciliation reads: by the move, the payment and the journal of its credit line. */
  lemma SettledAs(g: Ledger, p: Partial)
    requires LedgerOk(g) && p in g.partials
    ensures p.creditLine in g.entries
    ensures p.settle == CreditNote <==> g.entries[p.creditLine].moveType == OutRefund
    ensures var e := g.entries[p.creditLine];
      p.settle == Other <==>
        && e.moveType != OutRefund && e.linePayment == None && e.movePayment == None
        && !e.statementLine && !e.bankOrCash
  {
    assert PartialOk(g, p);
  }

  lemma TouchedMore(partials: seq<Partial>, p: Partial)
    ensures Touched(partials + [p]) == Touched(partials) + {p.debitLine, p.creditLine}
  {
    var more := partials + [p];
    assert more[|partials|] == p;
    forall x | x in Touched(partials) ensures x in Touched(more) {
      if q :| q in partials && q.debitLine == x { assert q in more; }
      if q :| q in partials && q.creditLine == x { assert q in more; }
    }
    forall x | x in Touched(more) ensures x in Touched(partials) + {p.debitLine, p.creditLine} {
      if q :| q in more && (q.debitLine == x || q.creditLine == x) { }
    }
  }

  // ---- the reading reproduces the ledger -------------------------------------------------------------------------

  /** For every day from `since` on, the report's balance of a line it reads is the ledger's. */
  lemma ResidualIsBalance(g: Ledger, since: int, id: nat, d: int)
    requires LedgerOk(g) && id in g.entries && since <= d
    ensures ResidualAt(LineOf(id, g.entries[id]), Filter(g.partials, After(since)), d) == BalanceOn(g, id, d)
  {
    assert Balanced(g, id);
    UntilAndAfter(g, id, d);
    ReadPartialsSuffice(g.partials, since, id, d);
  }

  /** An open in-scope line that no reconciliation since then touches, but whose payment is known only through
    * its move: the domain of the open lines does not match it. */
  predicate PaidThroughMoveOnly(e: Entry) {
    && e.residual != 0 && !e.DebtMove()
    && e.linePayment.None? && e.movePayment.Some? && e.movePayment.value.inbound && e.movePayment.value.customer
  }

  lemma UntouchedKeepsBalance(g: Ledger, since: int, id: nat, d: int)
    requires LedgerOk(g) && id in g.entries && id !in Touched(Filter(g.partials, After(since))) && since <= d
    ensures BalanceOn(g, id, d) == if g.entries[id].date <= d then g.entries[id].residual else 0
  {
    ResidualIsBalance(g, since, id, d);
    var read := Filter(g.partials, After(since));
    forall p | p in read ensures p.debitLine != id && p.creditLine != id { }
    SumZero(read, DebitTerm(id, d));
    SumZero(read, CreditTerm(id, d));
  }

  /** Lines the extraction does not read count for nothing on every day from `since` on - exactly when they are
    * not open lines whose payment is known only through their move. */
  lemma UnreadCountsNothingIff(g: Ledger, since: int, id: nat)
    requires LedgerOk(g) && id in g.entries && g.entries[id].InScope() && !IsRead(g, since, id)
    ensures (forall d :: since <= d ==> BalanceOn(g, id, d) == 0) <==> !PaidThroughMoveOnly(g.entries[id])
  {
    var e := g.entries[id];
    if PaidThroughMoveOnly(e) {
      var d := Max(since, e.date);
      UntouchedKeepsBalance(g, since, id, d);
    } else {
      forall d | since <= d ensures BalanceOn(g, id, d) == 0 { UntouchedKeepsBalance(g, since, id, d); }
    }
  }

  /** A customer's open payment, known only through its move: in scope, open, and not read. */
  lemma PaymentThroughMoveIsMissed(g: Ledger)
    requires g.entries == map[1 := Entry(-10, -10, 0, 0, JournalEntry, None, Some(Payment(true, true)), false, true)]
    requires g.partials == []
    ensures LedgerOk(g) && g.entries[1].InScope() && !IsRead(g, 0, 1) && BalanceOn(g, 1, 0) == -10
  {
  }

  // ---- the report on an extracted ledger ---------------------------------------------------------------------------

  lemma PastBalanceWithin(g: Ledger, id: nat, d: int)
    requires LedgerOk(g) && id in g.entries && g.entries[id].amount >= 0
    ensures BalanceOn(g, id, d) >= 0
  {
    assert Balanced(g, id) && WithinAmount(g, id);
    UntilAndAfter(g, id, d);
    forall p | p in g.partials ensures p.amtDebit > 0 { assert PartialOk(g, p); }
    SumNonNegative(g.partials, DebitTerm(id, d));
    SumZero(g.partials, CreditPart(id));
    SumZero(g.partials, CreditUntil(id, d));
  }

  /** On what is extracted from any ledger, every reported week is fully explained and collects at most what was
    * overdue at its start. */
  lemma ExtractedWeeksExplained(g: Ledger, since: int, lines: seq<Line>, partials: seq<Partial>, w0: int, w1: int)
    requires LedgerOk(g) && since <= w0 <= w1
    requires partials == Filter(g.partials, After(since)) && DistinctIds(lines)
    requires forall l :: l in lines ==> l.id in g.entries && l == LineOf(l.id, g.entries[l.id])
    ensures var w := WeekOf(lines, partials, w0, w1);
      && w.unexplained == 0 && w.Remaining() + w.newOverdue == w.endOverdue
      && 0 <= w.collectedOverdue <= w.startOverdue
  {
    FilterMembers(g.partials, After(since));
    forall l, p | l in lines && l.kind == Invoice && p in partials ensures p.creditLine != l.id {
      assert WithinAmount(g, l.id);
    }
    forall l | l in lines && l.kind == Invoice ensures ResidualAt(l, partials, w1) >= 0 {
      ResidualIsBalance(g, since, l.id, w1);
      PastBalanceWithin(g, l.id, w1);
    }
    forall p | p in partials ensures p.amtDebit >= 0 { assert PartialOk(g, p); }
    CollectedWithinStart(lines, partials, w0, w1);
  }
}
