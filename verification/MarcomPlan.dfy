/** Diffing an upload and planning a removal (`marcom/diff.ts`, `marcom/removal.ts`): loops over rows that
  * were read, changing nothing. */
module MarcomPlan {
  import opened Prelude
  import opened MarcomModel

  // ---- diffTable ------------------------------------------------------------------------------------

  datatype FileRow = FileRow(rowNumber: nat, key: Key, cells: Cells)
  datatype CurrentRow = CurrentRow(id: nat, key: Key, cells: Cells)
  datatype Column = BrandColumn | Column(i: nat)
  datatype FieldChange = FieldChange(column: Column, was: Option<string>, now: Option<string>)
  datatype RowUpdate = RowUpdate(row: FileRow, existingId: nat, changes: seq<FieldChange>)
  datatype TableDiff = TableDiff(
    inserts: seq<FileRow>, updates: seq<RowUpdate>, same: seq<FileRow>, invalid: seq<FileRow>)

  // ---- the changed fields of a row ---------------------------------------------------------------------

  function At(cells: Cells, c: Column): Option<string> {
    match c
    case BrandColumn => cells.brand
    case Column(i) => if i < |cells.fields| then Some(cells.fields[i]) else None
  }

  predicate DistinctColumns(changes: seq<FieldChange>) {
    forall i, j :: 0 <= i < j < |changes| ==> changes[i].column != changes[j].column
  }

  /** Exactly the columns that differ, each once, with the old and the new value. */
  ghost predicate AreChanges(changes: seq<FieldChange>, old': Cells, new': Cells) {
    && DistinctColumns(changes)
    && (forall c :: c in changes ==> c.was == At(old', c.column) && c.now == At(new', c.column) && c.was != c.now)
    && (forall col :: At(old', col) != At(new', col) ==> exists c :: c in changes && c.column == col)
  }

  lemma SameColumns(a: Cells, b: Cells)
    requires forall col :: At(a, col) == At(b, col)
    ensures a == b
  {
    assert At(a, BrandColumn) == At(b, BrandColumn);
    assert At(a, Column(|b.fields|)) == At(b, Column(|b.fields|));
    assert At(a, Column(|a.fields|)) == At(b, Column(|a.fields|));
    forall i | 0 <= i < |a.fields| ensures a.fields[i] == b.fields[i] { assert At(a, Column(i)) == At(b, Column(i)); }
  }

  /** Nothing is listed exactly when nothing changed, and the old row with its changes determines the new one. */
  lemma ChangesDetermine(changes: seq<FieldChange>, old': Cells, new': Cells, other: Cells)
    requires AreChanges(changes, old', new')
    ensures changes == [] <==> old' == new'
    ensures AreChanges(changes, old', other) ==> other == new'
  {
    if changes == [] {
      SameColumns(old', new');
    } else {
      assert changes[0] in changes;
    }
    if AreChanges(changes, old', other) {
      forall col ensures At(other, col) == At(new', col) {
        if At(old', col) != At(new', col) {
          var c :| c in changes && c.column == col;
        }
      }
      SameColumns(other, new');
    }
  }

  /** The changes in the columns before n. */
  ghost predicate ChangesBefore(changes: seq<FieldChange>, old': Cells, new': Cells, n: nat) {
    && DistinctColumns(changes)
    && (forall c :: c in changes ==> c.was == At(old', c.column) && c.now == At(new', c.column) && c.was != c.now)
    && (forall c :: c in changes ==> c.column == BrandColumn || c.column.i < n)
    && (forall col :: (col == BrandColumn || col.i < n) && At(old', col) != At(new', col) ==>
         exists c :: c in changes && c.column == col)
  }

  lemma OneColumnMore(changes: seq<FieldChange>, old': Cells, new': Cells, n: nat)
    requires ChangesBefore(changes, old', new', n)
    ensures var c := FieldChange(Column(n), At(old', Column(n)), At(new', Column(n)));
      ChangesBefore(if c.was != c.now then changes + [c] else changes, old', new', n + 1)
  {
    var c := FieldChange(Column(n), At(old', Column(n)), At(new', Column(n)));
    var next := if c.was != c.now then changes + [c] else changes;
    forall col | (col == BrandColumn || col.i < n + 1) && At(old', col) != At(new', col)
      ensures exists d :: d in next && d.column == col
    {
      if col == c.column {
        assert c in next;
      } else {
        var d :| d in changes && d.column == col;
        assert d in next;
      }
    }
  }

  method ListChanges(old': Cells, new': Cells) returns (changes: seq<FieldChange>)
    ensures AreChanges(changes, old', new')
    ensures changes == [] <==> old' == new'
  {
    changes := if old'.brand != new'.brand then [FieldChange(BrandColumn, old'.brand, new'.brand)] else [];
    var width := if |old'.fields| < |new'.fields| then |new'.fields| else |old'.fields|;
    for i := 0 to width
      invariant ChangesBefore(changes, old', new', i)
    {
      OneColumnMore(changes, old', new', i);
      var c := FieldChange(Column(i), At(old', Column(i)), At(new', Column(i)));
      if c.was != c.now { changes := changes + [c]; }
    }
    ChangesDetermine(changes, old', new', new');
  }

  // ---- the lists -----------------------------------------------------------------------------------------

  predicate DistinctKeys(current: seq<CurrentRow>) {
    forall i, j :: 0 <= i < j < |current| ==> current[i].key != current[j].key
  }

  ghost predicate Existing(current: seq<CurrentRow>, k: Key, c: CurrentRow) {
    c in current && c.key == k
  }

  ghost predicate IsInsert(row: FileRow, current: seq<CurrentRow>, bad: set<nat>) {
    row.rowNumber !in bad && forall c :: c in current ==> c.key != row.key
  }

  ghost predicate IsUpdate(u: RowUpdate, current: seq<CurrentRow>, bad: set<nat>) {
    && u.row.rowNumber !in bad
    && exists c ::
      Existing(current, u.row.key, c) && c.id == u.existingId && c.cells != u.row.cells &&
      AreChanges(u.changes, c.cells, u.row.cells)
  }

  ghost predicate IsSame(row: FileRow, current: seq<CurrentRow>, bad: set<nat>) {
    row.rowNumber !in bad && exists c :: Existing(current, row.key, c) && c.cells == row.cells
  }

  function UpdatedRows(us: seq<RowUpdate>): seq<FileRow> {
    seq(|us|, i requires 0 <= i < |us| => us[i].row)
  }

  ghost function AllRows(out: TableDiff): multiset<FileRow> {
    multiset(out.inserts) + multiset(UpdatedRows(out.updates)) + multiset(out.same) + multiset(out.invalid)
  }

  ghost predicate Classified(out: TableDiff, current: seq<CurrentRow>, bad: set<nat>) {
    && (forall r :: r in out.inserts ==> IsInsert(r, current, bad))
    && (forall u :: u in out.updates ==> IsUpdate(u, current, bad))
    && (forall r :: r in out.same ==> IsSame(r, current, bad))
    && (forall r :: r in out.invalid ==> r.rowNumber in bad)
  }

  /** The diff: each file row lands in exactly one list, by what the live row of its key says. */
  ghost predicate IsDiff(out: TableDiff, rows: seq<FileRow>, current: seq<CurrentRow>, bad: set<nat>) {
    AllRows(out) == multiset(rows) && Classified(out, current, bad)
  }

  lemma AddUpdate(us: seq<RowUpdate>, u: RowUpdate)
    ensures multiset(UpdatedRows(us + [u])) == multiset(UpdatedRows(us)) + multiset{u.row}
  {
    assert UpdatedRows(us + [u]) == UpdatedRows(us) + [u.row];
  }

  // One row more in one of the lists.

  lemma OneInsert(out: TableDiff, rows: seq<FileRow>, current: seq<CurrentRow>, bad: set<nat>, row: FileRow)
    requires IsDiff(out, rows, current, bad) && IsInsert(row, current, bad)
    ensures IsDiff(out.(inserts := out.inserts + [row]), rows + [row], current, bad)
  {
  }

  lemma OneUpdate(out: TableDiff, rows: seq<FileRow>, current: seq<CurrentRow>, bad: set<nat>, u: RowUpdate)
    requires IsDiff(out, rows, current, bad) && IsUpdate(u, current, bad)
    ensures IsDiff(out.(updates := out.updates + [u]), rows + [u.row], current, bad)
  {
    AddUpdate(out.updates, u);
  }

  lemma OneSame(out: TableDiff, rows: seq<FileRow>, current: seq<CurrentRow>, bad: set<nat>, row: FileRow)
    requires IsDiff(out, rows, current, bad) && IsSame(row, current, bad)
    ensures IsDiff(out.(same := out.same + [row]), rows + [row], current, bad)
  {
  }

  lemma OneInvalid(out: TableDiff, rows: seq<FileRow>, current: seq<CurrentRow>, bad: set<nat>, row: FileRow)
    requires IsDiff(out, rows, current, bad) && row.rowNumber in bad
    ensures IsDiff(out.(invalid := out.invalid + [row]), rows + [row], current, bad)
  {
  }

  method IndexByKey(current: seq<CurrentRow>) returns (byKey: map<Key, CurrentRow>)
    requires DistinctKeys(current)
    ensures forall k :: k in byKey ==> Existing(current, k, byKey[k])
    ensures forall c :: c in current ==> c.key in byKey && byKey[c.key] == c
  {
    byKey := map[];
    for n := 0 to |current|
      invariant forall k :: k in byKey ==> byKey[k] in current[..n] && byKey[k].key == k
      invariant forall c :: c in current[..n] ==> c.key in byKey && byKey[c.key] == c
    {
      byKey := byKey[current[n].key := current[n]];
      assert current[..n + 1] == current[..n] + [current[n]];
    }
    assert current[..|current|] == current;
  }

  method DiffTable(rows: seq<FileRow>, current: seq<CurrentRow>, bad: set<nat>) returns (out: TableDiff)
    requires DistinctKeys(current)
    ensures IsDiff(out, rows, current, bad)
  {
    var byKey := IndexByKey(current);
    out := TableDiff([], [], [], []);
    for n := 0 to |rows|
      invariant IsDiff(out, rows[..n], current, bad)
    {
      var row := rows[n];
      assert rows[..n + 1] == rows[..n] + [row];
      if row.rowNumber in bad {
        OneInvalid(out, rows[..n], current, bad, row);
        out := out.(invalid := out.invalid + [row]);
        continue;
      }
      if row.key !in byKey {
        OneInsert(out, rows[..n], current, bad, row);
        out := out.(inserts := out.inserts + [row]);
        continue;
      }
      var existing := byKey[row.key];
      assert Existing(current, row.key, existing);
      var changes := ListChanges(existing.cells, row.cells);
      if changes != [] {
        var update := RowUpdate(row, existing.id, changes);
        OneUpdate(out, rows[..n], current, bad, update);
        out := out.(updates := out.updates + [update]);
      } else {
        OneSame(out, rows[..n], current, bad, row);
        out := out.(same := out.same + [row]);
      }
    }
    assert rows[..|rows|] == rows;
  }

  // ---- planTable --------------------------------------------------------------------------------------

  datatype DbRow = DbRow(id: nat, row: Row)
  datatype LaterBatch = LaterBatch(id: nat, keys: set<Key>)
  datatype Move = Move(id: nat, toBatch: nat)
  /** A key whose old version goes while a later batch's row stays. */
  datatype History = History(key: Key, supersededBy: nat)
  datatype TablePlan = TablePlan(
    deleteIds: seq<nat>, deletedCurrent: nat, deletedSuperseded: seq<History>, handedOver: seq<Move>, rearm: seq<nat>,
    relink: seq<Move>)

  predicate OwnKeysDistinct(own: seq<DbRow>) {
    forall i, j :: 0 <= i < j < |own| ==> own[i].row.key != own[j].row.key
  }

  /** `to` is the earliest batch of `later` whose file holds `k`; None when no file does. */
  ghost predicate HandsTo(later: seq<LaterBatch>, k: Key, to: Option<nat>) {
    match to
    case Some(a) =>
      && (exists l :: l in later && l.id == a && k in l.keys)
      && (forall l :: l in later && k in l.keys ==> a <= l.id)
    case None => forall l :: l in later ==> k !in l.keys
  }

  method EarliestWith(later: seq<LaterBatch>, k: Key) returns (to: Option<nat>)
    ensures HandsTo(later, k, to)
  {
    to := None;
    for n := 0 to |later|
      invariant HandsTo(later[..n], k, to)
    {
      assert later[..n + 1] == later[..n] + [later[n]];
      if k in later[n].keys && (to.None? || later[n].id < to.value) { to := Some(later[n].id); }
    }
    assert later[..|later|] == later;
  }

  /** Row `r` of the removed batch is handed over to batch `a`. */
  ghost predicate HandedOver(later: seq<LaterBatch>, r: Row, a: nat) {
    r.current && HandsTo(later, r.key, Some(a))
  }

  /** Where an earlier row points after the removal: the receiver of the removed batch's row, else its
    * superseder, else nowhere; without a row of the removed batch, the live row's batch. */
  ghost predicate Repoints(own: seq<DbRow>, later: seq<LaterBatch>, live: map<Key, nat>, k: Key, to: Option<nat>) {
    if exists m :: m in own && m.row.key == k then
      exists m :: m in own && m.row.key == k &&
        if m.row.current then HandsTo(later, k, to) else to == m.row.supersededBy
    else to == if k in live then Some(live[k]) else None
  }

  ghost predicate Kept(later: seq<LaterBatch>, r: Row) {
    exists a :: HandedOver(later, r, a)
  }

  ghost predicate OwnPlanned(handedOver: seq<Move>, deleteIds: seq<nat>, own: seq<DbRow>, later: seq<LaterBatch>) {
    && (forall r, a :: r in own && HandedOver(later, r.row, a) ==> Move(r.id, a) in handedOver)
    && (forall m :: m in handedOver ==> exists r :: r in own && r.id == m.id && HandedOver(later, r.row, m.toBatch))
    && (forall r :: r in own && !Kept(later, r.row) ==> r.id in deleteIds)
    && (forall d :: d in deleteIds ==> exists r :: r in own && r.id == d && !Kept(later, r.row))
  }

  ghost predicate IsPlanned(rearm: seq<nat>, relink: seq<Move>, own: seq<DbRow>, later: seq<LaterBatch>,
                            live: map<Key, nat>, e: DbRow)
  {
    || (Repoints(own, later, live, e.row.key, None) && e.id in rearm)
    || (exists a :: Repoints(own, later, live, e.row.key, Some(a)) && Move(e.id, a) in relink)
  }

  ghost predicate RearmFrom(own: seq<DbRow>, earlier: seq<DbRow>, later: seq<LaterBatch>, live: map<Key, nat>, id: nat)
  {
    exists e :: e in earlier && e.id == id && Repoints(own, later, live, e.row.key, None)
  }

  ghost predicate RelinkFrom(own: seq<DbRow>, earlier: seq<DbRow>, later: seq<LaterBatch>, live: map<Key, nat>, m: Move)
  {
    exists e :: e in earlier && e.id == m.id && Repoints(own, later, live, e.row.key, Some(m.toBatch))
  }

  ghost predicate EarlierPlanned(rearm: seq<nat>, relink: seq<Move>, own: seq<DbRow>, earlier: seq<DbRow>,
                                 later: seq<LaterBatch>, live: map<Key, nat>)
  {
    && (forall e :: e in earlier ==> IsPlanned(rearm, relink, own, later, live, e))
    && (forall d :: d in rearm ==> RearmFrom(own, earlier, later, live, d))
    && (forall m :: m in relink ==> RelinkFrom(own, earlier, later, live, m))
  }

  lemma HandsToUnique(later: seq<LaterBatch>, k: Key, s: Option<nat>, t: Option<nat>)
    requires HandsTo(later, k, s) && HandsTo(later, k, t)
    ensures s == t
  {
  }

  function CurrentCount(own: seq<DbRow>): nat {
    if own == [] then 0
    else CurrentCount(own[..|own| - 1]) + (if own[|own| - 1].row.current then 1 else 0)
  }

  /** The superseded rows, by key and superseder. */
  function HistoryOf(own: seq<DbRow>): seq<History> {
    if own == [] then []
    else
      var r := own[|own| - 1].row;
      HistoryOf(own[..|own| - 1]) +
      if !r.current && r.supersededBy.Some? then [History(r.key, r.supersededBy.value)] else []
  }

  /** Every own row is handed over or deleted, and a deleted one is reported as live or as history. */
  predicate Reported(own: seq<DbRow>, handedOver: seq<Move>, deleteIds: seq<nat>, deletedCurrent: nat,
                     deletedSuperseded: seq<History>)
  {
    && |handedOver| + |deleteIds| == |own|
    && |handedOver| + deletedCurrent == CurrentCount(own)
    && deletedSuperseded == HistoryOf(own)
  }

  lemma ReportStep(own: seq<DbRow>, r: DbRow)
    ensures CurrentCount(own + [r]) == CurrentCount(own) + (if r.row.current then 1 else 0)
    ensures HistoryOf(own + [r]) == HistoryOf(own) +
      if !r.row.current && r.row.supersededBy.Some? then [History(r.row.key, r.row.supersededBy.value)] else []
  {
    assert (own + [r])[..|own|] == own;
  }

  /** When every superseded row names its superseder, the two reports make up the deletions. */
  lemma {:induction false} HistoryCount(own: seq<DbRow>)
    requires forall r :: r in own && !r.row.current ==> r.row.supersededBy.Some?
    ensures CurrentCount(own) + |HistoryOf(own)| == |own|
  {
    if own != [] { HistoryCount(own[..|own| - 1]); }
  }

  lemma ReportsAddUp(own: seq<DbRow>, handedOver: seq<Move>, deleteIds: seq<nat>, deletedCurrent: nat,
                     deletedSuperseded: seq<History>)
    requires Reported(own, handedOver, deleteIds, deletedCurrent, deletedSuperseded)
    requires forall r :: r in own && !r.row.current ==> r.row.supersededBy.Some?
    ensures |deleteIds| == deletedCurrent + |deletedSuperseded|
  {
    HistoryCount(own);
  }

  datatype Mine = Mine(row: Row, handedTo: Option<nat>)

  ghost predicate IsMine(m: DbRow, mine: Mine, later: seq<LaterBatch>) {
    mine.row == m.row && if m.row.current then HandsTo(later, m.row.key, mine.handedTo) else mine.handedTo == None
  }

  ghost predicate Indexed(ownByKey: map<Key, Mine>, own: seq<DbRow>, later: seq<LaterBatch>) {
    && (forall k :: k in ownByKey ==> exists m :: m in own && m.row.key == k)
    && (forall m :: m in own ==> m.row.key in ownByKey && IsMine(m, ownByKey[m.row.key], later))
  }

  lemma OwnStep(handedOver: seq<Move>, deleteIds: seq<nat>, own: seq<DbRow>, later: seq<LaterBatch>, r: DbRow,
                handedTo: Option<nat>)
    requires OwnPlanned(handedOver, deleteIds, own, later)
    requires if r.row.current then HandsTo(later, r.row.key, handedTo) else handedTo == None
    ensures handedTo.Some? ==> OwnPlanned(handedOver + [Move(r.id, handedTo.value)], deleteIds, own + [r], later)
    ensures handedTo.None? ==> OwnPlanned(handedOver, deleteIds + [r.id], own + [r], later)
  {
    forall a: nat ensures HandedOver(later, r.row, a) <==> handedTo == Some(a) {
      if r.row.current && HandedOver(later, r.row, a) { HandsToUnique(later, r.row.key, handedTo, Some(a)); }
    }
    if handedTo.Some? { assert Kept(later, r.row); }
  }

  lemma IndexStep(ownByKey: map<Key, Mine>, own: seq<DbRow>, later: seq<LaterBatch>, r: DbRow, handedTo: Option<nat>)
    requires Indexed(ownByKey, own, later) && forall m :: m in own ==> m.row.key != r.row.key
    requires IsMine(r, Mine(r.row, handedTo), later)
    ensures Indexed(ownByKey[r.row.key := Mine(r.row, handedTo)], own + [r], later)
  {
    forall k | k in ownByKey ensures exists m :: m in own + [r] && m.row.key == k {
      var m :| m in own && m.row.key == k;
      assert m in own + [r];
    }
    assert r in own + [r];
  }

  lemma NewKey(own: seq<DbRow>, n: nat)
    requires OwnKeysDistinct(own) && n < |own|
    ensures own[..n + 1] == own[..n] + [own[n]]
    ensures forall m :: m in own[..n] ==> m.row.key != own[n].row.key
  {
  }

  /** What the loop over the own rows has gathered. */
  datatype OwnPlan = OwnPlan(
    handedOver: seq<Move>, deleteIds: seq<nat>, deletedCurrent: nat, deletedSuperseded: seq<History>,
    ownByKey: map<Key, Mine>)

  ghost predicate IsOwnPlan(plan: OwnPlan, own: seq<DbRow>, later: seq<LaterBatch>) {
    && OwnPlanned(plan.handedOver, plan.deleteIds, own, later)
    && Reported(own, plan.handedOver, plan.deleteIds, plan.deletedCurrent, plan.deletedSuperseded)
    && Indexed(plan.ownByKey, own, later)
  }

  /** One own row, handed over or deleted. */
  function WithOwn(plan: OwnPlan, r: DbRow, handedTo: Option<nat>): OwnPlan {
    var indexed := plan.(ownByKey := plan.ownByKey[r.row.key := Mine(r.row, handedTo)]);
    if handedTo.Some? then indexed.(handedOver := plan.handedOver + [Move(r.id, handedTo.value)])
    else
      var deleted := indexed.(deleteIds := plan.deleteIds + [r.id]);
      if r.row.current then deleted.(deletedCurrent := plan.deletedCurrent + 1)
      else if r.row.supersededBy.Some? then
        deleted.(deletedSuperseded := plan.deletedSuperseded + [History(r.row.key, r.row.supersededBy.value)])
      else deleted
  }

  lemma WithOwnIsPlan(plan: OwnPlan, own: seq<DbRow>, later: seq<LaterBatch>, r: DbRow, handedTo: Option<nat>)
    requires IsOwnPlan(plan, own, later) && forall m :: m in own ==> m.row.key != r.row.key
    requires if r.row.current then HandsTo(later, r.row.key, handedTo) else handedTo == None
    ensures IsOwnPlan(WithOwn(plan, r, handedTo), own + [r], later)
  {
    IndexStep(plan.ownByKey, own, later, r, handedTo);
    OwnStep(plan.handedOver, plan.deleteIds, own, later, r, handedTo);
    ReportStep(own, r);
  }

  method PlanOwn(own: seq<DbRow>, later: seq<LaterBatch>) returns (plan: OwnPlan)
    requires OwnKeysDistinct(own)
    ensures IsOwnPlan(plan, own, later)
  {
    plan := OwnPlan([], [], 0, [], map[]);
    for n := 0 to |own|
      invariant IsOwnPlan(plan, own[..n], later)
    {
      var r := own[n];
      NewKey(own, n);
      var handedTo := None;
      if r.row.current { handedTo := EarliestWith(later, r.row.key); }
      WithOwnIsPlan(plan, own[..n], later, r, handedTo);
      plan := WithOwn(plan, r, handedTo);
    }
    assert own[..|own|] == own;
  }

  lemma StaysPlanned(rearm: seq<nat>, relink: seq<Move>, more: seq<nat>, links: seq<Move>, own: seq<DbRow>,
                     later: seq<LaterBatch>, live: map<Key, nat>, e: DbRow)
    requires IsPlanned(rearm, relink, own, later, live, e)
    ensures IsPlanned(rearm + more, relink + links, own, later, live, e)
  {
    if !(Repoints(own, later, live, e.row.key, None) && e.id in rearm) {
      var a :| Repoints(own, later, live, e.row.key, Some(a)) && Move(e.id, a) in relink;
      assert Move(e.id, a) in relink + links;
    }
  }

  lemma StaysFrom(own: seq<DbRow>, earlier: seq<DbRow>, later: seq<LaterBatch>, live: map<Key, nat>, e: DbRow)
    ensures forall d :: RearmFrom(own, earlier, later, live, d) ==> RearmFrom(own, earlier + [e], later, live, d)
    ensures forall m :: RelinkFrom(own, earlier, later, live, m) ==> RelinkFrom(own, earlier + [e], later, live, m)
  {
    forall d | RearmFrom(own, earlier, later, live, d) ensures RearmFrom(own, earlier + [e], later, live, d) {
      var x :| x in earlier && x.id == d && Repoints(own, later, live, x.row.key, None);
      assert x in earlier + [e];
    }
    forall m | RelinkFrom(own, earlier, later, live, m) ensures RelinkFrom(own, earlier + [e], later, live, m) {
      var x :| x in earlier && x.id == m.id && Repoints(own, later, live, x.row.key, Some(m.toBatch));
      assert x in earlier + [e];
    }
  }

  lemma PlannedNow(own: seq<DbRow>, earlier: seq<DbRow>, later: seq<LaterBatch>, live: map<Key, nat>,
                   rearm: seq<nat>, relink: seq<Move>, e: DbRow, to: Option<nat>)
    requires e in earlier && Repoints(own, later, live, e.row.key, to)
    requires if to.None? then e.id in rearm else Move(e.id, to.value) in relink
    ensures IsPlanned(rearm, relink, own, later, live, e)
    ensures if to.None? then RearmFrom(own, earlier, later, live, e.id)
            else RelinkFrom(own, earlier, later, live, Move(e.id, to.value))
  {
  }

  lemma EarlierStep(rearm: seq<nat>, relink: seq<Move>, own: seq<DbRow>, earlier: seq<DbRow>, later: seq<LaterBatch>,
                    live: map<Key, nat>, e: DbRow, to: Option<nat>)
    requires EarlierPlanned(rearm, relink, own, earlier, later, live) && Repoints(own, later, live, e.row.key, to)
    ensures var more, links := if to.None? then [e.id] else [], if to.Some? then [Move(e.id, to.value)] else [];
      EarlierPlanned(rearm + more, relink + links, own, earlier + [e], later, live)
  {
    var more, links := if to.None? then [e.id] else [], if to.Some? then [Move(e.id, to.value)] else [];
    StaysFrom(own, earlier, later, live, e);
    PlannedNow(own, earlier + [e], later, live, rearm + more, relink + links, e, to);
    forall x | x in earlier + [e] ensures IsPlanned(rearm + more, relink + links, own, later, live, x) {
      if x in earlier { StaysPlanned(rearm, relink, more, links, own, later, live, x); }
    }
  }

  function ToBatch(ownByKey: map<Key, Mine>, live: map<Key, nat>, k: Key): Option<nat> {
    if k in ownByKey then
      var mine := ownByKey[k];
      if mine.handedTo.Some? then mine.handedTo else if mine.row.current then None else mine.row.supersededBy
    else if k in live then Some(live[k])
    else None
  }

  lemma RepointsByIndex(own: seq<DbRow>, later: seq<LaterBatch>, live: map<Key, nat>, ownByKey: map<Key, Mine>, k: Key)
    requires Indexed(ownByKey, own, later)
    ensures Repoints(own, later, live, k, ToBatch(ownByKey, live, k))
  {
    if k in ownByKey {
      var m :| m in own && m.row.key == k;
      assert IsMine(m, ownByKey[k], later);
    }
  }

  method PlanEarlier(own: seq<DbRow>, earlier: seq<DbRow>, later: seq<LaterBatch>, live: map<Key, nat>,
                     ownByKey: map<Key, Mine>)
    returns (rearm: seq<nat>, relink: seq<Move>)
    requires Indexed(ownByKey, own, later)
    ensures EarlierPlanned(rearm, relink, own, earlier, later, live)
  {
    rearm, relink := [], [];
    for n := 0 to |earlier|
      invariant EarlierPlanned(rearm, relink, own, earlier[..n], later, live)
    {
      var e := earlier[n];
      assert earlier[..n + 1] == earlier[..n] + [e];
      var toBatch := ToBatch(ownByKey, live, e.row.key);
      RepointsByIndex(own, later, live, ownByKey, e.row.key);
      EarlierStep(rearm, relink, own, earlier[..n], later, live, e, toBatch);
      assert rearm + [] == rearm && relink + [] == relink;
      if toBatch.None? {
        rearm := rearm + [e.id];
      } else {
        relink := relink + [Move(e.id, toBatch.value)];
      }
    }
    assert earlier[..|earlier|] == earlier;
  }

  /** `planTable`: a removal of one batch, from its rows, the rows it superseded and the later files' keys. */
  method PlanTable(own: seq<DbRow>, earlier: seq<DbRow>, later: seq<LaterBatch>, live: map<Key, nat>)
    returns (plan: TablePlan)
    requires OwnKeysDistinct(own)
    ensures OwnPlanned(plan.handedOver, plan.deleteIds, own, later)
    ensures Reported(own, plan.handedOver, plan.deleteIds, plan.deletedCurrent, plan.deletedSuperseded)
    ensures EarlierPlanned(plan.rearm, plan.relink, own, earlier, later, live)
  {
    var mine := PlanOwn(own, later);
    var rearm, relink := PlanEarlier(own, earlier, later, live, mine.ownByKey);
    plan := TablePlan(mine.deleteIds, mine.deletedCurrent, mine.deletedSuperseded, mine.handedOver, rearm, relink);
  }
}
