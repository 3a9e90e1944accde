/** A removal plan and its statements add up to RemovedRows. */
module MarcomRemoval {
  import opened Prelude
  import opened MarcomModel
  import opened MarcomChain
  import opened MarcomPlan

  // ---- what was read ---------------------------------------------------------------------------------

  /** `own` is exactly the rows of batch `b`. */
  ghost predicate ReadOwn(rows: map<nat, Row>, b: nat, own: seq<DbRow>) {
    && OwnKeysDistinct(own)
    && (forall x :: x in own ==> x.id in rows && rows[x.id] == x.row && x.row.batch == b)
    && (forall id :: id in rows && rows[id].batch == b ==> DbRow(id, rows[id]) in own)
  }

  /** `earlier` is exactly the rows that batch `b` superseded. */
  ghost predicate ReadEarlier(rows: map<nat, Row>, b: nat, earlier: seq<DbRow>) {
    && (forall x :: x in earlier ==> x.id in rows && rows[x.id] == x.row && x.row.supersededBy == Some(b))
    && (forall id :: id in rows && rows[id].supersededBy == Some(b) ==> DbRow(id, rows[id]) in earlier)
  }

  /** `list` holds the file keys of exactly the batches of `later`. */
  ghost predicate ReadLater(db: Db, later: set<nat>, list: seq<LaterBatch>) {
    && (forall l :: l in list ==> l.id in later && l.id in db.batches && l.keys == db.batches[l.id].file.Keys)
    && (forall a :: a in later ==> exists l :: l in list && l.id == a)
  }

  lemma HandsToIsHandTo(db: Db, later: set<nat>, list: seq<LaterBatch>, k: Key)
    requires ReadLater(db, later, list)
    ensures HandsTo(list, k, HandTo(db, later, k))
  {
    HandToSpec(db, later, k);
    forall l | l in list && k in l.keys ensures l.id in later && HoldsKey(db, l.id, k) { }
    if HandTo(db, later, k).Some? {
      var a := HandTo(db, later, k).value;
      var l :| l in list && l.id == a;
      assert k in l.keys;
    }
  }

  /** Row `r` of the removed batch is handed over. */
  ghost predicate Goes(db: Db, later: set<nat>, r: Row) {
    r.current && HandTo(db, later, r.key).Some?
  }

  lemma KeptIffGoes(db: Db, later: set<nat>, list: seq<LaterBatch>, r: Row)
    requires ReadLater(db, later, list)
    ensures Kept(list, r) <==> Goes(db, later, r)
    ensures forall a: nat :: HandedOver(list, r, a) <==> r.current && HandTo(db, later, r.key) == Some(a)
  {
    HandsToIsHandTo(db, later, list, r.key);
    forall a: nat ensures HandedOver(list, r, a) <==> r.current && HandTo(db, later, r.key) == Some(a) {
      if HandedOver(list, r, a) { HandsToUnique(list, r.key, Some(a), HandTo(db, later, r.key)); }
    }
    if Goes(db, later, r) { assert HandedOver(list, r, HandTo(db, later, r.key).value); }
  }

  // ---- what the plan says ------------------------------------------------------------------------------

  ghost predicate HandoversRight(db: Db, b: nat, later: set<nat>, moves: seq<Move>) {
    && (forall m :: m in moves ==> m.id in db.rows && db.rows[m.id].batch == b && db.rows[m.id].current
                                   && HandTo(db, later, db.rows[m.id].key) == Some(m.toBatch))
    && (forall id :: id in db.rows && db.rows[id].batch == b && Goes(db, later, db.rows[id]) ==>
        exists m :: m in moves && m.id == id)
  }

  ghost predicate DeletesRight(db: Db, b: nat, later: set<nat>, ids: seq<nat>) {
    forall id :: id in ids <==> id in db.rows && db.rows[id].batch == b && !Goes(db, later, db.rows[id])
  }

  ghost predicate Superseded(db: Db, b: nat, id: nat) {
    id in db.rows && db.rows[id].supersededBy == Some(b)
  }

  ghost predicate RearmsRight(db: Db, b: nat, later: set<nat>, ids: seq<nat>) {
    forall id :: id in ids <==> Superseded(db, b, id) && RelinkTarget(db, b, later, db.rows[id].key) == None
  }

  ghost predicate RelinksRight(db: Db, b: nat, later: set<nat>, moves: seq<Move>) {
    && (forall m :: m in moves ==>
        Superseded(db, b, m.id) && RelinkTarget(db, b, later, db.rows[m.id].key) == Some(m.toBatch))
    && (forall id :: Superseded(db, b, id) && RelinkTarget(db, b, later, db.rows[id].key).Some? ==>
        exists m :: m in moves && m.id == id)
  }

  lemma OwnPlanIsRight(db: Db, b: nat, later: set<nat>, own: seq<DbRow>, list: seq<LaterBatch>, handedOver: seq<Move>,
                       deleteIds: seq<nat>)
    requires ReadOwn(db.rows, b, own) && ReadLater(db, later, list) && OwnPlanned(handedOver, deleteIds, own, list)
    ensures HandoversRight(db, b, later, handedOver) && DeletesRight(db, b, later, deleteIds)
  {
    forall m | m in handedOver
      ensures m.id in db.rows && db.rows[m.id].batch == b && db.rows[m.id].current &&
        HandTo(db, later, db.rows[m.id].key) == Some(m.toBatch)
    {
      var r :| r in own && r.id == m.id && HandedOver(list, r.row, m.toBatch);
      KeptIffGoes(db, later, list, r.row);
    }
    forall id | id in db.rows && db.rows[id].batch == b
      ensures Goes(db, later, db.rows[id]) ==> exists m :: m in handedOver && m.id == id
      ensures !Goes(db, later, db.rows[id]) ==> id in deleteIds
    {
      var r := DbRow(id, db.rows[id]);
      assert r in own;
      KeptIffGoes(db, later, list, r.row);
      if Goes(db, later, r.row) { assert Move(id, HandTo(db, later, r.row.key).value) in handedOver; }
    }
    forall d | d in deleteIds ensures d in db.rows && db.rows[d].batch == b && !Goes(db, later, db.rows[d]) {
      var r :| r in own && r.id == d && !Kept(list, r.row);
      KeptIffGoes(db, later, list, r.row);
    }
  }

  /** What the plan computes for an earlier row is the only target that repoints it. */
  lemma RepointsIsTarget(db: Db, b: nat, later: set<nat>, own: seq<DbRow>, list: seq<LaterBatch>, live: map<Key, nat>,
                         id: nat, to: Option<nat>)
    requires OneRowPerBatch(db.rows) && ReadOwn(db.rows, b, own) && ReadLater(db, later, list)
    requires Superseded(db, b, id) && HasRow(db.rows, b, db.rows[id].key)
    requires Repoints(own, list, live, db.rows[id].key, to)
    ensures to == RelinkTarget(db, b, later, db.rows[id].key)
  {
    var k := db.rows[id].key;
    var o :| RowOf(db.rows, b, k, o);
    assert DbRow(o, db.rows[o]) in own;
    var m :| m in own && m.row.key == k && if m.row.current then HandsTo(list, k, to) else to == m.row.supersededBy;
    assert m.id == o;
    TargetByOwnRow(db, b, later, k, o);
    HandsToIsHandTo(db, later, list, k);
    if m.row.current { HandsToUnique(list, k, to, HandTo(db, later, k)); }
  }

  lemma EarlierPlanIsRight(db: Db, b: nat, later: set<nat>, own: seq<DbRow>, earlier: seq<DbRow>, list: seq<LaterBatch>,
                           live: map<Key, nat>, rearm: seq<nat>, relink: seq<Move>)
    requires OneRowPerBatch(db.rows) && LinksOk(db.rows)
    requires ReadOwn(db.rows, b, own) && ReadEarlier(db.rows, b, earlier) && ReadLater(db, later, list)
    requires EarlierPlanned(rearm, relink, own, earlier, list, live)
    ensures RearmsRight(db, b, later, rearm) && RelinksRight(db, b, later, relink)
  {
    forall id | Superseded(db, b, id) ensures HasRow(db.rows, b, db.rows[id].key) {
      assert LinkOk(db.rows, id);
      SupersederHasOwnRow(db.rows, b, id);
    }
    forall id | id in rearm ensures Superseded(db, b, id) && RelinkTarget(db, b, later, db.rows[id].key) == None {
      assert RearmFrom(own, earlier, list, live, id);
      var e :| e in earlier && e.id == id && Repoints(own, list, live, e.row.key, None);
      RepointsIsTarget(db, b, later, own, list, live, id, None);
    }
    forall m | m in relink
      ensures Superseded(db, b, m.id) && RelinkTarget(db, b, later, db.rows[m.id].key) == Some(m.toBatch)
    {
      assert RelinkFrom(own, earlier, list, live, m);
      var e :| e in earlier && e.id == m.id && Repoints(own, list, live, e.row.key, Some(m.toBatch));
      RepointsIsTarget(db, b, later, own, list, live, m.id, Some(m.toBatch));
    }
    forall id | Superseded(db, b, id)
      ensures RelinkTarget(db, b, later, db.rows[id].key) == None ==> id in rearm
      ensures RelinkTarget(db, b, later, db.rows[id].key).Some? ==> exists m :: m in relink && m.id == id
    {
      EarlierRowPlanned(db, b, later, own, earlier, list, live, rearm, relink, id);
    }
  }

  lemma EarlierRowPlanned(db: Db, b: nat, later: set<nat>, own: seq<DbRow>, earlier: seq<DbRow>, list: seq<LaterBatch>,
                          live: map<Key, nat>, rearm: seq<nat>, relink: seq<Move>, id: nat)
    requires OneRowPerBatch(db.rows) && Superseded(db, b, id) && HasRow(db.rows, b, db.rows[id].key)
    requires ReadOwn(db.rows, b, own) && ReadEarlier(db.rows, b, earlier) && ReadLater(db, later, list)
    requires EarlierPlanned(rearm, relink, own, earlier, list, live)
    ensures RelinkTarget(db, b, later, db.rows[id].key) == None ==> id in rearm
    ensures RelinkTarget(db, b, later, db.rows[id].key).Some? ==> exists m :: m in relink && m.id == id
  {
    var e := DbRow(id, db.rows[id]);
    assert e in earlier && IsPlanned(rearm, relink, own, list, live, e);
    if Repoints(own, list, live, e.row.key, None) && e.id in rearm {
      RepointsIsTarget(db, b, later, own, list, live, id, None);
    } else {
      var a :| Repoints(own, list, live, e.row.key, Some(a)) && Move(e.id, a) in relink;
      RepointsIsTarget(db, b, later, own, list, live, id, Some(a));
    }
  }

  // ---- the statements, list by list ------------------------------------------------------------------------

  ghost predicate Moves(moves: seq<Move>, id: nat) {
    exists m :: m in moves && m.id == id
  }

  ghost predicate MovesAgree(moves: seq<Move>) {
    forall m, n :: m in moves && n in moves && m.id == n.id ==> m == n
  }

  ghost predicate HandedOverRows(before: map<nat, Row>, after: map<nat, Row>, moves: seq<Move>) {
    && after.Keys == before.Keys
    && (forall m :: m in moves ==> m.id in before && after[m.id] == before[m.id].(batch := m.toBatch))
    && (forall id :: id in before && !Moves(moves, id) ==> after[id] == before[id])
  }

  ghost predicate RearmedRows(before: map<nat, Row>, after: map<nat, Row>, ids: seq<nat>) {
    && after.Keys == before.Keys
    && forall id :: id in before ==>
         after[id] == if id in ids then before[id].(current := true, supersededBy := None) else before[id]
  }

  ghost predicate RelinkedRows(before: map<nat, Row>, after: map<nat, Row>, moves: seq<Move>) {
    && after.Keys == before.Keys
    && (forall m :: m in moves ==> m.id in before && after[m.id] == before[m.id].(supersededBy := Some(m.toBatch)))
    && (forall id :: id in before && !Moves(moves, id) ==> after[id] == before[id])
  }

  ghost predicate PlanRight(db: Db, b: nat, later: set<nat>, plan: TablePlan) {
    && HandoversRight(db, b, later, plan.handedOver) && DeletesRight(db, b, later, plan.deleteIds)
    && RearmsRight(db, b, later, plan.rearm) && RelinksRight(db, b, later, plan.relink)
  }

  ghost function WithoutIds(rows: map<nat, Row>, ids: seq<nat>): map<nat, Row> {
    map id | id in rows && id !in ids :: rows[id]
  }

  /** A row of the removed batch after handing over and deleting. */
  lemma OwnRowAfter(db: Db, b: nat, later: set<nat>, plan: TablePlan, moved: map<nat, Row>, id: nat)
    requires HandoversRight(db, b, later, plan.handedOver) && DeletesRight(db, b, later, plan.deleteIds)
    requires HandedOverRows(db.rows, moved, plan.handedOver)
    requires id in db.rows
    ensures id in WithoutIds(moved, plan.deleteIds) <==> db.rows[id].batch != b || Goes(db, later, db.rows[id])
    ensures db.rows[id].batch != b ==> moved[id] == db.rows[id]
    ensures db.rows[id].batch == b && Goes(db, later, db.rows[id]) ==>
      moved[id] == db.rows[id].(batch := HandTo(db, later, db.rows[id].key).value)
  {
    if db.rows[id].batch != b {
      assert !Moves(plan.handedOver, id);
    } else if Goes(db, later, db.rows[id]) {
      var m :| m in plan.handedOver && m.id == id;
    }
  }

  /** The four lists of statements, in the source's order, produce RemovedRows. */
  lemma StatementsAddUp(db: Db, b: nat, later: set<nat>, plan: TablePlan,
                        moved: map<nat, Row>, rearmed: map<nat, Row>, relinked: map<nat, Row>)
    requires PlanRight(db, b, later, plan)
    requires forall id :: Superseded(db, b, id) ==> db.rows[id].batch != b
    requires HandedOverRows(db.rows, moved, plan.handedOver)
    requires RearmedRows(WithoutIds(moved, plan.deleteIds), rearmed, plan.rearm)
    requires RelinkedRows(rearmed, relinked, plan.relink)
    ensures relinked == RemovedRows(db, b, later)
  {
    SameIds(db, b, later, plan, moved);
    assert relinked.Keys == WithoutIds(moved, plan.deleteIds).Keys;
    forall id | id in relinked ensures relinked[id] == RemovedRows(db, b, later)[id] {
      OwnRowAfter(db, b, later, plan, moved, id);
      RowAddsUp(db, b, later, plan, WithoutIds(moved, plan.deleteIds), rearmed, relinked, id);
    }
  }

  /** The ids left after the deletions are those of RemovedRows. */
  lemma SameIds(db: Db, b: nat, later: set<nat>, plan: TablePlan, moved: map<nat, Row>)
    requires HandoversRight(db, b, later, plan.handedOver) && DeletesRight(db, b, later, plan.deleteIds)
    requires HandedOverRows(db.rows, moved, plan.handedOver)
    ensures WithoutIds(moved, plan.deleteIds).Keys == RemovedRows(db, b, later).Keys
  {
    forall id: nat ensures id in WithoutIds(moved, plan.deleteIds) <==> id in RemovedRows(db, b, later) {
      if id in db.rows { OwnRowAfter(db, b, later, plan, moved, id); }
    }
  }

  lemma RowAddsUp(db: Db, b: nat, later: set<nat>, plan: TablePlan,
                  kept: map<nat, Row>, rearmed: map<nat, Row>, relinked: map<nat, Row>, id: nat)
    requires RearmsRight(db, b, later, plan.rearm) && RelinksRight(db, b, later, plan.relink)
    requires Superseded(db, b, id) ==> db.rows[id].batch != b
    requires RearmedRows(kept, rearmed, plan.rearm) && RelinkedRows(rearmed, relinked, plan.relink)
    requires id in relinked && id in db.rows
    requires db.rows[id].batch != b ==> kept[id] == db.rows[id]
    requires db.rows[id].batch == b ==>
      Goes(db, later, db.rows[id]) && kept[id] == db.rows[id].(batch := HandTo(db, later, db.rows[id].key).value)
    ensures AfterRemoval(db, b, later, db.rows[id]) == Some(relinked[id])
  {
    if Superseded(db, b, id) && RelinkTarget(db, b, later, db.rows[id].key).Some? {
      var m :| m in plan.relink && m.id == id;
      assert relinked[m.id] == rearmed[m.id].(supersededBy := Some(m.toBatch));
    } else {
      assert !Moves(plan.relink, id);
    }
  }

  // ---- brands ------------------------------------------------------------------------------------------------

  /** The batches whose rows still use brand `f` once the plan is applied, as the plan computes them: rows it
    * does not delete, by the batch they are handed over to or else belong to. */
  ghost predicate UsedByAfter(db: Db, plan: TablePlan, f: string, a: nat) {
    exists id :: id in db.rows && db.rows[id].data.brand == Some(f) && id !in plan.deleteIds &&
      OwnerAfter(db, plan, id, a)
  }

  ghost predicate OwnerAfter(db: Db, plan: TablePlan, id: nat, a: nat)
    requires id in db.rows
  {
    Move(id, a) in plan.handedOver || (!Moves(plan.handedOver, id) && a == db.rows[id].batch)
  }

  lemma OwnerAfterIs(db: Db, b: nat, later: set<nat>, plan: TablePlan, id: nat, a: nat)
    requires HandoversRight(db, b, later, plan.handedOver) && DeletesRight(db, b, later, plan.deleteIds)
    requires id in db.rows && id !in plan.deleteIds
    ensures id in RemovedRows(db, b, later)
    ensures OwnerAfter(db, plan, id, a) <==> RemovedRows(db, b, later)[id].batch == a
  {
    if db.rows[id].batch == b {
      var m :| m in plan.handedOver && m.id == id;
    }
  }

  /** The plan foresees which batches use a brand after the removal. */
  lemma UsersForeseen(db: Db, b: nat, later: set<nat>, plan: TablePlan, f: string, a: nat)
    requires HandoversRight(db, b, later, plan.handedOver) && DeletesRight(db, b, later, plan.deleteIds)
    ensures UsedByAfter(db, plan, f, a) <==> BatchUses(RemovedRows(db, b, later), f, a)
  {
    var rows := RemovedRows(db, b, later);
    if UsedByAfter(db, plan, f, a) {
      var id :| id in db.rows && db.rows[id].data.brand == Some(f) && id !in plan.deleteIds &&
        OwnerAfter(db, plan, id, a);
      OwnerAfterIs(db, b, later, plan, id, a);
      assert UsesBrand(rows, f, a, id);
    }
    if BatchUses(rows, f, a) {
      var id :| UsesBrand(rows, f, a, id);
      OwnerAfterIs(db, b, later, plan, id, a);
      assert OwnerAfter(db, plan, id, a);
    }
  }
}
