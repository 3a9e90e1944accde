/** Last writer wins: what the live rows mean in terms of the files of the surviving batches. */
module MarcomHistory {
  import opened Prelude
  import opened MarcomModel
  import opened MarcomChain

  /** Row `id` is the newest row of key `k` owned by batch `n` or an earlier one. */
  ghost predicate IsAsOf(rows: map<nat, Row>, k: Key, n: nat, id: nat) {
    && id in rows && rows[id].key == k && rows[id].batch <= n
    && forall j :: j in rows && rows[j].key == k && rows[j].batch <= n ==> rows[j].batch <= rows[id].batch
  }

  /** As of batch `b` the store holds, for key `k`, what the file of `b` says. */
  ghost predicate Stated(db: Db, b: nat, k: Key)
    requires Holds(db, b, k)
  {
    exists id :: IsAsOf(db.rows, k, b, id) && db.rows[id].data == Store(db.batches[b].file[k])
  }

  /** The whole history is faithful: every surviving batch still states every key of its file. */
  ghost predicate Faithful(db: Db) {
    forall b, k :: Holds(db, b, k) ==> Stated(db, b, k)
  }

  /** `b` is the last writer of `k`: the newest surviving batch whose file holds it. */
  ghost predicate LastWriter(db: Db, k: Key, b: nat) {
    Holds(db, b, k) && forall a: nat :: Holds(db, a, k) ==> a <= b
  }

  /** The live value of every key is its last writer's; a key without a writer has no live row. */
  ghost predicate LastWriterWins(db: Db) {
    && (forall k, b :: LastWriter(db, k, b) ==> LiveHas(db, k, Store(db.batches[b].file[k])))
    && (forall k, id :: LiveAt(db.rows, k, id) ==> exists b :: LastWriter(db, k, b))
  }

  ghost predicate LiveHas(db: Db, k: Key, data: Stored) {
    exists id :: LiveAt(db.rows, k, id) && db.rows[id].data == data
  }

  // ---- a faithful history shows the last writer's values ----------------------------------------

  lemma {:induction false} LastWriterFrom(db: Db, k: Key, b: nat, rest: set<nat>) returns (last: nat)
    requires Holds(db, b, k) && rest <= db.batches.Keys
    requires forall a: nat :: Holds(db, a, k) && a > b ==> a in rest
    ensures LastWriter(db, k, last)
    decreases rest
  {
    if a: nat :| Holds(db, a, k) && a > b {
      last := LastWriterFrom(db, k, a, rest - {a});
    } else {
      last := b;
    }
  }

  lemma WriterIsLive(db: Db, k: Key, b: nat)
    requires OwnersOk(db) && LinksOk(db.rows) && LastWriter(db, k, b) && Stated(db, b, k)
    ensures LiveHas(db, k, Store(db.batches[b].file[k]))
  {
    var id :| IsAsOf(db.rows, k, b, id) && db.rows[id].data == Store(db.batches[b].file[k]);
    forall j | j in db.rows && db.rows[j].key == k ensures db.rows[j].batch <= db.rows[id].batch {
      assert Holds(db, db.rows[j].batch, k);
    }
    assert LinkOk(db.rows, id);
    NewestIsLive(db.rows, id);
    assert LiveAt(db.rows, k, id);
  }

  lemma NewestIsLive(rows: map<nat, Row>, id: nat)
    requires id in rows && LinkOk(rows, id)
    ensures rows[id].current || exists j :: j in rows && rows[j].key == rows[id].key && rows[j].batch > rows[id].batch
  {
    if !rows[id].current {
      var q :| RowOf(rows, rows[id].supersededBy.value, rows[id].key, q);
    }
  }

  lemma FaithfulShowsLastWriter(db: Db)
    requires Inv(db) && Faithful(db)
    ensures LastWriterWins(db)
  {
    forall k, b | LastWriter(db, k, b) ensures LiveHas(db, k, Store(db.batches[b].file[k])) {
      WriterIsLive(db, k, b);
    }
    forall k, id | LiveAt(db.rows, k, id) ensures exists b :: LastWriter(db, k, b) {
      assert Holds(db, db.rows[id].batch, k);
      var b := LastWriterFrom(db, k, db.rows[id].batch, db.batches.Keys);
    }
  }

  // ---- what the live rows read as -----------------------------------------------------------------

  predicate CapitalOf(a: char, b: char) { 'A' <= a <= 'Z' && b as int == a as int + 32 }

  /** Two names are stored as the same brand exactly when they differ in the case of letters only. */
  lemma SameBrandIff(x: string, y: string)
    ensures Fold(x) == Fold(y) <==>
      |x| == |y| && forall i :: 0 <= i < |x| ==> x[i] == y[i] || CapitalOf(x[i], y[i]) || CapitalOf(y[i], x[i])
  {
    if Fold(x) == Fold(y) {
      assert |Fold(x)| == |x| && |Fold(y)| == |y|;
      forall i | 0 <= i < |x| ensures x[i] == y[i] || CapitalOf(x[i], y[i]) || CapitalOf(y[i], x[i]) {
        assert Fold(x)[i] == Fold(y)[i];
      }
    }
  }

  /** The row reads back with the very fields, and with the brand in one spelling or another, or with none. */
  ghost predicate ReadsAs(db: Db, r: Row, cells: Cells) {
    var read := ReadBack(db.brands, r.data);
    && read.fields == cells.fields
    && if cells.brand.Some? then read.brand.Some? && Fold(read.brand.value) == Fold(cells.brand.value)
       else read.brand == None
  }

  /** Where the last writer wins, the live row of a key reads as its last writer's file says. */
  lemma LastWriterReads(db: Db, k: Key, b: nat)
    requires Inv(db) && LastWriterWins(db) && LastWriter(db, k, b)
    ensures exists id :: LiveAt(db.rows, k, id) && ReadsAs(db, db.rows[id], db.batches[b].file[k])
  {
    var id :| LiveAt(db.rows, k, id) && db.rows[id].data == Store(db.batches[b].file[k]);
    assert ReadsAs(db, db.rows[id], db.batches[b].file[k]);
  }

  // ---- commits keep the history faithful --------------------------------------------------------------

  /** What the diff finds unchanged is stored exactly as the file states it. */
  lemma ReadBackStores(db: Db, d: Stored, cells: Cells)
    requires BrandsOk(db) && ReadBack(db.brands, d) == cells
    requires d.brand.Some? ==> d.brand.value in db.brands
    ensures d == Store(cells)
  {
  }

  lemma CommitStatesOlder(db: Db, next: Db, b: nat, staged: nat, file: File, a: nat, k: Key)
    requires CommitRel(db, next, b, staged, file) && Holds(db, a, k) && Stated(db, a, k)
    ensures Holds(next, a, k) && Stated(next, a, k)
  {
    var id :| IsAsOf(db.rows, k, a, id) && db.rows[id].data == Store(db.batches[a].file[k]);
    assert IsAsOf(next.rows, k, a, id);
  }

  lemma CommitBelow(db: Db, next: Db, b: nat, staged: nat, file: File)
    requires OwnersOk(db) && CommitRel(db, next, b, staged, file)
    ensures forall j :: j in next.rows ==> next.rows[j].batch <= b
  {
    BatchesBelow(db, b);
    forall j | j in next.rows ensures next.rows[j].batch <= b {
      if j in db.rows { assert next.rows[j].batch == db.rows[j].batch; }
    }
  }

  lemma CommitStatesUnchanged(db: Db, next: Db, b: nat, staged: nat, file: File, k: Key)
    requires OwnersOk(db) && OneRowPerBatch(db.rows) && LinksOk(db.rows) && BrandsOk(db)
    requires CommitRel(db, next, b, staged, file) && k in file && !NeedsRow(db, file, k)
    ensures Holds(next, b, k) && Stated(next, b, k)
  {
    CommitBelow(db, next, b, staged, file);
    var id :| LiveAt(db.rows, k, id) && ReadBack(db.brands, db.rows[id].data) == file[k];
    ReadBackStores(db, db.rows[id].data, file[k]);
    assert LinkOk(db.rows, id);
    forall j | j in next.rows && next.rows[j].key == k ensures next.rows[j].batch <= db.rows[id].batch {
      assert j in db.rows;
    }
    assert IsAsOf(next.rows, k, b, id);
  }

  lemma CommitStatesNew(db: Db, next: Db, b: nat, staged: nat, file: File, k: Key)
    requires OwnersOk(db) && OneRowPerBatch(db.rows) && LinksOk(db.rows) && BrandsOk(db)
    requires CommitRel(db, next, b, staged, file) && k in file
    ensures Holds(next, b, k) && Stated(next, b, k)
  {
    if NeedsRow(db, file, k) {
      CommitBelow(db, next, b, staged, file);
      assert HasNew(db.rows, next.rows, k);
      var n :| n in next.rows && n !in db.rows && next.rows[n].key == k;
      assert IsAsOf(next.rows, k, b, n);
    } else {
      CommitStatesUnchanged(db, next, b, staged, file, k);
    }
  }

  lemma CommitKeepsFaithful(db: Db, next: Db, b: nat, staged: nat, file: File)
    requires Inv(db) && Faithful(db) && CommitRel(db, next, b, staged, file)
    ensures Faithful(next)
  {
    forall a, k | Holds(next, a, k) ensures Stated(next, a, k) {
      if a == b {
        CommitStatesNew(db, next, b, staged, file, k);
      } else {
        assert Holds(db, a, k) && Stated(db, a, k);
        CommitStatesOlder(db, next, b, staged, file, a, k);
      }
    }
  }

  // ---- removals: exactly when the history stays faithful ----------------------------------------------

  /** Batch `a` re-stated unchanged the row `own` of batch `b`, which a still later batch then superseded. */
  ghost predicate Exposed(db: Db, b: nat, own: nat, a: nat) {
    && own in db.rows && db.rows[own].batch == b && !db.rows[own].current && db.rows[own].supersededBy.Some?
    && b < a < db.rows[own].supersededBy.value && Holds(db, a, db.rows[own].key)
  }

  ghost predicate HasTwinBefore(db: Db, b: nat, own: nat)
    requires own in db.rows
  {
    exists p :: p in db.rows && db.rows[p].key == db.rows[own].key && db.rows[p].supersededBy == Some(b)
                && db.rows[p].data == db.rows[own].data
  }

  /** No superseded row that removing `b` deletes is still stated by a batch in between, unless the row that
    * `b` itself superseded says the same. */
  ghost predicate RemovalIsSafe(db: Db, b: nat) {
    forall own, a :: Exposed(db, b, own, a) ==> HasTwinBefore(db, b, own)
  }

  lemma AsOfSurvives(db: Db, b: nat, later: set<nat>, a: nat, k: Key, id: nat)
    requires OneRowPerBatch(db.rows) && LinksOk(db.rows) && AllAfter(later, b)
    requires IsAsOf(db.rows, k, a, id) && db.rows[id].batch != b
    ensures IsAsOf(RemovedRows(db, b, later), k, a, id)
    ensures RemovedRows(db, b, later)[id].data == db.rows[id].data
  {
    var rows := RemovedRows(db, b, later);
    OthersStay(db, b, later, id);
    RemovedRow(db, b, later, id);
    forall j | j in rows && rows[j].key == k && rows[j].batch <= a ensures rows[j].batch <= rows[id].batch {
      RemovedRow(db, b, later, j);
      assert LinkOk(db.rows, j);
    }
  }

  /** The removed batch's live row, re-stated by batch `a`, is handed over to `a` or an earlier batch. */
  lemma AsOfHandedOver(db: Db, b: nat, a: nat, k: Key, id: nat)
    requires OneRowPerBatch(db.rows) && LinksOk(db.rows) && RestatedOk(db)
    requires IsAsOf(db.rows, k, a, id) && db.rows[id].batch == b && db.rows[id].current && a > b && Holds(db, a, k)
    ensures IsAsOf(RemovedRows(db, b, LaterRestating(db, b)), k, a, id)
    ensures RemovedRows(db, b, LaterRestating(db, b))[id].data == db.rows[id].data
  {
    var later := LaterRestating(db, b);
    var rows := RemovedRows(db, b, later);
    assert LinkOk(db.rows, id);
    assert !HasRow(db.rows, a, k);
    assert a in later && HoldsKey(db, a, k);
    HandToSpec(db, later, k);
    forall j | j in rows && rows[j].key == k && rows[j].batch <= a ensures rows[j].batch <= rows[id].batch {
      RemovedRow(db, b, later, j);
    }
  }

  lemma AsOfTwin(db: Db, b: nat, later: set<nat>, a: nat, k: Key, id: nat, p: nat)
    requires OneRowPerBatch(db.rows) && LinksOk(db.rows) && AllAfter(later, b)
    requires IsAsOf(db.rows, k, a, id) && db.rows[id].batch == b && !db.rows[id].current
    requires p in db.rows && db.rows[p].key == k && db.rows[p].supersededBy == Some(b)
    ensures IsAsOf(RemovedRows(db, b, later), k, a, p)
    ensures RemovedRows(db, b, later)[p].data == db.rows[p].data
  {
    var rows := RemovedRows(db, b, later);
    assert LinkOk(db.rows, p);
    OthersStay(db, b, later, p);
    RemovedRow(db, b, later, p);
    forall j | j in rows && rows[j].key == k && rows[j].batch <= a ensures rows[j].batch <= rows[p].batch {
      RemovedRow(db, b, later, j);
    }
  }

  /** A batch that stated `k` still does, unless the removal deletes its row under it. */
  lemma RemovalStates(db: Db, next: Db, b: nat, a: nat, k: Key)
    requires OneRowPerBatch(db.rows) && LinksOk(db.rows) && RestatedOk(db)
    requires RemoveAnyRel(db, next, b) && RemovalIsSafe(db, b)
    requires Holds(next, a, k) && Holds(db, a, k) && Stated(db, a, k)
    ensures Stated(next, a, k)
  {
    var later := LaterRestating(db, b);
    var id :| IsAsOf(db.rows, k, a, id) && db.rows[id].data == Store(db.batches[a].file[k]);
    assert a != b;
    if db.rows[id].batch != b {
      AsOfSurvives(db, b, later, a, k, id);
    } else if db.rows[id].current {
      AsOfHandedOver(db, b, a, k, id);
    } else {
      assert LinkOk(db.rows, id);
      assert a < db.rows[id].supersededBy.value by {
        var q :| RowOf(db.rows, db.rows[id].supersededBy.value, k, q);
      }
      assert Exposed(db, b, id, a);
      var p :| p in db.rows && db.rows[p].key == k && db.rows[p].supersededBy == Some(b) &&
        db.rows[p].data == db.rows[id].data;
      AsOfTwin(db, b, later, a, k, id, p);
    }
  }

  /** When a batch in between still states the key after the removal, the row before said the same. */
  lemma StatedNeedsTwin(db: Db, next: Db, b: nat, own: nat, a: nat)
    requires OneRowPerBatch(db.rows) && LinksOk(db.rows) && OwnersOk(db)
    requires RemoveAnyRel(db, next, b) && Exposed(db, b, own, a) && Holds(next, a, db.rows[own].key)
    requires Stated(db, a, db.rows[own].key) && Stated(next, a, db.rows[own].key)
    ensures HasTwinBefore(db, b, own)
  {
    var later := LaterRestating(db, b);
    var k := db.rows[own].key;
    assert LinkOk(db.rows, own);
    var id :| IsAsOf(db.rows, k, a, id) && db.rows[id].data == Store(db.batches[a].file[k]);
    assert id == own;
    var p :| IsAsOf(next.rows, k, a, p) && next.rows[p].data == Store(next.batches[a].file[k]);
    RemovedRow(db, b, later, p);
    assert LinkOk(db.rows, p);
    assert db.rows[p].batch < b;
    var t := db.rows[p].supersededBy.value;
    var q :| RowOf(db.rows, t, k, q);
    if t != b {
      OthersStay(db, b, later, q);
      RemovedRow(db, b, later, q);
      assert false;
    }
  }

  lemma SafeKeepsFaithful(db: Db, next: Db, b: nat)
    requires OneRowPerBatch(db.rows) && LinksOk(db.rows) && RestatedOk(db)
    requires Faithful(db) && RemoveAnyRel(db, next, b) && RemovalIsSafe(db, b)
    ensures Faithful(next)
  {
    forall a, k | Holds(next, a, k) ensures Stated(next, a, k) {
      assert Holds(db, a, k) && Stated(db, a, k);
      RemovalStates(db, next, b, a, k);
    }
  }

  lemma FaithfulIsSafe(db: Db, next: Db, b: nat)
    requires OneRowPerBatch(db.rows) && LinksOk(db.rows) && OwnersOk(db)
    requires Faithful(db) && RemoveAnyRel(db, next, b) && Faithful(next)
    ensures RemovalIsSafe(db, b)
  {
    forall own, a | Exposed(db, b, own, a) ensures HasTwinBefore(db, b, own) {
      assert Holds(next, a, db.rows[own].key) && Stated(next, a, db.rows[own].key);
      StatedNeedsTwin(db, next, b, own, a);
    }
  }

  /** Removing any batch keeps a faithful history faithful exactly when the removal is safe. */
  lemma RemovalKeepsFaithfulIff(db: Db, next: Db, b: nat)
    requires Inv(db) && Faithful(db) && RemoveAnyRel(db, next, b)
    ensures Faithful(next) <==> RemovalIsSafe(db, b)
  {
    if RemovalIsSafe(db, b) { SafeKeepsFaithful(db, next, b); }
    if Faithful(next) { FaithfulIsSafe(db, next, b); }
  }

  /** Simple form of the condition: no batch in between re-stated a superseded row of `b`. */
  lemma UnexposedIsSafe(db: Db, b: nat)
    requires forall own, a :: !Exposed(db, b, own, a)
    ensures RemovalIsSafe(db, b)
  {
  }

  /** Right after one removal from a faithful history the live rows are the last writers', safe or not. */
  lemma OneRemovalShowsLastWriter(db: Db, next: Db, b: nat)
    requires Inv(db) && Faithful(db) && RemoveAnyRel(db, next, b)
    ensures LastWriterWins(next)
  {
    RemovalKeepsInv(db, next, b, LaterRestating(db, b), Removed);
    forall k, a | LastWriter(next, k, a) ensures LiveHas(next, k, Store(next.batches[a].file[k])) {
      assert Holds(db, a, k) && Stated(db, a, k);
      LastWriterStillStated(db, next, b, a, k);
      WriterIsLive(next, k, a);
    }
    forall k, id | LiveAt(next.rows, k, id) ensures exists a :: LastWriter(next, k, a) {
      assert Holds(next, next.rows[id].batch, k);
      var a := LastWriterFrom(next, k, next.rows[id].batch, next.batches.Keys);
    }
  }

  lemma LastWriterStillStated(db: Db, next: Db, b: nat, a: nat, k: Key)
    requires OneRowPerBatch(db.rows) && LinksOk(db.rows) && RestatedOk(db) && OwnersOk(db) && OwnersOk(next)
    requires RemoveAnyRel(db, next, b) && LastWriter(next, k, a) && Holds(db, a, k) && Stated(db, a, k)
    ensures Stated(next, a, k)
  {
    var later := LaterRestating(db, b);
    var id :| IsAsOf(db.rows, k, a, id) && db.rows[id].data == Store(db.batches[a].file[k]);
    assert a != b && LinkOk(db.rows, id);
    if db.rows[id].batch != b {
      AsOfSurvives(db, b, later, a, k, id);
    } else {
      if !db.rows[id].current { LaterRowOutlives(db, next, b, a, k, id); }
      AsOfHandedOver(db, b, a, k, id);
    }
  }

  /** A superseded row of the removed batch is followed by a row of a still later writer. */
  lemma LaterRowOutlives(db: Db, next: Db, b: nat, a: nat, k: Key, id: nat)
    requires OwnersOk(db) && RemoveAnyRel(db, next, b) && LinkOk'(db, id)
    requires IsAsOf(db.rows, k, a, id) && db.rows[id].batch == b && !db.rows[id].current
    ensures exists c: nat :: Holds(next, c, k) && c > a
  {
    var s := db.rows[id].supersededBy.value;
    var q :| RowOf(db.rows, s, k, q);
    assert Holds(db, s, k);
    assert Holds(next, s, k) && s > a;
  }

  ghost predicate LinkOk'(db: Db, id: nat) {
    id in db.rows && LinkOk(db.rows, id)
  }

  // ---- rolling back the latest batch -------------------------------------------------------------------

  function RolledBackRow(b: nat, r: Row): Row {
    if r.supersededBy == Some(b) then r.(current := true, supersededBy := None) else r
  }

  lemma RollbackRow(db: Db, b: nat, id: nat)
    requires OwnersOk(db) && OneRowPerBatch(db.rows) && LinksOk(db.rows) && LatestSuccess(db, b) && id in db.rows
    ensures id in RemovedRows(db, b, {}) <==> db.rows[id].batch != b
    ensures db.rows[id].batch == b ==> db.rows[id].current
    ensures db.rows[id].batch != b ==> RemovedRows(db, b, {})[id] == RolledBackRow(b, db.rows[id])
  {
    HandToSpec(db, {}, db.rows[id].key);
    if db.rows[id].batch == b {
      LatestIsLive(db, b, id);
    } else if db.rows[id].supersededBy == Some(b) {
      assert LinkOk(db.rows, id);
      var own :| RowOf(db.rows, b, db.rows[id].key, own);
      LatestIsLive(db, b, own);
      TargetByOwnRow(db, b, {}, db.rows[id].key, own);
    }
  }

  /** Rolling back the latest batch hands nothing over, relinks nothing and never meets a superseded own row:
    * it deletes the batch's rows, all live, and re-arms the rows it superseded. */
  lemma RollbackOnlyDeletesAndRearms(db: Db, b: nat)
    requires OwnersOk(db) && OneRowPerBatch(db.rows) && LinksOk(db.rows) && LatestSuccess(db, b)
    ensures forall id :: id in db.rows && db.rows[id].batch == b ==> db.rows[id].current
    ensures RemovedRows(db, b, {}) == map id | id in db.rows && db.rows[id].batch != b :: RolledBackRow(b, db.rows[id])
    ensures LaterRestating(db, b) == {}
  {
    forall id | id in db.rows
      ensures id in RemovedRows(db, b, {}) <==> db.rows[id].batch != b
      ensures db.rows[id].batch == b ==> db.rows[id].current
      ensures db.rows[id].batch != b ==> RemovedRows(db, b, {})[id] == RolledBackRow(b, db.rows[id])
    {
      RollbackRow(db, b, id);
    }
  }

  lemma LatestIsLive(db: Db, b: nat, id: nat)
    requires OwnersOk(db) && LinksOk(db.rows) && LatestSuccess(db, b) && id in db.rows && db.rows[id].batch == b
    ensures db.rows[id].current
  {
    assert LinkOk(db.rows, id);
    forall j | j in db.rows && db.rows[j].key == db.rows[id].key ensures db.rows[j].batch <= b {
      assert Holds(db, db.rows[j].batch, db.rows[j].key);
    }
    NewestIsLive(db.rows, id);
  }

  lemma RollbackIsSafeRemoval(db: Db, next: Db, b: nat)
    requires Inv(db) && RollbackRel(db, next, b)
    ensures RemovalIsSafe(db, b)
    ensures RemoveAnyRel(db, next.(batches := db.batches[b := db.batches[b].(status := Removed)]), b)
  {
    RollbackOnlyDeletesAndRearms(db, b);
  }

  lemma RollbackKeepsInv(db: Db, next: Db, b: nat)
    requires Inv(db) && RollbackRel(db, next, b)
    ensures Inv(next)
  {
    RemovalKeepsInv(db, next, b, {}, RolledBack);
  }

  lemma RollbackKeepsStated(db: Db, next: Db, b: nat, a: nat, k: Key)
    requires Inv(db) && RollbackRel(db, next, b) && Holds(db, a, k) && a != b
    ensures Holds(next, a, k) && (Stated(next, a, k) <==> Stated(db, a, k))
  {
    RollbackAsOf(db, next, b, a, k);
    if Stated(db, a, k) {
      var id :| IsAsOf(db.rows, k, a, id) && db.rows[id].data == Store(db.batches[a].file[k]);
      assert IsAsOf(next.rows, k, a, id);
    }
    if Stated(next, a, k) {
      var id :| IsAsOf(next.rows, k, a, id) && next.rows[id].data == Store(next.batches[a].file[k]);
      assert IsAsOf(db.rows, k, a, id);
    }
  }

  lemma RollbackAsOf(db: Db, next: Db, b: nat, a: nat, k: Key)
    requires OwnersOk(db) && OneRowPerBatch(db.rows) && LinksOk(db.rows) && RollbackRel(db, next, b) &&
      Holds(db, a, k) && a != b
    ensures forall id :: IsAsOf(next.rows, k, a, id) <==> IsAsOf(db.rows, k, a, id)
    ensures forall id :: IsAsOf(db.rows, k, a, id) ==> next.rows[id].data == db.rows[id].data
  {
    RollbackOnlyDeletesAndRearms(db, b);
    forall id | id in db.rows
      ensures id in next.rows <==> db.rows[id].batch != b
      ensures id in next.rows ==> SameRow(next.rows[id], db.rows[id])
    {
    }
    SameAsOf(db.rows, next.rows, b, a, k);
  }

  ghost predicate SameRow(r: Row, s: Row) {
    r.key == s.key && r.batch == s.batch && r.data == s.data
  }

  lemma SameAsOf(rows: map<nat, Row>, next: map<nat, Row>, b: nat, a: nat, k: Key)
    requires a < b
    requires forall id :: id in next ==> id in rows
    requires forall id :: id in rows ==> (id in next <==> rows[id].batch != b)
    requires forall id :: id in next ==> SameRow(next[id], rows[id])
    ensures forall id :: IsAsOf(next, k, a, id) <==> IsAsOf(rows, k, a, id)
    ensures forall id :: IsAsOf(rows, k, a, id) ==> next[id].data == rows[id].data
  {
    forall id ensures IsAsOf(next, k, a, id) <==> IsAsOf(rows, k, a, id) {
      if IsAsOf(next, k, a, id) {
        forall j | j in rows && rows[j].key == k && rows[j].batch <= a ensures rows[j].batch <= rows[id].batch {
          assert j in next && SameRow(next[j], rows[j]);
        }
      }
      if IsAsOf(rows, k, a, id) {
        forall j | j in next && next[j].key == k && next[j].batch <= a ensures next[j].batch <= next[id].batch {
          assert SameRow(next[j], rows[j]);
        }
      }
    }
  }

  /** One rollback of a batch that was just committed restores every row, link and brand. */
  lemma CommitThenRollbackRestores(db: Db, mid: Db, next: Db, b: nat, staged: nat, file: File)
    requires Inv(db) && CommitRel(db, mid, b, staged, file) && RollbackRel(mid, next, b)
    ensures next.rows == db.rows && next.brands == db.brands
    ensures next.batches == db.batches[b := Batch(RolledBack, file, UnchangedCount(db, file), staged)]
  {
    CommitKeepsInv(db, mid, b, staged, file);
    BatchesBelow(db, b);
    RollbackOnlyDeletesAndRearms(mid, b);
    RowsRestored(db, mid, b, file);
    BrandsRestored(db, mid, next, b, staged, file);
  }

  lemma RowsRestored(db: Db, mid: Db, b: nat, file: File)
    requires LinksOk(db.rows) && CommitRows(db, mid.rows, b, file)
    requires forall id :: id in db.rows ==> db.rows[id].batch < b
    ensures db.rows == map id | id in mid.rows && mid.rows[id].batch != b :: RolledBackRow(b, mid.rows[id])
  {
    forall id | id in mid.rows ensures id in db.rows <==> mid.rows[id].batch != b { }
    forall id | id in db.rows
      ensures db.rows[id] == RolledBackRow(b, mid.rows[id])
    {
      assert LinkOk(db.rows, id);
      LinkBelow(db.rows, b, id);
    }
  }

  lemma LinkBelow(rows: map<nat, Row>, b: nat, id: nat)
    requires id in rows && LinkOk(rows, id) && forall j :: j in rows ==> rows[j].batch < b
    ensures rows[id].supersededBy != Some(b)
  {
    if !rows[id].current {
      var q :| RowOf(rows, rows[id].supersededBy.value, rows[id].key, q);
    }
  }

  lemma BrandsRestored(db: Db, mid: Db, next: Db, b: nat, staged: nat, file: File)
    requires BrandsOk(db) && CommitRel(db, mid, b, staged, file) && RollbackRel(mid, next, b)
    requires next.rows == db.rows
    ensures next.brands == db.brands
  {
    forall f | f in db.brands ensures f in next.brands && next.brands[f] == db.brands[f] { }
    forall f | f in next.brands ensures f in db.brands { }
  }
}
