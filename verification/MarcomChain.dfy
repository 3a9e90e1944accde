/** The structural invariant of the MARCOM store, kept by every commit, rollback and removal. */
module MarcomChain {
  import opened Prelude
  import opened MarcomModel

  /** Every row belongs to a successful batch whose file holds its key. */
  ghost predicate OwnersOk(db: Db) {
    forall id :: id in db.rows ==> Holds(db, db.rows[id].batch, db.rows[id].key)
  }

  ghost predicate OneRowPerBatch(rows: map<nat, Row>) {
    forall i, j :: i in rows && j in rows && rows[i].key == rows[j].key && rows[i].batch == rows[j].batch ==> i == j
  }

  /** No row of key `k` belongs to a batch strictly between `lo` and `hi`. */
  ghost predicate NoneBetween(rows: map<nat, Row>, k: Key, lo: nat, hi: nat) {
    forall id :: id in rows && rows[id].key == k ==> !(lo < rows[id].batch < hi)
  }

  /** A current row is the newest of its key; any other row points to the owner of the next newer row. */
  ghost predicate LinkOk(rows: map<nat, Row>, id: nat)
    requires id in rows
  {
    var r := rows[id];
    if r.current then
      r.supersededBy == None && forall j :: j in rows && rows[j].key == r.key ==> rows[j].batch <= r.batch
    else
      && r.supersededBy.Some? && r.batch < r.supersededBy.value
      && HasRow(rows, r.supersededBy.value, r.key)
      && NoneBetween(rows, r.key, r.batch, r.supersededBy.value)
  }

  ghost predicate LinksOk(rows: map<nat, Row>) {
    forall id {:trigger LinkOk(rows, id)} :: id in rows ==> LinkOk(rows, id)
  }

  /** A successful batch without a row for a key its file holds counted at least one unchanged row. */
  ghost predicate RestatedOk(db: Db) {
    forall b, k :: Holds(db, b, k) && !HasRow(db.rows, b, k) ==> db.batches[b].restated > 0
  }

  ghost predicate BrandsOk(db: Db) {
    && (forall id :: id in db.rows && db.rows[id].data.brand.Some? ==> db.rows[id].data.brand.value in db.brands)
    && (forall f :: f in db.brands ==> Fold(db.brands[f].name) == f)
    && (forall f :: f in db.brands && db.brands[f].createdBy.Some? ==>
          var a := db.brands[f].createdBy.value;
          a in db.batches && db.batches[a].status == Success && BatchUses(db.rows, f, a))
  }

  ghost predicate Inv(db: Db) {
    OwnersOk(db) && OneRowPerBatch(db.rows) && LinksOk(db.rows) && RestatedOk(db) && BrandsOk(db)
  }

  // ---- consequences ---------------------------------------------------------------------------------

  /** The unique index (key, is_current = 1): no key has two live rows. */
  ghost predicate OneLive(rows: map<nat, Row>) {
    forall i, j :: i in rows && j in rows && rows[i].current && rows[j].current && rows[i].key == rows[j].key ==> i == j
  }

  lemma LiveIsUnique(rows: map<nat, Row>)
    requires OneRowPerBatch(rows) && LinksOk(rows)
    ensures OneLive(rows)
  {
    forall i, j | i in rows && j in rows && rows[i].current && rows[j].current && rows[i].key == rows[j].key
      ensures i == j
    {
      assert LinkOk(rows, i) && LinkOk(rows, j);
    }
  }

  /** `chain` lists the rows of key `k` from the oldest batch to the newest, each pointing to the next. */
  ghost predicate IsChain(rows: map<nat, Row>, k: Key, chain: seq<nat>) {
    && (forall i :: 0 <= i < |chain| ==> chain[i] in rows && rows[chain[i]].key == k)
    && (forall i, j :: 0 <= i < j < |chain| ==> rows[chain[i]].batch < rows[chain[j]].batch)
    && (forall i :: 0 <= i < |chain| - 1 ==>
          !rows[chain[i]].current && rows[chain[i]].supersededBy == Some(rows[chain[i + 1]].batch))
  }

  ghost predicate OlderRow(rows: map<nat, Row>, k: Key, n: nat, p: nat) {
    p in rows && rows[p].key == k && rows[p].batch < n
  }

  lemma {:induction false} NewestOlder(rows: map<nat, Row>, k: Key, n: nat, p: nat) returns (q: nat)
    requires OlderRow(rows, k, n, p)
    ensures OlderRow(rows, k, n, q) && NoneBetween(rows, k, rows[q].batch, n)
    decreases n - rows[p].batch
  {
    if r :| OlderRow(rows, k, n, r) && rows[r].batch > rows[p].batch {
      q := NewestOlder(rows, k, n, r);
    } else {
      q := p;
    }
  }

  /** The chain of the rows of one key up to row `id`. */
  lemma {:induction false} ChainUpTo(rows: map<nat, Row>, id: nat) returns (chain: seq<nat>)
    requires OneRowPerBatch(rows) && LinksOk(rows) && id in rows
    ensures IsChain(rows, rows[id].key, chain) && |chain| > 0 && chain[|chain| - 1] == id
    ensures forall j :: j in rows && rows[j].key == rows[id].key && rows[j].batch <= rows[id].batch ==> j in chain
    decreases rows[id].batch
  {
    var k := rows[id].key;
    if p :| OlderRow(rows, k, rows[id].batch, p) {
      var q := NewestOlder(rows, k, rows[id].batch, p);
      var older := ChainUpTo(rows, q);
      assert LinkOk(rows, q);
      NextIs(rows, q, id);
      ExtendChain(rows, k, older, id);
      chain := older + [id];
      forall j | j in rows && rows[j].key == k && rows[j].batch <= rows[id].batch ensures j in chain {
        if rows[j].batch < rows[id].batch { assert j in older; }
      }
    } else {
      chain := [id];
      forall j | j in rows && rows[j].key == k && rows[j].batch <= rows[id].batch ensures j in chain {
        assert !OlderRow(rows, k, rows[id].batch, j);
      }
    }
  }

  lemma NextIs(rows: map<nat, Row>, q: nat, id: nat)
    requires q in rows && id in rows && LinkOk(rows, q) && rows[q].key == rows[id].key
    requires rows[q].batch < rows[id].batch && NoneBetween(rows, rows[id].key, rows[q].batch, rows[id].batch)
    ensures !rows[q].current && rows[q].supersededBy == Some(rows[id].batch)
  {
    var r :| RowOf(rows, rows[q].supersededBy.value, rows[q].key, r);
  }

  lemma ExtendChain(rows: map<nat, Row>, k: Key, chain: seq<nat>, id: nat)
    requires IsChain(rows, k, chain) && |chain| > 0 && id in rows && rows[id].key == k
    requires var q := chain[|chain| - 1];
      !rows[q].current && rows[q].supersededBy == Some(rows[id].batch) && rows[q].batch < rows[id].batch
    ensures IsChain(rows, k, chain + [id])
  {
    var more := chain + [id];
    forall i, j | 0 <= i < j < |more| ensures rows[more[i]].batch < rows[more[j]].batch {
      if j == |chain| && i < j - 1 { assert rows[chain[i]].batch < rows[chain[j - 1]].batch; }
    }
  }

  /** Per key the rows form one chain, oldest batch first, and its last row is the live one. */
  lemma OneChainPerKey(rows: map<nat, Row>, k: Key) returns (chain: seq<nat>)
    requires OneRowPerBatch(rows) && LinksOk(rows)
    ensures IsChain(rows, k, chain)
    ensures forall j :: j in rows && rows[j].key == k <==> j in chain
    ensures chain != [] ==> rows[chain[|chain| - 1]].current
  {
    if p :| p in rows && rows[p].key == k {
      var live := LiveRowOf(rows, p);
      assert LinkOk(rows, live);
      chain := ChainUpTo(rows, live);
    } else {
      chain := [];
    }
  }

  lemma {:induction false} LiveRowOf(rows: map<nat, Row>, p: nat) returns (live: nat)
    requires LinksOk(rows) && p in rows
    ensures LiveAt(rows, rows[p].key, live)
  {
    live := NewestRow(rows, p, rows.Keys);
    assert LinkOk(rows, live);
  }

  lemma {:induction false} NewestRow(rows: map<nat, Row>, p: nat, rest: set<nat>) returns (n: nat)
    requires p in rows && rest <= rows.Keys
    requires forall j :: j in rows && rows[j].key == rows[p].key && rows[j].batch > rows[p].batch ==> j in rest
    ensures n in rows && rows[n].key == rows[p].key
    ensures forall j :: j in rows && rows[j].key == rows[p].key ==> rows[j].batch <= rows[n].batch
    decreases rest
  {
    if q :| q in rows && rows[q].key == rows[p].key && rows[q].batch > rows[p].batch {
      n := NewestRow(rows, q, rest - {q});
    } else {
      n := p;
    }
  }

  // ---- commit -----------------------------------------------------------------------------------------

  lemma UnchangedIsLive(db: Db, k: Key, cells: Cells, id: nat)
    requires OneLive(db.rows) && LiveAt(db.rows, k, id)
    ensures Unchanged(db, k, cells) <==> ReadBack(db.brands, db.rows[id].data) == cells
  {
  }

  lemma BatchesBelow(db: Db, b: nat)
    requires OwnersOk(db) && FreshBatch(db, b)
    ensures forall id :: id in db.rows ==> db.rows[id].batch < b
  {
    forall id | id in db.rows ensures db.rows[id].batch < b { assert Holds(db, db.rows[id].batch, db.rows[id].key); }
  }

  lemma CommitKeepsLink(db: Db, rows: map<nat, Row>, b: nat, file: File, id: nat)
    requires CommitRows(db, rows, b, file) && OneLive(db.rows)
    requires forall j :: j in db.rows ==> db.rows[j].batch < b
    requires id in db.rows && LinkOk(db.rows, id)
    ensures LinkOk(rows, id)
  {
    var r := db.rows[id];
    if r.current {
      if r.key in file {
        UnchangedIsLive(db, r.key, file[r.key], id);
        if ReadBack(db.brands, r.data) != file[r.key] {
          assert NeedsRow(db, file, r.key) && HasNew(db.rows, rows, r.key);
          var n :| n in rows && n !in db.rows && rows[n].key == r.key;
          assert RowOf(rows, b, r.key, n);
        }
      }
    } else {
      var s := r.supersededBy.value;
      var q :| RowOf(db.rows, s, r.key, q);
      assert RowOf(rows, s, r.key, q);
      assert s < b;
    }
  }

  /** A row the commit inserted is the newest of its key. */
  lemma CommitNewLink(db: Db, rows: map<nat, Row>, b: nat, file: File, id: nat)
    requires CommitRows(db, rows, b, file)
    requires forall j :: j in db.rows ==> db.rows[j].batch < b
    requires id in rows && id !in db.rows
    ensures LinkOk(rows, id)
  {
    forall j | j in rows ensures rows[j].batch <= b {
      if j in db.rows { assert rows[j].batch == db.rows[j].batch; }
    }
  }

  lemma CommitOneRow(db: Db, rows: map<nat, Row>, b: nat, file: File)
    requires CommitRows(db, rows, b, file) && OneRowPerBatch(db.rows)
    requires forall j :: j in db.rows ==> db.rows[j].batch < b
    ensures OneRowPerBatch(rows)
  {
    forall i, j | i in rows && j in rows && rows[i].key == rows[j].key && rows[i].batch == rows[j].batch
      ensures i == j
    {
      if i in db.rows && j in db.rows {
        assert db.rows[i].key == db.rows[j].key && db.rows[i].batch == db.rows[j].batch;
      }
    }
  }

  lemma CommitLinks(db: Db, rows: map<nat, Row>, b: nat, file: File)
    requires CommitRows(db, rows, b, file) && OneRowPerBatch(db.rows) && LinksOk(db.rows)
    requires forall j :: j in db.rows ==> db.rows[j].batch < b
    ensures LinksOk(rows)
  {
    LiveIsUnique(db.rows);
    forall id | id in rows ensures LinkOk(rows, id) {
      if id in db.rows {
        assert LinkOk(db.rows, id);
        CommitKeepsLink(db, rows, b, file, id);
      } else {
        CommitNewLink(db, rows, b, file, id);
      }
    }
  }

  lemma CommitOwners(db: Db, next: Db, b: nat, staged: nat, file: File)
    requires OwnersOk(db) && CommitRel(db, next, b, staged, file)
    ensures OwnersOk(next)
  {
    forall id | id in next.rows ensures Holds(next, next.rows[id].batch, next.rows[id].key) {
      if id in db.rows { assert Holds(db, db.rows[id].batch, db.rows[id].key); }
    }
  }

  lemma CommitRestated(db: Db, next: Db, b: nat, staged: nat, file: File)
    requires RestatedOk(db) && CommitRel(db, next, b, staged, file)
    ensures RestatedOk(next)
  {
    forall a, k | Holds(next, a, k) && !HasRow(next.rows, a, k) ensures next.batches[a].restated > 0 {
      if a == b {
        CommitRowFor(db, next.rows, b, file, k);
        RestatedCounted(db, file, k);
      } else {
        assert Holds(db, a, k);
        KeepsRow(db, next.rows, b, file, a, k);
      }
    }
  }

  lemma CommitRowFor(db: Db, rows: map<nat, Row>, b: nat, file: File, k: Key)
    requires CommitRows(db, rows, b, file) && k in file
    ensures HasRow(rows, b, k) || Unchanged(db, k, file[k])
  {
    if NeedsRow(db, file, k) {
      assert HasNew(db.rows, rows, k);
      var n :| n in rows && n !in db.rows && rows[n].key == k;
      assert RowOf(rows, b, k, n);
    }
  }

  lemma RestatedCounted(db: Db, file: File, k: Key)
    requires k in file && Unchanged(db, k, file[k])
    ensures UnchangedCount(db, file) > 0
  {
    var s := set k | k in file && Unchanged(db, k, file[k]);
    assert k in s;
    assert |s - {k}| + 1 == |s|;
  }

  lemma KeepsRow(db: Db, rows: map<nat, Row>, b: nat, file: File, a: nat, k: Key)
    requires CommitRows(db, rows, b, file)
    ensures HasRow(db.rows, a, k) ==> HasRow(rows, a, k)
  {
    if HasRow(db.rows, a, k) {
      var q :| RowOf(db.rows, a, k, q);
      assert RowOf(rows, a, k, q);
    }
  }

  lemma CommitBrandsOk(db: Db, next: Db, b: nat, staged: nat, file: File)
    requires BrandsOk(db) && CommitRel(db, next, b, staged, file)
    ensures BrandsOk(next)
  {
    forall id | id in next.rows && next.rows[id].data.brand.Some?
      ensures next.rows[id].data.brand.value in next.brands
    {
      if id !in db.rows {
        var k := next.rows[id].key;
        assert Store(file[k]).brand == Some(next.rows[id].data.brand.value);
        assert FileUses(file, next.rows[id].data.brand.value);
      }
    }
    forall f | f in next.brands && next.brands[f].createdBy.Some?
      ensures var a := next.brands[f].createdBy.value;
        a in next.batches && next.batches[a].status == Success && BatchUses(next.rows, f, a)
    {
      var a := next.brands[f].createdBy.value;
      if f in db.brands {
        var id :| UsesBrand(db.rows, f, a, id);
        assert UsesBrand(next.rows, f, a, id);
      } else {
        NewBrandIsUsed(db, next, b, staged, file, f);
      }
    }
  }

  /** A live row never has a brand the brand table does not know. */
  lemma LiveBrandIsKnown(db: Db, k: Key, cells: Cells)
    requires BrandsOk(db) && Unchanged(db, k, cells)
    ensures Store(cells).brand.Some? ==> Store(cells).brand.value in db.brands
  {
    var id :| LiveAt(db.rows, k, id) && ReadBack(db.brands, db.rows[id].data) == cells;
  }

  /** A brand the upload brings in marks its row as new or changed. */
  lemma NewBrandIsUsed(db: Db, next: Db, b: nat, staged: nat, file: File, f: string)
    requires BrandsOk(db) && CommitRel(db, next, b, staged, file)
    requires f in next.brands && f !in db.brands
    ensures BatchUses(next.rows, f, b)
  {
    var k :| k in file && file[k].brand == Some(next.brands[f].name);
    assert Store(file[k]).brand == Some(f);
    assert !Unchanged(db, k, file[k]) by {
      if Unchanged(db, k, file[k]) { LiveBrandIsKnown(db, k, file[k]); }
    }
    assert NeedsRow(db, file, k) && HasNew(db.rows, next.rows, k);
    var n :| n in next.rows && n !in db.rows && next.rows[n].key == k;
    assert UsesBrand(next.rows, f, b, n);
  }

  lemma CommitKeepsInv(db: Db, next: Db, b: nat, staged: nat, file: File)
    requires Inv(db) && CommitRel(db, next, b, staged, file)
    ensures Inv(next)
  {
    BatchesBelow(db, b);
    CommitOneRow(db, next.rows, b, file);
    CommitLinks(db, next.rows, b, file);
    CommitOwners(db, next, b, staged, file);
    CommitRestated(db, next, b, staged, file);
    CommitBrandsOk(db, next, b, staged, file);
  }

  // ---- removing a batch -----------------------------------------------------------------------------------

  lemma {:induction false} EarliestExists(db: Db, later: set<nat>, k: Key, c: nat)
    requires c in later && HoldsKey(db, c, k)
    ensures exists a :: EarliestHolder(db, later, k, a)
    decreases c
  {
    if d :| d in later && HoldsKey(db, d, k) && d < c {
      EarliestExists(db, later, k, d);
    } else {
      assert EarliestHolder(db, later, k, c);
    }
  }

  lemma HandToSpec(db: Db, later: set<nat>, k: Key)
    ensures HandTo(db, later, k).Some? <==> exists c :: c in later && HoldsKey(db, c, k)
    ensures HandTo(db, later, k).Some? ==> EarliestHolder(db, later, k, HandTo(db, later, k).value)
  {
    if c :| c in later && HoldsKey(db, c, k) {
      EarliestExists(db, later, k, c);
    }
  }

  ghost predicate AllAfter(later: set<nat>, b: nat) {
    forall a :: a in later ==> a > b
  }

  /** The branch for an earlier row without a row of the removed batch is never taken. */
  lemma SupersederHasOwnRow(rows: map<nat, Row>, b: nat, id: nat)
    requires id in rows && LinkOk(rows, id) && rows[id].supersededBy == Some(b)
    ensures HasRow(rows, b, rows[id].key)
  {
  }

  lemma TargetByOwnRow(db: Db, b: nat, later: set<nat>, k: Key, own: nat)
    requires OneRowPerBatch(db.rows) && RowOf(db.rows, b, k, own)
    ensures RelinkTarget(db, b, later, k) ==
      if db.rows[own].current then HandTo(db, later, k) else db.rows[own].supersededBy
  {
  }

  lemma RemovedRow(db: Db, b: nat, later: set<nat>, id: nat)
    requires AllAfter(later, b)
    ensures var rows := RemovedRows(db, b, later);
      id in rows ==>
        && id in db.rows && rows[id].key == db.rows[id].key && rows[id].data == db.rows[id].data
        && rows[id].batch != b
        && (db.rows[id].batch != b ==> rows[id].batch == db.rows[id].batch)
        && (db.rows[id].batch == b ==>
              && rows[id].batch > b && rows[id] == db.rows[id].(batch := rows[id].batch)
              && db.rows[id].current && HandTo(db, later, db.rows[id].key) == Some(rows[id].batch))
  {
    if id in db.rows { HandToSpec(db, later, db.rows[id].key); }
  }

  lemma OthersStay(db: Db, b: nat, later: set<nat>, id: nat)
    requires id in db.rows && db.rows[id].batch != b
    ensures id in RemovedRows(db, b, later)
  {
  }

  /** A handed-over row stays the newest of its key. */
  lemma HandedLink(db: Db, b: nat, later: set<nat>, id: nat)
    requires OneRowPerBatch(db.rows) && AllAfter(later, b)
    requires id in RemovedRows(db, b, later) && db.rows[id].batch == b && LinkOk(db.rows, id)
    ensures LinkOk(RemovedRows(db, b, later), id)
  {
    var rows := RemovedRows(db, b, later);
    RemovedRow(db, b, later, id);
    forall j | j in rows && rows[j].key == rows[id].key ensures rows[j].batch <= rows[id].batch {
      RemovedRow(db, b, later, j);
    }
  }

  /** A row the removed batch did not touch keeps its place. */
  lemma UntouchedLink(db: Db, b: nat, later: set<nat>, id: nat)
    requires OneRowPerBatch(db.rows) && LinksOk(db.rows) && AllAfter(later, b)
    requires id in db.rows && db.rows[id].batch != b && db.rows[id].supersededBy != Some(b)
    ensures id in RemovedRows(db, b, later) && LinkOk(RemovedRows(db, b, later), id)
  {
    var rows := RemovedRows(db, b, later);
    var r := db.rows[id];
    assert LinkOk(db.rows, id);
    OthersStay(db, b, later, id);
    assert rows[id] == r;
    forall j | j in rows && rows[j].key == r.key
      ensures r.current ==> rows[j].batch <= r.batch
      ensures !r.current ==> !(r.batch < rows[j].batch < r.supersededBy.value)
    {
      RemovedRow(db, b, later, j);
      assert LinkOk(db.rows, j);
      if !r.current && db.rows[j].batch == b {
        var q :| RowOf(db.rows, r.supersededBy.value, r.key, q);
      }
    }
    if !r.current {
      var q :| RowOf(db.rows, r.supersededBy.value, r.key, q);
      OthersStay(db, b, later, q);
      assert RowOf(rows, r.supersededBy.value, r.key, q);
    }
  }

  /** A row the removed batch had superseded is re-armed or points to the next newer row. */
  lemma RelinkedLink(db: Db, b: nat, later: set<nat>, id: nat, own: nat)
    requires OneRowPerBatch(db.rows) && AllAfter(later, b)
    requires id in db.rows && db.rows[id].batch != b && db.rows[id].supersededBy == Some(b) && LinkOk(db.rows, id)
    requires RowOf(db.rows, b, db.rows[id].key, own) && LinkOk(db.rows, own)
    ensures id in RemovedRows(db, b, later) && LinkOk(RemovedRows(db, b, later), id)
  {
    var rows := RemovedRows(db, b, later);
    var r := db.rows[id];
    var m := db.rows[own];
    TargetByOwnRow(db, b, later, r.key, own);
    HandToSpec(db, later, r.key);
    OthersStay(db, b, later, id);
    forall j | j in rows && rows[j].key == r.key
      ensures db.rows[j].key == r.key && (db.rows[j].batch == b ==> j == own) &&
        (db.rows[j].batch != b ==> rows[j].batch == db.rows[j].batch)
    {
      RemovedRow(db, b, later, j);
    }
    if m.current && HandTo(db, later, r.key).Some? {
      assert RowOf(rows, HandTo(db, later, r.key).value, r.key, own);
    } else if !m.current {
      var q :| RowOf(db.rows, m.supersededBy.value, r.key, q);
      OthersStay(db, b, later, q);
      RemovedRow(db, b, later, q);
      assert RowOf(rows, m.supersededBy.value, r.key, q);
    }
  }

  lemma RemovalLinks(db: Db, b: nat, later: set<nat>)
    requires OneRowPerBatch(db.rows) && LinksOk(db.rows) && AllAfter(later, b)
    ensures LinksOk(RemovedRows(db, b, later))
  {
    var rows := RemovedRows(db, b, later);
    forall id | id in rows ensures LinkOk(rows, id) {
      assert LinkOk(db.rows, id);
      if db.rows[id].batch == b {
        HandedLink(db, b, later, id);
      } else if db.rows[id].supersededBy == Some(b) {
        var own :| RowOf(db.rows, b, db.rows[id].key, own);
        assert LinkOk(db.rows, own);
        RelinkedLink(db, b, later, id, own);
      } else {
        UntouchedLink(db, b, later, id);
      }
    }
  }

  lemma RemovalOneRow(db: Db, b: nat, later: set<nat>)
    requires OneRowPerBatch(db.rows) && LinksOk(db.rows) && AllAfter(later, b)
    ensures OneRowPerBatch(RemovedRows(db, b, later))
  {
    var rows := RemovedRows(db, b, later);
    forall i, j | i in rows && j in rows && rows[i].key == rows[j].key && rows[i].batch == rows[j].batch
      ensures i == j
    {
      RemovedRow(db, b, later, i);
      RemovedRow(db, b, later, j);
      assert LinkOk(db.rows, i) && LinkOk(db.rows, j);
    }
  }

  ghost predicate LaterOk(db: Db, b: nat, later: set<nat>) {
    forall a :: a in later ==> a > b && a in db.batches && db.batches[a].status == Success
  }

  lemma RemovalOwners(db: Db, next: Db, b: nat, later: set<nat>, status: Status)
    requires OwnersOk(db) && LaterOk(db, b, later) && RemoveRel(db, next, b, later, status)
    ensures OwnersOk(next)
  {
    forall id | id in next.rows ensures Holds(next, next.rows[id].batch, next.rows[id].key) {
      RemovedRow(db, b, later, id);
      HandToSpec(db, later, db.rows[id].key);
      assert Holds(db, db.rows[id].batch, db.rows[id].key);
    }
  }

  lemma RemovalRestated(db: Db, next: Db, b: nat, later: set<nat>, status: Status)
    requires RestatedOk(db) && LaterOk(db, b, later) && RemoveRel(db, next, b, later, status) && status != Success
    ensures RestatedOk(next)
  {
    forall a, k | Holds(next, a, k) && !HasRow(next.rows, a, k) ensures next.batches[a].restated > 0 {
      assert a != b && Holds(db, a, k);
      OtherRowStays(db, b, later, a, k);
    }
  }

  lemma OtherRowStays(db: Db, b: nat, later: set<nat>, a: nat, k: Key)
    requires AllAfter(later, b) && a != b
    ensures HasRow(db.rows, a, k) ==> HasRow(RemovedRows(db, b, later), a, k)
  {
    if HasRow(db.rows, a, k) {
      var q :| RowOf(db.rows, a, k, q);
      OthersStay(db, b, later, q);
      RemovedRow(db, b, later, q);
      assert RowOf(RemovedRows(db, b, later), a, k, q);
    }
  }

  /** Another batch's use of a brand survives the removal. */
  lemma OtherUseStays(db: Db, b: nat, later: set<nat>, f: string, a: nat)
    requires AllAfter(later, b) && a != b && BatchUses(db.rows, f, a)
    ensures BatchUses(RemovedRows(db, b, later), f, a)
  {
    var id :| UsesBrand(db.rows, f, a, id);
    OthersStay(db, b, later, id);
    RemovedRow(db, b, later, id);
    assert UsesBrand(RemovedRows(db, b, later), f, a, id);
  }

  /** A brand the removed batch created is gone when no remaining row names it; else its creator is a batch with such a
    * row, the earliest of them. Any other brand stays as it was. */
  lemma BrandsAfterRemoval(db: Db, next: Db, b: nat, later: set<nat>, status: Status, f: string)
    requires RemoveRel(db, next, b, later, status) && f in db.brands
    ensures db.brands[f].createdBy != Some(b) ==> f in next.brands && next.brands[f] == db.brands[f]
    ensures db.brands[f].createdBy == Some(b) ==>
      (f in next.brands <==> exists id :: id in next.rows && next.rows[id].data.brand == Some(f))
    ensures db.brands[f].createdBy == Some(b) && f in next.brands ==>
      && next.brands[f].name == db.brands[f].name && next.brands[f].createdBy.Some?
      && (exists id :: id in next.rows && next.rows[id].data.brand == Some(f)
                       && next.rows[id].batch == next.brands[f].createdBy.value)
      && (forall id :: id in next.rows && next.rows[id].data.brand == Some(f) ==>
            next.brands[f].createdBy.value <= next.rows[id].batch)
  {
    forall id | id in next.rows && next.rows[id].data.brand == Some(f)
      ensures BatchUses(next.rows, f, next.rows[id].batch)
    {
      assert UsesBrand(next.rows, f, next.rows[id].batch, id);
    }
  }

  lemma RemovalBrandsOk(db: Db, next: Db, b: nat, later: set<nat>, status: Status)
    requires BrandsOk(db) && LaterOk(db, b, later) && RemoveRel(db, next, b, later, status) && status != Success
    requires OwnersOk(next)
    ensures BrandsOk(next)
  {
    forall id | id in next.rows && next.rows[id].data.brand.Some?
      ensures next.rows[id].data.brand.value in next.brands
    {
      RemovedRow(db, b, later, id);
      var f := next.rows[id].data.brand.value;
      assert UsesBrand(next.rows, f, next.rows[id].batch, id);
      assert BatchUses(next.rows, f, next.rows[id].batch);
    }
    forall f | f in next.brands && next.brands[f].createdBy.Some?
      ensures var a := next.brands[f].createdBy.value;
        a in next.batches && next.batches[a].status == Success && BatchUses(next.rows, f, a)
    {
      var a := next.brands[f].createdBy.value;
      if db.brands[f].createdBy != Some(b) {
        OtherUseStays(db, b, later, f, a);
      } else {
        var id :| UsesBrand(next.rows, f, a, id);
        assert Holds(next, next.rows[id].batch, next.rows[id].key);
      }
    }
  }

  lemma RemovalKeepsInv(db: Db, next: Db, b: nat, later: set<nat>, status: Status)
    requires Inv(db) && LaterOk(db, b, later) && RemoveRel(db, next, b, later, status) && status != Success
    ensures Inv(next)
  {
    RemovalOneRow(db, b, later);
    RemovalLinks(db, b, later);
    RemovalOwners(db, next, b, later, status);
    RemovalRestated(db, next, b, later, status);
    RemovalBrandsOk(db, next, b, later, status);
  }
}
