/** The MARCOM store as the service changes it: SQL statements one by one, under the write lock. */
module MarcomStore {
  import opened Prelude
  import opened MarcomModel
  import opened MarcomChain
  import opened MarcomPlan
  import opened MarcomRemoval

  datatype Upload = Upload(user: nat, rows: seq<FileRow>, errors: nat, expired: bool, consumed: bool)

  datatype MarcomError =
    | StagedNotFound | StagedForbidden | StagedConsumed | StagedExpired
    | BlockingErrors | NewBrandsUnconfirmed
    | ReasonRequired | BatchNotFound | NotRollbackable | NotLatest | NotRemovable

  /** The parser reports a repeated key as an error, and errors block the commit. */
  predicate KeysDistinct(rows: seq<FileRow>) {
    forall i, j :: 0 <= i < j < |rows| ==> rows[i].key != rows[j].key
  }

  predicate UploadOk(u: Upload) {
    u.errors == 0 ==> KeysDistinct(u.rows)
  }

  function FileOf(rows: seq<FileRow>): (file: File)
    ensures forall k :: k in file ==> exists r :: r in rows && r.key == k && r.cells == file[k]
    ensures forall r :: r in rows ==> r.key in file
  {
    if rows == [] then map[]
    else FileOf(rows[..|rows| - 1])[rows[|rows| - 1].key := rows[|rows| - 1].cells]
  }

  lemma {:induction false} FileOfDistinct(rows: seq<FileRow>)
    requires KeysDistinct(rows)
    ensures forall r :: r in rows ==> FileOf(rows)[r.key] == r.cells
  {
    if rows != [] {
      var last := |rows| - 1;
      FileOfDistinct(rows[..last]);
      assert rows == rows[..last] + [rows[last]];
    }
  }

  // ---- the write loop of a commit, key by key ----------------------------------------------------------

  /** The rows once the keys `done` of the file have been written. */
  ghost predicate PartialCommit(db: Db, rows: map<nat, Row>, b: nat, file: File, done: set<Key>) {
    && (forall id :: id in db.rows ==> id in rows)
    && (forall id :: id in db.rows ==>
          rows[id] == if db.rows[id].key in done then AfterCommit(db.brands, b, file, db.rows[id]) else db.rows[id])
    && (forall id :: id in rows && id !in db.rows ==>
          rows[id].key in done && rows[id].key in file && rows[id] == NewRow(b, rows[id].key, file[rows[id].key]))
    && (forall k :: k in done ==> HasNew(db.rows, rows, k))
    && (forall i, j ::
         i in rows && j in rows && i !in db.rows && j !in db.rows && rows[i].key == rows[j].key ==> i == j)
  }

  lemma StillNew(before: map<nat, Row>, rows: map<nat, Row>, next: map<nat, Row>, k: Key)
    requires HasNew(before, rows, k)
    requires forall id :: id in rows && id !in before ==> id in next && next[id] == rows[id]
    ensures HasNew(before, next, k)
  {
    var n :| n in rows && n !in before && rows[n].key == k;
    assert n in next && n !in before && next[n].key == k;
  }

  lemma UpdateStep(db: Db, rows: map<nat, Row>, b: nat, file: File, done: set<Key>, k: Key, id: nat, n: nat)
    requires PartialCommit(db, rows, b, file, done) && OneLive(db.rows)
    requires k in file && k !in done && n !in rows
    requires LiveAt(db.rows, k, id) && ReadBack(db.brands, db.rows[id].data) != file[k]
    ensures var freed := rows[id := rows[id].(current := false, supersededBy := Some(b))];
      PartialCommit(db, freed[n := NewRow(b, k, file[k])], b, file, done + {k})
  {
    var next := rows[id := rows[id].(current := false, supersededBy := Some(b))][n := NewRow(b, k, file[k])];
    forall j | j in db.rows
      ensures next[j] == if db.rows[j].key in done + {k} then AfterCommit(db.brands, b, file, db.rows[j])
                         else db.rows[j]
    {
      if j != id && db.rows[j].key == k { assert !db.rows[j].current; }
    }
    forall x | x in done + {k} ensures HasNew(db.rows, next, x) {
      if x == k {
        assert n in next && n !in db.rows && next[n].key == k;
      } else {
        StillNew(db.rows, rows, next, x);
      }
    }
  }

  lemma InsertStep(db: Db, rows: map<nat, Row>, b: nat, file: File, done: set<Key>, k: Key, n: nat)
    requires PartialCommit(db, rows, b, file, done)
    requires k in file && k !in done && n !in rows && forall id :: !LiveAt(db.rows, k, id)
    ensures PartialCommit(db, rows[n := NewRow(b, k, file[k])], b, file, done + {k})
  {
    var next := rows[n := NewRow(b, k, file[k])];
    forall j | j in db.rows
      ensures next[j] == if db.rows[j].key in done + {k} then AfterCommit(db.brands, b, file, db.rows[j])
                         else db.rows[j]
    {
      assert !LiveAt(db.rows, k, j);
    }
    forall x | x in done + {k} ensures HasNew(db.rows, next, x) {
      if x == k {
        assert n in next && n !in db.rows && next[n].key == k;
      } else {
        StillNew(db.rows, rows, next, x);
      }
    }
  }

  lemma AllWritten(db: Db, rows: map<nat, Row>, b: nat, file: File, done: set<Key>)
    requires PartialCommit(db, rows, b, file, done) && OneLive(db.rows)
    requires forall k :: k in done <==> NeedsRow(db, file, k)
    ensures CommitRows(db, rows, b, file)
  {
    forall id | id in db.rows ensures rows[id] == AfterCommit(db.brands, b, file, db.rows[id]) {
      var r := db.rows[id];
      if r.key !in done && r.current && r.key in file {
        assert LiveAt(db.rows, r.key, id);
        UnchangedIsLive(db, r.key, file[r.key], id);
      }
    }
  }

  // ---- what the diff says about the file's keys ------------------------------------------------------------

  /** `current` is what the diff reads: the live rows with their brands spelled out. */
  ghost predicate ReadsLive(db: Db, current: seq<CurrentRow>) {
    && DistinctKeys(current)
    && (forall c :: c in current ==> LiveAt(db.rows, c.key, c.id) && c.cells == ReadBack(db.brands, db.rows[c.id].data))
    && (forall id :: id in db.rows && db.rows[id].current ==> exists c :: c in current && c.id == id)
  }

  lemma InsertNeedsRow(db: Db, current: seq<CurrentRow>, file: File, r: FileRow)
    requires ReadsLive(db, current) && IsInsert(r, current, {}) && r.key in file
    ensures NeedsRow(db, file, r.key) && forall id :: !LiveAt(db.rows, r.key, id)
  {
    forall id ensures LiveAt(db.rows, r.key, id) ==> exists c :: Existing(current, r.key, c) {
      LiveIsRead(db, current, r.key, id);
    }
  }

  lemma LiveIsRead(db: Db, current: seq<CurrentRow>, k: Key, id: nat)
    requires ReadsLive(db, current)
    ensures LiveAt(db.rows, k, id) ==> exists c :: Existing(current, k, c)
  {
    if LiveAt(db.rows, k, id) {
      var c :| c in current && c.id == id;
      assert LiveAt(db.rows, c.key, c.id) && Existing(current, k, c);
    }
  }

  lemma UpdateNeedsRow(db: Db, current: seq<CurrentRow>, file: File, u: RowUpdate)
    requires OneLive(db.rows) && ReadsLive(db, current) && IsUpdate(u, current, {})
    requires u.row.key in file && file[u.row.key] == u.row.cells
    ensures NeedsRow(db, file, u.row.key) && LiveAt(db.rows, u.row.key, u.existingId)
    ensures ReadBack(db.brands, db.rows[u.existingId].data) != file[u.row.key]
  {
    var c :| Existing(current, u.row.key, c) && c.id == u.existingId && c.cells != u.row.cells;
    UnchangedIsLive(db, u.row.key, u.row.cells, c.id);
  }

  lemma SameIsUnchanged(db: Db, current: seq<CurrentRow>, r: FileRow)
    requires ReadsLive(db, current) && IsSame(r, current, {})
    ensures Unchanged(db, r.key, r.cells)
  {
    var c :| Existing(current, r.key, c) && c.cells == r.cells;
    assert LiveAt(db.rows, r.key, c.id);
  }

  ghost function KeySet(rows: seq<FileRow>): set<Key> {
    set r | r in rows :: r.key
  }

  lemma {:induction false} CountTwo<T>(s: seq<T>, i: nat, j: nat)
    requires i < j < |s| && s[i] == s[j]
    ensures multiset(s)[s[i]] >= 2
  {
    assert s == s[..j] + [s[j]] + s[j + 1..];
    assert s[..j] == s[..i] + [s[i]] + s[i + 1..j];
  }

  lemma {:induction false} CountOne(rows: seq<FileRow>, r: FileRow)
    requires KeysDistinct(rows)
    ensures multiset(rows)[r] <= 1
  {
    if rows != [] {
      var last := |rows| - 1;
      assert rows == rows[..last] + [rows[last]];
      CountOne(rows[..last], r);
      if rows[last] == r {
        assert r !in rows[..last];
      }
    }
  }

  lemma SubKeysDistinct(rows: seq<FileRow>, sub: seq<FileRow>)
    requires KeysDistinct(rows) && multiset(sub) <= multiset(rows)
    ensures KeysDistinct(sub)
  {
    forall i, j | 0 <= i < j < |sub| ensures sub[i].key != sub[j].key {
      assert sub[i] in multiset(sub) && sub[j] in multiset(sub);
      assert sub[i] in rows && sub[j] in rows;
      if sub[i].key == sub[j].key {
        assert sub[i] == sub[j];
        CountTwo(sub, i, j);
        CountOne(rows, sub[i]);
      }
    }
  }

  lemma {:induction false} KeySetSize(rows: seq<FileRow>)
    requires KeysDistinct(rows)
    ensures |KeySet(rows)| == |rows|
  {
    if rows != [] {
      var last := |rows| - 1;
      KeySetSize(rows[..last]);
      assert rows == rows[..last] + [rows[last]];
      assert KeySet(rows) == KeySet(rows[..last]) + {rows[last].key};
      assert rows[last].key !in KeySet(rows[..last]);
    }
  }

  /** The lists of the diff, read as facts about the file's keys. */
  lemma DiffKeys(db: Db, current: seq<CurrentRow>, rows: seq<FileRow>, diff: TableDiff)
    requires OneLive(db.rows) && ReadsLive(db, current) && KeysDistinct(rows) && IsDiff(diff, rows, current, {})
    ensures forall k :: NeedsRow(db, FileOf(rows), k) <==> k in KeySet(UpdatedRows(diff.updates)) + KeySet(diff.inserts)
    ensures |diff.same| == UnchangedCount(db, FileOf(rows))
  {
    var file := FileOf(rows);
    FileOfDistinct(rows);
    DiffParts(diff, rows, current);
    SubKeysDistinct(rows, diff.same);
    forall r | r in rows ensures NeedsRow(db, file, r.key) <==> r in diff.inserts || r in UpdatedRows(diff.updates) {
      RowNeeds(db, current, rows, diff, r);
    }
    forall r | r in rows ensures r in diff.same <==> Unchanged(db, r.key, file[r.key]) {
      RowNeeds(db, current, rows, diff, r);
    }
    KeySetSize(diff.same);
    SameKeys(rows, diff, db);
  }

  lemma SameKeys(rows: seq<FileRow>, diff: TableDiff, db: Db)
    requires forall r :: r in diff.same ==> r in rows
    requires forall r :: r in rows ==> (r in diff.same <==> Unchanged(db, r.key, FileOf(rows)[r.key]))
    ensures KeySet(diff.same) == set k | k in FileOf(rows) && Unchanged(db, k, FileOf(rows)[k])
  {
    var file := FileOf(rows);
    forall k | k in file && Unchanged(db, k, file[k]) ensures k in KeySet(diff.same) {
      var r :| r in rows && r.key == k && r.cells == file[k];
      assert r in diff.same;
    }
  }

  lemma RowNeeds(db: Db, current: seq<CurrentRow>, rows: seq<FileRow>, diff: TableDiff, r: FileRow)
    requires OneLive(db.rows) && ReadsLive(db, current) && KeysDistinct(rows) && IsDiff(diff, rows, current, {})
    requires r in rows
    ensures NeedsRow(db, FileOf(rows), r.key) <==> r in diff.inserts || r in UpdatedRows(diff.updates)
    ensures r in diff.same <==> Unchanged(db, r.key, FileOf(rows)[r.key])
  {
    FileOfDistinct(rows);
    DiffParts(diff, rows, current);
    if r in diff.inserts {
      InsertNeedsRow(db, current, FileOf(rows), r);
    }
    if r in UpdatedRows(diff.updates) {
      var u :| u in diff.updates && u.row == r;
      UpdateNeedsRow(db, current, FileOf(rows), u);
    }
    if r in diff.same { SameIsUnchanged(db, current, r); }
  }

  /** The write loop meets every key once. */
  lemma DiffKeysDistinct(rows: seq<FileRow>, current: seq<CurrentRow>, diff: TableDiff)
    requires KeysDistinct(rows) && DistinctKeys(current) && IsDiff(diff, rows, current, {})
    ensures KeysDistinct(UpdatedRows(diff.updates)) && KeysDistinct(diff.inserts)
    ensures KeySet(UpdatedRows(diff.updates)) !! KeySet(diff.inserts)
  {
    DiffParts(diff, rows, current);
    SubKeysDistinct(rows, UpdatedRows(diff.updates));
    SubKeysDistinct(rows, diff.inserts);
    forall u, r | u in diff.updates && r in diff.inserts ensures u.row.key != r.key {
      assert IsUpdate(u, current, {}) && IsInsert(r, current, {});
    }
  }

  lemma NextKey(rows: seq<FileRow>, n: nat)
    requires KeysDistinct(rows) && n < |rows|
    ensures rows[n].key !in KeySet(rows[..n])
    ensures KeySet(rows[..n + 1]) == KeySet(rows[..n]) + {rows[n].key}
  {
    assert rows[..n + 1] == rows[..n] + [rows[n]];
  }

  lemma UpdatedMember(us: seq<RowUpdate>, u: RowUpdate)
    requires u in us
    ensures u.row in UpdatedRows(us)
  {
    var i :| 0 <= i < |us| && us[i] == u;
    assert UpdatedRows(us)[i] == u.row;
  }

  lemma DiffParts(diff: TableDiff, rows: seq<FileRow>, current: seq<CurrentRow>)
    requires IsDiff(diff, rows, current, {})
    ensures multiset(UpdatedRows(diff.updates)) <= multiset(rows) && multiset(diff.inserts) <= multiset(rows) &&
      multiset(diff.same) <= multiset(rows)
    ensures forall r :: r in rows <==> r in diff.inserts || r in UpdatedRows(diff.updates) || r in diff.same
  {
    forall r ensures r in rows <==> r in diff.inserts || r in UpdatedRows(diff.updates) || r in diff.same {
      assert r in rows <==> multiset(rows)[r] > 0;
      assert r in diff.inserts <==> multiset(diff.inserts)[r] > 0;
      assert r in UpdatedRows(diff.updates) <==> multiset(UpdatedRows(diff.updates))[r] > 0;
      assert r in diff.same <==> multiset(diff.same)[r] > 0;
      assert r in diff.invalid <==> multiset(diff.invalid)[r] > 0;
      assert multiset(rows)[r] == multiset(diff.inserts)[r] + multiset(UpdatedRows(diff.updates))[r] +
        multiset(diff.same)[r] + multiset(diff.invalid)[r];
    }
  }

  function Consumed(staged: map<nat, Upload>): set<nat> {
    set s | s in staged && staged[s].consumed
  }

  ghost predicate ConsumedOnce(batches: map<nat, Batch>, staged: map<nat, Upload>) {
    OneBatchPerUpload(batches, Consumed(staged)) && forall s :: s in staged ==> UploadOk(staged[s])
  }

  lemma ConsumedByCommit(batches: map<nat, Batch>, staged: map<nat, Upload>, b: nat, batch: Batch, id: nat)
    requires ConsumedOnce(batches, staged) && id in staged && !staged[id].consumed && batch.staged == id &&
      b !in batches
    ensures ConsumedOnce(batches[b := batch], staged[id := staged[id].(consumed := true)])
  {
  }

  /** Row i is the first to use the brand, and spells it so. */
  predicate FirstSpelling(file: seq<FileRow>, i: int, folded: string, name: string) {
    && 0 <= i < |file| && file[i].cells.brand == Some(name) && Fold(name) == folded
    && forall j :: 0 <= j < i && file[j].cells.brand.Some? ==> Fold(file[j].cells.brand.value) != folded
  }

  /** Exactly the brands of the file that are not known, each as the file first spells it. */
  ghost predicate NewBrands(out: map<string, string>, file: seq<FileRow>, known: set<string>) {
    && out.Keys !! known
    && (forall f :: f in out ==> exists i :: FirstSpelling(file, i, f, out[f]))
    && (forall r :: r in file && r.cells.brand.Some? ==>
         Fold(r.cells.brand.value) in known || Fold(r.cells.brand.value) in out)
  }

  /** Every brand that came in is named as the file first spells it. */
  ghost predicate FirstSpelled(before: map<string, Brand>, after: map<string, Brand>, file: seq<FileRow>) {
    forall f :: f in after && f !in before ==> exists i :: FirstSpelling(file, i, f, after[f].name)
  }

  lemma SpelledSoFar(file: seq<FileRow>, n: nat)
    requires n < |file|
    ensures file[..n + 1] == file[..n] + [file[n]]
    ensures forall i, f, name :: FirstSpelling(file[..n], i, f, name) ==> FirstSpelling(file[..n + 1], i, f, name)
  {
    forall i, f, name | FirstSpelling(file[..n], i, f, name) ensures FirstSpelling(file[..n + 1], i, f, name) {
      assert forall j :: 0 <= j < n ==> file[..n + 1][j] == file[..n][j];
    }
  }

  lemma WholeCommit(db: Db, rows: map<nat, Row>, brands: map<string, Brand>, b: nat, staged: nat, file: File,
                    restated: nat)
    requires FreshBatch(db, b) && CommitRows(db, rows, b, file) && CommitBrands(db.brands, brands, b, file)
    requires restated == UnchangedCount(db, file)
    ensures CommitRel(db, Db(rows, db.batches[b := Batch(Success, file, restated, staged)], brands), b, staged, file)
  {
  }

  class UploadStore {
    var rows: map<nat, Row>
    var nextRow: nat
    var batches: map<nat, Batch>
    var nextBatch: nat
    var brands: map<string, Brand>
    var staged: map<nat, Upload>

    ghost function Contents(): Db
      reads this
    {
      Db(rows, batches, brands)
    }

    ghost predicate IdsFresh()
      reads this
    {
      (forall id :: id in rows ==> id < nextRow) && (forall b :: b in batches ==> b < nextBatch)
    }

    ghost predicate Valid()
      reads this
    {
      Inv(Contents()) && IdsFresh() && ConsumedOnce(batches, staged)
    }

    /** A store before any upload is committed: only brands set up by hand, and staged uploads. */
    constructor (initialBrands: map<string, Brand>, uploads: map<nat, Upload>)
      requires forall f :: f in initialBrands ==> initialBrands[f].createdBy == None && Fold(initialBrands[f].name) == f
      requires forall u :: u in uploads ==> !uploads[u].consumed && UploadOk(uploads[u])
      ensures Valid() && rows == map[] && batches == map[] && brands == initialBrands && staged == uploads
    {
      rows, nextRow, batches, nextBatch := map[], 0, map[], 0;
      brands, staged := initialBrands, uploads;
    }

    // ---- single statements ----------------------------------------------------------------------------

    /** No live row holds the key: the slot of the unique index (key, is_current = 1) is free. */
    ghost predicate SlotFree(k: Key)
      reads this
    {
      forall id :: id in rows && rows[id].key == k ==> !rows[id].current
    }

    /** UPDATE ... SET is_current = NULL, superseded_by_batch = ? WHERE id = ? AND is_current = 1 */
    method Supersede(id: nat, b: nat) returns (affected: nat)
      requires OneLive(rows)
      modifies this`rows
      ensures OneLive(rows)
      ensures affected == if id in old(rows) && old(rows)[id].current then 1 else 0
      ensures rows == if affected == 0 then old(rows)
                      else old(rows)[id := old(rows)[id].(current := false, supersededBy := Some(b))]
    {
      affected := 0;
      if id in rows && rows[id].current {
        rows := rows[id := rows[id].(current := false, supersededBy := Some(b))];
        affected := 1;
      }
    }

    /** INSERT ... is_current = 1; the brand must resolve. */
    method InsertRow(b: nat, k: Key, cells: Cells)
      requires OneLive(rows) && SlotFree(k)
      requires forall id :: id in rows ==> id < nextRow
      requires Store(cells).brand.Some? ==> Store(cells).brand.value in brands
      modifies this`rows, this`nextRow
      ensures OneLive(rows)
      ensures rows == old(rows)[old(nextRow) := NewRow(b, k, cells)] && nextRow == old(nextRow) + 1
    {
      rows := rows[nextRow := NewRow(b, k, cells)];
      nextRow := nextRow + 1;
    }

    /** UPDATE ... SET batch_id = ? WHERE id = ? */
    method SetBatch(id: nat, b: nat)
      requires OneLive(rows) && id in rows
      modifies this`rows
      ensures OneLive(rows) && rows == old(rows)[id := old(rows)[id].(batch := b)]
    {
      rows := rows[id := rows[id].(batch := b)];
    }

    /** DELETE ... WHERE id = ? */
    method DeleteRow(id: nat)
      requires OneLive(rows)
      modifies this`rows
      ensures OneLive(rows) && rows == old(rows) - {id}
    {
      rows := rows - {id};
    }

    /** UPDATE ... SET is_current = 1, superseded_by_batch = NULL WHERE id = ? */
    method Rearm(id: nat)
      requires OneLive(rows) && id in rows
      requires forall j :: j in rows && j != id && rows[j].key == rows[id].key ==> !rows[j].current
      modifies this`rows
      ensures OneLive(rows) && rows == old(rows)[id := old(rows)[id].(current := true, supersededBy := None)]
    {
      rows := rows[id := rows[id].(current := true, supersededBy := None)];
    }

    /** UPDATE ... SET superseded_by_batch = ? WHERE id = ? */
    method Relink(id: nat, b: nat)
      requires OneLive(rows) && id in rows
      modifies this`rows
      ensures OneLive(rows) && rows == old(rows)[id := old(rows)[id].(supersededBy := Some(b))]
    {
      rows := rows[id := rows[id].(supersededBy := Some(b))];
    }

    // ---- commit -------------------------------------------------------------------------------------------

    method CurrentRows() returns (current: seq<CurrentRow>)
      requires OneLive(rows) && forall id :: id in rows ==> id < nextRow
      ensures ReadsLive(Contents(), current)
    {
      current := [];
      for id := 0 to nextRow
        invariant forall c :: c in current ==> c.id < id
        invariant DistinctKeys(current)
        invariant forall c :: c in current ==> LiveAt(rows, c.key, c.id) && c.cells == ReadBack(brands, rows[c.id].data)
        invariant forall j :: j in rows && rows[j].current && j < id ==> exists c :: c in current && c.id == j
      {
        if id in rows && rows[id].current {
          ghost var before := current;
          current := current + [CurrentRow(id, rows[id].key, ReadBack(brands, rows[id].data))];
          assert current[|before|].id == id;
          forall j | j in rows && rows[j].current && j < id + 1 ensures exists c :: c in current && c.id == j {
            if j < id {
              var c :| c in before && c.id == j;
              assert c in current;
            }
          }
        }
      }
    }

    /** One update: the live row steps back, the new version takes its slot. */
    method WriteUpdate(b: nat, u: RowUpdate, ghost db: Db, ghost file: File, ghost done: set<Key>)
      requires PartialCommit(db, rows, b, file, done) && OneLive(rows) && OneLive(db.rows)
      requires forall id :: id in rows ==> id < nextRow
      requires u.row.key in file && file[u.row.key] == u.row.cells && u.row.key !in done
      requires LiveAt(db.rows, u.row.key, u.existingId) &&
        ReadBack(db.brands, db.rows[u.existingId].data) != u.row.cells
      requires Store(u.row.cells).brand.Some? ==> Store(u.row.cells).brand.value in brands
      modifies this`rows, this`nextRow
      ensures PartialCommit(db, rows, b, file, done + {u.row.key}) && OneLive(rows)
      ensures forall id :: id in rows ==> id < nextRow
    {
      assert rows[u.existingId] == db.rows[u.existingId];
      UpdateStep(db, rows, b, file, done, u.row.key, u.existingId, nextRow);
      ghost var was := rows;
      var affected := Supersede(u.existingId, b);
      // The "stale row" throw of the source would be here: the statement always finds its row.
      assert affected == 1;
      FreedSlot(db, was, b, file, done, u.row.key, u.existingId);
      InsertRow(b, u.row.key, u.row.cells);
    }

    method WriteInsert(b: nat, r: FileRow, ghost db: Db, ghost file: File, ghost done: set<Key>)
      requires PartialCommit(db, rows, b, file, done) && OneLive(rows)
      requires forall id :: id in rows ==> id < nextRow
      requires r.key in file && file[r.key] == r.cells && r.key !in done
      requires forall id :: !LiveAt(db.rows, r.key, id)
      requires Store(r.cells).brand.Some? ==> Store(r.cells).brand.value in brands
      modifies this`rows, this`nextRow
      ensures PartialCommit(db, rows, b, file, done + {r.key}) && OneLive(rows)
      ensures forall id :: id in rows ==> id < nextRow
    {
      InsertStep(db, rows, b, file, done, r.key, nextRow);
      EmptySlot(db, rows, b, file, done, r.key);
      InsertRow(b, r.key, r.cells);
    }

    /** What the write loop needs to know about each row it writes. */
    ghost predicate Writable(r: FileRow, file: File)
      reads this`brands
    {
      && r.key in file && file[r.key] == r.cells
      && (Store(r.cells).brand.Some? ==> Store(r.cells).brand.value in brands)
    }

    method WriteUpdates(b: nat, diff: TableDiff, ghost db: Db, ghost file: File, ghost current: seq<CurrentRow>)
      requires db.rows == rows && OneLive(rows) && forall id :: id in rows ==> id < nextRow
      requires ReadsLive(db, current) && Classified(diff, current, {})
      requires forall u :: u in diff.updates ==> Writable(u.row, file)
      requires KeysDistinct(UpdatedRows(diff.updates))
      modifies this`rows, this`nextRow
      ensures PartialCommit(db, rows, b, file, KeySet(UpdatedRows(diff.updates)))
      ensures OneLive(rows) && forall id :: id in rows ==> id < nextRow
    {
      var updated := UpdatedRows(diff.updates);
      for n := 0 to |diff.updates|
        invariant PartialCommit(db, rows, b, file, KeySet(updated[..n])) && OneLive(rows)
        invariant forall id :: id in rows ==> id < nextRow
      {
        var u := diff.updates[n];
        UpdateNeedsRow(db, current, file, u);
        NextKey(updated, n);
        WriteUpdate(b, u, db, file, KeySet(updated[..n]));
      }
      assert updated[..|diff.updates|] == updated;
    }

    method WriteInserts(b: nat, diff: TableDiff, ghost db: Db, ghost file: File, ghost current: seq<CurrentRow>,
                        ghost done: set<Key>)
      requires PartialCommit(db, rows, b, file, done) && OneLive(rows) && forall id :: id in rows ==> id < nextRow
      requires ReadsLive(db, current) && Classified(diff, current, {})
      requires forall r :: r in diff.inserts ==> Writable(r, file)
      requires KeysDistinct(diff.inserts) && done !! KeySet(diff.inserts)
      modifies this`rows, this`nextRow
      ensures PartialCommit(db, rows, b, file, done + KeySet(diff.inserts))
      ensures OneLive(rows) && forall id :: id in rows ==> id < nextRow
    {
      assert done + KeySet(diff.inserts[..0]) == done;
      for n := 0 to |diff.inserts|
        invariant PartialCommit(db, rows, b, file, done + KeySet(diff.inserts[..n])) && OneLive(rows)
        invariant forall id :: id in rows ==> id < nextRow
      {
        var r := diff.inserts[n];
        assert old(Writable(r, file)) && Writable(r, file);
        InsertNeedsRow(db, current, file, r);
        NextKey(diff.inserts, n);
        assert r.key in KeySet(diff.inserts);
        WriteInsert(b, r, db, file, done + KeySet(diff.inserts[..n]));
        assert done + KeySet(diff.inserts[..n]) + {r.key} == done + KeySet(diff.inserts[..n + 1]);
      }
      assert diff.inserts[..|diff.inserts|] == diff.inserts;
    }

    /** The write loop: supersede and insert for an update, insert for a new key. */
    method WriteDiff(b: nat, diff: TableDiff, ghost db: Db, ghost file: File, ghost current: seq<CurrentRow>)
      requires db.rows == rows && OneLive(rows) && forall id :: id in rows ==> id < nextRow
      requires ReadsLive(db, current) && Classified(diff, current, {})
      requires forall u :: u in diff.updates ==> Writable(u.row, file)
      requires forall r :: r in diff.inserts ==> Writable(r, file)
      requires KeysDistinct(UpdatedRows(diff.updates)) && KeysDistinct(diff.inserts)
      requires KeySet(UpdatedRows(diff.updates)) !! KeySet(diff.inserts)
      modifies this`rows, this`nextRow
      ensures PartialCommit(db, rows, b, file, KeySet(UpdatedRows(diff.updates)) + KeySet(diff.inserts))
      ensures OneLive(rows) && forall id :: id in rows ==> id < nextRow
    {
      WriteUpdates(b, diff, db, file, current);
      WriteInserts(b, diff, db, file, current, KeySet(UpdatedRows(diff.updates)));
    }

    lemma FreedSlot(db: Db, was: map<nat, Row>, b: nat, file: File, done: set<Key>, k: Key, id: nat)
      requires PartialCommit(db, was, b, file, done) && OneLive(was) && k !in done && LiveAt(db.rows, k, id)
      requires rows == was[id := was[id].(current := false, supersededBy := Some(b))]
      ensures SlotFree(k)
    {
      assert was[id] == db.rows[id];
    }

    lemma EmptySlot(db: Db, was: map<nat, Row>, b: nat, file: File, done: set<Key>, k: Key)
      requires PartialCommit(db, was, b, file, done) && k !in done && forall id :: !LiveAt(db.rows, k, id)
      requires rows == was
      ensures SlotFree(k)
    {
      forall id | id in rows && rows[id].key == k ensures !rows[id].current {
        assert !LiveAt(db.rows, k, id);
      }
    }

    /** `newBrandsOf`: the file's brands the brand table does not know, each with its first spelling. */
    method NewBrandsOf(file: seq<FileRow>) returns (out: map<string, string>)
      ensures NewBrands(out, file, brands.Keys)
    {
      out := map[];
      for n := 0 to |file|
        invariant NewBrands(out, file[..n], brands.Keys)
      {
        SpelledSoFar(file, n);
        if file[n].cells.brand.Some? {
          var name := file[n].cells.brand.value;
          if Fold(name) !in brands && Fold(name) !in out {
            assert FirstSpelling(file[..n + 1], n, Fold(name), name);
            out := out[Fold(name) := name];
          }
        }
      }
      assert file[..|file|] == file;
    }

    method CreateBrands(newBrands: map<string, string>, b: nat)
      requires newBrands.Keys !! brands.Keys
      modifies this`brands
      ensures brands.Keys == old(brands).Keys + newBrands.Keys
      ensures forall f :: f in old(brands) ==> brands[f] == old(brands)[f]
      ensures forall f :: f in newBrands ==> brands[f] == Brand(newBrands[f], Some(b))
    {
      var todo := newBrands.Keys;
      while todo != {}
        invariant todo <= newBrands.Keys
        invariant brands.Keys == old(brands).Keys + (newBrands.Keys - todo)
        invariant forall f :: f in old(brands) ==> brands[f] == old(brands)[f]
        invariant forall f :: f in newBrands.Keys - todo ==> brands[f] == Brand(newBrands[f], Some(b))
        decreases todo
      {
        var f :| f in todo;
        brands := brands[f := Brand(newBrands[f], Some(b))];
        todo := todo - {f};
      }
    }

    /** `loadStaged`: why an upload may not be imported by this user now. */
    function StagedRefusal(id: nat, actor: nat): Option<MarcomError>
      reads this
    {
      if id !in staged then Some(StagedNotFound)
      else if staged[id].user != actor then Some(StagedForbidden)
      else if staged[id].consumed then Some(StagedConsumed)
      else if staged[id].expired then Some(StagedExpired)
      else None
    }

    /** The brands and the rows of a commit that nothing refuses any more. */
    method WriteTables(b: nat, upload: Upload, newBrands: map<string, string>) returns (restated: nat)
      requires OneLive(rows) && KeysDistinct(upload.rows) && NewBrands(newBrands, upload.rows, brands.Keys)
      requires forall id :: id in rows ==> id < nextRow
      modifies this`rows, this`nextRow, this`brands
      ensures CommitRows(old(Contents()), rows, b, FileOf(upload.rows))
      ensures CommitBrands(old(brands), brands, b, FileOf(upload.rows))
      ensures FirstSpelled(old(brands), brands, upload.rows)
      ensures restated == UnchangedCount(old(Contents()), FileOf(upload.rows))
      ensures forall id :: id in rows ==> id < nextRow
    {
      ghost var db := Contents();
      ghost var file := FileOf(upload.rows);
      var current := CurrentRows();
      var diff := DiffTable(upload.rows, current, {});
      DiffKeys(db, current, upload.rows, diff);
      DiffKeysDistinct(upload.rows, current, diff);
      CreateBrands(newBrands, b);
      BrandsCreated(db.brands, brands, newBrands, b, upload.rows);
      RowsWritable(upload.rows, current, diff);
      WriteDiff(b, diff, db, file, current);
      AllWritten(db, rows, b, file, KeySet(UpdatedRows(diff.updates)) + KeySet(diff.inserts));
      restated := |diff.same|;
    }

    /** All writes of the commit: the batch with its file, the tables, the upload consumed. */
    method WriteCommit(id: nat, upload: Upload, newBrands: map<string, string>) returns (b: nat)
      requires OneLive(rows) && IdsFresh() && KeysDistinct(upload.rows)
      requires NewBrands(newBrands, upload.rows, brands.Keys)
      modifies this
      ensures CommitRel(old(Contents()), Contents(), b, id, FileOf(upload.rows)) && IdsFresh()
      ensures FirstSpelled(old(brands), brands, upload.rows)
      ensures staged == old(staged)[id := upload.(consumed := true)]
    {
      ghost var db := Contents();
      assert FreshBatch(db, nextBatch);
      b := nextBatch;
      nextBatch := nextBatch + 1;
      var restated := WriteTables(b, upload, newBrands);
      WholeCommit(db, rows, brands, b, id, FileOf(upload.rows), restated);
      batches := batches[b := Batch(Success, FileOf(upload.rows), restated, id)];
      staged := staged[id := upload.(consumed := true)];
    }

    method CommitChecked(id: nat, upload: Upload, newBrands: map<string, string>) returns (b: nat)
      requires Valid() && id in staged && upload == staged[id] && !upload.consumed && upload.errors == 0
      requires NewBrands(newBrands, upload.rows, brands.Keys)
      modifies this
      ensures Valid() && CommitRel(old(Contents()), Contents(), b, id, FileOf(upload.rows))
      ensures FirstSpelled(old(brands), brands, upload.rows)
      ensures staged == old(staged)[id := upload.(consumed := true)]
    {
      ghost var db := Contents();
      LiveIsUnique(rows);
      assert UploadOk(upload);
      b := WriteCommit(id, upload, newBrands);
      ConsumedByCommit(db.batches, old(staged), b, batches[b], id);
      CommitKeepsInv(db, Contents(), b, id, FileOf(upload.rows));
    }

    lemma RowsWritable(file: seq<FileRow>, current: seq<CurrentRow>, diff: TableDiff)
      requires KeysDistinct(file) && IsDiff(diff, file, current, {})
      requires forall f :: FileUses(FileOf(file), f) ==> f in brands
      ensures forall u :: u in diff.updates ==> Writable(u.row, FileOf(file))
      ensures forall r :: r in diff.inserts ==> Writable(r, FileOf(file))
    {
      FileOfDistinct(file);
      DiffParts(diff, file, current);
      forall r | r in file ensures Writable(r, FileOf(file)) {
        if Store(r.cells).brand.Some? { assert FileUses(FileOf(file), Store(r.cells).brand.value); }
      }
      forall u | u in diff.updates ensures u.row in file { UpdatedMember(diff.updates, u); }
    }

    /** `commitUpload`, inside the write lock. */
    method CommitUpload(id: nat, actor: nat, confirmNewBrands: bool) returns (r: Result<nat, MarcomError>)
      requires Valid()
      modifies this
      ensures Valid()
      ensures r.Err? ==> Contents() == old(Contents()) && staged == old(staged)
      ensures r == Err(StagedNotFound) <==> id !in old(staged)
      ensures r == Err(StagedForbidden) <==> id in old(staged) && old(staged)[id].user != actor
      ensures r == Err(StagedConsumed) <==>
        id in old(staged) && old(staged)[id].user == actor && old(staged)[id].consumed
      ensures r == Err(StagedExpired) <==>
        id in old(staged) && old(staged)[id].user == actor && !old(staged)[id].consumed && old(staged)[id].expired
      ensures r == Err(BlockingErrors) <==>
        && id in old(staged) && old(staged)[id].user == actor && !old(staged)[id].consumed && !old(staged)[id].expired
        && old(staged)[id].errors > 0
      ensures r == Err(NewBrandsUnconfirmed) <==>
        && id in old(staged) && old(staged)[id].user == actor && !old(staged)[id].consumed && !old(staged)[id].expired
        && old(staged)[id].errors == 0 && !confirmNewBrands
        && exists x :: x in old(staged)[id].rows && x.cells.brand.Some? && Fold(x.cells.brand.value) !in old(brands)
      ensures r.Ok? <==>
        && id in old(staged) && old(staged)[id].user == actor && !old(staged)[id].consumed && !old(staged)[id].expired
        && old(staged)[id].errors == 0
        && (confirmNewBrands ||
            forall x :: x in old(staged)[id].rows && x.cells.brand.Some? ==> Fold(x.cells.brand.value) in old(brands))
      ensures r.Ok? ==>
        && CommitRel(old(Contents()), Contents(), r.value, id, FileOf(old(staged)[id].rows))
        && staged == old(staged)[id := old(staged)[id].(consumed := true)]
        && FirstSpelled(old(brands), brands, old(staged)[id].rows)
    {
      var refusal := StagedRefusal(id, actor);
      if refusal.Some? { return Err(refusal.value); }
      var upload := staged[id];
      if upload.errors > 0 { return Err(BlockingErrors); }
      var newBrands := NewBrandsOf(upload.rows);
      if newBrands != map[] && !confirmNewBrands {
        assert newBrands.Keys != {};
        ghost var f :| f in newBrands;
        return Err(NewBrandsUnconfirmed);
      }
      var b := CommitChecked(id, upload, newBrands);
      return Ok(b);
    }

    lemma BrandsCreated(before: map<string, Brand>, after: map<string, Brand>, newBrands: map<string, string>, b: nat,
                        rows: seq<FileRow>)
      requires KeysDistinct(rows) && after.Keys == before.Keys + newBrands.Keys
      requires NewBrands(newBrands, rows, before.Keys)
      requires forall f :: f in before ==> after[f] == before[f]
      requires forall f :: f in newBrands ==> after[f] == Brand(newBrands[f], Some(b))
      ensures CommitBrands(before, after, b, FileOf(rows)) && FirstSpelled(before, after, rows)
    {
      FileOfDistinct(rows);
      forall f | f in newBrands ensures Fold(newBrands[f]) == f && FileSpells(FileOf(rows), newBrands[f]) {
        var i :| FirstSpelling(rows, i, f, newBrands[f]);
        assert rows[i] in rows && rows[i].key in FileOf(rows);
        assert FileOf(rows)[rows[i].key].brand == Some(newBrands[f]);
      }
      forall f | FileUses(FileOf(rows), f) ensures f in after {
        var k :| k in FileOf(rows) && Store(FileOf(rows)[k]).brand == Some(f);
        var r :| r in rows && r.key == k && r.cells == FileOf(rows)[k];
      }
    }

    // ---- removing a batch: reading and planning -------------------------------------------------------------

    method ReadOwnRows(b: nat) returns (own: seq<DbRow>)
      requires OneRowPerBatch(rows) && forall id :: id in rows ==> id < nextRow
      ensures ReadOwn(rows, b, own)
    {
      own := [];
      for id := 0 to nextRow
        invariant OwnKeysDistinct(own)
        invariant forall x :: x in own ==> x.id < id && x.id in rows && rows[x.id] == x.row && x.row.batch == b
        invariant forall j :: j in rows && rows[j].batch == b && j < id ==> DbRow(j, rows[j]) in own
      {
        if id in rows && rows[id].batch == b { own := own + [DbRow(id, rows[id])]; }
      }
    }

    method ReadEarlierRows(b: nat) returns (earlier: seq<DbRow>)
      requires forall id :: id in rows ==> id < nextRow
      ensures ReadEarlier(rows, b, earlier)
    {
      earlier := [];
      for id := 0 to nextRow
        invariant forall x :: x in earlier ==> x.id in rows && rows[x.id] == x.row && x.row.supersededBy == Some(b)
        invariant forall j :: j in rows && rows[j].supersededBy == Some(b) && j < id ==> DbRow(j, rows[j]) in earlier
      {
        if id in rows && rows[id].supersededBy == Some(b) { earlier := earlier + [DbRow(id, rows[id])]; }
      }
    }

    /** The live rows of the other batches, by key. */
    method ReadLiveOthers(b: nat) returns (live: map<Key, nat>)
      ensures forall k :: k in live ==> exists id :: LiveAt(rows, k, id) && rows[id].batch == live[k] != b
    {
      live := map[];
      for id := 0 to nextRow
        invariant forall k :: k in live ==> exists j :: LiveAt(rows, k, j) && rows[j].batch == live[k] != b
      {
        if id in rows && rows[id].current && rows[id].batch != b {
          assert LiveAt(rows, rows[id].key, id);
          live := live[rows[id].key := rows[id].batch];
        }
      }
    }

    /** `laterBatchKeys`: the file keys of the later successful batches that re-stated rows unchanged. */
    method ReadLaterFiles(b: nat) returns (list: seq<LaterBatch>)
      requires forall a :: a in batches ==> a < nextBatch
      ensures ReadLater(Contents(), LaterRestating(Contents(), b), list)
    {
      list := [];
      for a := 0 to nextBatch
        invariant forall l :: l in list ==> l.id in LaterRestating(Contents(), b) && l.keys == batches[l.id].file.Keys
        invariant forall c :: c in LaterRestating(Contents(), b) && c < a ==> exists l :: l in list && l.id == c
      {
        if a in batches && a > b && batches[a].status == Success && batches[a].restated > 0 {
          ghost var before := list;
          list := list + [LaterBatch(a, batches[a].file.Keys)];
          assert list[|before|].id == a;
          forall c | c in LaterRestating(Contents(), b) && c < a + 1 ensures exists l :: l in list && l.id == c {
            if c < a {
              var l :| l in before && l.id == c;
              assert l in list;
            }
          }
        }
      }
    }

    method PlanRows(b: nat, list: seq<LaterBatch>, ghost later: set<nat>) returns (plan: TablePlan)
      requires OneRowPerBatch(rows) && LinksOk(rows) && forall id :: id in rows ==> id < nextRow
      requires ReadLater(Contents(), later, list)
      ensures PlanRight(Contents(), b, later, plan)
    {
      var own := ReadOwnRows(b);
      var earlier := ReadEarlierRows(b);
      var live := ReadLiveOthers(b);
      plan := PlanTable(own, earlier, list, live);
      OwnPlanIsRight(Contents(), b, later, own, list, plan.handedOver, plan.deleteIds);
      EarlierPlanIsRight(Contents(), b, later, own, earlier, list, live, plan.rearm, plan.relink);
    }

    // ---- removing a batch: the statements ---------------------------------------------------------------------

    method ApplyHandovers(moves: seq<Move>)
      requires OneLive(rows) && MovesAgree(moves) && forall m :: m in moves ==> m.id in rows
      modifies this`rows
      ensures OneLive(rows) && HandedOverRows(old(rows), rows, moves)
    {
      for n := 0 to |moves|
        invariant OneLive(rows) && HandedOverRows(old(rows), rows, moves[..n])
      {
        assert moves[n] in moves;
        ghost var was := rows;
        SetBatch(moves[n].id, moves[n].toBatch);
        HandoverStep(old(rows), was, moves[..n], moves[n], moves);
        assert moves[..n + 1] == moves[..n] + [moves[n]];
      }
      assert moves[..|moves|] == moves;
    }

    lemma HandoverStep(before: map<nat, Row>, was: map<nat, Row>, done: seq<Move>, m: Move, moves: seq<Move>)
      requires HandedOverRows(before, was, done) && MovesAgree(moves) && done <= moves && m in moves && m.id in before
      ensures HandedOverRows(before, was[m.id := was[m.id].(batch := m.toBatch)], done + [m])
    {
      var next := was[m.id := was[m.id].(batch := m.toBatch)];
      forall x | x in done + [m] ensures x.id in before && next[x.id] == before[x.id].(batch := x.toBatch) {
        if x.id == m.id {
          assert x in moves && x == m;
        }
      }
      assert was[m.id].(batch := m.toBatch) == before[m.id].(batch := m.toBatch);
      forall id | id in before && !Moves(done + [m], id) ensures next[id] == before[id] {
        StillMoves(done, m, id);
      }
    }

    lemma StillMoves(done: seq<Move>, m: Move, id: nat)
      ensures Moves(done + [m], id) <==> Moves(done, id) || m.id == id
    {
      assert m in done + [m];
      if y :| y in done && y.id == id { assert y in done + [m]; }
    }

    method ApplyDeletes(ids: seq<nat>)
      requires OneLive(rows)
      modifies this`rows
      ensures OneLive(rows) && rows == WithoutIds(old(rows), ids)
    {
      for n := 0 to |ids|
        invariant OneLive(rows) && rows == WithoutIds(old(rows), ids[..n])
      {
        DeleteRow(ids[n]);
        assert ids[..n + 1] == ids[..n] + [ids[n]];
      }
      assert ids[..|ids|] == ids;
    }

    /** Re-arming never finds the slot taken: every row it makes live is live in the final rows. */
    method ApplyRearms(ids: seq<nat>, ghost final: map<nat, Row>)
      requires OneLive(rows) && OneLive(final)
      requires forall id :: id in rows && rows[id].current ==>
        id in final && final[id].current && final[id].key == rows[id].key
      requires forall id :: id in ids ==>
        id in rows && id in final && final[id].current && final[id].key == rows[id].key
      modifies this`rows
      ensures OneLive(rows) && RearmedRows(old(rows), rows, ids)
    {
      for n := 0 to |ids|
        invariant OneLive(rows) && RearmedRows(old(rows), rows, ids[..n])
        invariant forall id :: id in rows && rows[id].current ==>
          id in final && final[id].current && final[id].key == rows[id].key
      {
        assert ids[n] in ids;
        assert rows[ids[n]].key == old(rows)[ids[n]].key;
        Rearm(ids[n]);
        assert ids[..n + 1] == ids[..n] + [ids[n]];
      }
      assert ids[..|ids|] == ids;
    }

    lemma NextMove(moves: seq<Move>, n: nat)
      requires n < |moves|
      ensures moves[n] in moves && moves[..n] <= moves && moves[..n + 1] == moves[..n] + [moves[n]]
    {
    }

    method ApplyRelinks(moves: seq<Move>)
      requires OneLive(rows) && MovesAgree(moves) && forall m :: m in moves ==> m.id in rows
      modifies this`rows
      ensures OneLive(rows) && RelinkedRows(old(rows), rows, moves)
    {
      for n := 0 to |moves|
        invariant OneLive(rows) && RelinkedRows(old(rows), rows, moves[..n])
      {
        NextMove(moves, n);
        var m := moves[n];
        RelinkStep(old(rows), rows, moves[..n], m, moves);
        Relink(m.id, m.toBatch);
      }
      assert moves[..|moves|] == moves;
    }

    lemma RelinkStep(before: map<nat, Row>, was: map<nat, Row>, done: seq<Move>, m: Move, moves: seq<Move>)
      requires RelinkedRows(before, was, done) && MovesAgree(moves) && done <= moves && m in moves && m.id in before
      ensures RelinkedRows(before, was[m.id := was[m.id].(supersededBy := Some(m.toBatch))], done + [m])
    {
      var next := was[m.id := was[m.id].(supersededBy := Some(m.toBatch))];
      forall x | x in done + [m]
        ensures x.id in before && next[x.id] == before[x.id].(supersededBy := Some(x.toBatch))
      {
        if x.id == m.id {
          assert x in moves && x == m;
        }
      }
      assert was[m.id].(supersededBy := Some(m.toBatch)) == before[m.id].(supersededBy := Some(m.toBatch));
      forall id | id in before && !Moves(done + [m], id) ensures next[id] == before[id] {
        StillMoves(done, m, id);
      }
    }

    /** `applyRemoval`, the rows: hand over, delete, re-arm, relink. */
    method ApplyRows(b: nat, plan: TablePlan, ghost later: set<nat>)
      requires OneRowPerBatch(rows) && LinksOk(rows) && AllAfter(later, b) && PlanRight(Contents(), b, later, plan)
      modifies this`rows
      ensures rows == RemovedRows(old(Contents()), b, later)
    {
      ghost var db := Contents();
      ghost var final := RemovedRows(db, b, later);
      LiveIsUnique(rows);
      RemovalOneRow(db, b, later);
      RemovalLinks(db, b, later);
      LiveIsUnique(final);
      PlanAgrees(db, b, later, plan);
      ApplyHandovers(plan.handedOver);
      ghost var moved := rows;
      ApplyDeletes(plan.deleteIds);
      LiveStaysLive(db, b, later, plan, moved);
      RearmedIsLive(db, b, later, plan, moved);
      ApplyRearms(plan.rearm, final);
      ghost var rearmed := rows;
      RelinksPresent(db, b, later, plan, moved, rearmed);
      ApplyRelinks(plan.relink);
      StatementsAddUp(db, b, later, plan, moved, rearmed, rows);
    }

    lemma PlanAgrees(db: Db, b: nat, later: set<nat>, plan: TablePlan)
      requires LinksOk(db.rows) && PlanRight(db, b, later, plan)
      ensures MovesAgree(plan.handedOver) && MovesAgree(plan.relink)
      ensures forall id :: Superseded(db, b, id) ==> db.rows[id].batch != b
    {
      forall id | Superseded(db, b, id) ensures db.rows[id].batch != b { assert LinkOk(db.rows, id); }
    }

    lemma LiveStaysLive(db: Db, b: nat, later: set<nat>, plan: TablePlan, moved: map<nat, Row>)
      requires LinksOk(db.rows) && PlanRight(db, b, later, plan) && HandedOverRows(db.rows, moved, plan.handedOver)
      ensures var kept, final := WithoutIds(moved, plan.deleteIds), RemovedRows(db, b, later);
        forall id :: id in kept && kept[id].current ==>
          id in final && final[id].current && final[id].key == kept[id].key
    {
      var kept, final := WithoutIds(moved, plan.deleteIds), RemovedRows(db, b, later);
      forall id | id in kept && kept[id].current
        ensures id in final && final[id].current && final[id].key == kept[id].key
      {
        OwnRowAfter(db, b, later, plan, moved, id);
        assert LinkOk(db.rows, id);
      }
    }

    lemma RearmedIsLive(db: Db, b: nat, later: set<nat>, plan: TablePlan, moved: map<nat, Row>)
      requires LinksOk(db.rows) && PlanRight(db, b, later, plan) && HandedOverRows(db.rows, moved, plan.handedOver)
      ensures var kept, final := WithoutIds(moved, plan.deleteIds), RemovedRows(db, b, later);
        forall id :: id in plan.rearm ==>
          id in kept && id in final && final[id].current && final[id].key == kept[id].key
    {
      forall id | id in plan.rearm
        ensures id in WithoutIds(moved, plan.deleteIds) && id in RemovedRows(db, b, later)
        ensures RemovedRows(db, b, later)[id].current && RemovedRows(db, b, later)[id].key == moved[id].key
      {
        assert LinkOk(db.rows, id) && db.rows[id].batch != b;
        OwnRowAfter(db, b, later, plan, moved, id);
      }
    }

    lemma RelinksPresent(db: Db, b: nat, later: set<nat>, plan: TablePlan, moved: map<nat, Row>, rearmed: map<nat, Row>)
      requires LinksOk(db.rows) && PlanRight(db, b, later, plan) && HandedOverRows(db.rows, moved, plan.handedOver)
      requires RearmedRows(WithoutIds(moved, plan.deleteIds), rearmed, plan.rearm)
      ensures forall m :: m in plan.relink ==> m.id in rearmed
    {
      forall m | m in plan.relink ensures m.id in rearmed {
        assert LinkOk(db.rows, m.id) && db.rows[m.id].batch != b;
        OwnRowAfter(db, b, later, plan, moved, m.id);
      }
    }

    // ---- removing a batch: brands -------------------------------------------------------------------------------

    /** The batches that will use brand `f` once the plan is applied. */
    method UsersAfter(f: string, plan: TablePlan) returns (usedBy: set<nat>)
      requires MovesAgree(plan.handedOver) && forall id :: id in rows ==> id < nextRow
      ensures forall a :: a in usedBy <==> UsedByAfter(Contents(), plan, f, a)
    {
      usedBy := {};
      for id := 0 to nextRow
        invariant forall a :: a in usedBy <==>
          exists j :: j < id && j in rows && rows[j].data.brand == Some(f) && j !in plan.deleteIds
                                                        && OwnerAfter(Contents(), plan, j, a)
      {
        if id in rows && rows[id].data.brand == Some(f) && id !in plan.deleteIds {
          var owner := rows[id].batch;
          if m :| m in plan.handedOver && m.id == id { owner := m.toBatch; }
          assert forall a :: OwnerAfter(Contents(), plan, id, a) <==> a == owner;
          usedBy := usedBy + {owner};
        }
      }
    }

    method MinOf(s: set<nat>) returns (m: nat)
      requires s != {}
      ensures m in s && forall x :: x in s ==> m <= x
    {
      m :| m in s;
      var rest := s - {m};
      while rest != {}
        invariant rest <= s && m in s
        invariant forall x :: x in s && x !in rest ==> m <= x
        decreases rest
      {
        var x :| x in rest;
        if x < m { m := x; }
        rest := rest - {x};
      }
    }

    /** What the plan says about the brands the removed batch created: None = delete, else the new creator. */
    method PlanBrands(b: nat, plan: TablePlan, ghost later: set<nat>) returns (created: map<string, Option<nat>>)
      requires PlanRight(Contents(), b, later, plan) && MovesAgree(plan.handedOver)
      requires forall id :: id in rows ==> id < nextRow
      ensures forall f :: f in created <==> f in brands && brands[f].createdBy == Some(b)
      ensures forall f :: f in created ==>
        match created[f]
        case None => forall a :: !BatchUses(RemovedRows(Contents(), b, later), f, a)
        case Some(a) => FirstUser(RemovedRows(Contents(), b, later), f, a)
    {
      created := map[];
      var todo := set f | f in brands && brands[f].createdBy == Some(b);
      while todo != {}
        invariant forall f :: f in todo || f in created <==> f in brands && brands[f].createdBy == Some(b)
        invariant forall f :: f in created ==>
          match created[f]
          case None => forall a :: !BatchUses(RemovedRows(Contents(), b, later), f, a)
          case Some(a) => FirstUser(RemovedRows(Contents(), b, later), f, a)
        decreases todo
      {
        var f :| f in todo;
        var usedBy := UsersAfter(f, plan);
        forall a: nat ensures a in usedBy <==> BatchUses(RemovedRows(Contents(), b, later), f, a) {
          UsersForeseen(Contents(), b, later, plan, f, a);
        }
        if usedBy == {} {
          created := created[f := None];
        } else {
          var first := MinOf(usedBy);
          created := created[f := Some(first)];
        }
        todo := todo - {f};
      }
    }

    /** DELETE FROM marcom_brand ... AND NOT EXISTS (a row using it) */
    method DeleteBrand(f: string) returns (affected: nat)
      modifies this`brands
      ensures affected == (if (exists a :: BatchUses(rows, f, a)) || f !in old(brands) then 0 else 1)
      ensures brands == if affected == 1 then old(brands) - {f} else old(brands)
    {
      if id :| id in rows && rows[id].data.brand == Some(f) {
        assert UsesBrand(rows, f, rows[id].batch, id);
        assert BatchUses(rows, f, rows[id].batch);
        return 0;
      }
      affected := if f in brands then 1 else 0;
      brands := brands - {f};
    }

    /** `applyRemoval`, the brands. The NOT EXISTS guard never stops a planned deletion. */
    method ApplyBrands(b: nat, created: map<string, Option<nat>>)
      requires forall f :: f in created <==> f in brands && brands[f].createdBy == Some(b)
      requires forall f :: f in created ==>
        match created[f]
        case None => forall a :: !BatchUses(rows, f, a)
        case Some(a) => FirstUser(rows, f, a)
      modifies this`brands
      ensures RemovedBrands(old(brands), brands, b, rows)
    {
      var todo := created.Keys;
      while todo != {}
        invariant todo <= created.Keys
        invariant forall f :: f in brands ==> f in old(brands)
        invariant forall f :: f in old(brands) && (f !in created || f in todo) ==>
          f in brands && brands[f] == old(brands)[f]
        invariant forall f :: f in created && f !in todo ==>
          match created[f]
          case None => f !in brands
          case Some(a) => f in brands && brands[f] == old(brands)[f].(createdBy := Some(a))
        decreases todo
      {
        var f :| f in todo;
        if created[f].None? {
          var affected := DeleteBrand(f);
          assert affected == 1;
        } else {
          brands := brands[f := brands[f].(createdBy := created[f])];
        }
        todo := todo - {f};
      }
    }

    // ---- rollback and remove ------------------------------------------------------------------------------------

    /** `planRemoval` and `applyRemoval`: the rows and the brands. */
    method PlanAndApply(b: nat, list: seq<LaterBatch>, ghost later: set<nat>)
      requires Valid() && b in batches && batches[b].status == Success
      requires ReadLater(Contents(), later, list) && LaterOk(Contents(), b, later)
      modifies this`rows, this`brands
      ensures rows == RemovedRows(old(Contents()), b, later)
      ensures RemovedBrands(old(brands), brands, b, rows)
    {
      var plan := PlanRows(b, list, later);
      PlanAgrees(Contents(), b, later, plan);
      var created := PlanBrands(b, plan, later);
      ApplyRows(b, plan, later);
      ApplyBrands(b, created);
    }

    /** `removeWithin` after its checks: plan, apply, set the status. */
    method RemoveWithin(b: nat, list: seq<LaterBatch>, status: Status, ghost later: set<nat>)
      requires Valid() && b in batches && batches[b].status == Success && (status == RolledBack || status == Removed)
      requires ReadLater(Contents(), later, list) && LaterOk(Contents(), b, later)
      modifies this
      ensures Valid() && RemoveRel(old(Contents()), Contents(), b, later, status) && staged == old(staged)
    {
      ghost var db := Contents();
      PlanAndApply(b, list, later);
      batches := batches[b := batches[b].(status := status)];
      RemovalKeepsInv(db, Contents(), b, later, status);
    }

    method LatestSuccessId() returns (latest: Option<nat>)
      requires forall b :: b in batches ==> b < nextBatch
      ensures latest.Some? ==> LatestSuccess(Contents(), latest.value)
      ensures latest.None? ==> forall a :: a in batches ==> batches[a].status != Success
    {
      latest := None;
      for a := 0 to nextBatch
        invariant latest.Some? ==>
          latest.value in batches && batches[latest.value].status == Success && latest.value < a
        invariant latest.Some? ==>
          forall c :: c in batches && batches[c].status == Success && c < a ==> c <= latest.value
        invariant latest.None? ==> forall c :: c in batches && c < a ==> batches[c].status != Success
      {
        if a in batches && batches[a].status == Success { latest := Some(a); }
      }
    }

    /** `rollbackBatch`: only the latest successful batch, with a reason. */
    method RollbackBatch(b: nat, reason: string) returns (r: Result<(), MarcomError>)
      requires Valid()
      modifies this
      ensures Valid() && staged == old(staged)
      ensures r.Ok? ==> RollbackRel(old(Contents()), Contents(), b)
      ensures r.Err? ==> Contents() == old(Contents())
      ensures r == if |reason| < 3 then Err(ReasonRequired)
                   else if b !in old(batches) then Err(BatchNotFound)
                   else if old(batches)[b].status != Success then Err(NotRollbackable)
                   else if !LatestSuccess(old(Contents()), b) then Err(NotLatest)
                   else Ok(())
    {
      if |reason| < 3 { return Err(ReasonRequired); }
      if b !in batches { return Err(BatchNotFound); }
      if batches[b].status != Success { return Err(NotRollbackable); }
      var latest := LatestSuccessId();
      if latest != Some(b) { return Err(NotLatest); }
      RemoveWithin(b, [], RolledBack, {});
      return Ok(());
    }

    /** `removeBatch`: any successful batch, with a reason. */
    method RemoveBatch(b: nat, reason: string) returns (r: Result<(), MarcomError>)
      requires Valid()
      modifies this
      ensures Valid() && staged == old(staged)
      ensures r.Ok? ==> RemoveAnyRel(old(Contents()), Contents(), b)
      ensures r.Err? ==> Contents() == old(Contents())
      ensures r == if |reason| < 3 then Err(ReasonRequired)
                   else if b !in old(batches) then Err(BatchNotFound)
                   else if old(batches)[b].status != Success then Err(NotRemovable)
                   else Ok(())
    {
      if |reason| < 3 { return Err(ReasonRequired); }
      if b !in batches { return Err(BatchNotFound); }
      if batches[b].status != Success { return Err(NotRemovable); }
      var list := ReadLaterFiles(b);
      RemoveWithin(b, list, Removed, LaterRestating(Contents(), b));
      return Ok(());
    }
  }
}
