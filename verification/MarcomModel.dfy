/** The MARCOM upload store as values: rows, batches and brands, and what one commit, rollback or
  * removal does to them (`marcom/service.ts`, `marcom/removal.ts`, `marcom/diff.ts`).
  *
  * The eight MARCOM tables are kept in one collection: a key names its table. */
module MarcomModel {
  import opened Prelude

  /** A natural key (`keyOf`) within its table. */
  datatype Key = Key(table: string, natural: string)

  /** One row as a file holds it and as the diff reads it back: normalised, the brand as it is spelled. */
  datatype Cells = Cells(brand: Option<string>, fields: seq<string>)

  /** One row as it is stored: the brand by its case-folded name, which identifies it in the brand table. */
  datatype Stored = Stored(brand: Option<string>, fields: seq<string>)

  datatype Row = Row(key: Key, data: Stored, batch: nat, current: bool, supersededBy: Option<nat>)

  type File = map<Key, Cells>

  datatype Status = Success | Failed | RolledBack | Removed

  /** `restated` is the batch summary's count of rows the commit found unchanged. */
  datatype Batch = Batch(status: Status, file: File, restated: nat, staged: nat)

  datatype Brand = Brand(name: string, createdBy: Option<nat>)

  datatype Db = Db(rows: map<nat, Row>, batches: map<nat, Batch>, brands: map<string, Brand>)

  // ---- storing and reading back -----------------------------------------------------------------

  function Lower(c: char): char {
    if 'A' <= c <= 'Z' then (c as int + 32) as char else c
  }

  function Fold(s: string): string {
    seq(|s|, i requires 0 <= i < |s| => Lower(s[i]))
  }

  function Store(c: Cells): Stored {
    Stored(if c.brand.Some? then Some(Fold(c.brand.value)) else None, c.fields)
  }

  /** The foreign key keeps every stored brand in the brand table (see BrandsOk). */
  function Spelled(brands: map<string, Brand>, folded: string): string {
    if folded in brands then brands[folded].name else folded
  }

  function ReadBack(brands: map<string, Brand>, d: Stored): Cells {
    Cells(if d.brand.Some? then Some(Spelled(brands, d.brand.value)) else None, d.fields)
  }

  // ---- commit -------------------------------------------------------------------------------------

  predicate LiveAt(rows: map<nat, Row>, k: Key, id: nat) {
    id in rows && rows[id].key == k && rows[id].current
  }

  ghost predicate Unchanged(db: Db, k: Key, cells: Cells) {
    exists id :: LiveAt(db.rows, k, id) && ReadBack(db.brands, db.rows[id].data) == cells
  }

  ghost predicate NeedsRow(db: Db, file: File, k: Key) {
    k in file && !Unchanged(db, k, file[k])
  }

  /** A live row of a key the file holds with other values is superseded by batch `b`. */
  function AfterCommit(brands: map<string, Brand>, b: nat, file: File, r: Row): Row {
    if r.current && r.key in file && ReadBack(brands, r.data) != file[r.key]
    then r.(current := false, supersededBy := Some(b))
    else r
  }

  function NewRow(b: nat, k: Key, cells: Cells): Row {
    Row(k, Store(cells), b, true, None)
  }

  ghost predicate CommitRows(db: Db, rows: map<nat, Row>, b: nat, file: File) {
    && (forall id :: id in db.rows ==> id in rows && rows[id] == AfterCommit(db.brands, b, file, db.rows[id]))
    && (forall id :: id in rows && id !in db.rows ==>
          && NeedsRow(db, file, rows[id].key) && rows[id] == NewRow(b, rows[id].key, file[rows[id].key]))
    && (forall k :: NeedsRow(db, file, k) ==> HasNew(db.rows, rows, k))
    && (forall i, j ::
         i in rows && j in rows && i !in db.rows && j !in db.rows && rows[i].key == rows[j].key ==> i == j)
  }

  ghost predicate HasNew(before: map<nat, Row>, rows: map<nat, Row>, k: Key) {
    exists id :: id in rows && id !in before && rows[id].key == k
  }

  /** Folded name `f` is used by a row of the file. */
  ghost predicate FileUses(file: File, f: string) {
    exists k :: k in file && Store(file[k]).brand == Some(f)
  }

  ghost predicate FileSpells(file: File, name: string) {
    exists k :: k in file && file[k].brand == Some(name)
  }

  ghost predicate CommitBrands(before: map<string, Brand>, brands: map<string, Brand>, b: nat, file: File) {
    && (forall f :: f in before ==> f in brands && brands[f] == before[f])
    && (forall f :: f in brands && f !in before ==>
          FileSpells(file, brands[f].name) && Fold(brands[f].name) == f && brands[f].createdBy == Some(b))
    && (forall f :: FileUses(file, f) ==> f in brands)
  }

  ghost function UnchangedCount(db: Db, file: File): nat {
    |set k | k in file && Unchanged(db, k, file[k])|
  }

  /** A batch id newer than every batch that was committed. FAILED rows take ids outside the write lock. */
  ghost predicate FreshBatch(db: Db, b: nat) {
    b !in db.batches && forall a :: a in db.batches && db.batches[a].status != Failed ==> a < b
  }

  /** Every committed batch consumed its upload, and no two batches consumed the same one. */
  ghost predicate OneBatchPerUpload(batches: map<nat, Batch>, consumed: set<nat>) {
    && (forall b :: b in batches && batches[b].status != Failed ==> batches[b].staged in consumed)
    && (forall a, b :: && a in batches && b in batches && batches[a].staged == batches[b].staged
                       && batches[a].status != Failed && batches[b].status != Failed
                       ==> a == b)
  }

  ghost predicate CommitRel(db: Db, next: Db, b: nat, staged: nat, file: File) {
    && FreshBatch(db, b)
    && CommitRows(db, next.rows, b, file)
    && CommitBrands(db.brands, next.brands, b, file)
    && next.batches == db.batches[b := Batch(Success, file, UnchangedCount(db, file), staged)]
  }

  /** An unexpected failure leaves nothing but a FAILED batch without a file. */
  function FailedCommit(db: Db, b: nat, staged: nat): Db {
    db.(batches := db.batches[b := Batch(Failed, map[], 0, staged)])
  }

  // ---- removing one batch ---------------------------------------------------------------------------

  predicate Holds(db: Db, b: nat, k: Key) {
    b in db.batches && db.batches[b].status == Success && k in db.batches[b].file
  }

  /** Later successful batches that re-stated rows unchanged: the batches whose files the removal reads. */
  function LaterRestating(db: Db, b: nat): set<nat> {
    set a | a in db.batches && a > b && db.batches[a].status == Success && db.batches[a].restated > 0
  }

  predicate HoldsKey(db: Db, a: nat, k: Key) {
    a in db.batches && k in db.batches[a].file
  }

  ghost predicate EarliestHolder(db: Db, later: set<nat>, k: Key, a: nat) {
    a in later && HoldsKey(db, a, k) && forall c :: c in later && HoldsKey(db, c, k) ==> a <= c
  }

  /** The batch a current row of key `k` is handed over to: the earliest later one whose file holds the key. */
  ghost function HandTo(db: Db, later: set<nat>, k: Key): Option<nat> {
    if exists a :: EarliestHolder(db, later, k, a) then
      var a :| EarliestHolder(db, later, k, a); Some(a)
    else None
  }

  predicate RowOf(rows: map<nat, Row>, b: nat, k: Key, id: nat) {
    id in rows && rows[id].batch == b && rows[id].key == k
  }

  ghost predicate HasRow(rows: map<nat, Row>, b: nat, k: Key) {
    exists id :: RowOf(rows, b, k, id)
  }

  /** What an earlier row that batch `b` superseded must point to once `b` is gone; None re-arms it. */
  ghost function RelinkTarget(db: Db, b: nat, later: set<nat>, k: Key): Option<nat> {
    if exists own :: RowOf(db.rows, b, k, own) then
      var own :| RowOf(db.rows, b, k, own);
      if db.rows[own].current then HandTo(db, later, k) else db.rows[own].supersededBy
    else if exists live :: LiveAt(db.rows, k, live) && db.rows[live].batch != b then
      var live :| LiveAt(db.rows, k, live) && db.rows[live].batch != b;
      Some(db.rows[live].batch)
    else None
  }

  ghost function AfterRemoval(db: Db, b: nat, later: set<nat>, r: Row): Option<Row> {
    if r.batch == b then
      if r.current && HandTo(db, later, r.key).Some? then Some(r.(batch := HandTo(db, later, r.key).value)) else None
    else if r.supersededBy == Some(b) then
      match RelinkTarget(db, b, later, r.key)
      case None => Some(r.(current := true, supersededBy := None))
      case Some(t) => Some(r.(supersededBy := Some(t)))
    else Some(r)
  }

  ghost function RemovedRows(db: Db, b: nat, later: set<nat>): map<nat, Row> {
    map id | id in db.rows && AfterRemoval(db, b, later, db.rows[id]).Some? ::
      AfterRemoval(db, b, later, db.rows[id]).value
  }

  predicate UsesBrand(rows: map<nat, Row>, f: string, a: nat, id: nat) {
    id in rows && rows[id].data.brand == Some(f) && rows[id].batch == a
  }

  ghost predicate BatchUses(rows: map<nat, Row>, f: string, a: nat) {
    exists id :: UsesBrand(rows, f, a, id)
  }

  /** The earliest batch with a row of brand `f`. */
  ghost predicate FirstUser(rows: map<nat, Row>, f: string, a: nat) {
    BatchUses(rows, f, a) && forall c :: BatchUses(rows, f, c) ==> a <= c
  }

  /** A brand the removed batch created goes when no row uses it, else its first user becomes its creator. */
  ghost predicate RemovedBrands(before: map<string, Brand>, brands: map<string, Brand>, b: nat, rows: map<nat, Row>) {
    && (forall f :: f in brands ==> f in before)
    && (forall f :: f in before && before[f].createdBy != Some(b) ==> f in brands && brands[f] == before[f])
    && (forall f :: f in before && before[f].createdBy == Some(b) ==>
          && (f in brands <==> exists a :: BatchUses(rows, f, a))
          && (f in brands ==> brands[f].createdBy.Some? && FirstUser(rows, f, brands[f].createdBy.value)
                              && brands[f].name == before[f].name))
  }

  ghost predicate RemoveRel(db: Db, next: Db, b: nat, later: set<nat>, status: Status) {
    && b in db.batches && db.batches[b].status == Success
    && next.rows == RemovedRows(db, b, later)
    && RemovedBrands(db.brands, next.brands, b, next.rows)
    && next.batches == db.batches[b := db.batches[b].(status := status)]
  }

  ghost predicate LatestSuccess(db: Db, b: nat) {
    && b in db.batches && db.batches[b].status == Success
    && forall a :: a in db.batches && db.batches[a].status == Success ==> a <= b
  }

  ghost predicate RollbackRel(db: Db, next: Db, b: nat) {
    LatestSuccess(db, b) && RemoveRel(db, next, b, {}, RolledBack)
  }

  ghost predicate RemoveAnyRel(db: Db, next: Db, b: nat) {
    RemoveRel(db, next, b, LaterRestating(db, b), Removed)
  }
}
