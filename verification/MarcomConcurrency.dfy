/** Interleaved commits, rollbacks and removals: checks outside the lock, the write lock, checks inside it,
  * single writes in a private transaction, publication, release (`marcom/service.ts`). */
module MarcomConcurrency {
  import opened Prelude
  import opened MarcomModel
  import opened MarcomChain
  import opened MarcomRuns
  import opened MarcomStore

  /** Where one request stands. */
  datatype Pc =
    | Idle
    // commit: pre-checked, waiting for the lock
    | WantCommit(id: nat)
    // commit: lock held, upload not yet checked again
    | InCommit(id: nat)
    // commit: `todo` is what the diff against rows0/brands0 still has to write; `work` is the transaction's copy
    | Writing(id: nat, b: nat, rows0: map<nat, Row>, brands0: map<string, Brand>, work: map<nat, Row>, todo: set<Key>)
    // a commit that failed unexpectedly: the lock is released, its FAILED row still to be recorded
    | Crashed(id: nat)
    | WantRemove(b: nat, latestOnly: bool)
    | InRemove(b: nat, latestOnly: bool)
    // removal: planned from the store as it was then
    | Planned(b: nat, latestOnly: bool, seen: Db)
    // finished or refused, lock still held
    | Leaving

  datatype World = World(
    db: Db, files: map<nat, File>, consumed: set<nat>, lock: Option<nat>, pcs: map<nat, Pc>, nextBatch: nat)

  predicate Holder(pc: Pc) {
    pc.InCommit? || pc.Writing? || pc.InRemove? || pc.Planned? || pc.Leaving?
  }

  function Goto(w: World, p: nat, pc: Pc): World {
    w.(pcs := w.pcs[p := pc])
  }

  ghost function Needed(db: Db, file: File): set<Key> {
    set k | k in file && NeedsRow(db, file, k)
  }

  /** What the diff of a commit sees: the live rows and the brand table. */
  function Seen(rows: map<nat, Row>, brands: map<string, Brand>): Db {
    Db(rows, map[], brands)
  }

  ghost function CommittedBatch(pc: Pc, file: File): Batch
    requires pc.Writing?
  {
    Batch(Success, file, UnchangedCount(Seen(pc.rows0, pc.brands0), file), pc.id)
  }

  function RemovedStatus(latestOnly: bool): Status { if latestOnly then RolledBack else Removed }

  datatype Action =
    | CheckUpload(id: nat) | AskRemove(b: nat, latestOnly: bool)
    | Acquire | Busy
    | DiffNow | Refuse
    | WriteUpdated(k: Key, existing: nat, newId: nat) | WriteNew(k: Key, newId: nat)
    | PublishCommit | Crash | RecordFailure | GiveUp
    | PlanNow | PublishRemoval
    | Release

  ghost predicate StartRel(w: World, p: nat, a: Action, v: World)
    requires p in w.pcs
  {
    match a
    case CheckUpload(id) => w.pcs[p].Idle? && id in w.files && id !in w.consumed && v == Goto(w, p, WantCommit(id))
    case AskRemove(b, latestOnly) => w.pcs[p].Idle? && v == Goto(w, p, WantRemove(b, latestOnly))
    case Acquire =>
      && w.lock == None
      && (match w.pcs[p]
          case WantCommit(id) => v == Goto(w, p, InCommit(id)).(lock := Some(p))
          case WantRemove(b, latestOnly) => v == Goto(w, p, InRemove(b, latestOnly)).(lock := Some(p))
          case _ => false)
    case Busy => (w.pcs[p].WantCommit? || w.pcs[p].WantRemove?) && v == Goto(w, p, Idle)
    case Release => w.pcs[p].Leaving? && v == Goto(w, p, Idle).(lock := None)
    case _ => false
  }

  ghost predicate CommitStep(w: World, p: nat, a: Action, v: World)
    requires p in w.pcs
  {
    match a
    case Refuse =>
      w.pcs[p].InCommit? && v == Goto(w, p, Leaving)
    case DiffNow =>
      && w.pcs[p].InCommit? && w.pcs[p].id in w.files && w.pcs[p].id !in w.consumed
      && var id := w.pcs[p].id;
         v == Goto(w, p, Writing(id, w.nextBatch, w.db.rows, w.db.brands, w.db.rows, Needed(w.db, w.files[id])))
              .(nextBatch := w.nextBatch + 1)
    case WriteUpdated(k, existing, newId) =>
      && w.pcs[p].Writing? && k in w.pcs[p].todo && LiveAt(w.pcs[p].rows0, k, existing) && w.pcs[p].id in w.files
      && var pc := w.pcs[p];
         && newId !in pc.work && k in w.files[pc.id]
         && existing in pc.work && pc.work[existing].current
         && var after := pc.work[existing := pc.work[existing].(current := false, supersededBy := Some(pc.b))];
            v == Goto(w, p, pc.(work := after[newId := NewRow(pc.b, k, w.files[pc.id][k])], todo := pc.todo - {k}))
    case WriteNew(k, newId) =>
      && w.pcs[p].Writing? && k in w.pcs[p].todo && (forall e :: !LiveAt(w.pcs[p].rows0, k, e)) &&
        w.pcs[p].id in w.files
      && var pc := w.pcs[p];
         && newId !in pc.work && k in w.files[pc.id]
         && v == Goto(w, p, pc.(work := pc.work[newId := NewRow(pc.b, k, w.files[pc.id][k])], todo := pc.todo - {k}))
    case PublishCommit =>
      && w.pcs[p].Writing? && w.pcs[p].todo == {} && w.pcs[p].id in w.files
      && var pc := w.pcs[p];
         && v.db.rows == pc.work
         && CommitBrands(pc.brands0, v.db.brands, pc.b, w.files[pc.id])
         && v.db.batches == w.db.batches[pc.b := CommittedBatch(pc, w.files[pc.id])]
         && v == Goto(w, p, Leaving).(db := v.db, consumed := w.consumed + {pc.id})
    case Crash =>
      // an unexpected failure at any point: before the lock was granted, before the diff, while writing
      (match w.pcs[p]
       case WantCommit(id) => v == Goto(w, p, Crashed(id))
       case InCommit(id) => v == Goto(w, p, Crashed(id)).(lock := None)
       case Writing(id, _, _, _, _, _) => v == Goto(w, p, Crashed(id)).(lock := None)
       case _ => false)
    case RecordFailure =>
      && w.pcs[p].Crashed?
      && v == Goto(w, p, Idle).(db := FailedCommit(w.db, w.nextBatch, w.pcs[p].id), nextBatch := w.nextBatch + 1)
    case GiveUp =>
      // the FAILED row could not be recorded either
      w.pcs[p].Crashed? && v == Goto(w, p, Idle)
    case _ => false
  }

  ghost predicate RemoveStep(w: World, p: nat, a: Action, v: World)
    requires p in w.pcs
  {
    match a
    case Refuse =>
      // a refused check, or any failure before the removal is committed: its transaction is rolled back
      (w.pcs[p].InRemove? || w.pcs[p].Planned?) && v == Goto(w, p, Leaving)
    case PlanNow =>
      && w.pcs[p].InRemove?
      && var pc := w.pcs[p];
         && pc.b in w.db.batches && w.db.batches[pc.b].status == Success
         && (pc.latestOnly ==> LatestSuccess(w.db, pc.b))
         && v == Goto(w, p, Planned(pc.b, pc.latestOnly, w.db))
    case PublishRemoval =>
      && w.pcs[p].Planned? && w.pcs[p].b in w.db.batches
      && var pc := w.pcs[p];
         var later := if pc.latestOnly then {} else LaterRestating(pc.seen, pc.b);
         && v.db.rows == RemovedRows(pc.seen, pc.b, later)
         && RemovedBrands(pc.seen.brands, v.db.brands, pc.b, v.db.rows)
         && v.db.batches == w.db.batches[pc.b := w.db.batches[pc.b].(status := RemovedStatus(pc.latestOnly))]
         && v == Goto(w, p, Leaving).(db := v.db)
    case _ => false
  }

  ghost predicate WorldStep(w: World, p: nat, a: Action, v: World) {
    p in w.pcs && (StartRel(w, p, a, v) || CommitStep(w, p, a, v) || RemoveStep(w, p, a, v))
  }

  // ---- the invariant ---------------------------------------------------------------------------------------

  /** Two stores that differ in nothing but FAILED batch rows. */
  ghost predicate SameButFailed(db: Db, seen: Db) {
    && db.rows == seen.rows && db.brands == seen.brands
    && (forall a :: a in seen.batches && seen.batches[a].status != Failed ==>
        a in db.batches && db.batches[a] == seen.batches[a])
    && (forall a :: a in db.batches && db.batches[a].status != Failed ==>
        a in seen.batches && seen.batches[a] == db.batches[a])
  }

  /** A commit in progress works on the very rows and brands its diff was computed from. */
  ghost predicate WritingOk(w: World, pc: Pc)
    requires pc.Writing?
  {
    && pc.id in w.files && pc.id !in w.consumed
    && FreshBatch(w.db, pc.b) && pc.b < w.nextBatch
    && w.db.rows == pc.rows0 && w.db.brands == pc.brands0
    && var seen, file := Seen(pc.rows0, pc.brands0), w.files[pc.id];
       && pc.todo <= Needed(seen, file)
       && PartialCommit(seen, pc.work, pc.b, file, Needed(seen, file) - pc.todo)
  }

  ghost predicate PlannedOk(w: World, pc: Pc)
    requires pc.Planned?
  {
    && SameButFailed(w.db, pc.seen)
    && pc.b in pc.seen.batches && pc.seen.batches[pc.b].status == Success
    && (pc.latestOnly ==> LatestSuccess(pc.seen, pc.b))
  }

  ghost predicate PcOk(w: World, p: nat)
    requires p in w.pcs
  {
    && (Holder(w.pcs[p]) <==> w.lock == Some(p))
    && (w.pcs[p].Writing? ==> WritingOk(w, w.pcs[p]))
    && (w.pcs[p].Planned? ==> PlannedOk(w, w.pcs[p]))
  }

  ghost predicate WorldInv(w: World) {
    && Inv(w.db)
    && (forall a :: a in w.db.batches ==> a < w.nextBatch)
    && OneBatchPerUpload(w.db.batches, w.consumed)
    && (forall p {:trigger PcOk(w, p)} :: p in w.pcs ==> PcOk(w, p))
  }

  // ---- what a commit or a removal publishes is one step of the store ----------------------------------------

  lemma SameDiff(db: Db, rows: map<nat, Row>, brands: map<string, Brand>, file: File)
    requires db.rows == rows && db.brands == brands
    ensures forall k, cells :: Unchanged(Seen(rows, brands), k, cells) <==> Unchanged(db, k, cells)
    ensures forall k :: NeedsRow(Seen(rows, brands), file, k) <==> NeedsRow(db, file, k)
    ensures UnchangedCount(Seen(rows, brands), file) == UnchangedCount(db, file)
  {
    forall k, cells ensures Unchanged(Seen(rows, brands), k, cells) <==> Unchanged(db, k, cells) { }
    assert (set k | k in file && Unchanged(Seen(rows, brands), k, file[k])) ==
      (set k | k in file && Unchanged(db, k, file[k]));
  }

  lemma PublishedCommit(w: World, p: nat, v: World)
    requires WorldInv(w) && p in w.pcs && PcOk(w, p) && CommitStep(w, p, PublishCommit, v)
    ensures CommitRel(w.db, v.db, w.pcs[p].b, w.pcs[p].id, w.files[w.pcs[p].id])
  {
    var pc := w.pcs[p];
    var seen, file := Seen(pc.rows0, pc.brands0), w.files[pc.id];
    LiveIsUnique(w.db.rows);
    assert Needed(seen, file) - pc.todo == Needed(seen, file);
    AllWritten(seen, pc.work, pc.b, file, Needed(seen, file));
    SameDiff(w.db, pc.rows0, pc.brands0, file);
  }

  lemma HandToSame(db: Db, seen: Db, later: set<nat>, k: Key)
    requires forall a :: a in later ==> a in db.batches && a in seen.batches && db.batches[a] == seen.batches[a]
    ensures HandTo(db, later, k) == HandTo(seen, later, k)
  {
    HandToSpec(db, later, k);
    HandToSpec(seen, later, k);
    forall a | a in later ensures HoldsKey(db, a, k) <==> HoldsKey(seen, a, k) { }
  }

  lemma RemovalSame(db: Db, seen: Db, b: nat, later: set<nat>)
    requires OneRowPerBatch(db.rows) && LinksOk(db.rows) && db.rows == seen.rows
    requires forall a :: a in later ==> a in db.batches && a in seen.batches && db.batches[a] == seen.batches[a]
    ensures RemovedRows(db, b, later) == RemovedRows(seen, b, later)
  {
    forall id | id in db.rows
      ensures AfterRemoval(db, b, later, db.rows[id]) == AfterRemoval(seen, b, later, seen.rows[id])
    {
      var r := db.rows[id];
      HandToSame(db, seen, later, r.key);
      if r.batch != b && r.supersededBy == Some(b) {
        assert LinkOk(db.rows, id);
        var own :| RowOf(db.rows, b, r.key, own);
        TargetByOwnRow(db, b, later, r.key, own);
        TargetByOwnRow(seen, b, later, r.key, own);
      }
    }
  }

  lemma PublishedRemoval(w: World, p: nat, v: World)
    requires WorldInv(w) && p in w.pcs && PcOk(w, p) && RemoveStep(w, p, PublishRemoval, v)
    ensures if w.pcs[p].latestOnly then RollbackRel(w.db, v.db, w.pcs[p].b) else RemoveAnyRel(w.db, v.db, w.pcs[p].b)
  {
    var pc := w.pcs[p];
    var later := if pc.latestOnly then {} else LaterRestating(pc.seen, pc.b);
    assert LaterRestating(w.db, pc.b) == LaterRestating(pc.seen, pc.b);
    RemovalSame(w.db, pc.seen, pc.b, later);
  }

  // ---- every step keeps the invariant -------------------------------------------------------------------------

  /** A step that leaves the store alone and does not move the lock to or from `q`. */
  lemma OtherUnaffected(w: World, v: World, q: nat)
    requires q in w.pcs && q in v.pcs && v.pcs[q] == w.pcs[q] && PcOk(w, q)
    requires v.db == w.db && v.files == w.files && v.consumed == w.consumed && v.nextBatch >= w.nextBatch
    requires v.lock == Some(q) <==> w.lock == Some(q)
    ensures PcOk(v, q)
  {
  }

  lemma OtherNotHolding(v: World, q: nat)
    requires q in v.pcs && !Holder(v.pcs[q]) && v.lock != Some(q)
    ensures PcOk(v, q)
  {
  }

  lemma FailureUnseen(w: World, v: World, id: nat, q: nat)
    requires forall a :: a in w.db.batches ==> a < w.nextBatch
    requires q in w.pcs && q in v.pcs && v.pcs[q] == w.pcs[q] && PcOk(w, q)
    requires v.db == FailedCommit(w.db, w.nextBatch, id) && v.nextBatch == w.nextBatch + 1
    requires v.files == w.files && v.consumed == w.consumed && v.lock == w.lock
    ensures PcOk(v, q)
  {
  }

  lemma StartKeepsInv(w: World, p: nat, a: Action, v: World)
    requires WorldInv(w) && p in w.pcs && StartRel(w, p, a, v)
    ensures WorldInv(v)
  {
    forall q | q in v.pcs ensures PcOk(v, q) {
      assert PcOk(w, q) && PcOk(w, p);
      if q != p { OtherUnaffected(w, v, q); }
    }
  }

  lemma WriterKeepsInv(w: World, p: nat, v: World)
    requires WorldInv(w) && p in w.pcs && Holder(w.pcs[p]) && p in v.pcs
    requires v == Goto(w, p, v.pcs[p]).(nextBatch := v.nextBatch) && v.nextBatch >= w.nextBatch
    requires PcOk(v, p)
    ensures WorldInv(v)
  {
    forall q | q in v.pcs ensures PcOk(v, q) {
      assert PcOk(w, q) && PcOk(w, p);
      if q != p { OtherUnaffected(w, v, q); }
    }
  }

  lemma DiffIsOk(w: World, p: nat, v: World)
    requires WorldInv(w) && p in w.pcs && PcOk(w, p) && CommitStep(w, p, DiffNow, v)
    ensures PcOk(v, p)
  {
    var pc := v.pcs[p];
    var seen, file := Seen(pc.rows0, pc.brands0), w.files[pc.id];
    SameDiff(w.db, pc.rows0, pc.brands0, file);
    assert Needed(seen, file) == pc.todo;
    assert Needed(seen, file) - pc.todo == {};
  }

  lemma WriteIsOk(w: World, p: nat, a: Action, v: World)
    requires Inv(w.db) && p in w.pcs && PcOk(w, p) && (a.WriteUpdated? || a.WriteNew?) && CommitStep(w, p, a, v)
    ensures PcOk(v, p)
  {
    var pc := w.pcs[p];
    var seen, file := Seen(pc.rows0, pc.brands0), w.files[pc.id];
    var done := Needed(seen, file) - pc.todo;
    assert Needed(seen, file) - (pc.todo - {a.k}) == done + {a.k};
    if a.WriteUpdated? {
      LiveIsUnique(w.db.rows);
      assert NeedsRow(seen, file, a.k);
      UnchangedIsLive(seen, a.k, file[a.k], a.existing);
      UpdateStep(seen, pc.work, pc.b, file, done, a.k, a.existing, a.newId);
    } else {
      InsertStep(seen, pc.work, pc.b, file, done, a.k, a.newId);
    }
  }

  lemma PublishedCommitInv(w: World, p: nat, v: World)
    requires WorldInv(w) && p in w.pcs && CommitStep(w, p, PublishCommit, v)
    ensures Inv(v.db) && (forall a :: a in v.db.batches ==> a < v.nextBatch)
    ensures OneBatchPerUpload(v.db.batches, v.consumed)
  {
    assert PcOk(w, p);
    PublishedCommit(w, p, v);
    CommitKeepsInv(w.db, v.db, w.pcs[p].b, w.pcs[p].id, w.files[w.pcs[p].id]);
  }

  lemma CommitPublishKeepsInv(w: World, p: nat, v: World)
    requires WorldInv(w) && p in w.pcs && CommitStep(w, p, PublishCommit, v)
    ensures WorldInv(v)
  {
    PublishedCommitInv(w, p, v);
    assert PcOk(w, p);
    forall q | q in v.pcs ensures PcOk(v, q) {
      assert PcOk(w, q);
      if q != p { OtherNotHolding(v, q); }
    }
  }

  lemma RemovalPublishKeepsInv(w: World, p: nat, v: World)
    requires WorldInv(w) && p in w.pcs && RemoveStep(w, p, PublishRemoval, v)
    ensures WorldInv(v)
  {
    assert PcOk(w, p);
    PublishedRemoval(w, p, v);
    var b := w.pcs[p].b;
    StepKeepsInv(w.db, if w.pcs[p].latestOnly then Rollback(b) else Remove(b), v.db);
    forall q | q in v.pcs ensures PcOk(v, q) {
      assert PcOk(w, q);
      if q != p { OtherNotHolding(v, q); }
    }
  }

  lemma FailureKeepsInv(w: World, p: nat, v: World)
    requires WorldInv(w) && p in w.pcs && CommitStep(w, p, RecordFailure, v)
    ensures WorldInv(v)
  {
    FailKeepsInv(w.db, w.nextBatch, w.pcs[p].id);
    forall q | q in v.pcs ensures PcOk(v, q) {
      assert PcOk(w, q);
      if q != p { FailureUnseen(w, v, w.pcs[p].id, q); }
    }
  }

  lemma CrashKeepsInv(w: World, p: nat, a: Action, v: World)
    requires WorldInv(w) && p in w.pcs && (a == Crash || a == GiveUp) && CommitStep(w, p, a, v)
    ensures WorldInv(v)
  {
    forall q | q in v.pcs ensures PcOk(v, q) {
      assert PcOk(w, q) && PcOk(w, p);
      if q != p { OtherUnaffected(w, v, q); }
    }
  }

  lemma WorldStepKeepsInv(w: World, p: nat, a: Action, v: World)
    requires WorldInv(w) && WorldStep(w, p, a, v)
    ensures WorldInv(v)
  {
    assert PcOk(w, p);
    if StartRel(w, p, a, v) {
      StartKeepsInv(w, p, a, v);
    } else {
      match a
      case Refuse => WriterKeepsInv(w, p, v);
      case DiffNow => DiffIsOk(w, p, v); WriterKeepsInv(w, p, v);
      case WriteUpdated(_, _, _) => WriteIsOk(w, p, a, v); WriterKeepsInv(w, p, v);
      case WriteNew(_, _) => WriteIsOk(w, p, a, v); WriterKeepsInv(w, p, v);
      case PublishCommit => CommitPublishKeepsInv(w, p, v);
      case Crash => CrashKeepsInv(w, p, a, v);
      case GiveUp => CrashKeepsInv(w, p, a, v);
      case RecordFailure => FailureKeepsInv(w, p, v);
      case PlanNow => WriterKeepsInv(w, p, v);
      case PublishRemoval => RemovalPublishKeepsInv(w, p, v);
      case _ =>
    }
  }

  // ---- the main results ---------------------------------------------------------------------------------------

  ghost predicate WorldInitial(w: World) {
    && Initial(w.db) && w.consumed == {} && w.lock == None
    && forall p :: p in w.pcs ==> w.pcs[p] == Idle
  }

  ghost predicate Interleaving(ws: seq<World>) {
    && |ws| > 0 && WorldInitial(ws[0])
    && forall i :: 0 <= i < |ws| - 1 ==> SomeStep(ws[i], ws[i + 1])
  }

  ghost predicate SomeStep(w: World, v: World) {
    exists p, a :: WorldStep(w, p, a, v)
  }

  lemma {:induction false} InterleavingKeepsInv(ws: seq<World>, n: nat)
    requires Interleaving(ws) && n < |ws|
    ensures WorldInv(ws[n])
  {
    if n == 0 {
      forall q | q in ws[0].pcs ensures PcOk(ws[0], q) { }
    } else {
      InterleavingKeepsInv(ws, n - 1);
      assert SomeStep(ws[n - 1], ws[n - 1 + 1]);
      var p, a :| WorldStep(ws[n - 1], p, a, ws[n]);
      WorldStepKeepsInv(ws[n - 1], p, a, ws[n]);
    }
  }

  /** The UPDATE of a commit's write loop would not find its live row: the source throws "stale row". */
  ghost predicate StaleRow(pc: Pc, k: Key, existing: nat) {
    && pc.Writing? && k in pc.todo && LiveAt(pc.rows0, k, existing)
    && !(existing in pc.work && pc.work[existing].current)
  }

  /** In every interleaving: a writer's diff was computed from the rows it is applied to, it never meets a stale
    * row, and every upload was committed at most once. */
  lemma WriterIsUndisturbed(ws: seq<World>, n: nat, p: nat)
    requires Interleaving(ws) && n < |ws| && p in ws[n].pcs
    ensures ws[n].pcs[p].Writing? ==> ws[n].pcs[p].rows0 == ws[n].db.rows && ws[n].pcs[p].brands0 == ws[n].db.brands
    ensures forall k, existing :: !StaleRow(ws[n].pcs[p], k, existing)
    ensures OneBatchPerUpload(ws[n].db.batches, ws[n].consumed)
  {
    InterleavingKeepsInv(ws, n);
    assert PcOk(ws[n], p);
    var pc := ws[n].pcs[p];
    if pc.Writing? { NeverStale(ws[n], pc); }
  }

  lemma NeverStale(w: World, pc: Pc)
    requires pc.Writing? && WritingOk(w, pc)
    ensures forall k, existing :: !StaleRow(pc, k, existing)
  {
    forall e, k | k in pc.todo && LiveAt(pc.rows0, k, e) ensures e in pc.work && pc.work[e] == pc.rows0[e] { }
  }

  lemma CommitIsSerial(w: World, p: nat, v: World)
    requires WorldInv(w) && p in w.pcs && CommitStep(w, p, PublishCommit, v)
    ensures StepRel(w.db, Commit(w.pcs[p].b, w.pcs[p].id, w.files[w.pcs[p].id]), v.db)
  {
    assert PcOk(w, p);
    PublishedCommit(w, p, v);
  }

  lemma RemovalIsSerial(w: World, p: nat, v: World)
    requires WorldInv(w) && p in w.pcs && RemoveStep(w, p, PublishRemoval, v)
    ensures StepRel(w.db, if w.pcs[p].latestOnly then Rollback(w.pcs[p].b) else Remove(w.pcs[p].b), v.db)
  {
    assert PcOk(w, p);
    PublishedRemoval(w, p, v);
  }

  lemma FailureIsSerial(w: World, p: nat, v: World)
    requires WorldInv(w) && p in w.pcs && CommitStep(w, p, RecordFailure, v)
    ensures StepRel(w.db, Fail(w.nextBatch, w.pcs[p].id), v.db)
  {
  }

  /** Every step but these three leaves the store alone. */
  lemma OtherStepsLeaveStore(w: World, p: nat, a: Action, v: World)
    requires WorldStep(w, p, a, v) && !a.PublishCommit? && !a.PublishRemoval? && !a.RecordFailure?
    ensures v.db == w.db
  {
  }

  /** The store moves only by whole commits, failures, rollbacks and removals. */
  lemma StepIsSerial(w: World, p: nat, a: Action, v: World)
    requires WorldInv(w) && WorldStep(w, p, a, v)
    ensures v.db == w.db || exists step :: StepRel(w.db, step, v.db)
  {
    match a
    case PublishCommit => CommitIsSerial(w, p, v);
    case PublishRemoval => RemovalIsSerial(w, p, v);
    case RecordFailure => FailureIsSerial(w, p, v);
    case _ => OtherStepsLeaveStore(w, p, a, v);
  }

  /** Every interleaving is a serial run: its stores are those of some sequence of whole steps. */
  lemma {:induction false} InterleavingIsSerial(ws: seq<World>, n: nat) returns (dbs: seq<Db>, steps: seq<Step>)
    requires Interleaving(ws) && n < |ws|
    ensures Run(dbs, steps) && dbs[|steps|] == ws[n].db
  {
    if n == 0 {
      dbs, steps := [ws[0].db], [];
    } else {
      dbs, steps := InterleavingIsSerial(ws, n - 1);
      InterleavingKeepsInv(ws, n - 1);
      assert SomeStep(ws[n - 1], ws[n - 1 + 1]);
      var p, a :| WorldStep(ws[n - 1], p, a, ws[n]);
      StepIsSerial(ws[n - 1], p, a, ws[n]);
      if ws[n].db != ws[n - 1].db {
        var step :| StepRel(ws[n - 1].db, step, ws[n].db);
        ExtendRun(dbs, steps, step, ws[n].db);
        dbs, steps := dbs + [ws[n].db], steps + [step];
      }
    }
  }
}
