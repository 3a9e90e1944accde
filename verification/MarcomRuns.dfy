/** Whole runs of commits, failures, rollbacks and removals. */
module MarcomRuns {
  import opened Prelude
  import opened MarcomModel
  import opened MarcomChain
  import opened MarcomHistory

  datatype Step =
    | Commit(batch: nat, staged: nat, file: File)
    | Fail(batch: nat, staged: nat)
    | Rollback(batch: nat)
    | Remove(batch: nat)

  ghost predicate StepRel(db: Db, step: Step, next: Db) {
    match step
    case Commit(b, staged, file) => CommitRel(db, next, b, staged, file)
    case Fail(b, staged) => b !in db.batches && next == FailedCommit(db, b, staged)
    case Rollback(b) => RollbackRel(db, next, b)
    case Remove(b) => RemoveAnyRel(db, next, b)
  }

  /** Before the first upload: no rows, no batches, brands that no upload created. */
  ghost predicate Initial(db: Db) {
    && db.rows == map[] && db.batches == map[]
    && forall f :: f in db.brands ==> db.brands[f].createdBy == None && Fold(db.brands[f].name) == f
  }

  ghost predicate Run(dbs: seq<Db>, steps: seq<Step>) {
    && |dbs| == |steps| + 1 && Initial(dbs[0])
    && forall i :: 0 <= i < |steps| ==> StepRel(dbs[i], steps[i], dbs[i + 1])
  }

  lemma FailKeepsInv(db: Db, b: nat, staged: nat)
    requires Inv(db) && b !in db.batches
    ensures Inv(FailedCommit(db, b, staged))
  {
    var next := FailedCommit(db, b, staged);
    forall id | id in next.rows ensures Holds(next, next.rows[id].batch, next.rows[id].key) {
      assert Holds(db, db.rows[id].batch, db.rows[id].key);
    }
    forall a, k | Holds(next, a, k) && !HasRow(next.rows, a, k) ensures next.batches[a].restated > 0 {
      assert Holds(db, a, k);
    }
  }

  lemma FailKeepsFaithful(db: Db, b: nat, staged: nat)
    requires Faithful(db) && b !in db.batches
    ensures Faithful(FailedCommit(db, b, staged))
  {
    var next := FailedCommit(db, b, staged);
    forall a, k | Holds(next, a, k) ensures Stated(next, a, k) {
      assert Holds(db, a, k) && Stated(db, a, k);
    }
  }

  lemma StepKeepsInv(db: Db, step: Step, next: Db)
    requires Inv(db) && StepRel(db, step, next)
    ensures Inv(next)
  {
    match step
    case Commit(b, staged, file) => CommitKeepsInv(db, next, b, staged, file);
    case Fail(b, staged) => FailKeepsInv(db, b, staged);
    case Rollback(b) => RollbackKeepsInv(db, next, b);
    case Remove(b) => RemovalKeepsInv(db, next, b, LaterRestating(db, b), Removed);
  }

  /** The structural invariant holds in every reachable state, whatever is removed. */
  lemma {:induction false} RunKeepsInv(dbs: seq<Db>, steps: seq<Step>, n: nat)
    requires Run(dbs, steps) && n <= |steps|
    ensures Inv(dbs[n])
  {
    if n > 0 {
      RunKeepsInv(dbs, steps, n - 1);
      StepKeepsInv(dbs[n - 1], steps[n - 1], dbs[n]);
    }
  }

  lemma RollbackKeepsFaithful(db: Db, next: Db, b: nat)
    requires Inv(db) && Faithful(db) && RollbackRel(db, next, b)
    ensures Faithful(next)
  {
    forall a, k | Holds(next, a, k) ensures Stated(next, a, k) {
      assert Holds(db, a, k) && Stated(db, a, k);
      RollbackKeepsStated(db, next, b, a, k);
    }
  }

  ghost predicate StepIsSafe(db: Db, step: Step) {
    step.Remove? ==> RemovalIsSafe(db, step.batch)
  }

  lemma StepKeepsFaithful(db: Db, step: Step, next: Db)
    requires Inv(db) && Faithful(db) && StepRel(db, step, next) && StepIsSafe(db, step)
    ensures Faithful(next)
  {
    match step
    case Commit(b, staged, file) => CommitKeepsFaithful(db, next, b, staged, file);
    case Fail(b, staged) => FailKeepsFaithful(db, b, staged);
    case Rollback(b) => RollbackKeepsFaithful(db, next, b);
    case Remove(b) => RemovalKeepsFaithfulIff(db, next, b);
  }

  lemma {:induction false} SafeRunIsFaithful(dbs: seq<Db>, steps: seq<Step>, n: nat)
    requires Run(dbs, steps) && n <= |steps|
    requires forall i :: 0 <= i < n ==> StepIsSafe(dbs[i], steps[i])
    ensures Faithful(dbs[n])
  {
    if n > 0 {
      SafeRunIsFaithful(dbs, steps, n - 1);
      RunKeepsInv(dbs, steps, n - 1);
      StepKeepsFaithful(dbs[n - 1], steps[n - 1], dbs[n]);
    }
  }

  /** In a run whose removals are safe - all but the last step, which may be any removal - the live rows are
    * the last writers' at every point. */
  lemma SafeRunShowsLastWriter(dbs: seq<Db>, steps: seq<Step>, n: nat)
    requires Run(dbs, steps) && n <= |steps|
    requires forall i :: 0 <= i < n - 1 ==> StepIsSafe(dbs[i], steps[i])
    ensures LastWriterWins(dbs[n])
  {
    RunKeepsInv(dbs, steps, n);
    if n > 0 && steps[n - 1].Remove? {
      SafeRunIsFaithful(dbs, steps, n - 1);
      RunKeepsInv(dbs, steps, n - 1);
      OneRemovalShowsLastWriter(dbs[n - 1], dbs[n], steps[n - 1].batch);
    } else {
      SafeRunIsFaithful(dbs, steps, n);
      FaithfulShowsLastWriter(dbs[n]);
    }
  }

  /** After commits, failures and rollbacks only, removing any one batch leaves the last writers' values. */
  lemma RemovalAfterCommits(dbs: seq<Db>, steps: seq<Step>)
    requires Run(dbs, steps)
    requires forall i :: 0 <= i < |steps| - 1 ==> !steps[i].Remove?
    ensures LastWriterWins(dbs[|steps|])
  {
    SafeRunShowsLastWriter(dbs, steps, |steps|);
  }

  // ---- why faithfulness is the exact condition -----------------------------------------------------------

  ghost predicate RollbackRun(dbs: seq<Db>) {
    |dbs| > 0 && forall i :: 0 <= i < |dbs| - 1 ==> RollsBackTo(dbs[i], dbs[i + 1])
  }

  ghost predicate RollsBackTo(db: Db, next: Db) {
    exists b :: RollbackRel(db, next, b)
  }

  /** However many of the latest batches are rolled back, the live rows are the last writers'. */
  ghost predicate SurvivesRollbacks(db: Db) {
    forall dbs: seq<Db> :: RollbackRun(dbs) && dbs[0] == db ==> LastWriterWins(dbs[|dbs| - 1])
  }

  lemma {:induction false} FaithfulRollbackRun(dbs: seq<Db>, n: nat)
    requires RollbackRun(dbs) && n < |dbs| && Inv(dbs[0]) && Faithful(dbs[0])
    ensures Inv(dbs[n]) && Faithful(dbs[n])
  {
    if n > 0 {
      FaithfulRollbackRun(dbs, n - 1);
      assert RollsBackTo(dbs[n - 1], dbs[n - 1 + 1]);
      var b :| RollbackRel(dbs[n - 1], dbs[n], b);
      RollbackKeepsInv(dbs[n - 1], dbs[n], b);
      RollbackKeepsFaithful(dbs[n - 1], dbs[n], b);
    }
  }

  // A rollback of the latest batch is always possible: its result as a function.

  ghost function BrandAfter(brand: Brand, f: string, b: nat, rows: map<nat, Row>): Brand {
    if brand.createdBy == Some(b) && exists a :: FirstUser(rows, f, a) then
      var a :| FirstUser(rows, f, a); brand.(createdBy := Some(a))
    else brand
  }

  ghost function BrandsAfter(before: map<string, Brand>, b: nat, rows: map<nat, Row>): map<string, Brand> {
    map f | f in before && (before[f].createdBy != Some(b) || exists a :: BatchUses(rows, f, a)) ::
      BrandAfter(before[f], f, b, rows)
  }

  lemma {:induction false} FirstUserExists(rows: map<nat, Row>, f: string, a: nat)
    requires BatchUses(rows, f, a)
    ensures exists c :: FirstUser(rows, f, c)
    decreases a
  {
    if c: nat :| BatchUses(rows, f, c) && c < a {
      FirstUserExists(rows, f, c);
    } else {
      assert FirstUser(rows, f, a);
    }
  }

  lemma BrandsAfterOk(before: map<string, Brand>, b: nat, rows: map<nat, Row>)
    ensures RemovedBrands(before, BrandsAfter(before, b, rows), b, rows)
  {
    forall f | f in before && before[f].createdBy == Some(b) && exists a :: BatchUses(rows, f, a)
      ensures FirstUser(rows, f, BrandAfter(before[f], f, b, rows).createdBy.value)
    {
      var a :| BatchUses(rows, f, a);
      FirstUserExists(rows, f, a);
    }
  }

  ghost function RolledBackDb(db: Db, b: nat): Db
    requires b in db.batches
  {
    var rows := RemovedRows(db, b, {});
    Db(rows, db.batches[b := db.batches[b].(status := RolledBack)], BrandsAfter(db.brands, b, rows))
  }

  lemma CanRollBack(db: Db, b: nat)
    requires LatestSuccess(db, b)
    ensures RollbackRel(db, RolledBackDb(db, b), b)
  {
    BrandsAfterOk(db.brands, b, RemovedRows(db, b, {}));
  }

  ghost function SuccessAfter(db: Db, a: nat): set<nat> {
    set c | c in db.batches && db.batches[c].status == Success && c > a
  }

  lemma {:induction false} LatestFrom(db: Db, c: nat, rest: set<nat>) returns (b: nat)
    requires c in db.batches && db.batches[c].status == Success && rest == SuccessAfter(db, c)
    ensures LatestSuccess(db, b) && b >= c
    decreases rest
  {
    if d :| d in rest {
      assert SuccessAfter(db, d) < rest by { assert d !in SuccessAfter(db, d); }
      b := LatestFrom(db, d, SuccessAfter(db, d));
    } else {
      b := c;
      assert forall a :: a in db.batches && db.batches[a].status == Success && a > c ==> a in rest;
    }
  }

  /** When `a` is the latest batch, the live row of a key it holds decides whether it is still stated. */
  lemma LiveDecides(db: Db, a: nat, k: Key)
    requires Inv(db) && LatestSuccess(db, a) && Holds(db, a, k) && !Stated(db, a, k)
    ensures !LastWriterWins(db)
  {
    assert LastWriter(db, k, a);
    if LiveHas(db, k, Store(db.batches[a].file[k])) {
      var id :| LiveAt(db.rows, k, id) && db.rows[id].data == Store(db.batches[a].file[k]);
      assert Holds(db, db.rows[id].batch, k) && LinkOk(db.rows, id);
      assert IsAsOf(db.rows, k, a, id);
    }
  }

  /** An unfaithful state can be rolled back to a state that shows a wrong value. */
  lemma {:induction false} UnfaithfulFails(db: Db, a: nat, k: Key) returns (dbs: seq<Db>)
    requires Inv(db) && Holds(db, a, k) && !Stated(db, a, k)
    ensures RollbackRun(dbs) && dbs[0] == db && !LastWriterWins(dbs[|dbs| - 1])
    decreases SuccessAfter(db, a)
  {
    var b := LatestFrom(db, a, SuccessAfter(db, a));
    if b == a {
      LiveDecides(db, a, k);
      dbs := [db];
    } else {
      var next := RolledBackDb(db, b);
      CanRollBack(db, b);
      RollbackKeepsInv(db, next, b);
      RollbackKeepsStated(db, next, b, a, k);
      assert SuccessAfter(next, a) < SuccessAfter(db, a) by {
        assert b in SuccessAfter(db, a) && b !in SuccessAfter(next, a);
      }
      var rest := UnfaithfulFails(next, a, k);
      dbs := [db] + rest;
      assert RollsBackTo(dbs[0], dbs[1]);
      forall i | 0 <= i < |dbs| - 1 ensures RollsBackTo(dbs[i], dbs[i + 1]) {
        if i > 0 { assert RollsBackTo(rest[i - 1], rest[i - 1 + 1]); }
      }
    }
  }

  /** A reachable state is faithful exactly when no number of rollbacks can make it show a wrong value. */
  lemma FaithfulIffSurvivesRollbacks(db: Db)
    requires Inv(db)
    ensures Faithful(db) <==> SurvivesRollbacks(db)
  {
    if Faithful(db) {
      forall dbs: seq<Db> | RollbackRun(dbs) && dbs[0] == db ensures LastWriterWins(dbs[|dbs| - 1]) {
        FaithfulRollbackRun(dbs, |dbs| - 1);
        FaithfulShowsLastWriter(dbs[|dbs| - 1]);
      }
    } else {
      var a, k :| Holds(db, a, k) && !Stated(db, a, k);
      var dbs := UnfaithfulFails(db, a, k);
      assert RollbackRun(dbs) && dbs[0] == db;
    }
  }

  /** Removing `b` from a faithful state keeps every later rollback right exactly when the removal is safe. */
  lemma RemovalSurvivesIffSafe(db: Db, next: Db, b: nat)
    requires Inv(db) && Faithful(db) && RemoveAnyRel(db, next, b)
    ensures SurvivesRollbacks(next) <==> RemovalIsSafe(db, b)
  {
    RemovalKeepsInv(db, next, b, LaterRestating(db, b), Removed);
    FaithfulIffSurvivesRollbacks(next);
    RemovalKeepsFaithfulIff(db, next, b);
  }

  // ---- a run that shows a wrong value -----------------------------------------------------------------------

  // A row of the trade table, which has no brand: year, month, compliance, stock shares, attendees.
  const K := Key("trade", "2026|1")
  const V1 := Cells(None, ["2026", "1", "0.9500", "0.8000", "0.7000", "40", "50"])
  const V2 := Cells(None, ["2026", "1", "0.9600", "0.8000", "0.7000", "40", "50"])

  function Upload(v: Cells): File { map[K := v] }

  function Version(v: Cells, b: nat, next: Option<nat>): Row {
    Row(K, Store(v), b, next.None?, next)
  }

  function Kept(v: Cells, restated: nat, staged: nat): Batch {
    Batch(Success, Upload(v), restated, staged)
  }

  lemma NoLiveRow(db: Db, v: Cells)
    requires db.rows == map[]
    ensures !Unchanged(db, K, v) && UnchangedCount(db, Upload(v)) == 0
  {
    assert (set k | k in Upload(v) && Unchanged(db, k, Upload(v)[k])) == {};
  }

  lemma OneLiveRow(db: Db, v: Cells, w: Cells)
    requires db.rows == map[1 := Row(K, Store(v), 1, true, None)] && v.brand == None
    ensures Unchanged(db, K, w) <==> v == w
    ensures UnchangedCount(db, Upload(w)) == if v == w then 1 else 0
  {
    assert LiveAt(db.rows, K, 1) && ReadBack(db.brands, db.rows[1].data) == v;
    var s := set k | k in Upload(w) && Unchanged(db, k, Upload(w)[k]);
    if v == w { assert s == {K}; } else { assert s == {}; }
  }

  lemma ExtendRun(dbs: seq<Db>, steps: seq<Step>, step: Step, next: Db)
    requires Run(dbs, steps) && StepRel(dbs[|steps|], step, next)
    ensures Run(dbs + [next], steps + [step])
  {
  }

  // The states of the run: three commits, then two removals.
  const D0 := Db(map[], map[], map[])
  const D1 := Db(map[1 := Version(V1, 1, None)], map[1 := Kept(V1, 0, 1)], map[])
  const D2 := Db(map[1 := Version(V1, 1, None)], map[1 := Kept(V1, 0, 1), 2 := Kept(V1, 1, 2)], map[])
  const D3 := Db(map[1 := Version(V1, 1, Some(3)), 2 := Version(V2, 3, None)],
                 map[1 := Kept(V1, 0, 1), 2 := Kept(V1, 1, 2), 3 := Kept(V2, 0, 3)], map[])
  const D4 := Db(map[2 := Version(V2, 3, None)],
                 map[1 := Kept(V1, 0, 1).(status := Removed), 2 := Kept(V1, 1, 2), 3 := Kept(V2, 0, 3)], map[])
  const D5 := Db(map[], map[1 := Kept(V1, 0, 1).(status := Removed), 2 := Kept(V1, 1, 2),
                            3 := Kept(V2, 0, 3).(status := Removed)], map[])

  lemma TwoCommits()
    ensures Run([D0, D1, D2], [Commit(1, 1, Upload(V1)), Commit(2, 2, Upload(V1))])
  {
    FirstUpload(D0, D1);
    ExtendRun([D0], [], Commit(1, 1, Upload(V1)), D1);
    SameAgain(D1, D2);
    ExtendRun([D0] + [D1], [] + [Commit(1, 1, Upload(V1))], Commit(2, 2, Upload(V1)), D2);
    assert [D0] + [D1] + [D2] == [D0, D1, D2];
    assert [] + [Commit(1, 1, Upload(V1))] + [Commit(2, 2, Upload(V1))] ==
      [Commit(1, 1, Upload(V1)), Commit(2, 2, Upload(V1))];
  }

  lemma ThirdCommit(dbs: seq<Db>, steps: seq<Step>)
    requires Run(dbs, steps) && dbs[|steps|] == D2
    ensures Run(dbs + [D3], steps + [Commit(3, 3, Upload(V2))])
  {
    OtherValue(D2, D3);
    ExtendRun(dbs, steps, Commit(3, 3, Upload(V2)), D3);
  }

  lemma TwoRemovals(dbs: seq<Db>, steps: seq<Step>)
    requires Run(dbs, steps) && dbs[|steps|] == D3
    ensures Run(dbs + [D4] + [D5], steps + [Remove(1)] + [Remove(3)])
  {
    RemoveFirst(D3, D4);
    ExtendRun(dbs, steps, Remove(1), D4);
    RemoveThird(D4, D5);
    ExtendRun(dbs + [D4], steps + [Remove(1)], Remove(3), D5);
  }

  /** Three uploads of one key - a value, the same value again, another value - then removing the first and
    * the third: the second batch survives, yet the value it uploaded is gone. */
  lemma UnsafeRunLosesValue() returns (dbs: seq<Db>, steps: seq<Step>)
    ensures Run(dbs, steps) && !LastWriterWins(dbs[|steps|])
    ensures steps == [Commit(1, 1, Upload(V1)), Commit(2, 2, Upload(V1)), Commit(3, 3, Upload(V2)), Remove(1),
                      Remove(3)]
  {
    dbs, steps := [D0, D1, D2], [Commit(1, 1, Upload(V1)), Commit(2, 2, Upload(V1))];
    TwoCommits();
    ThirdCommit(dbs, steps);
    TwoRemovals(dbs + [D3], steps + [Commit(3, 3, Upload(V2))]);
    dbs, steps := dbs + [D3] + [D4] + [D5], steps + [Commit(3, 3, Upload(V2))] + [Remove(1)] + [Remove(3)];
    ValueIsLost(D5);
  }

  lemma ValueIsLost(db: Db)
    requires db.rows == map[] && 2 in db.batches && db.batches[2] == Kept(V1, 1, 2)
    requires forall b :: b in db.batches && db.batches[b].status == Success ==> b <= 2
    ensures !LastWriterWins(db)
  {
    assert Holds(db, 2, K) && LastWriter(db, K, 2);
    assert !LiveHas(db, K, Store(V1));
  }

  lemma FirstUpload(db: Db, next: Db)
    requires db == Db(map[], map[], map[])
    requires next == Db(map[1 := Version(V1, 1, None)], map[1 := Kept(V1, 0, 1)], map[])
    ensures StepRel(db, Commit(1, 1, Upload(V1)), next)
  {
    NoLiveRow(db, V1);
    assert 1 in next.rows && 1 !in db.rows && next.rows[1].key == K;
    assert HasNew(db.rows, next.rows, K);
  }

  lemma SameAgain(db: Db, next: Db)
    requires db == Db(map[1 := Version(V1, 1, None)], map[1 := Kept(V1, 0, 1)], map[])
    requires next == Db(db.rows, map[1 := Kept(V1, 0, 1), 2 := Kept(V1, 1, 2)], map[])
    ensures StepRel(db, Commit(2, 2, Upload(V1)), next)
  {
    OneLiveRow(db, V1, V1);
  }

  lemma OtherValue(db: Db, next: Db)
    requires db == Db(map[1 := Version(V1, 1, None)], map[1 := Kept(V1, 0, 1), 2 := Kept(V1, 1, 2)], map[])
    requires next == Db(map[1 := Version(V1, 1, Some(3)), 2 := Version(V2, 3, None)],
                        map[1 := Kept(V1, 0, 1), 2 := Kept(V1, 1, 2), 3 := Kept(V2, 0, 3)], map[])
    ensures StepRel(db, Commit(3, 3, Upload(V2)), next)
  {
    OneLiveRow(db, V1, V2);
    assert V1.fields[2][3] != V2.fields[2][3];
    assert 2 in next.rows && 2 !in db.rows && next.rows[2].key == K;
    assert HasNew(db.rows, next.rows, K);
  }

  lemma RemoveFirst(db: Db, next: Db)
    requires db.rows == map[1 := Version(V1, 1, Some(3)), 2 := Version(V2, 3, None)]
    requires db.batches == map[1 := Kept(V1, 0, 1), 2 := Kept(V1, 1, 2), 3 := Kept(V2, 0, 3)] && db.brands == map[]
    requires next == Db(map[2 := Version(V2, 3, None)], db.batches[1 := db.batches[1].(status := Removed)], map[])
    ensures StepRel(db, Remove(1), next)
  {
    assert RemovedRows(db, 1, LaterRestating(db, 1)) == next.rows;
  }

  lemma RemoveThird(db: Db, next: Db)
    requires db.rows == map[2 := Version(V2, 3, None)] && db.brands == map[]
    requires db.batches == map[1 := Kept(V1, 0, 1).(status := Removed), 2 := Kept(V1, 1, 2), 3 := Kept(V2, 0, 3)]
    requires next == Db(map[], db.batches[3 := db.batches[3].(status := Removed)], map[])
    ensures StepRel(db, Remove(3), next)
  {
    HandToSpec(db, LaterRestating(db, 3), K);
    assert RemovedRows(db, 3, LaterRestating(db, 3)) == next.rows;
  }

  // ---- uploading the same file again --------------------------------------------------------------------------

  predicate SpelledAs(brands: map<string, Brand>, cells: Cells) {
    cells.brand.Some? ==> Spelled(brands, Fold(cells.brand.value)) == cells.brand.value
  }

  /** Every known brand is spelled as the brand table spells it, every new one the same way throughout the file. */
  ghost predicate SpellingOk(brands: map<string, Brand>, file: File) {
    && (forall k :: k in file && file[k].brand.Some? && Fold(file[k].brand.value) in brands ==>
        SpelledAs(brands, file[k]))
    && (forall k, j :: && k in file && j in file && Store(file[k]).brand == Store(file[j]).brand
                       && file[k].brand.Some? && Fold(file[k].brand.value) !in brands
                       ==> file[k].brand == file[j].brand)
  }

  lemma RediffOfOne(db: Db, next: Db, b: nat, staged: nat, file: File, k: Key)
    requires Inv(db) && CommitRel(db, next, b, staged, file) && k in file
    ensures Unchanged(next, k, file[k]) <==> SpelledAs(next.brands, file[k])
  {
    CommitKeepsInv(db, next, b, staged, file);
    CommitStatesNew(db, next, b, staged, file, k);
    assert LatestSuccess(next, b);
    StatedByLatest(next, b, k);
  }

  lemma StatedByLatest(db: Db, b: nat, k: Key)
    requires OwnersOk(db) && OneRowPerBatch(db.rows) && LinksOk(db.rows)
    requires LatestSuccess(db, b) && Holds(db, b, k) && Stated(db, b, k)
    ensures Unchanged(db, k, db.batches[b].file[k]) <==> SpelledAs(db.brands, db.batches[b].file[k])
  {
    LiveIsUnique(db.rows);
    assert LastWriter(db, k, b);
    WriterIsLive(db, k, b);
    var id :| LiveAt(db.rows, k, id) && db.rows[id].data == Store(db.batches[b].file[k]);
    UnchangedIsLive(db, k, db.batches[b].file[k], id);
  }

  /** Diffing a just-committed file again finds every row unchanged exactly when its brand spellings agree
    * with the brand table as it was before the commit. */
  lemma RediffUnchangedIff(db: Db, next: Db, b: nat, staged: nat, file: File)
    requires Inv(db) && CommitRel(db, next, b, staged, file)
    ensures (forall k :: k in file ==> !NeedsRow(next, file, k)) <==> SpellingOk(db.brands, file)
  {
    forall k | k in file ensures NeedsRow(next, file, k) <==> !SpelledAs(next.brands, file[k]) {
      RediffOfOne(db, next, b, staged, file, k);
    }
    if SpellingOk(db.brands, file) {
      forall k | k in file ensures SpelledAs(next.brands, file[k]) {
        NewSpelling(db, next, b, file, k);
      }
    }
    if forall k :: k in file ==> SpelledAs(next.brands, file[k]) {
      SettledSpelling(db.brands, next.brands, b, file);
    }
  }

  lemma SettledSpelling(before: map<string, Brand>, after: map<string, Brand>, b: nat, file: File)
    requires CommitBrands(before, after, b, file) && forall k :: k in file ==> SpelledAs(after, file[k])
    ensures SpellingOk(before, file)
  {
    forall k | k in file && file[k].brand.Some? && Fold(file[k].brand.value) in before
      ensures SpelledAs(before, file[k])
    {
      assert SpelledAs(after, file[k]);
    }
  }

  lemma NewSpelling(db: Db, next: Db, b: nat, file: File, k: Key)
    requires CommitBrands(db.brands, next.brands, b, file) && SpellingOk(db.brands, file) && k in file
    ensures SpelledAs(next.brands, file[k])
  {
    if file[k].brand.Some? {
      var f := Fold(file[k].brand.value);
      assert Store(file[k]).brand == Some(f);
      assert FileUses(file, f);
      if f !in db.brands {
        var j :| j in file && file[j].brand == Some(next.brands[f].name);
        assert Store(file[j]).brand == Some(f);
      }
    }
  }

  // A row of the web table: year, month, bounces, visitors, sessions, minutes, and its brand.
  const WEB_KEY := Key("web", "2026|1|majaal")
  const WEB_ROW := Cells(Some("MAJAAL"), ["2026", "1", "10", "100", "120", "300.00"])

  /** A file that spells a known brand differently is a change on every upload. */
  lemma OtherSpellingNeverSettles(db: Db, next: Db, staged: nat)
    requires Inv(db) && "majaal" in db.brands && db.brands["majaal"].name == "Majaal"
    requires CommitRel(db, next, 7, staged, map[WEB_KEY := WEB_ROW])
    ensures NeedsRow(next, map[WEB_KEY := WEB_ROW], WEB_KEY)
  {
    RediffOfOne(db, next, 7, staged, map[WEB_KEY := WEB_ROW], WEB_KEY);
    assert Fold("MAJAAL") == "majaal";
    assert "Majaal"[1] != "MAJAAL"[1];
  }

  // The states of two uploads of that row: the second supersedes the first although nothing was changed.
  const WEB_BRANDS := map["majaal" := Brand("Majaal", None)]
  const E0 := Db(map[], map[], WEB_BRANDS)
  const E1 := Db(map[1 := WebRow(1, None)], map[1 := WebBatch(1)], WEB_BRANDS)
  const E2 := Db(map[1 := WebRow(1, Some(2)), 2 := WebRow(2, None)], map[1 := WebBatch(1), 2 := WebBatch(2)],
                 WEB_BRANDS)

  function WebFile(): File { map[WEB_KEY := WEB_ROW] }

  function WebRow(b: nat, next: Option<nat>): Row { Row(WEB_KEY, Store(WEB_ROW), b, next.None?, next) }

  function WebBatch(staged: nat): Batch { Batch(Success, WebFile(), 0, staged) }

  lemma WebBrandIsKnown(before: map<string, Brand>, b: nat)
    requires before == WEB_BRANDS
    ensures Store(WEB_ROW).brand == Some("majaal") && CommitBrands(before, before, b, WebFile())
  {
    assert Fold("MAJAAL") == "majaal";
  }

  lemma WebNothingUnchanged(db: Db)
    requires db.brands == WEB_BRANDS && forall id :: LiveAt(db.rows, WEB_KEY, id) ==> db.rows[id].data == Store(WEB_ROW)
    ensures !Unchanged(db, WEB_KEY, WEB_ROW) && UnchangedCount(db, WebFile()) == 0
  {
    WebBrandIsKnown(db.brands, 0);
    assert "Majaal"[1] != "MAJAAL"[1];
    assert (set k | k in WebFile() && Unchanged(db, k, WebFile()[k])) == {};
  }

  lemma WebFirst(db: Db, next: Db)
    requires db == Db(map[], map[], WEB_BRANDS)
    requires next == Db(map[1 := WebRow(1, None)], map[1 := WebBatch(1)], WEB_BRANDS)
    ensures StepRel(db, Commit(1, 1, WebFile()), next)
  {
    WebNothingUnchanged(db);
    WebBrandIsKnown(db.brands, 1);
    assert 1 in next.rows && 1 !in db.rows && next.rows[1].key == WEB_KEY;
    assert HasNew(db.rows, next.rows, WEB_KEY);
  }

  lemma WebNeedsRow(db: Db)
    requires db == Db(map[1 := WebRow(1, None)], map[1 := WebBatch(1)], WEB_BRANDS)
    ensures forall k :: NeedsRow(db, WebFile(), k) <==> k == WEB_KEY
    ensures UnchangedCount(db, WebFile()) == 0
  {
    WebNothingUnchanged(db);
  }

  lemma WebRows(db: Db, rows: map<nat, Row>)
    requires db == Db(map[1 := WebRow(1, None)], map[1 := WebBatch(1)], WEB_BRANDS)
    requires rows == map[1 := WebRow(1, Some(2)), 2 := WebRow(2, None)]
    ensures CommitRows(db, rows, 2, WebFile())
  {
    WebNeedsRow(db);
    assert 2 in rows && 2 !in db.rows && rows[2].key == WEB_KEY;
    assert HasNew(db.rows, rows, WEB_KEY);
    assert NeedsRow(db, WebFile(), WEB_KEY);
  }

  lemma WebAgain(db: Db, next: Db)
    requires db == Db(map[1 := WebRow(1, None)], map[1 := WebBatch(1)], WEB_BRANDS)
    requires next == Db(map[1 := WebRow(1, Some(2)), 2 := WebRow(2, None)], db.batches[2 := WebBatch(2)], WEB_BRANDS)
    ensures StepRel(db, Commit(2, 2, WebFile()), next)
  {
    WebNeedsRow(db);
    WebRows(db, next.rows);
    WebBrandIsKnown(db.brands, 2);
  }

  /** From an empty store with the brand "Majaal", the same file twice: its row is superseded by itself. */
  lemma SameFileSupersedesItself() returns (dbs: seq<Db>, steps: seq<Step>)
    ensures Run(dbs, steps) && steps == [Commit(1, 1, WebFile()), Commit(2, 2, WebFile())]
    ensures var last := dbs[|steps|];
      last == E2 && last.rows[1].supersededBy == Some(2) && last.rows[1].data == last.rows[2].data
  {
    WebFirst(E0, E1);
    ExtendRun([E0], [], Commit(1, 1, WebFile()), E1);
    assert E1.batches[2 := WebBatch(2)] == E2.batches;
    WebAgain(E1, E2);
    ExtendRun([E0] + [E1], [] + [Commit(1, 1, WebFile())], Commit(2, 2, WebFile()), E2);
    dbs, steps := [E0] + [E1] + [E2], [] + [Commit(1, 1, WebFile())] + [Commit(2, 2, WebFile())];
  }
}
