/**
 * Total MARCOM spend: campaign shares plus other spend, one row per year, month and brand
 * (`marcomKpi/totalSpend.ts`, lines 51-92).
 */
module SpendMerge {
  import opened Prelude
  import opened Rationals
  import opened Totals
  import opened Proration

  datatype OtherSpend = OtherSpend(key: Key, category: string, amount: Rat)
  /** A Page 1 row: its key and the numbers entered for it. */
  datatype Page1 = Page1(key: Key, inputs: seq<Option<Rat>>)
  datatype Row = Row(key: Key, inputs: seq<Option<Rat>>, campaign: Rat, other: Rat, spend: Rat)

  predicate OthersExact(others: seq<OtherSpend>) {
    forall i :: 0 <= i < |others| ==> Canonical(others[i].amount)
  }

  // ---- other spend ---------------------------------------------------------------------------------------------

  /** The other-spend amounts that belong to the given keys. */
  ghost function OthersTotal(others: seq<OtherSpend>, keys: set<Key>): real
    requires OthersExact(others)
  {
    if others == [] then 0.0
    else
      OthersTotal(others[..|others| - 1], keys) +
      (if others[|others| - 1].key in keys then Value(others[|others| - 1].amount) else 0.0)
  }

  lemma OthersStep(others: seq<OtherSpend>, i: nat, keys: set<Key>)
    requires OthersExact(others) && i < |others|
    ensures OthersTotal(others[..i + 1], keys) ==
      OthersTotal(others[..i], keys) + (if others[i].key in keys then Value(others[i].amount) else 0.0)
  {
    assert others[..i + 1][..i] == others[..i];
  }

  method OtherByKey(others: seq<OtherSpend>) returns (out: map<Key, Rat>)
    requires OthersExact(others)
    ensures ExactMap(out)
    ensures forall k :: Amount(out, k) == OthersTotal(others, {k})
    ensures forall k :: k in out <==> exists i :: 0 <= i < |others| && others[i].key == k
  {
    out := map[];
    for i := 0 to |others|
      invariant ExactMap(out)
      invariant forall k :: Amount(out, k) == OthersTotal(others[..i], {k})
      invariant forall k :: k in out <==> exists p :: 0 <= p < i && others[p].key == k
    {
      forall k ensures OthersTotal(others[..i + 1], {k}) ==
          OthersTotal(others[..i], {k}) + (if others[i].key == k then Value(others[i].amount) else 0.0)
      {
        OthersStep(others, i, {k});
      }
      AddToAdds(out, others[i].key, others[i].amount);
      out := AddTo(out, others[i].key, others[i].amount);
    }
    assert others[..|others|] == others;
  }

  ghost function OthersAt(others: seq<OtherSpend>): Key -> real
    requires OthersExact(others)
  {
    k => OthersTotal(others, {k})
  }

  lemma {:induction false} OtherKeysAddUp(others: seq<OtherSpend>, keys: set<Key>)
    requires OthersExact(others)
    ensures Total(keys, OthersAt(others)) == OthersTotal(others, keys)
  {
    if others == [] {
      TotalZero(keys, OthersAt(others));
    } else {
      var rest, last := others[..|others| - 1], others[|others| - 1];
      OtherKeysAddUp(rest, keys);
      var point := (k: Key) => if k == last.key then Value(last.amount) else 0.0;
      TotalPoint(keys, point, last.key, Value(last.amount));
      TotalPlus(keys, OthersAt(rest), point, OthersAt(others));
    }
  }

  // ---- the merge --------------------------------------------------------------------------------------------------

  predicate Allowed(allowed: Option<set<int>>, k: Key) {
    allowed.None? || k.brand in allowed.value
  }

  predicate Less(a: Key, b: Key) {
    a.year < b.year || (a.year == b.year && (a.month < b.month || (a.month == b.month && a.brand < b.brand)))
  }

  predicate Sorted(rows: seq<Row>) {
    forall i, j :: 0 <= i < j < |rows| ==> Less(rows[i].key, rows[j].key)
  }

  function RowKeys(rows: seq<Row>): set<Key> {
    set i | 0 <= i < |rows| :: rows[i].key
  }

  /** The inputs of the last Page 1 row with a key. */
  function InputsOf(p1: seq<Page1>, k: Key): seq<Option<Rat>> {
    if p1 == [] then []
    else if p1[|p1| - 1].key == k then p1[|p1| - 1].inputs
    else InputsOf(p1[..|p1| - 1], k)
  }

  predicate HasPage1(p1: seq<Page1>, k: Key) {
    exists i :: 0 <= i < |p1| && p1[i].key == k
  }

  predicate HasSpend(campaigns: seq<Campaign>, cells: seq<Cell>, others: seq<OtherSpend>, k: Key) {
    (exists i, j :: 0 <= i < |campaigns| && 0 <= j < |cells| && Contributes(campaigns[i], cells[j], k)) ||
    (exists i :: 0 <= i < |others| && others[i].key == k)
  }

  function AmountOr0(m: map<Key, Rat>, k: Key): Rat {
    if k in m then m[k] else ZERO
  }

  function RowFor(k: Key, inputs: seq<Option<Rat>>, campaignBy: map<Key, Rat>, otherBy: map<Key, Rat>): Row
    requires ExactMap(campaignBy) && ExactMap(otherBy)
  {
    ZeroAndOne();
    var c, o := AmountOr0(campaignBy, k), AmountOr0(otherBy, k);
    Row(k, inputs, c, o, Add(c, o))
  }

  /** The spend of a row is exactly its campaign shares plus its other spend. */
  ghost predicate RowIsRight(row: Row, campaigns: seq<Campaign>, cells: seq<Cell>, others: seq<OtherSpend>)
    requires AllExact(campaigns) && OthersExact(others)
  {
    Canonical(row.campaign) && Canonical(row.other) && Canonical(row.spend) &&
    Value(row.campaign) == CampaignsTotal(campaigns, cells, {row.key}) &&
    Value(row.other) == OthersTotal(others, {row.key}) &&
    Value(row.spend) == Value(row.campaign) + Value(row.other)
  }

  lemma RowForIsRight(k: Key, inputs: seq<Option<Rat>>, campaignBy: map<Key, Rat>, otherBy: map<Key, Rat>,
                      campaigns: seq<Campaign>, cells: seq<Cell>, others: seq<OtherSpend>)
    requires ExactMap(campaignBy) && ExactMap(otherBy) && AllExact(campaigns) && OthersExact(others)
    requires Amount(campaignBy, k) == CampaignsTotal(campaigns, cells, {k})
    requires Amount(otherBy, k) == OthersTotal(others, {k})
    ensures RowIsRight(RowFor(k, inputs, campaignBy, otherBy), campaigns, cells, others)
  {
    ZeroAndOne();
    AddValue(AmountOr0(campaignBy, k), AmountOr0(otherBy, k));
  }

  /** Where a row goes among sorted ones. */
  function Place(rows: seq<Row>, k: Key): (i: nat)
    ensures i <= |rows|
    ensures i < |rows| ==> !Less(rows[i].key, k)
    ensures forall j :: 0 <= j < i ==> Less(rows[j].key, k)
  {
    if rows == [] || !Less(rows[0].key, k) then 0
    else
      var i := Place(rows[1..], k);
      assert forall j :: 1 <= j <= i ==> rows[j] == rows[1..][j - 1];
      i + 1
  }

  function Insert(rows: seq<Row>, row: Row): seq<Row> {
    var i := Place(rows, row.key);
    rows[..i] + [row] + rows[i..]
  }

  lemma InsertSorts(rows: seq<Row>, row: Row)
    requires Sorted(rows) && row.key !in RowKeys(rows)
    ensures Sorted(Insert(rows, row)) && RowKeys(Insert(rows, row)) == RowKeys(rows) + {row.key}
    ensures forall r :: r in Insert(rows, row) ==> r in rows || r == row
  {
    var i := Place(rows, row.key);
    PlaceBefore(rows, row.key, i);
    SortedBetween(rows[..i], row, rows[i..]);
    InsertedKeys(rows, row, i);
  }

  lemma PlaceBefore(rows: seq<Row>, k: Key, i: nat)
    requires i == Place(rows, k) && k !in RowKeys(rows)
    ensures i < |rows| ==> Less(k, rows[i].key)
  {
    assert i < |rows| ==> rows[i].key in RowKeys(rows);
  }

  lemma InsertedKeys(rows: seq<Row>, row: Row, i: nat)
    requires i <= |rows|
    ensures RowKeys(rows[..i] + [row] + rows[i..]) == RowKeys(rows) + {row.key}
  {
    KeysJoin(rows[..i] + [row], rows[i..]);
    KeysJoin(rows[..i], [row]);
    KeysJoin(rows[..i], rows[i..]);
    assert rows == rows[..i] + rows[i..];
    assert RowKeys([row]) == {[row][0].key};
  }

  lemma KeysJoin(a: seq<Row>, b: seq<Row>)
    ensures RowKeys(a + b) == RowKeys(a) + RowKeys(b)
  {
    forall i | 0 <= i < |b| ensures b[i].key in RowKeys(a + b) { assert (a + b)[|a| + i] == b[i]; }
    forall i | 0 <= i < |a| ensures a[i].key in RowKeys(a + b) { assert (a + b)[i] == a[i]; }
  }

  lemma SortedBetween(a: seq<Row>, row: Row, b: seq<Row>)
    requires Sorted(a) && Sorted(b)
    requires forall j :: 0 <= j < |a| ==> Less(a[j].key, row.key)
    requires b != [] ==> Less(row.key, b[0].key)
    ensures Sorted(a + [row] + b)
  {
    var out := a + [row] + b;
    forall i, j | 0 <= i < j < |out| ensures Less(out[i].key, out[j].key) {
      if i < |a| && j > |a| {
        assert Less(a[i].key, row.key) && !Less(b[j - |a| - 1].key, row.key);
      }
    }
  }

  /**
   * One row per key, sorted: for every Page 1 row and every allowed key with campaign or other spend, holding
   * exactly that spend and the Page 1 inputs.
   */
  ghost predicate IsMerge(rows: seq<Row>, p1: seq<Page1>, campaigns: seq<Campaign>, others: seq<OtherSpend>,
                          cells: seq<Cell>, allowed: Option<set<int>>)
    requires AllExact(campaigns) && OthersExact(others)
  {
    Sorted(rows) && AllRight(rows, campaigns, cells, others) &&
    (forall k :: k in RowKeys(rows) <==>
      HasPage1(p1, k) || (HasSpend(campaigns, cells, others, k) && Allowed(allowed, k))) &&
    (forall i :: 0 <= i < |rows| ==> rows[i].inputs == InputsOf(p1, rows[i].key))
  }

  method MergeSpendRows(p1: seq<Page1>, campaigns: seq<Campaign>, others: seq<OtherSpend>, cells: seq<Cell>,
                        allowed: Option<set<int>>)
      returns (rows: seq<Row>)
    requires AllExact(campaigns) && OthersExact(others)
    ensures IsMerge(rows, p1, campaigns, others, cells, allowed)
  {
    var campaignBy := ProrateCampaigns(campaigns, cells);
    var otherBy := OtherByKey(others);
    var keyed := Page1ByKey(p1);
    var todo := campaignBy.Keys + otherBy.Keys;
    ghost var spendKeys := todo;
    while todo != {}
      invariant todo <= spendKeys
      invariant forall k :: k in keyed ==> keyed[k] == InputsOf(p1, k)
      invariant forall k :: k in keyed <==> HasPage1(p1, k) || (k in spendKeys && k !in todo && Allowed(allowed, k))
      decreases todo
    {
      var k :| k in todo;
      todo := todo - {k};
      if !Allowed(allowed, k) || k in keyed { continue; }
      NoInputs(p1, k);
      keyed := keyed[k := []];
    }
    assert forall k :: k in spendKeys <==> HasSpend(campaigns, cells, others, k);
    rows := BuildRows(keyed, campaignBy, otherBy, campaigns, cells, others);
    assert forall i :: 0 <= i < |rows| ==> rows[i].key in RowKeys(rows);
  }

  /** The rows of a keyed map in key order. */
  method BuildRows(keyed: map<Key, seq<Option<Rat>>>, campaignBy: map<Key, Rat>, otherBy: map<Key, Rat>,
                   ghost campaigns: seq<Campaign>, ghost cells: seq<Cell>, ghost others: seq<OtherSpend>)
      returns (rows: seq<Row>)
    requires ExactMap(campaignBy) && ExactMap(otherBy) && AllExact(campaigns) && OthersExact(others)
    requires forall k :: Amount(campaignBy, k) == CampaignsTotal(campaigns, cells, {k})
    requires forall k :: Amount(otherBy, k) == OthersTotal(others, {k})
    ensures Sorted(rows) && RowKeys(rows) == keyed.Keys && AllRight(rows, campaigns, cells, others)
    ensures forall i :: 0 <= i < |rows| ==> rows[i].key in keyed && rows[i].inputs == keyed[rows[i].key]
  {
    rows := [];
    var left := keyed.Keys;
    while left != {}
      invariant left <= keyed.Keys
      invariant Sorted(rows) && RowKeys(rows) == keyed.Keys - left
      invariant forall r :: r in rows ==> RowIsRight(r, campaigns, cells, others)
      invariant forall r :: r in rows ==> r.key in keyed && r.inputs == keyed[r.key]
      decreases left
    {
      var k :| k in left;
      left := left - {k};
      var row := RowFor(k, keyed[k], campaignBy, otherBy);
      RowForIsRight(k, keyed[k], campaignBy, otherBy, campaigns, cells, others);
      InsertSorts(rows, row);
      rows := Insert(rows, row);
    }
  }

  lemma {:induction false} NoInputs(p1: seq<Page1>, k: Key)
    requires forall i :: 0 <= i < |p1| ==> p1[i].key != k
    ensures InputsOf(p1, k) == []
  {
    if p1 != [] { NoInputs(p1[..|p1| - 1], k); }
  }

  method Page1ByKey(p1: seq<Page1>) returns (out: map<Key, seq<Option<Rat>>>)
    ensures forall k :: k in out <==> exists i :: 0 <= i < |p1| && p1[i].key == k
    ensures forall k :: k in out ==> out[k] == InputsOf(p1, k)
  {
    out := map[];
    for i := 0 to |p1|
      invariant forall k :: k in out <==> exists p :: 0 <= p < i && p1[p].key == k
      invariant forall k :: k in out ==> out[k] == InputsOf(p1[..i], k)
    {
      assert p1[..i + 1][..i] == p1[..i];
      out := out[p1[i].key := p1[i].inputs];
    }
    assert p1[..|p1|] == p1;
  }

  // ---- conservation -----------------------------------------------------------------------------------------------

  function RowSpend(): Row -> real { (row: Row) => Worth(row.spend) }

  ghost predicate AllRight(rows: seq<Row>, campaigns: seq<Campaign>, cells: seq<Cell>, others: seq<OtherSpend>)
    requires AllExact(campaigns) && OthersExact(others)
  {
    forall i :: 0 <= i < |rows| ==> RowIsRight(rows[i], campaigns, cells, others)
  }

  ghost function SpendAt(campaigns: seq<Campaign>, cells: seq<Cell>, others: seq<OtherSpend>): Key -> real
    requires AllExact(campaigns) && OthersExact(others)
  {
    k => CampaignsTotal(campaigns, cells, {k}) + OthersTotal(others, {k})
  }

  function KeyOfRow(): Row -> Key { (row: Row) => row.key }

  /** Sorted rows have one key each: adding up the rows is adding up the keys. */
  lemma RowsAreKeys(rows: seq<Row>, f: Row -> real, g: Key -> real)
    requires Sorted(rows) && forall r :: r in rows ==> f(r) == g(r.key)
    ensures SumOf(rows, f) == Total(RowKeys(rows), g)
  {
    assert RowKeys(rows) == KeysOf(rows, KeyOfRow());
    SumOverKeys(rows, KeyOfRow(), f, g);
  }

  /** A campaign of the key's brand has a day dated in its month, which is one of the cells. */
  ghost predicate HasActiveDay(campaigns: seq<Campaign>, cells: seq<Cell>, k: Key) {
    HasCell(cells, k) &&
    exists i, n :: 0 <= i < |campaigns| && campaigns[i].brand == k.brand &&
      campaigns[i].start <= n <= campaigns[i].end && Dated(n, k.year, k.month)
  }

  lemma ContributesIs(c: Campaign, cell: Cell, k: Key)
    requires 1 <= cell.month <= 12
    ensures Contributes(c, cell, k) <==>
      cell == Cell(k.year, k.month) && c.brand == k.brand &&
      exists n :: c.start <= n <= c.end && Dated(n, k.year, k.month)
  {
    OverlapIsDated(c.start, c.end, cell);
    SomeDayDated(c.start, c.end, cell.year, cell.month);
  }

  /** The keys of a merge: those entered on Page 1, and of the brands filtered for, if any, those with an active day of
    * a campaign or with other spend. */
  lemma MergedKeys(rows: seq<Row>, p1: seq<Page1>, campaigns: seq<Campaign>, others: seq<OtherSpend>,
                   cells: seq<Cell>, allowed: Option<set<int>>, k: Key)
    requires AllExact(campaigns) && OthersExact(others) && ValidMonths(cells)
    requires IsMerge(rows, p1, campaigns, others, cells, allowed)
    ensures (exists r :: r in rows && r.key == k) <==>
      || (exists x :: x in p1 && x.key == k)
      || ((allowed == None || k.brand in allowed.value) &&
          (HasActiveDay(campaigns, cells, k) || exists x :: x in others && x.key == k))
  {
    forall i, j | 0 <= i < |campaigns| && 0 <= j < |cells|
      ensures Contributes(campaigns[i], cells[j], k) <==>
        cells[j] == Cell(k.year, k.month) && campaigns[i].brand == k.brand &&
        exists n :: campaigns[i].start <= n <= campaigns[i].end && Dated(n, k.year, k.month)
    {
      ContributesIs(campaigns[i], cells[j], k);
    }
    assert k in RowKeys(rows) <==> exists r :: r in rows && r.key == k by {
      forall r | r in rows ensures r.key in RowKeys(rows) { var i :| 0 <= i < |rows| && rows[i] == r; }
    }
    assert HasPage1(p1, k) <==> exists x :: x in p1 && x.key == k by {
      if x :| x in p1 && x.key == k { var i :| 0 <= i < |p1| && p1[i] == x; }
    }
    assert (exists i :: 0 <= i < |others| && others[i].key == k) <==> exists x :: x in others && x.key == k by {
      if x :| x in others && x.key == k { var i :| 0 <= i < |others| && others[i] == x; }
    }
  }

  /** Merged rows of calendar months run from month to month, and by brand within a month. */
  lemma RowsInOrder(rows: seq<Row>, i: nat, j: nat)
    requires Sorted(rows) && i < j < |rows|
    requires 1 <= rows[i].key.month <= 12 && 1 <= rows[j].key.month <= 12
    ensures var a, b := rows[i].key, rows[j].key;
      12 * a.year + a.month < 12 * b.year + b.month ||
      (a.year == b.year && a.month == b.month && a.brand < b.brand)
  {
    assert Less(rows[i].key, rows[j].key);
  }

  /**
   * The rows of any merge result spend exactly the campaign shares and the other amounts of their keys: nothing is
   * counted twice and nothing is lost.
   */
  lemma MergeConserves(rows: seq<Row>, campaigns: seq<Campaign>, cells: seq<Cell>, others: seq<OtherSpend>)
    requires AllExact(campaigns) && OthersExact(others) && AllRight(rows, campaigns, cells, others) && Sorted(rows)
    ensures SumOf(rows, RowSpend()) ==
      CampaignsTotal(campaigns, cells, RowKeys(rows)) + OthersTotal(others, RowKeys(rows))
  {
    var keys := RowKeys(rows);
    RowsAreKeys(rows, RowSpend(), SpendAt(campaigns, cells, others));
    TotalPlus(keys, CampaignsAt(campaigns, cells), OthersAt(others), SpendAt(campaigns, cells, others));
    KeysAddUp(campaigns, cells, keys);
    OtherKeysAddUp(others, keys);
  }

  ghost function FullSpend(campaigns: seq<Campaign>): real
    requires AllExact(campaigns)
  {
    if campaigns == [] then 0.0 else FullSpend(campaigns[..|campaigns| - 1]) + Value(campaigns[|campaigns| - 1].spend)
  }

  ghost function FullOther(others: seq<OtherSpend>): real
    requires OthersExact(others)
  {
    if others == [] then 0.0 else FullOther(others[..|others| - 1]) + Value(others[|others| - 1].amount)
  }

  /** The cells cover every day of every campaign, and every campaign ends on or after its start. */
  predicate CellsCover(campaigns: seq<Campaign>, cells: seq<Cell>) {
    forall i :: 0 <= i < |campaigns| ==>
      Duration(campaigns[i]) > 0 &&
      forall n :: campaigns[i].start <= n <= campaigns[i].end ==> Calendar.MonthHolding(n) in Months(cells)
  }

  lemma {:induction false} CoveredCampaigns(campaigns: seq<Campaign>, cells: seq<Cell>, keys: set<Key>)
    requires AllExact(campaigns) && DistinctMonths(cells) && CellsCover(campaigns, cells)
    requires forall i :: 0 <= i < |campaigns| ==> HoldsAll(campaigns[i], cells, keys)
    ensures CampaignsTotal(campaigns, cells, keys) == FullSpend(campaigns)
  {
    if campaigns != [] {
      var rest, last := campaigns[..|campaigns| - 1], campaigns[|campaigns| - 1];
      CoveredCampaigns(rest, cells, keys);
      SpendIsConserved(Value(last.spend), last, cells, keys);
    }
  }

  lemma {:induction false} AllOthers(others: seq<OtherSpend>, keys: set<Key>)
    requires OthersExact(others) && forall i :: 0 <= i < |others| ==> others[i].key in keys
    ensures OthersTotal(others, keys) == FullOther(others)
  {
    if others != [] { AllOthers(others[..|others| - 1], keys); }
  }

  /** Without a brand filter, over distinct months covering all campaigns, the rows hold all the money there is. */
  lemma MergeHoldsEverything(rows: seq<Row>, p1: seq<Page1>, campaigns: seq<Campaign>, others: seq<OtherSpend>,
                             cells: seq<Cell>)
    requires AllExact(campaigns) && OthersExact(others) && IsMerge(rows, p1, campaigns, others, cells, None)
    requires DistinctMonths(cells) && CellsCover(campaigns, cells)
    ensures SumOf(rows, RowSpend()) == FullSpend(campaigns) + FullOther(others)
  {
    forall i | 0 <= i < |campaigns| ensures HoldsAll(campaigns[i], cells, RowKeys(rows)) {
      forall j | 0 <= j < |cells| && OverlapDays(campaigns[i].start, campaigns[i].end, cells[j]) > 0
        ensures KeyOf(campaigns[i], cells[j]) in RowKeys(rows)
      {
        assert Contributes(campaigns[i], cells[j], KeyOf(campaigns[i], cells[j]));
        assert HasSpend(campaigns, cells, others, KeyOf(campaigns[i], cells[j]));
      }
    }
    forall i | 0 <= i < |others| ensures others[i].key in RowKeys(rows) {
      assert HasSpend(campaigns, cells, others, others[i].key);
    }
    MergeConserves(rows, campaigns, cells, others);
    CoveredCampaigns(campaigns, cells, RowKeys(rows));
    AllOthers(others, RowKeys(rows));
  }
}
