/**
 * The daily DAG's `load_to_mysql` and `data_quality_check` tasks.  The
 * aggregate table has `UNIQUE KEY (bank_id, transaction_date)` over a DATE
 * column and rows are written with `INSERT IGNORE`: a row whose key is
 * already present is dropped, so the first row written for a key is kept.
 */
module DagLoad {
  import opened Wrappers
  import opened Rows
  import opened DagTransform
  import opened Ordering

  /** The table's unique key; storing a timestamp in the DATE column keeps its day. */
  datatype TableKey = TableKey(bankId: string, day: int)

  function KeyOfRow(a: DagAggregate): TableKey {
    TableKey(a.bankId, Day(a.transactionDate))
  }

  /** The table's rows by unique key. */
  type Table = map<TableKey, DagAggregate>

  /** One `INSERT IGNORE`. */
  function InsertIgnore(t: Table, a: DagAggregate): (r: Table)
    ensures r.Keys == t.Keys + {KeyOfRow(a)}
    ensures forall k :: k in t ==> r[k] == t[k]
    ensures KeyOfRow(a) !in t ==> r[KeyOfRow(a)] == a
  {
    if KeyOfRow(a) in t then t else t[KeyOfRow(a) := a]
  }

  /** An insert whose key is present leaves the table as it was. */
  lemma InsertExistingKey(t: Table, a: DagAggregate)
    requires KeyOfRow(a) in t
    ensures InsertIgnore(t, a) == t
  {
    var r := InsertIgnore(t, a);
    assert r.Keys == t.Keys;
  }

  /** The keys of a batch. */
  function BatchKeys(b: seq<DagAggregate>): set<TableKey> {
    set a | a in b :: KeyOfRow(a)
  }

  lemma BatchKeysSnoc(p: seq<DagAggregate>, x: DagAggregate)
    ensures BatchKeys(p + [x]) == BatchKeys(p) + {KeyOfRow(x)}
  {
    assert forall a :: a in p + [x] <==> a in p || a == x;
  }

  /** The rows inserted one by one, in batch order. */
  function LoadAll(t: Table, b: seq<DagAggregate>): (r: Table)
    ensures r.Keys == t.Keys + BatchKeys(b)
    ensures forall k :: k in t ==> r[k] == t[k]
    decreases |b|
  {
    if b == [] then t
    else
      var p := b[..|b| - 1];
      var x := b[|b| - 1];
      assert b == p + [x];
      BatchKeysSnoc(p, x);
      InsertIgnore(LoadAll(t, p), x)
  }

  lemma LoadAllSnoc(t: Table, p: seq<DagAggregate>, x: DagAggregate)
    ensures LoadAll(t, p + [x]) == InsertIgnore(LoadAll(t, p), x)
  {
    var b := p + [x];
    assert b[..|b| - 1] == p && b[|b| - 1] == x;
  }

  /** First write wins: a new key holds the first row of the batch with that key. */
  lemma {:induction false} LoadFirstWins(t: Table, b: seq<DagAggregate>, i: nat)
    requires i < |b| && KeyOfRow(b[i]) !in t
    requires forall j :: 0 <= j < i ==> KeyOfRow(b[j]) != KeyOfRow(b[i])
    ensures LoadAll(t, b)[KeyOfRow(b[i])] == b[i]
    decreases |b|
  {
    var p := b[..|b| - 1];
    var x := b[|b| - 1];
    assert b == p + [x];
    LoadAllSnoc(t, p, x);
    if i < |p| {
      assert p[i] == b[i];
      assert forall j :: 0 <= j < i ==> p[j] == b[j];
      LoadFirstWins(t, p, i);
    } else {
      NewKeyOfLast(p, x);
    }
  }

  /** A row whose key no earlier row has brings a key the earlier rows do not. */
  lemma NewKeyOfLast(p: seq<DagAggregate>, x: DagAggregate)
    requires forall j :: 0 <= j < |p| ==> KeyOfRow((p + [x])[j]) != KeyOfRow(x)
    ensures KeyOfRow(x) !in BatchKeys(p)
  {
    forall a | a in p
      ensures KeyOfRow(a) != KeyOfRow(x)
    {
      var j :| 0 <= j < |p| && p[j] == a;
      assert (p + [x])[j] == a;
    }
  }

  /** A batch whose keys are all present changes nothing. */
  lemma {:induction false} LoadCovered(t: Table, b: seq<DagAggregate>)
    requires BatchKeys(b) <= t.Keys
    ensures LoadAll(t, b) == t
    decreases |b|
  {
    if b != [] {
      var p := b[..|b| - 1];
      var x := b[|b| - 1];
      assert b == p + [x];
      BatchKeysSnoc(p, x);
      LoadAllSnoc(t, p, x);
      LoadCovered(t, p);
      InsertExistingKey(t, x);
    }
  }

  /** Re-running a load with the same rows leaves the table as the first run left it. */
  lemma LoadIdempotent(t: Table, b: seq<DagAggregate>)
    ensures LoadAll(LoadAll(t, b), b) == LoadAll(t, b)
  {
    LoadCovered(LoadAll(t, b), b);
  }

  /** The table grows by exactly the number of the batch's keys not yet present. */
  lemma LoadSize(t: Table, b: seq<DagAggregate>)
    ensures |LoadAll(t, b).Keys| == |t.Keys| + |BatchKeys(b) - t.Keys|
  {
    var added := BatchKeys(b) - t.Keys;
    assert LoadAll(t, b).Keys == t.Keys + added;
    assert t.Keys * added == {};
  }

  /**
   * The transform groups by the full timestamp while the table keys by its
   * day: two groups of one bank on one day at different times collide, and
   * only the first is stored.
   */
  lemma SameDayGroupsCollide(a1: DagAggregate, a2: DagAggregate)
    requires a1.bankId == a2.bankId && Day(a1.transactionDate) == Day(a2.transactionDate)
    ensures LoadAll(map[], [a1, a2]) == map[KeyOfRow(a1) := a1]
  {
    var t1 := LoadAll(map[], [a1]);
    assert [a1] == [] + [a1];
    LoadAllSnoc(map[], [], a1);
    assert t1 == map[KeyOfRow(a1) := a1];
    assert [a1, a2] == [a1] + [a2];
    LoadAllSnoc(map[], [a1], a2);
    InsertExistingKey(t1, a2);
  }

  /** The first row of a batch with key `k`. */
  lemma FirstWithKey(b: seq<DagAggregate>, k: TableKey) returns (i: nat)
    requires exists j :: 0 <= j < |b| && KeyOfRow(b[j]) == k
    ensures i < |b| && KeyOfRow(b[i]) == k
    ensures forall j :: 0 <= j < i ==> KeyOfRow(b[j]) != k
  {
    i := 0;
    while KeyOfRow(b[i]) != k
      invariant i < |b|
      invariant forall j :: 0 <= j < i ==> KeyOfRow(b[j]) != k
      invariant exists j :: i <= j < |b| && KeyOfRow(b[j]) == k
      decreases |b| - i
    {
      i := i + 1;
    }
  }

  /** Rows ascending by bank_id and then by timestamp. */
  ghost predicate StampSorted(r: seq<DagAggregate>) {
    forall i, j :: 0 <= i < j < |r| ==> PairLess(StampRank(KeyOfAggregate(r[i])), StampRank(KeyOfAggregate(r[j])))
  }

  lemma EarlierSameBank(x: DagAggregate, b: DagAggregate)
    requires PairLess(StampRank(KeyOfAggregate(x)), StampRank(KeyOfAggregate(b)))
    requires x.bankId == b.bankId
    ensures x.transactionDate < b.transactionDate
  {
    StrLessIrreflexive(b.bankId);
  }

  /** Loading a sorted batch stores, for a new key, its earliest row. */
  lemma SortedLoadKeepsEarliest(t: Table, r: seq<DagAggregate>, a: DagAggregate)
    requires StampSorted(r) && a in r && KeyOfRow(a) !in t
    ensures var stored := LoadAll(t, r)[KeyOfRow(a)];
      && stored in r && KeyOfRow(stored) == KeyOfRow(a)
      && forall b :: b in r && KeyOfRow(b) == KeyOfRow(a) ==> stored.transactionDate <= b.transactionDate
  {
    var k := KeyOfRow(a);
    var ja :| 0 <= ja < |r| && r[ja] == a;
    var i := FirstWithKey(r, k);
    LoadFirstWins(t, r, i);
    var x := r[i];
    forall b | b in r && KeyOfRow(b) == k
      ensures x.transactionDate <= b.transactionDate
    {
      var j :| 0 <= j < |r| && r[j] == b;
      if i < j {
        EarlierSameBank(x, b);
      }
    }
  }

  /**
   * Loading a transformed batch into a table without the row's (bank, day)
   * stores, for that key, the batch's row with the earliest timestamp: the
   * transform emits a bank's groups in ascending timestamp order and the
   * first write wins.
   */
  lemma LoadKeepsEarliest(t: Table, f: Frame, now: int, a: DagAggregate)
    requires TransformData(f, now).Ok? && a in TransformData(f, now).value
    requires KeyOfRow(a) !in t
    ensures var r := TransformData(f, now).value;
      var stored := LoadAll(t, r)[KeyOfRow(a)];
      && stored in r && KeyOfRow(stored) == KeyOfRow(a)
      && forall b :: b in r && KeyOfRow(b) == KeyOfRow(a) ==> stored.transactionDate <= b.transactionDate
  {
    var r := TransformData(f, now).value;
    TransformKeys(f, now);
    assert StampSorted(r) by {
      var ks := OutputKeys(r);
      forall i, j | 0 <= i < j < |r|
        ensures PairLess(StampRank(KeyOfAggregate(r[i])), StampRank(KeyOfAggregate(r[j])))
      {
        assert ks[i] == KeyOfAggregate(r[i]) && ks[j] == KeyOfAggregate(r[j]);
      }
    }
    SortedLoadKeepsEarliest(t, r, a);
  }

  /** The aggregate table as the load finds and leaves it. */
  class AggregateTable {
    var rows: Table

    /** `CREATE TABLE IF NOT EXISTS`: the table as earlier runs left it. */
    constructor(existing: Table)
      ensures rows == existing
    {
      rows := existing;
    }

    /** One `INSERT IGNORE` statement. */
    method Insert(a: DagAggregate)
      modifies this
      ensures rows == InsertIgnore(old(rows), a)
    {
      if KeyOfRow(a) !in rows {
        rows := rows[KeyOfRow(a) := a];
      }
    }

    /** `load_to_mysql`: one insert per row of the transformed batch, in order. */
    method Load(batch: seq<DagAggregate>)
      modifies this
      ensures rows == LoadAll(old(rows), batch)
    {
      for i := 0 to |batch|
        invariant rows == LoadAll(old(rows), batch[..i])
      {
        assert batch[..i + 1] == batch[..i] + [batch[i]];
        LoadAllSnoc(old(rows), batch[..i], batch[i]);
        Insert(batch[i]);
      }
      assert batch[..|batch|] == batch;
    }
  }

  // ---------------------------------------------------------------------------
  // data_quality_check

  /** `SELECT COUNT(*) ... WHERE transaction_date = day`. */
  function RecordCount(t: Table, day: int): (n: nat)
    ensures n == 0 <==> forall k :: k in t ==> k.day != day
  {
    var keys := set k | k in t.Keys && k.day == day;
    assert forall k :: k in t && k.day == day ==> k in keys;
    assert keys != {} ==> exists k :: k in keys;
    |keys|
  }

  datatype CheckError = NoRecords(day: int)

  /** A passed check: the count, the average score, and whether the low-quality warning is logged. */
  datatype CheckOutcome = CheckOutcome(recordCount: nat, averageQuality: real, lowQualityWarning: bool)

  /** The warning threshold on the average score. */
  const QualityWarningThreshold: real := 80.0

  /**
   * `data_quality_check` for the execution day, with the average score the
   * second query returns given as `averageQuality`: it fails exactly when
   * no row has that day; a low average only sets the warning.
   */
  function DataQualityCheck(t: Table, day: int, averageQuality: real): (r: Result<CheckOutcome, CheckError>)
    ensures r.Err? <==> forall k :: k in t ==> k.day != day
    ensures r.Err? ==> r.error == NoRecords(day)
    ensures r.Ok? ==> r.value.recordCount > 0 && (r.value.lowQualityWarning <==> averageQuality < QualityWarningThreshold)
  {
    var n := RecordCount(t, day);
    if n == 0 then Err(NoRecords(day))
    else Ok(CheckOutcome(n, averageQuality, averageQuality < QualityWarningThreshold))
  }

  /** After loading a batch with a row for `day`, the check for that day passes whatever the average. */
  lemma LoadedDayPasses(t: Table, b: seq<DagAggregate>, day: int, averageQuality: real)
    requires exists a :: a in b && Day(a.transactionDate) == day
    ensures DataQualityCheck(LoadAll(t, b), day, averageQuality).Ok?
  {
    var a :| a in b && Day(a.transactionDate) == day;
    assert KeyOfRow(a) in BatchKeys(b);
  }
}
