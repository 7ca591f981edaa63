/**
 * The daily DAG's `transform_data` task: a second, simpler cleaning chain
 * (critical nulls, numeric amounts, `amount > 0`, `amount <= 1,000,000`)
 * followed by a group-by on (bank_id, transaction_date) with the parsed
 * timestamp as the second key, and the share of rows kept as the quality
 * score of every output row.
 */
module DagTransform {
  import opened Wrappers
  import opened Rows
  import opened Numeric
  import opened Grouping
  import opened Ordering
  import Cleaning
  import Quality

  /** The largest amount the transform keeps. */
  const MaxAmount: real := 1000000.0

  /** Why the transform task raises. */
  datatype TransformError =
    | MissingColumn(column: Column)
    | UnparseableDate(column: Column)
    | EmptyInput

  /** The `dropna` subset, in its order. */
  const CriticalColumns: seq<Column> := [Amount, BankId, CustomerId]

  /** Every column the task indexes. */
  const TransformColumns: seq<Column> := [Amount, BankId, CustomerId, TransactionDate, CreatedAt, TransactionType]

  predicate HasCritical(t: Txn) {
    t.amount.Some? && t.bankId.Some? && t.customerId.Some?
  }

  predicate IsNumeric(t: Txn) {
    NumericAmount(t).Some?
  }

  predicate IsPositive(t: Txn) {
    NumericAmount(t).Some? && NumericAmount(t).value > 0.0
  }

  predicate WithinCap(t: Txn) {
    NumericAmount(t).Some? && NumericAmount(t).value <= MaxAmount
  }

  /** The rows whose dates get parsed: those left by the null, numeric and positivity filters. */
  function PositiveRows(s: Batch): Batch {
    FilterRows(IsPositive, FilterRows(IsNumeric, FilterRows(HasCritical, s)))
  }

  /** The rows left after the upper bound as well. */
  function CleanedRows(s: Batch): Batch {
    FilterRows(WithinCap, PositiveRows(s))
  }

  /** A row the transform keeps. */
  predicate Keeps(t: Txn) {
    HasCritical(t) && NumericAmount(t).Some? && 0.0 < NumericAmount(t).value <= MaxAmount
  }

  /** The chain keeps exactly the rows with all three critical fields and an amount in (0, 1,000,000], in input order. */
  lemma CleanedRowsExactly(s: Batch)
    ensures CleanedRows(s) == FilterRows(Keeps, s)
    ensures forall t :: t in CleanedRows(s) <==> t in s && Keeps(t)
    ensures |CleanedRows(s)| <= |s|
  {
    var n1 := t => HasCritical(t) && IsNumeric(t);
    var n2 := t => n1(t) && IsPositive(t);
    FilterRowsFuse(HasCritical, IsNumeric, n1, s);
    FilterRowsFuse(n1, IsPositive, n2, s);
    FilterRowsFuse(n2, WithinCap, Keeps, s);
  }

  /** Exactly 1,000,000 is kept; zero, a negative amount, anything above the cap and a non-numeric amount are not. */
  lemma CapBoundaries(t: Txn)
    requires HasCritical(t)
    ensures t.amount == Some(Num(MaxAmount)) ==> Keeps(t)
    ensures t.amount == Some(Num(1000000.01)) ==> !Keeps(t)
    ensures NumericAmount(t).Some? && NumericAmount(t).value <= 0.0 ==> !Keeps(t)
    ensures t.amount.value.AmountText? ==> !Keeps(t)
  {
  }

  // ---------------------------------------------------------------------------
  // The group-by

  /** The (bank_id, transaction_date) group of a row: the bank and the full parsed timestamp; NaT falls in no group. */
  datatype StampKey = StampKey(bankId: string, seconds: int)

  function StampKeyOf(t: Txn): Option<StampKey> {
    if t.bankId.Some? && ParsedStamp(t.transactionDate).Some?
    then Some(StampKey(t.bankId.value, ParsedStamp(t.transactionDate).value))
    else None
  }

  /** Groups are emitted by bank_id, then by timestamp. */
  function StampRank(k: StampKey): (string, int) {
    (k.bankId, k.seconds)
  }

  lemma StampRankInjective()
    ensures RankInjective(StampRank)
  {
  }

  /** One output row; `std` is not modelled. */
  datatype DagAggregate = DagAggregate(
    bankId: string,
    transactionDate: int,
    totalVolume: real,
    transactionCount: nat,
    avgTransactionValue: real,
    uniqueCustomers: nat,
    transactionTypeBreakdown: map<string, nat>,
    processedAt: int,
    dataQualityScore: real)

  /** The row of group `k`. */
  function AggregateGroup(s: Batch, k: StampKey, score: real, now: int): (a: DagAggregate)
    ensures a.bankId == k.bankId && a.transactionDate == k.seconds
  {
    var g := Group(StampKeyOf, s, k);
    var xs := AmountValues(g);
    DagAggregate(
      k.bankId, k.seconds,
      Sum(xs), |xs|, SafeDiv(Sum(xs), |xs| as real),
      |DistinctValues(CustomerIdOf, g)|,
      ValueCounts(TransactionTypeOf, g),
      now, score)
  }

  /** The rows of the groups `ks`, in that order. */
  function AggregateAll(s: Batch, ks: seq<StampKey>, score: real, now: int): (r: seq<DagAggregate>)
    ensures |r| == |ks|
    ensures forall i :: 0 <= i < |ks| ==> r[i] == AggregateGroup(s, ks[i], score, now)
  {
    seq(|ks|, i requires 0 <= i < |ks| => AggregateGroup(s, ks[i], score, now))
  }

  /** `pd.to_datetime` without `errors='coerce'` raises on a transaction_date it cannot parse. */
  predicate TransactionDateText(s: Batch) {
    exists t :: t in s && t.transactionDate.Some? && t.transactionDate.value.DateText?
  }

  /** The same for created_at. */
  predicate CreatedAtText(s: Batch) {
    exists t :: t in s && t.createdAt.Some? && t.createdAt.value.DateText?
  }

  /**
   * `transform_data` on the frame read from the raw file, with
   * `datetime.now()` passed in as `now`: the aggregated rows, or the error
   * raised, in the order the statements raise them.  The score divides by
   * the initial row count, so an empty input fails.
   */
  function TransformData(f: Frame, now: int): (r: Result<seq<DagAggregate>, TransformError>)
    ensures r.Ok? <==>
      && (forall c :: c in TransformColumns ==> c in f.columns)
      && !TransactionDateText(PositiveRows(f.rows))
      && !CreatedAtText(PositiveRows(f.rows))
      && |f.rows| > 0
    ensures r.Err? && r.error.MissingColumn? ==> r.error.column in TransformColumns && r.error.column !in f.columns
    ensures r.Err? && r.error.UnparseableDate? ==> r.error.column in f.columns
    ensures r.Ok? ==>
      r.value == AggregateAll(CleanedRows(f.rows), SortedKeys(StampKeyOf, StampRank, CleanedRows(f.rows)),
                              Quality.QualityScore(|f.rows|, |CleanedRows(f.rows)|), now)
  {
    var missing := Cleaning.MissingColumns(CriticalColumns, f.columns);
    var positive := PositiveRows(f.rows);
    assert missing != [] ==> missing[0] in missing;
    assert forall c :: c in TransformColumns <==> c in CriticalColumns || c in [TransactionDate, CreatedAt, TransactionType];
    if missing != [] then Err(MissingColumn(missing[0]))
    else if TransactionDate !in f.columns then Err(MissingColumn(TransactionDate))
    else if TransactionDateText(positive) then Err(UnparseableDate(TransactionDate))
    else if CreatedAt !in f.columns then Err(MissingColumn(CreatedAt))
    else if CreatedAtText(positive) then Err(UnparseableDate(CreatedAt))
    else if TransactionType !in f.columns then Err(MissingColumn(TransactionType))
    else if |f.rows| == 0 then Err(EmptyInput)
    else
      var cleaned := CleanedRows(f.rows);
      Ok(AggregateAll(cleaned, SortedKeys(StampKeyOf, StampRank, cleaned), Quality.QualityScore(|f.rows|, |cleaned|), now))
  }

  // ---------------------------------------------------------------------------
  // Properties of a successful transform

  /** The (bank, timestamp) of an output row. */
  function KeyOfAggregate(a: DagAggregate): StampKey {
    StampKey(a.bankId, a.transactionDate)
  }

  /** Output row `i` is the reduction of the `i`-th sorted group key of the cleaned rows. */
  lemma TransformDataKeys(f: Frame, now: int)
    requires TransformData(f, now).Ok?
    ensures var r := TransformData(f, now).value;
      && |r| == |SortedKeys(StampKeyOf, StampRank, CleanedRows(f.rows))|
      && forall i :: 0 <= i < |r| ==> KeyOfAggregate(r[i]) == SortedKeys(StampKeyOf, StampRank, CleanedRows(f.rows))[i]
  {
  }

  /** The (bank, timestamp) column of the output, in order. */
  function OutputKeys(r: seq<DagAggregate>): (ks: seq<StampKey>)
    ensures |ks| == |r| && forall i :: 0 <= i < |r| ==> ks[i] == KeyOfAggregate(r[i])
  {
    seq(|r|, i requires 0 <= i < |r| => KeyOfAggregate(r[i]))
  }

  /**
   * One output row per distinct (bank, timestamp) of the cleaned rows,
   * ascending by bank_id and then by timestamp: none fabricated, none lost,
   * none repeated.
   */
  lemma TransformKeys(f: Frame, now: int)
    requires TransformData(f, now).Ok?
    ensures var ks := OutputKeys(TransformData(f, now).value);
      && (forall i, j :: 0 <= i < j < |ks| ==> PairLess(StampRank(ks[i]), StampRank(ks[j])))
      && (forall i, j :: 0 <= i < j < |ks| ==> ks[i] != ks[j])
      && (forall k :: k in ks <==> exists t :: t in CleanedRows(f.rows) && StampKeyOf(t) == Some(k))
  {
    TransformDataKeys(f, now);
    StampRankInjective();
    SortedKeysFacts(StampKeyOf, StampRank, CleanedRows(f.rows));
    assert OutputKeys(TransformData(f, now).value) == SortedKeys(StampKeyOf, StampRank, CleanedRows(f.rows));
  }

  /** The `transaction_count` column, added up. */
  function SumCounts(r: seq<DagAggregate>): nat
    decreases |r|
  {
    if r == [] then 0 else SumCounts(r[..|r| - 1]) + r[|r| - 1].transactionCount
  }

  lemma {:induction false} SumCountsAll(s: Batch, ks: seq<StampKey>, score: real, now: int)
    ensures SumCounts(AggregateAll(s, ks, score, now)) == GroupCounts(StampKeyOf, s, ks)
    decreases |ks|
  {
    if ks != [] {
      var r := AggregateAll(s, ks, score, now);
      assert r[..|r| - 1] == AggregateAll(s, ks[..|ks| - 1], score, now);
      SumCountsAll(s, ks[..|ks| - 1], score, now);
      GroupCountOf(s, ks[|ks| - 1], score, now);
    }
  }

  lemma GroupCountOf(s: Batch, k: StampKey, score: real, now: int)
    ensures AggregateGroup(s, k, score, now).transactionCount == |AmountValues(Group(StampKeyOf, s, k))|
  {
  }

  /**
   * The counts add up to the cleaned rows with a parsed date, hence to all
   * cleaned rows when none has a null transaction_date.
   */
  lemma TransformCountsSum(f: Frame, now: int)
    requires TransformData(f, now).Ok?
    ensures SumCounts(TransformData(f, now).value) == KeyedCount(StampKeyOf, CleanedRows(f.rows))
    ensures (forall t :: t in CleanedRows(f.rows) ==> t.transactionDate.Some?) ==>
      SumCounts(TransformData(f, now).value) == |CleanedRows(f.rows)|
  {
    var cleaned := CleanedRows(f.rows);
    SumCountsAll(cleaned, SortedKeys(StampKeyOf, StampRank, cleaned), Quality.QualityScore(|f.rows|, |cleaned|), now);
    StampRankInjective();
    SortedKeysFacts(StampKeyOf, StampRank, cleaned);
    CleanedRowsKeyed(f.rows);
  }

  /** With parseable dates, a cleaned row that has a transaction_date has a group and a numeric amount. */
  lemma CleanedRowsKeyed(s: Batch)
    requires !TransactionDateText(PositiveRows(s))
    ensures (forall t :: t in CleanedRows(s) ==> t.transactionDate.Some?) ==>
      forall t :: t in CleanedRows(s) ==> StampKeyOf(t).Some? && NumericAmount(t).Some?
  {
    CleanedRowsExactly(s);
    forall t | t in CleanedRows(s) && t.transactionDate.Some? ensures StampKeyOf(t).Some? {
      assert t in PositiveRows(s);
    }
  }

  /** The amounts of a group of cleaned rows are all positive. */
  lemma GroupAmountsPositive(s: Batch, k: StampKey)
    requires forall t :: t in s ==> Keeps(t)
    ensures forall i :: 0 <= i < |AmountValues(Group(StampKeyOf, s, k))| ==> AmountValues(Group(StampKeyOf, s, k))[i] > 0.0
  {
    var xs := AmountValues(Group(StampKeyOf, s, k));
    forall i | 0 <= i < |xs| ensures xs[i] > 0.0 {
      assert xs[i] in xs;
    }
  }

  /** A group of cleaned rows: its count, volume and customers. */
  lemma GroupFacts(s: Batch, k: StampKey, score: real, now: int, t: Txn)
    requires forall u :: u in s ==> Keeps(u)
    requires t in s && StampKeyOf(t) == Some(k)
    ensures var a := AggregateGroup(s, k, score, now);
      && 1 <= a.transactionCount == |Group(StampKeyOf, s, k)|
      && a.totalVolume > 0.0
      && a.uniqueCustomers <= a.transactionCount
  {
    var g := Group(StampKeyOf, s, k);
    var xs := AmountValues(g);
    assert t in g;
    assert forall u :: u in g ==> NumericAmount(u).Some?;
    GroupAmountsPositive(s, k);
    SumPositive(xs);
    DistinctValuesBound(CustomerIdOf, g);
  }

  /** Every output row is the reduction of a non-empty group of the cleaned rows. */
  lemma TransformRowIsGroup(f: Frame, now: int, a: DagAggregate)
    requires TransformData(f, now).Ok? && a in TransformData(f, now).value
    ensures exists t :: t in CleanedRows(f.rows) && StampKeyOf(t) == Some(KeyOfAggregate(a))
    ensures a == AggregateGroup(CleanedRows(f.rows), KeyOfAggregate(a), Quality.QualityScore(|f.rows|, |CleanedRows(f.rows)|), now)
  {
    var r := TransformData(f, now).value;
    var ks := SortedKeys(StampKeyOf, StampRank, CleanedRows(f.rows));
    TransformDataKeys(f, now);
    var i :| 0 <= i < |r| && r[i] == a;
    assert ks[i] in ks;
  }

  /**
   * Every output row counts at least one transaction, has a positive
   * volume, no more customers than transactions, and carries the run's
   * score, the kept share of the input, a percentage above 0.
   */
  lemma TransformRow(f: Frame, now: int, a: DagAggregate)
    requires TransformData(f, now).Ok? && a in TransformData(f, now).value
    ensures 1 <= a.transactionCount && a.totalVolume > 0.0 && a.uniqueCustomers <= a.transactionCount
    ensures a.dataQualityScore == Quality.QualityScore(|f.rows|, |CleanedRows(f.rows)|)
    ensures 0.0 < a.dataQualityScore <= 100.0
  {
    var cleaned := CleanedRows(f.rows);
    var score := Quality.QualityScore(|f.rows|, |cleaned|);
    TransformRowIsGroup(f, now, a);
    var t :| t in cleaned && StampKeyOf(t) == Some(KeyOfAggregate(a));
    CleanedRowsExactly(f.rows);
    GroupFacts(cleaned, KeyOfAggregate(a), score, now, t);
    ScorePositive(|f.rows|, |cleaned|);
  }

  /** Keeping at least one row of a non-empty input scores above 0. */
  lemma ScorePositive(total: nat, kept: nat)
    requires 0 < kept <= total
    ensures 0.0 < Quality.QualityScore(total, kept) <= 100.0
  {
    var score := Quality.QualityScore(total, kept);
    assert score * total as real == kept as real * 100.0;
  }
}
