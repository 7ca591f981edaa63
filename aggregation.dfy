/**
 * `aggregate_daily_transactions`: one row per (bank, calendar day) with the
 * amount statistics, distinct customers and transaction ids, the optional
 * per-type breakdown, the per-customer ratios and the stored quality score.
 */
module Aggregation {
  import opened Wrappers
  import opened Rows
  import opened Numeric
  import opened Grouping
  import opened Ordering
  import Cleaning

  /** The (bank_id, transaction_date.dt.date) group of a row. */
  datatype DayKey = DayKey(bankId: string, day: int)

  /** A row with a null bank or a NaT date falls in no group. */
  function DayKeyOf(t: Txn): Option<DayKey> {
    if t.bankId.Some? && ParsedStamp(t.transactionDate).Some?
    then Some(DayKey(t.bankId.value, Day(ParsedStamp(t.transactionDate).value)))
    else None
  }

  /** Groups are emitted by bank_id, then by day. */
  function DayRank(k: DayKey): (string, int) {
    (k.bankId, k.day)
  }

  lemma DayRankInjective()
    ensures RankInjective(DayRank)
  {
  }

  /** One output row.  `std` and `median` are not modelled. */
  datatype DailyAggregate = DailyAggregate(
    bankId: string,
    transactionDate: int,
    totalVolume: real,
    transactionCount: nat,
    avgTransactionValue: real,
    minTransactionValue: real,
    maxTransactionValue: real,
    uniqueCustomers: nat,
    uniqueTransactionIds: nat,
    transactionTypeBreakdown: Option<map<string, nat>>,
    avgTransactionsPerCustomer: real,
    avgValuePerCustomer: real,
    processedAt: int,
    dataQualityScore: real)

  /**
   * The row of group `k`: NaN results (the mean, minimum and maximum of a
   * group without numeric amounts) and infinite ratios become 0 (`fillna(0)`).
   */
  function AggregateGroup(withBreakdown: bool, s: Batch, k: DayKey, score: real, now: int): (a: DailyAggregate)
    ensures a.bankId == k.bankId && a.transactionDate == k.day
  {
    var g := Group(DayKeyOf, s, k);
    var xs := AmountValues(g);
    var total := Sum(xs);
    var n := |xs|;
    var customers := |DistinctValues(CustomerIdOf, g)|;
    DailyAggregate(
      k.bankId, k.day,
      total, n, SafeDiv(total, n as real),
      if xs == [] then 0.0 else MinOf(xs),
      if xs == [] then 0.0 else MaxOf(xs),
      customers, |DistinctValues(TransactionIdOf, g)|,
      if withBreakdown then Some(ValueCounts(TransactionTypeOf, g)) else None,
      PerCustomer(n as real, customers), PerCustomer(total, customers),
      now, score)
  }

  /** The amount statistics of a group: minimum and maximum bracket every amount. */
  lemma GroupAmountBounds(withBreakdown: bool, s: Batch, k: DayKey, score: real, now: int)
    ensures var a := AggregateGroup(withBreakdown, s, k, score, now);
      && a.transactionCount == |AmountValues(Group(DayKeyOf, s, k))|
      && a.totalVolume == Sum(AmountValues(Group(DayKeyOf, s, k)))
      && a.minTransactionValue <= a.maxTransactionValue
      && (a.transactionCount == 0 ==> a.totalVolume == 0.0 && a.minTransactionValue == 0.0 == a.maxTransactionValue)
      && (forall t :: t in s && DayKeyOf(t) == Some(k) && NumericAmount(t).Some? ==>
            a.minTransactionValue <= NumericAmount(t).value <= a.maxTransactionValue)
  {
    var a := AggregateGroup(withBreakdown, s, k, score, now);
    var xs := AmountValues(Group(DayKeyOf, s, k));
    if xs != [] {
      var lo := MinOf(xs);
      var hi := MaxOf(xs);
      assert a.minTransactionValue == lo && a.maxTransactionValue == hi;
      assert lo <= xs[0] <= hi;
      forall t | t in s && DayKeyOf(t) == Some(k) && NumericAmount(t).Some?
        ensures lo <= NumericAmount(t).value <= hi
      {
        assert NumericAmount(t).value in xs;
      }
    }
  }

  /** The mean is the total over the count, or 0 for a group without numeric amounts. */
  lemma GroupMean(withBreakdown: bool, s: Batch, k: DayKey, score: real, now: int)
    ensures var a := AggregateGroup(withBreakdown, s, k, score, now);
      a.avgTransactionValue == SafeDiv(a.totalVolume, a.transactionCount as real)
  {
  }

  /** A group has no more distinct customers or transaction ids than rows, hence than its count when every amount is numeric. */
  lemma GroupDistinctBounds(withBreakdown: bool, s: Batch, k: DayKey, score: real, now: int)
    ensures var a := AggregateGroup(withBreakdown, s, k, score, now);
      && a.uniqueCustomers <= |Group(DayKeyOf, s, k)|
      && a.uniqueTransactionIds <= |Group(DayKeyOf, s, k)|
      && ((forall t :: t in s && DayKeyOf(t) == Some(k) ==> NumericAmount(t).Some?) ==>
            a.uniqueCustomers <= a.transactionCount && a.uniqueTransactionIds <= a.transactionCount)
  {
    var a := AggregateGroup(withBreakdown, s, k, score, now);
    var g := Group(DayKeyOf, s, k);
    assert a.uniqueCustomers == |DistinctValues(CustomerIdOf, g)|;
    assert a.uniqueTransactionIds == |DistinctValues(TransactionIdOf, g)|;
    assert a.transactionCount == |AmountValues(g)|;
    DistinctValuesBound(CustomerIdOf, g);
    DistinctValuesBound(TransactionIdOf, g);
  }

  /** A per-customer ratio: `x / unique_customers`, with the infinite ratio of a group without customers replaced by 0. */
  function PerCustomer(x: real, customers: nat): (p: real)
    ensures customers > 0 ==> p * customers as real == x
    ensures customers == 0 ==> p == 0.0
  {
    SafeDiv(x, customers as real)
  }

  /** The per-customer ratios times the customer count give the count and the total. */
  lemma GroupPerCustomer(withBreakdown: bool, s: Batch, k: DayKey, score: real, now: int)
    ensures var a := AggregateGroup(withBreakdown, s, k, score, now);
      a.uniqueCustomers > 0 ==>
        && a.avgTransactionsPerCustomer * a.uniqueCustomers as real == a.transactionCount as real
        && a.avgValuePerCustomer * a.uniqueCustomers as real == a.totalVolume
  {
    RowPerCustomer(AggregateGroup(withBreakdown, s, k, score, now));
  }

  lemma RowPerCustomer(a: DailyAggregate)
    requires a.avgTransactionsPerCustomer == PerCustomer(a.transactionCount as real, a.uniqueCustomers)
    requires a.avgValuePerCustomer == PerCustomer(a.totalVolume, a.uniqueCustomers)
    ensures a.uniqueCustomers > 0 ==>
      && a.avgTransactionsPerCustomer * a.uniqueCustomers as real == a.transactionCount as real
      && a.avgValuePerCustomer * a.uniqueCustomers as real == a.totalVolume
  {
  }

  /** The breakdown is present exactly when asked for, names each type occurring in the group, and counts at least one row for each. */
  lemma GroupBreakdownFacts(withBreakdown: bool, s: Batch, k: DayKey, score: real, now: int)
    ensures var a := AggregateGroup(withBreakdown, s, k, score, now);
      && (a.transactionTypeBreakdown.Some? <==> withBreakdown)
      && (withBreakdown ==> forall ty :: ty in a.transactionTypeBreakdown.value <==>
            exists t :: t in s && DayKeyOf(t) == Some(k) && t.transactionType == Some(ty))
      && (withBreakdown ==> forall ty :: ty in a.transactionTypeBreakdown.value ==>
            1 <= a.transactionTypeBreakdown.value[ty] <= |Group(DayKeyOf, s, k)|)
  {
    var g := Group(DayKeyOf, s, k);
    forall ty | exists t :: t in g && t.transactionType == Some(ty)
      ensures ty in DistinctValues(TransactionTypeOf, g)
    {
      var t :| t in g && t.transactionType == Some(ty);
      assert TransactionTypeOf(t).value == ty;
    }
  }

  /** The rows of the groups `ks`, in that order. */
  function AggregateAll(withBreakdown: bool, s: Batch, ks: seq<DayKey>, score: real, now: int): (r: seq<DailyAggregate>)
    ensures |r| == |ks|
    ensures forall i :: 0 <= i < |ks| ==> r[i] == AggregateGroup(withBreakdown, s, ks[i], score, now)
  {
    seq(|ks|, i requires 0 <= i < |ks| => AggregateGroup(withBreakdown, s, ks[i], score, now))
  }

  /** The `transaction_count` column, added up. */
  function SumCounts(r: seq<DailyAggregate>): nat
    decreases |r|
  {
    if r == [] then 0 else SumCounts(r[..|r| - 1]) + r[|r| - 1].transactionCount
  }

  lemma SumCountsAll(withBreakdown: bool, s: Batch, ks: seq<DayKey>, score: real, now: int)
    ensures SumCounts(AggregateAll(withBreakdown, s, ks, score, now)) == GroupCounts(DayKeyOf, s, ks)
  {
    var r := AggregateAll(withBreakdown, s, ks, score, now);
    forall i | 0 <= i < |r| ensures r[i].transactionCount == |AmountValues(Group(DayKeyOf, s, ks[i]))| {
      GroupAmountBounds(withBreakdown, s, ks[i], score, now);
    }
    SumCountsOf(r, s, ks);
  }

  /** Rows whose counts are the groups' counts add up to the groups' counts. */
  lemma {:induction false} SumCountsOf(r: seq<DailyAggregate>, s: Batch, ks: seq<DayKey>)
    requires |r| == |ks|
    requires forall i :: 0 <= i < |r| ==> r[i].transactionCount == |AmountValues(Group(DayKeyOf, s, ks[i]))|
    ensures SumCounts(r) == GroupCounts(DayKeyOf, s, ks)
    decreases |ks|
  {
    if ks != [] {
      SumCountsOf(r[..|r| - 1], s, ks[..|ks| - 1]);
    }
  }

  // ---------------------------------------------------------------------------
  // The whole aggregation, its errors, and the column-count mismatch

  datatype AggError =
    | MissingColumn(column: Column)
    | UnparseableDate
    | NonNumericAmount
    | ColumnCountMismatch(produced: nat, named: nat)

  /** The columns `groupby` and the aggregation dictionary index, in the order they are looked up. */
  const AggregatedColumns: seq<Column> := [BankId, TransactionDate, Amount, CustomerId, TransactionId]

  /** `pd.to_datetime` without `errors='coerce'` raises on a date cell it cannot parse. */
  predicate HasUnparseableDate(s: Batch) {
    exists t :: t in s && t.transactionDate.Some? && t.transactionDate.value.DateText?
  }

  /**
   * A text cell leaves the amount column with `object` dtype, on which the
   * group-wise `sum`, `mean`, `std` and `median` raise `TypeError`.
   */
  predicate HasTextAmount(s: Batch) {
    exists t :: t in s && t.amount.Some? && t.amount.value.AmountText?
  }

  /** The columns the flattened frame has: the seven amount statistics, two `nunique`s and, with a type column, the type lambda. */
  function AggregatedColumnCount(cols: set<Column>): nat {
    7 + 2 + if TransactionType in cols then 1 else 0
  }

  /** The number of names assigned to the flattened columns. */
  const FlattenedNames: nat := 9

  /**
   * The aggregation as written: the nine names are assigned to the flattened
   * columns before the breakdown is added, which fails whenever the
   * transaction_type column was aggregated too.
   */
  function AggregateDailyAsWritten(f: Frame, score: real, now: int): (r: Result<seq<DailyAggregate>, AggError>)
    ensures r.Ok? ==> TransactionType !in f.columns
    ensures r.Err? && r.error.ColumnCountMismatch? ==>
      r.error.produced == AggregatedColumnCount(f.columns) && r.error.produced != r.error.named
  {
    var missing := Cleaning.MissingColumns(AggregatedColumns, f.columns);
    if TransactionDate in f.columns && HasUnparseableDate(f.rows) then Err(UnparseableDate)
    else if missing != [] then Err(MissingColumn(missing[0]))
    else if HasTextAmount(f.rows) then Err(NonNumericAmount)
    else if AggregatedColumnCount(f.columns) != FlattenedNames then
      Err(ColumnCountMismatch(AggregatedColumnCount(f.columns), FlattenedNames))
    else Ok(AggregateAll(false, f.rows, SortedKeys(DayKeyOf, DayRank, f.rows), score, now))
  }

  /**
   * `aggregate_daily_transactions` as evidently intended: the breakdown is a
   * tenth column, present exactly when the frame has a transaction_type column.
   */
  function AggregateDaily(f: Frame, score: real, now: int): (r: Result<seq<DailyAggregate>, AggError>)
    ensures r.Err? <==>
      (TransactionDate in f.columns && HasUnparseableDate(f.rows))
      || (exists c :: c in AggregatedColumns && c !in f.columns)
      || HasTextAmount(f.rows)
    ensures r.Err? && r.error.MissingColumn? ==> r.error.column in AggregatedColumns && r.error.column !in f.columns
    ensures r.Err? ==> !r.error.ColumnCountMismatch?
    ensures r.Ok? ==> r.value == AggregateAll(TransactionType in f.columns, f.rows, SortedKeys(DayKeyOf, DayRank, f.rows), score, now)
  {
    var missing := Cleaning.MissingColumns(AggregatedColumns, f.columns);
    assert missing != [] ==> missing[0] in missing;
    if TransactionDate in f.columns && HasUnparseableDate(f.rows) then Err(UnparseableDate)
    else if missing != [] then Err(MissingColumn(missing[0]))
    else if HasTextAmount(f.rows) then Err(NonNumericAmount)
    else Ok(AggregateAll(TransactionType in f.columns, f.rows, SortedKeys(DayKeyOf, DayRank, f.rows), score, now))
  }

  /** The (bank, day) of an output row. */
  function KeyOfRow(a: DailyAggregate): DayKey {
    DayKey(a.bankId, a.transactionDate)
  }

  /** The groups the rows of `s` fall in. */
  function PresentKeys(s: Batch): set<DayKey> {
    set t | t in s && DayKeyOf(t).Some? :: DayKeyOf(t).value
  }

  /** Output row `i` is the reduction of the `i`-th sorted group key. */
  lemma AggregateDailyKeys(f: Frame, score: real, now: int)
    requires AggregateDaily(f, score, now).Ok?
    ensures var r := AggregateDaily(f, score, now).value;
      && |r| == |SortedKeys(DayKeyOf, DayRank, f.rows)|
      && forall i :: 0 <= i < |r| ==> KeyOfRow(r[i]) == SortedKeys(DayKeyOf, DayRank, f.rows)[i]
  {
  }

  /** The output rows ascend by bank_id and then by day, so no two share a (bank, day). */
  lemma AggregateDailyDistinct(f: Frame, score: real, now: int)
    requires AggregateDaily(f, score, now).Ok?
    ensures var r := AggregateDaily(f, score, now).value;
      && (forall i, j :: 0 <= i < j < |r| ==> PairLess(DayRank(KeyOfRow(r[i])), DayRank(KeyOfRow(r[j]))))
      && (forall i, j :: 0 <= i < j < |r| ==> KeyOfRow(r[i]) != KeyOfRow(r[j]))
  {
    AggregateDailyKeys(f, score, now);
    DayRankInjective();
    SortedKeysFacts(DayKeyOf, DayRank, f.rows);
  }

  /** The output rows' (bank, day) pairs are exactly those occurring in the input: no group is fabricated or lost. */
  lemma AggregateDailyCovers(f: Frame, score: real, now: int)
    requires AggregateDaily(f, score, now).Ok?
    ensures (set a | a in AggregateDaily(f, score, now).value :: KeyOfRow(a)) == PresentKeys(f.rows)
  {
    var ks := SortedKeys(DayKeyOf, DayRank, f.rows);
    AggregateDailyKeys(f, score, now);
    forall k ensures k in ks <==> k in PresentKeys(f.rows) {
      if k in PresentKeys(f.rows) {
        var t :| t in f.rows && DayKeyOf(t).Some? && DayKeyOf(t).value == k;
      }
    }
    RowKeysCover(AggregateDaily(f, score, now).value, ks, PresentKeys(f.rows));
  }

  /** Rows whose keys are, position by position, a sequence holding exactly the keys of `present` cover `present`. */
  lemma RowKeysCover(r: seq<DailyAggregate>, ks: seq<DayKey>, present: set<DayKey>)
    requires |r| == |ks| && forall i :: 0 <= i < |r| ==> KeyOfRow(r[i]) == ks[i]
    requires forall k :: k in ks <==> k in present
    ensures (set a | a in r :: KeyOfRow(a)) == present
  {
    var rk := set a | a in r :: KeyOfRow(a);
    forall k | k in present ensures k in rk {
      var i :| 0 <= i < |ks| && ks[i] == k;
      assert r[i] in r;
    }
    forall k | k in rk ensures k in present {
      var a :| a in r && KeyOfRow(a) == k;
      var i :| 0 <= i < |r| && r[i] == a;
      assert k in ks;
    }
  }

  /** The transaction counts add up to the input rows that have a bank, a parsed date and a numeric amount. */
  lemma AggregateDailyCountsSum(f: Frame, score: real, now: int)
    requires AggregateDaily(f, score, now).Ok?
    ensures SumCounts(AggregateDaily(f, score, now).value) == KeyedCount(DayKeyOf, f.rows)
  {
    SumCountsAll(TransactionType in f.columns, f.rows, SortedKeys(DayKeyOf, DayRank, f.rows), score, now);
    DayRankInjective();
    SortedKeysFacts(DayKeyOf, DayRank, f.rows);
  }

  /** Every output row is the reduction of a non-empty group of the input. */
  lemma AggregateDailyRowIsGroup(f: Frame, score: real, now: int, a: DailyAggregate)
    requires AggregateDaily(f, score, now).Ok? && a in AggregateDaily(f, score, now).value
    ensures exists t :: t in f.rows && DayKeyOf(t) == Some(KeyOfRow(a))
    ensures a == AggregateGroup(TransactionType in f.columns, f.rows, KeyOfRow(a), score, now)
  {
    var r := AggregateDaily(f, score, now).value;
    var ks := SortedKeys(DayKeyOf, DayRank, f.rows);
    AggregateDailyKeys(f, score, now);
    var i :| 0 <= i < |r| && r[i] == a;
    assert ks[i] in ks;
  }

  /**
   * Every output row's minimum and maximum bracket its group's amounts; when
   * every amount is numeric it counts at least one transaction and has no
   * more distinct customers than transactions; it carries the quality score.
   */
  lemma AggregateDailyRow(f: Frame, score: real, now: int, a: DailyAggregate)
    requires AggregateDaily(f, score, now).Ok? && a in AggregateDaily(f, score, now).value
    ensures a.dataQualityScore == score
    ensures a.minTransactionValue <= a.maxTransactionValue
    ensures forall t :: t in f.rows && DayKeyOf(t) == Some(KeyOfRow(a)) && NumericAmount(t).Some? ==>
      a.minTransactionValue <= NumericAmount(t).value <= a.maxTransactionValue
    ensures (forall t :: t in f.rows ==> NumericAmount(t).Some?) ==>
      1 <= a.transactionCount && a.uniqueCustomers <= a.transactionCount
  {
    var k := KeyOfRow(a);
    var b := TransactionType in f.columns;
    AggregateDailyRowIsGroup(f, score, now, a);
    GroupAmountBounds(b, f.rows, k, score, now);
    GroupDistinctBounds(b, f.rows, k, score, now);
    var t :| t in f.rows && DayKeyOf(t) == Some(k);
    if forall u :: u in f.rows ==> NumericAmount(u).Some? {
      assert t in Group(DayKeyOf, f.rows, k);
      assert NumericAmount(t).value in AmountValues(Group(DayKeyOf, f.rows, k));
    }
  }

  /**
   * The discrepancy: on a frame with every aggregated column, parseable
   * dates, numeric amounts and a transaction_type column, the code as
   * written fails with a column-count mismatch (ten columns, nine names)
   * where the intended aggregation succeeds; with a text amount both raise
   * the `TypeError` first.
   */
  lemma TypeColumnBreaksAggregation(f: Frame, score: real, now: int)
    requires forall c :: c in AggregatedColumns ==> c in f.columns
    requires TransactionType in f.columns && !HasUnparseableDate(f.rows)
    ensures !HasTextAmount(f.rows) ==>
      AggregateDailyAsWritten(f, score, now) == Err(ColumnCountMismatch(10, 9)) && AggregateDaily(f, score, now).Ok?
    ensures HasTextAmount(f.rows) ==>
      AggregateDailyAsWritten(f, score, now) == AggregateDaily(f, score, now) == Err(NonNumericAmount)
  {
  }

  /** Without a transaction_type column the code as written and the corrected aggregation agree. */
  lemma AsWrittenAgreesWithoutTypeColumn(f: Frame, score: real, now: int)
    requires TransactionType !in f.columns
    ensures AggregateDailyAsWritten(f, score, now) == AggregateDaily(f, score, now)
  {
  }
}
