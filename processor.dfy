/**
 * `BankingDataProcessor`: the configuration it was built with, the quality
 * report it keeps from its last run, and `process_banking_data`, which runs
 * schema validation, null cleaning, type validation, deduplication, anomaly
 * detection, the quality report and the daily aggregation in that order.
 */
module Processor {
  import opened Wrappers
  import opened Rows
  import Numeric
  import opened ProcessorConfig
  import opened Cleaning
  import opened Dedup
  import opened Anomalies
  import opened Quality
  import opened Aggregation

  /** Why `process_banking_data` raises. */
  datatype ProcessError =
    | SchemaValidationFailed(errors: seq<SchemaError>)
    | MissingCriticalColumn(column: Column)
    | AggregationFailed(error: AggError)

  /** The columns `clean_null_values` indexes unconditionally, in the order it indexes them. */
  const CriticalColumns: seq<Column> := [BankId, CustomerId, Amount]

  predicate CriticalPresent(cols: set<Column>) {
    forall c :: c in CriticalColumns ==> c in cols
  }

  /** Distinct rows of `s` have distinct duplicate keys. */
  ghost predicate DistinctKeys(cols: set<Column>, s: Batch) {
    forall t, u :: t in s && u in s && t != u ==> KeyOf(cols, t) != KeyOf(cols, u)
  }

  lemma NoRepeatedKeysDistinct(cols: set<Column>, s: Batch)
    requires NoRepeatedKeys(cols, s)
    ensures DistinctKeys(cols, s)
  {
    forall t, u | t in s && u in s && t != u ensures KeyOf(cols, t) != KeyOf(cols, u) {
      var j :| 0 <= j < |s| && s[j] == t;
      var k :| 0 <= k < |s| && s[k] == u;
      if j < k {
        assert KeyOf(cols, s[j]) != KeyOf(cols, s[k]);
      } else {
        assert KeyOf(cols, s[k]) != KeyOf(cols, s[j]);
      }
    }
  }

  /** Steps 2 to 4: null cleaning, type validation and deduplication. */
  function Prepared(cfg: Config, df: Frame, now: int): (r: Frame)
    requires CriticalPresent(df.columns) && Increasing(df.rows)
    ensures r.columns == df.columns && |r.rows| <= |df.rows|
    ensures Increasing(r.rows)
    ensures forall t :: t in r.rows ==> IsTypedRow(cfg, df.columns, t)
    ensures cfg.removeDuplicates ==> DistinctKeys(df.columns, r.rows)
  {
    assert BankId in df.columns && CustomerId in df.columns && Amount in df.columns by {
      assert CriticalColumns[0] == BankId && CriticalColumns[1] == CustomerId && CriticalColumns[2] == Amount;
    }
    var cleaned := CleanNullValues(df);
    var typed := ValidateColumnTypes(cfg, cleaned, now);
    ValidatedRowsAreTyped(cfg, cleaned, now);
    var deduped := DetectDuplicates(cfg, typed);
    DetectDuplicatesAt(cfg, typed);
    if cfg.removeDuplicates then NoRepeatedKeysDistinct(df.columns, deduped.rows); deduped
    else deduped
  }

  /** Typed rows of a frame with bank and amount columns have a bank and a numeric amount. */
  lemma PreparedRowsScored(cfg: Config, df: Frame, now: int)
    requires CriticalPresent(df.columns) && Increasing(df.rows)
    ensures BankId in df.columns && Amount in df.columns
    ensures forall t :: t in Prepared(cfg, df, now).rows ==> t.bankId.Some? && NumericAmount(t).Some?
    ensures AmountsNumericOrNull(Prepared(cfg, df, now).rows)
  {
    assert CriticalColumns[0] == BankId && CriticalColumns[2] == Amount;
  }

  /**
   * Steps 2 to 5: the rows that survive and the anomalies, or the column the
   * null cleaning indexes and does not find.
   */
  function CleanStages(cfg: Config, df: Frame, now: int): (r: Result<(Frame, seq<Anomaly>), ProcessError>)
    requires Increasing(df.rows)
    ensures r.Err? <==> !CriticalPresent(df.columns)
    ensures r.Err? ==> r.error.MissingCriticalColumn? && r.error.column in CriticalColumns && r.error.column !in df.columns
    ensures r.Ok? ==> r.value.0.columns == df.columns && |r.value.0.rows| <= |df.rows|
    ensures r.Ok? ==> forall t :: t in r.value.0.rows ==> IsTypedRow(cfg, df.columns, t)
  {
    var missing := MissingColumns(CriticalColumns, df.columns);
    if missing != [] then
      assert missing[0] in missing;
      Err(MissingCriticalColumn(missing[0]))
    else
      var prepared := Prepared(cfg, df, now);
      PreparedRowsScored(cfg, df, now);
      Ok(DetectAnomalies(cfg, prepared, now))
  }

  /**
   * What the surviving rows promise beyond being typed: they keep their
   * order, with duplicate removal no two share a duplicate key, with outlier
   * handling each one's z-score is within the threshold, and surviving and
   * anomalous rows together are no more than the rows read.
   */
  lemma CleanStagesFacts(cfg: Config, df: Frame, now: int)
    requires Increasing(df.rows) && CleanStages(cfg, df, now).Ok?
    ensures var (final, anomalies) := CleanStages(cfg, df, now).value;
      && Increasing(final.rows)
      && (cfg.removeDuplicates ==> DistinctKeys(df.columns, final.rows))
      && (cfg.handleOutliers ==> forall t :: t in final.rows ==>
            IsNormal(cfg.anomalyThresholdStd, ZScoreOf(Prepared(cfg, df, now).rows, t)))
      && |final.rows| + |anomalies| <= |df.rows|
  {
    var prepared := Prepared(cfg, df, now);
    PreparedRowsScored(cfg, df, now);
    DetectAnomaliesAt(cfg, prepared, now);
    if cfg.handleOutliers {
      DetectAnomaliesPartition(cfg, prepared, now);
    }
  }

  /**
   * The report of a successful run: the surviving and anomalous rows are at
   * most the rows read, the score is a percentage at least its level's
   * minimum, and all rows surviving means a perfect score.
   */
  lemma ProcessedReport(cfg: Config, df: Frame, now: int)
    requires Increasing(df.rows) && CleanStages(cfg, df, now).Ok?
    ensures var (final, anomalies) := CleanStages(cfg, df, now).value;
      var r := ReportOf(cfg, df, |final.rows|, |anomalies|, now);
      && r.validRecords + r.anomalyCount <= r.totalRecords
      && 0.0 <= r.qualityScore <= 100.0
      && r.qualityScore >= MinScore(r.qualityLevel)
      && (0 < r.validRecords == r.totalRecords ==> r.qualityLevel == EXCELLENT)
  {
    var (final, anomalies) := CleanStages(cfg, df, now).value;
    CleanStagesFacts(cfg, df, now);
    ReportBounds(cfg, df, |final.rows|, |anomalies|, now);
  }

  /**
   * Typed rows carry no unparseable date, so on a frame holding the
   * transaction_date and transaction_id columns (both required by the
   * default configuration) the corrected aggregation of the surviving rows
   * cannot fail.
   */
  lemma ProcessedAggregates(cfg: Config, df: Frame, score: real, now: int)
    requires Increasing(df.rows) && CleanStages(cfg, df, now).Ok?
    requires TransactionDate in df.columns && TransactionId in df.columns
    ensures AggregateDaily(CleanStages(cfg, df, now).value.0, score, now).Ok?
  {
    var final := CleanStages(cfg, df, now).value.0;
    TypedFrameAggregates(cfg, final, score, now);
  }

  /** A frame of typed rows with all the aggregated columns aggregates without error. */
  lemma TypedFrameAggregates(cfg: Config, f: Frame, score: real, now: int)
    requires CriticalPresent(f.columns) && TransactionDate in f.columns && TransactionId in f.columns
    requires forall t :: t in f.rows ==> IsTypedRow(cfg, f.columns, t)
    ensures AggregateDaily(f, score, now).Ok?
  {
    assert CriticalColumns[0] == BankId && CriticalColumns[1] == CustomerId && CriticalColumns[2] == Amount;
    assert !HasUnparseableDate(f.rows) by {
      forall t | t in f.rows ensures !(t.transactionDate.Some? && t.transactionDate.value.DateText?) {
        assert IsTypedRow(cfg, f.columns, t);
      }
    }
    assert !HasTextAmount(f.rows) by {
      forall t | t in f.rows ensures NumericAmount(t).Some? {
        assert IsTypedRow(cfg, f.columns, t);
      }
    }
  }

  /**
   * On the same frames the aggregation as written fails whenever a
   * transaction_type column is present, so a successful run is impossible.
   */
  lemma ProcessedAggregatesAsWritten(cfg: Config, df: Frame, score: real, now: int)
    requires Increasing(df.rows) && CleanStages(cfg, df, now).Ok?
    requires TransactionDate in df.columns && TransactionId in df.columns && TransactionType in df.columns
    ensures AggregateDailyAsWritten(CleanStages(cfg, df, now).value.0, score, now) == Err(ColumnCountMismatch(10, 9))
  {
    var final := CleanStages(cfg, df, now).value.0;
    ProcessedAggregates(cfg, df, score, now);
    assert CriticalColumns[0] == BankId && CriticalColumns[1] == CustomerId && CriticalColumns[2] == Amount;
    TypeColumnBreaksAggregation(final, score, now);
  }

  /**
   * With the default configuration, a frame that passes schema validation is cleaned and the
   * corrected aggregation succeeds; the aggregation as written fails whenever the frame has a
   * transaction_type column, which the default configuration does not require.
   */
  lemma DefaultConfigRunSucceeds(df: Frame, score: real, now: int)
    requires Increasing(df.rows) && ValidateSchema(DefaultConfig, df).0
    ensures CleanStages(DefaultConfig, df, now).Ok?
    ensures AggregateDaily(CleanStages(DefaultConfig, df, now).value.0, score, now).Ok?
    ensures TransactionType in df.columns ==>
      AggregateDailyAsWritten(CleanStages(DefaultConfig, df, now).value.0, score, now).Err?
  {
    var required := DefaultConfig.requiredColumns;
    assert required[0] == TransactionId && required[1] == BankId && required[2] == CustomerId;
    assert required[3] == Amount && required[4] == TransactionDate;
    assert CriticalPresent(df.columns) by {
      assert CriticalColumns == [BankId, CustomerId, Amount];
    }
    ProcessedAggregates(DefaultConfig, df, score, now);
  }

  class BankingDataProcessor {
    const config: Config
    var qualityReport: Option<QualityReport>

    /** `config or self._get_default_config()`. */
    constructor(config: Option<Config>)
      ensures this.config == config.GetOr(DefaultConfig)
      ensures qualityReport == None
    {
      this.config := config.GetOr(DefaultConfig);
      qualityReport := None;
    }

    /** The null count of the report: the nulls of each present required column, accumulated column by column. */
    method CountNullRecords(original: Frame) returns (n: nat)
      ensures n == NullRecords(config.requiredColumns, original)
      ensures n == 0 <==> forall c, t :: c in config.requiredColumns && c in original.columns && t in original.rows ==> !IsNull(c, t)
    {
      var required := config.requiredColumns;
      n := 0;
      for i := 0 to |required|
        invariant n == NullRecords(required[..i], original)
      {
        assert required[..i + 1][..i] == required[..i];
        if required[i] in original.columns {
          n := n + NullsIn(required[i], original.rows);
        }
      }
      assert required[..|required|] == required;
      NullRecordsZero(required, original);
    }

    /** `generate_quality_report`, with `datetime.now()` passed in as `now`: the report is returned and kept. */
    method GenerateQualityReport(original: Frame, cleaned: Frame, anomalies: seq<Anomaly>, now: int) returns (report: QualityReport)
      modifies this
      ensures report == ReportOf(config, original, |cleaned.rows|, |anomalies|, now)
      ensures qualityReport == Some(report)
    {
      var nulls := CountNullRecords(original);
      var score := QualityScore(|original.rows|, |cleaned.rows|);
      report := QualityReport(
        |original.rows|, |cleaned.rows|, nulls, InvalidAmounts(original), DuplicateRecords(original),
        Numeric.Round2(score), LevelOf(score), |anomalies|, now);
      qualityReport := Some(report);
    }

    /** The score stamped on aggregated rows: the kept report's, or 100 before any report. */
    function StampedScore(): real
      reads this
    {
      if qualityReport.Some? then qualityReport.value.qualityScore else 100.0
    }

    /**
     * `aggregate_daily_transactions`, corrected so that the type breakdown is a tenth column,
     * reading the kept report.  As written it raises on a frame with a transaction_type column
     * (`Aggregation.TypeColumnBreaksAggregation`).
     */
    function AggregateDailyTransactions(f: Frame, now: int): (r: Result<seq<DailyAggregate>, AggError>)
      reads this
      ensures qualityReport.None? && r.Ok? ==> forall a :: a in r.value ==> a.dataQualityScore == 100.0
      ensures qualityReport.Some? && r.Ok? ==> forall a :: a in r.value ==> a.dataQualityScore == qualityReport.value.qualityScore
    {
      var r := AggregateDaily(f, StampedScore(), now);
      assert r.Ok? ==> forall a :: a in r.value ==> a.dataQualityScore == StampedScore() by {
        if r.Ok? {
          forall a | a in r.value ensures a.dataQualityScore == StampedScore() {
            AggregateDailyRow(f, StampedScore(), now, a);
          }
        }
      }
      r
    }

    /**
     * `process_banking_data`: the aggregated rows, the report and the
     * anomalies.  A schema failure or a missing critical column raises before
     * the report is replaced; an aggregation failure raises after it.  The
     * aggregation run here is the corrected one: the last postcondition says
     * that the aggregation as written would raise, after the report is kept,
     * on every cleaned frame that has a transaction_type column.
     */
    method ProcessBankingData(df: Frame, now: int) returns (r: Result<(seq<DailyAggregate>, QualityReport, seq<Anomaly>), ProcessError>)
      requires Increasing(df.rows)
      modifies this
      ensures !ValidateSchema(config, df).0 ==>
        r == Err(SchemaValidationFailed(ValidateSchema(config, df).1)) && qualityReport == old(qualityReport)
      ensures ValidateSchema(config, df).0 && CleanStages(config, df, now).Err? ==>
        r == Err(CleanStages(config, df, now).error) && qualityReport == old(qualityReport)
      ensures ValidateSchema(config, df).0 && CleanStages(config, df, now).Ok? ==>
        var (final, anomalies) := CleanStages(config, df, now).value;
        var report := ReportOf(config, df, |final.rows|, |anomalies|, now);
        var agg := AggregateDaily(final, report.qualityScore, now);
        && qualityReport == Some(report)
        && r == if agg.Ok? then Ok((agg.value, report, anomalies)) else Err(AggregationFailed(agg.error))
      ensures ValidateSchema(config, df).0 && CleanStages(config, df, now).Ok? && TransactionType in df.columns ==>
        var (final, anomalies) := CleanStages(config, df, now).value;
        AggregateDailyAsWritten(final, ReportOf(config, df, |final.rows|, |anomalies|, now).qualityScore, now).Err?
    {
      var (valid, errors) := ValidateSchema(config, df);
      if !valid {
        return Err(SchemaValidationFailed(errors));
      }
      var stages := CleanStages(config, df, now);
      if stages.Err? {
        return Err(stages.error);
      }
      var (final, anomalies) := stages.value;
      var report := GenerateQualityReport(df, final, anomalies, now);
      var agg := AggregateDailyTransactions(final, now);
      if agg.Err? {
        return Err(AggregationFailed(agg.error));
      }
      r := Ok((agg.value, report, anomalies));
    }
  }
}
