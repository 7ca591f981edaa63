/**
 * `generate_quality_report`: counts taken on the frame as it was read
 * (nulls in the required columns, non-numeric amounts, repeated duplicate
 * keys), the share of rows that survived processing as a percentage, and the
 * four-level grading of that percentage.
 */
module Quality {
  import opened Wrappers
  import opened Rows
  import opened Numeric
  import opened ProcessorConfig
  import opened Dedup

  /** The `DataQualityLevel` enumeration. */
  datatype QualityLevel = EXCELLENT | GOOD | ACCEPTABLE | POOR

  /** Levels ordered from worst (0) to best (3). */
  function Rank(l: QualityLevel): nat {
    match l
    case POOR => 0
    case ACCEPTABLE => 1
    case GOOD => 2
    case EXCELLENT => 3
  }

  /** The lowest score a level is awarded for (POOR has none: every score reaches it). */
  function MinScore(l: QualityLevel): real {
    match l
    case EXCELLENT => 95.0
    case GOOD => 85.0
    case ACCEPTABLE => 75.0
    case POOR => 0.0
  }

  /** The grading: the best level whose minimum the score reaches. */
  function LevelOf(score: real): (l: QualityLevel)
    ensures l != POOR ==> score >= MinScore(l)
    ensures forall better: QualityLevel :: Rank(better) > Rank(l) ==> score < MinScore(better)
  {
    if score >= 95.0 then EXCELLENT
    else if score >= 85.0 then GOOD
    else if score >= 75.0 then ACCEPTABLE
    else POOR
  }

  /** A higher score never earns a worse level. */
  lemma LevelMonotone(low: real, high: real)
    requires low <= high
    ensures Rank(LevelOf(low)) <= Rank(LevelOf(high))
  {
    var l := LevelOf(low);
    if l != POOR {
      assert high >= MinScore(l);
    }
  }

  /** The boundaries are inclusive: exactly 95, 85 and 75 earn the higher level; just below them does not. */
  lemma LevelBoundaries()
    ensures LevelOf(95.0) == EXCELLENT && LevelOf(94.99) == GOOD
    ensures LevelOf(85.0) == GOOD && LevelOf(84.99) == ACCEPTABLE
    ensures LevelOf(75.0) == ACCEPTABLE && LevelOf(74.99) == POOR
  {
  }

  /** `valid / total * 100`, or 0 for an empty original frame. */
  function QualityScore(total: nat, valid: nat): (score: real)
    ensures total == 0 ==> score == 0.0
    ensures total > 0 ==> score * total as real == valid as real * 100.0
    ensures valid <= total ==> 0.0 <= score <= 100.0
    ensures total > 0 && valid == total ==> score == 100.0
  {
    if total == 0 then 0.0 else valid as real / total as real * 100.0
  }

  /** Keeping more rows of the same frame never lowers the score. */
  lemma QualityScoreMonotone(total: nat, v1: nat, v2: nat)
    requires v1 <= v2
    ensures QualityScore(total, v1) <= QualityScore(total, v2)
  {
    if total > 0 {
      assert v1 as real / total as real <= v2 as real / total as real;
    }
  }

  // ---------------------------------------------------------------------------
  // Counts on the original frame

  /** `df[c].isnull()` for one row; the cells of columns outside the transaction schema are not modelled and count as present. */
  predicate IsNull(c: Column, t: Txn) {
    match c
    case TransactionId => t.transactionId.None?
    case BankId => t.bankId.None?
    case CustomerId => t.customerId.None?
    case Amount => t.amount.None?
    case TransactionDate => t.transactionDate.None?
    case TransactionType => t.transactionType.None?
    case Description => t.description.None?
    case CreatedAt => t.createdAt.None?
    case Extra(_) => false
  }

  /** `df[c].isnull().sum()`. */
  function NullsIn(c: Column, s: Batch): (n: nat)
    ensures n <= |s|
    ensures n == 0 <==> forall t :: t in s ==> !IsNull(c, t)
  {
    var r := FilterRows(t => IsNull(c, t), s);
    assert r != [] ==> r[0] in r;
    |r|
  }

  /**
   * The accumulation over the configured required columns: the null count
   * of every required column that is present, a column listed twice being
   * counted twice.
   */
  function NullRecords(required: seq<Column>, f: Frame): (n: nat)
    decreases |required|
  {
    if required == [] then 0
    else
      var c := required[|required| - 1];
      NullRecords(required[..|required| - 1], f) + if c in f.columns then NullsIn(c, f.rows) else 0
  }

  /** The null count is zero exactly when no row has a null in any present required column. */
  lemma {:induction false} NullRecordsZero(required: seq<Column>, f: Frame)
    ensures NullRecords(required, f) == 0 <==>
      forall c, t :: c in required && c in f.columns && t in f.rows ==> !IsNull(c, t)
    decreases |required|
  {
    if required != [] {
      var k := |required| - 1;
      var p := required[..k];
      NullRecordsZero(p, f);
      assert required == p + [required[k]];
      assert forall c :: c in required <==> c in p || c == required[k];
    }
  }

  /** `pd.to_numeric(df['amount'], errors='coerce').isnull().sum()`: null or non-numeric amounts. */
  function InvalidAmounts(f: Frame): (n: nat)
    ensures n <= |f.rows|
    ensures n == 0 <==> Amount !in f.columns || forall t :: t in f.rows ==> NumericAmount(t).Some?
  {
    if Amount !in f.columns then 0
    else
      var r := FilterRows(t => NumericAmount(t).None?, f.rows);
      assert r != [] ==> r[0] in r;
      |r|
  }

  /** `duplicated(subset=available_dup_cols).sum()`: rows whose key repeats an earlier row's. */
  function DuplicateRecords(f: Frame): (n: nat)
    ensures n < |f.rows| || f.rows == []
    ensures n + |KeysOf(f.columns, f.rows)| == |f.rows|
  {
    KeepFirstSize(f.columns, f.rows);
    assert f.rows != [] ==> KeyOf(f.columns, f.rows[0]) in KeysOf(f.columns, f.rows);
    DuplicateCount(f.columns, f.rows)
  }

  /** The `DataQualityReport` record. */
  datatype QualityReport = QualityReport(
    totalRecords: nat,
    validRecords: nat,
    nullRecords: nat,
    invalidAmounts: nat,
    duplicateRecords: nat,
    qualityScore: real,
    qualityLevel: QualityLevel,
    anomalyCount: nat,
    processingTimestamp: int)

  /**
   * The report for an original frame, the number of rows that survived and
   * the number of anomaly rows.  The stored score is rounded to two decimals;
   * the level is graded on the unrounded score.
   */
  function ReportOf(cfg: Config, original: Frame, validRecords: nat, anomalyCount: nat, now: int): (r: QualityReport)
    ensures r.totalRecords == |original.rows| && r.validRecords == validRecords
    ensures r.anomalyCount == anomalyCount && r.processingTimestamp == now
    ensures r.qualityLevel == LevelOf(QualityScore(|original.rows|, validRecords))
    ensures -0.005 <= r.qualityScore - QualityScore(|original.rows|, validRecords) <= 0.005
    ensures IsCents(r.qualityScore)
  {
    var score := QualityScore(|original.rows|, validRecords);
    QualityReport(
      |original.rows|,
      validRecords,
      NullRecords(cfg.requiredColumns, original),
      InvalidAmounts(original),
      DuplicateRecords(original),
      Round2(score),
      LevelOf(score),
      anomalyCount,
      now)
  }

  /**
   * What a report's numbers promise when no more rows survived than were
   * read: the stored score is a percentage and at least the level's minimum,
   * the defect counts are bounded by the frame size.
   */
  lemma ReportBounds(cfg: Config, original: Frame, validRecords: nat, anomalyCount: nat, now: int)
    requires validRecords <= |original.rows|
    ensures var r := ReportOf(cfg, original, validRecords, anomalyCount, now);
      && 0.0 <= r.qualityScore <= 100.0
      && r.qualityScore >= MinScore(r.qualityLevel)
      && r.invalidAmounts <= r.totalRecords
      && r.duplicateRecords + |KeysOf(original.columns, original.rows)| == r.totalRecords
      && (r.totalRecords == 0 ==> r.qualityScore == 0.0 && r.qualityLevel == POOR)
  {
    var score := QualityScore(|original.rows|, validRecords);
    Round2Bounds(score, 0.0, 100.0);
    var l := LevelOf(score);
    assert IsCents(MinScore(l)) by {
      assert (95.0 * 100.0).Floor == 9500 && (85.0 * 100.0).Floor == 8500;
      assert (75.0 * 100.0).Floor == 7500 && (0.0 * 100.0).Floor == 0;
    }
    Round2Bounds(score, MinScore(l), 100.0);
    if |original.rows| == 0 {
      Round2OfCents(0.0);
    }
  }

  /**
   * Because the level is graded before rounding, a stored score of 95.00 can
   * come with level GOOD: 94,997 surviving rows out of 100,000 score 94.997.
   */
  lemma RoundedScoreAboveLevel()
    ensures QualityScore(100000, 94997) == 94.997
    ensures Round2(QualityScore(100000, 94997)) == 95.0
    ensures LevelOf(QualityScore(100000, 94997)) == GOOD
  {
    assert (94.997 * 100.0).Floor == 9499;
  }
}
