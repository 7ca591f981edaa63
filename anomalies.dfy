/**
 * `detect_anomalies`: a per-bank z-score of the amount, with rows whose score
 * exceeds the configured threshold separated out as statistical outliers.
 *
 * The score is kept exact and squared, so no square root is needed.  With n
 * numeric amounts of a bank, S their sum and Q the sum of their squares, the
 * sample standard deviation is positive exactly when n >= 2 and nQ - S^2 > 0,
 * and then z^2 = (n - 1)(n x - S)^2 / (n (nQ - S^2)).
 */
module Anomalies {
  import opened Wrappers
  import opened Rows
  import opened Numeric
  import opened ProcessorConfig

  /** The numeric amounts of the rows of bank `b`, in order (`groupby('bank_id')['amount']`, NaN skipped). */
  function BankAmounts(s: Batch, b: string): (xs: seq<real>)
    ensures |xs| <= |s|
    ensures forall t :: t in s && t.bankId == Some(b) && NumericAmount(t).Some? ==> NumericAmount(t).value in xs
  {
    if s == [] then []
    else
      var rest := BankAmounts(s[1..], b);
      assert forall t :: t in s ==> t == s[0] || t in s[1..];
      (if s[0].bankId == Some(b) && NumericAmount(s[0]).Some? then [NumericAmount(s[0]).value] else []) + rest
  }

  /** `x.std() > 0` (NaN for fewer than two values compares false). */
  predicate StdPositive(xs: seq<real>) {
    PositiveSpread(|xs| as real, Sum(xs), SumSquares(xs))
  }

  /** n values with sum S and sum of squares Q have a positive sample deviation. */
  predicate PositiveSpread(n: real, S: real, Q: real) {
    n >= 2.0 && n * Q - S * S > 0.0
  }

  /** A row's score: its squared z-value, or NaN. */
  datatype ZScore = Z(squared: real) | NaNScore

  /** The squared z-value of `x` among n values with sum S and sum of squares Q. */
  function ZSquared(n: real, S: real, Q: real, x: real): (z2: real)
    requires n >= 2.0 && n * Q - S * S > 0.0
    ensures z2 >= 0.0
  {
    var d := n * x - S;
    var num := (n - 1.0) * (d * d);
    var den := n * (n * Q - S * S);
    MulNonNegative(n - 1.0, d * d);
    MulPositive(n, n * Q - S * S);
    num / den
  }

  lemma MulNonNegative(a: real, b: real)
    requires a >= 0.0 && b >= 0.0
    ensures a * b >= 0.0
  {
  }

  lemma MulPositive(a: real, b: real)
    requires a > 0.0 && b > 0.0
    ensures a * b > 0.0
  {
  }

  /**
   * The `amount_zscore` the transform assigns to row `t` of `s`: NaN for a null bank (the
   * group key is dropped); 0 for every row of a bank whose amounts have no positive standard
   * deviation; NaN for a null amount; otherwise the squared z-value.
   */
  function ZScoreOf(s: Batch, t: Txn): (z: ZScore)
    ensures z.Z? ==> z.squared >= 0.0
    ensures z.NaNScore? <==> t.bankId.None? || (StdPositive(BankAmounts(s, t.bankId.value)) && NumericAmount(t).None?)
  {
    if t.bankId.None? then NaNScore
    else
      var xs := BankAmounts(s, t.bankId.value);
      if !StdPositive(xs) then Z(0.0)
      else if NumericAmount(t).None? then NaNScore
      else Z(ZSquared(|xs| as real, Sum(xs), SumSquares(xs), NumericAmount(t).value))
  }

  /** `amount_zscore > threshold`; NaN compares false. */
  predicate IsOutlier(threshold: real, z: ZScore) {
    z.Z? && (threshold < 0.0 || z.squared > threshold * threshold)
  }

  /** `amount_zscore <= threshold`; NaN compares false. */
  predicate IsNormal(threshold: real, z: ZScore) {
    z.Z? && 0.0 <= threshold && z.squared <= threshold * threshold
  }

  /** The tag every detected anomaly carries. */
  const OutlierTag: string := "statistical_outlier"

  /** One row of the anomalies frame: the row, its `amount_zscore`, `anomaly_type` and `detected_at`. */
  datatype Anomaly = Anomaly(row: Txn, score: ZScore, anomalyType: string, detectedAt: int)

  /** Row `t` of `s` as an anomaly detected at `now`. */
  function Tagged(s: Batch, t: Txn, now: int): Anomaly {
    Anomaly(t, ZScoreOf(s, t), OutlierTag, now)
  }

  /** The amount cells are numbers or null: the per-bank mean and deviation can be taken. */
  predicate AmountsNumericOrNull(s: Batch) {
    forall t :: t in s ==> t.amount.None? || t.amount.value.Num?
  }

  /** `detect_anomalies`, with `datetime.now()` passed in as `now`: the normal rows and the anomalies. */
  function DetectAnomalies(cfg: Config, f: Frame, now: int): (r: (Frame, seq<Anomaly>))
    requires cfg.handleOutliers ==> BankId in f.columns && Amount in f.columns && AmountsNumericOrNull(f.rows)
    ensures !cfg.handleOutliers ==> r.0 == f && r.1 == []
    ensures r.0.columns == f.columns
    ensures |r.0.rows| <= |f.rows|
    ensures cfg.handleOutliers ==>
      forall t :: t in r.0.rows <==> t in f.rows && IsNormal(cfg.anomalyThresholdStd, ZScoreOf(f.rows, t))
    ensures cfg.handleOutliers ==>
      forall a :: a in r.1 <==>
        && a.row in f.rows
        && IsOutlier(cfg.anomalyThresholdStd, ZScoreOf(f.rows, a.row))
        && a.score == ZScoreOf(f.rows, a.row)
        && a.anomalyType == OutlierTag
        && a.detectedAt == now
  {
    if !cfg.handleOutliers then (f, [])
    else
      var thr := cfg.anomalyThresholdStd;
      var normal := FilterRows(t => IsNormal(thr, ZScoreOf(f.rows, t)), f.rows);
      var outliers := FilterRows(t => IsOutlier(thr, ZScoreOf(f.rows, t)), f.rows);
      var anomalies := seq(|outliers|, k requires 0 <= k < |outliers| =>
        Anomaly(outliers[k], ZScoreOf(f.rows, outliers[k]), OutlierTag, now));
      assert forall a :: a in anomalies <==> a.row in outliers && a == Tagged(f.rows, a.row, now) by {
        forall a ensures a in anomalies <==> a.row in outliers && a == Tagged(f.rows, a.row, now) {
          if a.row in outliers && a == Tagged(f.rows, a.row, now) {
            var k :| 0 <= k < |outliers| && outliers[k] == a.row;
            assert anomalies[k] == a;
          }
        }
      }
      (Frame(f.columns, normal), anomalies)
  }

  // ---------------------------------------------------------------------------
  // The score against the textbook statistics

  /** `m` is `x.mean()`: n m equals the sum. */
  predicate IsMean(xs: seq<real>, m: real) {
    m * |xs| as real == Sum(xs)
  }

  /** The sum of squared deviations from the mean is `Q - S^2 / n`. */
  lemma {:induction false} SumSqDevFromMean(xs: seq<real>, m: real)
    requires xs != [] && IsMean(xs, m)
    ensures SumSqDev(xs, m) * |xs| as real == |xs| as real * SumSquares(xs) - Sum(xs) * Sum(xs)
  {
    SumSqDevExpand(xs, m);
    ExpandAroundMean(|xs| as real, m, Sum(xs), SumSquares(xs), SumSqDev(xs, m));
  }

  lemma ExpandAroundMean(n: real, m: real, S: real, Q: real, ss: real)
    requires m * n == S && ss == Q - 2.0 * m * S + n * m * m
    ensures ss * n == n * Q - S * S
  {
    assert (2.0 * m * S) * n == 2.0 * S * S;
    assert (n * m * m) * n == (m * n) * (m * n);
  }

  /**
   * The exact score agrees with the textbook definition `z = |x - mean| / std`, where the
   * sample variance `std^2` is the sum of squared deviations over n - 1.  For n >= 2 values
   * with sum S, sum of squares Q, mean m and squared deviations summing to ss (see
   * `SumSqDevFromMean`), the deviation is positive exactly when ss is, and then
   * `z^2 * ss == (n - 1) (x - m)^2`.
   */
  lemma StandardisedAlgebra(n: real, S: real, Q: real, ss: real, m: real, x: real)
    requires n >= 2.0 && m * n == S && ss * n == n * Q - S * S
    ensures PositiveSpread(n, S, Q) <==> ss > 0.0
    ensures PositiveSpread(n, S, Q) ==> ZSquared(n, S, Q, x) * ss == (n - 1.0) * ((x - m) * (x - m))
  {
    MulSign(ss, n);
    if PositiveSpread(n, S, Q) {
      ZSquaredTimesDeviation(n, S, Q, ss, m, x);
    }
  }

  lemma ZSquaredTimesDeviation(n: real, S: real, Q: real, ss: real, m: real, x: real)
    requires n >= 2.0 && m * n == S && ss * n == n * Q - S * S && n * Q - S * S > 0.0
    ensures ZSquared(n, S, Q, x) * ss == (n - 1.0) * ((x - m) * (x - m))
  {
    var D := n * Q - S * S;
    var d := n * x - S;
    var e := x - m;
    var num := (n - 1.0) * (d * d);
    var den := n * D;
    var z2 := ZSquared(n, S, Q, x);
    MulPositive(n, D);
    assert z2 * den == num;
    assert e * n == d;
    assert den == (ss * n) * n;
    assert num == ((n - 1.0) * (e * e)) * (n * n);
    assert (z2 * ss) * (n * n) == z2 * den;
    MulPositive(n, n);
    CancelPositive(z2 * ss, (n - 1.0) * (e * e), n * n);
  }

  lemma CancelPositive(a: real, b: real, c: real)
    requires c > 0.0 && a * c == b * c
    ensures a == b
  {
    assert (a - b) * c == 0.0;
  }

  lemma MulSign(a: real, b: real)
    requires b > 0.0
    ensures a * b > 0.0 <==> a > 0.0
  {
    if a > 0.0 {
      MulPositive(a, b);
    } else {
      MulNonNegative(-a, b);
    }
  }

  // ---------------------------------------------------------------------------
  // Properties of the detection

  /** A bank whose amounts are all equal has no positive deviation: all its rows score 0. */
  lemma ConstantBankScoresZero(s: Batch, t: Txn, c: real)
    requires t.bankId.Some?
    requires forall u :: u in s && u.bankId == t.bankId && NumericAmount(u).Some? ==> NumericAmount(u).value == c
    ensures ZScoreOf(s, t) == Z(0.0)
  {
    var xs := BankAmounts(s, t.bankId.value);
    BankAmountsConstant(s, t.bankId.value, c);
    SumOfConstant(xs, c);
    var n := |xs| as real;
    assert n * (n * c * c) - (n * c) * (n * c) == 0.0;
  }

  /** With a non-negative threshold, a bank whose amounts are all equal contributes no anomalies. */
  lemma ConstantBankNoAnomalies(cfg: Config, f: Frame, now: int, b: string, c: real)
    requires cfg.handleOutliers && 0.0 <= cfg.anomalyThresholdStd
    requires BankId in f.columns && Amount in f.columns && AmountsNumericOrNull(f.rows)
    requires forall u :: u in f.rows && u.bankId == Some(b) && NumericAmount(u).Some? ==> NumericAmount(u).value == c
    ensures forall a :: a in DetectAnomalies(cfg, f, now).1 ==> a.row.bankId != Some(b)
  {
    forall a | a in DetectAnomalies(cfg, f, now).1
      ensures a.row.bankId == Some(b) ==> ZScoreOf(f.rows, a.row) == Z(0.0)
    {
      if a.row.bankId == Some(b) {
        ConstantBankScoresZero(f.rows, a.row, c);
      }
    }
  }

  lemma {:induction false} BankAmountsConstant(s: Batch, b: string, c: real)
    requires forall u :: u in s && u.bankId == Some(b) && NumericAmount(u).Some? ==> NumericAmount(u).value == c
    ensures forall k :: 0 <= k < |BankAmounts(s, b)| ==> BankAmounts(s, b)[k] == c
  {
    if s != [] {
      assert forall u :: u in s[1..] ==> u in s;
      BankAmountsConstant(s[1..], b, c);
    }
  }

  /**
   * When every row has a bank and a numeric amount, every row is either normal or an anomaly
   * and never both, so the two outputs together account for the whole input.
   */
  lemma DetectAnomaliesPartition(cfg: Config, f: Frame, now: int)
    requires cfg.handleOutliers && BankId in f.columns && Amount in f.columns
    requires forall t :: t in f.rows ==> t.bankId.Some? && NumericAmount(t).Some?
    ensures AmountsNumericOrNull(f.rows)
    ensures forall t :: t in f.rows ==>
      (t in DetectAnomalies(cfg, f, now).0.rows <==>
       !exists a :: a in DetectAnomalies(cfg, f, now).1 && a.row == t)
    ensures |DetectAnomalies(cfg, f, now).0.rows| + |DetectAnomalies(cfg, f, now).1| == |f.rows|
  {
    var thr := cfg.anomalyThresholdStd;
    var r := DetectAnomalies(cfg, f, now);
    var normal := t => IsNormal(thr, ZScoreOf(f.rows, t));
    var outlier := t => IsOutlier(thr, ZScoreOf(f.rows, t));
    assert forall t :: t in f.rows ==> ZScoreOf(f.rows, t).Z?;
    forall t | t in f.rows
      ensures t in r.0.rows <==> !exists a :: a in r.1 && a.row == t
    {
      var z := ZScoreOf(f.rows, t);
      if 0.0 <= thr {
        assert z.squared <= thr * thr || z.squared > thr * thr;
      }
      if !IsOutlier(thr, z) {
        assert !exists a :: a in r.1 && a.row == t;
      } else {
        assert Tagged(f.rows, t, now) in r.1;
      }
    }
    FilterSplit(normal, f.rows);
    FilterRowsExt(t => !normal(t), outlier, f.rows);
    assert |r.1| == |FilterRows(outlier, f.rows)|;
  }

  /** The normal rows keep their input order, and the row labelled `i` is normal exactly when its score is within the threshold. */
  lemma DetectAnomaliesAt(cfg: Config, f: Frame, now: int)
    requires cfg.handleOutliers ==> BankId in f.columns && Amount in f.columns && AmountsNumericOrNull(f.rows)
    requires Increasing(f.rows)
    ensures Increasing(DetectAnomalies(cfg, f, now).0.rows)
    ensures cfg.handleOutliers ==> forall i: nat ::
      RowAt(DetectAnomalies(cfg, f, now).0.rows, i) ==
        if RowAt(f.rows, i).Some? && IsNormal(cfg.anomalyThresholdStd, ZScoreOf(f.rows, RowAt(f.rows, i).value))
        then RowAt(f.rows, i) else None
  {
    if cfg.handleOutliers {
      FilterRowsAt(t => IsNormal(cfg.anomalyThresholdStd, ZScoreOf(f.rows, t)), f.rows);
    }
  }

  /** A row without a bank scores NaN and so appears in neither output. */
  lemma NullBankRowsAreDropped(cfg: Config, f: Frame, now: int, t: Txn)
    requires cfg.handleOutliers && BankId in f.columns && Amount in f.columns && AmountsNumericOrNull(f.rows)
    requires t in f.rows && t.bankId.None?
    ensures t !in DetectAnomalies(cfg, f, now).0.rows
    ensures forall a :: a in DetectAnomalies(cfg, f, now).1 ==> a.row != t
  {
  }

  /** Raising the threshold can only turn anomalies into normal rows. */
  lemma OutlierMonotone(low: real, high: real, z: ZScore)
    requires low <= high
    ensures IsOutlier(high, z) ==> IsOutlier(low, z)
    ensures IsNormal(low, z) ==> IsNormal(high, z)
  {
    if 0.0 <= low {
      assert low * low <= high * high;
    }
  }
}
