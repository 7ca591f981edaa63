# EFT banking pipeline: a Dafny model

This project models the data-processing core of the EFT banking pipeline
in Dafny and proves properties of the model. The core has two parts.

- `BankingDataProcessor` in `src/data_processor.py`. It validates a
  transaction frame's schema and then runs the cleaning stages: null
  handling, type validation, de-duplication and z-score anomaly
  detection. It then builds a quality report and aggregates the
  transactions per bank and day.
- The transform, load and data-quality-check tasks of the daily Airflow
  DAG in `airflow_home/dags/banking_data_pipeline.py`.
  - The transform cleans the raw file and aggregates it per bank and
    transaction timestamp.
  - The load writes the aggregates with `INSERT IGNORE` into a table keyed
    by `(bank_id, transaction_date)`.
  - The check fails when the execution day has no rows. It warns when the
    day's average score is below 80.

## How the model reads

**Frames.** A frame is a set of columns plus a sequence of rows.
- A null cell is `None`.
- An amount cell is a number, or text that coercion turns into NaN.
- A date cell is a timestamp in seconds, or text that the parser rejects.
- Every row keeps the index label it was read with. A stage is therefore
  specified label by label with `Rows.RowAt`: what becomes of row `i`.
- "Order is kept" is stated as "labels still increase".

**Arithmetic.** Numbers are exact reals.
- `round(2)` is half-to-even rounding to hundredths (`Numeric.Round2`).
- `Numeric.SafeDiv` stands for pandas' division followed by `fillna(0)`.

**Z-score test.** The test `|z| > k` is decided through an exact formula for
`z²`. The formula is built from the bank's count `n`, its sum `S` and its
sum of squares `Q`, so no square root is taken.
`Anomalies.StandardisedAlgebra` proves that this `z²` equals
`(x - mean)² / sample variance`.

**The processor object.** `Processor.BankingDataProcessor` is a class. It
keeps the quality report the last run produced.

**The load target.** The MySQL table is `DagLoad.AggregateTable`, a class
whose `rows` field maps the unique key to the stored row.

**Clock.**
- `datetime.now()` is a parameter `now`, in seconds.
- A calendar day is `seconds / 86400`.

## Model

| member | source | states |
|---|---|---|
| ProcessorConfig.AcceptedTypeValuesAre | src/data_processor.py:20-24 | A type value is accepted exactly when it is one of the four `TransactionType` values or `UNKNOWN`. |
| Processor.BankingDataProcessor.constructor | src/data_processor.py:51-66 | The processor uses the given configuration or, when there is none, the default one. No report is kept yet. |
| Cleaning.MissingColumns | src/data_processor.py:73-77 | The missing required columns are exactly those absent from the frame, in the order the configuration lists them. The list is empty exactly when none is missing. |
| Cleaning.ValidateSchema | src/data_processor.py:68-82 | Validation passes exactly when no error is listed. That happens exactly when every required column is present and the frame has rows. The empty-frame error is listed exactly when the frame is empty. A missing-column error comes first and names exactly the missing columns. |
| Cleaning.FillOptionalFields | src/data_processor.py:103-108 | A present `transaction_type` column gets `UNKNOWN` for nulls. A present `description` column gets `No description` for nulls. Nothing else changes. |
| Cleaning.CleanNullValues | src/data_processor.py:84-113 | Row `i` survives exactly when its bank, customer and amount are non-null. A survivor has its optional fields filled. The columns stay the same and order is kept. |
| Cleaning.AmountStage | src/data_processor.py:123-148 | Row `i` survives exactly when its amount is numeric, positive and not above the maximum. A survivor's amount is rounded to two places. |
| Cleaning.DateStage | src/data_processor.py:151-162 | A present date column is parsed. Future-dated rows are dropped only when some row is future-dated. Without the column nothing changes. |
| Cleaning.IdStages | src/data_processor.py:165-170 | Row `i` survives exactly when each present identifier column is non-empty after stripping. The identifiers are stored stripped. |
| Cleaning.TypeStage | src/data_processor.py:173-178 | A present type column maps unaccepted values to `UNKNOWN`. No row is dropped. |
| Cleaning.ValidateColumnTypes | src/data_processor.py:115-181 | Row `i` survives exactly when it passes the amount, date, identifier and type checks. A survivor is typed by `TypedRow`. The columns stay the same and order is kept. |
| Cleaning.FutureFlag | src/data_processor.py:155-162 | Whether the future-date filter runs: some row that survives the amount filter is future-dated, exactly as stated on the original frame by `FutureDatePresent`. |
| Cleaning.TypedRowIsTyped | src/data_processor.py:124-178 | A row that passes the checks comes out typed, as below. When the future filter ran, its date is not after `now`. |
| Cleaning.ValidatedRowsAreTyped | src/data_processor.py:115-181 | Every validated row is typed. Its amount is numeric, whole hundredths and between 0 and the maximum. Its identifiers are stripped and non-empty. Its type is accepted. Its date, when present, is parsed. When the filter ran, no date is after `now`. |
| Cleaning.SubCentAmountSurvivesAsZero | src/data_processor.py:136-148 | A positive amount below 0.005 passes the `> 0` check, which runs before rounding, and is stored as 0.00. |
| Dedup.KeepFirst | src/data_processor.py:197-204 | Keeps only rows of the input. Keeps every key. No key is kept twice. |
| Dedup.KeepFirstMembers | src/data_processor.py:197-204 | Row `k` is kept exactly when no earlier row has its key (`duplicated(keep='first')`). |
| Dedup.KeepFirstIncreasing | src/data_processor.py:197-204 | De-duplication keeps row order. |
| Dedup.KeepFirstOfUnique | src/data_processor.py:197-204 | A frame without repeated keys is unchanged. |
| Dedup.KeepFirstIdempotent | src/data_processor.py:197-204 | De-duplicating twice is de-duplicating once. |
| Dedup.KeepFirstSize | src/data_processor.py:197-204 | The kept rows number exactly the distinct keys. |
| Dedup.DuplicateCount | src/data_processor.py:197-204 | The dropped count plus the kept count is the row count. |
| Dedup.DetectDuplicates | src/data_processor.py:183-206 | Off: the frame is unchanged. On: there are no repeated keys, the set of keys is unchanged, and kept plus dropped is the row count. Only input rows are kept. |
| Dedup.DetectDuplicatesAt | src/data_processor.py:187-204 | Order is kept. Row `k` stays exactly when de-duplication is off or `k` is not a duplicate. |
| Anomalies.ZScoreOf | src/data_processor.py:219-223 | A z-score's square is never negative. The score is NaN exactly when the bank is null, or when the bank's spread is positive and the amount is null. |
| Anomalies.StandardisedAlgebra | src/data_processor.py:221-223 | The spread is positive exactly when the sample variance is. The model's `z²` equals the squared deviation over the sample variance. |
| Anomalies.ConstantBankScoresZero | src/data_processor.py:221-223 | A bank whose amounts are all equal scores 0: its std is 0, or NaN when it has one numeric amount, so `x.std() > 0` fails and the lambda's `else 0` applies. |
| Anomalies.ConstantBankNoAnomalies | src/data_processor.py:221-238 | With a non-negative threshold, a bank whose amounts are all equal contributes no anomalies. |
| Anomalies.DetectAnomalies | src/data_processor.py:208-240 | Off: nothing changes and there are no anomalies. On: the kept rows are exactly the rows with `abs(z) <= k`. The anomalies are exactly the rows with `abs(z) > k`, each tagged `statistical_outlier` with its score and `now`. |
| Anomalies.DetectAnomaliesPartition | src/data_processor.py:226-227 | When every bank and amount is present, each row is normal or an outlier but not both. Kept plus anomalies is the row count. |
| Anomalies.DetectAnomaliesAt | src/data_processor.py:226-227 | The kept rows keep their order, label by label. |
| Anomalies.NullBankRowsAreDropped | src/data_processor.py:221-227 | A row with a null bank has a NaN score and is neither kept nor reported. |
| Anomalies.OutlierMonotone | src/data_processor.py:226-227 | A lower threshold flags at least the rows a higher one flags. |
| Quality.LevelOf | src/data_processor.py:268-276 | The level is the best one whose minimum the score reaches (95, 85 or 75), otherwise POOR. |
| Quality.LevelMonotone | src/data_processor.py:268-276 | A higher score never gets a worse level. |
| Quality.LevelBoundaries | src/data_processor.py:268-276 | Each boundary belongs to the better level. |
| Quality.QualityScore | src/data_processor.py:266 | The score is valid/total × 100, or 0 for an empty frame. It lies in [0, 100] and is 100 when nothing was dropped. |
| Quality.QualityScoreMonotone | src/data_processor.py:266 | More valid rows never lower the score. |
| Quality.NullsIn | src/data_processor.py:252-255 | A column's null count is 0 exactly when no row has a null there. |
| Quality.NullRecordsZero | src/data_processor.py:250-255 | The report's null count is 0 exactly when no present required column has a null. |
| Quality.InvalidAmounts | src/data_processor.py:257-259 | The count is 0 exactly when the amount column is absent or every amount is numeric. |
| Quality.DuplicateRecords | src/data_processor.py:261-263 | Duplicates plus distinct keys is the row count. |
| Quality.ReportOf | src/data_processor.py:242-291 | The report carries the totals, anomaly count and timestamp. Its score is the rounded score, within 0.005 of the exact one. Its level is taken from the unrounded score. |
| Quality.ReportBounds | src/data_processor.py:266-288 | The score lies in [0, 100]. Invalid amounts do not exceed the total. Duplicates plus distinct keys is the total. An empty frame scores 0 and is POOR. |
| Quality.RoundedScoreAboveLevel | src/data_processor.py:266-276 | A report can show 95.0 and yet be GOOD: 94.997 rounds to 95.0 while its level is taken before rounding. |
| Processor.BankingDataProcessor.CountNullRecords | src/data_processor.py:250-255 | The loop's count is the report's null count, 0 exactly when no present required column has a null. |
| Processor.BankingDataProcessor.GenerateQualityReport | src/data_processor.py:242-291 | Returns the report of the run and keeps it on the processor. |
| Grouping.Group | src/data_processor.py:315 | A group holds exactly the rows with that key. |
| Grouping.GroupKeys | src/data_processor.py:315 | The keys are exactly the non-null keys present, each once. |
| Grouping.AmountValues | src/data_processor.py:304-312 | The numeric amounts of a group, all of them when every amount is numeric. |
| Grouping.ValueCounts | src/data_processor.py:325-328 | Each type value present maps to its number of rows, between 1 and the group size. |
| Grouping.DistinctValuesBound | src/data_processor.py:304-312 | `nunique` never exceeds the row count. |
| Grouping.GroupCountsTotal | src/data_processor.py:304-315 | The groups' counts add up to the rows that have a key and an amount. |
| Ordering.StrLessTrans | src/data_processor.py:315 | Python's string order, lexicographic by code point, is transitive. |
| Ordering.StrLessTotal | src/data_processor.py:315 | Two different strings are ordered one way or the other. |
| Ordering.PairLessTrans | src/data_processor.py:315 | The (bank, date) tuple order is transitive. |
| Ordering.PairLessTotal | src/data_processor.py:315 | Two different (bank, date) tuples are ordered one way or the other. |
| Ordering.Insert | src/data_processor.py:315 | Inserting a key adds exactly that key. |
| Ordering.InsertSorted | src/data_processor.py:315 | Inserting a key of a new rank into a sorted sequence keeps it sorted. |
| Ordering.SortByRank | src/data_processor.py:315 | The sort rearranges its input: the same keys, each as often. |
| Ordering.SortByRankSorted | src/data_processor.py:315 | Keys of distinct ranks come out strictly ascending. |
| Ordering.SortedDistinct | src/data_processor.py:315 | Strictly ascending keys are distinct. |
| Grouping.SortedKeys | src/data_processor.py:315 | The keys `groupby` emits are exactly the non-null keys present, a rearrangement of their first-appearance order. |
| Grouping.SortedKeysFacts | src/data_processor.py:304-315 | With a rank that tells keys apart, the emitted keys ascend strictly, are distinct, and their groups' counts add up to the rows that have a key and an amount. |
| Aggregation.GroupAmountBounds | src/data_processor.py:304-312 | Count and sum are taken over the group's amounts. Min ≤ every amount ≤ max. An all-NaN group counts 0. |
| Aggregation.GroupMean | src/data_processor.py:304-312 | The mean is sum over count (0 when the count is 0). |
| Aggregation.GroupDistinctBounds | src/data_processor.py:304-312 | Distinct customers and transactions are at most the group size. They are at most the count when every amount is numeric. |
| Aggregation.GroupPerCustomer | src/data_processor.py:333-339 | Per-customer averages times the customers give back the count and the volume. |
| Aggregation.GroupBreakdownFacts | src/data_processor.py:325-328 | There is a breakdown exactly when there is a type column. Its keys are exactly the group's types. Each count lies between 1 and the group size. |
| Aggregation.AggregateDailyAsWritten | src/data_processor.py:293-355 | As written, it succeeds only without a type column. With a type column the ten aggregated columns do not match the nine names and it fails. |
| Aggregation.TypeColumnBreaksAggregation | src/data_processor.py:304-323 | With a type column and numeric amounts, the code as written fails with 10 columns against 9 names, while the corrected aggregation succeeds. With a text amount both fail first on the amount. |
| Aggregation.AsWrittenAgreesWithoutTypeColumn | src/data_processor.py:304-323 | Without a type column both versions agree. |
| Aggregation.AggregateDaily | src/data_processor.py:293-355 | It fails exactly on an unparseable date, a missing aggregated column, or a text amount (the `TypeError` of `sum`/`mean`/`std`/`median` on an `object` column). Otherwise it gives one row per (bank, day) group, in `groupby`'s sorted order, with a breakdown exactly when the type column exists. |
| Aggregation.AggregateDailyKeys | src/data_processor.py:315-318 | Output row `i` is the `i`-th group key in ascending (bank, day) order. |
| Aggregation.AggregateDailyDistinct | src/data_processor.py:315 | The output rows ascend by bank and then by day, so no two share a (bank, day). |
| Aggregation.AggregateDailyCovers | src/data_processor.py:300-315 | The output keys are exactly the present (bank, day) keys. |
| Aggregation.AggregateDailyCountsSum | src/data_processor.py:304-315 | The output counts add up to the keyed rows with an amount. |
| Aggregation.AggregateDailyRowIsGroup | src/data_processor.py:315-347 | Every output row is the aggregate of a non-empty group of the input. |
| Aggregation.AggregateDailyRow | src/data_processor.py:304-347 | Every output row carries the given score and has min ≤ max, and every amount of its group lies between them. With all amounts numeric, count ≥ 1 and customers ≤ count. |
| Processor.BankingDataProcessor.AggregateDailyTransactions | src/data_processor.py:342-343 | The corrected aggregation: rows carry the kept report's score, or 100 when there is no report. |
| Processor.Prepared | src/data_processor.py:373-382 | After null cleaning, type validation and de-duplication: the columns are the same, no rows are added, order is kept, every row is typed, and keys are distinct when de-duplication is on. |
| Processor.CleanStages | src/data_processor.py:373-382 | It fails exactly when a critical column is missing, naming one. Otherwise every final row is typed and no rows are added. |
| Processor.CleanStagesFacts | src/data_processor.py:373-382 | Order is kept. Keys are distinct when de-duplication is on. Every row is normal when anomaly handling is on. Kept plus anomalies is at most the input. |
| Processor.ProcessedReport | src/data_processor.py:385 | The run's report has valid + anomalies ≤ total, a score in [0, 100] that reaches its level's minimum, and EXCELLENT when nothing was dropped. |
| Processor.ProcessedAggregates | src/data_processor.py:373-388 | With date and id columns, the corrected aggregation of a cleaned frame succeeds. |
| Processor.TypedFrameAggregates | src/data_processor.py:300-315 | The corrected aggregation of a typed frame with the grouped columns succeeds. |
| Processor.ProcessedAggregatesAsWritten | src/data_processor.py:304-323 | With a type column, the as-written aggregation of every cleaned frame fails. |
| Processor.DefaultConfigRunSucceeds | src/data_processor.py:55-66 | Under the default configuration, a frame that passes the schema check is cleaned and the corrected aggregation succeeds. The aggregation as written fails when the frame has a `transaction_type` column, which the default configuration does not require. |
| Processor.BankingDataProcessor.ProcessBankingData | src/data_processor.py:357-394 | A schema failure or a missing critical column is an error and leaves the kept report. Otherwise the report is replaced, and the result is the corrected aggregation's rows, the report and the anomalies, or the aggregation error. With a `transaction_type` column the aggregation as written fails at that point, after the report is stored. |
| Text.StripShape | src/data_processor.py:165-170 | A stripped value is a piece of the input that neither starts nor ends with a space. |
| Text.StripEmptyIff | src/data_processor.py:166-169 | Stripping gives "" exactly when the value is all whitespace. |
| Text.StripIdempotent | src/data_processor.py:166-169 | Stripping twice is stripping once. |
| Numeric.Round2 | src/data_processor.py:148 | The result is whole hundredths within 0.005 of the input. |
| Numeric.MinOf | src/data_processor.py:304-312 | The minimum is an element and at most every element. |
| Numeric.MaxOf | src/data_processor.py:304-312 | The maximum is an element and at least every element. |
| DagTransform.CleanedRowsExactly | airflow_home/dags/banking_data_pipeline.py:123-140 | Kept rows are exactly those with bank, customer and amount, with the amount numeric, > 0 and ≤ 1 000 000. |
| DagTransform.CapBoundaries | airflow_home/dags/banking_data_pipeline.py:128-140 | 1 000 000 is kept. 1 000 000.01, non-positive and text amounts are dropped. |
| DagTransform.TransformData | airflow_home/dags/banking_data_pipeline.py:109-174 | It succeeds exactly when the columns are present, the surviving dates parse and the input is non-empty. It then gives one row per (bank, timestamp) group of the cleaned rows, in ascending (bank, timestamp) order, scored kept/initial × 100. Errors name a missing or unparseable column. |
| DagTransform.TransformDataKeys | airflow_home/dags/banking_data_pipeline.py:145-157 | Output row `i` is the `i`-th group key in ascending (bank, timestamp) order. |
| DagTransform.TransformKeys | airflow_home/dags/banking_data_pipeline.py:145 | The output keys ascend by bank and then by timestamp, are distinct, and are exactly the present (bank, timestamp) keys. |
| DagTransform.TransformCountsSum | airflow_home/dags/banking_data_pipeline.py:145-146 | The counts add up to the keyed cleaned rows, which is all of them when every date is present. |
| DagTransform.GroupFacts | airflow_home/dags/banking_data_pipeline.py:145-147 | A non-empty group has count = size ≥ 1, a positive volume and customers ≤ count. |
| DagTransform.TransformRowIsGroup | airflow_home/dags/banking_data_pipeline.py:145-161 | Every output row is the aggregate of a non-empty cleaned group. |
| DagTransform.TransformRow | airflow_home/dags/banking_data_pipeline.py:145-161 | Every output row has count ≥ 1, a positive volume, customers ≤ count and a score in (0, 100]. |
| DagTransform.ScorePositive | airflow_home/dags/banking_data_pipeline.py:161 | A run that keeps some rows scores in (0, 100]. |
| DagLoad.InsertIgnore | airflow_home/dags/banking_data_pipeline.py:211-226 | An insert adds its key and keeps every stored row. A new key holds the inserted row. |
| DagLoad.InsertExistingKey | airflow_home/dags/banking_data_pipeline.py:203-213 | An insert on an existing key is ignored. |
| DagLoad.LoadAll | airflow_home/dags/banking_data_pipeline.py:211-226 | After a load, the keys are the old ones plus the batch's, and earlier rows are untouched. |
| DagLoad.LoadFirstWins | airflow_home/dags/banking_data_pipeline.py:203-226 | A new key holds the first of the batch's rows with that key. |
| DagLoad.LoadCovered | airflow_home/dags/banking_data_pipeline.py:203-226 | A batch whose keys are all stored changes nothing. |
| DagLoad.LoadIdempotent | airflow_home/dags/banking_data_pipeline.py:203-226 | Re-running the load leaves the table unchanged. |
| DagLoad.LoadSize | airflow_home/dags/banking_data_pipeline.py:203-226 | The table grows by exactly the batch's new keys. |
| DagLoad.SameDayGroupsCollide | airflow_home/dags/banking_data_pipeline.py:145-203 | Two groups of one bank on one day collide, and only the first is stored. |
| DagLoad.FirstWithKey | airflow_home/dags/banking_data_pipeline.py:211-226 | Finds the first row of a batch with a given key. |
| DagLoad.SortedLoadKeepsEarliest | airflow_home/dags/banking_data_pipeline.py:203-226 | Loading a batch sorted by (bank, timestamp) stores, for a new (bank, day), the batch's row of that key with the earliest timestamp. |
| DagLoad.LoadKeepsEarliest | airflow_home/dags/banking_data_pipeline.py:145-226 | Loading the transform's output stores, for each new (bank, day), that day's earliest timestamp group of the bank. The later groups of that day are dropped. |
| DagLoad.AggregateTable.constructor | airflow_home/dags/banking_data_pipeline.py:189-207 | `CREATE TABLE IF NOT EXISTS` keeps the existing rows. |
| DagLoad.AggregateTable.Insert | airflow_home/dags/banking_data_pipeline.py:212-226 | One `INSERT IGNORE` statement. |
| DagLoad.AggregateTable.Load | airflow_home/dags/banking_data_pipeline.py:211-226 | The loop's table is the batch loaded in order. |
| DagLoad.RecordCount | airflow_home/dags/banking_data_pipeline.py:238-245 | The count is 0 exactly when no stored row has that day. |
| DagLoad.DataQualityCheck | airflow_home/dags/banking_data_pipeline.py:230-263 | The check fails exactly when the day has no rows. Otherwise the count is positive, and there is a warning exactly when the average is below 80. |
| DagLoad.LoadedDayPasses | airflow_home/dags/banking_data_pipeline.py:211-248 | After loading a batch with a row for the day, the check passes. |

## Left out

- Reading and writing files, logging, XCom, the MySQL connection and Airflow scheduling and retries are left out. The DAG's extract task, `save_processing_results` and `generate_sample_data.py` are not part of this model.
- Floating point is modelled as exact reals. Also left out:
  - `std` and `median`;
  - the DAG's `std_transaction_value` column;
  - the `.round(2)` of the aggregate columns;
  - `DECIMAL` truncation;
  - the replacement of inf/NaN by 0 beyond division by zero.
- Anomalies.ZScoreOf: the score is kept as its exact square, not as a float `abs(z)`, so float rounding near the threshold is not modelled.
- The `amount_zscore` column that anomaly detection writes into the frame is not modelled. Only the decision each row's score leads to is. The processor's in-place column reassignments are modelled as new frame values.
- Text.StripShape: whitespace means the ten ASCII characters Python's `str.strip` removes: space, tab, line feed, carriage return, vertical tab, form feed and the separators 0x1C to 0x1F. Non-ASCII whitespace such as U+0085, U+00A0 and U+2028 is not covered.
- The configuration's currency precision is fixed at 2. `date_format` is never read, and `min_transaction_amount` is read but never compared, so both are left out.
- Quality.NullsIn: a cell of a column outside the eight modelled ones always counts as non-null.
- Aggregation.AggregateDaily: a text cell anywhere in the amount column is taken to make the column `object` dtype and the aggregation raise. An `object` column that holds only numbers is not distinguished from a numeric one.
- DagLoad.InsertIgnore: keys compare as exact strings. MySQL's default collation compares `bank_id` case-insensitively, and in 5.x also ignores trailing spaces, so such ids would collide there and only the first would be stored.
- Processor.BankingDataProcessor.constructor: `config or default` with an empty dictionary is not distinguished from no configuration.
- DagLoad.DataQualityCheck: the `AVG` returned by the second query is a parameter. A NULL average is not modelled.
- A single `now` stands for every `datetime.now()` call in one run.
- Processor.BankingDataProcessor.ProcessBankingData and Processor.BankingDataProcessor.AggregateDailyTransactions: both run the corrected aggregation. As written, the run raises `ValueError` after storing the report whenever the cleaned frame has a `transaction_type` column (`Processor.ProcessedAggregatesAsWritten`, and the last postcondition of `ProcessBankingData`). The model returns the aggregates there instead.
- Processor.DefaultConfigRunSucceeds: the success it proves is the corrected aggregation's. As written, a frame with a `transaction_type` column fails.
- Dedup.DetectDuplicates: when none of the four key columns is present, the model gives every row the same key. It keeps one row and reports the rest as duplicates. pandas' `duplicated` with an empty subset on a non-empty frame is not modelled. This cannot arise inside `ProcessBankingData`, because null cleaning already needs the bank, customer and amount columns.
- Processor.BankingDataProcessor.ProcessBankingData: it requires the input's labels to increase. This holds for a frame read from a file, as both pipelines read theirs.
- The `str()` rendering of the type breakdown is not modelled. It is kept as a map.
- Anomalies.DetectAnomalies: it requires numeric or null amounts when enabled. On text amounts pandas raises a `TypeError`, which is not modelled. The processor only calls it after type validation.
- Cleaning.CleanNullValues and Cleaning.ValidateColumnTypes: they require the columns they index. The `KeyError` a missing column raises is modelled in Processor.CleanStages.

## Findings

| source | as written | input that shows it | evidently intended | confidence | as-written member | corrected member |
|---|---|---|---|---|---|---|
| src/data_processor.py:304-323 | The column list gets nine names. With a `transaction_type` column the aggregation has ten columns, so assigning the names raises `ValueError`. | any frame that passes the cleaning stages and still has a `transaction_type` column | the type breakdown is a tenth column next to the nine named statistics | not executed | Aggregation.AggregateDailyAsWritten, Aggregation.TypeColumnBreaksAggregation | Aggregation.AggregateDaily |
