/**
 * The processor's first three stages: the schema check, null handling and
 * column type validation (`validate_schema`, `clean_null_values` and
 * `validate_column_types` of `BankingDataProcessor`).
 */
module Cleaning {
  import opened Wrappers
  import opened Rows
  import opened Numeric
  import opened Text
  import opened ProcessorConfig

  // ---------------------------------------------------------------------------
  // validate_schema

  datatype SchemaError = MissingRequiredColumns(columns: seq<Column>) | EmptyDataFrame

  /** `a` is `b` with some elements left out, the rest in their order. */
  ghost predicate SubsequenceOf(a: seq<Column>, b: seq<Column>)
    decreases |b|
  {
    if b == [] then a == []
    else (a != [] && a[0] == b[0] && SubsequenceOf(a[1..], b[1..])) || SubsequenceOf(a, b[1..])
  }

  /** The required columns the frame lacks, in configuration order. */
  function MissingColumns(required: seq<Column>, present: set<Column>): (m: seq<Column>)
    ensures forall c :: c in m <==> c in required && c !in present
    ensures SubsequenceOf(m, required)
    ensures m == [] <==> forall c :: c in required ==> c in present
  {
    if required == [] then []
    else
      var rest := MissingColumns(required[1..], present);
      assert forall c :: c in required <==> c == required[0] || c in required[1..];
      if required[0] in present then rest
      else
        assert ([required[0]] + rest)[1..] == rest;
        [required[0]] + rest
  }

  /** pandas `df.empty`: no rows or no columns. */
  predicate IsEmpty(f: Frame) {
    |f.rows| == 0 || f.columns == {}
  }

  /** `validate_schema`: whether the frame may be processed, and the error list. */
  function ValidateSchema(cfg: Config, f: Frame): (r: (bool, seq<SchemaError>))
    ensures r.0 <==> r.1 == []
    ensures r.0 <==> (forall c :: c in cfg.requiredColumns ==> c in f.columns) && !IsEmpty(f)
    ensures EmptyDataFrame in r.1 <==> IsEmpty(f)
    ensures forall k :: 0 <= k < |r.1| && r.1[k].MissingRequiredColumns? ==>
      k == 0 && r.1[k].columns != [] && SubsequenceOf(r.1[k].columns, cfg.requiredColumns)
      && forall c :: c in r.1[k].columns <==> c in cfg.requiredColumns && c !in f.columns
    ensures (exists c :: c in cfg.requiredColumns && c !in f.columns) ==> r.1[0].MissingRequiredColumns?
  {
    var missing := MissingColumns(cfg.requiredColumns, f.columns);
    assert missing != [] ==> missing[0] in missing;
    var errors :=
      (if missing != [] then [MissingRequiredColumns(missing)] else [])
      + (if IsEmpty(f) then [EmptyDataFrame] else []);
    (|errors| == 0, errors)
  }

  // ---------------------------------------------------------------------------
  // clean_null_values

  /** A filter followed by a label-keeping row map, looked up by label. */
  lemma FilterThenMapAt(keep: Txn -> bool, f: Txn -> Txn, s: Batch)
    requires KeepsLabels(f)
    ensures Increasing(s) ==> Increasing(MapRows(f, FilterRows(keep, s)))
    ensures Increasing(s) ==> forall i: nat ::
      RowAt(MapRows(f, FilterRows(keep, s)), i) == Mapped(f, Kept(keep, RowAt(s, i)))
  {
    FilterRowsAt(keep, s);
    MapRowsAt(f, FilterRows(keep, s));
  }

  /** `bank_id`, `customer_id` and `amount` are all non-null. */
  predicate HasCriticalFields(t: Txn) {
    t.bankId.Some? && t.customerId.Some? && t.amount.Some?
  }

  /** The `fillna` defaults of the optional columns, applied where the column exists. */
  function FillOptionalFields(cols: set<Column>, t: Txn): (u: Txn)
    ensures u.(transactionType := t.transactionType, description := t.description) == t
    ensures TransactionType in cols ==> u.transactionType == Some(t.transactionType.GetOr(UnknownType))
    ensures TransactionType !in cols ==> u.transactionType == t.transactionType
    ensures Description in cols ==> u.description == Some(t.description.GetOr("No description"))
    ensures Description !in cols ==> u.description == t.description
  {
    t.(transactionType := if TransactionType in cols then Some(t.transactionType.GetOr(UnknownType)) else t.transactionType,
       description := if Description in cols then Some(t.description.GetOr("No description")) else t.description)
  }

  /** `clean_null_values`. */
  function CleanNullValues(f: Frame): (r: Frame)
    requires BankId in f.columns && CustomerId in f.columns && Amount in f.columns
    ensures r.columns == f.columns
    ensures |r.rows| <= |f.rows|
    ensures forall t :: t in r.rows ==> HasCriticalFields(t)
    ensures forall t :: t in r.rows && TransactionType in f.columns ==> t.transactionType.Some?
    ensures Increasing(f.rows) ==> Increasing(r.rows)
    ensures Increasing(f.rows) ==> forall i: nat ::
      RowAt(r.rows, i) == (if RowAt(f.rows, i).Some? && HasCriticalFields(RowAt(f.rows, i).value)
                           then Some(FillOptionalFields(f.columns, RowAt(f.rows, i).value)) else None)
  {
    var kept := FilterRows(HasCriticalFields, f.rows);
    var fill := t => FillOptionalFields(f.columns, t);
    var rows := MapRows(fill, kept);
    assert forall t :: t in rows ==> HasCriticalFields(t) by {
      forall t | t in rows ensures HasCriticalFields(t) {
        var k :| 0 <= k < |rows| && rows[k] == t;
        assert kept[k] in kept;
      }
    }
    FilterThenMapAt(HasCriticalFields, fill, f.rows);
    Frame(f.columns, rows)
  }

  // ---------------------------------------------------------------------------
  // validate_column_types

  /** The amount is numeric and inside `(0, max_transaction_amount]` (before rounding). */
  predicate AmountInRange(cfg: Config, t: Txn) {
    NumericAmount(t).Some? && 0.0 < NumericAmount(t).value <= cfg.maxTransactionAmount
  }

  function RoundAmount(t: Txn): Txn {
    t.(amount := if NumericAmount(t).Some? then Some(Num(Round2(NumericAmount(t).value))) else t.amount)
  }

  /** `pd.to_datetime(errors='coerce')` on the date column: unparseable text becomes NaT. */
  function ParseDate(t: Txn): Txn {
    t.(transactionDate := if ParsedStamp(t.transactionDate).Some? then t.transactionDate else None)
  }

  /** The parsed date is after `now`; NaT compares false. */
  predicate IsFuture(t: Txn, now: int) {
    ParsedStamp(t.transactionDate).Some? && ParsedStamp(t.transactionDate).value > now
  }

  /** The parsed date is at or before `now`; NaT compares false. */
  predicate NotAfter(t: Txn, now: int) {
    ParsedStamp(t.transactionDate).Some? && ParsedStamp(t.transactionDate).value <= now
  }

  /** The future-date filter, applied only when some row has a future date. */
  function DropFutureDates(s: Batch, now: int): Batch {
    if exists t :: t in s && IsFuture(t, now) then FilterRows(t => NotAfter(t, now), s) else s
  }

  /** The identifier column a string check applies to. */
  predicate IsIdColumn(c: Column) {
    c == BankId || c == CustomerId || c == TransactionId
  }

  function IdField(c: Column, t: Txn): Option<string>
    requires IsIdColumn(c)
  {
    if c == BankId then t.bankId else if c == CustomerId then t.customerId else t.transactionId
  }

  /** `astype(str).str.strip()` on one identifier column. */
  function StripId(c: Column, t: Txn): (u: Txn)
    requires IsIdColumn(c)
    ensures IdField(c, u) == Some(Strip(AsStr(IdField(c, t))))
    ensures forall d :: IsIdColumn(d) && d != c ==> IdField(d, u) == IdField(d, t)
    ensures u.rowIndex == t.rowIndex
  {
    var v := Some(Strip(AsStr(IdField(c, t))));
    if c == BankId then t.(bankId := v)
    else if c == CustomerId then t.(customerId := v)
    else t.(transactionId := v)
  }

  /** Strip one identifier column and drop the rows where it is then empty. */
  function StripAndDropEmpty(cols: set<Column>, c: Column, s: Batch): (r: Batch)
    requires IsIdColumn(c)
    ensures |r| <= |s|
  {
    if c in cols then FilterRows(t => IdField(c, t) != Some(""), MapRows(t => StripId(c, t), s)) else s
  }

  /** Unknown or null transaction types become UNKNOWN. */
  function NormalizeType(t: Txn): Txn {
    t.(transactionType :=
         if t.transactionType.Some? && t.transactionType.value in AcceptedTypeValues then t.transactionType
         else Some(UnknownType))
  }

  /** Some row that passes the amount checks has a parsed date after `now`: the future-date filter is applied. */
  predicate FutureDatePresent(cfg: Config, f: Frame, now: int) {
    TransactionDate in f.columns && exists t :: t in f.rows && AmountInRange(cfg, t) && IsFuture(t, now)
  }

  /** A row map followed by a filter, looked up by label. */
  lemma MapThenFilterAt(f: Txn -> Txn, keep: Txn -> bool, s: Batch)
    requires KeepsLabels(f)
    ensures Increasing(s) ==> Increasing(FilterRows(keep, MapRows(f, s)))
    ensures Increasing(s) ==> forall i: nat ::
      RowAt(FilterRows(keep, MapRows(f, s)), i) == Kept(keep, Mapped(f, RowAt(s, i)))
  {
    MapRowsAt(f, s);
    FilterRowsAt(keep, MapRows(f, s));
  }

  /** Amount coercion, the range filter and rounding. */
  function AmountStage(cfg: Config, s: Batch): (r: Batch)
    ensures |r| <= |s|
    ensures Increasing(s) ==> Increasing(r)
    ensures Increasing(s) ==> forall i: nat ::
      RowAt(r, i) == Mapped(RoundAmount, Kept(t => AmountInRange(cfg, t), RowAt(s, i)))
  {
    var numeric := t => NumericAmount(t).Some?;
    var inRange := t => AmountInRange(cfg, t);
    var s1 := FilterRows(numeric, s);
    FilterThenMapAt(inRange, RoundAmount, s1);
    FilterRowsAt(numeric, s);
    MapRows(RoundAmount, FilterRows(inRange, s1))
  }

  /** Some row has a parsed date after `now`. */
  predicate AnyFuture(s: Batch, now: int) {
    exists t :: t in s && IsFuture(t, now)
  }

  /** Date parsing and the future-date filter (when the date column exists). */
  function DateStage(cols: set<Column>, s: Batch, now: int): (r: Batch)
    ensures |r| <= |s|
    ensures Increasing(s) ==> Increasing(r)
    ensures Increasing(s) ==> forall i: nat ::
      RowAt(r, i) == if TransactionDate !in cols then RowAt(s, i)
                     else if AnyFuture(s, now) then Kept(t => NotAfter(t, now), Mapped(ParseDate, RowAt(s, i)))
                     else Mapped(ParseDate, RowAt(s, i))
  {
    if TransactionDate !in cols then s
    else
      var parsed := MapRows(ParseDate, s);
      assert AnyFuture(parsed, now) <==> AnyFuture(s, now) by {
        if AnyFuture(s, now) {
          var t :| t in s && IsFuture(t, now);
          var k :| 0 <= k < |s| && s[k] == t;
          assert parsed[k] in parsed && IsFuture(parsed[k], now);
        }
        if AnyFuture(parsed, now) {
          var t :| t in parsed && IsFuture(t, now);
          var k :| 0 <= k < |parsed| && parsed[k] == t;
          assert s[k] in s && IsFuture(s[k], now);
        }
      }
      MapThenFilterAt(ParseDate, t => NotAfter(t, now), s);
      MapRowsAt(ParseDate, s);
      DropFutureDates(parsed, now)
  }

  /** What one strip-and-drop stage does to the row with a given label. */
  function IdStage(cols: set<Column>, c: Column, o: Option<Txn>): Option<Txn>
    requires IsIdColumn(c)
  {
    if c !in cols || o.None? then o
    else if IdField(c, StripId(c, o.value)) != Some("") then Some(StripId(c, o.value))
    else None
  }

  lemma StripAndDropEmptyAt(cols: set<Column>, c: Column, s: Batch)
    requires IsIdColumn(c)
    ensures Increasing(s) ==> Increasing(StripAndDropEmpty(cols, c, s))
    ensures Increasing(s) ==> forall i: nat ::
      RowAt(StripAndDropEmpty(cols, c, s), i) == IdStage(cols, c, RowAt(s, i))
  {
    if c in cols {
      MapThenFilterAt(t => StripId(c, t), t => IdField(c, t) != Some(""), s);
    }
  }

  /** One stage on a present row: dropped when its identifier strips to empty, else stripped. */
  lemma IdStageSome(cols: set<Column>, c: Column, t: Txn)
    requires IsIdColumn(c)
    ensures IdStage(cols, c, Some(t)) ==
      if c in cols && Strip(AsStr(IdField(c, t))) == "" then None
      else Some(if c in cols then StripId(c, t) else t)
  {
  }

  /** The three stages on one row: it survives with its identifiers stripped exactly when none strips to empty. */
  lemma IdStagesRow(cols: set<Column>, o: Option<Txn>)
    ensures IdStage(cols, TransactionId, IdStage(cols, CustomerId, IdStage(cols, BankId, o))) ==
      if o.Some? && IdsNonEmpty(cols, o.value) then Some(StripIds(cols, o.value)) else None
  {
    if o.Some? {
      var t := o.value;
      var b := if BankId in cols then StripId(BankId, t) else t;
      IdStageSome(cols, BankId, t);
      if BankId !in cols || Strip(AsStr(t.bankId)) != "" {
        var c := if CustomerId in cols then StripId(CustomerId, b) else b;
        assert IdField(CustomerId, b) == t.customerId;
        IdStageSome(cols, CustomerId, b);
        if CustomerId !in cols || Strip(AsStr(t.customerId)) != "" {
          var d := if TransactionId in cols then StripId(TransactionId, c) else c;
          assert IdField(TransactionId, c) == t.transactionId;
          IdStageSome(cols, TransactionId, c);
          assert d == StripIds(cols, t);
        }
      }
    }
  }

  /** Identifier stripping and whether an input row survives it, all three columns. */
  function IdStages(cols: set<Column>, s: Batch): (r: Batch)
    ensures |r| <= |s|
    ensures Increasing(s) ==> Increasing(r)
    ensures Increasing(s) ==> forall i: nat ::
      RowAt(r, i) == if RowAt(s, i).Some? && IdsNonEmpty(cols, RowAt(s, i).value)
                     then Some(StripIds(cols, RowAt(s, i).value)) else None
  {
    var s5 := StripAndDropEmpty(cols, BankId, s);
    var s6 := StripAndDropEmpty(cols, CustomerId, s5);
    var s7 := StripAndDropEmpty(cols, TransactionId, s6);
    IdStagesAt(cols, s);
    s7
  }

  lemma IdStagesAt(cols: set<Column>, s: Batch)
    ensures var r := StripAndDropEmpty(cols, TransactionId, StripAndDropEmpty(cols, CustomerId, StripAndDropEmpty(cols, BankId, s)));
      && (Increasing(s) ==> Increasing(r))
      && (Increasing(s) ==> forall i: nat ::
            RowAt(r, i) == if RowAt(s, i).Some? && IdsNonEmpty(cols, RowAt(s, i).value)
                           then Some(StripIds(cols, RowAt(s, i).value)) else None)
  {
    var s5 := StripAndDropEmpty(cols, BankId, s);
    var s6 := StripAndDropEmpty(cols, CustomerId, s5);
    var s7 := StripAndDropEmpty(cols, TransactionId, s6);
    StripAndDropEmptyAt(cols, BankId, s);
    StripAndDropEmptyAt(cols, CustomerId, s5);
    StripAndDropEmptyAt(cols, TransactionId, s6);
    if Increasing(s) {
      forall i: nat ensures RowAt(s7, i) == if RowAt(s, i).Some? && IdsNonEmpty(cols, RowAt(s, i).value)
                                           then Some(StripIds(cols, RowAt(s, i).value)) else None
      {
        IdStagesRow(cols, RowAt(s, i));
      }
    }
  }

  /** The stripped identifiers of the present identifier columns are all non-empty. */
  predicate IdsNonEmpty(cols: set<Column>, t: Txn) {
    && (BankId in cols ==> Strip(AsStr(t.bankId)) != "")
    && (CustomerId in cols ==> Strip(AsStr(t.customerId)) != "")
    && (TransactionId in cols ==> Strip(AsStr(t.transactionId)) != "")
  }

  function StripIds(cols: set<Column>, t: Txn): (u: Txn)
    ensures u.bankId == if BankId in cols then Some(Strip(AsStr(t.bankId))) else t.bankId
    ensures u.customerId == if CustomerId in cols then Some(Strip(AsStr(t.customerId))) else t.customerId
    ensures u.transactionId == if TransactionId in cols then Some(Strip(AsStr(t.transactionId))) else t.transactionId
    ensures u.(bankId := t.bankId, customerId := t.customerId, transactionId := t.transactionId) == t
  {
    var c := if BankId in cols then StripId(BankId, t) else t;
    var d := if CustomerId in cols then StripId(CustomerId, c) else c;
    if TransactionId in cols then StripId(TransactionId, d) else d
  }

  /** Transaction type normalisation (when the type column exists). */
  function TypeStage(cols: set<Column>, s: Batch): (r: Batch)
    ensures |r| == |s|
    ensures Increasing(s) ==> Increasing(r)
    ensures Increasing(s) ==> forall i: nat ::
      RowAt(r, i) == if TransactionType in cols then Mapped(NormalizeType, RowAt(s, i)) else RowAt(s, i)
  {
    if TransactionType in cols then
      MapRowsAt(NormalizeType, s);
      MapRows(NormalizeType, s)
    else s
  }

  /** Whether one input row survives type validation, given whether the future-date filter is on. */
  predicate PassesTypeChecks(cfg: Config, cols: set<Column>, t: Txn, dateFilterOn: bool, now: int) {
    && AmountInRange(cfg, t)
    && (dateFilterOn ==> NotAfter(t, now))
    && IdsNonEmpty(cols, t)
  }

  /** The row a surviving input row becomes. */
  function TypedRow(cols: set<Column>, t: Txn): (u: Txn)
    ensures u.rowIndex == t.rowIndex
    ensures NumericAmount(t).Some? ==> NumericAmount(u) == Some(Round2(NumericAmount(t).value))
    ensures u.transactionDate == if TransactionDate in cols then ParseDate(t).transactionDate else t.transactionDate
    ensures u.(transactionType := t.transactionType, amount := t.amount, transactionDate := t.transactionDate)
            == StripIds(cols, t)
    ensures u.transactionType == if TransactionType in cols then NormalizeType(t).transactionType else t.transactionType
  {
    var a := RoundAmount(t);
    var b := if TransactionDate in cols then ParseDate(a) else a;
    var e := StripIds(cols, b);
    if TransactionType in cols then NormalizeType(e) else e
  }

  /** `validate_column_types`, with `datetime.now()` passed in as `now`. */
  function ValidateColumnTypes(cfg: Config, f: Frame, now: int): (r: Frame)
    requires Amount in f.columns
    ensures r.columns == f.columns
    ensures |r.rows| <= |f.rows|
    ensures Increasing(f.rows) ==> Increasing(r.rows)
    ensures Increasing(f.rows) ==> forall i: nat ::
      RowAt(r.rows, i) == (if RowAt(f.rows, i).Some?
                             && PassesTypeChecks(cfg, f.columns, RowAt(f.rows, i).value, FutureDatePresent(cfg, f, now), now)
                           then Some(TypedRow(f.columns, RowAt(f.rows, i).value)) else None)
  {
    var s8 := TypeStage(f.columns, IdStages(f.columns, DateStage(f.columns, AmountStage(cfg, f.rows), now)));
    TypeStagesAt(cfg, f, now);
    Frame(f.columns, s8)
  }

  /** The four stages of type validation composed, label by label. */
  lemma TypeStagesAt(cfg: Config, f: Frame, now: int)
    ensures var r := TypeStage(f.columns, IdStages(f.columns, DateStage(f.columns, AmountStage(cfg, f.rows), now)));
      && (Increasing(f.rows) ==> Increasing(r))
      && (Increasing(f.rows) ==> forall i: nat ::
            RowAt(r, i) == (if RowAt(f.rows, i).Some?
                              && PassesTypeChecks(cfg, f.columns, RowAt(f.rows, i).value, FutureDatePresent(cfg, f, now), now)
                            then Some(TypedRow(f.columns, RowAt(f.rows, i).value)) else None))
  {
    var cols := f.columns;
    var s3 := AmountStage(cfg, f.rows);
    var s4 := DateStage(cols, s3, now);
    var s7 := IdStages(cols, s4);
    var s8 := TypeStage(cols, s7);
    FutureFlag(cfg, f, now);
    if Increasing(f.rows) {
      var on := FutureDatePresent(cfg, f, now);
      forall i: nat ensures RowAt(s8, i) == (if RowAt(f.rows, i).Some? && PassesTypeChecks(cfg, cols, RowAt(f.rows, i).value, on, now)
                                             then Some(TypedRow(cols, RowAt(f.rows, i).value)) else None)
      {
        if RowAt(f.rows, i).Some? {
          var t := RowAt(f.rows, i).value;
          var a := RoundAmount(t);
          var b := if TransactionDate in cols then ParseDate(a) else a;
          assert TransactionDate in cols ==> (NotAfter(b, now) <==> NotAfter(t, now));
          assert AmountInRange(cfg, t) ==> RowAt(s3, i) == Some(a);
          assert !AmountInRange(cfg, t) ==> RowAt(s3, i) == None;
          assert AmountInRange(cfg, t) ==> RowAt(s4, i) == if TransactionDate in cols && on && !NotAfter(t, now) then None else Some(b);
          assert IdsNonEmpty(cols, b) == IdsNonEmpty(cols, t);
        }
      }
    }
  }

  /** The future-date filter's condition, evaluated after the amount checks, in terms of the input. */
  lemma FutureFlag(cfg: Config, f: Frame, now: int)
    ensures Increasing(f.rows) && TransactionDate in f.columns ==>
      (AnyFuture(AmountStage(cfg, f.rows), now) <==> FutureDatePresent(cfg, f, now))
  {
    if Increasing(f.rows) && TransactionDate in f.columns {
      FutureFlagForward(cfg, f, now);
      FutureFlagBackward(cfg, f, now);
    }
  }

  lemma FutureFlagForward(cfg: Config, f: Frame, now: int)
    requires Increasing(f.rows) && TransactionDate in f.columns
    ensures AnyFuture(AmountStage(cfg, f.rows), now) ==> FutureDatePresent(cfg, f, now)
  {
    var s3 := AmountStage(cfg, f.rows);
    if AnyFuture(s3, now) {
      var t :| t in s3 && IsFuture(t, now);
      RowAtMember(s3, t);
      var u := RowAt(f.rows, t.rowIndex).value;
      assert u in f.rows && AmountInRange(cfg, u) && IsFuture(u, now);
    }
  }

  lemma FutureFlagBackward(cfg: Config, f: Frame, now: int)
    requires Increasing(f.rows) && TransactionDate in f.columns
    ensures FutureDatePresent(cfg, f, now) ==> AnyFuture(AmountStage(cfg, f.rows), now)
  {
    var s3 := AmountStage(cfg, f.rows);
    if FutureDatePresent(cfg, f, now) {
      var u :| u in f.rows && AmountInRange(cfg, u) && IsFuture(u, now);
      RowAtMember(f.rows, u);
      assert RowAt(s3, u.rowIndex) == Some(RoundAmount(u));
      assert RoundAmount(u) in s3 && IsFuture(RoundAmount(u), now);
    }
  }

  /** What every row leaving type validation satisfies. */
  predicate IsTypedRow(cfg: Config, cols: set<Column>, t: Txn) {
    && NumericAmount(t).Some?
    && 0.0 <= NumericAmount(t).value
    && IsCents(NumericAmount(t).value)
    && (IsCents(cfg.maxTransactionAmount) ==> NumericAmount(t).value <= cfg.maxTransactionAmount)
    && (TransactionDate in cols ==> t.transactionDate.None? || t.transactionDate.value.Stamp?)
    && (BankId in cols ==> t.bankId.Some? && t.bankId.value != "" && Strip(t.bankId.value) == t.bankId.value)
    && (CustomerId in cols ==> t.customerId.Some? && t.customerId.value != "" && Strip(t.customerId.value) == t.customerId.value)
    && (TransactionId in cols ==> t.transactionId.Some? && t.transactionId.value != "" && Strip(t.transactionId.value) == t.transactionId.value)
    && (TransactionType in cols ==> t.transactionType.Some? && t.transactionType.value in AcceptedTypeValues)
  }

  /**
   * After type validation every amount is numeric, whole hundredths, at least 0 and at most the
   * maximum; identifiers are stripped and non-empty; types are accepted values; and when the
   * future-date filter ran, every date is parsed and not after `now`.
   */
  lemma ValidatedRowsAreTyped(cfg: Config, f: Frame, now: int)
    requires Amount in f.columns && Increasing(f.rows)
    ensures forall t :: t in ValidateColumnTypes(cfg, f, now).rows ==> IsTypedRow(cfg, f.columns, t)
    ensures FutureDatePresent(cfg, f, now) ==>
      forall t :: t in ValidateColumnTypes(cfg, f, now).rows ==> NotAfter(t, now)
  {
    var r := ValidateColumnTypes(cfg, f, now);
    var on := FutureDatePresent(cfg, f, now);
    forall t | t in r.rows
      ensures IsTypedRow(cfg, f.columns, t)
      ensures on ==> NotAfter(t, now)
    {
      RowAtMember(r.rows, t);
      var u := RowAt(f.rows, t.rowIndex).value;
      assert PassesTypeChecks(cfg, f.columns, u, on, now) && t == TypedRow(f.columns, u);
      TypedRowIsTyped(cfg, f.columns, u, on, now);
    }
  }

  /** One surviving input row, after rounding, parsing, stripping and type normalisation. */
  lemma TypedRowIsTyped(cfg: Config, cols: set<Column>, u: Txn, dateFilterOn: bool, now: int)
    requires PassesTypeChecks(cfg, cols, u, dateFilterOn, now)
    ensures IsTypedRow(cfg, cols, TypedRow(cols, u))
    ensures dateFilterOn ==> NotAfter(TypedRow(cols, u), now)
  {
    var t := TypedRow(cols, u);
    var v := NumericAmount(u).value;
    assert NumericAmount(t) == Some(Round2(v));
    assert t.bankId == StripIds(cols, u).bankId;
    assert t.customerId == StripIds(cols, u).customerId;
    assert t.transactionId == StripIds(cols, u).transactionId;
    assert Round2(v) >= 0.0 by {
      var n := (Round2(v) * 100.0).Floor;
      assert n as real == Round2(v) * 100.0;
    }
    if IsCents(cfg.maxTransactionAmount) {
      Round2Bounds(v, 0.0, cfg.maxTransactionAmount);
    }
    if BankId in cols {
      StripIdempotent(AsStr(u.bankId));
    }
    if CustomerId in cols {
      StripIdempotent(AsStr(u.customerId));
    }
    if TransactionId in cols {
      StripIdempotent(AsStr(u.transactionId));
    }
  }

  /**
   * The range check runs before rounding: a row whose amount is positive but below half a cent
   * passes `> 0` and leaves type validation with an amount of 0.00.
   */
  lemma SubCentAmountSurvivesAsZero(cfg: Config, f: Frame, now: int, i: nat)
    requires Amount in f.columns && Increasing(f.rows)
    requires RowAt(f.rows, i).Some?
    requires PassesTypeChecks(cfg, f.columns, RowAt(f.rows, i).value, FutureDatePresent(cfg, f, now), now)
    requires NumericAmount(RowAt(f.rows, i).value).value < 0.005
    ensures RowAt(ValidateColumnTypes(cfg, f, now).rows, i).Some?
    ensures NumericAmount(RowAt(ValidateColumnTypes(cfg, f, now).rows, i).value) == Some(0.0)
  {
    var u := RowAt(f.rows, i).value;
    Round2OfSubCent(NumericAmount(u).value);
  }
}
