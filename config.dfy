/** The processor's configuration dictionary and its transaction-type enumeration. */
module ProcessorConfig {
  import opened Rows

  /**
   * The configuration keys the processor reads.  `minTransactionAmount` is
   * read by the type validation but never used in a comparison; the date
   * format key is never read; the currency precision is fixed at 2.
   */
  datatype Config = Config(
    maxTransactionAmount: real,
    minTransactionAmount: real,
    requiredColumns: seq<Column>,
    anomalyThresholdStd: real,
    removeDuplicates: bool,
    handleOutliers: bool)

  /** `_get_default_config`. */
  const DefaultConfig: Config := Config(
    1000000.0,
    0.01,
    [TransactionId, BankId, CustomerId, Amount, TransactionDate],
    3.0,
    true,
    true)

  /** The `TransactionType` enumeration. */
  datatype TransactionType = TRANSFER | DEPOSIT | WITHDRAWAL | PAYMENT {
    function Value(): string {
      match this
      case TRANSFER => "TRANSFER"
      case DEPOSIT => "DEPOSIT"
      case WITHDRAWAL => "WITHDRAWAL"
      case PAYMENT => "PAYMENT"
    }
  }

  /** The value a missing or unrecognised transaction type is given. */
  const UnknownType: string := "UNKNOWN"

  /** `[t.value for t in TransactionType] + ['UNKNOWN']`: the accepted type values. */
  const AcceptedTypeValues: seq<string> :=
    [TRANSFER.Value(), DEPOSIT.Value(), WITHDRAWAL.Value(), PAYMENT.Value(), UnknownType]

  /** A type value is accepted exactly when it names an enumeration member or is UNKNOWN. */
  lemma AcceptedTypeValuesAre(s: string)
    ensures s in AcceptedTypeValues <==> s == UnknownType || exists tt: TransactionType :: tt.Value() == s
  {
    if s in AcceptedTypeValues && s != UnknownType {
      var k :| 0 <= k < 4 && AcceptedTypeValues[k] == s;
      var tt := [TRANSFER, DEPOSIT, WITHDRAWAL, PAYMENT][k];
      assert tt.Value() == s;
    }
  }
}
