/** The money value object: whole cents of one currency, with arithmetic that raises. */
module FinMoney {
  import opened Results

  datatype FinError =
    | MoneyNegativeForbidden
    | MoneyPrecisionLoss
    | MoneyCurrencyMismatch
    | TreasuryAccountDuplicate
    | TreasuryAccountNotFound
    | TreasuryFreezeExceed
    | TreasuryInsufficientBalance
    | TreasuryTransferFailed
    | TreasuryTransferNotFound
    | TreasuryTransferSameAccount
    | TreasuryTransferInvalidTransition
    | SettlementDuplicate
    | SettlementNotFound
    | SettlementLineEmpty
    | SettlementInvalidTransition
    | SettlementCrossTenantNotConfirmed
    | PaymentDuplicate
    | PaymentNotFound
    | PaymentExceedAP
    | PaymentApprovalExceedAuthority
    | PaymentInvalidTransition
    | PaymentAlreadySuccess
    | VoucherNotFound
    | ReceiptNotFound
    | ReceiptAlreadyWriteOff
    | ReceiptInvalidTransition
    | ReceiptWriteOffExceed
    | VoucherUnbalanced
    | EmptyLines
    | KeyConflict

  datatype Money = Money(cents: nat, currency: string)

  /** The amounts that money can have: not negative, and whole hundredths. */
  predicate Exact(amount: real) {
    amount >= 0.0 && (amount * 100.0).Floor as real == amount * 100.0
  }

  /** The value object's constructor: not negative, at most two decimals. */
  function FromDecimal(amount: real, currency: string): (r: Result<Money, FinError>)
    ensures r.Ok? <==> Exact(amount)
    ensures r.Ok? ==> r.value.cents as real / 100.0 == amount && r.value.currency == currency
  {
    if amount < 0.0 then Err(MoneyNegativeForbidden)
    else if (amount * 100.0).Floor as real != amount * 100.0 then Err(MoneyPrecisionLoss)
    else Ok(Money((amount * 100.0).Floor, currency))
  }

  function Add(a: Money, b: Money): Result<Money, FinError> {
    if a.currency != b.currency then Err(MoneyCurrencyMismatch) else Ok(Money(a.cents + b.cents, a.currency))
  }

  function Subtract(a: Money, b: Money): Result<Money, FinError> {
    if a.currency != b.currency then Err(MoneyCurrencyMismatch)
    else if a.cents < b.cents then Err(MoneyNegativeForbidden)
    else Ok(Money(a.cents - b.cents, a.currency))
  }

  /** The amount of the money, as the decimal it is. */
  function DecimalOf(a: Money): real {
    a.cents as real / 100.0
  }

  function Times(a: real, b: real): real {
    a * b
  }

  function Multiply(a: Money, factor: real): Result<Money, FinError> {
    FromDecimal(Times(DecimalOf(a), factor), a.currency)
  }

  /** `a > b`, which raises across currencies. */
  function Exceeds(a: Money, b: Money): Result<bool, FinError> {
    if a.currency != b.currency then Err(MoneyCurrencyMismatch) else Ok(a.cents > b.cents)
  }

  /** Raise `error` unless the condition holds. */
  function Check(condition: bool, error: FinError): Result<(), FinError> {
    if condition then Ok(()) else Err(error)
  }
}
