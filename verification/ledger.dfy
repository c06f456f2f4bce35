/**
 * Settlements, the receivable and payable vouchers they book, the payments that pay payables and
 * the receipts written off against receivables: the rows and what each service call does to them.
 * A call that raises leaves the database as it was.
 */
module Ledger {
  import opened Results
  import opened FinMoney

  type Uuid = nat

  datatype SettlementType = Purchase | Sales | CrossTenant
  datatype SettlementStatus = SDraft | SConfirmed | SSettled | SClosed | SCancelled
  datatype VoucherStatus = Open | Partial | Settled | Red
  datatype PaymentStatus = PDraft | PPendingApproval | PApproved | PExecuting | PSuccess | PFailed | PCancelled
  datatype ReceiptStatus = RPendingConfirm | RConfirmed | RWriteOff | RCancelled

  datatype SettlementLine =
    SettlementLine(quantity: real, exclusivePrice: real, inclusivePrice: real, taxRate: real)

  /** A line with its two unit prices as money. */
  datatype PricedLine = PricedLine(quantity: real, exclusive: Money, inclusive: Money, taxRate: real)

  /** A settlement row; `confirmed` remembers whether it was ever confirmed. */
  datatype Settlement = Settlement(
    kind: SettlementType, status: SettlementStatus, cents: nat, tax: nat, lines: seq<PricedLine>,
    initiator: Uuid, receiver: Option<Uuid>, confirmed: bool)

  /** A receivable or payable: total = settled + open. `ref` is the settlement, `kind` its type. */
  datatype Voucher = Voucher(
    ref: string, kind: SettlementType, tenant: Uuid,
    total: nat, settled: nat, open: nat, status: VoucherStatus)

  datatype Payment = Payment(ap: string, cents: nat, status: PaymentStatus, bankRef: Option<string>)

  datatype WriteOffLine = WriteOffLine(ar: string, cents: nat)

  /** A receipt row; `applied` remembers which of its lines found a voucher. */
  datatype Receipt = Receipt(
    cents: nat, status: ReceiptStatus, lines: seq<WriteOffLine>, applied: seq<WriteOffLine>)

  type Vouchers = map<string, Voucher>

  datatype Db = Db(
    settlements: map<string, Settlement>, ars: Vouchers, aps: Vouchers,
    payments: map<string, Payment>, receipts: map<string, Receipt>)

  const EMPTY := Db(map[], map[], map[], map[], map[])

  datatype Op =
    | CreateSettlement(no: string, tenant: Uuid, kind: SettlementType, currency: string,
                       settlementLines: seq<SettlementLine>, receiver: Option<Uuid>, orderError: Option<FinError>)
    | ConfirmSettlement(no: string)
    | ConfirmCrossTenant(no: string)
    | CancelSettlement(no: string)
    | RequestPayment(no: string, ap: string, amount: real, currency: string)
    | ApprovePayment(no: string, roles: seq<string>)
    | RejectPayment(no: string)
    | ExecutePayment(no: string)
    | BankCallback(no: string, success: bool, bankRef: Option<string>)
    | RecordReceipt(no: string, cents: nat)
    | ConfirmReceipt(no: string)
    | WriteOffReceipt(no: string, offs: seq<(string, real)>)

  // ---------- aggregates ----------

  function PriceLines(lines: seq<SettlementLine>, currency: string): Result<seq<PricedLine>, FinError> {
    if lines == [] then Ok([])
    else
      var exclusive :- FromDecimal(lines[0].exclusivePrice, currency);
      var inclusive :- FromDecimal(lines[0].inclusivePrice, currency);
      var rest :- PriceLines(lines[1..], currency);
      Ok([PricedLine(lines[0].quantity, exclusive, inclusive, lines[0].taxRate)] + rest)
  }

  function LineAmount(line: PricedLine): Result<Money, FinError> {
    Multiply(line.inclusive, line.quantity)
  }

  function LineTax(line: PricedLine): Result<Money, FinError> {
    var base :- Multiply(line.exclusive, line.quantity);
    Multiply(base, line.taxRate)
  }

  /** Add up what `amount` says of each line. */
  function TotalOf(lines: seq<PricedLine>, sum: Money, amount: PricedLine -> Result<Money, FinError>)
    : Result<Money, FinError>
  {
    if lines == [] then Ok(sum)
    else
      var first :- amount(lines[0]);
      var next :- Add(sum, first);
      TotalOf(lines[1..], next, amount)
  }

  function NewVoucher(ref: string, s: Settlement, tenant: Uuid): Voucher {
    Voucher(ref, s.kind, tenant, s.cents, 0, s.cents, Open)
  }

  /** Apply a payment to a payable, or a receipt to a receivable. */
  function ApplyAmount(v: Voucher, cents: nat, exceed: FinError): Result<Voucher, FinError> {
    if cents > v.open then Err(exceed)
    else if v.total != (v.settled + cents) + (v.open - cents) then Err(VoucherUnbalanced)
    else
      var settled := v.settled + cents;
      Ok(v.(settled := settled, open := v.open - cents,
            status := if settled == v.total then Settled else if settled > 0 then Partial else Open))
  }

  function ArNo(no: string): string {
    "AR-" + no
  }

  function ApNo(no: string): string {
    "AP-" + no
  }

  /** The vouchers a confirmed settlement books: `_generate_vouchers`. */
  function Book(db: Db, no: string, s: Settlement): Db {
    match s.kind
    case Sales => db.(ars := db.ars[ArNo(no) := NewVoucher(no, s, s.initiator)])
    case Purchase => db.(aps := db.aps[ApNo(no) := NewVoucher(no, s, s.initiator)])
    case CrossTenant =>
      var withAr :=
        if s.receiver.Some? then db.(ars := db.ars[ArNo(no) := NewVoucher(no, s, s.receiver.value)]) else db;
      withAr.(aps := withAr.aps[ApNo(no) := NewVoucher(no, s, s.initiator)])
  }

  const MANAGER_THRESHOLD: nat := 50000_00
  const DIRECTOR_THRESHOLD: nat := 500000_00

  function RequiredRoles(cents: nat): seq<string> {
    if cents <= MANAGER_THRESHOLD then ["FIN_MANAGER"]
    else if cents <= DIRECTOR_THRESHOLD then ["FIN_DIRECTOR"]
    else ["FIN_DIRECTOR", "DUAL_SIGN"]
  }

  function ParseLines(offs: seq<(string, real)>): Result<seq<WriteOffLine>, FinError> {
    if offs == [] then Ok([])
    else
      var m :- FromDecimal(offs[0].1, "CNY");
      var rest :- ParseLines(offs[1..]);
      Ok([WriteOffLine(offs[0].0, m.cents)] + rest)
  }

  function CentsOf(lines: seq<WriteOffLine>): nat {
    if lines == [] then 0 else lines[0].cents + CentsOf(lines[1..])
  }

  /** The lines one by one; each re-reads its voucher, and a line without a voucher does nothing. */
  function ApplyLines(ars: Vouchers, lines: seq<WriteOffLine>): Result<Vouchers, FinError> {
    if lines == [] then Ok(ars)
    else if lines[0].ar in ars then
      var v :- ApplyAmount(ars[lines[0].ar], lines[0].cents, ReceiptWriteOffExceed);
      ApplyLines(ars[lines[0].ar := v], lines[1..])
    else ApplyLines(ars, lines[1..])
  }

  /** The lines whose voucher exists. */
  function Found(ars: Vouchers, lines: seq<WriteOffLine>): seq<WriteOffLine> {
    if lines == [] then []
    else (if lines[0].ar in ars then [lines[0]] else []) + Found(ars, lines[1..])
  }

  // ---------- the service calls ----------

  function SettlementOf(db: Db, no: string): Result<Settlement, FinError> {
    if no in db.settlements then Ok(db.settlements[no]) else Err(SettlementNotFound)
  }

  function PaymentOf(db: Db, no: string): Result<Payment, FinError> {
    if no in db.payments then Ok(db.payments[no]) else Err(PaymentNotFound)
  }

  function ReceiptOf(db: Db, no: string): Result<Receipt, FinError> {
    if no in db.receipts then Ok(db.receipts[no]) else Err(ReceiptNotFound)
  }

  function Confirm(db: Db, no: string, s: Settlement): Result<Db, FinError> {
    if !s.status.SDraft? then Err(SettlementInvalidTransition)
    else
      var c := s.(status := SConfirmed, confirmed := true);
      Ok(Book(db.(settlements := db.settlements[no := c]), no, c))
  }

  /** A payment moves from one status to another, or the call raises. */
  function MovePayment(db: Db, no: string, from: PaymentStatus, to: PaymentStatus): Result<Db, FinError> {
    var p :- PaymentOf(db, no);
    if p.status != from then Err(PaymentInvalidTransition)
    else Ok(db.(payments := db.payments[no := p.(status := to)]))
  }

  function Settle(db: Db, no: string, bankRef: Option<string>): Result<Db, FinError> {
    var p :- PaymentOf(db, no);
    if p.status.PSuccess? then Err(PaymentAlreadySuccess)
    else if !p.status.PExecuting? then Err(PaymentInvalidTransition)
    else
      var paid := db.(payments := db.payments[no := p.(status := PSuccess, bankRef := bankRef)]);
      if p.ap !in db.aps then Ok(paid)
      else
        var v :- ApplyAmount(db.aps[p.ap], p.cents, PaymentExceedAP);
        Ok(paid.(aps := db.aps[p.ap := v]))
  }

  function WriteOff(db: Db, no: string, offs: seq<(string, real)>): Result<Db, FinError> {
    var r :- ReceiptOf(db, no);
    var _ :- Check(!r.status.RWriteOff?, ReceiptAlreadyWriteOff);
    var lines :- ParseLines(offs);
    var _ :- Check(r.status.RConfirmed?, ReceiptInvalidTransition);
    var _ :- Check(lines != [], EmptyLines);
    var _ :- Check(CentsOf(lines) <= r.cents, ReceiptWriteOffExceed);
    var ars :- ApplyLines(db.ars, lines);
    Ok(db.(ars := ars, receipts := db.receipts[no := Receipt(r.cents, RWriteOff, lines, Found(db.ars, lines))]))
  }

  function Do(db: Db, op: Op): Result<Db, FinError> {
    match op
    case CreateSettlement(no, tenant, kind, currency, lines, receiver, orderError) =>
      var _ :- Check(no !in db.settlements, SettlementDuplicate);
      var _ :- if orderError.Some? then Err(orderError.value) else Ok(());
      var priced :- PriceLines(lines, currency);
      var _ :- Check(priced != [], SettlementLineEmpty);
      var total :- TotalOf(priced, Money(0, currency), LineAmount);
      var tax :- TotalOf(priced, Money(0, currency), LineTax);
      var s := Settlement(kind, SDraft, total.cents, tax.cents, priced, tenant, receiver, false);
      Ok(db.(settlements := db.settlements[no := s]))
    case ConfirmSettlement(no) =>
      var s :- SettlementOf(db, no);
      Confirm(db, no, s)
    case ConfirmCrossTenant(no) =>
      var s :- SettlementOf(db, no);
      var _ :- Check(s.kind.CrossTenant? && s.receiver.Some?, SettlementCrossTenantNotConfirmed);
      Confirm(db, no, s)
    case CancelSettlement(no) =>
      var s :- SettlementOf(db, no);
      var _ :- Check(s.status.SDraft? || s.status.SConfirmed?, SettlementInvalidTransition);
      Ok(db.(settlements := db.settlements[no := s.(status := SCancelled)]))
    case RequestPayment(no, ap, amount, currency) =>
      var _ :- Check(no !in db.payments, PaymentDuplicate);
      var _ :- Check(ap in db.aps, VoucherNotFound);
      var m :- FromDecimal(amount, currency);
      var above :- Exceeds(m, Money(db.aps[ap].open, "CNY"));
      var _ :- Check(!above, PaymentExceedAP);
      Ok(db.(payments := db.payments[no := Payment(ap, m.cents, PPendingApproval, None)]))
    case ApprovePayment(no, roles) =>
      var p :- PaymentOf(db, no);
      var _ :- Check(forall role :: role in RequiredRoles(p.cents) ==> role in roles, PaymentApprovalExceedAuthority);
      MovePayment(db, no, PPendingApproval, PApproved)
    case RejectPayment(no) => MovePayment(db, no, PPendingApproval, PDraft)
    case ExecutePayment(no) => MovePayment(db, no, PApproved, PExecuting)
    case BankCallback(no, success, bankRef) =>
      if success then Settle(db, no, bankRef) else MovePayment(db, no, PExecuting, PFailed)
    case RecordReceipt(no, cents) =>
      var _ :- Check(no !in db.receipts, KeyConflict);
      Ok(db.(receipts := db.receipts[no := Receipt(cents, RPendingConfirm, [], [])]))
    case ConfirmReceipt(no) =>
      var r :- ReceiptOf(db, no);
      var _ :- Check(r.status.RPendingConfirm?, ReceiptInvalidTransition);
      Ok(db.(receipts := db.receipts[no := r.(status := RConfirmed)]))
    case WriteOffReceipt(no, offs) => WriteOff(db, no, offs)
  }

  function Apply(db: Db, op: Op): Db {
    match Do(db, op)
    case Ok(next) => next
    case Err(_) => db
  }

  function Run(db: Db, ops: seq<Op>): Db
    decreases |ops|
  {
    if ops == [] then db else Run(Apply(db, ops[0]), ops[1..])
  }
}
