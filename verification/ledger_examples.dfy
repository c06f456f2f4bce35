/** Short runs from an empty ledger that reach the exceptional cases of its theorems. */
module LedgerExamples {
  import opened Results
  import opened FinMoney
  import opened Ledger
  import opened LedgerRuns
  import opened Sums
  import PaymentRuns

  const LINE := SettlementLine(1.0, 1.0, 1.0, 0.0)
  const PRICED := PricedLine(1.0, Money(100, "CNY"), Money(100, "CNY"), 0.0)

  function Create(no: string, kind: SettlementType): Op {
    CreateSettlement(no, 1, kind, "CNY", [LINE], None, None)
  }

  /** One settlement of 1.00 and its vouchers. */
  function Books(no: string, kind: SettlementType, status: SettlementStatus, confirmed: bool): Db {
    var s := Settlement(kind, status, 100, 0, [PRICED], 1, None, confirmed);
    var db := EMPTY.(settlements := map[no := s]);
    if confirmed then Book(db, no, s) else db
  }

  lemma {:induction false} LineIsPriced()
    ensures PriceLines([LINE], "CNY") == Ok([PRICED])
  {
    var noLines: seq<SettlementLine> := [];
    var nonePriced: seq<PricedLine> := [];
    assert FromDecimal(1.0, "CNY") == Ok(Money(100, "CNY"));
    assert [LINE][1..] == noLines && [PRICED] + nonePriced == [PRICED];
    assert PriceLines(noLines, "CNY") == Ok(nonePriced);
  }

  lemma {:induction false} LineIsTotalled()
    ensures TotalOf([PRICED], Money(0, "CNY"), LineAmount) == Ok(Money(100, "CNY"))
    ensures TotalOf([PRICED], Money(0, "CNY"), LineTax) == Ok(Money(0, "CNY"))
  {
    var nonePriced: seq<PricedLine> := [];
    assert [PRICED][1..] == nonePriced;
    assert LineAmount(PRICED) == Ok(Money(100, "CNY")) && LineTax(PRICED) == Ok(Money(0, "CNY"));
    assert TotalOf(nonePriced, Money(100, "CNY"), LineAmount) == Ok(Money(100, "CNY"));
    assert TotalOf(nonePriced, Money(0, "CNY"), LineTax) == Ok(Money(0, "CNY"));
  }

  lemma {:induction false} CreateBooks(no: string, kind: SettlementType)
    ensures Run(EMPTY, [Create(no, kind)]) == Books(no, kind, SDraft, false)
  {
    LineIsPriced();
    LineIsTotalled();
    var none: seq<Op> := [];
    assert none + [Create(no, kind)] == [Create(no, kind)] && Run(EMPTY, none) == EMPTY;
    PaymentRuns.RunLast(EMPTY, none, Create(no, kind));
    assert Do(EMPTY, Create(no, kind)) == Ok(Books(no, kind, SDraft, false));
  }

  lemma {:induction false} ConfirmBooks(no: string, kind: SettlementType)
    ensures Run(EMPTY, [Create(no, kind)] + [ConfirmSettlement(no)]) == Books(no, kind, SConfirmed, true)
  {
    CreateBooks(no, kind);
    PaymentRuns.RunLast(EMPTY, [Create(no, kind)], ConfirmSettlement(no));
  }

  const CANCELLED := Settlement(Purchase, SCancelled, 100, 0, [PRICED], 1, None, true)

  lemma {:induction false} CancelOf(db: Db, no: string)
    requires no in db.settlements && db.settlements[no].status.SConfirmed?
    ensures Apply(db, CancelSettlement(no))
         == db.(settlements := db.settlements[no := db.settlements[no].(status := SCancelled)])
  {
  }

  lemma {:induction false} CancelBooks(no: string)
    ensures Run(EMPTY, [Create(no, Purchase)] + [ConfirmSettlement(no)] + [CancelSettlement(no)])
         == Books(no, Purchase, SConfirmed, true).(settlements := map[no := CANCELLED])
  {
    ConfirmBooks(no, Purchase);
    var ops := [Create(no, Purchase)] + [ConfirmSettlement(no)];
    PaymentRuns.RunLast(EMPTY, ops, CancelSettlement(no));
    CancelOf(Books(no, Purchase, SConfirmed, true), no);
  }

  /** A purchase confirmed and then cancelled: its payable is still booked and wholly open. */
  lemma {:induction false} CancelledPurchaseRun(no: string)
    ensures var db := Run(EMPTY, [Create(no, Purchase)] + [ConfirmSettlement(no)] + [CancelSettlement(no)]);
      SumBy(db.aps, Total(Purchase)) == 100 && SumBy(db.settlements, ConfirmedNow(Purchase)) == 0
  {
    CancelBooks(no);
    var s := Settlement(Purchase, SConfirmed, 100, 0, [PRICED], 1, None, true);
    var noVouchers: Vouchers := map[];
    var noSettlements: map<string, Settlement> := map[];
    SumUpdate(noVouchers, Total(Purchase), ApNo(no), NewVoucher(no, s, 1));
    SumUpdate(noSettlements, ConfirmedNow(Purchase), no, CANCELLED);
  }

  /** The plain confirmation of a cross-tenant settlement without receiver books a payable alone. */
  lemma {:induction false} ReceiverlessRun(no: string)
    ensures var db := Run(EMPTY, [Create(no, CrossTenant)] + [ConfirmSettlement(no)]);
      SumBy(db.aps, Total(CrossTenant)) == 100 && SumBy(db.ars, Total(CrossTenant)) == 0
  {
    ConfirmBooks(no, CrossTenant);
    var s := Settlement(CrossTenant, SConfirmed, 100, 0, [PRICED], 1, None, true);
    var noVouchers: Vouchers := map[];
    SumUpdate(noVouchers, Total(CrossTenant), ApNo(no), NewVoucher(no, s, 1));
  }

  // ---------- two payments on one open amount ----------

  /** The purchase with two payments of its whole amount. */
  function TwoPayments(no: string, first: PaymentStatus, second: PaymentStatus): Db {
    Books(no, Purchase, SConfirmed, true).(payments :=
      map["P1" := Payment(ApNo(no), 100, first, None), "P2" := Payment(ApNo(no), 100, second, None)])
  }

  function Requests(no: string): seq<Op> {
    [RequestPayment("P1", ApNo(no), 1.0, "CNY"), RequestPayment("P2", ApNo(no), 1.0, "CNY")]
  }

  lemma {:induction false} RequestBoth(no: string)
    ensures Run(Books(no, Purchase, SConfirmed, true), Requests(no))
         == TwoPayments(no, PPendingApproval, PPendingApproval)
  {
    var db := Books(no, Purchase, SConfirmed, true);
    var r1, r2 := RequestPayment("P1", ApNo(no), 1.0, "CNY"), RequestPayment("P2", ApNo(no), 1.0, "CNY");
    assert FromDecimal(1.0, "CNY") == Ok(Money(100, "CNY"));
    assert db.aps[ApNo(no)].open == 100;
    assert "P2" !in map["P1" := Payment(ApNo(no), 100, PPendingApproval, None)];
    PaymentRuns.RunLast(db, [r1], r2);
    PaymentRuns.RunLast(db, [], r1);
    assert [] + [r1] == [r1] && [r1] + [r2] == [r1, r2];
    assert Run(db, [r1]) == Apply(db, r1);
    assert Apply(db, r1) == db.(payments := map["P1" := Payment(ApNo(no), 100, PPendingApproval, None)]);
  }

  /** Approve and execute the payment. */
  function Release(payment: string): seq<Op> {
    [ApprovePayment(payment, ["FIN_MANAGER"]), ExecutePayment(payment)]
  }

  lemma {:induction false} ReleaseFirst(no: string)
    ensures Run(TwoPayments(no, PPendingApproval, PPendingApproval), Release("P1"))
         == TwoPayments(no, PExecuting, PPendingApproval)
  {
    var db := TwoPayments(no, PPendingApproval, PPendingApproval);
    var a, e := ApprovePayment("P1", ["FIN_MANAGER"]), ExecutePayment("P1");
    assert [a, e][1..] == [e] && [e][1..] == [];
    assert Apply(db, a).payments == TwoPayments(no, PApproved, PPendingApproval).payments;
    assert Apply(TwoPayments(no, PApproved, PPendingApproval), e).payments
        == TwoPayments(no, PExecuting, PPendingApproval).payments;
    assert Run(db, [a, e]) == Run(Apply(db, a), [e]) == Apply(Apply(db, a), e);
  }

  lemma {:induction false} ReleaseSecond(no: string)
    ensures Run(TwoPayments(no, PExecuting, PPendingApproval), Release("P2")) == TwoPayments(no, PExecuting, PExecuting)
  {
    var db := TwoPayments(no, PExecuting, PPendingApproval);
    var a, e := ApprovePayment("P2", ["FIN_MANAGER"]), ExecutePayment("P2");
    assert [a, e][1..] == [e] && [e][1..] == [];
    assert Apply(db, a).payments == TwoPayments(no, PExecuting, PApproved).payments;
    assert Apply(TwoPayments(no, PExecuting, PApproved), e).payments
        == TwoPayments(no, PExecuting, PExecuting).payments;
    assert Run(db, [a, e]) == Run(Apply(db, a), [e]) == Apply(Apply(db, a), e);
  }

  lemma {:induction false} BothExecute(no: string)
    ensures Run(EMPTY, [Create(no, Purchase)] + [ConfirmSettlement(no)] + Requests(no) + Release("P1") + Release("P2"))
         == TwoPayments(no, PExecuting, PExecuting)
  {
    var booked := [Create(no, Purchase)] + [ConfirmSettlement(no)];
    ConfirmBooks(no, Purchase);
    RequestBoth(no);
    ReleaseFirst(no);
    ReleaseSecond(no);
    PaymentRuns.RunConcat(EMPTY, booked, Requests(no));
    PaymentRuns.RunConcat(EMPTY, booked + Requests(no), Release("P1"));
    PaymentRuns.RunConcat(EMPTY, booked + Requests(no) + Release("P1"), Release("P2"));
  }

  /** Two payments of the whole open amount pass every check up to the bank; once the first is booked,
      the success of the second is refused. */
  lemma {:induction false} RefusedCallbackRun(no: string, bankRef: Option<string>)
    ensures
      var ops := [Create(no, Purchase)] + [ConfirmSettlement(no)] + Requests(no) + Release("P1") + Release("P2");
      var db := Run(EMPTY, ops);
      && Do(db, BankCallback("P1", true, bankRef)).Ok?
      && Do(Apply(db, BankCallback("P1", true, bankRef)), BankCallback("P2", true, bankRef)) == Err(PaymentExceedAP)
  {
    BothExecute(no);
  }

  // ---------- a line before its voucher ----------

  /** A receipt confirmed next to a draft sale. */
  function Received(no: string): seq<Op> {
    [Create(no, Sales)] + [RecordReceipt("R", 100)] + [ConfirmReceipt("R")]
  }

  lemma {:induction false} ReceivedRows(no: string)
    ensures Run(EMPTY, Received(no))
         == Books(no, Sales, SDraft, false).(receipts := map["R" := Receipt(100, RConfirmed, [], [])])
  {
    CreateBooks(no, Sales);
    PaymentRuns.RunLast(EMPTY, [Create(no, Sales)], RecordReceipt("R", 100));
    PaymentRuns.RunLast(EMPTY, [Create(no, Sales)] + [RecordReceipt("R", 100)], ConfirmReceipt("R"));
  }

  lemma {:induction false} ReceivedFits(no: string)
    ensures var db := Run(EMPTY, Received(no));
      && Rows(db)
      && no in db.settlements && db.settlements[no].status.SDraft? && db.settlements[no].kind.Sales?
      && "R" in db.receipts && db.receipts["R"].status.RConfirmed? && db.receipts["R"].cents == 100
  {
    ReceivedRows(no);
    RunInvariant(Received(no));
  }

  lemma {:induction false} EarlyLineIsLost(ops: seq<Op>, no: string, receipt: string)
    requires var db := Run(EMPTY, ops);
      && no in db.settlements && db.settlements[no].status.SDraft? && db.settlements[no].kind.Sales?
      && receipt in db.receipts && db.receipts[receipt].status.RConfirmed? && db.receipts[receipt].cents >= 100
    ensures var db := Run(EMPTY, ops + [WriteOffReceipt(receipt, [(ArNo(no), 1.0)])] + [ConfirmSettlement(no)]);
      && receipt in db.receipts && db.receipts[receipt].status.RWriteOff?
      && ArNo(no) in db.ars && db.ars[ArNo(no)].settled == 0
  {
    var early := WriteOffReceipt(receipt, [(ArNo(no), 1.0)]);
    RunInvariant(ops);
    LineBeforeVoucherIsLost(Run(EMPTY, ops), no, receipt);
    PaymentRuns.RunLast(EMPTY, ops, early);
    PaymentRuns.RunLast(EMPTY, ops + [early], ConfirmSettlement(no));
  }

  /** The receipt is written off against the sale's voucher before the sale is confirmed: the receipt is
      spent, and the voucher is wholly open. */
  lemma {:induction false} LostLineRun(no: string)
    ensures var db := Run(EMPTY, Received(no) + [WriteOffReceipt("R", [(ArNo(no), 1.0)])] + [ConfirmSettlement(no)]);
      && "R" in db.receipts && db.receipts["R"].status.RWriteOff?
      && ArNo(no) in db.ars && db.ars[ArNo(no)].settled == 0
  {
    ReceivedFits(no);
    EarlyLineIsLost(Received(no), no, "R");
  }
}
