/** Which calls of a run stand behind a settlement's status and behind its vouchers. */
module VoucherRuns {
  import opened Results
  import opened FinMoney
  import opened Ledger
  import opened LedgerRuns
  import opened Sums
  import PaymentRuns
  import SettlementRuns

  predicate Confirms(op: Op, no: string) {
    op == ConfirmSettlement(no) || op == ConfirmCrossTenant(no)
  }

  /** Call `i` of the run is accepted. */
  predicate Accepted(ops: seq<Op>, i: nat)
    requires i < |ops|
  {
    Do(Run(EMPTY, ops[..i]), ops[i]).Ok?
  }

  predicate WasConfirmed(ops: seq<Op>, no: string) {
    exists i :: 0 <= i < |ops| && Confirms(ops[i], no) && Accepted(ops, i)
  }

  predicate WasCancelled(ops: seq<Op>, no: string) {
    exists i :: 0 <= i < |ops| && ops[i] == CancelSettlement(no) && Accepted(ops, i)
  }

  // ---------- the status of a settlement ----------

  /** What one call can do to a settlement's row. */
  lemma {:induction false} RowStep(db: Db, op: Op, no: string)
    requires no in Apply(db, op).settlements
    ensures var n := Apply(db, op).settlements[no]; var ok := Do(db, op).Ok?;
      if no !in db.settlements then
        n.status == SDraft && !n.confirmed && !Confirms(op, no) && op != CancelSettlement(no)
      else
        var s := db.settlements[no];
        if ok && Confirms(op, no) then s.status == SDraft && n == s.(status := SConfirmed, confirmed := true)
        else if ok && op == CancelSettlement(no) then n == s.(status := SCancelled)
        else n == s
  {
    if Do(db, op).Ok? {
      if LeavesBooks(op) {
        BooksFrame(db, op);
      } else if op.ConfirmSettlement? || op.ConfirmCrossTenant? {
        var c := ConfirmedRow(db.settlements[op.no]);
        BookShape(db.(settlements := db.settlements[op.no := c]), op.no, c);
      } else if op.BankCallback? || op.WriteOffReceipt? {
        assert Do(db, op).value.settlements == db.settlements;
      }
    }
  }

  lemma {:induction false} WasLast(ops: seq<Op>, op: Op, no: string)
    ensures WasConfirmed(ops + [op], no) <==>
      WasConfirmed(ops, no) || (Confirms(op, no) && Do(Run(EMPTY, ops), op).Ok?)
    ensures WasCancelled(ops + [op], no) <==>
      WasCancelled(ops, no) || (op == CancelSettlement(no) && Do(Run(EMPTY, ops), op).Ok?)
  {
    var all := ops + [op];
    assert all[|ops|] == op && all[..|ops|] == ops;
    forall i | 0 <= i < |ops| ensures all[i] == ops[i] && (Accepted(all, i) <==> Accepted(ops, i)) {
      assert all[..i] == ops[..i];
    }
    assert Accepted(all, |ops|) <==> Do(Run(EMPTY, ops), op).Ok?;
  }

  /** In every run a settlement's row tells its calls: it was confirmed exactly by an accepted confirmation
      and cancelled exactly by an accepted cancellation, and nothing else moves it from draft. */
  lemma {:induction false} StatusOfEveryRun(ops: seq<Op>, no: string)
    ensures no in Run(EMPTY, ops).settlements ==>
      var s := Run(EMPTY, ops).settlements[no];
      && (s.confirmed <==> WasConfirmed(ops, no))
      && s.status == if WasCancelled(ops, no) then SCancelled else if WasConfirmed(ops, no) then SConfirmed else SDraft
    ensures no !in Run(EMPTY, ops).settlements ==> !WasConfirmed(ops, no) && !WasCancelled(ops, no)
    decreases |ops|
  {
    if ops != [] {
      var init, op := ops[..|ops| - 1], ops[|ops| - 1];
      var db := Run(EMPTY, init);
      assert ops == init + [op];
      PaymentRuns.RunLast(EMPTY, init, op);
      StatusOfEveryRun(init, no);
      WasLast(init, op, no);
      if no in Apply(db, op).settlements {
        RowStep(db, op, no);
      } else {
        AbsentStep(db, op, no);
      }
    }
  }

  lemma {:induction false} AbsentStep(db: Db, op: Op, no: string)
    requires no !in Apply(db, op).settlements
    ensures no !in db.settlements
    ensures Confirms(op, no) || op == CancelSettlement(no) ==> Do(db, op).Err?
  {
    if Do(db, op).Ok? {
      if LeavesBooks(op) {
        BooksFrame(db, op);
      } else if op.ConfirmSettlement? || op.ConfirmCrossTenant? {
        var c := ConfirmedRow(db.settlements[op.no]);
        BookShape(db.(settlements := db.settlements[op.no := c]), op.no, c);
      } else if op.BankCallback? || op.WriteOffReceipt? {
        assert Do(db, op).value.settlements == db.settlements;
      }
    }
  }

  // ---------- the vouchers of a settlement ----------

  /** A confirmed sale has a receivable, a confirmed purchase a payable, a confirmed cross-tenant settlement
      a payable and, with a receiver, a receivable: of its amount, for the tenants the type demands; no other
      settlement has a voucher. */
  predicate Vouchered(db: Db, no: string, s: Settlement, confirmed: bool) {
    && (ArNo(no) in db.ars <==> confirmed && (s.kind == Sales || (s.kind == CrossTenant && s.receiver.Some?)))
    && (ApNo(no) in db.aps <==> confirmed && (s.kind == Purchase || s.kind == CrossTenant))
    && (ArNo(no) in db.ars ==>
          && db.ars[ArNo(no)].total == s.cents
          && db.ars[ArNo(no)].tenant == if s.kind == Sales then s.initiator else s.receiver.value)
    && (ApNo(no) in db.aps ==> db.aps[ApNo(no)].total == s.cents && db.aps[ApNo(no)].tenant == s.initiator)
  }

  lemma {:induction false} NewSettlementHasNone(db: Db, no: string)
    requires Rows(db) && no !in db.settlements
    ensures ArNo(no) !in db.ars && ApNo(no) !in db.aps
  {
    if ArNo(no) in db.ars {
      assert VoucherOk(db, "AR-", ArNo(no), db.ars[ArNo(no)]);
      VoucherNoInjective("AR-", no, db.ars[ArNo(no)].ref);
    }
    if ApNo(no) in db.aps {
      assert VoucherOk(db, "AP-", ApNo(no), db.aps[ApNo(no)]);
      VoucherNoInjective("AP-", no, db.aps[ApNo(no)].ref);
    }
  }

  /** Only its own confirmation gives a settlement a voucher. */
  lemma {:induction false} OthersAddNoVoucher(db: Db, op: Op, no: string)
    requires Rows(db) && (Confirms(op, no) ==> Do(db, op).Err?)
    ensures ArNo(no) in Apply(db, op).ars ==> ArNo(no) in db.ars
    ensures ApNo(no) in Apply(db, op).aps ==> ApNo(no) in db.aps
  {
    if Do(db, op).Ok? {
      if LeavesBooks(op) {
        BooksFrame(db, op);
      } else if op.ConfirmSettlement? || op.ConfirmCrossTenant? {
        var c := ConfirmedRow(db.settlements[op.no]);
        BookShape(db.(settlements := db.settlements[op.no := c]), op.no, c);
        if ArNo(no) == ArNo(op.no) {
          VoucherNoInjective("AR-", no, op.no);
        }
        if ApNo(no) == ApNo(op.no) {
          VoucherNoInjective("AP-", no, op.no);
        }
      } else {
        KeysStay(db, op);
      }
    }
  }

  lemma {:induction false} KeysStay(db: Db, op: Op)
    requires Do(db, op).Ok? && !op.ConfirmSettlement? && !op.ConfirmCrossTenant?
    ensures Do(db, op).value.ars.Keys == db.ars.Keys && Do(db, op).value.aps.Keys == db.aps.Keys
  {
    if op.WriteOffReceipt? {
      ApplyLinesEffect(db.ars, ParseLines(op.offs).value, "");
    }
  }

  lemma {:induction false} ConfirmVouchers(db: Db, op: Op, no: string)
    requires Rows(db) && Confirms(op, no) && Do(db, op).Ok?
    ensures var n := Do(db, op).value; no in n.settlements && Vouchered(n, no, n.settlements[no], true)
  {
    var s := db.settlements[no];
    var c := ConfirmedRow(s);
    assert SettlementOk(s);
    UnconfirmedHasNoVoucher(db, no);
    BookShape(db.(settlements := db.settlements[no := c]), no, c);
  }

  /** In every run a settlement has exactly the vouchers that its accepted confirmation calls for. */
  lemma {:induction false} VouchersOfEveryRun(ops: seq<Op>, no: string)
    requires no in Run(EMPTY, ops).settlements
    ensures Vouchered(Run(EMPTY, ops), no, Run(EMPTY, ops).settlements[no], WasConfirmed(ops, no))
  {
    if ops != [] {
      var init, op := ops[..|ops| - 1], ops[|ops| - 1];
      var db := Run(EMPTY, init);
      assert ops == init + [op];
      PaymentRuns.RunLast(EMPTY, init, op);
      RunInvariant(init);
      WasLast(init, op, no);
      RowStep(db, op, no);
      if Confirms(op, no) && Do(db, op).Ok? {
        ConfirmVouchers(db, op, no);
      } else {
        OthersAddNoVoucher(db, op, no);
        if no in db.settlements {
          VouchersOfEveryRun(init, no);
          VouchersStay(db, op, no);
        } else {
          StatusOfEveryRun(init, no);
          NewSettlementHasNone(db, no);
        }
      }
    }
  }

  lemma {:induction false} VouchersStay(db: Db, op: Op, no: string)
    requires Rows(db)
    ensures ArNo(no) in db.ars ==>
      ArNo(no) in Apply(db, op).ars && SettlementRuns.SameVoucher(db.ars[ArNo(no)], Apply(db, op).ars[ArNo(no)])
    ensures ApNo(no) in db.aps ==>
      ApNo(no) in Apply(db, op).aps && SettlementRuns.SameVoucher(db.aps[ApNo(no)], Apply(db, op).aps[ApNo(no)])
  {
    if ArNo(no) in db.ars {
      SettlementRuns.ReceivableStays(db, op, ArNo(no));
    }
    if ApNo(no) in db.aps {
      SettlementRuns.PayableStays(db, op, ApNo(no));
    }
  }

  // ---------- when the cross-tenant books net to zero ----------

  /** The call plainly confirms a cross-tenant settlement that has an amount and no receiver. */
  predicate OneSided(db: Db, op: Op) {
    && op.ConfirmSettlement? && Do(db, op).Ok? && op.no in db.settlements
    && db.settlements[op.no].kind == CrossTenant && db.settlements[op.no].receiver == None
    && db.settlements[op.no].cents > 0
  }

  predicate NoneOneSided(ops: seq<Op>) {
    forall i :: 0 <= i < |ops| ==> !OneSided(Run(EMPTY, ops[..i]), ops[i])
  }

  ghost predicate SomeReceiverless(db: Db) {
    exists no :: no in db.settlements && Receiverless(db.settlements[no]) != 0
  }

  /** A settlement that was confirmed without a receiver stays one. */
  lemma {:induction false} ReceiverlessStays(db: Db, op: Op, no: string)
    requires Rows(db) && no in db.settlements && Receiverless(db.settlements[no]) != 0
    ensures no in Apply(db, op).settlements && Receiverless(Apply(db, op).settlements[no]) != 0
  {
    RowsGrow(db, op, no);
    RowStep(db, op, no);
  }

  lemma {:induction false} OneSidedAdds(db: Db, op: Op)
    requires OneSided(db, op)
    ensures op.no in Apply(db, op).settlements && Receiverless(Apply(db, op).settlements[op.no]) != 0
  {
    RowsGrow(db, op, op.no);
    RowStep(db, op, op.no);
  }

  lemma {:induction false} OnlyOneSidedAdds(db: Db, op: Op, no: string)
    requires no in Apply(db, op).settlements && Receiverless(Apply(db, op).settlements[no]) != 0
    ensures (no in db.settlements && Receiverless(db.settlements[no]) != 0) || OneSided(db, op)
  {
    RowStep(db, op, no);
  }

  lemma {:induction false} ReceiverlessStep(db: Db, op: Op)
    requires Rows(db)
    ensures SomeReceiverless(Apply(db, op)) <==> SomeReceiverless(db) || OneSided(db, op)
  {
    if SomeReceiverless(db) {
      var no :| no in db.settlements && Receiverless(db.settlements[no]) != 0;
      ReceiverlessStays(db, op, no);
    }
    if OneSided(db, op) {
      OneSidedAdds(db, op);
    }
    if SomeReceiverless(Apply(db, op)) {
      var no :| no in Apply(db, op).settlements && Receiverless(Apply(db, op).settlements[no]) != 0;
      OnlyOneSidedAdds(db, op, no);
    }
  }

  lemma {:induction false} RowsGrow(db: Db, op: Op, no: string)
    requires no in db.settlements
    ensures no in Apply(db, op).settlements
  {
    if no !in Apply(db, op).settlements {
      AbsentStep(db, op, no);
    }
  }

  lemma {:induction false} ReceiverlessIffOneSided(ops: seq<Op>)
    ensures SomeReceiverless(Run(EMPTY, ops)) <==> !NoneOneSided(ops)
    decreases |ops|
  {
    if ops != [] {
      var init, op := ops[..|ops| - 1], ops[|ops| - 1];
      assert ops == init + [op];
      PaymentRuns.RunLast(EMPTY, init, op);
      RunInvariant(init);
      ReceiverlessIffOneSided(init);
      ReceiverlessStep(Run(EMPTY, init), op);
      NoneOneSidedLast(init, op);
    }
  }

  lemma {:induction false} NoneOneSidedLast(ops: seq<Op>, op: Op)
    ensures NoneOneSided(ops + [op]) <==> NoneOneSided(ops) && !OneSided(Run(EMPTY, ops), op)
  {
    var all := ops + [op];
    forall i | 0 <= i < |ops| ensures all[..i] == ops[..i] && all[i] == ops[i] {
    }
    assert all[..|ops|] == ops && all[|ops|] == op;
  }

  /** In every run the cross-tenant payables and receivables net to zero exactly if no cross-tenant settlement
      with an amount and without a receiver was plainly confirmed; the cross-tenant path never does that. */
  lemma {:induction false} CrossTenantNetsIff(ops: seq<Op>)
    ensures var db := Run(EMPTY, ops);
      SumBy(db.aps, Total(CrossTenant)) == SumBy(db.ars, Total(CrossTenant)) <==> NoneOneSided(ops)
  {
    CrossTenantNets(ops);
    ReceiverlessIffOneSided(ops);
  }

  // ---------- when calls are accepted ----------

  /** A plain confirmation is accepted exactly for a draft, one on the cross-tenant path exactly for a draft
      of that type with a receiver, a cancellation exactly for a draft or a confirmed settlement. */
  lemma {:induction false} ConfirmAcceptedIff(db: Db, no: string)
    ensures Do(db, ConfirmSettlement(no)).Ok? <==> no in db.settlements && db.settlements[no].status == SDraft
    ensures Do(db, ConfirmCrossTenant(no)).Ok? <==>
      && no in db.settlements && db.settlements[no].status == SDraft
      && db.settlements[no].kind == CrossTenant && db.settlements[no].receiver.Some?
    ensures Do(db, CancelSettlement(no)).Ok? <==>
      no in db.settlements && (db.settlements[no].status == SDraft || db.settlements[no].status == SConfirmed)
  {
  }

  /** The line's prices, its amount and its tax are exact, the amount without tax included. */
  predicate ExactLine(l: SettlementLine) {
    && Exact(l.exclusivePrice) && Exact(l.inclusivePrice) && Exact(Times(l.inclusivePrice, l.quantity))
    && Exact(Times(l.exclusivePrice, l.quantity)) && Exact(Times(Times(l.exclusivePrice, l.quantity), l.taxRate))
  }

  predicate ExactPrices(l: SettlementLine) {
    Exact(l.exclusivePrice) && Exact(l.inclusivePrice)
  }

  lemma {:induction false} PricesReadIff(lines: seq<SettlementLine>, currency: string)
    ensures PriceLines(lines, currency).Ok? <==> forall i :: 0 <= i < |lines| ==> ExactPrices(lines[i])
    decreases |lines|
  {
    if lines != [] {
      PricesReadIff(lines[1..], currency);
      assert forall i :: 0 < i < |lines| ==> lines[i] == lines[1..][i - 1];
    }
  }

  lemma {:induction false} TotalsAreMoney(lines: seq<SettlementLine>, currency: string, sum: Money, tax: Money)
    requires PriceLines(lines, currency).Ok? && sum.currency == tax.currency == currency
    ensures TotalOf(PriceLines(lines, currency).value, sum, LineAmount).Ok?
            && TotalOf(PriceLines(lines, currency).value, tax, LineTax).Ok?
            <==> forall i :: 0 <= i < |lines| ==> ExactLine(lines[i])
    decreases |lines|
  {
    PricesReadIff(lines, currency);
    if lines != [] {
      var priced := PriceLines(lines, currency).value;
      var l := lines[0];
      assert priced[1..] == PriceLines(lines[1..], currency).value;
      assert forall i :: 0 < i < |lines| ==> lines[i] == lines[1..][i - 1];
      assert ExactPrices(l);
      LineMoney(l, priced[0], currency);
      if LineAmount(priced[0]).Ok? && LineTax(priced[0]).Ok? {
        var nextSum := Add(sum, LineAmount(priced[0]).value).value;
        var nextTax := Add(tax, LineTax(priced[0]).value).value;
        TotalsAreMoney(lines[1..], currency, nextSum, nextTax);
      }
    }
  }

  lemma {:induction false} MultiplyIs(m: Money, price: real, factor: real)
    requires DecimalOf(m) == price
    ensures Multiply(m, factor) == FromDecimal(Times(price, factor), m.currency)
  {
  }

  lemma {:induction false} ReadDecimal(amount: real, currency: string)
    requires Exact(amount)
    ensures FromDecimal(amount, currency).Ok?
    ensures var m := FromDecimal(amount, currency).value; DecimalOf(m) == amount && m.currency == currency
  {
  }

  lemma {:induction false} AmountMoney(l: SettlementLine, p: PricedLine, currency: string)
    requires Exact(l.inclusivePrice)
    requires p.quantity == l.quantity && p.inclusive == FromDecimal(l.inclusivePrice, currency).value
    ensures LineAmount(p) == FromDecimal(Times(l.inclusivePrice, l.quantity), currency)
  {
    ReadDecimal(l.inclusivePrice, currency);
    MultiplyIs(p.inclusive, l.inclusivePrice, l.quantity);
  }

  lemma {:induction false} TaxMoney(l: SettlementLine, p: PricedLine, currency: string)
    requires Exact(l.exclusivePrice)
    requires p.quantity == l.quantity && p.taxRate == l.taxRate
    requires p.exclusive == FromDecimal(l.exclusivePrice, currency).value
    ensures var base := Times(l.exclusivePrice, l.quantity);
      if Exact(base) then LineTax(p) == FromDecimal(Times(base, l.taxRate), currency) else LineTax(p).Err?
  {
    var base := Times(l.exclusivePrice, l.quantity);
    ReadDecimal(l.exclusivePrice, currency);
    MultiplyIs(p.exclusive, l.exclusivePrice, l.quantity);
    if Exact(base) {
      ReadDecimal(base, currency);
      MultiplyIs(FromDecimal(base, currency).value, base, l.taxRate);
    }
  }

  lemma {:induction false} LineMoney(l: SettlementLine, p: PricedLine, currency: string)
    requires ExactPrices(l)
    requires p == PricedLine(l.quantity, FromDecimal(l.exclusivePrice, currency).value,
                             FromDecimal(l.inclusivePrice, currency).value, l.taxRate)
    ensures LineAmount(p).Ok? && LineTax(p).Ok? <==> ExactLine(l)
    ensures LineAmount(p).Ok? ==> LineAmount(p).value.currency == currency
    ensures LineTax(p).Ok? ==> LineTax(p).value.currency == currency
  {
    AmountMoney(l, p, currency);
    TaxMoney(l, p, currency);
  }

  /** A settlement is created exactly for a new number, when its order allows it, with lines, all of whose
      prices, amounts and taxes are exact. */
  lemma {:induction false} CreateAcceptedIff(db: Db, no: string, tenant: Uuid, kind: SettlementType, currency: string,
      lines: seq<SettlementLine>, receiver: Option<Uuid>, orderError: Option<FinError>)
    ensures Do(db, CreateSettlement(no, tenant, kind, currency, lines, receiver, orderError)).Ok? <==>
      && no !in db.settlements && orderError == None && lines != []
      && forall i :: 0 <= i < |lines| ==> ExactLine(lines[i])
  {
    PricesReadIff(lines, currency);
    if PriceLines(lines, currency).Ok? {
      TotalsAreMoney(lines, currency, Money(0, currency), Money(0, currency));
      PricedLength(lines, currency);
    } else {
      assert exists i :: 0 <= i < |lines| && !ExactPrices(lines[i]);
    }
  }

  lemma {:induction false} PricedLength(lines: seq<SettlementLine>, currency: string)
    requires PriceLines(lines, currency).Ok?
    ensures |PriceLines(lines, currency).value| == |lines|
    decreases |lines|
  {
    if lines != [] {
      PricedLength(lines[1..], currency);
    }
  }
}
