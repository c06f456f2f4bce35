/** Where the amount of a voucher comes from: the lines of its settlement's creation. */
module SettlementRuns {
  import opened Results
  import opened FinMoney
  import opened Ledger
  import LedgerRuns
  import PaymentRuns

  /** What the lines are worth: quantities times prices with tax. */
  function Worth(lines: seq<SettlementLine>): real {
    if lines == [] then 0.0 else lines[0].quantity * lines[0].inclusivePrice + Worth(lines[1..])
  }

  lemma {:induction false} LineAmountIsWorth(line: PricedLine, price: real)
    requires line.inclusive.cents as real / 100.0 == price && LineAmount(line).Ok?
    ensures LineAmount(line).value.cents as real / 100.0 == line.quantity * price
  {
    assert line.inclusive.cents as real / 100.0 * line.quantity == line.quantity * price;
  }

  /** Adding up priced lines loses and gains nothing. */
  lemma {:induction false} TotalIsWorth(lines: seq<SettlementLine>, currency: string, sum: Money)
    requires PriceLines(lines, currency).Ok?
    requires TotalOf(PriceLines(lines, currency).value, sum, LineAmount).Ok?
    ensures TotalOf(PriceLines(lines, currency).value, sum, LineAmount).value.cents as real / 100.0
         == sum.cents as real / 100.0 + Worth(lines)
    decreases |lines|
  {
    if lines != [] {
      var priced := PriceLines(lines, currency).value;
      assert priced[1..] == PriceLines(lines[1..], currency).value;
      LineAmountIsWorth(priced[0], lines[0].inclusivePrice);
      var next := Add(sum, LineAmount(priced[0]).value).value;
      assert next.cents as real / 100.0
          == sum.cents as real / 100.0 + LineAmount(priced[0]).value.cents as real / 100.0;
      TotalIsWorth(lines[1..], currency, next);
    }
  }

  /** The tax on the lines: quantities times prices without tax times rates. */
  function Tax(lines: seq<SettlementLine>): real {
    if lines == [] then 0.0 else lines[0].quantity * lines[0].exclusivePrice * lines[0].taxRate + Tax(lines[1..])
  }

  lemma {:induction false} LineTaxIsTax(line: PricedLine, price: real)
    requires line.exclusive.cents as real / 100.0 == price && LineTax(line).Ok?
    ensures LineTax(line).value.cents as real / 100.0 == line.quantity * price * line.taxRate
  {
    var base := Multiply(line.exclusive, line.quantity).value;
    assert base.cents as real / 100.0 == line.quantity * price;
    assert base.cents as real / 100.0 * line.taxRate == line.quantity * price * line.taxRate;
  }

  lemma {:induction false} TotalIsTax(lines: seq<SettlementLine>, currency: string, sum: Money)
    requires PriceLines(lines, currency).Ok?
    requires TotalOf(PriceLines(lines, currency).value, sum, LineTax).Ok?
    ensures TotalOf(PriceLines(lines, currency).value, sum, LineTax).value.cents as real / 100.0
         == sum.cents as real / 100.0 + Tax(lines)
    decreases |lines|
  {
    if lines != [] {
      var priced := PriceLines(lines, currency).value;
      assert priced[1..] == PriceLines(lines[1..], currency).value;
      LineTaxIsTax(priced[0], lines[0].exclusivePrice);
      var next := Add(sum, LineTax(priced[0]).value).value;
      assert next.cents as real / 100.0 == sum.cents as real / 100.0 + LineTax(priced[0]).value.cents as real / 100.0;
      TotalIsTax(lines[1..], currency, next);
    }
  }

  predicate CreatedBy(op: Op, no: string, s: Settlement) {
    && op.CreateSettlement? && op.no == no && op.kind == s.kind && op.tenant == s.initiator && op.receiver == s.receiver
    && op.settlementLines != [] && PriceLines(op.settlementLines, op.currency) == Ok(s.lines)
    && s.cents as real / 100.0 == Worth(op.settlementLines) && s.tax as real / 100.0 == Tax(op.settlementLines)
  }

  predicate Created(ops: seq<Op>, no: string, s: Settlement) {
    exists i :: 0 <= i < |ops| && CreatedBy(ops[i], no, s)
  }

  lemma {:induction false} CreationStep(db: Db, op: Op, no: string)
    requires op.CreateSettlement? && Do(db, op).Ok? && no in Do(db, op).value.settlements && no !in db.settlements
    ensures CreatedBy(op, no, Do(db, op).value.settlements[no])
  {
    TotalIsWorth(op.settlementLines, op.currency, Money(0, op.currency));
    TotalIsTax(op.settlementLines, op.currency, Money(0, op.currency));
  }

  lemma {:induction false} ConfirmStep(db: Db, confirmed: string, no: string)
    requires confirmed in db.settlements && Confirm(db, confirmed, db.settlements[confirmed]).Ok?
    ensures var n := Confirm(db, confirmed, db.settlements[confirmed]).value.settlements;
      && n.Keys == db.settlements.Keys
      && (no in n ==> n[no] == db.settlements[no].(status := n[no].status, confirmed := n[no].confirmed))
  {
    var c := LedgerRuns.ConfirmedRow(db.settlements[confirmed]);
    LedgerRuns.BookShape(db.(settlements := db.settlements[confirmed := c]), confirmed, c);
  }

  /** A settlement row keeps everything but its status; a new one comes from a creation. */
  lemma {:induction false} SettlementStep(db: Db, op: Op, no: string)
    requires no in Apply(db, op).settlements
    ensures no !in db.settlements ==> op.CreateSettlement? && Do(db, op).Ok?
    ensures no in db.settlements ==>
      var s, n := db.settlements[no], Apply(db, op).settlements[no];
      n == s.(status := n.status, confirmed := n.confirmed)
  {
    if Do(db, op).Ok? {
      if LedgerRuns.LeavesBooks(op) {
        LedgerRuns.BooksFrame(db, op);
      } else if op.BankCallback? || op.WriteOffReceipt? {
        assert Do(db, op).value.settlements == db.settlements;
      } else if op.ConfirmSettlement? || op.ConfirmCrossTenant? {
        ConfirmStep(db, op.no, no);
      }
    }
  }

  lemma {:induction false} SettlementWasCreated(ops: seq<Op>, no: string)
    requires no in Run(EMPTY, ops).settlements
    ensures Created(ops, no, Run(EMPTY, ops).settlements[no])
  {
    if ops != [] {
      var init, op := ops[..|ops| - 1], ops[|ops| - 1];
      var db := Run(EMPTY, init);
      assert ops == init + [op];
      PaymentRuns.RunLast(EMPTY, init, op);
      SettlementStep(db, op, no);
      if no in db.settlements {
        SettlementWasCreated(init, no);
        var i :| 0 <= i < |init| && CreatedBy(init[i], no, db.settlements[no]);
        assert CreatedBy(ops[i], no, Apply(db, op).settlements[no]);
      } else {
        CreationStep(db, op, no);
        assert CreatedBy(ops[|init|], no, Apply(db, op).settlements[no]);
      }
    }
  }

  /** In every run each voucher amounts to what the lines of its settlement were worth when the
      settlement was created. */
  lemma {:induction false} VoucherIsWorthItsLines(ops: seq<Op>, no: string)
    ensures var db := Run(EMPTY, ops);
      && (no in db.ars ==> exists i :: 0 <= i < |ops| && ops[i].CreateSettlement? && ArNo(ops[i].no) == no
                                       && db.ars[no].total as real / 100.0 == Worth(ops[i].settlementLines))
      && (no in db.aps ==> exists i :: 0 <= i < |ops| && ops[i].CreateSettlement? && ApNo(ops[i].no) == no
                                       && db.aps[no].total as real / 100.0 == Worth(ops[i].settlementLines))
  {
    var db := Run(EMPTY, ops);
    LedgerRuns.RunInvariant(ops);
    if no in db.ars {
      assert LedgerRuns.VoucherOk(db, "AR-", no, db.ars[no]);
      SettlementWasCreated(ops, db.ars[no].ref);
      var i :| 0 <= i < |ops| && CreatedBy(ops[i], db.ars[no].ref, db.settlements[db.ars[no].ref]);
      assert ArNo(ops[i].no) == no;
    }
    if no in db.aps {
      assert LedgerRuns.VoucherOk(db, "AP-", no, db.aps[no]);
      SettlementWasCreated(ops, db.aps[no].ref);
      var i :| 0 <= i < |ops| && CreatedBy(ops[i], db.aps[no].ref, db.settlements[db.aps[no].ref]);
      assert ApNo(ops[i].no) == no;
    }
  }

  // ---------- the two sides of a cross-tenant settlement ----------

  predicate SameVoucher(v: Voucher, n: Voucher) {
    n.total == v.total && n.tenant == v.tenant && n.ref == v.ref
  }

  lemma {:induction false} ConfirmKeepsVouchers(db: Db, op: Op)
    requires LedgerRuns.Rows(db) && (op.ConfirmSettlement? || op.ConfirmCrossTenant?) && Do(db, op).Ok?
    ensures LedgerRuns.Extends(db.ars, Do(db, op).value.ars) && LedgerRuns.Extends(db.aps, Do(db, op).value.aps)
  {
    LedgerRuns.ConfirmAddsVouchers(db, op.no);
  }

  lemma {:induction false} WriteOffKeepsVoucher(db: Db, receipt: string, offs: seq<(string, real)>, no: string)
    requires WriteOff(db, receipt, offs).Ok? && no in db.ars
    ensures var n := WriteOff(db, receipt, offs).value;
      n.aps == db.aps && no in n.ars && SameVoucher(db.ars[no], n.ars[no])
  {
    var lines := ParseLines(offs).value;
    LedgerRuns.ApplyLinesEffect(db.ars, lines, no);
    assert WriteOff(db, receipt, offs).value.ars == ApplyLines(db.ars, lines).value;
  }

  lemma {:induction false} ReceivableStays(db: Db, op: Op, no: string)
    requires LedgerRuns.Rows(db) && no in db.ars
    ensures no in Apply(db, op).ars && SameVoucher(db.ars[no], Apply(db, op).ars[no])
  {
    if Do(db, op).Ok? {
      if LedgerRuns.LeavesReceivables(op) {
        LedgerRuns.ReceivablesFrame(db, op);
      } else if op.ConfirmSettlement? || op.ConfirmCrossTenant? {
        ConfirmKeepsVouchers(db, op);
      } else if op.WriteOffReceipt? {
        WriteOffKeepsVoucher(db, op.no, op.offs, no);
      }
    }
  }

  lemma {:induction false} PayableStays(db: Db, op: Op, no: string)
    requires LedgerRuns.Rows(db) && no in db.aps
    ensures no in Apply(db, op).aps && SameVoucher(db.aps[no], Apply(db, op).aps[no])
  {
    if Do(db, op).Ok? {
      if LedgerRuns.LeavesPayables(op) {
        LedgerRuns.PayablesFrame(db, op);
      } else if op.ConfirmSettlement? || op.ConfirmCrossTenant? {
        ConfirmKeepsVouchers(db, op);
      }
    }
  }

  /** The settlement has a receivable for its receiver and a payable for its initiator, of its amount. */
  predicate BothBooked(db: Db, no: string, s: Settlement) {
    && ArNo(no) in db.ars && ApNo(no) in db.aps && s.receiver.Some?
    && db.ars[ArNo(no)].total == db.aps[ApNo(no)].total == s.cents
    && db.ars[ArNo(no)].tenant == s.receiver.value && db.aps[ApNo(no)].tenant == s.initiator
  }

  predicate Pairs(s: Settlement) {
    s.kind.CrossTenant? && s.confirmed && s.receiver.Some?
  }

  /** Only a confirmation marks a settlement confirmed. */
  lemma {:induction false} ConfirmedByCall(db: Db, op: Op, no: string)
    requires no in Apply(db, op).settlements && Apply(db, op).settlements[no].confirmed
    ensures no in db.settlements
    ensures db.settlements[no].confirmed
            || ((op.ConfirmSettlement? || op.ConfirmCrossTenant?) && op.no == no && Do(db, op).Ok?)
  {
    if Do(db, op).Ok? {
      if LedgerRuns.LeavesBooks(op) {
        LedgerRuns.BooksFrame(db, op);
      }
    }
  }

  /** In every run each confirmed cross-tenant settlement with a receiver, cancelled later or not, has a
      receivable for the receiver and a payable for the initiator, both of its amount. */
  lemma {:induction false} CrossTenantBooksBoth(ops: seq<Op>, no: string)
    requires no in Run(EMPTY, ops).settlements && Pairs(Run(EMPTY, ops).settlements[no])
    ensures BothBooked(Run(EMPTY, ops), no, Run(EMPTY, ops).settlements[no])
  {
    if ops != [] {
      var init, op := ops[..|ops| - 1], ops[|ops| - 1];
      var db := Run(EMPTY, init);
      assert ops == init + [op];
      PaymentRuns.RunLast(EMPTY, init, op);
      LedgerRuns.RunInvariant(init);
      ConfirmedByCall(db, op, no);
      SettlementStep(db, op, no);
      if db.settlements[no].confirmed {
        CrossTenantBooksBoth(init, no);
        ReceivableStays(db, op, ArNo(no));
        PayableStays(db, op, ApNo(no));
      }
    }
  }
}
