/** The status of a voucher tells how much of it is settled, in every run. */
module VoucherStatuses {
  import opened Results
  import opened FinMoney
  import opened Ledger

  /** An amount that is not zero is open, partly settled or settled, as its two parts say. */
  predicate StatusOk(v: Voucher) {
    && v.total == v.settled + v.open
    && (v.total > 0 ==>
          && (v.status.Settled? <==> v.open == 0)
          && (v.status.Partial? <==> v.open > 0 && v.settled > 0)
          && (v.status.Open? <==> v.settled == 0))
  }

  ghost predicate AllOk(vouchers: Vouchers) {
    forall no :: no in vouchers ==> StatusOk(vouchers[no])
  }

  predicate TouchesVouchers(op: Op) {
    op.ConfirmSettlement? || op.ConfirmCrossTenant? || op.BankCallback? || op.WriteOffReceipt?
  }

  lemma {:induction false} ApplyLinesKeepsStatus(ars: Vouchers, lines: seq<WriteOffLine>)
    requires AllOk(ars) && ApplyLines(ars, lines).Ok?
    ensures AllOk(ApplyLines(ars, lines).value)
    decreases |lines|
  {
    if lines != [] {
      var l := lines[0];
      if l.ar in ars {
        ApplyLinesKeepsStatus(ars[l.ar := ApplyAmount(ars[l.ar], l.cents, ReceiptWriteOffExceed).value], lines[1..]);
      } else {
        ApplyLinesKeepsStatus(ars, lines[1..]);
      }
    }
  }

  lemma {:induction false} NewKeepsStatus(vouchers: Vouchers, key: string, no: string, s: Settlement, tenant: Uuid)
    requires AllOk(vouchers)
    ensures AllOk(vouchers[key := NewVoucher(no, s, tenant)])
  {
  }

  lemma {:induction false} BookKeepsStatus(db: Db, no: string, s: Settlement)
    requires AllOk(db.ars) && AllOk(db.aps)
    ensures AllOk(Book(db, no, s).ars) && AllOk(Book(db, no, s).aps)
  {
    match s.kind
    case Sales => NewKeepsStatus(db.ars, ArNo(no), no, s, s.initiator);
    case Purchase => NewKeepsStatus(db.aps, ApNo(no), no, s, s.initiator);
    case CrossTenant =>
      if s.receiver.Some? {
        NewKeepsStatus(db.ars, ArNo(no), no, s, s.receiver.value);
      }
      NewKeepsStatus(db.aps, ApNo(no), no, s, s.initiator);
  }

  lemma {:induction false} ConfirmKeepsStatus(db: Db, no: string, s: Settlement)
    requires AllOk(db.ars) && AllOk(db.aps) && Confirm(db, no, s).Ok?
    ensures AllOk(Confirm(db, no, s).value.ars) && AllOk(Confirm(db, no, s).value.aps)
  {
    var c := s.(status := SConfirmed, confirmed := true);
    BookKeepsStatus(db.(settlements := db.settlements[no := c]), no, c);
  }

  lemma {:induction false} SettleKeepsStatus(db: Db, no: string, bankRef: Option<string>)
    requires AllOk(db.ars) && AllOk(db.aps) && Settle(db, no, bankRef).Ok?
    ensures AllOk(Settle(db, no, bankRef).value.ars) && AllOk(Settle(db, no, bankRef).value.aps)
  {
  }

  lemma {:induction false} StepKeepsStatus(db: Db, op: Op)
    requires AllOk(db.ars) && AllOk(db.aps)
    ensures AllOk(Apply(db, op).ars) && AllOk(Apply(db, op).aps)
  {
    if TouchesVouchers(op) && Do(db, op).Ok? {
      match op
      case ConfirmSettlement(no) => ConfirmKeepsStatus(db, no, db.settlements[no]);
      case ConfirmCrossTenant(no) => ConfirmKeepsStatus(db, no, db.settlements[no]);
      case BankCallback(no, success, bankRef) =>
        if success {
          SettleKeepsStatus(db, no, bankRef);
        }
      case WriteOffReceipt(no, offs) => ApplyLinesKeepsStatus(db.ars, ParseLines(offs).value);
    }
  }

  lemma {:induction false} RunKeepsStatus(db: Db, ops: seq<Op>)
    requires AllOk(db.ars) && AllOk(db.aps)
    ensures AllOk(Run(db, ops).ars) && AllOk(Run(db, ops).aps)
    decreases |ops|
  {
    if ops != [] {
      StepKeepsStatus(db, ops[0]);
      RunKeepsStatus(Apply(db, ops[0]), ops[1..]);
    }
  }

  /** In every run each voucher's status is what its amounts say; a voucher of zero can be anything. */
  lemma {:induction false} StatusOfEveryRun(ops: seq<Op>, no: string)
    ensures var db := Run(EMPTY, ops);
      (no in db.ars ==> StatusOk(db.ars[no])) && (no in db.aps ==> StatusOk(db.aps[no]))
  {
    RunKeepsStatus(EMPTY, ops);
  }
}
