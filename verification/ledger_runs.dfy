/** What every run of settlement, payment and receipt calls keeps. */
module LedgerRuns {
  import opened Results
  import opened FinMoney
  import opened Ledger
  import opened Sums

  // ---------- the accounts kept by hand ----------

  /** The successful payments of a payable. */
  function PaidTo(ap: string): Payment -> int {
    (p: Payment) => if p.status.PSuccess? && p.ap == ap then p.cents else 0
  }

  /** The cents that lines book on one receivable. */
  function LineCents(lines: seq<WriteOffLine>, ar: string): nat {
    if lines == [] then 0
    else (if lines[0].ar == ar then lines[0].cents else 0) + LineCents(lines[1..], ar)
  }

  /** The lines of a receipt that found the receivable when it was written off. */
  function AppliedTo(ar: string): Receipt -> int {
    (r: Receipt) => LineCents(r.applied, ar)
  }

  /** All lines of a written-off receipt that name the receivable. */
  function NamedBy(ar: string): Receipt -> int {
    (r: Receipt) => LineCents(r.lines, ar)
  }

  function Total(kind: SettlementType): Voucher -> int {
    (v: Voucher) => if v.kind == kind then v.settled + v.open else 0
  }

  function ConfirmedNow(kind: SettlementType): Settlement -> int {
    (s: Settlement) => if s.kind == kind && s.status.SConfirmed? then s.cents else 0
  }

  function CancelledLater(kind: SettlementType): Settlement -> int {
    (s: Settlement) => if s.kind == kind && s.confirmed && s.status.SCancelled? then s.cents else 0
  }

  /** Confirmed settlements of a type that book a receivable. */
  function BooksAr(kind: SettlementType): Settlement -> int {
    (s: Settlement) =>
      if s.kind == kind && s.confirmed && (s.kind.Sales? || (s.kind.CrossTenant? && s.receiver.Some?)) then s.cents
      else 0
  }

  function BooksAp(kind: SettlementType): Settlement -> int {
    (s: Settlement) => if s.kind == kind && s.confirmed && !s.kind.Sales? then s.cents else 0
  }

  // ---------- the invariant ----------

  predicate VoucherOk(db: Db, prefix: string, no: string, v: Voucher) {
    && no == prefix + v.ref
    && v.ref in db.settlements && db.settlements[v.ref].confirmed
    && v.kind == db.settlements[v.ref].kind
    && v.total == db.settlements[v.ref].cents
    && v.total == v.settled + v.open
  }

  predicate SettlementOk(s: Settlement) {
    match s.status
    case SDraft => !s.confirmed
    case SConfirmed => s.confirmed
    case SCancelled => true
    case _ => false
  }

  ghost predicate AppliedWithin(r: Receipt) {
    forall ar :: LineCents(r.applied, ar) <= LineCents(r.lines, ar)
  }

  ghost predicate ReceiptOk(db: Db, r: Receipt) {
    && (forall l :: l in r.applied ==> l.ar in db.ars)
    && (!r.status.RWriteOff? ==> r.lines == [] && r.applied == [])
    && AppliedWithin(r)
  }

  ghost predicate Rows(db: Db) {
    && (forall no :: no in db.settlements ==> SettlementOk(db.settlements[no]))
    && (forall no :: no in db.ars ==> VoucherOk(db, "AR-", no, db.ars[no]))
    && (forall no :: no in db.aps ==> VoucherOk(db, "AP-", no, db.aps[no]))
    && (forall no :: no in db.payments ==> db.payments[no].ap in db.aps)
    && (forall no :: no in db.receipts ==> ReceiptOk(db, db.receipts[no]))
  }

  ghost predicate PaidReconciles(db: Db, ap: string)
    requires ap in db.aps
  {
    db.aps[ap].settled == SumBy(db.payments, PaidTo(ap))
  }

  ghost predicate ReceivedReconciles(db: Db, ar: string)
    requires ar in db.ars
  {
    db.ars[ar].settled == SumBy(db.receipts, AppliedTo(ar))
  }

  ghost predicate Booked(db: Db, kind: SettlementType) {
    && SumBy(db.ars, Total(kind)) == SumBy(db.settlements, BooksAr(kind))
    && SumBy(db.aps, Total(kind)) == SumBy(db.settlements, BooksAp(kind))
  }

  // ---------- keys ----------

  lemma {:induction false} VoucherNoInjective(prefix: string, a: string, b: string)
    requires prefix + a == prefix + b
    ensures a == b
  {
    assert a == (prefix + a)[|prefix|..] && b == (prefix + b)[|prefix|..];
  }

  /** A settlement that was never confirmed has no voucher yet. */
  lemma {:induction false} UnconfirmedHasNoVoucher(db: Db, no: string)
    requires Rows(db) && no in db.settlements && !db.settlements[no].confirmed
    ensures ArNo(no) !in db.ars && ApNo(no) !in db.aps
  {
    if ArNo(no) in db.ars {
      assert VoucherOk(db, "AR-", ArNo(no), db.ars[ArNo(no)]);
      VoucherNoInjective("AR-", no, db.ars[ArNo(no)].ref);
    }
    if ApNo(no) in db.aps {
      assert VoucherOk(db, "AP-", ApNo(no), db.aps[ApNo(no)]);
      VoucherNoInjective("AP-", no, db.aps[ApNo(no)].ref);
    }
  }

  // ---------- writing lines off ----------

  /** Applying lines adds, voucher by voucher, all the lines that name it, and keeps the rest. */
  lemma {:induction false} ApplyLinesEffect(ars: Vouchers, lines: seq<WriteOffLine>, ar: string)
    requires ApplyLines(ars, lines).Ok?
    ensures var n := ApplyLines(ars, lines).value;
      && n.Keys == ars.Keys
      && (ar in ars ==>
            && n[ar].settled == ars[ar].settled + LineCents(lines, ar)
            && n[ar].settled + n[ar].open == ars[ar].settled + ars[ar].open
            && n[ar] == ars[ar].(settled := n[ar].settled, open := n[ar].open, status := n[ar].status))
  {
    if lines != [] {
      var l := lines[0];
      var next :=
        if l.ar in ars then ars[l.ar := ApplyAmount(ars[l.ar], l.cents, ReceiptWriteOffExceed).value] else ars;
      ApplyLinesEffect(next, lines[1..], ar);
      assert next.Keys == ars.Keys;
    }
  }

  lemma {:induction false} FoundLines(ars: Vouchers, lines: seq<WriteOffLine>, ar: string)
    ensures forall l :: l in Found(ars, lines) ==> l.ar in ars
    ensures LineCents(Found(ars, lines), ar) == if ar in ars then LineCents(lines, ar) else 0
  {
    if lines != [] {
      FoundLines(ars, lines[1..], ar);
      var rest := Found(ars, lines[1..]);
      if lines[0].ar in ars {
        assert ([lines[0]] + rest)[1..] == rest;
      } else {
        assert [] + rest == rest;
      }
    }
  }

  lemma {:induction false} NoLineNoCents(lines: seq<WriteOffLine>, ar: string)
    requires forall l :: l in lines ==> l.ar != ar
    ensures LineCents(lines, ar) == 0
  {
    if lines != [] {
      NoLineNoCents(lines[1..], ar);
    }
  }

  // ---------- the rows ----------

  lemma {:induction false} AddArKeepsRows(db: Db, no: string, tenant: Uuid)
    requires Rows(db) && no in db.settlements && db.settlements[no].confirmed
    ensures Rows(db.(ars := db.ars[ArNo(no) := NewVoucher(no, db.settlements[no], tenant)]))
  {
  }

  lemma {:induction false} AddApKeepsRows(db: Db, no: string, tenant: Uuid)
    requires Rows(db) && no in db.settlements && db.settlements[no].confirmed
    ensures Rows(db.(aps := db.aps[ApNo(no) := NewVoucher(no, db.settlements[no], tenant)]))
  {
  }

  /** The settlement row as a confirmation leaves it. */
  function ConfirmedRow(s: Settlement): Settlement {
    s.(status := SConfirmed, confirmed := true)
  }

  lemma {:induction false} BookKeepsRows(db: Db, no: string, s: Settlement)
    requires Rows(db) && no in db.settlements && db.settlements[no] == s && s.status.SDraft?
    ensures Rows(Confirm(db, no, s).value)
  {
    var c := ConfirmedRow(s);
    var mid := db.(settlements := db.settlements[no := c]);
    SettlementRowKeepsRows(db, no, c);
    if c.kind.Sales? {
      AddArKeepsRows(mid, no, c.initiator);
    } else if c.kind.CrossTenant? && c.receiver.Some? {
      AddArKeepsRows(mid, no, c.receiver.value);
      var withAr := mid.(ars := mid.ars[ArNo(no) := NewVoucher(no, c, c.receiver.value)]);
      AddApKeepsRows(withAr, no, c.initiator);
    } else {
      AddApKeepsRows(mid, no, c.initiator);
    }
  }

  lemma {:induction false} SettleKeepsRows(db: Db, no: string, bankRef: Option<string>)
    requires Rows(db) && Settle(db, no, bankRef).Ok?
    ensures Rows(Settle(db, no, bankRef).value)
  {
    var ap := db.payments[no].ap;
    assert VoucherOk(db, "AP-", ap, db.aps[ap]);
  }

  lemma {:induction false} WriteOffKeepsRows(db: Db, no: string, offs: seq<(string, real)>)
    requires Rows(db) && WriteOff(db, no, offs).Ok?
    ensures Rows(WriteOff(db, no, offs).value)
  {
    var n := WriteOff(db, no, offs).value;
    var lines := ParseLines(offs).value;
    ApplyLinesEffect(db.ars, lines, "");
    FoundLines(db.ars, lines, "");
    forall ar | ar in n.ars ensures VoucherOk(n, "AR-", ar, n.ars[ar]) {
      ApplyLinesEffect(db.ars, lines, ar);
      assert VoucherOk(db, "AR-", ar, db.ars[ar]);
    }
    forall r | r in n.receipts ensures ReceiptOk(n, n.receipts[r]) {
      if r == no {
        forall ar ensures LineCents(Found(db.ars, lines), ar) <= LineCents(lines, ar) {
          FoundLines(db.ars, lines, ar);
        }
      } else {
        assert ReceiptOk(db, db.receipts[r]);
      }
    }
  }

  lemma {:induction false} SettlementRowKeepsRows(db: Db, no: string, s: Settlement)
    requires Rows(db) && SettlementOk(s)
    requires no in db.settlements ==>
      && s == db.settlements[no].(status := s.status, confirmed := s.confirmed)
      && (db.settlements[no].confirmed ==> s.confirmed)
    ensures Rows(db.(settlements := db.settlements[no := s]))
  {
    var n := db.(settlements := db.settlements[no := s]);
    forall k | k in n.ars ensures VoucherOk(n, "AR-", k, n.ars[k]) {
      assert VoucherOk(db, "AR-", k, db.ars[k]);
    }
    forall k | k in n.aps ensures VoucherOk(n, "AP-", k, n.aps[k]) {
      assert VoucherOk(db, "AP-", k, db.aps[k]);
    }
  }

  lemma {:induction false} PaymentRowKeepsRows(db: Db, no: string, p: Payment)
    requires Rows(db) && p.ap in db.aps
    ensures Rows(db.(payments := db.payments[no := p]))
  {
  }

  lemma {:induction false} ReceiptRowKeepsRows(db: Db, no: string, r: Receipt)
    requires Rows(db) && ReceiptOk(db, r)
    ensures Rows(db.(receipts := db.receipts[no := r]))
  {
  }

  lemma {:induction false} RowsStep(db: Db, op: Op)
    requires Rows(db) && Do(db, op).Ok?
    ensures Rows(Do(db, op).value)
  {
    match op
    case CreateSettlement(no, _, _, _, _, _, _) => SettlementRowKeepsRows(db, no, Do(db, op).value.settlements[no]);
    case ConfirmSettlement(no) => BookKeepsRows(db, no, db.settlements[no]);
    case ConfirmCrossTenant(no) => BookKeepsRows(db, no, db.settlements[no]);
    case CancelSettlement(no) => SettlementRowKeepsRows(db, no, Do(db, op).value.settlements[no]);
    case RecordReceipt(no, _) => ReceiptRowKeepsRows(db, no, Do(db, op).value.receipts[no]);
    case ConfirmReceipt(no) =>
      assert ReceiptOk(db, db.receipts[no]);
      ReceiptRowKeepsRows(db, no, Do(db, op).value.receipts[no]);
    case WriteOffReceipt(no, offs) => WriteOffKeepsRows(db, no, offs);
    case _ => RowsPaymentStep(db, op);
  }

  predicate IsPaymentOp(op: Op) {
    op.RequestPayment? || op.ApprovePayment? || op.RejectPayment? || op.ExecutePayment? || op.BankCallback?
  }

  lemma {:induction false} MoveKeepsRows(db: Db, no: string, from: PaymentStatus, to: PaymentStatus)
    requires Rows(db) && MovePayment(db, no, from, to).Ok?
    ensures Rows(MovePayment(db, no, from, to).value)
  {
    PaymentRowKeepsRows(db, no, db.payments[no].(status := to));
  }

  lemma {:induction false} RowsPaymentStep(db: Db, op: Op)
    requires Rows(db) && Do(db, op).Ok? && IsPaymentOp(op)
    ensures Rows(Do(db, op).value)
  {
    match op
    case RequestPayment(no, _, _, _) => PaymentRowKeepsRows(db, no, Do(db, op).value.payments[no]);
    case ApprovePayment(no, _) => MoveKeepsRows(db, no, PPendingApproval, PApproved);
    case RejectPayment(no) => MoveKeepsRows(db, no, PPendingApproval, PDraft);
    case ExecutePayment(no) => MoveKeepsRows(db, no, PApproved, PExecuting);
    case BankCallback(no, success, bankRef) =>
      if success {
        SettleKeepsRows(db, no, bankRef);
      } else {
        MoveKeepsRows(db, no, PExecuting, PFailed);
      }
  }

  // ---------- paid amounts ----------

  lemma {:induction false} NewPayableUnpaid(db: Db, ap: string)
    requires Rows(db) && ap !in db.aps
    ensures SumBy(db.payments, PaidTo(ap)) == 0
  {
    forall no | no in db.payments ensures PaidTo(ap)(db.payments[no]) == 0 {
      assert db.payments[no].ap in db.aps;
    }
    SumZero(db.payments, PaidTo(ap));
  }

  /** A payment that is not successful before and after counts nothing. */
  lemma {:induction false} MoveKeepsPaid(db: Db, no: string, from: PaymentStatus, to: PaymentStatus, ap: string)
    requires MovePayment(db, no, from, to).Ok? && !from.PSuccess? && !to.PSuccess?
    ensures SumBy(MovePayment(db, no, from, to).value.payments, PaidTo(ap)) == SumBy(db.payments, PaidTo(ap))
  {
    SumUpdate(db.payments, PaidTo(ap), no, MovePayment(db, no, from, to).value.payments[no]);
  }

  /** A success callback adds the payment to its payable and to the successful payments. */
  lemma {:induction false} SettleReconciles(db: Db, no: string, bankRef: Option<string>, ap: string)
    requires Rows(db) && Settle(db, no, bankRef).Ok? && ap in db.aps && PaidReconciles(db, ap)
    ensures PaidReconciles(Settle(db, no, bankRef).value, ap)
  {
    SumUpdate(db.payments, PaidTo(ap), no, Settle(db, no, bankRef).value.payments[no]);
  }

  /** Existing vouchers stay, and new ones have nothing settled. */
  ghost predicate Extends(before: Vouchers, after: Vouchers) {
    && (forall k :: k in before ==> k in after && after[k] == before[k])
    && (forall k :: k in after && k !in before ==> after[k].settled == 0)
  }

  /** A confirmation adds vouchers under new numbers only. */
  lemma {:induction false} ConfirmAddsVouchers(db: Db, no: string)
    requires Rows(db) && no in db.settlements && Confirm(db, no, db.settlements[no]).Ok?
    ensures var n := Confirm(db, no, db.settlements[no]).value;
      && n.payments == db.payments && n.receipts == db.receipts
      && Extends(db.aps, n.aps) && Extends(db.ars, n.ars)
  {
    UnconfirmedHasNoVoucher(db, no);
    var c := ConfirmedRow(db.settlements[no]);
    BookAdds(db.(settlements := db.settlements[no := c]), no, c);
  }

  /** Which voucher tables a booking extends. */
  lemma {:induction false} BookShape(db: Db, no: string, s: Settlement)
    ensures var n := Book(db, no, s);
      && n.settlements == db.settlements && n.payments == db.payments && n.receipts == db.receipts
      && n.aps == (if s.kind.Sales? then db.aps else db.aps[ApNo(no) := NewVoucher(no, s, s.initiator)])
      && n.ars ==
        if s.kind.Sales? then db.ars[ArNo(no) := NewVoucher(no, s, s.initiator)]
        else if s.kind.CrossTenant? && s.receiver.Some? then db.ars[ArNo(no) := NewVoucher(no, s, s.receiver.value)]
        else db.ars
  {
  }

  lemma {:induction false} AddedExtends(vouchers: Vouchers, no: string, v: Voucher)
    requires no !in vouchers && v.settled == 0
    ensures Extends(vouchers, vouchers[no := v])
  {
  }

  lemma {:induction false} BookAdds(db: Db, no: string, s: Settlement)
    requires ArNo(no) !in db.ars && ApNo(no) !in db.aps
    ensures Extends(db.aps, Book(db, no, s).aps) && Extends(db.ars, Book(db, no, s).ars)
    ensures Book(db, no, s).payments == db.payments && Book(db, no, s).receipts == db.receipts
  {
    BookShape(db, no, s);
    AddedExtends(db.aps, ApNo(no), NewVoucher(no, s, s.initiator));
    AddedExtends(db.ars, ArNo(no), NewVoucher(no, s, s.initiator));
    if s.receiver.Some? {
      AddedExtends(db.ars, ArNo(no), NewVoucher(no, s, s.receiver.value));
    }
  }

  /** Calls that touch no payable and no payment. */
  predicate LeavesPayables(op: Op) {
    || op.CreateSettlement? || op.CancelSettlement?
    || op.RecordReceipt? || op.ConfirmReceipt? || op.WriteOffReceipt?
  }

  lemma {:induction false} PayablesFrame(db: Db, op: Op)
    requires Do(db, op).Ok? && LeavesPayables(op)
    ensures Do(db, op).value.aps == db.aps && Do(db, op).value.payments == db.payments
  {
  }

  lemma {:induction false} PaidStep(db: Db, op: Op, ap: string)
    requires Rows(db) && Do(db, op).Ok? && ap in Do(db, op).value.aps
    requires ap in db.aps ==> PaidReconciles(db, ap)
    ensures PaidReconciles(Do(db, op).value, ap)
  {
    if LeavesPayables(op) {
      PayablesFrame(db, op);
    } else if op.ConfirmSettlement? || op.ConfirmCrossTenant? {
      ConfirmAddsVouchers(db, op.no);
      if ap !in db.aps {
        NewPayableUnpaid(db, ap);
      }
    } else {
      PaidPaymentStep(db, op, ap);
    }
  }

  lemma {:induction false} PaidPaymentStep(db: Db, op: Op, ap: string)
    requires Rows(db) && Do(db, op).Ok? && ap in Do(db, op).value.aps && (ap in db.aps ==> PaidReconciles(db, ap))
    requires !LeavesPayables(op) && !op.ConfirmSettlement? && !op.ConfirmCrossTenant?
    ensures PaidReconciles(Do(db, op).value, ap)
  {
    match op
    case RequestPayment(no, _, _, _) => SumUpdate(db.payments, PaidTo(ap), no, Do(db, op).value.payments[no]);
    case ApprovePayment(no, _) => MoveKeepsPaid(db, no, PPendingApproval, PApproved, ap);
    case RejectPayment(no) => MoveKeepsPaid(db, no, PPendingApproval, PDraft, ap);
    case ExecutePayment(no) => MoveKeepsPaid(db, no, PApproved, PExecuting, ap);
    case BankCallback(no, success, bankRef) =>
      if success {
        SettleReconciles(db, no, bankRef, ap);
      } else {
        MoveKeepsPaid(db, no, PExecuting, PFailed, ap);
      }
  }

  // ---------- received amounts ----------

  lemma {:induction false} NewReceivableUnreceived(db: Db, ar: string)
    requires Rows(db) && ar !in db.ars
    ensures SumBy(db.receipts, AppliedTo(ar)) == 0
  {
    forall no | no in db.receipts ensures AppliedTo(ar)(db.receipts[no]) == 0 {
      assert ReceiptOk(db, db.receipts[no]);
      NoLineNoCents(db.receipts[no].applied, ar);
    }
    SumZero(db.receipts, AppliedTo(ar));
  }

  lemma {:induction false} WriteOffReceived(db: Db, no: string, offs: seq<(string, real)>, ar: string)
    requires Rows(db) && WriteOff(db, no, offs).Ok? && ar in db.ars && ReceivedReconciles(db, ar)
    ensures ar in WriteOff(db, no, offs).value.ars && ReceivedReconciles(WriteOff(db, no, offs).value, ar)
  {
    var n := WriteOff(db, no, offs).value;
    var lines := ParseLines(offs).value;
    ApplyLinesEffect(db.ars, lines, ar);
    FoundLines(db.ars, lines, ar);
    assert ReceiptOk(db, db.receipts[no]);
    SumUpdate(db.receipts, AppliedTo(ar), no, n.receipts[no]);
  }

  /** A receipt row without lines, before and after, counts nothing. */
  lemma {:induction false} EmptyReceiptKeepsReceived(db: Db, no: string, r: Receipt, ar: string)
    requires r.applied == [] && (no in db.receipts ==> db.receipts[no].applied == [])
    ensures SumBy(db.receipts[no := r], AppliedTo(ar)) == SumBy(db.receipts, AppliedTo(ar))
  {
    SumUpdate(db.receipts, AppliedTo(ar), no, r);
  }

  /** Calls that touch no receivable and no receipt. */
  predicate LeavesReceivables(op: Op) {
    || op.CreateSettlement? || op.CancelSettlement? || op.RequestPayment? || op.ApprovePayment?
    || op.RejectPayment? || op.ExecutePayment? || op.BankCallback?
  }

  lemma {:induction false} ReceivablesFrame(db: Db, op: Op)
    requires Do(db, op).Ok? && LeavesReceivables(op)
    ensures Do(db, op).value.ars == db.ars && Do(db, op).value.receipts == db.receipts
  {
  }

  lemma {:induction false} ReceivedStep(db: Db, op: Op, ar: string)
    requires Rows(db) && Do(db, op).Ok? && ar in Do(db, op).value.ars
    requires ar in db.ars ==> ReceivedReconciles(db, ar)
    ensures ReceivedReconciles(Do(db, op).value, ar)
  {
    if LeavesReceivables(op) {
      ReceivablesFrame(db, op);
    } else if op.ConfirmSettlement? || op.ConfirmCrossTenant? {
      ConfirmAddsVouchers(db, op.no);
      if ar !in db.ars {
        NewReceivableUnreceived(db, ar);
      }
    } else {
      ReceivedReceiptStep(db, op, ar);
    }
  }

  lemma {:induction false} ReceivedReceiptStep(db: Db, op: Op, ar: string)
    requires Rows(db) && Do(db, op).Ok? && ar in Do(db, op).value.ars && (ar in db.ars ==> ReceivedReconciles(db, ar))
    requires op.RecordReceipt? || op.ConfirmReceipt? || op.WriteOffReceipt?
    ensures ReceivedReconciles(Do(db, op).value, ar)
  {
    match op
    case RecordReceipt(no, _) => EmptyReceiptKeepsReceived(db, no, Do(db, op).value.receipts[no], ar);
    case ConfirmReceipt(no) =>
      assert ReceiptOk(db, db.receipts[no]);
      EmptyReceiptKeepsReceived(db, no, Do(db, op).value.receipts[no], ar);
    case WriteOffReceipt(no, offs) =>
      ApplyLinesEffect(db.ars, ParseLines(offs).value, ar);
      WriteOffReceived(db, no, offs, ar);
  }

  // ---------- what is booked ----------

  lemma {:induction false} SettlementRowKeepsBooked(db: Db, no: string, s: Settlement, kind: SettlementType)
    requires Booked(db, kind)
    requires if no in db.settlements then s == db.settlements[no].(status := s.status) else !s.confirmed
    ensures Booked(db.(settlements := db.settlements[no := s]), kind)
  {
    SumUpdate(db.settlements, BooksAr(kind), no, s);
    SumUpdate(db.settlements, BooksAp(kind), no, s);
  }

  /** Booking a confirmed settlement adds its amount to the receivables of its type, where it has one. */
  lemma {:induction false} BookAddsAr(db: Db, no: string, c: Settlement, kind: SettlementType)
    requires ArNo(no) !in db.ars && c.confirmed
    ensures SumBy(Book(db, no, c).ars, Total(kind)) == SumBy(db.ars, Total(kind)) + BooksAr(kind)(c)
  {
    BookShape(db, no, c);
    var tenant := if c.kind.CrossTenant? && c.receiver.Some? then c.receiver.value else c.initiator;
    SumUpdate(db.ars, Total(kind), ArNo(no), NewVoucher(no, c, tenant));
  }

  lemma {:induction false} BookAddsAp(db: Db, no: string, c: Settlement, kind: SettlementType)
    requires ApNo(no) !in db.aps && c.confirmed
    ensures SumBy(Book(db, no, c).aps, Total(kind)) == SumBy(db.aps, Total(kind)) + BooksAp(kind)(c)
  {
    BookShape(db, no, c);
    SumUpdate(db.aps, Total(kind), ApNo(no), NewVoucher(no, c, c.initiator));
  }

  /** Confirming adds the settlement to both sides: its amount and its vouchers. */
  lemma {:induction false} ConfirmKeepsBooked(db: Db, no: string, kind: SettlementType)
    requires Rows(db) && Booked(db, kind) && no in db.settlements && Confirm(db, no, db.settlements[no]).Ok?
    ensures Booked(Confirm(db, no, db.settlements[no]).value, kind)
  {
    var c := ConfirmedRow(db.settlements[no]);
    var marked := db.(settlements := db.settlements[no := c]);
    assert SettlementOk(db.settlements[no]);
    UnconfirmedHasNoVoucher(db, no);
    BookShape(marked, no, c);
    BookAddsAr(marked, no, c, kind);
    BookAddsAp(marked, no, c, kind);
    SumUpdate(db.settlements, BooksAr(kind), no, c);
    SumUpdate(db.settlements, BooksAp(kind), no, c);
  }

  lemma {:induction false} SettleKeepsBooked(db: Db, no: string, bankRef: Option<string>, kind: SettlementType)
    requires Booked(db, kind) && Settle(db, no, bankRef).Ok?
    ensures Booked(Settle(db, no, bankRef).value, kind)
  {
    var ap := db.payments[no].ap;
    if ap in db.aps {
      SumUpdate(db.aps, Total(kind), ap, Settle(db, no, bankRef).value.aps[ap]);
    }
  }

  lemma {:induction false} WriteOffKeepsBooked(db: Db, no: string, offs: seq<(string, real)>, kind: SettlementType)
    requires Booked(db, kind) && WriteOff(db, no, offs).Ok?
    ensures Booked(WriteOff(db, no, offs).value, kind)
  {
    var lines := ParseLines(offs).value;
    ApplyLinesEffect(db.ars, lines, "");
    forall ar | ar in db.ars
      ensures Total(kind)(db.ars[ar]) == Total(kind)(ApplyLines(db.ars, lines).value[ar])
    {
      ApplyLinesEffect(db.ars, lines, ar);
    }
    SumSameRows(db.ars, ApplyLines(db.ars, lines).value, Total(kind));
  }

  /** Calls that leave settlements and voucher amounts alone. */
  predicate LeavesBooks(op: Op) {
    || op.RequestPayment? || op.ApprovePayment? || op.RejectPayment? || op.ExecutePayment?
    || (op.BankCallback? && !op.success) || op.RecordReceipt? || op.ConfirmReceipt?
  }

  lemma {:induction false} BooksFrame(db: Db, op: Op)
    requires Do(db, op).Ok? && LeavesBooks(op)
    ensures var n := Do(db, op).value; n.settlements == db.settlements && n.ars == db.ars && n.aps == db.aps
  {
  }

  lemma {:induction false} BookedStep(db: Db, op: Op, kind: SettlementType)
    requires Rows(db) && Booked(db, kind) && Do(db, op).Ok?
    ensures Booked(Do(db, op).value, kind)
  {
    if LeavesBooks(op) {
      BooksFrame(db, op);
    } else {
      match op
      case CreateSettlement(no, _, _, _, _, _, _) =>
        SettlementRowKeepsBooked(db, no, Do(db, op).value.settlements[no], kind);
      case CancelSettlement(no) => SettlementRowKeepsBooked(db, no, Do(db, op).value.settlements[no], kind);
      case ConfirmSettlement(no) => ConfirmKeepsBooked(db, no, kind);
      case ConfirmCrossTenant(no) => ConfirmKeepsBooked(db, no, kind);
      case WriteOffReceipt(no, offs) => WriteOffKeepsBooked(db, no, offs, kind);
      case BankCallback(no, _, bankRef) => SettleKeepsBooked(db, no, bankRef, kind);
    }
  }

  // ---------- every run ----------

  ghost predicate Invariant(db: Db) {
    && Rows(db)
    && (forall ap :: ap in db.aps ==> PaidReconciles(db, ap))
    && (forall ar :: ar in db.ars ==> ReceivedReconciles(db, ar))
    && (forall kind :: Booked(db, kind))
  }

  lemma {:induction false} InvariantStep(db: Db, op: Op)
    requires Invariant(db)
    ensures Invariant(Apply(db, op))
  {
    if Do(db, op).Ok? {
      var n := Do(db, op).value;
      RowsStep(db, op);
      forall ap | ap in n.aps ensures PaidReconciles(n, ap) {
        PaidStep(db, op, ap);
      }
      forall ar | ar in n.ars ensures ReceivedReconciles(n, ar) {
        ReceivedStep(db, op, ar);
      }
      forall kind ensures Booked(n, kind) {
        BookedStep(db, op, kind);
      }
    }
  }

  lemma {:induction false} RunKeepsInvariant(db: Db, ops: seq<Op>)
    requires Invariant(db)
    ensures Invariant(Run(db, ops))
    decreases |ops|
  {
    if ops != [] {
      InvariantStep(db, ops[0]);
      RunKeepsInvariant(Apply(db, ops[0]), ops[1..]);
    }
  }

  lemma {:induction false} RunInvariant(ops: seq<Op>)
    ensures Invariant(Run(EMPTY, ops))
  {
    forall kind ensures Booked(EMPTY, kind) {
    }
    RunKeepsInvariant(EMPTY, ops);
  }

  /** In every run a payable is its confirmed settlement's amount, split into open and paid, and
      what is paid is the total of the successful payments naming it, each counted once. */
  lemma {:induction false} PayableOfEveryRun(ops: seq<Op>, ap: string)
    requires ap in Run(EMPTY, ops).aps
    ensures var db := Run(EMPTY, ops); var v := db.aps[ap];
      && ap == ApNo(v.ref) && v.ref in db.settlements && db.settlements[v.ref].confirmed
      && db.settlements[v.ref].cents == v.settled + v.open
      && v.settled == SumBy(db.payments, PaidTo(ap))
  {
    RunInvariant(ops);
    assert VoucherOk(Run(EMPTY, ops), "AP-", ap, Run(EMPTY, ops).aps[ap]);
    assert PaidReconciles(Run(EMPTY, ops), ap);
  }

  /** In every run what is received on a receivable is the total of the written-off lines that found
      it, at most that of all lines naming it, and all of it exactly if every receipt's lines found it. */
  lemma {:induction false} ReceivedIsApplied(ops: seq<Op>, ar: string)
    requires ar in Run(EMPTY, ops).ars
    ensures var db := Run(EMPTY, ops); var v := db.ars[ar];
      && ar == ArNo(v.ref) && v.ref in db.settlements && db.settlements[v.ref].confirmed
      && db.settlements[v.ref].cents == v.settled + v.open
      && v.settled == SumBy(db.receipts, AppliedTo(ar)) <= SumBy(db.receipts, NamedBy(ar))
      && (v.settled == SumBy(db.receipts, NamedBy(ar)) <==>
            forall no :: no in db.receipts ==> AllFound(db.receipts[no], ar))
  {
    var db := Run(EMPTY, ops);
    RunInvariant(ops);
    assert VoucherOk(db, "AR-", ar, db.ars[ar]) && ReceivedReconciles(db, ar);
    forall no | no in db.receipts ensures AppliedTo(ar)(db.receipts[no]) <= NamedBy(ar)(db.receipts[no]) {
      assert ReceiptOk(db, db.receipts[no]);
    }
    SumBelow(db.receipts, AppliedTo(ar), NamedBy(ar));
    assert forall no :: no in db.receipts ==>
      (AppliedTo(ar)(db.receipts[no]) == NamedBy(ar)(db.receipts[no]) <==> AllFound(db.receipts[no], ar));
  }

  /** All lines of the receipt that name the receivable found it. */
  predicate AllFound(r: Receipt, ar: string) {
    LineCents(r.applied, ar) == LineCents(r.lines, ar)
  }

  /** In every run the payables of purchases total the purchases confirmed now plus those cancelled
      after their confirmation, whose payable stays booked. */
  lemma {:induction false} PurchasePayablesTotal(ops: seq<Op>)
    ensures var db := Run(EMPTY, ops);
      && SumBy(db.aps, Total(Purchase))
         == SumBy(db.settlements, ConfirmedNow(Purchase)) + SumBy(db.settlements, CancelledLater(Purchase))
      && (SumBy(db.aps, Total(Purchase)) == SumBy(db.settlements, ConfirmedNow(Purchase))
          <==> forall no :: no in db.settlements ==> CancelledLater(Purchase)(db.settlements[no]) == 0)
  {
    var db := Run(EMPTY, ops);
    RunInvariant(ops);
    assert Booked(db, Purchase);
    var zero := (s: Settlement) => 0;
    forall no | no in db.settlements
      ensures var s := db.settlements[no];
        BooksAp(Purchase)(s) == ConfirmedNow(Purchase)(s) + CancelledLater(Purchase)(s)
    {
      assert SettlementOk(db.settlements[no]);
    }
    SumSplit(db.settlements, BooksAp(Purchase), ConfirmedNow(Purchase), CancelledLater(Purchase));
    SumZero(db.settlements, zero);
    SumBelow(db.settlements, zero, CancelledLater(Purchase));
  }

  /** Cross-tenant settlements that were confirmed without a receiver. */
  function Receiverless(s: Settlement): int {
    if s.kind.CrossTenant? && s.confirmed && s.receiver.None? then s.cents else 0
  }

  /** In every run the cross-tenant payables exceed the cross-tenant receivables by the settlements
      confirmed without a receiver: they net to zero exactly when there is none. */
  lemma {:induction false} CrossTenantNets(ops: seq<Op>)
    ensures var db := Run(EMPTY, ops);
      && SumBy(db.aps, Total(CrossTenant)) == SumBy(db.ars, Total(CrossTenant)) + SumBy(db.settlements, Receiverless)
      && (SumBy(db.aps, Total(CrossTenant)) == SumBy(db.ars, Total(CrossTenant))
          <==> forall no :: no in db.settlements ==> Receiverless(db.settlements[no]) == 0)
  {
    var db := Run(EMPTY, ops);
    RunInvariant(ops);
    assert Booked(db, CrossTenant);
    var zero := (s: Settlement) => 0;
    SumSplit(db.settlements, BooksAp(CrossTenant), BooksAr(CrossTenant), Receiverless);
    SumZero(db.settlements, zero);
    SumBelow(db.settlements, zero, Receiverless);
  }

  /** In every run a success callback is accepted exactly when the payment is executing and its
      payable still has the amount open: a second payment requested against the same open amount
      is refused after the bank has paid it. */
  lemma {:induction false} CallbackAcceptedIff(ops: seq<Op>, no: string, bankRef: Option<string>)
    ensures var db := Run(EMPTY, ops);
      Do(db, BankCallback(no, true, bankRef)).Ok? <==>
        no in db.payments && db.payments[no].status.PExecuting? && db.payments[no].ap in db.aps
        && db.payments[no].cents <= db.aps[db.payments[no].ap].open
  {
    var db := Run(EMPTY, ops);
    RunInvariant(ops);
    if no in db.payments {
      var ap := db.payments[no].ap;
      assert VoucherOk(db, "AP-", ap, db.aps[ap]);
    }
  }

  function SettledOf(ars: Vouchers, ar: string): nat {
    if ar in ars then ars[ar].settled else 0
  }

  lemma {:induction false} LineIsCounted(lines: seq<WriteOffLine>, l: WriteOffLine)
    requires l in lines
    ensures LineCents(lines, l.ar) >= l.cents
  {
    if lines[0] != l {
      LineIsCounted(lines[1..], l);
    }
  }

  lemma {:induction false} OnlyZeroLines(lines: seq<WriteOffLine>, ar: string)
    requires forall l :: l in lines && l.ar == ar ==> l.cents == 0
    ensures LineCents(lines, ar) == 0
  {
    if lines != [] {
      OnlyZeroLines(lines[1..], ar);
    }
  }

  /** A write-off books every line exactly when each line's voucher exists or its amount is zero. */
  lemma {:induction false} WriteOffBooksAllIff(db: Db, no: string, offs: seq<(string, real)>)
    requires WriteOff(db, no, offs).Ok?
    ensures var n := WriteOff(db, no, offs).value; var lines := ParseLines(offs).value;
      (forall ar :: SettledOf(n.ars, ar) == SettledOf(db.ars, ar) + LineCents(lines, ar))
      <==> (forall l :: l in lines ==> l.ar in db.ars || l.cents == 0)
  {
    var n := WriteOff(db, no, offs).value;
    var lines := ParseLines(offs).value;
    forall ar
      ensures SettledOf(n.ars, ar) == SettledOf(db.ars, ar) + (if ar in db.ars then LineCents(lines, ar) else 0)
    {
      ApplyLinesEffect(db.ars, lines, ar);
    }
    if forall l :: l in lines ==> l.ar in db.ars || l.cents == 0 {
      forall ar ensures SettledOf(n.ars, ar) == SettledOf(db.ars, ar) + LineCents(lines, ar) {
        if ar !in db.ars {
          OnlyZeroLines(lines, ar);
        }
      }
    } else {
      var l :| l in lines && l.ar !in db.ars && l.cents != 0;
      LineIsCounted(lines, l);
      assert SettledOf(n.ars, l.ar) != SettledOf(db.ars, l.ar) + LineCents(lines, l.ar);
    }
  }

  /** A line can name a voucher before its settlement is confirmed: the receipt is then spent, and the
      voucher booked afterwards is still wholly open. */
  lemma {:induction false} LineBeforeVoucherIsLost(db: Db, no: string, receipt: string)
    requires Rows(db) && no in db.settlements && db.settlements[no].status.SDraft? && db.settlements[no].kind.Sales?
    requires receipt in db.receipts && db.receipts[receipt].status.RConfirmed? && db.receipts[receipt].cents >= 100
    ensures var paid := Apply(db, WriteOffReceipt(receipt, [(ArNo(no), 1.0)]));
      var n := Apply(paid, ConfirmSettlement(no));
      && n.receipts[receipt].status.RWriteOff? && LineCents(n.receipts[receipt].lines, ArNo(no)) == 100
      && ArNo(no) in n.ars && n.ars[ArNo(no)].settled == 0
  {
    var offs := [(ArNo(no), 1.0)];
    var l := WriteOffLine(ArNo(no), 100);
    UnconfirmedHasNoVoucher(db, no);
    var none: seq<WriteOffLine> := [];
    assert offs[1..] == [] && [l][1..] == none;
    assert ParseLines(offs) == Ok([l] + none) && [l] + none == [l];
    assert CentsOf([l]) == 100 + CentsOf(none) && LineCents([l], ArNo(no)) == 100 + LineCents(none, ArNo(no));
    assert ApplyLines(db.ars, [l]) == ApplyLines(db.ars, none);
    var paid := Apply(db, WriteOffReceipt(receipt, offs));
    assert paid.ars == db.ars && paid.settlements == db.settlements;
  }
}
