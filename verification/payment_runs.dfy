/** How a payment came to its status: the calls that every run must have made before, in order. */
module PaymentRuns {
  import opened Results
  import opened FinMoney
  import opened Ledger

  lemma {:induction false} RunConcat(db: Db, a: seq<Op>, b: seq<Op>)
    ensures Run(db, a + b) == Run(Run(db, a), b)
    decreases |a|
  {
    if a == [] {
      assert a + b == b;
    } else {
      assert (a + b)[1..] == a[1..] + b;
      RunConcat(Apply(db, a[0]), a[1..], b);
    }
  }

  lemma {:induction false} RunLast(db: Db, ops: seq<Op>, op: Op)
    ensures Run(db, ops + [op]) == Apply(Run(db, ops), op)
  {
    RunConcat(db, ops, [op]);
    assert [op][1..] == [];
    assert Run(Run(db, ops), [op]) == Run(Apply(Run(db, ops), op), []);
  }

  /** Up to 50,000 a manager signs, above it a director, above 500,000 with a second signature. */
  predicate Authority(roles: seq<string>, cents: nat) {
    && (cents <= 50_000_00 ==> "FIN_MANAGER" in roles)
    && (cents > 50_000_00 ==> "FIN_DIRECTOR" in roles)
    && (cents > 500_000_00 ==> "DUAL_SIGN" in roles)
  }

  /** The payment was requested, within what was open on its payable at that moment. */
  predicate Requested(ops: seq<Op>, no: string, ap: string, cents: nat) {
    exists i :: 0 <= i < |ops| && ops[i].RequestPayment? && ops[i].no == no
      && ops[i].ap == ap && ops[i].amount == cents as real / 100.0 && ops[i].currency == "CNY"
      && OpenFor(Run(EMPTY, ops[..i]), ap, cents)
  }

  predicate OpenFor(db: Db, ap: string, cents: nat) {
    ap in db.aps && cents <= db.aps[ap].open
  }

  predicate Rejected(ops: seq<Op>, no: string, ap: string, cents: nat) {
    exists i :: 0 <= i < |ops| && ops[i] == RejectPayment(no) && Requested(ops[..i], no, ap, cents)
  }

  predicate Approved(ops: seq<Op>, no: string, ap: string, cents: nat) {
    exists i :: 0 <= i < |ops| && ops[i].ApprovePayment? && ops[i].no == no
      && Authority(ops[i].roles, cents) && Requested(ops[..i], no, ap, cents)
  }

  predicate Executed(ops: seq<Op>, no: string, ap: string, cents: nat) {
    exists i :: 0 <= i < |ops| && ops[i] == ExecutePayment(no) && Approved(ops[..i], no, ap, cents)
  }

  predicate Succeeded(ops: seq<Op>, no: string, ap: string, cents: nat, bankRef: Option<string>) {
    exists i :: 0 <= i < |ops| && ops[i] == BankCallback(no, true, bankRef) && Executed(ops[..i], no, ap, cents)
  }

  predicate Failed(ops: seq<Op>, no: string, ap: string, cents: nat) {
    exists i :: 0 <= i < |ops| && ops[i].BankCallback? && ops[i].no == no && !ops[i].success
      && Executed(ops[..i], no, ap, cents)
  }

  /** The calls that lead to a payment's status, each made after the one before. */
  predicate HasHistory(ops: seq<Op>, no: string, p: Payment) {
    match p.status
    case PPendingApproval => Requested(ops, no, p.ap, p.cents)
    case PDraft => Rejected(ops, no, p.ap, p.cents)
    case PApproved => Approved(ops, no, p.ap, p.cents)
    case PExecuting => Executed(ops, no, p.ap, p.cents)
    case PSuccess => Succeeded(ops, no, p.ap, p.cents, p.bankRef)
    case PFailed => Failed(ops, no, p.ap, p.cents)
    case PCancelled => false
  }

  lemma {:induction false} HistoryStays(ops: seq<Op>, op: Op, no: string, p: Payment)
    requires HasHistory(ops, no, p)
    ensures HasHistory(ops + [op], no, p)
  {
    assert forall i :: 0 <= i < |ops| ==> (ops + [op])[i] == ops[i] && (ops + [op])[..i] == ops[..i];
  }

  /** The call takes the payment one step along its history. */
  predicate Moves(op: Op, no: string, q: Payment, p: Payment) {
    && p.ap == q.ap && p.cents == q.cents
    && match p.status
       case PDraft => q.status.PPendingApproval? && op == RejectPayment(no)
       case PApproved =>
         q.status.PPendingApproval? && op.ApprovePayment? && op.no == no && Authority(op.roles, p.cents)
       case PExecuting => q.status.PApproved? && op == ExecutePayment(no)
       case PSuccess => q.status.PExecuting? && op == BankCallback(no, true, p.bankRef)
       case PFailed => q.status.PExecuting? && op.BankCallback? && op.no == no && !op.success
       case _ => false
  }

  predicate TouchesPayments(op: Op) {
    op.RequestPayment? || op.ApprovePayment? || op.RejectPayment? || op.ExecutePayment? || op.BankCallback?
  }

  lemma {:induction false} CallbackStep(db: Db, op: Op, no: string)
    requires op.BankCallback? && no in db.payments
    ensures no in Apply(db, op).payments
    ensures Apply(db, op).payments[no] == db.payments[no] || Moves(op, no, db.payments[no], Apply(db, op).payments[no])
  {
    if op.no == no && op.success && Settle(db, no, op.bankRef).Ok? {
      assert Settle(db, no, op.bankRef).value.payments
          == db.payments[no := db.payments[no].(status := PSuccess, bankRef := op.bankRef)];
    }
  }

  /** What one call can do to a payment that was there before. */
  lemma {:induction false} PaymentStep(db: Db, op: Op, no: string)
    requires no in db.payments
    ensures no in Apply(db, op).payments
    ensures Apply(db, op).payments[no] == db.payments[no] || Moves(op, no, db.payments[no], Apply(db, op).payments[no])
  {
    if op.BankCallback? {
      CallbackStep(db, op, no);
    }
  }

  /** A new payment comes from its request. */
  lemma {:induction false} NewPaymentStep(db: Db, op: Op, no: string)
    requires no !in db.payments && no in Apply(db, op).payments
    ensures op.RequestPayment? && op.no == no && op.currency == "CNY"
    ensures var p := Apply(db, op).payments[no];
      p.status.PPendingApproval? && op.ap == p.ap && op.amount == p.cents as real / 100.0 && OpenFor(db, p.ap, p.cents)
  {
  }

  lemma {:induction false} HistoryMoves(ops: seq<Op>, op: Op, no: string, q: Payment, p: Payment)
    requires HasHistory(ops, no, q) && Moves(op, no, q, p)
    ensures HasHistory(ops + [op], no, p)
  {
    assert (ops + [op])[|ops|] == op && (ops + [op])[..|ops|] == ops;
  }

  /** In every run each payment went through its calls in order: requested in CNY for that payable and
      amount, which was open on it then, approved with the authority the amount demands, executed, and then
      called back. */
  lemma {:induction false} PaymentFollowsCalls(ops: seq<Op>, no: string)
    requires no in Run(EMPTY, ops).payments
    ensures HasHistory(ops, no, Run(EMPTY, ops).payments[no])
  {
    if ops != [] {
      var init, op := ops[..|ops| - 1], ops[|ops| - 1];
      assert ops == init + [op];
      RunLast(EMPTY, init, op);
      var db := Run(EMPTY, init);
      if no in db.payments {
        PaymentFollowsCalls(init, no);
        PaymentStep(db, op, no);
        if Apply(db, op).payments[no] == db.payments[no] {
          HistoryStays(init, op, no, db.payments[no]);
        } else {
          HistoryMoves(init, op, no, db.payments[no], Apply(db, op).payments[no]);
        }
      } else {
        NewPaymentStep(db, op, no);
        assert (init + [op])[|init|] == op && (init + [op])[..|init|] == init;
      }
    }
  }

  // ---------- when calls are accepted ----------

  /** In every state: a request is accepted exactly for a new number, an existing payable, an exact amount
      in CNY and at most what is open. */
  lemma {:induction false} RequestAcceptedIff(db: Db, no: string, ap: string, amount: real, currency: string)
    ensures Do(db, RequestPayment(no, ap, amount, currency)).Ok? <==>
      && no !in db.payments && ap in db.aps && Exact(amount) && currency == "CNY"
      && amount <= db.aps[ap].open as real / 100.0
  {
    if Exact(amount) {
      var m := FromDecimal(amount, currency).value;
      assert m.cents as real / 100.0 == amount;
    }
  }

  /** The other payment calls are accepted exactly from the status before, an approval with the roles that
      the amount demands. */
  lemma {:induction false} MovesAcceptedIff(db: Db, no: string, roles: seq<string>, bankRef: Option<string>)
    ensures Do(db, ApprovePayment(no, roles)).Ok? <==>
      no in db.payments && db.payments[no].status == PPendingApproval && Authority(roles, db.payments[no].cents)
    ensures Do(db, RejectPayment(no)).Ok? <==> no in db.payments && db.payments[no].status == PPendingApproval
    ensures Do(db, ExecutePayment(no)).Ok? <==> no in db.payments && db.payments[no].status == PApproved
    ensures Do(db, BankCallback(no, false, bankRef)).Ok? <==>
      no in db.payments && db.payments[no].status == PExecuting
  {
  }
}
