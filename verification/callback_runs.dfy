/** Which successes that the bank reports can be booked on one payable. */
module CallbackRuns {
  import opened Results
  import opened FinMoney
  import opened Ledger
  import opened LedgerRuns
  import PaymentRuns

  // ---------- a refusal is final ----------

  /** No call gives a payable back what was paid on it. */
  lemma {:induction false} OpenStep(db: Db, op: Op, ap: string)
    requires Rows(db) && ap in db.aps
    ensures ap in Apply(db, op).aps && Apply(db, op).aps[ap].open <= db.aps[ap].open
  {
    if Do(db, op).Ok? {
      if LeavesPayables(op) {
        PayablesFrame(db, op);
      } else if op.ConfirmSettlement? || op.ConfirmCrossTenant? {
        ConfirmAddsVouchers(db, op.no);
      }
    }
  }

  /** The payment has failed, or it is executing for more than is open on its payable. */
  predicate Blocked(db: Db, no: string) {
    && no in db.payments && db.payments[no].ap in db.aps
    && (db.payments[no].status.PFailed?
        || (db.payments[no].status.PExecuting? && db.payments[no].cents > db.aps[db.payments[no].ap].open))
  }

  lemma {:induction false} BlockedIsRefused(db: Db, no: string, bankRef: Option<string>)
    requires Blocked(db, no)
    ensures Do(db, BankCallback(no, true, bankRef)).Err?
  {
  }

  lemma {:induction false} BlockedStep(db: Db, op: Op, no: string)
    requires Rows(db) && Blocked(db, no)
    ensures Blocked(Apply(db, op), no)
  {
    if op.BankCallback? && op.no == no && op.success {
      BlockedIsRefused(db, no, op.bankRef);
    } else {
      OpenStep(db, op, db.payments[no].ap);
      PaymentRuns.PaymentStep(db, op, no);
    }
  }

  lemma {:induction false} BlockedRun(db: Db, ops: seq<Op>, no: string)
    requires Rows(db) && Blocked(db, no)
    ensures Blocked(Run(db, ops), no)
    decreases |ops|
  {
    if ops != [] {
      BlockedStep(db, ops[0], no);
      if Do(db, ops[0]).Ok? {
        RowsStep(db, ops[0]);
      }
      BlockedRun(Apply(db, ops[0]), ops[1..], no);
    }
  }

  /** In every run a success that exceeds what is open on its payable is refused then, and after any
      further calls. */
  lemma {:induction false} RefusedForever(ops: seq<Op>, more: seq<Op>, no: string, bankRef: Option<string>)
    requires var db := Run(EMPTY, ops);
      && no in db.payments && db.payments[no].status.PExecuting? && db.payments[no].ap in db.aps
      && db.payments[no].cents > db.aps[db.payments[no].ap].open
    ensures Do(Run(Run(EMPTY, ops), more), BankCallback(no, true, bankRef)).Err?
  {
    RunInvariant(ops);
    BlockedRun(Run(EMPTY, ops), more, no);
    BlockedIsRefused(Run(Run(EMPTY, ops), more), no, bankRef);
  }

  // ---------- several successes ----------

  /** The successes of these payments, reported in this order, are all booked. */
  predicate AllAccepted(db: Db, nos: seq<string>, refs: string -> Option<string>)
    decreases |nos|
  {
    nos == [] ||
    (Do(db, BankCallback(nos[0], true, refs(nos[0]))).Ok?
     && AllAccepted(Apply(db, BankCallback(nos[0], true, refs(nos[0]))), nos[1..], refs))
  }

  predicate ExecutingOn(db: Db, nos: seq<string>, ap: string) {
    && (forall i :: 0 <= i < |nos| ==> nos[i] in db.payments && db.payments[nos[i]].ap == ap
                                       && db.payments[nos[i]].status.PExecuting?)
    && (forall i, j :: 0 <= i < j < |nos| ==> nos[i] != nos[j])
  }

  function Sum(payments: map<string, Payment>, nos: seq<string>): nat
    requires forall i :: 0 <= i < |nos| ==> nos[i] in payments
    decreases |nos|
  {
    if nos == [] then 0 else payments[nos[0]].cents + Sum(payments, nos[1..])
  }

  lemma {:induction false} SumSame(before: map<string, Payment>, after: map<string, Payment>, nos: seq<string>)
    requires forall i :: 0 <= i < |nos| ==> nos[i] in before && nos[i] in after && before[nos[i]] == after[nos[i]]
    ensures Sum(before, nos) == Sum(after, nos)
    decreases |nos|
  {
    if nos != [] {
      SumSame(before, after, nos[1..]);
    }
  }

  /** Booking one success. */
  lemma {:induction false} SettleEffect(db: Db, no: string, ap: string, bankRef: Option<string>)
    requires Rows(db) && ap in db.aps
    requires no in db.payments && db.payments[no].ap == ap && db.payments[no].status.PExecuting?
    ensures Settle(db, no, bankRef).Ok? <==> db.payments[no].cents <= db.aps[ap].open
    ensures Settle(db, no, bankRef).Ok? ==>
      var n := Settle(db, no, bankRef).value;
      && Rows(n) && ap in n.aps && n.aps[ap].open == db.aps[ap].open - db.payments[no].cents
      && n.payments == db.payments[no := db.payments[no].(status := PSuccess, bankRef := bankRef)]
  {
    assert VoucherOk(db, "AP-", ap, db.aps[ap]);
    if Settle(db, no, bankRef).Ok? {
      SettleKeepsRows(db, no, bankRef);
    }
  }

  lemma {:induction false} AcceptedIff(db: Db, nos: seq<string>, ap: string, refs: string -> Option<string>)
    requires Rows(db) && ap in db.aps && ExecutingOn(db, nos, ap)
    ensures AllAccepted(db, nos, refs) <==> Sum(db.payments, nos) <= db.aps[ap].open
    decreases |nos|
  {
    if nos != [] {
      var no, rest := nos[0], nos[1..];
      SettleEffect(db, no, ap, refs(no));
      if Settle(db, no, refs(no)).Ok? {
        var n := Settle(db, no, refs(no)).value;
        assert forall i :: 0 <= i < |rest| ==> rest[i] == nos[i + 1] && rest[i] != no;
        SumSame(db.payments, n.payments, rest);
        AcceptedIff(n, rest, ap, refs);
        assert Apply(db, BankCallback(no, true, refs(no))) == n;
      }
    }
  }

  /** In every run, and in every order, the successes of executing payments of one payable are all booked
      exactly if their total is at most what is open on it. */
  lemma {:induction false} AllAcceptedIff(ops: seq<Op>, nos: seq<string>, ap: string, refs: string -> Option<string>)
    requires var db := Run(EMPTY, ops); ap in db.aps && ExecutingOn(db, nos, ap)
    ensures var db := Run(EMPTY, ops);
      AllAccepted(db, nos, refs) <==> Sum(db.payments, nos) <= db.aps[ap].open
  {
    RunInvariant(ops);
    AcceptedIff(Run(EMPTY, ops), nos, ap, refs);
  }
}
