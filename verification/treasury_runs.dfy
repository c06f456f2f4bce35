/** What treasury calls undo, what a frozen amount protects, and how a transfer came to its status. */
module TreasuryRuns {
  import opened Results
  import opened FinMoney
  import opened Treasury

  // ---------- freezing ----------

  /** What can be frozen can be unfrozen, and that undoes it. */
  lemma {:induction false} UnfreezeUndoesFreeze(db: Db, no: string, amount: real, currency: string)
    requires Do(db, Freeze(no, amount, currency)).Ok?
    ensures Do(Apply(db, Freeze(no, amount, currency)), Unfreeze(no, amount, currency)) == Ok(db)
  {
    var id := db.byNo[no];
    var next := Apply(db, Freeze(no, amount, currency));
    assert next.accounts[id := db.accounts[id]] == db.accounts;
  }

  /** Exactly what is available can be frozen, in the account's own currency. */
  lemma {:induction false} FreezeSucceedsIff(db: Db, no: string, cents: nat, currency: string)
    requires Sound(db) && no in db.byNo && db.byNo[no] in db.accounts
    ensures Do(db, Freeze(no, cents as real / 100.0, currency)).Ok? <==>
      var a := db.accounts[db.byNo[no]]; a.currency == currency && cents <= a.balance - a.frozen
  {
    assert cents as real / 100.0 * 100.0 == cents as real;
  }

  lemma {:induction false} StepKeepsNumbers(db: Db, op: Op, id: Uuid)
    requires Registered(db)
    ensures Registered(Apply(db, op))
    ensures id in db.accounts ==> id in Apply(db, op).accounts && Apply(db, op).accounts[id].no == db.accounts[id].no
  {
  }

  /** Account numbers and rows belong together. */
  ghost predicate Registered(db: Db) {
    forall no :: no in db.byNo ==> db.byNo[no] in db.accounts && db.accounts[db.byNo[no]].no == no
  }

  predicate NoUnfreezeOf(ops: seq<Op>, no: string) {
    forall i :: 0 <= i < |ops| && ops[i].Unfreeze? ==> ops[i].no != no
  }

  lemma {:induction false} RunKeepsFrozen(db: Db, ops: seq<Op>, id: Uuid)
    requires Sound(db) && Registered(db) && id in db.accounts && NoUnfreezeOf(ops, db.accounts[id].no)
    ensures var n := Run(db, ops);
      id in n.accounts && db.accounts[id].frozen <= n.accounts[id].frozen <= n.accounts[id].balance
    decreases |ops|
  {
    if ops != [] {
      StepKeepsNumbers(db, ops[0], id);
      SoundStep(db, ops[0]);
      RunKeepsFrozen(Apply(db, ops[0]), ops[1..], id);
    } else {
      assert AccountOk(db.accounts[id]);
    }
  }

  lemma {:induction false} RunKeepsRegistered(db: Db, ops: seq<Op>)
    requires Registered(db)
    ensures Registered(Run(db, ops))
    decreases |ops|
  {
    if ops != [] {
      StepKeepsNumbers(db, ops[0], 0);
      RunKeepsRegistered(Apply(db, ops[0]), ops[1..]);
    }
  }

  /** Frozen money is safe: from any state that calls can reach, while nobody unfreezes the account, no
      calls can bring its balance below what is frozen now. */
  lemma {:induction false} FrozenMoneyStays(before: seq<Op>, ops: seq<Op>, id: Uuid)
    requires id in Run(EMPTY, before).accounts && NoUnfreezeOf(ops, Run(EMPTY, before).accounts[id].no)
    ensures var db := Run(EMPTY, before); var n := Run(db, ops);
      id in n.accounts && db.accounts[id].frozen <= n.accounts[id].balance
  {
    forall currency ensures Conserved(EMPTY, currency) {
    }
    RunKeepsValid(EMPTY, before);
    RunKeepsRegistered(EMPTY, before);
    RunKeepsFrozen(Run(EMPTY, before), ops, id);
  }

  // ---------- how a transfer came to its status ----------

  lemma {:induction false} RunLast(db: Db, ops: seq<Op>, op: Op)
    ensures Run(db, ops + [op]) == Apply(Run(db, ops), op)
    decreases |ops|
  {
    if ops == [] {
      assert [op][1..] == [] && ops + [op] == [op];
      assert Run(db, [op]) == Run(Apply(db, op), []);
    } else {
      assert (ops + [op])[1..] == ops[1..] + [op];
      RunLast(Apply(db, ops[0]), ops[1..], op);
    }
  }

  /** The transfer was requested between distinct accounts, within what the source had available then. */
  predicate Requested(ops: seq<Op>, no: string, from: Uuid, to: Uuid, cents: nat) {
    exists i :: 0 <= i < |ops| && ops[i].Request? && ops[i].no == no
      && ops[i].from == from && ops[i].to == to && from != to && ops[i].amount == cents as real / 100.0
      && AvailableFor(Run(EMPTY, ops[..i]), from, cents, ops[i].currency)
  }

  predicate AvailableFor(db: Db, from: Uuid, cents: nat, currency: string) {
    && from in db.accounts && db.accounts[from].currency == currency
    && cents <= db.accounts[from].balance - db.accounts[from].frozen
  }

  predicate ApprovedBy(ops: seq<Op>, no: string, from: Uuid, to: Uuid, cents: nat, approver: string) {
    exists i :: 0 <= i < |ops| && ops[i] == Approve(no, approver) && Requested(ops[..i], no, from, to, cents)
  }

  predicate Executed(ops: seq<Op>, no: string, from: Uuid, to: Uuid, cents: nat, approver: string) {
    exists i :: 0 <= i < |ops| && ops[i] == Execute(no) && ApprovedBy(ops[..i], no, from, to, cents, approver)
  }

  /** The calls that lead to a transfer's status, each made after the one before. */
  predicate HasHistory(ops: seq<Op>, no: string, t: Transfer) {
    match t.status
    case PendingApproval => t.approvers == [] && Requested(ops, no, t.from, t.to, t.cents)
    case Approved => |t.approvers| == 1 && ApprovedBy(ops, no, t.from, t.to, t.cents, t.approvers[0])
    case Success => |t.approvers| == 1 && Executed(ops, no, t.from, t.to, t.cents, t.approvers[0])
    case _ => false
  }

  /** The call takes the transfer one step along its history. */
  predicate Moves(op: Op, no: string, u: Transfer, t: Transfer) {
    && t.from == u.from && t.to == u.to && t.cents == u.cents
    && match t.status
       case Approved =>
         u.status.PendingApproval? && op.Approve? && op.no == no && t.approvers == u.approvers + [op.approver]
       case Success => u.status.Approved? && op == Execute(no) && t.approvers == u.approvers
       case _ => false
  }

  lemma {:induction false} TransferStep(db: Db, op: Op, no: string)
    requires no in Apply(db, op).transfers
    ensures var t := Apply(db, op).transfers[no];
      if no in db.transfers then t == db.transfers[no] || Moves(op, no, db.transfers[no], t)
      else op.Request? && op.no == no && t.status.PendingApproval? && t.approvers == []
           && op.from == t.from && op.to == t.to && t.from != t.to && op.amount == t.cents as real / 100.0
           && AvailableFor(db, t.from, t.cents, op.currency)
  {
  }

  lemma {:induction false} HistoryStays(ops: seq<Op>, op: Op, no: string, t: Transfer)
    requires HasHistory(ops, no, t)
    ensures HasHistory(ops + [op], no, t)
  {
    assert forall i :: 0 <= i < |ops| ==> (ops + [op])[i] == ops[i] && (ops + [op])[..i] == ops[..i];
  }

  lemma {:induction false} HistoryMoves(ops: seq<Op>, op: Op, no: string, u: Transfer, t: Transfer)
    requires HasHistory(ops, no, u) && Moves(op, no, u, t)
    ensures HasHistory(ops + [op], no, t)
  {
    assert (ops + [op])[|ops|] == op && (ops + [op])[..|ops|] == ops;
  }

  /** In every run each transfer went through its calls in order: requested between these accounts for
      this amount, which was available then, approved by the one approver it names, and then executed. */
  lemma {:induction false} TransferFollowsCalls(ops: seq<Op>, no: string)
    requires no in Run(EMPTY, ops).transfers
    ensures HasHistory(ops, no, Run(EMPTY, ops).transfers[no])
  {
    if ops != [] {
      var init, op := ops[..|ops| - 1], ops[|ops| - 1];
      var db := Run(EMPTY, init);
      assert ops == init + [op];
      RunLast(EMPTY, init, op);
      TransferStep(db, op, no);
      if no in db.transfers {
        TransferFollowsCalls(init, no);
        if Apply(db, op).transfers[no] == db.transfers[no] {
          HistoryStays(init, op, no, db.transfers[no]);
        } else {
          HistoryMoves(init, op, no, db.transfers[no], Apply(db, op).transfers[no]);
        }
      } else {
        assert (init + [op])[|init|] == op && (init + [op])[..|init|] == init;
      }
    }
  }

  // ---------- a transfer that never executes ----------

  function DollarCalls(): seq<Op> {
    [Create(1, 1, "A", "USD", 1.0)] + [Create(2, 1, "B", "USD", 0.0)] + [Request("T", 1, 2, 1.0, "USD")]
    + [Approve("T", "manager")]
  }

  /** Between two dollar accounts a transfer is requested and approved, but its execution raises. */
  lemma {:induction false} DollarTransferRun()
    ensures var db := Run(EMPTY, DollarCalls());
      && "T" in db.transfers && db.transfers["T"].status.Approved?
      && Do(db, Execute("T")) == Err(MoneyCurrencyMismatch)
  {
    var none: seq<Op> := [];
    var c1, c2 := Create(1, 1, "A", "USD", 1.0), Create(2, 1, "B", "USD", 0.0);
    var c3, c4 := Request("T", 1, 2, 1.0, "USD"), Approve("T", "manager");
    assert FromDecimal(1.0, "USD") == Ok(Money(100, "USD")) && FromDecimal(0.0, "USD") == Ok(Money(0, "USD"));
    assert none + [c1] == [c1] && Run(EMPTY, none) == EMPTY;
    RunLast(EMPTY, none, c1);
    var s1 := Db(map[1 := Account(1, "A", "USD", 100, 0, 100)], map["A" := 1], map[]);
    assert Run(EMPTY, [c1]) == s1;
    RunLast(EMPTY, [c1], c2);
    assert "B" !in s1.byNo;
    var s2 := Run(EMPTY, [c1] + [c2]);
    assert s2 == Db(s1.accounts[2 := Account(1, "B", "USD", 0, 0, 0)], s1.byNo["B" := 2], map[]);
    RunLast(EMPTY, [c1] + [c2], c3);
    RunLast(EMPTY, [c1] + [c2] + [c3], c4);
  }

  // ---------- accounts and what is frozen on them ----------

  predicate CreatedBy(ops: seq<Op>, id: Uuid, a: Account) {
    Create(id, a.tenant, a.no, a.currency, a.opening as real / 100.0) in ops
  }

  lemma {:induction false} AccountStep(db: Db, op: Op, id: Uuid)
    requires id in Apply(db, op).accounts
    ensures var n := Apply(db, op).accounts[id];
      if id in db.accounts then n == db.accounts[id].(balance := n.balance, frozen := n.frozen)
      else op == Create(id, n.tenant, n.no, n.currency, n.opening as real / 100.0)
           && n.frozen == 0 && n.balance == n.opening && n.no !in db.byNo
  {
  }

  /** In every run each account still has the tenant, number, currency and opening balance that it was
      created with. */
  lemma {:induction false} AccountWasCreated(ops: seq<Op>, id: Uuid)
    requires id in Run(EMPTY, ops).accounts
    ensures CreatedBy(ops, id, Run(EMPTY, ops).accounts[id])
  {
    if ops != [] {
      var init, op := ops[..|ops| - 1], ops[|ops| - 1];
      var db := Run(EMPTY, init);
      assert ops == init + [op];
      RunLast(EMPTY, init, op);
      AccountStep(db, op, id);
      if id in db.accounts {
        AccountWasCreated(init, id);
      }
    }
  }

  /** Each account is the one that its number leads to, so no two accounts share a number. */
  ghost predicate Numbered(db: Db) {
    forall id :: id in db.accounts ==> db.accounts[id].no in db.byNo && db.byNo[db.accounts[id].no] == id
  }

  lemma {:induction false} NumberedStep(db: Db, op: Op)
    requires Numbered(db)
    ensures Numbered(Apply(db, op))
  {
    forall id | id in Apply(db, op).accounts
      ensures var n := Apply(db, op); n.accounts[id].no in n.byNo && n.byNo[n.accounts[id].no] == id
    {
      AccountStep(db, op, id);
    }
  }

  /** In every run no two accounts share a number. */
  lemma {:induction false} NumbersAreUnique(ops: seq<Op>)
    ensures Numbered(Run(EMPTY, ops))
    decreases |ops|
  {
    if ops != [] {
      var init, op := ops[..|ops| - 1], ops[|ops| - 1];
      assert ops == init + [op];
      RunLast(EMPTY, init, op);
      NumbersAreUnique(init);
      NumberedStep(Run(EMPTY, init), op);
    }
  }

  /** What one accepted call freezes on the account of this number; an unfreeze counts against it. */
  function Freezes(db: Db, op: Op, no: string): real {
    if Do(db, op).Err? then 0.0
    else if op.Freeze? && op.no == no then op.amount
    else if op.Unfreeze? && op.no == no then -op.amount
    else 0.0
  }

  /** What the accepted calls of a run freeze on the account of this number, unfreezes taken off. */
  function NetFrozen(ops: seq<Op>, no: string): real {
    if ops == [] then 0.0
    else
      var init := ops[..|ops| - 1];
      NetFrozen(init, no) + Freezes(Run(EMPTY, init), ops[|ops| - 1], no)
  }

  lemma {:induction false} FreezeStep(db: Db, op: Op, id: Uuid)
    requires Numbered(db) && Registered(db) && id in db.accounts
    ensures id in Apply(db, op).accounts
    ensures Apply(db, op).accounts[id].frozen as real / 100.0
         == db.accounts[id].frozen as real / 100.0 + Freezes(db, op, db.accounts[id].no)
  {
    if Do(db, op).Ok? && (op.Freeze? || op.Unfreeze?) {
      assert Exact(op.amount);
      var m := FromDecimal(op.amount, op.currency).value;
      assert m.cents as real / 100.0 == op.amount;
    }
  }

  lemma {:induction false} UnknownFreezesNothing(ops: seq<Op>, no: string)
    requires no !in Run(EMPTY, ops).byNo
    ensures NetFrozen(ops, no) == 0.0
    decreases |ops|
  {
    if ops != [] {
      var init, op := ops[..|ops| - 1], ops[|ops| - 1];
      assert ops == init + [op];
      RunLast(EMPTY, init, op);
      NumbersStay(Run(EMPTY, init), op, no);
      UnknownFreezesNothing(init, no);
    }
  }

  lemma {:induction false} NumbersStay(db: Db, op: Op, no: string)
    ensures no in db.byNo ==> no in Apply(db, op).byNo
    ensures no !in db.byNo ==> Freezes(db, op, no) == 0.0
  {
  }

  /** In every run what is frozen on an account is what the accepted freezes of its number add up to, less
      the accepted unfreezes. */
  lemma {:induction false} FrozenReconciles(ops: seq<Op>, id: Uuid)
    requires id in Run(EMPTY, ops).accounts
    ensures var a := Run(EMPTY, ops).accounts[id]; a.frozen as real / 100.0 == NetFrozen(ops, a.no)
    decreases |ops|
  {
    if ops != [] {
      var init, op := ops[..|ops| - 1], ops[|ops| - 1];
      var db := Run(EMPTY, init);
      assert ops == init + [op];
      RunLast(EMPTY, init, op);
      NumbersAreUnique(init);
      AccountStep(db, op, id);
      if id in db.accounts {
        FrozenReconciles(init, id);
        RunKeepsRegistered(EMPTY, init);
        FreezeStep(db, op, id);
      } else {
        var no := Apply(db, op).accounts[id].no;
        UnknownFreezesNothing(init, no);
        NumbersStay(db, op, no);
      }
    }
  }

  // ---------- when calls are accepted ----------

  /** An account is created exactly for a new number and an exact opening balance; a request is accepted
      exactly for a new number, an exact amount that the source has available in its currency, and another
      account; an approval exactly while the transfer waits for it. */
  lemma {:induction false} CreateAcceptedIff(
    db: Db, id: Uuid, tenant: Uuid, no: string, currency: string, opening: real)
    requires id !in db.accounts
    ensures Do(db, Create(id, tenant, no, currency, opening)).Ok? <==> no !in db.byNo && Exact(opening)
  {
  }

  lemma {:induction false} RequestAcceptedIff(db: Db, no: string, from: Uuid, to: Uuid, amount: real, currency: string)
    requires Sound(db)
    ensures Do(db, Request(no, from, to, amount, currency)).Ok? <==>
      && no !in db.transfers && from in db.accounts && from != to && Exact(amount)
      && currency == db.accounts[from].currency
      && amount <= (db.accounts[from].balance - db.accounts[from].frozen) as real / 100.0
  {
    if from in db.accounts && Exact(amount) {
      assert AccountOk(db.accounts[from]);
      assert FromDecimal(amount, currency).value.cents as real / 100.0 == amount;
    }
  }

  lemma {:induction false} ApproveAcceptedIff(db: Db, no: string, approver: string)
    ensures Do(db, Approve(no, approver)).Ok? <==> no in db.transfers && db.transfers[no].status == PendingApproval
  {
  }

  /** What is frozen, and no more, can be unfrozen. */
  lemma {:induction false} UnfreezeSucceedsIff(db: Db, no: string, cents: nat, currency: string)
    requires no in db.byNo && db.byNo[no] in db.accounts
    ensures Do(db, Unfreeze(no, cents as real / 100.0, currency)).Ok? <==>
      var a := db.accounts[db.byNo[no]]; a.currency == currency && cents <= a.frozen
  {
    assert cents as real / 100.0 * 100.0 == cents as real;
  }
}
