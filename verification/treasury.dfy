/**
 * The treasury: accounts with frozen parts, and transfers that are requested, approved and
 * executed. A service call that raises leaves the database as it was.
 */
module Treasury {
  import opened Results
  import opened FinMoney
  import opened Sums

  type Uuid = nat

  datatype TransferStatus = PendingApproval | Approved | Executing | Success | Failed | Cancelled

  /** An account row; `opening` is bookkeeping for the theorems. */
  datatype Account = Account(tenant: Uuid, no: string, currency: string, balance: nat, frozen: nat, opening: nat)

  /** A transfer row: the table keeps the amount without its currency. */
  datatype Transfer = Transfer(from: Uuid, to: Uuid, cents: nat, status: TransferStatus, approvers: seq<string>)

  type Accounts = map<Uuid, Account>

  /** The account rows by primary key, the unique index on account numbers, the transfers by number. */
  datatype Db = Db(accounts: Accounts, byNo: map<string, Uuid>, transfers: map<string, Transfer>)

  // ---------- aggregates ----------

  function Balance(a: Account): Money {
    Money(a.balance, a.currency)
  }

  function Frozen(a: Account): Money {
    Money(a.frozen, a.currency)
  }

  function Available(a: Account): Result<Money, FinError> {
    Subtract(Balance(a), Frozen(a))
  }

  function FreezePart(a: Account, m: Money): Result<Account, FinError> {
    var frozen :- Add(Frozen(a), m);
    var above :- Exceeds(frozen, Balance(a));
    if above then Err(TreasuryFreezeExceed) else Ok(a.(frozen := frozen.cents))
  }

  function UnfreezePart(a: Account, m: Money): Result<Account, FinError> {
    var above :- Exceeds(m, Frozen(a));
    var frozen :- if above then Err(TreasuryFreezeExceed) else Subtract(Frozen(a), m);
    Ok(a.(frozen := frozen.cents))
  }

  function Deposit(a: Account, m: Money): Result<Account, FinError> {
    var balance :- Add(Balance(a), m);
    Ok(a.(balance := balance.cents))
  }

  function Withdraw(a: Account, m: Money): Result<Account, FinError> {
    var available :- Available(a);
    var above :- Exceeds(m, available);
    var balance :- if above then Err(TreasuryInsufficientBalance) else Subtract(Balance(a), m);
    Ok(a.(balance := balance.cents))
  }

  /** The amount of a transfer as the repository reloads it: always in CNY. */
  function Amount(t: Transfer): Money {
    Money(t.cents, "CNY")
  }

  // ---------- the service calls ----------

  datatype Op =
    | Create(id: Uuid, tenant: Uuid, no: string, currency: string, opening: real)
    | Request(no: string, from: Uuid, to: Uuid, amount: real, currency: string)
    | Approve(no: string, approver: string)
    | Execute(no: string)
    | Freeze(no: string, amount: real, currency: string)
    | Unfreeze(no: string, amount: real, currency: string)

  function ById(db: Db, id: Uuid): Result<Account, FinError> {
    if id in db.accounts then Ok(db.accounts[id]) else Err(TreasuryAccountNotFound)
  }

  function ByNo(db: Db, no: string): Result<Uuid, FinError> {
    if no in db.byNo && db.byNo[no] in db.accounts then Ok(db.byNo[no]) else Err(TreasuryAccountNotFound)
  }

  function TransferByNo(db: Db, no: string): Result<Transfer, FinError> {
    if no in db.transfers then Ok(db.transfers[no]) else Err(TreasuryTransferNotFound)
  }

  /** Both accounts are read before either is saved. */
  function MoveFunds(accounts: Accounts, from: Uuid, to: Uuid, m: Money): Result<Accounts, FinError> {
    if from !in accounts || to !in accounts then Err(TreasuryAccountNotFound)
    else
      var withdrawn :- Withdraw(accounts[from], m);
      var deposited :- Deposit(accounts[to], m);
      Ok(accounts[from := withdrawn][to := deposited])
  }

  function Do(db: Db, op: Op): Result<Db, FinError> {
    match op
    case Create(id, tenant, no, currency, opening) =>
      var _ :- Check(no !in db.byNo, TreasuryAccountDuplicate);
      var m :- FromDecimal(opening, currency);
      var _ :- Check(id !in db.accounts, KeyConflict);
      var a := Account(tenant, no, currency, m.cents, 0, m.cents);
      Ok(db.(accounts := db.accounts[id := a], byNo := db.byNo[no := id]))
    case Request(no, from, to, amount, currency) =>
      var _ :- Check(no !in db.transfers, TreasuryTransferFailed);
      var source :- ById(db, from);
      var m :- FromDecimal(amount, currency);
      var available :- Available(source);
      var above :- Exceeds(m, available);
      var _ :- Check(!above, TreasuryInsufficientBalance);
      var _ :- Check(from != to, TreasuryTransferSameAccount);
      Ok(db.(transfers := db.transfers[no := Transfer(from, to, m.cents, PendingApproval, [])]))
    case Approve(no, approver) =>
      var t :- TransferByNo(db, no);
      var _ :- Check(t.status.PendingApproval?, TreasuryTransferInvalidTransition);
      Ok(db.(transfers := db.transfers[no := t.(status := Approved, approvers := t.approvers + [approver])]))
    case Execute(no) =>
      var t :- TransferByNo(db, no);
      var _ :- Check(t.status.Approved?, TreasuryTransferInvalidTransition);
      var accounts :- MoveFunds(db.accounts, t.from, t.to, Amount(t));
      Ok(db.(accounts := accounts, transfers := db.transfers[no := t.(status := Success)]))
    case Freeze(no, amount, currency) =>
      var id :- ByNo(db, no);
      var m :- FromDecimal(amount, currency);
      var a :- FreezePart(db.accounts[id], m);
      Ok(db.(accounts := db.accounts[id := a]))
    case Unfreeze(no, amount, currency) =>
      var id :- ByNo(db, no);
      var m :- FromDecimal(amount, currency);
      var a :- UnfreezePart(db.accounts[id], m);
      Ok(db.(accounts := db.accounts[id := a]))
  }

  /** One transaction: a raised error rolls back. */
  function Apply(db: Db, op: Op): Db {
    match Do(db, op)
    case Ok(next) => next
    case Err(_) => db
  }

  function Run(db: Db, ops: seq<Op>): Db
    decreases |ops|
  {
    if ops == [] then db else Run(Apply(db, ops[0]), ops[1..])
  }

  const EMPTY := Db(map[], map[], map[])

  // ---------- what every run keeps ----------

  function BalanceIn(currency: string): Account -> int {
    (a: Account) => if a.currency == currency then a.balance else 0
  }

  function OpeningIn(currency: string): Account -> int {
    (a: Account) => if a.currency == currency then a.opening else 0
  }

  /** The successful transfers into, and out of, one account. */
  function CreditTo(id: Uuid): Transfer -> int {
    (t: Transfer) => if t.status.Success? && t.to == id then t.cents else 0
  }

  function DebitFrom(id: Uuid): Transfer -> int {
    (t: Transfer) => if t.status.Success? && t.from == id then t.cents else 0
  }

  ghost predicate Reconciles(db: Db, id: Uuid)
    requires id in db.accounts
  {
    db.accounts[id].balance
    == db.accounts[id].opening + SumBy(db.transfers, CreditTo(id)) - SumBy(db.transfers, DebitFrom(id))
  }

  ghost predicate Conserved(db: Db, currency: string) {
    SumBy(db.accounts, BalanceIn(currency)) == SumBy(db.accounts, OpeningIn(currency))
  }

  predicate AccountOk(a: Account) {
    a.frozen <= a.balance
  }

  predicate TransferOk(accounts: Accounts, t: Transfer) {
    t.from != t.to && (t.status.Success? ==> t.from in accounts && t.to in accounts)
  }

  /** The rows are sane: nothing frozen beyond the balance, transfers join distinct accounts. */
  ghost predicate Sound(db: Db) {
    && (forall id :: id in db.accounts ==> AccountOk(db.accounts[id]))
    && (forall no :: no in db.transfers ==> TransferOk(db.accounts, db.transfers[no]))
  }

  ghost predicate Valid(db: Db) {
    && Sound(db)
    && (forall currency :: Conserved(db, currency))
    && (forall id :: id in db.accounts ==> Reconciles(db, id))
  }

  // ---------- moving funds ----------

  /** What a successful move changes: the two balances, by the amount, within one currency. */
  lemma {:induction false} MoveFundsEffect(accounts: Accounts, from: Uuid, to: Uuid, m: Money)
    requires MoveFunds(accounts, from, to, m).Ok? && from != to
    ensures var n := MoveFunds(accounts, from, to, m).value;
      && n == accounts[from := accounts[from].(balance := n[from].balance)]
                      [to := accounts[to].(balance := n[to].balance)]
      && n[from].balance == accounts[from].balance - m.cents && n[to].balance == accounts[to].balance + m.cents
      && accounts[from].currency == accounts[to].currency == m.currency
      && accounts[from].frozen + m.cents <= accounts[from].balance
  {
  }

  /** With distinct accounts a move keeps every currency's total. */
  lemma {:induction false} MoveFundsConserves(accounts: Accounts, from: Uuid, to: Uuid, m: Money, currency: string)
    requires MoveFunds(accounts, from, to, m).Ok? && from != to
    ensures SumBy(MoveFunds(accounts, from, to, m).value, BalanceIn(currency)) == SumBy(accounts, BalanceIn(currency))
    ensures SumBy(MoveFunds(accounts, from, to, m).value, OpeningIn(currency)) == SumBy(accounts, OpeningIn(currency))
  {
    MoveFundsEffect(accounts, from, to, m);
    var n := MoveFunds(accounts, from, to, m).value;
    var mid := accounts[from := n[from]];
    SumUpdate(accounts, BalanceIn(currency), from, n[from]);
    SumUpdate(mid, BalanceIn(currency), to, n[to]);
    SumUpdate(accounts, OpeningIn(currency), from, n[from]);
    SumUpdate(mid, OpeningIn(currency), to, n[to]);
    assert n == mid[to := n[to]];
  }

  /** A move creates no money exactly when the accounts differ or nothing is moved: with one account
      the deposit, computed from the row read before, overwrites the withdrawal. */
  lemma {:induction false} MoveConservesIffDistinct(accounts: Accounts, from: Uuid, to: Uuid, m: Money)
    requires MoveFunds(accounts, from, to, m).Ok?
    ensures from != to || m.cents == 0 <==>
      SumBy(MoveFunds(accounts, from, to, m).value, BalanceIn(m.currency)) == SumBy(accounts, BalanceIn(m.currency))
  {
    if from != to {
      MoveFundsConserves(accounts, from, to, m, m.currency);
    } else {
      var n := MoveFunds(accounts, from, to, m).value;
      assert n == accounts[to := n[to]];
      SumUpdate(accounts, BalanceIn(m.currency), to, n[to]);
    }
  }

  // ---------- preservation ----------

  lemma {:induction false} SoundStep(db: Db, op: Op)
    requires Sound(db)
    ensures Sound(Apply(db, op))
  {
    if op.Execute? && Do(db, op).Ok? {
      var t := db.transfers[op.no];
      assert TransferOk(db.accounts, t);
      MoveFundsEffect(db.accounts, t.from, t.to, Amount(t));
      assert AccountOk(db.accounts[t.from]) && AccountOk(db.accounts[t.to]);
    }
  }

  lemma {:induction false} ConservedStep(db: Db, op: Op, currency: string)
    requires Sound(db) && Conserved(db, currency)
    ensures Conserved(Apply(db, op), currency)
  {
    var n := Apply(db, op);
    if Do(db, op).Ok? {
      match op
      case Create(id, _, _, _, _) =>
        SumUpdate(db.accounts, BalanceIn(currency), id, n.accounts[id]);
        SumUpdate(db.accounts, OpeningIn(currency), id, n.accounts[id]);
      case Execute(no) =>
        var t := db.transfers[no];
        assert TransferOk(db.accounts, t);
        MoveFundsConserves(db.accounts, t.from, t.to, Amount(t), currency);
      case Freeze(no, _, _) => FrozenOnlyConserves(db, db.byNo[no], n.accounts[db.byNo[no]], currency);
      case Unfreeze(no, _, _) => FrozenOnlyConserves(db, db.byNo[no], n.accounts[db.byNo[no]], currency);
      case _ =>
    }
  }

  lemma {:induction false} FrozenOnlyConserves(db: Db, id: Uuid, a: Account, currency: string)
    requires id in db.accounts && a == db.accounts[id].(frozen := a.frozen)
    ensures SumBy(db.accounts[id := a], BalanceIn(currency)) == SumBy(db.accounts, BalanceIn(currency))
    ensures SumBy(db.accounts[id := a], OpeningIn(currency)) == SumBy(db.accounts, OpeningIn(currency))
  {
    SumUpdate(db.accounts, BalanceIn(currency), id, a);
    SumUpdate(db.accounts, OpeningIn(currency), id, a);
  }

  /** Rewriting one transfer changes an account's credits and debits by that transfer's change. */
  lemma {:induction false} TransferSums(transfers: map<string, Transfer>, no: string, t: Transfer, id: Uuid)
    ensures SumBy(transfers[no := t], CreditTo(id))
         == SumBy(transfers, CreditTo(id)) + CreditTo(id)(t)
            - (if no in transfers then CreditTo(id)(transfers[no]) else 0)
    ensures SumBy(transfers[no := t], DebitFrom(id))
         == SumBy(transfers, DebitFrom(id)) + DebitFrom(id)(t)
            - (if no in transfers then DebitFrom(id)(transfers[no]) else 0)
  {
    SumUpdate(transfers, CreditTo(id), no, t);
    SumUpdate(transfers, DebitFrom(id), no, t);
  }

  /** An account that is not there yet has no successful transfers. */
  lemma {:induction false} NewAccountHasNoTransfers(db: Db, id: Uuid)
    requires Sound(db) && id !in db.accounts
    ensures SumBy(db.transfers, CreditTo(id)) == 0 && SumBy(db.transfers, DebitFrom(id)) == 0
  {
    forall no | no in db.transfers ensures CreditTo(id)(db.transfers[no]) == 0 && DebitFrom(id)(db.transfers[no]) == 0 {
      assert TransferOk(db.accounts, db.transfers[no]);
    }
    SumZero(db.transfers, CreditTo(id));
    SumZero(db.transfers, DebitFrom(id));
  }

  lemma {:induction false} ExecuteReconciles(db: Db, no: string, id: Uuid)
    requires Sound(db) && id in db.accounts && Reconciles(db, id) && Do(db, Execute(no)).Ok?
    ensures Reconciles(Do(db, Execute(no)).value, id)
  {
    var t := db.transfers[no];
    assert TransferOk(db.accounts, t);
    TransferSums(db.transfers, no, t.(status := Success), id);
    MoveFundsEffect(db.accounts, t.from, t.to, Amount(t));
  }

  /** Only an execution changes balances, and only requests and approvals write another transfer row. */
  lemma {:induction false} BalanceStays(db: Db, op: Op, id: Uuid)
    requires id in db.accounts && !op.Execute? && Do(db, op).Ok?
    ensures var n := Do(db, op).value;
      id in n.accounts && n.accounts[id] == db.accounts[id].(frozen := n.accounts[id].frozen)
    ensures !op.Request? && !op.Approve? ==> Do(db, op).value.transfers == db.transfers
  {
  }

  /** A transfer row that a request or an approval writes counts nothing, before and after. */
  lemma {:induction false} PendingCountsNothing(db: Db, op: Op, id: Uuid)
    requires (op.Request? || op.Approve?) && Do(db, op).Ok?
    ensures var n := Do(db, op).value;
      && SumBy(n.transfers, CreditTo(id)) == SumBy(db.transfers, CreditTo(id))
      && SumBy(n.transfers, DebitFrom(id)) == SumBy(db.transfers, DebitFrom(id))
  {
    var t := Do(db, op).value.transfers[op.no];
    TransferSums(db.transfers, op.no, t, id);
    assert Do(db, op).value.transfers == db.transfers[op.no := t];
  }

  lemma {:induction false} ReconcilesStep(db: Db, op: Op, id: Uuid)
    requires Sound(db) && id in Apply(db, op).accounts && (id in db.accounts ==> Reconciles(db, id))
    ensures Reconciles(Apply(db, op), id)
  {
    if Do(db, op).Ok? {
      if op.Execute? {
        ExecuteReconciles(db, op.no, id);
      } else if id in db.accounts {
        BalanceStays(db, op, id);
        if op.Request? || op.Approve? {
          PendingCountsNothing(db, op, id);
        }
      } else {
        NewAccountHasNoTransfers(db, id);
      }
    }
  }

  lemma {:induction false} ValidStep(db: Db, op: Op)
    requires Valid(db)
    ensures Valid(Apply(db, op))
  {
    SoundStep(db, op);
    forall currency ensures Conserved(Apply(db, op), currency) {
      ConservedStep(db, op, currency);
    }
    forall id | id in Apply(db, op).accounts ensures Reconciles(Apply(db, op), id) {
      ReconcilesStep(db, op, id);
    }
  }

  lemma {:induction false} RunKeepsValid(db: Db, ops: seq<Op>)
    requires Valid(db)
    ensures Valid(Run(db, ops))
    decreases |ops|
  {
    if ops != [] {
      ValidStep(db, ops[0]);
      RunKeepsValid(Apply(db, ops[0]), ops[1..]);
    }
  }

  /** Over every run of service calls each currency's balances total its opening balances. */
  lemma {:induction false} RunConservesMoney(ops: seq<Op>, currency: string)
    ensures var db := Run(EMPTY, ops);
      SumBy(db.accounts, BalanceIn(currency)) == SumBy(db.accounts, OpeningIn(currency))
  {
    assert forall c :: Conserved(EMPTY, c);
    RunKeepsValid(EMPTY, ops);
    assert Conserved(Run(EMPTY, ops), currency);
  }

  /** Over every run each account's balance is its opening balance plus its successful incoming
      transfers minus its successful outgoing ones, each counted once, and covers what is frozen. */
  lemma {:induction false} RunReconcilesAccounts(ops: seq<Op>, id: Uuid)
    requires id in Run(EMPTY, ops).accounts
    ensures var db := Run(EMPTY, ops); var a := db.accounts[id];
      && a.balance == a.opening + SumBy(db.transfers, CreditTo(id)) - SumBy(db.transfers, DebitFrom(id))
      && a.frozen <= a.balance
  {
    assert forall c :: Conserved(EMPTY, c);
    RunKeepsValid(EMPTY, ops);
    assert Reconciles(Run(EMPTY, ops), id) && AccountOk(Run(EMPTY, ops).accounts[id]);
  }

  /** A successful transfer is never touched again, so it moves its amount once. */
  lemma {:induction false} SuccessIsFinal(db: Db, ops: seq<Op>, no: string)
    requires no in db.transfers && db.transfers[no].status.Success?
    ensures no in Run(db, ops).transfers && Run(db, ops).transfers[no] == db.transfers[no]
    decreases |ops|
  {
    if ops != [] {
      SuccessIsFinal(Apply(db, ops[0]), ops[1..], no);
    }
  }

  /** Exactly when an execution succeeds: the transfer is approved, both accounts exist, both are in
      CNY, which is what a reloaded amount is in, and the source has the amount available. */
  lemma {:induction false} ExecuteSucceedsIff(db: Db, no: string)
    requires Sound(db)
    ensures Do(db, Execute(no)).Ok? <==>
      && no in db.transfers && db.transfers[no].status.Approved?
      && var t := db.transfers[no];
         && t.from in db.accounts && t.to in db.accounts
         && db.accounts[t.from].currency == db.accounts[t.to].currency == "CNY"
         && db.accounts[t.from].frozen + t.cents <= db.accounts[t.from].balance
  {
  }

  // ---------- the summary ----------

  datatype Summary = Summary(balance: nat, frozen: nat, available: nat, count: nat)

  function Total(rows: seq<Account>, f: Account -> int): int {
    if rows == [] then 0 else Total(rows[..|rows| - 1], f) + f(rows[|rows| - 1])
  }

  /** The listing asks the repository for this many accounts, newest first. */
  const LIMIT := 10000

  predicate Matches(a: Account, tenant: Uuid, currency: Option<string>) {
    a.tenant == tenant && (currency.None? || a.currency == currency.value)
  }

  /** The accounts of the tenant, and of the currency if one is given, in the order of the table. */
  function Listed(accounts: Accounts, order: seq<Uuid>, tenant: Uuid, currency: Option<string>): seq<Account>
    requires forall i :: 0 <= i < |order| ==> order[i] in accounts
  {
    if order == [] then []
    else
      var last := accounts[order[|order| - 1]];
      Listed(accounts, order[..|order| - 1], tenant, currency) + if Matches(last, tenant, currency) then [last] else []
  }

  function Page(rows: seq<Account>): seq<Account> {
    if |rows| <= LIMIT then rows else rows[..LIMIT]
  }

  /** The order lists every account once. */
  ghost predicate Enumerates(order: seq<Uuid>, accounts: Accounts) {
    && (forall i, j :: 0 <= i < j < |order| ==> order[i] != order[j])
    && (forall id :: id in order <==> id in accounts)
  }

  function Counted(tenant: Uuid, currency: Option<string>, f: Account -> int): Account -> int {
    (a: Account) => if Matches(a, tenant, currency) then f(a) else 0
  }

  lemma {:induction false} EnumeratesRest(order: seq<Uuid>, accounts: Accounts)
    requires Enumerates(order, accounts) && order != []
    ensures order[|order| - 1] in accounts
    ensures Enumerates(order[..|order| - 1], accounts - {order[|order| - 1]})
  {
    var id, init := order[|order| - 1], order[..|order| - 1];
    assert id in order;
    forall k ensures k in init <==> k in accounts - {id} {
      if k in init {
        var i :| 0 <= i < |init| && init[i] == k;
        assert order[i] == k;
      } else if k in accounts {
        assert k in order;
      }
    }
  }

  lemma {:induction false} TotalAppend(rows: seq<Account>, extra: seq<Account>, f: Account -> int)
    requires |extra| <= 1
    ensures Total(rows + extra, f) == Total(rows, f) + if extra == [] then 0 else f(extra[0])
  {
    if extra == [] {
      assert rows + extra == rows;
    } else {
      assert (rows + extra)[..|rows|] == rows;
    }
  }

  /** In whatever order the accounts are listed, their total is that of the matching rows. */
  lemma {:induction false} ListedTotal(accounts: Accounts, order: seq<Uuid>, tenant: Uuid, currency: Option<string>,
      f: Account -> int)
    requires Enumerates(order, accounts)
    ensures Total(Listed(accounts, order, tenant, currency), f) == SumBy(accounts, Counted(tenant, currency, f))
    decreases |order|
  {
    if order == [] {
      assert accounts == map[];
    } else {
      var id, init := order[|order| - 1], order[..|order| - 1];
      var rest := accounts - {id};
      EnumeratesRest(order, accounts);
      ListedTotal(rest, init, tenant, currency, f);
      assert forall i :: 0 <= i < |init| ==> init[i] in init;
      ListedSame(accounts, rest, init, tenant, currency);
      SumRemove(accounts, Counted(tenant, currency, f), id);
      TotalAppend(Listed(accounts, init, tenant, currency),
        if Matches(accounts[id], tenant, currency) then [accounts[id]] else [], f);
    }
  }

  /** What the accounts of the tenant hold, in the currency if one is given. */
  function BalanceOf(tenant: Uuid, currency: Option<string>): Account -> int {
    (a: Account) => if a.tenant == tenant && (currency == None || currency == Some(a.currency)) then a.balance else 0
  }

  function FrozenOf(tenant: Uuid, currency: Option<string>): Account -> int {
    (a: Account) => if a.tenant == tenant && (currency == None || currency == Some(a.currency)) then a.frozen else 0
  }

  lemma {:induction false} ListedSums(accounts: Accounts, order: seq<Uuid>, tenant: Uuid, currency: Option<string>)
    requires Enumerates(order, accounts)
    ensures Total(Listed(accounts, order, tenant, currency), (a: Account) => a.balance)
         == SumBy(accounts, BalanceOf(tenant, currency))
    ensures Total(Listed(accounts, order, tenant, currency), (a: Account) => a.frozen)
         == SumBy(accounts, FrozenOf(tenant, currency))
  {
    var balance, frozen := (a: Account) => a.balance, (a: Account) => a.frozen;
    ListedTotal(accounts, order, tenant, currency, balance);
    ListedTotal(accounts, order, tenant, currency, frozen);
    forall id | id in accounts
      ensures Counted(tenant, currency, balance)(accounts[id]) == BalanceOf(tenant, currency)(accounts[id])
      ensures Counted(tenant, currency, frozen)(accounts[id]) == FrozenOf(tenant, currency)(accounts[id])
    {
      assert Matches(accounts[id], tenant, currency) <==>
        accounts[id].tenant == tenant && (currency == None || currency == Some(accounts[id].currency));
    }
    SumSame(accounts, Counted(tenant, currency, balance), BalanceOf(tenant, currency));
    SumSame(accounts, Counted(tenant, currency, frozen), FrozenOf(tenant, currency));
  }

  lemma {:induction false} ListedSame(a: Accounts, b: Accounts, order: seq<Uuid>, tenant: Uuid,
      currency: Option<string>)
    requires forall i :: 0 <= i < |order| ==> order[i] in a && order[i] in b && a[order[i]] == b[order[i]]
    ensures Listed(a, order, tenant, currency) == Listed(b, order, tenant, currency)
    decreases |order|
  {
    if order != [] {
      ListedSame(a, b, order[..|order| - 1], tenant, currency);
    }
  }

  lemma {:induction false} ListedOk(accounts: Accounts, order: seq<Uuid>, tenant: Uuid, currency: Option<string>)
    requires forall i :: 0 <= i < |order| ==> order[i] in accounts && AccountOk(accounts[order[i]])
    ensures forall i :: 0 <= i < |Listed(accounts, order, tenant, currency)| ==>
      AccountOk(Listed(accounts, order, tenant, currency)[i])
    decreases |order|
  {
    if order != [] {
      ListedOk(accounts, order[..|order| - 1], tenant, currency);
    }
  }

  // ---------- the service ----------

  /** The call raised exactly what the specification raises, and left exactly what it leaves. */
  ghost predicate Performed(before: Db, op: Op, r: Result<(), FinError>, after: Db) {
    match Do(before, op)
    case Ok(next) => r.Ok? && after == next
    case Err(e) => r == Err(e) && after == before
  }

  class TreasuryService {
    var accounts: Accounts
    var byNo: map<string, Uuid>
    var transfers: map<string, Transfer>

    constructor ()
      ensures Model() == EMPTY
    {
      accounts, byNo, transfers := map[], map[], map[];
    }

    function Model(): Db
      reads this
    {
      Db(accounts, byNo, transfers)
    }

    method CreateTreasuryAccount(id: Uuid, tenant: Uuid, no: string, currency: string, opening: real)
      returns (r: Result<(), FinError>)
      modifies this
      ensures Performed(old(Model()), Create(id, tenant, no, currency, opening), r, Model())
    {
      if no in byNo {
        return Err(TreasuryAccountDuplicate);
      }
      var m :- FromDecimal(opening, currency);
      if id in accounts {
        return Err(KeyConflict);
      }
      accounts := accounts[id := Account(tenant, no, currency, m.cents, 0, m.cents)];
      byNo := byNo[no := id];
      return Ok(());
    }

    method RequestTreasuryTransfer(no: string, from: Uuid, to: Uuid, amount: real, currency: string)
      returns (r: Result<(), FinError>)
      modifies this`transfers
      ensures Performed(old(Model()), Request(no, from, to, amount, currency), r, Model())
    {
      if no in transfers {
        return Err(TreasuryTransferFailed);
      }
      if from !in accounts {
        return Err(TreasuryAccountNotFound);
      }
      var m :- FromDecimal(amount, currency);
      var available :- Available(accounts[from]);
      var above :- Exceeds(m, available);
      if above {
        return Err(TreasuryInsufficientBalance);
      }
      if from == to {
        return Err(TreasuryTransferSameAccount);
      }
      transfers := transfers[no := Transfer(from, to, m.cents, PendingApproval, [])];
      return Ok(());
    }

    method ApproveTreasuryTransfer(no: string, approver: string) returns (r: Result<(), FinError>)
      modifies this`transfers
      ensures Performed(old(Model()), Approve(no, approver), r, Model())
    {
      var t :- TransferByNo(Model(), no);
      if !t.status.PendingApproval? {
        return Err(TreasuryTransferInvalidTransition);
      }
      transfers := transfers[no := t.(status := Approved, approvers := t.approvers + [approver])];
      return Ok(());
    }

    /** Four saves; an error after the first rolls the session back. */
    method ExecuteTreasuryTransfer(no: string) returns (r: Result<(), FinError>)
      modifies this
      ensures Performed(old(Model()), Execute(no), r, Model())
    {
      var t :- TransferByNo(Model(), no);
      if !t.status.Approved? {
        return Err(TreasuryTransferInvalidTransition);
      }
      var before := transfers;
      transfers := transfers[no := t.(status := Executing)];
      if t.from !in accounts || t.to !in accounts {
        transfers := before;
        return Err(TreasuryAccountNotFound);
      }
      var withdrawn := Withdraw(accounts[t.from], Amount(t));
      if withdrawn.Err? {
        transfers := before;
        return Err(withdrawn.error);
      }
      var deposited := Deposit(accounts[t.to], Amount(t));
      if deposited.Err? {
        transfers := before;
        return Err(deposited.error);
      }
      accounts := accounts[t.from := withdrawn.value];
      accounts := accounts[t.to := deposited.value];
      transfers := transfers[no := t.(status := Success)];
      assert transfers == before[no := t.(status := Success)];
      return Ok(());
    }

    method FreezeAccount(no: string, amount: real, currency: string) returns (r: Result<(), FinError>)
      modifies this`accounts
      ensures Performed(old(Model()), Freeze(no, amount, currency), r, Model())
    {
      var id :- ByNo(Model(), no);
      var m :- FromDecimal(amount, currency);
      var a :- FreezePart(accounts[id], m);
      accounts := accounts[id := a];
      return Ok(());
    }

    method UnfreezeAccount(no: string, amount: real, currency: string) returns (r: Result<(), FinError>)
      modifies this`accounts
      ensures Performed(old(Model()), Unfreeze(no, amount, currency), r, Model())
    {
      var id :- ByNo(Model(), no);
      var m :- FromDecimal(amount, currency);
      var a :- UnfreezePart(accounts[id], m);
      accounts := accounts[id := a];
      return Ok(());
    }

    /** The three totals over the listed accounts, at most `LIMIT` of them: with accounts as every run
        leaves them it never raises, and what is available is what is not frozen. Up to the limit the
        totals are those of all accounts of the tenant and currency. */
    method GetBalanceSummary(order: seq<Uuid>, tenant: Uuid, currency: Option<string>)
      returns (r: Result<Summary, FinError>)
      requires Enumerates(order, accounts)
      ensures Sound(Model()) ==> r.Ok?
      ensures r.Ok? ==>
        var rows := Page(Listed(accounts, order, tenant, currency));
        && r.value.balance == Total(rows, (a: Account) => a.balance)
        && r.value.frozen == Total(rows, (a: Account) => a.frozen)
        && r.value.available == r.value.balance - r.value.frozen && r.value.count == |rows|
      ensures r.Ok? && |Listed(accounts, order, tenant, currency)| <= LIMIT ==>
        && r.value.balance == SumBy(accounts, BalanceOf(tenant, currency))
        && r.value.frozen == SumBy(accounts, FrozenOf(tenant, currency))
    {
      var rows := Page(Listed(accounts, order, tenant, currency));
      r := AddUp(rows);
      ListedSums(accounts, order, tenant, currency);
      if Sound(Model()) {
        ListedOk(accounts, order, tenant, currency);
      }
    }

    /** The loop of the summary; it raises exactly at a row that has more frozen than its balance. */
    static method AddUp(rows: seq<Account>) returns (r: Result<Summary, FinError>)
      ensures r.Ok? <==> forall i :: 0 <= i < |rows| ==> AccountOk(rows[i])
      ensures r.Ok? ==>
        && r.value.balance == Total(rows, (a: Account) => a.balance)
        && r.value.frozen == Total(rows, (a: Account) => a.frozen)
        && r.value.available == r.value.balance - r.value.frozen && r.value.count == |rows|
    {
      var balance, frozen, available := 0, 0, 0;
      for i := 0 to |rows|
        invariant balance == Total(rows[..i], (a: Account) => a.balance)
        invariant frozen == Total(rows[..i], (a: Account) => a.frozen)
        invariant available == balance - frozen && balance >= 0 && frozen >= 0 && available >= 0
        invariant forall k :: 0 <= k < i ==> AccountOk(rows[k])
      {
        balance := balance + rows[i].balance;
        frozen := frozen + rows[i].frozen;
        var part :- Available(rows[i]);
        available := available + part.cents;
        assert rows[..i + 1][..i] == rows[..i];
      }
      assert rows[..|rows|] == rows;
      return Ok(Summary(balance, frozen, available, |rows|));
    }
  }
}
