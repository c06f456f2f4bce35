/** What receipts can write off, when a write-off is accepted, and how a receipt came to its status. */
module ReceiptRuns {
  import opened Results
  import opened FinMoney
  import opened Ledger
  import opened LedgerRuns
  import opened Sums
  import PaymentRuns

  /** The sum of the lines, in hundredths. */
  function Amounts(lines: seq<WriteOffLine>): nat {
    if lines == [] then 0 else lines[0].cents + Amounts(lines[1..])
  }

  /** The sum of the given amounts, and of those that name one voucher. */
  function Given(offs: seq<(string, real)>): real {
    if offs == [] then 0.0 else offs[0].1 + Given(offs[1..])
  }

  function GivenTo(offs: seq<(string, real)>, ar: string): real {
    if offs == [] then 0.0 else (if offs[0].0 == ar then offs[0].1 else 0.0) + GivenTo(offs[1..], ar)
  }

  lemma {:induction false} AmountsAreCents(lines: seq<WriteOffLine>)
    ensures Amounts(lines) == CentsOf(lines)
  {
    if lines != [] {
      AmountsAreCents(lines[1..]);
    }
  }

  /** Reading the lines succeeds exactly for exact amounts, and keeps what they give. */
  lemma {:induction false} LinesGive(offs: seq<(string, real)>, ar: string)
    ensures ParseLines(offs).Ok? <==> forall i :: 0 <= i < |offs| ==> Exact(offs[i].1)
    ensures ParseLines(offs).Ok? ==>
      var lines := ParseLines(offs).value;
      && |lines| == |offs|
      && Amounts(lines) as real / 100.0 == Given(offs) && LineCents(lines, ar) as real / 100.0 == GivenTo(offs, ar)
    decreases |offs|
  {
    if offs != [] {
      LinesGive(offs[1..], ar);
      assert forall i :: 0 < i < |offs| ==> offs[i] == offs[1..][i - 1];
      if ParseLines(offs).Ok? {
        var lines := ParseLines(offs).value;
        assert lines[1..] == ParseLines(offs[1..]).value;
        assert lines[0].cents as real / 100.0 == offs[0].1;
      }
    }
  }

  // ---------- when a write-off is accepted ----------

  /** The lines fit the vouchers exactly if each voucher has open what all lines naming it take. */
  lemma {:induction false} LinesFitIff(ars: Vouchers, lines: seq<WriteOffLine>)
    requires forall ar :: ar in ars ==> ars[ar].total == ars[ar].settled + ars[ar].open
    ensures ApplyLines(ars, lines).Ok? <==> forall ar :: ar in ars ==> LineCents(lines, ar) <= ars[ar].open
    decreases |lines|
  {
    if lines != [] {
      var l := lines[0];
      if l.ar !in ars {
        LinesFitIff(ars, lines[1..]);
      } else if l.cents <= ars[l.ar].open {
        var next := ars[l.ar := ApplyAmount(ars[l.ar], l.cents, ReceiptWriteOffExceed).value];
        LinesFitIff(next, lines[1..]);
        assert next.Keys == ars.Keys;
        forall ar | ar in ars
          ensures LineCents(lines[1..], ar) <= next[ar].open <==> LineCents(lines, ar) <= ars[ar].open
        {
        }
      } else {
        assert LineCents(lines, l.ar) >= l.cents;
      }
    }
  }

  /** In every run a write-off is accepted exactly if the receipt is confirmed, there are lines, their
      amounts are exact, they total at most the receipt, and each voucher that exists has open what all the
      lines naming it give. */
  lemma {:induction false} WriteOffAcceptedIff(ops: seq<Op>, no: string, offs: seq<(string, real)>)
    ensures var db := Run(EMPTY, ops);
      Do(db, WriteOffReceipt(no, offs)).Ok? <==>
        && no in db.receipts && db.receipts[no].status == RConfirmed
        && offs != [] && (forall i :: 0 <= i < |offs| ==> Exact(offs[i].1))
        && Given(offs) <= db.receipts[no].cents as real / 100.0
        && forall ar :: ar in db.ars ==> GivenTo(offs, ar) <= db.ars[ar].open as real / 100.0
  {
    var db := Run(EMPTY, ops);
    RunInvariant(ops);
    LinesGive(offs, "");
    if ParseLines(offs).Ok? {
      var lines := ParseLines(offs).value;
      AmountsAreCents(lines);
      forall ar | ar in db.ars ensures db.ars[ar].total == db.ars[ar].settled + db.ars[ar].open {
        assert VoucherOk(db, "AR-", ar, db.ars[ar]);
      }
      LinesFitIff(db.ars, lines);
      forall ar ensures LineCents(lines, ar) as real / 100.0 == GivenTo(offs, ar) {
        LinesGive(offs, ar);
      }
    }
  }

  // ---------- how much receipts write off ----------

  function SettledPart(v: Voucher): int {
    v.settled
  }

  /** What a receipt's lines have booked on vouchers. */
  function AppliedPart(r: Receipt): int {
    Amounts(r.applied)
  }

  function WrittenOff(r: Receipt): int {
    if r.status == RWriteOff then r.cents else 0
  }

  lemma {:induction false} FoundIsPart(ars: Vouchers, lines: seq<WriteOffLine>)
    ensures Amounts(Found(ars, lines)) <= Amounts(lines)
    decreases |lines|
  {
    if lines != [] {
      FoundIsPart(ars, lines[1..]);
      var rest := Found(ars, lines[1..]);
      if lines[0].ar in ars {
        assert ([lines[0]] + rest)[1..] == rest;
      } else {
        assert [] + rest == rest;
      }
    }
  }

  /** Applying lines settles on all vouchers together what the lines give that find one. */
  lemma {:induction false} LinesSettle(ars: Vouchers, lines: seq<WriteOffLine>)
    requires ApplyLines(ars, lines).Ok?
    ensures SumBy(ApplyLines(ars, lines).value, SettledPart) == SumBy(ars, SettledPart) + Amounts(Found(ars, lines))
    decreases |lines|
  {
    if lines != [] {
      var l, rest := lines[0], Found(ars, lines[1..]);
      if l.ar in ars {
        var v := ApplyAmount(ars[l.ar], l.cents, ReceiptWriteOffExceed).value;
        var next := ars[l.ar := v];
        SumUpdate(ars, SettledPart, l.ar, v);
        LinesSettle(next, lines[1..]);
        FoundSame(ars, next, lines[1..]);
        assert ([l] + rest)[1..] == rest;
      } else {
        LinesSettle(ars, lines[1..]);
        assert [] + rest == rest;
      }
    }
  }

  lemma {:induction false} FoundSame(a: Vouchers, b: Vouchers, lines: seq<WriteOffLine>)
    requires a.Keys == b.Keys
    ensures Found(a, lines) == Found(b, lines)
    decreases |lines|
  {
    if lines != [] {
      FoundSame(a, b, lines[1..]);
    }
  }

  /** The lines of a receipt total at most its amount; before its write-off it has none. */
  predicate Bounded(r: Receipt) {
    Amounts(r.applied) <= Amounts(r.lines) <= WrittenOff(r)
  }

  ghost predicate Covered(db: Db) {
    && (forall no :: no in db.receipts ==> Bounded(db.receipts[no]))
    && SumBy(db.ars, SettledPart) == SumBy(db.receipts, AppliedPart)
  }

  lemma {:induction false} WriteOffStaysCovered(db: Db, no: string, offs: seq<(string, real)>)
    requires Rows(db) && Covered(db) && WriteOff(db, no, offs).Ok?
    ensures Covered(WriteOff(db, no, offs).value)
  {
    var lines := ParseLines(offs).value;
    var r := Receipt(db.receipts[no].cents, RWriteOff, lines, Found(db.ars, lines));
    assert ReceiptOk(db, db.receipts[no]);
    AmountsAreCents(lines);
    FoundIsPart(db.ars, lines);
    LinesSettle(db.ars, lines);
    SumUpdate(db.receipts, AppliedPart, no, r);
    WriteOffShape(db, no, offs);
  }

  lemma {:induction false} WriteOffShape(db: Db, no: string, offs: seq<(string, real)>)
    requires WriteOff(db, no, offs).Ok?
    ensures ParseLines(offs).Ok? && no in db.receipts && ApplyLines(db.ars, ParseLines(offs).value).Ok?
    ensures var n := WriteOff(db, no, offs).value; var lines := ParseLines(offs).value;
      && CentsOf(lines) <= db.receipts[no].cents
      && n.ars == ApplyLines(db.ars, lines).value
      && n.receipts == db.receipts[no := Receipt(db.receipts[no].cents, RWriteOff, lines, Found(db.ars, lines))]
  {
  }

  lemma {:induction false} ConfirmStaysCovered(db: Db, op: Op)
    requires Rows(db) && Covered(db) && (op.ConfirmSettlement? || op.ConfirmCrossTenant?) && Do(db, op).Ok?
    ensures Covered(Do(db, op).value)
  {
    var s := db.settlements[op.no];
    var c := ConfirmedRow(s);
    var marked := db.(settlements := db.settlements[op.no := c]);
    assert SettlementOk(s);
    UnconfirmedHasNoVoucher(db, op.no);
    BookShape(marked, op.no, c);
    SumUpdate(db.ars, SettledPart, ArNo(op.no), NewVoucher(op.no, c, c.initiator));
    if c.receiver.Some? {
      SumUpdate(db.ars, SettledPart, ArNo(op.no), NewVoucher(op.no, c, c.receiver.value));
    }
  }

  lemma {:induction false} ReceiptCallStaysCovered(db: Db, op: Op)
    requires Rows(db) && Covered(db) && (op.RecordReceipt? || op.ConfirmReceipt?) && Do(db, op).Ok?
    ensures Covered(Do(db, op).value)
  {
    var r := Do(db, op).value.receipts[op.no];
    if op.no in db.receipts {
      assert ReceiptOk(db, db.receipts[op.no]);
    }
    SumUpdate(db.receipts, AppliedPart, op.no, r);
    assert Do(db, op).value.receipts == db.receipts[op.no := r];
  }

  lemma {:induction false} CoveredStep(db: Db, op: Op)
    requires Rows(db) && Covered(db)
    ensures Covered(Apply(db, op))
  {
    if Do(db, op).Ok? {
      if LeavesReceivables(op) {
        ReceivablesFrame(db, op);
      } else if op.ConfirmSettlement? || op.ConfirmCrossTenant? {
        ConfirmStaysCovered(db, op);
      } else if op.WriteOffReceipt? {
        WriteOffStaysCovered(db, op.no, op.offs);
      } else {
        ReceiptCallStaysCovered(db, op);
      }
    }
  }

  lemma {:induction false} RunStaysCovered(ops: seq<Op>)
    ensures Covered(Run(EMPTY, ops))
    decreases |ops|
  {
    if ops != [] {
      var init, op := ops[..|ops| - 1], ops[|ops| - 1];
      assert ops == init + [op];
      PaymentRuns.RunLast(EMPTY, init, op);
      RunInvariant(init);
      RunStaysCovered(init);
      CoveredStep(Run(EMPTY, init), op);
    }
  }

  /** In every run the lines of a receipt total at most what was received, and all receivables together
      have received at most the amounts of the receipts written off. */
  lemma {:induction false} ReceiptsCoverWriteOffs(ops: seq<Op>)
    ensures var db := Run(EMPTY, ops);
      && (forall no :: no in db.receipts ==> Amounts(db.receipts[no].lines) <= db.receipts[no].cents)
      && SumBy(db.ars, SettledPart) <= SumBy(db.receipts, WrittenOff)
  {
    var db := Run(EMPTY, ops);
    RunStaysCovered(ops);
    forall no | no in db.receipts
      ensures Amounts(db.receipts[no].lines) <= db.receipts[no].cents
      ensures AppliedPart(db.receipts[no]) <= WrittenOff(db.receipts[no])
    {
      assert Bounded(db.receipts[no]);
    }
    SumBelow(db.receipts, AppliedPart, WrittenOff);
  }

  // ---------- how a receipt came to its status ----------

  predicate Recorded(ops: seq<Op>, no: string, cents: nat) {
    exists i :: 0 <= i < |ops| && ops[i] == RecordReceipt(no, cents)
  }

  predicate Confirmed(ops: seq<Op>, no: string, cents: nat) {
    exists i :: 0 <= i < |ops| && ops[i] == ConfirmReceipt(no) && Recorded(ops[..i], no, cents)
  }

  predicate Spent(ops: seq<Op>, no: string, cents: nat, lines: seq<WriteOffLine>) {
    exists i :: 0 <= i < |ops| && ops[i].WriteOffReceipt? && ops[i].no == no && SameLines(ops[i].offs, lines)
      && Confirmed(ops[..i], no, cents)
  }

  /** The lines are the given ones, in their order. */
  predicate SameLines(offs: seq<(string, real)>, lines: seq<WriteOffLine>) {
    && |lines| == |offs|
    && forall i :: 0 <= i < |offs| ==> lines[i].ar == offs[i].0 && lines[i].cents as real / 100.0 == offs[i].1
  }

  /** The calls that lead to a receipt's status, each made after the one before. */
  predicate HasHistory(ops: seq<Op>, no: string, r: Receipt) {
    match r.status
    case RPendingConfirm => r.lines == [] && Recorded(ops, no, r.cents)
    case RConfirmed => r.lines == [] && Confirmed(ops, no, r.cents)
    case RWriteOff => Spent(ops, no, r.cents, r.lines)
    case RCancelled => false
  }

  lemma {:induction false} ParsedAreSame(offs: seq<(string, real)>)
    requires ParseLines(offs).Ok?
    ensures SameLines(offs, ParseLines(offs).value)
    decreases |offs|
  {
    if offs != [] {
      var lines := ParseLines(offs).value;
      ParsedAreSame(offs[1..]);
      assert lines[1..] == ParseLines(offs[1..]).value;
      forall i | 0 < i < |offs|
        ensures lines[i].ar == offs[i].0 && lines[i].cents as real / 100.0 == offs[i].1
      {
        assert lines[i] == lines[1..][i - 1] && offs[i] == offs[1..][i - 1];
      }
    }
  }

  /** What one call can do to a receipt. */
  lemma {:induction false} ReceiptStep(db: Db, op: Op, no: string)
    requires no in Apply(db, op).receipts
    ensures var n := Apply(db, op).receipts[no];
      || (no in db.receipts && n == db.receipts[no])
      || (no !in db.receipts && n == Receipt(n.cents, RPendingConfirm, [], []) && op == RecordReceipt(no, n.cents))
      || (no in db.receipts && db.receipts[no].status == RPendingConfirm && op == ConfirmReceipt(no)
          && n == db.receipts[no].(status := RConfirmed))
      || (no in db.receipts && db.receipts[no].status == RConfirmed && op.WriteOffReceipt? && op.no == no
          && n.status == RWriteOff && n.cents == db.receipts[no].cents && SameLines(op.offs, n.lines))
  {
    if op.WriteOffReceipt? && Do(db, op).Ok? {
      ParsedAreSame(op.offs);
      WriteOffShape(db, op.no, op.offs);
    }
  }

  lemma {:induction false} HistoryStays(ops: seq<Op>, op: Op, no: string, r: Receipt)
    requires HasHistory(ops, no, r)
    ensures HasHistory(ops + [op], no, r)
  {
    assert forall i :: 0 <= i < |ops| ==> (ops + [op])[i] == ops[i] && (ops + [op])[..i] == ops[..i];
  }

  /** In every run each receipt went through its calls in order: recorded with its amount, confirmed, and
      written off with its lines, as far as its status says. */
  lemma {:induction false} ReceiptFollowsCalls(ops: seq<Op>, no: string)
    requires no in Run(EMPTY, ops).receipts
    ensures HasHistory(ops, no, Run(EMPTY, ops).receipts[no])
  {
    if ops != [] {
      var init, op := ops[..|ops| - 1], ops[|ops| - 1];
      var db := Run(EMPTY, init);
      assert ops == init + [op];
      PaymentRuns.RunLast(EMPTY, init, op);
      ReceiptStep(db, op, no);
      assert (init + [op])[|init|] == op && (init + [op])[..|init|] == init;
      if no in db.receipts {
        ReceiptFollowsCalls(init, no);
        if Apply(db, op).receipts[no] == db.receipts[no] {
          HistoryStays(init, op, no, db.receipts[no]);
        }
      }
    }
  }
}
