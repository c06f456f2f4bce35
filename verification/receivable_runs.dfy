/** What is received on a receivable, told by the write-off calls of a run. */
module ReceivableRuns {
  import opened Results
  import opened FinMoney
  import opened Ledger
  import opened LedgerRuns
  import opened Sums
  import PaymentRuns

  /** One of the given lines names the receivable with an amount. */
  predicate Names(offs: seq<(string, real)>, ar: string) {
    exists k :: 0 <= k < |offs| && offs[k].0 == ar && offs[k].1 != 0.0
  }

  /** The call writes off lines that name the receivable before it is booked, and is accepted. */
  predicate TooEarly(db: Db, op: Op, ar: string) {
    op.WriteOffReceipt? && Do(db, op).Ok? && Names(op.offs, ar) && ar !in db.ars
  }

  lemma {:induction false} NamesMeansCents(offs: seq<(string, real)>, ar: string)
    requires ParseLines(offs).Ok?
    ensures Names(offs, ar) <==> LineCents(ParseLines(offs).value, ar) > 0
    decreases |offs|
  {
    if offs != [] {
      var lines, rest := ParseLines(offs).value, ParseLines(offs[1..]).value;
      assert lines[1..] == rest && lines[0].ar == offs[0].0;
      assert lines[0].cents as real / 100.0 == offs[0].1;
      NamesMeansCents(offs[1..], ar);
      if Names(offs, ar) {
        var k :| 0 <= k < |offs| && offs[k].0 == ar && offs[k].1 != 0.0;
        assert k > 0 ==> offs[1..][k - 1] == offs[k];
      } else {
        assert forall k :: 0 <= k < |offs| - 1 ==> offs[1..][k] == offs[k + 1];
      }
    }
  }

  ghost predicate SomeLost(receipts: map<string, Receipt>, ar: string) {
    exists no :: no in receipts && !AllFound(receipts[no], ar)
  }

  /** Replacing a receipt that lost nothing. */
  lemma {:induction false} LostAfterUpdate(receipts: map<string, Receipt>, no: string, r: Receipt, ar: string)
    requires no in receipts ==> AllFound(receipts[no], ar)
    ensures SomeLost(receipts[no := r], ar) <==> SomeLost(receipts, ar) || !AllFound(r, ar)
  {
    var n := receipts[no := r];
    assert no in n && n[no] == r;
    assert forall other :: other in receipts && other != no ==> other in n && n[other] == receipts[other];
  }

  /** The row that a write-off leaves of its receipt. */
  function WrittenOff(db: Db, r: Receipt, offs: seq<(string, real)>): Receipt
    requires ParseLines(offs).Ok?
  {
    var lines := ParseLines(offs).value;
    Receipt(r.cents, RWriteOff, lines, Found(db.ars, lines))
  }

  lemma {:induction false} RowLosesIff(db: Db, r: Receipt, offs: seq<(string, real)>, ar: string)
    requires ParseLines(offs).Ok?
    ensures AllFound(WrittenOff(db, r, offs), ar) <==> !Names(offs, ar) || ar in db.ars
  {
    FoundLines(db.ars, ParseLines(offs).value, ar);
    NamesMeansCents(offs, ar);
  }

  /** The written-off lines that find no voucher are those of a call that comes too early. */
  lemma {:induction false} WriteOffLosesIff(db: Db, no: string, offs: seq<(string, real)>, ar: string)
    requires Rows(db) && WriteOff(db, no, offs).Ok?
    ensures SomeLost(WriteOff(db, no, offs).value.receipts, ar) <==>
      SomeLost(db.receipts, ar) || (Names(offs, ar) && ar !in db.ars)
  {
    assert ReceiptOk(db, db.receipts[no]);
    LostAfterUpdate(db.receipts, no, WrittenOff(db, db.receipts[no], offs), ar);
    RowLosesIff(db, db.receipts[no], offs, ar);
  }

  /** Other calls leave every receipt's lines, and a new receipt has none. */
  lemma {:induction false} OthersKeepLines(db: Db, op: Op, no: string)
    requires !op.WriteOffReceipt?
    ensures no in db.receipts ==> no in Apply(db, op).receipts
    ensures no in Apply(db, op).receipts ==>
      var r := Apply(db, op).receipts[no];
      if no in db.receipts then r.lines == db.receipts[no].lines && r.applied == db.receipts[no].applied
      else r.lines == r.applied == []
  {
  }

  lemma {:induction false} OthersLoseNothing(db: Db, op: Op, ar: string)
    requires !op.WriteOffReceipt?
    ensures SomeLost(Apply(db, op).receipts, ar) <==> SomeLost(db.receipts, ar)
  {
    var before, after := db.receipts, Apply(db, op).receipts;
    forall no
      ensures no in before && !AllFound(before[no], ar) <==> no in after && !AllFound(after[no], ar)
    {
      OthersKeepLines(db, op, no);
    }
  }

  predicate NoneTooEarly(ops: seq<Op>, ar: string) {
    forall i :: 0 <= i < |ops| ==> !TooEarly(Run(EMPTY, ops[..i]), ops[i], ar)
  }

  lemma {:induction false} NoneTooEarlyLast(ops: seq<Op>, op: Op, ar: string)
    ensures NoneTooEarly(ops + [op], ar) <==> NoneTooEarly(ops, ar) && !TooEarly(Run(EMPTY, ops), op, ar)
  {
    var all := ops + [op];
    forall i | 0 <= i < |ops| ensures all[..i] == ops[..i] && all[i] == ops[i] {
    }
    assert all[..|ops|] == ops && all[|ops|] == op;
  }

  lemma {:induction false} LostIffTooEarly(ops: seq<Op>, ar: string)
    ensures SomeLost(Run(EMPTY, ops).receipts, ar) <==> !NoneTooEarly(ops, ar)
    decreases |ops|
  {
    if ops != [] {
      var init, op := ops[..|ops| - 1], ops[|ops| - 1];
      var db := Run(EMPTY, init);
      assert ops == init + [op];
      PaymentRuns.RunLast(EMPTY, init, op);
      LostIffTooEarly(init, ar);
      NoneTooEarlyLast(init, op, ar);
      LostStep(init, op, ar);
    }
  }

  lemma {:induction false} LostStep(ops: seq<Op>, op: Op, ar: string)
    ensures var db := Run(EMPTY, ops);
      SomeLost(Apply(db, op).receipts, ar) <==> SomeLost(db.receipts, ar) || TooEarly(db, op, ar)
  {
    var db := Run(EMPTY, ops);
    if op.WriteOffReceipt? {
      if Do(db, op).Ok? {
        RunInvariant(ops);
        WriteOffLosesIff(db, op.no, op.offs, ar);
      }
    } else {
      OthersLoseNothing(db, op, ar);
    }
  }

  /** In every run a receivable is its confirmed settlement's amount, split into open and received; the
      received part is at most the total of the written-off lines naming it, and it is all of it exactly
      if no accepted write-off named the voucher, with an amount, before it was booked. */
  lemma {:induction false} ReceivableOfEveryRun(ops: seq<Op>, ar: string)
    requires ar in Run(EMPTY, ops).ars
    ensures var db := Run(EMPTY, ops); var v := db.ars[ar];
      && ar == ArNo(v.ref) && v.ref in db.settlements && db.settlements[v.ref].confirmed
      && db.settlements[v.ref].cents == v.settled + v.open
      && v.settled <= SumBy(db.receipts, NamedBy(ar))
      && (v.settled == SumBy(db.receipts, NamedBy(ar)) <==> NoneTooEarly(ops, ar))
  {
    ReceivedIsApplied(ops, ar);
    LostIffTooEarly(ops, ar);
  }
}
