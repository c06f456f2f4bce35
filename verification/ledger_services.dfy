/**
 * The settlement, payment and receipt services on one database session. Each call performs its
 * saves one by one; an error after a save rolls the session back.
 */
module LedgerServices {
  import opened Results
  import opened FinMoney
  import opened Ledger

  /** The call raised exactly what the specification raises, and left exactly what it leaves. */
  ghost predicate Performed(before: Db, op: Op, r: Result<(), FinError>, after: Db) {
    match Do(before, op)
    case Ok(next) => r.Ok? && after == next
    case Err(e) => r == Err(e) && after == before
  }

  /** What is built so far, in front of what the remaining lines build. */
  function Before<T>(built: seq<T>, rest: Result<seq<T>, FinError>): Result<seq<T>, FinError> {
    match rest
    case Ok(more) => Ok(built + more)
    case Err(e) => Err(e)
  }

  lemma {:induction false} BeforeStep<T>(built: seq<T>, x: T, rest: Result<seq<T>, FinError>)
    ensures Before([], rest) == rest
    ensures Before(built + [x], rest) == Before(built, Before([x], rest))
  {
    if rest.Ok? {
      assert [] + rest.value == rest.value;
      assert built + [x] + rest.value == built + ([x] + rest.value);
    }
  }

  class FinSession {
    var settlements: map<string, Settlement>
    var ars: Vouchers
    var aps: Vouchers
    var payments: map<string, Payment>
    var receipts: map<string, Receipt>

    constructor ()
      ensures Model() == EMPTY
    {
      settlements, ars, aps, payments, receipts := map[], map[], map[], map[], map[];
    }

    function Model(): Db
      reads this
    {
      Db(settlements, ars, aps, payments, receipts)
    }
  }

  class SettlementService {
    const session: FinSession

    constructor (session: FinSession)
      ensures this.session == session
    {
      this.session := session;
    }

    /** Build the lines in order; the first price that is no money raises. */
    static method BuildLines(lines: seq<SettlementLine>, currency: string)
      returns (r: Result<seq<PricedLine>, FinError>)
      ensures r == PriceLines(lines, currency)
    {
      var built: seq<PricedLine> := [];
      assert lines[0..] == lines;
      assert Before([], PriceLines(lines, currency)) == PriceLines(lines, currency) by {
        BeforeStep([], PricedLine(0.0, Money(0, ""), Money(0, ""), 0.0), PriceLines(lines, currency));
      }
      for i := 0 to |lines|
        invariant PriceLines(lines, currency) == Before(built, PriceLines(lines[i..], currency))
      {
        assert lines[i..][1..] == lines[i + 1..];
        var exclusive :- FromDecimal(lines[i].exclusivePrice, currency);
        var inclusive :- FromDecimal(lines[i].inclusivePrice, currency);
        var line := PricedLine(lines[i].quantity, exclusive, inclusive, lines[i].taxRate);
        BeforeStep(built, line, PriceLines(lines[i + 1..], currency));
        built := built + [line];
      }
      assert built + [] == built;
      return Ok(built);
    }

    static method AddUp(lines: seq<PricedLine>, currency: string, amount: PricedLine -> Result<Money, FinError>)
      returns (r: Result<Money, FinError>)
      ensures r == TotalOf(lines, Money(0, currency), amount)
    {
      var sum := Money(0, currency);
      for i := 0 to |lines|
        invariant TotalOf(lines, Money(0, currency), amount) == TotalOf(lines[i..], sum, amount)
      {
        assert lines[i..][1..] == lines[i + 1..];
        var first :- amount(lines[i]);
        sum :- Add(sum, first);
      }
      return Ok(sum);
    }

    method Create(no: string, tenant: Uuid, kind: SettlementType, currency: string, lines: seq<SettlementLine>,
                  receiver: Option<Uuid>, orderError: Option<FinError>) returns (r: Result<(), FinError>)
      modifies session`settlements
      ensures Performed(old(session.Model()), CreateSettlement(no, tenant, kind, currency, lines, receiver, orderError),
                        r, session.Model())
    {
      if no in session.settlements {
        return Err(SettlementDuplicate);
      }
      if orderError.Some? {
        return Err(orderError.value);
      }
      var priced :- BuildLines(lines, currency);
      if priced == [] {
        return Err(SettlementLineEmpty);
      }
      var total :- AddUp(priced, currency, LineAmount);
      var tax :- AddUp(priced, currency, LineTax);
      var s := Settlement(kind, SDraft, total.cents, tax.cents, priced, tenant, receiver, false);
      session.settlements := session.settlements[no := s];
      return Ok(());
    }

    method GenerateVouchers(no: string, s: Settlement)
      modifies session`ars, session`aps
      ensures session.Model() == Book(old(session.Model()), no, s)
    {
      match s.kind
      case Sales =>
        session.ars := session.ars[ArNo(no) := NewVoucher(no, s, s.initiator)];
      case Purchase =>
        session.aps := session.aps[ApNo(no) := NewVoucher(no, s, s.initiator)];
      case CrossTenant =>
        if s.receiver.Some? {
          session.ars := session.ars[ArNo(no) := NewVoucher(no, s, s.receiver.value)];
        }
        session.aps := session.aps[ApNo(no) := NewVoucher(no, s, s.initiator)];
    }

    method ConfirmSettlement(no: string) returns (r: Result<(), FinError>)
      modifies session
      ensures Performed(old(session.Model()), Op.ConfirmSettlement(no), r, session.Model())
    {
      if no !in session.settlements {
        return Err(SettlementNotFound);
      }
      var s := session.settlements[no];
      if !s.status.SDraft? {
        return Err(SettlementInvalidTransition);
      }
      var confirmed := s.(status := SConfirmed, confirmed := true);
      session.settlements := session.settlements[no := confirmed];
      GenerateVouchers(no, confirmed);
      return Ok(());
    }

    method ConfirmCrossTenantSettlement(no: string) returns (r: Result<(), FinError>)
      modifies session
      ensures Performed(old(session.Model()), ConfirmCrossTenant(no), r, session.Model())
    {
      if no !in session.settlements {
        return Err(SettlementNotFound);
      }
      var s := session.settlements[no];
      if !s.kind.CrossTenant? || s.receiver.None? {
        return Err(SettlementCrossTenantNotConfirmed);
      }
      r := ConfirmSettlement(no);
    }

    method CancelSettlement(no: string) returns (r: Result<(), FinError>)
      modifies session`settlements
      ensures Performed(old(session.Model()), Op.CancelSettlement(no), r, session.Model())
    {
      if no !in session.settlements {
        return Err(SettlementNotFound);
      }
      var s := session.settlements[no];
      if !s.status.SDraft? && !s.status.SConfirmed? {
        return Err(SettlementInvalidTransition);
      }
      session.settlements := session.settlements[no := s.(status := SCancelled)];
      return Ok(());
    }
  }

  class PaymentService {
    const session: FinSession

    constructor (session: FinSession)
      ensures this.session == session
    {
      this.session := session;
    }

    method RequestPayment(no: string, ap: string, amount: real, currency: string) returns (r: Result<(), FinError>)
      modifies session`payments
      ensures Performed(old(session.Model()), Op.RequestPayment(no, ap, amount, currency), r, session.Model())
    {
      if no in session.payments {
        return Err(PaymentDuplicate);
      }
      if ap !in session.aps {
        return Err(VoucherNotFound);
      }
      var m :- FromDecimal(amount, currency);
      var above :- Exceeds(m, Money(session.aps[ap].open, "CNY"));
      if above {
        return Err(PaymentExceedAP);
      }
      session.payments := session.payments[no := Payment(ap, m.cents, PPendingApproval, None)];
      return Ok(());
    }

    /** Read the payment, replace its status, save it. */
    method Move(no: string, from: PaymentStatus, to: PaymentStatus) returns (r: Result<(), FinError>)
      modifies session`payments
      ensures match MovePayment(old(session.Model()), no, from, to)
              case Ok(next) => r.Ok? && session.Model() == next
              case Err(e) => r == Err(e) && session.Model() == old(session.Model())
    {
      var p :- PaymentOf(session.Model(), no);
      if p.status != from {
        return Err(PaymentInvalidTransition);
      }
      session.payments := session.payments[no := p.(status := to)];
      return Ok(());
    }

    method ApprovePayment(no: string, roles: seq<string>) returns (r: Result<(), FinError>)
      modifies session`payments
      ensures Performed(old(session.Model()), Op.ApprovePayment(no, roles), r, session.Model())
    {
      var p :- PaymentOf(session.Model(), no);
      if exists role :: role in RequiredRoles(p.cents) && role !in roles {
        return Err(PaymentApprovalExceedAuthority);
      }
      r := Move(no, PPendingApproval, PApproved);
    }

    method RejectPayment(no: string) returns (r: Result<(), FinError>)
      modifies session`payments
      ensures Performed(old(session.Model()), Op.RejectPayment(no), r, session.Model())
    {
      r := Move(no, PPendingApproval, PDraft);
    }

    method ExecutePayment(no: string) returns (r: Result<(), FinError>)
      modifies session`payments
      ensures Performed(old(session.Model()), Op.ExecutePayment(no), r, session.Model())
    {
      r := Move(no, PApproved, PExecuting);
    }

    method BankCallback(no: string, success: bool, bankRef: Option<string>) returns (r: Result<(), FinError>)
      modifies session`payments, session`aps
      ensures Performed(old(session.Model()), Op.BankCallback(no, success, bankRef), r, session.Model())
    {
      var p :- PaymentOf(session.Model(), no);
      if !success {
        r := Move(no, PExecuting, PFailed);
        return;
      }
      if p.status.PSuccess? {
        return Err(PaymentAlreadySuccess);
      }
      if !p.status.PExecuting? {
        return Err(PaymentInvalidTransition);
      }
      var before := session.payments;
      session.payments := session.payments[no := p.(status := PSuccess, bankRef := bankRef)];
      if p.ap in session.aps {
        var v := ApplyAmount(session.aps[p.ap], p.cents, PaymentExceedAP);
        if v.Err? {
          session.payments := before;
          return Err(v.error);
        }
        session.aps := session.aps[p.ap := v.value];
      }
      return Ok(());
    }
  }

  class ReceiptService {
    const session: FinSession

    constructor (session: FinSession)
      ensures this.session == session
    {
      this.session := session;
    }

    method ConfirmReceipt(no: string) returns (r: Result<(), FinError>)
      modifies session`receipts
      ensures Performed(old(session.Model()), Op.ConfirmReceipt(no), r, session.Model())
    {
      var receipt :- ReceiptOf(session.Model(), no);
      if !receipt.status.RPendingConfirm? {
        return Err(ReceiptInvalidTransition);
      }
      session.receipts := session.receipts[no := receipt.(status := RConfirmed)];
      return Ok(());
    }

    static method BuildLines(offs: seq<(string, real)>) returns (r: Result<seq<WriteOffLine>, FinError>)
      ensures r == ParseLines(offs)
    {
      var built: seq<WriteOffLine> := [];
      assert offs[0..] == offs;
      assert Before([], ParseLines(offs)) == ParseLines(offs) by {
        BeforeStep([], WriteOffLine("", 0), ParseLines(offs));
      }
      for i := 0 to |offs|
        invariant ParseLines(offs) == Before(built, ParseLines(offs[i..]))
      {
        assert offs[i..][1..] == offs[i + 1..];
        var m :- FromDecimal(offs[i].1, "CNY");
        BeforeStep(built, WriteOffLine(offs[i].0, m.cents), ParseLines(offs[i + 1..]));
        built := built + [WriteOffLine(offs[i].0, m.cents)];
      }
      assert built + [] == built;
      return Ok(built);
    }

    static method AddUp(lines: seq<WriteOffLine>) returns (total: nat)
      ensures total == CentsOf(lines)
    {
      total := 0;
      for i := 0 to |lines|
        invariant total + CentsOf(lines[i..]) == CentsOf(lines)
      {
        assert lines[i..][1..] == lines[i + 1..];
        total := total + lines[i].cents;
      }
    }

    /** The vouchers one by one, each read again for its line. */
    method ApplyAll(lines: seq<WriteOffLine>) returns (r: Result<(), FinError>)
      modifies session`ars
      ensures match ApplyLines(old(session.ars), lines)
              case Ok(ars) => r.Ok? && session.ars == ars
              case Err(e) => r == Err(e)
    {
      for i := 0 to |lines|
        invariant ApplyLines(old(session.ars), lines) == ApplyLines(session.ars, lines[i..])
      {
        assert lines[i..][1..] == lines[i + 1..];
        var ar := lines[i].ar;
        if ar in session.ars {
          var v :- ApplyAmount(session.ars[ar], lines[i].cents, ReceiptWriteOffExceed);
          session.ars := session.ars[ar := v];
        }
      }
      return Ok(());
    }

    method WriteOffReceipt(no: string, offs: seq<(string, real)>) returns (r: Result<(), FinError>)
      modifies session`ars, session`receipts
      ensures Performed(old(session.Model()), Op.WriteOffReceipt(no, offs), r, session.Model())
    {
      var receipt :- ReceiptOf(session.Model(), no);
      if receipt.status.RWriteOff? {
        return Err(ReceiptAlreadyWriteOff);
      }
      var lines :- BuildLines(offs);
      if !receipt.status.RConfirmed? {
        return Err(ReceiptInvalidTransition);
      }
      if lines == [] {
        return Err(EmptyLines);
      }
      var total := AddUp(lines);
      if total > receipt.cents {
        return Err(ReceiptWriteOffExceed);
      }
      var arsBefore, receiptsBefore := session.ars, session.receipts;
      session.receipts := session.receipts[no := Receipt(receipt.cents, RWriteOff, lines, Found(session.ars, lines))];
      r := ApplyAll(lines);
      if r.Err? {
        session.ars, session.receipts := arsBefore, receiptsBefore;
      }
    }
  }
}
