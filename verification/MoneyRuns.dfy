/** What can still be paid on a bill, over runs: the exact conditions, and the runs that reach the exceptions. */
module MoneyRuns {
  import opened Results
  import opened Money
  import opened Ledger
  import opened Tables
  import opened Payables
  import opened Tax
  import opened Invoicing
  import opened Financial
  import opened Lockstep
  import opened Settlement
  import opened Receivables
  import opened Engine

  // ---------------------------------------------------------------- bills that can no longer be paid

  /** An accepted verification leaves a bill stuck exactly when the bill was approved before. */
  lemma VerifyingSticksExactly(b: Books, id: nat, actor: nat, allowMaterial: bool)
    requires InLockstep(b.costs, b.bills) && VerifyPayable(b, id, actor, allowMaterial).Done?
    ensures Stuck(VerifyPayable(b, id, actor, allowMaterial).value.bills[id]) <==> b.bills[id].approved
  {
    assert FlagsAgree(b.bills[id]);
  }

  /** Approved, with something to pay, and not PAID. */
  predicate Open(bill: Bill) {
    bill.approved && bill.total > 0 && !bill.status.BillPaid?
  }

  lemma OpenBillTakesPayment(round: int -> int, b: Books, i: nat, amount: int, currency: Option<string>)
    requires Rounds(round) && i < |b.bills| && FlagsAgree(b.bills[i]) && PaidUp(round, b.bills[i]) && Open(b.bills[i])
    ensures var owed := Owing(b.bills[i]);
            && owed >= HALF_CENT && (owed > HALF_CENT ==> round(owed) > 0)
            && (RecordPayment(round, b, i, amount, currency).Done? <==> !Stuck(b.bills[i]) && 0 < amount <= round(owed))
  {
    OpenBalance(round, b.bills[i]);
    if !b.bills[i].status.BillVerified? {
      TheBalanceSettles(round, b, i, amount, currency);
    }
  }

  /** The two ways an open bill can be beyond payment: verified again, or half a cent short of its total with that rounding to nothing. */
  predicate Unpayable(round: int -> int, bill: Bill) {
    Stuck(bill) || (Owing(bill) == HALF_CENT && round(HALF_CENT) == 0)
  }

  lemma NothingAccepted(round: int -> int, b: Books, i: nat)
    requires Rounds(round) && i < |b.bills| && FlagsAgree(b.bills[i]) && PaidUp(round, b.bills[i]) && Open(b.bills[i])
    ensures (forall amount, currency :: RecordPayment(round, b, i, amount, currency).Refused?) <==> Unpayable(round, b.bills[i])
  {
    var owed := Owing(b.bills[i]);
    OpenBillTakesPayment(round, b, i, round(owed), None);
    Near(round, HALF_CENT);
    if Unpayable(round, b.bills[i]) {
      forall amount, currency ensures RecordPayment(round, b, i, amount, currency).Refused? {
        OpenBillTakesPayment(round, b, i, amount, currency);
      }
    } else {
      assert round(owed) > 0;
      assert RecordPayment(round, b, i, round(owed), None).Done?;
    }
  }

  lemma UnpayableTakesNothing(round: int -> int, b: Books, id: nat, amount: int, currency: Option<string>)
    requires id < |b.bills| && Open(b.bills[id]) && Unpayable(round, b.bills[id])
    ensures RecordPayment(round, b, id, amount, currency).Refused?
  {
  }

  lemma PaymentLeavesOthers(round: int -> int, b: Books, paid: nat, amount: int, currency: Option<string>, id: nat)
    requires id < |b.bills| && id != paid && RecordPayment(round, b, paid, amount, currency).Done?
    ensures var after := RecordPayment(round, b, paid, amount, currency).value.bills; id < |after| && after[id] == b.bills[id]
  {
  }

  lemma StepKeepsUnpayable(round: int -> int, b: Books, op: PayableOp, id: nat)
    requires id < |b.bills| && Open(b.bills[id]) && FlagsAgree(b.bills[id]) && Unpayable(round, b.bills[id]) && ApplyAP(round, b, op).Done?
    ensures var after := ApplyAP(round, b, op).value.bills;
            id < |after| && Open(after[id]) && Unpayable(round, after[id]) && after[id].payments == b.bills[id].payments
  {
    if op.PayBill? {
      if op.bill != id {
        PaymentLeavesOthers(round, b, op.bill, op.amount, op.money, id);
      } else {
        UnpayableTakesNothing(round, b, id, op.amount, op.money);
      }
    }
  }

  /** An unpayable bill stays so, with the same payments, whatever the rest of the run does. */
  lemma {:induction false} UnpayableIsForever(round: int -> int, shipments: set<nat>, ops: seq<Op>, n: nat, id: nat)
    requires Rounds(round) && n <= |ops| && id < |Run(round, Empty(shipments), ops[..n]).bills|
    requires var bill := Run(round, Empty(shipments), ops[..n]).bills[id]; Open(bill) && Unpayable(round, bill)
    ensures var before, after := Run(round, Empty(shipments), ops[..n]).bills, Run(round, Empty(shipments), ops).bills;
            id < |after| && Open(after[id]) && Unpayable(round, after[id]) && after[id].payments == before[id].payments
    decreases |ops| - n
  {
    if n < |ops| {
      assert ops[..n + 1][..n] == ops[..n];
      RunIsSound(round, shipments, ops[..n]);
      UnpayableStays(round, Run(round, Empty(shipments), ops[..n]), ops[n], id);
      UnpayableIsForever(round, shipments, ops, n + 1, id);
    } else {
      assert ops[..n] == ops;
    }
  }

  lemma UnpayableStays(round: int -> int, b: Books, op: Op, id: nat)
    requires Sound(round, b) && id < |b.bills| && Open(b.bills[id]) && Unpayable(round, b.bills[id])
    ensures var after := After(round, b, op).bills;
            id < |after| && Open(after[id]) && Unpayable(round, after[id]) && after[id].payments == b.bills[id].payments
  {
    assert FlagsAgree(b.bills[id]);
    if Apply(round, b, op).Done? {
      match op {
        case AP(ap) => StepKeepsUnpayable(round, b, ap, id);
        case AR(ar) => InvoicingLeaves(round, b, ar);
        case GL(gl) => FinancialLeaves(round, b, gl);
      }
    }
  }

  lemma WholeBalance(round: int -> int, bill: Bill)
    requires Rounds(round) && PaidUp(round, bill)
    requires forall n :: 0 <= n < |bill.payments| ==> WholeCents(bill.payments[n].amount)
    ensures round(Owing(bill)) == Owing(bill)
  {
    PaidSumWhole(bill.payments);
    WholeCentsAdd(bill.total, PaidSum(bill.payments));
    RoundFixesWholeCents(round, Owing(bill));
  }

  /** An open bill owes at least half a cent and takes any payment up to its rounded balance, unless it is unpayable. */
  ghost predicate PaymentRule(round: int -> int, b: Books, i: nat)
    requires i < |b.bills|
  {
    var owed := Owing(b.bills[i]);
    && owed >= HALF_CENT && (owed > HALF_CENT ==> round(owed) > 0)
    && (forall amount, currency ::
          RecordPayment(round, b, i, amount, currency).Done? <==> !Stuck(b.bills[i]) && 0 < amount <= round(owed))
    && ((forall amount, currency :: RecordPayment(round, b, i, amount, currency).Refused?) <==> Unpayable(round, b.bills[i]))
  }

  /** In whole cents a bill is never overpaid, PAID means paid to the cent, and its rounded balance is its balance. */
  ghost predicate WholeCentRule(round: int -> int, bill: Bill) {
    (forall n :: 0 <= n < |bill.payments| ==> WholeCents(bill.payments[n].amount)) ==>
      && (bill.payments != [] ==> PaidSum(bill.payments) <= bill.total)
      && (bill.status.BillPaid? <==> PaidSum(bill.payments) == bill.total > 0)
      && round(Owing(bill)) == Owing(bill)
  }

  lemma SoundPayments(round: int -> int, b: Books, i: nat)
    requires Rounds(round) && i < |b.bills| && FlagsAgree(b.bills[i]) && PaidUp(round, b.bills[i])
    ensures Open(b.bills[i]) ==> PaymentRule(round, b, i)
    ensures WholeCentRule(round, b.bills[i])
  {
    if Open(b.bills[i]) {
      OpenBalance(round, b.bills[i]);
      NothingAccepted(round, b, i);
      forall amount, currency
        ensures RecordPayment(round, b, i, amount, currency).Done? <==> !Stuck(b.bills[i]) && 0 < amount <= round(Owing(b.bills[i]))
      {
        OpenBillTakesPayment(round, b, i, amount, currency);
      }
    }
    if forall n :: 0 <= n < |b.bills[i].payments| ==> WholeCents(b.bills[i].payments[n].amount) {
      WholeCentPaymentsAreExact(round, b.bills[i]);
      WholeBalance(round, b.bills[i]);
    }
  }

  /** Both rules, of every bill in every run. */
  lemma PaymentsOverRuns(round: int -> int, shipments: set<nat>, ops: seq<Op>)
    requires Rounds(round)
    ensures var b := Run(round, Empty(shipments), ops);
            forall i: nat :: i < |b.bills| ==> WholeCentRule(round, b.bills[i]) && (Open(b.bills[i]) ==> PaymentRule(round, b, i))
  {
    var b := Run(round, Empty(shipments), ops);
    RunIsSound(round, shipments, ops);
    forall i: nat | i < |b.bills| ensures WholeCentRule(round, b.bills[i]) && (Open(b.bills[i]) ==> PaymentRule(round, b, i)) {
      assert FlagsAgree(b.bills[i]) && PaidUp(round, b.bills[i]);
      SoundPayments(round, b, i);
    }
  }

  /** One extra charge, verified, approved, and paid in part. */
  function PartPaidRun(number: string, code: string, charge: int, amount: int): seq<Op> {
    [] + [AP(RecordBill(1, number, "USD", 0, [LineRequest(code, charge, None)]))] + [AP(VerifyBill(0, 7, true))]
    + [AP(ApproveBill(0, 8))] + [AP(PayBill(0, amount, None))]
  }

  /** The books hold one bill over this charge, this far and paid this much. */
  predicate OneBill(b: Books, charge: int, status: BillStatus, verified: bool, approved: bool, paid: int) {
    && |b.bills| == 1 && b.bills[0].total == charge && PaidSum(b.bills[0].payments) == paid
    && b.bills[0].status == status && b.bills[0].verified == verified && b.bills[0].approved == approved
  }

  lemma Recorded(round: int -> int, number: string, code: string, charge: int)
    requires Rounds(round) && WholeCents(charge) && charge > 0
    ensures OneBill(After(round, Empty({1}), AP(RecordBill(1, number, "USD", 0, [LineRequest(code, charge, None)]))), charge, Received, false, false, 0)
  {
    var line, billLine := LineRequest(code, charge, None), BillLine(0, 0, charge, charge, AdditionalCharge);
    OneExtraCharge(round, code, charge);
    assert Empty({1}).costs == [] && !NumberTaken(Empty({1}).bills, number) && [line] != [];
    assert [billLine][..0] == [] && BilledSum([billLine]) == charge;
    RoundFixesWholeCents(round, charge);
  }

  lemma VerifiedOne(round: int -> int, b: Books, charge: int, status: BillStatus, verified: bool, approved: bool, paid: int)
    requires OneBill(b, charge, status, verified, approved, paid) && (status.Received? || status.PartiallyPaid?)
    ensures OneBill(After(round, b, AP(VerifyBill(0, 7, true))), charge, BillVerified, true, approved, paid)
  {
  }

  lemma ApprovedOne(round: int -> int, b: Books, charge: int)
    requires OneBill(b, charge, BillVerified, true, false, 0)
    ensures OneBill(After(round, b, AP(ApproveBill(0, 8))), charge, BillApproved, true, true, 0)
  {
  }

  lemma PartPaid(round: int -> int, b: Books, charge: int, amount: int)
    requires Rounds(round) && WholeCents(charge) && 0 < amount <= charge && round(amount) < charge
    requires OneBill(b, charge, BillApproved, true, true, 0)
    ensures OneBill(After(round, b, AP(PayBill(0, amount, None))), charge, PartiallyPaid, true, true, amount)
  {
    RoundFixesWholeCents(round, charge);
    PaidSumSnoc(b.bills[0].payments, Payment(amount, b.bills[0].currency, |b.entries|));
  }

  lemma FourSteps(round: int -> int, number: string, code: string, charge: int, amount: int, b: Books)
    requires Rounds(round) && WholeCents(charge) && 0 < amount <= charge && round(amount) < charge
    requires b == After(round, Empty({1}), AP(RecordBill(1, number, "USD", 0, [LineRequest(code, charge, None)])))
    ensures var approved := After(round, After(round, b, AP(VerifyBill(0, 7, true))), AP(ApproveBill(0, 8)));
            OneBill(After(round, approved, AP(PayBill(0, amount, None))), charge, PartiallyPaid, true, true, amount)
  {
    var verified := After(round, b, AP(VerifyBill(0, 7, true)));
    Recorded(round, number, code, charge);
    VerifiedOne(round, b, charge, Received, false, false, 0);
    ApprovedOne(round, verified, charge);
    PartPaid(round, After(round, verified, AP(ApproveBill(0, 8))), charge, amount);
  }

  lemma PartPaidIsReached(round: int -> int, number: string, code: string, charge: int, amount: int)
    requires Rounds(round) && WholeCents(charge) && 0 < amount <= charge && round(amount) < charge
    ensures OneBill(Run(round, Empty({1}), PartPaidRun(number, code, charge, amount)), charge, PartiallyPaid, true, true, amount)
  {
    var record, verify := AP(RecordBill(1, number, "USD", 0, [LineRequest(code, charge, None)])), AP(VerifyBill(0, 7, true));
    var approve, pay := AP(ApproveBill(0, 8)), AP(PayBill(0, amount, None));
    var start := Empty({1});
    RunSnoc(round, start, [], record);
    RunSnoc(round, start, [] + [record], verify);
    RunSnoc(round, start, [] + [record] + [verify], approve);
    RunSnoc(round, start, [] + [record] + [verify] + [approve], pay);
    FourSteps(round, number, code, charge, amount, After(round, start, record));
  }

  /** Verified again, such a bill ends with money owed that nothing accepts any more. */
  lemma RunThatSticks(round: int -> int, number: string, code: string, charge: int, amount: int)
    requires Rounds(round) && WholeCents(charge) && 0 < amount <= charge && round(amount) < charge
    ensures var b := Run(round, Empty({1}), PartPaidRun(number, code, charge, amount) + [AP(VerifyBill(0, 7, true))]);
            |b.bills| == 1 && Open(b.bills[0]) && Stuck(b.bills[0]) && Owing(b.bills[0]) == charge - amount
  {
    var ops := PartPaidRun(number, code, charge, amount);
    PartPaidIsReached(round, number, code, charge, amount);
    RunSnoc(round, Empty({1}), ops, AP(VerifyBill(0, 7, true)));
    VerifiedOne(round, Run(round, Empty({1}), ops), charge, PartiallyPaid, true, true, amount);
  }

  /** Paid to half a cent below its total, where ties fall, a bill that was never verified again ends unpayable too. */
  lemma RunThatStrands(round: int -> int, number: string, code: string, charge: int)
    requires Rounds(round) && WholeCents(charge) && charge > 0
    requires round(charge - HALF_CENT) < charge && round(HALF_CENT) == 0
    ensures var b := Run(round, Empty({1}), PartPaidRun(number, code, charge, charge - HALF_CENT));
            |b.bills| == 1 && Open(b.bills[0]) && Unpayable(round, b.bills[0]) && !Stuck(b.bills[0])
            && b.bills[0].status.PartiallyPaid? && Owing(b.bills[0]) == HALF_CENT
  {
    assert charge >= 100;
    PartPaidIsReached(round, number, code, charge, charge - HALF_CENT);
  }
}
