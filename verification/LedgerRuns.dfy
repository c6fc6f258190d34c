/**
 The ledger against what it records, over runs: receivables against customer documents, payables against
 bills and payments, and what corrections do to either.
 */
module LedgerRuns {
  import opened Results
  import opened Money
  import opened Ledger
  import opened Tables
  import opened Payables
  import opened Invoicing
  import opened Financial
  import opened Lockstep
  import opened Settlement
  import opened Receivables
  import opened Engine
  import opened InvoiceRuns

  // ---------------------------------------------------------------- payables

  /** Payments in this currency. */
  function PaidIn(payments: seq<Payment>, currency: string): int {
    if payments == [] then 0 else
    var last := payments[|payments| - 1];
    PaidIn(payments[..|payments| - 1], currency) + if last.currency == currency then last.amount else 0
  }

  /** What one bill means for a shipment and currency: paid, less owed once approved. */
  function BillShare(bill: Bill, shipment: nat, currency: string): int {
    if bill.shipment != shipment then 0
    else PaidIn(bill.payments, currency) - if bill.approved && bill.currency == currency then bill.total else 0
  }

  /** Payments less approved bills: never from the ledger. */
  function Obligations(bills: seq<Bill>, shipment: nat, currency: string): int {
    if bills == [] then 0 else
    Obligations(bills[..|bills| - 1], shipment, currency) + BillShare(bills[|bills| - 1], shipment, currency)
  }

  lemma BillAdded(bills: seq<Bill>, bill: Bill, s: nat, c: string)
    ensures Obligations(bills + [bill], s, c) == Obligations(bills, s, c) + BillShare(bill, s, c)
  {
    assert (bills + [bill])[..|bills|] == bills;
  }

  lemma {:induction false} BillChanged(bills: seq<Bill>, id: nat, after: Bill, s: nat, c: string)
    requires id < |bills|
    ensures Obligations(bills[id := after], s, c) == Obligations(bills, s, c) - BillShare(bills[id], s, c) + BillShare(after, s, c)
    decreases |bills|
  {
    var n := |bills| - 1;
    if id == n {
      assert bills[id := after][..n] == bills[..n];
    } else {
      assert bills[id := after][..n] == bills[..n][id := after];
      BillChanged(bills[..n], id, after, s, c);
    }
  }

  lemma PaidInSnoc(payments: seq<Payment>, p: Payment, c: string)
    ensures PaidIn(payments + [p], c) == PaidIn(payments, c) + if p.currency == c then p.amount else 0
  {
    assert (payments + [p])[..|payments|] == payments;
  }

  function PayableQuery(s: nat, c: string): Query {
    Query(s, c, Originals, PayableBook)
  }

  ghost predicate BillsMatchLedger(b: Books, s: nat, c: string) {
    Net(b.entries, PayableQuery(s, c)) == Obligations(b.bills, s, c)
  }

  lemma RecordMatches(round: int -> int, b: Books, op: PayableOp, s: nat, c: string)
    requires op.RecordBill? && ApplyAP(round, b, op).Done? && BillsMatchLedger(b, s, c)
    ensures BillsMatchLedger(ApplyAP(round, b, op).value, s, c)
  {
    var after := ApplyAP(round, b, op).value;
    assert after.bills == b.bills + [after.bills[|b.bills|]];
    BillAdded(b.bills, after.bills[|b.bills|], s, c);
  }

  lemma VerifyMatches(b: Books, id: nat, actor: nat, allowMaterial: bool, s: nat, c: string)
    requires VerifyPayable(b, id, actor, allowMaterial).Done? && BillsMatchLedger(b, s, c)
    ensures BillsMatchLedger(VerifyPayable(b, id, actor, allowMaterial).value, s, c)
  {
    BillChanged(b.bills, id, VerifyPayable(b, id, actor, allowMaterial).value.bills[id], s, c);
  }

  lemma ApproveMatches(b: Books, id: nat, actor: nat, s: nat, c: string)
    requires ApprovePayable(b, id, actor).Done? && BillsMatchLedger(b, s, c)
    ensures BillsMatchLedger(ApprovePayable(b, id, actor).value, s, c)
  {
    var after := ApprovePayable(b, id, actor).value;
    BillChanged(b.bills, id, after.bills[id], s, c);
    NetAppend(b.entries, after.entries[|b.entries|], PayableQuery(s, c));
  }

  lemma PaidShare(bill: Bill, after: Bill, payment: Payment, s: nat, c: string)
    requires after.payments == bill.payments + [payment] && after.shipment == bill.shipment
    requires after.approved == bill.approved && after.currency == bill.currency && after.total == bill.total
    ensures BillShare(after, s, c) == BillShare(bill, s, c) + if bill.shipment == s && payment.currency == c then payment.amount else 0
  {
    PaidInSnoc(bill.payments, payment, c);
  }

  lemma PaymentShare(shipment: nat, payment: Payment, s: nat, c: string)
    ensures Share(Posting(shipment, ApPayment, payment.amount, 0, payment.currency), PayableQuery(s, c))
        == if shipment == s && payment.currency == c then payment.amount else 0
  {
  }

  lemma OnePaymentMatches(bills: seq<Bill>, entries: seq<Entry>, id: nat, after: Bill, payment: Payment, s: nat, c: string)
    requires id < |bills| && Net(entries, PayableQuery(s, c)) == Obligations(bills, s, c)
    requires after.payments == bills[id].payments + [payment] && after.shipment == bills[id].shipment
    requires after.approved == bills[id].approved && after.currency == bills[id].currency && after.total == bills[id].total
    ensures Net(entries + [Posting(bills[id].shipment, ApPayment, payment.amount, 0, payment.currency)], PayableQuery(s, c))
        == Obligations(bills[id := after], s, c)
  {
    BillChanged(bills, id, after, s, c);
    PaidShare(bills[id], after, payment, s, c);
    PaymentShare(bills[id].shipment, payment, s, c);
    NetAppend(entries, Posting(bills[id].shipment, ApPayment, payment.amount, 0, payment.currency), PayableQuery(s, c));
  }

  lemma PayMatches(round: int -> int, b: Books, id: nat, amount: int, money: string, s: nat, c: string)
    requires id < |b.bills| && BillsMatchLedger(b, s, c)
    ensures BillsMatchLedger(Settled(round, b, id, amount, money), s, c)
  {
    var payment := Payment(amount, money, |b.entries|);
    OnePaymentMatches(b.bills, b.entries, id, PaidBill(round, b.bills[id], payment), payment, s, c);
  }

  lemma PayablesMatch(round: int -> int, b: Books, op: PayableOp, s: nat, c: string)
    requires ApplyAP(round, b, op).Done? && BillsMatchLedger(b, s, c)
    ensures BillsMatchLedger(ApplyAP(round, b, op).value, s, c)
  {
    match op {
      case RecordBill(_, _, _, _, _) => RecordMatches(round, b, op, s, c);
      case VerifyBill(id, actor, allowMaterial) => VerifyMatches(b, id, actor, allowMaterial, s, c);
      case ApproveBill(id, actor) => ApproveMatches(b, id, actor, s, c);
      case PayBill(id, amount, money) => PayMatches(round, b, id, amount, OrElse(money, b.bills[id].currency), s, c);
    }
  }

  /** A receivable posting or a correction moves no original payable amount. */
  lemma OthersLeavePayables(round: int -> int, b: Books, op: Op, s: nat, c: string)
    requires !op.AP?
    ensures After(round, b, op).bills == b.bills && Net(After(round, b, op).entries, PayableQuery(s, c)) == Net(b.entries, PayableQuery(s, c))
  {
    var after := After(round, b, op);
    if Apply(round, b, op).Done? && op.AR? {
      InvoicingLeaves(round, b, op.ar);
      if after.entries != b.entries {
        ReceivableIsNoPayable(after.entries[|b.entries|].kind);
        NetAppend(b.entries, after.entries[|b.entries|], PayableQuery(s, c));
      }
    }
    if Apply(round, b, op).Done? && op.GL? {
      FinancialLeaves(round, b, op.gl);
      if op.gl.CorrectOne? {
        CorrectionMovesBalance(b.entries, op.gl.entry, op.gl.debit, op.gl.credit, PayableQuery(s, c));
      }
    }
  }

  /** Every kind belongs to exactly one book. */
  lemma {:induction false} ReceivableIsNoPayable(kind: Kind)
    ensures Receivable(kind) <==> !Payable(kind)
  {
    if kind.ReversalOf? {
      ReceivableIsNoPayable(kind.kind);
    }
  }

  /** In every run, per shipment and currency, the original payable entries come to payments less approved bills. */
  lemma {:induction false} PayablesAreBills(round: int -> int, shipments: set<nat>, ops: seq<Op>, s: nat, c: string)
    ensures BillsMatchLedger(Run(round, Empty(shipments), ops), s, c)
    decreases |ops|
  {
    if ops != [] {
      var before, op := Run(round, Empty(shipments), ops[..|ops| - 1]), ops[|ops| - 1];
      PayablesAreBills(round, shipments, ops[..|ops| - 1], s, c);
      StepMatches(round, before, op, s, c);
    }
  }

  lemma StepMatches(round: int -> int, b: Books, op: Op, s: nat, c: string)
    requires BillsMatchLedger(b, s, c)
    ensures BillsMatchLedger(After(round, b, op), s, c)
  {
    if !op.AP? {
      OthersLeavePayables(round, b, op, s, c);
    } else if Apply(round, b, op).Done? {
      PayablesMatch(round, b, op.ap, s, c);
    }
  }

  // ---------------------------------------------------------------- no entry serves two bills

  /** The entry records this bill's approval or one of its payments. */
  ghost predicate Owns(bill: Bill, e: nat) {
    bill.entry == Some(e) || exists n :: 0 <= n < |bill.payments| && bill.payments[n].entry == e
  }

  ghost predicate OwnersDiffer(bills: seq<Bill>) {
    forall i, j, e: nat :: 0 <= i < |bills| && 0 <= j < |bills| && Owns(bills[i], e) && Owns(bills[j], e) ==> i == j
  }

  ghost predicate OwnsOnly(bills: seq<Bill>, n: nat) {
    forall i, e: nat :: 0 <= i < |bills| && Owns(bills[i], e) ==> e < n
  }

  lemma SettledOwnsOnly(round: int -> int, bills: seq<Bill>, entries: seq<Entry>)
    requires BillsSettle(round, bills, entries)
    ensures OwnsOnly(bills, |entries|)
  {
    forall i, e: nat | 0 <= i < |bills| && Owns(bills[i], e) ensures e < |entries| {
      assert EntriesMatch(entries, bills[i]);
    }
  }

  /** One bill takes on at most one entry, and it is new. */
  lemma NewEntryKeepsOwners(bills: seq<Bill>, id: nat, after: Bill, next: nat)
    requires OwnersDiffer(bills) && OwnsOnly(bills, next) && id < |bills|
    requires forall e: nat :: Owns(after, e) ==> Owns(bills[id], e) || e == next
    ensures OwnersDiffer(bills[id := after])
  {
    var updated := bills[id := after];
    forall i, j, e: nat | 0 <= i < |updated| && 0 <= j < |updated| && Owns(updated[i], e) && Owns(updated[j], e) ensures i == j {
      if i == id || j == id {
        assert e != next ==> Owns(bills[i], e) && Owns(bills[j], e);
      } else {
        assert Owns(bills[i], e) && Owns(bills[j], e);
      }
    }
  }

  lemma PayablesKeepOwners(round: int -> int, b: Books, op: PayableOp)
    requires OwnersDiffer(b.bills) && OwnsOnly(b.bills, |b.entries|) && ApplyAP(round, b, op).Done?
    ensures OwnersDiffer(ApplyAP(round, b, op).value.bills)
  {
    var after := ApplyAP(round, b, op).value;
    match op {
      case RecordBill(_, _, _, _, _) => NewBillKeepsOwners(b.bills, after.bills);
      case VerifyBill(id, _, _) => NewEntryKeepsOwners(b.bills, id, after.bills[id], |b.entries|);
      case ApproveBill(id, _) => NewEntryKeepsOwners(b.bills, id, after.bills[id], |b.entries|);
      case PayBill(id, _, _) => NewEntryKeepsOwners(b.bills, id, after.bills[id], |b.entries|);
    }
  }

  lemma NewBillKeepsOwners(bills: seq<Bill>, after: seq<Bill>)
    requires OwnersDiffer(bills) && |after| == |bills| + 1 && after == bills + [after[|bills|]]
    requires after[|bills|].entry.None? && after[|bills|].payments == []
    ensures OwnersDiffer(after)
  {
    assert forall i :: 0 <= i < |bills| ==> after[i] == bills[i];
  }

  /** In every run no ledger entry records two approvals, or two payments, or one of each. */
  lemma {:induction false} EntriesServeOneBill(round: int -> int, shipments: set<nat>, ops: seq<Op>)
    requires Rounds(round)
    ensures OwnersDiffer(Run(round, Empty(shipments), ops).bills)
    decreases |ops|
  {
    if ops != [] {
      var before, op := Run(round, Empty(shipments), ops[..|ops| - 1]), ops[|ops| - 1];
      EntriesServeOneBill(round, shipments, ops[..|ops| - 1]);
      RunIsSound(round, shipments, ops[..|ops| - 1]);
      SettledOwnsOnly(round, before.bills, before.entries);
      StepKeepsOwners(round, before, op);
    }
  }

  lemma StepKeepsOwners(round: int -> int, b: Books, op: Op)
    requires OwnersDiffer(b.bills) && OwnsOnly(b.bills, |b.entries|)
    ensures OwnersDiffer(After(round, b, op).bills)
  {
    if Apply(round, b, op).Done? {
      match op {
        case AP(ap) => PayablesKeepOwners(round, b, ap);
        case AR(ar) => InvoicingLeaves(round, b, ar);
        case GL(gl) => FinancialLeaves(round, b, gl);
      }
    }
  }

  // ---------------------------------------------------------------- both books

  /** What the entries of a book should come to, from the other tables. */
  function Recorded(b: Books, shipment: nat, currency: string, book: Book): int {
    match book
    case ReceivableBook => Documents(b, shipment, currency)
    case PayableBook => Obligations(b.bills, shipment, currency)
    case Both => Documents(b, shipment, currency) + Obligations(b.bills, shipment, currency)
  }

  lemma {:induction false} BooksAdd(entries: seq<Entry>, s: nat, c: string, scope: Scope)
    ensures Net(entries, Query(s, c, scope, Both))
            == Net(entries, Query(s, c, scope, ReceivableBook)) + Net(entries, Query(s, c, scope, PayableBook))
  {
    if entries != [] {
      BooksAdd(entries[..|entries| - 1], s, c, scope);
      ReceivableIsNoPayable(entries[|entries| - 1].kind);
    }
  }

  /**
   In every run, per shipment and currency, the original entries of either book, and of both together, come
   to exactly what the documents, bills and payments record.
   */
  lemma OriginalsAreRecorded(round: int -> int, shipments: set<nat>, ops: seq<Op>, s: nat, c: string, book: Book)
    requires Rounds(round)
    ensures var b := Run(round, Empty(shipments), ops);
            Net(b.entries, Query(s, c, Originals, book)) == Recorded(b, s, c, book)
  {
    RunIsSound(round, shipments, ops);
    PayablesAreBills(round, shipments, ops, s, c);
    BooksAdd(Run(round, Empty(shipments), ops).entries, s, c, Originals);
  }

  /** The posted entries of a book come to what is recorded. */
  predicate Agrees(b: Books, s: nat, c: string, book: Book) {
    Net(b.entries, Query(s, c, PostedOnly, book)) == Recorded(b, s, c, book)
  }

  lemma AgreesExactly(b: Books, s: nat, c: string, book: Book)
    requires Balanced(b.entries) && Net(b.entries, Query(s, c, Originals, book)) == Recorded(b, s, c, book)
    ensures Agrees(b, s, c, book) <==> Net(b.entries, Query(s, c, Corrections, book)) == 0
  {
    NetSplits(b.entries, Query(s, c, Everything, book));
    assert Net(b.entries, Query(s, c, Everything, book)) == Net(b.entries, Query(s, c, Everything, book).(scope := PostedOnly));
  }

  /** In every run the posted entries agree exactly when the corrections made there cancel out; without any, always. */
  lemma PostedAgreesExactly(round: int -> int, shipments: set<nat>, ops: seq<Op>, s: nat, c: string, book: Book)
    requires Rounds(round)
    ensures var b := Run(round, Empty(shipments), ops);
            && (Agrees(b, s, c, book) <==> Net(b.entries, Query(s, c, Corrections, book)) == 0)
            && (NoCorrections(ops) ==> Agrees(b, s, c, book))
  {
    var b := Run(round, Empty(shipments), ops);
    RunIsSound(round, shipments, ops);
    OriginalsAreRecorded(round, shipments, ops, s, c, book);
    AgreesExactly(b, s, c, book);
    if NoCorrections(ops) {
      NoCorrectionEntries(round, shipments, ops);
      NothingCorrected(b.entries, Query(s, c, Corrections, book));
    }
  }

  /**
   In every run, where a book agrees, an accepted correction keeps the agreement exactly when its entry is
   not of that shipment, currency and book, or keeps its debit minus credit.
   */
  lemma CorrectionKeepsAgreementExactly(round: int -> int, shipments: set<nat>, ops: seq<Op>, fix: FinancialOp, s: nat, c: string, book: Book)
    requires Rounds(round) && fix.CorrectOne?
    ensures var b, after := Run(round, Empty(shipments), ops), Run(round, Empty(shipments), ops + [GL(fix)]);
            Apply(round, b, GL(fix)).Done? && Agrees(b, s, c, book) ==>
              && fix.entry < |b.entries|
              && (Agrees(after, s, c, book) <==> KeepsNet(b.entries[fix.entry], fix, s, c, book))
  {
    var b := Run(round, Empty(shipments), ops);
    if Apply(round, b, GL(fix)).Done? {
      RunSnoc(round, Empty(shipments), ops, GL(fix));
      FinancialLeaves(round, b, fix);
      PostedAgreesExactly(round, shipments, ops, s, c, book);
      PostedAgreesExactly(round, shipments, ops + [GL(fix)], s, c, book);
      CorrectionMovesBalance(b.entries, fix.entry, fix.debit, fix.credit, Query(s, c, Corrections, book));
    }
  }

  /** The entry lies outside this shipment, currency and book, or its correction keeps debit minus credit. */
  predicate KeepsNet(e: Entry, fix: FinancialOp, s: nat, c: string, book: Book)
    requires fix.CorrectOne?
  {
    !Covers(Query(s, c, Corrections, book), e) || fix.debit - fix.credit == e.debit - e.credit
  }

  lemma FirstIsCorrected(round: int -> int, b: Books, amount: int, reason: string)
    requires b.entries == [Posting(1, InvoiceReceivable, amount, 0, "USD")] && |reason| >= 3
    ensures Apply(round, b, GL(CorrectOne(0, reason, 0, 0))).Done?
    ensures Covers(Query(1, "USD", Corrections, ReceivableBook), b.entries[0])
  {
  }

  /** A run from empty books after which posted receivables and documents differ: nothing posted, an invoice outstanding. */
  lemma RunThatDisagrees(round: int -> int, code: string, amount: int, reason: string)
    requires Rounds(round) && code != "" && amount >= 100 && |reason| >= 3
    ensures !Agrees(Run(round, Empty({1}), InvoicedRun(code, amount) + [GL(CorrectOne(0, reason, 0, 0))]), 1, "USD", ReceivableBook)
  {
    Near(round, amount);
    InvoicedOne(round, code, amount);
    PostedAgreesExactly(round, {1}, InvoicedRun(code, amount), 1, "USD", ReceivableBook);
    FirstIsCorrected(round, Run(round, Empty({1}), InvoicedRun(code, amount)), round(amount), reason);
    CorrectionKeepsAgreementExactly(round, {1}, InvoicedRun(code, amount), CorrectOne(0, reason, 0, 0), 1, "USD", ReceivableBook);
  }
}
