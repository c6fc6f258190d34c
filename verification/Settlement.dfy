/** Bills and their payments: overpayment, the meaning of PAID, the bill's own ledger entries, and bills that can no longer be paid. */
module Settlement {
  import opened Results
  import opened Money
  import opened Ledger
  import opened Tables
  import opened Payables

  /** Payments never exceed a positive total by more than half a cent, `paid` is their rounded sum, and PAID says it covers the total. */
  ghost predicate PaidUp(round: int -> int, bill: Bill) {
    var sum := PaidSum(bill.payments);
    && WholeCents(bill.total)
    && sum >= 0
    && (if bill.payments == [] then sum == 0 else bill.total > 0 && sum <= bill.total + HALF_CENT)
    && bill.paid == round(sum)
    && (bill.status.BillPaid? <==> bill.paid >= bill.total > 0)
  }

  /** The row is this posting, whatever became of its status. */
  predicate IsPosting(e: Entry, posting: Entry) {
    e == posting.(status := e.status)
  }

  /**
   A bill and its payments point at their own postings: of its shipment, of the bill's or the payment's
   currency and amount, and all different.
   */
  ghost predicate EntriesMatch(entries: seq<Entry>, bill: Bill) {
    && (bill.entry.Some? ==>
          && bill.entry.value < |entries|
          && IsPosting(entries[bill.entry.value], Posting(bill.shipment, AccountsPayable, 0, bill.total, bill.currency)))
    && (bill.payments != [] ==> bill.entry.Some?)
    && (forall i :: 0 <= i < |bill.payments| ==>
          var p := bill.payments[i];
          && bill.entry.value < p.entry < |entries|
          && IsPosting(entries[p.entry], Posting(bill.shipment, ApPayment, p.amount, 0, p.currency)))
    && (forall i, j :: 0 <= i < j < |bill.payments| ==> bill.payments[i].entry < bill.payments[j].entry)
  }

  ghost predicate BillsSettle(round: int -> int, bills: seq<Bill>, entries: seq<Entry>) {
    forall i :: 0 <= i < |bills| ==> PaidUp(round, bills[i]) && EntriesMatch(entries, bills[i])
  }

  /** Entries change in nothing but status, so what a row points at keeps its meaning. */
  ghost predicate PostingsKept(entries: seq<Entry>, after: seq<Entry>) {
    |entries| <= |after| && forall i :: 0 <= i < |entries| ==> IsPosting(after[i], entries[i])
  }

  lemma EffectKeepsPostings(entries: seq<Entry>, effect: Effect)
    requires Legal(entries, effect)
    ensures PostingsKept(entries, Effected(entries, effect))
  {
  }

  lemma LedgerMoveKeepsSettlement(round: int -> int, bills: seq<Bill>, entries: seq<Entry>, after: seq<Entry>)
    requires BillsSettle(round, bills, entries) && PostingsKept(entries, after)
    ensures BillsSettle(round, bills, after)
  {
    forall i | 0 <= i < |bills| ensures PaidUp(round, bills[i]) && EntriesMatch(after, bills[i]) {
      assert PaidUp(round, bills[i]) && EntriesMatch(entries, bills[i]);
    }
  }

  lemma NewBillSettles(round: int -> int, shipment: nat, number: string, currency: string, tax: int, lines: seq<BillLine>, entries: seq<Entry>)
    requires Rounds(round)
    ensures var bill := NewBill(round, shipment, number, currency, tax, lines);
            PaidUp(round, bill) && EntriesMatch(entries, bill)
  {
    Near(round, BilledSum(lines) + tax);
    RoundFixesWholeCents(round, 0);
  }

  lemma VerifyKeepsSettlement(round: int -> int, b: Books, id: nat, actor: nat, allowMaterial: bool)
    requires BillsSettle(round, b.bills, b.entries) && VerifyPayable(b, id, actor, allowMaterial).Done?
    ensures BillsSettle(round, VerifyPayable(b, id, actor, allowMaterial).value.bills, b.entries)
  {
    assert PaidUp(round, b.bills[id]) && EntriesMatch(b.entries, b.bills[id]);
  }

  /** An unapproved bill has no payments, so approving it settles nothing yet. */
  lemma ApproveKeepsSettlement(round: int -> int, b: Books, id: nat, actor: nat)
    requires Rounds(round) && BillsSettle(round, b.bills, b.entries) && ApprovePayable(b, id, actor).Done?
    requires forall i :: 0 <= i < |b.bills| ==> (b.bills[i].approved <==> b.bills[i].entry.Some?) && (b.bills[i].status.BillPaid? ==> b.bills[i].approved)
    ensures var after := ApprovePayable(b, id, actor).value; BillsSettle(round, after.bills, after.entries)
  {
    var after, bill := ApprovePayable(b, id, actor).value, b.bills[id];
    assert PaidUp(round, bill) && EntriesMatch(b.entries, bill);
    EffectKeepsPostings(b.entries, Post(Posting(bill.shipment, AccountsPayable, 0, bill.total, bill.currency)));
    LedgerMoveKeepsSettlement(round, b.bills, b.entries, after.entries);
    forall i | 0 <= i < |after.bills| ensures PaidUp(round, after.bills[i]) && EntriesMatch(after.entries, after.bills[i]) {
      assert PaidUp(round, b.bills[i]) && EntriesMatch(after.entries, b.bills[i]);
    }
  }

  lemma PaidSumSnoc(payments: seq<Payment>, p: Payment)
    ensures PaidSum(payments + [p]) == PaidSum(payments) + p.amount
  {
    assert (payments + [p])[..|payments|] == payments;
  }

  /** One payment that passed the checks stays within half a cent of what was owed. */
  lemma PaymentIsBounded(round: int -> int, bill: Bill, amount: int)
    requires Rounds(round) && 0 < amount <= round(bill.total - PaidSum(bill.payments))
    ensures PaidSum(bill.payments) + amount <= bill.total + HALF_CENT
  {
    Near(round, bill.total - PaidSum(bill.payments));
  }

  lemma PaymentKeepsPaidUp(round: int -> int, bill: Bill, payment: Payment)
    requires Rounds(round) && PaidUp(round, bill) && 0 < payment.amount <= round(bill.total - PaidSum(bill.payments))
    ensures PaidUp(round, PaidBill(round, bill, payment))
  {
    PaidSumSnoc(bill.payments, payment);
    PaymentIsBounded(round, bill, payment.amount);
    TotalIsPositive(round, bill, payment.amount);
  }

  lemma PaymentKeepsEntries(round: int -> int, entries: seq<Entry>, bill: Bill, payment: Payment)
    requires payment.entry < |entries| && EntriesMatch(entries[..payment.entry], bill) && bill.entry.Some?
    requires entries[payment.entry] == Posting(bill.shipment, ApPayment, payment.amount, 0, payment.currency)
    ensures EntriesMatch(entries, PaidBill(round, bill, payment))
  {
  }

  lemma PostedPaymentSettles(round: int -> int, bills: seq<Bill>, entries: seq<Entry>, id: nat, payment: Payment)
    requires Rounds(round) && BillsSettle(round, bills, entries) && id < |bills| && bills[id].entry.Some?
    requires payment.entry == |entries| && 0 < payment.amount <= round(bills[id].total - PaidSum(bills[id].payments))
    ensures var posting := Posting(bills[id].shipment, ApPayment, payment.amount, 0, payment.currency);
            BillsSettle(round, bills[id := PaidBill(round, bills[id], payment)], entries + [posting])
  {
    var bill, posting := bills[id], Posting(bills[id].shipment, ApPayment, payment.amount, 0, payment.currency);
    LedgerMoveKeepsSettlement(round, bills, entries, entries + [posting]);
    assert PaidUp(round, bill) && EntriesMatch(entries, bill) && (entries + [posting])[..payment.entry] == entries;
    PaymentKeepsPaidUp(round, bill, payment);
    PaymentKeepsEntries(round, entries + [posting], bill, payment);
    OneBillChanges(round, bills, entries + [posting], id, PaidBill(round, bill, payment));
  }

  lemma PayKeepsSettlement(round: int -> int, b: Books, id: nat, amount: int, currency: Option<string>)
    requires Rounds(round) && BillsSettle(round, b.bills, b.entries) && RecordPayment(round, b, id, amount, currency).Done?
    requires b.bills[id].entry.Some?
    ensures var after := RecordPayment(round, b, id, amount, currency).value; BillsSettle(round, after.bills, after.entries)
  {
    PostedPaymentSettles(round, b.bills, b.entries, id, Payment(amount, OrElse(currency, b.bills[id].currency), |b.entries|));
  }

  lemma OneBillChanges(round: int -> int, bills: seq<Bill>, entries: seq<Entry>, id: nat, after: Bill)
    requires BillsSettle(round, bills, entries) && id < |bills| && PaidUp(round, after) && EntriesMatch(entries, after)
    ensures BillsSettle(round, bills[id := after], entries)
  {
    var updated := bills[id := after];
    forall i | 0 <= i < |updated| ensures PaidUp(round, updated[i]) && EntriesMatch(entries, updated[i]) {
      assert PaidUp(round, bills[i]) && EntriesMatch(entries, bills[i]);
    }
  }

  lemma TotalIsPositive(round: int -> int, bill: Bill, amount: int)
    requires Rounds(round) && PaidUp(round, bill) && 0 < amount <= round(bill.total - PaidSum(bill.payments))
    ensures bill.total > 0
  {
    var owed := bill.total - PaidSum(bill.payments);
    Near(round, owed);
    WholeCentsApart(100, round(owed));
  }

  // ---------------------------------------------------------------- consequences

  /** In whole cents a bill is never overpaid at all, and PAID means paid to the cent. */
  lemma WholeCentPaymentsAreExact(round: int -> int, bill: Bill)
    requires Rounds(round) && PaidUp(round, bill)
    requires forall i :: 0 <= i < |bill.payments| ==> WholeCents(bill.payments[i].amount)
    ensures bill.payments != [] ==> PaidSum(bill.payments) <= bill.total
    ensures bill.status.BillPaid? <==> PaidSum(bill.payments) == bill.total > 0
  {
    PaidSumWhole(bill.payments);
    if bill.payments != [] {
      WholeCentsApart(PaidSum(bill.payments), bill.total);
    }
    RoundFixesWholeCents(round, PaidSum(bill.payments));
  }

  /**
   What an open bill accepts is anything up to its rounded balance, and at least half a cent is owed. A
   payment settles the bill when it comes within half a cent of what is owed, and does not when it falls
   further short; where the payments come to whole cents, exactly when it is what is owed.
   */
  lemma TheBalanceSettles(round: int -> int, b: Books, id: nat, amount: int, currency: Option<string>)
    requires Rounds(round) && id < |b.bills| && PaidUp(round, b.bills[id]) && b.bills[id].total > 0
    requires b.bills[id].status.BillApproved? || b.bills[id].status.PartiallyPaid?
    ensures var owed := Owing(b.bills[id]);
            && owed >= HALF_CENT && (owed > HALF_CENT ==> round(owed) > 0)
            && (RecordPayment(round, b, id, amount, currency).Done? <==> 0 < amount <= round(owed))
    ensures RecordPayment(round, b, id, amount, currency).Done? ==>
              var owed, paid := Owing(b.bills[id]), RecordPayment(round, b, id, amount, currency).value.bills[id].status.BillPaid?;
              && (amount > owed - HALF_CENT ==> paid) && (amount < owed - HALF_CENT ==> !paid)
              && (WholeCents(PaidSum(b.bills[id].payments) + amount) ==> (paid <==> amount == owed))
  {
    var bill := b.bills[id];
    OpenBalance(round, bill);
    if 0 < amount <= round(Owing(bill)) {
      SettlesWithin(round, bill, amount);
    }
  }

  function Owing(bill: Bill): int {
    bill.total - PaidSum(bill.payments)
  }

  lemma OpenBalance(round: int -> int, bill: Bill)
    requires Rounds(round) && PaidUp(round, bill) && bill.total > 0 && !bill.status.BillPaid?
    ensures Owing(bill) >= HALF_CENT && (Owing(bill) > HALF_CENT ==> round(Owing(bill)) > 0)
  {
    Near(round, PaidSum(bill.payments));
    Near(round, Owing(bill));
    WholeCentsAdd(bill.total, 100);
    WholeCentsApart(bill.paid, bill.total - 100);
  }

  lemma SettlesWithin(round: int -> int, bill: Bill, amount: int)
    requires Rounds(round) && WholeCents(bill.total) && amount <= round(Owing(bill))
    ensures var settled := round(PaidSum(bill.payments) + amount) >= bill.total;
            && (amount > Owing(bill) - HALF_CENT ==> settled) && (amount < Owing(bill) - HALF_CENT ==> !settled)
            && (WholeCents(PaidSum(bill.payments) + amount) ==> (settled <==> amount == Owing(bill)))
  {
    var sum := PaidSum(bill.payments) + amount;
    Near(round, sum);
    Near(round, Owing(bill));
    if sum > bill.total - HALF_CENT {
      WholeCentsApart(bill.total, round(sum));
    }
    if WholeCents(sum) {
      RoundFixesWholeCents(round, sum);
      WholeCentsApart(sum, bill.total);
    }
  }

  lemma {:induction false} PaidSumWhole(payments: seq<Payment>)
    requires forall i :: 0 <= i < |payments| ==> WholeCents(payments[i].amount)
    ensures WholeCents(PaidSum(payments))
  {
    if payments != [] {
      PaidSumWhole(payments[..|payments| - 1]);
      WholeCentsAdd(PaidSum(payments[..|payments| - 1]), payments[|payments| - 1].amount);
    }
  }

  /** Credit minus debit over the entries created for a bill. */
  function BillNet(entries: seq<Entry>, bill: Bill): int
    requires bill.entry.Some? && bill.entry.value < |entries|
    requires forall i :: 0 <= i < |bill.payments| ==> bill.payments[i].entry < |entries|
  {
    entries[bill.entry.value].credit - entries[bill.entry.value].debit + PaymentsNet(entries, bill.payments)
  }

  function PaymentsNet(entries: seq<Entry>, payments: seq<Payment>): int
    requires forall i :: 0 <= i < |payments| ==> payments[i].entry < |entries|
  {
    if payments == [] then 0 else
    var e := entries[payments[|payments| - 1].entry];
    PaymentsNet(entries, payments[..|payments| - 1]) + e.credit - e.debit
  }

  /** The entries of an approved bill net to what is still owed. */
  lemma EntriesNetToBalance(entries: seq<Entry>, bill: Bill)
    requires EntriesMatch(entries, bill) && bill.entry.Some?
    ensures BillNet(entries, bill) == bill.total - PaidSum(bill.payments)
  {
    PaymentsNetToSum(entries, bill.payments);
  }

  lemma {:induction false} PaymentsNetToSum(entries: seq<Entry>, payments: seq<Payment>)
    requires forall i :: 0 <= i < |payments| ==>
               payments[i].entry < |entries| && entries[payments[i].entry].debit == payments[i].amount && entries[payments[i].entry].credit == 0
    ensures PaymentsNet(entries, payments) == -PaidSum(payments)
  {
    if payments != [] {
      PaymentsNetToSum(entries, payments[..|payments| - 1]);
    }
  }

  /** Approved, but verified again after a part payment: no operation accepts it any more. */
  predicate Stuck(bill: Bill) {
    bill.status.BillVerified? && bill.approved && bill.verified
  }

  /** Verifying a partly paid bill again is accepted and leaves it stuck with money still owed. */
  lemma ReverifyingPartPaidSticks(round: int -> int, b: Books, id: nat, actor: nat, allowMaterial: bool)
    requires id < |b.bills| && b.bills[id].status.PartiallyPaid? && b.bills[id].approved && b.bills[id].verified
    requires PaidUp(round, b.bills[id]) && b.bills[id].total > 0
    ensures VerifyPayable(b, id, actor, allowMaterial).Done? <==> !Material(b.bills[id]) || allowMaterial
    ensures VerifyPayable(b, id, actor, allowMaterial).Done? ==>
              var after := VerifyPayable(b, id, actor, allowMaterial).value.bills[id];
              Stuck(after) && after.paid < after.total
  {
  }

  /** A stuck bill can be neither approved nor paid, and verifying it changes no amount. */
  lemma StuckStaysStuck(round: int -> int, b: Books, id: nat, actor: nat, allowMaterial: bool, amount: int, currency: Option<string>)
    requires id < |b.bills| && Stuck(b.bills[id])
    ensures ApprovePayable(b, id, actor).Refused? && RecordPayment(round, b, id, amount, currency).Refused?
    ensures VerifyPayable(b, id, actor, allowMaterial).Done? ==>
              var after := VerifyPayable(b, id, actor, allowMaterial).value.bills[id];
              Stuck(after) && after.payments == b.bills[id].payments && after.paid == b.bills[id].paid
  {
  }
}
