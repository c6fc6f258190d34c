/** Invoices, notes and revenue lines: each line billed once, credits bounded, approvals recorded, ledger and documents in agreement. */
module Receivables {
  import opened Results
  import opened Money
  import opened Ledger
  import opened Tables
  import opened Tax
  import opened Invoicing

  // ---------------------------------------------------------------- revenue is billed once

  function LineRefs(lines: seq<InvoiceLine>, r: nat): nat {
    if lines == [] then 0 else
    LineRefs(lines[..|lines| - 1], r) + if lines[|lines| - 1].revenue == r then 1 else 0
  }

  /** How many invoice lines reference a revenue line. */
  function Refs(invoices: seq<Invoice>, r: nat): nat {
    if invoices == [] then 0 else Refs(invoices[..|invoices| - 1], r) + LineRefs(invoices[|invoices| - 1].lines, r)
  }

  /**
   A line created unbilled (or paid) is INVOICED exactly when one invoice line references it, and otherwise
   stands as created with no reference; a line created as INVOICED is never referenced.
   */
  predicate BilledOnce(revenues: seq<RevenueLine>, invoices: seq<Invoice>, r: nat)
    requires r < |revenues|
  {
    var line, refs := revenues[r], Refs(invoices, r);
    if line.created.Invoiced? then line.status.Invoiced? && refs == 0
    else if line.status.Invoiced? then refs == 1
    else refs == 0 && line.status == line.created
  }

  ghost predicate AllBilledOnce(revenues: seq<RevenueLine>, invoices: seq<Invoice>) {
    (forall r: nat :: r < |revenues| ==> BilledOnce(revenues, invoices, r))
    && forall r: nat :: r >= |revenues| ==> Refs(invoices, r) == 0
  }

  /** The lines reference exactly these revenue lines, in this order. */
  ghost predicate Bills(lines: seq<InvoiceLine>, selected: seq<nat>) {
    |lines| == |selected| && forall i :: 0 <= i < |lines| ==> lines[i].revenue == selected[i]
  }

  lemma {:induction false} LinesReferenceSelected(lines: seq<InvoiceLine>, selected: seq<nat>, r: nat)
    requires Bills(lines, selected) && forall i, j :: 0 <= i < j < |selected| ==> selected[i] < selected[j]
    ensures LineRefs(lines, r) == if r in selected then 1 else 0
    decreases |lines|
  {
    if lines != [] {
      var n := |lines| - 1;
      LinesReferenceSelected(lines[..n], selected[..n], r);
      assert selected == selected[..n] + [selected[n]] && selected[n] !in selected[..n];
    }
  }

  lemma IssuedRefs(invoices: seq<Invoice>, invoice: Invoice, selected: seq<nat>, r: nat)
    requires Bills(invoice.lines, selected) && forall i, j :: 0 <= i < j < |selected| ==> selected[i] < selected[j]
    ensures Refs(invoices + [invoice], r) == Refs(invoices, r) + if r in selected then 1 else 0
  {
    LinesReferenceSelected(invoice.lines, selected, r);
    assert (invoices + [invoice])[..|invoices|] == invoices;
  }

  /** An invoice for lines not yet invoiced references each selected line once and never one that is referenced already. */
  lemma IssuedBillsOnce(b: Books, invoice: Invoice, selected: seq<nat>)
    requires AllBilledOnce(b.revenues, b.invoices) && Bills(invoice.lines, selected)
    requires forall i :: 0 <= i < |selected| ==> selected[i] < |b.revenues|
    requires forall i, j :: 0 <= i < j < |selected| ==> selected[i] < selected[j]
    requires !AnyInvoiced(b.revenues, selected)
    ensures AllBilledOnce(MarkInvoiced(b.revenues, selected), b.invoices + [invoice])
  {
    var after := MarkInvoiced(b.revenues, selected);
    forall r: nat ensures Refs(b.invoices + [invoice], r) == Refs(b.invoices, r) + if r in selected then 1 else 0 {
      IssuedRefs(b.invoices, invoice, selected, r);
    }
    forall r: nat | r < |after| ensures BilledOnce(after, b.invoices + [invoice], r) {
      assert BilledOnce(b.revenues, b.invoices, r);
      if r in selected {
        var i :| 0 <= i < |selected| && selected[i] == r;
        assert !b.revenues[selected[i]].status.Invoiced?;
      }
    }
  }

  /** Changing an invoice's status or approval leaves every reference where it was. */
  lemma {:induction false} RefsIgnoreStatus(invoices: seq<Invoice>, id: nat, after: Invoice, r: nat)
    requires id < |invoices| && after.lines == invoices[id].lines
    ensures Refs(invoices[id := after], r) == Refs(invoices, r)
    decreases |invoices|
  {
    var n := |invoices| - 1;
    if id < n {
      assert invoices[id := after][..n] == invoices[..n][id := after];
      RefsIgnoreStatus(invoices[..n], id, after, r);
    } else {
      assert invoices[id := after][..n] == invoices[..n];
    }
  }

  lemma StatusKeepsBilledOnce(revenues: seq<RevenueLine>, invoices: seq<Invoice>, id: nat, after: Invoice)
    requires AllBilledOnce(revenues, invoices) && id < |invoices| && after.lines == invoices[id].lines
    ensures AllBilledOnce(revenues, invoices[id := after])
  {
    var updated := invoices[id := after];
    forall r: nat ensures Refs(updated, r) == Refs(invoices, r) {
      RefsIgnoreStatus(invoices, id, after, r);
    }
    forall r: nat | r < |revenues| ensures BilledOnce(revenues, updated, r) {
      assert BilledOnce(revenues, invoices, r);
    }
  }

  lemma NewRevenueKeepsBilledOnce(revenues: seq<RevenueLine>, invoices: seq<Invoice>, line: RevenueLine)
    requires AllBilledOnce(revenues, invoices) && line.status == line.created
    ensures AllBilledOnce(revenues + [line], invoices)
  {
    forall r: nat | r < |revenues| + 1 ensures BilledOnce(revenues + [line], invoices, r) {
      if r < |revenues| {
        assert BilledOnce(revenues, invoices, r);
      }
    }
  }

  // ---------------------------------------------------------------- approval and credit

  /** Approved or sent invoices carry their approval; CREDITED says the rounded credits cover a positive total. */
  ghost predicate InvoiceOk(round: int -> int, invoices: seq<Invoice>, credits: seq<Note>, id: nat)
    requires id < |invoices|
  {
    var invoice, sum := invoices[id], NoteSum(credits, id);
    && (invoice.status.InvoiceApproved? || invoice.status.Sent? ==> invoice.approved && invoice.approvedBy.Some?)
    && WholeCents(invoice.total)
    && 0 <= sum
    && (sum > 0 ==> invoice.total > 0 && sum <= invoice.total + HALF_CENT)
    && (invoice.status.Credited? <==> round(sum) >= invoice.total > 0)
  }

  ghost predicate InvoicesOk(round: int -> int, invoices: seq<Invoice>, credits: seq<Note>) {
    (forall id: nat :: id < |invoices| ==> InvoiceOk(round, invoices, credits, id))
    && forall id: nat :: id >= |invoices| ==> NoteSum(credits, id) == 0
  }

  lemma NoteSumSnoc(notes: seq<Note>, note: Note, invoice: nat)
    ensures NoteSum(notes + [note], invoice) == NoteSum(notes, invoice) + if note.invoice == invoice then note.amount else 0
  {
    assert (notes + [note])[..|notes|] == notes;
  }

  lemma IssuedKeepsInvoicesOk(round: int -> int, invoices: seq<Invoice>, credits: seq<Note>, invoice: Invoice)
    requires Rounds(round) && InvoicesOk(round, invoices, credits)
    requires WholeCents(invoice.total) && !invoice.status.Credited? && !invoice.status.Sent?
    requires invoice.status.InvoiceApproved? ==> invoice.approved && invoice.approvedBy.Some?
    ensures InvoicesOk(round, invoices + [invoice], credits)
  {
    RoundFixesWholeCents(round, 0);
    forall id: nat | id < |invoices| + 1 ensures InvoiceOk(round, invoices + [invoice], credits, id) {
      if id < |invoices| {
        assert InvoiceOk(round, invoices, credits, id);
      }
    }
  }

  lemma ApproveOrSendKeepsInvoicesOk(round: int -> int, b: Books, after: Books, id: nat)
    requires InvoicesOk(round, b.invoices, b.credits) && id < |b.invoices|
    requires (exists actor :: ApproveInvoice(b, id, actor) == Done(after)) || SendInvoice(b, id, true) == Done(after)
    ensures InvoicesOk(round, after.invoices, after.credits)
  {
    forall i: nat | i < |after.invoices| ensures InvoiceOk(round, after.invoices, after.credits, i) {
      assert InvoiceOk(round, b.invoices, b.credits, i);
    }
  }

  lemma CreditIsBounded(round: int -> int, total: int, sum: int, amount: int)
    requires Rounds(round) && WholeCents(total) && 0 <= sum && 0 < amount <= round(total - sum)
    ensures sum + amount <= total + HALF_CENT && total > 0
  {
    Near(round, total - sum);
    WholeCentsApart(100, round(total - sum));
  }

  lemma CreditKeepsInvoicesOk(round: int -> int, b: Books, id: nat, amount: int, reason: string, currency: Option<string>)
    requires Rounds(round) && InvoicesOk(round, b.invoices, b.credits)
    requires CreateCreditNote(round, b, id, amount, reason, currency).Done?
    ensures var after := CreateCreditNote(round, b, id, amount, reason, currency).value; InvoicesOk(round, after.invoices, after.credits)
  {
    var after := CreateCreditNote(round, b, id, amount, reason, currency).value;
    var note, sum := after.credits[|b.credits|], NoteSum(b.credits, id);
    assert InvoiceOk(round, b.invoices, b.credits, id);
    CreditIsBounded(round, b.invoices[id].total, sum, amount);
    RoundIsMonotone(round, sum, sum + amount);
    forall i: nat ensures NoteSum(after.credits, i) == NoteSum(b.credits, i) + if i == id then amount else 0 {
      NoteSumSnoc(b.credits, note, i);
    }
    forall i: nat | i < |after.invoices| ensures InvoiceOk(round, after.invoices, after.credits, i) {
      assert InvoiceOk(round, b.invoices, b.credits, i);
    }
  }

  /** In whole cents: credits never exceed the total, and CREDITED means credited to the cent. */
  lemma WholeCentCreditsAreExact(round: int -> int, invoices: seq<Invoice>, credits: seq<Note>, id: nat)
    requires Rounds(round) && id < |invoices| && InvoiceOk(round, invoices, credits, id)
    requires forall n :: 0 <= n < |credits| && credits[n].invoice == id ==> WholeCents(credits[n].amount)
    ensures NoteSum(credits, id) > 0 ==> NoteSum(credits, id) <= invoices[id].total
    ensures invoices[id].status.Credited? <==> NoteSum(credits, id) == invoices[id].total > 0
  {
    NoteSumWhole(credits, id);
    RoundFixesWholeCents(round, NoteSum(credits, id));
    if NoteSum(credits, id) > 0 {
      WholeCentsApart(NoteSum(credits, id), invoices[id].total);
    }
  }

  lemma {:induction false} NoteSumWhole(notes: seq<Note>, id: nat)
    requires forall n :: 0 <= n < |notes| && notes[n].invoice == id ==> WholeCents(notes[n].amount)
    ensures WholeCents(NoteSum(notes, id))
  {
    if notes != [] {
      NoteSumWhole(notes[..|notes| - 1], id);
      if notes[|notes| - 1].invoice == id {
        WholeCentsAdd(NoteSum(notes[..|notes| - 1], id), notes[|notes| - 1].amount);
      }
    }
  }

  // ---------------------------------------------------------------- ledger and documents

  function InvoiceTotals(invoices: seq<Invoice>, shipment: nat, currency: string): int {
    if invoices == [] then 0 else
    var last := invoices[|invoices| - 1];
    InvoiceTotals(invoices[..|invoices| - 1], shipment, currency)
    + if last.shipment == shipment && last.currency == currency then last.total else 0
  }

  /** Notes in this currency against invoices of this shipment. */
  function NoteTotals(notes: seq<Note>, invoices: seq<Invoice>, shipment: nat, currency: string): int {
    if notes == [] then 0 else
    var last := notes[|notes| - 1];
    NoteTotals(notes[..|notes| - 1], invoices, shipment, currency)
    + if last.invoice < |invoices| && invoices[last.invoice].shipment == shipment && last.currency == currency then last.amount else 0
  }

  /** What the customer documents of a shipment come to: invoices plus debit notes minus credit notes. */
  function Documents(b: Books, shipment: nat, currency: string): int {
    InvoiceTotals(b.invoices, shipment, currency)
    + NoteTotals(b.debits, b.invoices, shipment, currency) - NoteTotals(b.credits, b.invoices, shipment, currency)
  }

  ghost predicate NotesPointInto(notes: seq<Note>, invoices: seq<Invoice>) {
    forall n :: 0 <= n < |notes| ==> notes[n].invoice < |invoices|
  }

  /** The original receivable entries of every shipment and currency come to exactly its documents. */
  ghost predicate LedgerMatchesDocuments(b: Books) {
    && NotesPointInto(b.debits, b.invoices) && NotesPointInto(b.credits, b.invoices)
    && forall shipment, currency :: Net(b.entries, Query(shipment, currency, Originals, ReceivableBook)) == Documents(b, shipment, currency)
  }

  /** Only an invoice's shipment matters to the notes against it. */
  lemma {:induction false} NoteTotalsStable(notes: seq<Note>, invoices: seq<Invoice>, after: seq<Invoice>, shipment: nat, currency: string)
    requires NotesPointInto(notes, invoices) && |invoices| <= |after|
    requires forall i :: 0 <= i < |invoices| ==> after[i].shipment == invoices[i].shipment
    ensures NoteTotals(notes, after, shipment, currency) == NoteTotals(notes, invoices, shipment, currency)
    decreases |notes|
  {
    if notes != [] {
      NoteTotalsStable(notes[..|notes| - 1], invoices, after, shipment, currency);
    }
  }

  lemma {:induction false} InvoiceTotalsStable(invoices: seq<Invoice>, id: nat, after: Invoice, shipment: nat, currency: string)
    requires id < |invoices|
    requires after.shipment == invoices[id].shipment && after.currency == invoices[id].currency && after.total == invoices[id].total
    ensures InvoiceTotals(invoices[id := after], shipment, currency) == InvoiceTotals(invoices, shipment, currency)
    decreases |invoices|
  {
    var n := |invoices| - 1;
    if id < n {
      assert invoices[id := after][..n] == invoices[..n][id := after];
      InvoiceTotalsStable(invoices[..n], id, after, shipment, currency);
    } else {
      assert invoices[id := after][..n] == invoices[..n];
    }
  }

  lemma StatusKeepsDocuments(b: Books, id: nat, after: Invoice, shipment: nat, currency: string)
    requires id < |b.invoices| && NotesPointInto(b.debits, b.invoices) && NotesPointInto(b.credits, b.invoices)
    requires after.shipment == b.invoices[id].shipment && after.currency == b.invoices[id].currency && after.total == b.invoices[id].total
    ensures Documents(b.(invoices := b.invoices[id := after]), shipment, currency) == Documents(b, shipment, currency)
  {
    InvoiceTotalsStable(b.invoices, id, after, shipment, currency);
    NoteTotalsStable(b.debits, b.invoices, b.invoices[id := after], shipment, currency);
    NoteTotalsStable(b.credits, b.invoices, b.invoices[id := after], shipment, currency);
  }

  lemma InvoiceAdded(b: Books, invoice: Invoice, shipment: nat, currency: string)
    requires NotesPointInto(b.debits, b.invoices) && NotesPointInto(b.credits, b.invoices)
    ensures Documents(b.(invoices := b.invoices + [invoice]), shipment, currency)
            == Documents(b, shipment, currency)
               + if invoice.shipment == shipment && invoice.currency == currency then invoice.total else 0
  {
    assert (b.invoices + [invoice])[..|b.invoices|] == b.invoices;
    NoteTotalsStable(b.debits, b.invoices, b.invoices + [invoice], shipment, currency);
    NoteTotalsStable(b.credits, b.invoices, b.invoices + [invoice], shipment, currency);
  }

  lemma NoteAdded(notes: seq<Note>, note: Note, invoices: seq<Invoice>, shipment: nat, currency: string)
    requires note.invoice < |invoices|
    ensures NoteTotals(notes + [note], invoices, shipment, currency)
            == NoteTotals(notes, invoices, shipment, currency)
               + if invoices[note.invoice].shipment == shipment && note.currency == currency then note.amount else 0
  {
    assert (notes + [note])[..|notes|] == notes;
  }

  lemma IssuedMovesBoth(b: Books, invoice: Invoice, selected: seq<nat>, s: nat, c: string)
    requires NotesPointInto(b.debits, b.invoices) && NotesPointInto(b.credits, b.invoices)
    ensures var after := Issued(b, invoice, selected);
            Net(after.entries, Query(s, c, Originals, ReceivableBook)) - Net(b.entries, Query(s, c, Originals, ReceivableBook))
            == Documents(after, s, c) - Documents(b, s, c)
  {
    NetAppend(b.entries, Posting(invoice.shipment, InvoiceReceivable, invoice.total, 0, invoice.currency), Query(s, c, Originals, ReceivableBook));
    InvoiceAdded(b, invoice, s, c);
  }

  lemma GenerateKeepsLedger(b: Books, invoice: Invoice, selected: seq<nat>)
    requires LedgerMatchesDocuments(b)
    ensures LedgerMatchesDocuments(Issued(b, invoice, selected))
  {
    var after := Issued(b, invoice, selected);
    forall s, c ensures Net(after.entries, Query(s, c, Originals, ReceivableBook)) == Documents(after, s, c) {
      IssuedMovesBoth(b, invoice, selected, s, c);
    }
  }

  lemma StatusKeepsLedger(b: Books, id: nat, after: Invoice)
    requires LedgerMatchesDocuments(b) && id < |b.invoices|
    requires after.shipment == b.invoices[id].shipment && after.currency == b.invoices[id].currency && after.total == b.invoices[id].total
    ensures LedgerMatchesDocuments(b.(invoices := b.invoices[id := after]))
  {
    forall s, c ensures Documents(b.(invoices := b.invoices[id := after]), s, c) == Documents(b, s, c) {
      StatusKeepsDocuments(b, id, after, s, c);
    }
  }

  lemma CreditKeepsLedger(round: int -> int, b: Books, id: nat, amount: int, money: string)
    requires LedgerMatchesDocuments(b) && id < |b.invoices|
    ensures LedgerMatchesDocuments(CreditedBooks(round, b, id, amount, money))
  {
    var after := CreditedBooks(round, b, id, amount, money);
    var marked := b.(invoices := after.invoices);
    StatusKeepsLedger(b, id, after.invoices[id]);
    assert b.invoices[id := after.invoices[id]] == after.invoices;
    forall s, c ensures Net(after.entries, Query(s, c, Originals, ReceivableBook)) == Documents(after, s, c) {
      NetAppend(b.entries, after.entries[|b.entries|], Query(s, c, Originals, ReceivableBook));
      NoteAdded(b.credits, after.credits[|b.credits|], after.invoices, s, c);
      assert Net(b.entries, Query(s, c, Originals, ReceivableBook)) == Documents(marked, s, c);
    }
  }

  lemma DebitMovesBoth(b: Books, after: Books, note: Note, s: nat, c: string)
    requires note.invoice < |b.invoices| && after.invoices == b.invoices && after.credits == b.credits && after.debits == b.debits + [note]
    requires after.entries == b.entries + [Posting(b.invoices[note.invoice].shipment, DebitNote, note.amount, 0, note.currency)]
    ensures Net(after.entries, Query(s, c, Originals, ReceivableBook)) - Net(b.entries, Query(s, c, Originals, ReceivableBook))
            == Documents(after, s, c) - Documents(b, s, c)
  {
    NetAppend(b.entries, after.entries[|b.entries|], Query(s, c, Originals, ReceivableBook));
    NoteAdded(b.debits, note, b.invoices, s, c);
  }

  lemma DebitKeepsLedger(b: Books, id: nat, amount: int, money: string)
    requires LedgerMatchesDocuments(b) && id < |b.invoices|
    ensures LedgerMatchesDocuments(DebitedBooks(b, id, amount, money))
  {
    var after := DebitedBooks(b, id, amount, money);
    forall s, c ensures Net(after.entries, Query(s, c, Originals, ReceivableBook)) == Documents(after, s, c) {
      DebitMovesBoth(b, after, after.debits[|b.debits|], s, c);
    }
  }
}
