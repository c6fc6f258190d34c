/** Customer invoices: generation from revenue lines, approval, sending, credit and debit notes. */
module Invoicing {
  import opened Results
  import opened Money
  import opened Ledger
  import opened Tables
  import opened Tax
  import opened Exchange

  const APPROVAL_THRESHOLD := 50_000_000 // 5000.00

  // ---------------------------------------------------------------- specification

  /** Listed lines of the shipment; without a list, those not yet billed. */
  predicate Wanted(line: RevenueLine, id: nat, shipment: nat, ids: seq<nat>) {
    line.shipment == shipment && if ids != [] then id in ids else line.status.RevEstimated? || line.status.Quoted?
  }

  function Selected(revenues: seq<RevenueLine>, shipment: nat, ids: seq<nat>): (selected: seq<nat>)
    ensures forall r: nat :: r in selected <==> r < |revenues| && Wanted(revenues[r], r, shipment, ids)
    ensures forall i :: 0 <= i < |selected| ==> selected[i] < |revenues|
    ensures forall i, j :: 0 <= i < j < |selected| ==> selected[i] < selected[j]
  {
    if revenues == [] then [] else
    var n := |revenues| - 1;
    Selected(revenues[..n], shipment, ids) + if Wanted(revenues[n], n, shipment, ids) then [n] else []
  }

  function LineFor(round: int -> int, e: Evaluation, revenue: nat, amount: int): InvoiceLine {
    var tax := ComputeTax(e, amount);
    InvoiceLine(revenue, amount, tax, round(amount + tax))
  }

  /** What an invoice is made out under: tax, currency and the rate locked for it. */
  datatype Terms = Terms(tax: Evaluation, currency: string, rate: nat)

  /** Whether a revenue line is in another currency than the invoice, and there is a rate. */
  predicate Converts(line: RevenueLine, terms: Terms) {
    (if line.currency == "" then "USD" else line.currency) != terms.currency && terms.rate > 0
  }

  function AmountIn(round: int -> int, line: RevenueLine, terms: Terms): int {
    if Converts(line, terms) then Exchanged(round, line.amount, terms.rate) else line.amount
  }

  function LinesFor(round: int -> int, terms: Terms, revenues: seq<RevenueLine>, selected: seq<nat>): (lines: seq<InvoiceLine>)
    requires forall i :: 0 <= i < |selected| ==> selected[i] < |revenues|
    ensures |lines| == |selected|
    ensures forall i :: 0 <= i < |selected| ==>
              lines[i] == LineFor(round, terms.tax, selected[i], AmountIn(round, revenues[selected[i]], terms))
  {
    seq(|selected|, i requires 0 <= i < |selected| =>
      LineFor(round, terms.tax, selected[i], AmountIn(round, revenues[selected[i]], terms)))
  }

  function AmountSum(lines: seq<InvoiceLine>): int {
    if lines == [] then 0 else AmountSum(lines[..|lines| - 1]) + lines[|lines| - 1].amount
  }

  function TaxSum(lines: seq<InvoiceLine>): int {
    if lines == [] then 0 else TaxSum(lines[..|lines| - 1]) + lines[|lines| - 1].tax
  }

  function TotalSum(lines: seq<InvoiceLine>): int {
    if lines == [] then 0 else TotalSum(lines[..|lines| - 1]) + lines[|lines| - 1].total
  }

  function MarkInvoiced(revenues: seq<RevenueLine>, selected: seq<nat>): (after: seq<RevenueLine>)
    ensures |after| == |revenues|
    ensures forall r :: 0 <= r < |revenues| ==>
              after[r] == if r in selected then revenues[r].(status := Invoiced) else revenues[r]
  {
    seq(|revenues|, r requires 0 <= r < |revenues| => if r in selected then revenues[r].(status := Invoiced) else revenues[r])
  }

  function NewInvoice(round: int -> int, shipment: nat, actor: nat, currency: string, lines: seq<InvoiceLine>): Invoice {
    var total := round(AmountSum(lines) + TaxSum(lines));
    var automatic := total <= APPROVAL_THRESHOLD;
    Invoice(shipment, currency, lines, AmountSum(lines), TaxSum(lines), total,
            if automatic then InvoiceApproved else PendingApproval, automatic, if automatic then Some(actor) else None)
  }

  predicate AnyInvoiced(revenues: seq<RevenueLine>, selected: seq<nat>)
    requires forall i :: 0 <= i < |selected| ==> selected[i] < |revenues|
  {
    exists i :: 0 <= i < |selected| && revenues[selected[i]].status.Invoiced?
  }

  function GenerateInvoice(round: int -> int, b: Books, shipment: nat, actor: nat, terms: Terms, ids: seq<nat>): Outcome<Books> {
    var selected := Selected(b.revenues, shipment, ids);
    if shipment !in b.shipments then Refused("Shipment not found")
    else if selected == [] then Refused("No eligible revenue lines")
    else if AnyInvoiced(b.revenues, selected) then Refused("Already invoiced")
    else
      Done(Issued(b, NewInvoice(round, shipment, actor, terms.currency, LinesFor(round, terms, b.revenues, selected)), selected))
  }

  /** No jurisdiction given means the untaxed one. */
  function Agreed(currency: string, onFile: Option<nat>, jurisdiction: Option<string>): Terms {
    var tax := Evaluate(Some(if jurisdiction.None? || jurisdiction.value == "" then "NONE" else jurisdiction.value), false);
    Terms(tax, currency, LockedRate(currency, onFile))
  }

  /** The books once an invoice for the selected lines is entered. */
  function Issued(b: Books, invoice: Invoice, selected: seq<nat>): Books {
    b.(invoices := b.invoices + [invoice], revenues := MarkInvoiced(b.revenues, selected),
       entries := b.entries + [Posting(invoice.shipment, InvoiceReceivable, invoice.total, 0, invoice.currency)])
  }

  function ApproveInvoice(b: Books, id: nat, actor: nat): Outcome<Books> {
    if id >= |b.invoices| then Refused("Invoice not found") else
    var invoice := b.invoices[id];
    if invoice.status.InvoiceApproved? then Done(b)
    else if !invoice.status.PendingApproval? then Refused("Cannot approve")
    else Done(b.(invoices := b.invoices[id := invoice.(status := InvoiceApproved, approved := true, approvedBy := Some(actor))]))
  }

  /** `reachable`: a recipient address was given or is on file. */
  function SendInvoice(b: Books, id: nat, reachable: bool): Outcome<Books> {
    if id >= |b.invoices| then Refused("Invoice not found")
    else if !b.invoices[id].status.InvoiceApproved? && !b.invoices[id].status.Sent? then Refused("Must be APPROVED")
    else if !reachable then Refused("Recipient email is required")
    else Done(b.(invoices := b.invoices[id := b.invoices[id].(status := Sent)]))
  }

  /** Notes issued against one invoice. */
  function NoteSum(notes: seq<Note>, invoice: nat): int {
    if notes == [] then 0 else
    NoteSum(notes[..|notes| - 1], invoice) + if notes[|notes| - 1].invoice == invoice then notes[|notes| - 1].amount else 0
  }

  function CreditedBooks(round: int -> int, b: Books, id: nat, amount: int, money: string): Books
    requires id < |b.invoices|
  {
    var invoice := b.invoices[id];
    var full := round(NoteSum(b.credits, id) + amount) >= invoice.total;
    b.(invoices := if full then b.invoices[id := invoice.(status := Credited)] else b.invoices,
       entries := b.entries + [Posting(invoice.shipment, CreditNote, 0, amount, money)],
       credits := b.credits + [Note(id, amount, money, |b.entries|)])
  }

  function CreateCreditNote(round: int -> int, b: Books, id: nat, amount: int, reason: string, currency: Option<string>): Outcome<Books> {
    if amount <= 0 then Refused("Credit note amount must be positive")
    else if |reason| < 3 then Refused("Credit note reason is required")
    else if id >= |b.invoices| then Refused("Invoice not found")
    else
      var remaining := round(b.invoices[id].total - NoteSum(b.credits, id));
      if remaining <= 0 then Refused("Already fully credited")
      else if amount > remaining then Refused("Exceeds remaining creditable amount")
      else Done(CreditedBooks(round, b, id, amount, OrElse(currency, b.invoices[id].currency)))
  }

  function DebitedBooks(b: Books, id: nat, amount: int, money: string): Books
    requires id < |b.invoices|
  {
    b.(entries := b.entries + [Posting(b.invoices[id].shipment, DebitNote, amount, 0, money)],
       debits := b.debits + [Note(id, amount, money, |b.entries|)])
  }

  function CreateDebitNote(b: Books, id: nat, code: string, amount: int, reason: string, currency: Option<string>): Outcome<Books> {
    if amount <= 0 then Refused("Debit note amount must be positive")
    else if code == "" then Refused("Charge code is required")
    else if |reason| < 3 then Refused("Debit note reason is required")
    else if id >= |b.invoices| then Refused("Invoice not found")
    else
      Done(DebitedBooks(b, id, amount, OrElse(currency, b.invoices[id].currency)))
  }

  lemma SumsSnoc(lines: seq<InvoiceLine>, n: nat)
    requires n < |lines|
    ensures AmountSum(lines[..n + 1]) == AmountSum(lines[..n]) + lines[n].amount
    ensures TaxSum(lines[..n + 1]) == TaxSum(lines[..n]) + lines[n].tax
  {
    assert lines[..n + 1][..n] == lines[..n];
  }

  // ---------------------------------------------------------------- the service

  class InvoiceService {
    const session: Session
    const round: int -> int

    constructor (session: Session, round: int -> int)
      ensures this.session == session && this.round == round
    {
      this.session, this.round := session, round;
    }

    /** Prices the selected lines one after another. */
    method BuildLines(terms: Terms, selected: seq<nat>) returns (lines: seq<InvoiceLine>, subtotal: int, tax: int)
      requires forall i :: 0 <= i < |selected| ==> selected[i] < |session.revenues|
      ensures lines == LinesFor(round, terms, session.revenues, selected)
      ensures subtotal == AmountSum(lines) && tax == TaxSum(lines)
    {
      lines, subtotal, tax := [], 0, 0;
      ghost var priced := LinesFor(round, terms, session.revenues, selected);
      for n := 0 to |selected|
        invariant lines == priced[..n]
        invariant subtotal == AmountSum(priced[..n]) && tax == TaxSum(priced[..n])
      {
        var line := BuildLine(terms, selected[n]);
        assert line == priced[n];
        SumsSnoc(priced, n);
        lines := lines + [line];
        subtotal, tax := subtotal + line.amount, tax + line.tax;
      }
    }

    /** Converts one revenue line if its currency asks for it, and adds its tax. */
    method BuildLine(terms: Terms, r: nat) returns (invoiced: InvoiceLine)
      requires r < |session.revenues|
      ensures invoiced == LineFor(round, terms.tax, r, AmountIn(round, session.revenues[r], terms))
    {
      var line := session.revenues[r];
      var amount := line.amount;
      if (if line.currency == "" then "USD" else line.currency) != terms.currency && terms.rate > 0 {
        amount := Exchanged(round, line.amount, terms.rate);
      }
      var lineTax := ComputeTax(terms.tax, amount);
      invoiced := InvoiceLine(r, amount, lineTax, round(amount + lineTax));
    }

    method SetInvoiced(selected: seq<nat>)
      requires forall i :: 0 <= i < |selected| ==> selected[i] < |session.revenues|
      modifies session`revenues
      ensures session.revenues == MarkInvoiced(old(session.revenues), selected)
    {
      ghost var before := session.revenues;
      for n := 0 to |selected|
        invariant session.revenues == MarkInvoiced(before, selected[..n])
      {
        var r := selected[n];
        assert r in selected && selected[..n + 1] == selected[..n] + [r];
        session.revenues := session.revenues[r := session.revenues[r].(status := Invoiced)];
      }
      assert selected[..|selected|] == selected;
    }

    method Price(shipment: nat, actor: nat, terms: Terms, selected: seq<nat>) returns (invoice: Invoice)
      requires forall i :: 0 <= i < |selected| ==> selected[i] < |session.revenues|
      ensures invoice == NewInvoice(round, shipment, actor, terms.currency, LinesFor(round, terms, session.revenues, selected))
    {
      var lines, subtotal, tax := BuildLines(terms, selected);
      var total := round(subtotal + tax);
      var status, approved, approvedBy := PendingApproval, false, None;
      if total <= APPROVAL_THRESHOLD {
        status, approved, approvedBy := InvoiceApproved, true, Some(actor);
      }
      invoice := Invoice(shipment, terms.currency, lines, subtotal, tax, total, status, approved, approvedBy);
    }

    method Issue(invoice: Invoice, selected: seq<nat>)
      requires forall i :: 0 <= i < |selected| ==> selected[i] < |session.revenues|
      modifies session
      ensures session.Rows() == Issued(old(session.Rows()), invoice, selected)
    {
      session.invoices := session.invoices + [invoice];
      SetInvoiced(selected);
      session.entries := session.entries + [Posting(invoice.shipment, InvoiceReceivable, invoice.total, 0, invoice.currency)];
    }

    method Generate(shipment: nat, actor: nat, currency: string, onFile: Option<nat>, jurisdiction: Option<string>, ids: seq<nat>)
      returns (r: Outcome<nat>)
      modifies session
      ensures match GenerateInvoice(round, old(session.Rows()), shipment, actor, Agreed(currency, onFile, jurisdiction), ids)
              case Done(after) => session.Rows() == after && r == Done(|after.invoices| - 1)
              case Refused(reason) => session.Rows() == old(session.Rows()) && r == Refused(reason)
    {
      r := GenerateUnder(shipment, actor, Agreed(currency, onFile, jurisdiction), ids);
    }

    method GenerateUnder(shipment: nat, actor: nat, terms: Terms, ids: seq<nat>) returns (r: Outcome<nat>)
      modifies session
      ensures match GenerateInvoice(round, old(session.Rows()), shipment, actor, terms, ids)
              case Done(after) => session.Rows() == after && r == Done(|after.invoices| - 1)
              case Refused(reason) => session.Rows() == old(session.Rows()) && r == Refused(reason)
    {
      if shipment !in session.shipments {
        return Refused("Shipment not found");
      }
      var selected := Selected(session.revenues, shipment, ids);
      if selected == [] {
        return Refused("No eligible revenue lines");
      }
      if AnyInvoiced(session.revenues, selected) {
        return Refused("Already invoiced");
      }
      var invoice := Price(shipment, actor, terms, selected);
      Issue(invoice, selected);
      r := Done(|session.invoices| - 1);
    }

    method Approve(id: nat, actor: nat) returns (r: Outcome<()>)
      modifies session
      ensures match ApproveInvoice(old(session.Rows()), id, actor)
              case Done(after) => session.Rows() == after && r.Done?
              case Refused(reason) => session.Rows() == old(session.Rows()) && r == Refused(reason)
    {
      if id >= |session.invoices| {
        return Refused("Invoice not found");
      }
      if session.invoices[id].status == InvoiceApproved {
        return Done(());
      }
      if session.invoices[id].status != PendingApproval {
        return Refused("Cannot approve");
      }
      session.invoices := session.invoices[id := session.invoices[id].(
        status := InvoiceApproved, approved := true, approvedBy := Some(actor))];
      r := Done(());
    }

    method Send(id: nat, reachable: bool) returns (r: Outcome<()>)
      modifies session
      ensures match SendInvoice(old(session.Rows()), id, reachable)
              case Done(after) => session.Rows() == after && r.Done?
              case Refused(reason) => session.Rows() == old(session.Rows()) && r == Refused(reason)
    {
      if id >= |session.invoices| {
        return Refused("Invoice not found");
      }
      if session.invoices[id].status != InvoiceApproved && session.invoices[id].status != Sent {
        return Refused("Must be APPROVED");
      }
      if !reachable {
        return Refused("Recipient email is required");
      }
      session.invoices := session.invoices[id := session.invoices[id].(status := Sent)];
      r := Done(());
    }

    method Credit(id: nat, amount: int, reason: string, currency: Option<string>) returns (r: Outcome<nat>)
      modifies session
      ensures match CreateCreditNote(round, old(session.Rows()), id, amount, reason, currency)
              case Done(after) => session.Rows() == after && r == Done(|after.credits| - 1)
              case Refused(why) => session.Rows() == old(session.Rows()) && r == Refused(why)
    {
      if amount <= 0 {
        return Refused("Credit note amount must be positive");
      }
      if |reason| < 3 {
        return Refused("Credit note reason is required");
      }
      if id >= |session.invoices| {
        return Refused("Invoice not found");
      }
      var total, existing := session.invoices[id].total, NoteSum(session.credits, id);
      var remaining := round(total - existing);
      if remaining <= 0 {
        return Refused("Already fully credited");
      }
      if amount > remaining {
        return Refused("Exceeds remaining creditable amount");
      }
      EnterCredit(id, amount, OrElse(currency, session.invoices[id].currency));
      r := Done(|session.credits| - 1);
    }

    method EnterCredit(id: nat, amount: int, money: string)
      requires id < |session.invoices|
      modifies session
      ensures session.Rows() == CreditedBooks(round, old(session.Rows()), id, amount, money)
    {
      if round(NoteSum(session.credits, id) + amount) >= session.invoices[id].total {
        session.invoices := session.invoices[id := session.invoices[id].(status := Credited)];
      }
      session.entries := session.entries + [Posting(session.invoices[id].shipment, CreditNote, 0, amount, money)];
      session.credits := session.credits + [Note(id, amount, money, |session.entries| - 1)];
    }

    method Debit(id: nat, code: string, amount: int, reason: string, currency: Option<string>) returns (r: Outcome<nat>)
      modifies session
      ensures match CreateDebitNote(old(session.Rows()), id, code, amount, reason, currency)
              case Done(after) => session.Rows() == after && r == Done(|after.debits| - 1)
              case Refused(why) => session.Rows() == old(session.Rows()) && r == Refused(why)
    {
      if amount <= 0 {
        return Refused("Debit note amount must be positive");
      }
      if code == "" {
        return Refused("Charge code is required");
      }
      if |reason| < 3 {
        return Refused("Debit note reason is required");
      }
      if id >= |session.invoices| {
        return Refused("Invoice not found");
      }
      var money := OrElse(currency, session.invoices[id].currency);
      session.entries := session.entries + [Posting(session.invoices[id].shipment, DebitNote, amount, 0, money)];
      session.debits := session.debits + [Note(id, amount, money, |session.entries| - 1)];
      r := Done(|session.debits| - 1);
    }
  }

  // ---------------------------------------------------------------- invoice arithmetic

  ghost predicate PricedLines(round: int -> int, e: Evaluation, lines: seq<InvoiceLine>) {
    forall i :: 0 <= i < |lines| ==> lines[i] == LineFor(round, e, lines[i].revenue, lines[i].amount)
  }

  /** Summed per-line tax strays at most half a cent per line from rate times subtotal. */
  lemma {:induction false} TaxDrift(round: int -> int, e: Evaluation, lines: seq<InvoiceLine>)
    requires PricedLines(round, e, lines)
    ensures -500_000 * |lines| <= 10_000 * TaxSum(lines) - EffectiveRate(e) * AmountSum(lines) <= 500_000 * |lines|
    ensures WholeCents(TaxSum(lines))
    decreases |lines|
  {
    if lines != [] {
      var n := |lines| - 1;
      TaxDrift(round, e, lines[..n]);
      TaxIsNear(e, lines[n].amount);
      WholeCentsAdd(TaxSum(lines[..n]), lines[n].tax);
      Distribute(EffectiveRate(e), AmountSum(lines[..n]), lines[n].amount);
    }
  }

  lemma Distribute(r: int, a: int, b: int)
    ensures r * (a + b) == r * a + r * b
  {
  }

  /** Rounding each line and then the total strays at most half a cent per line, and nothing in whole cents. */
  lemma {:induction false} LineTotalsDrift(round: int -> int, e: Evaluation, lines: seq<InvoiceLine>)
    requires Rounds(round) && PricedLines(round, e, lines)
    ensures -HALF_CENT * |lines| <= TotalSum(lines) - (AmountSum(lines) + TaxSum(lines)) <= HALF_CENT * |lines|
    ensures (forall i :: 0 <= i < |lines| ==> WholeCents(lines[i].amount)) ==>
              TotalSum(lines) == AmountSum(lines) + TaxSum(lines) && WholeCents(TotalSum(lines))
    decreases |lines|
  {
    if lines != [] {
      var n := |lines| - 1;
      LineTotalsDrift(round, e, lines[..n]);
      var line := lines[n];
      Near(round, line.amount + line.tax);
      TaxIsNear(e, line.amount);
      if WholeCents(line.amount) {
        WholeCentsAdd(line.amount, line.tax);
        RoundFixesWholeCents(round, line.amount + line.tax);
        if forall i :: 0 <= i < |lines| ==> WholeCents(lines[i].amount) {
          WholeCentsAdd(TotalSum(lines[..n]), line.total);
        }
      }
    }
  }

  /**
   An n-line invoice's total equals the sum of its line totals in whole cents, and is within n + 1
   half-cents of it otherwise.
   */
  lemma InvoiceTotalMatchesLines(round: int -> int, e: Evaluation, shipment: nat, actor: nat, currency: string, lines: seq<InvoiceLine>)
    requires Rounds(round) && PricedLines(round, e, lines)
    ensures var drift := NewInvoice(round, shipment, actor, currency, lines).total - TotalSum(lines);
            && -HALF_CENT * (|lines| + 1) <= drift <= HALF_CENT * (|lines| + 1)
            && ((forall i :: 0 <= i < |lines| ==> WholeCents(lines[i].amount)) ==> drift == 0)
  {
    LineTotalsDrift(round, e, lines);
    Near(round, AmountSum(lines) + TaxSum(lines));
    if forall i :: 0 <= i < |lines| ==> WholeCents(lines[i].amount) {
      RoundFixesWholeCents(round, TotalSum(lines));
    }
  }

  /** What one unit of a revenue line is worth in the invoice's currency, in 10^-8: the rate on file, or one. */
  function RateFor(line: RevenueLine, currency: string, onFile: Option<nat>): nat {
    var own := if line.currency == "" then "USD" else line.currency;
    if own == currency || currency == "USD" || onFile == None || onFile == Some(0) then 100_000_000 else onFile.value
  }

  function Worth(revenues: seq<RevenueLine>, selected: seq<nat>, currency: string, onFile: Option<nat>): int
    requires forall i :: 0 <= i < |selected| ==> selected[i] < |revenues|
  {
    if selected == [] then 0 else
    var last := revenues[selected[|selected| - 1]];
    Worth(revenues, selected[..|selected| - 1], currency, onFile) + last.amount * RateFor(last, currency, onFile)
  }

  lemma AmountIsNear(round: int -> int, line: RevenueLine, currency: string, onFile: Option<nat>, jurisdiction: Option<string>)
    requires Rounds(round)
    ensures -5_000_000_000
            <= 100_000_000 * AmountIn(round, line, Agreed(currency, onFile, jurisdiction)) - line.amount * RateFor(line, currency, onFile)
            <= 5_000_000_000
    ensures (if line.currency == "" then "USD" else line.currency) == currency ==>
              AmountIn(round, line, Agreed(currency, onFile, jurisdiction)) == line.amount
  {
    ExchangedIsNear(round, line.amount, LockedRate(currency, onFile));
  }

  /** An invoice's subtotal strays at most half a cent per line from what its revenue lines are worth in its currency. */
  lemma {:induction false} SubtotalDrift(round: int -> int, currency: string, onFile: Option<nat>, jurisdiction: Option<string>,
                                         revenues: seq<RevenueLine>, selected: seq<nat>)
    requires Rounds(round) && forall i :: 0 <= i < |selected| ==> selected[i] < |revenues|
    ensures var subtotal := AmountSum(LinesFor(round, Agreed(currency, onFile, jurisdiction), revenues, selected));
            -5_000_000_000 * |selected| <= 100_000_000 * subtotal - Worth(revenues, selected, currency, onFile) <= 5_000_000_000 * |selected|
    decreases |selected|
  {
    if selected != [] {
      var n, terms := |selected| - 1, Agreed(currency, onFile, jurisdiction);
      var lines := LinesFor(round, terms, revenues, selected);
      var last := revenues[selected[n]];
      SubtotalDrift(round, currency, onFile, jurisdiction, revenues, selected[..n]);
      assert lines[..n] == LinesFor(round, terms, revenues, selected[..n]) && lines[..n + 1] == lines;
      SumsSnoc(lines, n);
      AmountIsNear(round, last, currency, onFile, jurisdiction);
      OneMoreNear(AmountSum(lines[..n]), Worth(revenues, selected[..n], currency, onFile), lines[n].amount,
                  last.amount * RateFor(last, currency, onFile), n);
    }
  }

  lemma OneMoreNear(sum: int, worth: int, amount: int, more: int, n: nat)
    requires -5_000_000_000 * n <= 100_000_000 * sum - worth <= 5_000_000_000 * n
    requires -5_000_000_000 <= 100_000_000 * amount - more <= 5_000_000_000
    ensures -5_000_000_000 * (n + 1) <= 100_000_000 * (sum + amount) - (worth + more) <= 5_000_000_000 * (n + 1)
  {
  }

  lemma {:induction false} Untaxed(round: int -> int, e: Evaluation, lines: seq<InvoiceLine>)
    requires PricedLines(round, e, lines) && EffectiveRate(e) == 0
    ensures TaxSum(lines) == 0
    decreases |lines|
  {
    if lines != [] {
      Untaxed(round, e, lines[..|lines| - 1]);
    }
  }

  /**
   An invoice's amounts: the sums of its lines; the total their nearest cent and near the line totals; the tax
   16, 15 or 5 percent of the subtotal for PK, SA and AE, within half a cent per line, and nothing elsewhere;
   the subtotal near what its revenue lines are worth.
   */
  ghost predicate Priced(invoice: Invoice, jurisdiction: Option<string>, worth: int) {
    var n, percent := |invoice.lines|, Percent(jurisdiction);
    && invoice.subtotal == AmountSum(invoice.lines) && invoice.tax == TaxSum(invoice.lines)
    && NearestCent(invoice.subtotal + invoice.tax, invoice.total)
    && -50 * (n + 1) <= invoice.total - TotalSum(invoice.lines) <= 50 * (n + 1)
    && -5_000 * n <= 100 * invoice.tax - percent * invoice.subtotal <= 5_000 * n && (percent == 0 ==> invoice.tax == 0)
    && -5_000_000_000 * n <= 100_000_000 * invoice.subtotal - worth <= 5_000_000_000 * n
  }

  lemma NewInvoiceIsPriced(round: int -> int, shipment: nat, actor: nat, currency: string, onFile: Option<nat>, jurisdiction: Option<string>,
                           revenues: seq<RevenueLine>, selected: seq<nat>)
    requires Rounds(round) && forall i :: 0 <= i < |selected| ==> selected[i] < |revenues|
    ensures var terms := Agreed(currency, onFile, jurisdiction);
            Priced(NewInvoice(round, shipment, actor, currency, LinesFor(round, terms, revenues, selected)), jurisdiction,
                   Worth(revenues, selected, currency, onFile))
  {
    var terms := Agreed(currency, onFile, jurisdiction);
    var lines := LinesFor(round, terms, revenues, selected);
    InvoiceTotalMatchesLines(round, terms.tax, shipment, actor, currency, lines);
    AgreedTax(round, currency, onFile, jurisdiction, lines);
    SubtotalDrift(round, currency, onFile, jurisdiction, revenues, selected);
    Near(round, AmountSum(lines) + TaxSum(lines));
  }

  lemma AgreedTax(round: int -> int, currency: string, onFile: Option<nat>, jurisdiction: Option<string>, lines: seq<InvoiceLine>)
    requires PricedLines(round, Agreed(currency, onFile, jurisdiction).tax, lines)
    ensures var percent := Percent(jurisdiction);
            && -5_000 * |lines| <= 100 * TaxSum(lines) - percent * AmountSum(lines) <= 5_000 * |lines|
            && (percent == 0 ==> TaxSum(lines) == 0)
  {
    var e, percent := Agreed(currency, onFile, jurisdiction).tax, Percent(jurisdiction);
    AgreedRate(currency, onFile, jurisdiction);
    TaxDrift(round, e, lines);
    Hundredth(100 * TaxSum(lines), percent, AmountSum(lines), 5_000 * |lines|);
    if percent == 0 {
      Untaxed(round, e, lines);
    }
  }

  lemma AgreedRate(currency: string, onFile: Option<nat>, jurisdiction: Option<string>)
    ensures EffectiveRate(Agreed(currency, onFile, jurisdiction).tax) == 100 * Percent(jurisdiction)
  {
    EvaluatedExactly(Some(if jurisdiction.None? || jurisdiction.value == "" then "NONE" else jurisdiction.value));
    assert |"NONE"| == 4 && |"PK"| == |"SA"| == |"AE"| == 2;
  }

  lemma Hundredth(x: int, p: int, y: int, slack: int)
    requires -100 * slack <= 100 * x - (100 * p) * y <= 100 * slack
    ensures -slack <= x - p * y <= slack
  {
    assert (100 * p) * y == 100 * (p * y);
  }

  // ---------------------------------------------------------------- what each operation does

  /** A listed line of the shipment; without a list, one that is ESTIMATED or QUOTED. */
  ghost predicate Eligible(line: RevenueLine, r: nat, shipment: nat, ids: seq<nat>) {
    line.shipment == shipment && if ids == [] then line.status == RevEstimated || line.status == Quoted else r in ids
  }

  /** An invoice is accepted exactly on a known shipment with some eligible line and none of them INVOICED. */
  lemma InvoiceAcceptedExactly(round: int -> int, b: Books, shipment: nat, actor: nat, terms: Terms, ids: seq<nat>)
    ensures GenerateInvoice(round, b, shipment, actor, terms, ids).Done? <==>
            && shipment in b.shipments
            && (exists r: nat :: r < |b.revenues| && Eligible(b.revenues[r], r, shipment, ids))
            && (forall r: nat :: r < |b.revenues| && Eligible(b.revenues[r], r, shipment, ids) ==> !b.revenues[r].status.Invoiced?)
  {
    var selected := Selected(b.revenues, shipment, ids);
    SelectsEligible(b.revenues, shipment, ids);
    if selected != [] {
      assert selected[0] in selected;
    }
    forall r: nat | r < |b.revenues| && Eligible(b.revenues[r], r, shipment, ids) ensures exists i :: 0 <= i < |selected| && selected[i] == r {
      assert r in selected;
    }
    assert forall i :: 0 <= i < |selected| ==> selected[i] in selected;
  }

  lemma SelectsEligible(revenues: seq<RevenueLine>, shipment: nat, ids: seq<nat>)
    ensures forall r: nat :: r in Selected(revenues, shipment, ids) <==> r < |revenues| && Eligible(revenues[r], r, shipment, ids)
  {
    assert forall r: nat :: r < |revenues| ==> (Wanted(revenues[r], r, shipment, ids) <==> Eligible(revenues[r], r, shipment, ids));
  }

  /** The invoice bills each eligible line once, in table order, and no other. */
  ghost predicate BillsEligible(invoice: Invoice, revenues: seq<RevenueLine>, shipment: nat, ids: seq<nat>) {
    && (forall i, j :: 0 <= i < j < |invoice.lines| ==> invoice.lines[i].revenue < invoice.lines[j].revenue)
    && (forall i :: 0 <= i < |invoice.lines| ==>
          var r := invoice.lines[i].revenue; r < |revenues| && Eligible(revenues[r], r, shipment, ids))
    && (forall r: nat :: r < |revenues| && Eligible(revenues[r], r, shipment, ids) ==>
          exists i :: 0 <= i < |invoice.lines| && invoice.lines[i].revenue == r)
  }

  /** Exactly the eligible lines become INVOICED. */
  ghost predicate MarksEligible(revenues: seq<RevenueLine>, after: seq<RevenueLine>, shipment: nat, ids: seq<nat>) {
    && |after| == |revenues|
    && forall r: nat :: r < |revenues| ==>
         after[r] == if Eligible(revenues[r], r, shipment, ids) then revenues[r].(status := Invoiced) else revenues[r]
  }

  /** What an accepted invoice leaves: the invoice with its eligible lines, approved up to 5000.00 by the actor, and its receivable entry. */
  ghost predicate InvoicedBy(b: Books, after: Books, shipment: nat, actor: nat, currency: string, ids: seq<nat>)
    requires |after.invoices| > 0
  {
    var invoice := after.invoices[|after.invoices| - 1];
    && after == b.(invoices := b.invoices + [invoice], revenues := after.revenues, entries := after.entries)
    && invoice.shipment == shipment && invoice.currency == currency && BillsEligible(invoice, b.revenues, shipment, ids)
    && (if invoice.total <= 50_000_000
        then invoice.status == InvoiceApproved && invoice.approved && invoice.approvedBy == Some(actor)
        else invoice.status == PendingApproval && !invoice.approved && invoice.approvedBy == None)
    && MarksEligible(b.revenues, after.revenues, shipment, ids)
    && after.entries == b.entries + [Entry(shipment, InvoiceReceivable, invoice.total, 0, currency, None, Posted)]
  }

  lemma InvoicedExactly(round: int -> int, b: Books, shipment: nat, actor: nat, terms: Terms, ids: seq<nat>)
    ensures var outcome := GenerateInvoice(round, b, shipment, actor, terms, ids);
            outcome.Done? ==> |outcome.value.invoices| > 0 && InvoicedBy(b, outcome.value, shipment, actor, terms.currency, ids)
  {
    if GenerateInvoice(round, b, shipment, actor, terms, ids).Done? {
      var selected := Selected(b.revenues, shipment, ids);
      var invoice := NewInvoice(round, shipment, actor, terms.currency, LinesFor(round, terms, b.revenues, selected));
      SelectsEligible(b.revenues, shipment, ids);
      SelectedIsBilled(b.revenues, shipment, ids, invoice, selected);
    }
  }

  lemma SelectedIsBilled(revenues: seq<RevenueLine>, shipment: nat, ids: seq<nat>, invoice: Invoice, selected: seq<nat>)
    requires selected == Selected(revenues, shipment, ids) && |invoice.lines| == |selected|
    requires forall i :: 0 <= i < |selected| ==> invoice.lines[i].revenue == selected[i]
    ensures BillsEligible(invoice, revenues, shipment, ids)
  {
    SelectsEligible(revenues, shipment, ids);
    assert forall i :: 0 <= i < |selected| ==> selected[i] in selected;
    forall r: nat | r < |revenues| && Eligible(revenues[r], r, shipment, ids)
      ensures exists i :: 0 <= i < |invoice.lines| && invoice.lines[i].revenue == r
    {
      assert r in selected;
      var i :| 0 <= i < |selected| && selected[i] == r;
      assert invoice.lines[i].revenue == r;
    }
  }

  /** Every accepted invoice is priced from the request: its jurisdiction, its currency and the rate on file. */
  lemma GeneratedLinesArePriced(round: int -> int, b: Books, shipment: nat, actor: nat, currency: string, onFile: Option<nat>,
                                jurisdiction: Option<string>, ids: seq<nat>)
    requires Rounds(round)
    ensures var outcome := GenerateInvoice(round, b, shipment, actor, Agreed(currency, onFile, jurisdiction), ids);
            outcome.Done? ==>
              && |outcome.value.invoices| == |b.invoices| + 1
              && Priced(outcome.value.invoices[|b.invoices|], jurisdiction,
                        Worth(b.revenues, Selected(b.revenues, shipment, ids), currency, onFile))
  {
    NewInvoiceIsPriced(round, shipment, actor, currency, onFile, jurisdiction, b.revenues, Selected(b.revenues, shipment, ids));
  }

  /** Approval leaves an APPROVED invoice alone and approves a pending one; sending takes an APPROVED or SENT one with a recipient. */
  lemma ApprovedAndSentExactly(b: Books, id: nat, actor: nat, reachable: bool)
    ensures var outcome := ApproveInvoice(b, id, actor);
            && (outcome.Done? <==> id < |b.invoices| && (b.invoices[id].status == PendingApproval || b.invoices[id].status == InvoiceApproved))
            && (outcome.Done? ==>
                  outcome.value == if b.invoices[id].status == InvoiceApproved then b
                                   else b.(invoices := b.invoices[id := b.invoices[id].(
                                          status := InvoiceApproved, approved := true, approvedBy := Some(actor))]))
    ensures var outcome := SendInvoice(b, id, reachable);
            && (outcome.Done? <==>
                  id < |b.invoices| && (b.invoices[id].status == InvoiceApproved || b.invoices[id].status == Sent) && reachable)
            && (outcome.Done? ==> outcome.value == b.(invoices := b.invoices[id := b.invoices[id].(status := Sent)]))
  {
  }

  /** An accepted credit note is entered against the customer in the currency given, or else the invoice's. */
  lemma CreditedExactly(round: int -> int, b: Books, id: nat, amount: int, reason: string, currency: Option<string>)
    requires id < |b.invoices|
    ensures var outcome := CreateCreditNote(round, b, id, amount, reason, currency);
            outcome.Done? ==>
              var invoice := b.invoices[id];
              var money := if currency.None? || currency.value == "" then invoice.currency else currency.value;
              var full := round(NoteSum(b.credits, id) + amount) >= invoice.total;
              outcome.value == b.(
                invoices := b.invoices[id := if full then invoice.(status := Credited) else invoice],
                entries := b.entries + [Entry(invoice.shipment, CreditNote, 0, amount, money, None, Posted)],
                credits := b.credits + [Note(id, amount, money, |b.entries|)])
  {
  }

  /** A debit note is accepted exactly of a positive amount with a code and a reason; it is entered as owed by the customer. */
  lemma DebitedExactly(b: Books, id: nat, code: string, amount: int, reason: string, currency: Option<string>)
    ensures var outcome := CreateDebitNote(b, id, code, amount, reason, currency);
            && (outcome.Done? <==> amount > 0 && code != "" && |reason| >= 3 && id < |b.invoices|)
            && (outcome.Done? ==>
                  var invoice := b.invoices[id];
                  var money := if currency.None? || currency.value == "" then invoice.currency else currency.value;
                  outcome.value == b.(
                    entries := b.entries + [Entry(invoice.shipment, DebitNote, amount, 0, money, None, Posted)],
                    debits := b.debits + [Note(id, amount, money, |b.entries|)]))
  {
  }
}
