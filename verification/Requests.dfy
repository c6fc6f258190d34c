/** What an accepted request of the money services leaves, said of the operation of a run and its own arguments. */
module Requests {
  import opened Results
  import opened Money
  import opened Tables
  import opened Payables
  import opened Invoicing
  import opened Engine

  /** An accepted bill, from the amounts, the tax and the currency asked for. */
  lemma AcceptedBill(round: int -> int, b: Books, op: PayableOp)
    requires Rounds(round) && op.RecordBill? && Apply(round, b, AP(op)).Done?
    ensures var after := Apply(round, b, AP(op)).value;
            |after.bills| > 0 && RecordedBy(b, after, op.shipment, op.number, op.currency, op.tax, op.lines)
  {
    RecordedExactly(round, b, op.shipment, op.number, op.currency, op.tax, op.lines);
  }

  /** An accepted invoice, from the jurisdiction, the currency, the rate on file and the lines asked for. */
  lemma AcceptedInvoice(round: int -> int, b: Books, op: InvoiceOp)
    requires Rounds(round) && op.MakeInvoice? && Apply(round, b, AR(op)).Done?
    ensures var after := Apply(round, b, AR(op)).value;
            && |after.invoices| > 0 && InvoicedBy(b, after, op.shipment, op.actor, op.currency, op.ids)
            && Invoicing.Priced(after.invoices[|after.invoices| - 1], op.jurisdiction,
                                Worth(b.revenues, Selected(b.revenues, op.shipment, op.ids), op.currency, op.onFile))
  {
    var terms := Agreed(op.currency, op.onFile, op.jurisdiction);
    InvoicedExactly(round, b, op.shipment, op.actor, terms, op.ids);
    GeneratedLinesArePriced(round, b, op.shipment, op.actor, op.currency, op.onFile, op.jurisdiction, op.ids);
  }

  /** Its tax: 16, 15 or 5 percent of the subtotal for PK, SA and AE, within half a cent per line, and nothing elsewhere. */
  lemma TaxByJurisdiction(round: int -> int, b: Books, op: InvoiceOp)
    requires Rounds(round) && op.MakeInvoice? && Apply(round, b, AR(op)).Done?
    ensures var invoice := Apply(round, b, AR(op)).value.invoices[|b.invoices|];
            var slack := 5_000 * |invoice.lines|;
            if op.jurisdiction == Some("PK") then -slack <= 100 * invoice.tax - 16 * invoice.subtotal <= slack
            else if op.jurisdiction == Some("SA") then -slack <= 100 * invoice.tax - 15 * invoice.subtotal <= slack
            else if op.jurisdiction == Some("AE") then -slack <= 100 * invoice.tax - 5 * invoice.subtotal <= slack
            else invoice.tax == 0
  {
    AcceptedInvoice(round, b, op);
  }
}
