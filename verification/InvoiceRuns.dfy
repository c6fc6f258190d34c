/** What can still be credited on an invoice, over runs. */
module InvoiceRuns {
  import opened Results
  import opened Money
  import opened Ledger
  import opened Tables
  import opened Tax
  import opened Invoicing
  import opened Receivables
  import opened Engine

  function Creditable(b: Books, id: nat): int
    requires id < |b.invoices|
  {
    b.invoices[id].total - NoteSum(b.credits, id)
  }

  lemma CreditLimit(round: int -> int, b: Books, id: nat)
    requires Rounds(round) && id < |b.invoices| && InvoiceOk(round, b.invoices, b.credits, id)
    ensures var rest := Creditable(b, id);
            && (round(rest) > 0 <==> rest > HALF_CENT || (rest == HALF_CENT && round(HALF_CENT) > 0))
            && (b.invoices[id].status.Credited? ==> rest <= HALF_CENT)
            && (!b.invoices[id].status.Credited? && b.invoices[id].total > 0 ==> rest >= HALF_CENT)
  {
    var rest, sum, total := Creditable(b, id), NoteSum(b.credits, id), b.invoices[id].total;
    Near(round, rest);
    Near(round, sum);
    if rest < HALF_CENT {
      WholeCentsApart(round(rest), 0);
    }
    if round(sum) < total {
      WholeCentsAdd(total, 100);
      WholeCentsApart(round(sum), total - 100);
    }
  }

  lemma CreditTaken(round: int -> int, b: Books, id: nat, amount: int, reason: string, currency: Option<string>)
    requires id < |b.invoices|
    ensures CreateCreditNote(round, b, id, amount, reason, currency).Done? <==> |reason| >= 3 && 0 < amount <= round(Creditable(b, id))
  {
  }

  /** Some credit is accepted exactly when more than half a cent is left, or half a cent that rounds up. */
  ghost predicate TakesCredit(round: int -> int, b: Books, id: nat) {
    exists amount, reason, currency :: CreateCreditNote(round, b, id, amount, reason, currency).Done?
  }

  lemma SomeCredit(round: int -> int, b: Books, id: nat)
    requires id < |b.invoices|
    ensures TakesCredit(round, b, id) <==> round(Creditable(b, id)) > 0
  {
    if round(Creditable(b, id)) > 0 {
      assert CreateCreditNote(round, b, id, round(Creditable(b, id)), "why", None).Done?;
    }
  }

  /**
   An invoice accepts a credit, given a reason, exactly up to its rounded balance. CREDITED invoices have at
   most half a cent left, others with a positive total at least that; in whole cents CREDITED is exact.
   */
  ghost predicate CreditRule(round: int -> int, b: Books, id: nat)
    requires id < |b.invoices|
  {
    var invoice, rest := b.invoices[id], Creditable(b, id);
    && (forall amount, reason, currency ::
          CreateCreditNote(round, b, id, amount, reason, currency).Done? <==> |reason| >= 3 && 0 < amount <= round(rest))
    && (TakesCredit(round, b, id) <==> rest > HALF_CENT || (rest == HALF_CENT && round(HALF_CENT) > 0))
    && (invoice.status.Credited? ==> rest <= HALF_CENT)
    && (!invoice.status.Credited? && invoice.total > 0 ==> rest >= HALF_CENT)
    && ((forall n :: 0 <= n < |b.credits| && b.credits[n].invoice == id ==> WholeCents(b.credits[n].amount)) ==>
          (NoteSum(b.credits, id) > 0 ==> rest >= 0) && (invoice.status.Credited? <==> rest == 0 && invoice.total > 0))
  }

  lemma SoundCredits(round: int -> int, b: Books, id: nat)
    requires Rounds(round) && id < |b.invoices| && InvoiceOk(round, b.invoices, b.credits, id)
    ensures CreditRule(round, b, id)
  {
    CreditLimit(round, b, id);
    SomeCredit(round, b, id);
    forall amount, reason, currency
      ensures CreateCreditNote(round, b, id, amount, reason, currency).Done? <==> |reason| >= 3 && 0 < amount <= round(Creditable(b, id))
    {
      CreditTaken(round, b, id, amount, reason, currency);
    }
    if forall n :: 0 <= n < |b.credits| && b.credits[n].invoice == id ==> WholeCents(b.credits[n].amount) {
      WholeCentCreditsAreExact(round, b.invoices, b.credits, id);
    }
  }

  /** The rule of credits, of every invoice in every run. */
  lemma CreditsOverRuns(round: int -> int, shipments: set<nat>, ops: seq<Op>)
    requires Rounds(round)
    ensures var b := Run(round, Empty(shipments), ops); forall id: nat :: id < |b.invoices| ==> CreditRule(round, b, id)
  {
    var b := Run(round, Empty(shipments), ops);
    RunIsSound(round, shipments, ops);
    forall id: nat | id < |b.invoices| ensures CreditRule(round, b, id) {
      assert InvoiceOk(round, b.invoices, b.credits, id);
      SoundCredits(round, b, id);
    }
  }

  // ---------------------------------------------------------------- an invoice half a cent short

  /** One revenue line, invoiced. */
  function InvoicedRun(code: string, amount: int): seq<Op> {
    [] + [GL(AddRevenue(1, code, amount, "USD", RevEstimated))] + [AR(MakeInvoice(1, 7, "USD", None, None, []))]
  }

  lemma OneRevenueLine(round: int -> int, code: string, amount: int)
    requires code != "" && amount >= 0
    ensures var b := After(round, Empty({1}), GL(AddRevenue(1, code, amount, "USD", RevEstimated)));
            b.shipments == {1} && b.revenues == [RevenueLine(1, code, amount, "USD", RevEstimated, RevEstimated)] && b.entries == []
            && b.invoices == [] && b.credits == []
  {
  }

  const PLAIN := Agreed("USD", None, None)

  lemma UntaxedByDefault()
    ensures !PLAIN.tax.applicable && PLAIN.currency == "USD"
  {
    assert |"NONE"| == 4 && |"PK"| == |"SA"| == |"AE"| == 2;
  }

  lemma OneSelected(revenues: seq<RevenueLine>)
    requires |revenues| == 1 && Wanted(revenues[0], 0, 1, [])
    ensures Selected(revenues, 1, []) == [0]
  {
    assert revenues[..0] == [];
  }

  lemma OneLineTotal(round: int -> int, revenues: seq<RevenueLine>, amount: int)
    requires |revenues| == 1 && revenues[0].amount == amount && revenues[0].currency == "USD"
    ensures NewInvoice(round, 1, 7, "USD", LinesFor(round, PLAIN, revenues, [0])).total == round(amount)
  {
    UntaxedByDefault();
    var lines := LinesFor(round, PLAIN, revenues, [0]);
    assert lines[..0] == [] && lines[..1] == lines && lines[0] == LineFor(round, PLAIN.tax, 0, amount);
    SumsSnoc(lines, 0);
  }

  lemma OneInvoice(round: int -> int, b: Books, code: string, amount: int)
    requires b.shipments == {1} && b.revenues == [RevenueLine(1, code, amount, "USD", RevEstimated, RevEstimated)]
    requires b.entries == [] && b.invoices == [] && b.credits == []
    ensures OneInvoiced(After(round, b, AR(MakeInvoice(1, 7, "USD", None, None, []))), round(amount))
  {
    OneSelected(b.revenues);
    OneLineTotal(round, b.revenues, amount);
    var invoice := NewInvoice(round, 1, 7, "USD", LinesFor(round, PLAIN, b.revenues, [0]));
    OneIssued(round, b, invoice);
    assert ApplyAR(round, b, MakeInvoice(1, 7, "USD", None, None, [])) == Done(Issued(b, invoice, [0]));
  }

  /** The books hold one invoice over this total, and nothing credited. */
  predicate OneInvoiced(b: Books, total: int) {
    && |b.invoices| == 1 && b.invoices[0].total == total && b.invoices[0].currency == "USD" && !b.invoices[0].status.Credited?
    && b.credits == [] && b.entries == [Posting(1, InvoiceReceivable, total, 0, "USD")]
  }

  lemma OneIssued(round: int -> int, b: Books, invoice: Invoice)
    requires b.shipments == {1} && |b.revenues| == 1 && b.revenues[0].status.RevEstimated? && Selected(b.revenues, 1, []) == [0]
    requires b.entries == [] && b.invoices == [] && b.credits == []
    requires invoice == NewInvoice(round, 1, 7, "USD", LinesFor(round, PLAIN, b.revenues, [0]))
    ensures GenerateInvoice(round, b, 1, 7, PLAIN, []) == Done(Issued(b, invoice, [0]))
    ensures OneInvoiced(Issued(b, invoice, [0]), invoice.total)
  {
    assert !AnyInvoiced(b.revenues, [0]);
  }

  lemma InvoicedSteps(round: int -> int, code: string, amount: int)
    ensures Run(round, Empty({1}), InvoicedRun(code, amount))
            == After(round, After(round, Empty({1}), GL(AddRevenue(1, code, amount, "USD", RevEstimated))),
                     AR(MakeInvoice(1, 7, "USD", None, None, [])))
  {
    var add, invoice := GL(AddRevenue(1, code, amount, "USD", RevEstimated)), AR(MakeInvoice(1, 7, "USD", None, None, []));
    RunSnoc(round, Empty({1}), [], add);
    RunSnoc(round, Empty({1}), [] + [add], invoice);
  }

  lemma InvoicedOne(round: int -> int, code: string, amount: int)
    requires code != "" && amount >= 0
    ensures OneInvoiced(Run(round, Empty({1}), InvoicedRun(code, amount)), round(amount))
  {
    InvoicedSteps(round, code, amount);
    OneRevenueLine(round, code, amount);
    OneInvoice(round, After(round, Empty({1}), GL(AddRevenue(1, code, amount, "USD", RevEstimated))), code, amount);
  }

  /** One invoice, not CREDITED, half a cent left, and no credit accepted. */
  ghost predicate Stranded(round: int -> int, b: Books) {
    |b.invoices| == 1 && !b.invoices[0].status.Credited? && Creditable(b, 0) == HALF_CENT && !TakesCredit(round, b, 0)
  }

  lemma CreditedShort(round: int -> int, b: Books, total: int, reason: string)
    requires Rounds(round) && WholeCents(total) && total >= 100 && OneInvoiced(b, total) && |reason| >= 3
    requires round(total - HALF_CENT) < total && round(HALF_CENT) == 0
    ensures Stranded(round, After(round, b, AR(Credit(0, total - HALF_CENT, reason, None))))
  {
    RoundFixesWholeCents(round, total);
    NoteSumSnoc([], Note(0, total - HALF_CENT, "USD", 1), 0);
    assert [] + [Note(0, total - HALF_CENT, "USD", 1)] == [Note(0, total - HALF_CENT, "USD", 1)];
    SomeCredit(round, After(round, b, AR(Credit(0, total - HALF_CENT, reason, None))), 0);
  }

  /** Credited to half a cent below its total, where ties fall, an invoice is neither CREDITED nor creditable. */
  lemma RunThatStrandsInvoice(round: int -> int, code: string, total: int, reason: string)
    requires Rounds(round) && code != "" && WholeCents(total) && total > 0 && |reason| >= 3
    requires round(total - HALF_CENT) < total && round(HALF_CENT) == 0
    ensures Stranded(round, Run(round, Empty({1}), InvoicedRun(code, total) + [AR(Credit(0, total - HALF_CENT, reason, None))]))
  {
    RoundFixesWholeCents(round, total);
    InvoicedOne(round, code, total);
    CreditStrands(round, Empty({1}), InvoicedRun(code, total), total, reason);
  }

  lemma CreditStrands(round: int -> int, start: Books, ops: seq<Op>, total: int, reason: string)
    requires Rounds(round) && WholeCents(total) && total >= 100 && OneInvoiced(Run(round, start, ops), total) && |reason| >= 3
    requires round(total - HALF_CENT) < total && round(HALF_CENT) == 0
    ensures Stranded(round, Run(round, start, ops + [AR(Credit(0, total - HALF_CENT, reason, None))]))
  {
    RunSnoc(round, start, ops, AR(Credit(0, total - HALF_CENT, reason, None)));
    CreditedShort(round, Run(round, start, ops), total, reason);
  }
}
