/** The three money services over one set of books: every mix of their operations, from an empty ledger. */
module Engine {
  import opened Results
  import opened Money
  import opened Ledger
  import opened Tables
  import opened Payables
  import opened Tax
  import opened Invoicing
  import opened Financial
  import opened Lockstep
  import opened Settlement
  import opened Receivables
  import opened MarginAlarm

  datatype PayableOp =
    | RecordBill(shipment: nat, number: string, currency: string, tax: int, lines: seq<LineRequest>)
    | VerifyBill(bill: nat, actor: nat, allowMaterial: bool)
    | ApproveBill(bill: nat, actor: nat)
    | PayBill(bill: nat, amount: int, money: Option<string>)

  datatype InvoiceOp =
    | MakeInvoice(shipment: nat, actor: nat, currency: string, onFile: Option<nat>, jurisdiction: Option<string>, ids: seq<nat>)
    | ApproveOne(invoice: nat, actor: nat)
    | SendOne(invoice: nat, reachable: bool)
    | Credit(invoice: nat, amount: int, reason: string, money: Option<string>)
    | Debit(invoice: nat, code: string, amount: int, reason: string, money: Option<string>)

  datatype FinancialOp =
    | AddRevenue(shipment: nat, code: string, amount: int, money: string, status: RevenueStatus)
    | AddCost(shipment: nat, code: string, amount: int, stage: Stage, additional: bool)
    | CorrectOne(entry: nat, reason: string, debit: int, credit: int)

  datatype Op = AP(ap: PayableOp) | AR(ar: InvoiceOp) | GL(gl: FinancialOp)

  function ApplyAP(round: int -> int, b: Books, op: PayableOp): Outcome<Books> {
    match op
    case RecordBill(shipment, number, currency, tax, lines) => RecordPayable(round, b, shipment, number, currency, tax, lines)
    case VerifyBill(bill, actor, allowMaterial) => VerifyPayable(b, bill, actor, allowMaterial)
    case ApproveBill(bill, actor) => ApprovePayable(b, bill, actor)
    case PayBill(bill, amount, money) => RecordPayment(round, b, bill, amount, money)
  }

  function ApplyAR(round: int -> int, b: Books, op: InvoiceOp): Outcome<Books> {
    match op
    case MakeInvoice(shipment, actor, currency, onFile, jurisdiction, ids) =>
      GenerateInvoice(round, b, shipment, actor, Agreed(currency, onFile, jurisdiction), ids)
    case ApproveOne(invoice, actor) => ApproveInvoice(b, invoice, actor)
    case SendOne(invoice, reachable) => SendInvoice(b, invoice, reachable)
    case Credit(invoice, amount, reason, money) => CreateCreditNote(round, b, invoice, amount, reason, money)
    case Debit(invoice, code, amount, reason, money) => CreateDebitNote(b, invoice, code, amount, reason, money)
  }

  function ApplyGL(round: int -> int, b: Books, op: FinancialOp): Outcome<Books> {
    match op
    case AddRevenue(shipment, code, amount, money, status) => AddRevenueLine(round, b, shipment, code, amount, money, status)
    case AddCost(shipment, code, amount, stage, additional) => AddCostLine(round, b, shipment, code, amount, stage, additional)
    case CorrectOne(entry, reason, debit, credit) => CorrectEntry(b, entry, reason, debit, credit)
  }

  function Apply(round: int -> int, b: Books, op: Op): Outcome<Books> {
    match op
    case AP(ap) => ApplyAP(round, b, ap)
    case AR(ar) => ApplyAR(round, b, ar)
    case GL(gl) => ApplyGL(round, b, gl)
  }

  function Empty(shipments: set<nat>): Books {
    Books(shipments, [], [], [], [], [], [], [], [])
  }

  /** A refused operation is rolled back. */
  function After(round: int -> int, b: Books, op: Op): Books {
    match Apply(round, b, op)
    case Done(after) => after
    case Refused(_) => b
  }

  function Run(round: int -> int, start: Books, ops: seq<Op>): Books {
    if ops == [] then start else After(round, Run(round, start, ops[..|ops| - 1]), ops[|ops| - 1])
  }

  lemma RunSnoc(round: int -> int, start: Books, ops: seq<Op>, op: Op)
    ensures Run(round, start, ops + [op]) == After(round, Run(round, start, ops), op)
  {
    assert (ops + [op])[..|ops|] == ops;
  }

  // ---------------------------------------------------------------- what each service leaves alone

  predicate SameAmounts(before: seq<CostLine>, after: seq<CostLine>) {
    |after| == |before|
    && forall c :: 0 <= c < |before| ==> after[c].amount == before[c].amount && after[c].shipment == before[c].shipment
  }

  lemma PayablesLeave(round: int -> int, b: Books, op: PayableOp)
    requires ApplyAP(round, b, op).Done?
    ensures var after := ApplyAP(round, b, op).value;
            && after.revenues == b.revenues && after.invoices == b.invoices && after.credits == b.credits
            && after.debits == b.debits && after.alarms == b.alarms && |after.bills| >= |b.bills|
            && (op.RecordBill? || SameAmounts(b.costs, after.costs))
            && (after.entries == b.entries || Posted(b.entries, after.entries, PayableBook))
  {
  }

  lemma InvoicingLeaves(round: int -> int, b: Books, op: InvoiceOp)
    requires ApplyAR(round, b, op).Done?
    ensures var after := ApplyAR(round, b, op).value;
            && after.costs == b.costs && after.bills == b.bills && after.alarms == b.alarms
            && |after.revenues| == |b.revenues|
            && (forall r :: 0 <= r < |b.revenues| ==>
                  after.revenues[r].amount == b.revenues[r].amount && after.revenues[r].shipment == b.revenues[r].shipment)
            && (after.entries == b.entries || Posted(b.entries, after.entries, ReceivableBook))
  {
    InvoicingPosts(round, b, op);
  }

  /** One fresh posting of this book was appended. */
  predicate Posted(entries: seq<Entry>, after: seq<Entry>, book: Book) {
    && |after| == |entries| + 1 && after == entries + [after[|entries|]]
    && Legal(entries, Post(after[|entries|])) && InBook(after[|entries|].kind, book)
  }

  lemma InvoicingPosts(round: int -> int, b: Books, op: InvoiceOp)
    requires ApplyAR(round, b, op).Done?
    ensures var after := ApplyAR(round, b, op).value; after.entries == b.entries || Posted(b.entries, after.entries, ReceivableBook)
  {
    match op {
      case MakeInvoice(shipment, actor, currency, onFile, jurisdiction, ids) =>
        InvoicePosts(round, b, shipment, actor, Agreed(currency, onFile, jurisdiction), ids);
      case ApproveOne(_, _) =>
      case SendOne(_, _) =>
      case Credit(id, amount, _, money) =>
        FreshIsPosted(b.entries, Posting(b.invoices[id].shipment, CreditNote, 0, amount, OrElse(money, b.invoices[id].currency)));
      case Debit(id, _, amount, _, money) =>
        FreshIsPosted(b.entries, Posting(b.invoices[id].shipment, DebitNote, amount, 0, OrElse(money, b.invoices[id].currency)));
    }
  }

  lemma FreshIsPosted(entries: seq<Entry>, e: Entry)
    requires e.reversalOf.None? && e.status.Posted? && !e.kind.ReversalOf? && Receivable(e.kind)
    ensures Posted(entries, entries + [e], ReceivableBook)
  {
  }

  lemma InvoicePosts(round: int -> int, b: Books, shipment: nat, actor: nat, terms: Terms, ids: seq<nat>)
    requires GenerateInvoice(round, b, shipment, actor, terms, ids).Done?
    ensures Posted(b.entries, GenerateInvoice(round, b, shipment, actor, terms, ids).value.entries, ReceivableBook)
  {
    var invoice := GenerateInvoice(round, b, shipment, actor, terms, ids).value.invoices[|b.invoices|];
    FreshIsPosted(b.entries, Posting(invoice.shipment, InvoiceReceivable, invoice.total, 0, invoice.currency));
  }

  lemma FinancialLeaves(round: int -> int, b: Books, op: FinancialOp)
    requires ApplyGL(round, b, op).Done?
    ensures var after := ApplyGL(round, b, op).value;
            && after.bills == b.bills && after.invoices == b.invoices && after.credits == b.credits && after.debits == b.debits
            && (if op.CorrectOne? then
                  && after == b.(entries := after.entries) && op.entry < |b.entries| && b.entries[op.entry].status.Posted?
                  && after.entries == Corrected(b.entries, op.entry, op.debit, op.credit)
                else after.entries == b.entries)
  {
  }

  // ---------------------------------------------------------------- one step

  /** What an operation does to the ledger: nothing, one posting, or one correction. */
  function EffectOf(round: int -> int, b: Books, op: Op): Effect {
    var after := After(round, b, op);
    if |after.entries| <= |b.entries| then Nothing
    else if op.GL? && op.gl.CorrectOne? then Correct(op.gl.entry, op.gl.debit, op.gl.credit)
    else Post(after.entries[|b.entries|])
  }

  lemma EveryStepIsAnEffect(round: int -> int, b: Books, op: Op)
    ensures Legal(b.entries, EffectOf(round, b, op))
    ensures After(round, b, op).entries == Effected(b.entries, EffectOf(round, b, op))
  {
    if Apply(round, b, op).Done? {
      match op {
        case AP(ap) => PayablesLeave(round, b, ap);
        case AR(ar) => InvoicingLeaves(round, b, ar);
        case GL(gl) => FinancialLeaves(round, b, gl);
      }
    }
  }

  lemma PayablesKeepLockstep(round: int -> int, b: Books, op: PayableOp)
    requires InLockstep(b.costs, b.bills) && ApplyAP(round, b, op).Done?
    ensures var after := ApplyAP(round, b, op).value; InLockstep(after.costs, after.bills) && LinesStep(b.costs, after.costs)
  {
    match op {
      case RecordBill(shipment, number, currency, tax, lines) => RecordKeepsLockstep(round, b, shipment, number, currency, tax, lines);
      case VerifyBill(bill, actor, allowMaterial) => VerifyKeepsLockstep(b, bill, actor, allowMaterial);
      case ApproveBill(bill, actor) => ApproveKeepsLockstep(b, bill, actor);
      case PayBill(bill, amount, money) => PayKeepsLockstep(round, b, bill, amount, money);
    }
  }

  lemma FinancialKeepsLockstep(round: int -> int, b: Books, op: FinancialOp)
    requires InLockstep(b.costs, b.bills) && ApplyGL(round, b, op).Done?
    ensures var after := ApplyGL(round, b, op).value; InLockstep(after.costs, after.bills) && LinesStep(b.costs, after.costs)
  {
    FinancialLeaves(round, b, op);
    if op.AddCost? {
      NewLineKeepsLockstep(b.costs, b.bills, CostLine(op.shipment, op.code, op.amount, op.stage, op.additional, op.stage));
    }
  }

  lemma StepKeepsLockstep(round: int -> int, b: Books, op: Op)
    requires InLockstep(b.costs, b.bills)
    ensures InLockstep(After(round, b, op).costs, After(round, b, op).bills)
    ensures LinesStep(b.costs, After(round, b, op).costs)
  {
    if Apply(round, b, op).Done? {
      match op {
        case AP(ap) => PayablesKeepLockstep(round, b, ap);
        case AR(ar) => InvoicingLeaves(round, b, ar);
        case GL(gl) => FinancialKeepsLockstep(round, b, gl);
      }
    }
  }

  lemma PayablesKeepSettlement(round: int -> int, b: Books, op: PayableOp)
    requires Rounds(round) && InLockstep(b.costs, b.bills) && BillsSettle(round, b.bills, b.entries) && ApplyAP(round, b, op).Done?
    ensures var after := ApplyAP(round, b, op).value; BillsSettle(round, after.bills, after.entries)
  {
    assert forall i :: 0 <= i < |b.bills| ==> FlagsAgree(b.bills[i]);
    match op {
      case RecordBill(shipment, number, currency, tax, lines) =>
        NewBillSettles(round, shipment, number, currency, tax, MatchLines(round, b.costs, shipment, lines).value.1, b.entries);
      case VerifyBill(bill, actor, allowMaterial) => VerifyKeepsSettlement(round, b, bill, actor, allowMaterial);
      case ApproveBill(bill, actor) => ApproveKeepsSettlement(round, b, bill, actor);
      case PayBill(bill, amount, money) => PayKeepsSettlement(round, b, bill, amount, money);
    }
  }

  lemma StepKeepsSettlement(round: int -> int, b: Books, op: Op)
    requires Rounds(round) && InLockstep(b.costs, b.bills) && BillsSettle(round, b.bills, b.entries)
    ensures BillsSettle(round, After(round, b, op).bills, After(round, b, op).entries)
  {
    EveryStepIsAnEffect(round, b, op);
    EffectKeepsPostings(b.entries, EffectOf(round, b, op));
    LedgerMoveKeepsSettlement(round, b.bills, b.entries, After(round, b, op).entries);
    if Apply(round, b, op).Done? {
      match op {
        case AP(ap) => PayablesKeepSettlement(round, b, ap);
        case AR(ar) => InvoicingLeaves(round, b, ar);
        case GL(gl) => FinancialLeaves(round, b, gl);
      }
    }
  }

  lemma InvoicingBillsOnce(round: int -> int, b: Books, op: InvoiceOp)
    requires AllBilledOnce(b.revenues, b.invoices) && ApplyAR(round, b, op).Done?
    ensures var after := ApplyAR(round, b, op).value; AllBilledOnce(after.revenues, after.invoices)
  {
    var after := ApplyAR(round, b, op).value;
    match op {
      case MakeInvoice(shipment, actor, currency, onFile, jurisdiction, ids) =>
        IssuedBillsOnce(b, after.invoices[|b.invoices|], Selected(b.revenues, shipment, ids));
      case ApproveOne(id, _) => StatusKeepsBilledOnce(b.revenues, b.invoices, id, after.invoices[id]);
      case SendOne(id, _) => StatusKeepsBilledOnce(b.revenues, b.invoices, id, after.invoices[id]);
      case Credit(id, _, _, _) => StatusKeepsBilledOnce(b.revenues, b.invoices, id, after.invoices[id]);
      case Debit(_, _, _, _, _) =>
    }
  }

  lemma StepBillsOnce(round: int -> int, b: Books, op: Op)
    requires AllBilledOnce(b.revenues, b.invoices)
    ensures AllBilledOnce(After(round, b, op).revenues, After(round, b, op).invoices)
  {
    if Apply(round, b, op).Done? {
      match op {
        case AP(ap) => PayablesLeave(round, b, ap);
        case AR(ar) => InvoicingBillsOnce(round, b, ar);
        case GL(gl) =>
          FinancialLeaves(round, b, gl);
          if gl.AddRevenue? {
            NewRevenueKeepsBilledOnce(b.revenues, b.invoices, RevenueLine(gl.shipment, gl.code, gl.amount, gl.money, gl.status, gl.status));
          }
      }
    }
  }

  lemma InvoicingKeepsInvoicesOk(round: int -> int, b: Books, op: InvoiceOp)
    requires Rounds(round) && InvoicesOk(round, b.invoices, b.credits) && ApplyAR(round, b, op).Done?
    ensures var after := ApplyAR(round, b, op).value; InvoicesOk(round, after.invoices, after.credits)
  {
    match op {
      case MakeInvoice(_, _, _, _, _, _) =>
        var invoice := ApplyAR(round, b, op).value.invoices[|b.invoices|];
        Near(round, AmountSum(invoice.lines) + TaxSum(invoice.lines));
        IssuedKeepsInvoicesOk(round, b.invoices, b.credits, invoice);
      case ApproveOne(id, actor) => ApproveOrSendKeepsInvoicesOk(round, b, ApplyAR(round, b, op).value, id);
      case SendOne(id, reachable) => ApproveOrSendKeepsInvoicesOk(round, b, ApplyAR(round, b, op).value, id);
      case Credit(id, amount, reason, money) => CreditKeepsInvoicesOk(round, b, id, amount, reason, money);
      case Debit(_, _, _, _, _) =>
    }
  }

  lemma StepKeepsInvoicesOk(round: int -> int, b: Books, op: Op)
    requires Rounds(round) && InvoicesOk(round, b.invoices, b.credits)
    ensures InvoicesOk(round, After(round, b, op).invoices, After(round, b, op).credits)
  {
    if Apply(round, b, op).Done? {
      match op {
        case AP(ap) => PayablesLeave(round, b, ap);
        case AR(ar) => InvoicingKeepsInvoicesOk(round, b, ar);
        case GL(gl) => FinancialLeaves(round, b, gl);
      }
    }
  }

  lemma InvoicingKeepsDocuments(round: int -> int, b: Books, op: InvoiceOp)
    requires LedgerMatchesDocuments(b) && ApplyAR(round, b, op).Done?
    ensures LedgerMatchesDocuments(ApplyAR(round, b, op).value)
  {
    var after := ApplyAR(round, b, op).value;
    match op {
      case MakeInvoice(shipment, actor, currency, onFile, jurisdiction, ids) =>
        var selected, terms := Selected(b.revenues, shipment, ids), Agreed(currency, onFile, jurisdiction);
        GenerateKeepsLedger(b, NewInvoice(round, shipment, actor, currency, LinesFor(round, terms, b.revenues, selected)), selected);
      case ApproveOne(id, _) =>
        StatusKeepsLedger(b, id, after.invoices[id]);
        assert b.invoices[id := after.invoices[id]] == after.invoices;
      case SendOne(id, _) => StatusKeepsLedger(b, id, after.invoices[id]);
      case Credit(id, amount, _, money) => CreditKeepsLedger(round, b, id, amount, OrElse(money, b.invoices[id].currency));
      case Debit(id, code, amount, reason, money) => DebitKeepsLedger(b, id, amount, OrElse(money, b.invoices[id].currency));
    }
  }

  /** The customer documents stay, and the ledger gains nothing receivable but corrections. */
  lemma OthersKeepDocuments(b: Books, after: Books, effect: Effect)
    requires LedgerMatchesDocuments(b) && Legal(b.entries, effect) && after.entries == Effected(b.entries, effect)
    requires after.invoices == b.invoices && after.credits == b.credits && after.debits == b.debits
    requires effect.Post? ==> !Receivable(effect.posting.kind)
    ensures LedgerMatchesDocuments(after)
  {
    forall s, c ensures Net(after.entries, Query(s, c, Originals, ReceivableBook)) == Documents(after, s, c) {
      match effect {
        case Nothing =>
        case Post(e) => NetAppend(b.entries, e, Query(s, c, Originals, ReceivableBook));
        case Correct(id, debit, credit) => CorrectionMovesBalance(b.entries, id, debit, credit, Query(s, c, Originals, ReceivableBook));
      }
      assert Documents(after, s, c) == Documents(b, s, c);
    }
  }

  lemma StepKeepsDocuments(round: int -> int, b: Books, op: Op)
    requires LedgerMatchesDocuments(b)
    ensures LedgerMatchesDocuments(After(round, b, op))
  {
    if Apply(round, b, op).Done? {
      EveryStepIsAnEffect(round, b, op);
      match op {
        case AP(ap) =>
          PayablesLeave(round, b, ap);
          OthersKeepDocuments(b, After(round, b, op), EffectOf(round, b, op));
        case AR(ar) => InvoicingKeepsDocuments(round, b, ar);
        case GL(gl) =>
          FinancialLeaves(round, b, gl);
          OthersKeepDocuments(b, After(round, b, op), EffectOf(round, b, op));
      }
    }
  }

  // ---------------------------------------------------------------- every run

  ghost predicate Sound(round: int -> int, b: Books) {
    && InLockstep(b.costs, b.bills) && BillsSettle(round, b.bills, b.entries)
    && AllBilledOnce(b.revenues, b.invoices) && InvoicesOk(round, b.invoices, b.credits) && LedgerMatchesDocuments(b)
    && Chained(b.entries) && Balanced(b.entries) && OneActive(b.alarms)
  }

  lemma EmptyIsSound(round: int -> int, shipments: set<nat>)
    requires Rounds(round)
    ensures Sound(round, Empty(shipments))
  {
  }

  lemma StepIsSound(round: int -> int, b: Books, op: Op)
    requires Rounds(round) && Sound(round, b)
    ensures Sound(round, After(round, b, op))
  {
    StepKeepsLockstep(round, b, op);
    StepKeepsSettlement(round, b, op);
    StepBillsOnce(round, b, op);
    StepKeepsInvoicesOk(round, b, op);
    StepKeepsDocuments(round, b, op);
    EveryStepIsAnEffect(round, b, op);
    EffectKeepsChains(b.entries, EffectOf(round, b, op));
    EffectKeepsBalance(b.entries, EffectOf(round, b, op));
    StepKeepsOneActive(round, b, op);
  }

  lemma StepKeepsOneActive(round: int -> int, b: Books, op: Op)
    requires OneActive(b.alarms)
    ensures OneActive(After(round, b, op).alarms)
  {
    if Apply(round, b, op).Done? {
      match op {
        case AP(ap) => PayablesLeave(round, b, ap);
        case AR(ar) => InvoicingLeaves(round, b, ar);
        case GL(gl) =>
          FinancialLeaves(round, b, gl);
          if !gl.CorrectOne? {
            AddedLineKeepsOneActive(round, b, gl);
          }
      }
    }
  }

  lemma AddedLineKeepsOneActive(round: int -> int, b: Books, op: FinancialOp)
    requires OneActive(b.alarms) && !op.CorrectOne? && ApplyGL(round, b, op).Done?
    ensures OneActive(ApplyGL(round, b, op).value.alarms)
  {
    SyncKeepsOneActive(b.alarms, op.shipment, round(Profit(ApplyGL(round, b, op).value, op.shipment)));
  }

  /**
   Over every run of every mix of the three services: bills and cost lines in lockstep, payments bounded,
   revenue billed once, credits bounded, originals equal to documents, chains linear, ledger balanced.
   */
  lemma {:induction false} RunIsSound(round: int -> int, shipments: set<nat>, ops: seq<Op>)
    requires Rounds(round)
    ensures Sound(round, Run(round, Empty(shipments), ops))
    decreases |ops|
  {
    if ops == [] {
      EmptyIsSound(round, shipments);
    } else {
      RunIsSound(round, shipments, ops[..|ops| - 1]);
      StepIsSound(round, Run(round, Empty(shipments), ops[..|ops| - 1]), ops[|ops| - 1]);
    }
  }

  /** Verified, approved, paid: every linked cost line has come at least as far as its bill. */
  predicate LinesAsFar(costs: seq<CostLine>, bill: Bill) {
    forall n :: 0 <= n < |bill.lines| ==>
      && bill.lines[n].cost < |costs|
      && (bill.verifiedBy.Some? ==> Rank(costs[bill.lines[n].cost].stage) >= Rank(Verified))
      && (bill.approved ==> Rank(costs[bill.lines[n].cost].stage) >= Rank(Approved))
      && (bill.status.BillPaid? ==> costs[bill.lines[n].cost].stage == Paid)
  }

  lemma KeepingUpIsAsFar(costs: seq<CostLine>, bill: Bill)
    requires LinesKeepUp(costs, bill)
    ensures LinesAsFar(costs, bill)
  {
    forall n | 0 <= n < |bill.lines|
      ensures bill.lines[n].cost < |costs|
      ensures forall level: nat :: level <= 4 && Reached(bill, level) ==> Rank(costs[bill.lines[n].cost].stage) >= level
    {
      assert Linked(bill, bill.lines[n].cost) && Reached(bill, 0);
    }
    assert bill.verifiedBy.Some? ==> Reached(bill, 2);
    assert bill.approved ==> Reached(bill, 3);
    assert bill.status.BillPaid? ==> Reached(bill, 4);
  }

  /** What holds of a bill: its lines are as far as it is, and its money adds up. */
  ghost predicate BillRule(round: int -> int, b: Books, i: nat)
    requires i < |b.bills|
  {
    var bill := b.bills[i];
    var sum := PaidSum(bill.payments);
    && LinesAsFar(b.costs, bill)
    && sum <= (if bill.total > 0 then bill.total + HALF_CENT else 0)
    && bill.paid == round(sum)
    && (bill.status.BillPaid? <==> bill.paid >= bill.total > 0)
    && (bill.approved ==> EntriesMatch(b.entries, bill) && bill.entry.Some? && BillNet(b.entries, bill) == bill.total - sum)
  }

  lemma SoundBill(round: int -> int, b: Books, i: nat)
    requires Sound(round, b) && i < |b.bills|
    ensures BillRule(round, b, i)
  {
    var bill := b.bills[i];
    assert FlagsAgree(bill) && LinesKeepUp(b.costs, bill) && PaidUp(round, bill) && EntriesMatch(b.entries, bill);
    KeepingUpIsAsFar(b.costs, bill);
    if bill.approved {
      EntriesNetToBalance(b.entries, bill);
    }
  }

  /** Each stage a cost line reached since it was created, some linking bill reached too. */
  ghost predicate CostRule(b: Books, c: nat)
    requires c < |b.costs|
  {
    forall level: nat :: Rank(b.costs[c].created) < level <= Rank(b.costs[c].stage) ==> Owed(b.bills, c, level)
  }

  /** A revenue line not created as INVOICED is so exactly when one invoice line references it; none is referenced twice. */
  predicate RevenueRule(b: Books, r: nat)
    requires r < |b.revenues|
  {
    && Refs(b.invoices, r) <= 1
    && (!b.revenues[r].created.Invoiced? ==> (b.revenues[r].status.Invoiced? <==> Refs(b.invoices, r) == 1))
    && (b.revenues[r].created.Invoiced? ==> Refs(b.invoices, r) == 0)
  }

  lemma SoundRevenueLine(round: int -> int, b: Books, r: nat)
    requires Sound(round, b) && r < |b.revenues|
    ensures RevenueRule(b, r)
  {
    assert BilledOnce(b.revenues, b.invoices, r);
  }

  /** What holds of an invoice: approval on record once approved or sent, credits bounded, CREDITED exact. */
  predicate InvoiceRule(round: int -> int, b: Books, id: nat)
    requires id < |b.invoices|
  {
    var invoice, credited := b.invoices[id], NoteSum(b.credits, id);
    && (invoice.status.InvoiceApproved? || invoice.status.Sent? ==> invoice.approved && invoice.approvedBy.Some?)
    && credited <= (if invoice.total > 0 then invoice.total + HALF_CENT else 0)
    && (invoice.status.Credited? <==> round(credited) >= invoice.total > 0)
  }

  lemma SoundInvoice(round: int -> int, b: Books, id: nat)
    requires Sound(round, b) && id < |b.invoices|
    ensures InvoiceRule(round, b, id)
  {
    assert InvoiceOk(round, b.invoices, b.credits, id);
  }

  /** An entry's chain starts at one posting and ends at one posted entry, each determining the other. */
  ghost predicate ChainRule(entries: seq<Entry>, i: nat)
    requires Chained(entries) && i < |entries|
  {
    && entries[Tip(entries, i)].status.Posted? && entries[Root(entries, i)].reversalOf.None?
    && Tip(entries, Root(entries, i)) == Tip(entries, i) && Root(entries, Tip(entries, i)) == Root(entries, i)
    && (entries[i].status.Posted? ==> Tip(entries, i) == i) && (entries[i].reversalOf.None? ==> Root(entries, i) == i)
  }

  lemma ChainedEntry(entries: seq<Entry>, i: nat)
    requires Chained(entries) && i < |entries|
    ensures ChainRule(entries, i)
  {
    TipOfRoot(entries, i);
    RootOfTip(entries, i);
    assert FollowerOk(entries, i);
  }

  /** The rules of every row, and a ledger whose posted entries alone carry the whole balance. */
  ghost predicate Rules(round: int -> int, b: Books) {
    && (forall i: nat :: i < |b.bills| ==> BillRule(round, b, i))
    && (forall c: nat :: c < |b.costs| ==> CostRule(b, c))
    && (forall r: nat :: r < |b.revenues| ==> RevenueRule(b, r))
    && (forall id: nat :: id < |b.invoices| ==> InvoiceRule(round, b, id))
    && Chained(b.entries) && (forall i: nat :: i < |b.entries| ==> ChainRule(b.entries, i))
    && Balanced(b.entries)
  }

  lemma SoundRules(round: int -> int, b: Books)
    requires Sound(round, b)
    ensures Rules(round, b)
  {
    forall i: nat | i < |b.bills| ensures BillRule(round, b, i) {
      SoundBill(round, b, i);
    }
    forall c: nat | c < |b.costs| ensures CostRule(b, c) {
      assert Explained(b.costs, b.bills, c);
    }
    forall r: nat | r < |b.revenues| ensures RevenueRule(b, r) {
      SoundRevenueLine(round, b, r);
    }
    forall id: nat | id < |b.invoices| ensures InvoiceRule(round, b, id) {
      SoundInvoice(round, b, id);
    }
    forall i: nat | i < |b.entries| ensures ChainRule(b.entries, i) {
      ChainedEntry(b.entries, i);
    }
  }

  /** Every row of every table obeys its rule in every run. */
  lemma RulesOverRuns(round: int -> int, shipments: set<nat>, ops: seq<Op>)
    requires Rounds(round)
    ensures Rules(round, Run(round, Empty(shipments), ops))
  {
    RunIsSound(round, shipments, ops);
    SoundRules(round, Run(round, Empty(shipments), ops));
  }

  // ---------------------------------------------------------------- what a longer run cannot undo

  lemma StepKeepsPaid(round: int -> int, b: Books, op: Op, id: nat)
    requires Sound(round, b) && id < |b.bills| && b.bills[id].status.BillPaid?
    ensures id < |After(round, b, op).bills| && After(round, b, op).bills[id] == b.bills[id]
  {
    assert FlagsAgree(b.bills[id]);
    if Apply(round, b, op).Done? {
      match op {
        case AP(ap) => PayablesKeepPaid(round, b, ap, id);
        case AR(ar) => InvoicingLeaves(round, b, ar);
        case GL(gl) => FinancialLeaves(round, b, gl);
      }
    }
  }

  lemma PayablesKeepPaid(round: int -> int, b: Books, op: PayableOp, id: nat)
    requires id < |b.bills| && b.bills[id].status.BillPaid? && b.bills[id].approved && ApplyAP(round, b, op).Done?
    ensures ApplyAP(round, b, op).value.bills[..|b.bills|][id] == b.bills[id]
  {
  }

  /** PAID is terminal: whatever follows, the bill's row never changes again. */
  lemma {:induction false} PaidIsTerminal(round: int -> int, shipments: set<nat>, ops: seq<Op>, n: nat, id: nat)
    requires Rounds(round) && n <= |ops|
    requires var b := Run(round, Empty(shipments), ops[..n]); id < |b.bills| && b.bills[id].status.BillPaid?
    ensures var b, after := Run(round, Empty(shipments), ops[..n]), Run(round, Empty(shipments), ops);
            id < |after.bills| && after.bills[id] == b.bills[id]
    decreases |ops| - n
  {
    if n < |ops| {
      assert ops[..n + 1][..n] == ops[..n];
      RunIsSound(round, shipments, ops[..n]);
      StepKeepsPaid(round, Run(round, Empty(shipments), ops[..n]), ops[n], id);
      PaidIsTerminal(round, shipments, ops, n + 1, id);
    } else {
      assert ops[..n] == ops;
    }
  }

  /** A cost line keeps its shipment, code and amount for ever, and its stage never falls. */
  lemma {:induction false} StagesNeverFall(round: int -> int, shipments: set<nat>, ops: seq<Op>, n: nat, c: nat)
    requires Rounds(round) && n <= |ops| && c < |Run(round, Empty(shipments), ops[..n]).costs|
    ensures var before, after := Run(round, Empty(shipments), ops[..n]).costs, Run(round, Empty(shipments), ops).costs;
            && c < |after| && after[c] == before[c].(stage := after[c].stage)
            && Rank(before[c].stage) <= Rank(after[c].stage)
    decreases |ops| - n
  {
    if n < |ops| {
      var before := Run(round, Empty(shipments), ops[..n]);
      assert ops[..n + 1][..n] == ops[..n];
      RunIsSound(round, shipments, ops[..n]);
      StepKeepsLockstep(round, before, ops[n]);
      assert LineStep(before.costs[c], After(round, before, ops[n]).costs[c]);
      StagesNeverFall(round, shipments, ops, n + 1, c);
    } else {
      assert ops[..n] == ops;
    }
  }

  /** Ledger rows are only ever appended or marked reversed: amounts, shipment, currency and links stay. */
  lemma {:induction false} EntriesAreImmutable(round: int -> int, start: Books, ops: seq<Op>, i: nat)
    requires i < |start.entries|
    ensures var after := Run(round, start, ops).entries;
            && |start.entries| <= |after|
            && after[i] == start.entries[i].(status := after[i].status)
            && (after[i].status == start.entries[i].status || (start.entries[i].status.Posted? && after[i].status.Reversed?))
    decreases |ops|
  {
    if ops != [] {
      EntriesAreImmutable(round, start, ops[..|ops| - 1], i);
      EveryStepIsAnEffect(round, Run(round, start, ops[..|ops| - 1]), ops[|ops| - 1]);
    }
  }

  // ---------------------------------------------------------------- receivables in the posted ledger

  ghost predicate NoCorrections(ops: seq<Op>) {
    forall op :: op in ops ==> !(op.GL? && op.gl.CorrectOne?)
  }

  lemma {:induction false} NoCorrectionEntries(round: int -> int, shipments: set<nat>, ops: seq<Op>)
    requires NoCorrections(ops)
    ensures forall i :: 0 <= i < |Run(round, Empty(shipments), ops).entries| ==> Run(round, Empty(shipments), ops).entries[i].reversalOf.None?
    decreases |ops|
  {
    if ops != [] {
      NoCorrectionEntries(round, shipments, ops[..|ops| - 1]);
      EveryStepIsAnEffect(round, Run(round, Empty(shipments), ops[..|ops| - 1]), ops[|ops| - 1]);
      assert ops[|ops| - 1] in ops;
    }
  }

  lemma {:induction false} NothingCorrected(entries: seq<Entry>, q: Query)
    requires q.scope.Corrections? && forall i :: 0 <= i < |entries| ==> entries[i].reversalOf.None?
    ensures Net(entries, q) == 0
  {
    if entries != [] {
      NothingCorrected(entries[..|entries| - 1], q);
    }
  }

  lemma OneExtraCharge(round: int -> int, code: string, billed: int)
    requires billed > 0
    ensures var matched := MatchLines(round, [], 1, [LineRequest(code, billed, None)]);
            matched.Done? && matched.value == ([CostLine(1, code, billed, Billed, true, Billed)], [BillLine(0, 0, billed, billed, AdditionalCharge)])
  {
    var line, none: seq<CostLine>, noLines: seq<BillLine> := LineRequest(code, billed, None), [], [];
    assert [line][..0] == [] && ByCode(none, 1, code) == None;
    assert MatchLines(round, none, 1, []) == Done((none, noLines));
    var cost, billLine := CostLine(1, code, billed, Billed, true, Billed), BillLine(0, 0, billed, billed, AdditionalCharge);
    assert MatchLine(round, none, none, noLines, 1, line) == Done((none + [cost], noLines + [billLine]));
    assert none + [cost] == [cost] && noLines + [billLine] == [billLine];
  }
}
