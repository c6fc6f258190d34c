/** Carrier and vendor bills: recording with cost matching, verification, approval and payment. */
module Payables {
  import opened Results
  import opened Money
  import opened Ledger
  import opened Tables

  /** A requested bill line; codes arrive stripped and upper-cased. */
  datatype LineRequest = LineRequest(code: string, billed: int, cost: Option<nat>)

  const HUNDRED := 1_000_000 // 100.00

  // ---------------------------------------------------------------- specification

  /** The shipment's cost line with this code; of several, the last. Blank codes match nothing. */
  function ByCode(costs: seq<CostLine>, shipment: nat, code: string): (r: Option<nat>)
    ensures r.Some? ==> r.value < |costs| && costs[r.value].shipment == shipment && costs[r.value].code == code != ""
    ensures forall c :: (if r.None? then 0 else r.value + 1) <= c < |costs| && costs[c].shipment == shipment ==> costs[c].code == "" || costs[c].code != code
  {
    if costs == [] then None else
    var n := |costs| - 1;
    if costs[n].shipment == shipment && costs[n].code != "" && costs[n].code == code then Some(n)
    else ByCode(costs[..n], shipment, code)
  }

  function MatchOf(variance: int): Match {
    if variance == 0 then Matched else if variance > 0 then OverBilled else UnderBilled
  }

  function BilledStage(stage: Stage): Stage {
    if stage.Estimated? || stage.Accrued? then Billed else stage
  }

  /** The cost table and bill lines after matching; codes are looked up in the table as it was at the start. */
  function MatchLines(round: int -> int, costs: seq<CostLine>, shipment: nat, lines: seq<LineRequest>): Outcome<(seq<CostLine>, seq<BillLine>)> {
    if lines == [] then Done((costs, [])) else
    var n := |lines| - 1;
    match MatchLines(round, costs, shipment, lines[..n])
    case Refused(reason) => Refused(reason)
    case Done((current, billLines)) => MatchLine(round, costs, current, billLines, shipment, lines[n])
  }

  function MatchLine(round: int -> int, original: seq<CostLine>, current: seq<CostLine>, billLines: seq<BillLine>, shipment: nat, line: LineRequest)
    : Outcome<(seq<CostLine>, seq<BillLine>)>
  {
    if line.billed <= 0 then Refused("Billed amount must be positive") else
    var found := if line.cost.Some? then line.cost else ByCode(original, shipment, line.code);
    if found.Some? then
      var id := found.value;
      if id >= |current| || current[id].shipment != shipment then Refused("Cost line does not belong to shipment") else
      var variance := round(line.billed - current[id].amount);
      Done((current[id := current[id].(stage := BilledStage(current[id].stage))],
            billLines + [BillLine(id, current[id].amount, line.billed, variance, MatchOf(variance))]))
    else
      Done((current + [CostLine(shipment, line.code, line.billed, Billed, true, Billed)],
            billLines + [BillLine(|current|, 0, line.billed, line.billed, AdditionalCharge)]))
  }

  function BilledSum(lines: seq<BillLine>): int {
    if lines == [] then 0 else BilledSum(lines[..|lines| - 1]) + lines[|lines| - 1].billed
  }

  function VarianceSum(lines: seq<BillLine>): int {
    if lines == [] then 0 else VarianceSum(lines[..|lines| - 1]) + lines[|lines| - 1].variance
  }

  predicate NumberTaken(bills: seq<Bill>, number: string) {
    exists i :: 0 <= i < |bills| && bills[i].number == number
  }

  function NewBill(round: int -> int, shipment: nat, number: string, currency: string, tax: int, lines: seq<BillLine>): Bill {
    Bill(shipment, number, currency, lines, round(BilledSum(lines)), round(tax),
         round(BilledSum(lines) + tax), round(VarianceSum(lines)), 0,
         Received, false, false, None, None, None, [])
  }

  function RecordPayable(round: int -> int, b: Books, shipment: nat, number: string, currency: string, tax: int, lines: seq<LineRequest>): Outcome<Books> {
    if shipment !in b.shipments then Refused("Shipment not found")
    else if NumberTaken(b.bills, number) then Refused("Bill number already exists")
    else if lines == [] then Refused("At least one bill line is required")
    else
      match MatchLines(round, b.costs, shipment, lines)
      case Refused(reason) => Refused(reason)
      case Done((costs, billLines)) =>
        Done(b.(costs := costs, bills := b.bills + [NewBill(round, shipment, number, currency, tax, billLines)]))
  }

  predicate Linked(bill: Bill, cost: nat) {
    exists i :: 0 <= i < |bill.lines| && bill.lines[i].cost == cost
  }

  /** Every linked cost line that stands at one stage moves to the next. */
  function Advance(costs: seq<CostLine>, bill: Bill, from: Stage, to: Stage): (after: seq<CostLine>)
    ensures |after| == |costs|
    ensures forall c :: 0 <= c < |costs| ==>
              after[c] == if Linked(bill, c) && costs[c].stage == from then costs[c].(stage := to) else costs[c]
  {
    seq(|costs|, c requires 0 <= c < |costs| =>
      if Linked(bill, c) && costs[c].stage == from then costs[c].(stage := to) else costs[c])
  }

  /** More than 100.00, or more than a tenth of a positive total. */
  predicate Material(bill: Bill) {
    Abs(bill.variance) > HUNDRED || (bill.total > 0 && 10 * Abs(bill.variance) > bill.total)
  }

  function LinesVerified(lines: seq<BillLine>): (after: seq<BillLine>)
    ensures |after| == |lines| && forall i :: 0 <= i < |lines| ==> after[i] == lines[i].(match_ := LineVerified)
  {
    seq(|lines|, i requires 0 <= i < |lines| => lines[i].(match_ := LineVerified))
  }

  function VerifyPayable(b: Books, id: nat, actor: nat, allowMaterial: bool): Outcome<Books> {
    if id >= |b.bills| then Refused("Payable not found") else
    var bill := b.bills[id];
    if bill.status.BillApproved? || bill.status.BillPaid? then Refused("Cannot be re-verified")
    else if Material(bill) && !allowMaterial then Refused("Material variance")
    else Done(b.(
      bills := b.bills[id := bill.(status := BillVerified, verified := true, verifiedBy := Some(actor), lines := LinesVerified(bill.lines))],
      costs := Advance(b.costs, bill, Billed, Verified)))
  }

  function ApprovePayable(b: Books, id: nat, actor: nat): Outcome<Books> {
    if id >= |b.bills| then Refused("Payable not found") else
    var bill := b.bills[id];
    if bill.approved then Refused("Already approved")
    else if !bill.verified then Refused("Must be VERIFIED before approval")
    else Done(b.(
      bills := b.bills[id := bill.(status := BillApproved, approved := true, approvedBy := Some(actor), entry := Some(|b.entries|))],
      costs := Advance(b.costs, bill, Verified, Approved),
      entries := b.entries + [Posting(bill.shipment, AccountsPayable, 0, bill.total, bill.currency)]))
  }

  function PaidSum(payments: seq<Payment>): int {
    if payments == [] then 0 else PaidSum(payments[..|payments| - 1]) + payments[|payments| - 1].amount
  }

  /** The row of a bill once a payment is entered. */
  function PaidBill(round: int -> int, bill: Bill, payment: Payment): Bill {
    var paid := round(PaidSum(bill.payments) + payment.amount);
    bill.(paid := paid, payments := bill.payments + [payment], status := if paid >= bill.total then BillPaid else PartiallyPaid)
  }

  /** The books once a payment that passed the checks is entered. */
  function Settled(round: int -> int, b: Books, id: nat, amount: int, money: string): Books
    requires id < |b.bills|
  {
    var bill := PaidBill(round, b.bills[id], Payment(amount, money, |b.entries|));
    b.(bills := b.bills[id := bill],
       costs := if bill.status.BillPaid? then Advance(b.costs, b.bills[id], Approved, Paid) else b.costs,
       entries := b.entries + [Posting(bill.shipment, ApPayment, amount, 0, money)])
  }

  function RecordPayment(round: int -> int, b: Books, id: nat, amount: int, currency: Option<string>): Outcome<Books> {
    if amount <= 0 then Refused("Payment amount must be positive")
    else if id >= |b.bills| then Refused("Payable not found")
    else
      var bill := b.bills[id];
      var remaining := round(bill.total - PaidSum(bill.payments));
      if !bill.status.BillApproved? && !bill.status.PartiallyPaid? then Refused("Must be APPROVED")
      else if remaining <= 0 then Refused("Already fully paid")
      else if amount > remaining then Refused("Exceeds remaining balance")
      else Done(Settled(round, b, id, amount, OrElse(currency, bill.currency)))
  }

  // ---------------------------------------------------------------- the service

  class PayableService {
    const session: Session
    const round: int -> int

    constructor (session: Session, round: int -> int)
      ensures this.session == session && this.round == round
    {
      this.session, this.round := session, round;
    }

    /** Matches one request after another; a bad line leaves the caller to roll back. */
    method Match(costs: seq<CostLine>, shipment: nat, lines: seq<LineRequest>)
      returns (r: Outcome<(seq<CostLine>, seq<BillLine>)>, subtotal: int, variance: int)
      ensures r == MatchLines(round, costs, shipment, lines)
      ensures r.Done? ==> subtotal == BilledSum(r.value.1) && variance == VarianceSum(r.value.1)
    {
      var current := costs;
      var billLines: seq<BillLine> := [];
      subtotal, variance := 0, 0;
      for n := 0 to |lines|
        invariant MatchLines(round, costs, shipment, lines[..n]) == Done((current, billLines))
        invariant subtotal == BilledSum(billLines) && variance == VarianceSum(billLines)
      {
        assert lines[..n + 1][..n] == lines[..n];
        r := MatchLine(round, costs, current, billLines, shipment, lines[n]);
        if r.Refused? {
          RefusedForGood(round, costs, shipment, lines, n + 1);
          return;
        }
        var added := r.value.1[|billLines|];
        current, billLines := r.value.0, r.value.1;
        subtotal, variance := subtotal + added.billed, variance + added.variance;
      }
      assert lines[..|lines|] == lines;
      r := Done((current, billLines));
    }

    method Record(shipment: nat, number: string, currency: string, tax: int, lines: seq<LineRequest>) returns (r: Outcome<nat>)
      modifies session
      ensures match RecordPayable(round, old(session.Rows()), shipment, number, currency, tax, lines)
              case Done(after) => session.Rows() == after && r == Done(|after.bills| - 1)
              case Refused(reason) => session.Rows() == old(session.Rows()) && r == Refused(reason)
    {
      if shipment !in session.shipments {
        return Refused("Shipment not found");
      }
      if exists i :: 0 <= i < |session.bills| && session.bills[i].number == number {
        return Refused("Bill number already exists");
      }
      if lines == [] {
        return Refused("At least one bill line is required");
      }
      var matched, subtotal, variance := Match(session.costs, shipment, lines);
      if matched.Refused? {
        return Refused(matched.reason);
      }
      PassedChecks(round, session.Rows(), shipment, number, currency, tax, lines);
      var bill := Total(shipment, number, currency, tax, matched.value.1, subtotal, variance);
      Enter(matched.value.0, bill);
      r := Done(|session.bills| - 1);
    }

    method Total(shipment: nat, number: string, currency: string, tax: int, lines: seq<BillLine>, subtotal: int, variance: int) returns (bill: Bill)
      requires subtotal == BilledSum(lines) && variance == VarianceSum(lines)
      ensures bill == NewBill(round, shipment, number, currency, tax, lines)
    {
      bill := Bill(shipment, number, currency, lines, round(subtotal), round(tax),
                   round(subtotal + tax), round(variance), 0, Received, false, false, None, None, None, []);
    }

    method Enter(costs: seq<CostLine>, bill: Bill)
      modifies session
      ensures session.Rows() == old(session.Rows()).(costs := costs, bills := old(session.bills) + [bill])
    {
      session.costs := costs;
      session.bills := session.bills + [bill];
    }

    /** Walks the bill's lines; each cost line found at `from` moves to `to`. */
    method AdvanceLinked(bill: Bill, from: Stage, to: Stage)
      requires from != to
      modifies session`costs
      ensures session.costs == Advance(old(session.costs), bill, from, to)
    {
      ghost var before := session.costs;
      for n := 0 to |bill.lines|
        invariant session.costs == Advance(before, bill.(lines := bill.lines[..n]), from, to)
      {
        var c := bill.lines[n].cost;
        LinkedSnoc(bill, n);
        if c < |session.costs| {
          if session.costs[c].stage == from {
            session.costs := session.costs[c := session.costs[c].(stage := to)];
          }
        }
      }
      assert bill.lines[..|bill.lines|] == bill.lines;
    }

    method Verify(id: nat, actor: nat, allowMaterial: bool) returns (r: Outcome<()>)
      modifies session
      ensures match VerifyPayable(old(session.Rows()), id, actor, allowMaterial)
              case Done(after) => session.Rows() == after && r.Done?
              case Refused(reason) => session.Rows() == old(session.Rows()) && r == Refused(reason)
    {
      if id >= |session.bills| {
        return Refused("Payable not found");
      }
      var bill := session.bills[id];
      if bill.status == BillApproved || bill.status == BillPaid {
        return Refused("Cannot be re-verified");
      }
      var variance := Abs(bill.variance);
      if (variance > HUNDRED || (bill.total > 0 && 10 * variance > bill.total)) && !allowMaterial {
        return Refused("Material variance");
      }
      session.bills := session.bills[id := bill.(
        status := BillVerified, verified := true, verifiedBy := Some(actor), lines := LinesVerified(bill.lines))];
      AdvanceLinked(bill, Billed, Verified);
      r := Done(());
    }

    method Approve(id: nat, actor: nat) returns (r: Outcome<()>)
      modifies session
      ensures match ApprovePayable(old(session.Rows()), id, actor)
              case Done(after) => session.Rows() == after && r.Done?
              case Refused(reason) => session.Rows() == old(session.Rows()) && r == Refused(reason)
    {
      if id >= |session.bills| {
        return Refused("Payable not found");
      }
      var bill := session.bills[id];
      if bill.approved {
        return Refused("Already approved");
      }
      if !bill.verified {
        return Refused("Must be VERIFIED before approval");
      }
      session.bills := session.bills[id := bill.(status := BillApproved, approved := true, approvedBy := Some(actor))];
      AdvanceLinked(bill, Verified, Approved);
      session.entries := session.entries + [Posting(bill.shipment, AccountsPayable, 0, bill.total, bill.currency)];
      session.bills := session.bills[id := session.bills[id].(entry := Some(|session.entries| - 1))];
      r := Done(());
    }

    method Pay(id: nat, amount: int, currency: Option<string>) returns (r: Outcome<()>)
      modifies session
      ensures match RecordPayment(round, old(session.Rows()), id, amount, currency)
              case Done(after) => session.Rows() == after && r.Done?
              case Refused(reason) => session.Rows() == old(session.Rows()) && r == Refused(reason)
    {
      if amount <= 0 {
        return Refused("Payment amount must be positive");
      }
      if id >= |session.bills| {
        return Refused("Payable not found");
      }
      var bill := session.bills[id];
      if bill.status != BillApproved && bill.status != PartiallyPaid {
        return Refused("Must be APPROVED");
      }
      var remaining := round(bill.total - PaidSum(bill.payments));
      if remaining <= 0 {
        return Refused("Already fully paid");
      }
      if amount > remaining {
        return Refused("Exceeds remaining balance");
      }
      Settle(id, amount, OrElse(currency, bill.currency));
      r := Done(());
    }

    method Settle(id: nat, amount: int, money: string)
      requires id < |session.bills|
      modifies session
      ensures session.Rows() == Settled(round, old(session.Rows()), id, amount, money)
    {
      var bill := session.bills[id];
      session.entries := session.entries + [Posting(bill.shipment, ApPayment, amount, 0, money)];
      var payment := Payment(amount, money, |session.entries| - 1);
      var paid := round(PaidSum(bill.payments) + amount);
      var status := PartiallyPaid;
      if paid >= bill.total {
        status := BillPaid;
        AdvanceLinked(bill, Approved, Paid);
      }
      session.bills := session.bills[id := bill.(paid := paid, payments := bill.payments + [payment], status := status)];
    }
  }

  lemma PassedChecks(round: int -> int, b: Books, shipment: nat, number: string, currency: string, tax: int, lines: seq<LineRequest>)
    requires shipment in b.shipments && !NumberTaken(b.bills, number) && lines != [] && MatchLines(round, b.costs, shipment, lines).Done?
    ensures var (costs, billLines) := MatchLines(round, b.costs, shipment, lines).value;
            RecordPayable(round, b, shipment, number, currency, tax, lines)
            == Done(b.(costs := costs, bills := b.bills + [NewBill(round, shipment, number, currency, tax, billLines)]))
  {
  }

  lemma {:induction false} RefusedForGood(round: int -> int, costs: seq<CostLine>, shipment: nat, lines: seq<LineRequest>, n: nat)
    requires n <= |lines| && MatchLines(round, costs, shipment, lines[..n]).Refused?
    ensures MatchLines(round, costs, shipment, lines) == MatchLines(round, costs, shipment, lines[..n])
    decreases |lines| - n
  {
    if n < |lines| {
      assert lines[..n + 1][..n] == lines[..n];
      RefusedForGood(round, costs, shipment, lines, n + 1);
    } else {
      assert lines[..n] == lines;
    }
  }

  lemma LinkedSnoc(bill: Bill, n: nat)
    requires n < |bill.lines|
    ensures forall c :: Linked(bill.(lines := bill.lines[..n + 1]), c)
              <==> Linked(bill.(lines := bill.lines[..n]), c) || c == bill.lines[n].cost
  {
    var shorter, longer := bill.(lines := bill.lines[..n]), bill.(lines := bill.lines[..n + 1]);
    forall c ensures Linked(longer, c) <==> Linked(shorter, c) || c == bill.lines[n].cost {
      assert longer.lines[n] == bill.lines[n];
      if Linked(shorter, c) {
        var i :| 0 <= i < n && shorter.lines[i].cost == c;
        assert longer.lines[i].cost == c;
      }
    }
  }

  // ---------------------------------------------------------------- what matching guarantees

  function ExpectedSum(lines: seq<BillLine>): int {
    if lines == [] then 0 else ExpectedSum(lines[..|lines| - 1]) + lines[|lines| - 1].expected
  }

  /** A requested line no cost line answers: it names none, and no cost line has its code. */
  predicate IsExtra(costs: seq<CostLine>, shipment: nat, line: LineRequest) {
    line.cost.None? && ByCode(costs, shipment, line.code).None?
  }

  /** A bill line answers its request: that amount, on a cost line of the shipment, of the requested code unless picked by id. */
  predicate Answers(costs: seq<CostLine>, shipment: nat, request: LineRequest, line: BillLine) {
    && line.billed == request.billed > 0
    && line.cost < |costs| && costs[line.cost].shipment == shipment
    && (if request.cost.Some? then line.cost == request.cost.value else costs[line.cost].code == request.code)
    && (line.match_.AdditionalCharge? ==>
          && costs[line.cost].additional && costs[line.cost].amount == line.billed && line.expected == 0 && line.variance == line.billed)
    && (!line.match_.AdditionalCharge? ==>
          && line.expected == costs[line.cost].amount
          && line.match_ == if line.variance == 0 then Matched else if line.variance > 0 then OverBilled else UnderBilled)
  }

  /** Matching one request adds one line that answers it, its variance within half a cent of the difference. */
  lemma MatchLineAdds(round: int -> int, original: seq<CostLine>, current: seq<CostLine>, before: seq<BillLine>, shipment: nat, line: LineRequest)
    requires MatchLine(round, original, current, before, shipment, line).Done?
    ensures var (after, more) := MatchLine(round, original, current, before, shipment, line).value;
            && |more| == |before| + 1 && more[..|before|] == before
            && |after| >= |current| && (forall c :: 0 <= c < |current| ==> after[c] == current[c].(stage := after[c].stage))
            && (line.cost.None? && ByCode(original, shipment, line.code).Some? ==> more[|before|].cost == ByCode(original, shipment, line.code).value)
            && (line.cost.Some? ==> more[|before|].cost == line.cost.value && !more[|before|].match_.AdditionalCharge?)
            && (line.cost.None? && ByCode(original, shipment, line.code).None? ==>
                  more[|before|].match_.AdditionalCharge? && after[more[|before|].cost].code == line.code)
    ensures var (after, more) := MatchLine(round, original, current, before, shipment, line).value;
            var last := more[|before|];
            && last.billed == line.billed > 0 && last.cost < |after| && after[last.cost].shipment == shipment
            && (if last.match_.AdditionalCharge? then
                  && after[last.cost].additional && after[last.cost].amount == last.billed && last.expected == 0 && last.variance == last.billed
                else
                  && last.expected == after[last.cost].amount && last.variance == round(last.billed - last.expected)
                  && last.match_ == if last.variance == 0 then Matched else if last.variance > 0 then OverBilled else UnderBilled)
  {
  }

  /** The cost table only ever changes stages and grows, so codes found at the start stay right. */
  lemma AnswersStay(costs: seq<CostLine>, after: seq<CostLine>, shipment: nat, request: LineRequest, line: BillLine)
    requires Answers(costs, shipment, request, line) && |after| >= |costs|
    requires forall c :: 0 <= c < |costs| ==> after[c] == costs[c].(stage := after[c].stage)
    ensures Answers(after, shipment, request, line)
  {
  }

  /** Every requested line is billed once, in order, against the right cost line. */
  lemma {:induction false} MatchingAnswers(round: int -> int, costs: seq<CostLine>, shipment: nat, lines: seq<LineRequest>)
    requires MatchLines(round, costs, shipment, lines).Done?
    ensures var (after, billLines) := MatchLines(round, costs, shipment, lines).value;
            && |billLines| == |lines| && |after| >= |costs|
            && (forall c :: 0 <= c < |costs| ==> after[c] == costs[c].(stage := after[c].stage))
            && forall i :: 0 <= i < |lines| ==> Answers(after, shipment, lines[i], billLines[i])
    decreases |lines|
  {
    if lines != [] {
      var n := |lines| - 1;
      MatchingAnswers(round, costs, shipment, lines[..n]);
      var (current, before) := MatchLines(round, costs, shipment, lines[..n]).value;
      MatchLineAdds(round, costs, current, before, shipment, lines[n]);
      AllAnswer(costs, current, before, MatchLines(round, costs, shipment, lines).value.0,
                MatchLines(round, costs, shipment, lines).value.1, shipment, lines);
    }
  }

  /** Matching appends one line: billed as asked, its variance rounded, and additional exactly when the request is extra. */
  lemma MatchLineAppends(round: int -> int, original: seq<CostLine>, current: seq<CostLine>, before: seq<BillLine>, shipment: nat, line: LineRequest)
    requires MatchLine(round, original, current, before, shipment, line).Done?
    ensures var more := MatchLine(round, original, current, before, shipment, line).value.1;
            && |more| == |before| + 1 && more[..|before|] == before
            && (more[|before|].match_.AdditionalCharge? <==> IsExtra(original, shipment, line))
            && Rounded(round, more[|before|])
  {
  }

  predicate Rounded(round: int -> int, line: BillLine) {
    line.variance == line.billed - line.expected || line.variance == round(line.billed - line.expected)
  }

  ghost predicate Marks(costs: seq<CostLine>, shipment: nat, lines: seq<LineRequest>, billLines: seq<BillLine>) {
    && |billLines| == |lines|
    && forall i :: 0 <= i < |lines| ==> (billLines[i].match_.AdditionalCharge? <==> IsExtra(costs, shipment, lines[i]))
  }

  /** A bill line is an additional charge exactly when its request is extra. */
  lemma {:induction false} ExtrasAreMarked(round: int -> int, costs: seq<CostLine>, shipment: nat, lines: seq<LineRequest>)
    requires MatchLines(round, costs, shipment, lines).Done?
    ensures Marks(costs, shipment, lines, MatchLines(round, costs, shipment, lines).value.1)
    decreases |lines|
  {
    if lines != [] {
      var n := |lines| - 1;
      ExtrasAreMarked(round, costs, shipment, lines[..n]);
      var (current, before) := MatchLines(round, costs, shipment, lines[..n]).value;
      MatchLineAppends(round, costs, current, before, shipment, lines[n]);
      OneMoreMark(costs, shipment, lines, before, MatchLines(round, costs, shipment, lines).value.1);
    }
  }

  lemma OneMoreMark(costs: seq<CostLine>, shipment: nat, lines: seq<LineRequest>, before: seq<BillLine>, more: seq<BillLine>)
    requires lines != [] && Marks(costs, shipment, lines[..|lines| - 1], before) && |more| == |before| + 1 && more[..|before|] == before
    requires more[|before|].match_.AdditionalCharge? <==> IsExtra(costs, shipment, lines[|lines| - 1])
    ensures Marks(costs, shipment, lines, more)
  {
    forall i | 0 <= i < |before| ensures more[i] == before[i] && lines[i] == lines[..|lines| - 1][i] {
      assert more[i] == more[..|before|][i];
    }
  }

  lemma AllAnswer(costs: seq<CostLine>, current: seq<CostLine>, before: seq<BillLine>,
                  after: seq<CostLine>, more: seq<BillLine>, shipment: nat, lines: seq<LineRequest>)
    requires |more| == |lines| == |before| + 1 && more[..|before|] == before && |after| >= |current| >= |costs|
    requires forall c :: 0 <= c < |current| ==> after[c] == current[c].(stage := after[c].stage)
    requires forall i :: 0 <= i < |before| ==> Answers(current, shipment, lines[..|before|][i], before[i])
    requires Answers(after, shipment, lines[|before|], more[|before|])
    ensures forall i :: 0 <= i < |lines| ==> Answers(after, shipment, lines[i], more[i])
  {
    forall i | 0 <= i < |lines| ensures Answers(after, shipment, lines[i], more[i]) {
      if i < |before| {
        assert more[i] == before[i] && lines[i] == lines[..|before|][i];
        AnswersStay(current, after, shipment, lines[i], before[i]);
      }
    }
  }

  function RequestedSum(lines: seq<LineRequest>): int {
    if lines == [] then 0 else RequestedSum(lines[..|lines| - 1]) + lines[|lines| - 1].billed
  }

  lemma {:induction false} BilledIsRequested(billLines: seq<BillLine>, lines: seq<LineRequest>)
    requires |billLines| == |lines| && forall i :: 0 <= i < |lines| ==> billLines[i].billed == lines[i].billed
    ensures BilledSum(billLines) == RequestedSum(lines)
    decreases |lines|
  {
    if lines != [] {
      var n := |lines| - 1;
      BilledIsRequested(billLines[..n], lines[..n]);
    }
  }

  /** The amounts of a bill against its request: each a nearest cent, and the variance within half a cent per line and one more. */
  ghost predicate Priced(bill: Bill, tax: int, lines: seq<LineRequest>) {
    var requested, expected := RequestedSum(lines), ExpectedSum(bill.lines);
    && NearestCent(requested, bill.subtotal) && NearestCent(tax, bill.tax) && NearestCent(requested + tax, bill.total)
    && WholeCents(bill.variance)
    && -50 * (|lines| + 1) <= bill.variance - (requested - expected) <= 50 * (|lines| + 1)
    && (WholeCents(requested) ==> bill.subtotal == requested) && (WholeCents(tax) ==> bill.tax == tax)
    && (WholeCents(requested + tax) ==> bill.total == requested + tax)
    && (WholeLines(bill.lines) ==> bill.variance == requested - expected)
  }

  lemma {:induction false} WholeDifference(lines: seq<BillLine>)
    requires WholeLines(lines)
    ensures WholeCents(BilledSum(lines) - ExpectedSum(lines))
  {
    if lines != [] {
      var n := |lines| - 1;
      WholeDifference(lines[..n]);
      WholeCentsAdd(BilledSum(lines[..n]) - ExpectedSum(lines[..n]), lines[n].billed - lines[n].expected);
    }
  }

  lemma NewBillIsPriced(round: int -> int, shipment: nat, number: string, currency: string, tax: int, billLines: seq<BillLine>, lines: seq<LineRequest>)
    requires Rounds(round) && |billLines| == |lines| && BilledSum(billLines) == RequestedSum(lines) && Drift(billLines, |lines|)
    ensures Priced(NewBill(round, shipment, number, currency, tax, billLines), tax, lines)
  {
    NearAndExact(round, RequestedSum(lines));
    NearAndExact(round, tax);
    NearAndExact(round, RequestedSum(lines) + tax);
    NearAndExact(round, VarianceSum(billLines));
    if WholeLines(billLines) {
      WholeDifference(billLines);
    }
  }

  lemma NearAndExact(round: int -> int, x: int)
    requires Rounds(round)
    ensures NearestCent(x, round(x)) && (WholeCents(x) ==> round(x) == x)
  {
    Near(round, x);
    if WholeCents(x) {
      RoundFixesWholeCents(round, x);
    }
  }

  /**
   What an accepted bill leaves: the next row, priced from its request, line by line for the right cost lines,
   received, and neither verified, approved nor paid; and the billed cost lines at BILLED.
   */
  ghost predicate RecordedBy(b: Books, after: Books, shipment: nat, number: string, currency: string, tax: int, lines: seq<LineRequest>)
    requires |after.bills| > 0
  {
    var bill := after.bills[|after.bills| - 1];
    && after == b.(costs := after.costs, bills := b.bills + [bill])
    && |bill.lines| == |lines| && Priced(bill, tax, lines) && Staged(b.costs, after.costs, shipment, bill.lines)
    && (forall i :: 0 <= i < |lines| ==> Answers(after.costs, shipment, lines[i], bill.lines[i]))
    && bill.shipment == shipment && bill.number == number && bill.currency == currency
    && bill.status.Received? && !bill.verified && !bill.approved && bill.verifiedBy.None? && bill.approvedBy.None?
    && bill.entry.None? && bill.paid == 0 && bill.payments == []
  }

  lemma RecordedExactly(round: int -> int, b: Books, shipment: nat, number: string, currency: string, tax: int, lines: seq<LineRequest>)
    requires Rounds(round)
    ensures var outcome := RecordPayable(round, b, shipment, number, currency, tax, lines);
            outcome.Done? ==> |outcome.value.bills| > 0 && RecordedBy(b, outcome.value, shipment, number, currency, tax, lines)
  {
    if RecordPayable(round, b, shipment, number, currency, tax, lines).Done? {
      var billLines := MatchLines(round, b.costs, shipment, lines).value.1;
      MatchingAnswers(round, b.costs, shipment, lines);
      VarianceDrift(round, b.costs, shipment, lines);
      StagedExactly(round, b.costs, shipment, lines);
      BilledIsRequested(billLines, lines);
      NewBillIsPriced(round, shipment, number, currency, tax, billLines, lines);
    }
  }

  /** A line of the bill is for this cost line. */
  ghost predicate Bills(lines: seq<BillLine>, cost: nat) {
    exists n :: 0 <= n < |lines| && lines[n].cost == cost
  }

  /** Of the cost lines there were, the billed ones among those ESTIMATED or ACCRUED stand at BILLED; added ones are additional and BILLED. */
  ghost predicate Staged(costs: seq<CostLine>, after: seq<CostLine>, shipment: nat, lines: seq<BillLine>) {
    && |after| >= |costs|
    && (forall c :: 0 <= c < |costs| ==>
          after[c] == if Bills(lines, c) && (costs[c].stage == Estimated || costs[c].stage == Accrued) then costs[c].(stage := Billed)
                      else costs[c])
    && forall c :: |costs| <= c < |after| ==>
         after[c] == CostLine(shipment, after[c].code, after[c].amount, Billed, true, Billed)
  }

  lemma BillsSnoc(before: seq<BillLine>, more: seq<BillLine>, cost: nat)
    requires |more| == |before| + 1 && more[..|before|] == before
    ensures Bills(more, cost) <==> Bills(before, cost) || more[|before|].cost == cost
  {
    assert forall n :: 0 <= n < |before| ==> more[n] == before[n];
  }

  lemma OneMoreStaged(round: int -> int, costs: seq<CostLine>, current: seq<CostLine>, before: seq<BillLine>, shipment: nat, line: LineRequest)
    requires Staged(costs, current, shipment, before) && MatchLine(round, costs, current, before, shipment, line).Done?
    ensures var (after, more) := MatchLine(round, costs, current, before, shipment, line).value;
            Staged(costs, after, shipment, more)
  {
    var (after, more) := MatchLine(round, costs, current, before, shipment, line).value;
    forall c | 0 <= c < |costs|
      ensures after[c] == if Bills(more, c) && (costs[c].stage == Estimated || costs[c].stage == Accrued) then costs[c].(stage := Billed)
                          else costs[c]
    {
      BillsSnoc(before, more, c);
    }
  }

  /** Recording moves exactly the billed cost lines, and those only up to BILLED. */
  lemma {:induction false} StagedExactly(round: int -> int, costs: seq<CostLine>, shipment: nat, lines: seq<LineRequest>)
    requires MatchLines(round, costs, shipment, lines).Done?
    ensures var (after, billLines) := MatchLines(round, costs, shipment, lines).value;
            Staged(costs, after, shipment, billLines)
    decreases |lines|
  {
    if lines != [] {
      var n := |lines| - 1;
      StagedExactly(round, costs, shipment, lines[..n]);
      var (current, before) := MatchLines(round, costs, shipment, lines[..n]).value;
      OneMoreStaged(round, costs, current, before, shipment, lines[n]);
    }
  }

  /** How many requested lines add a cost line of their own. */
  function ExtraCount(costs: seq<CostLine>, shipment: nat, lines: seq<LineRequest>): nat {
    if lines == [] then 0 else
    ExtraCount(costs, shipment, lines[..|lines| - 1]) + if IsExtra(costs, shipment, lines[|lines| - 1]) then 1 else 0
  }

  /** A line can be billed: its amount is positive, and a cost line it names is one of the shipment, or one added before it. */
  predicate Billable(costs: seq<CostLine>, shipment: nat, earlier: seq<LineRequest>, line: LineRequest) {
    && line.billed > 0
    && (line.cost.Some? ==>
          var id := line.cost.value;
          if id < |costs| then costs[id].shipment == shipment else id < |costs| + ExtraCount(costs, shipment, earlier))
  }

  ghost predicate AllBillable(costs: seq<CostLine>, shipment: nat, lines: seq<LineRequest>) {
    forall i :: 0 <= i < |lines| ==> Billable(costs, shipment, lines[..i], lines[i])
  }

  lemma {:induction false} MatchedExactly(round: int -> int, costs: seq<CostLine>, shipment: nat, lines: seq<LineRequest>)
    ensures MatchLines(round, costs, shipment, lines).Done? <==> AllBillable(costs, shipment, lines)
    ensures MatchLines(round, costs, shipment, lines).Done? ==>
              Grown(costs, MatchLines(round, costs, shipment, lines).value.0, shipment, ExtraCount(costs, shipment, lines))
    decreases |lines|
  {
    if lines != [] {
      var n := |lines| - 1;
      MatchedExactly(round, costs, shipment, lines[..n]);
      BillableSnoc(costs, shipment, lines);
      if MatchLines(round, costs, shipment, lines[..n]).Done? {
        var (current, billLines) := MatchLines(round, costs, shipment, lines[..n]).value;
        OneMoreMatch(round, costs, current, billLines, shipment, lines[..n], lines[n]);
      }
    }
  }

  /** The table with so many cost lines of the shipment added. */
  ghost predicate Grown(costs: seq<CostLine>, after: seq<CostLine>, shipment: nat, extras: nat) {
    && |after| == |costs| + extras
    && (forall c :: 0 <= c < |costs| ==> after[c].shipment == costs[c].shipment)
    && forall c :: |costs| <= c < |after| ==> after[c].shipment == shipment
  }

  lemma OneMoreMatch(round: int -> int, costs: seq<CostLine>, current: seq<CostLine>, billLines: seq<BillLine>,
                     shipment: nat, earlier: seq<LineRequest>, line: LineRequest)
    requires Grown(costs, current, shipment, ExtraCount(costs, shipment, earlier))
    ensures var outcome := MatchLine(round, costs, current, billLines, shipment, line);
            && (outcome.Done? <==> Billable(costs, shipment, earlier, line))
            && (outcome.Done? ==>
                  Grown(costs, outcome.value.0, shipment, ExtraCount(costs, shipment, earlier) + if IsExtra(costs, shipment, line) then 1 else 0))
  {
  }

  lemma BillableSnoc(costs: seq<CostLine>, shipment: nat, lines: seq<LineRequest>)
    requires lines != []
    ensures var n := |lines| - 1;
            AllBillable(costs, shipment, lines) <==> AllBillable(costs, shipment, lines[..n]) && Billable(costs, shipment, lines[..n], lines[n])
  {
    var n := |lines| - 1;
    assert forall i :: 0 <= i < n ==> lines[..n][..i] == lines[..i] && lines[..n][i] == lines[i];
    assert forall i :: 0 <= i < n ==>
      (Billable(costs, shipment, lines[..n][..i], lines[..n][i]) <==> Billable(costs, shipment, lines[..i], lines[i]));
  }

  /** A bill is accepted exactly on a known shipment, under an unused number, with lines that can all be billed. */
  lemma RecordAcceptedExactly(round: int -> int, b: Books, shipment: nat, number: string, currency: string, tax: int, lines: seq<LineRequest>)
    ensures RecordPayable(round, b, shipment, number, currency, tax, lines).Done? <==>
            && shipment in b.shipments && (forall i :: 0 <= i < |b.bills| ==> b.bills[i].number != number)
            && lines != [] && AllBillable(b.costs, shipment, lines)
  {
    MatchedExactly(round, b.costs, shipment, lines);
  }

  // ---------------------------------------------------------------- what the later steps do

  /** Nothing but these bills, cost lines and entries differs. */
  predicate PayablesOnly(b: Books, after: Books) {
    after == b.(costs := after.costs, bills := after.bills, entries := after.entries)
  }

  /** The linked cost lines at `from`, and no others, stand at `to`. */
  ghost predicate Moved(costs: seq<CostLine>, after: seq<CostLine>, bill: Bill, from: Stage, to: Stage) {
    && |after| == |costs|
    && forall c :: 0 <= c < |costs| ==>
         after[c] == if costs[c].stage == from && (exists n :: 0 <= n < |bill.lines| && bill.lines[n].cost == c)
                     then costs[c].(stage := to) else costs[c]
  }

  lemma AdvanceMoves(costs: seq<CostLine>, bill: Bill, from: Stage, to: Stage)
    ensures Moved(costs, Advance(costs, bill, from, to), bill, from, to)
  {
    assert forall c: nat :: Linked(bill, c) <==> exists n :: 0 <= n < |bill.lines| && bill.lines[n].cost == c;
  }

  /**
   A verification is accepted exactly of a bill neither APPROVED nor PAID whose variance is at most 100.00 and,
   of a positive total, at most a tenth of it - unless a larger one is allowed.
   */
  lemma VerifiedExactly(b: Books, id: nat, actor: nat, allowMaterial: bool)
    ensures var outcome := VerifyPayable(b, id, actor, allowMaterial);
            && (outcome.Done? <==>
                  && id < |b.bills| && !b.bills[id].status.BillApproved? && !b.bills[id].status.BillPaid?
                  && (allowMaterial
                      || (-1_000_000 <= b.bills[id].variance <= 1_000_000
                          && (b.bills[id].total > 0 ==> -b.bills[id].total <= 10 * b.bills[id].variance <= b.bills[id].total))))
            && (outcome.Done? ==>
                  var bill, after := b.bills[id], outcome.value;
                  && PayablesOnly(b, after) && after.entries == b.entries && |after.bills[id].lines| == |bill.lines|
                  && after.bills == b.bills[id := bill.(status := BillVerified, verified := true, verifiedBy := Some(actor), lines := after.bills[id].lines)]
                  && (forall n :: 0 <= n < |bill.lines| ==> after.bills[id].lines[n] == bill.lines[n].(match_ := LineVerified))
                  && Moved(b.costs, after.costs, bill, Billed, Verified))
  {
    if id < |b.bills| {
      AdvanceMoves(b.costs, b.bills[id], Billed, Verified);
    }
  }

  /** An approval is accepted exactly of a verified bill not yet approved; it posts the total as owed. */
  lemma ApprovedExactly(b: Books, id: nat, actor: nat)
    ensures var outcome := ApprovePayable(b, id, actor);
            && (outcome.Done? <==> id < |b.bills| && !b.bills[id].approved && b.bills[id].verified)
            && (outcome.Done? ==>
                  var bill, after := b.bills[id], outcome.value;
                  && PayablesOnly(b, after)
                  && after.bills == b.bills[id := bill.(status := BillApproved, approved := true, approvedBy := Some(actor), entry := Some(|b.entries|))]
                  && after.entries == b.entries + [Entry(bill.shipment, AccountsPayable, 0, bill.total, bill.currency, None, Posted)]
                  && Moved(b.costs, after.costs, bill, Verified, Approved))
  {
    if id < |b.bills| {
      AdvanceMoves(b.costs, b.bills[id], Verified, Approved);
    }
  }

  /** A payment adds one row and one entry of its amount, and settles the bill when its rounded sum reaches the total. */
  ghost predicate PaidBy(round: int -> int, b: Books, after: Books, id: nat, amount: int, money: string)
    requires id < |b.bills|
  {
    var bill, paid := b.bills[id], round(PaidSum(b.bills[id].payments) + amount);
    && PayablesOnly(b, after)
    && after.bills == b.bills[id := bill.(paid := paid, payments := bill.payments + [Payment(amount, money, |b.entries|)],
                                          status := if paid >= bill.total then BillPaid else PartiallyPaid)]
    && after.entries == b.entries + [Entry(bill.shipment, ApPayment, amount, 0, money, None, Posted)]
    && (if paid >= bill.total then Moved(b.costs, after.costs, bill, Approved, Paid) else after.costs == b.costs)
  }

  lemma SettledExactly(round: int -> int, b: Books, id: nat, amount: int, money: string)
    requires id < |b.bills|
    ensures PaidBy(round, b, Settled(round, b, id, amount, money), id, amount, money)
  {
    AdvanceMoves(b.costs, b.bills[id], Approved, Paid);
  }

  /** An accepted payment is entered in the currency given, or else in the bill's. */
  lemma PaidExactly(round: int -> int, b: Books, id: nat, amount: int, currency: Option<string>)
    requires id < |b.bills|
    ensures var outcome := RecordPayment(round, b, id, amount, currency);
            outcome.Done? ==>
              PaidBy(round, b, outcome.value, id, amount, if currency.None? || currency.value == "" then b.bills[id].currency else currency.value)
  {
    SettledExactly(round, b, id, amount, OrElse(currency, b.bills[id].currency));
  }

  /** The summed variance strays at most half a cent per line from billed minus expected, and nothing in whole cents. */
  lemma {:induction false} VarianceDrift(round: int -> int, costs: seq<CostLine>, shipment: nat, lines: seq<LineRequest>)
    requires Rounds(round) && MatchLines(round, costs, shipment, lines).Done?
    ensures var billLines := MatchLines(round, costs, shipment, lines).value.1;
            Drift(billLines, |lines|)
    decreases |lines|
  {
    if lines != [] {
      var n := |lines| - 1;
      VarianceDrift(round, costs, shipment, lines[..n]);
      var (current, before) := MatchLines(round, costs, shipment, lines[..n]).value;
      MatchLineAppends(round, costs, current, before, shipment, lines[n]);
      OneMoreDrift(round, before, MatchLines(round, costs, shipment, lines).value.1, n);
    }
  }

  ghost predicate Drift(lines: seq<BillLine>, n: nat) {
    var drift := VarianceSum(lines) - (BilledSum(lines) - ExpectedSum(lines));
    && -HALF_CENT * n <= drift <= HALF_CENT * n
    && (WholeLines(lines) ==> drift == 0)
  }

  ghost predicate WholeLines(lines: seq<BillLine>) {
    forall i :: 0 <= i < |lines| ==> WholeCents(lines[i].billed - lines[i].expected)
  }

  lemma OneMoreDrift(round: int -> int, before: seq<BillLine>, more: seq<BillLine>, n: nat)
    requires Rounds(round) && Drift(before, n) && |more| == |before| + 1 && more[..|before|] == before
    requires Rounded(round, more[|before|])
    ensures Drift(more, n + 1)
  {
    var last := more[|before|];
    Near(round, last.billed - last.expected);
    assert forall i :: 0 <= i < |before| ==> before[i] == more[i];
    if WholeCents(last.billed - last.expected) {
      RoundFixesWholeCents(round, last.billed - last.expected);
    }
  }
}
