/** Bills and the cost lines they share move together: what every step of the payables service keeps. */
module Lockstep {
  import opened Results
  import opened Tables
  import opened Payables

  /** Estimated and accrued lines are both unbilled; from there on one rank per stage. */
  function Rank(stage: Stage): nat {
    match stage
    case Estimated => 0
    case Accrued => 0
    case Billed => 1
    case Verified => 2
    case Approved => 3
    case Paid => 4
  }

  /** How far a bill has come: recorded, verified, approved, paid. */
  predicate Reached(bill: Bill, level: nat) {
    if level <= 1 then true
    else if level == 2 then bill.verifiedBy.Some?
    else if level == 3 then bill.approved
    else level == 4 && bill.status.BillPaid?
  }

  /** The flags of a bill agree with each other. */
  predicate FlagsAgree(bill: Bill) {
    && (bill.verified <==> bill.verifiedBy.Some?)
    && (bill.approved ==> bill.verified && !bill.status.Received?)
    && (bill.status.BillApproved? || bill.status.PartiallyPaid? || bill.status.BillPaid? ==> bill.approved)
    && (bill.approved <==> bill.entry.Some?)
  }

  /** Every line of a bill is at least as far as the bill. */
  ghost predicate LinesKeepUp(costs: seq<CostLine>, bill: Bill) {
    forall c: nat, level: nat :: Linked(bill, c) && Reached(bill, level) && level <= 4 ==>
      c < |costs| && Rank(costs[c].stage) >= level
  }

  /** Every stage a line reached after it was created is owed to a bill that links it and reached it. */
  ghost predicate Explained(costs: seq<CostLine>, bills: seq<Bill>, c: nat)
    requires c < |costs|
  {
    forall level: nat :: Rank(costs[c].created) < level <= Rank(costs[c].stage) ==> Owed(bills, c, level)
  }

  ghost predicate Owed(bills: seq<Bill>, c: nat, level: nat) {
    exists i :: 0 <= i < |bills| && Linked(bills[i], c) && Reached(bills[i], level)
  }

  ghost predicate InLockstep(costs: seq<CostLine>, bills: seq<Bill>) {
    && (forall i :: 0 <= i < |bills| ==> FlagsAgree(bills[i]) && LinesKeepUp(costs, bills[i]))
    && (forall c: nat :: c < |costs| ==> Explained(costs, bills, c) && Rank(costs[c].created) <= Rank(costs[c].stage))
  }

  /** A line keeps everything but its stage, which stays or rises by one rank. */
  predicate LineStep(before: CostLine, after: CostLine) {
    && after == before.(stage := after.stage)
    && (after.stage == before.stage || Rank(after.stage) == Rank(before.stage) + 1)
  }

  ghost predicate LinesStep(before: seq<CostLine>, after: seq<CostLine>) {
    |before| <= |after| && forall c :: 0 <= c < |before| ==> LineStep(before[c], after[c])
  }

  ghost predicate SameLinks(bill: Bill, after: Bill) {
    forall c :: Linked(bill, c) <==> Linked(after, c)
  }

  lemma VerifiedLinesLinkTheSame(bill: Bill)
    ensures forall c :: Linked(bill.(lines := LinesVerified(bill.lines)), c) <==> Linked(bill, c)
  {
    var after := bill.(lines := LinesVerified(bill.lines));
    forall c ensures Linked(after, c) <==> Linked(bill, c) {
      if Linked(bill, c) {
        var i :| 0 <= i < |bill.lines| && bill.lines[i].cost == c;
        assert after.lines[i].cost == c;
      }
    }
  }

  lemma OwedStays(bills: seq<Bill>, id: nat, after: Bill, c: nat, level: nat)
    requires id < |bills| && Owed(bills, c, level)
    requires SameLinks(bills[id], after) && (Reached(bills[id], level) ==> Reached(after, level))
    ensures Owed(bills[id := after], c, level)
  {
    var i :| 0 <= i < |bills| && Linked(bills[i], c) && Reached(bills[i], level);
    assert Linked(bills[id := after][i], c) && Reached(bills[id := after][i], level);
  }

  /** One bill moves up one level and takes with it exactly its lines that stood one stage below. */
  lemma AdvanceKeepsLockstep(costs: seq<CostLine>, bills: seq<Bill>, id: nat, after: Bill, from: Stage, to: Stage)
    requires InLockstep(costs, bills) && id < |bills| && SameLinks(bills[id], after) && FlagsAgree(after)
    requires Rank(from) >= 1 && Rank(to) == Rank(from) + 1
    requires Reached(bills[id], Rank(from)) && Reached(after, Rank(to))
    requires forall level: nat :: Reached(bills[id], level) ==> Reached(after, level)
    requires forall level: nat :: Reached(after, level) ==> Reached(bills[id], level) || level == Rank(to)
    ensures InLockstep(Advance(costs, bills[id], from, to), bills[id := after])
    ensures LinesStep(costs, Advance(costs, bills[id], from, to))
  {
    var moved, updated := Advance(costs, bills[id], from, to), bills[id := after];
    forall i | 0 <= i < |updated| ensures FlagsAgree(updated[i]) && LinesKeepUp(moved, updated[i]) {
      assert LinesKeepUp(costs, bills[i]) && FlagsAgree(bills[i]);
      forall c: nat, level: nat | Linked(updated[i], c) && Reached(updated[i], level) && level <= 4
        ensures c < |moved| && Rank(moved[c].stage) >= level
      {
        assert Linked(bills[i], c) && Reached(bills[i], 0);
      }
    }
    forall c: nat | c < |moved| ensures Explained(moved, updated, c) && Rank(moved[c].created) <= Rank(moved[c].stage) {
      assert Explained(costs, bills, c);
      forall level: nat | Rank(moved[c].created) < level <= Rank(moved[c].stage) ensures Owed(updated, c, level) {
        if level <= Rank(costs[c].stage) {
          OwedStays(bills, id, after, c, level);
        } else {
          assert Linked(updated[id], c) && Reached(updated[id], level);
        }
      }
    }
  }

  /** A bill that changes neither its links nor its level leaves everything in step. */
  lemma SameLevelKeepsLockstep(costs: seq<CostLine>, bills: seq<Bill>, id: nat, after: Bill)
    requires InLockstep(costs, bills) && id < |bills| && SameLinks(bills[id], after) && FlagsAgree(after)
    requires forall level: nat :: Reached(after, level) <==> Reached(bills[id], level)
    ensures InLockstep(costs, bills[id := after])
  {
    var updated := bills[id := after];
    forall i | 0 <= i < |updated| ensures FlagsAgree(updated[i]) && LinesKeepUp(costs, updated[i]) {
      assert LinesKeepUp(costs, bills[i]) && FlagsAgree(bills[i]);
    }
    forall c: nat | c < |costs| ensures Explained(costs, updated, c) {
      assert Explained(costs, bills, c);
      forall level: nat | Rank(costs[c].created) < level <= Rank(costs[c].stage) ensures Owed(updated, c, level) {
        OwedStays(bills, id, after, c, level);
      }
    }
  }

  // ---------------------------------------------------------------- the payables operations

  lemma VerifyKeepsLockstep(b: Books, id: nat, actor: nat, allowMaterial: bool)
    requires InLockstep(b.costs, b.bills) && VerifyPayable(b, id, actor, allowMaterial).Done?
    ensures var after := VerifyPayable(b, id, actor, allowMaterial).value;
            InLockstep(after.costs, after.bills) && LinesStep(b.costs, after.costs)
  {
    var bill := b.bills[id];
    assert FlagsAgree(bill);
    VerifiedLinesLinkTheSame(bill);
    var after := VerifyPayable(b, id, actor, allowMaterial).value.bills[id];
    assert forall c :: Linked(after, c) <==> Linked(bill.(lines := LinesVerified(bill.lines)), c);
    AdvanceKeepsLockstep(b.costs, b.bills, id, after, Billed, Verified);
  }

  lemma ApproveKeepsLockstep(b: Books, id: nat, actor: nat)
    requires InLockstep(b.costs, b.bills) && ApprovePayable(b, id, actor).Done?
    ensures var after := ApprovePayable(b, id, actor).value;
            InLockstep(after.costs, after.bills) && LinesStep(b.costs, after.costs)
  {
    assert FlagsAgree(b.bills[id]);
    var after := ApprovePayable(b, id, actor).value.bills[id];
    assert forall c :: Linked(after, c) <==> Linked(b.bills[id], c);
    AdvanceKeepsLockstep(b.costs, b.bills, id, after, Verified, Approved);
  }

  lemma PayKeepsLockstep(round: int -> int, b: Books, id: nat, amount: int, currency: Option<string>)
    requires InLockstep(b.costs, b.bills) && RecordPayment(round, b, id, amount, currency).Done?
    ensures var after := RecordPayment(round, b, id, amount, currency).value;
            InLockstep(after.costs, after.bills) && LinesStep(b.costs, after.costs)
  {
    assert FlagsAgree(b.bills[id]);
    var after := RecordPayment(round, b, id, amount, currency).value.bills[id];
    assert forall c :: Linked(after, c) <==> Linked(b.bills[id], c);
    if after.status.BillPaid? {
      AdvanceKeepsLockstep(b.costs, b.bills, id, after, Approved, Paid);
    } else {
      SameLevelKeepsLockstep(b.costs, b.bills, id, after);
    }
  }

  predicate LinesPointInto(costs: seq<CostLine>, lines: seq<BillLine>) {
    forall i :: 0 <= i < |lines| ==> lines[i].cost < |costs| && Rank(costs[lines[i].cost].stage) >= 1
  }

  ghost predicate Mentions(lines: seq<BillLine>, c: nat) {
    exists i :: 0 <= i < |lines| && lines[i].cost == c
  }

  /** What matching does to the cost table: unbilled lines it uses become billed, extra charges are added billed. */
  ghost predicate MatchedTo(before: seq<CostLine>, after: seq<CostLine>, lines: seq<BillLine>) {
    && |before| <= |after| && LinesPointInto(after, lines)
    && (forall c :: 0 <= c < |before| ==>
          after[c] == before[c] || (after[c] == before[c].(stage := Billed) && Rank(before[c].stage) == 0 && Mentions(lines, c)))
    && (forall c :: |before| <= c < |after| ==> after[c].stage == after[c].created == Billed)
  }

  lemma {:induction false} MatchingShape(round: int -> int, costs: seq<CostLine>, shipment: nat, lines: seq<LineRequest>)
    requires MatchLines(round, costs, shipment, lines).Done?
    ensures var (after, billLines) := MatchLines(round, costs, shipment, lines).value;
            MatchedTo(costs, after, billLines) && |billLines| == |lines|
    decreases |lines|
  {
    if lines != [] {
      var n := |lines| - 1;
      MatchingShape(round, costs, shipment, lines[..n]);
      var (current, billLines) := MatchLines(round, costs, shipment, lines[..n]).value;
      MatchOneShape(round, costs, current, billLines, shipment, lines[n]);
    }
  }

  lemma MatchOneShape(round: int -> int, costs: seq<CostLine>, current: seq<CostLine>, billLines: seq<BillLine>, shipment: nat, line: LineRequest)
    requires MatchedTo(costs, current, billLines) && MatchLine(round, costs, current, billLines, shipment, line).Done?
    ensures var (after, more) := MatchLine(round, costs, current, billLines, shipment, line).value;
            MatchedTo(costs, after, more) && |more| == |billLines| + 1
  {
    var (after, more) := MatchLine(round, costs, current, billLines, shipment, line).value;
    assert more[|billLines|].cost < |after|;
    forall c | Mentions(billLines, c) || c == more[|billLines|].cost ensures Mentions(more, c) {
      if Mentions(billLines, c) {
        var i :| 0 <= i < |billLines| && billLines[i].cost == c;
        assert more[i].cost == c;
      }
    }
  }

  lemma RecordKeepsLockstep(round: int -> int, b: Books, shipment: nat, number: string, currency: string, tax: int, lines: seq<LineRequest>)
    requires InLockstep(b.costs, b.bills) && RecordPayable(round, b, shipment, number, currency, tax, lines).Done?
    ensures var after := RecordPayable(round, b, shipment, number, currency, tax, lines).value;
            InLockstep(after.costs, after.bills) && LinesStep(b.costs, after.costs)
  {
    MatchingShape(round, b.costs, shipment, lines);
    var (costs, billLines) := MatchLines(round, b.costs, shipment, lines).value;
    MatchedKeepsLockstep(b.costs, b.bills, costs, NewBill(round, shipment, number, currency, tax, billLines));
  }

  lemma MatchedKeepsLockstep(costs: seq<CostLine>, bills: seq<Bill>, after: seq<CostLine>, bill: Bill)
    requires InLockstep(costs, bills) && MatchedTo(costs, after, bill.lines) && FlagsAgree(bill)
    requires forall level: nat :: level >= 2 ==> !Reached(bill, level)
    ensures InLockstep(after, bills + [bill]) && LinesStep(costs, after)
  {
    var more := bills + [bill];
    forall i | 0 <= i < |more| ensures FlagsAgree(more[i]) && LinesKeepUp(after, more[i]) {
      if i < |bills| {
        assert LinesKeepUp(costs, bills[i]) && FlagsAgree(bills[i]);
        forall c: nat, level: nat | Linked(more[i], c) && Reached(more[i], level) && level <= 4
          ensures c < |after| && Rank(after[c].stage) >= level
        {
          assert Linked(bills[i], c);
          assert Reached(bills[i], 0) && Reached(bills[i], 1);
        }
      }
    }
    forall c: nat | c < |after| ensures Explained(after, more, c) && Rank(after[c].created) <= Rank(after[c].stage) {
      if c < |costs| {
        assert Explained(costs, bills, c);
        forall level: nat | Rank(after[c].created) < level <= Rank(after[c].stage) ensures Owed(more, c, level) {
          if level <= Rank(costs[c].stage) {
            assert Owed(bills, c, level);
            var i :| 0 <= i < |bills| && Linked(bills[i], c) && Reached(bills[i], level);
            assert Linked(more[i], c) && Reached(more[i], level);
          } else {
            assert Linked(more[|bills|], c) && Reached(more[|bills|], level);
          }
        }
      }
    }
  }

  /** A cost line added by hand, at any stage, owes nothing to any bill. */
  lemma NewLineKeepsLockstep(costs: seq<CostLine>, bills: seq<Bill>, line: CostLine)
    requires InLockstep(costs, bills) && line.created == line.stage
    ensures InLockstep(costs + [line], bills) && LinesStep(costs, costs + [line])
  {
    var more := costs + [line];
    forall i | 0 <= i < |bills| ensures LinesKeepUp(more, bills[i]) {
      assert LinesKeepUp(costs, bills[i]);
    }
    forall c: nat | c < |more| ensures Explained(more, bills, c) {
      if c < |costs| {
        assert Explained(costs, bills, c);
      }
    }
  }
}
