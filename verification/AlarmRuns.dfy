/**
 The margin alarm over runs. Added lines synchronise it and recorded bills do not, so it shows the profit
 there would be without the extra charges billed since the shipment's last added line.
 */
module AlarmRuns {
  import opened Results
  import opened Money
  import opened Ledger
  import opened Tables
  import opened Payables
  import opened Invoicing
  import opened Financial
  import opened MarginAlarm
  import opened Engine

  predicate AddsLine(op: Op) {
    op.GL? && !op.gl.CorrectOne?
  }

  predicate RecordsBill(op: Op) {
    op.AP? && op.ap.RecordBill?
  }

  // ---------------------------------------------------------------- how operations move profit

  /** What a bill charges beyond the cost ledger, seen before it is recorded. */
  function Extra(costs: seq<CostLine>, shipment: nat, lines: seq<LineRequest>): int {
    if lines == [] then 0 else
    var last := lines[|lines| - 1];
    Extra(costs, shipment, lines[..|lines| - 1]) + if IsExtra(costs, shipment, last) then last.billed else 0
  }

  lemma {:induction false} StagesDoNotCost(before: seq<CostLine>, after: seq<CostLine>, shipment: nat)
    requires SameAmounts(before, after)
    ensures CostSum(after, shipment) == CostSum(before, shipment)
    decreases |before|
  {
    if before != [] {
      StagesDoNotCost(before[..|before| - 1], after[..|after| - 1], shipment);
    }
  }

  lemma {:induction false} StatusDoesNotEarn(before: seq<RevenueLine>, after: seq<RevenueLine>, shipment: nat)
    requires |before| == |after| && forall r :: 0 <= r < |before| ==> after[r].amount == before[r].amount && after[r].shipment == before[r].shipment
    ensures RevenueSum(after, shipment) == RevenueSum(before, shipment)
    decreases |before|
  {
    if before != [] {
      StatusDoesNotEarn(before[..|before| - 1], after[..|after| - 1], shipment);
    }
  }

  /** Matching one line costs its shipment what is billed if the line is extra, and nothing otherwise. */
  lemma MatchedLineCost(round: int -> int, original: seq<CostLine>, current: seq<CostLine>, billLines: seq<BillLine>,
                        shipment: nat, line: LineRequest, s: nat)
    requires MatchLine(round, original, current, billLines, shipment, line).Done?
    ensures line.billed > 0
    ensures CostSum(MatchLine(round, original, current, billLines, shipment, line).value.0, s)
            == CostSum(current, s) + if s == shipment && IsExtra(original, shipment, line) then line.billed else 0
  {
    var after := MatchLine(round, original, current, billLines, shipment, line).value.0;
    if IsExtra(original, shipment, line) {
      assert after[..|current|] == current;
    } else {
      StagesDoNotCost(current, after, s);
    }
  }

  lemma {:induction false} MatchingCost(round: int -> int, costs: seq<CostLine>, shipment: nat, lines: seq<LineRequest>, s: nat)
    requires MatchLines(round, costs, shipment, lines).Done?
    ensures Extra(costs, shipment, lines) >= 0
    ensures CostSum(MatchLines(round, costs, shipment, lines).value.0, s)
            == CostSum(costs, s) + if s == shipment then Extra(costs, shipment, lines) else 0
    decreases |lines|
  {
    if lines != [] {
      var n := |lines| - 1;
      MatchingCost(round, costs, shipment, lines[..n], s);
      var (current, billLines) := MatchLines(round, costs, shipment, lines[..n]).value;
      MatchedLineCost(round, costs, current, billLines, shipment, lines[n], s);
    }
  }

  /** The extra charges an operation would bill to a shipment, from its request and the cost table before it. */
  function ExtraOf(b: Books, op: Op, shipment: nat): int {
    if RecordsBill(op) && op.ap.shipment == shipment then Extra(b.costs, shipment, op.ap.lines) else 0
  }

  /** A recorded bill lowers its own shipment's profit by its extra charges, no other profit, and touches no alarm. */
  lemma BillMovesProfit(round: int -> int, b: Books, op: Op, shipment: nat)
    requires RecordsBill(op) && Apply(round, b, op).Done?
    ensures After(round, b, op).alarms == b.alarms && ExtraOf(b, op, shipment) >= 0
    ensures Profit(After(round, b, op), shipment) == Profit(b, shipment) - ExtraOf(b, op, shipment)
  {
    PayablesLeave(round, b, op.ap);
    MatchingCost(round, b.costs, op.ap.shipment, op.ap.lines, shipment);
  }

  /** Apart from bills and the two ledger additions, no operation moves any profit or any alarm. */
  lemma OtherStepsLeaveProfit(round: int -> int, b: Books, op: Op, shipment: nat)
    requires !RecordsBill(op) && !AddsLine(op)
    ensures After(round, b, op).alarms == b.alarms && Profit(After(round, b, op), shipment) == Profit(b, shipment)
  {
    if Apply(round, b, op).Done? {
      var after := After(round, b, op);
      match op {
        case AP(ap) =>
          PayablesLeave(round, b, ap);
          StagesDoNotCost(b.costs, after.costs, shipment);
        case AR(ar) =>
          InvoicingLeaves(round, b, ar);
          StatusDoesNotEarn(b.revenues, after.revenues, shipment);
        case GL(gl) => FinancialLeaves(round, b, gl);
      }
    }
  }

  lemma AddedLineProfit(round: int -> int, b: Books, op: FinancialOp, shipment: nat)
    requires !op.CorrectOne? && ApplyGL(round, b, op).Done? && shipment != op.shipment
    ensures Profit(ApplyGL(round, b, op).value, shipment) == Profit(b, shipment)
  {
    var after := ApplyGL(round, b, op).value;
    assert op.AddRevenue? ==> after.revenues[..|b.revenues|] == b.revenues;
    assert op.AddCost? ==> after.costs[..|b.costs|] == b.costs;
  }

  // ---------------------------------------------------------------- one step

  lemma AddedLineSyncs(round: int -> int, b: Books, op: FinancialOp)
    requires !op.CorrectOne? && ApplyGL(round, b, op).Done?
    ensures var after := ApplyGL(round, b, op).value; after.alarms == Synced(b.alarms, op.shipment, round(Profit(after, op.shipment)))
  {
  }

  /** The profit the alarm was last synchronised with: only an added line of the shipment brings a new one. */
  function NextSeen(round: int -> int, b: Books, op: Op, shipment: nat, seen: int): int {
    if AddsLine(op) && op.gl.shipment == shipment && Apply(round, b, op).Done? then Profit(After(round, b, op), shipment) else seen
  }

  /** The extra charges billed since: an added line clears them, a bill adds its own. */
  function NextUnseen(round: int -> int, b: Books, op: Op, shipment: nat, unseen: int): int {
    if Apply(round, b, op).Refused? then unseen
    else if AddsLine(op) && op.gl.shipment == shipment then 0
    else unseen + ExtraOf(b, op, shipment)
  }

  lemma StepShowsSeen(round: int -> int, b: Books, op: Op, shipment: nat, seen: int)
    requires OneActive(b.alarms) && AlarmShows(b.alarms, shipment, round(seen))
    ensures AlarmShows(After(round, b, op).alarms, shipment, round(NextSeen(round, b, op, shipment, seen)))
  {
    if Apply(round, b, op).Done? {
      if AddsLine(op) {
        AddedLineSyncs(round, b, op.gl);
        SyncShowsProfit(b.alarms, op.gl.shipment, round(Profit(After(round, b, op), op.gl.shipment)));
      } else if RecordsBill(op) {
        BillMovesProfit(round, b, op, shipment);
      } else {
        OtherStepsLeaveProfit(round, b, op, shipment);
      }
    }
  }

  lemma StepSplitsSeen(round: int -> int, b: Books, op: Op, shipment: nat, seen: int, unseen: nat)
    requires seen == Profit(b, shipment) + unseen
    ensures NextUnseen(round, b, op, shipment, unseen) >= 0
    ensures NextSeen(round, b, op, shipment, seen)
            == Profit(After(round, b, op), shipment) + NextUnseen(round, b, op, shipment, unseen)
  {
    if Apply(round, b, op).Done? {
      if AddsLine(op) {
        if op.gl.shipment != shipment {
          AddedLineProfit(round, b, op.gl, shipment);
        }
      } else if RecordsBill(op) {
        BillMovesProfit(round, b, op, shipment);
      } else {
        OtherStepsLeaveProfit(round, b, op, shipment);
      }
    }
  }

  // ---------------------------------------------------------------- every run

  /** The profit as it was when the shipment last got a revenue or cost line by hand. */
  function Seen(round: int -> int, start: Books, ops: seq<Op>, shipment: nat): int {
    if ops == [] then Profit(start, shipment) else
    var n := |ops| - 1;
    NextSeen(round, Run(round, start, ops[..n]), ops[n], shipment, Seen(round, start, ops[..n], shipment))
  }

  /** The extra charges billed to the shipment since then. */
  function Unseen(round: int -> int, start: Books, ops: seq<Op>, shipment: nat): int {
    if ops == [] then 0 else
    var n := |ops| - 1;
    NextUnseen(round, Run(round, start, ops[..n]), ops[n], shipment, Unseen(round, start, ops[..n], shipment))
  }

  lemma {:induction false} SeenSplits(round: int -> int, start: Books, ops: seq<Op>, shipment: nat)
    ensures Unseen(round, start, ops, shipment) >= 0
    ensures Seen(round, start, ops, shipment) == Profit(Run(round, start, ops), shipment) + Unseen(round, start, ops, shipment)
    decreases |ops|
  {
    if ops != [] {
      var n := |ops| - 1;
      SeenSplits(round, start, ops[..n], shipment);
      StepSplitsSeen(round, Run(round, start, ops[..n]), ops[n], shipment,
                     Seen(round, start, ops[..n], shipment), Unseen(round, start, ops[..n], shipment));
    }
  }

  lemma {:induction false} RunShowsSeen(round: int -> int, shipments: set<nat>, ops: seq<Op>, shipment: nat)
    requires Rounds(round)
    ensures AlarmShows(Run(round, Empty(shipments), ops).alarms, shipment, round(Seen(round, Empty(shipments), ops, shipment)))
    decreases |ops|
  {
    if ops == [] {
      RoundFixesWholeCents(round, 0);
    } else {
      var n := |ops| - 1;
      RunShowsSeen(round, shipments, ops[..n], shipment);
      RunIsSound(round, shipments, ops[..n]);
      StepShowsSeen(round, Run(round, Empty(shipments), ops[..n]), ops[n], shipment, Seen(round, Empty(shipments), ops[..n], shipment));
    }
  }

  /** A table that shows one profit shows a lower one exactly when that is no loss or the same in cents. */
  lemma ShowsLower(round: int -> int, alarms: seq<Alarm>, shipment: nat, seen: int, profit: int)
    requires Rounds(round) && AlarmShows(alarms, shipment, round(seen)) && profit <= seen
    ensures AlarmShows(alarms, shipment, round(profit)) <==> round(profit) >= 0 || round(profit) == round(seen)
  {
    RoundIsMonotone(round, profit, seen);
  }

  /**
   What an alarm shows, rounded, is the profit plus the extra charges billed since the shipment's last added
   line; so it is current exactly when those do not deepen a loss, in cents.
   */
  predicate AlarmRule(round: int -> int, b: Books, shipment: nat, seen: int, unseen: int) {
    && AlarmShows(b.alarms, shipment, round(seen)) && seen == Profit(b, shipment) + unseen && unseen >= 0
    && (AlarmShows(b.alarms, shipment, round(Profit(b, shipment)))
        <==> round(Profit(b, shipment)) >= 0 || round(Profit(b, shipment)) == round(seen))
  }

  lemma SeenObeys(round: int -> int, b: Books, shipment: nat, seen: int, unseen: int)
    requires Rounds(round) && AlarmShows(b.alarms, shipment, round(seen)) && seen == Profit(b, shipment) + unseen && unseen >= 0
    ensures AlarmRule(round, b, shipment, seen, unseen)
  {
    ShowsLower(round, b.alarms, shipment, seen, Profit(b, shipment));
  }

  /** The rule of alarms, of every shipment at every moment of every run. */
  lemma AlarmsOverRuns(round: int -> int, shipments: set<nat>, ops: seq<Op>, shipment: nat)
    requires Rounds(round)
    ensures AlarmRule(round, Run(round, Empty(shipments), ops), shipment,
                      Seen(round, Empty(shipments), ops, shipment), Unseen(round, Empty(shipments), ops, shipment))
  {
    RunShowsSeen(round, shipments, ops, shipment);
    SeenSplits(round, Empty(shipments), ops, shipment);
    SeenObeys(round, Run(round, Empty(shipments), ops), shipment,
              Seen(round, Empty(shipments), ops, shipment), Unseen(round, Empty(shipments), ops, shipment));
  }

  lemma {:induction false} NothingUnseen(round: int -> int, shipments: set<nat>, ops: seq<Op>, shipment: nat)
    requires forall op :: op in ops ==> !RecordsBill(op)
    ensures Unseen(round, Empty(shipments), ops, shipment) == 0
    decreases |ops|
  {
    if ops != [] {
      NothingUnseen(round, shipments, ops[..|ops| - 1], shipment);
      assert ops[|ops| - 1] in ops;
    }
  }

  /** In every run that records no bills, the alarm of every shipment shows its profit at every moment. */
  lemma AlarmsStayCurrent(round: int -> int, shipments: set<nat>, ops: seq<Op>, shipment: nat)
    requires Rounds(round) && forall op :: op in ops ==> !RecordsBill(op)
    ensures var b := Run(round, Empty(shipments), ops); AlarmShows(b.alarms, shipment, round(Profit(b, shipment)))
  {
    RunShowsSeen(round, shipments, ops, shipment);
    SeenSplits(round, Empty(shipments), ops, shipment);
    NothingUnseen(round, shipments, ops, shipment);
  }

  /** From any books with at most one active alarm, an accepted revenue or cost line leaves its shipment's alarm showing the profit. */
  lemma AddedLineShowsProfit(round: int -> int, b: Books, op: Op)
    requires OneActive(b.alarms) && AddsLine(op)
    ensures var after := After(round, b, op);
            Apply(round, b, op).Done? ==> AlarmShows(after.alarms, op.gl.shipment, round(Profit(after, op.gl.shipment)))
  {
    if Apply(round, b, op).Done? {
      AddedLineSyncs(round, b, op.gl);
      SyncShowsProfit(b.alarms, op.gl.shipment, round(Profit(After(round, b, op), op.gl.shipment)));
    }
  }

  /** A recorded bill leaves a current alarm current exactly when its extra charges make no deeper loss, in cents. */
  lemma BillKeepsAlarmExactly(round: int -> int, b: Books, op: Op, shipment: nat)
    requires Rounds(round) && RecordsBill(op) && Apply(round, b, op).Done?
    requires AlarmShows(b.alarms, shipment, round(Profit(b, shipment)))
    ensures var before, lowered := round(Profit(b, shipment)), round(Profit(b, shipment) - ExtraOf(b, op, shipment));
            var after := After(round, b, op);
            AlarmShows(after.alarms, shipment, round(Profit(after, shipment))) <==> lowered >= 0 || lowered == before
  {
    BillMovesProfit(round, b, op, shipment);
    ShowsLower(round, b.alarms, shipment, Profit(b, shipment), Profit(b, shipment) - ExtraOf(b, op, shipment));
  }

  /** Recording a bill does not synchronise: an extra charge of a cent or more leaves a loss without an alarm. */
  lemma BillsBypassTheAlarm(round: int -> int, number: string, code: string, billed: int)
    requires Rounds(round) && billed >= 100
    ensures var b := After(round, Empty({1}), AP(RecordBill(1, number, "USD", 0, [LineRequest(code, billed, None)])));
            Profit(b, 1) == -billed && round(Profit(b, 1)) < 0 && FindActive(b.alarms, 1).None?
  {
    var line := LineRequest(code, billed, None);
    var op := AP(RecordBill(1, number, "USD", 0, [line]));
    OneExtraCharge(round, code, billed);
    assert Empty({1}).costs == [] && !NumberTaken(Empty({1}).bills, number) && [line] != [];
    BillMovesProfit(round, Empty({1}), op, 1);
    assert [line][..0] == [] && Extra([], 1, [line]) == billed;
    Near(round, -billed);
  }
}
