/** The negative-margin alarm against the shipment's true profit. */
module MarginAlarm {
  import opened Results
  import opened Money
  import opened Tables
  import opened Financial

  function One(alarm: Alarm, shipment: nat): nat {
    if alarm.shipment == shipment && alarm.status != Resolved then 1 else 0
  }

  /** How many active alarms a shipment has. */
  function ActiveCount(alarms: seq<Alarm>, shipment: nat): nat {
    if alarms == [] then 0 else ActiveCount(alarms[..|alarms| - 1], shipment) + One(alarms[|alarms| - 1], shipment)
  }

  /** The loss they carry together. */
  function ActiveLoss(alarms: seq<Alarm>, shipment: nat): int {
    if alarms == [] then 0 else
    var last := alarms[|alarms| - 1];
    ActiveLoss(alarms[..|alarms| - 1], shipment) + One(last, shipment) * last.impact
  }

  /** Never two active alarms for one shipment. */
  ghost predicate OneActive(alarms: seq<Alarm>) {
    forall shipment :: ActiveCount(alarms, shipment) <= 1
  }

  /** Exactly one active alarm, carrying the loss, when the rounded profit is negative; none otherwise. */
  predicate AlarmShows(alarms: seq<Alarm>, shipment: nat, profit: int) {
    if profit < 0 then ActiveCount(alarms, shipment) == 1 && ActiveLoss(alarms, shipment) == -profit
    else ActiveCount(alarms, shipment) == 0
  }

  /** The lookup finds an active alarm when there is one; a single one carries the whole loss. */
  lemma {:induction false} FoundAlarm(alarms: seq<Alarm>, shipment: nat)
    ensures FindActive(alarms, shipment).Some? <==> ActiveCount(alarms, shipment) > 0
    ensures ActiveCount(alarms, shipment) == 0 ==> ActiveLoss(alarms, shipment) == 0
    ensures ActiveCount(alarms, shipment) == 1 ==>
              alarms[FindActive(alarms, shipment).value].impact == ActiveLoss(alarms, shipment)
    decreases |alarms|
  {
    if alarms != [] {
      FoundAlarm(alarms[..|alarms| - 1], shipment);
    }
  }

  lemma {:induction false} AlarmUpdated(alarms: seq<Alarm>, i: nat, after: Alarm, shipment: nat)
    requires i < |alarms|
    ensures ActiveCount(alarms[i := after], shipment)
            == ActiveCount(alarms, shipment) - One(alarms[i], shipment) + One(after, shipment)
    ensures ActiveLoss(alarms[i := after], shipment)
            == ActiveLoss(alarms, shipment) - One(alarms[i], shipment) * alarms[i].impact + One(after, shipment) * after.impact
    decreases |alarms|
  {
    var n := |alarms| - 1;
    if i == n {
      assert alarms[i := after][..n] == alarms[..n];
    } else {
      assert alarms[i := after][..n] == alarms[..n][i := after];
      AlarmUpdated(alarms[..n], i, after, shipment);
    }
  }

  lemma AlarmOpened(alarms: seq<Alarm>, alarm: Alarm, shipment: nat)
    ensures ActiveCount(alarms + [alarm], shipment) == ActiveCount(alarms, shipment) + One(alarm, shipment)
    ensures ActiveLoss(alarms + [alarm], shipment) == ActiveLoss(alarms, shipment) + One(alarm, shipment) * alarm.impact
  {
    assert (alarms + [alarm])[..|alarms|] == alarms;
  }

  /** What a synchronisation does to the counts of any shipment. */
  lemma SyncedCounts(alarms: seq<Alarm>, shipment: nat, profit: int, other: nat)
    requires ActiveCount(alarms, shipment) <= 1
    ensures var after := Synced(alarms, shipment, profit);
            if other == shipment then AlarmShows(after, shipment, profit)
            else ActiveCount(after, other) == ActiveCount(alarms, other) && ActiveLoss(after, other) == ActiveLoss(alarms, other)
  {
    var after, existing := Synced(alarms, shipment, profit), FindActive(alarms, shipment);
    FoundAlarm(alarms, shipment);
    if existing.Some? {
      AlarmUpdated(alarms, existing.value, after[existing.value], other);
    } else if profit < 0 {
      AlarmOpened(alarms, Alarm(shipment, Open, Abs(profit)), other);
    }
  }

  /** From at most one active alarm, one synchronisation puts it right and touches no other shipment's. */
  lemma SyncShowsProfit(alarms: seq<Alarm>, shipment: nat, profit: int)
    requires ActiveCount(alarms, shipment) <= 1
    ensures AlarmShows(Synced(alarms, shipment, profit), shipment, profit)
    ensures forall other :: other != shipment ==>
              && ActiveCount(Synced(alarms, shipment, profit), other) == ActiveCount(alarms, other)
              && ActiveLoss(Synced(alarms, shipment, profit), other) == ActiveLoss(alarms, other)
  {
    SyncedCounts(alarms, shipment, profit, shipment);
    forall other | other != shipment
      ensures ActiveCount(Synced(alarms, shipment, profit), other) == ActiveCount(alarms, other)
      ensures ActiveLoss(Synced(alarms, shipment, profit), other) == ActiveLoss(alarms, other)
    {
      SyncedCounts(alarms, shipment, profit, other);
    }
  }

  lemma SyncKeepsOneActive(alarms: seq<Alarm>, shipment: nat, profit: int)
    requires OneActive(alarms)
    ensures OneActive(Synced(alarms, shipment, profit))
  {
    forall other ensures ActiveCount(Synced(alarms, shipment, profit), other) <= 1 {
      SyncedCounts(alarms, shipment, profit, other);
    }
  }

  /** After every added revenue line the alarm shows the shipment's rounded profit. */
  lemma RevenueLineSyncs(round: int -> int, b: Books, shipment: nat, code: string, amount: int, currency: string, status: RevenueStatus)
    requires OneActive(b.alarms) && AddRevenueLine(round, b, shipment, code, amount, currency, status).Done?
    ensures var after := AddRevenueLine(round, b, shipment, code, amount, currency, status).value;
            OneActive(after.alarms) && AlarmShows(after.alarms, shipment, round(Profit(after, shipment)))
            && Profit(after, shipment) == Profit(b, shipment) + amount
  {
    var after := AddRevenueLine(round, b, shipment, code, amount, currency, status).value;
    SyncKeepsOneActive(b.alarms, shipment, round(Profit(after, shipment)));
    SyncShowsProfit(b.alarms, shipment, round(Profit(after, shipment)));
    assert after.revenues[..|b.revenues|] == b.revenues;
  }

  /** After every added cost line the alarm shows the shipment's rounded profit. */
  lemma CostLineSyncs(round: int -> int, b: Books, shipment: nat, code: string, amount: int, stage: Stage, additional: bool)
    requires OneActive(b.alarms) && AddCostLine(round, b, shipment, code, amount, stage, additional).Done?
    ensures var after := AddCostLine(round, b, shipment, code, amount, stage, additional).value;
            OneActive(after.alarms) && AlarmShows(after.alarms, shipment, round(Profit(after, shipment)))
            && Profit(after, shipment) == Profit(b, shipment) - amount
  {
    var after := AddCostLine(round, b, shipment, code, amount, stage, additional).value;
    SyncKeepsOneActive(b.alarms, shipment, round(Profit(after, shipment)));
    SyncShowsProfit(b.alarms, shipment, round(Profit(after, shipment)));
    assert after.costs[..|b.costs|] == b.costs;
  }

  /**
   A synchronised alarm is active exactly when the profit rounds to a loss. A loss of more than half a cent
   always does, a loss below half a cent never does; a loss of exactly half a cent is a tie.
   */
  lemma AlarmThreshold(round: int -> int, alarms: seq<Alarm>, shipment: nat, profit: int)
    requires Rounds(round) && AlarmShows(alarms, shipment, round(profit))
    ensures FindActive(alarms, shipment).Some? <==> round(profit) < 0
    ensures profit < -HALF_CENT ==> FindActive(alarms, shipment).Some?
    ensures profit > -HALF_CENT ==> FindActive(alarms, shipment).None?
  {
    FoundAlarm(alarms, shipment);
    Near(round, profit);
    if profit > -HALF_CENT {
      WholeCentsApart(0, round(profit));
    }
    if profit < -HALF_CENT {
      WholeCentsApart(round(profit), -100);
    }
  }

  /** In whole cents the alarm is active exactly when costs exceed revenue, and carries the exact loss. */
  lemma AlarmInWholeCents(round: int -> int, alarms: seq<Alarm>, shipment: nat, profit: int)
    requires Rounds(round) && WholeCents(profit) && AlarmShows(alarms, shipment, round(profit))
    ensures FindActive(alarms, shipment).Some? <==> profit < 0
    ensures FindActive(alarms, shipment).Some? ==> alarms[FindActive(alarms, shipment).value].impact == -profit
  {
    FoundAlarm(alarms, shipment);
    RoundFixesWholeCents(round, profit);
  }

  /** The plain claim is false below half a cent: a loss of 0.0040 raises no alarm under any rounding. */
  lemma SmallLossIsSilent(round: int -> int, code: string)
    requires Rounds(round) && code != ""
    ensures var b := Books({1}, [], [], [], [], [], [], [], []);
            var after := AddCostLine(round, b, 1, code, 40, Estimated, true);
            after.Done? && Profit(after.value, 1) == -40 && FindActive(after.value.alarms, 1).None?
  {
    var b := Books({1}, [], [], [], [], [], [], [], []);
    CostLineSyncs(round, b, 1, code, 40, Estimated, true);
    var after := AddCostLine(round, b, 1, code, 40, Estimated, true).value;
    AlarmThreshold(round, after.alarms, 1, Profit(after, 1));
  }
}
