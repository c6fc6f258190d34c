/** A shipment's revenue and cost ledgers, its profit, and the alarm kept in step with a negative margin. */
module Financial {
  import opened Results
  import opened Money
  import opened Ledger
  import opened Tables

  // ---------------------------------------------------------------- specification

  function RevenueSum(revenues: seq<RevenueLine>, shipment: nat): int {
    if revenues == [] then 0 else
    var last := revenues[|revenues| - 1];
    RevenueSum(revenues[..|revenues| - 1], shipment) + if last.shipment == shipment then last.amount else 0
  }

  function CostSum(costs: seq<CostLine>, shipment: nat): int {
    if costs == [] then 0 else
    var last := costs[|costs| - 1];
    CostSum(costs[..|costs| - 1], shipment) + if last.shipment == shipment then last.amount else 0
  }

  function Profit(b: Books, shipment: nat): int {
    RevenueSum(b.revenues, shipment) - CostSum(b.costs, shipment)
  }

  predicate Active(alarm: Alarm, shipment: nat) {
    alarm.shipment == shipment && !alarm.status.Resolved?
  }

  function FindActive(alarms: seq<Alarm>, shipment: nat): (r: Option<nat>)
    ensures r.Some? ==> r.value < |alarms| && Active(alarms[r.value], shipment)
    ensures r.None? ==> forall i :: 0 <= i < |alarms| ==> !Active(alarms[i], shipment)
  {
    if alarms == [] then None else
    var n := |alarms| - 1;
    if Active(alarms[n], shipment) then Some(n) else FindActive(alarms[..n], shipment)
  }

  /** The alarm table brought in step with a rounded profit. */
  function Synced(alarms: seq<Alarm>, shipment: nat, profit: int): seq<Alarm> {
    var existing := FindActive(alarms, shipment);
    if profit < 0 then
      if existing.Some? then alarms[existing.value := alarms[existing.value].(impact := Abs(profit))]
      else alarms + [Alarm(shipment, Open, Abs(profit))]
    else if existing.Some? then alarms[existing.value := alarms[existing.value].(status := Resolved)]
    else alarms
  }

  function WithAlarm(round: int -> int, b: Books, shipment: nat): Books {
    b.(alarms := Synced(b.alarms, shipment, round(Profit(b, shipment))))
  }

  /** Charge codes arrive stripped and upper-cased. */
  function AddRevenueLine(round: int -> int, b: Books, shipment: nat, code: string, amount: int, currency: string, status: RevenueStatus): Outcome<Books> {
    if amount < 0 then Refused("Revenue amount cannot be negative")
    else if code == "" then Refused("Charge code is required")
    else if shipment !in b.shipments then Refused("Shipment not found")
    else Done(WithAlarm(round, b.(revenues := b.revenues + [RevenueLine(shipment, code, amount, currency, status, status)]), shipment))
  }

  function AddCostLine(round: int -> int, b: Books, shipment: nat, code: string, amount: int, stage: Stage, additional: bool): Outcome<Books> {
    if amount < 0 then Refused("Cost amount cannot be negative")
    else if code == "" then Refused("Charge code is required")
    else if shipment !in b.shipments then Refused("Shipment not found")
    else Done(WithAlarm(round, b.(costs := b.costs + [CostLine(shipment, code, amount, stage, additional, stage)]), shipment))
  }

  function CorrectEntry(b: Books, id: nat, reason: string, debit: int, credit: int): Outcome<Books> {
    match ReverseAndCorrect(b.entries, id, reason, debit, credit)
    case Refused(why) => Refused(why)
    case Done(entries) => Done(b.(entries := entries))
  }

  /**
   A revenue or cost line is accepted exactly of an amount that is not negative, with a code, on a known
   shipment; it is the next row, as given, and only the alarms change besides.
   */
  lemma AddedExactly(round: int -> int, b: Books, shipment: nat, code: string, amount: int, currency: string, status: RevenueStatus, stage: Stage, additional: bool)
    ensures var outcome := AddRevenueLine(round, b, shipment, code, amount, currency, status);
            && (outcome.Done? <==> amount >= 0 && code != "" && shipment in b.shipments)
            && (outcome.Done? ==>
                  outcome.value == b.(revenues := b.revenues + [RevenueLine(shipment, code, amount, currency, status, status)],
                                      alarms := outcome.value.alarms))
    ensures var outcome := AddCostLine(round, b, shipment, code, amount, stage, additional);
            && (outcome.Done? <==> amount >= 0 && code != "" && shipment in b.shipments)
            && (outcome.Done? ==>
                  outcome.value == b.(costs := b.costs + [CostLine(shipment, code, amount, stage, additional, stage)],
                                      alarms := outcome.value.alarms))
  {
  }

  // ---------------------------------------------------------------- the service

  class ShipmentFinancialService {
    const session: Session
    const round: int -> int

    constructor (session: Session, round: int -> int)
      ensures this.session == session && this.round == round
    {
      this.session, this.round := session, round;
    }

    method GetProfitability(shipment: nat) returns (revenue: int, cost: int, profit: int)
      ensures profit == round(Profit(session.Rows(), shipment))
      ensures revenue == round(RevenueSum(session.revenues, shipment)) && cost == round(CostSum(session.costs, shipment))
    {
      var grossRevenue, directCost := 0, 0;
      for n := 0 to |session.revenues|
        invariant grossRevenue == RevenueSum(session.revenues[..n], shipment)
      {
        assert session.revenues[..n + 1][..n] == session.revenues[..n];
        if session.revenues[n].shipment == shipment {
          grossRevenue := grossRevenue + session.revenues[n].amount;
        }
      }
      for n := 0 to |session.costs|
        invariant directCost == CostSum(session.costs[..n], shipment)
      {
        assert session.costs[..n + 1][..n] == session.costs[..n];
        if session.costs[n].shipment == shipment {
          directCost := directCost + session.costs[n].amount;
        }
      }
      assert session.revenues[..|session.revenues|] == session.revenues;
      assert session.costs[..|session.costs|] == session.costs;
      revenue, cost, profit := round(grossRevenue), round(directCost), round(grossRevenue - directCost);
    }

    method SyncNegativeMargin(shipment: nat, profit: int)
      modifies session`alarms
      ensures session.alarms == Synced(old(session.alarms), shipment, profit)
    {
      var existing := FindActive(session.alarms, shipment);
      if profit < 0 {
        if existing.Some? {
          session.alarms := session.alarms[existing.value := session.alarms[existing.value].(impact := Abs(profit))];
        } else {
          session.alarms := session.alarms + [Alarm(shipment, Open, Abs(profit))];
        }
      } else if existing.Some? {
        session.alarms := session.alarms[existing.value := session.alarms[existing.value].(status := Resolved)];
      }
    }

    method AddRevenue(shipment: nat, code: string, amount: int, currency: string, status: RevenueStatus) returns (r: Outcome<nat>)
      modifies session
      ensures match AddRevenueLine(round, old(session.Rows()), shipment, code, amount, currency, status)
              case Done(after) => session.Rows() == after && r == Done(|after.revenues| - 1)
              case Refused(reason) => session.Rows() == old(session.Rows()) && r == Refused(reason)
    {
      if amount < 0 {
        return Refused("Revenue amount cannot be negative");
      }
      if code == "" {
        return Refused("Charge code is required");
      }
      if shipment !in session.shipments {
        return Refused("Shipment not found");
      }
      session.revenues := session.revenues + [RevenueLine(shipment, code, amount, currency, status, status)];
      var _, _, profit := GetProfitability(shipment);
      SyncNegativeMargin(shipment, profit);
      r := Done(|session.revenues| - 1);
    }

    method AddCost(shipment: nat, code: string, amount: int, stage: Stage, additional: bool) returns (r: Outcome<nat>)
      modifies session
      ensures match AddCostLine(round, old(session.Rows()), shipment, code, amount, stage, additional)
              case Done(after) => session.Rows() == after && r == Done(|after.costs| - 1)
              case Refused(reason) => session.Rows() == old(session.Rows()) && r == Refused(reason)
    {
      if amount < 0 {
        return Refused("Cost amount cannot be negative");
      }
      if code == "" {
        return Refused("Charge code is required");
      }
      if shipment !in session.shipments {
        return Refused("Shipment not found");
      }
      session.costs := session.costs + [CostLine(shipment, code, amount, stage, additional, stage)];
      var _, _, profit := GetProfitability(shipment);
      SyncNegativeMargin(shipment, profit);
      r := Done(|session.costs| - 1);
    }

    method ReverseAndCorrectEntry(id: nat, reason: string, debit: int, credit: int) returns (r: Outcome<(nat, nat)>)
      modifies session
      ensures match CorrectEntry(old(session.Rows()), id, reason, debit, credit)
              case Done(after) => session.Rows() == after && r == Done((|after.entries| - 2, |after.entries| - 1))
              case Refused(why) => session.Rows() == old(session.Rows()) && r == Refused(why)
    {
      if |reason| < 3 {
        return Refused("Reversal reason is required");
      }
      if debit < 0 || credit < 0 {
        return Refused("Financial amounts cannot be negative");
      }
      if id >= |session.entries| {
        return Refused("Financial entry not found");
      }
      var original := session.entries[id];
      if original.status != Posted {
        return Refused("Must be POSTED");
      }
      session.entries := session.entries[id := original.(status := Reversed)];
      var reversal := |session.entries|;
      session.entries := session.entries
        + [Entry(original.shipment, ReversalOf(original.kind), original.credit, original.debit, original.currency, Some(id), Reversal)];
      session.entries := session.entries
        + [Entry(original.shipment, original.kind, debit, credit, original.currency, Some(reversal), Posted)];
      r := Done((reversal, reversal + 1));
    }
  }
}
