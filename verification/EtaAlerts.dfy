/** Deviation alerts: the latest recorded ETA of each leg against the first one. */
module EtaAlerts {
  import opened Results
  import opened EtaCascade
  import opened EtaService

  datatype Severity = Info | Warning | Critical

  datatype Alert = Alert(leg: nat, severity: Severity, delay: int, original: Version, latest: Version, notify: bool)

  const DAY := 86_400

  /** How serious a delay is: under a firm commitment every positive one is critical. */
  function SeverityOf(delay: int, firm: bool): Option<Severity> {
    if delay <= 0 then None
    else if firm || delay > 7 * DAY then Some(Critical)
    else if delay > 3 * DAY then Some(Warning)
    else if delay > DAY then Some(Info)
    else None
  }

  /** First of the records sorted by version: the earliest one with the least number. */
  function Oldest(rows: seq<Version>): (v: Version)
    requires rows != []
    ensures v in rows && forall r :: r in rows ==> v.version <= r.version
  {
    var last := rows[|rows| - 1];
    if |rows| == 1 then last else
    var v := Oldest(rows[..|rows| - 1]);
    if last.version < v.version then last else v
  }

  /** Last of the records sorted by version. */
  function Newest(rows: seq<Version>): (v: Version)
    requires rows != []
    ensures v in rows && forall r :: r in rows ==> r.version <= v.version
  {
    var last := rows[|rows| - 1];
    if |rows| == 1 then last else
    var v := Newest(rows[..|rows| - 1]);
    if last.version >= v.version then last else v
  }

  function AlertOf(leg: nat, original: Version, latest: Version, firm: bool): Option<Alert> {
    var delay := latest.value - original.value;
    match SeverityOf(delay, firm)
    case None => None
    case Some(severity) => Some(Alert(leg, severity, delay, original, latest, severity.Critical?))
  }

  /** The alert one leg's records call for. */
  function AlertFor(records: seq<Version>, leg: nat, firm: bool): Option<Alert> {
    var rows := Rows(records, leg, ETA);
    if rows == [] then None else AlertOf(leg, Oldest(rows), Newest(rows), firm)
  }

  /** The groups hold exactly the ETA records of every leg that has any. */
  ghost predicate Grouped(groups: map<nat, seq<Version>>, records: seq<Version>) {
    && (forall leg: nat :: Rows(records, leg, ETA) == ListOf(groups, leg))
    && (forall leg :: leg in groups ==> groups[leg] != [])
  }

  /** Every grouped leg once. */
  ghost predicate Listed(legs: set<nat>, order: seq<nat>) {
    (forall leg :: leg in legs <==> leg in order) && forall i, j :: 0 <= i < j < |order| ==> order[i] != order[j]
  }

  lemma RowsSnoc(records: seq<Version>, n: nat, leg: nat)
    requires n < |records|
    ensures Rows(records[..n + 1], leg, ETA)
            == Rows(records[..n], leg, ETA) + if records[n].leg == leg && records[n].kind.ETA? then [records[n]] else []
  {
    assert records[..n + 1][..n] == records[..n];
  }

  /** One record added to its leg's list. */
  function Added(groups: map<nat, seq<Version>>, r: Version): map<nat, seq<Version>> {
    groups[r.leg := (if r.leg in groups then groups[r.leg] else []) + [r]]
  }

  /** One leg's list, if there is any. */
  function ListOf(groups: map<nat, seq<Version>>, leg: nat): seq<Version> {
    if leg in groups then groups[leg] else []
  }

  lemma AddedList(groups: map<nat, seq<Version>>, r: Version, leg: nat)
    ensures ListOf(Added(groups, r), leg) == ListOf(groups, leg) + if r.leg == leg then [r] else []
  {
  }

  lemma GroupStep(groups: map<nat, seq<Version>>, records: seq<Version>, n: nat)
    requires n < |records| && Grouped(groups, records[..n])
    ensures Grouped(if records[n].kind.ETA? then Added(groups, records[n]) else groups, records[..n + 1])
  {
    var r := records[n];
    var after := if r.kind.ETA? then Added(groups, r) else groups;
    forall leg: nat ensures Rows(records[..n + 1], leg, ETA) == ListOf(after, leg) {
      RowsSnoc(records, n, leg);
      AddedList(groups, r, leg);
      assert Rows(records[..n], leg, ETA) == ListOf(groups, leg);
    }
  }

  lemma ListedStep(legs: set<nat>, order: seq<nat>, leg: nat)
    requires Listed(legs, order)
    ensures Listed(legs + {leg}, if leg in legs then order else order + [leg])
  {
    assert forall i :: 0 <= i < |order| ==> order[i] in order;
  }

  method AddRecord(groups: map<nat, seq<Version>>, order: seq<nat>, r: Version)
    returns (after: map<nat, seq<Version>>, legs: seq<nat>)
    ensures after == Added(groups, r) && legs == if r.leg in groups then order else order + [r.leg]
  {
    after, legs := groups, order;
    if r.leg !in after {
      after := after[r.leg := []];
      legs := legs + [r.leg];
    }
    after := after[r.leg := after[r.leg] + [r]];
  }

  method GroupByLeg(records: seq<Version>) returns (groups: map<nat, seq<Version>>, order: seq<nat>)
    ensures Grouped(groups, records) && Listed(groups.Keys, order)
  {
    groups := map[];
    order := [];
    for n := 0 to |records|
      invariant Grouped(groups, records[..n]) && Listed(groups.Keys, order)
    {
      GroupStep(groups, records, n);
      if records[n].kind.ETA? {
        ListedStep(groups.Keys, order, records[n].leg);
        ghost var legs := groups.Keys + {records[n].leg};
        groups, order := AddRecord(groups, order, records[n]);
        assert groups.Keys == legs;
      }
    }
    assert records[..|records|] == records;
  }

  method AlertOne(leg: nat, original: Version, latest: Version, firm: bool) returns (alert: Option<Alert>)
    ensures alert == AlertOf(leg, original, latest, firm)
  {
    var delay := latest.value - original.value;
    if delay <= 0 {
      return None;
    }
    var severity: Option<Severity> := None;
    var notify := false;
    if firm {
      severity, notify := Some(Critical), true;
    } else if delay > 7 * DAY {
      severity, notify := Some(Critical), true;
    } else if delay > 3 * DAY {
      severity := Some(Warning);
    } else if delay > DAY {
      severity := Some(Info);
    }
    alert := if severity.None? then None else Some(Alert(leg, severity.value, delay, original, latest, notify));
  }

  /** The alerts of these legs, in this order. */
  function Collected(records: seq<Version>, legs: seq<nat>, firm: bool): seq<Alert> {
    if legs == [] then [] else
    var alert := AlertFor(records, legs[|legs| - 1], firm);
    Collected(records, legs[..|legs| - 1], firm) + if alert.Some? then [alert.value] else []
  }

  lemma {:induction false} CollectedOnce(records: seq<Version>, legs: seq<nat>, firm: bool)
    requires forall i, j :: 0 <= i < j < |legs| ==> legs[i] != legs[j]
    ensures forall a :: a in Collected(records, legs, firm) ==> a.leg in legs && AlertFor(records, a.leg, firm) == Some(a)
    ensures forall leg :: leg in legs && AlertFor(records, leg, firm).Some? ==>
              AlertFor(records, leg, firm).value in Collected(records, legs, firm)
    ensures forall i, j :: 0 <= i < j < |Collected(records, legs, firm)| ==>
              Collected(records, legs, firm)[i].leg != Collected(records, legs, firm)[j].leg
    decreases |legs|
  {
    if legs != [] {
      var n := |legs| - 1;
      CollectedOnce(records, legs[..n], firm);
      assert legs == legs[..n] + [legs[n]];
      assert legs[n] !in legs[..n];
    }
  }

  /** A grouped leg's alert is the one its records call for; any other leg calls for none. */
  lemma GroupedAlert(groups: map<nat, seq<Version>>, records: seq<Version>, leg: nat, firm: bool)
    requires Grouped(groups, records)
    ensures leg in groups ==> groups[leg] != []
                              && AlertFor(records, leg, firm) == AlertOf(leg, Oldest(groups[leg]), Newest(groups[leg]), firm)
    ensures leg !in groups ==> AlertFor(records, leg, firm) == None
  {
    assert Rows(records, leg, ETA) == ListOf(groups, leg);
  }

  lemma CollectedSnoc(records: seq<Version>, order: seq<nat>, n: nat, firm: bool)
    requires n < |order|
    ensures Collected(records, order[..n + 1], firm)
            == Collected(records, order[..n], firm)
               + var alert := AlertFor(records, order[n], firm); if alert.Some? then [alert.value] else []
  {
    assert order[..n + 1][..n] == order[..n];
  }

  /** One alert for every leg that calls for one, and nothing else. */
  method EvaluateEtaDeviations(records: seq<Version>, firm: bool) returns (alerts: seq<Alert>)
    ensures forall a :: a in alerts ==> AlertFor(records, a.leg, firm) == Some(a)
    ensures forall leg :: AlertFor(records, leg, firm).Some? ==> AlertFor(records, leg, firm).value in alerts
    ensures forall i, j :: 0 <= i < j < |alerts| ==> alerts[i].leg != alerts[j].leg
  {
    var groups, order := GroupByLeg(records);
    alerts := [];
    for n := 0 to |order|
      invariant alerts == Collected(records, order[..n], firm)
    {
      assert order[n] in groups;
      GroupedAlert(groups, records, order[n], firm);
      CollectedSnoc(records, order, n, firm);
      var alert := AlertOne(order[n], Oldest(groups[order[n]]), Newest(groups[order[n]]), firm);
      if alert.Some? {
        alerts := alerts + [alert.value];
      }
    }
    assert order[..|order|] == order;
    CollectedOnce(records, order, firm);
    forall leg | AlertFor(records, leg, firm).Some? ensures leg in order {
      GroupedAlert(groups, records, leg, firm);
    }
  }

  lemma {:induction false} RowsMembers(history: seq<Version>, leg: nat, kind: Kind, v: Version)
    ensures v in Rows(history, leg, kind) <==> v in history && v.leg == leg && v.kind == kind
  {
    if history != [] {
      RowsMembers(history[..|history| - 1], leg, kind, v);
      assert history == history[..|history| - 1] + [history[|history| - 1]];
    }
  }

  /** Versions 1..n in any order: the oldest is number 1 and the newest is number n. */
  lemma NumberedEnds(rows: seq<Version>, fetched: seq<Version>)
    requires rows != [] && fetched != [] && forall v :: v in rows <==> v in fetched
    requires forall i :: 0 <= i < |rows| ==> rows[i].version == i + 1
    ensures Oldest(fetched) == rows[0] && Newest(fetched) == rows[|rows| - 1]
  {
    var first, last := rows[0], rows[|rows| - 1];
    assert first in fetched && last in fetched;
    var i :| 0 <= i < |rows| && rows[i] == Oldest(fetched);
    var j :| 0 <= j < |rows| && rows[j] == Newest(fetched);
  }

  /**
   In a consistent history the alert depends only on the first recorded ETA and the one the leg shows now,
   whatever order the records are fetched in.
   */
  lemma AlertComparesFirstWithCurrent(st: State, records: seq<Version>, leg: nat, firm: bool)
    requires Consistent(st) && forall v :: v in records <==> v in st.history
    ensures var rows := Rows(st.history, leg, ETA);
            if rows == [] then AlertFor(records, leg, firm) == None
            else
              && AlertFor(records, leg, firm) == AlertOf(leg, rows[0], rows[|rows| - 1], firm)
              && Shown(st.legs, leg, ETA) == Some(rows[|rows| - 1].value)
  {
    var rows, fetched := Rows(st.history, leg, ETA), Rows(records, leg, ETA);
    assert InStep(st, leg, ETA);
    SameMembers(st.history, records, leg);
    assert fetched == [] || fetched[0] in fetched;
    assert rows == [] || rows[0] in rows;
    if rows != [] {
      NumberedEnds(rows, fetched);
    }
  }

  lemma SameMembers(history: seq<Version>, records: seq<Version>, leg: nat)
    requires forall v :: v in records <==> v in history
    ensures forall v :: v in Rows(history, leg, ETA) <==> v in Rows(records, leg, ETA)
  {
    forall v ensures v in Rows(history, leg, ETA) <==> v in Rows(records, leg, ETA) {
      RowsMembers(history, leg, ETA, v);
      RowsMembers(records, leg, ETA, v);
    }
  }

  // ---------------------------------------------------------------- how alerts follow the ETA

  function Level(alert: Option<Alert>): nat {
    match alert
    case None => 0
    case Some(a) => match a.severity case Info => 1 case Warning => 2 case Critical => 3
  }

  /** A longer delay or a firm commitment never lowers the alert; the customer is told exactly of critical ones. */
  lemma AlertsGrow(leg: nat, original: Version, latest: Version, later: Version, firm: bool)
    requires latest.value <= later.value
    ensures Level(AlertOf(leg, original, latest, firm)) <= Level(AlertOf(leg, original, later, firm))
    ensures Level(AlertOf(leg, original, latest, firm)) <= Level(AlertOf(leg, original, latest, true))
    ensures AlertOf(leg, original, latest, firm).Some? ==>
              (AlertOf(leg, original, latest, firm).value.notify <==> Level(AlertOf(leg, original, latest, firm)) == 3)
  {
  }

  /** A leg has an alert exactly when the ETA it shows is past its first one: by a day, or at all when the commitment is firm. */
  lemma AlertIsRaisedExactly(st: State, records: seq<Version>, leg: nat, firm: bool)
    requires Consistent(st) && forall v :: v in records <==> v in st.history
    ensures var rows := Rows(st.history, leg, ETA);
            AlertFor(records, leg, firm).Some?
            <==> rows != [] && Shown(st.legs, leg, ETA).Some? && Shown(st.legs, leg, ETA).value - rows[0].value > (if firm then 0 else 86_400)
  {
    AlertComparesFirstWithCurrent(st, records, leg, firm);
  }

  /**
   The alert in full, by the seconds the shown ETA is past the first one: more than seven days, or any delay
   of a firm commitment, is critical and told to the customer; more than three is a warning; more than one is
   for information.
   */
  lemma AlertIsExactly(st: State, records: seq<Version>, leg: nat, firm: bool)
    requires Consistent(st) && forall v :: v in records <==> v in st.history
    ensures var rows := Rows(st.history, leg, ETA);
            rows != [] ==>
              && Shown(st.legs, leg, ETA).Some?
              && var delay := Shown(st.legs, leg, ETA).value - rows[0].value;
                 var last := rows[|rows| - 1];
                 AlertFor(records, leg, firm)
                 == if delay > 604_800 || (firm && delay > 0) then Some(Alert(leg, Critical, delay, rows[0], last, true))
                    else if delay > 259_200 then Some(Alert(leg, Warning, delay, rows[0], last, false))
                    else if delay > 86_400 then Some(Alert(leg, Info, delay, rows[0], last, false))
                    else None
    ensures Rows(st.history, leg, ETA) == [] ==> AlertFor(records, leg, firm) == None
  {
    AlertComparesFirstWithCurrent(st, records, leg, firm);
  }

  lemma {:induction false} RowsGrow(history: seq<Version>, more: seq<Version>, leg: nat)
    requires history <= more
    ensures Rows(history, leg, ETA) <= Rows(more, leg, ETA)
    decreases |more|
  {
    if |history| < |more| {
      RowsGrow(history, more[..|more| - 1], leg);
    } else {
      assert history == more;
    }
  }

  /** What a leg's records, oldest first, call for. */
  function AlertOfRows(leg: nat, rows: seq<Version>, firm: bool): Option<Alert> {
    if rows == [] then None else AlertOf(leg, rows[0], rows[|rows| - 1], firm)
  }

  lemma AlertOfHistory(st: State, leg: nat, firm: bool)
    requires Consistent(st)
    ensures AlertFor(st.history, leg, firm) == AlertOfRows(leg, Rows(st.history, leg, ETA), firm)
  {
    AlertComparesFirstWithCurrent(st, st.history, leg, firm);
  }

  /** More records, of which the last shows no earlier a time. */
  predicate NoEarlier(rows: seq<Version>, more: seq<Version>) {
    rows != [] ==> more != [] && more[0] == rows[0] && rows[|rows| - 1].value <= more[|more| - 1].value
  }

  lemma LaterRowsNeverCalm(leg: nat, rows: seq<Version>, more: seq<Version>, firm: bool)
    requires NoEarlier(rows, more)
    ensures Level(AlertOfRows(leg, rows, firm)) <= Level(AlertOfRows(leg, more, firm))
  {
    if rows != [] {
      AlertsGrow(leg, rows[0], rows[|rows| - 1], more[|more| - 1], firm);
    }
  }

  lemma LaterHistoryNeverCalms(st: State, after: State, leg: nat, firm: bool)
    requires Consistent(st) && Consistent(after)
    requires NoEarlier(Rows(st.history, leg, ETA), Rows(after.history, leg, ETA))
    ensures Level(AlertFor(st.history, leg, firm)) <= Level(AlertFor(after.history, leg, firm))
  {
    AlertOfHistory(st, leg, firm);
    AlertOfHistory(after, leg, firm);
    LaterRowsNeverCalm(leg, Rows(st.history, leg, ETA), Rows(after.history, leg, ETA), firm);
  }

  lemma ShownIsTime(legs: seq<Leg>, i: nat)
    requires DistinctIds(legs) && i < |legs|
    ensures Shown(legs, legs[i].id, ETA) == legs[i].eta
  {
    IndexOfFirst(legs, i);
  }

  /** Where the leg shows no earlier an ETA than before, its newest record is no earlier than before. */
  lemma ShownDecides(st: State, after: State, i: nat)
    requires Consistent(st) && Consistent(after) && SameIds(st.legs, after.legs) && st.history <= after.history && i < |st.legs|
    requires Rows(st.history, st.legs[i].id, ETA) != [] && st.legs[i].eta.Some? && after.legs[i].eta.Some? ==>
               st.legs[i].eta.value <= after.legs[i].eta.value
    ensures NoEarlier(Rows(st.history, st.legs[i].id, ETA), Rows(after.history, st.legs[i].id, ETA))
  {
    var id := st.legs[i].id;
    RowsGrow(st.history, after.history, id);
    assert InStep(st, id, ETA) && InStep(after, id, ETA);
    ShownIsTime(st.legs, i);
    ShownIsTime(after.legs, i);
  }

  /**
   A report lowers no leg's alert, upstream, reported or downstream, unless it moves an arrival the leg was
   recorded with to an earlier one.
   */
  lemma LaterReportNeverCalms(st: State, r: Request, i: nat, firm: bool)
    requires Consistent(st) && r.kind == "ETA" && Step(st, r).Done? && i < |st.legs|
    requires Rows(st.history, st.legs[i].id, ETA) != [] && st.legs[i].eta.Some? ==>
               ReportKeeps(st.legs, IndexOf(st.legs, r.leg).value, r.value, MIN_CONNECTION, i)
    ensures Level(AlertFor(st.history, st.legs[i].id, firm)) <= Level(AlertFor(Step(st, r).value.history, st.legs[i].id, firm))
  {
    var after := Step(st, r).value;
    StepKeepsConsistent(st, r);
    StepIsReport(st, r);
    if st.legs[i].eta.Some? {
      ReportKeepsExactly(st.legs, IndexOf(st.legs, r.leg).value, r.value, MIN_CONNECTION, i);
    }
    ShownDecides(st, after, i);
    LaterHistoryNeverCalms(st, after, st.legs[i].id, firm);
  }
}
