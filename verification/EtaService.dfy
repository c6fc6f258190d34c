/**
 Versioned ETA/ETD history of one shipment, and the cascade applied to it. A request is refused or it
 appends versions and moves legs; nothing recorded is ever rewritten.
 */
module EtaService {
  import opened Results
  import opened EtaCascade

  datatype Version = Version(leg: nat, kind: Kind, version: nat, value: int, source: string)

  datatype State = State(legs: seq<Leg>, history: seq<Version>)

  datatype Request = Request(leg: nat, kind: string, value: int, source: string)

  const SOURCES := {"QUOTATION", "BOOKING", "CARRIER_API", "MANUAL", "TERMINAL", "AUTO_CASCADE"}

  /** The recorded versions of one leg and type, oldest first. */
  function Rows(history: seq<Version>, leg: nat, kind: Kind): seq<Version> {
    if history == [] then [] else
    var last := history[|history| - 1];
    Rows(history[..|history| - 1], leg, kind) + if last.leg == leg && last.kind == kind then [last] else []
  }

  /** The highest version number recorded for one leg and type; 0 when there is none. */
  function Latest(history: seq<Version>, leg: nat, kind: Kind): nat {
    if history == [] then 0 else
    var last, before := history[|history| - 1], Latest(history[..|history| - 1], leg, kind);
    if last.leg == leg && last.kind == kind && last.version > before then last.version else before
  }

  function WithTime(leg: Leg, kind: Kind, value: int): Leg {
    if kind.ETA? then leg.(eta := Some(value)) else leg.(etd := Some(value))
  }

  function TimeOf(leg: Leg, kind: Kind): Option<int> {
    if kind.ETA? then leg.eta else leg.etd
  }

  /** Sets one time of the first leg with this id; an unknown id changes nothing. */
  function SetTime(legs: seq<Leg>, id: nat, kind: Kind, value: int): (moved: seq<Leg>)
    ensures |moved| == |legs|
  {
    match IndexOf(legs, id)
    case None => legs
    case Some(i) => legs[i := WithTime(legs[i], kind, value)]
  }

  /** One immutable version, and the leg's current value with it. */
  function Record(st: State, leg: nat, kind: Kind, value: int, source: string): (after: State)
    ensures |after.legs| == |st.legs|
  {
    State(SetTime(st.legs, leg, kind, value),
          st.history + [Version(leg, kind, Latest(st.history, leg, kind) + 1, value, source)])
  }

  function RecordAll(st: State, moves: seq<Move>): (after: State)
    ensures |after.legs| == |st.legs|
    decreases |moves|
  {
    if moves == [] then st else
    RecordAll(Record(st, moves[0].leg, moves[0].kind, moves[0].value, "AUTO_CASCADE"), moves[1..])
  }

  function KindOf(kind: string): Option<Kind> {
    if kind == "ETA" then Some(ETA) else if kind == "ETD" then Some(ETD) else None
  }

  function Step(st: State, r: Request): (o: Outcome<State>)
    ensures o.Done? ==> |o.value.legs| == |st.legs| && IndexOf(st.legs, r.leg).Some?
  {
    match KindOf(r.kind)
    case None => Refused("Invalid type")
    case Some(kind) =>
      if r.source !in SOURCES then Refused("Invalid source")
      else if IndexOf(st.legs, r.leg).None? then Refused("Leg not found")
      else
        var recorded := Record(st, r.leg, kind, r.value, r.source);
        Done(if kind.ETA? then RecordAll(recorded, Plan(recorded.legs, r.leg, r.value, MIN_CONNECTION)) else recorded)
  }

  function Run(st: State, requests: seq<Request>): State {
    if requests == [] then st else
    var before := Run(st, requests[..|requests| - 1]);
    match Step(before, requests[|requests| - 1])
    case Done(after) => after
    case Refused(_) => before
  }

  // ---------------------------------------------------------------- the service object

  class Service {
    var legs: seq<Leg>
    var history: seq<Version>

    function St(): State
      reads this
    {
      State(legs, history)
    }

    constructor (planned: seq<Leg>)
      ensures St() == State(planned, [])
    {
      legs, history := planned, [];
    }

    method Append(leg: nat, kind: Kind, value: int, source: string)
      modifies this
      ensures St() == Record(old(St()), leg, kind, value, source)
    {
      var next := Latest(history, leg, kind) + 1;
      history := history + [Version(leg, kind, next, value, source)];
      var target := IndexOf(legs, leg);
      if target.Some? {
        var i := target.value;
        if kind.ETA? {
          legs := legs[i := legs[i].(eta := Some(value))];
        } else {
          legs := legs[i := legs[i].(etd := Some(value))];
        }
      }
    }

    method RecordVersion(r: Request) returns (outcome: Outcome<nat>)
      modifies this
      ensures match Step(old(St()), r)
              case Done(after) => St() == after && outcome == Done(Latest(old(history), r.leg, KindOf(r.kind).value) + 1)
              case Refused(reason) => St() == old(St()) && outcome == Refused(reason)
    {
      var kind := KindOf(r.kind);
      if kind.None? {
        return Refused("Invalid type");
      }
      if r.source !in SOURCES {
        return Refused("Invalid source");
      }
      if IndexOf(legs, r.leg).None? {
        return Refused("Leg not found");
      }
      var version := Latest(history, r.leg, kind.value) + 1;
      Append(r.leg, kind.value, r.value, r.source);
      if kind.value.ETA? {
        ghost var recorded := St();
        var plan := CalculateLegCascade(legs, r.leg, r.value, MIN_CONNECTION);
        for i := 0 to |plan|
          invariant RecordAll(St(), plan[i..]) == RecordAll(recorded, plan)
        {
          assert plan[i..][1..] == plan[i + 1..];
          Append(plan[i].leg, plan[i].kind, plan[i].value, "AUTO_CASCADE");
        }
      }
      outcome := Done(version);
    }
  }

  // ---------------------------------------------------------------- the cascade, applied record by record

  ghost predicate DistinctIds(legs: seq<Leg>) {
    forall i, j :: 0 <= i < j < |legs| ==> legs[i].id != legs[j].id
  }

  ghost predicate SameIds(legs: seq<Leg>, moved: seq<Leg>) {
    |legs| == |moved| && forall i :: 0 <= i < |legs| ==> legs[i].id == moved[i].id
  }

  lemma {:induction false} SameIndex(legs: seq<Leg>, moved: seq<Leg>, id: nat)
    requires SameIds(legs, moved)
    ensures IndexOf(legs, id) == IndexOf(moved, id)
    decreases |legs|
  {
    if legs != [] {
      SameIndex(legs[1..], moved[1..], id);
    }
  }

  lemma SetTimeAt(legs: seq<Leg>, k: nat, kind: Kind, value: int)
    requires k < |legs| && DistinctIds(legs)
    ensures SetTime(legs, legs[k].id, kind, value) == legs[k := WithTime(legs[k], kind, value)]
  {
    IndexOfFirst(legs, k);
  }

  /** The two records of one leg set both its times and leave the other legs alone. */
  lemma TwoRecords(st: State, k: nat, t: Times, rest: seq<Move>)
    requires DistinctIds(st.legs) && k < |st.legs|
    ensures var id := st.legs[k].id;
            var two := Record(Record(st, id, ETD, t.etd, "AUTO_CASCADE"), id, ETA, t.eta, "AUTO_CASCADE");
            && two.legs == st.legs[k := Leg(id, Some(t.etd), Some(t.eta))]
            && RecordAll(st, [Move(id, ETD, t.etd), Move(id, ETA, t.eta)] + rest) == RecordAll(two, rest)
  {
    var id := st.legs[k].id;
    var moves := [Move(id, ETD, t.etd), Move(id, ETA, t.eta)] + rest;
    SetTimeAt(st.legs, k, ETD, t.etd);
    SetTimeAt(Record(st, id, ETD, t.etd, "AUTO_CASCADE").legs, k, ETA, t.eta);
    assert moves[1..] == [Move(id, ETA, t.eta)] + rest && moves[1..][1..] == rest;
  }

  /** Applying the planned records one at a time is the same as moving every downstream leg at once. */
  lemma {:induction false} RecordsReschedule(st: State, k: nat, times: seq<Times>)
    requires DistinctIds(st.legs) && k <= |st.legs| && |times| == |st.legs| - k
    ensures RecordAll(st, Moves(st.legs[k..], times)).legs == st.legs[..k] + Reschedule(st.legs[k..], times)
    decreases |times|
  {
    var legs := st.legs;
    if k < |legs| {
      var id, t := legs[k].id, times[0];
      var two := Record(Record(st, id, ETD, t.etd, "AUTO_CASCADE"), id, ETA, t.eta, "AUTO_CASCADE");
      assert legs[k..][1..] == legs[k + 1..];
      TwoRecords(st, k, t, Moves(legs[k + 1..], times[1..]));
      assert two.legs[k + 1..] == legs[k + 1..];
      RecordsReschedule(two, k + 1, times[1..]);
      RescheduleFirst(legs, k, times);
    }
  }

  lemma RescheduleFirst(legs: seq<Leg>, k: nat, times: seq<Times>)
    requires k < |legs| && |times| == |legs| - k
    ensures legs[k := Leg(legs[k].id, Some(times[0].etd), Some(times[0].eta))][..k + 1]
              + Reschedule(legs[k + 1..], times[1..])
            == legs[..k] + Reschedule(legs[k..], times)
  {
    var first := Leg(legs[k].id, Some(times[0].etd), Some(times[0].eta));
    UpdatedPrefix(legs, k, first);
    RescheduleCons(legs[k..], times);
    assert legs[k..][1..] == legs[k + 1..];
    Regroup(legs[..k], [first], Reschedule(legs[k + 1..], times[1..]));
  }

  lemma UpdatedPrefix(legs: seq<Leg>, k: nat, leg: Leg)
    requires k < |legs|
    ensures legs[k := leg][..k + 1] == legs[..k] + [leg]
  {
  }

  lemma RescheduleCons(legs: seq<Leg>, times: seq<Times>)
    requires legs != [] && |times| == |legs|
    ensures Reschedule(legs, times) == [Leg(legs[0].id, Some(times[0].etd), Some(times[0].eta))] + Reschedule(legs[1..], times[1..])
  {
  }

  lemma Regroup(a: seq<Leg>, b: seq<Leg>, c: seq<Leg>)
    ensures a + b + c == a + (b + c)
  {
  }

  /** An accepted ETA request leaves the legs exactly as the report on the whole chain describes. */
  lemma StepIsReport(st: State, r: Request)
    requires DistinctIds(st.legs) && r.kind == "ETA" && Step(st, r).Done?
    ensures var k := IndexOf(st.legs, r.leg).value;
            Step(st, r).value.legs == Report(st.legs, k, r.value, MIN_CONNECTION)
  {
    var k := IndexOf(st.legs, r.leg).value;
    var recorded := Record(st, r.leg, ETA, r.value, r.source);
    SetTimeAt(st.legs, k, ETA, r.value);
    IndexOfFirst(recorded.legs, k);
    var downstream := recorded.legs[k + 1..];
    assert downstream == st.legs[k + 1..];
    RecordsReschedule(recorded, k + 1, Schedule(downstream, r.value, MIN_CONNECTION));
    assert recorded.legs[..k + 1] == st.legs[..k] + [st.legs[k].(eta := Some(r.value))];
  }

  /** A leg keeps its planned duration, and leaves as planned or `gap` after the leg before it arrives, whichever is later. */
  predicate Follows(before: Leg, previous: Leg, after: Leg, gap: int) {
    && previous.eta.Some? && after.etd.Some? && after.eta.Some?
    && KeepsDuration(before, Times(after.etd.value, after.eta.value))
    && var earliest := previous.eta.value + gap;
       after.etd.value == if before.etd.Some? && before.etd.value > earliest then before.etd.value else earliest
  }

  /** What an accepted ETA request does to each leg after the reported one; a connection takes six hours. */
  lemma AcceptedReport(st: State, r: Request, i: nat)
    requires DistinctIds(st.legs) && r.kind == "ETA" && Step(st, r).Done?
    requires IndexOf(st.legs, r.leg).value < i < |st.legs|
    ensures var after := Step(st, r).value.legs; Follows(st.legs[i], after[i - 1], after[i], 21_600)
  {
    StepIsReport(st, r);
    ReportedLeg(st.legs, IndexOf(st.legs, r.leg).value, r.value, MIN_CONNECTION, i);
  }

  lemma ReportedLeg(legs: seq<Leg>, k: nat, arrival: int, gap: int, i: nat)
    requires k < i < |legs|
    ensures var moved := Report(legs, k, arrival, gap); Follows(legs[i], moved[i - 1], moved[i], gap)
  {
    ScheduleAt(legs[k + 1..], arrival, gap, i - k - 1);
    ScheduledLeg(legs, k, arrival, gap, i);
    ScheduledLeg(legs, k, arrival, gap, i - 1);
  }

  lemma ScheduledLeg(legs: seq<Leg>, k: nat, arrival: int, gap: int, i: nat)
    requires k <= i < |legs|
    ensures var moved, times := Report(legs, k, arrival, gap), Schedule(legs[k + 1..], arrival, gap);
            if i == k then moved[i].eta == Some(arrival)
            else moved[i].etd == Some(times[i - k - 1].etd) && moved[i].eta == Some(times[i - k - 1].eta)
  {
    if i > k {
      assert Report(legs, k, arrival, gap)[i] == Reschedule(legs[k + 1..], Schedule(legs[k + 1..], arrival, gap))[i - k - 1];
    }
  }

  /** A request is accepted exactly when its type and source are known and the leg is on the shipment. */
  lemma AcceptedExactly(st: State, r: Request)
    ensures Step(st, r).Done? <==>
            && (r.kind == "ETA" || r.kind == "ETD")
            && r.source in {"QUOTATION", "BOOKING", "CARRIER_API", "MANUAL", "TERMINAL", "AUTO_CASCADE"}
            && exists i :: 0 <= i < |st.legs| && st.legs[i].id == r.leg
  {
  }

  /** An accepted request is recorded first, as the next version of its leg and type; an ETD request does no more than set its leg. */
  lemma RecordedAsSent(st: State, r: Request)
    requires Consistent(st) && Step(st, r).Done?
    ensures var after, kind := Step(st, r).value, if r.kind == "ETA" then ETA else ETD;
            && |after.history| > |st.history|
            && after.history[|st.history|] == Version(r.leg, kind, |Rows(st.history, r.leg, kind)| + 1, r.value, r.source)
            && (r.kind == "ETD" ==>
                  && |after.history| == |st.history| + 1
                  && forall i :: 0 <= i < |st.legs| ==>
                       after.legs[i] == if st.legs[i].id == r.leg then st.legs[i].(etd := Some(r.value)) else st.legs[i])
  {
    var k, kind := IndexOf(st.legs, r.leg).value, KindOf(r.kind).value;
    var recorded := Record(st, r.leg, kind, r.value, r.source);
    assert InStep(st, r.leg, kind);
    SetTimeAt(st.legs, k, kind, r.value);
    if r.kind == "ETA" {
      RecordAllGrows(recorded, Plan(recorded.legs, r.leg, r.value, MIN_CONNECTION));
    }
  }

  /** What a cascade adds is recorded in plan order, each row with the source of a cascade. */
  lemma {:induction false} RecordAllGrows(st: State, moves: seq<Move>)
    ensures var after := RecordAll(st, moves).history;
            && st.history <= after && |after| == |st.history| + |moves|
            && forall i :: 0 <= i < |moves| ==>
                 var v := after[|st.history| + i];
                 v.leg == moves[i].leg && v.kind == moves[i].kind && v.value == moves[i].value && v.source == "AUTO_CASCADE"
    decreases |moves|
  {
    if moves != [] {
      var one := Record(st, moves[0].leg, moves[0].kind, moves[0].value, "AUTO_CASCADE");
      var after := RecordAll(st, moves).history;
      RecordAllGrows(one, moves[1..]);
      assert after[|st.history|] == one.history[|st.history|];
      forall i | 0 < i < |moves|
        ensures var v := after[|st.history| + i];
                v.leg == moves[i].leg && v.kind == moves[i].kind && v.value == moves[i].value && v.source == "AUTO_CASCADE"
      {
        assert moves[i] == moves[1..][i - 1] && |st.history| + i == |one.history| + (i - 1);
      }
    }
  }

  /** The current value of a leg, if there is such a leg and it has one. */
  function Shown(legs: seq<Leg>, leg: nat, kind: Kind): Option<int> {
    match IndexOf(legs, leg)
    case None => None
    case Some(k) => TimeOf(legs[k], kind)
  }

  /** Two accepted ETA requests on one leg: downstream is as one request with the later time would leave it. */
  lemma TwoStepsCompose(st: State, first: Request, second: Request)
    requires DistinctIds(st.legs) && first.kind == second.kind == "ETA" && first.leg == second.leg
    requires Step(st, first).Done? && second.source in SOURCES
    ensures var k := IndexOf(st.legs, first.leg).value;
            var both := Step(Step(st, first).value, second);
            var late := first.(value := Max(first.value, second.value));
            && both.Done?
            && both.value.legs[k + 1..] == Step(st, late).value.legs[k + 1..]
            && Shown(both.value.legs, first.leg, ETA) == Some(second.value)
  {
    var k := IndexOf(st.legs, first.leg).value;
    var late := first.(value := Max(first.value, second.value));
    StepIsReport(st, first);
    StepIsReport(st, late);
    var after := Step(st, first).value;
    ReportKeepsIds(st.legs, k, first.value, MIN_CONNECTION);
    IndexOfFirst(after.legs, k);
    StepIsReport(after, second);
    ReportsCompose(st.legs, k, first.value, second.value, MIN_CONNECTION);
    ReportKeepsIds(after.legs, k, second.value, MIN_CONNECTION);
    IndexOfFirst(Step(after, second).value.legs, k);
  }

  lemma ReportKeepsIds(legs: seq<Leg>, k: nat, arrival: int, gap: int)
    requires k < |legs|
    ensures SameIds(legs, Report(legs, k, arrival, gap))
    ensures Report(legs, k, arrival, gap)[k].eta == Some(arrival)
  {
  }

  // ---------------------------------------------------------------- the history

  /** Versions of a leg and type are 1..n in order, and the leg shows the last one. */
  ghost predicate InStep(st: State, leg: nat, kind: Kind) {
    RowsInStep(Rows(st.history, leg, kind), Latest(st.history, leg, kind), Shown(st.legs, leg, kind))
  }

  ghost predicate RowsInStep(rows: seq<Version>, latest: nat, shown: Option<int>) {
    && latest == |rows|
    && (forall i :: 0 <= i < |rows| ==> rows[i].version == i + 1)
    && (rows != [] ==> shown == Some(rows[|rows| - 1].value))
  }

  lemma NextRowInStep(rows: seq<Version>, latest: nat, shown: Option<int>, v: Version)
    requires RowsInStep(rows, latest, shown) && v.version == latest + 1
    ensures RowsInStep(rows + [v], v.version, Some(v.value))
  {
  }

  ghost predicate Consistent(st: State) {
    DistinctIds(st.legs) && forall leg, kind :: InStep(st, leg, kind)
  }

  lemma AppendRow(history: seq<Version>, v: Version, l: nat, t: Kind)
    ensures var rows, more := Rows(history, l, t), Rows(history + [v], l, t);
            if v.leg == l && v.kind == t then more == rows + [v] else more == rows
    ensures v.leg == l && v.kind == t && v.version == Latest(history, l, t) + 1 ==> Latest(history + [v], l, t) == v.version
    ensures !(v.leg == l && v.kind == t) ==> Latest(history + [v], l, t) == Latest(history, l, t)
  {
    assert (history + [v])[..|history|] == history;
  }

  lemma SetTimeShown(legs: seq<Leg>, leg: nat, kind: Kind, value: int, l: nat, t: Kind)
    requires DistinctIds(legs) && IndexOf(legs, leg).Some?
    ensures Shown(SetTime(legs, leg, kind, value), l, t)
            == if l == leg && t == kind then Some(value) else Shown(legs, l, t)
  {
    SameIndex(legs, SetTime(legs, leg, kind, value), l);
    SameIndex(legs, SetTime(legs, leg, kind, value), leg);
  }

  lemma RecordedInStep(st: State, leg: nat, kind: Kind, value: int, source: string)
    requires DistinctIds(st.legs) && InStep(st, leg, kind) && IndexOf(st.legs, leg).Some?
    ensures InStep(Record(st, leg, kind, value, source), leg, kind)
  {
    var v := Version(leg, kind, Latest(st.history, leg, kind) + 1, value, source);
    var after := Record(st, leg, kind, value, source);
    AppendedInStep(st.history, v, Shown(st.legs, leg, kind));
    SetTimeShown(st.legs, leg, kind, value, leg, kind);
    assert after.history == st.history + [v] && Shown(after.legs, leg, kind) == Some(value);
  }

  lemma AppendedInStep(history: seq<Version>, v: Version, shown: Option<int>)
    requires RowsInStep(Rows(history, v.leg, v.kind), Latest(history, v.leg, v.kind), shown)
    requires v.version == Latest(history, v.leg, v.kind) + 1
    ensures RowsInStep(Rows(history + [v], v.leg, v.kind), Latest(history + [v], v.leg, v.kind), Some(v.value))
  {
    AppendRow(history, v, v.leg, v.kind);
    NextRowInStep(Rows(history, v.leg, v.kind), Latest(history, v.leg, v.kind), shown, v);
  }

  lemma OthersInStep(st: State, leg: nat, kind: Kind, value: int, source: string, l: nat, t: Kind)
    requires DistinctIds(st.legs) && InStep(st, l, t) && IndexOf(st.legs, leg).Some? && !(l == leg && t == kind)
    ensures InStep(Record(st, leg, kind, value, source), l, t)
  {
    AppendRow(st.history, Version(leg, kind, Latest(st.history, leg, kind) + 1, value, source), l, t);
    SetTimeShown(st.legs, leg, kind, value, l, t);
  }

  lemma RecordKeepsConsistent(st: State, leg: nat, kind: Kind, value: int, source: string)
    requires Consistent(st) && IndexOf(st.legs, leg).Some?
    ensures Consistent(Record(st, leg, kind, value, source))
    ensures SameIds(st.legs, Record(st, leg, kind, value, source).legs)
    ensures st.history <= Record(st, leg, kind, value, source).history
  {
    forall l, t ensures InStep(Record(st, leg, kind, value, source), l, t) {
      assert InStep(st, l, t);
      if l == leg && t == kind {
        RecordedInStep(st, leg, kind, value, source);
      } else {
        OthersInStep(st, leg, kind, value, source, l, t);
      }
    }
  }

  lemma {:induction false} RecordAllKeepsConsistent(st: State, moves: seq<Move>)
    requires Consistent(st) && forall i :: 0 <= i < |moves| ==> IndexOf(st.legs, moves[i].leg).Some?
    ensures var after := RecordAll(st, moves);
            Consistent(after) && SameIds(st.legs, after.legs) && st.history <= after.history
    decreases |moves|
  {
    if moves != [] {
      var m := moves[0];
      var one := Record(st, m.leg, m.kind, m.value, "AUTO_CASCADE");
      RecordKeepsConsistent(st, m.leg, m.kind, m.value, "AUTO_CASCADE");
      forall i | 0 <= i < |moves[1..]| ensures IndexOf(one.legs, moves[1..][i].leg).Some? {
        var k := IndexOf(st.legs, moves[i + 1].leg).value;
        assert one.legs[k].id == moves[1..][i].leg;
      }
      RecordAllKeepsConsistent(one, moves[1..]);
    }
  }

  lemma {:induction false} MovesNameLegs(legs: seq<Leg>, times: seq<Times>, all: seq<Leg>)
    requires |legs| == |times| && forall i :: 0 <= i < |legs| ==> legs[i] in all
    ensures forall i :: 0 <= i < |Moves(legs, times)| ==> IndexOf(all, Moves(legs, times)[i].leg).Some?
    decreases |legs|
  {
    if legs != [] {
      assert legs[0] in all;
      forall i | 0 <= i < |legs[1..]| ensures legs[1..][i] in all {
        assert legs[1..][i] == legs[i + 1];
      }
      MovesNameLegs(legs[1..], times[1..], all);
    }
  }

  lemma StepKeepsConsistent(st: State, r: Request)
    requires Consistent(st) && Step(st, r).Done?
    ensures var after := Step(st, r).value;
            Consistent(after) && SameIds(st.legs, after.legs) && st.history <= after.history
  {
    var kind := KindOf(r.kind).value;
    var recorded := Record(st, r.leg, kind, r.value, r.source);
    RecordKeepsConsistent(st, r.leg, kind, r.value, r.source);
    if kind.ETA? {
      var k := IndexOf(recorded.legs, r.leg);
      if k.Some? {
        var downstream := recorded.legs[k.value + 1..];
        MovesNameLegs(downstream, Schedule(downstream, r.value, MIN_CONNECTION), recorded.legs);
      }
      RecordAllKeepsConsistent(recorded, Plan(recorded.legs, r.leg, r.value, MIN_CONNECTION));
    }
  }

  /** Over every run from a plan with distinct leg ids: versions are 1..n, the legs show the last of each. */
  lemma {:induction false} RunIsConsistent(planned: seq<Leg>, requests: seq<Request>)
    requires DistinctIds(planned)
    ensures Consistent(Run(State(planned, []), requests))
    ensures SameIds(planned, Run(State(planned, []), requests).legs)
    decreases |requests|
  {
    if requests != [] {
      var before := Run(State(planned, []), requests[..|requests| - 1]);
      RunIsConsistent(planned, requests[..|requests| - 1]);
      if Step(before, requests[|requests| - 1]).Done? {
        StepKeepsConsistent(before, requests[|requests| - 1]);
      }
    }
  }

  /** Whatever a longer run does, the history of a shorter one is still there, untouched and in place. */
  lemma {:induction false} HistoryIsAppendOnly(planned: seq<Leg>, requests: seq<Request>, n: nat)
    requires DistinctIds(planned) && n <= |requests|
    ensures Run(State(planned, []), requests[..n]).history <= Run(State(planned, []), requests).history
    decreases |requests| - n
  {
    if n < |requests| {
      var before, next := Run(State(planned, []), requests[..n]), Run(State(planned, []), requests[..n + 1]);
      assert requests[..n + 1][..n] == requests[..n];
      RunIsConsistent(planned, requests[..n]);
      if Step(before, requests[n]).Done? {
        StepKeepsConsistent(before, requests[n]);
      }
      HistoryIsAppendOnly(planned, requests, n + 1);
    } else {
      assert requests[..n] == requests;
    }
  }

  // ---------------------------------------------------------------- connections over whole runs

  ghost predicate EtaReports(requests: seq<Request>) {
    forall r :: r in requests ==> r.kind == "ETA"
  }

  /** In a run of ETA reports no met connection is ever lost, at any later point of the run. */
  lemma {:induction false} ConnectionsNeverLost(planned: seq<Leg>, requests: seq<Request>, n: nat, i: nat)
    requires DistinctIds(planned) && EtaReports(requests) && n <= |requests|
    requires Met(Run(State(planned, []), requests[..n]).legs, i, MIN_CONNECTION)
    ensures Met(Run(State(planned, []), requests).legs, i, MIN_CONNECTION)
    decreases |requests| - n
  {
    if n < |requests| {
      var before := Run(State(planned, []), requests[..n]);
      assert requests[..n + 1][..n] == requests[..n];
      RunIsConsistent(planned, requests[..n]);
      assert requests[n] in requests;
      if Step(before, requests[n]).Done? {
        StepIsReport(before, requests[n]);
        ReportKeepsConnections(before.legs, IndexOf(before.legs, requests[n].leg).value, requests[n].value, MIN_CONNECTION);
      }
      ConnectionsNeverLost(planned, requests, n + 1, i);
    } else {
      assert requests[..n] == requests;
    }
  }

  /** Once a leg has been reported, every connection from it on holds for the rest of the run. */
  lemma ReportedLegsConnect(planned: seq<Leg>, requests: seq<Request>, n: nat, i: nat)
    requires DistinctIds(planned) && EtaReports(requests) && n < |requests|
    requires IndexOf(planned, requests[n].leg).Some? && IndexOf(planned, requests[n].leg).value <= i && i + 1 < |planned|
    ensures Step(Run(State(planned, []), requests[..n]), requests[n]).Done? ==>
              Met(Run(State(planned, []), requests).legs, i, MIN_CONNECTION)
  {
    assert requests[..n + 1][..n] == requests[..n] && requests[n] in requests;
    RunIsConsistent(planned, requests[..n]);
    SameIndex(planned, Run(State(planned, []), requests[..n]).legs, requests[n].leg);
    if Step(Run(State(planned, []), requests[..n]), requests[n]).Done? {
      ReportConnects(Run(State(planned, []), requests[..n]), requests[n], i);
      ConnectionsNeverLost(planned, requests, n + 1, i);
    }
  }

  lemma ReportConnects(st: State, r: Request, i: nat)
    requires DistinctIds(st.legs) && r.kind == "ETA" && Step(st, r).Done?
    requires IndexOf(st.legs, r.leg).value <= i && i + 1 < |st.legs|
    ensures Met(Step(st, r).value.legs, i, MIN_CONNECTION)
  {
    StepIsReport(st, r);
    ReportKeepsConnections(st.legs, IndexOf(st.legs, r.leg).value, r.value, MIN_CONNECTION);
  }

  /** The departure after connection `i`, if a request sets it, leaves the connection time. */
  predicate Respects(legs: seq<Leg>, r: Request, i: nat) {
    i + 1 < |legs| && legs[i].eta.Some? ==>
      KindOf(r.kind) != Some(ETD) || legs[i + 1].id != r.leg || r.value >= legs[i].eta.value + MIN_CONNECTION
  }

  /**
   Any accepted request keeps a met connection exactly when it respects it. An ETA request always does: it
   moves everything after its leg.
   */
  lemma RequestKeepsConnection(st: State, r: Request, i: nat)
    requires DistinctIds(st.legs) && Step(st, r).Done? && Met(st.legs, i, MIN_CONNECTION)
    ensures Met(Step(st, r).value.legs, i, MIN_CONNECTION) <==> Respects(st.legs, r, i)
  {
    var k := IndexOf(st.legs, r.leg).value;
    if r.kind == "ETA" {
      StepIsReport(st, r);
      ReportKeepsConnections(st.legs, k, r.value, MIN_CONNECTION);
    } else {
      SetTimeAt(st.legs, k, ETD, r.value);
    }
  }

  /** Every accepted request from the `n`-th on respects connection `i` as it stood when the request came. */
  ghost predicate AllRespect(start: State, requests: seq<Request>, n: nat, i: nat) {
    forall m :: n <= m < |requests| && Step(Run(start, requests[..m]), requests[m]).Done? ==>
      Respects(Run(start, requests[..m]).legs, requests[m], i)
  }

  ghost predicate StaysMet(start: State, requests: seq<Request>, n: nat, i: nat) {
    forall m :: n <= m <= |requests| ==> Met(Run(start, requests[..m]).legs, i, MIN_CONNECTION)
  }

  lemma NextStaysMet(planned: seq<Leg>, requests: seq<Request>, m: nat, i: nat)
    requires DistinctIds(planned) && m < |requests| && Met(Run(State(planned, []), requests[..m]).legs, i, MIN_CONNECTION)
    ensures var before := Run(State(planned, []), requests[..m]);
            Met(Run(State(planned, []), requests[..m + 1]).legs, i, MIN_CONNECTION)
            <==> (Step(before, requests[m]).Done? ==> Respects(before.legs, requests[m], i))
  {
    var before := Run(State(planned, []), requests[..m]);
    assert requests[..m + 1][..m] == requests[..m];
    RunIsConsistent(planned, requests[..m]);
    if Step(before, requests[m]).Done? {
      RequestKeepsConnection(before, requests[m], i);
    }
  }

  /** In any mix of ETA and ETD requests a met connection stays met to the end exactly when all of them respect it. */
  lemma {:induction false} ConnectionSurvivesExactly(planned: seq<Leg>, requests: seq<Request>, n: nat, i: nat)
    requires DistinctIds(planned) && n <= |requests|
    requires Met(Run(State(planned, []), requests[..n]).legs, i, MIN_CONNECTION)
    ensures StaysMet(State(planned, []), requests, n, i) <==> AllRespect(State(planned, []), requests, n, i)
    decreases |requests| - n
  {
    if n < |requests| {
      NextStaysMet(planned, requests, n, i);
      if Met(Run(State(planned, []), requests[..n + 1]).legs, i, MIN_CONNECTION) {
        ConnectionSurvivesExactly(planned, requests, n + 1, i);
      }
    }
  }

  /** An ETD request that does not respect it: the departure is pulled in front of its connection. */
  lemma DepartureReportBreaksConnection()
    ensures var legs := [Leg(1, Some(0), Some(10)), Leg(2, Some(MIN_CONNECTION + 10), Some(MIN_CONNECTION + 20))];
            var r := Request(2, "ETD", 11, "MANUAL");
            && Met(legs, 0, MIN_CONNECTION)
            && Step(State(legs, []), r).Done?
            && !Met(Step(State(legs, []), r).value.legs, 0, MIN_CONNECTION)
  {
    var legs := [Leg(1, Some(0), Some(10)), Leg(2, Some(MIN_CONNECTION + 10), Some(MIN_CONNECTION + 20))];
    IndexOfFirst(legs, 1);
  }
}
