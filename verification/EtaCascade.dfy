/**
 Delay propagation down a chain of transport legs. Times are whole seconds. The cascade is a recurrence;
 what it computes is the earliest schedule the chain admits.
 */
module EtaCascade {
  import opened Results

  datatype Leg = Leg(id: nat, etd: Option<int>, eta: Option<int>)
  datatype Kind = ETD | ETA
  datatype Move = Move(leg: nat, kind: Kind, value: int)
  datatype Times = Times(etd: int, eta: int)

  const DEFAULT_TRANSIT := 86_400
  const MIN_CONNECTION := 21_600

  /** Planned transit time; a day when the plan is missing or does not move forward. */
  function Transit(leg: Leg): (t: int)
    ensures t > 0
  {
    if leg.etd.Some? && leg.eta.Some? && leg.eta.value > leg.etd.value then leg.eta.value - leg.etd.value else DEFAULT_TRANSIT
  }

  function Max(a: int, b: int): int {
    if a < b then b else a
  }

  /** The current departure, or as late as the connection forces it. */
  function Departure(leg: Leg, arrival: int, gap: int): int {
    if leg.etd.Some? then Max(leg.etd.value, arrival + gap) else arrival + gap
  }

  function Schedule(legs: seq<Leg>, arrival: int, gap: int): (times: seq<Times>)
    ensures |times| == |legs|
  {
    if legs == [] then [] else
    var etd := Departure(legs[0], arrival, gap);
    var eta := etd + Transit(legs[0]);
    [Times(etd, eta)] + Schedule(legs[1..], eta, gap)
  }

  function Moves(legs: seq<Leg>, times: seq<Times>): seq<Move>
    requires |legs| == |times|
  {
    if legs == [] then [] else
    [Move(legs[0].id, ETD, times[0].etd), Move(legs[0].id, ETA, times[0].eta)] + Moves(legs[1..], times[1..])
  }

  /** The first leg with this id. */
  function IndexOf(legs: seq<Leg>, id: nat): (r: Option<nat>)
    ensures r.Some? ==> r.value < |legs| && legs[r.value].id == id
    ensures r.None? ==> forall i :: 0 <= i < |legs| ==> legs[i].id != id
  {
    if legs == [] then None
    else if legs[0].id == id then Some(0)
    else
      match IndexOf(legs[1..], id)
      case None => None
      case Some(i) => Some(i + 1)
  }

  /** The records to create when leg `changed` is reported to arrive at `arrival`. */
  function Plan(legs: seq<Leg>, changed: nat, arrival: int, gap: int): seq<Move> {
    match IndexOf(legs, changed)
    case None => []
    case Some(k) => var downstream := legs[k + 1..]; Moves(downstream, Schedule(downstream, arrival, gap))
  }

  method CalculateLegCascade(legs: seq<Leg>, changed: nat, newEta: int, gap: int) returns (records: seq<Move>)
    ensures records == Plan(legs, changed, newEta, gap)
  {
    records := [];
    if legs == [] {
      return;
    }
    var changedIdx := -1;
    for idx := 0 to |legs|
      invariant changedIdx == -1
      invariant forall i :: 0 <= i < idx ==> legs[i].id != changed
    {
      if legs[idx].id == changed {
        changedIdx := idx;
        break;
      }
    }
    if changedIdx == -1 || changedIdx >= |legs| - 1 {
      return;
    }
    IndexOfFirst(legs, changedIdx);
    records := Propagate(legs[changedIdx + 1..], newEta, gap);
  }

  /** The loop over the downstream legs: each departs as planned, or as early as its connection allows. */
  method Propagate(downstream: seq<Leg>, newEta: int, gap: int) returns (records: seq<Move>)
    ensures records == Moves(downstream, Schedule(downstream, newEta, gap))
  {
    records := [];
    var currentArrival := newEta;
    for idx := 0 to |downstream|
      invariant records + Moves(downstream[idx..], Schedule(downstream[idx..], currentArrival, gap))
             == Moves(downstream, Schedule(downstream, newEta, gap))
    {
      var leg := downstream[idx];
      var transit := if leg.eta.Some? && leg.etd.Some? && leg.eta.value > leg.etd.value then leg.eta.value - leg.etd.value else DEFAULT_TRANSIT;
      var earliest := currentArrival + gap;
      var newEtd := if leg.etd.None? || leg.etd.value < earliest then earliest else leg.etd.value;
      PlanStep(downstream, idx, currentArrival, gap);
      records := Concat2(records, Move(leg.id, ETD, newEtd), Move(leg.id, ETA, newEtd + transit),
                         Moves(downstream[idx + 1..], Schedule(downstream[idx + 1..], newEtd + transit, gap)));
      currentArrival := newEtd + transit;
    }
  }

  method Concat2(records: seq<Move>, first: Move, second: Move, ghost rest: seq<Move>) returns (more: seq<Move>)
    ensures more == records + [first] + [second]
    ensures more + rest == records + ([first, second] + rest)
  {
    more := records + [first] + [second];
  }

  lemma {:induction false} IndexOfFirst(legs: seq<Leg>, k: nat)
    requires k < |legs| && forall i :: 0 <= i < k ==> legs[i].id != legs[k].id
    ensures IndexOf(legs, legs[k].id) == Some(k)
  {
    if k > 0 {
      assert legs[0].id != legs[k].id;
      IndexOfFirst(legs[1..], k - 1);
    }
  }

  lemma PlanStep(legs: seq<Leg>, idx: nat, arrival: int, gap: int)
    requires idx < |legs|
    ensures var etd := Departure(legs[idx], arrival, gap);
            var eta := etd + Transit(legs[idx]);
            Moves(legs[idx..], Schedule(legs[idx..], arrival, gap))
            == [Move(legs[idx].id, ETD, etd), Move(legs[idx].id, ETA, eta)]
               + Moves(legs[idx + 1..], Schedule(legs[idx + 1..], eta, gap))
  {
    assert legs[idx..][1..] == legs[idx + 1..];
  }

  // ---------------------------------------------------------------- least schedule

  /** The times keep the leg's planned duration; a leg without one, or planned to arrive no later than it leaves, takes a day. */
  predicate KeepsDuration(leg: Leg, t: Times) {
    if leg.etd.Some? && leg.eta.Some? && leg.eta.value > leg.etd.value
    then t.eta - t.etd == leg.eta.value - leg.etd.value
    else t.eta - t.etd == 86_400
  }

  /** What a downstream schedule must respect: planned durations, current departures, connections. */
  predicate Feasible(legs: seq<Leg>, arrival: int, gap: int, times: seq<Times>) {
    && |times| == |legs|
    && (forall i :: 0 <= i < |legs| ==> KeepsDuration(legs[i], times[i]))
    && (forall i :: 0 <= i < |legs| && legs[i].etd.Some? ==> times[i].etd >= legs[i].etd.value)
    && (legs != [] ==> times[0].etd >= arrival + gap)
    && (forall i :: 0 < i < |legs| ==> times[i].etd >= times[i - 1].eta + gap)
  }

  lemma {:induction false} ScheduleIsFeasible(legs: seq<Leg>, arrival: int, gap: int)
    ensures Feasible(legs, arrival, gap, Schedule(legs, arrival, gap))
  {
    if legs != [] {
      var times := Schedule(legs, arrival, gap);
      ScheduleIsFeasible(legs[1..], times[0].eta, gap);
      assert times[1..] == Schedule(legs[1..], times[0].eta, gap);
      forall i | 0 < i < |legs| ensures times[i] == times[1..][i - 1] && legs[i] == legs[1..][i - 1] {}
    }
  }

  /** The arrival a leg connects from. */
  function Upstream(legs: seq<Leg>, arrival: int, gap: int, i: nat): int
    requires i < |legs|
  {
    if i == 0 then arrival else Schedule(legs, arrival, gap)[i - 1].eta
  }

  lemma {:induction false} ScheduleAt(legs: seq<Leg>, arrival: int, gap: int, i: nat)
    requires i < |legs|
    ensures var etd := Departure(legs[i], Upstream(legs, arrival, gap, i), gap);
            Schedule(legs, arrival, gap)[i] == Times(etd, etd + Transit(legs[i]))
    decreases i
  {
    if i > 0 {
      ScheduleAt(legs[1..], Schedule(legs, arrival, gap)[0].eta, gap, i - 1);
    }
  }

  /** Whether a leg with an arrival keeps it or a later one: it has a departure, or a day's transit from its connection reaches it. */
  predicate ArrivalKept(legs: seq<Leg>, arrival: int, gap: int, i: nat)
    requires i < |legs| && legs[i].eta.Some?
  {
    legs[i].etd.Some? || Upstream(legs, arrival, gap, i) + gap + 86_400 >= legs[i].eta.value
  }

  /** A cascade moves a leg to an earlier arrival exactly when it has no departure and that day ends before it. */
  lemma ArrivalKeptExactly(legs: seq<Leg>, arrival: int, gap: int, i: nat)
    requires i < |legs| && legs[i].eta.Some?
    ensures Schedule(legs, arrival, gap)[i].eta >= legs[i].eta.value <==> ArrivalKept(legs, arrival, gap, i)
    ensures legs[i].etd.Some? ==> Schedule(legs, arrival, gap)[i].etd >= legs[i].etd.value
  {
    ScheduleAt(legs, arrival, gap, i);
  }

  /** A leg planned to arrive on day 116 without a departure is moved to the second day. */
  lemma CascadeMayAdvance()
    ensures Schedule([Leg(2, None, Some(10_000_000))], 0, MIN_CONNECTION)[0].eta == 108_000
    ensures !ArrivalKept([Leg(2, None, Some(10_000_000))], 0, MIN_CONNECTION, 0)
  {
  }

  /** No feasible schedule departs or arrives earlier anywhere, even from an earlier arrival upstream. */
  lemma {:induction false} ScheduleIsLeast(legs: seq<Leg>, arrival: int, gap: int, later: int, times: seq<Times>)
    requires arrival <= later && Feasible(legs, later, gap, times)
    ensures forall i :: 0 <= i < |legs| ==>
              Schedule(legs, arrival, gap)[i].etd <= times[i].etd && Schedule(legs, arrival, gap)[i].eta <= times[i].eta
  {
    if legs != [] {
      var least := Schedule(legs, arrival, gap);
      forall i | 0 < i < |legs| - 1 ensures times[1..][i].etd >= times[1..][i - 1].eta + gap {
        assert times[i + 1].etd >= times[i + 1 - 1].eta + gap;
      }
      ScheduleIsLeast(legs[1..], least[0].eta, gap, times[0].eta, times[1..]);
      forall i | 0 <= i < |legs| ensures least[i].etd <= times[i].etd && least[i].eta <= times[i].eta {
        if i > 0 {
          assert least[i] == Schedule(legs[1..], least[0].eta, gap)[i - 1] && times[i] == times[1..][i - 1];
        }
      }
    }
  }

  /** Hence the cascade is the only schedule that is feasible and below every feasible one. */
  lemma LeastIsUnique(legs: seq<Leg>, arrival: int, gap: int, times: seq<Times>)
    requires Feasible(legs, arrival, gap, times)
    requires forall other: seq<Times> :: Feasible(legs, arrival, gap, other) ==>
               forall i :: 0 <= i < |legs| ==> times[i].etd <= other[i].etd
    ensures times == Schedule(legs, arrival, gap)
  {
    var least := Schedule(legs, arrival, gap);
    ScheduleIsFeasible(legs, arrival, gap);
    ScheduleIsLeast(legs, arrival, gap, arrival, times);
    forall i | 0 <= i < |legs| ensures times[i] == least[i] {
      assert KeepsDuration(legs[i], times[i]) && KeepsDuration(legs[i], least[i]);
    }
  }

  /** Leg by leg the plan holds a departure record and an arrival record with the scheduled times. */
  lemma {:induction false} PlannedRecords(legs: seq<Leg>, times: seq<Times>, i: nat)
    requires i < |legs| == |times|
    ensures |Moves(legs, times)| == 2 * |legs|
    ensures Moves(legs, times)[2 * i] == Move(legs[i].id, ETD, times[i].etd)
    ensures Moves(legs, times)[2 * i + 1] == Move(legs[i].id, ETA, times[i].eta)
  {
    if |legs| > 1 {
      PlannedRecords(legs[1..], times[1..], if i == 0 then 0 else i - 1);
    }
  }

  // ---------------------------------------------------------------- composition

  /** The legs once their records are applied. */
  function Reschedule(legs: seq<Leg>, times: seq<Times>): (moved: seq<Leg>)
    requires |legs| == |times|
    ensures |moved| == |legs|
    ensures forall i :: 0 <= i < |legs| ==> moved[i] == Leg(legs[i].id, Some(times[i].etd), Some(times[i].eta))
  {
    seq(|legs|, i requires 0 <= i < |legs| => Leg(legs[i].id, Some(times[i].etd), Some(times[i].eta)))
  }

  /** The whole chain after leg `k` is reported to arrive at `arrival`. */
  function Report(legs: seq<Leg>, k: nat, arrival: int, gap: int): (moved: seq<Leg>)
    requires k < |legs|
    ensures |moved| == |legs|
  {
    var downstream := legs[k + 1..];
    legs[..k] + [legs[k].(eta := Some(arrival))] + Reschedule(downstream, Schedule(downstream, arrival, gap))
  }

  lemma {:induction false} SchedulesCompose(legs: seq<Leg>, a: int, b: int, gap: int)
    ensures Schedule(Reschedule(legs, Schedule(legs, a, gap)), b, gap) == Schedule(legs, Max(a, b), gap)
  {
    if legs != [] {
      var first, one := Schedule(legs, a, gap), Schedule(legs, Max(a, b), gap);
      var moved := Reschedule(legs, first);
      assert moved[1..] == Reschedule(legs[1..], Schedule(legs[1..], first[0].eta, gap));
      assert Transit(moved[0]) == Transit(legs[0]);
      SchedulesCompose(legs[1..], first[0].eta, one[0].eta, gap);
      assert Max(first[0].eta, one[0].eta) == one[0].eta;
    }
  }

  /**
   Two reports on one leg, in whatever order: that leg shows the second, and everything downstream is as
   one report of the later of the two times would leave it.
   */
  lemma ReportsCompose(legs: seq<Leg>, k: nat, a: int, b: int, gap: int)
    requires k < |legs|
    ensures Report(Report(legs, k, a, gap), k, b, gap) ==
            Report(legs, k, Max(a, b), gap)[k := legs[k].(eta := Some(b))]
  {
    var downstream := legs[k + 1..];
    var once, late := Schedule(downstream, a, gap), Schedule(downstream, Max(a, b), gap);
    ReportTail(legs, k, a, gap);
    SchedulesCompose(downstream, a, b, gap);
    RescheduleTwice(downstream, once, late);
    var twice := Report(Report(legs, k, a, gap), k, b, gap);
    assert twice == legs[..k] + [legs[k].(eta := Some(b))] + Reschedule(downstream, late);
  }

  lemma ReportTail(legs: seq<Leg>, k: nat, arrival: int, gap: int)
    requires k < |legs|
    ensures var moved := Report(legs, k, arrival, gap);
            && moved[..k] == legs[..k] && moved[k] == legs[k].(eta := Some(arrival))
            && moved[k + 1..] == Reschedule(legs[k + 1..], Schedule(legs[k + 1..], arrival, gap))
  {
  }

  lemma RescheduleTwice(legs: seq<Leg>, first: seq<Times>, second: seq<Times>)
    requires |legs| == |first| == |second|
    ensures Reschedule(Reschedule(legs, first), second) == Reschedule(legs, second)
  {
  }

  /** A repeated report changes nothing, and the order of two reports only matters to the reported leg. */
  lemma ReportsRepeatAndCommute(legs: seq<Leg>, k: nat, a: int, b: int, gap: int)
    requires k < |legs|
    ensures Report(Report(legs, k, a, gap), k, a, gap) == Report(legs, k, a, gap)
    ensures Report(Report(legs, k, a, gap), k, b, gap)[k + 1..] == Report(Report(legs, k, b, gap), k, a, gap)[k + 1..]
  {
    ReportsCompose(legs, k, a, a, gap);
    ReportsCompose(legs, k, a, b, gap);
    ReportsCompose(legs, k, b, a, gap);
  }

  /** A report later by `d` delays every downstream time by 0 to `d`, and never by more than it did the leg before. */
  lemma {:induction false} DelayShrinks(legs: seq<Leg>, arrival: int, d: nat, gap: int, i: nat)
    requires i < |legs|
    ensures var before, after := Schedule(legs, arrival, gap), Schedule(legs, arrival + d, gap);
            && after[i].eta - before[i].eta == after[i].etd - before[i].etd
            && 0 <= after[i].etd - before[i].etd <= d
            && (i > 0 ==> after[i].etd - before[i].etd <= after[i - 1].eta - before[i - 1].eta)
    decreases i
  {
    var before, after := Schedule(legs, arrival, gap), Schedule(legs, arrival + d, gap);
    if i > 0 {
      var passed := after[0].eta - before[0].eta;
      DelayShrinks(legs, arrival, d, gap, 0);
      DelayShrinks(legs[1..], before[0].eta, passed, gap, i - 1);
      assert after[i] == Schedule(legs[1..], before[0].eta + passed, gap)[i - 1];
      assert before[i] == Schedule(legs[1..], before[0].eta, gap)[i - 1];
    }
  }

  /** Whether a report on leg `k` leaves leg `i` the arrival it shows, or a later one. */
  predicate ReportKeeps(legs: seq<Leg>, k: nat, arrival: int, gap: int, i: nat)
    requires k < |legs| && i < |legs| && legs[i].eta.Some?
  {
    if i < k then true
    else if i == k then arrival >= legs[i].eta.value
    else ArrivalKept(legs[k + 1..], arrival, gap, i - k - 1)
  }

  lemma ReportKeepsExactly(legs: seq<Leg>, k: nat, arrival: int, gap: int, i: nat)
    requires k < |legs| && i < |legs| && legs[i].eta.Some?
    ensures var moved := Report(legs, k, arrival, gap);
            moved[i].eta.Some? && (moved[i].eta.value >= legs[i].eta.value <==> ReportKeeps(legs, k, arrival, gap, i))
  {
    var downstream := legs[k + 1..];
    if i > k {
      ArrivalKeptExactly(downstream, arrival, gap, i - k - 1);
      assert Report(legs, k, arrival, gap)[i] == Reschedule(downstream, Schedule(downstream, arrival, gap))[i - k - 1];
    }
  }

  // ---------------------------------------------------------------- connections

  /** The connection from leg `i` to the next leaves at least `gap` between arrival and departure. */
  predicate Met(legs: seq<Leg>, i: nat, gap: int) {
    i + 1 < |legs| && legs[i].eta.Some? && legs[i + 1].etd.Some? && legs[i + 1].etd.value >= legs[i].eta.value + gap
  }

  /** A report breaks no connection that was met and repairs every one from the reported leg on. */
  lemma ReportKeepsConnections(legs: seq<Leg>, k: nat, arrival: int, gap: int)
    requires k < |legs|
    ensures forall i: nat :: i + 1 < |legs| && (i >= k || Met(legs, i, gap)) ==> Met(Report(legs, k, arrival, gap), i, gap)
  {
    var downstream, moved := legs[k + 1..], Report(legs, k, arrival, gap);
    var times := Schedule(downstream, arrival, gap);
    ScheduleIsFeasible(downstream, arrival, gap);
    forall i: nat | i + 1 < |legs| && (i >= k || Met(legs, i, gap)) ensures Met(moved, i, gap) {
      if i > k {
        assert times[i - k].etd >= times[i - k - 1].eta + gap;
        assert moved[i] == Reschedule(downstream, times)[i - k - 1];
        assert moved[i + 1] == Reschedule(downstream, times)[i - k];
      } else if i == k {
        assert moved[k + 1] == Reschedule(downstream, times)[0];
      }
    }
  }
}
