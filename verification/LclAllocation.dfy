/** Sharing a master bill's cost between house bills by chargeable weight; the last bill takes the remainder. */
module LclAllocation {
  import opened Results

  datatype Hbl = Hbl(id: int, weight: real, cbm: real, origin: string, destination: string)

  datatype Consolidation = Consolidation(mbl: int, hbls: seq<int>)

  /** The larger of the weight and the volume, of which one cubic metre counts as a thousand kilograms. */
  function ChargeableWeight(weight: real, cbm: real): (chargeable: real)
    ensures chargeable >= weight && chargeable >= cbm * 1000.0 && (chargeable == weight || chargeable == cbm * 1000.0)
  {
    var volumetric := cbm * 1000.0;
    if weight >= volumetric then weight else volumetric
  }

  /** `quantize(0.01, ROUND_HALF_UP)`: ties go away from zero. */
  function Cents(x: real): real {
    if x >= 0.0 then (x * 100.0 + 0.5).Floor as real / 100.0 else -((-x * 100.0 + 0.5).Floor as real / 100.0)
  }

  function Sum(xs: seq<real>): real {
    if xs == [] then 0.0 else Sum(xs[..|xs| - 1]) + xs[|xs| - 1]
  }

  /** The exact proportional share, as a function of a bill's weight. */
  function Exact(cost: real, total: real): real -> real {
    weight => cost * (if total > 0.0 then weight / total else 0.0)
  }

  /** The shares of the first `n` bills, rounded to cents. */
  function Rounded(exact: real -> real, weights: seq<real>, n: nat): (shares: seq<real>)
    requires n <= |weights|
    ensures |shares| == n && forall i :: 0 <= i < n ==> shares[i] == Cents(exact(weights[i]))
  {
    seq(n, i requires 0 <= i < n => Cents(exact(weights[i])))
  }

  function Allocate(cost: real, weights: seq<real>): (shares: seq<real>)
    ensures |shares| == |weights|
  {
    if weights == [] then [] else
    var most := Rounded(Exact(cost, Sum(weights)), weights, |weights| - 1);
    most + [cost - Sum(most)]
  }

  /** The chargeable weights of the house bills that exist. */
  function Weights(hbls: map<int, Hbl>, ids: seq<int>): seq<real> {
    if ids == [] then [] else
    var last := ids[|ids| - 1];
    Weights(hbls, ids[..|ids| - 1]) + if last in hbls then [ChargeableWeight(hbls[last].weight, hbls[last].cbm)] else []
  }

  function Known(hbls: map<int, Hbl>, ids: seq<int>): (known: seq<int>)
    ensures |known| == |Weights(hbls, ids)|
  {
    if ids == [] then [] else
    var last := ids[|ids| - 1];
    Known(hbls, ids[..|ids| - 1]) + if last in hbls then [last] else []
  }

  /** A bill that exists, and the larger of its weight and its volume in cubic metres times a thousand. */
  predicate Weighs(hbls: map<int, Hbl>, id: int, weight: real) {
    && id in hbls
    && weight == if hbls[id].weight >= hbls[id].cbm * 1000.0 then hbls[id].weight else hbls[id].cbm * 1000.0
  }

  /** Every bill taken exists and brings its chargeable weight. */
  lemma {:induction false} KnownWeigh(hbls: map<int, Hbl>, ids: seq<int>, i: nat)
    requires i < |Known(hbls, ids)|
    ensures Weighs(hbls, Known(hbls, ids)[i], Weights(hbls, ids)[i])
  {
    var n := |ids| - 1;
    if i < |Known(hbls, ids[..n])| {
      KnownWeigh(hbls, ids[..n], i);
    }
  }

  /** The bills that exist are taken as often as they are named, and no others. */
  lemma {:induction false} KnownExactly(hbls: map<int, Hbl>, ids: seq<int>, id: int)
    ensures multiset(Known(hbls, ids))[id] == if id in hbls then multiset(ids)[id] else 0
  {
    if ids != [] {
      var n := |ids| - 1;
      KnownExactly(hbls, ids[..n], id);
      assert ids == ids[..n] + [ids[n]];
      KnownSnoc(Known(hbls, ids[..n]), if ids[n] in hbls then [ids[n]] else [], id);
    }
  }

  lemma KnownSnoc(known: seq<int>, last: seq<int>, id: int)
    ensures multiset(known + last)[id] == multiset(known)[id] + multiset(last)[id]
  {
  }

  class LclService {
    var consolidations: map<int, Consolidation>
    var costs: map<int, real>
    var hbls: map<int, Hbl>

    method CalculateCostAllocation(id: int) returns (r: Outcome<(seq<int>, seq<real>)>)
      ensures r == if id !in consolidations then Refused("Consolidation not found") else
                   var c := consolidations[id];
                   Done((Known(hbls, c.hbls),
                         Allocate(if c.mbl in costs then costs[c.mbl] else 0.0, Weights(hbls, c.hbls))))
    {
      if id !in consolidations {
        return Refused("Consolidation not found");
      }
      var c := consolidations[id];
      var cost := if c.mbl in costs then costs[c.mbl] else 0.0;
      var ids: seq<int>, weights: seq<real> := [], [];
      var total := 0.0;
      for n := 0 to |c.hbls|
        invariant ids == Known(hbls, c.hbls[..n]) && weights == Weights(hbls, c.hbls[..n]) && total == Sum(weights)
      {
        assert c.hbls[..n + 1][..n] == c.hbls[..n];
        var hbl := c.hbls[n];
        if hbl in hbls {
          var weight := ChargeableWeight(hbls[hbl].weight, hbls[hbl].cbm);
          ids, weights := ids + [hbl], weights + [weight];
          total := total + weight;
        }
      }
      assert c.hbls[..|c.hbls|] == c.hbls;
      var shares := Shares(cost, weights, total);
      r := Done((ids, shares));
    }

    static method Shares(cost: real, weights: seq<real>, total: real) returns (shares: seq<real>)
      requires total == Sum(weights)
      ensures shares == Allocate(cost, weights)
    {
      shares := [];
      var shared := 0.0;
      var exact := Exact(cost, total);
      for i := 0 to |weights|
        invariant i < |weights| ==> shares == Rounded(exact, weights, i) && shared == Sum(shares)
        invariant i == |weights| ==> shares == Allocate(cost, weights)
      {
        if i == |weights| - 1 {
          shares := shares + [cost - shared];
        } else {
          var share := Cents(exact(weights[i]));
          RoundedSnoc(exact, weights, i);
          shares, shared := shares + [share], shared + share;
        }
      }
    }
  }

  lemma RoundedSnoc(exact: real -> real, weights: seq<real>, n: nat)
    requires n < |weights|
    ensures var share := Cents(exact(weights[n]));
            && Rounded(exact, weights, n + 1) == Rounded(exact, weights, n) + [share]
            && Sum(Rounded(exact, weights, n + 1)) == Sum(Rounded(exact, weights, n)) + share
  {
    assert Rounded(exact, weights, n + 1) == Rounded(exact, weights, n) + [Cents(exact(weights[n]))];
    SumSnoc(Rounded(exact, weights, n), Cents(exact(weights[n])));
  }

  // ---------------------------------------------------------------- what the shares guarantee

  lemma SumSnoc(xs: seq<real>, x: real)
    ensures Sum(xs + [x]) == Sum(xs) + x
  {
    assert (xs + [x])[..|xs|] == xs;
  }

  /** Nothing is lost or invented - unless there is no house bill to carry a non-zero cost. */
  lemma AllocationIsExact(cost: real, weights: seq<real>)
    ensures Sum(Allocate(cost, weights)) == cost <==> weights != [] || cost == 0.0
  {
    if weights != [] {
      var most := Rounded(Exact(cost, Sum(weights)), weights, |weights| - 1);
      SumSnoc(most, cost - Sum(most));
    }
  }

  /** A whole number of cents. */
  predicate WholeCents(x: real) {
    (x * 100.0).Floor as real == x * 100.0
  }

  /** Whole cents within half a cent; a tie goes away from zero. */
  predicate Near(cents: real, x: real) {
    && WholeCents(cents)
    && (x >= 0.0 ==> -0.005 < cents - x <= 0.005)
    && (x < 0.0 ==> -0.005 <= cents - x < 0.005)
  }

  lemma CentsIsExact(x: real)
    ensures Near(Cents(x), x)
  {
    var y := if x >= 0.0 then x * 100.0 + 0.5 else -x * 100.0 + 0.5;
    assert y.Floor as real <= y < y.Floor as real + 1.0;
    assert Cents(x) * 100.0 == if x >= 0.0 then y.Floor as real else (-y.Floor) as real;
  }

  lemma ZeroCents()
    ensures Cents(0.0) == 0.0
  {
    assert (0.0 * 100.0 + 0.5).Floor == 0;
  }

  lemma CentsIsNear(x: real)
    ensures -0.005 <= Cents(x) - x <= 0.005
  {
    CentsIsExact(x);
  }

  lemma CentsIsMonotone(x: real, y: real)
    requires x <= y
    ensures Cents(x) <= Cents(y)
  {
    if x < 0.0 <= y {
      assert (-x * 100.0 + 0.5).Floor >= 0 && (y * 100.0 + 0.5).Floor >= 0;
    } else if 0.0 <= x {
      assert (x * 100.0 + 0.5).Floor <= (y * 100.0 + 0.5).Floor;
    } else {
      assert (-y * 100.0 + 0.5).Floor <= (-x * 100.0 + 0.5).Floor;
    }
  }

  predicate Adds(exact: real -> real, a: real, b: real) {
    exact(a + b) == exact(a) + exact(b)
  }

  ghost predicate Additive(exact: real -> real) {
    exact(0.0) == 0.0 && forall a, b :: Adds(exact, a, b)
  }

  lemma ExactAdds(cost: real, total: real, a: real, b: real)
    requires total > 0.0
    ensures Adds(Exact(cost, total), a, b)
  {
    Divide(a, b, total);
    Distribute(cost, a / total, b / total);
  }

  lemma Divide(a: real, b: real, total: real)
    requires total > 0.0
    ensures (a + b) / total == a / total + b / total
  {
  }

  lemma Distribute(c: real, p: real, q: real)
    ensures c * (p + q) == c * p + c * q
  {
  }

  lemma ExactIsAdditive(cost: real, total: real)
    requires total > 0.0
    ensures Additive(Exact(cost, total)) && Exact(cost, total)(total) == cost
  {
    forall a, b ensures Adds(Exact(cost, total), a, b) {
      ExactAdds(cost, total, a, b);
    }
    assert total / total == 1.0;
  }

  /** The first `n` shares together stray at most `n` half-cents from their exact amount. */
  lemma {:induction false} RunningError(exact: real -> real, weights: seq<real>, n: nat)
    requires Additive(exact) && n <= |weights|
    ensures -0.005 * n as real <= Sum(Rounded(exact, weights, n)) - exact(Sum(weights[..n])) <= 0.005 * n as real
  {
    if n > 0 {
      RunningError(exact, weights, n - 1);
      RoundedSnoc(exact, weights, n - 1);
      CentsIsNear(exact(weights[n - 1]));
      assert weights[..n] == weights[..n - 1] + [weights[n - 1]];
      SumSnoc(weights[..n - 1], weights[n - 1]);
      assert Adds(exact, Sum(weights[..n - 1]), weights[n - 1]);
      OneMoreError(Sum(Rounded(exact, weights, n - 1)), exact(Sum(weights[..n - 1])),
                   Cents(exact(weights[n - 1])), exact(weights[n - 1]), n - 1);
    }
  }

  lemma OneMoreError(sum: real, due: real, share: real, exact: real, n: nat)
    requires -0.005 * n as real <= sum - due <= 0.005 * n as real && -0.005 <= share - exact <= 0.005
    ensures -0.005 * (n + 1) as real <= (sum + share) - (due + exact) <= 0.005 * (n + 1) as real
  {
  }

  lemma LastShareError(exact: real -> real, cost: real, weights: seq<real>)
    requires weights != [] && Additive(exact) && exact(Sum(weights)) == cost
    ensures var n := |weights| - 1;
            -0.005 * n as real <= cost - Sum(Rounded(exact, weights, n)) - exact(weights[n]) <= 0.005 * n as real
  {
    var n := |weights| - 1;
    RunningError(exact, weights, n);
    SumSnoc(weights[..n], weights[n]);
    assert weights == weights[..n] + [weights[n]];
    assert Adds(exact, Sum(weights[..n]), weights[n]);
  }

  /** Within this many half-cents. */
  predicate Within(share: real, exact: real, halves: nat) {
    -0.005 * halves as real <= share - exact <= 0.005 * halves as real
  }

  /** This much of the cost is to this weight as the cost is to the total weight. */
  predicate InProportion(exact: real, cost: real, weight: real, total: real) {
    exact * total == cost * weight
  }

  lemma ExactShare(exact: real, cost: real, weight: real, total: real)
    requires total > 0.0 && InProportion(exact, cost, weight, total)
    ensures Exact(cost, total)(weight) == exact
  {
    var q := weight / total;
    assert q * total == weight;
    SameFactor(exact, cost, q, total);
  }

  lemma SameFactor(exact: real, cost: real, q: real, total: real)
    requires total > 0.0 && exact * total == cost * (q * total)
    ensures cost * q == exact
  {
    assert (cost * q - exact) * total == 0.0;
  }

  lemma LastIsFair(cost: real, weights: seq<real>)
    requires Sum(weights) > 0.0 && weights != []
    ensures Within(Allocate(cost, weights)[|weights| - 1], Exact(cost, Sum(weights))(weights[|weights| - 1]), |weights| - 1)
  {
    ExactIsAdditive(cost, Sum(weights));
    LastShareError(Exact(cost, Sum(weights)), cost, weights);
  }

  /**
   Every share but the last is the cost times the bill's part of the weight in whole cents, to the nearest; the
   last is within n - 1 half-cents of its own.
   */
  lemma SharesAreFair(cost: real, weights: seq<real>, i: nat, exact: real)
    requires Sum(weights) > 0.0 && i < |weights| && InProportion(exact, cost, weights[i], Sum(weights))
    ensures var share := Allocate(cost, weights)[i];
            if i < |weights| - 1 then Near(share, exact) else Within(share, exact, |weights| - 1)
  {
    ExactShare(exact, cost, weights[i], Sum(weights));
    if i < |weights| - 1 {
      CentsIsExact(exact);
    } else {
      LastIsFair(cost, weights);
    }
  }

  /** Without a positive total weight the last bill takes the whole cost and every other share is zero. */
  lemma NoWeightNoShare(cost: real, weights: seq<real>, i: nat)
    requires Sum(weights) <= 0.0 && i < |weights|
    ensures Allocate(cost, weights)[i] == if i == |weights| - 1 then cost else 0.0
  {
    ZeroCents();
    ZeroShares(Exact(cost, Sum(weights)), weights, |weights| - 1);
  }

  lemma {:induction false} ZeroShares(exact: real -> real, weights: seq<real>, n: nat)
    requires n <= |weights| && Cents(0.0) == 0.0 && forall w :: exact(w) == 0.0
    ensures Sum(Rounded(exact, weights, n)) == 0.0 && forall i :: 0 <= i < n ==> Rounded(exact, weights, n)[i] == 0.0
  {
    if n > 0 {
      ZeroShares(exact, weights, n - 1);
      RoundedSnoc(exact, weights, n - 1);
    }
  }

  lemma ExactIsMonotone(cost: real, total: real, a: real, b: real)
    requires total > 0.0 && a <= b
    ensures cost >= 0.0 ==> Exact(cost, total)(a) <= Exact(cost, total)(b)
    ensures cost <= 0.0 ==> Exact(cost, total)(a) >= Exact(cost, total)(b)
  {
    assert a / total <= b / total;
    Scale(cost, a / total, b / total);
  }

  lemma Scale(c: real, p: real, q: real)
    requires p <= q
    ensures c >= 0.0 ==> c * p <= c * q
    ensures c <= 0.0 ==> c * q <= c * p
  {
  }

  /** Among the rounded shares a heavier bill never pays less (or, of a negative cost, never receives less). */
  lemma SharesFollowWeight(cost: real, weights: seq<real>, i: nat, j: nat)
    requires Sum(weights) > 0.0 && i < |weights| - 1 && j < |weights| - 1 && weights[i] <= weights[j]
    ensures cost >= 0.0 ==> Allocate(cost, weights)[i] <= Allocate(cost, weights)[j]
    ensures cost <= 0.0 ==> Allocate(cost, weights)[i] >= Allocate(cost, weights)[j]
  {
    var exact := Exact(cost, Sum(weights));
    ExactIsMonotone(cost, Sum(weights), weights[i], weights[j]);
    if cost >= 0.0 {
      CentsIsMonotone(exact(weights[i]), exact(weights[j]));
    }
    if cost <= 0.0 {
      CentsIsMonotone(exact(weights[j]), exact(weights[i]));
    }
  }

  /**
   The last share is non-negative as soon as its exact share covers n - 1 half-cents; of a non-negative cost
   and weight it is never further below zero than that.
   */
  lemma LastShareFloor(cost: real, weights: seq<real>, exact: real)
    requires weights != [] && Sum(weights) > 0.0 && InProportion(exact, cost, weights[|weights| - 1], Sum(weights))
    ensures var n := |weights| - 1;
            var share, slack := Allocate(cost, weights)[n], 0.005 * n as real;
            && (exact >= slack ==> share >= 0.0)
            && (cost >= 0.0 && weights[n] >= 0.0 ==> share >= -slack)
  {
    LastIsFair(cost, weights);
    ExactShare(exact, cost, weights[|weights| - 1], Sum(weights));
    ExactIsNonNegative(cost, Sum(weights), weights[|weights| - 1]);
  }

  lemma ExactIsNonNegative(cost: real, total: real, weight: real)
    requires total > 0.0
    ensures cost >= 0.0 && weight >= 0.0 ==> Exact(cost, total)(weight) >= 0.0
  {
    if cost >= 0.0 && weight >= 0.0 {
      ExactIsMonotone(cost, total, 0.0, weight);
    }
  }

  lemma SumOfFour(a: real, b: real, c: real, d: real)
    ensures Sum([a, b, c]) == a + b + c && Sum([a, b, c, d]) == a + b + c + d
  {
    SumSnoc([], a);
    SumSnoc([a], b);
    SumSnoc([a, b], c);
    SumSnoc([a, b, c], d);
    assert [] + [a] == [a] && [a] + [b] == [a, b] && [a, b] + [c] == [a, b, c] && [a, b, c] + [d] == [a, b, c, d];
  }

  lemma HalfCentRoundsUp()
    ensures Cents(0.005) == 0.01
  {
    assert (0.005 * 100.0 + 0.5).Floor == 1;
  }

  /** The remainder can be negative although every weight and the cost are positive: four equal bills share 0.02. */
  lemma LastShareMayBeNegative(weight: real)
    requires weight > 0.0
    ensures Allocate(0.02, [weight, weight, weight, weight])[3] == -0.01
  {
    var weights := [weight, weight, weight, weight];
    SumOfFour(weight, weight, weight, weight);
    SumOfFour(0.01, 0.01, 0.01, 0.0);
    HalfCentRoundsUp();
    Quarter(weight);
    assert Rounded(Exact(0.02, Sum(weights)), weights, 3) == [0.01, 0.01, 0.01];
  }

  lemma Quarter(weight: real)
    requires weight > 0.0
    ensures Exact(0.02, weight + weight + weight + weight)(weight) == 0.005
  {
    assert weight + weight + weight + weight == 4.0 * weight;
    assert weight / (4.0 * weight) == 0.25;
  }
}
