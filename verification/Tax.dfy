/** Jurisdiction tax: rates in basis points, tax per amount rounded half up to whole cents. */
module Tax {
  import opened Results
  import opened Money

  datatype Evaluation = Evaluation(applicable: bool, jurisdiction: string, rate: nat)

  const RATES: map<string, nat> := map["PK" := 1600, "SA" := 1500, "AE" := 500]

  /** Jurisdiction codes arrive stripped and upper-cased. */
  function Evaluate(jurisdiction: Option<string>, exempt: bool): Evaluation {
    if jurisdiction.None? || jurisdiction.value == "" then Evaluation(false, "NONE", 0)
    else if exempt || jurisdiction.value !in RATES then Evaluation(false, jurisdiction.value, 0)
    else Evaluation(true, jurisdiction.value, RATES[jurisdiction.value])
  }

  /** The nearest cent to `units` hundred-millionths; ties go away from zero. */
  function HalfUpCents(units: int): int {
    if units >= 0 then (units + 500_000) / 1_000_000 * 100 else -((-units + 500_000) / 1_000_000 * 100)
  }

  function ComputeTax(e: Evaluation, amount: int): int {
    if !e.applicable || e.rate <= 0 then 0 else HalfUpCents(amount * e.rate)
  }

  /** The rate that is actually charged. */
  function EffectiveRate(e: Evaluation): nat {
    if e.applicable then e.rate else 0
  }

  lemma HalfUpIsNear(units: int)
    ensures -500_000 <= 10_000 * HalfUpCents(units) - units <= 500_000 && WholeCents(HalfUpCents(units))
    ensures Abs(10_000 * HalfUpCents(units) - units) == 500_000 ==> Abs(10_000 * HalfUpCents(units)) > Abs(units)
  {
    var u := Abs(units);
    var c: int := (u + 500_000) / 1_000_000;
    assert 1_000_000 * c <= u + 500_000 < 1_000_000 * (c + 1);
    assert HalfUpCents(units) == if units >= 0 then 100 * c else 100 * (-c);
    Hundredfold(c);
    Hundredfold(-c);
  }

  /** Percent charged per jurisdiction. */
  function Percent(jurisdiction: Option<string>): nat {
    if jurisdiction == Some("PK") then 16 else if jurisdiction == Some("SA") then 15 else if jurisdiction == Some("AE") then 5 else 0
  }

  lemma EvaluatedExactly(jurisdiction: Option<string>)
    ensures EffectiveRate(Evaluate(jurisdiction, false)) == 100 * Percent(jurisdiction)
    ensures EffectiveRate(Evaluate(jurisdiction, true)) == 0
  {
    assert "PK"[0] == 'P' && "SA"[0] == 'S' && "AE"[0] == 'A' && |""| == 0;
  }

  /** Tax is whole cents and within half a cent of rate times amount; half a cent goes away from zero. */
  lemma TaxIsNear(e: Evaluation, amount: int)
    ensures WholeCents(ComputeTax(e, amount))
    ensures -500_000 <= 10_000 * ComputeTax(e, amount) - EffectiveRate(e) * amount <= 500_000
    ensures Abs(10_000 * ComputeTax(e, amount) - EffectiveRate(e) * amount) == 500_000 ==>
              Abs(10_000 * ComputeTax(e, amount)) > Abs(EffectiveRate(e) * amount)
  {
    if e.applicable && e.rate > 0 {
      HalfUpIsNear(amount * e.rate);
    }
  }
}
