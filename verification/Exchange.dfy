/** Conversion at a rate on file. Rates are whole numbers of 10^-8, the scale of their column. */
module Exchange {
  import opened Results
  import opened Money

  const ONE := 100_000_000

  /** The rate an invoice locks: one for dollars and for currencies without a rate on file. */
  function LockedRate(currency: string, onFile: Option<nat>): nat {
    if currency == "USD" || onFile.None? then ONE else onFile.value
  }

  /** `round(amount * rate, 2)`: a tie can only fall on the ten-thousandths grid, where `round` decides it. */
  function Exchanged(round: int -> int, amount: int, rate: nat): int {
    var exact := amount * rate;
    if exact % ONE == 0 then round(exact / ONE) else (exact + HALF_CENT * ONE) / (100 * ONE) * 100
  }

  lemma OffGrid(exact: int)
    ensures var cents := (exact + HALF_CENT * ONE) / (100 * ONE) * 100;
            WholeCents(cents) && -HALF_CENT * ONE <= ONE * cents - exact <= HALF_CENT * ONE
  {
    var c := (exact + HALF_CENT * ONE) / (100 * ONE);
    assert 100 * ONE * c <= exact + HALF_CENT * ONE < 100 * ONE * (c + 1);
    assert (c * 100) % 100 == 0;
  }

  /** A converted amount is whole cents and within half a cent of amount times rate. */
  lemma ExchangedIsNear(round: int -> int, amount: int, rate: nat)
    requires Rounds(round)
    ensures WholeCents(Exchanged(round, amount, rate))
    ensures -HALF_CENT * ONE <= ONE * Exchanged(round, amount, rate) - amount * rate <= HALF_CENT * ONE
  {
    var exact := amount * rate;
    if exact % ONE == 0 {
      Near(round, exact / ONE);
      assert exact == ONE * (exact / ONE);
    } else {
      OffGrid(exact);
    }
  }
}
