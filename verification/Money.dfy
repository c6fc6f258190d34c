/**
 Money is a whole number of ten-thousandths, the scale of the amount columns. `round(x, 2)` is a function
 to a nearest whole cent: `Rounds` says no more than that, so nothing is assumed about ties.
 */
module Money {
  const HALF_CENT := 50

  predicate WholeCents(x: int) {
    x % 100 == 0
  }

  predicate NearestCent(x: int, r: int) {
    WholeCents(r) && -50 <= r - x <= 50
  }

  ghost predicate Rounds(round: int -> int) {
    forall x :: NearestCent(x, round(x))
  }

  function Abs(x: int): nat {
    if x < 0 then -x else x
  }

  lemma Near(round: int -> int, x: int)
    requires Rounds(round)
    ensures NearestCent(x, round(x))
  {
  }

  /** Two amounts in whole cents that differ by less than a cent are in order. */
  lemma WholeCentsApart(x: int, y: int)
    requires WholeCents(x) && WholeCents(y) && x < y + 100
    ensures x <= y
  {
    assert x == 100 * (x / 100) && y == 100 * (y / 100);
  }

  lemma WholeCentsAdd(x: int, y: int)
    requires WholeCents(x) && WholeCents(y)
    ensures WholeCents(x + y) && WholeCents(x - y)
  {
  }

  /** Whole cents round to themselves, however ties fall. */
  lemma RoundFixesWholeCents(round: int -> int, x: int)
    requires Rounds(round) && WholeCents(x)
    ensures round(x) == x
  {
    Near(round, x);
    WholeCentsApart(x, round(x));
    WholeCentsApart(round(x), x);
  }

  /** Rounding keeps order, however ties fall. */
  lemma RoundIsMonotone(round: int -> int, x: int, y: int)
    requires Rounds(round) && x <= y
    ensures round(x) <= round(y)
  {
    Near(round, x);
    Near(round, y);
    if x < y {
      WholeCentsApart(round(x), round(y));
    }
  }

  /** Ties to the even cent: one of the roundings meant. */
  function HalfEven(x: int): int {
    var c := x / 100;
    if x % 100 < HALF_CENT || (x % 100 == HALF_CENT && c % 2 == 0) then c * 100 else (c + 1) * 100
  }

  /** It is a rounding, and it takes 1.125 down to 1.12 and half a cent to nothing. */
  lemma HalfEvenRounds()
    ensures Rounds(HalfEven) && HalfEven(11_250) == 11_200 && HalfEven(HALF_CENT) == 0
  {
    forall x ensures NearestCent(x, HalfEven(x)) {
      assert x == x / 100 * 100 + x % 100;
      Hundredfold(x / 100);
      Hundredfold(x / 100 + 1);
    }
  }

  lemma Hundredfold(c: int)
    ensures WholeCents(c * 100)
  {
  }
}
