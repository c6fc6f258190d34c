/** Decimal numerals as the PDF writer prints them: plain (`%d`) and zero-padded (`:010d`). */
module Decimal {
  function Digit(d: nat): (c: char)
    requires d < 10
    ensures IsDigit(c) && DigitValue(c) == d
  {
    ('0' as int + d) as char
  }

  predicate IsDigit(c: char) {
    '0' <= c <= '9'
  }

  function DigitValue(c: char): nat
    requires IsDigit(c)
  {
    c as int - '0' as int
  }

  predicate AllDigits(s: string) {
    forall i :: 0 <= i < |s| ==> IsDigit(s[i])
  }

  /** The shortest decimal numeral of `n`. */
  function Digits(n: nat): (s: string)
    ensures |s| > 0 && AllDigits(s)
  {
    if n < 10 then [Digit(n)] else Digits(n / 10) + [Digit(n % 10)]
  }

  /** The number a run of digits denotes; leading zeros are allowed. */
  function Value(s: string): nat
    requires AllDigits(s)
  {
    if s == [] then 0 else 10 * Value(s[..|s| - 1]) + DigitValue(s[|s| - 1])
  }

  function Zeros(k: nat): (s: string)
    ensures |s| == k && AllDigits(s)
  {
    if k == 0 then "" else "0" + Zeros(k - 1)
  }

  /** The numeral of `n`, zero-padded on the left to at least `width` digits. */
  function Padded(n: nat, width: nat): (s: string)
    ensures AllDigits(s) && |s| == if |Digits(n)| <= width then width else |Digits(n)|
  {
    var s := Digits(n);
    Zeros(if |s| < width then width - |s| else 0) + s
  }

  function Pow10(k: nat): nat {
    if k == 0 then 1 else 10 * Pow10(k - 1)
  }

  lemma {:induction false} DigitsRoundTrip(n: nat)
    ensures Value(Digits(n)) == n
  {
    if n >= 10 {
      DigitsRoundTrip(n / 10);
      assert Digits(n)[..|Digits(n)| - 1] == Digits(n / 10);
    }
  }

  lemma {:induction false} LeadingZeros(k: nat, s: string)
    requires AllDigits(s)
    ensures AllDigits(Zeros(k) + s) && Value(Zeros(k) + s) == Value(s)
    decreases k + |s|
  {
    var t := Zeros(k) + s;
    if s != [] {
      assert t[..|t| - 1] == Zeros(k) + s[..|s| - 1];
      LeadingZeros(k, s[..|s| - 1]);
    } else if k > 0 {
      assert t == Zeros(k - 1) + "0" by { ZerosSnoc(k - 1); }
      assert t[..|t| - 1] == Zeros(k - 1) + "";
      LeadingZeros(k - 1, "");
    }
  }

  lemma {:induction false} ZerosSnoc(k: nat)
    ensures Zeros(k + 1) == Zeros(k) + "0"
  {
    if k > 0 {
      ZerosSnoc(k - 1);
    }
  }

  /** Padding never changes the number read back. */
  lemma PaddedRoundTrip(n: nat, width: nat)
    ensures Value(Padded(n, width)) == n
  {
    var s := Digits(n);
    LeadingZeros(if |s| < width then width - |s| else 0, s);
    DigitsRoundTrip(n);
  }

  /** A numeral fits in `k` digits exactly when the number is below 10^k. */
  lemma {:induction false} DigitsWidth(n: nat, k: nat)
    requires k > 0
    ensures |Digits(n)| <= k <==> n < Pow10(k)
  {
    if k == 1 {
      assert Pow10(1) == 10 * Pow10(0);
    } else if n < 10 {
      Pow10AtLeastTen(k);
    } else {
      DigitsWidth(n / 10, k - 1);
      assert Pow10(k) == 10 * Pow10(k - 1);
    }
  }

  lemma {:induction false} Pow10AtLeastTen(k: nat)
    requires k > 0
    ensures Pow10(k) >= 10
  {
    if k > 1 {
      Pow10AtLeastTen(k - 1);
    }
  }
}
