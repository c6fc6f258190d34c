/** Looking for words and numbers at a position of a byte string; bytes are characters below 256. */
module Scan {
  import opened Results
  import opened Decimal

  /** `w` occurs in `f` at position `i`. */
  predicate At(f: string, i: nat, w: string) {
    i + |w| <= |f| && forall k :: 0 <= k < |w| ==> f[i + k] == w[k]
  }

  /** The first position at or after `i` that is not a digit. */
  function ScanDigits(f: string, i: nat): (j: nat)
    requires i <= |f|
    ensures i <= j <= |f| && AllDigits(f[i..j])
    decreases |f| - i
  {
    if i < |f| && IsDigit(f[i]) then ScanDigits(f, i + 1) else i
  }

  /** The number written at `i`, and the position after it. */
  function ReadNumber(f: string, i: nat): (r: Option<(nat, nat)>)
    ensures r.Some? ==> r.value.1 <= |f|
  {
    if i > |f| then None else
    var j := ScanDigits(f, i);
    if j == i then None else Some((Value(f[i..j]), j))
  }

  /** Where the run of digits that ends before `j` begins. */
  function ScanBack(f: string, j: nat): (i: nat)
    requires j <= |f|
    ensures i <= j && AllDigits(f[i..j])
  {
    if j > 0 && IsDigit(f[j - 1]) then
      var i := ScanBack(f, j - 1);
      assert f[i..j] == f[i..j - 1] + [f[j - 1]];
      i
    else j
  }

  /** The first occurrence of `w` at or after `p`. */
  function Find(f: string, p: nat, w: string): (r: Option<nat>)
    ensures r.Some? ==> p <= r.value <= |f|
    decreases |f| - p
  {
    if p > |f| then None else if At(f, p, w) then Some(p) else Find(f, p + 1, w)
  }

  lemma AtMiddle(a: string, w: string, b: string)
    ensures At(a + w + b, |a|, w)
  {
  }

  lemma AtEnd(a: string, w: string)
    ensures At(a + w, |a|, w)
  {
  }

  lemma AtSplit(f: string, i: nat, a: string, b: string)
    requires At(f, i, a + b)
    ensures At(f, i, a) && At(f, i + |a|, b)
  {
    var ab := a + b;
    forall k | 0 <= k < |a| ensures f[i + k] == a[k] {
      assert ab[k] == a[k];
    }
    forall k | 0 <= k < |b| ensures f[i + |a| + k] == b[k] {
      assert ab[|a| + k] == b[k];
    }
  }

  lemma AtSplit3(f: string, i: nat, a: string, b: string, c: string)
    requires At(f, i, a + b + c)
    ensures At(f, i, a) && At(f, i + |a|, b) && At(f, i + |a| + |b|, c)
  {
    AtSplit(f, i, a + b, c);
    AtSplit(f, i, a, b);
  }

  lemma AtConcat(f: string, i: nat, a: string, b: string)
    requires At(f, i, a) && At(f, i + |a|, b)
    ensures At(f, i, a + b)
  {
    forall k | |a| <= k < |a| + |b| ensures f[i + k] == (a + b)[k] {
      assert f[i + |a| + (k - |a|)] == b[k - |a|];
    }
  }

  lemma AtPrefix(g: string, f: string, i: nat, w: string)
    requires g <= f && At(g, i, w)
    ensures At(f, i, w)
  {
  }

  lemma AtInside(f: string, p: nat, g: string, i: nat, w: string)
    requires At(f, p, g) && At(g, i, w)
    ensures At(f, p + i, w)
  {
    forall k | 0 <= k < |w| ensures f[p + i + k] == w[k] {
      assert f[p + (i + k)] == g[i + k];
    }
  }

  /** An occurrence that starts inside a known window and fits it is an occurrence in the window. */
  lemma AtWithin(f: string, p: nat, g: string, r: nat, w: string)
    requires At(f, p, g) && p <= r && r + |w| <= p + |g| && At(f, r, w)
    ensures At(g, r - p, w)
  {
    forall k | 0 <= k < |w| ensures g[r - p + k] == w[k] {
      assert f[p + (r - p + k)] == g[r - p + k];
      assert f[r + k] == w[k];
    }
  }

  lemma AtSlice(f: string, i: nat, w: string)
    requires At(f, i, w)
    ensures f[i..i + |w|] == w
  {
  }

  lemma AtFirst(f: string, i: nat, w: string)
    requires w != ""
    ensures At(f, i, w) ==> i < |f| && f[i] == w[0]
  {
    assert At(f, i, w) ==> f[i + 0] == w[0];
  }

  lemma AtChar(f: string, i: nat, w: string, j: nat)
    requires At(f, i, w)
    ensures i <= j < i + |w| ==> j < |f| && f[j] in w
  {
    if i <= j < i + |w| {
      assert f[i + (j - i)] == w[j - i];
    }
  }

  lemma {:induction false} ScanDigitsStops(f: string, i: nat, j: nat)
    requires i <= j < |f| && AllDigits(f[i..j]) && !IsDigit(f[j])
    ensures ScanDigits(f, i) == j
    decreases j - i
  {
    if i < j {
      assert f[i] == f[i..j][0];
      assert f[i + 1..j] == f[i..j][1..];
      ScanDigitsStops(f, i + 1, j);
    }
  }

  lemma ReadNumberAt(f: string, i: nat, n: nat, next: string)
    requires At(f, i, Digits(n)) && At(f, i + |Digits(n)|, next) && next != "" && !IsDigit(next[0])
    ensures ReadNumber(f, i) == Some((n, i + |Digits(n)|))
  {
    AtSlice(f, i, Digits(n));
    assert f[i + |Digits(n)| + 0] == next[0];
    ScanDigitsStops(f, i, i + |Digits(n)|);
    DigitsRoundTrip(n);
  }

  lemma {:induction false} ScanBackStops(f: string, i: nat, j: nat)
    requires i <= j <= |f| && AllDigits(f[i..j]) && (i == 0 || !IsDigit(f[i - 1]))
    ensures ScanBack(f, j) == i
    decreases j
  {
    if i < j {
      assert f[j - 1] == f[i..j][j - 1 - i];
      assert f[i..j - 1] == f[i..j][..j - 1 - i];
      ScanBackStops(f, i, j - 1);
    }
  }

  /** `Find` finds an occurrence, and none sooner. */
  lemma {:induction false} FindsSoonest(f: string, p: nat, q: nat, w: string)
    requires p <= q && At(f, q, w)
    ensures Find(f, p, w).Some? && At(f, Find(f, p, w).value, w) && Find(f, p, w).value <= q
    decreases q - p
  {
    if p < q {
      FindsSoonest(f, p + 1, q, w);
    }
  }
}
