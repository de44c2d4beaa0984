/**
 Exact decimal scaling: decimal text to rational, product, and back to the shortest text.
 */
module Decimal {
  import opened Wrappers
  import opened Arithmetic

  // ----- Digits -----------------------------------------------------------------------

  predicate IsDigit(c: char) {
    '0' <= c <= '9'
  }

  predicate AllDigits(s: string) {
    s == [] || (IsDigit(s[|s| - 1]) && AllDigits(s[..|s| - 1]))
  }

  lemma {:induction false} DigitAt(s: string, i: nat)
    requires AllDigits(s) && i < |s|
    ensures IsDigit(s[i])
  {
    if i < |s| - 1 { DigitAt(s[..|s| - 1], i); }
  }

  lemma {:induction false} DigitsPart(s: string, i: nat)
    requires AllDigits(s) && i <= |s|
    ensures AllDigits(s[..i]) && AllDigits(s[i..])
  {
    if i == |s| {
      assert s[..i] == s;
    } else {
      var init := s[..|s| - 1];
      DigitsPart(init, i);
      assert init[..i] == s[..i];
      assert s[i..][..|s| - i - 1] == init[i..];
    }
  }

  lemma {:induction false} DigitsConcat(a: string, b: string)
    requires AllDigits(a) && AllDigits(b)
    ensures AllDigits(a + b)
  {
    if b == [] {
      assert a + b == a;
    } else {
      DigitsConcat(a, b[..|b| - 1]);
      assert (a + b)[..|a + b| - 1] == a + b[..|b| - 1];
    }
  }

  function DigitChar(d: nat): char
    requires d < 10
  {
    '0' + d as char
  }

  function DigitValue(c: char): nat
    requires IsDigit(c)
  {
    (c - '0') as nat
  }

  function ParseNat(s: string): nat
    requires AllDigits(s)
  {
    if s == [] then 0 else ParseNat(s[..|s| - 1]) * 10 + DigitValue(s[|s| - 1])
  }

  /** The digits of n, without leading zeros. */
  function NatText(n: nat): (s: string)
    ensures AllDigits(s) && s != []
  {
    if n < 10 then
      [DigitChar(n)]
    else
      DigitsConcat(NatText(n / 10), [DigitChar(n % 10)]);
      NatText(n / 10) + [DigitChar(n % 10)]
  }

  lemma {:induction false} NatTextParses(n: nat)
    ensures ParseNat(NatText(n)) == n
    ensures NatText(n)[|NatText(n)| - 1] == DigitChar(n % 10)
  {
    if n < 10 {
      assert ParseNat([DigitChar(n)]) == ParseNat([]) * 10 + n;
    } else {
      NatTextParses(n / 10);
      var s := NatText(n);
      assert s[..|s| - 1] == NatText(n / 10);
    }
  }

  /** Digits without a leading zero. */
  predicate Whole(w: string) {
    w != [] && AllDigits(w) && (|w| > 1 ==> w[0] != '0')
  }

  lemma {:induction false} NatTextIsWhole(n: nat)
    ensures Whole(NatText(n)) && (n > 0 ==> NatText(n)[0] != '0')
  {
    if n >= 10 { NatTextIsWhole(n / 10); DigitAt(NatText(n / 10), 0); }
  }

  lemma {:induction false} NatTextLength(n: nat, d: nat)
    requires d >= 1 && n < Pow(10, d)
    ensures |NatText(n)| <= d
  {
    assert Pow(10, 1) == 10 * Pow(10, 0);
    if n >= 10 { NatTextLength(n / 10, d - 1); }
  }

  lemma {:induction false} ParseConcat(a: string, b: string)
    requires AllDigits(a) && AllDigits(b)
    ensures AllDigits(a + b) && ParseNat(a + b) == ParseNat(a) * Pow(10, |b|) + ParseNat(b)
  {
    DigitsConcat(a, b);
    if b == [] {
      assert a + b == a;
    } else {
      var n := |b| - 1;
      ParseConcat(a, b[..n]);
      assert (a + b)[..|a + b| - 1] == a + b[..n];
      Distribute(ParseNat(a), Pow(10, n), ParseNat(b[..n]));
    }
  }

  lemma Distribute(x: int, p: int, y: int)
    ensures (x * p + y) * 10 == x * (10 * p) + y * 10
  {
  }

  function Zeros(n: nat): (s: string)
    ensures |s| == n && AllDigits(s)
  {
    if n == 0 then
      []
    else
      DigitsConcat(Zeros(n - 1), ['0']);
      Zeros(n - 1) + ['0']
  }

  lemma {:induction false} ZerosParse(n: nat)
    ensures ParseNat(Zeros(n)) == 0
  {
    if n > 0 {
      ZerosParse(n - 1);
      assert Zeros(n)[..n - 1] == Zeros(n - 1);
    }
  }

  /** The digits of f, padded with zeros to width d. */
  function Padded(f: nat, d: nat): (s: string)
    requires d >= 1 && f < Pow(10, d)
    ensures AllDigits(s)
  {
    NatTextLength(f, d);
    DigitsConcat(Zeros(d - |NatText(f)|), NatText(f));
    Zeros(d - |NatText(f)|) + NatText(f)
  }

  lemma PaddedParses(f: nat, d: nat)
    requires d >= 1 && f < Pow(10, d)
    ensures |Padded(f, d)| == d && ParseNat(Padded(f, d)) == f
  {
    var t := NatText(f);
    NatTextLength(f, d);
    NatTextParses(f);
    ZeroPrefix(d - |t|, t);
  }

  lemma ZeroPrefix(n: nat, t: string)
    requires AllDigits(t)
    ensures AllDigits(Zeros(n) + t) && ParseNat(Zeros(n) + t) == ParseNat(t)
  {
    DigitsConcat(Zeros(n), t);
    ZerosParse(n);
    ParseConcat(Zeros(n), t);
  }

  // ----- Decimal text -----------------------------------------------------------------

  /** mant * 10^exp */
  datatype Dec = Dec(mant: int, exp: int)

  /** Where the digits that start at i end. */
  function RunEnd(s: string, i: nat): (j: nat)
    requires i <= |s|
    ensures i <= j <= |s|
    decreases |s| - i
  {
    if i < |s| && IsDigit(s[i]) then RunEnd(s, i + 1) else i
  }

  /** The number the digits of s between i and j spell. */
  function Value(s: string, i: nat, j: nat): nat
    requires j <= |s|
  {
    if j <= i then 0 else Value(s, i, j - 1) * 10 + if IsDigit(s[j - 1]) then DigitValue(s[j - 1]) else 0
  }

  predicate Has(s: string, i: nat, c: char) {
    i < |s| && s[i] == c
  }

  /** The exponent that fills s from i on; it has to fit 64 bits. */
  function ReadExponent(s: string, i: nat): Option<int>
    requires i <= |s|
  {
    if i == |s| then Some(0)
    else if s[i] != 'e' && s[i] != 'E' then None
    else
      var p := if Has(s, i + 1, '-') || Has(s, i + 1, '+') then i + 2 else i + 1;
      if p == |s| || RunEnd(s, p) != |s| || Value(s, p, |s|) > 0x7fff_ffff_ffff_ffff then None
      else Some(if Has(s, i + 1, '-') then 0 - Value(s, p, |s|) else Value(s, p, |s|))
  }

  /** The value of a number text in the JSON grammar. */
  function ReadDecimal(s: string): Option<Dec> {
    var start := if Has(s, 0, '-') then 1 else 0;
    var a := RunEnd(s, start);
    var from := if Has(s, a, '.') then a + 1 else a;
    var b := if Has(s, a, '.') then RunEnd(s, from) else a;
    var e := ReadExponent(s, b);
    if a == start || (a - start > 1 && s[start] == '0') || (Has(s, a, '.') && b == from) || e.None? then None
    else Some(Dec(Signed(start == 1, Value(s, start, a) * Pow(10, b - from) + Value(s, from, b)), e.value - (b - from)))
  }

  function Signed(neg: bool, m: nat): int {
    if neg then 0 - m else m
  }

  /** w stands in s at position i. */
  ghost predicate At(s: string, i: nat, w: string) {
    i + |w| <= |s| && forall k | 0 <= k < |w| :: s[i + k] == w[k]
  }

  lemma {:induction false} RunOf(s: string, i: nat, w: string, k: nat)
    requires At(s, i, w) && AllDigits(w) && k <= |w| && (i + |w| < |s| ==> !IsDigit(s[i + |w|]))
    ensures RunEnd(s, i + k) == i + |w|
    decreases |w| - k
  {
    if k < |w| {
      DigitAt(w, k);
      RunOf(s, i, w, k + 1);
    }
  }

  lemma {:induction false} ValueOf(s: string, i: nat, w: string)
    requires At(s, i, w) && AllDigits(w)
    ensures Value(s, i, i + |w|) == ParseNat(w)
  {
    if w != [] {
      var n := |w| - 1;
      ValueOf(s, i, w[..n]);
      assert s[i + n] == w[n];
    }
  }

  // ----- Rationals in lowest terms ------------------------------------------------------

  datatype Rat = Rat(num: int, den: nat)

  ghost predicate Reduced(r: Rat) {
    r.den > 0 && Coprime(r.num, r.den)
  }

  function Normalize(n: int, d: nat): Rat
    requires d > 0
  {
    var g := Gcd(Abs(n), d);
    Rat(if n < 0 then 0 - Abs(n) / g else Abs(n) / g, d / g)
  }

  lemma Normalized(n: int, d: nat)
    requires d > 0
    ensures var r := Normalize(n, d);
            && Reduced(r) && r.num * d == n * r.den && Divides(r.den, d)
  {
    var g, r := Gcd(Abs(n), d), Normalize(n, d);
    GcdDivides(Abs(n), d);
    var x :| Abs(n) == g * x;
    var y :| d == g * y;
    ExactQuotient(g, x);
    ExactQuotient(g, y);
    CofactorsCoprime(g, x, y);
    CoprimeAbs(r.num, x, y);
    CrossProduct(g, x, y);
    Commute(g, y);
    if n < 0 { Negated(x, d); Negated(Abs(n), y); }
  }

  lemma ExactQuotient(g: nat, x: int)
    requires g > 0 && g * x >= 0
    ensures x >= 0 && (g * x) / g == x && (g * x > 0 ==> x > 0)
  {
    MulOrder(g, x, 0);
    SameQuotient(g, x, (g * x) / g, (g * x) % g);
  }

  lemma SameQuotient(g: int, x: int, q: int, rem: int)
    requires g * x == g * q + rem && 0 <= rem < g
    ensures x == q
  {
    MulOrder(g, x + 1, q);
    MulOrder(g, q + 1, x);
    StepUp(g, x);
    StepUp(g, q);
  }

  lemma StepUp(g: int, x: int)
    ensures g * (x + 1) == g * x + g
  {
  }

  lemma CoprimeAbs(n: int, x: int, y: int)
    requires x >= 0 && Coprime(x, y) && (n == x || n == -x)
    ensures Coprime(n, y)
  {
    forall d: nat | d > 1 ensures !(Divides(d, n) && Divides(d, y)) {
      DividesAbs(d, n);
      assert Abs(n) == x;
    }
  }

  lemma CrossProduct(g: int, x: int, y: int)
    ensures x * (g * y) == (g * x) * y
  {
  }

  lemma Negated(x: int, d: int)
    ensures -(x * d) == (-x) * d
  {
  }

  function Mul(a: Rat, b: Rat): Rat
    requires a.den > 0 && b.den > 0
  {
    MulOrder(a.den, 1, b.den);
    Normalize(a.num * b.num, a.den * b.den)
  }

}
