/** Exact decimal scaling: a number text times a scale text, printed as the shortest exact decimal. */
module Scaling {
  import opened Wrappers
  import opened Arithmetic
  import opened Decimal
  import opened Json

  // ----- Printing with a fixed number of decimals ------------------------------------------

  /** Sign, integer digits and, when there are any, a point and the decimals. */
  function Fixed(neg: bool, whole: string, frac: string): string {
    (if neg then "-" else "") + (whole + Decimals(frac))
  }

  function Decimals(frac: string): string {
    if frac == [] then "" else "." + frac
  }

  /** An exponent: e or E, an optional sign, digits; or nothing. */
  datatype Exponent = NoExponent | Exponent(mark: char, sign: string, digits: string)

  predicate Proper(x: Exponent) {
    x.NoExponent? ||
    ((x.mark == 'e' || x.mark == 'E') && (x.sign == "" || x.sign == "+" || x.sign == "-")
     && x.digits != "" && AllDigits(x.digits))
  }

  function ExponentText(x: Exponent): string {
    if x.NoExponent? then "" else [x.mark] + x.sign + x.digits
  }

  function ExponentValue(x: Exponent): int
    requires Proper(x)
  {
    if x.NoExponent? then 0 else Signed(x.sign == "-", ParseNat(x.digits))
  }

  const MAX_INT64 := 0x7fff_ffff_ffff_ffff

  /** What a number text reads as: sign, digits and exponent give the value, unless the exponent needs 64 bits. */
  lemma NumberReads(neg: bool, w: string, frac: string, x: Exponent)
    requires Whole(w) && AllDigits(frac) && Proper(x)
    ensures AllDigits(w + frac)
    ensures ReadDecimal(Fixed(neg, w, frac) + ExponentText(x)) ==
            if Abs(ExponentValue(x)) > MAX_INT64 then None
            else Some(Dec(Signed(neg, ParseNat(w + frac)), ExponentValue(x) - |frac|))
  {
    FixedParts(neg, w, frac);
    PartsStay(Fixed(neg, w, frac), ExponentText(x), neg, w, frac);
    ReadsWithExponent(Fixed(neg, w, frac) + ExponentText(x), |Fixed(neg, w, frac)|, neg, w, frac, x);
  }

  lemma ReadsWithExponent(s: string, b: nat, neg: bool, w: string, frac: string, x: Exponent)
    requires Parts(s, neg, w, frac, b) && Whole(w) && AllDigits(frac) && Proper(x) && s[b..] == ExponentText(x)
    ensures AllDigits(w + frac)
    ensures ReadDecimal(s) ==
            if Abs(ExponentValue(x)) > MAX_INT64 then None
            else Some(Dec(Signed(neg, ParseNat(w + frac)), ExponentValue(x) - |frac|))
  {
    MantissaReads(s, b, neg, w, frac, x);
    ParseConcat(w, frac);
  }

  lemma MantissaReads(s: string, b: nat, neg: bool, w: string, frac: string, x: Exponent)
    requires Parts(s, neg, w, frac, b) && Whole(w) && AllDigits(frac) && Proper(x) && s[b..] == ExponentText(x)
    ensures ReadDecimal(s) ==
            if Abs(ExponentValue(x)) > MAX_INT64 then None
            else Some(Dec(Signed(neg, ParseNat(w) * Pow(10, |frac|) + ParseNat(frac)), ExponentValue(x) - |frac|))
  {
    ExponentTextReads(s, b, x);
    PartsRead(s, neg, w, frac, b);
  }

  lemma ExponentTextReads(s: string, b: nat, x: Exponent)
    requires Proper(x) && b <= |s| && s[b..] == ExponentText(x)
    ensures Stops(s, b)
    ensures ReadExponent(s, b) == if Abs(ExponentValue(x)) > MAX_INT64 then None else Some(ExponentValue(x))
  {
    EndsMantissa(s, b, x);
    ExponentReads(s, b, x);
  }

  /** What a fixed-point text reads as. */
  lemma FixedReads(neg: bool, w: string, frac: string)
    requires Whole(w) && AllDigits(frac)
    ensures AllDigits(w + frac)
    ensures ReadDecimal(Fixed(neg, w, frac)) == Some(Dec(Signed(neg, ParseNat(w + frac)), -|frac|))
  {
    FixedParts(neg, w, frac);
    PartsReadAs(Fixed(neg, w, frac), neg, w, frac);
  }

  lemma PartsReadAs(s: string, neg: bool, w: string, frac: string)
    requires Parts(s, neg, w, frac, |s|) && Whole(w) && AllDigits(frac)
    ensures AllDigits(w + frac) && ReadDecimal(s) == Some(Dec(Signed(neg, ParseNat(w + frac)), -|frac|))
  {
    PartsRead(s, neg, w, frac, |s|);
    ParseConcat(w, frac);
  }

  /** Where the parts of a fixed-point text that ends at b stand. */
  ghost predicate Parts(s: string, neg: bool, w: string, frac: string, b: nat) {
    var i := if neg then 1 else 0;
    && b <= |s| && Has(s, 0, '-') == neg && At(s, i, w)
    && if frac == [] then b == i + |w|
       else b == i + |w| + 1 + |frac| && s[i + |w|] == '.' && At(s, i + |w| + 1, frac)
  }

  /** No digit and no point follows. */
  predicate Stops(s: string, b: nat) {
    b >= |s| || (!IsDigit(s[b]) && s[b] != '.')
  }

  /** The integer digits end at a and the decimals at b. */
  ghost predicate Mantissa(s: string, a: nat, b: nat) {
    var start := if Has(s, 0, '-') then 1 else 0;
    && start < a <= b <= |s| && a == RunEnd(s, start) && (a - start > 1 ==> s[start] != '0')
    && if a == b then !Has(s, a, '.') else s[a] == '.' && a + 1 < b == RunEnd(s, a + 1)
  }

  lemma MantissaRead(s: string, a: nat, b: nat)
    requires Mantissa(s, a, b)
    ensures ReadDecimal(s) ==
            match ReadExponent(s, b)
            case None => None
            case Some(e) =>
              var start, from := if Has(s, 0, '-') then 1 else 0, if a < b then a + 1 else b;
              Some(Dec(Signed(start == 1, Value(s, start, a) * Pow(10, b - from) + Value(s, from, b)), e - (b - from)))
  {
  }

  lemma PartsRead(s: string, neg: bool, w: string, frac: string, b: nat)
    requires Parts(s, neg, w, frac, b) && Stops(s, b) && Whole(w) && AllDigits(frac)
    ensures ReadDecimal(s) ==
            match ReadExponent(s, b)
            case None => None
            case Some(e) => Some(Dec(Signed(neg, ParseNat(w) * Pow(10, |frac|) + ParseNat(frac)), e - |frac|))
  {
    var i: nat := if neg then 1 else 0;
    PartsEnd(s, i, w, frac, b);
    PartsSpell(s, i, w, frac, b);
    MantissaRead(s, i + |w|, b);
  }

  lemma PartsEnd(s: string, i: nat, w: string, frac: string, b: nat)
    requires i <= 1 && Parts(s, i == 1, w, frac, b) && Stops(s, b) && Whole(w) && AllDigits(frac)
    ensures Mantissa(s, i + |w|, b)
  {
    WholeRuns(s, i, w);
    if frac != [] { RunOf(s, i + |w| + 1, frac, 0); }
  }

  lemma PartsSpell(s: string, i: nat, w: string, frac: string, b: nat)
    requires i <= 1 && Parts(s, i == 1, w, frac, b) && AllDigits(w) && AllDigits(frac)
    ensures Value(s, i, i + |w|) == ParseNat(w)
    ensures frac == [] ==> b == i + |w|
    ensures frac != [] ==> b == i + |w| + 1 + |frac| && Value(s, i + |w| + 1, b) == ParseNat(frac)
  {
    ValueOf(s, i, w);
    if frac != [] { ValueOf(s, i + |w| + 1, frac); }
  }

  lemma WholeRuns(s: string, i: nat, w: string)
    requires At(s, i, w) && Whole(w) && (i + |w| < |s| ==> !IsDigit(s[i + |w|]))
    ensures RunEnd(s, i) == i + |w| && (|w| > 1 ==> s[i] != '0')
  {
    RunOf(s, i, w, 0);
    assert s[i] == w[0];
  }

  lemma FixedParts(neg: bool, w: string, frac: string)
    requires Whole(w)
    ensures Parts(Fixed(neg, w, frac), neg, w, frac, |Fixed(neg, w, frac)|)
  {
    DigitAt(w, 0);
  }

  lemma PartsStay(f: string, t: string, neg: bool, w: string, frac: string)
    requires Parts(f, neg, w, frac, |f|) && w != []
    ensures Parts(f + t, neg, w, frac, |f|) && (f + t)[|f|..] == t
  {
  }

  /** Where the text of the exponent stands, letter by letter. */
  lemma EndsMantissa(s: string, b: nat, x: Exponent)
    requires Proper(x) && b <= |s| && s[b..] == ExponentText(x)
    ensures Stops(s, b)
    ensures x.NoExponent? ==> b == |s|
    ensures x.Exponent? ==> ExponentAt(s, b, x)
  {
    if x.Exponent? {
      var t := ExponentText(x);
      assert |t| == 1 + |x.sign| + |x.digits| && s[b] == t[0] == x.mark;
      forall k | 0 <= k < |x.sign| ensures s[b + 1 + k] == x.sign[k] { assert s[b..][1 + k] == t[1 + k]; }
      forall k | 0 <= k < |x.digits| ensures s[b + 1 + |x.sign| + k] == x.digits[k] {
        assert s[b..][1 + |x.sign| + k] == t[1 + |x.sign| + k];
      }
    }
  }

  ghost predicate ExponentAt(s: string, b: nat, x: Exponent)
    requires x.Exponent?
  {
    && |s| == b + 1 + |x.sign| + |x.digits|
    && s[b] == x.mark && At(s, b + 1, x.sign) && At(s, b + 1 + |x.sign|, x.digits)
  }

  lemma ExponentReads(s: string, b: nat, x: Exponent)
    requires Proper(x) && b <= |s|
    requires if x.NoExponent? then b == |s| else ExponentAt(s, b, x)
    ensures ReadExponent(s, b) == if Abs(ExponentValue(x)) > MAX_INT64 then None else Some(ExponentValue(x))
  {
    if x.Exponent? {
      var p := b + 1 + |x.sign|;
      DigitAt(x.digits, 0);
      assert s[p] == x.digits[0];
      if x.sign != "" { assert s[b + 1] == x.sign[0]; }
      RunOf(s, p, x.digits, 0);
      ValueOf(s, p, x.digits);
    }
  }

  /** Nothing else is read: a text with a value is a number text. */
  lemma ReadsOnlyNumbers(s: string) returns (neg: bool, w: string, frac: string, x: Exponent)
    requires ReadDecimal(s).Some?
    ensures Whole(w) && AllDigits(frac) && Proper(x) && s == Fixed(neg, w, frac) + ExponentText(x)
  {
    var a: nat, b: nat := MantissaOf(s);
    x := ExponentFrom(s, b);
    neg, w, frac := MantissaText(s, a, b);
    assert s == s[..b] + s[b..];
  }

  lemma MantissaText(s: string, a: nat, b: nat) returns (neg: bool, w: string, frac: string)
    requires Mantissa(s, a, b)
    ensures Whole(w) && AllDigits(frac) && s[..b] == Fixed(neg, w, frac)
  {
    neg := Has(s, 0, '-');
    var start: nat := if neg then 1 else 0;
    w := WholeOf(s, start, a);
    frac := DecimalsOf(s, a, b);
    Pieces(s, start, a, b, w, frac);
  }

  lemma WholeOf(s: string, start: nat, a: nat) returns (w: string)
    requires start < a <= |s| && a == RunEnd(s, start) && (a - start > 1 ==> s[start] != '0')
    ensures Whole(w) && w == s[start..a]
  {
    RunIsDigits(s, start, a);
    w := s[start..a];
  }

  lemma DecimalsOf(s: string, a: nat, b: nat) returns (frac: string)
    requires a <= b <= |s| && (a < b ==> s[a] == '.' && a + 1 < b == RunEnd(s, a + 1))
    ensures AllDigits(frac) && s[a..b] == Decimals(frac)
  {
    if a == b {
      frac := "";
    } else {
      RunIsDigits(s, a + 1, b);
      frac := s[a + 1..b];
    }
  }

  /** Where the integer digits and where the decimals end. */
  lemma MantissaOf(s: string) returns (a: nat, b: nat)
    requires ReadDecimal(s).Some?
    ensures Mantissa(s, a, b) && ReadExponent(s, b).Some?
  {
    a := RunEnd(s, if Has(s, 0, '-') then 1 else 0);
    b := if Has(s, a, '.') then RunEnd(s, a + 1) else a;
  }

  lemma Pieces(s: string, start: nat, a: nat, b: nat, w: string, frac: string)
    requires start <= a <= b <= |s| && w == s[start..a] && start == if Has(s, 0, '-') then 1 else 0
    requires s[a..b] == Decimals(frac)
    ensures s[..b] == Fixed(start == 1, w, frac)
  {
    assert s[..b] == s[..start] + (w + s[a..b]);
    assert start == 1 ==> s[..start] == "-";
  }

  lemma {:induction false} RunIsDigits(s: string, i: nat, j: nat)
    requires i <= |s| && i <= j <= RunEnd(s, i)
    ensures AllDigits(s[i..j])
  {
    if i < j {
      RunIsDigits(s, i, j - 1);
      RunHas(s, i, j - 1);
      assert s[i..j][..j - i - 1] == s[i..j - 1];
    }
  }

  lemma {:induction false} RunHas(s: string, i: nat, k: nat)
    requires i <= |s| && i <= k < RunEnd(s, i)
    ensures IsDigit(s[k])
    decreases k - i
  {
    if i < k { RunHas(s, i + 1, k); }
  }

  lemma ExponentFrom(s: string, b: nat) returns (x: Exponent)
    requires b <= |s| && ReadExponent(s, b).Some?
    ensures Proper(x) && s[b..] == ExponentText(x)
  {
    if b == |s| {
      x := NoExponent;
    } else {
      var p := if Has(s, b + 1, '-') || Has(s, b + 1, '+') then b + 2 else b + 1;
      x := Exponent(s[b], s[b + 1..p], s[p..]);
      RunIsDigits(s, p, |s|);
      assert s[p..|s|] == s[p..];
      assert s[b..] == [s[b]] + s[b + 1..p] + s[p..];
    }
  }

  lemma FixedText(neg: bool, w: string, frac: string)
    requires w != []
    ensures Fixed(neg, w, frac) == if frac == [] then Head(neg, w) else (Head(neg, w) + ".") + frac
    ensures Head(neg, w) != [] && Head(neg, w)[|Head(neg, w)| - 1] == w[|w| - 1]
  {
  }

  function Head(neg: bool, w: string): string {
    (if neg then "-" else "") + w
  }

  /** x/den rounded, half up. */
  function HalfUp(x: nat, den: nat): nat
    requires den > 0
  {
    if den <= 2 * (x % den) then x / den + 1 else x / den
  }

  /** The nearest integer, and of two equally near ones the larger. */
  lemma HalfUpIsNearest(x: nat, den: nat)
    requires den > 0
    ensures var m := HalfUp(x, den); 2 * (m * den) - den <= 2 * x < 2 * (m * den) + den
  {
    var q, y := x / den, x % den;
    assert x == den * q + y;
    Commute(den, q);
    OneMore(q, den);
  }

  /** A fraction of p parts that may have been rounded up to the whole. */
  function Carried(whole: nat, up: nat, p: nat): (r: (nat, nat))
    requires up <= p && p > 0
    ensures r.1 < p
  {
    if up >= p then (whole + 1, up - p) else (whole, up)
  }

  /** Quotient and remainder of the rounded value |num|/den at `prec` decimals: half away from zero. */
  function Rounded(n: nat, den: nat, prec: nat): (r: (nat, nat))
    requires den > 0
    ensures r.1 < Pow(10, prec)
  {
    PowPositive(10, prec);
    RemainderSmall(n % den, den, Pow(10, prec));
    Carried(n / den, HalfUp((n % den) * Pow(10, prec), den), Pow(10, prec))
  }

  lemma RemainderSmall(x: nat, den: nat, p: nat)
    requires x < den && p > 0
    ensures (x * p) / den < p
  {
    var q := (x * p) / den;
    MulOrder(p, x, den);
    assert x * p == den * q + (x * p) % den;
    MulOrder(den, p, q);
    Commute(den, p);
    Commute(x, p);
  }

  /** Twice the distance between m/10^prec and n/den is at most 10^-prec. */
  ghost predicate Nearest(m: int, n: int, den: int, p: int) {
    -den <= 2 * (m * den - n * p) <= den
  }

  lemma RoundedIsNearest(n: nat, den: nat, prec: nat)
    requires den > 0
    ensures var r := Rounded(n, den, prec);
            Nearest(r.0 * Pow(10, prec) + r.1, n, den, Pow(10, prec))
  {
    var p := Pow(10, prec);
    var q, x := n / den, n % den;
    var up, y := (x * p) / den, (x * p) % den;
    assert n == den * q + x;
    assert x * p == den * up + y;
    Reassemble(n, den, p, q, x, up, y);
    var r := Rounded(n, den, prec);
    if den <= 2 * y { CarryIsSame(q, p, up + 1); OneMore(q * p + up, den); } else { CarryIsSame(q, p, up); }
  }

  lemma Reassemble(n: int, den: int, p: int, q: int, x: int, up: int, y: int)
    requires n == den * q + x && x * p == den * up + y
    ensures (q * p + up) * den - n * p == -y
  {
    assert n * p == den * q * p + x * p;
    assert (q * p + up) * den == q * p * den + up * den;
    assert den * q * p == q * p * den;
  }

  lemma CarryIsSame(q: int, p: int, up: int)
    ensures (q + 1) * p + (up - p) == q * p + up
  {
  }

  lemma OneMore(m: int, den: int)
    ensures (m + 1) * den == m * den + den
  {
  }

  /** Rat.FloatString. */
  function FloatString(r: Rat, prec: nat): string
    requires r.den > 0
  {
    var (whole, part) := Rounded(Abs(r.num), r.den, prec);
    Fixed(r.num < 0, NatText(whole), if prec == 0 then "" else Padded(part, prec))
  }

  /** FloatString shows the multiple of 10^-prec nearest to r. */
  lemma FloatStringIsNearest(r: Rat, prec: nat) returns (w: string, frac: string)
    requires r.den > 0
    ensures Whole(w) && AllDigits(frac) && |frac| == prec && FloatString(r, prec) == Fixed(r.num < 0, w, frac)
    ensures AllDigits(w + frac) && Nearest(Signed(r.num < 0, ParseNat(w + frac)), r.num, r.den, Pow(10, prec))
  {
    var (whole, part) := Rounded(Abs(r.num), r.den, prec);
    w, frac := NatText(whole), if prec == 0 then "" else Padded(part, prec);
    NatTextIsWhole(whole);
    DigitsOf(whole, part, prec);
    RoundedIsNearest(Abs(r.num), r.den, prec);
    SignedNearest(ParseNat(w + frac), r.num, r.den, Pow(10, prec));
  }

  lemma SignedNearest(m: nat, num: int, den: int, p: int)
    requires Nearest(m, Abs(num), den, p)
    ensures Nearest(Signed(num < 0, m), num, den, p)
  {
    MirrorNearest(m, Abs(num), den, p);
  }

  lemma DigitsOf(whole: nat, part: nat, prec: nat)
    requires part < Pow(10, prec)
    ensures var frac := if prec == 0 then "" else Padded(part, prec);
            && |frac| == prec && AllDigits(NatText(whole) + frac)
            && ParseNat(NatText(whole) + frac) == whole * Pow(10, prec) + part
  {
    NatTextParses(whole);
    if prec == 0 {
      assert NatText(whole) + "" == NatText(whole);
    } else {
      PaddedParses(part, prec);
      ParseConcat(NatText(whole), Padded(part, prec));
    }
  }

  lemma MirrorNearest(m: int, n: int, den: int, p: int)
    requires Nearest(m, n, den, p)
    ensures Nearest(-m, -n, den, p)
  {
    Negated(m, den);
    Negated(n, p);
  }

  // ----- Trimming ------------------------------------------------------------------------------

  function TrimRight(s: string, c: char): string {
    if s != [] && s[|s| - 1] == c then TrimRight(s[..|s| - 1], c) else s
  }

  lemma {:induction false} TrimTail(a: string, b: string, c: char)
    ensures TrimRight(a + b, c) == if TrimRight(b, c) == [] then TrimRight(a, c) else a + TrimRight(b, c)
  {
    if b == [] {
      assert a + b == a;
    } else if b[|b| - 1] == c {
      TrimTail(a, b[..|b| - 1], c);
      assert (a + b)[..|a + b| - 1] == a + b[..|b| - 1];
    }
  }

  lemma TrimZeros(w: string, frac: string)
    requires AllDigits(w) && AllDigits(frac)
    ensures var t := TrimRight(frac, '0');
            && |t| <= |frac| && AllDigits(t) && AllDigits(w + t) && AllDigits(w + frac)
            && ParseNat(w + frac) == ParseNat(w + t) * Pow(10, |frac| - |t|)
  {
    var t := TrimRight(frac, '0');
    TrimmedPart(frac);
    TrimmedDigits(frac, t, |frac| - |t|);
    DigitsConcat(w, t);
    ShiftedParse(w + t, |frac| - |t|);
    ConcatAssoc(w, t, Zeros(|frac| - |t|));
  }

  lemma ConcatAssoc(a: string, b: string, c: string)
    ensures a + (b + c) == (a + b) + c
  {
  }

  lemma TrimmedDigits(frac: string, t: string, n: nat)
    requires AllDigits(frac) && frac == t + Zeros(n)
    ensures AllDigits(t)
  {
    DigitsPart(frac, |t|);
    assert frac[..|t|] == t;
  }

  lemma ShiftedParse(s: string, n: nat)
    requires AllDigits(s)
    ensures AllDigits(s + Zeros(n)) && ParseNat(s + Zeros(n)) == ParseNat(s) * Pow(10, n)
  {
    ZerosParse(n);
    ParseConcat(s, Zeros(n));
  }

  lemma {:induction false} TrimmedPart(frac: string)
    ensures var t := TrimRight(frac, '0');
            |t| <= |frac| && frac == t + Zeros(|frac| - |t|) && (t != [] ==> t[|t| - 1] != '0')
  {
    if frac != [] && frac[|frac| - 1] == '0' {
      var init := frac[..|frac| - 1];
      TrimmedPart(init);
      OneMoreZero(frac, TrimRight(init, '0'), |init| - |TrimRight(init, '0')|);
    }
  }

  lemma OneMoreZero(frac: string, t: string, n: nat)
    requires frac != [] && frac[|frac| - 1] == '0' && frac[..|frac| - 1] == t + Zeros(n)
    ensures frac == t + Zeros(n + 1)
  {
    assert frac == frac[..|frac| - 1] + ['0'];
    ConcatAssoc(t, Zeros(n), ['0']);
  }

  /** Trimming zeros and then the point drops trailing decimals and nothing else. */
  lemma TrimFixed(neg: bool, w: string, frac: string)
    requires Whole(w) && AllDigits(frac) && frac != []
    ensures TrimRight(TrimRight(Fixed(neg, w, frac), '0'), '.') == Fixed(neg, w, TrimRight(frac, '0'))
  {
    DigitAt(w, |w| - 1);
    FixedText(neg, w, frac);
    FixedText(neg, w, TrimRight(frac, '0'));
    TrimHead(Head(neg, w), frac);
  }

  lemma TrimHead(head: string, frac: string)
    requires head != [] && head[|head| - 1] != '.' && AllDigits(frac)
    ensures var t := TrimRight(frac, '0');
            TrimRight(TrimRight((head + ".") + frac, '0'), '.') == if t == [] then head else (head + ".") + t
  {
    var t := TrimRight(frac, '0');
    TrimTail(head + ".", frac, '0');
    EndsOtherwise(head + ".", '0');
    if t == [] {
      TrimTail(head, ".", '.');
      assert TrimRight(".", '.') == [];
      EndsOtherwise(head, '.');
    } else {
      TrimmedEnd(frac);
      assert ((head + ".") + t)[|head| + |t|] == t[|t| - 1];
      EndsOtherwise((head + ".") + t, '.');
    }
  }

  lemma TrimmedEnd(frac: string)
    requires AllDigits(frac)
    ensures var t := TrimRight(frac, '0'); t != [] ==> t[|t| - 1] != '.'
  {
    TrimmedPart(frac);
    var t := TrimRight(frac, '0');
    if t != [] { DigitAt(frac, |t| - 1); }
  }

  lemma EndsOtherwise(s: string, c: char)
    ensures s == [] || s[|s| - 1] != c ==> TrimRight(s, c) == s
  {
  }

  // ----- The shortest exact text --------------------------------------------------------------------

  /** The fraction has a finite decimal expansion. */
  ghost predicate Terminates(den: nat) {
    exists a: nat, b: nat :: den == Pow(2, a) * Pow(5, b)
  }

  /** A decimal with k digits after the point equals r. */
  ghost predicate EqualAt(m: int, k: nat, r: Rat) {
    m * r.den == r.num * Pow(10, k)
  }

  /** The text shows exactly r, no text with fewer decimals does, and no decimal is a trailing zero. */
  ghost predicate ShortestExact(s: string, r: Rat) {
    && ReadDecimal(s).Some?
    && var d := ReadDecimal(s).value;
    && d.exp <= 0 && EqualAt(d.mant, -d.exp, r)
    && forall m: int, k: nat | EqualAt(m, k, r) :: k >= -d.exp
  }

  ghost predicate NoTrailingZero(s: string) {
    && ReadDecimal(s).Some? && s != []
    && (ReadDecimal(s).value.exp < 0 ==> s[|s| - 1] != '0')
  }

  /** The text shows r rounded to `prec` decimals, trailing zeros dropped. */
  ghost predicate NearestAt(s: string, r: Rat, prec: nat) {
    && ReadDecimal(s).Some?
    && var d := ReadDecimal(s).value;
    && d.exp <= 0 && CloseBy(d.mant, -d.exp, r, prec)
  }

  /** No multiple of 10^-prec is nearer to r than m/10^k is. */
  ghost predicate CloseBy(m: int, k: nat, r: Rat, prec: nat) {
    k <= prec && Nearest(m * Pow(10, prec - k), r.num, r.den, Pow(10, prec))
  }

  /** The nearest multiple of 10^-prec is exact when 10^prec clears the denominator. */
  lemma NearestIsExact(m: int, n: int, den: nat, p: int)
    requires den > 0 && Nearest(m, n, den, p) && Divides(den, p)
    ensures m * den == n * p
  {
    var k :| p == den * k;
    MultipleGap(m, n, den, k);
    var gap := m - n * k;
    MulOrder(den, gap, 0);
    MulOrder(den, gap, -1);
    MulOrder(den, 1, gap);
  }

  lemma MultipleGap(m: int, n: int, den: int, k: int)
    ensures m * den - n * (den * k) == den * (m - n * k)
  {
  }

  /** A shorter decimal than max(a, b) digits is not equal to a reduced fraction over 2^a * 5^b. */
  lemma NoShorterDecimal(r: Rat, a: nat, b: nat, m: int, k: nat)
    requires Reduced(r) && r.den == Pow(2, a) * Pow(5, b) && EqualAt(m, k, r)
    ensures k >= Max(a, b)
  {
    Commute(m, r.den);
    assert Divides(r.den, r.num * Pow(10, k));
    if k < Max(a, b) { TooFewDecimals(r.num, a, b, k); }
  }

  /** Exact texts at exactly max(a, b) decimals do not end in zero. */
  lemma LastDecimal(r: Rat, a: nat, b: nat, m: int, t: int, z: nat)
    requires Reduced(r) && r.den == Pow(2, a) * Pow(5, b)
    requires EqualAt(m, Max(a, b), r) && m == t * Pow(10, z) && z <= Max(a, b)
    ensures z == 0
  {
    var k := Max(a, b) - z;
    PowAdd(10, z, k);
    PowPositive(10, z);
    ShiftOut(t, Pow(10, z), Pow(10, k), r.num, r.den);
    NoShorterDecimal(r, a, b, t, k);
  }

  lemma ShiftOut(t: int, z: nat, k: int, num: int, den: int)
    requires z > 0 && (t * z) * den == num * (z * k)
    ensures t * den == num * k
  {
    assert (t * z) * den == z * (t * den);
    assert num * (z * k) == z * (num * k);
    Cancel(z, t * den, num * k);
  }

  /** formatRat. */
  method FormatRat(r: Rat) returns (s: string)
    requires Reduced(r)
    ensures NoTrailingZero(s)
    ensures Terminates(r.den) ==> ShortestExact(s, r)
    ensures !Terminates(r.den) ==> NearestAt(s, r, 16)
  {
    if r.den == 1 {
      s := Fixed(r.num < 0, NatText(Abs(r.num)), "");
      IntegerIsShortest(s, r);
      return;
    }
    var twos, odd := DivideOut(r.den, 2);
    var fives, rest := DivideOut(odd, 5);
    var decimals := Max(twos, fives);
    if rest != 1 { decimals := 16; }
    s := TrimRight(TrimRight(FloatString(r, decimals), '0'), '.');
    TextIsRight(r, twos, odd, fives, rest);
  }

  /** The factors c of n, counted, and what is left. */
  method DivideOut(n: nat, c: nat) returns (count: nat, rest: nat)
    requires n > 0 && c > 1
    ensures n == Pow(c, count) * rest && rest % c != 0
  {
    count, rest := 0, n;
    while rest % c == 0
      invariant rest > 0 && n == Pow(c, count) * rest
      decreases rest
    {
      Factor(Pow(c, count), c, rest);
      rest := rest / c;
      count := count + 1;
    }
  }

  lemma TextIsRight(r: Rat, twos: nat, odd: nat, fives: nat, rest: nat)
    requires Reduced(r) && r.den > 1 && odd % 2 != 0 && rest % 5 != 0
    requires r.den == Pow(2, twos) * odd && odd == Pow(5, fives) * rest
    ensures var s := TrimRight(TrimRight(FloatString(r, if rest != 1 then 16 else Max(twos, fives)), '0'), '.');
            && NoTrailingZero(s)
            && (Terminates(r.den) ==> ShortestExact(s, r))
            && (!Terminates(r.den) ==> NearestAt(s, r, 16))
  {
    Assoc(Pow(2, twos), Pow(5, fives), rest);
    OddFactor(Pow(5, fives), rest);
    if rest == 1 {
      TrimmedIsShortest(r, twos, fives);
    } else {
      RestDecides(r.den, twos, fives, rest);
      TrimmedIsNearest(r, 16);
    }
  }

  lemma OddFactor(p: int, rest: int)
    ensures (p * rest) % 2 != 0 ==> rest % 2 != 0
  {
    if rest % 2 == 0 {
      var h := rest / 2;
      assert rest == 2 * h;
      assert p * (2 * h) == 2 * (p * h);
    }
  }

  lemma Factor(p: int, c: int, rest: int)
    requires c > 1 && rest % c == 0
    ensures p * rest == (c * p) * (rest / c)
    ensures rest > 0 ==> 0 < rest / c < rest
  {
    var h := rest / c;
    assert rest == c * h;
    assert p * (c * h) == (c * p) * h;
    MulOrder(c, h, 0);
    MulOrder(h, 1, c);
    Commute(h, c);
  }

  lemma IntegerIsShortest(s: string, r: Rat)
    requires r.den == 1 && s == Fixed(r.num < 0, NatText(Abs(r.num)), "")
    ensures Terminates(r.den) && ShortestExact(s, r) && NoTrailingZero(s)
  {
    var w := NatText(Abs(r.num));
    NatTextIsWhole(Abs(r.num));
    NatTextParses(Abs(r.num));
    assert w + "" == w;
    FixedReads(r.num < 0, w, "");
    assert Pow(2, 0) * Pow(5, 0) == 1;
    assert Pow(10, 0) == 1;
  }

  /** What is left after dividing out 2 and 5 decides whether the expansion ends. */
  lemma RestDecides(den: nat, twos: nat, fives: nat, rest: nat)
    requires rest % 2 != 0 && rest % 5 != 0 && den == Pow(2, twos) * Pow(5, fives) * rest && rest != 1
    ensures !Terminates(den)
  {
    forall a: nat, b: nat ensures den != Pow(2, a) * Pow(5, b) {
      if den == Pow(2, a) * Pow(5, b) {
        var q := Pow(2, twos) * Pow(5, fives);
        Commute(q, rest);
        FreeDivisorIsOne(rest, q, a, b);
      }
    }
  }

  lemma TrimmedIsShortest(r: Rat, a: nat, b: nat)
    requires Reduced(r) && r.den > 1 && r.den == Pow(2, a) * Pow(5, b)
    ensures var s := TrimRight(TrimRight(FloatString(r, Max(a, b)), '0'), '.');
            ShortestExact(s, r) && NoTrailingZero(s)
  {
    var d := Max(a, b);
    assert d > 0 by { assert Pow(2, 0) * Pow(5, 0) == 1; }
    var w, frac := FloatStringIsNearest(r, d);
    EnoughDecimals(a, b);
    NearestIsExact(Signed(r.num < 0, ParseNat(w + frac)), r.num, r.den, Pow(10, d));
    TrimFixed(r.num < 0, w, frac);
    NothingToTrim(r, a, b, w, frac);
    ExactIsShortest(r, a, b, w, frac);
  }

  lemma NothingToTrim(r: Rat, a: nat, b: nat, w: string, frac: string)
    requires Reduced(r) && r.den == Pow(2, a) * Pow(5, b)
    requires AllDigits(w) && AllDigits(frac) && AllDigits(w + frac) && |frac| == Max(a, b)
    requires EqualAt(Signed(r.num < 0, ParseNat(w + frac)), |frac|, r)
    ensures TrimRight(frac, '0') == frac && (frac != [] ==> frac[|frac| - 1] != '0')
  {
    TrimZeros(w, frac);
    TrimmedPart(frac);
    var t := TrimRight(frac, '0');
    SignedProduct(r.num < 0, ParseNat(w + t), Pow(10, |frac| - |t|));
    LastDecimal(r, a, b, Signed(r.num < 0, ParseNat(w + frac)), Signed(r.num < 0, ParseNat(w + t)), |frac| - |t|);
    assert t == frac;
  }

  lemma ExactIsShortest(r: Rat, a: nat, b: nat, w: string, t: string)
    requires Reduced(r) && r.den == Pow(2, a) * Pow(5, b)
    requires Whole(w) && AllDigits(t) && AllDigits(w + t) && |t| == Max(a, b) && (t != [] ==> t[|t| - 1] != '0')
    requires EqualAt(Signed(r.num < 0, ParseNat(w + t)), |t|, r)
    ensures var s := Fixed(r.num < 0, w, t); ShortestExact(s, r) && NoTrailingZero(s)
  {
    FixedReads(r.num < 0, w, t);
    FixedEnds(r.num < 0, w, t);
    forall y: int, k: nat | EqualAt(y, k, r) ensures k >= |t| { NoShorterDecimal(r, a, b, y, k); }
  }

  lemma SignedProduct(neg: bool, n: nat, p: nat)
    ensures n * p >= 0 && Signed(neg, n * p) == Signed(neg, n) * p
  {
    MulOrder(n, 0, p);
    Negated(n, p);
  }

  lemma FixedEnds(neg: bool, w: string, t: string)
    ensures t != [] ==> var s := Fixed(neg, w, t); s != [] && s[|s| - 1] == t[|t| - 1]
    ensures w != [] ==> Fixed(neg, w, t) != []
  {
  }

  lemma TrimmedIsNearest(r: Rat, prec: nat)
    requires r.den > 0 && prec > 0
    ensures var s := TrimRight(TrimRight(FloatString(r, prec), '0'), '.');
            NearestAt(s, r, prec) && NoTrailingZero(s)
  {
    var neg := r.num < 0;
    var w, frac := FloatStringIsNearest(r, prec);
    TrimFixed(neg, w, frac);
    TrimZeros(w, frac);
    var t := TrimRight(frac, '0');
    SignedProduct(neg, ParseNat(w + t), Pow(10, prec - |t|));
    TrimmedPart(frac);
    FixedParts(neg, w, t);
    FixedEnds(neg, w, t);
    NearestText(r, Fixed(neg, w, t), w, t, prec);
  }

  lemma NearestText(r: Rat, s: string, w: string, t: string, prec: nat)
    requires Parts(s, r.num < 0, w, t, |s|) && Whole(w) && AllDigits(t) && AllDigits(w + t)
    requires s != [] && (t != [] ==> s[|s| - 1] != '0')
    requires CloseBy(Signed(r.num < 0, ParseNat(w + t)), |t|, r, prec)
    ensures NearestAt(s, r, prec) && NoTrailingZero(s)
  {
    PartsReadAs(s, r.num < 0, w, t);
    NearestRead(r, s, Signed(r.num < 0, ParseNat(w + t)), |t|, prec);
  }

  lemma NearestRead(r: Rat, s: string, m: int, k: nat, prec: nat)
    requires ReadDecimal(s) == Some(Dec(m, 0 - k)) && s != [] && (k > 0 ==> s[|s| - 1] != '0') && CloseBy(m, k, r, prec)
    ensures NearestAt(s, r, prec) && NoTrailingZero(s)
  {
  }

  // ----- Scaling ------------------------------------------------------------------------------------------

  function Top(d: Dec): int {
    if d.exp >= 0 then d.mant * Pow(10, d.exp) else d.mant
  }

  function Bottom(d: Dec): (p: nat)
    ensures p > 0
  {
    PowPositive(10, if d.exp < 0 then -d.exp else 0);
    Pow(10, if d.exp < 0 then -d.exp else 0)
  }

  /** big.Rat's SetString on number texts: powers of ten beyond a million are refused unless the value is zero. */
  function SetString(s: string): (r: Option<Rat>) {
    match ReadDecimal(s)
    case None => None
    case Some(d) =>
      if d.mant != 0 && Abs(d.exp) > 1_000_000 then None else Some(Normalize(Top(d), Bottom(d)))
  }

  /** Which number texts SetString accepts. */
  lemma AcceptedTexts(neg: bool, w: string, frac: string, x: Exponent)
    requires Whole(w) && AllDigits(frac) && Proper(x)
    ensures AllDigits(w + frac)
    ensures SetString(Fixed(neg, w, frac) + ExponentText(x)).Some? <==>
            && Abs(ExponentValue(x)) <= MAX_INT64
            && (ParseNat(w + frac) == 0 || Abs(ExponentValue(x) - |frac|) <= 1_000_000)
  {
    NumberReads(neg, w, frac, x);
  }

  /** A decimal is worth mant * 10^exp: ten times the mantissa is one more in the exponent. */
  lemma ShiftKeepsValue(m: int, e: int)
    ensures Top(Dec(m, 0)) == m && Bottom(Dec(m, 0)) == 1
    ensures Top(Dec(10 * m, e)) * Bottom(Dec(m, e + 1)) == Top(Dec(m, e + 1)) * Bottom(Dec(10 * m, e))
  {
    if e >= 0 {
      ShiftOnce(m, Pow(10, e));
    } else {
      ShiftOnce(m, Pow(10, -e - 1));
    }
  }

  lemma ShiftOnce(m: int, p: int)
    ensures (10 * m) * p == m * (10 * p)
  {
  }

  /** The texts SetString accepts are fractions over a power of ten. */
  lemma SetStringValue(s: string)
    requires SetString(s).Some?
    ensures var r, d := SetString(s).value, ReadDecimal(s).value;
            && Reduced(r) && r.num * Bottom(d) == Top(d) * r.den
            && exists k: nat :: Divides(r.den, Pow(10, k))
  {
    var d := ReadDecimal(s).value;
    Normalized(Top(d), Bottom(d));
    var k: nat := if d.exp < 0 then -d.exp else 0;
    assert Bottom(d) == Pow(10, k);
  }

  /** The value of the text is the product of two decimals, exactly and as short as can be. */
  ghost predicate ExactProduct(s: string, x: Dec, y: Dec) {
    && ReadDecimal(s).Some?
    && var d := ReadDecimal(s).value;
    && d.exp <= 0 && IsProduct(d.mant, -d.exp, x, y)
    && forall m: int, k: nat | IsProduct(m, k, x, y) :: k >= -d.exp
  }

  /** m / 10^k equals x * y. */
  ghost predicate IsProduct(m: int, k: nat, x: Dec, y: Dec) {
    m * (Bottom(x) * Bottom(y)) == (Top(x) * Top(y)) * Pow(10, k)
  }

  /** A reduced fraction whose denominator divides a power of ten has a denominator 2^a * 5^b. */
  lemma {:induction false} DivisorTerminates(den: nat, q: int, a: nat, b: nat)
    requires den > 0 && den * q == Pow(2, a) * Pow(5, b)
    ensures Terminates(den)
    decreases den
  {
    if den == 1 {
      assert Pow(2, 0) * Pow(5, 0) == 1;
    } else if den % 2 == 0 {
      var h := den / 2;
      assert den == 2 * h;
      Swap(2, h, q);
      DivisorTerminates(h, 2 * q, a, b);
      var x: nat, y: nat :| h == Pow(2, x) * Pow(5, y);
      Assoc(2, Pow(2, x), Pow(5, y));
      assert den == Pow(2, x + 1) * Pow(5, y);
    } else if den % 5 == 0 {
      var h := den / 5;
      assert den == 5 * h;
      Swap(5, h, q);
      DivisorTerminates(h, 5 * q, a, b);
      var x: nat, y: nat :| h == Pow(2, x) * Pow(5, y);
      Swap2(5, Pow(2, x), Pow(5, y));
      assert den == Pow(2, x) * Pow(5, y + 1);
    } else {
      PowPositive(2, a);
      PowPositive(5, b);
      MulOrder(Pow(2, a), 0, Pow(5, b));
      MulOrder(den, q, 0);
      FreeDivisorIsOne(den, q, a, b);
    }
  }

  lemma Swap(c: int, h: int, q: int)
    ensures (c * h) * q == h * (c * q)
  {
  }

  lemma Swap2(c: int, x: int, y: int)
    ensures c * (x * y) == x * (c * y)
  {
  }

  /** The product of two decimals terminates: formatRat's 16-decimal branch is not reached. */
  lemma ProductTerminates(x: Rat, y: Rat, i: nat, j: nat)
    requires x.den > 0 && y.den > 0 && Divides(x.den, Pow(10, i)) && Divides(y.den, Pow(10, j))
    ensures Terminates(Mul(x, y).den)
  {
    MulOrder(x.den, 1, y.den);
    Normalized(x.num * y.num, x.den * y.den);
    var p :| Pow(10, i) == x.den * p;
    var q :| Pow(10, j) == y.den * q;
    var g :| x.den * y.den == Mul(x, y).den * g;
    PowAdd(10, i, j);
    TenPow(i + j);
    Interleave(x.den, p, y.den, q);
    Assoc(Mul(x, y).den, g, p * q);
    DivisorTerminates(Mul(x, y).den, g * (p * q), i + j, i + j);
  }

  /** Equality with the reduced product is equality with the product of the decimals. */
  lemma ProductValue(z: Rat, x: Rat, y: Rat, dx: Dec, dy: Dec, m: int, k: nat)
    requires x.den > 0 && y.den > 0 && z == Mul(x, y)
    requires x.num * Bottom(dx) == Top(dx) * x.den && y.num * Bottom(dy) == Top(dy) * y.den
    ensures EqualAt(m, k, z) <==> IsProduct(m, k, dx, dy)
  {
    MulOrder(x.den, 1, y.den);
    Normalized(x.num * y.num, x.den * y.den);
    MulOrder(Bottom(dx), 1, Bottom(dy));
    CrossMultiply(x.num, Bottom(dx), Top(dx), x.den, y.num, Bottom(dy), Top(dy), y.den);
    SameFraction(z.num, z.den, x.num * y.num, x.den * y.den, m, Pow(10, k));
    SameFraction(Top(dx) * Top(dy), Bottom(dx) * Bottom(dy), x.num * y.num, x.den * y.den, m, Pow(10, k));
  }

  lemma CrossMultiply(n: int, b: int, t: int, d: int, n': int, b': int, t': int, d': int)
    requires n * b == t * d && n' * b' == t' * d'
    ensures (t * t') * (d * d') == (n * n') * (b * b')
  {
    Interleave(t, t', d, d');
    Interleave(n, n', b, b');
  }

  /** Two equal fractions are equal to the same decimals. */
  lemma SameFraction(n: int, d: nat, n': int, d': nat, m: int, p: int)
    requires d > 0 && d' > 0 && n * d' == n' * d
    ensures m * d == n * p <==> m * d' == n' * p
  {
    OneWay(n, d, n', d', m, p);
    OneWay(n', d', n, d, m, p);
  }

  lemma OneWay(n: int, d: nat, n': int, d': nat, m: int, p: int)
    requires d > 0 && d' > 0 && n * d' == n' * d
    ensures m * d == n * p ==> m * d' == n' * p
  {
    if m * d == n * p {
      assert d * (m * d') == (m * d) * d';
      assert (n * p) * d' == (n * d') * p;
      assert (n' * d) * p == d * (n' * p);
      Cancel(d, m * d', n' * p);
    }
  }

  /** scaleNumber under a factor read by scaleFactor. */
  method ScaleNumber(n: string, scale: string) returns (r: Result<string, string>)
    ensures r.Ok? <==> SetString(n).Some? && SetString(scale).Some?
    ensures r.Ok? ==> NoTrailingZero(r.value)
    ensures r.Ok? ==> ExactProduct(r.value, ReadDecimal(n).value, ReadDecimal(scale).value)
  {
    var factor := SetString(scale);
    if factor.None? { return Err("scale is not a number"); }
    var value := SetString(n);
    if value.None? { return Err("not a number"); }
    SetStringValue(n);
    SetStringValue(scale);
    ghost var i: nat :| Divides(value.value.den, Pow(10, i));
    ghost var j: nat :| Divides(factor.value.den, Pow(10, j));
    ProductTerminates(value.value, factor.value, i, j);
    var product := Mul(value.value, factor.value);
    MulOrder(value.value.den, 1, factor.value.den);
    Normalized(value.value.num * factor.value.num, value.value.den * factor.value.den);
    var s := FormatRat(product);
    forall m: int, k: nat
      ensures EqualAt(m, k, product) <==> IsProduct(m, k, ReadDecimal(n).value, ReadDecimal(scale).value)
    {
      ProductValue(product, value.value, factor.value, ReadDecimal(n).value, ReadDecimal(scale).value, m, k);
    }
    return Ok(s);
  }

  /** A number, a missing reading, or an array of these. */
  predicate Scalable(v: Json) {
    match v
    case Null => true
    case Num(text) => SetString(text).Some?
    case Arr(items) => forall i | 0 <= i < |items| :: Scalable(items[i])
    case _ => false
  }

  /** Every number multiplied exactly, everything else in its place. */
  ghost predicate ScaledBy(v: Json, scale: Dec, out: Json) {
    match v
    case Null => out.Null?
    case Num(text) =>
      out.Num? && NoTrailingZero(out.text) && ReadDecimal(text).Some?
    && ExactProduct(out.text, ReadDecimal(text).value, scale)
    case Arr(items) =>
      out.Arr? && |out.items| == |items| && forall i | 0 <= i < |items| :: ScaledBy(items[i], scale, out.items[i])
    case _ => false
  }

  /** scaleValue. */
  method ScaleValue(v: Json, scale: string) returns (r: Option<Json>)
    ensures r.Some? <==> Scalable(v) && SetString(scale).Some?
    ensures r.Some? ==> ScaledBy(v, ReadDecimal(scale).value, r.value)
    decreases v
  {
    if SetString(scale).None? { return None; }
    match v
    case Null => return Some(v);
    case Num(text) =>
      var n := ScaleNumber(text, scale);
      return if n.Ok? then Some(Num(n.value)) else None;
    case Arr(items) =>
      var out: seq<Json> := [];
      for i := 0 to |items|
        invariant |out| == i
        invariant forall k | 0 <= k < i :: Scalable(items[k]) && ScaledBy(items[k], ReadDecimal(scale).value, out[k])
      {
        var x := ScaleValue(items[i], scale);
        if x.None? { return None; }
        out := out + [x.value];
      }
      return Some(Arr(out));
    case _ => return None;
  }
}
