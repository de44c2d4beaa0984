/** The number theory behind exact decimal scaling: powers, common divisors and which
    fractions terminate. */
module Arithmetic {

  function Pow(b: nat, e: nat): nat {
    if e == 0 then 1 else b * Pow(b, e - 1)
  }

  lemma {:induction false} PowPositive(b: nat, e: nat)
    requires b > 0
    ensures Pow(b, e) > 0
  {
    if e > 0 { PowPositive(b, e - 1); assert b * Pow(b, e - 1) >= 1 * 1; }
  }

  lemma {:induction false} PowAdd(b: nat, x: nat, y: nat)
    ensures Pow(b, x + y) == Pow(b, x) * Pow(b, y)
  {
    if x > 0 {
      PowAdd(b, x - 1, y);
      var p, q := Pow(b, x - 1), Pow(b, y);
      assert b * (p * q) == (b * p) * q;
    }
  }

  lemma {:induction false} TenPow(k: nat)
    ensures Pow(10, k) == Pow(2, k) * Pow(5, k)
  {
    if k > 0 {
      TenPow(k - 1);
      var p, q := Pow(2, k - 1), Pow(5, k - 1);
      assert 10 * (p * q) == (2 * p) * (5 * q);
    }
  }

  // ----- Divisibility ---------------------------------------------------------------

  ghost predicate Divides(d: int, n: int) {
    exists k :: n == d * k
  }

  /** In lowest terms: no common divisor but 1. */
  ghost predicate Coprime(n: int, m: int) {
    forall d: nat | d > 1 :: !(Divides(d, n) && Divides(d, m))
  }

  function Gcd(a: nat, b: nat): (g: nat)
    requires a > 0 || b > 0
    ensures g > 0
    decreases b
  {
    if b == 0 then a else Gcd(b, a % b)
  }

  lemma {:induction false} GcdDivides(a: nat, b: nat)
    requires a > 0 || b > 0
    ensures Divides(Gcd(a, b), a) && Divides(Gcd(a, b), b)
    decreases b
  {
    if b == 0 {
      assert a == a * 1 && b == a * 0;
    } else {
      GcdDivides(b, a % b);
      var g := Gcd(b, a % b);
      var x :| b == g * x;
      var y :| a % b == g * y;
      var q := a / b;
      assert a == b * q + a % b;
      assert a == g * (x * q + y) by { assert b * q == g * (x * q); assert g * (x * q + y) == g * (x * q) + g * y; }
    }
  }

  lemma {:induction false} GcdIsGreatest(a: nat, b: nat, d: nat)
    requires (a > 0 || b > 0) && Divides(d, a) && Divides(d, b)
    ensures Divides(d, Gcd(a, b))
    decreases b
  {
    if b > 0 {
      var x :| a == d * x;
      var y :| b == d * y;
      var q := a / b;
      assert a % b == a - b * q;
      assert a % b == d * (x - y * q) by { assert b * q == d * (y * q); assert d * (x - y * q) == d * x - d * (y * q); }
      GcdIsGreatest(b, a % b, d);
    }
  }

  function Abs(n: int): nat {
    if n < 0 then -n else n
  }

  lemma DividesAbs(d: int, n: int)
    ensures Divides(d, n) <==> Divides(d, Abs(n))
  {
    if Divides(d, n) { var k :| n == d * k; assert -n == d * (-k); }
    if Divides(d, Abs(n)) { var k :| Abs(n) == d * k; assert n == d * k || n == d * (-k); }
  }

  lemma MulOrder(f: int, x: int, y: int)
    ensures f > 0 && x < y ==> f * x < f * y
    ensures f >= 0 && x <= y ==> f * x <= f * y
  {
    if f >= 0 && x <= y { assert f * (y - x) == f * y - f * x; assert f * (y - x) >= 0; }
  }

  /** Dividing out the greatest common divisor leaves coprime numbers. */
  lemma CofactorsCoprime(g: nat, x: nat, y: nat)
    requires g > 0 && y > 0 && g * y > 0 && Gcd(g * x, g * y) == g
    ensures Coprime(x, y)
  {
    forall d: nat | d > 1 ensures !(Divides(d, x) && Divides(d, y)) {
      if Divides(d, x) && Divides(d, y) { CommonFactorIsOne(g, x, y, d); }
    }
  }

  lemma CommonFactorIsOne(g: nat, x: nat, y: nat, d: nat)
    requires g > 0 && g * y > 0 && Gcd(g * x, g * y) == g && Divides(d, x) && Divides(d, y)
    ensures d == 1
  {
    var p :| x == d * p;
    var q :| y == d * q;
    Assoc(g, d, p);
    Assoc(g, d, q);
    assert Divides(g * d, g * x) && Divides(g * d, g * y);
    GcdIsGreatest(g * x, g * y, g * d);
    var k :| g == (g * d) * k;
    Assoc(g, d, k);
    Cancel(g, d * k, 1);
    UnitFactor(d, k);
  }

  lemma Assoc(x: int, y: int, z: int)
    ensures x * (y * z) == (x * y) * z
  {
  }

  lemma UnitFactor(d: nat, k: int)
    requires d * k == 1
    ensures d == 1
  {
    MulOrder(d, 1, k);
    MulOrder(d, k, 0);
  }

  lemma Cancel(f: nat, x: int, y: int)
    requires f > 0 && f * x == f * y
    ensures x == y
  {
    MulOrder(f, x, y);
    MulOrder(f, y, x);
  }

  // ----- Factors 2 and 5 ----------------------------------------------------------------

  lemma OddTimesOdd(x: int, y: int)
    requires x % 2 != 0 && y % 2 != 0
    ensures (x * y) % 2 != 0
  {
    var p, q := x / 2, y / 2;
    assert x == 2 * p + 1 && y == 2 * q + 1;
    assert x * y == 2 * (2 * p * q + p + q) + 1;
  }

  lemma NonFives(x: int, y: int)
    requires x % 5 != 0 && y % 5 != 0
    ensures (x * y) % 5 != 0
  {
    var p, q, r, s := x / 5, y / 5, x % 5, y % 5;
    assert x == 5 * p + r && y == 5 * q + s;
    assert x * y == 5 * (5 * p * q + p * s + q * r) + r * s;
    assert r * s in {1, 2, 3, 4, 6, 8, 9, 12, 16};
  }

  lemma {:induction false} FivesAreOdd(k: nat)
    ensures Pow(5, k) % 2 != 0
  {
    if k > 0 { FivesAreOdd(k - 1); OddTimesOdd(5, Pow(5, k - 1)); }
  }

  lemma {:induction false} TwosAreNotFives(k: nat)
    ensures Pow(2, k) % 5 != 0
  {
    if k > 0 { TwosAreNotFives(k - 1); NonFives(2, Pow(2, k - 1)); }
  }

  /** An odd factor of an even product passes the 2 on. */
  lemma HalveProduct(rest: int, q: int, x: int)
    requires rest % 2 != 0 && rest * q == 2 * x
    ensures q % 2 == 0 && rest * (q / 2) == x
  {
    if q % 2 != 0 { OddTimesOdd(rest, q); }
    var h := q / 2;
    assert q == 2 * h;
    assert rest * (2 * h) == 2 * (rest * h);
  }

  lemma FifthProduct(rest: int, q: int, x: int)
    requires rest % 5 != 0 && rest * q == 5 * x
    ensures q % 5 == 0 && rest * (q / 5) == x
  {
    if q % 5 != 0 { NonFives(rest, q); }
    var h := q / 5;
    assert q == 5 * h;
    assert rest * (5 * h) == 5 * (rest * h);
  }

  /** A number free of 2 and 5 that divides a power of ten is 1. */
  lemma {:induction false} FreeDivisorIsOne(rest: nat, q: nat, twos: nat, fives: nat)
    requires rest % 2 != 0 && rest % 5 != 0 && rest * q == Pow(2, twos) * Pow(5, fives)
    ensures rest == 1
    decreases twos + fives
  {
    if twos > 0 {
      Assoc(2, Pow(2, twos - 1), Pow(5, fives));
      HalveProduct(rest, q, Pow(2, twos - 1) * Pow(5, fives));
      FreeDivisorIsOne(rest, q / 2, twos - 1, fives);
    } else if fives > 0 {
      FifthProduct(rest, q, Pow(5, fives - 1));
      FreeDivisorIsOne(rest, q / 5, twos, fives - 1);
    } else {
      UnitFactor(rest, q);
    }
  }

  // ----- How many decimals a fraction needs ------------------------------------------------

  function Max(a: nat, b: nat): nat {
    if a >= b then a else b
  }

  /** 2^a * 5^b divides 10^max(a, b). */
  lemma EnoughDecimals(a: nat, b: nat)
    ensures Divides(Pow(2, a) * Pow(5, b), Pow(10, Max(a, b)))
  {
    var d := Max(a, b);
    TenPow(d);
    PowAdd(2, a, d - a);
    PowAdd(5, b, d - b);
    Interleave(Pow(2, a), Pow(2, d - a), Pow(5, b), Pow(5, d - b));
    assert Pow(10, d) == (Pow(2, a) * Pow(5, b)) * (Pow(2, d - a) * Pow(5, d - b));
  }

  lemma Interleave(p: int, q: int, r: int, s: int)
    ensures (p * q) * (r * s) == (p * r) * (q * s)
  {
  }

  /** A numerator coprime to 2^a * 5^b needs all max(a, b) decimals: no smaller power of ten clears the denominator. */
  lemma TooFewDecimals(num: int, a: nat, b: nat, d: nat)
    requires Coprime(num, Pow(2, a) * Pow(5, b)) && d < Max(a, b)
    ensures !Divides(Pow(2, a) * Pow(5, b), num * Pow(10, d))
  {
    if Divides(Pow(2, a) * Pow(5, b), num * Pow(10, d)) {
      var t :| num * Pow(10, d) == (Pow(2, a) * Pow(5, b)) * t;
      TenPow(d);
      if d < a { TooFewTwos(num, a, b, d, t); } else { TooFewFives(num, a, b, d, t); }
    }
  }

  lemma TooFewTwos(num: int, a: nat, b: nat, d: nat, t: int)
    requires d < a && num * (Pow(2, d) * Pow(5, d)) == (Pow(2, a) * Pow(5, b)) * t
    ensures !Coprime(num, Pow(2, a) * Pow(5, b))
  {
    PowAdd(2, d, a - d);
    PowPositive(2, d);
    FivesAreOdd(d);
    NumeratorEven(num, Pow(2, d), Pow(5, d), Pow(2, a), Pow(2, a - d - 1), Pow(5, b), t);
    SharedFactor(2, num, Pow(2, a - 1), Pow(5, b));
  }

  lemma TooFewFives(num: int, a: nat, b: nat, d: nat, t: int)
    requires d < b && num * (Pow(2, d) * Pow(5, d)) == (Pow(2, a) * Pow(5, b)) * t
    ensures !Coprime(num, Pow(2, a) * Pow(5, b))
  {
    PowAdd(5, d, b - d);
    PowPositive(5, d);
    TwosAreNotFives(d);
    Commute(Pow(2, d), Pow(5, d));
    Commute(Pow(2, a), Pow(5, b));
    NumeratorFive(num, Pow(5, d), Pow(2, d), Pow(5, b), Pow(5, b - d - 1), Pow(2, a), t);
    SharedFactor(5, num, Pow(5, b - 1), Pow(2, a));
  }

  lemma Commute(x: int, y: int)
    ensures x * y == y * x
  {
  }

  lemma NumeratorEven(num: int, p: nat, f: int, whole: int, r: int, o: int, t: int)
    requires p > 0 && f % 2 != 0 && whole == p * (2 * r) && num * (p * f) == (whole * o) * t
    ensures num % 2 == 0
  {
    Regroup(num, p, f, 2, r, o, t);
    if num % 2 != 0 { OddTimesOdd(num, f); }
  }

  lemma NumeratorFive(num: int, p: nat, f: int, whole: int, r: int, o: int, t: int)
    requires p > 0 && f % 5 != 0 && whole == p * (5 * r) && num * (p * f) == (whole * o) * t
    ensures num % 5 == 0
  {
    Regroup(num, p, f, 5, r, o, t);
    if num % 5 != 0 { NonFives(num, f); }
  }

  lemma SharedFactor(c: nat, num: int, x: int, y: int)
    requires c > 1 && num % c == 0
    ensures !Coprime(num, (c * x) * y)
  {
    assert num == c * (num / c);
    Assoc(c, x, y);
    assert Divides(c, num) && Divides(c, (c * x) * y);
  }

  /** Cancelling p from both sides leaves a multiple of c. */
  lemma Regroup(num: int, p: nat, f: int, c: int, r: int, o: int, t: int)
    requires p > 0 && num * (p * f) == ((p * (c * r)) * o) * t
    ensures num * f == c * (r * o * t)
  {
    assert num * (p * f) == p * (num * f);
    RegroupRight(p, c, r, o, t);
    Cancel(p, num * f, c * (r * o * t));
  }

  lemma RegroupRight(p: int, c: int, r: int, o: int, t: int)
    ensures ((p * (c * r)) * o) * t == p * (c * (r * o * t))
  {
  }
}
