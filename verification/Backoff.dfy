/** Exponential backoff in 64-bit arithmetic: the shift may wrap, the clamp hides most of it. */
module Backoff {
  import opened Arithmetic

  const WORD := 0x1_0000_0000_0000_0000
  const HALF := 0x8000_0000_0000_0000

  /** The signed 64-bit value of the low 64 bits. */
  function Wrap(x: nat): int {
    if x % WORD < HALF then x % WORD else x % WORD - WORD
  }

  /** x * 2^k: x doubled k times. */
  function Doubled(x: nat, k: nat): nat {
    if k == 0 then x else 2 * Doubled(x, k - 1)
  }

  /** base << k on 64-bit integers. */
  function Shift(base: nat, k: nat): int {
    if k >= 64 then 0 else Wrap(Doubled(base, k))
  }

  /** The delay before attempt n + 1, without jitter. */
  function Delay(base: nat, max: nat, n: nat): int
    requires n >= 1
  {
    var b := Shift(base, n - 1);
    if b > max || b <= 0 then max else b
  }

  /** What the delay should be. */
  function Ideal(base: nat, max: nat, n: nat): nat
    requires n >= 1
  {
    var b := Doubled(base, n - 1);
    if b > max then max else b
  }

  /** The delay is positive and capped, whatever wraps. */
  lemma DelayInRange(base: nat, max: nat, n: nat)
    requires n >= 1 && max > 0
    ensures 0 < Delay(base, max, n) <= max
  {
  }

  /** The bits of base that a shift by k keeps, where it puts them. */
  function Low(base: nat, k: nat): nat
    requires k <= 64
  {
    PowPositive(2, 64 - k);
    Doubled(base % Pow(2, 64 - k), k)
  }

  // ----- Doubling -----------------------------------------------------------------------------------

  lemma {:induction false} DoubledIs(x: nat, k: nat)
    ensures Doubled(x, k) == x * Pow(2, k)
  {
    if k > 0 {
      DoubledIs(x, k - 1);
      Pulled(x, 2, Pow(2, k - 1));
    }
  }

  lemma {:induction false} DoubledAdd(x: nat, t: nat, k: nat)
    ensures Doubled(Doubled(x, t), k) == Doubled(x, t + k)
  {
    if k > 0 { DoubledAdd(x, t, k - 1); }
  }

  lemma {:induction false} DoubledAtLeast(x: nat, k: nat)
    ensures if x == 0 then Doubled(x, k) == 0 else Doubled(x, k) >= x && Doubled(x, k) >= Pow(2, k)
  {
    if k > 0 { DoubledAtLeast(x, k - 1); }
  }

  lemma {:induction false} DoubledBelow(x: nat, b: nat, k: nat)
    requires x < Pow(2, b)
    ensures Doubled(x, k) < Pow(2, b + k)
  {
    if k > 0 { DoubledBelow(x, b, k - 1); }
  }

  lemma {:induction false} PowGrows(a: nat, b: nat)
    requires a <= b
    ensures Pow(2, a) <= Pow(2, b)
  {
    if a < b { PowGrows(a, b - 1); }
  }

  lemma WordIsPow()
    ensures Pow(2, 64) == WORD
  {
    PowAdd(2, 32, 32);
    PowAdd(2, 16, 16);
    PowAdd(2, 8, 8);
  }

  lemma RemainderIs(x: nat, q: int, r: nat, m: nat)
    requires m > 0 && x == m * q + r && r < m
    ensures x % m == r
  {
    var q', r' := x / m, x % m;
    assert x == m * q' + r';
    Apart(m, q, q', r, r');
  }

  lemma Apart(m: int, q: int, q': int, r: int, r': int)
    requires m > 0 && m * q + r == m * q' + r' && 0 <= r < m && 0 <= r' < m
    ensures r == r'
  {
    var d := q - q';
    assert m * d == r' - r;
    MulOrder(m, d, 0);
    MulOrder(m, 1, d);
    MulOrder(m, d, -1);
  }

  /** Shifting keeps the low bits: (base * 2^k) mod 2^64. */
  lemma LowBits(base: nat, k: nat)
    requires k <= 64
    ensures Doubled(base, k) % WORD == Low(base, k)
  {
    PowPositive(2, 64 - k);
    PowPositive(2, k);
    PowAdd(2, 64 - k, k);
    WordIsPow();
    DoubledIs(base, k);
    DoubledIs(base % Pow(2, 64 - k), k);
    LowIs(base, Pow(2, 64 - k), Pow(2, k), WORD);
  }

  lemma LowIs(base: nat, m: nat, p: nat, w: nat)
    requires m > 0 && p > 0 && m * p == w
    ensures (base * p) % w == (base % m) * p
  {
    DivMod(base, m);
    Ordered(p, 0, m);
    KeepsLow(base, m, base / m, base % m, p, w);
  }

  lemma DivMod(x: nat, m: nat)
    requires m > 0
    ensures x == m * (x / m) + x % m && 0 <= x % m < m
  {
  }

  lemma KeepsLow(base: nat, m: nat, q: nat, r: nat, p: nat, w: nat)
    requires base == m * q + r && r < m && p > 0 && m * p == w && w > 0
    ensures (base * p) % w == r * p
  {
    Spread(base, m, q, r, p);
    Ordered(p, r, m);
    RemainderIs(base * p, q, r * p, w);
  }

  lemma Ordered(p: int, r: int, m: int)
    requires p > 0 && 0 <= r < m
    ensures 0 <= r * p < m * p
  {
    MulOrder(p, r, m);
    MulOrder(p, 0, r);
  }

  lemma Spread(base: int, m: int, q: int, r: int, p: int)
    requires base == m * q + r
    ensures base * p == (m * p) * q + r * p
  {
    assert (m * q + r) * p == m * q * p + r * p;
    assert m * q * p == (m * p) * q;
  }

  /** The shift by k does not turn a delay that should be capped into a small one. */
  predicate Fits(base: nat, max: nat, k: nat)
    requires k < 64
  {
    Doubled(base, k) <= max || Low(base, k) == 0 || Low(base, k) >= max
  }

  lemma OneShift(base: nat, max: nat, k: nat)
    requires 0 < base && 0 < max < HALF && k < 64
    ensures Delay(base, max, k + 1) == Ideal(base, max, k + 1) <==> Fits(base, max, k)
  {
    DoubledAtLeast(base, k);
    LowBits(base, k);
    if Doubled(base, k) <= max { SmallMod(Doubled(base, k)); }
  }

  lemma SmallMod(b: nat)
    requires b < WORD
    ensures b % WORD == b
  {
  }

  /** The delay is the ideal one for every attempt exactly when every one of the 64 shifts fits. */
  lemma BackoffIsIdealIff(base: nat, max: nat)
    requires 0 < base && 0 < max < HALF
    ensures (forall n: nat | n >= 1 :: Delay(base, max, n) == Ideal(base, max, n)) <==>
            (forall k: nat | k < 64 :: Fits(base, max, k))
  {
    forall k: nat | k < 64
      ensures Delay(base, max, k + 1) == Ideal(base, max, k + 1) <==> Fits(base, max, k)
    {
      OneShift(base, max, k);
    }
    forall n: nat | n > 64 ensures Delay(base, max, n) == Ideal(base, max, n) { PushedOut(base, max, n); }
    if forall k: nat | k < 64 :: Fits(base, max, k) {
      forall n: nat | n >= 1 ensures Delay(base, max, n) == Ideal(base, max, n) {
        if n <= 64 { assert Fits(base, max, n - 1); }
      }
    }
    if forall n: nat | n >= 1 :: Delay(base, max, n) == Ideal(base, max, n) {
      forall k: nat | k < 64 ensures Fits(base, max, k) { assert Delay(base, max, k + 1) == Ideal(base, max, k + 1); }
    }
  }

  /** From shift 64 on nothing is left and the ideal delay is capped. */
  lemma PushedOut(base: nat, max: nat, n: nat)
    requires 0 < base && 0 < max < HALF && n > 64
    ensures Delay(base, max, n) == Ideal(base, max, n)
  {
    WordIsPow();
    PowGrows(64, n - 1);
    DoubledAtLeast(base, n - 1);
  }

  // ----- A simple sufficient condition --------------------------------------------------------------

  /** The number of binary digits. */
  function Bits(x: nat): nat {
    if x == 0 then 0 else 1 + Bits(x / 2)
  }

  lemma {:induction false} BitsBound(x: nat)
    ensures x < Pow(2, Bits(x))
  {
    if x > 0 { BitsBound(x / 2); }
  }

  /** When the odd part of base and max have at most 64 bits together, no wrapped shift is small. */
  lemma FewBitsFit(base: nat, odd: nat, t: nat, max: nat, k: nat)
    requires odd > 0 && base == Doubled(odd, t) && Bits(odd) + Bits(max) <= 64 && k < 64
    ensures Fits(base, max, k)
  {
    DoubledAdd(odd, t, k);
    FewBitsLeave(odd, t + k, max);
    LowBits(base, k);
  }

  /** Shifting by j leaves the value itself when it is small, nothing, or at least the cap. */
  lemma FewBitsLeave(odd: nat, j: nat, max: nat)
    requires odd > 0 && Bits(odd) + Bits(max) <= 64
    ensures var b := Doubled(odd, j); b <= max || b % WORD == 0 || b % WORD >= max
  {
    WordIsPow();
    if j <= 64 - Bits(odd) {
      BitsBound(odd);
      DoubledBelow(odd, Bits(odd), j);
      PowGrows(Bits(odd) + j, 64);
      SmallMod(Doubled(odd, j));
    } else {
      BitsBound(max);
      PowGrows(Bits(max), j);
      if j < 64 { MultipleIsBig(odd, j); } else { AllPushedOut(odd, j); }
    }
  }

  /** What a shift by j leaves is nothing or at least 2^j. */
  lemma MultipleIsBig(odd: nat, j: nat)
    requires j < 64
    ensures var low := Doubled(odd, j) % WORD; low == 0 || low >= Pow(2, j)
  {
    LowBits(odd, j);
    PowPositive(2, 64 - j);
    DoubledAtLeast(odd % Pow(2, 64 - j), j);
  }

  lemma Pulled(x: int, w: int, p: int)
    ensures x * (w * p) == w * (x * p)
  {
  }

  lemma AllPushedOut(odd: nat, j: nat)
    requires j >= 64
    ensures Doubled(odd, j) % WORD == 0
  {
    var x := Doubled(odd, j - 64);
    DoubledAdd(odd, j - 64, 64);
    DoubledIs(x, 64);
    WordIsPow();
    RemainderIs(x * WORD, x, 0, WORD);
  }

  /** Attempt by attempt, then, the delay is base * 2^(n-1) up to the cap. */
  lemma FewBitsAreIdeal(base: nat, odd: nat, t: nat, max: nat, n: nat)
    requires odd % 2 == 1 && base == Doubled(odd, t) && 0 < base <= max < HALF && Bits(odd) + Bits(max) <= 64 && n >= 1
    ensures Delay(base, max, n) == Ideal(base, max, n)
  {
    if n <= 64 {
      FewBitsFit(base, odd, t, max, n - 1);
      OneShift(base, max, n - 1);
    } else {
      PushedOut(base, max, n);
    }
  }

  /** Without the bound a wrapped shift can be a small positive delay: 2^40 + 1 shifted by 24 wraps to 2^24. */
  lemma WrappedShiftIsSmall()
    ensures var base, max := 0x100_0000_0001, 0x200_0000_0000;
            Delay(base, max, 25) == 0x100_0000 && Ideal(base, max, 25) == max && !Fits(base, max, 24)
  {
    DoubledIs(0x100_0000_0001, 24);
    PowAdd(2, 12, 12);
    PowAdd(2, 6, 6);
    assert Pow(2, 24) == 0x100_0000;
    OneShift(0x100_0000_0001, 0x200_0000_0000, 24);
  }
}
