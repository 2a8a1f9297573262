/** Bitwise operators of the C and Metal sources on natural numbers, defined one
    binary digit at a time, and the facts about power-of-two operands that the
    kernels' index arithmetic rests on. */
module Bits {

  function Pow2(p: nat): (r: nat)
    ensures r >= 1
  {
    if p == 0 then 1 else 2 * Pow2(p - 1)
  }

  ghost predicate IsPow2(n: nat) {
    exists p: nat :: n == Pow2(p)
  }

  /** The operator `^`. */
  function Xor(a: nat, b: nat): nat
    decreases a + b
  {
    if a == 0 && b == 0 then 0
    else 2 * Xor(a / 2, b / 2) + (a + b) % 2
  }

  /** The operator `&`. */
  function And(a: nat, b: nat): nat
    decreases a + b
  {
    if a == 0 && b == 0 then 0
    else 2 * And(a / 2, b / 2) + (a % 2) * (b % 2)
  }

  /** Is bit `log2(j)` of `c` clear, for a power of two `j`? */
  predicate BitClear(c: nat, j: nat)
    requires j > 0
  {
    (c / j) % 2 == 0
  }

  lemma {:induction false} Pow2Monotone(p: nat, q: nat)
    requires p <= q
    ensures Pow2(p) <= Pow2(q)
    ensures p < q ==> Pow2(p) < Pow2(q)
    decreases q
  {
    if p < q { Pow2Monotone(p, q - 1); }
  }

  lemma {:induction false} Pow2Add(p: nat, q: nat)
    ensures Pow2(p + q) == Pow2(p) * Pow2(q)
  {
    if p > 0 {
      Pow2Add(p - 1, q);
      assert Pow2(p + q) == 2 * Pow2(p - 1 + q);
    }
  }

  /** Dividing by 2 and then by `j` is dividing by `2 * j`. */
  lemma HalfThenDivide(c: nat, j: nat)
    requires j > 0
    ensures (c / 2) / j == c / (2 * j)
  {
    var q := c / (2 * j);
    var r := c % (2 * j);
    assert c == 2 * j * q + r;
    assert c / 2 == j * q + r / 2;
    assert r / 2 < j;
    DivideExact(c / 2, j, q, r / 2);
  }

  lemma NoMultipleBelow(d: int, x: int)
    requires -d < d * x < d
    ensures x == 0
  {
    if x >= 1 {
      assert d * x == d + d * (x - 1);
      MulNonneg(d, x - 1);
    } else if x <= -1 {
      assert d * x == -d - d * (-x - 1);
      MulNonneg(d, -x - 1);
    }
  }

  lemma MulNonneg(a: int, b: int)
    requires a >= 0 && b >= 0
    ensures a * b >= 0
  {
  }

  lemma ScaleMonotone(a: nat, b: nat, k: nat)
    requires a <= b
    ensures a * k <= b * k
    ensures (a + 1) * k == a * k + k
  {
    assert b * k == a * k + (b - a) * k;
    MulNonneg(b - a, k);
  }

  lemma ScaleStrictly(a: nat, b: nat, k: nat)
    requires a < b && k > 0
    ensures a * k < b * k
  {
    assert b * k == a * k + k + (b - a - 1) * k;
    MulNonneg(b - a - 1, k);
  }

  lemma DivideExact(c: int, d: int, q: int, r: int)
    requires d > 0 && c == d * q + r && 0 <= r < d
    ensures c / d == q && c % d == r
  {
    var q', r' := c / d, c % d;
    assert d * (q - q') == d * q - d * q' == r' - r;
    NoMultipleBelow(d, q - q');
  }

  /** `c ^ j` for a power of two `j` flips exactly one bit, so it is one addition
      or one subtraction; this is the partner index of the bitonic kernels. */
  lemma {:induction false} XorPow2(c: nat, p: nat)
    ensures Xor(c, Pow2(p)) == if BitClear(c, Pow2(p)) then c + Pow2(p) else c - Pow2(p)
  {
    if p == 0 {
      XorOne(c);
    } else {
      hide BitClear, Xor;
      XorPow2(c / 2, p - 1);
      BitClearHalf(c, Pow2(p - 1));
      XorEven(c, Pow2(p - 1));
    }
  }

  lemma XorOne(c: nat)
    ensures Xor(c, 1) == if BitClear(c, 1) then c + 1 else c - 1
  {
    XorZero(c / 2);
  }

  lemma BitClearHalf(c: nat, m: nat)
    requires m > 0
    ensures BitClear(c, 2 * m) == BitClear(c / 2, m)
  {
    HalfThenDivide(c, m);
  }

  lemma XorEven(c: nat, m: nat)
    ensures Xor(c, 2 * m) == 2 * Xor(c / 2, m) + c % 2
  {
    assert (c + 2 * m) % 2 == c % 2;
  }

  lemma {:induction false} XorZero(c: nat)
    ensures Xor(c, 0) == c
  {
    if c > 0 { XorZero(c / 2); }
  }

  lemma {:induction false} AndZero(c: nat)
    ensures And(c, 0) == 0 && And(0, c) == 0
  {
    if c > 0 { AndZero(c / 2); }
  }

  /** `(c & k) == 0` for a power of two `k` reads exactly one bit. */
  lemma {:induction false} AndPow2(c: nat, p: nat)
    ensures (And(c, Pow2(p)) == 0) == BitClear(c, Pow2(p))
  {
    if p == 0 {
      AndZero(c / 2);
    } else {
      hide BitClear, And;
      AndPow2(c / 2, p - 1);
      BitClearHalf(c, Pow2(p - 1));
      AndEven(c, Pow2(p - 1));
    }
  }

  lemma AndEven(c: nat, m: nat)
    requires m > 0
    ensures And(c, 2 * m) == 2 * And(c / 2, m)
  {
    assert (2 * m) / 2 == m && (2 * m) % 2 == 0;
  }

  /** `c & (2^p - 1)` is the remainder modulo `2^p`. */
  lemma {:induction false} AndMask(c: nat, p: nat)
    ensures And(c, Pow2(p) - 1) == c % Pow2(p)
  {
    if p == 0 {
      AndZero(c);
    } else {
      hide And;
      AndMask(c / 2, p - 1);
      AndMaskStep(c, Pow2(p - 1), Pow2(p));
    }
  }

  lemma AndMaskStep(c: nat, m: nat, n: nat)
    requires m >= 1 && n == 2 * m
    requires And(c / 2, m - 1) == (c / 2) % m
    ensures And(c, n - 1) == c % n
  {
    hide And;
    AndOdd(c, m);
    RemainderHalves(c, m);
  }

  lemma AndOdd(c: nat, m: nat)
    requires m >= 1
    ensures And(c, 2 * m - 1) == 2 * And(c / 2, m - 1) + c % 2
  {
    assert (2 * m - 1) / 2 == m - 1 && (2 * m - 1) % 2 == 1;
  }

  lemma RemainderHalves(c: nat, m: nat)
    requires m >= 1
    ensures c % (2 * m) == 2 * ((c / 2) % m) + c % 2
  {
    var q, r := (c / 2) / m, (c / 2) % m;
    assert 2 * (c / 2) == 2 * (m * q) + 2 * r;
    assert c == (2 * m) * q + (2 * r + c % 2);
    DivideExact(c, 2 * m, q, 2 * r + c % 2);
  }

  lemma XorDigits(a: nat, b: nat)
    ensures Xor(a, b) / 2 == Xor(a / 2, b / 2)
    ensures Xor(a, b) % 2 == (a + b) % 2
  {
  }

  lemma ParityCancels(x: nat, a: nat, b: nat)
    requires x % 2 == (a + b) % 2
    ensures (x + b) % 2 == a % 2
  {
  }

  lemma SameDigits(x: nat, y: nat)
    requires x / 2 == y / 2 && x % 2 == y % 2
    ensures x == y
  {
  }

  /** XOR with a fixed operand undoes itself. */
  lemma {:induction false} XorInvolutive(a: nat, b: nat)
    ensures Xor(Xor(a, b), b) == a
    decreases a + b
  {
    if a != 0 || b != 0 {
      hide Xor;
      XorInvolutive(a / 2, b / 2);
      XorDigits(a, b);
      XorDigits(Xor(a, b), b);
      ParityCancels(Xor(a, b), a, b);
      SameDigits(Xor(Xor(a, b), b), a);
    }
  }

  lemma {:induction false} XorBound(a: nat, b: nat, p: nat)
    requires a < Pow2(p) && b < Pow2(p)
    ensures Xor(a, b) < Pow2(p)
    decreases p
  {
    if p > 0 && (a != 0 || b != 0) {
      XorBound(a / 2, b / 2, p - 1);
    }
  }

  /** Digits above a small operand stay as they are. */
  lemma {:induction false} XorAbove(a: nat, b: nat, p: nat)
    requires b < Pow2(p)
    ensures Xor(a, b) / Pow2(p) == a / Pow2(p)
    decreases p
  {
    hide Xor;
    if p == 0 {
      XorZero(a);
    } else {
      XorAbove(a / 2, b / 2, p - 1);
      XorDigits(a, b);
      HalfThenDivide(Xor(a, b), Pow2(p - 1));
      HalfThenDivide(a, Pow2(p - 1));
    }
  }

  /** Digit `p` to base 2. */
  function Digit(a: nat, p: nat): nat {
    (a / Pow2(p)) % 2
  }

  lemma DigitHalves(a: nat, p: nat)
    ensures Digit(a, 0) == a % 2
    ensures p > 0 ==> Digit(a, p) == Digit(a / 2, p - 1)
  {
    if p > 0 { HalfThenDivide(a, Pow2(p - 1)); }
  }

  lemma SumParity(a: nat, b: nat)
    ensures (a + b) % 2 == (a % 2 + b % 2) % 2
  {
  }

  /** Every digit of `a ^ b` is the sum of the digits without a carry. */
  lemma {:induction false} XorDigit(a: nat, b: nat, p: nat)
    ensures Digit(Xor(a, b), p) == (Digit(a, p) + Digit(b, p)) % 2
    decreases p
  {
    hide *;
    XorDigits(a, b);
    SumParity(a, b);
    DigitHalves(Xor(a, b), p);
    DigitHalves(a, p);
    DigitHalves(b, p);
    if p > 0 { XorDigit(a / 2, b / 2, p - 1); }
  }

  lemma AndDigits(a: nat, b: nat)
    ensures And(a, b) == 2 * And(a / 2, b / 2) + BothOdd(a % 2, b % 2)
  {
    AndUnfolds(a, b);
    hide And;
    if a % 2 == 0 { } else if b % 2 == 0 { }
  }

  lemma AndUnfolds(a: nat, b: nat)
    ensures And(a, b) == 2 * And(a / 2, b / 2) + (a % 2) * (b % 2)
  {
  }

  /** The product of two binary digits. */
  function BothOdd(x: int, y: int): (n: nat)
    ensures n <= 1
  {
    if x == 1 && y == 1 then 1 else 0
  }

  lemma LastDigit(u: nat, d: nat)
    requires d <= 1
    ensures (2 * u + d) / 2 == u && (2 * u + d) % 2 == d
  {
  }

  /** And every digit of `a & b` is one where both are. */
  lemma {:induction false} AndDigit(a: nat, b: nat, p: nat)
    ensures Digit(And(a, b), p) == BothOdd(Digit(a, p), Digit(b, p))
    decreases p
  {
    hide *;
    AndDigits(a, b);
    LastDigit(And(a / 2, b / 2), BothOdd(a % 2, b % 2));
    DigitHalves(And(a, b), p);
    DigitHalves(a, p);
    DigitHalves(b, p);
    if p > 0 { AndDigit(a / 2, b / 2, p - 1); }
  }

  /** Bits of `a & b` add up: the parity of `popcount(a & b)`. */
  function PopcountParity(a: nat): nat
  {
    if a == 0 then 0 else (a % 2 + PopcountParity(a / 2)) % 2
  }
}
