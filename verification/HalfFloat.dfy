/** The 16-bit activation codec: binary32 to binary16 with roundTiesToEven as in section
    4.3.1 of IEEE 754-2019, and the exact way back. Shifts, masks and ors of disjoint bit
    fields are written as divisions, remainders and sums. */
module HalfFloat {
  import opened Bits
  import opened Rounding

  type Bits32 = b: nat | b < 0x1_0000_0000
  type Bits16 = h: nat | h < 0x1_0000

  const SIGN32: nat := 0x8000_0000
  const HIDDEN: nat := 0x80_0000
  const SIGN16: nat := 0x8000
  const INF16: nat := 0x7c00

  function Exp32(b: nat): (e: nat) { (b % SIGN32) / HIDDEN }
  function Frac32(b: nat): (m: nat)
    ensures m < HIDDEN
  {
    b % HIDDEN
  }
  predicate IsNaN32(b: nat) { Exp32(b) == 255 && Frac32(b) != 0 }
  predicate IsNaN16(h: nat) { h % SIGN16 > INF16 }

  /** Magnitude of a binary32 number, in units of 2^-149. Infinity counts as 2^128, which
      keeps the order. */
  function Mag32(b: nat): nat {
    if Exp32(b) == 0 then Frac32(b) else (HIDDEN + Frac32(b)) * Pow2(Exp32(b) - 1)
  }

  /** Magnitude of a binary16 code, in units of 2^-24. The infinity code counts as 2^16,
      one step above the largest finite number. */
  function Units(c: nat): nat {
    if c < 1024 then c else (1024 + c % 1024) * Pow2(c / 1024 - 1)
  }

  function Mag16(c: nat): nat { Units(c) * Pow2(125) }

  /** The magnitudes of all codes, infinity last. */
  function Magnitudes(): (v: seq<real>)
    ensures |v| == INF16 + 1 && forall c :: 0 <= c <= INF16 ==> v[c] == Mag16(c) as real
  {
    seq(INF16 + 1, c requires 0 <= c <= INF16 => Mag16(c) as real)
  }

  /** `c` is the binary16 magnitude code nearest to `x`, the even one if two are. */
  ghost predicate NearestEven(x: nat, c: nat) {
    Nearest(Magnitudes(), x as real, c)
  }

  // --- dist_f32_to_f16 ---

  function EncodeSmall(e: nat, frac: nat): nat
    requires 102 <= e <= 112
  {
    var mant := HIDDEN + frac;
    var shift := 126 - e;
    var half := mant / Pow2(shift);
    var roundBit := (mant / Pow2(shift - 1)) % 2;
    var sticky := mant % Pow2(shift - 1);
    if roundBit != 0 && (sticky != 0 || half % 2 != 0) then half + 1 else half
  }

  function EncodeNormal(e: nat, frac: nat): nat
    requires 113 <= e <= 142
  {
    var half := (e - 112) * 1024 + frac / 8192;
    var round := frac % 8192;
    if round > 4096 || (round == 4096 && half % 2 != 0) then half + 1 else half
  }

  /** The code without its sign. */
  function EncodeMag(b: nat): nat {
    var e, frac := Exp32(b), Frac32(b);
    if e < 102 then 0
    else if e <= 112 then EncodeSmall(e, frac)
    else if e >= 143 then if IsNaN32(b) then 0x7e00 else INF16
    else EncodeNormal(e, frac)
  }

  function Encode(b: Bits32): nat {
    (b / SIGN32) * SIGN16 + EncodeMag(b)
  }

  // --- Order of the codes ---

  lemma UnitsStep(c: nat)
    ensures Units(c + 1) == Units(c) + Pow2(if c < 1024 then 0 else c / 1024 - 1)
  {
    if c >= 1024 && c % 1024 == 1023 {
      assert (c + 1) / 1024 == c / 1024 + 1 && (c + 1) % 1024 == 0;
      assert Pow2(c / 1024) == 2 * Pow2(c / 1024 - 1);
    } else if c >= 1024 {
      assert (c + 1) / 1024 == c / 1024 && (c + 1) % 1024 == c % 1024 + 1;
    }
  }

  lemma {:induction false} UnitsIncrease(c: nat, d: nat)
    requires c < d
    ensures Units(c) < Units(d)
    decreases d
  {
    UnitsStep(d - 1);
    if c + 1 < d { UnitsIncrease(c, d - 1); }
  }

  lemma MagIncreases(c: nat, d: nat)
    requires c < d
    ensures Mag16(c) < Mag16(d)
  {
    UnitsIncrease(c, d);
    ScaleStrictly(Units(c), Units(d), Pow2(125));
  }

  lemma MagnitudesIncrease()
    ensures Increasing(Magnitudes())
  {
    hide Mag16, Magnitudes;
    var v := Magnitudes();
    forall c, d | 0 <= c < d < |v| ensures v[c] < v[d] { MagIncreases(c, d); }
  }

  /** Between two neighbouring codes the midpoint decides. */
  lemma Midpoint(x: nat, c: nat, r: nat)
    requires c < INF16 && Mag16(c) <= x < Mag16(c + 1)
    requires var sum := Mag16(c) + Mag16(c + 1);
             r == if 2 * x < sum || (2 * x == sum && c % 2 == 0) then c else c + 1
    ensures NearestEven(x, r)
  {
    hide Mag16, Magnitudes, Nearest;
    MagnitudesIncrease();
    Bracketed(Magnitudes(), x as real, c, r);
  }

  lemma CodeIsUnique(x: nat, c: nat, d: nat)
    requires NearestEven(x, c) && NearestEven(x, d)
    ensures c == d
  {
    MagnitudesIncrease();
    NearestIsUnique(Magnitudes(), x as real, c, d);
  }

  // --- The encoder rounds to nearest, ties to even ---

  /** Rounding `mant / (2 * v)` on its round bit and its sticky bits. */
  lemma RoundBit(mant: nat, v: nat)
    requires v > 0
    ensures var rem := mant % (2 * v);
            && ((mant / v) % 2 != 0 <==> rem >= v)
            && (rem >= v ==> (mant % v != 0 <==> rem > v))
  {
    var q, rem := mant / (2 * v), mant % (2 * v);
    if rem >= v {
      assert mant == v * (2 * q + 1) + (rem - v);
      DivideExact(mant, v, 2 * q + 1, rem - v);
    } else {
      assert mant == v * (2 * q) + rem;
      DivideExact(mant, v, 2 * q, rem);
    }
  }

  /** The codes around `mant * u` when one code step is `w * u`. */
  lemma RoundScaled(x: nat, mant: nat, w: nat, u: nat, c: nat, r: nat)
    requires w > 0 && u > 0 && x == mant * u && c < INF16
    requires Mag16(c) == (mant / w) * w * u && Mag16(c + 1) == (mant / w) * w * u + w * u
    requires r == if 2 * (mant % w) < w || (2 * (mant % w) == w && c % 2 == 0) then c else c + 1
    ensures NearestEven(x, r)
  {
    hide Mag16, NearestEven;
    var q, rem := mant / w, mant % w;
    assert mant == q * w + rem;
    assert mant * u == q * w * u + rem * u;
    MulNonneg(rem, u);
    ScaleStrictly(rem, w, u);
    if 2 * rem < w { ScaleStrictly(2 * rem, w, u); }
    if 2 * rem > w { ScaleStrictly(w, 2 * rem, u); }
    assert (2 * rem) * u == 2 * (rem * u);
    Midpoint(x, c, r);
  }

  lemma SmallIsNearest(e: nat, frac: nat)
    requires 102 <= e <= 112 && frac < HIDDEN
    ensures NearestEven((HIDDEN + frac) * Pow2(e - 1), EncodeSmall(e, frac))
  {
    hide NearestEven, Mag16, EncodeSmall;
    var mant := HIDDEN + frac;
    SmallCode(e, mant);
    SmallNeighbours(e, mant / Pow2(126 - e));
    SmallRounds(e, frac);
    hide Pow2;
    RoundScaled(mant * Pow2(e - 1), mant, Pow2(126 - e), Pow2(e - 1), mant / Pow2(126 - e), EncodeSmall(e, frac));
  }

  lemma SmallRounds(e: nat, frac: nat)
    requires 102 <= e <= 112 && frac < HIDDEN
    ensures var mant, w := HIDDEN + frac, Pow2(126 - e);
            var c := mant / w;
            EncodeSmall(e, frac) == if 2 * (mant % w) < w || (2 * (mant % w) == w && c % 2 == 0) then c else c + 1
  {
    assert Pow2(126 - e) == 2 * Pow2(125 - e);
    hide Pow2;
    RoundBit(HIDDEN + frac, Pow2(125 - e));
  }

  lemma SmallNeighbours(e: nat, c: nat)
    requires 102 <= e <= 112 && c < 1024
    ensures Mag16(c) == c * Pow2(126 - e) * Pow2(e - 1)
    ensures Mag16(c + 1) == c * Pow2(126 - e) * Pow2(e - 1) + Pow2(126 - e) * Pow2(e - 1)
  {
    hide Mag16;
    Pow2Add(126 - e, e - 1);
    SmallMag(c);
    hide Pow2;
    Regroup(c, 1, Pow2(125), Pow2(126 - e), Pow2(e - 1));
  }

  lemma Regroup(a: nat, p: nat, k: nat, w: nat, u: nat)
    requires p * k == w * u
    ensures (a * p) * k == a * w * u && (a * p + p) * k == a * w * u + w * u
  {
    assert (a * p) * k == a * (p * k);
    assert a * w * u == a * (w * u);
  }

  lemma SmallCode(e: nat, mant: nat)
    requires 102 <= e <= 112 && mant < 2 * HIDDEN
    ensures mant / Pow2(126 - e) < 1024
  {
    Pow2Monotone(14, 126 - e);
    assert Pow2(14) == 0x4000;
    hide Pow2;
    QuotientBelow(mant, Pow2(126 - e));
  }

  lemma QuotientBelow(mant: nat, w: nat)
    requires mant < 0x4000 * 1024 && w >= 0x4000
    ensures mant / w < 1024
  {
    var q := mant / w;
    assert mant == w * q + mant % w;
    ScaleMonotone(0x4000, w, q);
  }

  lemma SmallMag(c: nat)
    requires c < 1024
    ensures Mag16(c) == c * Pow2(125) && Mag16(c + 1) == (c + 1) * Pow2(125)
  {
    UnitsStep(c);
  }

  lemma NormalIsNearest(e: nat, frac: nat)
    requires 113 <= e <= 142 && frac < HIDDEN
    ensures NearestEven((HIDDEN + frac) * Pow2(e - 1), EncodeNormal(e, frac))
  {
    hide NearestEven;
    var mant, w, u := HIDDEN + frac, 8192, Pow2(e - 1);
    var c := (e - 112) * 1024 + frac / 8192;
    assert mant / w == 1024 + frac / 8192 && mant % w == frac % 8192;
    NormalMag(e, frac / 8192);
    RoundScaled(mant * u, mant, w, u, c, EncodeNormal(e, frac));
  }

  lemma NormalMag(e: nat, f: nat)
    requires 113 <= e <= 142 && f < 1024
    ensures var c := (e - 112) * 1024 + f;
            && c / 1024 == e - 112 && c % 1024 == f && c < INF16
            && Mag16(c) == (1024 + f) * 8192 * Pow2(e - 1)
            && Mag16(c + 1) == (1024 + f) * 8192 * Pow2(e - 1) + 8192 * Pow2(e - 1)
  {
    var c := (e - 112) * 1024 + f;
    assert c / 1024 == e - 112 && c % 1024 == f;
    UnitsStep(c);
    NormalUnit(e);
    hide Pow2;
    Regroup(1024 + f, Pow2(e - 113), Pow2(125), 8192, Pow2(e - 1));
  }

  lemma NormalUnit(e: nat)
    requires e >= 113
    ensures Pow2(e - 113) * Pow2(125) == 8192 * Pow2(e - 1)
  {
    Pow2Add(e - 113, 125);
    Pow2Add(13, e - 1);
    assert Pow2(13) == 8192;
  }

  lemma TinyIsNearest(e: nat, frac: nat)
    requires e < 102 && frac < HIDDEN
    ensures NearestEven(if e == 0 then frac else (HIDDEN + frac) * Pow2(e - 1), 0)
  {
    hide NearestEven, Mag16;
    var x := if e == 0 then frac else (HIDDEN + frac) * Pow2(e - 1);
    TinyBound(e, frac);
    SmallMag(0);
    Midpoint(x, 0, 0);
  }

  lemma TinyBound(e: nat, frac: nat)
    requires e < 102 && frac < HIDDEN
    ensures 2 * (if e == 0 then frac else (HIDDEN + frac) * Pow2(e - 1)) < Pow2(125)
  {
    BigPowers();
    if e > 0 { Pow2Monotone(e - 1, 100); }
    hide Pow2;
    if e > 0 {
      ScaleBoth(HIDDEN + frac, 2 * HIDDEN, Pow2(e - 1), Pow2(100));
    }
  }

  lemma ScaleBoth(a: nat, b: nat, p: nat, q: nat)
    requires a < b && 0 < p <= q
    ensures a * p < b * q
  {
    ScaleStrictly(a, b, p);
    ScaleMonotone(p, q, b);
  }

  lemma BigPowers()
    ensures Pow2(125) == 2 * (2 * HIDDEN * Pow2(100)) && Pow2(100) >= 2
  {
    Pow2Monotone(1, 100);
    Pow2Add(24, 100);
    assert Pow2(125) == 2 * Pow2(124);
    Pow2Add(12, 12);
    assert Pow2(12) == 4096;
  }

  lemma HugeIsInfinite(e: nat, frac: nat)
    requires e >= 143
    ensures NearestEven((HIDDEN + frac) * Pow2(e - 1), INF16)
  {
    hide Mag16, Pow2, Magnitudes, Nearest;
    var x := (HIDDEN + frac) * Pow2(e - 1);
    HugeBound(e, frac);
    MagnitudesIncrease();
    Bracketed(Magnitudes(), x as real, INF16, INF16);
  }

  lemma HugeBound(e: nat, frac: nat)
    requires e >= 143
    ensures (HIDDEN + frac) * Pow2(e - 1) >= Mag16(INF16)
  {
    InfinityMag();
    Pow2Monotone(142, e - 1);
    hide Pow2, Mag16;
    ScaleMonotone(Pow2(142), Pow2(e - 1), HIDDEN);
    ScaleMonotone(HIDDEN, HIDDEN + frac, Pow2(e - 1));
  }

  lemma InfinityMag()
    ensures Mag16(INF16) == HIDDEN * Pow2(142)
  {
    NormalUnit(143);
    assert Units(INF16) == 1024 * Pow2(30);
    hide Pow2;
    Regroup(1024, Pow2(30), Pow2(125), 8192, Pow2(142));
  }

  /** For every input that is not a NaN the encoder keeps the sign and returns the
      binary16 code nearest to the magnitude, ties to even; NaN becomes a quiet NaN. */
  lemma EncodeRoundsToNearestEven(b: Bits32)
    ensures Encode(b) < 0x1_0000 && Encode(b) / SIGN16 == b / SIGN32 && Encode(b) % SIGN16 == EncodeMag(b)
    ensures if IsNaN32(b) then EncodeMag(b) == 0x7e00 else NearestEven(Mag32(b), EncodeMag(b))
  {
    hide NearestEven;
    var e, frac := Exp32(b), Frac32(b);
    if e < 102 { TinyIsNearest(e, frac); }
    else if e <= 112 { SmallIsNearest(e, frac); }
    else if e <= 142 { NormalIsNearest(e, frac); }
    else { HugeIsInfinite(e, frac); }
    CodeFits(b);
  }

  lemma CodeFits(b: Bits32)
    requires IsNaN32(b) || NearestEven(Mag32(b), EncodeMag(b))
    ensures EncodeMag(b) < SIGN16 && Encode(b) < 0x1_0000
    ensures Encode(b) / SIGN16 == b / SIGN32 && Encode(b) % SIGN16 == EncodeMag(b)
  {
    hide EncodeNormal, EncodeSmall, Mag32;
    assert EncodeMag(b) < SIGN16;
    assert b / SIGN32 <= 1;
    DivideExact(Encode(b), SIGN16, b / SIGN32, EncodeMag(b));
  }

  /** Numbers everybody knows: 1, -2, the largest finite one and the first that overflows. */
  lemma KnownCodes()
    ensures Encode(0x3f80_0000) == 0x3c00 && Encode(0xc000_0000) == 0xc000
    ensures Encode(0x477f_e000) == 0x7bff && Encode(0x477f_f000) == 0x7c00
  {
    hide EncodeSmall;
  }

  /** The smallest subnormal, and the largest number that rounds to zero. */
  lemma KnownTinyCodes()
    ensures Encode(0x3380_0000) == 1 && Encode(0x3300_0000) == 0
  {
    hide EncodeNormal, EncodeSmall, Pow2;
    TinyPowers();
    assert EncodeSmall(103, 0) == 1 && EncodeSmall(102, 0) == 0 by { TinyCodes(); }
  }

  lemma TinyPowers()
    ensures Pow2(22) == 0x40_0000 && Pow2(23) == 0x80_0000 && Pow2(24) == 0x100_0000
  {
    assert Pow2(11) == 2048;
    Pow2Add(11, 11);
    assert Pow2(23) == 2 * Pow2(22) && Pow2(24) == 2 * Pow2(23);
  }

  lemma TinyCodes()
    requires Pow2(22) == 0x40_0000 && Pow2(23) == 0x80_0000 && Pow2(24) == 0x100_0000
    ensures EncodeSmall(103, 0) == 1 && EncodeSmall(102, 0) == 0
  {
    hide Pow2;
  }

  // --- Order ---

  function Value32(b: Bits32): int { if b / SIGN32 == 0 then Mag32(b) else 0 - Mag32(b) }
  function Value16(h: nat): int { if h / SIGN16 == 0 then Mag16(h % SIGN16) else 0 - Mag16(h % SIGN16) }

  lemma CodesMonotone(x: nat, y: nat, c: nat, d: nat)
    requires x <= y && NearestEven(x, c) && NearestEven(y, d)
    ensures c <= d
  {
    MagnitudesIncrease();
    NearestMonotone(Magnitudes(), x as real, y as real, c, d);
  }

  lemma ZeroIsNearest(c: nat)
    requires NearestEven(0, c)
    ensures c == 0
  {
    ExactIsNearest(0);
    SmallMag(0);
    CodeIsUnique(0, 0, c);
  }

  /** Rounding never reverses the order of two numbers, infinities included. */
  lemma EncodeIsMonotone(a: Bits32, b: Bits32)
    requires !IsNaN32(a) && !IsNaN32(b) && Value32(a) <= Value32(b)
    ensures Value16(Encode(a)) <= Value16(Encode(b))
  {
    hide NearestEven, Encode, EncodeMag, Mag32, Mag16;
    EncodeRoundsToNearestEven(a);
    EncodeRoundsToNearestEven(b);
    var x, y, c, d := Mag32(a), Mag32(b), EncodeMag(a), EncodeMag(b);
    if x == 0 { ZeroIsNearest(c); }
    if y == 0 { ZeroIsNearest(d); }
    assert Mag16(0) == 0 by { SmallMag(0); }
    if x <= y { CodesMonotone(x, y, c, d); CodesOrdered(c, d); }
    if y <= x { CodesMonotone(y, x, d, c); CodesOrdered(d, c); }
  }

  lemma CodesOrdered(c: nat, d: nat)
    requires c <= d
    ensures Mag16(c) <= Mag16(d)
  {
    if c < d { MagIncreases(c, d); }
  }

  // --- dist_f16_to_f32 ---

  /** `b` is the binary32 number with exactly the value of the binary16 code `h`. */
  ghost predicate SameNumber(h: Bits16, b: Bits32) {
    && b / SIGN32 == h / SIGN16
    && (IsNaN16(h) <==> IsNaN32(b))
    && (h % SIGN16 == INF16 <==> Exp32(b) == 255 && Frac32(b) == 0)
    && (h % SIGN16 < INF16 ==> Exp32(b) < 255 && Mag32(b) == Mag16(h % SIGN16))
  }

  function Pack(sign: nat, e: nat, frac: nat): nat {
    sign * SIGN32 + e * HIDDEN + frac
  }

  lemma PackFields(sign: nat, e: nat, frac: nat)
    requires sign <= 1 && e <= 255 && frac < HIDDEN
    ensures var b := Pack(sign, e, frac);
            b < 0x1_0000_0000 && b / SIGN32 == sign && Exp32(b) == e && Frac32(b) == frac
  {
    var b := Pack(sign, e, frac);
    DivideExact(b, SIGN32, sign, e * HIDDEN + frac);
    DivideExact(b % SIGN32, HIDDEN, e, frac);
    DivideExact(b, HIDDEN, sign * 256 + e, frac);
  }

  lemma HalfFields(h: Bits16)
    ensures h / SIGN16 <= 1 && h % SIGN16 == ((h / 1024) % 32) * 1024 + h % 1024
  {
  }

  lemma NormalDecodes(exp: nat, mant: nat)
    requires 1 <= exp <= 30 && mant < 1024
    ensures (HIDDEN + mant * 8192) * Pow2(exp + 111) == Mag16(exp * 1024 + mant)
  {
    NormalMag(exp + 112, mant);
  }

  lemma SubnormalDecodes(m: nat, exp: int, mant: nat)
    requires exp <= 1 && 0 < m && mant < 1024 && 1024 + mant == m * Pow2(1 - exp) && m < 1024
    ensures -9 <= exp <= 0
    ensures (HIDDEN + mant * 8192) * Pow2(exp + 111) == Mag16(m)
  {
    ShiftBounded(m, exp, mant);
    SmallMag(m);
    ShiftUnits(exp);
    hide Pow2, Mag16;
    ShiftedProduct(1024 + mant, m, Pow2(1 - exp), Pow2(exp + 111), Pow2(125));
  }

  lemma ShiftedProduct(n: nat, m: nat, q: nat, u: nat, k: nat)
    requires n == m * q && q * (8192 * u) == k
    ensures (n * 8192) * u == m * k
  {
    assert (n * 8192) * u == (m * q) * (8192 * u) == m * (q * (8192 * u));
  }

  lemma ShiftBounded(m: nat, exp: int, mant: nat)
    requires exp <= 1 && 0 < m < 1024 && mant < 1024 && 1024 + mant == m * Pow2(1 - exp)
    ensures -9 <= exp <= 0
  {
    assert Pow2(0) == 1 && Pow2(11) == 2048;
    if exp < -9 {
      Pow2Monotone(11, 1 - exp);
      ScaleMonotone(1, m, Pow2(1 - exp));
    }
  }

  lemma ShiftUnits(exp: int)
    requires -9 <= exp <= 0
    ensures Pow2(1 - exp) * (8192 * Pow2(exp + 111)) == Pow2(125)
  {
    Pow2Add(1 - exp, exp + 124);
    Pow2Add(13, exp + 111);
    assert Pow2(13) == 8192;
  }

  /** Shifts a subnormal fraction left until its hidden bit is set. */
  method Normalise(m: nat) returns (exp: int, mant: nat)
    requires 0 < m < 1024
    ensures -9 <= exp <= 0 && mant < 1024
    ensures (HIDDEN + mant * 8192) * Pow2(exp + 111) == Mag16(m)
  {
    exp, mant := 1, m;
    assert Pow2(0) == 1;
    while (mant / 1024) % 2 == 0
      invariant 0 < mant < 2048 && exp <= 1 && mant == m * Pow2(1 - exp)
      decreases 2048 - mant
    {
      assert Pow2(2 - exp) == 2 * Pow2(1 - exp);
      hide Pow2;
      assert m * (2 * Pow2(1 - exp)) == 2 * (m * Pow2(1 - exp));
      mant := 2 * mant;
      exp := exp - 1;
    }
    mant := mant % 1024;
    SubnormalDecodes(m, exp, mant);
  }

  /** Decoding is exact. */
  method Decode(h: Bits16) returns (b: Bits32)
    ensures SameNumber(h, b)
  {
    var sign := h / SIGN16;
    var exp: int := (h / 1024) % 32;
    var mant := h % 1024;
    HalfFields(h);
    if exp == 0 {
      if mant != 0 { exp, mant := Normalise(mant); exp := exp + 112; }
    } else if exp == 31 {
      exp := 255;
    } else {
      NormalDecodes(exp, mant);
      exp := exp + 112;
    }
    PackFields(sign, exp, mant * 8192);
    b := Pack(sign, exp, mant * 8192);
    DecodedFields(h, b, exp, mant);
  }

  lemma DecodedFields(h: Bits16, b: Bits32, e: nat, mant: nat)
    requires e <= 255 && mant < 1024 && b / SIGN32 == h / SIGN16 && Exp32(b) == e && Frac32(b) == mant * 8192
    requires var exp, m := (h / 1024) % 32, h % 1024;
             match exp
             case 0 => if m == 0 then e == 0 && mant == 0
                       else e >= 1 && e < 255 && (HIDDEN + mant * 8192) * Pow2(e - 1) == Mag16(m)
             case 31 => e == 255 && mant == m
             case _ => e == exp + 112 && (HIDDEN + mant * 8192) * Pow2(e - 1) == Mag16(exp * 1024 + m)
    ensures SameNumber(h, b)
  {
    hide Pow2, Units, Exp32, Frac32;
    HalfFields(h);
    SmallMag(0);
  }

  /** Whatever binary32 number has the value of a binary16 code encodes back to that code. */
  lemma EncodeInvertsDecode(h: Bits16, b: Bits32)
    requires SameNumber(h, b) && !IsNaN16(h)
    ensures Encode(b) == h
  {
    hide NearestEven, Mag16, Mag32, Encode, EncodeMag, Exp32, Frac32, IsNaN32;
    EncodeRoundsToNearestEven(b);
    var c := h % SIGN16;
    assert NearestEven(Mag32(b), c) by {
      if c == INF16 { InfinityStays(b); } else { ExactIsNearest(c); }
    }
    CodeIsUnique(Mag32(b), c, EncodeMag(b));
  }

  lemma ExactIsNearest(c: nat)
    requires c <= INF16
    ensures NearestEven(Mag16(c), c)
  {
    hide Mag16, Magnitudes;
    MagnitudesIncrease();
    OwnNearest(Magnitudes(), c);
  }

  lemma InfinityStays(b: Bits32)
    requires Exp32(b) == 255
    ensures NearestEven(Mag32(b), INF16)
  {
    HugeIsInfinite(255, Frac32(b));
  }

  /** One trip over a 16-bit wire: encode, then decode. A second trip changes nothing. */
  method Transport(b: Bits32) returns (r: Bits32)
    requires !IsNaN32(b)
    ensures !IsNaN32(r) && Encode(b) < 0x1_0000 && SameNumber(Encode(b), r) && Encode(r) == Encode(b)
  {
    hide NearestEven, Encode, EncodeMag, Exp32, Frac32, Mag16, Mag32, IsNaN32, IsNaN16, SameNumber;
    NumberStaysNumber(b);
    r := Decode(Encode(b));
    SameIsNumber(Encode(b), r);
    EncodeInvertsDecode(Encode(b), r);
  }

  lemma SameIsNumber(h: Bits16, b: Bits32)
    requires SameNumber(h, b) && !IsNaN16(h)
    ensures !IsNaN32(b)
  {
  }

  lemma NumberStaysNumber(b: Bits32)
    requires !IsNaN32(b)
    ensures Encode(b) < 0x1_0000 && !IsNaN16(Encode(b))
  {
    hide Encode, EncodeMag, Mag32;
    EncodeRoundsToNearestEven(b);
    assert EncodeMag(b) <= INF16;
  }
}
