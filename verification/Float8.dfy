/** The small-float rounding of the KV kernels: E4M3FN by binary search and E2M1FN by a
    scan, both to the nearest code with ties to the even code. */
module Float8 {
  import opened Bits
  import opened Rounding

  function MinR(a: real, b: real): real { if b < a then b else a }

  /** `r` is `x` rounded to the table and its mirror image, after clamping. */
  ghost predicate Rounds(v: seq<real>, x: real, r: real) {
    && |v| > 0
    && exists c: nat :: c < |v| && Nearest(v, MinR(Abs(x), v[|v| - 1]), c) && r == if x < 0.0 then -v[c] else v[c]
  }

  // --- What rounding means ---

  /** Rounding is a function of its input. */
  lemma RoundsIsUnique(v: seq<real>, x: real, r: real, s: real)
    requires Increasing(v) && Rounds(v, x, r) && Rounds(v, x, s)
    ensures r == s
  {
    hide Nearest, Increasing;
    var a := MinR(Abs(x), v[|v| - 1]);
    var c: nat :| c < |v| && Nearest(v, a, c) && r == if x < 0.0 then -v[c] else v[c];
    var d: nat :| d < |v| && Nearest(v, a, d) && s == if x < 0.0 then -v[d] else v[d];
    NearestIsUnique(v, a, c, d);
  }

  /** No positive or negative table value is closer to the clamped input. */
  lemma RoundsIsNearest(v: seq<real>, x: real, r: real, g: nat)
    requires Increasing(v) && Rounds(v, x, r) && v[0] == 0.0 && g < |v|
    ensures var top := v[|v| - 1];
            var y := if x < -top then -top else if x > top then top else x;
            Abs(y - r) <= Abs(y - v[g]) && Abs(y - r) <= Abs(y + v[g])
  {
    var top := v[|v| - 1];
    var c: nat :| c < |v| && Nearest(v, MinR(Abs(x), top), c) && r == if x < 0.0 then -v[c] else v[c];
    assert v[g] >= 0.0 && top >= 0.0 by { assert g == 0 || v[0] < v[g]; assert |v| == 1 || v[0] < top; }
    assert g == c || Abs(MinR(Abs(x), top) - v[c]) <= Abs(MinR(Abs(x), top) - v[g]);
  }

  lemma EntryInRange(v: seq<real>, c: nat)
    requires Increasing(v) && c < |v|
    ensures v[0] <= v[c] <= v[|v| - 1]
  {
    if c > 0 { assert v[0] < v[c]; }
    if c < |v| - 1 { assert v[c] < v[|v| - 1]; }
  }

  /** Rounding a rounded value changes nothing. */
  lemma RoundsIsIdempotent(v: seq<real>, x: real, r: real, s: real)
    requires Increasing(v) && v != [] && v[0] == 0.0 && Rounds(v, x, r) && Rounds(v, r, s)
    ensures s == r
  {
    hide Nearest, Increasing;
    var c: nat :| c < |v| && Nearest(v, MinR(Abs(x), v[|v| - 1]), c) && r == if x < 0.0 then -v[c] else v[c];
    NearestInTable(v, MinR(Abs(x), v[|v| - 1]), c);
    EntryInRange(v, c);
    assert MinR(Abs(r), v[|v| - 1]) == v[c];
    OwnNearest(v, c);
    var d: nat :| d < |v| && Nearest(v, v[c], d) && s == if r < 0.0 then -v[d] else v[d];
    NearestIsUnique(v, v[c], c, d);
  }

  lemma NearestInTable(v: seq<real>, x: real, c: nat)
    requires Nearest(v, x, c)
    ensures c < |v|
  {
  }

  // --- E4M3FN ---

  const CODES: nat := 127

  /** Scale of a block of eight codes; entry 0 is never used. */
  function ExpScale(e: nat): real
    requires e < 16
  {
    [0.0, 0.015625, 0.03125, 0.0625, 0.125, 0.25, 0.5, 1.0, 2.0, 4.0, 8.0, 16.0, 32.0, 64.0, 128.0, 256.0][e]
  }

  function Value(i: nat): real
    requires i < 128
  {
    var exp, mant := (i / 8) % 16, i % 8;
    if exp == 0 then mant as real * 0.001953125
    else (1.0 + mant as real * 0.125) * ExpScale(exp)
  }

  function Table(): (v: seq<real>)
    ensures |v| == CODES && forall i :: 0 <= i < CODES ==> v[i] == Value(i)
  {
    seq(CODES, i requires 0 <= i < CODES => Value(i))
  }

  lemma {:induction false} ScaleIsPower(e: nat)
    requires 1 <= e < 16
    ensures 64.0 * ExpScale(e) == Pow2(e - 1) as real
  {
    if e > 1 {
      ScaleIsPower(e - 1);
      ScaleDoubles(e - 1);
    }
  }

  lemma Distributes(m: real, x: real)
    ensures (1.0 + m * 0.125) * x * 8.0 == (8.0 + m) * x
  {
  }

  lemma ProductAsReal(a: nat, b: nat)
    ensures a as real * b as real == (a * b) as real
  {
  }

  /** The codes in units of 2^-9: three mantissa bits, a hidden bit from code 8 on, and one
      doubling per exponent. */
  lemma ValueInUnits(i: nat)
    requires i < 128
    ensures Value(i) * 512.0 == (if i < 8 then i else (8 + i % 8) * Pow2(i / 8 - 1)) as real
  {
    hide ExpScale, Pow2;
    if i >= 8 { NormalInUnits(i / 8, i % 8); }
  }

  lemma NormalInUnits(e: nat, m: nat)
    requires 1 <= e < 16
    ensures (1.0 + m as real * 0.125) * ExpScale(e) * 512.0 == ((8 + m) * Pow2(e - 1)) as real
  {
    ScaleIsPower(e);
    hide ExpScale, Pow2;
    Distributes(m as real, ExpScale(e));
    ProductAsReal(8 + m, Pow2(e - 1));
  }

  lemma ScaleDoubles(e: nat)
    requires 1 <= e < 15
    ensures ExpScale(e + 1) == 2.0 * ExpScale(e) && ExpScale(e) > 0.0
  {
  }

  lemma ValueIncreases(i: nat)
    requires i + 1 < CODES
    ensures Value(i) < Value(i + 1)
  {
    hide ExpScale;
    var e, m := i / 8, i % 8;
    if e > 0 { if e < 15 { ScaleDoubles(e); } else { ScaleDoubles(14); } }
    if m == 7 {
      assert (i + 1) / 8 == e + 1 && (i + 1) % 8 == 0;
      if e == 0 { FirstNormal(); }
    } else {
      assert (i + 1) / 8 == e && (i + 1) % 8 == m + 1;
    }
  }

  lemma FirstNormal()
    ensures ExpScale(1) == 8.0 * 0.001953125
  {
  }

  /** The code values strictly increase, from 0 up to 448. */
  lemma TableIncreases()
    ensures Increasing(Table()) && Table()[0] == 0.0 && Table()[CODES - 1] == 448.0
  {
    forall i, j | 0 <= i < j < CODES ensures Value(i) < Value(j) { ValuesIncrease(i, j); }
  }

  lemma {:induction false} ValuesIncrease(i: nat, j: nat)
    requires i < j < CODES
    ensures Value(i) < Value(j)
    decreases j
  {
    ValueIncreases(j - 1);
    if i + 1 < j { ValuesIncrease(i, j - 1); }
  }

  /** Binary search for the code below, then the neighbour test. */
  method DequantE4M3(x: real) returns (r: real)
    ensures Rounds(Table(), x, r)
  {
    hide Value, Increasing, Nearest;
    ghost var v := Table();
    TableIncreases();
    var ax := MinR(Abs(x), 448.0);
    var lo, hi := 0, 126;
    while lo < hi
      invariant 0 <= lo <= hi <= 126
      invariant v[lo] <= ax && (hi < 126 ==> ax < v[hi + 1])
    {
      var mid := (lo + hi + 1) / 2;
      if Value(mid) <= ax { lo := mid; } else { hi := mid - 1; }
    }
    var best := lo;
    if best < 126 {
      var bestDiff, nextDiff := Abs(ax - Value(best)), Abs(ax - Value(best + 1));
      if nextDiff < bestDiff || (nextDiff == bestDiff && (best + 1) % 2 == 0 && best % 2 != 0) {
        best := best + 1;
      }
    }
    Bracketed(v, ax, lo, best);
    r := if x < 0.0 then -Value(best) else Value(best);
  }

  // --- E2M1FN ---

  function SmallTable(): seq<real> {
    [0.0, 0.5, 1.0, 1.5, 2.0, 3.0, 4.0, 6.0]
  }

  /** The codes in units of 1/2: one mantissa bit, a hidden bit from code 2 on, and one doubling
      per exponent. */
  lemma SmallInUnits(i: nat)
    requires i < 8
    ensures |SmallTable()| == 8
    ensures SmallTable()[i] * 2.0 == (if i < 2 then i else (2 + i % 2) * Pow2(i / 2 - 1)) as real
  {
    assert Pow2(0) == 1 && Pow2(1) == 2 && Pow2(2) == 4;
  }

  /** A scan that moves on when strictly closer, or equally close from odd to even. */
  method DequantE2M1(x: real) returns (r: real)
    ensures Rounds(SmallTable(), x, r)
  {
    hide Nearest;
    var v := SmallTable();
    var ax := MinR(Abs(x), 6.0);
    var best := 0;
    var bestDiff := Abs(ax - v[0]);
    OnlyEntry(v[..1], ax);
    for i := 1 to 8
      invariant 0 <= best < i && bestDiff == Abs(ax - v[best])
      invariant Nearest(v[..i], ax, best)
    {
      hide SmallTable;
      var diff := Abs(ax - v[i]);
      ScanStep(v, ax, i, best);
      if diff < bestDiff || (diff == bestDiff && i % 2 == 0 && best % 2 != 0) {
        best, bestDiff := i, diff;
      }
    }
    assert v[..8] == v;
    r := if x < 0.0 then -v[best] else v[best];
  }

  lemma OnlyEntry(v: seq<real>, x: real)
    requires |v| == 1
    ensures Nearest(v, x, 0)
  {
  }

  lemma ScanStep(v: seq<real>, x: real, i: nat, best: nat)
    requires Increasing(v) && best < i < |v| && Nearest(v[..i], x, best)
    ensures var near, far := Abs(x - v[i]), Abs(x - v[best]);
            Nearest(v[..i + 1], x, if near < far || (near == far && i % 2 == 0 && best % 2 != 0) then i else best)
  {
    var near, far := Abs(x - v[i]), Abs(x - v[best]);
    forall g | 0 <= g < i && g != best ensures far < Abs(x - v[g]) || (far == Abs(x - v[g]) && best % 2 == 0) {
      assert v[..i][g] == v[g] && v[..i][best] == v[best];
    }
    if near == far { Between(v, x, best, i); }
  }
}
