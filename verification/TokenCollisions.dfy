/** One token more or less: the rolling hash tells any two tokens apart that differ as 32-bit
    words, whatever stands before and behind them. */
module TokenCollisions {
  import opened Bits
  import opened TokenHash

  /** Absorbing a byte leaves everything above the low byte alone. */
  lemma XorKeepsHighPart(x: nat, b: nat)
    requires b < 256
    ensures Xor(x, b) / 256 == x / 256
  {
    assert Pow2(4) == 16;
    Pow2Add(4, 4);
    XorAbove(x, b, 8);
  }

  /** `y` is `x` with another low byte absorbed: they differ by less than 256. */
  ghost predicate Near(x: int, y: int) { -256 < x - y < 256 }

  lemma XorIsNear(x: nat, b: nat)
    requires b < 256
    ensures Near(Xor(x, b), x)
  {
    XorKeepsHighPart(x, b);
  }

  /** What the 64-bit multiplication of a round drops. */
  function Carry(h: Hash, b: nat): nat {
    (Xor(h, b) * PRIME) / MODULUS
  }

  lemma RoundProduct(h: Hash, b: nat)
    ensures Xor(h, b) * PRIME == MODULUS * Carry(h, b) + Absorb(h, b)
  {
  }

  /** Differences of three rounds that end within one byte of each other are all zero. Each
      `d` is a difference of states after the xor, each `e` what the xor has added to it, and
      each `k` a difference of quotients. */
  lemma OnlyZero(d1: int, e2: int, e3: int, e4: int, k1: int, k2: int, k3: int)
    requires -256 < d1 < 256 && -511 < e2 < 511 && -511 < e3 < 511 && -256 < e4 < 256
    requires ((d1 * PRIME - MODULUS * k1 + e2) * PRIME - MODULUS * k2 + e3) * PRIME - MODULUS * k3 == e4
    ensures d1 == 0 && e2 == 0 && e3 == 0 && e4 == 0
  {
    var m := k1 * (PRIME * PRIME) + k2 * PRIME + k3 - d1 * 72057594123452416 - e2 * 65536;
    var low, high := d1 * 82312875 + e2 * 189225 + e3 * 435 - e4, d1 * 567675 + e2 * 870 + e3 - 0x100_0000 * m;
    assert 0x100_0000_0000 * high + low == 0;
    SmallMultiple(low, high);
    LowPart(d1, e2, e3, e4);
    HighPart(d1, e2, e3, m);
  }

  lemma SmallMultiple(low: int, high: int)
    requires 0x100_0000_0000 * high + low == 0 && -0x100_0000_0000 < low < 0x100_0000_0000
    ensures low == 0 && high == 0
  {
  }

  /** The low 40 bits of the difference vanish. */
  lemma LowPart(d1: int, e2: int, e3: int, e4: int)
    requires -256 < d1 < 256 && -511 < e2 < 511 && -511 < e3 < 511 && -256 < e4 < 256
    requires d1 * 82312875 + e2 * 189225 + e3 * 435 - e4 == 0
    ensures e4 == 0 && e3 == -435 * (d1 * 435 + e2) && -1 <= d1 * 435 + e2 <= 1 && -2 < d1 < 2
  {
    var x := d1 * 189225 + e2 * 435 + e3;
    assert e4 == 435 * x;
    assert x == 0;
    var y := d1 * 435 + e2;
    assert e3 == -435 * y;
  }

  /** So do the next 24. */
  lemma HighPart(d1: int, e2: int, e3: int, m: int)
    requires e3 == -435 * (d1 * 435 + e2) && -1 <= d1 * 435 + e2 <= 1 && -2 < d1 < 2
    requires d1 * 567675 + e2 * 870 + e3 - 0x100_0000 * m == 0
    ensures d1 == 0 && e2 == 0 && e3 == 0
  {
    var y := d1 * 435 + e2;
    assert d1 * 189225 + y * 435 == 0x100_0000 * m;
    assert m == 0;
  }

  /** After the first round, the next bytes and the last comparison, step by step. */
  lemma FourBytesDistinct(h: Hash, a: seq<nat>, b: seq<nat>)
    requires |a| == |b| == 4 && forall i :: 0 <= i < 4 ==> a[i] < 256 && b[i] < 256
    requires AbsorbAll(h, a) == AbsorbAll(h, b)
    ensures a == b
  {
    assert a == [a[0], a[1], a[2], a[3]] && b == [b[0], b[1], b[2], b[3]];
    AbsorbFour(h, a[0], a[1], a[2], a[3]);
    AbsorbFour(h, b[0], b[1], b[2], b[3]);
    hide Absorb, AbsorbAll, Xor, Carry;
    var x1, y1 := Absorb(h, a[0]), Absorb(h, b[0]);
    var x2, y2 := Absorb(x1, a[1]), Absorb(y1, b[1]);
    var x3, y3 := Absorb(x2, a[2]), Absorb(y2, b[2]);
    RoundInjective(x3, a[3], y3, b[3]);
    XorKeepsHighPart(x3, a[3]);
    XorKeepsHighPart(y3, b[3]);
    RoundProduct(h, a[0]);
    RoundProduct(h, b[0]);
    RoundProduct(x1, a[1]);
    RoundProduct(y1, b[1]);
    RoundProduct(x2, a[2]);
    RoundProduct(y2, b[2]);
    XorKeepsHighPart(h, a[0]);
    XorKeepsHighPart(h, b[0]);
    XorIsNear(x1, a[1]);
    XorIsNear(y1, b[1]);
    XorIsNear(x2, a[2]);
    XorIsNear(y2, b[2]);
    Differences(Xor(h, a[0]), Xor(h, b[0]), x1, y1, Xor(x1, a[1]), Xor(y1, b[1]), x2, y2, Xor(x2, a[2]), Xor(y2, b[2]), x3, y3,
                Carry(h, a[0]) - Carry(h, b[0]), Carry(x1, a[1]) - Carry(y1, b[1]), Carry(x2, a[2]) - Carry(y2, b[2]));
    XorInjectiveInByte(h, a[0], b[0]);
    XorInjectiveInByte(x1, a[1], b[1]);
    XorInjectiveInByte(x2, a[2], b[2]);
    XorInjectiveInByte(x3, a[3], b[3]);
  }

  /** The states before (`s`) and after (`x`) the three multiplications, in two runs. */
  lemma Differences(s1: int, t1: int, x1: int, y1: int, s2: int, t2: int, x2: int, y2: int, s3: int, t3: int, x3: int, y3: int,
                    k1: int, k2: int, k3: int)
    requires Near(s1, t1) && Near(s2, x1) && Near(t2, y1) && Near(s3, x2) && Near(t3, y2) && Near(x3, y3)
    requires (s1 - t1) * PRIME == MODULUS * k1 + (x1 - y1)
    requires (s2 - t2) * PRIME == MODULUS * k2 + (x2 - y2)
    requires (s3 - t3) * PRIME == MODULUS * k3 + (x3 - y3)
    ensures s1 == t1 && x3 == y3
    ensures x1 == y1 ==> s2 == t2
    ensures x2 == y2 ==> s3 == t3
  {
    OnlyZero(s1 - t1, (s2 - t2) - (x1 - y1), (s3 - t3) - (x2 - y2), x3 - y3, k1, k2, k3);
  }

  lemma OneTokenLater(s: Hash, a: Token, b: Token)
    ensures Continue(s, [a]) == Continue(s, [b]) <==> a % 0x1_0000_0000 == b % 0x1_0000_0000
  {
    BytesOfToken(a);
    BytesOfToken(b);
    hide AbsorbAll, TokenBytes, Bytes;
    if a % 0x1_0000_0000 == b % 0x1_0000_0000 { SameWord(a, b); }
    if Continue(s, [a]) == Continue(s, [b]) {
      FourBytesDistinct(s, TokenBytes(a), TokenBytes(b));
      TokenBytesSum(a);
      TokenBytesSum(b);
    }
  }

  /** Two tokens in the same place, in the same surroundings, from any state: the hashes
      agree if and only if the tokens are the same 32-bit word. */
  lemma TokensToldApart(h: Hash, before: seq<Token>, a: Token, b: Token, after: seq<Token>)
    ensures Continue(h, before + [a] + after) == Continue(h, before + [b] + after)
            <==> a % 0x1_0000_0000 == b % 0x1_0000_0000
  {
    hide *;
    var s := Continue(h, before);
    ContinueConcat(h, before + [a], after);
    ContinueConcat(h, before + [b], after);
    ContinueConcat(h, before, [a]);
    ContinueConcat(h, before, [b]);
    MismatchPersists(Continue(s, [a]), Continue(s, [b]), after);
    OneTokenLater(s, a, b);
  }

  lemma BytesOfToken(a: Token)
    ensures Bytes([a]) == TokenBytes(a)
  {
    assert [a][..0] == [];
  }

  lemma SameWord(a: Token, b: Token)
    requires a % 0x1_0000_0000 == b % 0x1_0000_0000
    ensures TokenBytes(a) == TokenBytes(b)
  {
  }

  /** In particular the guard tells prompts of one token apart exactly by that token. */
  lemma OneTokenPrompts(a: Token, b: Token)
    ensures Prefix([a]) == Prefix([b]) <==> a % 0x1_0000_0000 == b % 0x1_0000_0000
  {
    TokensToldApart(INIT, [], a, b, []);
    assert [] + [a] + [] == [a] && [] + [b] + [] == [b];
  }
}
