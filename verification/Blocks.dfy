/** Index arithmetic of in-place networks: thread `c` works on the pair of positions that
    differ in one bit, and positions are grouped into aligned blocks. */
module Blocks {
  import opened Bits

  lemma LowerPartner(c: nat, j: nat)
    requires j > 0 && !BitClear(c, j)
    ensures c >= j && BitClear(c - j, j)
  {
    var q, r := c / j, c % j;
    assert c == j * q + r;
    MulNonneg(j, q - 1);
    assert c - j == j * (q - 1) + r;
    DivideExact(c - j, j, q - 1, r);
  }

  lemma UpperPartner(c: nat, j: nat)
    requires j > 0 && BitClear(c, j)
    ensures !BitClear(c + j, j)
  {
    var q, r := c / j, c % j;
    assert c + j == j * (q + 1) + r;
    DivideExact(c + j, j, q + 1, r);
  }

  /** The thread that writes position `c`. */
  function Writer(c: nat, j: nat): (r: nat)
    requires j > 0
    ensures r <= c && (r == c || r == c - j)
  {
    if BitClear(c, j) then c else LowerPartner(c, j); c - j
  }

  lemma OnlyPairShares(c: nat, d: nat, j: nat)
    requires j > 0
    ensures BitClear(c, j) ==> (Writer(d, j) == c <==> d == c || d == c + j)
    ensures !BitClear(c, j) ==> Writer(d, j) != c
  {
    if BitClear(c, j) { UpperPartner(c, j); }
    if !BitClear(d, j) { LowerPartner(d, j); }
  }

  lemma DivideTwice(c: nat, d: nat, w: nat)
    requires d > 0 && w > 0
    ensures d * w > 0 && c / (d * w) == (c / d) / w
  {
    var q, r := (c / d) / w, (c / d) % w;
    assert c == d * (w * q + r) + c % d;
    assert c == (d * w) * q + (d * r + c % d);
    ProductBound(d, w, r, c % d);
    DivideExact(c, d * w, q, d * r + c % d);
  }

  lemma ProductBound(d: nat, w: nat, r: nat, e: nat)
    requires r < w && e < d
    ensures 0 <= d * r + e < d * w
  {
    MulNonneg(d, r);
    MulNonneg(d, w - 1 - r);
    assert d * w == d * r + d + d * (w - 1 - r);
  }

  /** The block of `2 * j` positions at `o`, split into its two halves. */
  lemma InBlock(o: nat, i: nat, j: nat)
    requires i < j && o % (2 * j) == 0
    ensures (o + i) / j == 2 * (o / (2 * j)) && (o + j + i) / j == 2 * (o / (2 * j)) + 1
    ensures (o + i) / (2 * j) == o / (2 * j) == (o + j + i) / (2 * j)
    ensures BitClear(o + i, j) && !BitClear(o + j + i, j)
  {
    var b := o / (2 * j);
    assert o == 2 * j * b;
    assert o + i == j * (2 * b) + i;
    assert o + j + i == j * (2 * b + 1) + i;
    DivideExact(o + i, j, 2 * b, i);
    DivideExact(o + j + i, j, 2 * b + 1, i);
    DivideExact(o + i, 2 * j, b, i);
    DivideExact(o + j + i, 2 * j, b, j + i);
  }

  /** The block a position lies in. */
  lemma BlockOf(c: nat, d: nat, w: nat) returns (o: nat, i: nat)
    requires d > 0 && c < d * w
    ensures c == o + i && i < d && o % d == 0 && o + d <= d * w && o / d == c / d
  {
    var b := c / d;
    o, i := d * b, c % d;
    assert d * (b - w) == d * b - d * w;
    if b >= w { MulNonneg(d, b - w); }
    MulNonneg(d, w - 1 - b);
    MulNonneg(d, b);
    assert d * w == d * b + d + d * (w - 1 - b);
    DivideExact(o, d, b, 0);
  }

  lemma QuotientMonotone(c: nat, d: nat, j: nat)
    requires j > 0 && c <= d
    ensures c / j <= d / j
  {
    var x := c / j - d / j;
    assert j * x == j * (c / j) - j * (d / j) == (c - c % j) - (d - d % j);
    assert j * x == j + j * (x - 1);
    if x >= 1 { MulNonneg(j, x - 1); }
  }
}
