/** The in-place butterfly of the indexer's rotation computes the Walsh-Hadamard
    transform, for every power-of-two width. Values are reals. */
module Hadamard {
  import opened Bits
  import opened Threads
  import opened Blocks

  // --- The transform ---

  /** (-1) to the number of ones of `i & j`. */
  function Sign(i: nat, j: nat): real {
    if PopcountParity(And(i, j)) == 0 then 1.0 else -1.0
  }

  /** The sum over t < n of Sign(i, t) * s[t]. */
  function SignedSum(i: nat, s: seq<real>, n: nat): real
    requires n <= |s|
  {
    if n == 0 then 0.0 else SignedSum(i, s, n - 1) + Sign(i, n - 1) * s[n - 1]
  }

  function Sum(x: seq<real>, y: seq<real>): (r: seq<real>)
    requires |x| == |y|
    ensures |r| == |x|
  {
    seq(|x|, i requires 0 <= i < |x| => x[i] + y[i])
  }

  function Difference(x: seq<real>, y: seq<real>): (r: seq<real>)
    requires |x| == |y|
    ensures |r| == |x|
  {
    seq(|x|, i requires 0 <= i < |x| => x[i] - y[i])
  }

  /** The transform of 2^p values, by halves. */
  function Transform(s: seq<real>, p: nat): (r: seq<real>)
    requires |s| == Pow2(p)
    ensures |r| == |s|
    decreases p
  {
    if p == 0 then s
    else
      var j := Pow2(p - 1);
      var x, y := Transform(s[..j], p - 1), Transform(s[j..], p - 1);
      Sum(x, y) + Difference(x, y)
  }

  lemma TransformByHalves(x: seq<real>, y: seq<real>, p: nat)
    requires |x| == |y| == Pow2(p)
    ensures |x + y| == Pow2(p + 1)
    ensures Transform(x + y, p + 1) == Sum(Transform(x, p), Transform(y, p)) + Difference(Transform(x, p), Transform(y, p))
  {
    assert (x + y)[..|x|] == x && (x + y)[|x|..] == y;
  }

  /** A sequence as its two halves. */
  lemma Halves(s: seq<real>, p: nat) returns (x: seq<real>, y: seq<real>)
    requires p > 0 && |s| == Pow2(p)
    ensures s == x + y && |x| == |y| == Pow2(p - 1) && x == s[..Pow2(p - 1)] && y == s[Pow2(p - 1)..]
  {
    x, y := s[..Pow2(p - 1)], s[Pow2(p - 1)..];
  }

  // --- Signs ---

  lemma ParityOfDigits(a: nat, b: nat)
    requires b <= 1
    ensures PopcountParity(2 * a + b) == (b + PopcountParity(a)) % 2
  {
    assert (2 * a + b) / 2 == a && (2 * a + b) % 2 == b;
  }

  /** The bits of `x` and of `y` add up to the same, up to `n`. */
  ghost predicate Differ(y: nat, x: nat, n: int) {
    PopcountParity(y) == (PopcountParity(x) + n) % 2
  }

  /** Bit `p` of both operands adds one to the count, and nothing else does. */
  lemma {:induction false} ParityHigh(a: nat, b: nat, x: nat, y: nat, p: nat)
    requires a < Pow2(p) && b < Pow2(p) && x <= 1 && y <= 1
    ensures Differ(And(a + x * Pow2(p), b + y * Pow2(p)), And(a, b), x * y)
    decreases p
  {
    hide PopcountParity, And;
    var k := Pow2(p);
    if p == 0 {
      assert a == 0 && b == 0 && k == 1;
      BitProducts(x, y);
    } else {
      hide Differ;
      ParityHigh(a / 2, b / 2, x, y, p - 1);
      ShiftedDigits(a, x, p);
      ShiftedDigits(b, y, p);
      hide Pow2;
      ParityOfHalves(a + x * k, b + y * k, a, b, x * y);
    }
  }

  lemma ParityOfHalves(a': nat, b': nat, a: nat, b: nat, n: int)
    requires a' % 2 == a % 2 && b' % 2 == b % 2
    requires Differ(And(a' / 2, b' / 2), And(a / 2, b / 2), n)
    ensures Differ(And(a', b'), And(a, b), n)
  {
    hide *;
    AndDigits(a, b);
    AndDigits(a', b');
    SameLastDigit(And(a', b'), And(a, b), And(a' / 2, b' / 2), And(a / 2, b / 2), BothOdd(a % 2, b % 2), n);
  }

  lemma SameLastDigit(x': nat, x: nat, v: nat, u: nat, d: nat, n: int)
    requires x' == 2 * v + d && x == 2 * u + d && d <= 1 && Differ(v, u, n)
    ensures Differ(x', x, n)
  {
    hide PopcountParity;
    ParityOfDigits(u, d);
    ParityOfDigits(v, d);
    ShiftParity(PopcountParity(u), n, d);
  }

  lemma ShiftParity(p: int, n: int, d: int)
    ensures (d + (p + n) % 2) % 2 == ((d + p) % 2 + n) % 2
  {
  }

  lemma ShiftedDigits(a: nat, x: nat, p: nat)
    requires p > 0 && x <= 1
    ensures (a + x * Pow2(p)) / 2 == a / 2 + x * Pow2(p - 1) && (a + x * Pow2(p)) % 2 == a % 2
  {
  }

  lemma BitProducts(x: nat, y: nat)
    requires x <= 1 && y <= 1
    ensures 0 <= x * y <= 1 && PopcountParity(And(x, y)) == x * y && PopcountParity(And(0, 0)) == 0
  {
  }

  /** Adding 2^p to an index changes a sign only if it is added to both. */
  lemma SignHigh(a: nat, b: nat, p: nat)
    requires a < Pow2(p) && b < Pow2(p)
    ensures Sign(a + Pow2(p), b) == Sign(a, b) == Sign(a, b + Pow2(p))
    ensures Sign(a + Pow2(p), b + Pow2(p)) == -Sign(a, b)
  {
    hide PopcountParity, And, Pow2;
    ParityHigh(a, b, 1, 0, p);
    ParityHigh(a, b, 0, 1, p);
    ParityHigh(a, b, 1, 1, p);
    ParityIsBit(And(a, b));
  }

  lemma ParityIsBit(a: nat)
    ensures 0 <= PopcountParity(a) <= 1
  {
  }

  // --- The recursive form is the signed sum ---

  lemma {:induction false} SumOverHalf(i: nat, s: seq<real>, n: nat, p: nat)
    requires i < Pow2(p) && n <= Pow2(p) && |s| == 2 * Pow2(p)
    ensures SignedSum(i, s, n) == SignedSum(i, s[..Pow2(p)], n)
    ensures SignedSum(i + Pow2(p), s, n) == SignedSum(i, s[..Pow2(p)], n)
    decreases n
  {
    if n > 0 {
      SumOverHalf(i, s, n - 1, p);
      SignHigh(i, n - 1, p);
    }
  }

  lemma {:induction false} SumOverBoth(i: nat, s: seq<real>, n: nat, p: nat)
    requires i < Pow2(p) && n <= Pow2(p) && |s| == 2 * Pow2(p)
    ensures var j := Pow2(p);
            && SignedSum(i, s, j + n) == SignedSum(i, s[..j], j) + SignedSum(i, s[j..], n)
            && SignedSum(i + j, s, j + n) == SignedSum(i, s[..j], j) - SignedSum(i, s[j..], n)
    decreases n
  {
    hide Sign;
    if n == 0 {
      SumOverHalf(i, s, Pow2(p), p);
    } else {
      SumOverBoth(i, s, n - 1, p);
      SignHigh(i, n - 1, p);
    }
  }

  /** Output `i` is the sum over all inputs `j`, each signed by the parity of `i & j`. */
  lemma {:induction false} TransformIsSignedSum(s: seq<real>, p: nat, i: nat)
    requires |s| == Pow2(p) && i < |s|
    ensures Transform(s, p)[i] == SignedSum(i, s, |s|)
    decreases p
  {
    hide Transform, SignedSum, Sign, Sum, Difference;
    if p == 0 {
      SingleSum(s);
    } else {
      var x, y := Halves(s, p);
      var j := |x|;
      var k := if i < j then i else i - j;
      TransformIsSignedSum(x, p - 1, k);
      TransformIsSignedSum(y, p - 1, k);
      SumOverBoth(k, s, j, p - 1);
      TransformByHalves(x, y, p - 1);
      OutputOfHalf(Transform(x, p - 1), Transform(y, p - 1), i, k);
    }
  }

  lemma OutputOfHalf(x: seq<real>, y: seq<real>, i: nat, k: nat)
    requires |x| == |y| && i < 2 * |x| && k == if i < |x| then i else i - |x|
    ensures (Sum(x, y) + Difference(x, y))[i] == if i < |x| then x[k] + y[k] else x[k] - y[k]
  {
  }

  lemma SingleSum(s: seq<real>)
    requires |s| == Pow2(0)
    ensures Transform(s, 0)[0] == SignedSum(0, s, 1)
  {
    assert Sign(0, 0) == 1.0;
    assert SignedSum(0, s, 1) == SignedSum(0, s, 0) + Sign(0, 0) * s[0];
  }

  // --- Twice is a scaling ---

  lemma {:induction false} TransformIsLinear(x: seq<real>, y: seq<real>, p: nat)
    requires |x| == |y| == Pow2(p)
    ensures Transform(Sum(x, y), p) == Sum(Transform(x, p), Transform(y, p))
    ensures Transform(Difference(x, y), p) == Difference(Transform(x, p), Transform(y, p))
    decreases p
  {
    if p > 0 {
      var x0, x1 := Halves(x, p);
      var y0, y1 := Halves(y, p);
      TransformIsLinear(x0, y0, p - 1);
      TransformIsLinear(x1, y1, p - 1);
      TransformByHalves(x0, x1, p - 1);
      TransformByHalves(y0, y1, p - 1);
      TransformByHalves(Sum(x0, y0), Sum(x1, y1), p - 1);
      TransformByHalves(Difference(x0, y0), Difference(x1, y1), p - 1);
      hide Transform;
      PairwiseConcat(x0, x1, y0, y1);
      PairwiseExchange(Transform(x0, p - 1), Transform(x1, p - 1), Transform(y0, p - 1), Transform(y1, p - 1));
    }
  }

  lemma PairwiseConcat(x0: seq<real>, x1: seq<real>, y0: seq<real>, y1: seq<real>)
    requires |x0| == |y0| && |x1| == |y1|
    ensures Sum(x0 + x1, y0 + y1) == Sum(x0, y0) + Sum(x1, y1)
    ensures Difference(x0 + x1, y0 + y1) == Difference(x0, y0) + Difference(x1, y1)
  {
  }

  /** The butterfly of a sum is the sum of the butterflies. */
  lemma PairwiseExchange(a: seq<real>, b: seq<real>, c: seq<real>, d: seq<real>)
    requires |a| == |b| == |c| == |d|
    ensures Sum(Sum(a, b) + Difference(a, b), Sum(c, d) + Difference(c, d))
         == Sum(Sum(a, c), Sum(b, d)) + Difference(Sum(a, c), Sum(b, d))
    ensures Difference(Sum(a, b) + Difference(a, b), Sum(c, d) + Difference(c, d))
         == Sum(Difference(a, c), Difference(b, d)) + Difference(Difference(a, c), Difference(b, d))
  {
    PairwiseConcat(Sum(a, b), Difference(a, b), Sum(c, d), Difference(c, d));
    Interchange(a, b, c, d);
  }

  lemma Interchange(a: seq<real>, b: seq<real>, c: seq<real>, d: seq<real>)
    requires |a| == |b| == |c| == |d|
    ensures Sum(Sum(a, b), Sum(c, d)) == Sum(Sum(a, c), Sum(b, d))
    ensures Sum(Difference(a, b), Difference(c, d)) == Difference(Sum(a, c), Sum(b, d))
    ensures Difference(Sum(a, b), Sum(c, d)) == Sum(Difference(a, c), Difference(b, d))
    ensures Difference(Difference(a, b), Difference(c, d)) == Difference(Difference(a, c), Difference(b, d))
  {
  }

  function Scaled(k: nat, s: seq<real>): (r: seq<real>)
    ensures |r| == |s|
  {
    seq(|s|, i requires 0 <= i < |s| => k as real * s[i])
  }

  /** Applying the transform twice multiplies by the width. */
  lemma {:induction false} TwiceScales(s: seq<real>, p: nat)
    requires |s| == Pow2(p)
    ensures Transform(Transform(s, p), p) == Scaled(Pow2(p), s)
    decreases p
  {
    if p > 0 {
      var s0, s1 := Halves(s, p);
      var x, y := Transform(s0, p - 1), Transform(s1, p - 1);
      TransformByHalves(s0, s1, p - 1);
      TransformByHalves(Sum(x, y), Difference(x, y), p - 1);
      TransformIsLinear(x, y, p - 1);
      TwiceScales(s0, p - 1);
      TwiceScales(s1, p - 1);
      assert Pow2(p) == 2 * Pow2(p - 1);
      hide Transform, Pow2, Sum, Difference, Scaled;
      SumOfBoth(Transform(x, p - 1), Transform(y, p - 1));
      DoubleScaled(Pow2(p - 1), s0, s1);
    }
  }

  lemma DoubleScaled(k: nat, s0: seq<real>, s1: seq<real>)
    ensures Sum(Scaled(k, s0), Scaled(k, s0)) + Sum(Scaled(k, s1), Scaled(k, s1)) == Scaled(2 * k, s0 + s1)
  {
    var l := Sum(Scaled(k, s0), Scaled(k, s0)) + Sum(Scaled(k, s1), Scaled(k, s1));
    forall i | 0 <= i < |s0 + s1| ensures l[i] == Scaled(2 * k, s0 + s1)[i] {
      assert (2 * k) as real == 2.0 * k as real;
      assert (s0 + s1)[i] == if i < |s0| then s0[i] else s1[i - |s0|];
    }
  }

  lemma SumOfBoth(x: seq<real>, y: seq<real>)
    requires |x| == |y|
    ensures Sum(Sum(x, y), Difference(x, y)) == Sum(x, x)
    ensures Difference(Sum(x, y), Difference(x, y)) == Sum(y, y)
  {
  }

  // --- The butterfly in place ---

  function Butterfly(s: seq<real>, j: nat, c: nat): real
    requires j > 0 && c < |s| && |s| % (2 * j) == 0
  {
    PairFits(|s|, j, c);
    if BitClear(c, j) then s[c] + s[c + j] else s[c - j] - s[c]
  }

  lemma PairFits(n: nat, j: nat, c: nat)
    requires j > 0 && c < n && n % (2 * j) == 0
    ensures if BitClear(c, j) then c + j < n else c >= j
  {
    if BitClear(c, j) {
      var o, i := BlockOf(c, 2 * j, n / (2 * j));
      if i >= j { InBlock(o, i - j, j); }
    } else {
      LowerPartner(c, j);
    }
  }

  function Phase(s: seq<real>, j: nat): (r: seq<real>)
    requires j > 0 && |s| % (2 * j) == 0
    ensures |r| == |s|
  {
    seq(|s|, c requires 0 <= c < |s| => Butterfly(s, j, c))
  }

  /** The kernel's base index is the thread's own id. */
  lemma BaseIsThread(tid: nat, p: nat)
    requires BitClear(tid, Pow2(p))
    ensures tid - And(tid, 2 * Pow2(p) - 1) + And(tid, Pow2(p) - 1) == tid
  {
    AndMask(tid, p + 1);
    AndMask(tid, p);
    ClearRemainder(tid, Pow2(p));
    assert Pow2(p + 1) == 2 * Pow2(p);
  }

  lemma ClearRemainder(c: nat, j: nat)
    requires j > 0 && BitClear(c, j)
    ensures c % (2 * j) == c % j
  {
    var q := (c / j) / 2;
    assert c == (2 * j) * q + c % j;
    DivideExact(c, 2 * j, q, c % j);
  }

  /** The array once every thread outside `todo` has run, in whatever order. */
  ghost predicate Ran(now: seq<real>, s: seq<real>, j: nat, todo: set<nat>)
    requires j > 0 && |s| % (2 * j) == 0
  {
    && |now| == |s|
    && forall c: nat :: c < |s| ==> now[c] == if Writer(c, j) in todo then s[c] else Butterfly(s, j, c)
  }

  function Thread(s: seq<real>, j: nat, tid: nat): (r: seq<real>)
    requires j > 0 && |s| % (2 * j) == 0 && tid < |s|
    ensures |r| == |s|
  {
    PairFits(|s|, j, tid);
    if BitClear(tid, j) then s[tid := s[tid] + s[tid + j]][tid + j := s[tid] - s[tid + j]] else s
  }

  /** Pairs of one phase are disjoint. */
  lemma ThreadStep(now: seq<real>, s: seq<real>, j: nat, todo: set<nat>, tid: nat)
    requires j > 0 && |s| % (2 * j) == 0 && Ran(now, s, j, todo) && tid in todo && tid < |s|
    ensures Ran(Thread(now, j, tid), s, j, todo - {tid})
  {
    hide BitClear, Writer;
    var next := Thread(now, j, tid);
    forall c: nat | c < |s|
      ensures next[c] == if Writer(c, j) in todo - {tid} then s[c] else Butterfly(s, j, c)
    {
      OnlyPairShares(tid, c, j);
      if BitClear(tid, j) {
        UpperPartner(tid, j);
        PairFits(|s|, j, tid);
        OnlyPairShares(tid, tid, j);
        OnlyPairShares(tid, tid + j, j);
      }
    }
  }

  method RunThread(vals: array<real>, p: nat, tid: nat)
    requires tid < vals.Length && vals.Length % (2 * Pow2(p)) == 0
    modifies vals
    ensures vals[..] == Thread(old(vals[..]), Pow2(p), tid)
  {
    hide And, BitClear, Pow2;
    var stride := Pow2(p);
    AndPow2(tid, p);
    if And(tid, stride) == 0 {
      BaseIsThread(tid, p);
      PairFits(vals.Length, stride, tid);
      var base := tid - And(tid, 2 * stride - 1) + And(tid, stride - 1);
      var a, b := vals[base], vals[base + stride];
      vals[base] := a + b;
      vals[base + stride] := a - b;
    }
  }

  method RunPhase(vals: array<real>, p: nat)
    requires vals.Length % (2 * Pow2(p)) == 0
    modifies vals
    ensures vals[..] == Phase(old(vals[..]), Pow2(p))
  {
    hide Butterfly, BitClear, Thread, Writer, Pow2;
    var todo := ThreadIds(vals.Length);
    ghost var s, j := vals[..], Pow2(p);
    while todo != {}
      invariant todo <= ThreadIds(vals.Length)
      invariant Ran(vals[..], s, j, todo)
    {
      var tid: nat :| tid in todo;
      ThreadStep(vals[..], s, j, todo, tid);
      RunThread(vals, p, tid);
      todo := todo - {tid};
    }
  }

  /** Every aligned block of 2^p holds the transform of what it held at the start. */
  ghost predicate BlocksTransformed(t: seq<real>, s: seq<real>, p: nat) {
    && |t| == |s|
    && forall o: nat :: o % Pow2(p) == 0 && o + Pow2(p) <= |s| ==>
         t[o..o + Pow2(p)] == Transform(s[o..o + Pow2(p)], p)
  }

  lemma PhaseOnPair(t: seq<real>, j: nat, o: nat, i: nat)
    requires i < j && |t| % (2 * j) == 0 && o % (2 * j) == 0 && o + 2 * j <= |t|
    ensures Phase(t, j)[o + i] == t[o + i] + t[o + j + i]
    ensures Phase(t, j)[o + j + i] == t[o + i] - t[o + j + i]
  {
    hide BitClear;
    InBlock(o, i, j);
  }

  lemma PhaseOnBlock(t: seq<real>, j: nat, o: nat)
    requires j > 0 && |t| % (2 * j) == 0 && o % (2 * j) == 0 && o + 2 * j <= |t|
    ensures Phase(t, j)[o..o + 2 * j] == Sum(t[o..o + j], t[o + j..o + 2 * j]) + Difference(t[o..o + j], t[o + j..o + 2 * j])
  {
    hide Phase;
    var x, y, u := t[o..o + j], t[o + j..o + 2 * j], Phase(t, j)[o..o + 2 * j];
    var r := Sum(x, y) + Difference(x, y);
    forall i | 0 <= i < 2 * j ensures u[i] == r[i] {
      PhaseOnPair(t, j, o, if i < j then i else i - j);
    }
  }

  lemma PhaseDoublesBlock(t: seq<real>, s: seq<real>, p: nat, j: nat, o: nat)
    requires j == Pow2(p) && |t| % (2 * j) == 0 && BlocksTransformed(t, s, p) && o % (2 * j) == 0 && o + 2 * j <= |s|
    ensures 2 * j == Pow2(p + 1)
    ensures Phase(t, j)[o..o + 2 * j] == Transform(s[o..o + 2 * j], p + 1)
  {
    hide Transform, Phase, Sum, Difference;
    PhaseOnBlock(t, j, o);
    AlignedHalves(o, j);
    var x, y := s[o..o + j], s[o + j..o + 2 * j];
    assert t[o..o + j] == Transform(x, p);
    assert t[o + j..o + j + j] == Transform(y, p);
    TransformByHalves(x, y, p);
    assert s[o..o + 2 * j] == x + y;
  }

  lemma PhaseDoublesBlocks(t: seq<real>, s: seq<real>, p: nat)
    requires |t| % (2 * Pow2(p)) == 0 && BlocksTransformed(t, s, p)
    ensures BlocksTransformed(Phase(t, Pow2(p)), s, p + 1)
  {
    PowNext(p);
    var j, w := Pow2(p), Pow2(p + 1);
    forall o: nat | o % w == 0 && o + w <= |s| ensures Phase(t, j)[o..o + w] == Transform(s[o..o + w], p + 1) {
      hide *;
      PhaseDoublesBlock(t, s, p, j, o);
    }
  }

  lemma PowNext(p: nat)
    ensures Pow2(p + 1) == 2 * Pow2(p)
  {
  }

  lemma AlignedHalves(o: nat, j: nat)
    requires j > 0 && o % (2 * j) == 0
    ensures o % j == 0 && (o + j) % j == 0
  {
    var b := o / (2 * j);
    assert o == j * (2 * b) && o + j == j * (2 * b + 1);
    DivideExact(o, j, 2 * b, 0);
    DivideExact(o + j, j, 2 * b + 1, 0);
  }

  lemma StartOfBlocks(s: seq<real>)
    ensures BlocksTransformed(s, s, 0)
  {
  }

  lemma WholeBlock(t: seq<real>, s: seq<real>, m: nat)
    requires |s| == Pow2(m) && BlocksTransformed(t, s, m)
    ensures t == Transform(s, m)
  {
    var w := Pow2(m);
    hide Pow2, Transform;
    assert t[0..w] == t && s[0..w] == s;
    assert 0 % w == 0 && 0 + w <= |s|;
  }

  lemma StrideDivides(n: nat, p: nat, m: nat)
    requires n == Pow2(m) && Pow2(p) < n
    ensures p < m && n % (2 * Pow2(p)) == 0
  {
    if p >= m { Pow2Monotone(m, p); }
    Pow2Add(p + 1, m - p - 1);
    DivideExact(n, 2 * Pow2(p), Pow2(m - p - 1), 0);
  }

  /** The kernel's loop over strides, for any power-of-two width. */
  method Rotate(vals: array<real>, ghost m: nat)
    requires vals.Length == Pow2(m)
    modifies vals
    ensures vals[..] == Transform(old(vals[..]), m)
  {
    hide BlocksTransformed, Transform, Phase;
    ghost var s := vals[..];
    var stride, p := 1, 0;
    StartOfBlocks(s);
    while stride < vals.Length
      invariant p <= m && stride == Pow2(p)
      invariant BlocksTransformed(vals[..], s, p)
      decreases m - p
    {
      StrideDivides(vals.Length, p, m);
      PhaseDoublesBlocks(vals[..], s, p);
      RunPhase(vals, p);
      stride, p := 2 * stride, p + 1;
    }
    if p < m { Pow2Monotone(p, m); }
    WholeBlock(vals[..], s, m);
  }

  /** The width the indexer uses. */
  method Rotate128(vals: array<real>)
    requires vals.Length == 128
    modifies vals
    ensures forall i: nat :: i < 128 ==> vals[i] == SignedSum(i, old(vals[..]), 128)
  {
    hide SignedSum, Transform;
    ghost var s := vals[..];
    assert Pow2(7) == 128;
    Rotate(vals, 7);
    forall i: nat | i < 128 ensures vals[i] == SignedSum(i, s, 128) {
      TransformIsSignedSum(s, 7, i);
      assert vals[i] == vals[..][i];
    }
  }
}
