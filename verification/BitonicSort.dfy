/** The bitonic compare-exchange network that the sort kernels run in place in
    threadgroup memory, for any width and any comparison, and the proof that it sorts
    when the width is a power of two. */
module BitonicSort {
  import opened Bits
  import opened Threads
  import opened Blocks

  /** `flip(x, y, up)`: does the thread that sees `x` below `y` swap them? */
  type Flip<!T> = (T, T, bool) -> bool

  ghost predicate TotalPreorder<T(!new)>(le: (T, T) -> bool) {
    && (forall x, y :: le(x, y) || le(y, x))
    && (forall x, y, z :: le(x, y) && le(y, z) ==> le(x, z))
  }

  ghost predicate InOrder<T>(le: (T, T) -> bool, x: T, y: T, up: bool) {
    if up then le(x, y) else le(y, x)
  }

  /** The comparison leaves every pair in the requested order. */
  ghost predicate Orders<T(!new)>(flip: Flip<T>, le: (T, T) -> bool) {
    forall x, y, up ::
      if flip(x, y, up) then InOrder(le, y, x, up) else InOrder(le, x, y, up)
  }

  ghost predicate SortedBy<T>(s: seq<T>, le: (T, T) -> bool) {
    forall a, b :: 0 <= a < b < |s| ==> le(s[a], s[b])
  }

  // --- The network as a function ---

  /** What position `c` holds after the phase (k, j). */
  function Exchanged<T>(s: seq<T>, flip: Flip<T>, k: nat, j: nat, c: nat): T
    requires k > 0 && j > 0 && c < |s|
  {
    if BitClear(c, j) then
      if c + j < |s| && flip(s[c], s[c + j], BitClear(c, k)) then s[c + j] else s[c]
    else
      LowerPartner(c, j);
      if flip(s[c - j], s[c], BitClear(c - j, k)) then s[c - j] else s[c]
  }

  function Phase<T>(s: seq<T>, flip: Flip<T>, k: nat, j: nat): (r: seq<T>)
    requires k > 0 && j > 0
    ensures |r| == |s|
  {
    seq(|s|, c requires 0 <= c < |s| => Exchanged(s, flip, k, j, c))
  }

  /** The phases j = 2^(p-1), ..., 2, 1 of stage k. */
  function Cascade<T>(s: seq<T>, flip: Flip<T>, k: nat, p: nat): (r: seq<T>)
    requires k > 0
    ensures |r| == |s|
    decreases p
  {
    if p == 0 then s else Cascade(Phase(s, flip, k, Pow2(p - 1)), flip, k, p - 1)
  }

  /** The stages k = 2^q, 2^(q+1), ... up to the width. */
  function Stages<T>(s: seq<T>, flip: Flip<T>, q: nat): (r: seq<T>)
    ensures |r| == |s|
    decreases |s| - Pow2(q)
  {
    if Pow2(q) > |s| then s
    else Stages(Cascade(s, flip, Pow2(q), q), flip, q + 1)
  }

  function Network<T>(s: seq<T>, flip: Flip<T>): (r: seq<T>)
    ensures |r| == |s|
  {
    Stages(s, flip, 1)
  }

  // --- The network in place ---

  /** What one thread does to the shared array. */
  function Thread<T>(s: seq<T>, flip: Flip<T>, k: nat, j: nat, col: nat): (r: seq<T>)
    requires k > 0 && j > 0 && col < |s|
    ensures |r| == |s|
  {
    if BitClear(col, j) && col + j < |s| && flip(s[col], s[col + j], BitClear(col, k))
    then s[col := s[col + j]][col + j := s[col]]
    else s
  }

  /** The array once every thread outside `todo` has run, in whatever order. */
  ghost predicate Ran<T>(now: seq<T>, s: seq<T>, flip: Flip<T>, k: nat, j: nat, todo: set<nat>)
    requires k > 0 && j > 0
  {
    && |now| == |s|
    && forall c: nat :: c < |s| ==> now[c] == if Writer(c, j) in todo then s[c] else Exchanged(s, flip, k, j, c)
  }

  /** Threads of one phase do not disturb each other. */
  lemma ThreadStep<T>(now: seq<T>, s: seq<T>, flip: Flip<T>, k: nat, j: nat, todo: set<nat>, col: nat)
    requires k > 0 && j > 0 && Ran(now, s, flip, k, j, todo) && col in todo && col < |s|
    ensures Ran(Thread(now, flip, k, j, col), s, flip, k, j, todo - {col})
  {
    hide BitClear, Writer;
    var next := Thread(now, flip, k, j, col);
    forall c: nat | c < |s|
      ensures next[c] == if Writer(c, j) in todo - {col} then s[c] else Exchanged(s, flip, k, j, c)
    {
      OnlyPairShares(col, c, j);
      if BitClear(col, j) {
        UpperPartner(col, j);
        OnlyPairShares(col, col, j);
        OnlyPairShares(col, col + j, j);
      }
    }
  }

  lemma ThreadPermutes<T>(s: seq<T>, flip: Flip<T>, k: nat, j: nat, col: nat)
    requires k > 0 && j > 0 && col < |s|
    ensures multiset(Thread(s, flip, k, j, col)) == multiset(s)
  {
    hide BitClear;
  }

  method RunThread<T>(a: array<T>, flip: Flip<T>, q: nat, p: nat, col: nat)
    requires col < a.Length
    modifies a
    ensures a[..] == Thread(old(a[..]), flip, Pow2(q), Pow2(p), col)
  {
    hide BitClear, Xor, And, Pow2;
    var other := Xor(col, Pow2(p));
    XorPow2(col, p);
    AndPow2(col, q);
    if other > col && other < a.Length && flip(a[col], a[other], And(col, Pow2(q)) == 0) {
      a[col], a[other] := a[other], a[col];
    }
  }

  /** One barrier-to-barrier phase. The threads run in any order: the next one is any
      that has not run yet. */
  method RunPhase<T>(a: array<T>, flip: Flip<T>, q: nat, p: nat)
    modifies a
    ensures a[..] == Phase(old(a[..]), flip, Pow2(q), Pow2(p))
  {
    hide Exchanged, BitClear, Pow2, Thread, Writer;
    var todo := ThreadIds(a.Length);
    ghost var s, k, j := a[..], Pow2(q), Pow2(p);
    while todo != {}
      invariant todo <= ThreadIds(a.Length)
      invariant Ran(a[..], s, flip, k, j, todo)
    {
      var col: nat :| col in todo;
      ThreadStep(a[..], s, flip, k, j, todo, col);
      RunThread(a, flip, q, p, col);
      todo := todo - {col};
    }
  }

  /** The kernels' doubly nested loop over `k` and `j`. */
  method RunNetwork<T>(a: array<T>, flip: Flip<T>)
    modifies a
    ensures a[..] == Network(old(a[..]), flip)
  {
    hide Phase;
    var k, q := 2, 1;
    ghost var goal := Network(a[..], flip);
    while k <= a.Length
      invariant k == Pow2(q) && q >= 1
      invariant goal == Stages(a[..], flip, q)
      decreases a.Length - k
    {
      var j, p := k / 2, q;
      ghost var stage := Cascade(a[..], flip, k, q);
      while j > 0
        invariant 0 <= p <= q && j == Pow2(p) / 2
        invariant stage == Cascade(a[..], flip, k, p)
          decreases p
      {
        p := p - 1;
        RunPhase(a, flip, q, p);
        j := j / 2;
      }
      k, q := 2 * k, q + 1;
    }
  }

  // --- Permutation ---

  lemma {:induction false} ThreadsPermute<T>(now: seq<T>, s: seq<T>, flip: Flip<T>, k: nat, j: nat, n: nat)
    requires k > 0 && j > 0 && n <= |s| && Ran(now, s, flip, k, j, ThreadIds(n))
    ensures multiset(Phase(s, flip, k, j)) == multiset(now)
    decreases n
  {
    hide BitClear, Writer, Thread, Exchanged;
    if n == 0 {
      assert now == Phase(s, flip, k, j);
    } else {
      ThreadStep(now, s, flip, k, j, ThreadIds(n), n - 1);
      ThreadPermutes(now, flip, k, j, n - 1);
      assert ThreadIds(n) - {n - 1} == ThreadIds(n - 1);
      ThreadsPermute(Thread(now, flip, k, j, n - 1), s, flip, k, j, n - 1);
    }
  }

  lemma {:induction false} CascadePermutes<T>(s: seq<T>, flip: Flip<T>, k: nat, p: nat)
    requires k > 0
    ensures multiset(Cascade(s, flip, k, p)) == multiset(s)
    decreases p
  {
    hide Phase, Exchanged;
    if p > 0 {
      var j := Pow2(p - 1);
      assert Ran(s, s, flip, k, j, ThreadIds(|s|)) by { hide Pow2; }
      ThreadsPermute(s, s, flip, k, j, |s|);
      CascadePermutes(Phase(s, flip, k, j), flip, k, p - 1);
    }
  }

  lemma {:induction false} StagesPermute<T>(s: seq<T>, flip: Flip<T>, q: nat)
    ensures multiset(Stages(s, flip, q)) == multiset(s)
    decreases |s| - Pow2(q)
  {
    hide Cascade;
    if Pow2(q) <= |s| {
      CascadePermutes(s, flip, Pow2(q), q);
      StagesPermute(Cascade(s, flip, Pow2(q), q), flip, q + 1);
    }
  }

  /** The network only rearranges, whatever the width and the comparison. */
  lemma NetworkPermutes<T>(s: seq<T>, flip: Flip<T>)
    ensures multiset(Network(s, flip)) == multiset(s)
  {
    StagesPermute(s, flip, 1);
  }

  // --- Booleans suffice ---

  /** Compare-exchange of bits: false before true when `up`. */
  function BitFlip(): Flip<bool> {
    (x, y, up) => if up then x && !y else !x && y
  }

  function Marks<T>(s: seq<T>, one: T -> bool): (r: seq<bool>)
    ensures |r| == |s|
  {
    seq(|s|, c requires 0 <= c < |s| => one(s[c]))
  }

  ghost predicate Monotone<T(!new)>(one: T -> bool, le: (T, T) -> bool) {
    forall x, y :: le(x, y) && one(x) ==> one(y)
  }

  lemma MarksOfPhase<T(!new)>(s: seq<T>, flip: Flip<T>, le: (T, T) -> bool, one: T -> bool, k: nat, j: nat)
    requires k > 0 && j > 0 && Orders(flip, le) && Monotone(one, le)
    ensures Marks(Phase(s, flip, k, j), one) == Phase(Marks(s, one), BitFlip(), k, j)
  {
    hide BitClear;
    forall c | 0 <= c < |s|
      ensures Marks(Phase(s, flip, k, j), one)[c] == Exchanged(Marks(s, one), BitFlip(), k, j, c)
    {
      if !BitClear(c, j) { LowerPartner(c, j); }
    }
  }

  lemma {:induction false} MarksOfCascade<T(!new)>(s: seq<T>, flip: Flip<T>, le: (T, T) -> bool, one: T -> bool, k: nat, p: nat)
    requires k > 0 && Orders(flip, le) && Monotone(one, le)
    ensures Marks(Cascade(s, flip, k, p), one) == Cascade(Marks(s, one), BitFlip(), k, p)
    decreases p
  {
    hide Phase, Marks, Orders, Monotone;
    if p > 0 {
      MarksOfPhase(s, flip, le, one, k, Pow2(p - 1));
      MarksOfCascade(Phase(s, flip, k, Pow2(p - 1)), flip, le, one, k, p - 1);
    }
  }

  lemma {:induction false} MarksOfStages<T(!new)>(s: seq<T>, flip: Flip<T>, le: (T, T) -> bool, one: T -> bool, q: nat)
    requires Orders(flip, le) && Monotone(one, le)
    ensures Marks(Stages(s, flip, q), one) == Stages(Marks(s, one), BitFlip(), q)
    decreases |s| - Pow2(q)
  {
    hide Cascade, Marks, Orders, Monotone;
    if Pow2(q) <= |s| {
      MarksOfCascade(s, flip, le, one, Pow2(q), q);
      MarksOfStages(Cascade(s, flip, Pow2(q), q), flip, le, one, q + 1);
    }
  }

  // --- The network on bits ---

  /** `x` is `v` exactly on the run [a, b). */
  ghost predicate IsRun(x: seq<bool>, v: bool, a: nat, b: nat) {
    && a <= b <= |x|
    && forall i :: 0 <= i < |x| ==> x[i] == if a <= i < b then v else !v
  }

  ghost predicate Bitonic(x: seq<bool>) {
    exists v, a, b :: IsRun(x, v, a, b)
  }

  ghost predicate Ord(x: bool, y: bool, up: bool) {
    if up then x ==> y else y ==> x
  }

  /** (lo1, hi1) is (lo, hi) after one round of compare-exchange between the two. */
  ghost predicate HalfCleaned(lo: seq<bool>, hi: seq<bool>, lo1: seq<bool>, hi1: seq<bool>, up: bool) {
    && |lo| == |hi| == |lo1| == |hi1|
    && (forall i :: 0 <= i < |lo| ==> lo1[i] == if up then lo[i] && hi[i] else lo[i] || hi[i])
    && (forall i :: 0 <= i < |lo| ==> hi1[i] == if up then lo[i] || hi[i] else lo[i] && hi[i])
  }

  ghost predicate BothAre(v: bool, lo: seq<bool>, hi: seq<bool>, both: seq<bool>) {
    && |lo| == |hi| == |both|
    && forall i :: 0 <= i < |lo| ==> both[i] == (lo[i] == v && hi[i] == v)
  }

  ghost predicate EitherIs(v: bool, lo: seq<bool>, hi: seq<bool>, either: seq<bool>) {
    && |lo| == |hi| == |either|
    && forall i :: 0 <= i < |lo| ==> either[i] == (lo[i] == v || hi[i] == v)
  }

  ghost predicate All(x: seq<bool>, v: bool) {
    forall i :: 0 <= i < |x| ==> x[i] == v
  }

  lemma HalvesOfRun(lo: seq<bool>, hi: seq<bool>, v: bool, a: nat, b: nat)
    requires |lo| == |hi| && IsRun(lo + hi, v, a, b)
    ensures forall i :: 0 <= i < |lo| ==> lo[i] == if a <= i < b then v else !v
    ensures forall i :: 0 <= i < |hi| ==> hi[i] == if a <= |lo| + i < b then v else !v
  {
    forall i | 0 <= i < |lo|
      ensures lo[i] == if a <= i < b then v else !v
      ensures hi[i] == if a <= |lo| + i < b then v else !v
    {
      assert lo[i] == (lo + hi)[i] && hi[i] == (lo + hi)[|lo| + i];
    }
  }

  lemma BothAndEither(lo: seq<bool>, hi: seq<bool>, v: bool, a: nat, b: nat, both: seq<bool>, either: seq<bool>)
    requires BothAre(v, lo, hi, both) && EitherIs(v, lo, hi, either) && IsRun(lo + hi, v, a, b)
    ensures Bitonic(both) && Bitonic(either)
    ensures All(both, false) || All(either, true)
  {
    var m := |lo|;
    HalvesOfRun(lo, hi, v, a, b);
    if a < m && a + m < b { assert IsRun(both, true, a, b - m); } else { assert IsRun(both, true, 0, 0); }
    if b <= m { assert IsRun(either, true, a, b); }
    else if a >= m { assert IsRun(either, true, a - m, b - m); }
    else if b - m <= a { assert IsRun(either, false, b - m, a); }
    else { assert IsRun(either, true, 0, m); }
  }

  lemma Combined(lo: seq<bool>, hi: seq<bool>) returns (v: bool, both: seq<bool>, either: seq<bool>)
    requires |lo| == |hi| && Bitonic(lo + hi)
    ensures BothAre(v, lo, hi, both) && EitherIs(v, lo, hi, either)
    ensures Bitonic(both) && Bitonic(either)
    ensures All(both, false) || All(either, true)
  {
    var a, b;
    v, a, b :| IsRun(lo + hi, v, a, b);
    both := seq(|lo|, i requires 0 <= i < |lo| => lo[i] == v && hi[i] == v);
    either := seq(|lo|, i requires 0 <= i < |lo| => lo[i] == v || hi[i] == v);
    BothAndEither(lo, hi, v, a, b, both, either);
  }

  lemma NegatedBitonic(x: seq<bool>, y: seq<bool>)
    requires |x| == |y| && Bitonic(x) && forall i :: 0 <= i < |x| ==> y[i] == !x[i]
    ensures Bitonic(y)
  {
    var v, a, b :| IsRun(x, v, a, b);
    assert IsRun(y, !v, a, b);
  }

  /** Batcher's half cleaner: both halves of a bitonic sequence come out bitonic, and no
      bit of the first half is out of order with any bit of the second. */
  lemma HalfCleaner(lo: seq<bool>, hi: seq<bool>, lo1: seq<bool>, hi1: seq<bool>, up: bool)
    requires HalfCleaned(lo, hi, lo1, hi1, up) && Bitonic(lo + hi)
    ensures Bitonic(lo1) && Bitonic(hi1)
    ensures forall i, i' :: 0 <= i < |lo1| && 0 <= i' < |hi1| ==> Ord(lo1[i], hi1[i'], up)
  {
    hide Bitonic;
    var v, both, either := Combined(lo, hi);
    var x, y := if v == up then both else either, if v == up then either else both;
    assert forall i :: 0 <= i < |lo| ==> lo1[i] == (x[i] == v);
    assert forall i :: 0 <= i < |lo| ==> hi1[i] == (y[i] == v);
    if v { assert lo1 == x && hi1 == y; } else { NegatedBitonic(x, lo1); NegatedBitonic(y, hi1); }
  }

  // --- Blocks ---

  ghost predicate BlocksBitonic(s: seq<bool>, j: nat)
    requires j > 0
  {
    forall o: nat :: o % j == 0 && o + j <= |s| ==> Bitonic(s[o..o + j])
  }

  /** Within a block of `k`, different blocks of `j` are already in order. */
  ghost predicate BlocksOrdered(s: seq<bool>, k: nat, j: nat)
    requires k > 0 && j > 0
  {
    forall c: nat, d: nat :: c < d < |s| && c / k == d / k && c / j != d / j ==> Ord(s[c], s[d], BitClear(c, k))
  }

  /** Every block of `k` is sorted, in alternating directions. */
  ghost predicate BlocksSorted(s: seq<bool>, k: nat)
    requires k > 0
  {
    forall c: nat, d: nat :: c < d < |s| && c / k == d / k ==> Ord(s[c], s[d], BitClear(c, k))
  }

  lemma PhaseOnBlock(s: seq<bool>, k: nat, j: nat, w: nat, o: nat)
    requires j > 0 && w > 0 && k == 2 * j * w && o % (2 * j) == 0 && o + 2 * j <= |s| && Bitonic(s[o..o + 2 * j])
    ensures k > 0
    ensures var t := Phase(s, BitFlip(), k, j);
            && Bitonic(t[o..o + j]) && Bitonic(t[o + j..o + 2 * j])
            && forall c, d :: o <= c < o + j && o + j <= d < o + 2 * j ==> Ord(t[c], t[d], BitClear(o, k))
  {
    hide Bitonic, BitClear;
    DivideTwice(o, 2 * j, w);
    var t, up := Phase(s, BitFlip(), k, j), BitClear(o, k);
    var lo, hi, lo1, hi1 := s[o..o + j], s[o + j..o + 2 * j], t[o..o + j], t[o + j..o + 2 * j];
    forall i | 0 <= i < j
      ensures lo1[i] == if up then lo[i] && hi[i] else lo[i] || hi[i]
      ensures hi1[i] == if up then lo[i] || hi[i] else lo[i] && hi[i]
    {
      PairInBlock(s, k, j, w, o, i);
    }
    assert s[o..o + 2 * j] == lo + hi;
    HalfCleaner(lo, hi, lo1, hi1, up);
    forall c, d | o <= c < o + j && o + j <= d < o + 2 * j ensures Ord(t[c], t[d], up) {
      assert t[c] == lo1[c - o] && t[d] == hi1[d - (o + j)];
    }
  }

  lemma PairInBlock(s: seq<bool>, k: nat, j: nat, w: nat, o: nat, i: nat)
    requires i < j && w > 0 && k == 2 * j * w && o % (2 * j) == 0 && o + 2 * j <= |s|
    ensures k > 0
    ensures var t, up := Phase(s, BitFlip(), k, j), BitClear(o, k);
            && t[o + i] == (if up then s[o + i] && s[o + j + i] else s[o + i] || s[o + j + i])
            && t[o + j + i] == (if up then s[o + i] || s[o + j + i] else s[o + i] && s[o + j + i])
  {
    InBlock(o, i, j);
    DivideTwice(o, 2 * j, w);
    DivideTwice(o + i, 2 * j, w);
    assert BitClear(o + i, k) == BitClear(o, k);
  }

  /** A position's half of its block of `2 * j`, before and after the phase. */
  lemma SourceOf(s: seq<bool>, k: nat, j: nat, w: nat, c: nat) returns (d: nat)
    requires j > 0 && w > 0 && k == 2 * j * w && k > 0 && |s| % k == 0 && c < |s|
    ensures d < |s| && Phase(s, BitFlip(), k, j)[c] == s[d]
    ensures d / (2 * j) == c / (2 * j) && d / k == c / k
  {
    hide Phase, BitClear;
    var o, i := BlockIn(|s|, k, j, w, c);
    var i' := if i < j then i else i - j;
    PairInBlock(s, k, j, w, o, i');
    d := if Phase(s, BitFlip(), k, j)[c] == s[o + i'] then o + i' else o + j + i';
    SameBlock(o, i', j, k, w);
  }

  /** The block of `2 * j` positions that holds position `c` of `n`. */
  lemma BlockIn(n: nat, k: nat, j: nat, w: nat, c: nat) returns (o: nat, i: nat)
    requires j > 0 && w > 0 && k == 2 * j * w && k > 0 && n % k == 0 && c < n
    ensures c == o + i && i < 2 * j && o % (2 * j) == 0 && o + 2 * j <= n
  {
    var m := n / k;
    MulNonneg(w, m);
    assert n == k * m == (2 * j) * (w * m);
    o, i := BlockOf(c, 2 * j, w * m);
  }

  lemma SameBlock(o: nat, i: nat, j: nat, k: nat, w: nat)
    requires i < j && w > 0 && k == 2 * j * w && k > 0 && o % (2 * j) == 0
    ensures (o + i) / (2 * j) == (o + j + i) / (2 * j) && (o + i) / k == (o + j + i) / k
  {
    InBlock(o, i, j);
    DivideTwice(o + i, 2 * j, w);
    DivideTwice(o + j + i, 2 * j, w);
  }

  lemma PhaseKeepsOrder(s: seq<bool>, k: nat, j: nat, w: nat, c: nat, d: nat)
    requires j > 0 && w > 0 && k == 2 * j * w && k > 0 && |s| % k == 0 && c < d < |s|
    requires BlocksOrdered(s, k, 2 * j) && c / k == d / k && c / (2 * j) != d / (2 * j)
    ensures Ord(Phase(s, BitFlip(), k, j)[c], Phase(s, BitFlip(), k, j)[d], BitClear(c, k))
  {
    hide Phase;
    var c1 := SourceOf(s, k, j, w, c);
    var d1 := SourceOf(s, k, j, w, d);
    QuotientMonotone(c, d, 2 * j);
    if d1 <= c1 { QuotientMonotone(d1, c1, 2 * j); }
    assert Ord(s[c1], s[d1], BitClear(c1, k));
  }

  /** Blocks at the start of a phase of stage `k` that compares at distance `j / 2`. */
  ghost predicate Mid(s: seq<bool>, k: nat, j: nat)
    requires k > 0 && j > 0
  {
    BlocksBitonic(s, j) && BlocksOrdered(s, k, j)
  }

  lemma HalfBlock(o: nat, j: nat, w: nat) returns (b: nat)
    requires j > 0 && o % j == 0 && o + j <= 2 * j * w
    ensures b % (2 * j) == 0 && b + 2 * j <= 2 * j * w && (o == b || o == b + j)
  {
    var i;
    b, i := BlockOf(o, 2 * j, w);
    if i < j { InBlock(b, i, j); } else { InBlock(b, i - j, j); }
    assert o == j * (o / j);
    assert b == 2 * j * (b / (2 * j));
  }

  lemma PhaseHalvesBlocks(s: seq<bool>, k: nat, j: nat, w: nat)
    requires j > 0 && w > 0 && k == 2 * j * w && |s| % k == 0 && BlocksBitonic(s, 2 * j)
    ensures k > 0 && BlocksBitonic(Phase(s, BitFlip(), k, j), j)
  {
    hide Phase, Bitonic;
    var t, n := Phase(s, BitFlip(), k, j), |s| / k;
    MulNonneg(w, n);
    assert |s| == k * n == 2 * j * (w * n);
    forall o: nat | o % j == 0 && o + j <= |t| ensures Bitonic(t[o..o + j]) {
      var b := HalfBlock(o, j, w * n);
      PhaseOnBlock(s, k, j, w, b);
    }
  }

  lemma PhaseOrdersHalves(s: seq<bool>, k: nat, j: nat, w: nat, c: nat, d: nat)
    requires j > 0 && w > 0 && k == 2 * j * w && |s| % k == 0 && BlocksBitonic(s, 2 * j)
    requires k > 0 && c < d < |s| && c / (2 * j) == d / (2 * j) && c / j != d / j
    ensures Ord(Phase(s, BitFlip(), k, j)[c], Phase(s, BitFlip(), k, j)[d], BitClear(c, k))
  {
    hide Phase, Bitonic;
    var n := |s| / k;
    MulNonneg(w, n);
    assert |s| == k * n == 2 * j * (w * n);
    var o, i := BlockOf(c, 2 * j, w * n);
    SplitAtMiddle(o, c, d, j);
    PhaseOnBlock(s, k, j, w, o);
    DivideTwice(o, 2 * j, w);
    DivideTwice(c, 2 * j, w);
  }

  lemma SplitAtMiddle(o: nat, c: nat, d: nat, j: nat)
    requires j > 0 && o % (2 * j) == 0 && o <= c < d && c / (2 * j) == o / (2 * j) == d / (2 * j) && c / j != d / j
    ensures c < o + j && o + j <= d < o + 2 * j
  {
    var b := o / (2 * j);
    assert o == 2 * j * b && c == 2 * j * b + c % (2 * j) && d == 2 * j * b + d % (2 * j);
    if d - o < j { InBlock(o, d - o, j); InBlock(o, c - o, j); }
    else if c - o >= j { InBlock(o, d - o - j, j); InBlock(o, c - o - j, j); }
  }

  /** One phase refines the blocks: this is what the inner loop of a stage keeps. */
  lemma PhaseRefinesBlocks(s: seq<bool>, k: nat, j: nat, w: nat)
    requires j > 0 && w > 0 && k == 2 * j * w && |s| % k == 0 && Mid(s, k, 2 * j)
    ensures k > 0 && Mid(Phase(s, BitFlip(), k, j), k, j)
  {
    hide Phase, BlocksBitonic, Ord;
    var t := Phase(s, BitFlip(), k, j);
    PhaseHalvesBlocks(s, k, j, w);
    forall c: nat, d: nat | c < d < |t| && c / k == d / k && c / j != d / j
      ensures Ord(t[c], t[d], BitClear(c, k))
    {
      if c / (2 * j) == d / (2 * j) { PhaseOrdersHalves(s, k, j, w, c, d); } else { PhaseKeepsOrder(s, k, j, w, c, d); }
    }
  }

  lemma {:induction false} CascadeSortsBlocks(s: seq<bool>, q: nat, p: nat)
    requires p <= q && |s| % Pow2(q) == 0 && Mid(s, Pow2(q), Pow2(p))
    ensures BlocksSorted(Cascade(s, BitFlip(), Pow2(q), p), Pow2(q))
    decreases p
  {
    hide Phase, BlocksBitonic, Ord;
    if p > 0 {
      Pow2Add(p, q - p);
      PhaseRefinesBlocks(s, Pow2(q), Pow2(p - 1), Pow2(q - p));
      CascadeSortsBlocks(Phase(s, BitFlip(), Pow2(q), Pow2(p - 1)), q, p - 1);
    }
  }

  ghost predicate Rises(x: seq<bool>, up: bool) {
    forall i, i' :: 0 <= i < i' < |x| ==> Ord(x[i], x[i'], up)
  }

  /** Two blocks sorted in opposite directions are one bitonic block. */
  lemma SortedHalvesAreBitonic(lo: seq<bool>, hi: seq<bool>)
    requires |lo| == |hi| && Rises(lo, true) && Rises(hi, false)
    ensures Bitonic(lo + hi)
  {
    var no := seq(|hi|, i requires 0 <= i < |hi| => !hi[i]);
    var a := FirstTrue(lo);
    var b := FirstTrue(no);
    forall i | 0 <= i < |lo + hi| ensures (lo + hi)[i] == (a <= i < |lo| + b) {
      if i >= |lo| { assert no[i - |lo|] <==> b <= i - |lo|; }
    }
    assert IsRun(lo + hi, true, a, |lo| + b);
  }

  lemma {:induction false} FirstTrue(x: seq<bool>) returns (a: nat)
    requires Rises(x, true)
    ensures a <= |x| && forall i :: 0 <= i < |x| ==> (x[i] <==> a <= i)
  {
    if x == [] || !x[|x| - 1] { a := |x|; } else { a := FirstTrue(x[..|x| - 1]); }
  }

  lemma StageStarts(s: seq<bool>, k: nat)
    requires k > 0 && BlocksSorted(s, k)
    ensures Mid(s, 2 * k, 2 * k)
  {
    hide Bitonic, BitClear, Rises;
    forall o: nat | o % (2 * k) == 0 && o + 2 * k <= |s| ensures Bitonic(s[o..o + 2 * k]) {
      var lo, hi := s[o..o + k], s[o + k..o + 2 * k];
      HalfSorted(s, k, o, o, true);
      HalfSorted(s, k, o, o + k, false);
      SortedHalvesAreBitonic(lo, hi);
      assert s[o..o + 2 * k] == lo + hi;
    }
  }

  lemma HalfSorted(s: seq<bool>, k: nat, o: nat, b: nat, up: bool)
    requires k > 0 && BlocksSorted(s, k) && o % (2 * k) == 0 && o + 2 * k <= |s|
    requires b == if up then o else o + k
    ensures Rises(s[b..b + k], up)
  {
    hide BitClear;
    var x := s[b..b + k];
    forall i, i' | 0 <= i < i' < k ensures Ord(x[i], x[i'], up) {
      InBlock(o, i, k);
      InBlock(o, i', k);
      assert Ord(s[b + i], s[b + i'], BitClear(b + i, k));
    }
  }

  lemma {:induction false} StagesSort(s: seq<bool>, m: nat, q: nat)
    requires 1 <= q <= m + 1 && |s| == Pow2(m) && BlocksSorted(s, Pow2(q - 1))
    ensures BlocksSorted(Stages(s, BitFlip(), q), Pow2(m))
    decreases m + 1 - q
  {
    hide BlocksSorted, Cascade, Mid;
    if q <= m {
      Pow2Monotone(q, m);
      Pow2Add(q, m - q);
      DivideExact(|s|, Pow2(q), Pow2(m - q), 0);
      StageStarts(s, Pow2(q - 1));
      CascadeSortsBlocks(s, q, q);
      StagesSort(Cascade(s, BitFlip(), Pow2(q), q), m, q + 1);
    } else {
      Pow2Monotone(m, q);
    }
  }

  lemma BitsSorted(s: seq<bool>, m: nat)
    requires |s| == Pow2(m)
    ensures Rises(Network(s, BitFlip()), true)
  {
    hide Stages, BlocksSorted;
    assert BlocksSorted(s, 1) by { OneBlocksSorted(s); }
    StagesSort(s, m, 1);
    OneBlock(Network(s, BitFlip()));
  }

  lemma OneBlocksSorted(s: seq<bool>)
    ensures BlocksSorted(s, 1)
  {
    forall c: nat, d: nat | c < d < |s| ensures c / 1 != d / 1 { }
  }

  lemma OneBlock(t: seq<bool>)
    requires |t| > 0 && BlocksSorted(t, |t|)
    ensures Rises(t, true)
  {
    forall c, d | 0 <= c < d < |t| ensures Ord(t[c], t[d], true) {
      DivideExact(c, |t|, 0, c);
      DivideExact(d, |t|, 0, d);
      assert Ord(t[c], t[d], BitClear(c, |t|));
    }
  }

  // --- The theorem ---

  /** For a power-of-two width the network sorts, whatever the keys and their order. */
  lemma NetworkSorts<T(!new)>(s: seq<T>, flip: Flip<T>, le: (T, T) -> bool)
    requires IsPow2(|s|) && TotalPreorder(le) && Orders(flip, le)
    ensures SortedBy(Network(s, flip), le)
  {
    hide Stages, Orders;
    var m: nat :| |s| == Pow2(m);
    var t := Network(s, flip);
    forall a, b | 0 <= a < b < |t| ensures le(t[a], t[b]) {
      var v := t[b];
      var one := x => !le(x, v);
      MarksOfStages(s, flip, le, one, 1);
      BitsSorted(Marks(s, one), m);
      assert Network(Marks(s, one), BitFlip()) == Marks(t, one);
      assert Ord(Marks(t, one)[a], Marks(t, one)[b], true);
    }
  }
}
