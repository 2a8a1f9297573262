/** The three kernels built on the bitonic network: the block argsort, the router's
    choice of experts, and the ascending sort of selected rows. Scores are reals, that is,
    rows without NaN. */
module SortKernels {
  import opened Bits
  import opened Blocks
  import opened Permutations
  import opened BitonicSort

  // --- kernel_argsort_f32_i32, descending ---

  /** The kernel's swap condition: indices past the row are padding and go last. */
  function ScoreFlip(row: seq<real>): Flip<nat> {
    (x: nat, y: nat, up: bool) =>
      if up then x >= |row| || (y < |row| && row[x] < row[y])
      else y >= |row| || (x < |row| && row[x] > row[y])
  }

  /** May `x` stand before `y`? */
  function Before(row: seq<real>): (nat, nat) -> bool {
    (x: nat, y: nat) => y >= |row| || (x < |row| && row[x] >= row[y])
  }

  function Ids(from: nat, n: nat): (r: seq<nat>)
    ensures |r| == n
  {
    seq(n, c requires 0 <= c < n => from + c)
  }

  function SortedIds(row: seq<real>, ib: nat, width: nat): (r: seq<nat>)
    ensures |r| == width
  {
    Network(Ids(ib * width, width), ScoreFlip(row))
  }

  /** One threadgroup: sorts its block of `width` indices and writes the first `topK`
      of them, as far as the output row reaches. */
  method Argsort(row: seq<real>, ib: nat, width: nat, topK: nat, dst: array<nat>)
    modifies dst
    ensures forall c: nat :: c < dst.Length ==>
              dst[c] == if ib * topK <= c < ib * topK + width && c < ib * topK + topK
                        then SortedIds(row, ib, width)[c - ib * topK] else old(dst[c])
  {
    var shmem := new nat[width](c requires 0 <= c => ib * width + c);
    assert shmem[..] == Ids(ib * width, width);
    RunNetwork(shmem, ScoreFlip(row));
    var i0 := ib * topK;
    for col := 0 to width
      invariant shmem[..] == SortedIds(row, ib, width)
      invariant forall c: nat :: c < dst.Length ==>
                  dst[c] == if i0 <= c < i0 + col && c < i0 + topK then SortedIds(row, ib, width)[c - i0] else old(dst[c])
    {
      if i0 + col < dst.Length && col < topK {
        dst[i0 + col] := shmem[col];
      }
    }
  }

  lemma ScoreOrder(row: seq<real>)
    ensures TotalPreorder(Before(row)) && Orders(ScoreFlip(row), Before(row))
  {
  }

  /** How many indices of the block are inside the row. */
  function InRow(row: seq<real>, ib: nat, width: nat): (r: nat)
    ensures r <= width
  {
    if |row| <= ib * width then 0 else if |row| - ib * width < width then |row| - ib * width else width
  }

  /** The first `m` indices are those inside the row, in descending order of score. */
  ghost predicate IsDescending(row: seq<real>, r: seq<nat>, m: nat) {
    && (forall a :: 0 <= a < |r| ==> (r[a] < |row| <==> a < m))
    && (forall a, b :: 0 <= a < b < |r| && b < m ==> r[a] < |row| && r[b] < |row| && row[r[a]] >= row[r[b]])
  }

  /** For every power-of-two width the block's indices come out permuted, in descending
      order of score, and all padding indices last. */
  lemma ArgsortIsDescending(row: seq<real>, ib: nat, width: nat)
    requires IsPow2(width)
    ensures multiset(SortedIds(row, ib, width)) == multiset(Ids(ib * width, width))
    ensures IsDescending(row, SortedIds(row, ib, width), InRow(row, ib, width))
  {
    hide Network, IsPow2, Ids, Before, ScoreFlip, IsDescending;
    var s := Ids(ib * width, width);
    ScoreOrder(row);
    NetworkSorts(s, ScoreFlip(row), Before(row));
    NetworkPermutes(s, ScoreFlip(row));
    PaddingLast(row, ib, width);
  }

  lemma PaddingLast(row: seq<real>, ib: nat, width: nat)
    requires SortedBy(SortedIds(row, ib, width), Before(row))
    requires multiset(SortedIds(row, ib, width)) == multiset(Ids(ib * width, width))
    ensures IsDescending(row, SortedIds(row, ib, width), InRow(row, ib, width))
  {
    hide Network, ScoreFlip, SortedIds, CountBelow;
    var s, r := Ids(ib * width, width), SortedIds(row, ib, width);
    var m := InRowPrefix(r, row);
    CountOfPrefix(r, |row|, m);
    CountOfPrefix(s, |row|, InRow(row, ib, width));
    CountPermuted(s, r, |row|);
    PrefixDescends(row, r, m);
  }

  lemma PrefixDescends(row: seq<real>, r: seq<nat>, m: nat)
    requires SortedBy(r, Before(row)) && m <= |r| && forall a :: 0 <= a < |r| ==> (r[a] < |row| <==> a < m)
    ensures IsDescending(row, r, m)
  {
    forall a, b | 0 <= a < b < |r| && b < m ensures row[r[a]] >= row[r[b]] { assert Before(row)(r[a], r[b]); }
  }

  // --- Counting the padding ---

  function CountBelow(s: seq<nat>, n: nat): (r: nat)
    ensures r <= |s|
  {
    if s == [] then 0 else CountBelow(s[..|s| - 1], n) + if s[|s| - 1] < n then 1 else 0
  }

  lemma {:induction false} CountWithout(s: seq<nat>, i: nat, n: nat)
    requires i < |s|
    ensures CountBelow(s, n) == CountBelow(Without(s, i), n) + if s[i] < n then 1 else 0
  {
    WithoutInit(s, i);
    hide Without;
    if i < |s| - 1 { CountWithout(s[..|s| - 1], i, n); }
  }

  lemma {:induction false} CountPermuted(s: seq<nat>, t: seq<nat>, n: nat)
    requires multiset(s) == multiset(t)
    ensures CountBelow(s, n) == CountBelow(t, n)
  {
    if s == [] {
      assert |t| == |multiset(t)| == |multiset(s)| == 0;
    } else {
      var i := Matching(s, t);
      CountPermuted(s[..|s| - 1], Without(t, i), n);
      CountWithout(t, i, n);
    }
  }

  lemma {:induction false} CountOfPrefix(s: seq<nat>, n: nat, m: nat)
    requires m <= |s| && forall a :: 0 <= a < |s| ==> (s[a] < n <==> a < m)
    ensures CountBelow(s, n) == m
  {
    if s != [] { CountOfPrefix(s[..|s| - 1], n, if m == |s| then m - 1 else m); }
  }

  lemma {:induction false} InRowPrefix(r: seq<nat>, row: seq<real>) returns (m: nat)
    requires SortedBy(r, Before(row))
    ensures m <= |r| && forall a :: 0 <= a < |r| ==> (r[a] < |row| <==> a < m)
  {
    if r == [] || r[|r| - 1] < |row| {
      m := |r|;
      forall a | 0 <= a < |r| ensures r[a] < |row| { assert a == |r| - 1 || Before(row)(r[a], r[|r| - 1]); }
    } else {
      m := InRowPrefix(r[..|r| - 1], row);
    }
  }

  /** `k` different indices, best first, none outside them better than one inside. */
  ghost predicate IsTopK(row: seq<real>, r: seq<nat>, k: nat) {
    && |r| == k && (forall a :: 0 <= a < k ==> r[a] < |row|)
    && (forall a, b :: 0 <= a < b < k ==> r[a] != r[b])
    && (forall a, b :: 0 <= a < b < k ==> row[r[a]] >= row[r[b]])
    && (forall e: nat, a :: e < |row| && e !in r && 0 <= a < k ==> row[r[a]] >= row[e])
  }

  // --- kernel_dsv4_router_finalize_one ---

  const EXPERTS: nat := 256
  const USED: nat := 6

  /** Indices stay below the score count, so the default is never read. */
  function ScoreAt(scores: seq<real>, x: nat): real {
    if x < |scores| then scores[x] else 0.0
  }

  function ExpertFlip(scores: seq<real>): Flip<nat> {
    (x: nat, y: nat, up: bool) => if up then ScoreAt(scores, x) < ScoreAt(scores, y) else ScoreAt(scores, x) > ScoreAt(scores, y)
  }

  function AtLeast(scores: seq<real>): (nat, nat) -> bool {
    (x: nat, y: nat) => ScoreAt(scores, x) >= ScoreAt(scores, y)
  }

  datatype Bias = NoBias | Bias(values: seq<real>)
  datatype Mode = ByScore | ByToken(table: seq<nat>, rows: nat, token: nat)

  function SelectionScores(probs: seq<real>, bias: Bias): (r: seq<real>)
    requires |probs| == EXPERTS && (bias.Bias? ==> |bias.values| == EXPERTS)
    ensures |r| == EXPERTS
  {
    seq(EXPERTS, t requires 0 <= t < EXPERTS => if bias.Bias? then probs[t] + bias.values[t] else probs[t])
  }

  /** `scores` are the probabilities, each plus its bias if there is one. */
  ghost predicate Biased(scores: seq<real>, probs: seq<real>, bias: Bias) {
    && |scores| == |probs| == 256 && (bias.Bias? ==> |bias.values| == 256)
    && forall t :: 0 <= t < 256 ==> scores[t] - probs[t] == if bias.Bias? then bias.values[t] else 0.0
  }

  /** In hash mode the row of the table that belongs to the token, clamped to the last;
      otherwise the six best-scoring experts. */
  method RouterFinalize(probs: seq<real>, bias: Bias, mode: Mode) returns (selected: seq<nat>)
    requires |probs| == EXPERTS && (bias.Bias? ==> |bias.values| == EXPERTS)
    requires mode.ByToken? ==> mode.rows >= 1 && |mode.table| == USED * mode.rows
    ensures |selected| == 6
    ensures mode.ByScore? ==> exists scores :: Biased(scores, probs, bias) && IsTopK(scores, selected, 6)
    ensures match mode
            case ByScore => true
            case ByToken(table, rows, token) =>
              exists row: nat :: row == (if token < rows then token else rows - 1)
                                 && USED * row + USED <= |table| && selected == table[USED * row..USED * row + USED]
  {
    var scores := SelectionScores(probs, bias);
    match mode {
      case ByToken(table, rows, token) =>
        var row := if token < rows - 1 then token else rows - 1;
        selected := [];
        for i := 0 to USED
          invariant selected == table[row * USED..row * USED + i]
        {
          selected := selected + [table[row * USED + i]];
        }
        assert row == (if token < rows then token else rows - 1) && USED * row + USED <= |table|;
      case ByScore =>
        var idx := new nat[EXPERTS](c requires 0 <= c => c);
        assert idx[..] == Ids(0, EXPERTS);
        RunNetwork(idx, ExpertFlip(scores));
        selected := idx[..USED];
        FirstSixAreBest(scores, idx[..]);
    }
  }

  lemma ExpertOrder(scores: seq<real>)
    ensures TotalPreorder(AtLeast(scores)) && Orders(ExpertFlip(scores), AtLeast(scores))
  {
  }

  lemma FirstSixAreBest(scores: seq<real>, r: seq<nat>)
    requires |scores| == EXPERTS && r == Network(Ids(0, EXPERTS), ExpertFlip(scores))
    ensures IsTopK(scores, r[..USED], USED)
  {
    hide Stages;
    var s := Ids(0, EXPERTS);
    assert EXPERTS == Pow2(8);
    ExpertOrder(scores);
    NetworkSorts(s, ExpertFlip(scores), AtLeast(scores));
    NetworkPermutes(s, ExpertFlip(scores));
    PermutedIds(r, 0, EXPERTS);
    assert forall a, b :: 0 <= a < b < EXPERTS ==> AtLeast(scores)(r[a], r[b]);
    forall e: nat, a | e < |scores| && e !in r[..USED] && 0 <= a < USED
      ensures scores[r[a]] >= scores[e]
    {
      assert e in r;
      var b :| 0 <= b < |r| && r[b] == e;
      assert AtLeast(scores)(r[a], r[b]);
    }
  }

  /** A permutation of from, ..., from + n - 1 names each of them exactly once. */
  lemma PermutedIds(r: seq<nat>, from: nat, n: nat)
    requires multiset(r) == multiset(Ids(from, n))
    ensures |r| == n
    ensures forall a :: 0 <= a < n ==> from <= r[a] < from + n
    ensures forall e: nat :: from <= e < from + n ==> e in r
    ensures forall a, b :: 0 <= a < b < n ==> r[a] != r[b]
  {
    var s := Ids(from, n);
    assert |multiset(r)| == |r| && |multiset(s)| == |s|;
    forall a | 0 <= a < n ensures from <= r[a] < from + n { assert r[a] in multiset(s); }
    forall e: nat | from <= e < from + n ensures e in r { assert s[e - from] in multiset(s); assert e in multiset(r); }
    forall a, b | 0 <= a < b < n ensures r[a] != r[b] {
      if r[a] == r[b] {
        TwiceCounted(r, a, b);
        OnceCounted(s, r[a]);
      }
    }
  }

  lemma TwiceCounted(r: seq<nat>, a: nat, b: nat)
    requires a < b < |r| && r[a] == r[b]
    ensures multiset(r)[r[a]] >= 2
  {
    assert r == r[..b] + r[b..];
    assert r[a] in multiset(r[..b]) by { assert r[..b][a] == r[a]; }
    assert r[b] in multiset(r[b..]) by { assert r[b..][0] == r[b]; }
  }

  lemma OnceCounted(s: seq<nat>, x: nat)
    requires forall i, j :: 0 <= i < j < |s| ==> s[i] != s[j]
    ensures multiset(s)[x] <= 1
  {
    if s != [] {
      OnceCounted(s[..|s| - 1], x);
      assert s == s[..|s| - 1] + [s[|s| - 1]];
      if x == s[|s| - 1] { assert x !in s[..|s| - 1]; }
    }
  }

  // --- kernel_dsv4_sort_i32_rows_asc ---

  function IntFlip(): Flip<int> {
    (a, b, up) => (up && a > b) || (!up && a < b)
  }

  function UpTo(): (int, int) -> bool {
    (x, y) => x <= y
  }

  /** Threads at or past `top_k` return at once; partners past it are skipped. */
  method SortRow(src: seq<int>) returns (dst: seq<int>)
    ensures dst == Network(src, IntFlip())
  {
    var rowTmp := new int[|src|](c requires 0 <= c < |src| => src[c]);
    assert rowTmp[..] == src;
    RunNetwork(rowTmp, IntFlip());
    dst := rowTmp[..];
  }

  ghost predicate Ascending(s: seq<int>) {
    forall i, j :: 0 <= i < j < |s| ==> s[i] <= s[j]
  }

  ghost predicate SortsEveryRow(n: nat) {
    forall s: seq<int> :: |s| == n ==> Ascending(Network(s, IntFlip()))
  }

  /** The row sort meets its purpose exactly for empty and power-of-two `top_k`. It is
      always a permutation. */
  lemma SortRowWorksExactlyForPowersOfTwo(n: nat)
    ensures SortsEveryRow(n) <==> n == 0 || IsPow2(n)
    ensures forall s: seq<int> :: multiset(Network(s, IntFlip())) == multiset(s)
  {
    hide Stages, IsPow2;
    forall s: seq<int> ensures multiset(Network(s, IntFlip())) == multiset(s) { NetworkPermutes(s, IntFlip()); }
    if IsPow2(n) {
      forall s: seq<int> | |s| == n ensures Ascending(Network(s, IntFlip())) {
        IntOrder();
        NetworkSorts(s, IntFlip(), UpTo());
        assert forall i, j :: 0 <= i < j < n ==> UpTo()(Network(s, IntFlip())[i], Network(s, IntFlip())[j]);
      }
    } else if n > 0 {
      UnsortedRow(n);
    }
  }

  lemma IntOrder()
    ensures TotalPreorder(UpTo()) && Orders(IntFlip(), UpTo())
  {
  }

  /** Ones below 2^p, zeros from there on: no compare-exchange ever crosses 2^p. */
  function Step(n: nat, p: nat): (r: seq<int>)
    ensures |r| == n
  {
    seq(n, c => if c < Pow2(p) then 1 else 0)
  }

  lemma UnsortedRow(n: nat)
    requires n > 0 && !IsPow2(n)
    ensures !SortsEveryRow(n)
  {
    hide Stages;
    var p := LogFloor(n);
    StagesKeepStep(n, p, 1);
    var r := Network(Step(n, p), IntFlip());
    assert r[0] == 1 && r[n - 1] == 0;
    assert |r| == n && !Ascending(r);
  }

  lemma {:induction false} LogFloor(n: nat) returns (p: nat)
    requires n > 0
    ensures Pow2(p) <= n < Pow2(p + 1)
  {
    if n == 1 {
      p := 0;
    } else {
      p := LogFloor(n / 2);
      p := p + 1;
    }
  }

  lemma PhaseKeepsStep(n: nat, p: nat, k: nat, i: nat)
    requires k > 0 && i < p
    ensures Phase(Step(n, p), IntFlip(), k, Pow2(i)) == Step(n, p)
  {
    hide Pow2, BitClear;
    var s, j := Step(n, p), Pow2(i);
    forall c | 0 <= c < n ensures Exchanged(s, IntFlip(), k, j, c) == s[c] {
      if BitClear(c, j) {
        SameSide(c, p, i);
      } else {
        LowerPartner(c, j);
        SameSide(c - j, p, i);
      }
    }
  }

  /** Partners at a distance below 2^p are on the same side of 2^p. */
  lemma SameSide(c: nat, p: nat, i: nat)
    requires i < p && BitClear(c, Pow2(i))
    ensures c < Pow2(p) <==> c + Pow2(i) < Pow2(p)
  {
    var j, w := Pow2(i), Pow2(p - i - 1);
    Pow2Add(i + 1, p - i - 1);
    assert Pow2(p) == 2 * j * w;
    if c < Pow2(p) {
      var o, x := BlockOf(c, 2 * j, w);
      if x >= j { InBlock(o, x - j, j); }
    }
  }

  lemma {:induction false} CascadeKeepsStep(n: nat, p: nat, k: nat, i: nat)
    requires k > 0 && i <= p
    ensures Cascade(Step(n, p), IntFlip(), k, i) == Step(n, p)
  {
    hide Phase, Step, Pow2;
    if i > 0 {
      PhaseKeepsStep(n, p, k, i - 1);
      CascadeKeepsStep(n, p, k, i - 1);
    }
  }

  lemma {:induction false} StagesKeepStep(n: nat, p: nat, q: nat)
    requires n < Pow2(p + 1)
    ensures Stages(Step(n, p), IntFlip(), q) == Step(n, p)
    decreases n - Pow2(q)
  {
    hide Cascade, Step;
    if Pow2(q) <= n {
      if q > p { Pow2Monotone(p + 1, q); }
      CascadeKeepsStep(n, p, Pow2(q), q);
      StagesKeepStep(n, p, q + 1);
    }
  }
}
