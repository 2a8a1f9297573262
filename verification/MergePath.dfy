/** kernel_argsort_merge_f32_i32, descending: each thread finds by binary search where the
    sequential left-preferring merge of two runs stands after its first `k0` outputs, and
    writes one chunk of the merge from there, cut off at `top_k`. */
module MergePath {
  import opened Bits
  import opened Threads
  import SortKernels

  // --- The sequential merge ---

  ghost predicate Descending(x: seq<real>) {
    forall i, j :: 0 <= i < j < |x| ==> x[i] >= x[j]
  }

  /** How many of the first `k` outputs come from the left run. */
  function Taken(x: seq<real>, y: seq<real>, k: nat): (i: nat)
    requires k <= |x| + |y|
    ensures i <= |x| && i <= k && k - i <= |y|
  {
    if k == 0 then 0
    else
      var i := Taken(x, y, k - 1);
      var j := k - 1 - i;
      if i < |x| && (j >= |y| || x[i] >= y[j]) then i + 1 else i
  }

  /** The `k`-th output. */
  function Output(a: seq<nat>, b: seq<nat>, x: seq<real>, y: seq<real>, k: nat): nat
    requires |a| == |x| && |b| == |y| && k < |x| + |y|
  {
    var i := Taken(x, y, k);
    if i < |x| && (k - i >= |y| || x[i] >= y[k - i]) then a[i] else b[k - i]
  }

  function Merged(a: seq<nat>, b: seq<nat>, x: seq<real>, y: seq<real>): (r: seq<nat>)
    requires |a| == |x| && |b| == |y|
    ensures |r| == |a| + |b|
  {
    seq(|a| + |b|, k requires 0 <= k < |a| + |b| => Output(a, b, x, y, k))
  }

  /** The split (i, k - i) that no swap across the two fronts could improve. */
  ghost predicate Balanced(x: seq<real>, y: seq<real>, k: nat, i: nat) {
    && i <= |x| && i <= k && k - i <= |y|
    && (0 < i && k - i < |y| ==> x[i - 1] >= y[k - i])
    && (i < |x| && 0 < k - i ==> y[k - i - 1] > x[i])
  }

  lemma {:induction false} TakenIsBalanced(x: seq<real>, y: seq<real>, k: nat)
    requires Descending(x) && Descending(y) && k <= |x| + |y|
    ensures Balanced(x, y, k, Taken(x, y, k))
  {
    if k > 0 { TakenIsBalanced(x, y, k - 1); }
  }

  lemma BalancedIsUnique(x: seq<real>, y: seq<real>, k: nat, i: nat, i': nat)
    requires Descending(x) && Descending(y) && Balanced(x, y, k, i) && Balanced(x, y, k, i')
    ensures i == i'
  {
    if i < i' { NotBefore(x, y, k, i, i'); } else if i' < i { NotBefore(x, y, k, i', i); }
  }

  lemma NotBefore(x: seq<real>, y: seq<real>, k: nat, i: nat, i': nat)
    requires Descending(x) && Descending(y) && Balanced(x, y, k, i) && Balanced(x, y, k, i')
    ensures i >= i'
  {
  }

  // --- What the merge means ---

  function Scores(row: seq<real>, ids: seq<nat>): (r: seq<real>)
    requires IdsIn(ids, row)
    ensures |r| == |ids|
  {
    seq(|ids|, i requires 0 <= i < |ids| => row[ids[i]])
  }

  lemma {:induction false} MergePermutes(a: seq<nat>, b: seq<nat>, x: seq<real>, y: seq<real>, k: nat)
    requires |a| == |x| && |b| == |y| && k <= |x| + |y|
    ensures var i := Taken(x, y, k);
            multiset(Merged(a, b, x, y)[..k]) == multiset(a[..i]) + multiset(b[..k - i])
  {
    hide Output, Merged, Taken;
    if k == 0 {
      NothingTaken(x, y);
    } else {
      MergePermutes(a, b, x, y, k - 1);
      LastOutput(a, b, x, y, k);
      AddOutput(Merged(a, b, x, y), a, b, k - 1, Taken(x, y, k - 1), Taken(x, y, k));
    }
  }

  lemma NothingTaken(x: seq<real>, y: seq<real>)
    ensures Taken(x, y, 0) == 0
  {
  }

  lemma AddOutput(m: seq<nat>, a: seq<nat>, b: seq<nat>, k: nat, i: nat, i': nat)
    requires k < |m| && i <= k && i <= |a| && k - i <= |b|
    requires multiset(m[..k]) == multiset(a[..i]) + multiset(b[..k - i])
    requires if i' == i + 1 then i < |a| && m[k] == a[i] else i' == i && k - i < |b| && m[k] == b[k - i]
    ensures multiset(m[..k + 1]) == multiset(a[..i']) + multiset(b[..k + 1 - i'])
  {
    OneMore(m, k);
    if i' == i + 1 { OneMore(a, i); } else { OneMore(b, k - i); }
  }

  lemma OneMore(s: seq<nat>, n: nat)
    requires n < |s|
    ensures multiset(s[..n + 1]) == multiset(s[..n]) + multiset{s[n]}
  {
    assert s[..n + 1] == s[..n] + [s[n]];
  }

  lemma LastOutput(a: seq<nat>, b: seq<nat>, x: seq<real>, y: seq<real>, k: nat)
    requires |a| == |x| && |b| == |y| && 0 < k <= |x| + |y|
    ensures var i := Taken(x, y, k - 1);
            if Taken(x, y, k) == i + 1 then Merged(a, b, x, y)[k - 1] == a[i]
            else Taken(x, y, k) == i && k - 1 - i < |b| && Merged(a, b, x, y)[k - 1] == b[k - 1 - i]
  {
  }

  function OutputScore(x: seq<real>, y: seq<real>, k: nat): real
    requires k < |x| + |y|
  {
    var i := Taken(x, y, k);
    if i < |x| && (k - i >= |y| || x[i] >= y[k - i]) then x[i] else y[k - i]
  }

  lemma {:induction false} OutputsDescend(x: seq<real>, y: seq<real>, k: nat, l: nat)
    requires Descending(x) && Descending(y) && k < l < |x| + |y|
    ensures OutputScore(x, y, k) >= OutputScore(x, y, l)
    decreases l
  {
    if k + 1 < l { OutputsDescend(x, y, k, l - 1); }
    TakenIsBalanced(x, y, l - 1);
    TakenIsBalanced(x, y, l);
  }

  ghost predicate IdsIn(ids: seq<nat>, row: seq<real>) {
    forall i :: 0 <= i < |ids| ==> ids[i] < |row|
  }

  /** The merge of two runs of indices into `row`. */
  function MergedIds(row: seq<real>, a: seq<nat>, b: seq<nat>): (r: seq<nat>)
    requires IdsIn(a, row) && IdsIn(b, row)
    ensures |r| == |a| + |b|
  {
    Merged(a, b, Scores(row, a), Scores(row, b))
  }

  lemma OutputScores(row: seq<real>, a: seq<nat>, b: seq<nat>, k: nat)
    requires IdsIn(a, row) && IdsIn(b, row) && k < |a| + |b|
    ensures MergedIds(row, a, b)[k] < |row|
    ensures row[MergedIds(row, a, b)[k]] == OutputScore(Scores(row, a), Scores(row, b), k)
  {
  }

  /** The merge is the two runs rearranged into one descending run. */
  lemma MergeIsDescending(row: seq<real>, a: seq<nat>, b: seq<nat>)
    requires IdsIn(a, row) && IdsIn(b, row) && Descending(Scores(row, a)) && Descending(Scores(row, b))
    ensures multiset(MergedIds(row, a, b)) == multiset(a) + multiset(b)
    ensures IdsIn(MergedIds(row, a, b), row) && Descending(Scores(row, MergedIds(row, a, b)))
  {
    hide MergedIds, OutputScore, Taken;
    var m := MergedIds(row, a, b);
    MergedPermutes(row, a, b);
    forall k | 0 <= k < |m| ensures m[k] < |row| { OutputScores(row, a, b, k); }
    forall k, l | 0 <= k < l < |m| ensures row[m[k]] >= row[m[l]] {
      OutputScores(row, a, b, k);
      OutputScores(row, a, b, l);
      OutputsDescend(Scores(row, a), Scores(row, b), k, l);
    }
  }

  lemma MergedPermutes(row: seq<real>, a: seq<nat>, b: seq<nat>)
    requires IdsIn(a, row) && IdsIn(b, row)
    ensures multiset(MergedIds(row, a, b)) == multiset(a) + multiset(b)
  {
    hide Taken, Output, Merged;
    var m := MergedIds(row, a, b);
    MergePermutes(a, b, Scores(row, a), Scores(row, b), |m|);
    assert m[..|m|] == m && a[..|a|] == a && b[..|b|] == b;
  }

  /** An entry of the left run that is still to come is worse than every entry the right
      run has given: equal scores come out left first. */
  lemma EqualScoresLeftFirst(x: seq<real>, y: seq<real>, k: nat, j: nat)
    requires Descending(x) && Descending(y) && k <= |x| + |y|
    requires Taken(x, y, k) < |x| && j < k - Taken(x, y, k)
    ensures y[j] > x[Taken(x, y, k)]
  {
    TakenIsBalanced(x, y, k);
  }

  /** What the argsort kernel leaves of a block is a run this kernel can merge. */
  lemma SortedBlockIsRun(row: seq<real>, ib: nat, width: nat)
    requires IsPow2(width)
    ensures var run := SortKernels.SortedIds(row, ib, width)[..SortKernels.InRow(row, ib, width)];
            IdsIn(run, row) && Descending(Scores(row, run))
  {
    hide SortKernels.SortedIds, SortKernels.InRow, IsPow2;
    SortKernels.ArgsortIsDescending(row, ib, width);
  }

  // --- The kernel ---

  function Min(a: int, b: int): int { if a < b then a else b }
  function Max(a: int, b: int): int { if a > b then a else b }

  /** One pair of runs in a row of sorted blocks of length `len`. */
  datatype Pair = Pair(row: seq<real>, tmp: seq<nat>, im: nat, len: nat, topK: nat, threads: nat)
  {
    function Start(): nat { im * (2 * len) }

    function Len0(): nat { Min(len, Max(0, |tmp| - Start())) }

    function Len1(): nat { Min(len, Max(0, |tmp| - (Start() + len))) }

    function Total(): nat { Len0() + Len1() }

    function LeftRun(): (r: seq<nat>)
      ensures |r| == Len0()
    {
      if Len0() == 0 then [] else tmp[Start()..Start() + Len0()]
    }

    function RightRun(): (r: seq<nat>)
      ensures |r| == Len1()
    {
      if Len1() == 0 then [] else tmp[Start() + len..Start() + len + Len1()]
    }

    ghost predicate Valid() {
      && threads > 0
      && IdsIn(tmp, row)
      && Descending(Scores(row, LeftRun())) && Descending(Scores(row, RightRun()))
    }

    function X(): (x: seq<real>)
      requires Valid()
      ensures |x| == Len0() && Descending(x)
    {
      Scores(row, LeftRun())
    }

    function Y(): (y: seq<real>)
      requires Valid()
      ensures |y| == Len1() && Descending(y)
    {
      Scores(row, RightRun())
    }

    function Result(): (r: seq<nat>)
      requires Valid()
      ensures |r| == Total()
    {
      MergedIds(row, LeftRun(), RightRun())
    }

    /** How many outputs the threads write together. */
    function Cut(): nat { Min(Total(), topK) }

    function Chunk(): nat
      requires threads > 0
    {
      (Total() + threads - 1) / threads
    }
  }

  /** The binary search ends on the state of the sequential merge after `k0` outputs. */
  method Partition(p: Pair, k0: nat) returns (low: nat)
    requires p.Valid() && k0 <= p.Total()
    ensures low == Taken(p.X(), p.Y(), k0)
  {
    hide Taken, Pair.X, Pair.Y, Pair.Valid;
    var len0, len1 := p.Len0(), p.Len1();
    ghost var x, y := p.X(), p.Y();
    TakenIsBalanced(x, y, k0);
    low := if k0 > len1 then k0 - len1 else 0;
    var high := Min(k0, len0);
    while low < high
      invariant 0 <= low <= Taken(x, y, k0) <= high <= Min(k0, len0) && k0 - len1 <= low
    {
      var mid := (low + high) / 2;
      var takeLeft := LeftAt(p, mid) >= RightAt(p, k0 - mid - 1);
      BisectionStep(x, y, k0, mid);
      if takeLeft { low := mid + 1; } else { high := mid; }
    }
  }

  /** Both entries compared are inside their runs, and the answer says on which side of
      `mid` the split lies. */
  lemma BisectionStep(x: seq<real>, y: seq<real>, k: nat, mid: nat)
    requires Descending(x) && Descending(y) && k <= |x| + |y|
    requires mid < |x| && mid < k && k - mid - 1 < |y|
    ensures mid < Taken(x, y, k) <==> x[mid] >= y[k - mid - 1]
  {
    TakenIsBalanced(x, y, k);
  }

  function LeftAt(p: Pair, i: nat): (r: real)
    requires p.Valid() && i < p.Len0()
    ensures r == p.X()[i]
  {
    p.row[p.tmp[p.Start() + i]]
  }

  function RightAt(p: Pair, j: nat): (r: real)
    requires p.Valid() && j < p.Len1()
    ensures r == p.Y()[j]
  {
    p.row[p.tmp[p.Start() + p.len + j]]
  }

  /** Where thread `tid` starts and stops. */
  function First(p: Pair, tid: nat): nat
    requires p.threads > 0
  {
    tid * p.Chunk()
  }

  function End(p: Pair, tid: nat): int
    requires p.threads > 0
  {
    Min(Min(First(p, tid) + p.Chunk(), p.Total()), p.topK)
  }

  ghost predicate Wrote(p: Pair, dst: seq<nat>, was: seq<nat>, base: nat, k0: nat, k: int)
    requires p.Valid()
  {
    && |dst| == |was| && base + p.Cut() <= |dst| && k <= p.Cut()
    && forall q :: 0 <= q < |dst| ==> dst[q] == if base + k0 <= q < base + k then p.Result()[q - base] else was[q]
  }

  lemma StepOf(p: Pair, k: nat)
    requires p.Valid() && k < p.Total()
    ensures var i := Taken(p.X(), p.Y(), k);
            var j := k - i;
            && (i >= p.Len0() ==> j < p.Len1())
            && (if i < p.Len0() && (j >= p.Len1() || LeftAt(p, i) >= RightAt(p, j))
                then Taken(p.X(), p.Y(), k + 1) == i + 1 && p.Result()[k] == p.LeftRun()[i]
                else Taken(p.X(), p.Y(), k + 1) == i && p.Result()[k] == p.RightRun()[j])
  {
    hide Pair.Valid, Scores;
  }

  /** What a thread has to know between two outputs. */
  ghost predicate Front(p: Pair, k: nat, i: nat, j: nat)
    requires p.Valid()
  {
    && k <= p.Cut()
    && i == Taken(p.X(), p.Y(), k) && j == k - i
  }

  lemma OneOutput(p: Pair, dst: seq<nat>, was: seq<nat>, base: nat, k0: nat, k: nat, i: nat, j: nat, left: bool)
    requires p.Valid() && Front(p, k, i, j) && k < p.Cut() && k0 <= k && Wrote(p, dst, was, base, k0, k)
    requires left <==> i < p.Len0() && (j >= p.Len1() || LeftAt(p, i) >= RightAt(p, j))
    ensures left || j < p.Len1()
    ensures left ==> Front(p, k + 1, i + 1, j) && Wrote(p, dst[base + k := p.LeftRun()[i]], was, base, k0, k + 1)
    ensures !left ==> Front(p, k + 1, i, j + 1) && Wrote(p, dst[base + k := p.RightRun()[j]], was, base, k0, k + 1)
  {
    hide Taken, Pair.X, Pair.Y, Pair.Valid, Pair.Result, Pair.LeftRun, Pair.RightRun, LeftAt, RightAt, Pair.Len0, Pair.Len1;
    StepOf(p, k);
  }

  /** The left run is used up: copy from the right. */
  method DrainRight(p: Pair, dst: array<nat>, base: nat, ghost was: seq<nat>, ghost k0: nat, k: nat, k1: nat, i: nat, j: nat)
    requires p.Valid() && Front(p, k, i, j) && i >= p.Len0() && k0 <= k <= k1 <= p.Cut() && Wrote(p, dst[..], was, base, k0, k)
    modifies dst
    ensures Wrote(p, dst[..], was, base, k0, k1)
  {
    hide Front, Wrote, Pair.RightRun, Pair.LeftRun, LeftAt, RightAt, Pair.Len0, Pair.Len1, Pair.Cut;
    var k': nat, j': nat := k, j;
    while k' < k1
      invariant k <= k' <= k1 && Front(p, k', i, j') && Wrote(p, dst[..], was, base, k0, k')
    {
      OneOutput(p, dst[..], was, base, k0, k', i, j', false);
      WroteFits(p, dst[..], was, base, k0, k');
      dst[base + k'] := p.RightRun()[j'];
      k', j' := k' + 1, j' + 1;
    }
  }

  /** The right run is used up: copy from the left. */
  method DrainLeft(p: Pair, dst: array<nat>, base: nat, ghost was: seq<nat>, ghost k0: nat, k: nat, k1: nat, i: nat, j: nat)
    requires p.Valid() && Front(p, k, i, j) && j >= p.Len1() && k0 <= k <= k1 <= p.Cut() && Wrote(p, dst[..], was, base, k0, k)
    modifies dst
    ensures Wrote(p, dst[..], was, base, k0, k1)
  {
    hide Front, Wrote, Pair.RightRun, Pair.LeftRun, LeftAt, RightAt, Pair.Len0, Pair.Len1, Pair.Cut;
    var k': nat, i': nat := k, i;
    while k' < k1
      invariant k <= k' <= k1 && Front(p, k', i', j) && Wrote(p, dst[..], was, base, k0, k')
    {
      LeftRemains(p, k', i', j);
      OneOutput(p, dst[..], was, base, k0, k', i', j, true);
      WroteFits(p, dst[..], was, base, k0, k');
      dst[base + k'] := p.LeftRun()[i'];
      k', i' := k' + 1, i' + 1;
    }
  }

  lemma LeftRemains(p: Pair, k: nat, i: nat, j: nat)
    requires p.Valid() && Front(p, k, i, j) && k < p.Cut() && j >= p.Len1()
    ensures i < p.Len0()
  {
    hide Taken, Pair.X, Pair.Y, Pair.Valid;
  }

  lemma WroteFits(p: Pair, dst: seq<nat>, was: seq<nat>, base: nat, k0: nat, k: nat)
    requires p.Valid() && k < p.Cut() && Wrote(p, dst, was, base, k0, k)
    ensures base + k < |dst|
  {
    hide Pair.Valid, Pair.Result;
  }

  /** One thread: partition, then merge its chunk, draining one run once the other is used up. */
  method MergeThread(p: Pair, tid: nat, dst: array<nat>, base: nat)
    requires p.Valid() && tid < p.threads && base + p.Cut() <= dst.Length
    modifies dst
    ensures Wrote(p, dst[..], old(dst[..]), base, First(p, tid), End(p, tid))
  {
    hide Taken, Pair.X, Pair.Y, Pair.Valid, Pair.Result, Pair.Len0, Pair.Len1;
    if p.Total() == 0 { return; }
    var chunk := (p.Total() + p.threads - 1) / p.threads;
    var k0 := tid * chunk;
    var k1 := Min(Min(k0 + chunk, p.Total()), p.topK);
    if k0 >= p.topK || k0 >= p.Total() { return; }
    var i := Partition(p, k0);
    MergeFrom(p, dst, base, k0, k1, i, k0 - i);
  }

  method MergeFrom(p: Pair, dst: array<nat>, base: nat, k0: nat, k1: nat, i0: nat, j0: nat)
    requires p.Valid() && Front(p, k0, i0, j0) && k0 <= k1 <= p.Cut() && base + p.Cut() <= dst.Length
    modifies dst
    ensures Wrote(p, dst[..], old(dst[..]), base, k0, k1)
  {
    ghost var was := dst[..];
    assert Wrote(p, dst[..], was, base, k0, k0) by { hide Pair.Result, Pair.Valid; }
    hide *;
    var i: nat, j: nat, k: nat := i0, j0, k0;
    while k < k1
      invariant k0 <= k <= k1 && Front(p, k, i, j) && Wrote(p, dst[..], was, base, k0, k)
    {
      WroteFits(p, dst[..], was, base, k0, k);
      if i >= p.Len0() {
        DrainRight(p, dst, base, was, k0, k, k1, i, j);
        break;
      } else if j >= p.Len1() {
        DrainLeft(p, dst, base, was, k0, k, k1, i, j);
        break;
      }
      var takeLeft := LeftAt(p, i) >= RightAt(p, j);
      OneOutput(p, dst[..], was, base, k0, k, i, j, takeLeft);
      if takeLeft {
        dst[base + k] := p.LeftRun()[i];
        i := i + 1;
      } else {
        dst[base + k] := p.RightRun()[j];
        j := j + 1;
      }
      k := k + 1;
    }
  }

  /** The chunks tile the outputs: position `x` belongs to exactly one thread. */
  lemma ChunksTile(p: Pair, tid: nat, x: nat)
    requires p.threads > 0 && x < p.Cut()
    ensures p.Chunk() > 0 && x / p.Chunk() < p.threads
    ensures First(p, tid) <= x < End(p, tid) <==> x / p.Chunk() == tid
  {
    hide Pair.Total;
    var c := p.Chunk();
    CeilingCovers(p.Total(), p.threads);
    InChunk(c, x, p.threads);
    InChunk(c, x, tid);
  }

  lemma InChunk(c: nat, x: nat, t: nat)
    requires c > 0
    ensures t * c <= x < t * c + c <==> x / c == t
    ensures x < t * c ==> x / c < t
  {
    var q := x / c;
    assert c * (q - t) == c * q - t * c && x == c * q + x % c;
    if t * c <= x < t * c + c { NoMultipleBelow(c, q - t); }
    if q >= t { MulNonneg(c, q - t); }
  }

  lemma CeilingCovers(n: nat, threads: nat)
    requires threads > 0 && n > 0
    ensures (n + threads - 1) / threads > 0
    ensures threads * ((n + threads - 1) / threads) >= n
  {
    var c := (n + threads - 1) / threads;
    assert n + threads - 1 == threads * c + (n + threads - 1) % threads;
    if c <= 0 { MulNonneg(threads, -c); }
  }

  /** The output row once the threads outside `todo` have run. */
  ghost predicate MergedBy(p: Pair, dst: seq<nat>, was: seq<nat>, base: nat, todo: set<nat>)
    requires p.Valid()
  {
    && |dst| == |was| && base + p.Cut() <= |dst|
    && forall q :: 0 <= q < |dst| ==>
         dst[q] == if base <= q < base + p.Cut() && Owner(p, q - base) !in todo then p.Result()[q - base] else was[q]
  }

  function Owner(p: Pair, x: nat): int
    requires p.threads > 0
  {
    if p.Chunk() == 0 then 0 else x / p.Chunk()
  }

  lemma ThreadMerges(p: Pair, now: seq<nat>, next: seq<nat>, was: seq<nat>, base: nat, todo: set<nat>, tid: nat)
    requires p.Valid() && tid in todo && MergedBy(p, now, was, base, todo)
    requires Wrote(p, next, now, base, First(p, tid), End(p, tid))
    ensures MergedBy(p, next, was, base, todo - {tid})
  {
    assert p.threads > 0 && |p.Result()| == p.Total();
    hide Pair.Valid, Pair.Result, Pair.Total, Pair.Chunk, First, End, Min;
    forall q | 0 <= q < |next|
      ensures next[q] == if base <= q < base + p.Cut() && Owner(p, q - base) !in todo - {tid} then p.Result()[q - base] else was[q]
    {
      if base <= q < base + p.Cut() { ChunksTile(p, tid, q - base); }
    }
  }

  /** For any number of threads in any order: the first min(total, top_k) places hold the
      prefix of the sequential merge, and nothing else is written. */
  method MergeKernel(p: Pair, dst: array<nat>, base: nat)
    requires p.Valid() && base + p.Cut() <= dst.Length
    modifies dst
    ensures forall q :: 0 <= q < dst.Length ==>
              dst[q] == if base <= q < base + p.Cut() then p.Result()[q - base] else old(dst[q])
  {
    ghost var was := dst[..];
    hide Pair.Valid, Pair.Result, Pair.Total, Pair.Chunk, First, End, Min;
    var todo := ThreadIds(p.threads);
    forall x: nat | x < p.Cut() ensures Owner(p, x) in todo { ChunksTile(p, 0, x); }
    assert MergedBy(p, dst[..], was, base, todo);
    while todo != {}
      invariant todo <= ThreadIds(p.threads)
      invariant MergedBy(p, dst[..], was, base, todo)
    {
      var tid: nat :| tid in todo;
      ghost var now := dst[..];
      MergeThread(p, tid, dst, base);
      ThreadMerges(p, now, dst[..], was, base, todo, tid);
      todo := todo - {tid};
    }
  }
}
