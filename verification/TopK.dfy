/** The host passes behind the indexer's selection: one argsort per block of a row, each cut
    to the entries that can still matter, then merges of neighbouring runs until one run is
    left, cut to `top_k`. Buffers are those of one row. */
module TopK {
  import opened Bits
  import opened Results
  import opened Threads
  import opened SortKernels
  import opened MergePath

  /** A run made of indices from `lo` to `hi`: what it leaves out loses to `k` of its entries. */
  ghost predicate Best(row: seq<real>, r: seq<nat>, lo: nat, hi: nat, k: nat) {
    && lo <= hi <= |row| && (forall a :: 0 <= a < |r| ==> lo <= r[a] < hi)
    && (forall a, b :: 0 <= a < b < |r| ==> r[a] != r[b])
    && Descending(Scores(row, r))
    && (forall e: nat :: lo <= e < hi && e !in r ==> 0 < k <= |r| && row[r[k - 1]] >= row[e])
  }

  // --- Cutting and merging lose nothing ---

  lemma CutToTop(row: seq<real>, r: seq<nat>, k: nat)
    requires Best(row, r, 0, |row|, k) && k <= |r|
    ensures IsTopK(row, r[..k], k)
  {
    forall a, b | 0 <= a < b < |r| ensures row[r[a]] >= row[r[b]] { assert Scores(row, r)[a] >= Scores(row, r)[b]; }
    assert forall c :: 0 <= c < k ==> r[c] in r[..k] by {
      assert forall c :: 0 <= c < k ==> r[..k][c] == r[c];
    }
    forall e: nat, a | e < |row| && e !in r[..k] && 0 <= a < k ensures row[r[a]] >= row[e] {
      if e in r { var b :| 0 <= b < |r| && r[b] == e; }
    }
  }

  /** The `k`-th output of a merge is no worse than the `k`-th entry of either run. */
  lemma OutputLeads(x: seq<real>, y: seq<real>, k: nat)
    requires Descending(x) && Descending(y) && 0 < k <= |x| + |y|
    ensures k <= |x| ==> OutputScore(x, y, k - 1) >= x[k - 1]
    ensures k <= |y| ==> OutputScore(x, y, k - 1) >= y[k - 1]
  {
  }

  lemma {:induction false} MergedOnce(a: seq<nat>, b: seq<nat>, m: seq<nat>, mid: nat)
    requires multiset(m) == multiset(a) + multiset(b)
    requires forall i, j :: 0 <= i < j < |a| ==> a[i] != a[j]
    requires forall i, j :: 0 <= i < j < |b| ==> b[i] != b[j]
    requires (forall i :: 0 <= i < |a| ==> a[i] < mid) && (forall i :: 0 <= i < |b| ==> mid <= b[i])
    ensures forall i, j :: 0 <= i < j < |m| ==> m[i] != m[j]
    ensures forall e :: e in m <==> e in a || e in b
  {
    forall i, j | 0 <= i < j < |m| ensures m[i] != m[j] {
      if m[i] == m[j] {
        TwiceCounted(m, i, j);
        OnceCounted(a, m[i]);
        OnceCounted(b, m[i]);
      }
    }
    forall e ensures e in m <==> e in a || e in b {
      assert e in m <==> e in multiset(m);
      assert e in a <==> e in multiset(a);
      assert e in b <==> e in multiset(b);
    }
  }

  /** Two neighbouring runs merge into the run of both ranges. */
  lemma MergeBest(row: seq<real>, a: seq<nat>, b: seq<nat>, lo: nat, mid: nat, hi: nat, k: nat)
    requires Best(row, a, lo, mid, k) && Best(row, b, mid, hi, k)
    ensures Best(row, MergedIds(row, a, b), lo, hi, k)
  {
    hide MergedIds, OutputScore, Descending;
    var m, x, y := MergedIds(row, a, b), Scores(row, a), Scores(row, b);
    MergeIsDescending(row, a, b);
    MergedOnce(a, b, m, mid);
    forall i | 0 <= i < |m| ensures lo <= m[i] < hi { assert m[i] in m; }
    forall e: nat | lo <= e < hi && e !in m ensures 0 < k <= |m| && row[m[k - 1]] >= row[e] {
      assert e !in a && e !in b;
      assert 0 < k <= |m|;
      OutputLeads(x, y, k);
      OutputScores(row, a, b, k - 1);
    }
  }

  // --- Rows of runs ---

  function Clip(x: nat, n: nat): nat { if x < n then x else n }

  /** The `q`-th run of a buffer divided into runs of length `len`. */
  function Run(tmp: seq<nat>, len: nat, q: nat): (r: seq<nat>)
    ensures |r| == Clip((q + 1) * len, |tmp|) - Clip(q * len, |tmp|)
  {
    ScaleMonotone(q, q + 1, len);
    tmp[Clip(q * len, |tmp|)..Clip((q + 1) * len, |tmp|)]
  }

  ghost predicate Runs(row: seq<real>, tmp: seq<nat>, len: nat, span: nat, k: nat) {
    forall q: nat :: IsRun(row, tmp, len, span, k, q)
  }

  /** The `q`-th run covers the `q`-th stretch of the row. */
  ghost predicate IsRun(row: seq<real>, tmp: seq<nat>, len: nat, span: nat, k: nat, q: nat) {
    Best(row, Run(tmp, len, q), Clip(q * span, |row|), Clip((q + 1) * span, |row|), k)
  }

  lemma RunsAreIds(row: seq<real>, tmp: seq<nat>, len: nat, span: nat, k: nat)
    requires Runs(row, tmp, len, span, k) && len > 0
    ensures IdsIn(tmp, row)
  {
    forall c | 0 <= c < |tmp| ensures tmp[c] < |row| {
      var q := c / len;
      assert q * len <= c < (q + 1) * len by { assert c == len * q + c % len; }
      assert IsRun(row, tmp, len, span, k, q);
      assert Run(tmp, len, q)[c - q * len] == tmp[c];
    }
  }

  lemma Doubled(im: nat, n: nat)
    ensures im * (2 * n) == (2 * im) * n && (im + 1) * (2 * n) == (2 * im + 2) * n
    ensures (2 * im + 1) * n == (2 * im) * n + n && (2 * im + 2) * n == (2 * im) * n + 2 * n
  {
  }

  /** The pair of runs that one threadgroup merges. */
  lemma PairOfRuns(row: seq<real>, tmp: seq<nat>, im: nat, len: nat, topK: nat, threads: nat)
    ensures var p := Pair(row, tmp, im, len, topK, threads);
            && p.LeftRun() == Run(tmp, len, 2 * im) && p.RightRun() == Run(tmp, len, 2 * im + 1)
            && p.Start() == im * (2 * len)
            && p.Total() == Clip((im + 1) * (2 * len), |tmp|) - Clip(im * (2 * len), |tmp|)
  {
    Doubled(im, len);
  }

  /** Merging a pair covers the two stretches of the row. */
  lemma PairCovers(row: seq<real>, tmp: seq<nat>, im: nat, len: nat, span: nat, k: nat, topK: nat, threads: nat)
    requires Runs(row, tmp, len, span, k) && len > 0 && threads > 0
    ensures var p := Pair(row, tmp, im, len, topK, threads);
            p.Valid() && Best(row, p.Result(), Clip(im * (2 * span), |row|), Clip((im + 1) * (2 * span), |row|), k)
  {
    hide MergedIds, Descending, Best, Run, Clip, Pair.LeftRun, Pair.RightRun, Scores;
    PairOfRuns(row, tmp, im, len, topK, threads);
    RunsAreIds(row, tmp, len, span, k);
    Doubled(im, span);
    var a, b := Run(tmp, len, 2 * im), Run(tmp, len, 2 * im + 1);
    var lo, mid, hi := Clip((2 * im) * span, |row|), Clip((2 * im + 1) * span, |row|), Clip((2 * im + 2) * span, |row|);
    assert IsRun(row, tmp, len, span, k, 2 * im) && IsRun(row, tmp, len, span, k, 2 * im + 1);
    RunDescends(row, a, lo, mid, k);
    RunDescends(row, b, mid, hi, k);
    MergeBest(row, a, b, lo, mid, hi, k);
  }

  lemma RunDescends(row: seq<real>, r: seq<nat>, lo: nat, hi: nat, k: nat)
    requires Best(row, r, lo, hi, k)
    ensures IdsIn(r, row) && Descending(Scores(row, r))
  {
  }

  /** A run of no entries covers no index. */
  lemma EmptyRun(row: seq<real>, lo: nat, hi: nat, k: nat)
    requires Best(row, [], lo, hi, k)
    ensures lo == hi
  {
    var r: seq<nat> := [];
    assert lo !in r;
  }

  /** A buffer of one run covers the whole row. */
  lemma OneRun(row: seq<real>, tmp: seq<nat>, len: nat, span: nat, k: nat)
    requires Runs(row, tmp, len, span, k) && |tmp| <= len && span > 0
    ensures Best(row, tmp, 0, |row|, k)
  {
    hide Best;
    assert IsRun(row, tmp, len, span, k, 0) && IsRun(row, tmp, len, span, k, 1);
    assert Run(tmp, len, 0) == tmp && Run(tmp, len, 1) == [];
    EmptyRun(row, Clip(1 * span, |row|), Clip(2 * span, |row|), k);
  }

  // --- The argsort pass ---

  /** The indices of block `ib` that survive the cut to `cut`. */
  function Survivors(row: seq<real>, ib: nat, width: nat, cut: nat): (r: seq<nat>)
    ensures |r| == Clip(cut, InRow(row, ib, width))
  {
    SortedIds(row, ib, width)[..Clip(cut, InRow(row, ib, width))]
  }

  /** What the cut drops from a block loses to `k` entries that stay. */
  lemma SurvivorsAreBest(row: seq<real>, ib: nat, width: nat, cut: nat, k: nat)
    requires IsPow2(width) && 0 < k && cut == Clip(k, width)
    ensures Best(row, Survivors(row, ib, width, cut), Clip(ib * width, |row|), Clip((ib + 1) * width, |row|), k)
  {
    hide SortedIds, IsPow2;
    ArgsortIsDescending(row, ib, width);
    var all, m := SortedIds(row, ib, width), InRow(row, ib, width);
    var lo, hi := Clip(ib * width, |row|), Clip((ib + 1) * width, |row|);
    BlockRange(|row|, ib, width, m);
    PermutedIds(all, ib * width, width);
    var r := Survivors(row, ib, width, cut);
    assert forall c :: 0 <= c < |r| ==> r[c] == all[c];
    forall e: nat | lo <= e < hi && e !in r ensures 0 < k <= |r| && row[r[k - 1]] >= row[e] {
      assert e in all;
      var b :| 0 <= b < |all| && all[b] == e;
      assert b >= |r| && b < m;
    }
  }

  lemma BlockRange(n: nat, ib: nat, width: nat, m: nat)
    requires m == if n <= ib * width then 0 else Clip(n - ib * width, width)
    ensures Clip((ib + 1) * width, n) == Clip(ib * width, n) + m
    ensures m > 0 ==> Clip(ib * width, n) == ib * width
  {
    assert (ib + 1) * width == ib * width + width;
  }

  /** Writing the `ib`-th run leaves the other runs alone. */
  lemma RunWritten(now: seq<nat>, next: seq<nat>, len: nat, ib: nat, x: seq<nat>)
    requires |now| == |next| && |x| == |Run(next, len, ib)|
    requires forall c :: 0 <= c < |next| ==> next[c] == if ib * len <= c < ib * len + |x| then x[c - ib * len] else now[c]
    ensures Run(next, len, ib) == x
    ensures forall j: nat :: j != ib ==> Run(next, len, j) == Run(now, len, j)
  {
    RunPlace(|next|, len, ib);
    forall j: nat | j != ib ensures Run(next, len, j) == Run(now, len, j) {
      RunPlace(|next|, len, j);
      if j < ib { ScaleMonotone(j + 1, ib, len); } else { ScaleMonotone(ib + 1, j, len); }
    }
  }

  lemma RunPlace(n: nat, len: nat, j: nat)
    ensures (j + 1) * len == j * len + len
    ensures Clip((j + 1) * len, n) - Clip(j * len, n) <= len
    ensures j * len >= n ==> Clip((j + 1) * len, n) == Clip(j * len, n) == n
  {
  }

  /** The width of a row of surviving runs. */
  function WorkWidth(n: nat, npr: nat, width: nat, cut: nat): nat
    requires 0 < npr && (npr - 1) * width < n
  {
    MulNonneg(npr - 1, cut);
    (npr - 1) * cut + Clip(n - (npr - 1) * width, cut)
  }

  lemma Blocks(n: nat, width: nat) returns (npr: nat)
    requires n > 0 && width > 0
    ensures npr == (n + width - 1) / width && npr > 0 && (npr - 1) * width < n <= npr * width
  {
    npr := (n + width - 1) / width;
    assert n + width - 1 == width * npr + (n + width - 1) % width;
    assert (npr - 1) * width == width * npr - width;
    assert npr == 0 ==> width * npr == 0;
  }

  /** Each run has room for exactly the survivors of its block. */
  lemma SurvivorsFit(row: seq<real>, width: nat, npr: nat, cut: nat, ib: nat)
    requires 0 < npr && (npr - 1) * width < |row| <= npr * width && cut <= width
    ensures var w := WorkWidth(|row|, npr, width, cut);
            Clip((ib + 1) * cut, w) - Clip(ib * cut, w) == |Survivors(row, ib, width, cut)|
    ensures ib < npr - 1 ==> Clip(ib * cut, WorkWidth(|row|, npr, width, cut)) == ib * cut
  {
    RunPlace(0, cut, ib);
    RunPlace(0, width, ib);
    RunPlace(0, width, npr - 1);
    RunPlace(0, cut, npr - 1);
    if ib < npr - 1 {
      ScaleMonotone(ib + 1, npr - 1, cut);
      ScaleMonotone(ib + 1, npr - 1, width);
    } else if npr <= ib {
      ScaleMonotone(npr, ib, cut);
      ScaleMonotone(npr, ib, width);
    }
  }

  /** The argsort pass, with its threadgroups in any order. */
  method SortBlocks(row: seq<real>, width: nat, npr: nat, cut: nat, dst: array<nat>)
    requires 0 < npr && (npr - 1) * width < |row| <= npr * width && cut <= width
    requires dst.Length == WorkWidth(|row|, npr, width, cut)
    modifies dst
    ensures forall ib: nat :: Run(dst[..], cut, ib) == Survivors(row, ib, width, cut)
  {
    hide SortedIds, InRow, WorkWidth;
    var todo := ThreadIds(npr);
    forall ib: nat | ib !in todo ensures Run(dst[..], cut, ib) == Survivors(row, ib, width, cut) {
      SurvivorsFit(row, width, npr, cut, ib);
      NothingBehind(row, width, npr, ib);
    }
    while todo != {}
      invariant todo <= ThreadIds(npr)
      invariant forall ib: nat :: ib !in todo ==> Run(dst[..], cut, ib) == Survivors(row, ib, width, cut)
    {
      var ib: nat :| ib in todo;
      ghost var now := dst[..];
      Argsort(row, ib, width, cut, dst);
      SurvivorsFit(row, width, npr, cut, ib);
      RunPlace(dst.Length, cut, ib);
      RunWritten(now, dst[..], cut, ib, Survivors(row, ib, width, cut));
      todo := todo - {ib};
    }
  }

  lemma NothingBehind(row: seq<real>, width: nat, npr: nat, ib: nat)
    requires |row| <= npr * width && npr <= ib
    ensures InRow(row, ib, width) == 0
  {
    ScaleMonotone(npr, ib, width);
  }

  lemma SortedRuns(row: seq<real>, tmp: seq<nat>, width: nat, cut: nat, k: nat)
    requires IsPow2(width) && 0 < k && cut == Clip(k, width)
    requires forall ib: nat :: Run(tmp, cut, ib) == Survivors(row, ib, width, cut)
    ensures Runs(row, tmp, cut, width, k)
  {
    hide IsPow2, Run, Survivors, Best;
    forall q: nat ensures IsRun(row, tmp, cut, width, k, q) { SurvivorsAreBest(row, q, width, cut, k); }
  }

  // --- The merge passes ---

  /** One merge pass into the other buffer, with its threadgroups in any order. */
  method MergePass(row: seq<real>, tmp: seq<nat>, len: nat, nm: nat, threads: nat, dst: array<nat>, ghost span: nat, ghost k: nat)
    requires Runs(row, tmp, len, span, k) && len > 0 && threads > 0 && dst.Length == |tmp|
    requires 0 < nm && (nm - 1) * (2 * len) < |tmp| <= nm * (2 * len)
    modifies dst
    ensures Runs(row, dst[..], 2 * len, 2 * span, k)
  {
    hide Best, Run, Runs, IsRun;
    var todo := ThreadIds(nm);
    forall im: nat | im !in todo ensures IsRun(row, dst[..], 2 * len, 2 * span, k, im) {
      NothingToMerge(row, tmp, dst[..], im, len, nm, span, k, threads);
    }
    while todo != {}
      invariant todo <= ThreadIds(nm)
      invariant forall im: nat :: im !in todo ==> IsRun(row, dst[..], 2 * len, 2 * span, k, im)
    {
      var im: nat :| im in todo;
      MergeGroup(row, tmp, len, nm, threads, im, dst, span, k, todo);
      todo := todo - {im};
    }
    assert Runs(row, dst[..], 2 * len, 2 * span, k) by { AllRuns(row, dst[..], 2 * len, 2 * span, k); }
  }

  /** The threadgroup of pair `im`. */
  method MergeGroup(row: seq<real>, tmp: seq<nat>, len: nat, nm: nat, threads: nat, im: nat, dst: array<nat>,
                    ghost span: nat, ghost k: nat, ghost todo: set<nat>)
    requires Runs(row, tmp, len, span, k) && len > 0 && threads > 0 && dst.Length == |tmp|
    requires im < nm && (nm - 1) * (2 * len) < |tmp|
    requires forall j: nat :: j !in todo ==> IsRun(row, dst[..], 2 * len, 2 * span, k, j)
    modifies dst
    ensures forall j: nat :: j !in todo - {im} ==> IsRun(row, dst[..], 2 * len, 2 * span, k, j)
  {
    hide Best, Run, Runs, IsRun, Pair.Valid, Pair.Result, Pair.Total, Pair.Cut;
    ghost var now := dst[..];
    var p := Pair(row, tmp, im, len, |tmp|, threads);
    PairInside(row, tmp, im, len, nm, span, k, threads);
    MergeKernel(p, dst, im * (2 * len));
    RunMerged(row, tmp, now, dst[..], im, len, span, k, threads, todo);
  }

  lemma AllRuns(row: seq<real>, tmp: seq<nat>, len: nat, span: nat, k: nat)
    requires forall q: nat :: IsRun(row, tmp, len, span, k, q)
    ensures Runs(row, tmp, len, span, k)
  {
  }

  lemma NothingToMerge(row: seq<real>, tmp: seq<nat>, dst: seq<nat>, im: nat, len: nat, nm: nat, span: nat, k: nat, threads: nat)
    requires Runs(row, tmp, len, span, k) && len > 0 && threads > 0 && |dst| == |tmp| <= nm * (2 * len) && nm <= im
    ensures IsRun(row, dst, 2 * len, 2 * span, k, im)
  {
    hide Best, Runs, Pair.Result, Pair.LeftRun, Pair.RightRun, Pair.Valid;
    PairOfRuns(row, tmp, im, len, |tmp|, threads);
    PairCovers(row, tmp, im, len, span, k, |tmp|, threads);
    ScaleMonotone(nm, im, 2 * len);
    RunPlace(|tmp|, 2 * len, im);
    var p := Pair(row, tmp, im, len, |tmp|, threads);
    assert p.Result() == [] == Run(dst, 2 * len, im);
  }

  lemma PairInside(row: seq<real>, tmp: seq<nat>, im: nat, len: nat, nm: nat, span: nat, k: nat, threads: nat)
    requires Runs(row, tmp, len, span, k) && len > 0 && threads > 0 && im < nm && (nm - 1) * (2 * len) < |tmp|
    ensures var p := Pair(row, tmp, im, len, |tmp|, threads);
            p.Valid() && p.Cut() == p.Total() && im * (2 * len) + p.Total() <= |tmp|
  {
    hide Best, Runs, Run, Pair.Result, Pair.LeftRun, Pair.RightRun, Pair.Valid, Pair.Total;
    PairOfRuns(row, tmp, im, len, |tmp|, threads);
    PairCovers(row, tmp, im, len, span, k, |tmp|, threads);
    ScaleMonotone(im, nm - 1, 2 * len);
  }

  lemma RunMerged(row: seq<real>, tmp: seq<nat>, now: seq<nat>, next: seq<nat>, im: nat, len: nat, span: nat, k: nat,
                  threads: nat, todo: set<nat>)
    requires Runs(row, tmp, len, span, k) && len > 0 && threads > 0 && |now| == |next| == |tmp|
    requires forall j: nat :: j !in todo ==> IsRun(row, now, 2 * len, 2 * span, k, j)
    requires var p := Pair(row, tmp, im, len, |tmp|, threads);
             && p.Valid()
             && forall q :: 0 <= q < |next| ==>
                  next[q] == if im * (2 * len) <= q < im * (2 * len) + p.Total() then p.Result()[q - im * (2 * len)] else now[q]
    ensures forall j: nat :: j !in todo - {im} ==> IsRun(row, next, 2 * len, 2 * span, k, j)
  {
    hide Best, Runs, Run, Pair.Result, Pair.LeftRun, Pair.RightRun, Pair.Valid, Pair.Total;
    PairOfRuns(row, tmp, im, len, |tmp|, threads);
    PairCovers(row, tmp, im, len, span, k, |tmp|, threads);
    var p := Pair(row, tmp, im, len, |tmp|, threads);
    RunWritten(now, next, 2 * len, im, p.Result());
    forall j: nat | j !in todo - {im} ensures IsRun(row, next, 2 * len, 2 * span, k, j) {
      assert j == im || IsRun(row, now, 2 * len, 2 * span, k, j);
    }
  }

  /** The last pass writes the selection itself. */
  method FinalMerge(row: seq<real>, tmp: seq<nat>, len: nat, topK: nat, threads: nat, selected: array<nat>, ghost span: nat)
    requires Runs(row, tmp, len, span, topK) && len > 0 && threads > 0 && span > 0
    requires |tmp| <= 2 * len && selected.Length == topK <= |tmp|
    modifies selected
    ensures IsTopK(row, selected[..], topK)
  {
    hide Best, Runs, Run, Pair.Result, Pair.LeftRun, Pair.RightRun, Pair.Valid, Pair.Total, IsTopK;
    var p := Pair(row, tmp, 0, len, topK, threads);
    PairOfRuns(row, tmp, 0, len, topK, threads);
    PairCovers(row, tmp, 0, len, span, topK, topK, threads);
    assert p.Total() == |tmp|;
    MergeKernel(p, selected, 0);
    assert selected[..] == p.Result()[..topK];
    WholeRow(row, tmp, len, span, topK);
    CutToTop(row, p.Result(), topK);
  }

  lemma WholeRow(row: seq<real>, tmp: seq<nat>, len: nat, span: nat, k: nat)
    requires Runs(row, tmp, len, span, k) && |tmp| <= 2 * len && span > 0
    ensures Clip(2 * span, |row|) == |row|
  {
    hide Best;
    assert IsRun(row, tmp, len, span, k, 2);
    assert Run(tmp, len, 2) == [];
    EmptyRun(row, Clip(2 * span, |row|), Clip(3 * span, |row|), k);
  }

  // --- ds4_gpu_indexer_topk_tensor ---

  /** Threads of one argsort group: the power of two that covers the row, as far as the
      device allows. */
  method BlockWidth(n: nat, maxThreads: nat) returns (nth: nat)
    ensures IsPow2(nth) && nth > 0
    ensures nth <= 1 || nth <= maxThreads
    ensures n <= nth || maxThreads < 2 * nth
  {
    nth := 1;
    ghost var p := 0;
    while nth < n && 2 * nth <= maxThreads
      invariant nth == Pow2(p) && nth > 0 && (nth <= 1 || nth <= maxThreads)
      decreases n - nth
    {
      nth, p := 2 * nth, p + 1;
    }
  }

  /** Threads of one merge group. */
  function MergeThreads(limit: nat, len: nat): (r: nat)
    ensures len > 0 ==> 0 < r <= len
  {
    Clip(if limit == 0 || limit > 512 then 512 else limit, len)
  }

  /** All passes for one row: whatever the device's limits, the result is the `topK` best
      indices of the row, in descending order. */
  method SelectTopK(row: seq<real>, topK: nat, maxThreads: nat, mergeLimit: nat) returns (r: Result<seq<nat>>)
    ensures r.Ok? <==> 0 < topK <= |row|
    ensures r.Ok? ==> IsTopK(row, r.value, topK)
  {
    if topK == 0 || topK > |row| { return Err; }
    hide IsTopK, Runs, WorkWidth, IsPow2, Survivors, Run;
    var nth := BlockWidth(|row|, if maxThreads == 0 then 256 else maxThreads);
    var npr := (|row| + nth - 1) / nth;
    ghost var _ := Blocks(|row|, nth);
    var cut := Clip(topK, nth);
    var w := if npr > 1 then WorkWidth(|row|, npr, nth, cut) else topK;
    EnoughSurvivors(|row|, npr, nth, topK);
    var selected := new nat[topK];
    if npr <= 1 {
      SortBlocks(row, nth, npr, cut, selected);
      SortedRuns(row, selected[..], nth, cut, topK);
      OneRun(row, selected[..], cut, nth, topK);
      CutToTop(row, selected[..], topK);
      assert selected[..][..topK] == selected[..];
      return Ok(selected[..]);
    }
    var cur, next := new nat[w], new nat[w];
    SortBlocks(row, nth, npr, cut, cur);
    SortedRuns(row, cur[..], nth, cut, topK);
    var len := cut;
    ghost var span := nth;
    while len < w
      invariant 0 < len && 0 < span && cur.Length == next.Length == w && cur != next
      invariant fresh(cur) && fresh(next) && fresh(selected) && selected != cur && selected != next
      invariant if len < w then Runs(row, cur[..], len, span, topK) else IsTopK(row, selected[..], topK)
      decreases w - len
    {
      var nm := (w + 2 * len - 1) / (2 * len);
      ghost var _ := Blocks(w, 2 * len);
      OnePair(w, len, nm);
      var threads := MergeThreads(mergeLimit, len);
      if nm == 1 {
        FinalMerge(row, cur[..], len, topK, threads, selected, span);
      } else {
        MergePass(row, cur[..], len, nm, threads, next, span, topK);
      }
      cur, next := next, cur;
      len := 2 * len;
      span := 2 * span;
    }
    r := Ok(selected[..]);
  }

  lemma OnePair(w: nat, len: nat, nm: nat)
    requires 0 < len < w && 0 < nm && (nm - 1) * (2 * len) < w <= nm * (2 * len)
    ensures nm == 1 <==> w <= 2 * len
  {
    if nm > 1 { ScaleMonotone(1, nm - 1, 2 * len); }
  }

  /** The cut keeps enough entries, and in a single block it is the whole cut. */
  lemma EnoughSurvivors(n: nat, npr: nat, width: nat, topK: nat)
    requires 0 < npr && (npr - 1) * width < n <= npr * width && 0 < topK <= n && width > 0
    ensures var cut := Clip(topK, width);
            && topK <= WorkWidth(n, npr, width, cut)
            && (npr == 1 ==> WorkWidth(n, npr, width, cut) == topK == cut)
            && (npr > 1 ==> cut < WorkWidth(n, npr, width, cut))
  {
    var cut := Clip(topK, width);
    RunPlace(0, width, npr - 1);
    if npr > 1 { ScaleMonotone(1, npr - 1, cut); }
  }
}
