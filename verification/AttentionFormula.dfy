/** The attention output as one formula over positions and selected ids: what both kernels
    compute, without their loops, registers and row lists. */
module AttentionFormula {
  import Bits
  import opened OnlineSoftmax
  import opened IndexedAttention

  // --- The score of a row ---

  /** A query of zeros scores zero with every row. */
  lemma {:induction false} DotOfZeros(y: seq<real>)
    ensures Dot(Zeros(|y|), y) == 0.0
    decreases |y|
  {
    if y != [] {
      var n := |y| - 1;
      assert Zeros(|y|)[..n] == Zeros(n);
      DotOfZeros(y[..n]);
    }
  }

  /** Every component counts with its own factor. */
  lemma {:induction false} DotOfUpdate(x: seq<real>, y: seq<real>, d: nat, v: real)
    requires |x| == |y| && d < |x|
    ensures Dot(x[d := v], y) == Dot(x, y) + (v - x[d]) * y[d]
    decreases |x|
  {
    var n := |x| - 1;
    if d < n {
      assert x[d := v][..n] == x[..n][d := v];
      DotOfUpdate(x[..n], y[..n], d, v);
    } else {
      assert x[d := v][..n] == x[..n];
      assert (v - x[d]) * y[d] == v * y[d] - x[d] * y[d];
    }
  }

  /** The score of a row moves with each query component by that component of the row, times
      the scale; a query of zeros scores zero. */
  lemma ScoreOfRow(h: Head, k: seq<real>, d: nat, v: real)
    requires |k| == |h.q| && d < |k|
    ensures h.RowOf(k).value == k
    ensures h.(q := h.q[d := v]).RowOf(k).score == h.RowOf(k).score + (v - h.q[d]) * k[d] * h.scale
    ensures h.(q := Zeros(|k|)).RowOf(k).score == 0.0
  {
    DotOfUpdate(h.q, k, d, v);
    DotOfZeros(k);
    ScaleSum(Dot(h.q, k), (v - h.q[d]) * k[d], h.scale);
  }

  lemma ScaleSum(x: real, y: real, k: real)
    ensures (x + y) * k == x * k + y * k
  {
  }

  // --- The formula ---

  /** Weight of one attended row. */
  function Weight(h: Head, k: seq<real>): real
    requires |k| == |h.q|
  {
    h.exp(h.RowOf(k).score)
  }

  /** Weights of the `n` ring positions from `pos` on. */
  function RingWeights(a: Args, h: Head, pos: nat, n: nat): real
    requires a.Valid() && h.Fits(a) && pos >= a.FirstRawPos()
  {
    if n == 0 then 0.0 else RingWeights(a, h, pos, n - 1) + Weight(h, h.raw[a.RingRow(pos + n - 1)])
  }

  function RingValues(a: Args, h: Head, pos: nat, n: nat, d: nat): real
    requires a.Valid() && h.Fits(a) && pos >= a.FirstRawPos() && d < |h.q|
  {
    if n == 0 then 0.0
    else
      var k := h.raw[a.RingRow(pos + n - 1)];
      RingValues(a, h, pos, n - 1, d) + Times(k[d], Weight(h, k))
  }

  /** Weights of the selected ids that are visible. */
  function IdWeights(h: Head, ids: seq<int>, visible: nat): real
    requires visible <= |h.comp| && forall i :: 0 <= i < |h.comp| ==> |h.comp[i]| == |h.q|
  {
    if ids == [] then 0.0
    else (if 0 <= ids[0] < visible then Weight(h, h.comp[ids[0]]) else 0.0) + IdWeights(h, ids[1..], visible)
  }

  function IdValues(h: Head, ids: seq<int>, visible: nat, d: nat): real
    requires visible <= |h.comp| && d < |h.q| && forall i :: 0 <= i < |h.comp| ==> |h.comp[i]| == |h.q|
  {
    if ids == [] then 0.0
    else (if 0 <= ids[0] < visible then Times(h.comp[ids[0]][d], Weight(h, h.comp[ids[0]])) else 0.0)
         + IdValues(h, ids[1..], visible, d)
  }

  lemma {:induction false} SumsConcat(exp: real -> real, x: seq<Row>, y: seq<Row>, m: real, d: nat)
    ensures WeightSum(exp, x + y, m) == WeightSum(exp, x, m) + WeightSum(exp, y, m)
    ensures ValueSum(exp, x + y, m, d) == ValueSum(exp, x, m, d) + ValueSum(exp, y, m, d)
    decreases |y|
  {
    if y == [] {
      assert x + y == x;
    } else {
      var n := |y| - 1;
      assert (x + y)[..|x + y| - 1] == x + y[..n];
      SumsConcat(exp, x, y[..n], m, d);
    }
  }

  lemma OneRowSums(exp: real -> real, r: Row, d: nat)
    ensures WeightSum(exp, [r], 0.0) == exp(r.score)
    ensures ValueSum(exp, [r], 0.0, d) == Times(r.At(d), exp(r.score))
  {
    var s := [r];
    assert s[..0] == [];
    assert r.score - 0.0 == r.score;
  }

  lemma OneRow(h: Head, k: seq<real>, d: nat)
    requires |k| == |h.q| && d < |k|
    ensures WeightSum(h.exp, [h.RowOf(k)], 0.0) == Weight(h, k)
    ensures ValueSum(h.exp, [h.RowOf(k)], 0.0, d) == Times(k[d], Weight(h, k))
  {
    OneRowSums(h.exp, h.RowOf(k), d);
  }

  lemma {:induction false} RingSums(a: Args, h: Head, pos: nat, n: nat, d: nat)
    requires a.Valid() && h.Fits(a) && pos >= a.FirstRawPos() && d < |h.q|
    ensures var rows := Load(h, h.raw, RawRows(a, pos, n));
            && WeightSum(h.exp, rows, 0.0) == RingWeights(a, h, pos, n)
            && ValueSum(h.exp, rows, 0.0, d) == RingValues(a, h, pos, n, d)
    decreases n
  {
    hide Args.FirstRawPos, Args.RingRow, Load, Weight, Times;
    if n == 0 {
      LoadNone(h, h.raw, RawRows(a, pos, 0));
    } else {
      var row := a.RingRow(pos + n - 1);
      RingSums(a, h, pos, n - 1, d);
      LoadMore(h, h.raw, RawRows(a, pos, n - 1), row);
      SumsConcat(h.exp, Load(h, h.raw, RawRows(a, pos, n - 1)), [h.RowOf(h.raw[row])], 0.0, d);
      OneRow(h, h.raw[row], d);
    }
  }

  lemma LoadFirst(h: Head, rows: seq<nat>)
    requires (forall i :: 0 <= i < |h.comp| ==> |h.comp[i]| == |h.q|) && rows != []
    requires forall i :: 0 <= i < |rows| ==> rows[i] < |h.comp|
    ensures Load(h, h.comp, rows) == [h.RowOf(h.comp[rows[0]])] + Load(h, h.comp, rows[1..])
  {
  }

  lemma {:induction false} IdSums(h: Head, ids: seq<int>, visible: nat, d: nat)
    requires visible <= |h.comp| && d < |h.q| && forall i :: 0 <= i < |h.comp| ==> |h.comp[i]| == |h.q|
    ensures forall i :: 0 <= i < |VisibleIds(ids, visible)| ==> VisibleIds(ids, visible)[i] < |h.comp|
    ensures var rows := Load(h, h.comp, VisibleIds(ids, visible));
            && WeightSum(h.exp, rows, 0.0) == IdWeights(h, ids, visible)
            && ValueSum(h.exp, rows, 0.0, d) == IdValues(h, ids, visible, d)
  {
    hide Load, Weight, Times;
    if ids == [] {
      LoadNone(h, h.comp, VisibleIds(ids, visible));
    } else {
      IdSums(h, ids[1..], visible, d);
      if 0 <= ids[0] < visible {
        var rest := VisibleIds(ids[1..], visible);
        assert VisibleIds(ids, visible) == [ids[0] as nat] + rest;
        LoadFirst(h, [ids[0] as nat] + rest);
        assert ([ids[0] as nat] + rest)[1..] == rest;
        SumsConcat(h.exp, [h.RowOf(h.comp[ids[0]])], Load(h, h.comp, rest), 0.0, d);
        OneRow(h, h.comp[ids[0]], d);
      } else {
        assert VisibleIds(ids, visible) == VisibleIds(ids[1..], visible);
      }
    }
  }

  lemma SinkSums(exp: real -> real, sink: real, n: nat, d: nat)
    requires d < n
    ensures WeightSum(exp, [Row(sink, Zeros(n))], 0.0) == exp(sink)
    ensures ValueSum(exp, [Row(sink, Zeros(n))], 0.0, d) == 0.0
  {
    OneRowSums(exp, Row(sink, Zeros(n)), d);
    ZeroTimes(exp(sink));
  }

  lemma Sums(exp: real -> real, x: seq<Row>, y: seq<Row>, z: seq<Row>, d: nat)
    ensures WeightSum(exp, x + y + z, 0.0) == WeightSum(exp, x, 0.0) + WeightSum(exp, y, 0.0) + WeightSum(exp, z, 0.0)
    ensures ValueSum(exp, x + y + z, 0.0, d) == ValueSum(exp, x, 0.0, d) + ValueSum(exp, y, 0.0, d) + ValueSum(exp, z, 0.0, d)
  {
    SumsConcat(exp, x + y, z, 0.0, d);
    SumsConcat(exp, x, y, 0.0, d);
  }

  lemma FromAverage(x: real, v: real, w: real)
    requires w > 0.0 && x == v / w
    ensures x * w == v
  {
  }

  /** Provided the early stop is safe, as it is after the row sort: the output is the average
      of all ring rows in the window and all visible selected rows, weighted by the
      exponential of their scaled scores, with the sink adding weight alone. */
  lemma OutputFormula(a: Args, h: Head, d: nat)
    requires a.Valid() && h.Fits(a) && IsExp(h.exp) && d < |h.q| && StopIsSafe(h.topk, a.Visible())
    ensures a.Visible() <= |h.comp|
    ensures var n := RawCount(a);
            var weights := RingWeights(a, h, a.First(), n) + IdWeights(h, h.topk, a.Visible()) + h.exp(h.sink);
            && weights > 0.0
            && Reference(a, h)[d] * weights == RingValues(a, h, a.First(), n, d) + IdValues(h, h.topk, a.Visible(), d)
  {
    hide IsExp, Args.Valid, Head.Fits, Load, RawRows, WeightSum, ValueSum, Reference, Selected, VisibleIds,
         RingWeights, RingValues, IdWeights, IdValues, Args.First, Args.Visible, RawCount, StopIsSafe;
    FitsComp(a, h);
    EarlyStopDropsNothing(h.topk, a.Visible());
    RingSums(a, h, a.First(), RawCount(a), d);
    IdSums(h, h.topk, a.Visible(), d);
    SinkSums(h.exp, h.sink, |h.q|, d);
    Sums(h.exp, RawPart(a, h), CompPart(a, h), [Row(h.sink, Zeros(|h.q|))], d);
    ReferenceIsAverage(a, h);
    WeightPositive(h.exp, Attended(a, h), 0.0);
    FromAverage(Reference(a, h)[d], ValueSum(h.exp, Attended(a, h), 0.0, d), WeightSum(h.exp, Attended(a, h), 0.0));
  }

  lemma FitsComp(a: Args, h: Head)
    requires a.Valid() && h.Fits(a)
    ensures a.ratio > 0 && a.Visible() <= |h.comp| && forall i :: 0 <= i < |h.comp| ==> |h.comp[i]| == |h.q|
  {
    VisibleBound(a);
  }

  // --- Which compressed rows and which ring rows ---

  /** A compressed row is visible when its last position is not after the query. */
  lemma VisibleRows(a: Args, c: nat)
    requires a.Valid()
    ensures c < a.Visible() <==> c < a.nComp && (c + 1) * a.ratio <= a.pos0 + a.token + 1
  {
    var p, q := a.pos0 + a.token + 1, (a.pos0 + a.token + 1) / a.ratio;
    assert p == a.ratio * q + p % a.ratio;
    if c + 1 <= q { MulLe(c + 1, q, a.ratio); } else { MulLe(q + 1, c + 1, a.ratio); }
  }

  lemma MulLe(x: nat, y: nat, k: nat)
    requires x <= y
    ensures x * k <= y * k
  {
  }

  /** The oldest live position is in row `rawStart`, and each later one in the next row of
      the ring. */
  lemma RingRowsFollow(a: Args, pos: nat)
    requires a.Valid() && a.rawStart < a.rawCap && a.rawStart + a.nRaw <= U32
    requires a.FirstRawPos() <= pos && pos + 1 < a.FirstRawPos() + a.nRaw
    ensures a.RingRow(a.FirstRawPos()) == a.rawStart
    ensures a.RingRow(pos + 1) == if a.RingRow(pos) + 1 == a.rawCap then 0 else a.RingRow(pos) + 1
  {
    hide Args.RingRow, Args.FirstRawPos;
    var x := a.rawStart + (pos - a.FirstRawPos());
    RingRowAt(a, a.FirstRawPos(), a.rawStart);
    RingRowAt(a, pos, x);
    RingRowAt(a, pos + 1, x + 1);
    NextRemainder(x, a.rawCap);
    SmallRemainder(a.rawStart, a.rawCap);
  }

  lemma RingRowAt(a: Args, pos: nat, x: nat)
    requires a.rawCap > 0 && a.FirstRawPos() <= pos && x == a.rawStart + (pos - a.FirstRawPos()) < U32
    ensures a.RingRow(pos) == x % a.rawCap
  {
    hide Args.FirstRawPos;
    SmallRemainder(x, U32);
  }

  lemma SmallRemainder(x: nat, n: nat)
    requires x < n
    ensures x % n == x
  {
  }

  lemma NextRemainder(x: nat, n: nat)
    requires n > 0
    ensures (x + 1) % n == if x % n + 1 == n then 0 else x % n + 1
  {
    var q, r := x / n, x % n;
    assert x == n * q + r;
    if r + 1 == n {
      assert x + 1 == n * (q + 1) + 0;
      Bits.DivideExact(x + 1, n, q + 1, 0);
    } else {
      Bits.DivideExact(x + 1, n, q, r + 1);
    }
  }
}
