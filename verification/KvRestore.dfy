/** Restoring a shard on one machine, as the engine does it (ds4.c): a shard is refused
    unless its layout agrees with the session's own caches. */
module KvRestore {
  import opened Bits
  import opened Results
  import opened Words
  import opened KvSizes
  import opened KvFormat

  /** The model constants and cache sizes of one machine's engine session. */
  datatype Machine = Machine(ratios: Ratios, headDim: Word, indexerHeadDim: Word, ctx: Word,
                             rawWindow: Word, rawCap: Word, compCap: Word, layerCaps: seq<Word>)
  {
    predicate Valid() { |layerCaps| == |ratios| <= MAX }
  }

  function Smaller(a: Word, b: Word): Word { if a < b then a else b }

  // --- What the engine checks, on the bytes ---

  predicate WithinCaps(ws: seq<Word>, caps: seq<Word>) {
    |ws| == |caps| && forall i :: 0 <= i < |ws| ==> ws[i] <= caps[i]
  }

  /** `n` row counts, none above the shard's own limit or the machine's. */
  function TakeCounts(b: seq<Byte>, limit: Word, caps: seq<Word>): (r: Result<seq<Word>>)
    ensures r.Ok? ==> |r.value| == |caps| && 4 * |caps| <= |b|
  {
    match TakeWords(b, |caps|, limit + 1)
    case Err => Err
    case Ok(ws) => if WithinCaps(ws, caps) then Ok(ws) else Err
  }

  function ShardLayout(h: seq<Word>): Layout
    requires |h| == LAYER_FIELDS
  {
    Layout(h[2], h[3], h[4], h[5], h[6], h[7], h[8], h[9], h[10], 0, h[13])
  }

  /** The layout checks of a restore. */
  predicate LayoutFits(l: Layout, m: Machine, nTokens: nat) {
    && l.ctx <= m.ctx && l.tokenCount == nTokens && l.tokenCount < m.ctx
    && l.nLayers == |m.ratios| && l.headDim == m.headDim && l.indexerHeadDim == m.indexerHeadDim
    && l.rawWindow == m.rawWindow
    && l.rawCap != 0 && l.rawLive == Smaller(l.tokenCount, l.rawWindow) && l.rawLive <= l.rawCap && l.rawLive <= m.rawCap
    && l.compCap <= m.compCap
  }

  predicate BodyAccepted(b: seq<Byte>, l: Layout, m: Machine, s: Slice)
    requires m.Valid() && s.start <= s.end < |m.ratios|
  {
    var n := s.end + 1 - s.start;
    var caps := m.layerCaps[s.start..s.end + 1];
    match TakeCounts(b, l.compCap, caps)
    case Err => false
    case Ok(nComp) =>
      match TakeCounts(b[4 * n..], l.compCap, caps)
      case Err => false
      case Ok(nIndexComp) =>
        Total(SliceSizes(l, m.ratios, s.start, nComp, nIndexComp)) == |b[4 * n..][4 * n..]|
  }

  /** Does machine `m`, asked for slice `s` and a timeline of `nTokens`, accept the shard? */
  predicate Accepts(b: seq<Byte>, m: Machine, nTokens: nat, s: Slice)
    requires m.Valid()
  {
    && s.start <= s.end < |m.ratios|
    && match TakeWords(b, LAYER_FIELDS, MAX + 1)
       case Err => false
       case Ok(h) =>
         && h[0] == LAYER_MAGIC && h[1] == LAYER_VERSION && h[11] == s.start && h[12] == s.end
         && LayoutFits(ShardLayout(h), m, nTokens)
         && BodyAccepted(b[4 * LAYER_FIELDS..], ShardLayout(h), m, s)
  }

  // --- The engine's loops ---

  method ReadCounts(b: seq<Byte>, limit: Word, caps: seq<Word>) returns (r: Result<seq<Word>>)
    ensures r == TakeCounts(b, limit, caps)
  {
    hide LittleEndian, FromLittleEndian;
    var ws: seq<Word> := [];
    for i := 0 to |caps|
      invariant 4 * i <= |b| && ws == WordsOf(b, i) && AllBelow(ws, limit + 1)
      invariant forall k :: 0 <= k < i ==> ws[k] <= caps[k]
    {
      if |b| < 4 * i + 4 { return Err; }
      var w := FromLittleEndian(b[4 * i..4 * i + 4]);
      ghost var next := WordsOf(b, i + 1);
      assert next[i] == w;
      if w > limit || w > caps[i] {
        if 4 * |caps| <= |b| { LaterWords(b, i + 1, |caps|); }
        return Err;
      }
      ws := ws + [w];
    }
    r := Ok(ws);
  }

  /** Reading the tensors layer by layer uses up the rest exactly when the sizes add up. */
  method ReadTensors(rest: seq<Byte>, l: Layout, ratios: Ratios, start: nat, nComp: seq<Word>, nIndexComp: seq<Word>)
    returns (ok: bool)
    requires |nComp| == |nIndexComp| && start + |nComp| <= |ratios|
    ensures ok <==> Total(SliceSizes(l, ratios, start, nComp, nIndexComp)) == |rest|
  {
    hide TensorBytes, Total;
    ghost var sizes := SliceSizes(l, ratios, start, nComp, nIndexComp);
    NothingSummed(sizes);
    var remaining := |rest|;
    for i := 0 to |nComp|
      invariant 0 <= remaining && remaining + Total(sizes[..i]) == |rest|
    {
      SizesPrefix(sizes, i);
      var bytes := TensorBytes(l, ratios[start + i], nComp[i], nIndexComp[i]);
      if remaining < bytes { return false; }
      remaining := remaining - bytes;
    }
    assert sizes[..|sizes|] == sizes;
    ok := remaining == 0;
  }

  /** ds4_session_load_layer_payload, up to the device. */
  method Restore(b: seq<Byte>, m: Machine, nTokens: nat, s: Slice) returns (ok: bool)
    requires m.Valid()
    ensures ok <==> Accepts(b, m, nTokens, s)
  {
    hide TakeWords, TakeCounts, Total, SliceSizes, LayoutFits;
    if s.start > s.end || s.end >= |m.ratios| { return false; }
    var h := ReadWords(b, LAYER_FIELDS, MAX + 1);
    if h.Err? { return false; }
    if h.value[0] != LAYER_MAGIC || h.value[1] != LAYER_VERSION { return false; }
    if h.value[11] != s.start || h.value[12] != s.end { return false; }
    var l := ShardLayout(h.value);
    if !LayoutFits(l, m, nTokens) { return false; }
    var b1, n := b[4 * LAYER_FIELDS..], s.end + 1 - s.start;
    var nComp := ReadCounts(b1, l.compCap, m.layerCaps[s.start..s.end + 1]);
    if nComp.Err? { return false; }
    var nIndexComp := ReadCounts(b1[4 * n..], l.compCap, m.layerCaps[s.start..s.end + 1]);
    if nIndexComp.Err? { return false; }
    ok := ReadTensors(b1[4 * n..][4 * n..], l, m.ratios, s.start, nComp.value, nIndexComp.value);
  }

  // --- Which snapshots a machine accepts ---

  /** The condition on a snapshot and a machine, before any byte is sent. */
  ghost predicate FitsMachine(sn: Snapshot, m: Machine, s: Slice)
    requires Covers(sn, s) && m.Valid() && |m.ratios| == |sn.nComp|
  {
    var l := sn.layout;
    && l.ctx <= m.ctx && l.tokenCount == |sn.tokens| < m.ctx
    && l.headDim == m.headDim && l.indexerHeadDim == m.indexerHeadDim
    && l.rawWindow == m.rawWindow && l.rawLive <= m.rawCap && l.compCap <= m.compCap
    && forall i :: s.start <= i <= s.end ==> sn.nComp[i] <= m.layerCaps[i] && sn.nIndexComp[i] <= m.layerCaps[i]
  }

  lemma CountsOfSlice(ws: seq<Word>, limit: Word, m: Machine, s: Slice, rest: seq<Byte>)
    requires m.Valid() && s.start <= s.end < |ws| == |m.ratios| && AllBelow(ws, limit + 1)
    ensures var x, caps := ws[s.start..s.end + 1], m.layerCaps[s.start..s.end + 1];
            && TakeCounts(WordBytes(x) + rest, limit, caps)
               == (if forall i :: s.start <= i <= s.end ==> ws[i] <= m.layerCaps[i] then Ok(x) else Err)
            && (WordBytes(x) + rest)[4 * |x|..] == rest
  {
    hide WordBytes, TakeWords;
    var x, caps := ws[s.start..s.end + 1], m.layerCaps[s.start..s.end + 1];
    TakeWritten(x, limit + 1, rest);
    assert WithinCaps(x, caps) <==> forall i :: s.start <= i <= s.end ==> ws[i] <= m.layerCaps[i] by {
      if WithinCaps(x, caps) {
        forall i | s.start <= i <= s.end ensures ws[i] <= m.layerCaps[i] { assert x[i - s.start] <= caps[i - s.start]; }
      }
    }
  }

  /** A machine accepts its shard of a sound snapshot exactly when the snapshot fits it. */
  lemma AcceptsExactlyWhatFits(sn: Snapshot, m: Machine, s: Slice)
    requires m.Valid() && Sound(sn, m.ratios) && s.start <= s.end < |m.ratios|
    ensures Covers(sn, s) && |m.ratios| == |sn.nComp| && (Accepts(Shard(sn, s), m, |sn.tokens|, s) <==> FitsMachine(sn, m, s))
  {
    hide WordBytes, TakeWords, LayoutFits, BodyAccepted, RawLiveValid, AllBelow, Concat;
    var body := WordBytes(sn.nComp[s.start..s.end + 1])
                + (WordBytes(sn.nIndexComp[s.start..s.end + 1]) + Concat(sn.tensors[s.start..s.end + 1]));
    HeaderTaken(sn.layout, s, body);
    BodyAcceptedExactly(sn, m, s);
    SoundLayoutFits(sn, m);
  }

  lemma HeaderTaken(l: Layout, s: Slice, rest: seq<Byte>)
    requires s.start <= MAX && s.end <= MAX
    ensures var h := LayerHeader(l, s.start, s.end);
            && TakeWords(WordBytes(h) + rest, LAYER_FIELDS, MAX + 1) == Ok(h)
            && (WordBytes(h) + rest)[4 * LAYER_FIELDS..] == rest
            && ShardLayout(h) == l.(vocab := 0)
            && h[0] == LAYER_MAGIC && h[1] == LAYER_VERSION && h[11] == s.start && h[12] == s.end
  {
    hide WordBytes, TakeWords;
    TakeWritten(LayerHeader(l, s.start, s.end), MAX + 1, rest);
  }

  /** What is left of the layout checks for a sound snapshot. */
  lemma SoundLayoutFits(sn: Snapshot, m: Machine)
    requires Sound(sn, m.ratios)
    ensures var l := sn.layout;
            LayoutFits(l.(vocab := 0), m, |sn.tokens|) <==>
              && l.ctx <= m.ctx && l.tokenCount == |sn.tokens| < m.ctx
              && l.headDim == m.headDim && l.indexerHeadDim == m.indexerHeadDim
              && l.rawWindow == m.rawWindow && l.rawLive <= m.rawCap && l.compCap <= m.compCap
  {
    hide SizesMatch, AllBelow;
  }

  lemma BodyAcceptedExactly(sn: Snapshot, m: Machine, s: Slice)
    requires m.Valid() && Sound(sn, m.ratios) && s.start <= s.end < |m.ratios|
    ensures BodyAccepted(WordBytes(sn.nComp[s.start..s.end + 1])
                         + (WordBytes(sn.nIndexComp[s.start..s.end + 1]) + Concat(sn.tensors[s.start..s.end + 1])),
                         sn.layout.(vocab := 0), m, s)
            <==> forall i :: s.start <= i <= s.end ==> sn.nComp[i] <= m.layerCaps[i] && sn.nIndexComp[i] <= m.layerCaps[i]
  {
    hide WordBytes, TakeCounts, Total, SliceSizes, Concat, RawLiveValid, AllBelow, Lengths, TensorBytes;
    var y, z := WordBytes(sn.nIndexComp[s.start..s.end + 1]), sn.tensors[s.start..s.end + 1];
    CountsOfSlice(sn.nComp, sn.layout.compCap, m, s, y + Concat(z));
    CountsOfSlice(sn.nIndexComp, sn.layout.compCap, m, s, Concat(z));
    SliceLengths(sn, m.ratios, s);
    ConcatLength(z);
    VocabIsIrrelevant(sn.layout, m.ratios, s.start, sn.nComp[s.start..s.end + 1], sn.nIndexComp[s.start..s.end + 1]);
  }

  lemma VocabIsIrrelevant(l: Layout, ratios: Ratios, start: nat, nComp: seq<Word>, nIndexComp: seq<Word>)
    requires |nComp| == |nIndexComp| && start + |nComp| <= |ratios|
    ensures SliceSizes(l.(vocab := 0), ratios, start, nComp, nIndexComp) == SliceSizes(l, ratios, start, nComp, nIndexComp)
  {
    hide StateBytes, RowBytes;
  }

  // --- Sessions as the engine creates them ---

  /** The logical window of a session: the model's sliding window, or the whole context. */
  function RawWindow(swa: Word, ctx: Word): Word {
    var w := Smaller(swa, ctx);
    if w == 0 then 1 else w
  }

  lemma WindowIs(swa: Word, ctx: Word)
    ensures 1 <= swa <= ctx ==> RawWindow(swa, ctx) == swa
    ensures 1 <= ctx <= swa ==> RawWindow(swa, ctx) == ctx
    ensures swa == 0 || ctx == 0 ==> RawWindow(swa, ctx) == 1
  {
  }

  /** Compressed rows that a layer's cache holds. */
  function LayerCap(ctx: nat, ratio: nat): nat {
    if ratio == 0 then 0 else ctx / ratio + 2
  }

  /** The smallest compression ratio in use, or `none`. */
  function MinRatio(ratios: Ratios, none: Word): Word {
    if ratios == [] then none
    else
      var r, others := ratios[|ratios| - 1], MinRatio(ratios[..|ratios| - 1], none);
      if r == 0 then others else if AllZero(ratios[..|ratios| - 1]) then r else Smaller(r, others)
  }

  predicate AllZero(ratios: Ratios) {
    forall i :: 0 <= i < |ratios| ==> ratios[i] == 0
  }

  /** The cache sizes that a session of context `m.ctx` gets. */
  ghost predicate Created(m: Machine, swa: Word) {
    && m.Valid() && m.ctx > 0 && m.rawWindow == RawWindow(swa, m.ctx) <= m.rawCap
    && (forall i :: 0 <= i < |m.ratios| ==> m.layerCaps[i] == LayerCap(m.ctx, m.ratios[i]))
    && m.compCap == LayerCap(m.ctx, MinRatio(m.ratios, m.ctx))
  }

  /** A snapshot taken on a machine: the machine's constants, and no more rows than it holds. */
  ghost predicate TakenOn(sn: Snapshot, saver: Machine) {
    var l := sn.layout;
    && saver.Valid() && Sound(sn, saver.ratios) && |sn.tokens| == l.tokenCount
    && l.ctx == saver.ctx && l.rawWindow == saver.rawWindow && l.rawCap == saver.rawCap && l.compCap == saver.compCap
    && l.headDim == saver.headDim && l.indexerHeadDim == saver.indexerHeadDim
    && forall i :: 0 <= i < |sn.nComp| ==> sn.nComp[i] <= saver.layerCaps[i] && sn.nIndexComp[i] <= saver.layerCaps[i]
  }

  /** A cache has room for every full group of the context and two rows more. */
  lemma CapCountsGroups(ctx: nat, ratio: nat, g: nat)
    requires ratio > 0
    ensures g * ratio <= ctx <==> g + 2 <= LayerCap(ctx, ratio)
  {
    var q := ctx / ratio;
    assert ctx == ratio * q + ctx % ratio;
    if g <= q { ScaleMonotone(g, q, ratio); } else { ScaleMonotone(q + 1, g, ratio); }
  }

  lemma {:induction false} MinRatioIsLeast(ratios: Ratios, none: Word)
    requires !AllZero(ratios)
    ensures MinRatio(ratios, none) > 0 && MinRatio(ratios, none) in ratios
    ensures forall i :: 0 <= i < |ratios| ==> ratios[i] == 0 || MinRatio(ratios, none) <= ratios[i]
  {
    var init, r := ratios[..|ratios| - 1], ratios[|ratios| - 1];
    assert ratios == init + [r];
    if !AllZero(init) { MinRatioIsLeast(init, none); }
  }

  lemma CapGrows(a: nat, b: nat, ratio: nat)
    requires a <= b
    ensures LayerCap(a, ratio) <= LayerCap(b, ratio)
  {
    if ratio > 0 {
      var q, r := a / ratio - b / ratio, ratio * (a / ratio - b / ratio);
      assert r == (a - a % ratio) - (b - b % ratio);
      assert r == ratio + ratio * (q - 1);
      if q > 0 { MulNonneg(ratio, q - 1); }
    }
  }

  lemma {:induction false} MinRatioInUse(ratios: Ratios, none: Word, other: Word)
    ensures MinRatio(ratios, none) == if AllZero(ratios) then none else MinRatio(ratios, other)
    ensures !AllZero(ratios) ==> MinRatio(ratios, none) > 0
  {
    if ratios != [] {
      MinRatioInUse(ratios[..|ratios| - 1], none, other);
      assert AllZero(ratios) <==> AllZero(ratios[..|ratios| - 1]) && ratios[|ratios| - 1] == 0;
    }
  }

  lemma CapWithoutRatio(ctx: nat)
    requires ctx > 0
    ensures LayerCap(ctx, ctx) == 3
  {
    DivideExact(ctx, ctx, 1, 0);
  }

  lemma CompCapGrows(ratios: Ratios, a: Word, b: Word)
    requires 0 < a <= b
    ensures LayerCap(a, MinRatio(ratios, a)) <= LayerCap(b, MinRatio(ratios, b))
  {
    hide LayerCap, MinRatio, AllZero;
    MinRatioInUse(ratios, a, b);
    if AllZero(ratios) {
      MinRatioInUse(ratios, b, a);
      CapWithoutRatio(a);
      CapWithoutRatio(b);
    } else {
      CapGrows(a, b, MinRatio(ratios, a));
    }
  }

  /** Moving a slice between two sessions of one model: the restore succeeds if and only if
      the new context is as large, has room for one more token, and gives the same sliding
      window. A session shorter than the model's window is therefore refused by every longer
      one, although its rows would fit there. */
  lemma RestoredExactly(sn: Snapshot, saver: Machine, m: Machine, swa: Word, s: Slice)
    requires Created(saver, swa) && Created(m, swa) && TakenOn(sn, saver) && s.start <= s.end < |m.ratios|
    requires m.ratios == saver.ratios && m.headDim == saver.headDim && m.indexerHeadDim == saver.indexerHeadDim
    ensures Covers(sn, s)
    ensures Accepts(Shard(sn, s), m, |sn.tokens|, s) <==>
              && saver.ctx <= m.ctx && |sn.tokens| < m.ctx
              && (saver.ctx == m.ctx || swa <= saver.ctx)
  {
    AcceptsExactlyWhatFits(sn, m, s);
    hide Accepts, Shard, SizesMatch, AllBelow, LayerCap;
    if saver.ctx <= m.ctx {
      CompCapGrows(m.ratios, saver.ctx, m.ctx);
      forall i | s.start <= i <= s.end ensures saver.layerCaps[i] <= m.layerCaps[i] { CapGrows(saver.ctx, m.ctx, m.ratios[i]); }
    }
  }
}
