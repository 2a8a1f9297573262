/** Saving a distributed session: every machine's shard is parsed and checked, and the
    pieces are put back into one payload. */
module KvGather {
  import opened Results
  import opened Words
  import opened KvSizes
  import opened KvFormat
  import opened KvRestore
  import opened KvSnapshot

  /** What one shard holds: the layers of its slice. */
  datatype Part = Part(layout: Layout, nComp: seq<Word>, nIndexComp: seq<Word>, tensors: seq<seq<Byte>>)

  function LayerLayoutOf(h: seq<Word>, vocab: Word): Layout
    requires |h| == LAYER_FIELDS
  {
    Layout(h[2], h[3], h[4], h[5], h[6], h[7], h[8], h[9], h[10], vocab, h[13])
  }

  /** The header of a shard, checked against the slice it was asked for. */
  function ParseHeader(b: seq<Byte>, ratios: Ratios, vocab: Word, s: Slice): (r: Result<Layout>)
    ensures r.Ok? ==> 4 * LAYER_FIELDS <= |b| && r.value.nLayers == |ratios| && s.start <= s.end < |ratios|
  {
    match TakeWords(b, LAYER_FIELDS, MAX + 1)
    case Err => Err
    case Ok(h) =>
      var got := LayerLayoutOf(h, vocab);
      if h[0] != LAYER_MAGIC || h[1] != LAYER_VERSION then Err
      else if h[11] != s.start || h[12] != s.end || h[11] > h[12] || h[12] >= got.nLayers then Err
      else if got.nLayers != |ratios| || !RawLiveValid(got) then Err
      else Ok(got)
  }

  /** The row counts of the slice's layers and their tensors to the last byte. */
  function ParsePart(b: seq<Byte>, ratios: Ratios, l: Layout, s: Slice): (r: Result<Part>)
    requires s.start <= s.end < |ratios|
    ensures r.Ok? ==> r.value.layout == l
    ensures r.Ok? ==> |r.value.nComp| == |r.value.nIndexComp| == |r.value.tensors| == s.end + 1 - s.start
  {
    var n := s.end + 1 - s.start;
    match TakeWords(b, n, l.compCap + 1)
    case Err => Err
    case Ok(nComp) =>
      match TakeWords(b[4 * n..], n, l.compCap + 1)
      case Err => Err
      case Ok(nIndexComp) =>
        var rest := b[4 * n..][4 * n..];
        match Cut(rest, SliceSizes(l, ratios, s.start, nComp, nIndexComp))
        case Err => Err
        case Ok(tensors) =>
          if |Concat(tensors)| == |rest| then Ok(Part(l, nComp, nIndexComp, tensors)) else Err
  }

  function ParseShard(b: seq<Byte>, ratios: Ratios, vocab: Word, s: Slice): (r: Result<Part>)
    ensures r.Ok? ==> s.start <= s.end < |ratios| && r.value.layout.nLayers == |ratios|
    ensures r.Ok? ==> |r.value.nComp| == |r.value.nIndexComp| == |r.value.tensors| == s.end + 1 - s.start
  {
    match ParseHeader(b, ratios, vocab, s)
    case Err => Err
    case Ok(l) => ParsePart(b[4 * LAYER_FIELDS..], ratios, l, s)
  }

  function PartOf(sn: Snapshot, s: Slice): Part
    requires Covers(sn, s)
  {
    Part(sn.layout, sn.nComp[s.start..s.end + 1], sn.nIndexComp[s.start..s.end + 1], sn.tensors[s.start..s.end + 1])
  }

  // --- A shard parses back to its part ---

  lemma HeaderWritten(sn: Snapshot, ratios: Ratios, s: Slice, rest: seq<Byte>)
    requires sn.layout.nLayers == |ratios| <= MAX && RawLiveValid(sn.layout) && s.start <= s.end < |ratios|
    ensures ParseHeader(WordBytes(LayerHeader(sn.layout, s.start, s.end)) + rest, ratios, sn.layout.vocab, s) == Ok(sn.layout)
    ensures (WordBytes(LayerHeader(sn.layout, s.start, s.end)) + rest)[4 * LAYER_FIELDS..] == rest
  {
    hide WordBytes, TakeWords, RawLiveValid;
    TakeWritten(LayerHeader(sn.layout, s.start, s.end), MAX + 1, rest);
  }

  lemma PartWritten(sn: Snapshot, ratios: Ratios, s: Slice)
    requires Sound(sn, ratios) && s.start <= s.end < |ratios| <= MAX
    ensures ParsePart(WordBytes(sn.nComp[s.start..s.end + 1])
                      + (WordBytes(sn.nIndexComp[s.start..s.end + 1]) + Concat(sn.tensors[s.start..s.end + 1])),
                      ratios, sn.layout, s) == Ok(PartOf(sn, s))
  {
    hide WordBytes, TakeWords, AllBelow, Cut, Concat, SliceSizes, TensorBytes, Lengths;
    var x, y, z := sn.nComp[s.start..s.end + 1], sn.nIndexComp[s.start..s.end + 1], sn.tensors[s.start..s.end + 1];
    AllBelowSlice(sn.nComp, sn.layout.compCap + 1, s.start, s.end + 1);
    AllBelowSlice(sn.nIndexComp, sn.layout.compCap + 1, s.start, s.end + 1);
    TakeWritten(x, sn.layout.compCap + 1, WordBytes(y) + Concat(z));
    TakeWritten(y, sn.layout.compCap + 1, Concat(z));
    SliceLengths(sn, ratios, s);
    CutWritten(z, []);
    assert Concat(z) + [] == Concat(z);
  }

  /** The parser reads from a snapshot's shard exactly the snapshot's layers. */
  lemma ShardParses(sn: Snapshot, ratios: Ratios, s: Slice)
    requires Sound(sn, ratios) && s.start <= s.end < |ratios| <= MAX
    ensures Covers(sn, s) && ParseShard(Shard(sn, s), ratios, sn.layout.vocab, s) == Ok(PartOf(sn, s))
  {
    hide WordBytes, ParseHeader, ParsePart, Concat, RawLiveValid, LayerHeader, AllBelow;
    var rest := WordBytes(sn.nComp[s.start..s.end + 1])
                + (WordBytes(sn.nIndexComp[s.start..s.end + 1]) + Concat(sn.tensors[s.start..s.end + 1]));
    HeaderWritten(sn, ratios, s, rest);
    PartWritten(sn, ratios, s);
  }

  // --- What parses is a written shard ---

  function PartBytes(p: Part, s: Slice): seq<Byte>
    requires s.start <= s.end <= MAX
  {
    WordBytes(LayerHeader(p.layout, s.start, s.end)) + (WordBytes(p.nComp) + (WordBytes(p.nIndexComp) + Concat(p.tensors)))
  }

  ghost predicate PartSound(p: Part, ratios: Ratios, s: Slice) {
    && s.start <= s.end < |ratios| && p.layout.nLayers == |ratios| && RawLiveValid(p.layout)
    && |p.nComp| == |p.nIndexComp| == |p.tensors| == s.end + 1 - s.start
    && AllBelow(p.nComp, p.layout.compCap + 1) && AllBelow(p.nIndexComp, p.layout.compCap + 1)
    && Lengths(p.tensors) == SliceSizes(p.layout, ratios, s.start, p.nComp, p.nIndexComp)
  }

  lemma HeaderParsed(b: seq<Byte>, ratios: Ratios, vocab: Word, s: Slice)
    requires ParseHeader(b, ratios, vocab, s).Ok?
    ensures var l := ParseHeader(b, ratios, vocab, s).value;
            && l.vocab == vocab && RawLiveValid(l) && s.end <= MAX
            && b == WordBytes(LayerHeader(l, s.start, s.end)) + b[4 * LAYER_FIELDS..]
  {
    hide WordBytes, TakeWords, RawLiveValid;
    WriteTaken(b, LAYER_FIELDS, MAX + 1);
    var h := TakeWords(b, LAYER_FIELDS, MAX + 1).value;
    assert LayerHeader(LayerLayoutOf(h, vocab), s.start, s.end) == h;
  }

  lemma PartParsed(b: seq<Byte>, ratios: Ratios, l: Layout, s: Slice)
    requires s.start <= s.end < |ratios| && ParsePart(b, ratios, l, s).Ok?
    ensures var p := ParsePart(b, ratios, l, s).value;
            && AllBelow(p.nComp, l.compCap + 1) && AllBelow(p.nIndexComp, l.compCap + 1)
            && Lengths(p.tensors) == SliceSizes(l, ratios, s.start, p.nComp, p.nIndexComp)
            && b == WordBytes(p.nComp) + (WordBytes(p.nIndexComp) + Concat(p.tensors))
  {
    hide WordBytes, TakeWords, AllBelow, Cut, Concat, SliceSizes, Lengths;
    var n := s.end + 1 - s.start;
    WriteTaken(b, n, l.compCap + 1);
    WriteTaken(b[4 * n..], n, l.compCap + 1);
    var p := ParsePart(b, ratios, l, s).value;
    CutIsPrefix(b[4 * n..][4 * n..], SliceSizes(l, ratios, s.start, p.nComp, p.nIndexComp));
  }

  lemma ShardParsed(b: seq<Byte>, ratios: Ratios, vocab: Word, s: Slice)
    requires ParseShard(b, ratios, vocab, s).Ok?
    ensures var p := ParseShard(b, ratios, vocab, s).value;
            s.end <= MAX && PartSound(p, ratios, s) && p.layout.vocab == vocab && b == PartBytes(p, s)
  {
    hide WordBytes, ParseHeader, ParsePart, Concat, RawLiveValid, LayerHeader, AllBelow, SliceSizes, Lengths;
    HeaderParsed(b, ratios, vocab, s);
    PartParsed(b[4 * LAYER_FIELDS..], ratios, ParseHeader(b, ratios, vocab, s).value, s);
  }

  // --- The shard parser as the source runs it ---

  /** The running sum of the slice's tensor bytes: overflow is reported exactly when the
      total does not fit in 64 bits. */
  method TotalBytes64(l: Layout, ratios: Ratios, start: nat, nComp: seq<Word>, nIndexComp: seq<Word>) returns (r: Checked)
    requires |nComp| == |nIndexComp| && start + |nComp| <= |ratios|
    ensures r == Exactly(Total(SliceSizes(l, ratios, start, nComp, nIndexComp)))
  {
    hide TensorBytes, Total;
    ghost var sizes := SliceSizes(l, ratios, start, nComp, nIndexComp);
    NothingSummed(sizes);
    var sum: Word64 := 0;
    for i := 0 to |nComp|
      invariant sum == Total(sizes[..i])
    {
      SizesPrefix(sizes, i);
      var bytes := TensorBytes64(l, ratios[start + i], nComp[i], nIndexComp[i]);
      if bytes.Overflow? { return Overflow; }
      var more := Add64(sum, bytes.value);
      if more.Overflow? { return Overflow; }
      sum := more.value;
    }
    assert sizes[..|sizes|] == sizes;
    r := Fits(sum);
  }

  /** dist_kv_parse_layer_payload: the header words, the row counts, then the comparison of
      the remaining bytes with the checked sum of tensor sizes. */
  method ReadShard(b: seq<Byte>, ratios: Ratios, vocab: Word, s: Slice) returns (r: Result<Part>)
    requires |b| < U64
    ensures r == ParseShard(b, ratios, vocab, s)
  {
    hide TakeWords, Cut, Concat, Total, SliceSizes, RawLiveValid;
    var h := ReadWords(b, LAYER_FIELDS, MAX + 1);
    if h.Err? { return Err; }
    var l := LayerLayoutOf(h.value, vocab);
    if h.value[0] != LAYER_MAGIC || h.value[1] != LAYER_VERSION { return Err; }
    if h.value[11] != s.start || h.value[12] != s.end || h.value[11] > h.value[12] || h.value[12] >= l.nLayers { return Err; }
    if l.nLayers != |ratios| || !RawLiveValid(l) { return Err; }
    r := ReadPart(b[4 * LAYER_FIELDS..], ratios, l, s);
  }

  method ReadPart(b: seq<Byte>, ratios: Ratios, l: Layout, s: Slice) returns (r: Result<Part>)
    requires s.start <= s.end < |ratios| && |b| < U64
    ensures r == ParsePart(b, ratios, l, s)
  {
    hide TakeWords, Cut, Concat, Total, SliceSizes, Lengths;
    var n := s.end + 1 - s.start;
    var nComp := ReadWords(b, n, l.compCap + 1);
    if nComp.Err? { return Err; }
    var nIndexComp := ReadWords(b[4 * n..], n, l.compCap + 1);
    if nIndexComp.Err? { return Err; }
    var rest := b[4 * n..][4 * n..];
    ghost var sizes := SliceSizes(l, ratios, s.start, nComp.value, nIndexComp.value);
    RestIsTensors(rest, sizes);
    var expected := TotalBytes64(l, ratios, s.start, nComp.value, nIndexComp.value);
    if expected.Overflow? || |rest| != expected.value { return Err; }
    r := Ok(Part(l, nComp.value, nIndexComp.value, Cut(rest, SliceSizes(l, ratios, s.start, nComp.value, nIndexComp.value)).value));
  }

  // --- Putting the parts together ---

  function Grow(acc: Snapshot, p: Part): Snapshot {
    acc.(layout := p.layout, nComp := acc.nComp + p.nComp, nIndexComp := acc.nIndexComp + p.nIndexComp,
         tensors := acc.tensors + p.tensors)
  }

  ghost predicate Layered(acc: Snapshot, n: nat) {
    |acc.nComp| == |acc.nIndexComp| == |acc.tensors| == n
  }

  /** Layers gathered so far have their declared sizes. */
  ghost predicate SizedTo(acc: Snapshot, ratios: Ratios, n: nat) {
    && Layered(acc, n) && n <= |ratios|
    && AllBelow(acc.nComp, acc.layout.compCap + 1) && AllBelow(acc.nIndexComp, acc.layout.compCap + 1)
    && forall m :: 0 <= m < n ==> |acc.tensors[m]| == TensorBytes(acc.layout, ratios[m], acc.nComp[m], acc.nIndexComp[m])
  }

  lemma GrowSized(acc: Snapshot, ratios: Ratios, p: Part, s: Slice)
    requires SizedTo(acc, ratios, s.start) && PartSound(p, ratios, s) && (s.start > 0 ==> acc.layout == p.layout)
    ensures SizedTo(Grow(acc, p), ratios, s.end + 1)
  {
    hide TensorBytes, RawLiveValid;
    var next := Grow(acc, p);
    forall m | 0 <= m < s.end + 1
      ensures |next.tensors[m]| == TensorBytes(next.layout, ratios[m], next.nComp[m], next.nIndexComp[m])
    {
      if m >= s.start {
        var k := m - s.start;
        assert |p.tensors[k]| == Lengths(p.tensors)[k] == SliceSizes(p.layout, ratios, s.start, p.nComp, p.nIndexComp)[k];
      }
    }
    assert s.start > 0 || acc.nComp == [];
  }

  /** Shards of earlier slices do not change when layers are added behind them. */
  lemma GrowKeepsShard(acc: Snapshot, p: Part, n: nat, t: Slice)
    requires Layered(acc, n) && t.start <= t.end < n && acc.layout == p.layout
    requires |p.nComp| == |p.nIndexComp| == |p.tensors| && n + |p.nComp| <= MAX
    ensures Covers(acc, t) && Covers(Grow(acc, p), t) && Shard(Grow(acc, p), t) == Shard(acc, t)
  {
    var next := Grow(acc, p);
    assert next.nComp[t.start..t.end + 1] == acc.nComp[t.start..t.end + 1];
    assert next.nIndexComp[t.start..t.end + 1] == acc.nIndexComp[t.start..t.end + 1];
    assert next.tensors[t.start..t.end + 1] == acc.tensors[t.start..t.end + 1];
  }

  lemma GrowAddsShard(acc: Snapshot, ratios: Ratios, p: Part, s: Slice)
    requires Layered(acc, s.start) && PartSound(p, ratios, s) && |ratios| <= MAX
    ensures Covers(Grow(acc, p), s) && Shard(Grow(acc, p), s) == PartBytes(p, s)
  {
    hide WordBytes, Concat, LayerHeader, RawLiveValid, AllBelow, SliceSizes, Lengths;
    var next := Grow(acc, p);
    assert next.nComp[s.start..s.end + 1] == p.nComp;
    assert next.nIndexComp[s.start..s.end + 1] == p.nIndexComp;
    assert next.tensors[s.start..s.end + 1] == p.tensors;
  }

  /** The state of the gathering loop before shard `i`. */
  ghost predicate GatheredTo(acc: Snapshot, ratios: Ratios, vocab: Word, route: seq<Slice>, shards: seq<seq<Byte>>, i: nat) {
    && |ratios| <= MAX && RouteOk(route, |ratios|) && i <= |route| == |shards|
    && SizedTo(acc, ratios, NextLayer(route, i))
    && (forall j :: 0 <= j < i ==> Covers(acc, route[j]) && shards[j] == Shard(acc, route[j]))
    && (i > 0 ==> acc.layout.nLayers == |ratios| && RawLiveValid(acc.layout) && acc.layout.vocab == vocab)
    && (i > 0 ==> ParseShard(shards[0], ratios, vocab, route[0]).Ok?
                  && acc.layout == ParseShard(shards[0], ratios, vocab, route[0]).value.layout)
  }

  lemma GatherStarts(acc: Snapshot, ratios: Ratios, vocab: Word, route: seq<Slice>, shards: seq<seq<Byte>>)
    requires |ratios| <= MAX && RouteOk(route, |ratios|) && |route| == |shards| && Layered(acc, 0)
    ensures GatheredTo(acc, ratios, vocab, route, shards, 0)
  {
  }

  lemma GatherMore(acc: Snapshot, ratios: Ratios, vocab: Word, route: seq<Slice>, shards: seq<seq<Byte>>, i: nat)
    requires GatheredTo(acc, ratios, vocab, route, shards, i) && i < |route|
    requires ParseShard(shards[i], ratios, vocab, route[i]).Ok?
    requires i > 0 ==> acc.layout == ParseShard(shards[i], ratios, vocab, route[i]).value.layout
    ensures GatheredTo(Grow(acc, ParseShard(shards[i], ratios, vocab, route[i]).value), ratios, vocab, route, shards, i + 1)
  {
    hide ParseShard, Shard, PartBytes, SizedTo, RouteOk, RawLiveValid;
    var p := ParseShard(shards[i], ratios, vocab, route[i]).value;
    ShardParsed(shards[i], ratios, vocab, route[i]);
    OnRoute(route, |ratios|, i);
    SizedIsLayered(acc, ratios, route[i].start);
    GrowSized(acc, ratios, p, route[i]);
    GrowAddsShard(acc, ratios, p, route[i]);
    forall j | 0 <= j < i ensures Covers(Grow(acc, p), route[j]) && shards[j] == Shard(Grow(acc, p), route[j]) {
      GrowKeepsShard(acc, p, route[i].start, route[j]);
    }
  }

  lemma SizedIsLayered(acc: Snapshot, ratios: Ratios, n: nat)
    requires SizedTo(acc, ratios, n)
    ensures Layered(acc, n)
  {
  }

  // --- Saving ---

  /** The shards are those of the snapshot `sn`, whose tokens and logits the coordinator has. */
  ghost predicate Saved(sn: Snapshot, ratios: Ratios, vocab: Word, tokens: seq<Word>, logits: seq<Byte>,
                        route: seq<Slice>, shards: seq<seq<Byte>>)
  {
    && |ratios| <= MAX && RouteOk(route, |ratios|) && |route| == |shards|
    && Sound(sn, ratios) && sn.layout.vocab == vocab && sn.layout.tokenCount == |tokens|
    && sn.tokens == tokens && sn.logits == logits
    && forall i :: 0 <= i < |route| ==> Covers(sn, route[i]) && shards[i] == Shard(sn, route[i])
  }

  lemma SavedParses(sn: Snapshot, ratios: Ratios, vocab: Word, tokens: seq<Word>, logits: seq<Byte>,
                    route: seq<Slice>, shards: seq<seq<Byte>>, i: nat)
    requires i < |route| == |shards| && Saved(sn, ratios, vocab, tokens, logits, route, shards)
    ensures Covers(sn, route[i]) && ParseShard(shards[i], ratios, vocab, route[i]) == Ok(PartOf(sn, route[i]))
  {
    hide Sound, ParseShard, Shard, RouteOk;
    OnRoute(route, |ratios|, i);
    ShardParses(sn, ratios, route[i]);
  }

  lemma {:induction false} SliceOf(route: seq<Slice>, n: nat, i: nat, m: nat) returns (k: nat)
    requires RouteOk(route, n) && i <= |route| && m < NextLayer(route, i)
    ensures k < i && route[k].start <= m <= route[k].end
    decreases i
  {
    hide RouteOk;
    OnRoute(route, n, i - 1);
    if route[i - 1].start <= m { k := i - 1; } else { k := SliceOf(route, n, i - 1, m); }
  }

  /** The shards of a route determine the snapshot. */
  lemma SavedIsUnique(sn: Snapshot, tn: Snapshot, ratios: Ratios, vocab: Word, tokens: seq<Word>, logits: seq<Byte>,
                      route: seq<Slice>, shards: seq<seq<Byte>>)
    requires Saved(sn, ratios, vocab, tokens, logits, route, shards)
    requires Saved(tn, ratios, vocab, tokens, logits, route, shards)
    ensures sn == tn
  {
    hide ParseShard, Shard, RouteOk, RawLiveValid, AllBelow;
    assert route != [] && NextLayer(route, |route|) == |ratios| by { RouteNonEmpty(route, |ratios|); }
    SavedParses(sn, ratios, vocab, tokens, logits, route, shards, 0);
    SavedParses(tn, ratios, vocab, tokens, logits, route, shards, 0);
    forall m | 0 <= m < |ratios|
      ensures sn.nComp[m] == tn.nComp[m] && sn.nIndexComp[m] == tn.nIndexComp[m] && sn.tensors[m] == tn.tensors[m]
    {
      var k := SliceOf(route, |ratios|, |route|, m);
      SavedParses(sn, ratios, vocab, tokens, logits, route, shards, k);
      SavedParses(tn, ratios, vocab, tokens, logits, route, shards, k);
      SameLayer(sn, tn, route[k], m);
    }
  }

  lemma RouteNonEmpty(route: seq<Slice>, n: nat)
    requires RouteOk(route, n)
    ensures route != [] && NextLayer(route, |route|) == n
  {
  }

  lemma SameLayer(sn: Snapshot, tn: Snapshot, s: Slice, m: nat)
    requires Covers(sn, s) && Covers(tn, s) && PartOf(sn, s) == PartOf(tn, s) && s.start <= m <= s.end
    ensures sn.nComp[m] == tn.nComp[m] && sn.nIndexComp[m] == tn.nIndexComp[m] && sn.tensors[m] == tn.tensors[m]
  {
    var k := m - s.start;
    assert PartOf(sn, s).nComp[k] == PartOf(tn, s).nComp[k];
    assert PartOf(sn, s).nIndexComp[k] == PartOf(tn, s).nIndexComp[k];
    assert PartOf(sn, s).tensors[k] == PartOf(tn, s).tensors[k];
  }

  lemma GatherIsSaved(acc: Snapshot, ratios: Ratios, vocab: Word, tokens: seq<Word>, logits: seq<Byte>,
                      route: seq<Slice>, shards: seq<seq<Byte>>)
    requires GatheredTo(acc, ratios, vocab, route, shards, |route|)
    requires acc.tokens == tokens && acc.logits == logits && acc.layout.tokenCount == |tokens|
    ensures Saved(acc, ratios, vocab, tokens, logits, route, shards)
  {
    hide ParseShard, Shard, RawLiveValid, AllBelow, TensorBytes;
    RouteNonEmpty(route, |ratios|);
  }

  /** Why a save fails at shard `i`: it does not parse, or its layout is not the first one's. */
  lemma NotSaved(acc: Snapshot, ratios: Ratios, vocab: Word, tokens: seq<Word>, logits: seq<Byte>,
                 route: seq<Slice>, shards: seq<seq<Byte>>, i: nat)
    requires GatheredTo(acc, ratios, vocab, route, shards, i) && i < |route|
    requires ParseShard(shards[i], ratios, vocab, route[i]).Ok? ==>
               i > 0 && acc.layout != ParseShard(shards[i], ratios, vocab, route[i]).value.layout
    ensures forall sn :: !Saved(sn, ratios, vocab, tokens, logits, route, shards)
  {
    hide ParseShard, Shard, RouteOk, RawLiveValid, SizedTo, Sound;
    forall sn ensures !Saved(sn, ratios, vocab, tokens, logits, route, shards) {
      if Saved(sn, ratios, vocab, tokens, logits, route, shards) {
        SavedParses(sn, ratios, vocab, tokens, logits, route, shards, i);
        SavedParses(sn, ratios, vocab, tokens, logits, route, shards, 0);
      }
    }
  }

  /** The token count of the shards must be the coordinator's. */
  lemma OtherTimeline(acc: Snapshot, ratios: Ratios, vocab: Word, tokens: seq<Word>, logits: seq<Byte>,
                      route: seq<Slice>, shards: seq<seq<Byte>>)
    requires GatheredTo(acc, ratios, vocab, route, shards, |route|) && acc.layout.tokenCount != |tokens|
    ensures forall sn :: !Saved(sn, ratios, vocab, tokens, logits, route, shards)
  {
    hide ParseShard, Shard, RouteOk, RawLiveValid, SizedTo, Sound;
    RouteNonEmpty(route, |ratios|);
    forall sn ensures !Saved(sn, ratios, vocab, tokens, logits, route, shards) {
      if Saved(sn, ratios, vocab, tokens, logits, route, shards) {
        SavedParses(sn, ratios, vocab, tokens, logits, route, shards, 0);
      }
    }
  }

  /** dist_kv_layout_matches compares every field but the vocabulary. */
  predicate LayoutMatches(a: Layout, b: Layout) {
    a.(vocab := 0) == b.(vocab := 0)
  }

  /** ds4_dist_session_save_payload behind the shard transfers: it succeeds exactly when the
      shards are those of one snapshot, and then writes that snapshot. */
  method Save(ratios: Ratios, vocab: Word, tokens: seq<Word>, logits: seq<Byte>, route: seq<Slice>, shards: seq<seq<Byte>>)
    returns (r: Result<seq<Byte>>)
    requires |ratios| <= MAX && RouteOk(route, |ratios|) && |route| == |shards|
    requires forall i :: 0 <= i < |shards| ==> |shards[i]| < U64
    ensures r.Ok? <==> exists sn :: Saved(sn, ratios, vocab, tokens, logits, route, shards)
    ensures forall sn :: Saved(sn, ratios, vocab, tokens, logits, route, shards) ==> r == Ok(Wire(sn))
  {
    hide ParseShard, Saved, GatheredTo, RouteOk, WordBytes, Concat, SessionHeader;
    var blank := Layout(0, 0, 0, 0, 0, 0, 0, 0, 0, vocab, 0);
    var acc := Snapshot(blank, tokens, logits, [], [], []);
    GatherStarts(acc, ratios, vocab, route, shards);
    for i := 0 to |route|
      invariant GatheredTo(acc, ratios, vocab, route, shards, i) && acc.tokens == tokens && acc.logits == logits
    {
      var part := ReadShard(shards[i], ratios, vocab, route[i]);
      VocabKept(acc, ratios, vocab, route, shards, i);
      if part.Err? || (i > 0 && !LayoutMatches(acc.layout, part.value.layout)) {
        NotSaved(acc, ratios, vocab, tokens, logits, route, shards, i);
        return Err;
      }
      GatherMore(acc, ratios, vocab, route, shards, i);
      acc := Grow(acc, part.value);
    }
    if acc.layout.tokenCount != |tokens| {
      OtherTimeline(acc, ratios, vocab, tokens, logits, route, shards);
      return Err;
    }
    GatherIsSaved(acc, ratios, vocab, tokens, logits, route, shards);
    forall sn | Saved(sn, ratios, vocab, tokens, logits, route, shards) ensures sn == acc {
      SavedIsUnique(sn, acc, ratios, vocab, tokens, logits, route, shards);
    }
    r := Ok(Wire(acc));
  }

  lemma VocabKept(acc: Snapshot, ratios: Ratios, vocab: Word, route: seq<Slice>, shards: seq<seq<Byte>>, i: nat)
    requires GatheredTo(acc, ratios, vocab, route, shards, i) && i < |route|
    ensures i > 0 ==> acc.layout.vocab == vocab
    ensures ParseShard(shards[i], ratios, vocab, route[i]).Ok? ==>
              ParseShard(shards[i], ratios, vocab, route[i]).value.layout.vocab == vocab
  {
    hide ParseShard, Shard, RouteOk, RawLiveValid, SizedTo;
    if ParseShard(shards[i], ratios, vocab, route[i]).Ok? { ShardParsed(shards[i], ratios, vocab, route[i]); }
  }

  // --- Topology neutrality ---

  lemma LoadedIsSaved(sn: Snapshot, rt: Runtime, route: seq<Slice>)
    requires Loadable(sn, rt) && |rt.ratios| <= MAX && RouteOk(route, |rt.ratios|)
    requires forall i :: 0 <= i < |route| ==> Covers(sn, route[i])
    ensures Saved(sn, rt.ratios, rt.vocab, sn.tokens, sn.logits, route, Shards(sn, route))
  {
    hide Shard, RouteOk, AllBelow, RawLiveValid;
  }

  /** Any payload the loader accepts, along any route: the shards handed out are those of
      one snapshot, so saving from them (`Save`) writes the payload back byte for byte. */
  lemma SavingALoadRestoresThePayload(b: seq<Byte>, rt: Runtime, route: seq<Slice>)
    requires |rt.ratios| <= MAX && RouteOk(route, |rt.ratios|) && Parse(b, rt).Ok?
    ensures LoadOf(b, rt, route).Ok? && Wire(Parse(b, rt).value) == b
    ensures var l := LoadOf(b, rt, route).value;
            Saved(Parse(b, rt).value, rt.ratios, rt.vocab, l.tokens, l.logits, route, l.shards)
  {
    hide Parse, Loadable, Wire, Saved, RouteOk, Shard;
    var sn := Parse(b, rt).value;
    WireInvertsParse(b, rt);
    LoadableSizes(sn, rt);
    RouteCovers(sn, rt.ratios, route);
    LoadedIsSaved(sn, rt, route);
  }

  /** Moving a payload to another route: a layer's tensors and row counts in the shard of
      whichever machine owns it are the payload's own, whatever the route. */
  lemma LayersDoNotDependOnTheRoute(b: seq<Byte>, rt: Runtime, route: seq<Slice>, i: nat, m: nat)
    requires |rt.ratios| <= MAX && RouteOk(route, |rt.ratios|) && Parse(b, rt).Ok?
    requires i < |route| && route[i].start <= m <= route[i].end
    ensures LoadOf(b, rt, route).Ok? && i < |LoadOf(b, rt, route).value.shards|
    ensures var part := ParseShard(LoadOf(b, rt, route).value.shards[i], rt.ratios, rt.vocab, route[i]);
            var sn := Parse(b, rt).value;
            && part.Ok? && m < |sn.tensors| && m < |sn.nComp| && m < |sn.nIndexComp| && route[i].end - route[i].start < |part.value.tensors|
            && part.value.layout == sn.layout
            && part.value.tensors[m - route[i].start] == sn.tensors[m]
            && part.value.nComp[m - route[i].start] == sn.nComp[m]
            && part.value.nIndexComp[m - route[i].start] == sn.nIndexComp[m]
  {
    hide Parse, Loadable, Wire, RouteOk, Shard, ParseShard, Sound, RawLiveValid;
    SavingALoadRestoresThePayload(b, rt, route);
    var l, sn := LoadOf(b, rt, route).value, Parse(b, rt).value;
    SavedParses(sn, rt.ratios, rt.vocab, l.tokens, l.logits, route, l.shards, i);
  }

  // --- Saving on one route, loading on another ---

  /** What the loader asks of a snapshot beyond what the saver has checked: it must fit the
      session it is loaded into, with room for one more token, and use known token ids. */
  predicate Continuable(sn: Snapshot, rt: Runtime) {
    sn.layout.ctx <= rt.ctx && sn.layout.tokenCount < rt.ctx && AllBelow(sn.tokens, TokenBound(rt))
  }

  lemma SavedIsLoadable(sn: Snapshot, rt: Runtime, tokens: seq<Word>, logits: seq<Byte>, route: seq<Slice>, shards: seq<seq<Byte>>)
    requires Saved(sn, rt.ratios, rt.vocab, tokens, logits, route, shards) && |logits| == 4 * rt.vocab
    ensures Loadable(sn, rt) <==> Continuable(sn, rt)
  {
    hide Shard, RouteOk, AllBelow, RawLiveValid, SizesMatch;
  }

  lemma LayoutRefused(sn: Snapshot, rt: Runtime, rest: seq<Byte>)
    ensures ParseLayout(WordBytes(SessionHeader(sn.layout)) + rest, rt).Ok? ==> LayoutOk(sn.layout, rt)
    ensures LayoutOk(sn.layout, rt) ==> ParseLayout(WordBytes(SessionHeader(sn.layout)) + rest, rt) == Ok(sn.layout)
    ensures (WordBytes(SessionHeader(sn.layout)) + rest)[4 * SESSION_FIELDS..] == rest
  {
    hide WordBytes, TakeWords, LayoutOk;
    TakeWritten(SessionHeader(sn.layout), MAX + 1, rest);
  }

  lemma WordsRefused(ws: seq<Word>, bound: nat, rest: seq<Byte>)
    ensures TakeWords(WordBytes(ws) + rest, |ws|, bound).Ok? ==> AllBelow(ws, bound)
  {
    hide WordBytes;
    WordsRoundTrip(ws, rest);
  }

  /** A payload with a snapshot that does not fit is refused. */
  lemma MisfitIsRefused(sn: Snapshot, rt: Runtime)
    requires |sn.tokens| == sn.layout.tokenCount
    ensures Parse(Wire(sn), rt).Ok? ==> LayoutOk(sn.layout, rt) && AllBelow(sn.tokens, TokenBound(rt))
  {
    hide WordBytes, TakeWords, AllBelow, ParseLayers, ParseLayout, Concat, LayoutOk, TokenBound;
    var b2 := sn.logits + LayersBytes(sn);
    var b1 := WordBytes(sn.tokens) + b2;
    assert Wire(sn) == WordBytes(SessionHeader(sn.layout)) + b1;
    LayoutRefused(sn, rt, b1);
    WordsRefused(sn.tokens, TokenBound(rt), b2);
  }

  /** The coordinator's own checks pass if and only if the snapshot fits the session, and
      then the new route's shards are those of the very snapshot that was saved. */
  lemma SavedShards(sn: Snapshot, rt: Runtime, tokens: seq<Word>, logits: seq<Byte>, from: seq<Slice>, shards: seq<seq<Byte>>,
                    to: seq<Slice>)
    requires Saved(sn, rt.ratios, rt.vocab, tokens, logits, from, shards) && |logits| == 4 * rt.vocab
    requires |rt.ratios| <= MAX && RouteOk(to, |rt.ratios|)
    ensures LoadOf(Wire(sn), rt, to).Ok? <==> Continuable(sn, rt)
    ensures forall i :: 0 <= i < |to| ==> Covers(sn, to[i])
    ensures Continuable(sn, rt) ==> LoadOf(Wire(sn), rt, to) == Ok(Loaded(tokens, logits, Shards(sn, to)))
  {
    SavedIsLoadable(sn, rt, tokens, logits, from, shards);
    SavedTimeline(sn, rt.ratios, rt.vocab, tokens, logits, from, shards);
    hide Parse, Wire, Loadable, Saved, RouteOk, Shard, RawLiveValid, AllBelow, SizesMatch;
    MisfitIsRefused(sn, rt);
    RouteCovers(sn, rt.ratios, to);
    if Continuable(sn, rt) { ParseInvertsWire(sn, rt); }
  }

  /** One machine of the same model for every slice. */
  predicate SameModel(machines: seq<Machine>, route: seq<Slice>, ratios: Ratios) {
    Staffed(machines, route) && forall i :: 0 <= i < |machines| ==> machines[i].ratios == ratios
  }

  /** The snapshot fits the caches of every machine. */
  ghost predicate FitsAll(sn: Snapshot, machines: seq<Machine>, route: seq<Slice>)
    requires |machines| == |route|
  {
    forall i :: 0 <= i < |route| ==> FitsSlice(sn, machines[i], route[i])
  }

  ghost predicate FitsSlice(sn: Snapshot, m: Machine, s: Slice) {
    Covers(sn, s) && m.Valid() && |m.ratios| == |sn.nComp| && FitsMachine(sn, m, s)
  }

  /** Saved along one route, loaded along any other: the load succeeds if and only if the
      snapshot fits the coordinator's session and the caches of every machine of the new
      route, and then each of them gets its shard of the very snapshot that was saved. */
  lemma SaveThenLoad(sn: Snapshot, rt: Runtime, tokens: seq<Word>, logits: seq<Byte>, from: seq<Slice>, shards: seq<seq<Byte>>,
                     to: seq<Slice>, machines: seq<Machine>)
    requires Saved(sn, rt.ratios, rt.vocab, tokens, logits, from, shards) && |logits| == 4 * rt.vocab
    requires |rt.ratios| <= MAX && RouteOk(to, |rt.ratios|) && SameModel(machines, to, rt.ratios)
    ensures forall i :: 0 <= i < |to| ==> Covers(sn, to[i])
    ensures LoadResult(Wire(sn), rt, to, machines)
            == if Continuable(sn, rt) && FitsAll(sn, machines, to) then Ok(Loaded(tokens, logits, Shards(sn, to))) else Err
  {
    hide Wire, Saved, RouteOk, Shard, LoadOf, Continuable, Accepts, FitsMachine, Sound;
    SavedShards(sn, rt, tokens, logits, from, shards, to);
    SavedTimeline(sn, rt.ratios, rt.vocab, tokens, logits, from, shards);
    forall i | 0 <= i < |to|
      ensures Accepts(Shard(sn, to[i]), machines[i], |tokens|, to[i]) <==> FitsSlice(sn, machines[i], to[i])
    {
      AcceptsExactlyWhatFits(sn, machines[i], to[i]);
    }
  }

  lemma SavedTimeline(sn: Snapshot, ratios: Ratios, vocab: Word, tokens: seq<Word>, logits: seq<Byte>,
                      route: seq<Slice>, shards: seq<seq<Byte>>)
    requires Saved(sn, ratios, vocab, tokens, logits, route, shards)
    ensures sn.tokens == tokens && sn.logits == logits && |tokens| == sn.layout.tokenCount
    ensures Sound(sn, ratios) && SizesMatch(sn, ratios)
  {
    hide RouteOk, Shard, RawLiveValid, SizesMatch;
  }

  /** A session that is full, one token per position of its context, can be saved like any
      other, but no session of that size or smaller takes the payload back. */
  lemma FullSessionIsRefused(sn: Snapshot, rt: Runtime, tokens: seq<Word>, logits: seq<Byte>, from: seq<Slice>,
                             shards: seq<seq<Byte>>, to: seq<Slice>, machines: seq<Machine>)
    requires Saved(sn, rt.ratios, rt.vocab, tokens, logits, from, shards) && |logits| == 4 * rt.vocab
    requires |rt.ratios| <= MAX && RouteOk(to, |rt.ratios|) && SameModel(machines, to, rt.ratios)
    requires |tokens| == sn.layout.ctx && rt.ctx <= sn.layout.ctx
    ensures LoadResult(Wire(sn), rt, to, machines).Err?
  {
    hide Wire, Saved, RouteOk, Shard, LoadResult, FitsAll, Sound;
    SaveThenLoad(sn, rt, tokens, logits, from, shards, to, machines);
    SavedTimeline(sn, rt.ratios, rt.vocab, tokens, logits, from, shards);
  }

  /** Sessions of one model, on sessions as the engine creates them: what was taken on
      machines like `saver` loads on the machines of any new route if and only if their
      contexts and the coordinator's are as large, have room for one more token, and give
      the same sliding window. */
  lemma MovesExactly(sn: Snapshot, rt: Runtime, tokens: seq<Word>, logits: seq<Byte>, from: seq<Slice>, shards: seq<seq<Byte>>,
                     to: seq<Slice>, machines: seq<Machine>, saver: Machine, swa: Word)
    requires Saved(sn, rt.ratios, rt.vocab, tokens, logits, from, shards) && |logits| == 4 * rt.vocab
    requires AllBelow(tokens, TokenBound(rt))
    requires |rt.ratios| <= MAX && RouteOk(to, |rt.ratios|) && SameModel(machines, to, rt.ratios)
    requires saver.ratios == rt.ratios && Created(saver, swa) && TakenOn(sn, saver)
    requires forall i :: 0 <= i < |machines| ==> Created(machines[i], swa) && SameDims(machines[i], saver)
    ensures LoadResult(Wire(sn), rt, to, machines).Ok? <==>
              && saver.ctx <= rt.ctx && |tokens| < rt.ctx
              && forall i :: 0 <= i < |machines| ==> HasRoom(machines[i], saver, swa, |tokens|)
  {
    hide Wire, Saved, RouteOk, Shard, LoadOf, Accepts, Created, TakenOn, HasRoom, AllBelow;
    SavedShards(sn, rt, tokens, logits, from, shards, to);
    SavedTimeline(sn, rt.ratios, rt.vocab, tokens, logits, from, shards);
    SavedHere(sn, saver);
    forall i | 0 <= i < |to|
      ensures Accepts(Shard(sn, to[i]), machines[i], |tokens|, to[i]) <==> HasRoom(machines[i], saver, swa, |tokens|)
    {
      RestoredOn(sn, saver, machines[i], swa, to, i);
    }
  }

  predicate SameDims(m: Machine, saver: Machine) {
    m.headDim == saver.headDim && m.indexerHeadDim == saver.indexerHeadDim
  }

  predicate HasRoom(m: Machine, saver: Machine, swa: Word, nTokens: nat) {
    saver.ctx <= m.ctx && nTokens < m.ctx && (saver.ctx == m.ctx || swa <= saver.ctx)
  }

  lemma SavedHere(sn: Snapshot, saver: Machine)
    requires TakenOn(sn, saver)
    ensures sn.layout.ctx == saver.ctx && sn.layout.tokenCount == |sn.tokens|
  {
    hide Sound;
  }

  lemma RestoredOn(sn: Snapshot, saver: Machine, m: Machine, swa: Word, to: seq<Slice>, i: nat)
    requires Created(saver, swa) && Created(m, swa) && TakenOn(sn, saver) && m.ratios == saver.ratios && SameDims(m, saver)
    requires i < |to| && RouteOk(to, |m.ratios|) && m.Valid()
    ensures Covers(sn, to[i]) && (Accepts(Shard(sn, to[i]), m, |sn.tokens|, to[i]) <==> HasRoom(m, saver, swa, |sn.tokens|))
  {
    hide Created, TakenOn, Accepts, Shard, RouteOk;
    OnRoute(to, |m.ratios|, i);
    RestoredExactly(sn, saver, m, swa, to[i]);
  }
}
