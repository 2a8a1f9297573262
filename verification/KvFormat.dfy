/** The snapshot formats: one payload in the single-machine format, and the shards of it
    that single machines hold. */
module KvFormat {
  import opened Results
  import opened Words
  import opened KvSizes

  const SESSION_MAGIC: Word := 0x34565344
  const SESSION_VERSION: Word := 2
  const LAYER_MAGIC: Word := 0x4c565344
  const LAYER_VERSION: Word := 1
  const SESSION_FIELDS: nat := 13
  const LAYER_FIELDS: nat := 14

  /** The model the runtime was started with: the compression ratio of every layer. */
  type Ratios = seq<Word>

  /** What a payload holds. `tensors` has one entry per layer. */
  datatype Snapshot = Snapshot(layout: Layout, tokens: seq<Word>, logits: seq<Byte>,
                               nComp: seq<Word>, nIndexComp: seq<Word>, tensors: seq<seq<Byte>>)

  /** One machine's layers, first and last. */
  datatype Slice = Slice(start: nat, end: nat)

  // --- Words in sequence ---

  function WordBytes(ws: seq<Word>): (b: seq<Byte>)
    ensures |b| == 4 * |ws|
  {
    if ws == [] then [] else WordBytes(ws[..|ws| - 1]) + LittleEndian(ws[|ws| - 1])
  }

  function WordsOf(b: seq<Byte>, n: nat): (ws: seq<Word>)
    requires 4 * n <= |b|
    ensures |ws| == n
  {
    if n == 0 then [] else WordsOf(b, n - 1) + [FromLittleEndian(b[4 * n - 4..4 * n])]
  }

  lemma WordBytesMore(ws: seq<Word>, w: Word)
    ensures WordBytes(ws + [w]) == WordBytes(ws) + LittleEndian(w)
  {
    assert (ws + [w])[..|ws|] == ws;
  }

  /** The word behind the first `n`. */
  lemma WordsOfMore(b: seq<Byte>, n: nat)
    requires 4 * n + 4 <= |b|
    ensures WordsOf(b, n + 1) == WordsOf(b, n) + [FromLittleEndian(b[4 * n..4 * n + 4])]
  {
  }

  lemma {:induction false} WordsRoundTrip(ws: seq<Word>, rest: seq<Byte>)
    ensures WordsOf(WordBytes(ws) + rest, |ws|) == ws
    decreases |ws|
  {
    hide LittleEndian, FromLittleEndian, WordBytes;
    if ws != [] {
      hide WordsOf;
      var n := |ws| - 1;
      var init, w := ws[..n], ws[n];
      assert ws == init + [w];
      WordsRoundTrip(init, LittleEndian(w) + rest);
      WordBytesMore(init, w);
      Reassociate(WordBytes(init), LittleEndian(w), rest);
      WordsOfMore(WordBytes(ws) + rest, n);
      assert (WordBytes(ws) + rest)[4 * n..4 * n + 4] == LittleEndian(w);
      LittleEndianRoundTrip(w, LittleEndian(w));
    }
  }

  lemma {:induction false} BytesRoundTrip(b: seq<Byte>, n: nat)
    requires 4 * n <= |b|
    ensures WordBytes(WordsOf(b, n)) == b[..4 * n]
    decreases n
  {
    hide LittleEndian, FromLittleEndian;
    if n > 0 {
      hide WordsOf, WordBytes;
      var m := n - 1;
      BytesRoundTrip(b, m);
      WordsOfMore(b, m);
      WordBytesMore(WordsOf(b, m), FromLittleEndian(b[4 * m..4 * m + 4]));
      LittleEndianRoundTrip(0, b[4 * m..4 * m + 4]);
      assert b[..4 * n] == b[..4 * m] + b[4 * m..4 * m + 4];
    }
  }

  lemma Reassociate(x: seq<Byte>, y: seq<Byte>, z: seq<Byte>)
    ensures x + (y + z) == x + y + z
  {
  }

  function Concat(parts: seq<seq<Byte>>): seq<Byte> {
    if parts == [] then [] else parts[0] + Concat(parts[1..])
  }

  lemma {:induction false} ConcatSplits(x: seq<seq<Byte>>, y: seq<seq<Byte>>)
    ensures Concat(x + y) == Concat(x) + Concat(y)
  {
    if x == [] {
      assert x + y == y;
    } else {
      assert (x + y)[1..] == x[1..] + y;
      ConcatSplits(x[1..], y);
    }
  }

  // --- The formats ---

  function SessionHeader(l: Layout): (h: seq<Word>)
    ensures |h| == SESSION_FIELDS
  {
    [SESSION_MAGIC, SESSION_VERSION, l.ctx, l.prefillCap, l.rawCap, l.rawWindow, l.compCap, l.tokenCount,
     l.nLayers, l.headDim, l.indexerHeadDim, l.vocab, l.rawLive]
  }

  function LayerHeader(l: Layout, start: Word, end: Word): (h: seq<Word>)
    ensures |h| == LAYER_FIELDS
  {
    [LAYER_MAGIC, LAYER_VERSION, l.ctx, l.prefillCap, l.rawCap, l.rawWindow, l.compCap, l.tokenCount,
     l.nLayers, l.headDim, l.indexerHeadDim, start, end, l.rawLive]
  }

  /** The whole payload. */
  function Wire(sn: Snapshot): seq<Byte> {
    WordBytes(SessionHeader(sn.layout)) + (WordBytes(sn.tokens) + (sn.logits
      + (WordBytes(sn.nComp) + (WordBytes(sn.nIndexComp) + Concat(sn.tensors)))))
  }

  ghost predicate Covers(sn: Snapshot, s: Slice) {
    s.start <= s.end < |sn.nComp| && |sn.nIndexComp| == |sn.tensors| == |sn.nComp| <= MAX
  }

  /** A shard: its header, the row counts of its layers, their tensors. */
  function ShardBytes(l: Layout, nComp: seq<Word>, nIndexComp: seq<Word>, s: Slice, tensors: seq<seq<Byte>>): seq<Byte>
    requires s.start <= s.end < |nComp| == |nIndexComp| <= MAX
  {
    WordBytes(LayerHeader(l, s.start, s.end)) + (WordBytes(nComp[s.start..s.end + 1])
      + (WordBytes(nIndexComp[s.start..s.end + 1]) + Concat(tensors)))
  }

  /** One machine's shard of a snapshot. */
  function Shard(sn: Snapshot, s: Slice): seq<Byte>
    requires Covers(sn, s)
  {
    ShardBytes(sn.layout, sn.nComp, sn.nIndexComp, s, sn.tensors[s.start..s.end + 1])
  }

  function SizeOf(l: Layout, ratios: Ratios, nComp: seq<Word>, nIndexComp: seq<Word>, layer: nat): nat
    requires layer < |ratios| && layer < |nComp| && layer < |nIndexComp|
  {
    TensorBytes(l, ratios[layer], nComp[layer], nIndexComp[layer])
  }

  ghost predicate SizesMatch(sn: Snapshot, ratios: Ratios) {
    && |sn.nComp| == |sn.nIndexComp| == |sn.tensors| == |ratios|
    && forall i :: 0 <= i < |ratios| ==> |sn.tensors[i]| == SizeOf(sn.layout, ratios, sn.nComp, sn.nIndexComp, i)
  }

  predicate AllBelow(ws: seq<Word>, bound: nat) {
    forall i :: 0 <= i < |ws| ==> ws[i] < bound
  }

  /** What the runtime knows when it loads. */
  datatype Runtime = Runtime(ratios: Ratios, ctx: Word, vocab: Word)

  predicate LayoutOk(l: Layout, rt: Runtime) {
    && l.nLayers == |rt.ratios| && l.ctx <= rt.ctx && l.tokenCount < rt.ctx && l.vocab == rt.vocab
    && RawLiveValid(l)
  }

  function TokenBound(rt: Runtime): nat {
    if rt.vocab < 0x8000_0000 then rt.vocab else 0x8000_0000
  }

  /** A token must be a vocabulary id and a 32-bit int. */
  lemma TokenInBound(t: Word, rt: Runtime)
    ensures t < TokenBound(rt) <==> t < rt.vocab && t <= 0x7fff_ffff
  {
  }

  /** A snapshot the loader accepts, whatever the route. */
  ghost predicate Loadable(sn: Snapshot, rt: Runtime) {
    && LayoutOk(sn.layout, rt)
    && |sn.tokens| == sn.layout.tokenCount && AllBelow(sn.tokens, TokenBound(rt))
    && |sn.logits| == 4 * sn.layout.vocab
    && SizesMatch(sn, rt.ratios)
    && AllBelow(sn.nComp, sn.layout.compCap + 1) && AllBelow(sn.nIndexComp, sn.layout.compCap + 1)
  }

  // --- The formats, field by field ---

  /** The 32-bit field at byte `at`, least significant byte first. */
  function Field(b: seq<Byte>, at: nat): int
    requires at + 4 <= |b|
  {
    Number(b[at], b[at + 1], b[at + 2], b[at + 3])
  }

  /** The fields from byte `at` on are these. */
  ghost predicate FieldsAre(b: seq<Byte>, at: nat, ws: seq<Word>) {
    at + 4 * |ws| <= |b| && forall i :: 0 <= i < |ws| ==> Field(b, at + 4 * i) == ws[i]
  }

  lemma {:induction false} FieldOfWords(b: seq<Byte>, n: nat, i: nat)
    requires 4 * n <= |b| && i < n
    ensures WordsOf(b, n)[i] == Field(b, 4 * i)
    decreases n
  {
    hide FromLittleEndian, WordsOf;
    WordsOfMore(b, n - 1);
    if i < n - 1 { FieldOfWords(b, n - 1, i); } else { FieldOfBytes(b, 4 * i); }
  }

  lemma FieldOfBytes(b: seq<Byte>, at: nat)
    requires at + 4 <= |b|
    ensures FromLittleEndian(b[at..at + 4]) == Field(b, at)
  {
    hide FromLittleEndian;
    WordValue(0, b[at..at + 4]);
  }

  lemma FieldsWritten(before: seq<Byte>, ws: seq<Word>, after: seq<Byte>)
    ensures FieldsAre(before + (WordBytes(ws) + after), |before|, ws)
  {
    hide WordBytes, WordsOf;
    var b := WordBytes(ws) + after;
    WordsRoundTrip(ws, after);
    forall i | 0 <= i < |ws| ensures Field(before + b, |before| + 4 * i) == ws[i] { FieldOfWords(b, |ws|, i); }
  }

  /** Where everything is in a payload: thirteen fields, the tokens, the logits, the row
      counts, the tensors. */
  lemma PayloadFormat(sn: Snapshot)
    requires |sn.nComp| == |sn.nIndexComp|
    ensures var b, l, n := Wire(sn), sn.layout, |sn.nComp|;
            var logits := 52 + 4 * |sn.tokens|;
            var counts := logits + |sn.logits|;
            && |b| == counts + 8 * n + |Concat(sn.tensors)|
            && FieldsAre(b, 0, [0x34565344, 2, l.ctx, l.prefillCap, l.rawCap, l.rawWindow, l.compCap, l.tokenCount,
                                l.nLayers, l.headDim, l.indexerHeadDim, l.vocab, l.rawLive])
            && FieldsAre(b, 52, sn.tokens) && b[logits..counts] == sn.logits
            && FieldsAre(b, counts, sn.nComp) && FieldsAre(b, counts + 4 * n, sn.nIndexComp)
            && b[counts + 8 * n..] == Concat(sn.tensors)
  {
    hide WordBytes, FieldsAre, Concat;
    var h := SessionHeader(sn.layout);
    var t4 := Concat(sn.tensors);
    var t3 := WordBytes(sn.nIndexComp) + t4;
    var t2 := WordBytes(sn.nComp) + t3;
    var t1 := sn.logits + t2;
    var t0 := WordBytes(sn.tokens) + t1;
    var p1 := WordBytes(h);
    var p2 := p1 + WordBytes(sn.tokens) + sn.logits;
    var p3 := p2 + WordBytes(sn.nComp);
    assert Wire(sn) == [] + (WordBytes(h) + t0) == p1 + t0 == p2 + t2 == p3 + t3 == p3 + WordBytes(sn.nIndexComp) + t4;
    FieldsWritten([], h, t0);
    FieldsWritten(p1, sn.tokens, t1);
    FieldsWritten(p2, sn.nComp, t3);
    FieldsWritten(p3, sn.nIndexComp, t4);
  }

  /** And in a shard: fourteen fields, the row counts of its layers, their tensors. */
  lemma ShardFormat(l: Layout, nComp: seq<Word>, nIndexComp: seq<Word>, s: Slice, tensors: seq<seq<Byte>>)
    requires s.start <= s.end < |nComp| == |nIndexComp| <= MAX
    ensures var b, n := ShardBytes(l, nComp, nIndexComp, s, tensors), s.end + 1 - s.start;
            && |b| == 56 + 8 * n + |Concat(tensors)|
            && FieldsAre(b, 0, [0x4c565344, 1, l.ctx, l.prefillCap, l.rawCap, l.rawWindow, l.compCap, l.tokenCount,
                                l.nLayers, l.headDim, l.indexerHeadDim, s.start, s.end, l.rawLive])
            && FieldsAre(b, 56, nComp[s.start..s.end + 1]) && FieldsAre(b, 56 + 4 * n, nIndexComp[s.start..s.end + 1])
            && b[56 + 8 * n..] == Concat(tensors)
  {
    hide WordBytes, FieldsAre, Concat;
    var h := LayerHeader(l, s.start, s.end);
    var x, y := nComp[s.start..s.end + 1], nIndexComp[s.start..s.end + 1];
    var t2 := Concat(tensors);
    var t1 := WordBytes(y) + t2;
    var t0 := WordBytes(x) + t1;
    var p1 := WordBytes(h);
    var p2 := p1 + WordBytes(x);
    assert ShardBytes(l, nComp, nIndexComp, s, tensors) == [] + (WordBytes(h) + t0) == p1 + t0 == p2 + t1 == p2 + WordBytes(y) + t2;
    FieldsWritten([], h, t0);
    FieldsWritten(p1, x, t1);
    FieldsWritten(p2, y, t2);
  }

  // --- Parsing a payload ---

  /** Reads `n` words below `bound` from the front. */
  function TakeWords(b: seq<Byte>, n: nat, bound: nat): (r: Result<seq<Word>>)
    ensures r.Ok? ==> |r.value| == n && 4 * n <= |b|
  {
    if |b| < 4 * n then Err
    else if AllBelow(WordsOf(b, n), bound) then Ok(WordsOf(b, n)) else Err
  }

  lemma TakeWritten(ws: seq<Word>, bound: nat, rest: seq<Byte>)
    requires AllBelow(ws, bound)
    ensures TakeWords(WordBytes(ws) + rest, |ws|, bound) == Ok(ws)
    ensures (WordBytes(ws) + rest)[4 * |ws|..] == rest
  {
    WordsRoundTrip(ws, rest);
  }

  lemma WriteTaken(b: seq<Byte>, n: nat, bound: nat)
    requires TakeWords(b, n, bound).Ok?
    ensures AllBelow(TakeWords(b, n, bound).value, bound)
    ensures b == WordBytes(TakeWords(b, n, bound).value) + b[4 * n..]
  {
    BytesRoundTrip(b, n);
  }

  /** Cuts consecutive pieces of the given sizes from the front. */
  function Cut(b: seq<Byte>, sizes: seq<nat>): (r: Result<seq<seq<Byte>>>)
    ensures r.Ok? ==> |r.value| == |sizes| && forall i :: 0 <= i < |sizes| ==> |r.value[i]| == sizes[i]
    decreases |sizes|
  {
    if sizes == [] then Ok([])
    else if sizes[0] > |b| then Err
    else
      match Cut(b[sizes[0]..], sizes[1..])
      case Err => Err
      case Ok(rest) => Ok([b[..sizes[0]]] + rest)
  }

  function Lengths(parts: seq<seq<Byte>>): (r: seq<nat>)
    ensures |r| == |parts|
  {
    seq(|parts|, i requires 0 <= i < |parts| => |parts[i]|)
  }

  lemma {:induction false} CutWritten(parts: seq<seq<Byte>>, rest: seq<Byte>)
    ensures Cut(Concat(parts) + rest, Lengths(parts)) == Ok(parts)
    ensures |Concat(parts)| <= |Concat(parts) + rest| && (Concat(parts) + rest)[|Concat(parts)|..] == rest
  {
    if parts != [] {
      var b := Concat(parts) + rest;
      assert b == parts[0] + (Concat(parts[1..]) + rest);
      assert Lengths(parts)[1..] == Lengths(parts[1..]);
      CutWritten(parts[1..], rest);
      assert b[..|parts[0]|] == parts[0] && b[|parts[0]|..] == Concat(parts[1..]) + rest;
      assert parts == [parts[0]] + parts[1..];
    }
  }

  lemma {:induction false} CutIsPrefix(b: seq<Byte>, sizes: seq<nat>)
    requires Cut(b, sizes).Ok?
    ensures var parts := Cut(b, sizes).value;
            Concat(parts) <= b && Lengths(parts) == sizes
  {
    if sizes != [] {
      CutIsPrefix(b[sizes[0]..], sizes[1..]);
      var rest := Cut(b[sizes[0]..], sizes[1..]).value;
      assert ([b[..sizes[0]]] + rest)[1..] == rest;
    }
  }

  function LayoutOf(h: seq<Word>): Layout
    requires |h| == SESSION_FIELDS
  {
    Layout(h[2], h[3], h[4], h[5], h[6], h[7], h[8], h[9], h[10], h[11], h[12])
  }

  function Sizes(l: Layout, ratios: Ratios, nComp: seq<Word>, nIndexComp: seq<Word>): (r: seq<nat>)
    requires |ratios| == |nComp| == |nIndexComp|
    ensures |r| == |ratios|
  {
    seq(|ratios|, i requires 0 <= i < |ratios| => SizeOf(l, ratios, nComp, nIndexComp, i))
  }

  /** The fixed fields of a payload, checked against the runtime. */
  function ParseLayout(b: seq<Byte>, rt: Runtime): (r: Result<Layout>)
    ensures r.Ok? ==> 4 * SESSION_FIELDS <= |b| && LayoutOk(r.value, rt)
  {
    match TakeWords(b, SESSION_FIELDS, MAX + 1)
    case Err => Err
    case Ok(h) =>
      if h[0] != SESSION_MAGIC || h[1] != SESSION_VERSION then Err
      else if LayoutOk(LayoutOf(h), rt) then Ok(LayoutOf(h)) else Err
  }

  /** The row counts of all layers, then their tensors to the last byte. */
  function ParseLayers(b: seq<Byte>, l: Layout, ratios: Ratios): Result<(seq<Word>, seq<Word>, seq<seq<Byte>>)> {
    var n := |ratios|;
    match TakeWords(b, n, l.compCap + 1)
    case Err => Err
    case Ok(nComp) =>
      match TakeWords(b[4 * n..], n, l.compCap + 1)
      case Err => Err
      case Ok(nIndexComp) =>
        var rest := b[4 * n..][4 * n..];
        match Cut(rest, Sizes(l, ratios, nComp, nIndexComp))
        case Err => Err
        case Ok(tensors) => if |Concat(tensors)| == |rest| then Ok((nComp, nIndexComp, tensors)) else Err
  }

  function Parse(b: seq<Byte>, rt: Runtime): Result<Snapshot> {
    match ParseLayout(b, rt)
    case Err => Err
    case Ok(l) =>
      var b1 := b[4 * SESSION_FIELDS..];
      match TakeWords(b1, l.tokenCount, TokenBound(rt))
      case Err => Err
      case Ok(tokens) =>
        var b2 := b1[4 * l.tokenCount..];
        if |b2| < 4 * l.vocab then Err
        else
          match ParseLayers(b2[4 * l.vocab..], l, rt.ratios)
          case Err => Err
          case Ok(layers) => Ok(Snapshot(l, tokens, b2[..4 * l.vocab], layers.0, layers.1, layers.2))
  }

  // --- The loader accepts exactly the written snapshots ---

  lemma LayoutWritten(sn: Snapshot, rt: Runtime, rest: seq<Byte>)
    requires LayoutOk(sn.layout, rt)
    ensures ParseLayout(WordBytes(SessionHeader(sn.layout)) + rest, rt) == Ok(sn.layout)
    ensures (WordBytes(SessionHeader(sn.layout)) + rest)[4 * SESSION_FIELDS..] == rest
  {
    hide WordBytes, TakeWords, LayoutOk;
    TakeWritten(SessionHeader(sn.layout), MAX + 1, rest);
  }

  function LayersBytes(sn: Snapshot): seq<Byte> {
    WordBytes(sn.nComp) + (WordBytes(sn.nIndexComp) + Concat(sn.tensors))
  }

  lemma LayersWritten(sn: Snapshot, ratios: Ratios)
    requires SizesMatch(sn, ratios)
    requires AllBelow(sn.nComp, sn.layout.compCap + 1) && AllBelow(sn.nIndexComp, sn.layout.compCap + 1)
    ensures ParseLayers(LayersBytes(sn), sn.layout, ratios) == Ok((sn.nComp, sn.nIndexComp, sn.tensors))
  {
    hide WordBytes, TakeWords, AllBelow, Cut, Concat, SizeOf;
    TakeWritten(sn.nComp, sn.layout.compCap + 1, WordBytes(sn.nIndexComp) + Concat(sn.tensors));
    TakeWritten(sn.nIndexComp, sn.layout.compCap + 1, Concat(sn.tensors));
    assert Sizes(sn.layout, ratios, sn.nComp, sn.nIndexComp) == Lengths(sn.tensors);
    CutWritten(sn.tensors, []);
    assert Concat(sn.tensors) + [] == Concat(sn.tensors);
  }

  /** Writing a loadable snapshot and parsing it gives the snapshot back. */
  lemma ParseInvertsWire(sn: Snapshot, rt: Runtime)
    requires Loadable(sn, rt)
    ensures Parse(Wire(sn), rt) == Ok(sn)
  {
    hide WordBytes, TakeWords, AllBelow, ParseLayers, ParseLayout, SizesMatch, Concat, LayoutOk;
    var b1 := WordBytes(sn.tokens) + (sn.logits + LayersBytes(sn));
    LayoutWritten(sn, rt, b1);
    assert Wire(sn) == WordBytes(SessionHeader(sn.layout)) + b1;
    TakeWritten(sn.tokens, TokenBound(rt), sn.logits + LayersBytes(sn));
    var b2 := sn.logits + LayersBytes(sn);
    assert b2[..4 * sn.layout.vocab] == sn.logits && b2[4 * sn.layout.vocab..] == LayersBytes(sn);
    LayersWritten(sn, rt.ratios);
  }

  lemma LayoutParsed(b: seq<Byte>, rt: Runtime)
    requires ParseLayout(b, rt).Ok?
    ensures b == WordBytes(SessionHeader(ParseLayout(b, rt).value)) + b[4 * SESSION_FIELDS..]
  {
    hide WordBytes, TakeWords, LayoutOk;
    WriteTaken(b, SESSION_FIELDS, MAX + 1);
    var h := TakeWords(b, SESSION_FIELDS, MAX + 1).value;
    assert SessionHeader(LayoutOf(h)) == h;
  }

  lemma LayersParsed(b: seq<Byte>, sn: Snapshot, ratios: Ratios)
    requires ParseLayers(b, sn.layout, ratios) == Ok((sn.nComp, sn.nIndexComp, sn.tensors))
    ensures b == LayersBytes(sn) && SizesMatch(sn, ratios)
    ensures AllBelow(sn.nComp, sn.layout.compCap + 1) && AllBelow(sn.nIndexComp, sn.layout.compCap + 1)
  {
    hide WordBytes, TakeWords, AllBelow, Cut, Concat, SizeOf;
    var n := |ratios|;
    WriteTaken(b, n, sn.layout.compCap + 1);
    WriteTaken(b[4 * n..], n, sn.layout.compCap + 1);
    var rest := b[4 * n..][4 * n..];
    CutIsPrefix(rest, Sizes(sn.layout, ratios, sn.nComp, sn.nIndexComp));
    assert rest == Concat(sn.tensors);
  }

  /** Whatever parses is the encoding of a loadable snapshot. */
  lemma WireInvertsParse(b: seq<Byte>, rt: Runtime)
    requires Parse(b, rt).Ok?
    ensures Loadable(Parse(b, rt).value, rt) && Wire(Parse(b, rt).value) == b
  {
    hide WordBytes, TakeWords, AllBelow, ParseLayers, ParseLayout, SizesMatch, Concat, LayoutOk;
    var sn := Parse(b, rt).value;
    LayoutParsed(b, rt);
    var b1 := b[4 * SESSION_FIELDS..];
    WriteTaken(b1, sn.layout.tokenCount, TokenBound(rt));
    var b2 := b1[4 * sn.layout.tokenCount..];
    assert b2 == sn.logits + b2[4 * sn.layout.vocab..];
    LayersParsed(b2[4 * sn.layout.vocab..], sn, rt.ratios);
  }

  /** Acceptance does not look at the route: a payload is loadable exactly when it is some
      snapshot written out, and then it determines that snapshot. */
  lemma LoadableExactly(b: seq<Byte>, rt: Runtime)
    ensures Parse(b, rt).Ok? <==> exists sn :: Loadable(sn, rt) && b == Wire(sn)
    ensures forall sn :: Loadable(sn, rt) && b == Wire(sn) ==> Parse(b, rt) == Ok(sn)
  {
    hide Parse, Loadable, Wire;
    if Parse(b, rt).Ok? { WireInvertsParse(b, rt); }
    forall sn | Loadable(sn, rt) && b == Wire(sn) ensures Parse(b, rt) == Ok(sn) { ParseInvertsWire(sn, rt); }
  }

  lemma LoadableSizes(sn: Snapshot, rt: Runtime)
    requires Loadable(sn, rt)
    ensures SizesMatch(sn, rt.ratios)
  {
  }

  // --- Counting bytes ---

  lemma NoParts()
    ensures Concat([]) == [] && Lengths([]) == []
  {
  }

  lemma ConcatMore(parts: seq<seq<Byte>>, piece: seq<Byte>)
    ensures Concat(parts + [piece]) == Concat(parts) + piece
    ensures Lengths(parts + [piece]) == Lengths(parts) + [|piece|]
  {
    ConcatSplits(parts, [piece]);
    assert Concat([piece]) == piece + Concat([piece][1..]);
  }

  function Total(sizes: seq<nat>): nat {
    if sizes == [] then 0 else Total(sizes[..|sizes| - 1]) + sizes[|sizes| - 1]
  }

  lemma {:induction false} TotalGrows(sizes: seq<nat>, k: nat)
    requires k <= |sizes|
    ensures Total(sizes[..k]) <= Total(sizes)
    decreases |sizes|
  {
    if k < |sizes| {
      TotalGrows(sizes[..|sizes| - 1], k);
      assert sizes[..|sizes| - 1][..k] == sizes[..k];
    } else {
      assert sizes[..k] == sizes;
    }
  }

  lemma {:induction false} ConcatLength(parts: seq<seq<Byte>>)
    ensures |Concat(parts)| == Total(Lengths(parts))
    decreases |parts|
  {
    if parts != [] {
      var init, last := parts[..|parts| - 1], parts[|parts| - 1];
      ConcatLength(init);
      ConcatMore(init, last);
      assert init + [last] == parts;
      assert Lengths(parts)[..|parts| - 1] == Lengths(init);
    }
  }

  /** A piece that does not fit makes the whole cut fail. */
  lemma TooShort(b: seq<Byte>, sizes: seq<nat>, k: nat, parts: seq<seq<Byte>>)
    requires k < |sizes| && Lengths(parts) == sizes[..k] && |Concat(parts)| + sizes[k] > |b|
    ensures Cut(b, sizes).Err?
  {
    hide Concat, Lengths, Cut;
    if Cut(b, sizes).Ok? {
      CutIsPrefix(b, sizes);
      ConcatLength(Cut(b, sizes).value);
    }
    ConcatLength(parts);
    TotalGrows(sizes, k + 1);
    assert sizes[..k + 1][..k] == sizes[..k];
  }

  lemma {:induction false} TotalSplits(sizes: seq<nat>, k: nat)
    requires k <= |sizes|
    ensures Total(sizes) == Total(sizes[..k]) + Total(sizes[k..])
    decreases |sizes|
  {
    if k < |sizes| {
      var init := sizes[..|sizes| - 1];
      TotalSplits(init, k);
      assert init[..k] == sizes[..k] && init[k..] == sizes[k..][..|sizes| - 1 - k];
    } else {
      assert sizes[..k] == sizes;
    }
  }

  /** Cutting fails exactly when there are too few bytes. */
  lemma {:induction false} CutFailsWhenShort(b: seq<Byte>, sizes: seq<nat>)
    ensures Cut(b, sizes).Err? <==> Total(sizes) > |b|
    decreases |sizes|
  {
    if sizes != [] {
      TotalSplits(sizes, 1);
      assert sizes[..1] == [sizes[0]] && Total([sizes[0]]) == Total([sizes[0]][..0]) + sizes[0];
      if sizes[0] <= |b| { CutFailsWhenShort(b[sizes[0]..], sizes[1..]); }
    }
  }

  lemma LengthsSplit(x: seq<seq<Byte>>, y: seq<seq<Byte>>)
    ensures Lengths(x + y) == Lengths(x) + Lengths(y)
  {
  }

  /** Comparing byte counts decides whether the rest is exactly the slice's tensors. */
  lemma RestIsTensors(rest: seq<Byte>, sizes: seq<nat>)
    ensures (Cut(rest, sizes).Ok? && |Concat(Cut(rest, sizes).value)| == |rest|) <==> Total(sizes) == |rest|
  {
    hide Cut, Concat, Total, Lengths;
    CutFailsWhenShort(rest, sizes);
    if Cut(rest, sizes).Ok? {
      CutIsPrefix(rest, sizes);
      ConcatLength(Cut(rest, sizes).value);
    }
  }

  lemma {:induction false} SizesPrefix(sizes: seq<nat>, k: nat)
    requires k < |sizes|
    ensures Total(sizes[..k + 1]) == Total(sizes[..k]) + sizes[k] && Total(sizes[..k + 1]) <= Total(sizes)
  {
    assert sizes[..k + 1][..k] == sizes[..k];
    TotalGrows(sizes, k + 1);
  }

  lemma NothingSummed(sizes: seq<nat>)
    ensures Total(sizes[..0]) == 0
  {
  }

  // --- Slices ---

  /** Sizes of the layers of a slice. */
  function SliceSizes(l: Layout, ratios: Ratios, start: nat, nComp: seq<Word>, nIndexComp: seq<Word>): (r: seq<nat>)
    requires |nComp| == |nIndexComp| && start + |nComp| <= |ratios|
    ensures |r| == |nComp|
  {
    seq(|nComp|, i requires 0 <= i < |nComp| => TensorBytes(l, ratios[start + i], nComp[i], nIndexComp[i]))
  }

  /** A snapshot whose shards a save accepts. */
  ghost predicate Sound(sn: Snapshot, ratios: Ratios) {
    && sn.layout.nLayers == |ratios| && RawLiveValid(sn.layout) && SizesMatch(sn, ratios)
    && AllBelow(sn.nComp, sn.layout.compCap + 1) && AllBelow(sn.nIndexComp, sn.layout.compCap + 1)
  }

  lemma AllBelowSlice(ws: seq<Word>, bound: nat, from: nat, to: nat)
    requires AllBelow(ws, bound) && from <= to <= |ws|
    ensures AllBelow(ws[from..to], bound)
  {
  }

  lemma SliceLengths(sn: Snapshot, ratios: Ratios, s: Slice)
    requires SizesMatch(sn, ratios) && s.start <= s.end < |ratios|
    ensures SliceSizes(sn.layout, ratios, s.start, sn.nComp[s.start..s.end + 1], sn.nIndexComp[s.start..s.end + 1])
         == Lengths(sn.tensors[s.start..s.end + 1])
  {
    hide TensorBytes;
    var x, y, z := sn.nComp[s.start..s.end + 1], sn.nIndexComp[s.start..s.end + 1], sn.tensors[s.start..s.end + 1];
    var sizes := SliceSizes(sn.layout, ratios, s.start, x, y);
    forall i | 0 <= i < |sizes| ensures sizes[i] == Lengths(z)[i] {
      assert |sn.tensors[s.start + i]| == SizeOf(sn.layout, ratios, sn.nComp, sn.nIndexComp, s.start + i);
    }
  }

  // --- Reading words ---

  /** Reads `n` words one by one and stops at the first that is not below `bound`. */
  method ReadWords(b: seq<Byte>, n: nat, bound: nat) returns (r: Result<seq<Word>>)
    ensures r == TakeWords(b, n, bound)
  {
    hide LittleEndian, FromLittleEndian;
    var ws: seq<Word> := [];
    for i := 0 to n
      invariant 4 * i <= |b| && ws == WordsOf(b, i) && AllBelow(ws, bound)
    {
      if |b| < 4 * i + 4 { return Err; }
      var w := FromLittleEndian(b[4 * i..4 * i + 4]);
      ghost var next := WordsOf(b, i + 1);
      assert next[i] == w;
      if w >= bound {
        if 4 * n <= |b| { LaterWords(b, i + 1, n); }
        return Err;
      }
      ws := ws + [w];
    }
    r := Ok(ws);
  }

  lemma {:induction false} LaterWords(b: seq<Byte>, i: nat, n: nat)
    requires i <= n && 4 * n <= |b|
    ensures WordsOf(b, i) <= WordsOf(b, n)
    decreases n
  {
    hide FromLittleEndian;
    if i < n { LaterWords(b, i, n - 1); }
  }
}
