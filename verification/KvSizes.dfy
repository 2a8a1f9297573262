/** Overflow-checked 64-bit size arithmetic of snapshots. Every routine either returns the
    mathematical value or reports overflow, and it reports overflow exactly when the value
    does not fit. */
module KvSizes {
  import opened Bits
  import opened Words

  const U64: nat := 0x1_0000_0000_0000_0000

  type Word64 = w: nat | w < U64

  datatype Checked = Fits(value: Word64) | Overflow

  /** The mathematical value, if 64 bits hold it. */
  function Exactly(v: nat): Checked {
    if v < U64 then Fits(v) else Overflow
  }

  /** dist_u64_add: the test is made without overflowing. */
  method Add64(acc: Word64, add: Word64) returns (r: Checked)
    ensures r == Exactly(acc + add)
  {
    if acc > U64 - 1 - add { return Overflow; }
    r := Fits(acc + add);
  }

  /** Products are named, so that only the division test looks inside them. */
  function Product(a: nat, b: nat): nat { a * b }

  /** dist_u64_mul: tests with a division. */
  method Mul64(a: Word64, b: Word64) returns (r: Checked)
    ensures r == Exactly(Product(a, b))
  {
    if a != 0 {
      QuotientTest(a, b);
      if b > (U64 - 1) / a { return Overflow; }
    }
    r := Fits(a * b);
  }

  lemma QuotientTest(a: nat, b: nat)
    requires a > 0
    ensures b > (U64 - 1) / a <==> a * b >= U64
  {
    var q, r := (U64 - 1) / a, (U64 - 1) % a;
    assert U64 - 1 == a * q + r;
    if b > q { ScaleMonotone(q + 1, b, a); } else { ScaleMonotone(b, q, a); }
  }

  // --- Sizes ---

  datatype Layout = Layout(ctx: Word, prefillCap: Word, rawCap: Word, rawWindow: Word, compCap: Word, tokenCount: Word,
                           nLayers: Word, headDim: Word, indexerHeadDim: Word, vocab: Word, rawLive: Word)

  function Coefficient(ratio: nat): nat { if ratio == 4 then 2 else 1 }

  /** Bytes of one compressor state. */
  function StateBytes(ratio: nat, dim: nat): nat {
    var coff := Coefficient(ratio);
    4 * Product(Product(Product(coff, dim), coff), ratio)
  }

  /** Bytes of `count` rows of `dim` floats. */
  function RowBytes(count: nat, dim: nat): nat {
    4 * Product(count, dim)
  }

  /** Bytes of one layer's tensors, as an unbounded number. */
  function TensorBytes(l: Layout, ratio: nat, nComp: nat, nIndexComp: nat): nat {
    RowBytes(l.rawLive, l.headDim)
    + (if ratio == 0 then 0 else RowBytes(nComp, l.headDim) + 2 * StateBytes(ratio, l.headDim))
    + (if ratio != 4 then 0 else RowBytes(nIndexComp, l.indexerHeadDim) + 2 * StateBytes(ratio, l.indexerHeadDim))
  }

  /** The state of a ratio-4 layer holds two halves of two rows per ratio step, any other one
      row per step. */
  lemma StateSize(ratio: nat, dim: nat)
    ensures ratio == 4 ==> StateBytes(ratio, dim) == 64 * dim
    ensures ratio != 4 ==> StateBytes(ratio, dim) == 4 * dim * ratio
  {
    assert 4 * (dim * ratio) == 4 * dim * ratio;
  }

  /** A layer's bytes in numbers: an uncompressed layer has its raw rows, a compressed one
      also its compressed rows and two states, and a ratio-4 layer both again for the indexer. */
  lemma LayerSize(l: Layout, ratio: nat, nComp: nat, nIndexComp: nat)
    ensures var bytes, rows := TensorBytes(l, ratio, nComp, nIndexComp), 4 * (l.rawLive * l.headDim);
            && (ratio == 0 ==> bytes == rows)
            && (ratio == 4 ==> bytes == rows + 4 * (nComp * l.headDim) + 128 * l.headDim
                                        + 4 * (nIndexComp * l.indexerHeadDim) + 128 * l.indexerHeadDim)
            && (ratio != 0 && ratio != 4 ==> bytes == rows + 4 * (nComp * l.headDim) + 8 * (l.headDim * ratio))
  {
    StateSize(ratio, l.headDim);
    StateSize(ratio, l.indexerHeadDim);
    hide StateBytes;
    assert 2 * (4 * l.headDim * ratio) == 8 * (l.headDim * ratio);
  }

  /** The last factor of every size is sizeof(float). */
  method MulFloat(a: Word64) returns (r: Checked)
    ensures r == Exactly(4 * a)
  {
    r := Mul64(a, 4);
  }

  lemma StateIntermediates(coff: nat, dim: Word)
    requires coff <= 2
    ensures Product(coff, dim) < U64 && Product(Product(coff, dim), coff) < U64
  {
    ScaleMonotone(coff, 2, dim);
    ScaleMonotone(coff, 2, Product(coff, dim));
  }

  /** dist_kv_state_bytes. */
  method StateBytes64(ratio: Word, dim: Word) returns (r: Checked)
    ensures r == Exactly(StateBytes(ratio, dim))
    ensures ratio == 4 ==> r == Exactly(64 * dim)
    ensures ratio != 4 ==> r == Exactly(4 * dim * ratio)
  {
    StateSize(ratio, dim);
    var coff := Coefficient(ratio);
    StateIntermediates(coff, dim);
    hide Product;
    var t := Mul64(coff, dim);
    if t.Overflow? { return Overflow; }
    t := Mul64(t.value, coff);
    if t.Overflow? { return Overflow; }
    t := Mul64(t.value, ratio);
    if t.Overflow? { return Overflow; }
    r := MulFloat(t.value);
  }

  /** One term of the sum. */
  method Rows64(count: Word, dim: Word) returns (r: Checked)
    ensures r == Exactly(RowBytes(count, dim))
  {
    hide Product;
    var t := Mul64(count, dim);
    if t.Overflow? { return Overflow; }
    r := MulFloat(t.value);
  }

  /** acc + rows + state + state, as one group of checked additions. */
  method AddGroup(acc: Word64, count: Word, dim: Word, ratio: Word) returns (r: Checked)
    ensures r == Exactly(acc + RowBytes(count, dim) + 2 * StateBytes(ratio, dim))
  {
    hide StateBytes, RowBytes;
    var rows := Rows64(count, dim);
    if rows.Overflow? { return Overflow; }
    var bytes := Add64(acc, rows.value);
    if bytes.Overflow? { return Overflow; }
    var state := StateBytes64(ratio, dim);
    if state.Overflow? { return Overflow; }
    bytes := Add64(bytes.value, state.value);
    if bytes.Overflow? { return Overflow; }
    r := Add64(bytes.value, state.value);
  }

  /** dist_kv_layer_tensor_bytes. */
  method TensorBytes64(l: Layout, ratio: Word, nComp: Word, nIndexComp: Word) returns (r: Checked)
    ensures r == Exactly(TensorBytes(l, ratio, nComp, nIndexComp))
    ensures var rows := 4 * (l.rawLive * l.headDim);
            && (ratio == 0 ==> r == Exactly(rows))
            && (ratio == 4 ==> r == Exactly(rows + 4 * (nComp * l.headDim) + 128 * l.headDim
                                            + 4 * (nIndexComp * l.indexerHeadDim) + 128 * l.indexerHeadDim))
            && (ratio != 0 && ratio != 4 ==> r == Exactly(rows + 4 * (nComp * l.headDim) + 8 * (l.headDim * ratio)))
  {
    LayerSize(l, ratio, nComp, nIndexComp);
    hide StateBytes, RowBytes;
    r := Rows64(l.rawLive, l.headDim);
    if r.Overflow? { return Overflow; }
    if ratio != 0 {
      r := AddGroup(r.value, nComp, l.headDim, ratio);
      if r.Overflow? { return Overflow; }
      if ratio == 4 {
        r := AddGroup(r.value, nIndexComp, l.indexerHeadDim, ratio);
      }
    }
  }

  /** A snapshot layout must hold exactly the rows a window of that length would hold. */
  predicate RawLiveValid(l: Layout) {
    && l.rawWindow != 0 && l.rawCap != 0
    && l.rawLive == (if l.tokenCount < l.rawWindow then l.tokenCount else l.rawWindow)
    && l.rawLive <= l.rawCap
  }

  /** Is the position `p` places behind the last one inside the timeline and the window? */
  predicate StillLive(l: Layout, p: nat) { p < l.tokenCount && p < l.rawWindow }

  /** A layout holds exactly the rows of the positions that are still live. */
  lemma RawLiveIsWindow(l: Layout)
    ensures RawLiveValid(l) <==>
              && 0 < l.rawWindow && 0 < l.rawCap && l.rawLive <= l.rawCap
              && forall p: nat :: p < l.rawLive <==> StillLive(l, p)
  {
    var m := if l.tokenCount < l.rawWindow then l.tokenCount else l.rawWindow;
    if forall p: nat :: p < l.rawLive <==> StillLive(l, p) {
      assert !StillLive(l, l.rawLive) && !StillLive(l, m);
      assert m > 0 ==> StillLive(l, m - 1);
    }
  }
}
