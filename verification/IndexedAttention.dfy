/** The mixed attention kernel over ring rows and selected compressed rows, one row at a
    time and in staged blocks of sixteen, and the early stop of both. */
module IndexedAttention {
  import opened Bits
  import opened BitonicSort
  import opened SortKernels
  import opened Permutations
  import opened OnlineSoftmax

  const U32: nat := 0x1_0000_0000
  const BLOCK: nat := 16

  /** Launch arguments of one token, as 32-bit values. */
  datatype Args = Args(token: nat, nTokens: nat, pos0: nat, nRaw: nat, rawStart: nat, rawCap: nat,
                       window: nat, ratio: nat, nComp: nat)
  {
    /** What the kernel needs in order not to divide by zero or run past 2^32. */
    predicate Valid() {
      && token < nTokens && pos0 + nTokens + BLOCK <= U32
      && rawCap > 0 && ratio > 0
    }

    function Qpos(): nat { pos0 + token }

    function LastPos(): int { pos0 + nTokens - 1 }

    function FirstRawPos(): nat { (LastPos() + 1 - nRaw) % U32 }

    function RawLastPos(): nat { (FirstRawPos() + nRaw - 1) % U32 }

    function WindowFirst(): nat {
      if window != 0 && Qpos() + 1 > window then Qpos() + 1 - window else 0
    }

    function First(): (r: nat)
      ensures r >= FirstRawPos()
    {
      if FirstRawPos() < WindowFirst() then WindowFirst() else FirstRawPos()
    }

    function Last(): nat { if RawLastPos() < Qpos() then RawLastPos() else Qpos() }

    /** Ring row of position `pos`. */
    function RingRow(pos: nat): (r: nat)
      requires rawCap > 0 && pos >= FirstRawPos()
      ensures r < rawCap
    {
      (rawStart + (pos - FirstRawPos())) % U32 % rawCap
    }

    function Visible(): nat
      requires ratio > 0
    {
      var v := (Qpos() + 1) / ratio;
      if v < nComp then v else nComp
    }
  }

  /** One head of one token: its query, the caches it reads, and the selected ids. */
  datatype Head = Head(exp: real -> real, q: seq<real>, scale: real, raw: seq<seq<real>>, comp: seq<seq<real>>,
                       topk: seq<int>, sink: real)
  {
    predicate Fits(a: Args) {
      && |raw| == a.rawCap && |comp| == a.nComp
      && (forall i :: 0 <= i < |raw| ==> |raw[i]| == |q|)
      && (forall i :: 0 <= i < |comp| ==> |comp[i]| == |q|)
    }

    function RowOf(k: seq<real>): Row
      requires |k| == |q|
    {
      Row(Dot(q, k) * scale, k)
    }
  }

  function Dot(x: seq<real>, y: seq<real>): real
    requires |x| == |y|
  {
    if x == [] then 0.0 else Dot(x[..|x| - 1], y[..|y| - 1]) + x[|x| - 1] * y[|y| - 1]
  }

  // --- Which rows are attended, and in which order ---

  function RawCount(a: Args): nat {
    if a.First() <= a.Last() then a.Last() + 1 - a.First() else 0
  }

  /** Ring rows of `n` positions from `pos` on. */
  function RawRows(a: Args, pos: nat, n: nat): (r: seq<nat>)
    requires a.rawCap > 0 && pos >= a.FirstRawPos()
    ensures |r| == n && forall i :: 0 <= i < n ==> r[i] < a.rawCap
  {
    if n == 0 then [] else RawRows(a, pos, n - 1) + [a.RingRow(pos + n - 1)]
  }

  /** Ids the scan attends: negative ids are skipped, the first invisible id ends it. */
  function Selected(ids: seq<int>, visible: nat): (r: seq<nat>)
    ensures forall i :: 0 <= i < |r| ==> r[i] < visible
  {
    if ids == [] then []
    else if ids[0] < 0 then Selected(ids[1..], visible)
    else if ids[0] >= visible then []
    else [ids[0]] + Selected(ids[1..], visible)
  }

  function Load(h: Head, cache: seq<seq<real>>, rows: seq<nat>): (r: seq<Row>)
    requires forall i :: 0 <= i < |cache| ==> |cache[i]| == |h.q|
    requires forall i :: 0 <= i < |rows| ==> rows[i] < |cache|
    ensures |r| == |rows| && Shaped(r, |h.q|)
  {
    seq(|rows|, i requires 0 <= i < |rows| => h.RowOf(cache[rows[i]]))
  }

  function RawPart(a: Args, h: Head): (r: seq<Row>)
    requires a.Valid() && h.Fits(a)
    ensures Shaped(r, |h.q|)
  {
    Load(h, h.raw, RawRows(a, a.First(), RawCount(a)))
  }

  function CompPart(a: Args, h: Head): (r: seq<Row>)
    requires a.Valid() && h.Fits(a)
    ensures Shaped(r, |h.q|)
  {
    Load(h, h.comp, Selected(h.topk, a.Visible()))
  }

  /** Everything the kernel attends, ending with the sink as a row of zeros. */
  function Attended(a: Args, h: Head): (r: seq<Row>)
    requires a.Valid() && h.Fits(a)
    ensures Shaped(r, |h.q|) && r != []
  {
    RawPart(a, h) + CompPart(a, h) + [Row(h.sink, Zeros(|h.q|))]
  }

  lemma AttendMore(exp: real -> real, n: nat, rows: seq<Row>, r: Row)
    requires Shaped(rows, n) && |r.value| == n
    ensures Shaped(rows + [r], n)
    ensures AttendAll(exp, n, rows + [r]) == Attend(exp, AttendAll(exp, n, rows), r)
  {
    assert (rows + [r])[..|rows|] == rows;
  }

  /** The kernel's state: `regs` holds the result of attending `rows`. */
  ghost predicate Holds(h: Head, regs: Registers, rows: seq<Row>)
    reads regs
  {
    Shaped(rows, |h.q|) && regs.Value() == AttendAll(h.exp, |h.q|, rows)
  }

  method AttendOne(h: Head, regs: Registers, k: seq<real>, ghost before: seq<Row>)
    requires |k| == |h.q| && Holds(h, regs, before)
    modifies regs
    ensures Holds(h, regs, before + [h.RowOf(k)])
  {
    hide AttendAll, Attend;
    AttendMore(h.exp, |h.q|, before, h.RowOf(k));
    regs.AttendRow(h.exp, h.RowOf(k));
  }

  // --- One row at a time ---

  method AttendRawRows(a: Args, h: Head, regs: Registers)
    requires a.Valid() && h.Fits(a) && Holds(h, regs, [])
    modifies regs
    ensures Holds(h, regs, RawPart(a, h))
  {
    hide Holds, Args.FirstRawPos, Args.Last, Args.First, Load, Args.RingRow;
    var first, last := a.First(), a.Last();
    if first <= last {
      ghost var n := 0;
      var pos := first;
      LoadNone(h, h.raw, []);
      while pos <= last
        invariant first <= pos <= last + 1 && n == pos - first
        invariant Holds(h, regs, Load(h, h.raw, RawRows(a, first, n)))
      {
        var row := a.RingRow(pos);
        LoadMore(h, h.raw, RawRows(a, first, n), row);
        AttendOne(h, regs, h.raw[row], Load(h, h.raw, RawRows(a, first, n)));
        pos, n := pos + 1, n + 1;
      }
    } else {
      LoadNone(h, h.raw, []);
    }
  }

  lemma LoadNone(h: Head, cache: seq<seq<real>>, rows: seq<nat>)
    requires (forall i :: 0 <= i < |cache| ==> |cache[i]| == |h.q|) && rows == []
    ensures Load(h, cache, rows) == []
  {
  }

  lemma LoadMore(h: Head, cache: seq<seq<real>>, rows: seq<nat>, row: nat)
    requires forall i :: 0 <= i < |cache| ==> |cache[i]| == |h.q|
    requires (forall i :: 0 <= i < |rows| ==> rows[i] < |cache|) && row < |cache|
    ensures Load(h, cache, rows + [row]) == Load(h, cache, rows) + [h.RowOf(cache[row])]
  {
  }

  lemma SelectedStep(ids: seq<int>, i: nat, visible: nat)
    requires i < |ids|
    ensures ids[i] < 0 ==> Selected(ids[i..], visible) == Selected(ids[i + 1..], visible)
    ensures ids[i] >= visible ==> Selected(ids[i..], visible) == []
    ensures 0 <= ids[i] < visible ==> Selected(ids[i..], visible) == [ids[i] as nat] + Selected(ids[i + 1..], visible)
  {
    assert ids[i..][1..] == ids[i + 1..];
  }

  method AttendSelectedRows(a: Args, h: Head, regs: Registers, ghost before: seq<Row>)
    requires a.Valid() && h.Fits(a) && Holds(h, regs, before)
    modifies regs
    ensures Holds(h, regs, before + CompPart(a, h))
  {
    hide Holds, Load, Selected, Args.Visible;
    var visible := a.Visible();
    VisibleBound(a);
    ghost var done: seq<nat> := [];
    LoadNone(h, h.comp, []);
    assert before + [] == before;
    assert h.topk[0..] == h.topk;
    var i := 0;
    while i < |h.topk|
      invariant 0 <= i <= |h.topk|
      invariant forall x :: 0 <= x < |done| ==> done[x] < |h.comp|
      invariant Selected(h.topk, visible) == done + Selected(h.topk[i..], visible)
      invariant Holds(h, regs, before + Load(h, h.comp, done))
    {
      var idx := h.topk[i];
      SelectedStep(h.topk, i, visible);
      if idx < 0 { i := i + 1; continue; }
      if idx >= visible { break; }
      LoadMore(h, h.comp, done, idx);
      AttendOne(h, regs, h.comp[idx], before + Load(h, h.comp, done));
      assert before + Load(h, h.comp, done + [idx as nat]) == before + Load(h, h.comp, done) + [h.RowOf(h.comp[idx])];
      done := done + [idx as nat];
      i := i + 1;
    }
    if i == |h.topk| { NothingLeft(h.topk, visible); }
    assert Selected(h.topk, visible) == done;
  }

  lemma NothingLeft(ids: seq<int>, visible: nat)
    ensures Selected(ids[|ids|..], visible) == []
  {
  }

  lemma VisibleBound(a: Args)
    requires a.ratio > 0
    ensures a.Visible() <= a.nComp
  {
  }

  /** What both kernels have to produce. */
  function Reference(a: Args, h: Head): (dst: seq<real>)
    requires a.Valid() && h.Fits(a)
    ensures |dst| == |h.q|
  {
    Normalised(AttendAll(h.exp, |h.q|, Attended(a, h)))
  }

  method FinishWithSink(a: Args, h: Head, regs: Registers) returns (dst: seq<real>)
    requires a.Valid() && h.Fits(a)
    requires Holds(h, regs, RawPart(a, h) + CompPart(a, h))
    modifies regs
    ensures dst == Reference(a, h)
  {
    hide AttendAll, Attend, RawPart, CompPart, Normalised;
    ghost var rows := RawPart(a, h) + CompPart(a, h);
    AttendMore(h.exp, |h.q|, rows, Row(h.sink, Zeros(|h.q|)));
    regs.AttendSink(h.exp, h.sink);
    dst := regs.Output();
  }

  /** kernel_dsv4_indexed_mixed_attention_heads8, one head. */
  method RowAtATime(a: Args, h: Head) returns (dst: seq<real>)
    requires a.Valid() && h.Fits(a)
    ensures dst == Reference(a, h)
  {
    hide AttendAll, RawPart, CompPart, Reference, Holds;
    var regs := new Registers(|h.q|);
    StartHolds(h, regs);
    AttendRawRows(a, h, regs);
    AttendSelectedRows(a, h, regs, RawPart(a, h));
    dst := FinishWithSink(a, h, regs);
  }

  lemma StartHolds(h: Head, regs: Registers)
    requires regs.Value() == Acc(START, 0.0, Zeros(|h.q|))
    ensures Holds(h, regs, [])
  {
  }

  // --- Sixteen rows at a time ---

  /** The rows staged in threadgroup memory. */
  function Staged(cache: seq<seq<real>>, rows: seq<nat>): (r: seq<seq<real>>)
    requires forall i :: 0 <= i < |rows| ==> rows[i] < |cache|
    ensures |r| == |rows| && forall i :: 0 <= i < |r| ==> r[i] == cache[rows[i]]
  {
    seq(|rows|, i requires 0 <= i < |rows| => cache[rows[i]])
  }

  method AttendStaged(h: Head, regs: Registers, cache: seq<seq<real>>, rows: seq<nat>, ghost before: seq<Row>)
    requires forall i :: 0 <= i < |cache| ==> |cache[i]| == |h.q|
    requires (forall i :: 0 <= i < |rows| ==> rows[i] < |cache|) && Holds(h, regs, before)
    modifies regs
    ensures Holds(h, regs, before + Load(h, cache, rows))
  {
    hide Holds, Load;
    var shared := Staged(cache, rows);
    LoadNone(h, cache, rows[..0]);
    assert before + [] == before;
    for r := 0 to |rows|
      invariant Holds(h, regs, before + Load(h, cache, rows[..r]))
    {
      LoadMore(h, cache, rows[..r], rows[r]);
      assert rows[..r + 1] == rows[..r] + [rows[r]];
      assert before + Load(h, cache, rows[..r + 1]) == before + Load(h, cache, rows[..r]) + [h.RowOf(cache[rows[r]])];
      AttendOne(h, regs, shared[r], before + Load(h, cache, rows[..r]));
    }
    assert rows[..|rows|] == rows;
  }

  lemma LoadConcat(h: Head, cache: seq<seq<real>>, x: seq<nat>, y: seq<nat>)
    requires forall i :: 0 <= i < |cache| ==> |cache[i]| == |h.q|
    requires forall i :: 0 <= i < |x| ==> x[i] < |cache|
    requires forall i :: 0 <= i < |y| ==> y[i] < |cache|
    ensures Load(h, cache, x + y) == Load(h, cache, x) + Load(h, cache, y)
  {
  }

  lemma {:induction false} RawRowsConcat(a: Args, pos: nat, n: nat, m: nat)
    requires a.rawCap > 0 && pos >= a.FirstRawPos()
    ensures RawRows(a, pos, n + m) == RawRows(a, pos, n) + RawRows(a, pos + n, m)
    decreases m
  {
    hide Args.FirstRawPos, Args.RingRow;
    if m > 0 { RawRowsConcat(a, pos, n, m - 1); }
  }

  /** The ring rows of one block. */
  method RingBlock(a: Args, pos0: nat, nRows: nat) returns (rows: seq<nat>)
    requires a.rawCap > 0 && pos0 >= a.FirstRawPos()
    ensures rows == RawRows(a, pos0, nRows)
  {
    hide Args.FirstRawPos, Args.RingRow, RawRows;
    rows := [];
    EmptyRawRows(a, pos0);
    for r := 0 to nRows
      invariant rows == RawRows(a, pos0, r)
    {
      NextRawRow(a, pos0, r);
      rows := rows + [a.RingRow(pos0 + r)];
    }
  }

  method AttendRawBlocks(a: Args, h: Head, regs: Registers)
    requires a.Valid() && h.Fits(a) && Holds(h, regs, [])
    modifies regs
    ensures Holds(h, regs, RawPart(a, h))
  {
    hide Holds, Args.FirstRawPos, Args.Last, Args.First, Load, Args.RingRow, RawRows;
    var first, last := a.First(), a.Last();
    LoadNone(h, h.raw, []);
    EmptyRawRows(a, first);
    if first <= last {
      var pos0 := first;
      ghost var n: nat := 0;
      while pos0 <= last
        invariant first <= pos0 && n == (if pos0 <= last then pos0 else last + 1) - first
        invariant Holds(h, regs, Load(h, h.raw, RawRows(a, first, n)))
      {
        var nRows := if last - pos0 + 1 < BLOCK then last - pos0 + 1 else BLOCK;
        var rows := RingBlock(a, pos0, nRows);
        RawRowsConcat(a, first, n, nRows);
        LoadConcat(h, h.raw, RawRows(a, first, n), rows);
        AttendStaged(h, regs, h.raw, rows, Load(h, h.raw, RawRows(a, first, n)));
        n := n + nRows;
        pos0 := pos0 + BLOCK;
      }
    }
  }

  lemma EmptyRawRows(a: Args, pos: nat)
    requires a.rawCap > 0 && pos >= a.FirstRawPos()
    ensures RawRows(a, pos, 0) == []
  {
  }

  lemma NextRawRow(a: Args, pos: nat, r: nat)
    requires a.rawCap > 0 && pos >= a.FirstRawPos()
    ensures RawRows(a, pos, r + 1) == RawRows(a, pos, r) + [a.RingRow(pos + r)]
  {
  }

  /** Gathers up to sixteen visible ids from `i` on; `stop` says the scan met an invisible one. */
  method GatherBlock(ids: seq<int>, i: nat, visible: nat) returns (rows: seq<nat>, stop: bool)
    requires i < |ids|
    ensures forall x :: 0 <= x < |rows| ==> rows[x] < visible
    ensures var next := if i + BLOCK < |ids| then i + BLOCK else |ids|;
            Selected(ids[i..], visible) == rows + if stop then [] else Selected(ids[next..], visible)
  {
    hide Selected;
    rows, stop := [], false;
    var j := 0;
    while j < BLOCK && i + j < |ids|
      invariant 0 <= j <= BLOCK && i + j <= |ids|
      invariant forall x :: 0 <= x < |rows| ==> rows[x] < visible
      invariant !stop && Selected(ids[i..], visible) == rows + Selected(ids[i + j..], visible)
    {
      var idx := ids[i + j];
      SelectedStep(ids, i + j, visible);
      if idx < 0 { j := j + 1; continue; }
      if idx >= visible { stop := true; break; }
      rows := rows + [idx as nat];
      j := j + 1;
    }
  }

  /** One turn of the block loop: gathers, stages and attends the rows `more`. */
  method AttendBlock(h: Head, regs: Registers, i: nat, visible: nat, ghost before: seq<Row>, ghost done: seq<nat>)
    returns (stop: bool, ghost more: seq<nat>)
    requires (forall j :: 0 <= j < |h.comp| ==> |h.comp[j]| == |h.q|) && visible <= |h.comp| && i < |h.topk|
    requires forall x :: 0 <= x < |done| ==> done[x] < |h.comp|
    requires Selected(h.topk, visible) == done + Selected(h.topk[i..], visible)
    requires Holds(h, regs, before + Load(h, h.comp, done))
    modifies regs
    ensures forall x :: 0 <= x < |more| ==> more[x] < |h.comp|
    ensures Selected(h.topk, visible) == done + more + Rest(h.topk, i + BLOCK, visible, stop)
    ensures Holds(h, regs, before + Load(h, h.comp, done + more))
  {
    hide Holds, Load, Selected;
    var rows;
    rows, stop := GatherBlock(h.topk, i, visible);
    more := rows;
    LoadConcat(h, h.comp, done, rows);
    assert before + Load(h, h.comp, done + rows) == before + Load(h, h.comp, done) + Load(h, h.comp, rows);
    if |rows| != 0 {
      AttendStaged(h, regs, h.comp, rows, before + Load(h, h.comp, done));
    } else {
      assert done + rows == done;
    }
  }

  /** What the scan still has to attend from position `i` on. */
  ghost function Rest(ids: seq<int>, i: nat, visible: nat, stop: bool): seq<nat> {
    if stop then [] else Selected(ids[if i < |ids| then i else |ids|..], visible)
  }

  method AttendSelectedBlocks(a: Args, h: Head, regs: Registers, ghost before: seq<Row>)
    requires a.Valid() && h.Fits(a) && Holds(h, regs, before)
    modifies regs
    ensures Holds(h, regs, before + CompPart(a, h))
  {
    hide Holds, Load, Selected, Args.Visible;
    var visible := a.Visible();
    VisibleBound(a);
    ghost var done: seq<nat> := [];
    LoadNone(h, h.comp, []);
    NothingLeft(h.topk, visible);
    assert before + [] == before;
    assert h.topk[0..] == h.topk;
    var stop, i := false, 0;
    while i < |h.topk| && !stop
      invariant forall x :: 0 <= x < |done| ==> done[x] < |h.comp|
      invariant Selected(h.topk, visible) == done + Rest(h.topk, i, visible, stop)
      invariant Holds(h, regs, before + Load(h, h.comp, done))
      decreases |h.topk| - i
    {
      ghost var more;
      stop, more := AttendBlock(h, regs, i, visible, before, done);
      done := done + more;
      i := i + BLOCK;
    }
    assert Selected(h.topk, visible) == done;
  }

  /** kernel_dsv4_indexed_mixed_attention_heads8_rb16, one head: the same rows in the same
      order as the row-at-a-time kernel, so the same output. */
  method SixteenAtATime(a: Args, h: Head) returns (dst: seq<real>)
    requires a.Valid() && h.Fits(a)
    ensures dst == Reference(a, h)
  {
    hide AttendAll, RawPart, CompPart, Reference, Holds;
    var regs := new Registers(|h.q|);
    StartHolds(h, regs);
    AttendRawBlocks(a, h, regs);
    AttendSelectedBlocks(a, h, regs, RawPart(a, h));
    dst := FinishWithSink(a, h, regs);
  }

  // --- What is attended ---

  /** The ids a dense mask would enable. */
  function VisibleIds(ids: seq<int>, visible: nat): seq<nat> {
    if ids == [] then []
    else (if 0 <= ids[0] < visible then [ids[0] as nat] else []) + VisibleIds(ids[1..], visible)
  }

  /** No visible id comes after an id that ends the scan. */
  predicate StopIsSafe(ids: seq<int>, visible: nat) {
    forall i, j :: 0 <= i < j < |ids| && ids[i] >= visible ==> !(0 <= ids[j] < visible)
  }

  lemma {:induction false} NoneVisible(ids: seq<int>, visible: nat)
    ensures VisibleIds(ids, visible) == [] <==> forall j :: 0 <= j < |ids| ==> !(0 <= ids[j] < visible)
  {
    if ids != [] {
      NoneVisible(ids[1..], visible);
      assert forall j :: 0 < j < |ids| ==> ids[j] == ids[1..][j - 1];
    }
  }

  /** The early stop drops no visible id exactly when none stands behind an invisible one. */
  lemma {:induction false} EarlyStopDropsNothing(ids: seq<int>, visible: nat)
    ensures Selected(ids, visible) == VisibleIds(ids, visible) <==> StopIsSafe(ids, visible)
  {
    if ids != [] {
      var rest := ids[1..];
      assert forall j :: 0 < j < |ids| ==> ids[j] == rest[j - 1];
      if ids[0] < 0 || ids[0] < visible {
        EarlyStopDropsNothing(rest, visible);
        SafeTail(ids, visible);
        SameHead(ids[0], Selected(rest, visible), VisibleIds(rest, visible));
      } else {
        NoneVisible(rest, visible);
        assert StopIsSafe(ids, visible) <==> forall j :: 0 <= j < |rest| ==> !(0 <= rest[j] < visible);
      }
    }
  }

  lemma SameHead(x: int, s: seq<nat>, t: seq<nat>)
    ensures s == t <==> [x] + s == [x] + t
  {
    assert ([x] + s)[1..] == s && ([x] + t)[1..] == t;
  }

  lemma SafeTail(ids: seq<int>, visible: nat)
    requires ids != [] && ids[0] < visible
    ensures StopIsSafe(ids, visible) == StopIsSafe(ids[1..], visible)
  {
    var rest := ids[1..];
    if StopIsSafe(rest, visible) {
      forall i, j | 0 <= i < j < |ids| && ids[i] >= visible ensures !(0 <= ids[j] < visible) {
        assert rest[i - 1] == ids[i] && rest[j - 1] == ids[j];
      }
    } else {
      var i, j :| 0 <= i < j < |rest| && rest[i] >= visible && 0 <= rest[j] < visible;
      assert ids[i + 1] == rest[i] && ids[j + 1] == rest[j];
    }
  }

  lemma {:induction false} VisibleWithout(ids: seq<int>, i: nat, visible: nat)
    requires i < |ids|
    ensures multiset(VisibleIds(ids, visible))
         == multiset(VisibleIds(Without(ids, i), visible)) + if 0 <= ids[i] < visible then multiset{ids[i] as nat} else multiset{}
  {
    hide Without;
    WithoutHead(ids, i);
    if i > 0 { VisibleWithout(ids[1..], i - 1, visible); }
  }

  lemma WithoutHead(ids: seq<int>, i: nat)
    requires i < |ids|
    ensures if i == 0 then Without(ids, 0) == ids[1..]
            else Without(ids, i) != [] && Without(ids, i)[0] == ids[0] && Without(ids, i)[1..] == Without(ids[1..], i - 1)
  {
  }

  lemma {:induction false} VisiblePermuted(s: seq<int>, t: seq<int>, visible: nat)
    requires multiset(s) == multiset(t)
    ensures multiset(VisibleIds(s, visible)) == multiset(VisibleIds(t, visible))
    decreases |s|
  {
    hide VisibleIds, Without;
    if s == [] {
      assert |t| == |multiset(t)| == |multiset(s)| == 0;
    } else {
      var n := |s| - 1;
      var i := Matching(s, t);
      assert Without(s, n) == s[..n] by { WithoutInit(s, n); }
      VisiblePermuted(s[..n], Without(t, i), visible);
      VisibleWithout(t, i, visible);
      VisibleWithout(s, n, visible);
    }
  }

  /** After the row sort, for a power-of-two top_k, the kernel attends exactly the visible
      ids of the unsorted selection. */
  lemma SortedSelectionIsComplete(ids: seq<int>, visible: nat)
    requires IsPow2(|ids|)
    ensures var sorted := Network(ids, IntFlip());
            && Selected(sorted, visible) == VisibleIds(sorted, visible)
            && multiset(Selected(sorted, visible)) == multiset(VisibleIds(ids, visible))
  {
    hide IsPow2, Network, Selected, VisibleIds;
    var sorted := Network(ids, IntFlip());
    IntOrder();
    NetworkSorts(ids, IntFlip(), UpTo());
    NetworkPermutes(ids, IntFlip());
    forall i, j | 0 <= i < j < |sorted| && sorted[i] >= visible ensures !(0 <= sorted[j] < visible) {
      assert UpTo()(sorted[i], sorted[j]);
    }
    EarlyStopDropsNothing(sorted, visible);
    VisiblePermuted(sorted, ids, visible);
  }

  /** The kernel's output is the softmax average over its rows and the sink. */
  lemma ReferenceIsAverage(a: Args, h: Head)
    requires a.Valid() && h.Fits(a) && IsExp(h.exp)
    ensures forall d: nat :: d < |h.q| ==> Reference(a, h)[d] == Average(h.exp, Attended(a, h), d)
  {
    hide IsExp, AttendAll, Attended, Args.Valid, Head.Fits, Normalised;
    OutputIsAverage(h.exp, |h.q|, Attended(a, h));
  }

  /** The positions attended from the ring: the last `nRaw`, not after the query, inside
      the window; each in its own ring row as long as the ring holds that many. */
  lemma RingCoversWindow(a: Args, pos: nat)
    requires a.Valid() && a.nRaw <= a.pos0 + a.nTokens
    ensures a.First() <= pos <= a.Last() <==>
              && a.pos0 + a.nTokens - a.nRaw <= pos < a.pos0 + a.nTokens
              && pos <= a.Qpos() && (a.window == 0 || a.Qpos() < pos + a.window)
  {
    assert a.FirstRawPos() == a.pos0 + a.nTokens - a.nRaw;
  }

  lemma RingRowsDistinct(a: Args, p: nat, q: nat)
    requires a.Valid() && a.nRaw <= a.rawCap && a.rawStart + a.nRaw <= U32
    requires a.FirstRawPos() <= p < q < a.FirstRawPos() + a.nRaw
    ensures a.RingRow(p) != a.RingRow(q)
  {
    hide Args.FirstRawPos;
    var x, y, c := a.rawStart + (p - a.FirstRawPos()), a.rawStart + (q - a.FirstRawPos()), a.rawCap;
    if x % c == y % c {
      assert c * (y / c - x / c) == (y - y % c) - (x - x % c);
      NoMultipleBelow(c, y / c - x / c);
    }
  }
}
