/** The online softmax of the attention kernels over the reals: a running maximum, and sums
    that are rescaled whenever it moves. The exponential is any function with its laws. */
module OnlineSoftmax {
  import opened Permutations

  /** One attended cache row: its scaled score and its value vector. */
  datatype Row = Row(score: real, value: seq<real>)
  {
    function At(d: nat): real { if d < |value| then value[d] else 0.0 }
  }

  datatype Acc = Acc(m: real, s: real, o: seq<real>)

  /** -FLT_MAX / 2, where the running maximum starts. */
  const START: real := -170141173319264429905852091742258462720.0

  /** Products, named so that proofs can use their laws instead of their definition. */
  function Times(x: real, y: real): real { x * y }

  lemma Distribute(x: real, y: real, k: real)
    ensures Times(x + y, k) == Times(x, k) + Times(y, k)
  {
  }

  lemma ZeroTimes(k: real)
    ensures Times(0.0, k) == 0.0 == Times(k, 0.0)
  {
  }

  lemma Associate(x: real, y: real, z: real)
    ensures Times(Times(x, y), z) == Times(x, Times(y, z))
  {
    assert x * y * z == x * (y * z);
  }

  ghost predicate IsExp(exp: real -> real) {
    && (forall a, b :: Times(exp(a), exp(b)) == exp(a + b))
    && (forall a :: exp(a) > 0.0)
  }

  function Max(a: real, b: real): real { if a < b then b else a }

  function Zeros(n: nat): (r: seq<real>)
    ensures |r| == n
  {
    seq(n, d => 0.0)
  }

  function Scaled(x: seq<real>, k: real): (r: seq<real>)
    ensures |r| == |x|
  {
    seq(|x|, d requires 0 <= d < |x| => Times(x[d], k))
  }

  function Plus(x: seq<real>, y: seq<real>): (r: seq<real>)
    requires |x| == |y|
    ensures |r| == |x|
  {
    seq(|x|, d requires 0 <= d < |x| => x[d] + y[d])
  }

  predicate Shaped(rows: seq<Row>, n: nat) {
    forall i :: 0 <= i < |rows| ==> |rows[i].value| == n
  }

  // --- The kernel's step ---

  function Attend(exp: real -> real, a: Acc, r: Row): (b: Acc)
    requires |a.o| == |r.value|
    ensures |b.o| == |a.o|
  {
    var m := Max(a.m, r.score);
    var oldScale, rowScale := exp(a.m - m), exp(r.score - m);
    Acc(m, Times(a.s, oldScale) + rowScale, Plus(Scaled(a.o, oldScale), Scaled(r.value, rowScale)))
  }

  function AttendAll(exp: real -> real, n: nat, rows: seq<Row>): (a: Acc)
    requires Shaped(rows, n)
    ensures |a.o| == n
  {
    if rows == [] then Acc(START, 0.0, Zeros(n))
    else Attend(exp, AttendAll(exp, n, rows[..|rows| - 1]), rows[|rows| - 1])
  }

  /** The per-thread registers `M`, `S` and `o0..o3`, updated by reference. */
  class Registers {
    var m: real
    var s: real
    var o: seq<real>

    function Value(): Acc
      reads this
    {
      Acc(m, s, o)
    }

    constructor (n: nat)
      ensures Value() == Acc(START, 0.0, Zeros(n))
    {
      m, s, o := START, 0.0, Zeros(n);
    }

    method AttendRow(exp: real -> real, r: Row)
      requires |o| == |r.value|
      modifies this
      ensures Value() == Attend(exp, old(Value()), r)
    {
      var oldM, newM := m, Max(m, r.score);
      var oldScale, rowScale := exp(oldM - newM), exp(r.score - newM);
      s := Times(s, oldScale) + rowScale;
      o := Scaled(o, oldScale);
      o := Plus(o, Scaled(r.value, rowScale));
      m := newM;
    }

    /** The sink adds weight but no value. */
    method AttendSink(exp: real -> real, score: real)
      modifies this
      ensures Value() == Attend(exp, old(Value()), Row(score, Zeros(|old(o)|)))
    {
      var oldM, newM := m, Max(m, score);
      var oldScale, rowScale := exp(oldM - newM), exp(score - newM);
      s := Times(s, oldScale) + rowScale;
      o := Scaled(o, oldScale);
      assert o == Plus(o, Scaled(Zeros(|o|), rowScale));
      m := newM;
    }

    method Output() returns (dst: seq<real>)
      ensures dst == Normalised(Value())
    {
      var invS := if s == 0.0 then 0.0 else 1.0 / s;
      dst := Scaled(o, invS);
    }
  }

  function Normalised(a: Acc): (r: seq<real>)
    ensures |r| == |a.o|
  {
    var invS := if a.s == 0.0 then 0.0 else 1.0 / a.s;
    Scaled(a.o, invS)
  }

  // --- The reference ---

  function MaxScore(rows: seq<Row>): real {
    if rows == [] then START else Max(MaxScore(rows[..|rows| - 1]), rows[|rows| - 1].score)
  }

  /** Sum of the weights exp(score - m). */
  function WeightSum(exp: real -> real, rows: seq<Row>, m: real): real {
    if rows == [] then 0.0
    else WeightSum(exp, rows[..|rows| - 1], m) + exp(rows[|rows| - 1].score - m)
  }

  /** Sum of the weighted values of component `d`. */
  function ValueSum(exp: real -> real, rows: seq<Row>, m: real, d: nat): real
  {
    if rows == [] then 0.0
    else ValueSum(exp, rows[..|rows| - 1], m, d) + Times(rows[|rows| - 1].At(d), exp(rows[|rows| - 1].score - m))
  }

  // --- Laws of the exponential ---

  lemma ExpShift(exp: real -> real, score: real, m: real, m': real)
    requires IsExp(exp)
    ensures exp(score - m') == Times(exp(score - m), exp(m - m'))
  {
    assert (score - m) + (m - m') == score - m';
  }

  lemma ExpPositive(exp: real -> real, a: real)
    requires IsExp(exp)
    ensures exp(a) > 0.0
  {
  }

  // --- Moving the reference point ---

  lemma {:induction false} WeightRebase(exp: real -> real, rows: seq<Row>, m: real, m': real)
    requires IsExp(exp)
    ensures WeightSum(exp, rows, m') == Times(WeightSum(exp, rows, m), exp(m - m'))
  {
    hide IsExp, Times;
    ZeroTimes(exp(m - m'));
    if rows != [] {
      var before, x, e := rows[..|rows| - 1], exp(m - m'), exp(rows[|rows| - 1].score - m);
      WeightRebase(exp, before, m, m');
      ExpShift(exp, rows[|rows| - 1].score, m, m');
      Distribute(WeightSum(exp, before, m), e, x);
    }
  }

  lemma {:induction false} ValueRebase(exp: real -> real, rows: seq<Row>, m: real, m': real, d: nat)
    requires IsExp(exp)
    ensures ValueSum(exp, rows, m', d) == Times(ValueSum(exp, rows, m, d), exp(m - m'))
  {
    hide IsExp, Times;
    ZeroTimes(exp(m - m'));
    if rows != [] {
      var before, x, e := rows[..|rows| - 1], exp(m - m'), exp(rows[|rows| - 1].score - m);
      var v := rows[|rows| - 1].At(d);
      ValueRebase(exp, before, m, m', d);
      ExpShift(exp, rows[|rows| - 1].score, m, m');
      Associate(v, e, x);
      Distribute(ValueSum(exp, before, m, d), Times(v, e), x);
    }
  }

  lemma {:induction false} WeightPositive(exp: real -> real, rows: seq<Row>, m: real)
    requires IsExp(exp) && rows != []
    ensures WeightSum(exp, rows, m) > 0.0
  {
    ExpPositive(exp, rows[|rows| - 1].score - m);
    if |rows| > 1 { WeightPositive(exp, rows[..|rows| - 1], m); }
  }

  // --- The online form is exact ---

  /** After any sequence of rows: `M` is the running maximum, `S` and `o` are the weighted
      sums relative to it. */
  lemma {:induction false} RunningSums(exp: real -> real, n: nat, rows: seq<Row>)
    requires IsExp(exp) && Shaped(rows, n)
    ensures var a := AttendAll(exp, n, rows);
            && a.m == MaxScore(rows)
            && a.s == WeightSum(exp, rows, a.m)
            && forall d: nat :: d < n ==> a.o[d] == ValueSum(exp, rows, a.m, d)
  {
    hide IsExp, Attend, WeightSum, ValueSum;
    if rows == [] {
      NoRows(exp, n);
    } else {
      RunningSums(exp, n, rows[..|rows| - 1]);
      OneMoreRow(exp, n, rows, AttendAll(exp, n, rows[..|rows| - 1]));
    }
  }

  lemma NoRows(exp: real -> real, n: nat)
    ensures var a := AttendAll(exp, n, []);
            && a.m == START && a.s == WeightSum(exp, [], a.m)
            && forall d: nat :: d < n ==> a.o[d] == ValueSum(exp, [], a.m, d)
  {
  }

  lemma OneMoreRow(exp: real -> real, n: nat, rows: seq<Row>, a: Acc)
    requires IsExp(exp) && Shaped(rows, n) && rows != [] && |a.o| == n
    requires var before := rows[..|rows| - 1];
             && a.s == WeightSum(exp, before, a.m)
             && forall d: nat :: d < n ==> a.o[d] == ValueSum(exp, before, a.m, d)
    ensures var b := Attend(exp, a, rows[|rows| - 1]);
            && b.m == Max(a.m, rows[|rows| - 1].score)
            && b.s == WeightSum(exp, rows, b.m)
            && forall d: nat :: d < n ==> b.o[d] == ValueSum(exp, rows, b.m, d)
  {
    hide IsExp, Attend, WeightSum, ValueSum;
    var r := rows[|rows| - 1];
    OneMoreWeight(exp, n, rows, a);
    forall d: nat | d < n ensures Attend(exp, a, r).o[d] == ValueSum(exp, rows, Attend(exp, a, r).m, d) {
      OneMoreValue(exp, rows, a, d);
    }
  }

  lemma OneMoreWeight(exp: real -> real, n: nat, rows: seq<Row>, a: Acc)
    requires IsExp(exp) && Shaped(rows, n) && rows != [] && |a.o| == n
    requires a.s == WeightSum(exp, rows[..|rows| - 1], a.m)
    ensures var b := Attend(exp, a, rows[|rows| - 1]);
            b.m == Max(a.m, rows[|rows| - 1].score) && b.s == WeightSum(exp, rows, b.m)
  {
    hide IsExp, Times;
    WeightRebase(exp, rows[..|rows| - 1], a.m, Max(a.m, rows[|rows| - 1].score));
  }

  lemma OneMoreValue(exp: real -> real, rows: seq<Row>, a: Acc, d: nat)
    requires IsExp(exp) && rows != [] && |a.o| == |rows[|rows| - 1].value| && d < |a.o|
    requires a.o[d] == ValueSum(exp, rows[..|rows| - 1], a.m, d)
    ensures Attend(exp, a, rows[|rows| - 1]).o[d] == ValueSum(exp, rows, Attend(exp, a, rows[|rows| - 1]).m, d)
  {
    var r := rows[|rows| - 1];
    hide *;
    var b := Attend(exp, a, r);
    var x, t := exp(a.m - b.m), Times(r.At(d), exp(r.score - b.m));
    assert b.o[d] == Times(a.o[d], x) + t by { AttendComponent(exp, a, r, d); }
    assert ValueSum(exp, rows[..|rows| - 1], b.m, d) == Times(a.o[d], x) by { ValueRebase(exp, rows[..|rows| - 1], a.m, b.m, d); }
    assert ValueSum(exp, rows, b.m, d) == ValueSum(exp, rows[..|rows| - 1], b.m, d) + t by { LastValue(exp, rows, b.m, d); }
  }

  lemma AttendComponent(exp: real -> real, a: Acc, r: Row, d: nat)
    requires |a.o| == |r.value| && d < |a.o|
    ensures var b := Attend(exp, a, r);
            b.o[d] == Times(a.o[d], exp(a.m - b.m)) + Times(r.At(d), exp(r.score - b.m))
  {
  }

  lemma LastValue(exp: real -> real, rows: seq<Row>, m: real, d: nat)
    requires rows != []
    ensures ValueSum(exp, rows, m, d)
         == ValueSum(exp, rows[..|rows| - 1], m, d) + Times(rows[|rows| - 1].At(d), exp(rows[|rows| - 1].score - m))
  {
  }

  /** Softmax average of component `d` over the rows, weights taken as exp(score). */
  ghost function Average(exp: real -> real, rows: seq<Row>, d: nat): real
    requires IsExp(exp) && rows != []
  {
    WeightPositive(exp, rows, 0.0);
    ValueSum(exp, rows, 0.0, d) / WeightSum(exp, rows, 0.0)
  }

  /** The kernel's output is the softmax average, and its zero test never fires. */
  lemma OutputIsAverage(exp: real -> real, n: nat, rows: seq<Row>)
    requires IsExp(exp) && rows != [] && Shaped(rows, n)
    ensures AttendAll(exp, n, rows).s > 0.0
    ensures forall d: nat :: d < n ==> Normalised(AttendAll(exp, n, rows))[d] == Average(exp, rows, d)
  {
    hide IsExp, AttendAll, WeightSum, ValueSum, Times;
    var a := AttendAll(exp, n, rows);
    RunningSums(exp, n, rows);
    WeightPositive(exp, rows, a.m);
    WeightPositive(exp, rows, 0.0);
    WeightRebase(exp, rows, a.m, 0.0);
    ExpPositive(exp, a.m);
    assert a.m - 0.0 == a.m;
    forall d: nat | d < n ensures Normalised(a)[d] == Average(exp, rows, d) {
      ValueRebase(exp, rows, a.m, 0.0, d);
      SameRatio(a.o[d], a.s, exp(a.m));
    }
  }

  lemma SameRatio(v: real, w: real, x: real)
    requires w > 0.0 && x > 0.0
    ensures Times(w, x) != 0.0 && Times(v, x) / Times(w, x) == Times(v, 1.0 / w)
  {
    assert w * x > 0.0;
    assert v * (1.0 / w) * (w * x) == v * x * (w * (1.0 / w));
    assert w * (1.0 / w) == 1.0;
  }

  // --- The order of the rows does not matter ---

  lemma {:induction false} WeightWithout(exp: real -> real, rows: seq<Row>, i: nat, m: real)
    requires i < |rows|
    ensures WeightSum(exp, rows, m) == WeightSum(exp, Without(rows, i), m) + exp(rows[i].score - m)
  {
    WithoutInit(rows, i);
    hide Without;
    if i < |rows| - 1 { WeightWithout(exp, rows[..|rows| - 1], i, m); }
  }

  lemma {:induction false} ValueWithout(exp: real -> real, rows: seq<Row>, i: nat, m: real, d: nat)
    requires i < |rows|
    ensures ValueSum(exp, rows, m, d)
         == ValueSum(exp, Without(rows, i), m, d) + Times(rows[i].At(d), exp(rows[i].score - m))
  {
    WithoutInit(rows, i);
    hide Without;
    if i < |rows| - 1 { ValueWithout(exp, rows[..|rows| - 1], i, m, d); }
  }

  lemma {:induction false} SumsArePermutable(exp: real -> real, s: seq<Row>, t: seq<Row>, m: real, d: nat)
    requires multiset(s) == multiset(t)
    ensures WeightSum(exp, s, m) == WeightSum(exp, t, m)
    ensures ValueSum(exp, s, m, d) == ValueSum(exp, t, m, d)
    decreases |s|
  {
    if s == [] {
      assert |t| == |multiset(t)| == |multiset(s)| == 0;
    } else {
      var i := Matching(s, t);
      WeightWithout(exp, t, i, m);
      ValueWithout(exp, t, i, m, d);
      SumsArePermutable(exp, s[..|s| - 1], Without(t, i), m, d);
    }
  }

  /** Feeding the same rows in another order gives the same output. */
  lemma OrderDoesNotMatter(exp: real -> real, n: nat, s: seq<Row>, t: seq<Row>)
    requires IsExp(exp) && s != [] && t != [] && multiset(s) == multiset(t) && Shaped(s, n) && Shaped(t, n)
    ensures Normalised(AttendAll(exp, n, s)) == Normalised(AttendAll(exp, n, t))
  {
    hide IsExp, AttendAll, WeightSum, ValueSum, Normalised;
    OutputIsAverage(exp, n, s);
    OutputIsAverage(exp, n, t);
    forall d: nat | d < n ensures Normalised(AttendAll(exp, n, s))[d] == Normalised(AttendAll(exp, n, t))[d] {
      SumsArePermutable(exp, s, t, 0.0, d);
    }
  }
}
