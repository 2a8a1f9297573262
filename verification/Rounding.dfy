/** Rounding to the nearest entry of an increasing table, ties to the even index: the rule
    all small-float codecs of the repository share. */
module Rounding {

  function Abs(x: real): real { if x < 0.0 then -x else x }

  ghost predicate Increasing(v: seq<real>) {
    forall i, j :: 0 <= i < j < |v| ==> v[i] < v[j]
  }

  /** Entry `c` of the table is nearest to `x`, the one with the even index if two are. */
  ghost predicate Nearest(v: seq<real>, x: real, c: nat) {
    && c < |v|
    && forall g :: 0 <= g < |v| && g != c ==>
         Abs(x - v[c]) < Abs(x - v[g]) || (Abs(x - v[c]) == Abs(x - v[g]) && c % 2 == 0)
  }

  lemma NearestIsUnique(v: seq<real>, x: real, c: nat, d: nat)
    requires Increasing(v) && Nearest(v, x, c) && Nearest(v, x, d)
    ensures c == d
  {
    if c < d { NotBoth(v, x, c, d); } else if d < c { NotBoth(v, x, d, c); }
  }

  lemma NotBoth(v: seq<real>, x: real, c: nat, d: nat)
    requires Increasing(v) && Nearest(v, x, c) && Nearest(v, x, d)
    ensures c >= d
  {
    if c < d { Between(v, x, c, d); }
  }

  /** Two entries equally far from `x` have every entry between them strictly closer. */
  lemma Between(v: seq<real>, x: real, c: nat, d: nat)
    requires Increasing(v) && c < d < |v| && Abs(x - v[c]) == Abs(x - v[d])
    ensures d == c + 1 || Abs(x - v[c + 1]) < Abs(x - v[c])
  {
    if c + 1 < d { assert v[c] < v[c + 1] < v[d]; }
  }

  /** Rounding keeps the order of its inputs. */
  lemma NearestMonotone(v: seq<real>, x: real, y: real, c: nat, d: nat)
    requires Increasing(v) && x <= y && Nearest(v, x, c) && Nearest(v, y, d)
    ensures c <= d
  {
    if x == y { NearestIsUnique(v, x, c, d); } else { NoCrossing(v, x, y, c, d); }
  }

  lemma NoCrossing(v: seq<real>, x: real, y: real, c: nat, d: nat)
    requires Increasing(v) && x < y && Nearest(v, x, c) && Nearest(v, y, d)
    ensures c <= d
  {
    Later(v, d, c);
  }

  lemma Later(v: seq<real>, d: nat, c: nat)
    requires Increasing(v) && c < |v| && d < |v|
    ensures d < c ==> v[d] < v[c]
  {
  }

  /** An entry is its own rounding. */
  lemma OwnNearest(v: seq<real>, c: nat)
    requires Increasing(v) && c < |v|
    ensures Nearest(v, v[c], c)
  {
    forall g | 0 <= g < |v| && g != c ensures Abs(v[c] - v[c]) < Abs(v[c] - v[g]) {
      if g < c { assert v[g] < v[c]; } else { assert v[c] < v[g]; }
    }
  }

  /** Between two neighbouring codes the distances decide, at a tie the even one. */
  lemma Bracketed(v: seq<real>, x: real, c: nat, r: nat)
    requires Increasing(v) && c < |v| && v[c] <= x && (c + 1 < |v| ==> x < v[c + 1])
    requires r == if c + 1 < |v| && (v[c + 1] - x < x - v[c] || (v[c + 1] - x == x - v[c] && c % 2 != 0)) then c + 1 else c
    ensures Nearest(v, x, r)
  {
    forall g | 0 <= g < |v| && g != r
      ensures Abs(x - v[r]) < Abs(x - v[g]) || (Abs(x - v[r]) == Abs(x - v[g]) && r % 2 == 0)
    {
      if g < c { assert v[g] < v[c]; }
      if g > c + 1 { assert v[c + 1] < v[g]; }
    }
  }
}
