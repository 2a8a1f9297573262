/** Two sequences with the same elements, one element at a time. */
module Permutations {

  /** The last element of one sequence sits somewhere in any rearrangement of it. */
  lemma Matching<T>(s: seq<T>, t: seq<T>) returns (i: nat)
    requires multiset(s) == multiset(t) && s != []
    ensures i < |t| && t[i] == s[|s| - 1]
    ensures multiset(s[..|s| - 1]) == multiset(Without(t, i))
  {
    var x := s[|s| - 1];
    assert x in multiset(t);
    i :| i < |t| && t[i] == x;
    var u := Without(t, i);
    assert s == s[..|s| - 1] + [x];
    assert t == t[..i] + [x] + t[i + 1..];
    assert multiset(s) == multiset(s[..|s| - 1]) + multiset{x};
    assert multiset(t) == multiset(t[..i]) + multiset{x} + multiset(t[i + 1..]) == multiset(u) + multiset{x};
    assert multiset(u) == multiset(t) - multiset{x};
    assert multiset(s[..|s| - 1]) == multiset(s) - multiset{x};
  }

  function Without<T>(s: seq<T>, i: nat): (r: seq<T>)
    requires i < |s|
    ensures |r| == |s| - 1
  {
    s[..i] + s[i + 1..]
  }

  /** Dropping an inner element and dropping the last one commute. */
  lemma WithoutInit<T>(s: seq<T>, i: nat)
    requires i < |s|
    ensures if i == |s| - 1 then Without(s, i) == s[..|s| - 1]
            else Without(s, i)[..|s| - 2] == Without(s[..|s| - 1], i) && Without(s, i)[|s| - 2] == s[|s| - 1]
  {
  }

  /** What stands where once position `at` is gone. */
  lemma WithoutAt<T>(s: seq<T>, at: nat)
    requires at < |s|
    ensures forall i :: 0 <= i < |s| - 1 ==> Without(s, at)[i] == s[if i < at then i else i + 1]
  {
  }
}
