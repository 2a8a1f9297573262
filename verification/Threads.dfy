/** The threads of one threadgroup between two barriers. They may run in any order, so a
    kernel method picks any thread that has not run yet. */
module Threads {

  /** The ids 0, ..., n-1. */
  function ThreadIds(n: nat): (r: set<nat>)
    ensures forall c: nat :: c in r <==> c < n
  {
    if n == 0 then {} else ThreadIds(n - 1) + {n - 1}
  }
}
