/** The engine seen by the distributed runtime, and what the plain chunk-by-chunk prefill
    computes with it. Layers, embedding and output head are uninterpreted: they are whatever
    functions an Engine holds. */
module Inference {
  import Bits
  import opened TokenHash

  /** Cache of one transformer layer. */
  type Kv(!new)
  /** Hidden state of one token span. */
  type Hidden(!new)
  type Logits(!new)

  /** `wire` is what one network hop does to a hidden state: the identity for 32-bit
      activations, a fixed encode/decode pair for 16 and 8 bits. */
  datatype Engine = Engine(
    embed: (seq<Token>, nat) -> Hidden,
    layer: (nat, Kv, seq<Token>, nat, Hidden) -> (Kv, Hidden),
    head: (Hidden, nat) -> Logits,
    wire: Hidden -> Hidden,
    blank: nat -> Kv)

  /** The layers one machine owns. */
  datatype Node = Node(first: nat, last: nat, outputLogits: bool)

  /** One prefill request. `nodes[0]` is the coordinator, the others are the workers
      in route order; the span is `prompt[start..end]`, fed in chunks of `cap`. */
  datatype Job = Job(
    engine: Engine,
    nodes: seq<Node>,
    prompt: seq<Token>,
    start: nat,
    end: nat,
    cap: nat,
    reset: bool,
    ackOnly: bool,
    firstId: nat)
  {
    ghost predicate Valid() {
      && |nodes| >= 1
      && (forall n :: 0 <= n < |nodes| ==> nodes[n].first <= nodes[n].last)
      && start < end <= |prompt|
      && cap > 0
      && (reset ==> start == 0)
    }

    /** How many chunks the span makes. */
    function Count(): nat
      requires cap > 0 && start <= end
    {
      (end - start + cap - 1) / cap
    }

    function Pos(i: nat): nat { start + i * cap }

    /** Position just behind chunk `i`; chunks past the end of the span are empty. */
    function End(i: nat): nat {
      if end - Pos(i) < cap then end else Pos(i) + cap
    }

    function Chunk(i: nat): seq<Token>
      requires Pos(i) <= End(i) <= |prompt|
    {
      prompt[Pos(i)..End(i)]
    }

    function Workers(): nat
      requires |nodes| >= 1
    {
      |nodes| - 1
    }

    function LogitsAtLast(): bool
      requires |nodes| >= 1
    {
      nodes[|nodes| - 1].outputLogits
    }
  }

  /** A non-empty span of `len` tokens ends inside its last chunk. */
  lemma CountBounds(job: Job, i: nat)
    requires job.Valid()
    ensures job.Count() >= 1
    ensures i < job.Count() <==> job.Pos(i) < job.end
    ensures i + 1 < job.Count() <==> job.Pos(i) + job.cap < job.end
  {
    var len, n := job.end - job.start, job.Count();
    var r := (len + job.cap - 1) % job.cap;
    assert len + job.cap - 1 == job.cap * n + r;
    if i < n { Bits.ScaleMonotone(i + 1, n, job.cap); } else { Bits.ScaleMonotone(n, i, job.cap); }
    if i + 1 < n { Bits.ScaleMonotone(i + 2, n, job.cap); } else { Bits.ScaleMonotone(n, i + 1, job.cap); }
  }

  /** Chunks are non-empty, contiguous, inside the span, and the last one ends it. */
  lemma ChunkShape(job: Job, i: nat)
    requires job.Valid() && i < job.Count()
    ensures job.start <= job.Pos(i) < job.End(i) <= job.end
    ensures job.End(i) - job.Pos(i) <= job.cap
    ensures i + 1 < job.Count() ==> job.End(i) == job.Pos(i + 1)
    ensures i + 1 == job.Count() ==> job.End(i) == job.end
  {
    CountBounds(job, i);
    Bits.MulNonneg(i, job.cap);
    Bits.ScaleMonotone(i, i, job.cap);
  }

  // --- Running one slice of layers, and a whole chain of machines ---

  /** Pushes a hidden state through consecutive layers starting at layer `first`. */
  function RunLayers(e: Engine, first: nat, kv: seq<Kv>, tokens: seq<Token>, pos: nat, h: Hidden)
    : (r: (seq<Kv>, Hidden))
    ensures |r.0| == |kv|
    decreases |kv|
  {
    if kv == [] then (kv, h)
    else
      var (k, h1) := e.layer(first, kv[0], tokens, pos, h);
      var (ks, h2) := RunLayers(e, first + 1, kv[1..], tokens, pos, h1);
      ([k] + ks, h2)
  }

  function BlankKv(e: Engine, node: Node): (kv: seq<Kv>)
    requires node.first <= node.last
    ensures |kv| == node.last + 1 - node.first
  {
    seq(node.last + 1 - node.first, l requires l >= 0 => e.blank(node.first + l))
  }

  ghost predicate Fits(job: Job, kvs: seq<seq<Kv>>) {
    && |kvs| == |job.nodes|
    && forall n :: 0 <= n < |kvs| ==> job.nodes[n].first <= job.nodes[n].last
                                      && |kvs[n]| == job.nodes[n].last + 1 - job.nodes[n].first
  }

  /** The cache a node brings to chunk `i`: RESET on the first chunk blanks it. */
  function CacheBefore(job: Job, n: nat, i: nat, kv: seq<Kv>): seq<Kv>
    requires n < |job.nodes| && job.nodes[n].first <= job.nodes[n].last
  {
    if job.reset && i == 0 then BlankKv(job.engine, job.nodes[n]) else kv
  }

  /** Chunk `i` through the first `n` machines: the new caches and the hidden state
      that leaves machine `n - 1`. */
  function RunChain(job: Job, kvs: seq<seq<Kv>>, i: nat, n: nat): (r: (seq<seq<Kv>>, Hidden))
    requires job.Valid() && i < job.Count() && Fits(job, kvs) && 1 <= n <= |kvs|
    ensures Fits(job, r.0)
    ensures forall m :: n <= m < |kvs| ==> r.0[m] == kvs[m]
  {
    ChunkShape(job, i);
    var tokens := job.Chunk(i);
    var (before, h) :=
      if n == 1 then (kvs, job.engine.embed(tokens, job.Pos(i)))
      else var (k, out) := RunChain(job, kvs, i, n - 1); (k, job.engine.wire(out));
    var m := n - 1;
    var (kv, out) :=
      RunLayers(job.engine, job.nodes[m].first, CacheBefore(job, m, i, kvs[m]), tokens, job.Pos(i), h);
    (before[m := kv], out)
  }

  /** All caches after the first `i` chunks of the sequential loop. */
  function CachesAfter(job: Job, init: seq<seq<Kv>>, i: nat): (r: seq<seq<Kv>>)
    requires job.Valid() && i <= job.Count() && Fits(job, init)
    ensures Fits(job, r)
    decreases i
  {
    if i == 0 then init
    else RunChain(job, CachesAfter(job, init, i - 1), i - 1, |job.nodes|).0
  }

  /** Hidden state leaving machine `n` for chunk `i` of the sequential loop. */
  function OutOf(job: Job, init: seq<seq<Kv>>, n: nat, i: nat): Hidden
    requires job.Valid() && i < job.Count() && Fits(job, init) && n < |job.nodes|
  {
    RunChain(job, CachesAfter(job, init, i), i, n + 1).1
  }

  /** Hidden state entering machine `n` for chunk `i`. */
  function InTo(job: Job, init: seq<seq<Kv>>, n: nat, i: nat): Hidden
    requires job.Valid() && i < job.Count() && Fits(job, init) && n < |job.nodes|
  {
    ChunkShape(job, i);
    if n == 0 then job.engine.embed(job.Chunk(i), job.Pos(i))
    else job.engine.wire(OutOf(job, init, n - 1, i))
  }

  /** What the loop returns: the head runs on the last worker, or on the coordinator
      after one more trip over the wire. */
  function FinalLogits(job: Job, init: seq<seq<Kv>>): Logits
    requires job.Valid() && Fits(job, init)
  {
    CountBounds(job, 0);
    var last := job.Count() - 1;
    ChunkShape(job, last);
    var out := OutOf(job, init, |job.nodes| - 1, last);
    var len := job.End(last) - job.Pos(last);
    if job.LogitsAtLast() || |job.nodes| == 1 then job.engine.head(out, len)
    else job.engine.head(job.engine.wire(out), len)
  }

  /** A machine's part of one chunk, seen locally: this is the equation every worker
      of the pipelined run re-establishes on its own. */
  lemma {:induction false} LocalStep(job: Job, init: seq<seq<Kv>>, n: nat, i: nat)
    requires job.Valid() && i < job.Count() && Fits(job, init) && n < |job.nodes|
    ensures job.start <= job.Pos(i) < job.End(i) <= job.end
    ensures RunLayers(job.engine, job.nodes[n].first,
                      CacheBefore(job, n, i, CachesAfter(job, init, i)[n]),
                      job.Chunk(i), job.Pos(i), InTo(job, init, n, i))
         == (CachesAfter(job, init, i + 1)[n], OutOf(job, init, n, i))
  {
    hide RunLayers, CacheBefore;
    ChunkShape(job, i);
    var kvs := CachesAfter(job, init, i);
    assert RunChain(job, kvs, i, n + 1).1 == OutOf(job, init, n, i);
    ChainKeepsEarlier(job, kvs, i, n + 1, |job.nodes|);
  }

  lemma {:induction false} ChainKeepsEarlier(job: Job, kvs: seq<seq<Kv>>, i: nat, n: nat, m: nat)
    requires job.Valid() && i < job.Count() && Fits(job, kvs) && 1 <= n <= m <= |kvs|
    ensures RunChain(job, kvs, i, m).0[n - 1] == RunChain(job, kvs, i, n).0[n - 1]
    decreases m
  {
    if n < m { ChainKeepsEarlier(job, kvs, i, n, m - 1); }
  }

  /** Where the loop's position stands after `i` chunks. */
  function Front(job: Job, i: nat): nat {
    if job.Pos(i) < job.end then job.Pos(i) else job.end
  }

  lemma FrontAdvances(job: Job, i: nat)
    requires job.Valid() && i <= job.Count()
    ensures Front(job, i) < job.end <==> i < job.Count()
    ensures i < job.Count() ==> Front(job, i) == job.Pos(i) && Front(job, i + 1) == job.End(i)
    ensures i < job.Count() ==> job.start <= job.Pos(i) < job.End(i) <= job.end
  {
    CountBounds(job, i);
    if i < job.Count() {
      ChunkShape(job, i);
      CountBounds(job, i + 1);
    }
  }
}
