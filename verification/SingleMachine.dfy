/** Splitting the layers over machines changes nothing: with exact transport, a contiguous
    chain of machines computes what one machine holding all the layers computes. */
module SingleMachine {
  import opened TokenHash
  import opened Inference

  /** The same job on one machine that holds every layer of the chain. */
  function Alone(job: Job): Job
    requires |job.nodes| >= 1
  {
    job.(nodes := [Node(job.nodes[0].first, job.nodes[|job.nodes| - 1].last, job.LogitsAtLast())])
  }

  ghost predicate Contiguous(job: Job) {
    forall n :: 0 <= n < |job.nodes| - 1 ==> job.nodes[n + 1].first == job.nodes[n].last + 1
  }

  ghost predicate ExactTransport(e: Engine) {
    forall h :: e.wire(h) == h
  }

  /** The caches of the first `n` machines, end to end. */
  function Flat(kvs: seq<seq<Kv>>, n: nat): seq<Kv>
    requires n <= |kvs|
  {
    if n == 0 then [] else Flat(kvs, n - 1) + kvs[n - 1]
  }

  lemma {:induction false} FlatLength(job: Job, kvs: seq<seq<Kv>>, n: nat)
    requires Contiguous(job) && Fits(job, kvs) && 1 <= n <= |kvs|
    ensures job.nodes[0].first + |Flat(kvs, n)| == job.nodes[n - 1].last + 1
  {
    if n > 1 {
      FlatLength(job, kvs, n - 1);
      assert job.nodes[n - 2 + 1].first == job.nodes[n - 2].last + 1;
    } else {
      assert Flat(kvs, 0) + kvs[0] == kvs[0];
    }
  }

  lemma {:induction false} FlatDependsOnPrefix(x: seq<seq<Kv>>, y: seq<seq<Kv>>, n: nat)
    requires n <= |x| && n <= |y| && forall m :: 0 <= m < n ==> x[m] == y[m]
    ensures Flat(x, n) == Flat(y, n)
  {
    if n > 0 { FlatDependsOnPrefix(x, y, n - 1); }
  }

  /** A run of layers can be cut anywhere. */
  lemma {:induction false} LayersSplit(e: Engine, first: nat, x: seq<Kv>, y: seq<Kv>, tokens: seq<Token>, pos: nat, h: Hidden)
    ensures var (kx, hx) := RunLayers(e, first, x, tokens, pos, h);
            var (ky, hy) := RunLayers(e, first + |x|, y, tokens, pos, hx);
            RunLayers(e, first, x + y, tokens, pos, h) == (kx + ky, hy)
    decreases |x|
  {
    if x == [] {
      assert x + y == y && first + |x| == first;
      assert [] + RunLayers(e, first, y, tokens, pos, h).0 == RunLayers(e, first, y, tokens, pos, h).0;
    } else {
      var (k, h1) := e.layer(first, x[0], tokens, pos, h);
      assert (x + y)[1..] == x[1..] + y && (x + y)[0] == x[0];
      LayersSplit(e, first + 1, x[1..], y, tokens, pos, h1);
      var (kx, hx) := RunLayers(e, first + 1, x[1..], tokens, pos, h1);
      assert [k] + (kx + RunLayers(e, first + |x|, y, tokens, pos, hx).0)
          == [k] + kx + RunLayers(e, first + |x|, y, tokens, pos, hx).0;
    }
  }

  /** The caches every machine brings to chunk `i`. */
  function Before(job: Job, kvs: seq<seq<Kv>>, i: nat): (r: seq<seq<Kv>>)
    requires Fits(job, kvs)
    ensures Fits(job, r)
  {
    seq(|kvs|, n requires 0 <= n < |kvs| => CacheBefore(job, n, i, kvs[n]))
  }

  function Embedded(job: Job, i: nat): Hidden
    requires job.Valid() && i < job.Count()
  {
    ChunkShape(job, i);
    job.engine.embed(job.Chunk(i), job.Pos(i))
  }

  lemma {:induction false} ChainIsOneRun(job: Job, kvs: seq<seq<Kv>>, i: nat, n: nat)
    requires job.Valid() && i < job.Count() && Fits(job, kvs) && 1 <= n <= |kvs|
    requires Contiguous(job) && ExactTransport(job.engine)
    ensures job.Pos(i) <= job.End(i) <= |job.prompt|
    ensures RunLayers(job.engine, job.nodes[0].first, Flat(Before(job, kvs, i), n), job.Chunk(i), job.Pos(i), Embedded(job, i))
            == (Flat(RunChain(job, kvs, i, n).0, n), RunChain(job, kvs, i, n).1)
    decreases n
  {
    ChunkShape(job, i);
    hide RunLayers, CacheBefore;
    var b, m := Before(job, kvs, i), n - 1;
    var r := RunChain(job, kvs, i, n);
    if n == 1 {
      assert Flat(b, 0) + b[0] == b[0] && Flat(r.0, 0) + r.0[0] == r.0[0];
    } else {
      ChainIsOneRun(job, kvs, i, m);
      FlatLength(job, b, m);
      assert job.nodes[m - 1 + 1].first == job.nodes[m - 1].last + 1;
      LayersSplit(job.engine, job.nodes[0].first, Flat(b, m), b[m], job.Chunk(i), job.Pos(i), Embedded(job, i));
      FlatDependsOnPrefix(r.0, RunChain(job, kvs, i, m).0, m);
    }
  }

  // --- Whole runs ---

  lemma {:induction false} BlankIsFlat(job: Job, kvs: seq<seq<Kv>>, n: nat)
    requires Contiguous(job) && Fits(job, kvs) && 1 <= n <= |kvs|
    requires forall m :: 0 <= m < n ==> kvs[m] == BlankKv(job.engine, job.nodes[m])
    ensures job.nodes[0].first <= job.nodes[n - 1].last
    ensures Flat(kvs, n) == BlankKv(job.engine, Node(job.nodes[0].first, job.nodes[n - 1].last, job.nodes[n - 1].outputLogits))
  {
    var a, z := job.nodes[0], job.nodes[n - 1];
    FlatLength(job, kvs, n);
    if n == 1 {
      assert Flat(kvs, 0) + kvs[0] == kvs[0];
    } else {
      BlankIsFlat(job, kvs, n - 1);
      assert job.nodes[n - 2 + 1].first == job.nodes[n - 2].last + 1;
    }
  }

  lemma AloneIsValid(job: Job, kvs: seq<seq<Kv>>)
    requires job.Valid() && Contiguous(job) && Fits(job, kvs)
    ensures Alone(job).Valid() && Fits(Alone(job), [Flat(kvs, |kvs|)]) && Alone(job).Count() == job.Count()
  {
    FlatLength(job, kvs, |kvs|);
    FirstToLast(job, |job.nodes| - 1);
  }

  lemma {:induction false} FirstToLast(job: Job, n: nat)
    requires job.Valid() && Contiguous(job) && n < |job.nodes|
    ensures job.nodes[0].first <= job.nodes[n].last
  {
    if n > 0 {
      FirstToLast(job, n - 1);
      assert job.nodes[n - 1 + 1].first == job.nodes[n - 1].last + 1;
    }
  }

  lemma BeforeIsFlat(job: Job, kvs: seq<seq<Kv>>, i: nat)
    requires job.Valid() && Contiguous(job) && Fits(job, kvs)
    ensures Fits(Alone(job), [Flat(kvs, |kvs|)])
    ensures CacheBefore(Alone(job), 0, i, Flat(kvs, |kvs|)) == Flat(Before(job, kvs, i), |kvs|)
  {
    AloneIsValid(job, kvs);
    if job.reset && i == 0 {
      BlankIsFlat(job, Before(job, kvs, i), |kvs|);
    } else {
      FlatDependsOnPrefix(Before(job, kvs, i), kvs, |kvs|);
    }
  }

  lemma SameChunk(job: Job, kvs: seq<seq<Kv>>, i: nat)
    requires job.Valid() && i < job.Count() && Fits(job, kvs) && Contiguous(job)
    ensures Alone(job).Valid() && i < Alone(job).Count() && Alone(job).engine == job.engine
    ensures job.Pos(i) <= job.End(i) <= |job.prompt| && Alone(job).nodes[0].first == job.nodes[0].first
    ensures Alone(job).Pos(i) == job.Pos(i) && Alone(job).End(i) == job.End(i)
    ensures Alone(job).Pos(i) <= Alone(job).End(i) <= |Alone(job).prompt| && Alone(job).Chunk(i) == job.Chunk(i)
    ensures Embedded(Alone(job), i) == Embedded(job, i)
  {
    AloneIsValid(job, kvs);
    ChunkShape(job, i);
  }

  lemma OneChunk(job: Job, kvs: seq<seq<Kv>>, i: nat)
    requires job.Valid() && i < job.Count() && Fits(job, kvs) && Contiguous(job) && ExactTransport(job.engine)
    ensures Alone(job).Valid() && Fits(Alone(job), [Flat(kvs, |kvs|)]) && i < Alone(job).Count()
    ensures RunChain(Alone(job), [Flat(kvs, |kvs|)], i, 1)
            == ([Flat(RunChain(job, kvs, i, |kvs|).0, |kvs|)], RunChain(job, kvs, i, |kvs|).1)
  {
    AloneIsValid(job, kvs);
    var one, flat := Alone(job), Flat(kvs, |kvs|);
    hide RunLayers, RunChain, CacheBefore, Flat, Before, Embedded, Alone, Contiguous, ExactTransport;
    SameChunk(job, kvs, i);
    BeforeIsFlat(job, kvs, i);
    ChainIsOneRun(job, kvs, i, |kvs|);
    SingleNodeChain(one, [flat], i);
  }

  lemma SingleNodeChain(job: Job, kvs: seq<seq<Kv>>, i: nat)
    requires job.Valid() && i < job.Count() && Fits(job, kvs) && |kvs| == 1
    ensures job.Pos(i) <= job.End(i) <= |job.prompt|
    ensures var r := RunLayers(job.engine, job.nodes[0].first, CacheBefore(job, 0, i, kvs[0]), job.Chunk(i), job.Pos(i), Embedded(job, i));
            RunChain(job, kvs, i, 1) == ([r.0], r.1)
  {
    hide RunLayers, CacheBefore;
    ChunkShape(job, i);
    var r := RunLayers(job.engine, job.nodes[0].first, CacheBefore(job, 0, i, kvs[0]), job.Chunk(i), job.Pos(i), Embedded(job, i));
    assert kvs[0 := r.0] == [r.0];
  }

  /** `one` is the job on one machine and `flat` the chain's caches, end to end. */
  ghost predicate Together(job: Job, one: Job, kvs: seq<seq<Kv>>, flat: seq<Kv>) {
    && job.Valid() && Fits(job, kvs) && Contiguous(job) && ExactTransport(job.engine)
    && one == Alone(job) && flat == Flat(kvs, |kvs|)
  }

  lemma TogetherFits(job: Job, one: Job, kvs: seq<seq<Kv>>, flat: seq<Kv>)
    requires Together(job, one, kvs, flat)
    ensures job.Valid() && Fits(job, kvs) && one.Valid() && Fits(one, [flat]) && one.Count() == job.Count()
    ensures |kvs| == |job.nodes| && |one.nodes| == 1
  {
    AloneIsValid(job, kvs);
  }

  lemma TogetherStep(job: Job, one: Job, kvs: seq<seq<Kv>>, flat: seq<Kv>, i: nat)
    requires Together(job, one, kvs, flat) && job.Valid() && Fits(job, kvs) && i < job.Count()
    requires one.Valid() && Fits(one, [flat]) && i < one.Count()
    ensures var next, r := RunChain(job, kvs, i, |kvs|), RunChain(one, [flat], i, 1);
            |r.0| == 1 && Together(job, one, next.0, r.0[0]) && r.1 == next.1
  {
    OneChunk(job, kvs, i);
    hide RunChain, Flat;
  }

  /** After any number of chunks the caches of the chain, end to end, are the caches of
      the single machine. */
  lemma {:induction false} CachesAreTheSame(job: Job, one: Job, init: seq<seq<Kv>>, flat: seq<Kv>, i: nat)
    requires Together(job, one, init, flat) && job.Valid() && Fits(job, init) && i <= job.Count()
    requires one.Valid() && Fits(one, [flat]) && i <= one.Count()
    ensures |CachesAfter(one, [flat], i)| == 1 && Together(job, one, CachesAfter(job, init, i), CachesAfter(one, [flat], i)[0])
    decreases i
  {
    hide Together, CachesAfter, RunChain, Fits, Job.Valid, Job.Count;
    TogetherFits(job, one, init, flat);
    if i == 0 {
      NoChunks(job, init);
      NoChunks(one, [flat]);
    } else {
      CachesAreTheSame(job, one, init, flat, i - 1);
      var kvs, k1 := CachesAfter(job, init, i - 1), CachesAfter(one, [flat], i - 1)[0];
      TogetherFits(job, one, kvs, k1);
      TogetherStep(job, one, kvs, k1, i - 1);
      NextCaches(job, init, i - 1);
      NextCaches(one, [flat], i - 1);
      assert CachesAfter(one, [flat], i - 1) == [k1];
    }
  }

  lemma NoChunks(job: Job, init: seq<seq<Kv>>)
    requires job.Valid() && Fits(job, init)
    ensures CachesAfter(job, init, 0) == init
  {
  }

  lemma NextCaches(job: Job, init: seq<seq<Kv>>, i: nat)
    requires job.Valid() && i < job.Count() && Fits(job, init)
    ensures CachesAfter(job, init, i + 1) == RunChain(job, CachesAfter(job, init, i), i, |job.nodes|).0
  {
  }

  /** And so are the logits. */
  lemma LogitsAreTheSame(job: Job, one: Job, init: seq<seq<Kv>>, flat: seq<Kv>)
    requires Together(job, one, init, flat)
    ensures job.Valid() && Fits(job, init) && one.Valid() && Fits(one, [flat])
    ensures FinalLogits(job, init) == FinalLogits(one, [flat])
  {
    TogetherFits(job, one, init, flat);
    CountBounds(job, 0);
    var last := job.Count() - 1;
    CachesAreTheSame(job, one, init, flat, last);
    var kvs, k1 := CachesAfter(job, init, last), CachesAfter(one, [flat], last)[0];
    SameHeads(job, one, init, flat, kvs, k1, last);
  }

  lemma SameHeads(job: Job, one: Job, init: seq<seq<Kv>>, flat: seq<Kv>, kvs: seq<seq<Kv>>, k1: seq<Kv>, last: nat)
    requires job.Valid() && Fits(job, init) && one.Valid() && Fits(one, [flat]) && last < job.Count() && last < one.Count()
    requires last + 1 == job.Count() == one.Count()
    requires CachesAfter(job, init, last) == kvs && CachesAfter(one, [flat], last) == [k1] && Together(job, one, kvs, k1)
    ensures FinalLogits(job, init) == FinalLogits(one, [flat])
  {
    hide RunChain, CachesAfter, FinalLogits, Fits, Job.Count, Job.Valid, Flat;
    TogetherFits(job, one, kvs, k1);
    TogetherStep(job, one, kvs, k1, last);
    SameChunk(job, kvs, last);
    LastHead(job, init);
    LastHead(one, [flat]);
  }

  /** With exact transport the logits are the head on the last hidden state, wherever the
      head runs. */
  lemma LastHead(job: Job, init: seq<seq<Kv>>)
    requires job.Valid() && Fits(job, init) && ExactTransport(job.engine)
    ensures job.Count() >= 1
    ensures var last := job.Count() - 1;
            job.Pos(last) <= job.End(last)
            && FinalLogits(job, init)
               == job.engine.head(RunChain(job, CachesAfter(job, init, last), last, |job.nodes|).1, job.End(last) - job.Pos(last))
  {
    hide RunChain, CachesAfter;
    CountBounds(job, 0);
    ChunkShape(job, job.Count() - 1);
  }
}
