/** The plain loop of the prefill, which the pipelined run has to agree with: one chunk at a
    time through the whole chain, every layer feeding the next. */
module PlainLoop {
  import Bits
  import opened TokenHash
  import opened Inference

  // --- What one machine, one span and the whole loop do, layer by layer ---

  /** Hidden states `hs` between the layers from `first` on, and the caches the layers return. */
  ghost predicate LayerTrace(e: Engine, first: nat, kv: seq<Kv>, tokens: seq<Token>, pos: nat, hs: seq<Hidden>, after: seq<Kv>) {
    && |after| == |kv| && |hs| == |kv| + 1
    && forall l :: 0 <= l < |kv| ==> (after[l], hs[l + 1]) == e.layer(first + l, kv[l], tokens, pos, hs[l])
  }

  lemma {:induction false} RunFollowsTrace(e: Engine, first: nat, kv: seq<Kv>, tokens: seq<Token>, pos: nat, hs: seq<Hidden>,
                                           after: seq<Kv>)
    requires LayerTrace(e, first, kv, tokens, pos, hs, after)
    ensures RunLayers(e, first, kv, tokens, pos, hs[0]) == (after, hs[|kv|])
    decreases |kv|
  {
    if kv != [] {
      var ks, hs', after' := kv[1..], hs[1..], after[1..];
      forall l | 0 <= l < |ks| ensures (after'[l], hs'[l + 1]) == e.layer(first + 1 + l, ks[l], tokens, pos, hs'[l]) {
        assert (after[l + 1], hs[l + 2]) == e.layer(first + (l + 1), kv[l + 1], tokens, pos, hs[l + 1]);
      }
      RunFollowsTrace(e, first + 1, ks, tokens, pos, hs', after');
      assert (after[0], hs[1]) == e.layer(first + 0, kv[0], tokens, pos, hs[0]);
      assert after == [after[0]] + after';
    }
  }

  lemma {:induction false} TraceOfRun(e: Engine, first: nat, kv: seq<Kv>, tokens: seq<Token>, pos: nat, h: Hidden)
    returns (hs: seq<Hidden>)
    ensures LayerTrace(e, first, kv, tokens, pos, hs, RunLayers(e, first, kv, tokens, pos, h).0)
    ensures hs[0] == h && hs[|kv|] == RunLayers(e, first, kv, tokens, pos, h).1
    decreases |kv|
  {
    if kv == [] {
      hs := [h];
    } else {
      var rest := TraceOfRun(e, first + 1, kv[1..], tokens, pos, e.layer(first, kv[0], tokens, pos, h).1);
      hs := [h] + rest;
      var after := RunLayers(e, first, kv, tokens, pos, h).0;
      forall l | 0 <= l < |kv| ensures (after[l], hs[l + 1]) == e.layer(first + l, kv[l], tokens, pos, hs[l]) {
        if l > 0 { assert (after[1..][l - 1], rest[l]) == e.layer(first + 1 + (l - 1), kv[1..][l - 1], tokens, pos, rest[l - 1]); }
      }
    }
  }

  /** The hidden state that enters machine `n`: the embedding, or what arrives over the wire. */
  ghost function Entering(job: Job, tokens: seq<Token>, pos: nat, hss: seq<seq<Hidden>>, n: nat): Hidden
    requires n <= |hss| && (n > 0 ==> hss[n - 1] != [])
  {
    if n == 0 then job.engine.embed(tokens, pos) else job.engine.wire(hss[n - 1][|hss[n - 1]| - 1])
  }

  /** Machine `n` runs its own layers, in order, on its old or on blank caches. */
  ghost predicate MachineTrace(job: Job, kvs0: seq<seq<Kv>>, tokens: seq<Token>, pos: nat, reset: bool,
                               hss: seq<seq<Hidden>>, kvs: seq<seq<Kv>>, n: nat)
    requires |kvs0| == |kvs| == |hss| == |job.nodes| && n < |hss|
  {
    var node := job.nodes[n];
    && node.first + |kvs[n]| == node.last + 1 && |kvs0[n]| == |kvs[n]| && |hss[n]| == |kvs[n]| + 1
    && (n > 0 ==> hss[n - 1] != []) && hss[n][0] == Entering(job, tokens, pos, hss, n)
    && forall l :: 0 <= l < |kvs[n]| ==>
         (kvs[n][l], hss[n][l + 1])
         == job.engine.layer(node.first + l, if reset then job.engine.blank(node.first + l) else kvs0[n][l], tokens, pos, hss[n][l])
  }

  /** One span through every machine: `hss[n]` are the hidden states inside machine `n`. */
  ghost predicate SpanTrace(job: Job, kvs0: seq<seq<Kv>>, tokens: seq<Token>, pos: nat, reset: bool,
                            hss: seq<seq<Hidden>>, kvs: seq<seq<Kv>>)
  {
    && |kvs0| == |kvs| == |hss| == |job.nodes|
    && forall n :: 0 <= n < |hss| ==> MachineTrace(job, kvs0, tokens, pos, reset, hss, kvs, n)
  }

  /** The hidden state that leaves the last machine. */
  ghost function Leaving(hss: seq<seq<Hidden>>): Hidden
    requires hss != [] && hss[|hss| - 1] != []
  {
    hss[|hss| - 1][|hss[|hss| - 1]| - 1]
  }

  lemma MachineRuns(job: Job, kvs0: seq<seq<Kv>>, tokens: seq<Token>, pos: nat, reset: bool,
                    hss: seq<seq<Hidden>>, kvs: seq<seq<Kv>>, n: nat)
    requires |kvs0| == |kvs| == |hss| == |job.nodes| && n < |hss| && job.nodes[n].first <= job.nodes[n].last
    requires MachineTrace(job, kvs0, tokens, pos, reset, hss, kvs, n)
    ensures var before := if reset then BlankKv(job.engine, job.nodes[n]) else kvs0[n];
            RunLayers(job.engine, job.nodes[n].first, before, tokens, pos, Entering(job, tokens, pos, hss, n))
            == (kvs[n], hss[n][|hss[n]| - 1])
  {
    hide RunLayers, MachineTrace, LayerTrace;
    var before := if reset then BlankKv(job.engine, job.nodes[n]) else kvs0[n];
    LayersOfMachine(job, kvs0, tokens, pos, reset, hss, kvs, n, before);
    RunFollowsTrace(job.engine, job.nodes[n].first, before, tokens, pos, hss[n], kvs[n]);
  }

  lemma LayersOfMachine(job: Job, kvs0: seq<seq<Kv>>, tokens: seq<Token>, pos: nat, reset: bool,
                        hss: seq<seq<Hidden>>, kvs: seq<seq<Kv>>, n: nat, before: seq<Kv>)
    requires |kvs0| == |kvs| == |hss| == |job.nodes| && n < |hss| && job.nodes[n].first <= job.nodes[n].last
    requires MachineTrace(job, kvs0, tokens, pos, reset, hss, kvs, n)
    requires before == if reset then BlankKv(job.engine, job.nodes[n]) else kvs0[n]
    ensures LayerTrace(job.engine, job.nodes[n].first, before, tokens, pos, hss[n], kvs[n])
    ensures |hss[n]| == |before| + 1 && |before| == |kvs[n]| && (n > 0 ==> hss[n - 1] != [])
    ensures hss[n][0] == Entering(job, tokens, pos, hss, n)
  {
  }

  /** Any span trace is what the chain of machines computes. */
  lemma {:induction false} SpanTraceIsChain(job: Job, kvs0: seq<seq<Kv>>, i: nat, hss: seq<seq<Hidden>>, kvs: seq<seq<Kv>>, n: nat)
    requires job.Valid() && i < job.Count() && Fits(job, kvs0) && job.start <= job.Pos(i) <= job.End(i) <= job.end
    requires SpanTrace(job, kvs0, job.Chunk(i), job.Pos(i), job.reset && i == 0, hss, kvs) && 1 <= n <= |hss|
    ensures hss[n - 1] != [] && RunChain(job, kvs0, i, n).1 == hss[n - 1][|hss[n - 1]| - 1]
    ensures forall m :: 0 <= m < n ==> RunChain(job, kvs0, i, n).0[m] == kvs[m]
    decreases n
  {
    hide RunLayers, MachineTrace, RunChain;
    assert MachineTrace(job, kvs0, job.Chunk(i), job.Pos(i), job.reset && i == 0, hss, kvs, n - 1);
    MachineRuns(job, kvs0, job.Chunk(i), job.Pos(i), job.reset && i == 0, hss, kvs, n - 1);
    HasStates(job, kvs0, job.Chunk(i), job.Pos(i), job.reset && i == 0, hss, kvs, n - 1);
    if n > 1 {
      SpanTraceIsChain(job, kvs0, i, hss, kvs, n - 1);
      ChainGrows(job, kvs0, i, n - 1, RunChain(job, kvs0, i, n - 1).0, job.engine.wire(RunChain(job, kvs0, i, n - 1).1));
    } else {
      ChainGrows(job, kvs0, i, 0, kvs0, job.engine.embed(job.Chunk(i), job.Pos(i)));
    }
  }

  lemma HasStates(job: Job, kvs0: seq<seq<Kv>>, tokens: seq<Token>, pos: nat, reset: bool,
                  hss: seq<seq<Hidden>>, kvs: seq<seq<Kv>>, n: nat)
    requires |kvs0| == |kvs| == |hss| == |job.nodes| && n < |hss| && MachineTrace(job, kvs0, tokens, pos, reset, hss, kvs, n)
    ensures hss[n] != [] && (n > 0 ==> hss[n - 1] != [])
  {
  }

  /** And the chain of machines has such a trace, up to machine `n`. */
  lemma {:induction false} TraceOfChain(job: Job, kvs0: seq<seq<Kv>>, i: nat, n: nat, tokens: seq<Token>, pos: nat, reset: bool,
                                        kvs: seq<seq<Kv>>) returns (hss: seq<seq<Hidden>>)
    requires job.Valid() && i < job.Count() && Fits(job, kvs0) && job.start <= job.Pos(i) <= job.End(i) <= job.end
    requires n <= |kvs0| && tokens == job.Chunk(i) && pos == job.Pos(i) && reset == (job.reset && i == 0)
    requires kvs == RunChain(job, kvs0, i, |kvs0|).0
    ensures |hss| == |kvs0|
    ensures forall m :: 0 <= m < n ==> MachineTrace(job, kvs0, tokens, pos, reset, hss, kvs, m)
    ensures n > 0 ==> hss[n - 1] != [] && hss[n - 1][|hss[n - 1]| - 1] == RunChain(job, kvs0, i, n).1
    decreases n
  {
    hide RunLayers, MachineTrace, RunChain;
    if n == 0 {
      hss := seq(|kvs0|, _ => []);
    } else {
      var m := n - 1;
      var earlier := TraceOfChain(job, kvs0, i, m, tokens, pos, reset, kvs);
      var h := Entering(job, tokens, pos, earlier, m);
      ChainGrows(job, kvs0, i, m, if m == 0 then kvs0 else RunChain(job, kvs0, i, m).0, h);
      ChainKeepsEarlier(job, kvs0, i, n, |kvs0|);
      var before := CacheBefore(job, m, i, kvs0[m]);
      var hs := TraceOfRun(job.engine, job.nodes[m].first, before, tokens, pos, h);
      hss := earlier[m := hs];
      TraceOfMachine(job, kvs0, tokens, pos, reset, hss, kvs, m, before);
      forall k | 0 <= k < m ensures MachineTrace(job, kvs0, tokens, pos, reset, hss, kvs, k) {
        SameTrace(job, kvs0, tokens, pos, reset, earlier, hss, kvs, k);
      }
    }
  }

  lemma TraceOfMachine(job: Job, kvs0: seq<seq<Kv>>, tokens: seq<Token>, pos: nat, reset: bool,
                       hss: seq<seq<Hidden>>, kvs: seq<seq<Kv>>, n: nat, before: seq<Kv>)
    requires Fits(job, kvs0) && Fits(job, kvs) && |hss| == |kvs| && n < |hss|
    requires before == if reset then BlankKv(job.engine, job.nodes[n]) else kvs0[n]
    requires LayerTrace(job.engine, job.nodes[n].first, before, tokens, pos, hss[n], kvs[n])
    requires (n > 0 ==> hss[n - 1] != []) && hss[n][0] == Entering(job, tokens, pos, hss, n)
    ensures MachineTrace(job, kvs0, tokens, pos, reset, hss, kvs, n)
  {
  }

  lemma SameTrace(job: Job, kvs0: seq<seq<Kv>>, tokens: seq<Token>, pos: nat, reset: bool,
                  x: seq<seq<Hidden>>, y: seq<seq<Hidden>>, kvs: seq<seq<Kv>>, n: nat)
    requires |kvs0| == |kvs| == |x| == |y| == |job.nodes| && n < |x|
    requires x[n] == y[n] && (n > 0 ==> x[n - 1] == y[n - 1])
    requires MachineTrace(job, kvs0, tokens, pos, reset, x, kvs, n)
    ensures MachineTrace(job, kvs0, tokens, pos, reset, y, kvs, n)
  {
  }

  /** The whole loop: `caches[i]` are all caches before chunk `i`, `spans[i]` its hidden states.
      Chunk `i` is the next `cap` tokens, or what is left of the span. */
  ghost predicate PrefillTrace(job: Job, init: seq<seq<Kv>>, caches: seq<seq<seq<Kv>>>, spans: seq<seq<seq<Hidden>>>) {
    && |caches| == |spans| + 1 && caches[0] == init
    && spans != [] && job.start + |spans| * job.cap >= job.end
    && forall i :: 0 <= i < |spans| ==> ChunkTrace(job, caches, spans, i)
  }

  ghost predicate ChunkTrace(job: Job, caches: seq<seq<seq<Kv>>>, spans: seq<seq<seq<Hidden>>>, i: nat)
    requires |caches| == |spans| + 1 && i < |spans|
  {
    var from := job.start + i * job.cap;
    && from < job.end <= |job.prompt|
    && var to := if from + job.cap < job.end then from + job.cap else job.end;
       from <= to && SpanTrace(job, caches[i], job.prompt[from..to], from, job.reset && i == 0, spans[i], caches[i + 1])
  }

  /** What the loop returns: the output head on the last hidden state, on the last machine or
      one more hop away. */
  ghost function TraceLogits(job: Job, spans: seq<seq<seq<Hidden>>>): Logits
    requires |job.nodes| >= 1 && spans != [] && job.start + (|spans| - 1) * job.cap <= job.end
    requires var hss := spans[|spans| - 1]; hss != [] && hss[|hss| - 1] != []
  {
    var out := Leaving(spans[|spans| - 1]);
    var n := job.end - (job.start + (|spans| - 1) * job.cap);
    if |job.nodes| > 1 && !job.nodes[|job.nodes| - 1].outputLogits then job.engine.head(job.engine.wire(out), n)
    else job.engine.head(out, n)
  }

  lemma ChunkOfTrace(job: Job, caches: seq<seq<seq<Kv>>>, spans: seq<seq<seq<Hidden>>>, i: nat)
    requires job.Valid() && |caches| == |spans| + 1 && i < |spans| && ChunkTrace(job, caches, spans, i)
    ensures i < job.Count() && job.start <= job.Pos(i) <= job.End(i) <= job.end
    ensures SpanTrace(job, caches[i], job.Chunk(i), job.Pos(i), job.reset && i == 0, spans[i], caches[i + 1])
  {
    hide SpanTrace;
    CountBounds(job, i);
    ChunkShape(job, i);
  }

  lemma SpanShape(job: Job, kvs0: seq<seq<Kv>>, tokens: seq<Token>, pos: nat, reset: bool, hss: seq<seq<Hidden>>, kvs: seq<seq<Kv>>)
    requires job.Valid() && SpanTrace(job, kvs0, tokens, pos, reset, hss, kvs)
    ensures |hss| == |job.nodes| && hss[|hss| - 1] != []
  {
    hide MachineTrace;
    var n := |hss| - 1;
    assert MachineTrace(job, kvs0, tokens, pos, reset, hss, kvs, n);
    HasStates(job, kvs0, tokens, pos, reset, hss, kvs, n);
  }

  /** Along any trace the caches are those of the plain loop. */
  lemma {:induction false} TraceCaches(job: Job, init: seq<seq<Kv>>, caches: seq<seq<seq<Kv>>>, spans: seq<seq<seq<Hidden>>>, i: nat)
    requires job.Valid() && Fits(job, init) && PrefillTrace(job, init, caches, spans) && i <= |spans|
    ensures i <= job.Count() && caches[i] == CachesAfter(job, init, i)
  {
    hide ChunkTrace, SpanTrace, RunChain;
    if i > 0 {
      TraceCaches(job, init, caches, spans, i - 1);
      assert ChunkTrace(job, caches, spans, i - 1);
      ChunkOfTrace(job, caches, spans, i - 1);
      OneChunkTraced(job, caches[i - 1], i - 1, spans[i - 1], caches[i]);
    }
  }

  lemma OneChunkTraced(job: Job, kvs0: seq<seq<Kv>>, i: nat, hss: seq<seq<Hidden>>, kvs: seq<seq<Kv>>)
    requires job.Valid() && i < job.Count() && Fits(job, kvs0) && job.start <= job.Pos(i) <= job.End(i) <= job.end
    requires SpanTrace(job, kvs0, job.Chunk(i), job.Pos(i), job.reset && i == 0, hss, kvs)
    ensures |hss| == |job.nodes| && hss[|hss| - 1] != []
    ensures RunChain(job, kvs0, i, |job.nodes|) == (kvs, Leaving(hss))
  {
    SpanShape(job, kvs0, job.Chunk(i), job.Pos(i), job.reset && i == 0, hss, kvs);
    SpanTraceIsChain(job, kvs0, i, hss, kvs, |hss|);
    hide RunChain, MachineTrace;
    assert RunChain(job, kvs0, i, |job.nodes|).0 == kvs;
  }

  /** Any layer-by-layer account of the loop gives the plain loop's caches and logits. */
  lemma TraceIsPlainLoop(job: Job, init: seq<seq<Kv>>, caches: seq<seq<seq<Kv>>>, spans: seq<seq<seq<Hidden>>>)
    requires job.Valid() && Fits(job, init) && PrefillTrace(job, init, caches, spans)
    ensures |spans| == job.Count() && caches[|spans|] == CachesAfter(job, init, job.Count())
    ensures job.start + (|spans| - 1) * job.cap <= job.end && spans[|spans| - 1] != []
    ensures spans[|spans| - 1][|spans[|spans| - 1]| - 1] != []
    ensures TraceLogits(job, spans) == FinalLogits(job, init)
  {
    hide ChunkTrace, SpanTrace, RunChain, CachesAfter;
    var last := |spans| - 1;
    assert ChunkTrace(job, caches, spans, last);
    ChunkOfTrace(job, caches, spans, last);
    TraceCaches(job, init, caches, spans, last);
    TraceCaches(job, init, caches, spans, |spans|);
    CountBounds(job, last);
    ChunkShape(job, last);
    OneChunkTraced(job, caches[last], last, spans[last], caches[|spans|]);
  }

  /** And there is one. */
  lemma TraceOfLoop(job: Job, init: seq<seq<Kv>>) returns (caches: seq<seq<seq<Kv>>>, spans: seq<seq<seq<Hidden>>>)
    requires job.Valid() && Fits(job, init)
    ensures PrefillTrace(job, init, caches, spans)
  {
    hide SpanTrace, RunChain, CachesAfter, ChunkTrace;
    CountBounds(job, 0);
    caches, spans := [init], [];
    FirstCaches(job, init);
    while |spans| < job.Count()
      invariant |caches| == |spans| + 1 && |spans| <= job.Count() && caches[0] == init
      invariant caches[|spans|] == CachesAfter(job, init, |spans|)
      invariant forall i :: 0 <= i < |spans| ==> ChunkTrace(job, caches, spans, i)
      decreases job.Count() - |spans|
    {
      var i := |spans|;
      var hss := TraceOfChunk(job, init, i);
      var caches', spans' := caches + [CachesAfter(job, init, i + 1)], spans + [hss];
      forall k | 0 <= k < |spans'| ensures ChunkTrace(job, caches', spans', k) {
        if k < i { SameChunkTrace(job, caches, spans, caches', spans', k); }
        else { NewChunkTrace(job, caches', spans', i); }
      }
      caches, spans := caches', spans';
    }
    CountBounds(job, |spans| - 1);
  }

  lemma FirstCaches(job: Job, init: seq<seq<Kv>>)
    requires job.Valid() && Fits(job, init)
    ensures CachesAfter(job, init, 0) == init
  {
  }

  lemma TraceOfChunk(job: Job, init: seq<seq<Kv>>, i: nat) returns (hss: seq<seq<Hidden>>)
    requires job.Valid() && Fits(job, init) && i < job.Count()
    ensures job.start <= job.Pos(i) <= job.End(i) <= job.end
    ensures SpanTrace(job, CachesAfter(job, init, i), job.Chunk(i), job.Pos(i), job.reset && i == 0, hss, CachesAfter(job, init, i + 1))
  {
    ChunkShape(job, i);
    hide RunChain, MachineTrace;
    hss := TraceOfChain(job, CachesAfter(job, init, i), i, |job.nodes|, job.Chunk(i), job.Pos(i), job.reset && i == 0,
                        CachesAfter(job, init, i + 1));
  }

  lemma SameChunkTrace(job: Job, caches: seq<seq<seq<Kv>>>, spans: seq<seq<seq<Hidden>>>,
                       caches': seq<seq<seq<Kv>>>, spans': seq<seq<seq<Hidden>>>, i: nat)
    requires |caches| == |spans| + 1 && |caches'| == |spans'| + 1 && caches <= caches' && spans <= spans' && i < |spans|
    requires ChunkTrace(job, caches, spans, i)
    ensures ChunkTrace(job, caches', spans', i)
  {
    hide SpanTrace;
    assert caches'[i] == caches[i] && caches'[i + 1] == caches[i + 1] && spans'[i] == spans[i];
  }

  lemma NewChunkTrace(job: Job, caches: seq<seq<seq<Kv>>>, spans: seq<seq<seq<Hidden>>>, i: nat)
    requires job.Valid() && |caches| == |spans| + 1 && i < |spans| && i < job.Count()
    requires job.start <= job.Pos(i) <= job.End(i) <= job.end
    requires SpanTrace(job, caches[i], job.Chunk(i), job.Pos(i), job.reset && i == 0, spans[i], caches[i + 1])
    ensures ChunkTrace(job, caches, spans, i)
  {
    hide SpanTrace;
    CountBounds(job, i);
  }

  // --- The loops ---

  /** One machine's slice of a synchronous span. */
  lemma ChainGrows(job: Job, kvs: seq<seq<Kv>>, i: nat, n: nat, before: seq<seq<Kv>>, h: Hidden)
    requires job.Valid() && i < job.Count() && Fits(job, kvs) && n < |kvs|
    requires job.start <= job.Pos(i) <= job.End(i) <= job.end
    requires if n == 0 then before == kvs && h == job.engine.embed(job.Chunk(i), job.Pos(i))
             else var r := RunChain(job, kvs, i, n); before == r.0 && h == job.engine.wire(r.1)
    ensures before[n] == kvs[n]
    ensures var r := RunLayers(job.engine, job.nodes[n].first, CacheBefore(job, n, i, before[n]),
                               job.Chunk(i), job.Pos(i), h);
            RunChain(job, kvs, i, n + 1) == (before[n := r.0], r.1)
  {
    hide RunLayers, BlankKv;
  }

  /** One synchronous span: the coordinator's slice, then every worker's, in order. */
  method EvalSpan(job: Job, kvs0: seq<seq<Kv>>, tokens: seq<Token>, pos: nat, resetSession: bool, ghost i: nat)
    returns (kvs: seq<seq<Kv>>, h: Hidden, ghost hss: seq<seq<Hidden>>)
    requires job.Valid() && i < job.Count() && Fits(job, kvs0)
    requires job.start <= job.Pos(i) <= job.End(i) <= job.end
    requires pos == job.Pos(i) && tokens == job.Chunk(i) && resetSession == (job.reset && i == 0)
    ensures (kvs, h) == RunChain(job, kvs0, i, |job.nodes|)
    ensures SpanTrace(job, kvs0, tokens, pos, resetSession, hss, kvs) && hss != [] && hss[|hss| - 1] != [] && h == Leaving(hss)
  {
    hide RunLayers, RunChain, BlankKv, MachineTrace;
    kvs := kvs0;
    h := job.engine.embed(tokens, pos);
    for n := 0 to |job.nodes|
      invariant |kvs| == |kvs0|
      invariant n == 0 ==> kvs == kvs0 && h == job.engine.embed(tokens, pos)
      invariant n > 0 ==> (kvs, h) == RunChain(job, kvs0, i, n)
    {
      if n > 0 { h := job.engine.wire(h); }
      ChainGrows(job, kvs0, i, n, kvs, h);
      var before := if resetSession then BlankKv(job.engine, job.nodes[n]) else kvs[n];
      var out := RunLayers(job.engine, job.nodes[n].first, before, tokens, pos, h);
      kvs, h := kvs[n := out.0], out.1;
    }
    hss := TraceOfChain(job, kvs0, i, |job.nodes|, tokens, pos, resetSession, kvs);
  }

  /** Loop invariant of the plain loop after `i` chunks. */
  ghost predicate AfterChunks(job: Job, init: seq<seq<Kv>>, i: nat, pos: nat,
                              kvs: seq<seq<Kv>>, last: Hidden, len: nat)
    requires job.Valid() && Fits(job, init)
  {
    && i <= job.Count()
    && kvs == CachesAfter(job, init, i)
    && pos == Front(job, i)
    && (i > 0 ==> last == OutOf(job, init, |job.nodes| - 1, i - 1)
                  && len == job.End(i - 1) - job.Pos(i - 1))
  }

  lemma SpanIsOneChunk(job: Job, init: seq<seq<Kv>>, i: nat)
    requires job.Valid() && i < job.Count() && Fits(job, init)
    ensures RunChain(job, CachesAfter(job, init, i), i, |job.nodes|)
         == (CachesAfter(job, init, i + 1), OutOf(job, init, |job.nodes| - 1, i))
  {
  }

  lemma OneMoreChunk(job: Job, init: seq<seq<Kv>>, i: nat, kvs: seq<seq<Kv>>, last: Hidden, pos: nat, len: nat)
    requires job.Valid() && i < job.Count() && Fits(job, init)
    requires (kvs, last) == RunChain(job, CachesAfter(job, init, i), i, |job.nodes|)
    requires pos == job.End(i) && len == job.End(i) - job.Pos(i)
    ensures AfterChunks(job, init, i + 1, pos, kvs, last, len)
  {
    FrontAdvances(job, i);
    SpanIsOneChunk(job, init, i);
  }

  lemma LoopEnds(job: Job, init: seq<seq<Kv>>, i: nat, kvs: seq<seq<Kv>>, last: Hidden, len: nat)
    requires job.Valid() && Fits(job, init)
    requires i == job.Count() && AfterChunks(job, init, i, Front(job, i), kvs, last, len)
    ensures FinalLogits(job, init) ==
            if job.LogitsAtLast() || |job.nodes| == 1 then job.engine.head(last, len)
            else job.engine.head(job.engine.wire(last), len)
  {
    CountBounds(job, 0);
  }

  method NextChunk(job: Job, ghost init: seq<seq<Kv>>, kvs0: seq<seq<Kv>>, pos0: nat, ghost i: nat)
    returns (kvs: seq<seq<Kv>>, last: Hidden, pos: nat, len: nat)
    requires job.Valid() && i < job.Count() && Fits(job, init)
    requires kvs0 == CachesAfter(job, init, i) && pos0 == Front(job, i)
    ensures AfterChunks(job, init, i + 1, pos, kvs, last, len)
  {
    FrontAdvances(job, i);
    FrontAdvances(job, 0);
    var remaining := job.end - pos0;
    len := if remaining < job.cap then remaining else job.cap;
    pos := pos0 + len;
    if i > 0 { Bits.ScaleMonotone(1, i, job.cap); }
    ghost var hss;
    kvs, last, hss := EvalSpan(job, kvs0, job.prompt[pos0..pos], pos0, job.reset && pos0 == job.start, i);
    OneMoreChunk(job, init, i, kvs, last, pos, len);
  }

  /** The plain loop: one chunk at a time through the whole chain, RESET on the first. The
      ghost results account for every layer call it has made. */
  method PrefillSequential(job: Job, init: seq<seq<Kv>>)
    returns (kvs: seq<seq<Kv>>, logits: Logits, ghost caches: seq<seq<seq<Kv>>>, ghost spans: seq<seq<seq<Hidden>>>)
    requires job.Valid() && Fits(job, init)
    ensures kvs == CachesAfter(job, init, job.Count())
    ensures logits == FinalLogits(job, init)
    ensures PrefillTrace(job, init, caches, spans) && kvs == caches[|spans|]
    ensures job.start + (|spans| - 1) * job.cap <= job.end && spans[|spans| - 1] != []
    ensures spans[|spans| - 1][|spans[|spans| - 1]| - 1] != [] && logits == TraceLogits(job, spans)
  {
    kvs := init;
    var pos: nat, len: nat := job.start, 0;
    ghost var i := 0;
    var last: Hidden := job.engine.embed([], 0);
    FrontAdvances(job, 0);
    while pos < job.end
      invariant AfterChunks(job, init, i, pos, kvs, last, len)
      invariant pos < job.end <==> i < job.Count()
      decreases job.Count() - i
    {
      kvs, last, pos, len := NextChunk(job, init, kvs, pos, i);
      i := i + 1;
      FrontAdvances(job, i);
    }
    LoopEnds(job, init, i, kvs, last, len);
    if job.LogitsAtLast() || |job.nodes| == 1 {
      logits := job.engine.head(last, len);
    } else {
      logits := job.engine.head(job.engine.wire(last), len);
    }
    caches, spans := TraceOfLoop(job, init);
    TraceIsPlainLoop(job, init, caches, spans);
  }
}
