/** What is on the wire of the pipelined prefill, field by field: requests and answers in
    terms of the prompt and of the layer calls, and the checks that admit them. */
module PrefillWire {
  import opened TokenHash
  import opened Inference
  import opened PlainLoop
  import opened WorkerSession
  import opened PrefillFrames
  import opened PrefillMachine
  import opened PrefillCore
  import opened PrefillAligned
  import opened PrefillRefinement
  import opened PrefillLiveness

  function From(job: Job, i: nat): nat { job.start + i * job.cap }

  function To(job: Job, i: nat): nat {
    if From(job, i) + job.cap < job.end then From(job, i) + job.cap else job.end
  }

  // --- The checks ---

  /** The coordinator accepts as the answer for chunk `i` only a result with its id and with
      the hash of the prompt up to the chunk's end: an acknowledgement unless the chunk is the
      last, logits, or the hidden states of all the chunk's tokens when it has to run the
      output head itself. */
  lemma AcceptableExactly(c: Config, i: nat, r: Result)
    requires c.Valid() && i < c.N()
    ensures From(c.job, i) < To(c.job, i) <= |c.job.prompt|
    ensures Acceptable(c, i, r) <==>
              && r.ok && r.id == c.job.firstId + i && r.hash == Prefix(c.job.prompt[..To(c.job, i)])
              && match r.payload
                 case Ack => To(c.job, i) < c.job.end
                 case Final(_) => true
                 case HiddenState(_, n) => !c.job.nodes[c.H()].outputLogits && n == To(c.job, i) - From(c.job, i)
  {
    CountBounds(c.job, i);
    ChunkShape(c.job, i);
  }

  /** A worker evaluates a frame if and only if it is addressed to this hop and its layers, fits
      the context, asks for logits on the last hop only, has consistent hashes, and continues
      the session from its end. */
  lemma EvaluatesExactly(c: Config, h: nat, s: Session, w: Work)
    requires c.Valid() && h < c.H()
    ensures CanEvaluate(c, h, s, w) <==>
              && w.routeIndex == h && w.first == c.job.nodes[h + 1].first && w.last == c.job.nodes[h + 1].last
              && w.outputLogits == c.job.nodes[h + 1].outputLogits && (w.outputLogits ==> h == c.H() - 1)
              && 0 < |w.tokens| <= c.ctx - w.pos
              && w.resultHash == Continue(w.prefixHash, w.tokens)
              && w.prefixHash == (if w.reset then INIT else if s.valid then s.hash else Prefix(s.timeline))
              && w.pos == (if !w.reset && s.committed then |s.timeline| else 0)
  {
    hide Continue;
  }

  // --- The frames ---

  /** The request for chunk `i` to worker `h`. `spans` are the hidden states of the plain loop. */
  ghost predicate IsRequest(c: Config, spans: seq<seq<seq<Hidden>>>, h: nat, i: nat, w: Work) {
    var job, from, to := c.job, From(c.job, i), To(c.job, i);
    && i < |spans| && h + 1 < |job.nodes| == |spans[i]| && spans[i][h] != []
    && from < to <= |job.prompt|
    && w.id == job.firstId + i && w.pos == from && w.tokens == job.prompt[from..to]
    && w.prefixHash == Prefix(job.prompt[..from]) && w.resultHash == Prefix(job.prompt[..to])
    && w.routeIndex == h && w.first == job.nodes[h + 1].first && w.last == job.nodes[h + 1].last
    && w.outputLogits == job.nodes[h + 1].outputLogits
    && (w.reset <==> job.reset && i == 0) && (w.ackOnly <==> job.ackOnly && to < job.end)
    && w.hidden == job.engine.wire(spans[i][h][|spans[i][h]| - 1])
  }

  /** The answer for chunk `i` out of worker `h`, with the telemetry of the hops behind it. */
  ghost predicate IsAnswer(c: Config, spans: seq<seq<seq<Hidden>>>, h: nat, i: nat, r: Result) {
    var job, from, to, last := c.job, From(c.job, i), To(c.job, i), |c.job.nodes| - 1;
    && i < |spans| && h < last && |spans[i]| == last + 1 && spans[i][last] != []
    && from < to <= |job.prompt|
    && r.ok && r.id == job.firstId + i && r.hash == Prefix(job.prompt[..to])
    && |r.telemetry| == last - h
    && (forall k :: 0 <= k < |r.telemetry| ==>
          r.telemetry[k] == Telemetry(job.nodes[last - k].first, job.nodes[last - k].last, last - 1 - k, from, to - from))
    && var out := spans[i][last][|spans[i][last]| - 1];
       r.payload == if job.ackOnly && to < job.end then Ack
                    else if job.nodes[last].outputLogits then Final(job.engine.head(out, to - from))
                    else HiddenState(job.engine.wire(out), to - from)
  }

  /** The hidden state that leaves machine `n` on chunk `i`, in any account of the loop. */
  lemma TracedOut(c: Config, caches: seq<seq<seq<Kv>>>, spans: seq<seq<seq<Hidden>>>, n: nat, i: nat)
    requires c.Valid() && PrefillTrace(c.job, c.Init(), caches, spans) && i < c.N() && n < |c.job.nodes|
    ensures i < |spans| && |spans[i]| == |c.job.nodes| && spans[i][n] != []
    ensures OutOf(c.job, c.Init(), n, i) == spans[i][n][|spans[i][n]| - 1]
  {
    hide ChunkTrace, SpanTrace, RunChain, CachesAfter, MachineTrace, TraceLogits, FinalLogits;
    TraceIsPlainLoop(c.job, c.Init(), caches, spans);
    TraceCaches(c.job, c.Init(), caches, spans, i);
    assert ChunkTrace(c.job, caches, spans, i);
    ChunkOfTrace(c.job, caches, spans, i);
    SpanShape(c.job, caches[i], c.job.Chunk(i), c.job.Pos(i), c.job.reset && i == 0, spans[i], caches[i + 1]);
    SpanTraceIsChain(c.job, caches[i], i, spans[i], caches[i + 1], n + 1);
  }

  lemma ChunkEnds(job: Job, i: nat)
    requires job.Valid() && i < job.Count()
    ensures job.Pos(i) == From(job, i) < To(job, i) == job.End(i) <= job.end
    ensures To(job, i) < job.end <==> i + 1 < job.Count()
    ensures To(job, i) < job.end <==> From(job, i) + job.cap < job.end
  {
    CountBounds(job, i);
    ChunkShape(job, i);
  }

  lemma IdealIsRequest(c: Config, caches: seq<seq<seq<Kv>>>, spans: seq<seq<seq<Hidden>>>, h: nat, i: nat)
    requires c.Valid() && PrefillTrace(c.job, c.Init(), caches, spans) && i < c.N() && h < c.H()
    ensures IsRequest(c, spans, h, i, IdealWork(c, h, i))
  {
    hide OutOf, PrefillTrace, Prefix;
    ChunkEnds(c.job, i);
    TracedOut(c, caches, spans, h, i);
  }

  lemma IdealIsAnswer(c: Config, caches: seq<seq<seq<Kv>>>, spans: seq<seq<seq<Hidden>>>, h: nat, i: nat)
    requires c.Valid() && PrefillTrace(c.job, c.Init(), caches, spans) && i < c.N() && h < c.H()
    ensures IsAnswer(c, spans, h, i, IdealResult(c, h, i))
  {
    hide OutOf, PrefillTrace, Prefix, Telemetries;
    ChunkEnds(c.job, i);
    TracedOut(c, caches, spans, c.H(), i);
  }

  /** Everything in the sockets between worker `h` and its upstream neighbour. */
  lemma WireLocal(c: Config, caches: seq<seq<seq<Kv>>>, spans: seq<seq<seq<Hidden>>>, h: nat, me: Hop, n: Count,
                  sentNext: nat, taken: nat)
    requires HopAligned(c, h, me, n, sentNext, taken) && PrefillTrace(c.job, c.Init(), caches, spans)
    ensures |me.down| == n.sent - n.got && forall k :: 0 <= k < |me.down| ==> IsRequest(c, spans, h, n.got + k, me.down[k])
    ensures |me.up| == n.res - taken && forall k :: 0 <= k < |me.up| ==> IsAnswer(c, spans, h, taken + k, me.up[k])
  {
    hide IsRequest, IsAnswer, IdealWork, IdealResult, PrefillTrace, SessionAligned, EvalAligned, Pendings, RunChain, CachesAfter;
    forall k | 0 <= k < |me.down| ensures IsRequest(c, spans, h, n.got + k, me.down[k]) {
      IdealIsRequest(c, caches, spans, h, n.got + k);
    }
    forall k | 0 <= k < |me.up| ensures IsAnswer(c, spans, h, taken + k, me.up[k]) {
      IdealIsAnswer(c, caches, spans, h, taken + k);
    }
  }

  /** On every fault-free run, at every moment: the frames in the sockets of every worker are
      the requests and the answers for consecutive chunks, with the prompt's tokens and hashes
      and the very hidden states that the layers have produced. */
  lemma FaultFreeWire(c: Config, states: seq<State>, actions: seq<Action>, n: nat, h: nat,
                      caches: seq<seq<seq<Kv>>>, spans: seq<seq<seq<Hidden>>>)
    requires IsRun(c, states, actions) && FaultFree(actions) && n <= |actions| && h < c.H()
    requires PrefillTrace(c.job, c.Init(), caches, spans)
    ensures Shape(c, states[n]) && |CountsAt(c, actions, n)| == c.H()
    ensures var me, p := states[n].hops[h], CountsAt(c, actions, n);
            && (forall k :: 0 <= k < |me.down| ==> IsRequest(c, spans, h, p[h].got + k, me.down[k]))
            && (forall k :: 0 <= k < |me.up| ==>
                  IsAnswer(c, spans, h, (if h == 0 then states[n].co.received else p[h - 1].rd) + k, me.up[k]))
  {
    hide Core, Healthy, Aligned, HopAligned, Effort, Apply, Enabled, Config.Valid, PrefillTrace, IsRequest, IsAnswer,
         FaultFree, CountsAt, SentNext;
    FaultFreeRun(c, states, actions, n);
    var s, p := states[n], CountsAt(c, actions, n);
    AlignedHop(c, s, p, h);
    WireLocal(c, caches, spans, h, s.hops[h], p[h], SentNext(p, h), Answered(s, p, h));
  }
}
