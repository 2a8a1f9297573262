/** While nothing has been lost, every queue of the pipeline holds a slice of the plain
    loop's frames and every cache is the plain loop's cache. One counter per stage says
    how many chunks have passed it. */
module PrefillAligned {
  import opened TokenHash
  import opened Inference
  import opened WorkerSession
  import opened PrefillFrames
  import opened PrefillMachine
  import opened PrefillCore

  /** Chunks that have passed each stage of one worker: written to its socket, read from
      it, queued, popped, evaluated, entered in the pending FIFO, answered by the next
      worker (read by this relay), answered by this worker. */
  datatype Count = Count(sent: nat, got: nat, enq: nat, pop: nat, ev: nat, fwd: nat, rd: nat, res: nat)

  type Progress = seq<Count>

  ghost predicate Ordered(c: Config, h: nat, n: Count, sentNext: nat, taken: nat)
    requires c.Valid()
  {
    && n.got <= n.sent <= c.N()
    && n.enq <= n.got <= n.enq + 1
    && n.pop <= n.enq
    && n.ev <= n.pop <= n.ev + 1
    && taken <= n.res <= n.ev
    && if h + 1 < c.H() then n.rd <= sentNext <= n.fwd <= n.ev && n.res <= n.rd
       else n.fwd == 0 && n.rd == 0
  }

  ghost predicate InputAligned(c: Config, h: nat, me: Hop, n: Count)
    requires c.Valid() && h < c.H() && n.got <= n.sent <= c.N() && n.enq <= n.got && n.pop <= n.enq
  {
    && me.down == Works(c, h, n.got, n.sent)
    && me.rx == (if n.enq < n.got then Some(IdealWork(c, h, n.enq)) else None)
    && me.queue == Works(c, h, n.pop, n.enq)
  }

  ghost predicate EvalAligned(c: Config, h: nat, me: Hop, n: Count, sentNext: nat)
    requires c.Valid() && h < c.H() && n.pop <= c.N()
  {
    match me.eval
    case Idle => n.pop == n.ev && if h + 1 < c.H() then n.ev == n.fwd == sentNext else n.ev == n.res
    case Evaluating(w) =>
      n.pop == n.ev + 1 && w == IdealWork(c, h, n.ev)
      && if h + 1 < c.H() then n.ev == n.fwd == sentNext else n.ev == n.res
    case Forwarding(w, t) =>
      h + 1 < c.H() && n.pop == n.ev == n.fwd + 1 && n.fwd == sentNext
      && w == IdealWork(c, h + 1, n.fwd) && t == IdealTelemetry(c, h, n.fwd)
    case Tracked(w) =>
      h + 1 < c.H() && n.pop == n.ev == n.fwd == sentNext + 1 && w == IdealWork(c, h + 1, sentNext)
    case Replying(r) =>
      h + 1 == c.H() && n.pop == n.ev == n.res + 1 && r == IdealResult(c, h, n.res)
  }

  /** How many tokens worker `h` holds when it starts on the first chunk. */
  function StartLength(c: Config, h: nat): nat
    requires c.Valid() && h < c.H()
  {
    |Prepared(c.workers[h], c.job.reset, BlankOf(c, h)).timeline|
  }

  /** What worker `h` needs for chunk `i`, in terms of the configuration alone. */
  ghost predicate CanServe(c: Config, h: nat, i: nat)
    requires c.Valid() && h < c.H() && i < c.N()
  {
    && WellFormedWork(c, h, IdealWork(c, h, i))
    && if i == 0 then CanEvaluate(c, h, c.workers[h], IdealWork(c, h, 0)) else StartLength(c, h) == c.job.start
  }

  ghost predicate SessionAligned(c: Config, h: nat, me: Hop, n: Count)
    requires c.Valid() && h < c.H() && n.ev <= c.N()
  {
    && me.session.kv == CachesAfter(c.job, c.Init(), n.ev)[h + 1]
    && (n.ev == 0 ==> me.session == c.workers[h])
    && (n.ev > 0 ==> c.job.End(n.ev - 1) <= |c.job.prompt| && me.session.valid
                     && me.session.hash == ResultHashOf(c, n.ev - 1)
                     && me.session.committed
                     && |me.session.timeline| == StartLength(c, h) + c.job.End(n.ev - 1) - c.job.start)
    && (forall i :: 0 <= i < n.ev ==> CanServe(c, h, i))
  }

  ghost predicate OutputAligned(c: Config, h: nat, me: Hop, n: Count, taken: nat)
    requires c.Valid() && h < c.H() && taken <= n.res <= c.N() && n.rd <= n.fwd <= c.N()
  {
    && me.up == Results(c, h, taken, n.res)
    && me.pending == Pendings(c, h, n.rd, n.fwd)
    && (h + 1 < c.H() ==>
        match me.relay
        case Holding(r) => n.rd == n.res + 1 && r == IdealResult(c, h, n.res)
        case _ => n.rd == n.res)
    && (h + 1 == c.H() ==> !me.relay.Holding?)
  }

  ghost predicate HopAligned(c: Config, h: nat, me: Hop, n: Count, sentNext: nat, taken: nat) {
    && c.Valid() && h < c.H()
    && Ordered(c, h, n, sentNext, taken)
    && InputAligned(c, h, me, n)
    && EvalAligned(c, h, me, n, sentNext)
    && SessionAligned(c, h, me, n)
    && OutputAligned(c, h, me, n, taken)
  }

  function SentNext(p: Progress, h: nat): nat {
    if h + 1 < |p| then p[h + 1].sent else 0
  }

  function Answered(s: State, p: Progress, h: nat): nat
    requires h <= |p|
  {
    if h == 0 then s.co.received else p[h - 1].rd
  }

  ghost predicate FinalAligned(c: Config, s: State)
    requires c.Valid()
  {
    CountBounds(c.job, 0);
    s.co.received == c.N() ==> s.co.final == Some(IdealPayload(c, c.N() - 1))
  }

  ghost predicate Aligned(c: Config, s: State, p: Progress) {
    && Shape(c, s) && |p| == c.H()
    && p[0].sent == SentCount(s)
    && FinalAligned(c, s)
    && forall h :: 0 <= h < c.H() ==> HopAligned(c, h, s.hops[h], p[h], SentNext(p, h), Answered(s, p, h))
  }

  // --- Slices ---

  lemma WorksEnds(c: Config, h: nat, a: nat, b: nat)
    requires c.Valid() && h < c.H() && a <= b <= c.N()
    ensures a < b ==> Works(c, h, a, b) != [] && Works(c, h, a, b)[0] == IdealWork(c, h, a)
                      && Works(c, h, a, b)[1..] == Works(c, h, a + 1, b)
    ensures b < c.N() ==> Works(c, h, a, b) + [IdealWork(c, h, b)] == Works(c, h, a, b + 1)
  {
    hide IdealWork;
  }

  lemma ResultsEnds(c: Config, h: nat, a: nat, b: nat)
    requires c.Valid() && h < c.H() && a <= b <= c.N()
    ensures a < b ==> Results(c, h, a, b) != [] && Results(c, h, a, b)[0] == IdealResult(c, h, a)
                      && Results(c, h, a, b)[1..] == Results(c, h, a + 1, b)
    ensures b < c.N() ==> Results(c, h, a, b) + [IdealResult(c, h, b)] == Results(c, h, a, b + 1)
  {
    hide IdealResult;
  }

  lemma PendingsEnds(c: Config, h: nat, a: nat, b: nat)
    requires c.Valid() && h < c.H() && a <= b <= c.N()
    ensures a < b ==> Pendings(c, h, a, b) != []
                      && Pendings(c, h, a, b)[0] == Pending(c.job.firstId + a, IdealTelemetry(c, h, a))
                      && Pendings(c, h, a, b)[1..] == Pendings(c, h, a + 1, b)
    ensures b < c.N() ==> Pendings(c, h, a, b + 1)
                          == Pendings(c, h, a, b) + [Pending(c.job.firstId + b, IdealTelemetry(c, h, b))]
  {
    hide IdealTelemetry;
  }

  lemma IdealIds(c: Config, h: nat, i: nat)
    requires c.Valid() && h < c.H() && i < c.N()
    ensures IdealWork(c, h, i).id == c.job.firstId + i && IdealResult(c, h, i).id == c.job.firstId + i
  {
  }

  // --- One worker, one step ---

  lemma ReceiveLocal(c: Config, h: nat, me: Hop, n: Count, sentNext: nat, taken: nat)
    requires HopAligned(c, h, me, n, sentNext, taken) && me.down != [] && me.rx.None?
    ensures HopAligned(c, h, me.(down := me.down[1..], rx := Some(me.down[0])), n.(got := n.got + 1), sentNext, taken)
  {
    hide IdealWork, IdealResult, IdealTelemetry, CachesAfter, Works, Results, Pendings;
    WorksEnds(c, h, n.got, n.sent);
  }

  lemma EnqueueLocal(c: Config, h: nat, me: Hop, n: Count, sentNext: nat, taken: nat)
    requires HopAligned(c, h, me, n, sentNext, taken) && me.rx.Some?
    ensures HopAligned(c, h, me.(rx := None, queue := me.queue + [me.rx.value]), n.(enq := n.enq + 1), sentNext, taken)
  {
    hide IdealWork, IdealResult, IdealTelemetry, CachesAfter, Works, Results, Pendings;
    WorksEnds(c, h, n.pop, n.enq);
  }

  lemma PopLocal(c: Config, h: nat, me: Hop, n: Count, sentNext: nat, taken: nat)
    requires HopAligned(c, h, me, n, sentNext, taken) && me.eval.Idle? && me.queue != []
    ensures HopAligned(c, h, me.(queue := me.queue[1..], eval := Evaluating(me.queue[0])),
                       n.(pop := n.pop + 1), sentNext, taken)
  {
    hide IdealWork, IdealResult, IdealTelemetry, CachesAfter, Works, Results, Pendings;
    WorksEnds(c, h, n.pop, n.enq);
  }

  lemma TrackLocal(c: Config, h: nat, me: Hop, n: Count, sentNext: nat, taken: nat)
    requires HopAligned(c, h, me, n, sentNext, taken) && me.eval.Forwarding?
    ensures HopAligned(c, h, me.(eval := Tracked(me.eval.next),
                                 pending := me.pending + [Pending(me.eval.next.id, me.eval.telemetry)]),
                       n.(fwd := n.fwd + 1), sentNext, taken)
  {
    hide IdealWork, IdealResult, IdealTelemetry, CachesAfter, Works, Results, Pendings;
    IdealIds(c, h + 1, n.fwd);
    PendingsEnds(c, h, n.rd, n.fwd);
  }

  lemma SendForwardLocal(c: Config, h: nat, me: Hop, n: Count, sentNext: nat, taken: nat)
    requires HopAligned(c, h, me, n, sentNext, taken) && me.eval.Tracked?
    ensures h + 1 < c.H() && sentNext < c.N() && me.eval.next == IdealWork(c, h + 1, sentNext)
    ensures HopAligned(c, h, me.(eval := Idle), n, sentNext + 1, taken)
  {
    hide IdealWork, IdealResult, IdealTelemetry, CachesAfter, Works, Results, Pendings;
  }

  lemma ArriveLocal(c: Config, h: nat, me: Hop, n: Count, sentNext: nat, taken: nat)
    requires HopAligned(c, h, me, n, sentNext, taken) && n.sent < c.N()
    ensures HopAligned(c, h, me.(down := me.down + [IdealWork(c, h, n.sent)]), n.(sent := n.sent + 1), sentNext, taken)
  {
    hide IdealWork, IdealResult, IdealTelemetry, CachesAfter, Works, Results, Pendings;
    WorksEnds(c, h, n.got, n.sent);
  }

  lemma ReplyLocal(c: Config, h: nat, me: Hop, n: Count, sentNext: nat, taken: nat)
    requires HopAligned(c, h, me, n, sentNext, taken) && me.eval.Replying?
    ensures HopAligned(c, h, me.(eval := Idle, up := me.up + [me.eval.result]), n.(res := n.res + 1), sentNext, taken)
  {
    hide IdealWork, IdealResult, IdealTelemetry, CachesAfter, Works, Results, Pendings;
    ResultsEnds(c, h, taken, n.res);
  }

  lemma RelayWriteLocal(c: Config, h: nat, me: Hop, n: Count, sentNext: nat, taken: nat)
    requires HopAligned(c, h, me, n, sentNext, taken) && me.relay.Holding?
    ensures HopAligned(c, h, me.(relay := Listening, up := me.up + [me.relay.result]),
                       n.(res := n.res + 1), sentNext, taken)
  {
    hide IdealWork, IdealResult, IdealTelemetry, CachesAfter, Works, Results, Pendings;
    ResultsEnds(c, h, taken, n.res);
  }

  /** A worker's answer leaves its socket in order. */
  lemma TakeLocal(c: Config, h: nat, me: Hop, n: Count, sentNext: nat, taken: nat)
    requires HopAligned(c, h, me, n, sentNext, taken) && me.up != []
    ensures taken < n.res && me.up[0] == IdealResult(c, h, taken)
    ensures HopAligned(c, h, me.(up := me.up[1..]), n, sentNext, taken + 1)
  {
    hide IdealWork, IdealResult, IdealTelemetry, CachesAfter, Works, Results, Pendings;
    ResultsEnds(c, h, taken, n.res);
  }

  /** The next worker's oldest answer belongs to the oldest pending request; with this
      worker's telemetry appended it is the answer to relay. */
  lemma RelayReadLocal(c: Config, h: nat, me: Hop, n: Count, sentNext: nat, taken: nat)
    requires HopAligned(c, h, me, n, sentNext, taken) && h + 1 < c.H()
    requires me.relay.Listening? && n.rd < sentNext
    ensures me.pending != [] && me.pending[0] == Pending(c.job.firstId + n.rd, IdealTelemetry(c, h, n.rd))
    ensures var r := IdealResult(c, h + 1, n.rd);
            && r.id == me.pending[0].id
            && HopAligned(c, h, me.(pending := me.pending[1..],
                                    relay := Holding(r.(telemetry := r.telemetry + [me.pending[0].telemetry]))),
                          n.(rd := n.rd + 1), sentNext, taken)
  {
    hide IdealWork, IdealTelemetry, IdealPayload, CachesAfter, Works, Results, Pendings;
    PendingsEnds(c, h, n.rd, n.fwd);
  }

  /** Running a worker's layers on the plain loop's cache and frame gives the plain
      loop's next cache and outgoing hidden state. */
  lemma LayersAreIdeal(c: Config, h: nat, i: nat, s: Session)
    requires c.Valid() && h < c.H() && i < c.N()
    requires s.kv == CachesAfter(c.job, c.Init(), i)[h + 1]
    ensures LayersOf(c, h, s, IdealWork(c, h, i))
         == (CachesAfter(c.job, c.Init(), i + 1)[h + 1], OutOf(c.job, c.Init(), h + 1, i))
  {
    hide RunChain, RunLayers, CachesAfter, OutOf, InTo;
    LocalStep(c.job, c.Init(), h + 1, i);
  }

  lemma ForwardIsIdeal(c: Config, h: nat, i: nat)
    requires c.Valid() && h + 1 < c.H() && i < c.N()
    ensures ForwardOf(c, h, IdealWork(c, h, i), OutOf(c.job, c.Init(), h + 1, i)) == IdealWork(c, h + 1, i)
    ensures TelemetryOf(IdealWork(c, h, i)) == IdealTelemetry(c, h, i)
  {
    hide RunChain, RunLayers, CachesAfter, OutOf;
    ChunkShape(c.job, i);
  }

  lemma ReplyIsIdeal(c: Config, i: nat)
    requires c.Valid() && i < c.N()
    ensures ReplyOf(c, IdealWork(c, c.H() - 1, i), OutOf(c.job, c.Init(), c.H(), i)) == IdealResult(c, c.H() - 1, i)
  {
    hide RunChain, RunLayers, CachesAfter, OutOf, InTo;
    ChunkShape(c.job, i);
  }

  lemma EvaluatedSession(c: Config, h: nat, me: Hop, i: nat)
    requires c.Valid() && h < c.H() && i < c.N()
    requires me.eval.Evaluating? && me.eval.job == IdealWork(c, h, i) && CanEvaluate(c, h, me.session, me.eval.job)
    ensures c.job.Pos(i) <= c.job.End(i) <= |c.job.prompt|
    ensures var s, p := Evaluated(c, h, me).session, Prepared(me.session, ResetOf(c, i), BlankOf(c, h));
            && s.kv == LayersOf(c, h, me.session, me.eval.job).0
            && s.valid && s.committed && s.hash == ResultHashOf(c, i)
            && |s.timeline| == |p.timeline| + c.job.End(i) - c.job.Pos(i)
            && c.job.Pos(i) == if p.committed then |p.timeline| else 0
  {
    hide RunChain, RunLayers, CachesAfter, OutOf, InTo, LayersOf, ForwardOf, ReplyOf, TelemetryOf, BlankKv, Continue;
    ChunkShape(c.job, i);
  }

  lemma EvaluatedStage(c: Config, h: nat, me: Hop, i: nat)
    requires c.Valid() && h < c.H() && i < c.N()
    requires me.eval.Evaluating? && me.eval.job == IdealWork(c, h, i) && CanEvaluate(c, h, me.session, me.eval.job)
    requires me.session.kv == CachesAfter(c.job, c.Init(), i)[h + 1]
    ensures Evaluated(c, h, me).session.kv == CachesAfter(c.job, c.Init(), i + 1)[h + 1]
    ensures Evaluated(c, h, me) == me.(session := Evaluated(c, h, me).session,
                                       eval := if h + 1 < c.H() then Forwarding(IdealWork(c, h + 1, i), IdealTelemetry(c, h, i))
                                               else Replying(IdealResult(c, h, i)))
  {
    hide RunChain, RunLayers, CachesAfter, OutOf, IdealWork, IdealResult, IdealTelemetry,
         LayersOf, ForwardOf, ReplyOf, TelemetryOf, BlankKv, CanEvaluate;
    LayersAreIdeal(c, h, i, me.session);
    EvaluatedSession(c, h, me, i);
    if h + 1 < c.H() { ForwardIsIdeal(c, h, i); } else { ReplyIsIdeal(c, i); }
  }

  lemma EvaluateLocal(c: Config, h: nat, me: Hop, n: Count, sentNext: nat, taken: nat)
    requires HopAligned(c, h, me, n, sentNext, taken)
    requires me.eval.Evaluating? && CanEvaluate(c, h, me.session, me.eval.job)
    ensures HopAligned(c, h, Evaluated(c, h, me), n.(ev := n.ev + 1), sentNext, taken)
  {
    hide RunChain, RunLayers, CachesAfter, Works, Results, Pendings, IdealWork, IdealResult, IdealTelemetry,
         Evaluated, CanEvaluate, CanServe, Prepared, StartLength;
    EvaluatedStage(c, h, me, n.ev);
    EvaluatedSession(c, h, me, n.ev);
    ServedSession(c, h, me, n, sentNext, taken);
  }

  /** Having evaluated chunk `n.ev`, the worker was able to serve it from the start. */
  lemma ServedSession(c: Config, h: nat, me: Hop, n: Count, sentNext: nat, taken: nat)
    requires HopAligned(c, h, me, n, sentNext, taken)
    requires me.eval.Evaluating? && CanEvaluate(c, h, me.session, me.eval.job)
    ensures n.ev < c.N() && CanServe(c, h, n.ev) && c.job.End(n.ev) >= c.job.start
    ensures |Evaluated(c, h, me).session.timeline| == StartLength(c, h) + c.job.End(n.ev) - c.job.start
  {
    hide RunChain, RunLayers, CachesAfter, Works, Results, Pendings, IdealWork, IdealResult, IdealTelemetry,
         Evaluated, LayersOf, InputAligned, OutputAligned, Prefix, Continue, CanEvaluate, WellFormedWork;
    ChunkShape(c.job, n.ev);
    EvaluatedSession(c, h, me, n.ev);
    FirstPosition(c.job);
    EvaluableIsWellFormed(c, h, me.session, me.eval.job);
    if n.ev > 0 { ChunkShape(c.job, n.ev - 1); }
  }

  lemma EvaluableIsWellFormed(c: Config, h: nat, s: Session, w: Work)
    requires c.Valid() && h < c.H() && CanEvaluate(c, h, s, w)
    ensures WellFormedWork(c, h, w)
  {
    hide WellFormedWork;
  }

  lemma FirstPosition(job: Job)
    ensures job.Pos(0) == job.start
  {
  }
}
