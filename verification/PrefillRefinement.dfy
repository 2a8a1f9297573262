/** Main safety result of the pipelined prefill: whatever the interleaving and whatever
    fails, a call that returns 0 has computed exactly what the plain loop computes. */
module PrefillRefinement {
  import opened Inference
  import opened PrefillFrames
  import opened Monitors
  import opened PrefillMachine
  import opened PrefillCore
  import opened PrefillAligned

  /** Counters after an action of a run in which nothing was lost. */
  function Advance(p: Progress, a: Action): Progress {
    var h := HopOf(a);
    if a.SendSlot? && 0 < |p| then p[0 := p[0].(sent := p[0].sent + 1)]
    else if h >= |p| then p
    else match a
      case Receive(_) => p[h := p[h].(got := p[h].got + 1)]
      case EnqueueJob(_) => p[h := p[h].(enq := p[h].enq + 1)]
      case PopJob(_) => p[h := p[h].(pop := p[h].pop + 1)]
      case Evaluate(_) => p[h := p[h].(ev := p[h].ev + 1)]
      case TrackForward(_) => p[h := p[h].(fwd := p[h].fwd + 1)]
      case SendForward(_) => if h + 1 < |p| then p[h + 1 := p[h + 1].(sent := p[h + 1].sent + 1)] else p
      case SendReply(_) => p[h := p[h].(res := p[h].res + 1)]
      case RelayRead(_) => p[h := p[h].(rd := p[h].rd + 1)]
      case RelayWrite(_) => p[h := p[h].(res := p[h].res + 1)]
      case _ => p
  }

  function StartCounts(c: Config): Progress {
    seq(c.H(), h requires 0 <= h < c.H() => Count(0, 0, 0, 0, 0, 0, 0, 0))
  }

  lemma InitialAligned(c: Config, s: State)
    requires Initial(c, s)
    ensures Aligned(c, s, StartCounts(c))
  {
    var p := StartCounts(c);
    CountBounds(c.job, 0);
    forall h | 0 <= h < c.H()
      ensures HopAligned(c, h, s.hops[h], p[h], SentNext(p, h), Answered(s, p, h))
    {
      hide RunChain, RunLayers, IdealWork, IdealResult, IdealTelemetry;
      assert s.hops[h] == InitialHop(c.workers[h]);
      assert CachesAfter(c.job, c.Init(), 0)[h + 1] == c.workers[h].kv;
    }
  }

  // --- Putting one worker's step back into the whole pipeline ---

  lemma OneHopStep(c: Config, s: State, p: Progress, h: nat, me: Hop, n: Count)
    requires Aligned(c, s, p) && h < c.H()
    requires n.sent == p[h].sent && n.rd == p[h].rd
    requires HopAligned(c, h, me, n, SentNext(p, h), Answered(s, p, h))
    ensures Aligned(c, s.(hops := s.hops[h := me]), p[h := n])
  {
    hide HopAligned, IdealPayload;
    var t, q := s.(hops := s.hops[h := me]), p[h := n];
    forall g | 0 <= g < c.H()
      ensures HopAligned(c, g, t.hops[g], q[g], SentNext(q, g), Answered(t, q, g))
    {
      assert SentNext(q, g) == SentNext(p, g) && Answered(t, q, g) == Answered(s, p, g);
    }
  }

  lemma TwoHopStep(c: Config, s: State, p: Progress, h: nat, me: Hop, n: Count, next: Hop, m: Count)
    requires Aligned(c, s, p) && h + 1 < c.H()
    requires n.sent == p[h].sent && m.rd == p[h + 1].rd
    requires HopAligned(c, h, me, n, m.sent, Answered(s, p, h))
    requires HopAligned(c, h + 1, next, m, SentNext(p, h + 1), n.rd)
    ensures Aligned(c, s.(hops := s.hops[h := me][h + 1 := next]), p[h := n][h + 1 := m])
  {
    hide HopAligned, IdealPayload;
    var t, q := s.(hops := s.hops[h := me][h + 1 := next]), p[h := n][h + 1 := m];
    forall g | 0 <= g < c.H()
      ensures HopAligned(c, g, t.hops[g], q[g], SentNext(q, g), Answered(t, q, g))
    {
      if g != h && g != h + 1 {
        assert SentNext(q, g) == SentNext(p, g) && Answered(t, q, g) == Answered(s, p, g);
      }
    }
  }

  /** A coordinator step that neither sends nor receives. */
  lemma QuietStep(c: Config, s: State, t: State, p: Progress)
    requires Aligned(c, s, p) && Shape(c, t)
    requires t.hops == s.hops && t.co.received == s.co.received && t.co.final == s.co.final
    requires SentCount(t) == SentCount(s)
    ensures Aligned(c, t, p)
  {
    hide HopAligned, IdealPayload;
    forall g | 0 <= g < c.H()
      ensures HopAligned(c, g, t.hops[g], p[g], SentNext(p, g), Answered(t, p, g))
    {
      assert Answered(t, p, g) == Answered(s, p, g);
    }
  }

  lemma SendSlotStep(c: Config, s: State, p: Progress)
    requires Core(c, s) && Aligned(c, s, p) && EnabledCo(c, s, SendSlot)
    ensures Aligned(c, ApplyCo(c, s, SendSlot), Advance(p, SendSlot))
  {
    hide HopAligned, IdealPayload, IdealWork, WorkOfSlot, Ring.Valid;
    SentFrameIsIdeal(c, s);
    var t, q := ApplyCo(c, s, SendSlot), Advance(p, SendSlot);
    ArriveLocal(c, 0, s.hops[0], p[0], SentNext(p, 0), s.co.received);
    forall g | 0 <= g < c.H()
      ensures HopAligned(c, g, t.hops[g], q[g], SentNext(q, g), Answered(t, q, g))
    {
      if g != 0 { assert SentNext(q, g) == SentNext(p, g) && Answered(t, q, g) == Answered(s, p, g); }
    }
  }

  lemma AcceptStep(c: Config, s: State, p: Progress)
    requires Core(c, s) && Aligned(c, s, p) && EnabledCo(c, s, AcceptResult)
    ensures Aligned(c, ApplyCo(c, s, AcceptResult), p)
  {
    hide HopAligned, IdealPayload, Acceptable, Ring.Valid;
    var t := ApplyCo(c, s, AcceptResult);
    TakeLocal(c, 0, s.hops[0], p[0], SentNext(p, 0), s.co.received);
    forall g | 0 <= g < c.H()
      ensures HopAligned(c, g, t.hops[g], p[g], SentNext(p, g), Answered(t, p, g))
    {
      if g != 0 { assert Answered(t, p, g) == Answered(s, p, g); }
    }
  }

  lemma CoordinatorStep(c: Config, s: State, p: Progress, a: Action)
    requires Core(c, s) && Aligned(c, s, p) && EnabledCo(c, s, a)
    ensures Aligned(c, ApplyCo(c, s, a), Advance(p, a))
  {
    hide Aligned, HopAligned, Acceptable, WorkOfSlot, Ring.Valid, CachesAfter, RunChain, RunLayers, BlankKv;
    if a.SendSlot? {
      SendSlotStep(c, s, p);
    } else if a.AcceptResult? {
      AcceptStep(c, s, p);
    } else {
      QuietStep(c, s, ApplyCo(c, s, a), p);
    }
  }

  lemma AlignedHop(c: Config, s: State, p: Progress, h: nat)
    requires Aligned(c, s, p) && h < c.H()
    ensures Shape(c, s) && |p| == c.H() && HopAligned(c, h, s.hops[h], p[h], SentNext(p, h), Answered(s, p, h))
  {
    hide HopAligned;
  }

  lemma SendForwardStep(c: Config, s: State, p: Progress, h: nat)
    requires Aligned(c, s, p) && EnabledHop(c, s, SendForward(h))
    ensures Aligned(c, ApplyHop(c, s, SendForward(h)), Advance(p, SendForward(h)))
  {
    hide Aligned, HopAligned, IdealWork;
    AlignedHop(c, s, p, h);
    AlignedHop(c, s, p, h + 1);
    SendForwardLocal(c, h, s.hops[h], p[h], SentNext(p, h), Answered(s, p, h));
    ArriveLocal(c, h + 1, s.hops[h + 1], p[h + 1], SentNext(p, h + 1), Answered(s, p, h + 1));
    TwoHopStep(c, s, p, h, s.hops[h].(eval := Idle), p[h],
               s.hops[h + 1].(down := s.hops[h + 1].down + [s.hops[h].eval.next]),
               p[h + 1].(sent := p[h + 1].sent + 1));
    assert p[h := p[h]] == p;
  }

  lemma RelayReadStep(c: Config, s: State, p: Progress, h: nat)
    requires Aligned(c, s, p) && EnabledHop(c, s, RelayRead(h))
    ensures Aligned(c, ApplyHop(c, s, RelayRead(h)), Advance(p, RelayRead(h)))
  {
    hide Aligned, HopAligned, IdealResult;
    AlignedHop(c, s, p, h);
    AlignedHop(c, s, p, h + 1);
    TakeLocal(c, h + 1, s.hops[h + 1], p[h + 1], SentNext(p, h + 1), p[h].rd);
    AnswerWasSent(c, s, p, h);
    RelayReadLocal(c, h, s.hops[h], p[h], SentNext(p, h), Answered(s, p, h));
    var me, r := s.hops[h], s.hops[h + 1].up[0];
    TwoHopStep(c, s, p, h, me.(pending := me.pending[1..],
                               relay := Holding(r.(telemetry := r.telemetry + [me.pending[0].telemetry]))),
               p[h].(rd := p[h].rd + 1),
               s.hops[h + 1].(up := s.hops[h + 1].up[1..]), p[h + 1]);
    assert p[h := p[h].(rd := p[h].rd + 1)][h + 1 := p[h + 1]] == p[h := p[h].(rd := p[h].rd + 1)];
  }

  /** An answer in a socket belongs to a request that was put on the wire. */
  lemma AnswerWasSent(c: Config, s: State, p: Progress, h: nat)
    requires Aligned(c, s, p) && h + 1 < c.H() && s.hops[h + 1].up != []
    ensures p[h].rd < SentNext(p, h)
  {
    hide InputAligned, EvalAligned, SessionAligned, Results, Pendings, IdealResult;
    AlignedHop(c, s, p, h + 1);
  }

  lemma WorkerStep(c: Config, s: State, p: Progress, a: Action)
    requires Aligned(c, s, p) && EnabledHop(c, s, a) && !IsFailure(a)
    ensures Aligned(c, ApplyHop(c, s, a), Advance(p, a))
  {
    hide Aligned, HopAligned, Evaluated, CanEvaluate, RunLayers, RunChain, CachesAfter;
    var h := HopOf(a);
    AlignedHop(c, s, p, h);
    var me, n, x, y := s.hops[h], p[h], SentNext(p, h), Answered(s, p, h);
    match a
    case Receive(_) =>
      ReceiveLocal(c, h, me, n, x, y);
      OneHopStep(c, s, p, h, me.(down := me.down[1..], rx := Some(me.down[0])), n.(got := n.got + 1));
    case EnqueueJob(_) =>
      EnqueueLocal(c, h, me, n, x, y);
      OneHopStep(c, s, p, h, me.(rx := None, queue := me.queue + [me.rx.value]), n.(enq := n.enq + 1));
    case PopJob(_) =>
      PopLocal(c, h, me, n, x, y);
      OneHopStep(c, s, p, h, me.(queue := me.queue[1..], eval := Evaluating(me.queue[0])), n.(pop := n.pop + 1));
    case Evaluate(_) =>
      EvaluateLocal(c, h, me, n, x, y);
      OneHopStep(c, s, p, h, Evaluated(c, h, me), n.(ev := n.ev + 1));
    case TrackForward(_) =>
      TrackLocal(c, h, me, n, x, y);
      OneHopStep(c, s, p, h, me.(eval := Tracked(me.eval.next),
                                 pending := me.pending + [Pending(me.eval.next.id, me.eval.telemetry)]),
                 n.(fwd := n.fwd + 1));
    case SendForward(_) => SendForwardStep(c, s, p, h);
    case SendReply(_) =>
      ReplyLocal(c, h, me, n, x, y);
      OneHopStep(c, s, p, h, me.(eval := Idle, up := me.up + [me.eval.result]), n.(res := n.res + 1));
    case RelayRead(_) => RelayReadStep(c, s, p, h);
    case RelayWrite(_) =>
      RelayWriteLocal(c, h, me, n, x, y);
      OneHopStep(c, s, p, h, me.(relay := Listening, up := me.up + [me.relay.result]), n.(res := n.res + 1));
  }
}
