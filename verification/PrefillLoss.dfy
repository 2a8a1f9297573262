/** What is known once a chunk has been lost: its request will never be answered with
    success, so the result reader can never get past it. */
module PrefillLoss {
  import opened Inference
  import opened WorkerSession
  import opened PrefillFrames
  import opened Monitors
  import opened PrefillMachine
  import opened PrefillCore
  import opened PrefillAligned

  ghost predicate NoneIn(q: seq<Work>, id: nat) {
    forall k :: 0 <= k < |q| ==> q[k].id != id
  }

  ghost predicate NoSuccessIn(q: seq<Result>, id: nat) {
    forall k :: 0 <= k < |q| ==> q[k].ok ==> q[k].id != id
  }

  ghost predicate NotInEval(e: Evaluator, id: nat) {
    match e
    case Idle => true
    case Evaluating(w) => w.id != id
    case Forwarding(w, _) => w.id != id
    case Tracked(w) => w.id != id
    case Replying(r) => r.ok ==> r.id != id
  }

  /** No copy of request `id` in this worker's input. */
  ghost predicate NoInput(me: Hop, id: nat) {
    && NoneIn(me.down, id)
    && (me.rx.Some? ==> me.rx.value.id != id)
    && NoneIn(me.queue, id)
  }

  /** No successful answer to request `id` on its way upstream from this worker. */
  ghost predicate NoAnswer(me: Hop, id: nat) {
    && NoSuccessIn(me.up, id)
    && (me.relay.Holding? && me.relay.result.ok ==> me.relay.result.id != id)
  }

  /** Request `id` is dead at this worker. If the worker's relay has stopped for good
      (`cut`), a copy may still be on its way further down. */
  ghost predicate Dead(me: Hop, id: nat, cut: bool) {
    && NoInput(me, id) && NoAnswer(me, id)
    && (NotInEval(me.eval, id) || (cut && me.eval.Tracked?))
    && (cut ==> me.relay.Stopped?)
  }

  /** Chunk `j` is lost above worker `b`: at workers 0..b it is dead, the coordinator
      sends it no more, and nothing comes back through `b` from further down. */
  ghost predicate Lost(c: Config, s: State, b: nat, j: nat) {
    && Shape(c, s) && b < c.H() && j < c.N()
    && s.co.received <= j < SentCount(s)
    && forall h :: 0 <= h <= b ==> Dead(s.hops[h], c.job.firstId + j, h == b && b + 1 < c.H())
  }

  // --- Losing a chunk is permanent ---

  lemma DropNone(q: seq<Work>, k: nat, id: nat)
    requires k < |q| && NoneIn(q, id)
    ensures NoneIn(Drop(q, k), id)
  {
  }

  lemma DropNoSuccess(q: seq<Result>, k: nat, id: nat)
    requires k < |q| && NoSuccessIn(q, id)
    ensures NoSuccessIn(Drop(q, k), id)
  {
  }

  /** Moving frames inside one worker creates no copy. */
  lemma InsideStaysDead(c: Config, s: State, a: Action, id: nat, cut: bool)
    requires Shape(c, s) && EnabledHop(c, s, a)
    requires !a.SendForward? && !a.RelayRead? && !a.MismatchRelay? && !a.Evaluate?
    requires Dead(s.hops[HopOf(a)], id, cut)
    ensures Dead(ApplyHop(c, s, a).hops[HopOf(a)], id, cut)
  {
    hide CanEvaluate, RunLayers, RunChain, CachesAfter, Unlinked, Evaluated, RunSpan;
    if a.LoseDown? { DropNone(s.hops[a.h].down, a.k, id); }
    if a.LoseQueued? { DropNone(s.hops[a.h].queue, a.k, id); }
    if a.LoseUp? { DropNoSuccess(s.hops[a.h].up, a.k, id); }
  }

  lemma EvaluateStaysDead(c: Config, h: nat, me: Hop, id: nat, cut: bool)
    requires c.Valid() && h < c.H() && me.eval.Evaluating? && CanEvaluate(c, h, me.session, me.eval.job)
    requires Dead(me, id, cut)
    ensures Dead(Evaluated(c, h, me), id, cut)
  {
    hide CanEvaluate, RunLayers, RunChain, CachesAfter, LayersOf, RunSpan, BlankOf, TelemetryOf, NoneIn, NoSuccessIn;
  }

  /** Frames that cross between two workers were there before. */
  lemma CrossingStaysDead(c: Config, s: State, a: Action, id: nat, cut: bool)
    requires Shape(c, s) && EnabledHop(c, s, a)
    requires a.SendForward? || a.RelayRead? || a.MismatchRelay?
    requires Dead(s.hops[a.h], id, false) && Dead(s.hops[a.h + 1], id, cut)
    ensures Dead(ApplyHop(c, s, a).hops[a.h], id, false) && Dead(ApplyHop(c, s, a).hops[a.h + 1], id, cut)
  {
    hide CanEvaluate, RunLayers, RunChain, CachesAfter;
  }

  /** A stopped relay lets nothing through; what it forwarded may go further down. */
  lemma CutStaysDead(c: Config, s: State, a: Action, id: nat)
    requires Shape(c, s) && EnabledHop(c, s, a)
    requires a.SendForward? || a.RelayRead? || a.MismatchRelay?
    requires Dead(s.hops[a.h], id, true)
    ensures Dead(ApplyHop(c, s, a).hops[a.h], id, true)
  {
    hide CanEvaluate, RunLayers, RunChain, CachesAfter;
  }

  /** An action of worker `h` changes workers `h` and `h + 1` only. */
  lemma OthersUnchanged(c: Config, s: State, a: Action, g: nat)
    requires Shape(c, s) && EnabledHop(c, s, a) && g < c.H() && g != HopOf(a)
    requires g == HopOf(a) + 1 ==> !a.SendForward? && !a.RelayRead? && !a.MismatchRelay?
    ensures ApplyHop(c, s, a).hops[g] == s.hops[g]
    ensures ApplyHop(c, s, a).co == s.co
  {
    hide CanEvaluate, RunLayers, RunChain, CachesAfter, Unlinked, Evaluated, RelayStopped;
  }

  lemma OwnHopStaysDead(c: Config, s: State, a: Action, id: nat, cut: bool)
    requires Shape(c, s) && EnabledHop(c, s, a)
    requires !a.SendForward? && !a.RelayRead? && !a.MismatchRelay?
    requires Dead(s.hops[HopOf(a)], id, cut)
    ensures Dead(ApplyHop(c, s, a).hops[HopOf(a)], id, cut)
  {
    hide Dead, CanEvaluate, RunLayers, RunChain, CachesAfter, Unlinked, Evaluated, RelayStopped;
    if a.Evaluate? {
      EvaluateStaysDead(c, a.h, s.hops[a.h], id, cut);
    } else {
      InsideStaysDead(c, s, a, id, cut);
    }
  }

  lemma WorkerKeepsLost(c: Config, s: State, a: Action, b: nat, j: nat)
    requires Lost(c, s, b, j) && EnabledHop(c, s, a)
    ensures Lost(c, ApplyHop(c, s, a), b, j)
  {
    hide Dead, ApplyHop, EnabledHop;
    var t, id, h := ApplyHop(c, s, a), c.job.firstId + j, HopOf(a);
    var crossing := a.SendForward? || a.RelayRead? || a.MismatchRelay?;
    WorkerShape(c, s, a);
    forall g | 0 <= g <= b
      ensures Dead(t.hops[g], id, g == b && b + 1 < c.H())
    {
      if g == h && !crossing {
        OwnHopStaysDead(c, s, a, id, g == b && b + 1 < c.H());
      } else if g == h && h == b {
        CutStaysDead(c, s, a, id);
      } else if g == h {
        CrossingStaysDead(c, s, a, id, h + 1 == b && b + 1 < c.H());
      } else if g == h + 1 && crossing {
        CrossingStaysDead(c, s, a, id, g == b && b + 1 < c.H());
      } else {
        OthersUnchanged(c, s, a, g);
      }
    }
  }

  /** The coordinator only ever sends later chunks, and cannot accept the lost one. */
  lemma CoordinatorKeepsLost(c: Config, s: State, a: Action, b: nat, j: nat)
    requires Core(c, s) && Lost(c, s, b, j) && EnabledCo(c, s, a)
    ensures Lost(c, ApplyCo(c, s, a), b, j)
  {
    hide CachesAfter, RunChain, RunLayers, OutOf, BlankKv, IdealWork, RingIdeal, LocalIdeal, Bounded, Ring.Valid,
         WorkOfSlot, Dead;
    if a.SendSlot? {
      SentFrameIsIdeal(c, s);
      IdealIds(c, 0, SentCount(s));
      ArrivalStaysDead(s.hops[0], c.job.firstId + j, b == 0 && b + 1 < c.H(),
                       WorkOfSlot(c, s.co.ring.slots[s.co.ring.head]));
    } else if a.AcceptResult? {
      AcceptanceStaysDead(s.hops[0], c.job.firstId + j, b == 0 && b + 1 < c.H());
    }
  }

  lemma ArrivalStaysDead(me: Hop, id: nat, cut: bool, w: Work)
    requires Dead(me, id, cut) && w.id != id
    ensures Dead(me.(down := me.down + [w]), id, cut)
  {
  }

  lemma AcceptanceStaysDead(me: Hop, id: nat, cut: bool)
    requires Dead(me, id, cut) && me.up != []
    ensures me.up[0].ok ==> me.up[0].id != id
    ensures Dead(me.(up := me.up[1..]), id, cut)
  {
  }

  lemma LostStep(c: Config, s: State, a: Action, b: nat, j: nat)
    requires Core(c, s) && Lost(c, s, b, j) && Enabled(c, s, a)
    ensures Lost(c, Apply(c, s, a), b, j)
  {
    hide Lost, ApplyHop, ApplyCo, EnabledHop, Ring.Valid, RingIdeal, LocalIdeal;
    if EnabledCo(c, s, a) { CoordinatorKeepsLost(c, s, a, b, j); } else { WorkerKeepsLost(c, s, a, b, j); }
  }
}
