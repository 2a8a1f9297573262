/** What every step of the pipelined prefill keeps, failures included: ring and window
    safety, and the coordinator's own half of the computation. */
module PrefillCore {
  import Bits
  import opened Inference
  import opened WorkerSession
  import opened PrefillFrames
  import opened Monitors
  import opened PrefillMachine

  function IdealSlots(c: Config, a: nat, b: nat): seq<Slot>
    requires c.Valid() && a <= b <= c.N()
  {
    seq(b - a, k requires 0 <= k < b - a => IdealSlot(c, a + k))
  }

  /** Counters and program positions. */
  ghost predicate Control(c: Config, s: State) {
    && Shape(c, s)
    && var co := s.co;
    && co.ring.Valid()
    && co.ring.queued <= co.submitted <= c.N()
    && co.completed <= co.received <= co.completed + 1 && co.received <= c.N()
    && (co.sender == Taken || co.sender == Sent ==> co.ring.queued >= 1)
    && (co.producer == Filling || co.producer == Publishing ==> co.ring.queued < c.slotCount)
    && (co.producer == AwaitSlot || co.producer == Filling || co.producer == Publishing
        ==> co.submitted < c.N() && co.submitted < co.completed + c.window)
    && co.submitted <= co.completed + c.window
    && (co.producer == Finished ==> co.submitted == c.N())
    && (co.producerDone <==> co.producer == Finished || co.producer == Aborted)
    && (co.stop ==> co.producer == Aborted || co.senderRc != 0)
    && (co.sender == Exited && co.senderRc == 0 ==> co.stop || (co.ring.queued == 0 && co.producerDone))
    && (co.readerDone && co.readerRc == 0 ==> co.completed == c.N())
    && (co.completed == c.N() ==> co.readerDone)
    && (co.readerRc != 0 ==> co.readerDone)
  }

  /** Slots on their way to the sender carry the plain loop's chunks, in order. */
  ghost predicate RingIdeal(c: Config, s: State)
    requires Control(c, s)
  {
    && s.co.ring.Queue() == IdealSlots(c, s.co.submitted - s.co.ring.queued, s.co.submitted)
    && (s.co.producer == Publishing ==> s.co.ring.slots[s.co.ring.tail] == IdealSlot(c, s.co.submitted))
  }

  /** The coordinator's caches and running hash follow the plain loop. */
  ghost predicate LocalIdeal(c: Config, s: State)
    requires Control(c, s)
  {
    && (s.co.submitted < c.N() ==> c.job.Pos(s.co.submitted) <= |c.job.prompt|
                                   && s.co.nextPrefix == PrefixHashOf(c, s.co.submitted))
    && (s.co.producer != Aborted ==>
          s.co.local == CachesAfter(c.job, c.Init(),
                                    s.co.submitted + if s.co.producer == Publishing then 1 else 0)[0])
  }

  ghost predicate HopBounded(c: Config, me: Hop) {
    && |me.down| <= c.wireCap && |me.queue| <= c.depth
    && (c.pendingDepth != 0 ==> |me.pending| <= c.pendingDepth)
  }

  /** Every bounded queue keeps its bound. */
  ghost predicate Bounded(c: Config, s: State) {
    forall h :: 0 <= h < |s.hops| ==> HopBounded(c, s.hops[h])
  }

  ghost predicate Core(c: Config, s: State) {
    Control(c, s) && RingIdeal(c, s) && LocalIdeal(c, s) && Bounded(c, s)
  }

  lemma InitialCore(c: Config, s: State)
    requires Initial(c, s)
    ensures Core(c, s)
  {
    CountBounds(c.job, 0);
    ChunkShape(c.job, 0);
    assert c.Init()[0] == c.localKv;
  }

  /** Actions of a worker leave the coordinator alone. */
  lemma HopKeepsCoordinator(c: Config, s: State, a: Action)
    requires Shape(c, s) && Enabled(c, s, a) && !EnabledCo(c, s, a)
    ensures Apply(c, s, a).co == s.co && Shape(c, Apply(c, s, a))
  {
    hide CanEvaluate, Evaluated, RelayStopped, Unlinked, CachesAfter, RunLayers, RunChain;
  }

  predicate OfProducer(a: Action) {
    a.PassWindow? || a.AcquireSlot? || a.FillSlot? || a.PublishSlot? || a.FinishProducer? || a.AbortProducer?
  }

  predicate OfSender(a: Action) {
    a.TakeSlot? || a.SendSlot? || a.ReleaseSlot? || a.ExitSender? || a.FailSender?
  }

  predicate OfReader(a: Action) {
    a.AcceptResult? || a.SignalProgress? || a.RejectResult? || a.BreakReader?
  }

  lemma ProducerKeepsControl(c: Config, s: State, a: Action)
    requires Control(c, s) && OfProducer(a) && EnabledCo(c, s, a)
    ensures Control(c, ApplyCo(c, s, a))
  {
    hide CachesAfter, RunChain, RunLayers, BlankKv, Ring.Queue, CacheBefore;
    if a.PublishSlot? { PublishAppends(s.co.ring); }
  }

  lemma SenderKeepsControl(c: Config, s: State, a: Action)
    requires Control(c, s) && OfSender(a) && EnabledCo(c, s, a)
    ensures Control(c, ApplyCo(c, s, a))
  {
    hide CachesAfter, RunChain, RunLayers, WorkOfSlot;
    if a.ReleaseSlot? { ReleaseDropsOldest(s.co.ring); }
  }

  lemma ReaderKeepsControl(c: Config, s: State, a: Action)
    requires Control(c, s) && OfReader(a) && EnabledCo(c, s, a)
    ensures Control(c, ApplyCo(c, s, a))
  {
    hide CachesAfter, RunChain, RunLayers, Acceptable;
  }

  lemma ControlStep(c: Config, s: State, a: Action)
    requires Control(c, s) && Enabled(c, s, a)
    ensures Control(c, Apply(c, s, a))
  {
    hide ApplyCo, ApplyHop, EnabledHop, Ring.Valid;
    if !EnabledCo(c, s, a) {
      HopKeepsCoordinator(c, s, a);
    } else if OfProducer(a) {
      ProducerKeepsControl(c, s, a);
    } else if OfSender(a) {
      SenderKeepsControl(c, s, a);
    } else {
      ReaderKeepsControl(c, s, a);
    }
  }

  lemma FirstChunkStarts(job: Job, i: nat)
    requires job.Valid()
    ensures job.Pos(i) == job.start <==> i == 0
  {
    if i > 0 { Bits.ScaleMonotone(1, i, job.cap); }
  }

  /** The producer's own layer run is the plain loop's step for machine 0. */
  lemma LocalRunIsIdeal(c: Config, i: nat, kv: seq<Kv>)
    requires c.Valid() && i < c.N()
    requires kv == CachesAfter(c.job, c.Init(), i)[0]
    ensures c.job.start <= c.job.Pos(i) < c.job.End(i) <= c.job.end
    ensures RunLayers(c.job.engine, c.job.nodes[0].first, CacheBefore(c.job, 0, i, kv),
                      c.job.Chunk(i), c.job.Pos(i), c.job.engine.embed(c.job.Chunk(i), c.job.Pos(i)))
         == (CachesAfter(c.job, c.Init(), i + 1)[0], OutOf(c.job, c.Init(), 0, i))
  {
    LocalStep(c.job, c.Init(), 0, i);
  }

  lemma FilledSlotIsIdeal(c: Config, co: Coordinator)
    requires c.Valid() && co.submitted < c.N() && co.ring.tail < |co.ring.slots|
    requires c.job.Pos(co.submitted) <= |c.job.prompt| && co.nextPrefix == PrefixHashOf(c, co.submitted)
    requires co.local == CachesAfter(c.job, c.Init(), co.submitted)[0]
    ensures FillCo(c, co) == co.(local := CachesAfter(c.job, c.Init(), co.submitted + 1)[0],
                                 ring := co.ring.Fill(IdealSlot(c, co.submitted)), producer := Publishing)
  {
    hide CachesAfter, RunChain, RunLayers, OutOf;
    var i := co.submitted;
    ChunkShape(c.job, i);
    CountBounds(c.job, i);
    FirstChunkStarts(c.job, i);
    LocalRunIsIdeal(c, i, co.local);
    assert c.job.Pos(i) + (c.job.End(i) - c.job.Pos(i)) < c.job.end <==> c.job.Pos(i) + c.job.cap < c.job.end;
  }

  lemma RingFill(c: Config, s: State)
    requires Control(c, s) && RingIdeal(c, s) && LocalIdeal(c, s) && EnabledCo(c, s, FillSlot)
    requires Control(c, ApplyCo(c, s, FillSlot))
    ensures RingIdeal(c, ApplyCo(c, s, FillSlot)) && LocalIdeal(c, ApplyCo(c, s, FillSlot))
  {
    hide CachesAfter, RunChain, RunLayers, OutOf;
    FilledSlotIsIdeal(c, s.co);
    FillTouchesNoQueuedSlot(s.co.ring, IdealSlot(c, s.co.submitted));
  }

  lemma RingPublish(c: Config, s: State)
    requires Control(c, s) && RingIdeal(c, s) && LocalIdeal(c, s) && EnabledCo(c, s, PublishSlot)
    requires Control(c, ApplyCo(c, s, PublishSlot))
    ensures RingIdeal(c, ApplyCo(c, s, PublishSlot)) && LocalIdeal(c, ApplyCo(c, s, PublishSlot))
  {
    hide CachesAfter, RunChain, RunLayers, OutOf;
    PublishAppends(s.co.ring);
    HashChain(c, s.co.submitted);
    var b := s.co.submitted;
    var a := b - s.co.ring.queued;
    assert IdealSlots(c, a, b + 1) == IdealSlots(c, a, b) + [IdealSlot(c, b)];
  }

  lemma RingRelease(c: Config, s: State)
    requires Control(c, s) && RingIdeal(c, s) && LocalIdeal(c, s) && EnabledCo(c, s, ReleaseSlot)
    requires Control(c, ApplyCo(c, s, ReleaseSlot))
    ensures RingIdeal(c, ApplyCo(c, s, ReleaseSlot)) && LocalIdeal(c, ApplyCo(c, s, ReleaseSlot))
  {
    hide CachesAfter, RunChain, RunLayers, OutOf;
    ReleaseDropsOldest(s.co.ring);
    var b := s.co.submitted;
    var a := b - s.co.ring.queued;
    assert IdealSlots(c, a + 1, b) == IdealSlots(c, a, b)[1..];
  }

  /** What a step that neither fills, publishes nor releases a slot leaves alone. */
  ghost predicate SlotsUntouched(s: State, t: State) {
    && t.co.ring == s.co.ring && t.co.submitted == s.co.submitted && t.co.nextPrefix == s.co.nextPrefix
    && (t.co.producer == Publishing ==> s.co.producer == Publishing)
    && (s.co.producer == Publishing ==> t.co.producer == Publishing || t.co.producer == Aborted)
    && (t.co.producer != Aborted ==> t.co.local == s.co.local && s.co.producer != Aborted)
  }

  lemma OthersLeaveSlots(c: Config, s: State, a: Action)
    requires Control(c, s) && EnabledCo(c, s, a)
    requires !a.FillSlot? && !a.PublishSlot? && !a.ReleaseSlot?
    ensures SlotsUntouched(s, ApplyCo(c, s, a))
  {
    hide CachesAfter, RunChain, RunLayers, Acceptable, WorkOfSlot, Ring.Valid;
  }

  lemma UntouchedKeepsData(c: Config, s: State, t: State)
    requires Control(c, s) && RingIdeal(c, s) && LocalIdeal(c, s) && Control(c, t)
    requires SlotsUntouched(s, t)
    ensures RingIdeal(c, t) && LocalIdeal(c, t)
  {
    hide CachesAfter, RunChain, RunLayers, OutOf, IdealSlot;
  }

  lemma DataStep(c: Config, s: State, a: Action)
    requires Control(c, s) && RingIdeal(c, s) && LocalIdeal(c, s) && Enabled(c, s, a)
    requires Control(c, Apply(c, s, a))
    ensures RingIdeal(c, Apply(c, s, a)) && LocalIdeal(c, Apply(c, s, a))
  {
    hide ApplyCo, ApplyHop, EnabledHop, RingIdeal, LocalIdeal, Ring.Valid;
    if !EnabledCo(c, s, a) {
      HopKeepsCoordinator(c, s, a);
      UntouchedKeepsData(c, s, Apply(c, s, a));
    } else if a.FillSlot? {
      RingFill(c, s);
    } else if a.PublishSlot? {
      RingPublish(c, s);
    } else if a.ReleaseSlot? {
      RingRelease(c, s);
    } else {
      OthersLeaveSlots(c, s, a);
      UntouchedKeepsData(c, s, Apply(c, s, a));
    }
  }

  lemma HopBoundedStep(c: Config, s: State, a: Action)
    requires Shape(c, s) && Bounded(c, s) && EnabledHop(c, s, a)
    ensures Bounded(c, ApplyHop(c, s, a))
  {
    hide CanEvaluate, CachesAfter, RunLayers, RunChain, Unlinked, ForwardOf, ReplyOf, RunSpan, LayersOf;
    if a.FailForward? {
      UnlinkedShrinks(s.hops[a.h].pending, s.hops[a.h].eval.next.id);
    }
  }

  lemma BoundedStep(c: Config, s: State, a: Action)
    requires Shape(c, s) && Bounded(c, s) && Enabled(c, s, a)
    ensures Bounded(c, Apply(c, s, a))
  {
    hide ApplyHop, EnabledHop, CachesAfter, RunLayers, RunChain, Acceptable, WorkOfSlot, FillCo;
    if !EnabledCo(c, s, a) {
      HopBoundedStep(c, s, a);
    }
  }

  lemma {:induction false} UnlinkedShrinks(p: seq<Pending>, id: nat)
    ensures |Unlinked(p, id)| <= |p|
    ensures forall x :: x in Unlinked(p, id) ==> x in p
  {
    if p != [] { UnlinkedShrinks(p[1..], id); }
  }

  lemma CoreStep(c: Config, s: State, a: Action)
    requires Core(c, s) && Enabled(c, s, a)
    ensures Core(c, Apply(c, s, a))
  {
    hide Apply, Enabled, RingIdeal, LocalIdeal, Bounded, Ring.Valid;
    ControlStep(c, s, a);
    DataStep(c, s, a);
    BoundedStep(c, s, a);
  }

  /** How many WORK frames the coordinator has put on the wire. */
  function SentCount(s: State): int {
    s.co.submitted - s.co.ring.queued + if s.co.sender == Sent then 1 else 0
  }

  lemma HeadSlotIsIdeal(c: Config, s: State)
    requires Core(c, s) && s.co.ring.queued >= 1
    ensures s.co.ring.slots[s.co.ring.head] == IdealSlot(c, s.co.submitted - s.co.ring.queued)
  {
    ReleaseDropsOldest(s.co.ring);
    assert s.co.ring.Queue()[0] == IdealSlots(c, s.co.submitted - s.co.ring.queued, s.co.submitted)[0];
  }

  /** The frame built from the oldest slot is the plain loop's frame for that chunk. */
  lemma SentFrameIsIdeal(c: Config, s: State)
    requires Core(c, s) && s.co.sender == Taken
    ensures var i := s.co.submitted - s.co.ring.queued;
            var slot := s.co.ring.slots[s.co.ring.head];
            && i == SentCount(s) && i < c.N()
            && slot.pos + slot.n <= |c.job.prompt|
            && WorkOfSlot(c, slot) == IdealWork(c, 0, i)
  {
    HeadSlotIsIdeal(c, s);
    ChunkShape(c.job, s.co.submitted - s.co.ring.queued);
  }
}
