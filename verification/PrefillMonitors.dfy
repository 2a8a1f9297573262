/** The locked queues carry out the protocol: under the condition on which an action of the
    machine is enabled, the matching method neither waits nor refuses, and it turns the real
    queue into the queue of the machine's next state. */
module PrefillMonitors {
  import opened Inference
  import opened PrefillFrames
  import opened Monitors
  import opened PrefillMachine
  import opened PrefillCore

  // --- The coordinator's ring ---

  /** The ring object stands for the ring of state `s`. */
  ghost predicate IsRing(s: State, sender: PrefillSender)
    reads sender, sender.slots
  {
    sender.Abs() == s.co.ring && sender.stop == s.co.stop && sender.rc == s.co.senderRc
  }

  lemma RingOf(c: Config, s: State)
    requires Core(c, s)
    ensures c.Valid() && Shape(c, s) && s.co.ring.Valid() && |s.co.ring.slots| == c.slotCount
    ensures s.co.producer == Filling || s.co.producer == Publishing ==> s.co.ring.queued < c.slotCount
  {
    hide RingIdeal, LocalIdeal, Bounded, Config.Valid;
  }

  lemma AcquireEnabled(c: Config, s: State)
    requires Shape(c, s) && EnabledCo(c, s, AcquireSlot)
    ensures !s.co.stop && s.co.senderRc == 0 && s.co.ring.queued < c.slotCount
  {
    hide Config.Valid;
  }

  /** AcquireSlot: there is a slot, and it is none the sender may read. */
  method Acquire(c: Config, ghost s: State, sender: PrefillSender) returns (slot: nat)
    requires Core(c, s) && Shape(c, s) && EnabledCo(c, s, AcquireSlot) && IsRing(s, sender)
    ensures slot == sender.tail < sender.slots.Length
    ensures forall q :: 0 <= q < sender.queued ==> sender.Abs().At(q) != slot
  {
    hide Core, EnabledCo, Shape, Ring.At, Ring.Queue;
    RingOf(c, s);
    AcquireEnabled(c, s);
    var got := sender.AcquireSlot();
    slot := got.value;
  }

  lemma FillNext(c: Config, s: State)
    requires Shape(c, s) && EnabledCo(c, s, FillSlot)
    ensures s.co.producer == Filling && s.co.submitted < c.N()
    ensures var slot := FillCo(c, s.co).ring.slots[s.co.ring.tail];
            ApplyCo(c, s, FillSlot).co.ring == s.co.ring.Fill(slot)
  {
    hide RunLayers, CacheBefore;
  }

  /** FillSlot: the producer writes the acquired slot. */
  method Fill(c: Config, ghost s: State, sender: PrefillSender, slot: Slot)
    requires Core(c, s) && Shape(c, s) && EnabledCo(c, s, FillSlot) && IsRing(s, sender) && s.co.submitted < c.N()
    requires |FillCo(c, s.co).ring.slots| > s.co.ring.tail && slot == FillCo(c, s.co).ring.slots[s.co.ring.tail]
    modifies sender.slots
    ensures sender.Valid() && sender.Abs() == ApplyCo(c, s, FillSlot).co.ring
  {
    hide Core, EnabledCo, ApplyCo, FillCo, Shape, Ring.At, Ring.Queue;
    RingOf(c, s);
    FillNext(c, s);
    sender.FillSlot(sender.tail, slot);
  }

  lemma PublishNext(c: Config, s: State)
    requires Shape(c, s) && EnabledCo(c, s, PublishSlot)
    ensures s.co.producer == Publishing && !s.co.stop && s.co.senderRc == 0
    ensures |s.co.ring.slots| >= 1 && ApplyCo(c, s, PublishSlot).co.ring == s.co.ring.Publish()
  {
  }

  /** PublishSlot: the sender accepts the filled slot. */
  method Publish(c: Config, ghost s: State, sender: PrefillSender)
    requires Core(c, s) && Shape(c, s) && EnabledCo(c, s, PublishSlot) && IsRing(s, sender)
    modifies sender
    ensures sender.Valid() && sender.Abs() == ApplyCo(c, s, PublishSlot).co.ring
  {
    hide Core, EnabledCo, ApplyCo, Shape, Ring.At, Ring.Queue;
    RingOf(c, s);
    PublishNext(c, s);
    var ok := sender.EnqueueSlot();
  }

  lemma ReleaseNext(c: Config, s: State)
    requires Shape(c, s) && EnabledCo(c, s, ReleaseSlot)
    ensures s.co.ring.queued >= 1 && |s.co.ring.slots| >= 1
    ensures ApplyCo(c, s, ReleaseSlot).co.ring == s.co.ring.Release()
  {
  }

  /** ReleaseSlot: the sender gives the slot it has sent back to the producer. */
  method Release(c: Config, ghost s: State, sender: PrefillSender)
    requires Core(c, s) && Shape(c, s) && EnabledCo(c, s, ReleaseSlot) && IsRing(s, sender)
    modifies sender
    ensures sender.Valid() && sender.Abs() == ApplyCo(c, s, ReleaseSlot).co.ring
  {
    hide Core, EnabledCo, ApplyCo, Shape, Ring.At, Ring.Queue;
    RingOf(c, s);
    ReleaseNext(c, s);
    sender.ReleaseSlot();
  }

  // --- A worker's queues ---

  /** The queue objects stand for the queues of one worker. */
  ghost predicate IsQueue(c: Config, me: Hop, q: JobQueue)
    reads q, q.list, q.list.nodes
  {
    q.Valid() && !q.closed && !q.canceled && q.depth == c.depth && q.list.contents == me.queue
  }

  ghost predicate IsPending(c: Config, me: Hop, f: Forwarder)
    reads f, f.pending, f.pending.nodes
  {
    f.Valid() && f.closing == me.relay.Stopped? && f.depth == c.pendingDepth && f.pending.contents == me.pending
  }

  lemma EnqueueNext(c: Config, s: State, h: nat)
    requires Shape(c, s) && EnabledHop(c, s, EnqueueJob(h))
    ensures h < |s.hops| && s.hops[h].rx.Some? && |s.hops[h].queue| < c.depth
    ensures var t := ApplyHop(c, s, EnqueueJob(h));
            h < |t.hops| && t.hops[h].queue == s.hops[h].queue + [s.hops[h].rx.value]
  {
    hide CanEvaluate, Evaluated, Config.Valid;
  }

  /** EnqueueJob: the receive thread hands the frame it has read to the evaluator. */
  method Enqueue(c: Config, ghost s: State, h: nat, q: JobQueue, job: Work)
    requires Shape(c, s) && EnabledHop(c, s, EnqueueJob(h)) && h < |s.hops| && IsQueue(c, s.hops[h], q)
    requires s.hops[h].rx == Some(job) && h < |ApplyHop(c, s, EnqueueJob(h)).hops|
    modifies q.list, q.list.nodes
    ensures IsQueue(c, ApplyHop(c, s, EnqueueJob(h)).hops[h], q)
  {
    hide Shape, EnabledHop, ApplyHop;
    EnqueueNext(c, s, h);
    var ok := q.Enqueue(job);
  }

  lemma PopNext(c: Config, s: State, h: nat)
    requires Shape(c, s) && EnabledHop(c, s, PopJob(h))
    ensures h < |s.hops| && s.hops[h].queue != []
    ensures var t := ApplyHop(c, s, PopJob(h));
            h < |t.hops| && t.hops[h].queue == s.hops[h].queue[1..] && t.hops[h].eval == Evaluating(s.hops[h].queue[0])
  {
    hide CanEvaluate, Evaluated, Config.Valid;
  }

  /** PopJob: the evaluator gets the oldest job, the one the machine evaluates next. */
  method PopNextJob(c: Config, ghost s: State, h: nat, q: JobQueue) returns (job: Work)
    requires Shape(c, s) && EnabledHop(c, s, PopJob(h)) && h < |s.hops| && IsQueue(c, s.hops[h], q)
    requires h < |ApplyHop(c, s, PopJob(h)).hops|
    modifies q.list
    ensures IsQueue(c, ApplyHop(c, s, PopJob(h)).hops[h], q)
    ensures ApplyHop(c, s, PopJob(h)).hops[h].eval == Evaluating(job)
  {
    hide Shape, EnabledHop, ApplyHop;
    PopNext(c, s, h);
    var got := q.Pop();
    job := got.value;
  }

  lemma TrackNext(c: Config, s: State, h: nat)
    requires Shape(c, s) && EnabledHop(c, s, TrackForward(h))
    ensures h < |s.hops| && s.hops[h].eval.Forwarding? && !s.hops[h].relay.Stopped?
    ensures c.pendingDepth == 0 || |s.hops[h].pending| < c.pendingDepth
    ensures var me, t := s.hops[h], ApplyHop(c, s, TrackForward(h));
            && h < |t.hops| && t.hops[h].relay == me.relay
            && t.hops[h].pending == me.pending + [Pending(me.eval.next.id, me.eval.telemetry)]
  {
    hide CanEvaluate, Evaluated, Config.Valid;
  }

  /** TrackForward: the request enters the pending FIFO before it is sent. */
  method Track(c: Config, ghost s: State, h: nat, f: Forwarder, id: nat, telemetry: Telemetry)
    requires Shape(c, s) && EnabledHop(c, s, TrackForward(h)) && h < |s.hops| && IsPending(c, s.hops[h], f)
    requires s.hops[h].eval.Forwarding? && id == s.hops[h].eval.next.id && telemetry == s.hops[h].eval.telemetry
    requires h < |ApplyHop(c, s, TrackForward(h)).hops|
    modifies f.pending, f.pending.nodes
    ensures IsPending(c, ApplyHop(c, s, TrackForward(h)).hops[h], f)
  {
    hide Shape, EnabledHop, ApplyHop;
    TrackNext(c, s, h);
    var ok := f.EnqueueRequest(id, telemetry);
  }

  lemma RelayNext(c: Config, s: State, h: nat)
    requires Shape(c, s) && EnabledHop(c, s, RelayRead(h))
    ensures h + 1 < |s.hops| && s.hops[h + 1].up != [] && s.hops[h].pending != [] && !s.hops[h].relay.Stopped?
    ensures s.hops[h + 1].up[0].id == s.hops[h].pending[0].id
    ensures var t := ApplyHop(c, s, RelayRead(h));
            var r := s.hops[h + 1].up[0];
            && h < |t.hops| && t.hops[h].pending == s.hops[h].pending[1..]
            && t.hops[h].relay == Holding(r.(telemetry := r.telemetry + [s.hops[h].pending[0].telemetry]))
  {
    hide CanEvaluate, Evaluated, Config.Valid;
  }

  /** RelayRead: the popped request is the one the answer `r` is for, and appending its
      telemetry gives the answer to relay. */
  method Relay(c: Config, ghost s: State, h: nat, f: Forwarder, r: Result) returns (out: Result)
    requires Shape(c, s) && EnabledHop(c, s, RelayRead(h)) && h + 1 < |s.hops| && IsPending(c, s.hops[h], f)
    requires s.hops[h + 1].up != [] && r == s.hops[h + 1].up[0] && h < |ApplyHop(c, s, RelayRead(h)).hops|
    modifies f.pending
    ensures IsPending(c, ApplyHop(c, s, RelayRead(h)).hops[h], f)
    ensures ApplyHop(c, s, RelayRead(h)).hops[h].relay == Holding(out)
  {
    hide Shape, EnabledHop, ApplyHop;
    RelayNext(c, s, h);
    var expected := f.PopRequest();
    assert expected.value.id == r.id;
    out := r.(telemetry := r.telemetry + [expected.value.telemetry]);
  }

  lemma FailNext(c: Config, s: State, h: nat)
    requires Shape(c, s) && EnabledHop(c, s, FailForward(h))
    ensures h < |s.hops| && s.hops[h].eval.Tracked?
    ensures var me, t := s.hops[h], ApplyHop(c, s, FailForward(h));
            h < |t.hops| && t.hops[h].relay == me.relay && t.hops[h].pending == Unlinked(me.pending, me.eval.next.id)
  {
    hide CanEvaluate, Evaluated, Config.Valid, Unlinked;
  }

  /** FailForward: a request that could not be sent is taken out of the FIFO again. */
  method Untrack(c: Config, ghost s: State, h: nat, f: Forwarder, id: nat)
    requires Shape(c, s) && EnabledHop(c, s, FailForward(h)) && h < |s.hops| && IsPending(c, s.hops[h], f)
    requires s.hops[h].eval.Tracked? && id == s.hops[h].eval.next.id && h < |ApplyHop(c, s, FailForward(h)).hops|
    modifies f.pending, f.pending.nodes
    ensures IsPending(c, ApplyHop(c, s, FailForward(h)).hops[h], f)
  {
    hide Shape, EnabledHop, ApplyHop, Unlinked;
    FailNext(c, s, h);
    var found := f.RemoveRequest(id);
  }
  lemma StopNext(c: Config, s: State, h: nat)
    requires Shape(c, s) && EnabledHop(c, s, StopRelay(h))
    ensures h < |s.hops| && !s.hops[h].relay.Stopped?
    ensures var me, t := s.hops[h], ApplyHop(c, s, StopRelay(h));
            h < |t.hops| && t.hops[h] == RelayStopped(me)
  {
    hide CanEvaluate, Evaluated, Config.Valid, RelayStopped;
  }

  /** StopRelay: the relay thread gives up on the oldest request, which `answer` names for
      the error reply, and closes the FIFO. */
  method StopListening(c: Config, ghost s: State, h: nat, f: Forwarder) returns (answer: Option<nat>)
    requires Shape(c, s) && EnabledHop(c, s, StopRelay(h)) && h < |s.hops| && IsPending(c, s.hops[h], f)
    requires h < |ApplyHop(c, s, StopRelay(h)).hops|
    modifies f, f.pending
    ensures IsPending(c, ApplyHop(c, s, StopRelay(h)).hops[h], f)
    ensures ApplyHop(c, s, StopRelay(h)).hops[h].up
            == s.hops[h].up + if answer.Some? then [ErrorReply(answer.value)] else []
  {
    hide Shape, EnabledHop, ApplyHop;
    StopNext(c, s, h);
    var oldest := f.PopRequest();
    answer := if oldest.Some? then Some(oldest.value.id) else None;
    f.CloseQueue();
  }

  lemma RefuseNext(c: Config, s: State, h: nat)
    requires Shape(c, s) && EnabledHop(c, s, FailTrack(h))
    ensures h < |s.hops| && s.hops[h].eval.Forwarding?
    ensures var me, t := s.hops[h], ApplyHop(c, s, FailTrack(h));
            h < |t.hops| && t.hops[h].relay == me.relay && t.hops[h].pending == me.pending
  {
    hide CanEvaluate, Evaluated, Config.Valid;
  }

  /** FailTrack behind a stopped relay: the closed FIFO refuses the request. */
  method Refuse(c: Config, ghost s: State, h: nat, f: Forwarder, id: nat, telemetry: Telemetry) returns (ok: bool)
    requires Shape(c, s) && EnabledHop(c, s, FailTrack(h)) && h < |s.hops| && IsPending(c, s.hops[h], f)
    requires s.hops[h].relay.Stopped? && h < |ApplyHop(c, s, FailTrack(h)).hops|
    modifies f.pending, f.pending.nodes
    ensures !ok && IsPending(c, ApplyHop(c, s, FailTrack(h)).hops[h], f)
  {
    hide Shape, EnabledHop, ApplyHop;
    RefuseNext(c, s, h);
    ok := f.EnqueueRequest(id, telemetry);
  }
}
