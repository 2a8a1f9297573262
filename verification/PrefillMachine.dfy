/** The pipelined prefill as a state machine: producer, sender thread, one receive
    thread, evaluator and relay per worker, and the result reader. Every lock-held
    block, socket read or socket write is one action; threads interleave freely. */
module PrefillMachine {
  import opened TokenHash
  import opened Inference
  import opened WorkerSession
  import opened PrefillFrames
  import opened Monitors

  /** Where the producing thread is in its loop. */
  datatype Producer = AwaitWindow | AwaitSlot | Filling | Publishing | Finished | Aborted

  /** Where the sender thread is: `Taken` holds the oldest slot, `Sent` has written it
      to the socket but not yet released it. */
  datatype Sender = Ready | Taken | Sent | Exited

  datatype Coordinator = Coordinator(
    local: seq<Kv>, producer: Producer, submitted: nat, nextPrefix: Hash,
    ring: Ring, producerDone: bool, stop: bool, senderRc: nat, sender: Sender,
    received: nat, completed: nat, readerDone: bool, readerRc: nat, final: Option<Payload>)

  /** A worker's evaluator between two jobs, holding a job, holding the frame to forward
      before and after it entered the pending FIFO, or holding its own answer. */
  datatype Evaluator = Idle | Evaluating(job: Work) | Forwarding(next: Work, telemetry: Telemetry)
                     | Tracked(next: Work) | Replying(result: Result)

  datatype Relay = Listening | Holding(result: Result) | Stopped

  /** `down` is the socket into this worker, `up` the socket out of it. */
  datatype Hop = Hop(session: Session, down: seq<Work>, rx: Option<Work>, queue: seq<Work>,
                     eval: Evaluator, pending: seq<Pending>, relay: Relay, up: seq<Result>)

  datatype State = State(co: Coordinator, hops: seq<Hop>)

  datatype Action =
    // producer
    | PassWindow | AcquireSlot | FillSlot | PublishSlot | FinishProducer
    // sender thread
    | TakeSlot | SendSlot | ReleaseSlot | ExitSender
    // worker h
    | Receive(h: nat) | EnqueueJob(h: nat) | PopJob(h: nat) | Evaluate(h: nat)
    | TrackForward(h: nat) | SendForward(h: nat) | SendReply(h: nat)
    | RelayRead(h: nat) | RelayWrite(h: nat)
    // result reader
    | AcceptResult | SignalProgress
    // failures
    | AbortProducer(wreck: seq<Kv>) | FailSender
    | FailEvaluation(h: nat, after: Session) | FailTrack(h: nat) | FailForward(h: nat)
    | LoseDown(h: nat, k: nat) | LoseRx(h: nat) | LoseQueued(h: nat, k: nat) | LoseUp(h: nat, k: nat)
    | StopRelay(h: nat) | MismatchRelay(h: nat)
    | RejectResult | BreakReader

  predicate IsFailure(a: Action) {
    a.AbortProducer? || a.FailSender? || a.FailEvaluation? || a.FailTrack? || a.FailForward?
    || a.LoseDown? || a.LoseRx? || a.LoseQueued? || a.LoseUp? || a.StopRelay? || a.MismatchRelay?
    || a.RejectResult? || a.BreakReader?
  }

  function HopOf(a: Action): nat {
    match a
    case Receive(h) => h
    case EnqueueJob(h) => h
    case PopJob(h) => h
    case Evaluate(h) => h
    case TrackForward(h) => h
    case SendForward(h) => h
    case SendReply(h) => h
    case RelayRead(h) => h
    case RelayWrite(h) => h
    case FailEvaluation(h, _) => h
    case FailTrack(h) => h
    case FailForward(h) => h
    case LoseDown(h, _) => h
    case LoseRx(h) => h
    case LoseQueued(h, _) => h
    case LoseUp(h, _) => h
    case StopRelay(h) => h
    case MismatchRelay(h) => h
    case _ => 0
  }

  // --- Building frames, field by field as the source does ---

  /** dist_coordinator_send_remote_work_on_fd: the WORK frame for a slot. */
  function WorkOfSlot(c: Config, s: Slot): Work
    requires c.Valid() && s.pos + s.n <= |c.job.prompt|
  {
    var first := c.job.nodes[1];
    Work(s.id, s.prefixHash, s.resultHash, s.pos, c.job.prompt[s.pos..s.pos + s.n],
         first.first, first.last, first.outputLogits, s.reset, s.ackOnly, 0,
         c.job.engine.wire(s.hidden))
  }

  /** dist_forward_work_to_next: the same request, retargeted at the next hop. */
  function ForwardOf(c: Config, h: nat, w: Work, out: Hidden): Work
    requires c.Valid() && h + 1 < c.H()
  {
    var next := c.job.nodes[h + 2];
    w.(first := next.first, last := next.last, outputLogits := next.outputLogits,
       routeIndex := w.routeIndex + 1, hidden := c.job.engine.wire(out))
  }

  /** What the last worker answers: nothing for ACK_ONLY, otherwise logits or hidden. */
  function ReplyOf(c: Config, w: Work, out: Hidden): Result
    requires c.Valid()
  {
    var payload := if w.ackOnly then Ack
                   else if w.outputLogits then Final(c.job.engine.head(out, |w.tokens|))
                   else HiddenState(c.job.engine.wire(out), |w.tokens|);
    Result(w.id, w.resultHash, true, payload, [TelemetryOf(w)])
  }

  /** The checks a worker makes on a WORK frame before it touches its session. */
  predicate WellFormedWork(c: Config, h: nat, w: Work)
    requires c.Valid() && h < c.H()
  {
    var node := c.job.nodes[h + 1];
    && w.routeIndex == h
    && w.first == node.first && w.last == node.last && w.outputLogits == node.outputLogits
    && w.tokens != []
    && w.pos + |w.tokens| <= c.ctx
    && !(h + 1 < c.H() && w.outputLogits)
    && Continue(w.prefixHash, w.tokens) == w.resultHash
  }

  function BlankOf(c: Config, h: nat): seq<Kv>
    requires c.Valid() && h < c.H()
  {
    BlankKv(c.job.engine, c.job.nodes[h + 1])
  }

  /** The layers run on the cache left by RESET or by the previous span. */
  function LayersOf(c: Config, h: nat, s: Session, w: Work): (seq<Kv>, Hidden)
    requires c.Valid() && h < c.H()
  {
    RunLayers(c.job.engine, c.job.nodes[h + 1].first, Prepared(s, w.reset, BlankOf(c, h)).kv,
              w.tokens, w.pos, w.hidden)
  }

  predicate CanEvaluate(c: Config, h: nat, s: Session, w: Work)
    requires c.Valid() && h < c.H()
  {
    && WellFormedWork(c, h, w)
    && Accepts(s, SpanOf(w), BlankOf(c, h))
    && CanExtend(s, SpanOf(w), BlankOf(c, h))
  }

  /** The coordinator's checks on a RESULT for chunk `i`. */
  predicate Acceptable(c: Config, i: nat, r: Result)
    requires c.Valid() && i < c.N()
  {
    ChunkShape(c.job, i);
    && r.ok && r.id == c.job.firstId + i && r.hash == ResultHashOf(c, i)
    && match r.payload
       case Ack => i + 1 < c.N()
       case Final(_) => true
       case HiddenState(_, n) => !c.job.LogitsAtLast() && n == c.job.End(i) - c.job.Pos(i)
  }

  // --- Transitions ---

  ghost predicate Shape(c: Config, s: State) {
    && c.Valid()
    && |s.hops| == c.H()
    && |s.co.ring.slots| == c.slotCount
    && s.co.ring.head < c.slotCount && s.co.ring.tail < c.slotCount
  }

  ghost predicate EnabledCo(c: Config, s: State, a: Action)
    requires Shape(c, s)
  {
    var co := s.co;
    match a
    case PassWindow =>
      co.producer == AwaitWindow && co.submitted < c.N() && !co.readerDone && co.submitted < co.completed + c.window
    case AcquireSlot => co.producer == AwaitSlot && !co.stop && co.senderRc == 0 && co.ring.queued < c.slotCount
    case FillSlot => co.producer == Filling && co.submitted < c.N()
    case PublishSlot => co.producer == Publishing && !co.stop && co.senderRc == 0
    case FinishProducer => co.producer == AwaitWindow && co.submitted == c.N()
    case TakeSlot => co.sender == Ready && !co.stop && co.ring.queued > 0
    case SendSlot =>
      var slot := co.ring.slots[co.ring.head];
      co.sender == Taken && slot.pos + slot.n <= |c.job.prompt| && |s.hops[0].down| < c.wireCap
    case ReleaseSlot => co.sender == Sent && co.ring.queued > 0
    case ExitSender => co.sender == Ready && (co.stop || (co.ring.queued == 0 && co.producerDone))
    case AcceptResult =>
      !co.readerDone && co.received == co.completed && co.received < c.N()
      && s.hops[0].up != [] && Acceptable(c, co.received, s.hops[0].up[0])
    case SignalProgress => co.completed < co.received
    case AbortProducer(_) => co.producer != Finished && co.producer != Aborted
    case FailSender => co.sender == Taken
    case RejectResult =>
      !co.readerDone && co.received == co.completed && co.received < c.N()
      && s.hops[0].up != [] && !Acceptable(c, co.received, s.hops[0].up[0])
    case BreakReader => !co.readerDone && co.received == co.completed && co.received < c.N()
    case _ => false
  }

  ghost predicate EnabledHop(c: Config, s: State, a: Action)
    requires Shape(c, s)
  {
    var h := HopOf(a);
    && h < c.H()
    && var me := s.hops[h];
       match a
       case Receive(_) => me.down != [] && me.rx.None?
       case EnqueueJob(_) => me.rx.Some? && |me.queue| < c.depth
       case PopJob(_) => me.eval.Idle? && me.queue != []
       case Evaluate(_) => me.eval.Evaluating? && CanEvaluate(c, h, me.session, me.eval.job)
       case TrackForward(_) =>
         me.eval.Forwarding? && h + 1 < c.H() && !me.relay.Stopped?
         && (c.pendingDepth == 0 || |me.pending| < c.pendingDepth)
       case SendForward(_) => me.eval.Tracked? && h + 1 < c.H() && |s.hops[h + 1].down| < c.wireCap
       case SendReply(_) => me.eval.Replying? && |me.up| < c.wireCap
       case RelayRead(_) =>
         h + 1 < c.H() && me.relay.Listening? && s.hops[h + 1].up != [] && me.pending != []
         && s.hops[h + 1].up[0].id == me.pending[0].id
       case RelayWrite(_) => me.relay.Holding? && |me.up| < c.wireCap
       case FailEvaluation(_, _) => me.eval.Evaluating?
       case FailTrack(_) => me.eval.Forwarding?
       case FailForward(_) => me.eval.Tracked?
       case LoseDown(_, k) => k < |me.down|
       case LoseRx(_) => me.rx.Some?
       case LoseQueued(_, k) => k < |me.queue|
       case LoseUp(_, k) => k < |me.up|
       case StopRelay(_) => me.relay.Listening?
       case MismatchRelay(_) =>
         h + 1 < c.H() && me.relay.Listening? && s.hops[h + 1].up != []
         && (me.pending == [] || s.hops[h + 1].up[0].id != me.pending[0].id)
       case _ => false
  }

  ghost predicate Enabled(c: Config, s: State, a: Action)
    requires Shape(c, s)
  {
    EnabledCo(c, s, a) || EnabledHop(c, s, a)
  }

  function Drop<T>(q: seq<T>, k: nat): seq<T>
    requires k < |q|
  {
    q[..k] + q[k + 1..]
  }

  /** The producer runs its own layers on the next chunk and writes the slot. */
  function FillCo(c: Config, co: Coordinator): Coordinator
    requires c.Valid() && co.submitted < c.N() && co.ring.tail < |co.ring.slots|
  {
    var i := co.submitted;
    ChunkShape(c.job, i);
    var pos := c.job.Pos(i);
    var n := c.job.End(i) - pos;
    var tokens := c.job.Chunk(i);
    var run := RunLayers(c.job.engine, c.job.nodes[0].first, CacheBefore(c.job, 0, i, co.local),
                         tokens, pos, c.job.engine.embed(tokens, pos));
    var slot := Slot(pos, n, c.job.firstId + i, co.nextPrefix, ResultHashOf(c, i),
                     c.job.reset && pos == c.job.start, c.job.ackOnly && pos + n < c.job.end, run.1);
    co.(local := run.0, ring := co.ring.Fill(slot), producer := Publishing)
  }

  ghost function ApplyCo(c: Config, s: State, a: Action): State
    requires Shape(c, s) && EnabledCo(c, s, a)
  {
    var co := s.co;
    match a
    case PassWindow => s.(co := co.(producer := AwaitSlot))
    case AcquireSlot => s.(co := co.(producer := Filling))
    case FillSlot => s.(co := FillCo(c, co))
    case PublishSlot =>
      s.(co := co.(producer := AwaitWindow, ring := co.ring.Publish(), submitted := co.submitted + 1,
                   nextPrefix := co.ring.slots[co.ring.tail].resultHash))
    case FinishProducer => s.(co := co.(producer := Finished, producerDone := true))
    case TakeSlot => s.(co := co.(sender := Taken))
    case SendSlot =>
      var h0 := s.hops[0];
      s.(co := co.(sender := Sent),
         hops := s.hops[0 := h0.(down := h0.down + [WorkOfSlot(c, co.ring.slots[co.ring.head])])])
    case ReleaseSlot => s.(co := co.(sender := Ready, ring := co.ring.Release()))
    case ExitSender => s.(co := co.(sender := Exited))
    case AcceptResult =>
      var h0 := s.hops[0];
      s.(co := co.(received := co.received + 1,
                   final := if co.received + 1 == c.N() then Some(h0.up[0].payload) else co.final),
         hops := s.hops[0 := h0.(up := h0.up[1..])])
    case SignalProgress =>
      s.(co := co.(completed := co.received, readerDone := co.readerDone || co.received == c.N()))
    case AbortProducer(wreck) => s.(co := co.(local := wreck, producer := Aborted, producerDone := true, stop := true))
    case FailSender => s.(co := co.(sender := Exited, senderRc := 1, stop := true))
    case RejectResult =>
      var r := s.hops[0].up[0];
      s.(co := co.(readerDone := true, readerRc := if r.id == c.job.firstId + co.received && !r.ok then 2 else 1))
    case BreakReader => s.(co := co.(readerDone := true, readerRc := 1))
  }

  /** Worker `me` after evaluating its job: forward it, or answer it on the last hop. */
  function Evaluated(c: Config, h: nat, me: Hop): Hop
    requires c.Valid() && h < c.H() && me.eval.Evaluating?
    requires CanEvaluate(c, h, me.session, me.eval.job)
  {
    var w := me.eval.job;
    var run := LayersOf(c, h, me.session, w);
    var after := RunSpan(me.session, SpanOf(w), BlankOf(c, h), Cleared, Extended(run.0)).0;
    me.(session := after,
        eval := if h + 1 < c.H() then Forwarding(ForwardOf(c, h, w, run.1), TelemetryOf(w))
                else Replying(ReplyOf(c, w, run.1)))
  }

  /** The relay gives up: the oldest unanswered request is answered with an error. */
  function RelayStopped(me: Hop): Hop {
    if me.pending == [] then me.(relay := Stopped)
    else me.(relay := Stopped, pending := me.pending[1..], up := me.up + [ErrorReply(me.pending[0].id)])
  }

  ghost function ApplyHop(c: Config, s: State, a: Action): State
    requires Shape(c, s) && EnabledHop(c, s, a)
  {
    var h := HopOf(a);
    var me := s.hops[h];
    match a
    case Receive(_) => s.(hops := s.hops[h := me.(down := me.down[1..], rx := Some(me.down[0]))])
    case EnqueueJob(_) => s.(hops := s.hops[h := me.(rx := None, queue := me.queue + [me.rx.value])])
    case PopJob(_) => s.(hops := s.hops[h := me.(queue := me.queue[1..], eval := Evaluating(me.queue[0]))])
    case Evaluate(_) => s.(hops := s.hops[h := Evaluated(c, h, me)])
    case TrackForward(_) =>
      s.(hops := s.hops[h := me.(eval := Tracked(me.eval.next),
                                 pending := me.pending + [Pending(me.eval.next.id, me.eval.telemetry)])])
    case SendForward(_) =>
      var next := s.hops[h + 1];
      s.(hops := s.hops[h := me.(eval := Idle)][h + 1 := next.(down := next.down + [me.eval.next])])
    case SendReply(_) => s.(hops := s.hops[h := me.(eval := Idle, up := me.up + [me.eval.result])])
    case RelayRead(_) =>
      var next := s.hops[h + 1];
      var r := next.up[0];
      s.(hops := s.hops[h := me.(pending := me.pending[1..],
                                 relay := Holding(r.(telemetry := r.telemetry + [me.pending[0].telemetry])))]
                       [h + 1 := next.(up := next.up[1..])])
    case RelayWrite(_) => s.(hops := s.hops[h := me.(relay := Listening, up := me.up + [me.relay.result])])
    case FailEvaluation(_, after) =>
      s.(hops := s.hops[h := me.(session := after, eval := Idle, up := me.up + [ErrorReply(me.eval.job.id)])])
    case FailTrack(_) =>
      s.(hops := s.hops[h := me.(eval := Idle, up := me.up + [ErrorReply(me.eval.next.id)])])
    case FailForward(_) =>
      s.(hops := s.hops[h := me.(eval := Idle, pending := Unlinked(me.pending, me.eval.next.id),
                                 up := me.up + [ErrorReply(me.eval.next.id)])])
    case LoseDown(_, k) => s.(hops := s.hops[h := me.(down := Drop(me.down, k))])
    case LoseRx(_) => s.(hops := s.hops[h := me.(rx := None)])
    case LoseQueued(_, k) => s.(hops := s.hops[h := me.(queue := Drop(me.queue, k))])
    case LoseUp(_, k) => s.(hops := s.hops[h := me.(up := Drop(me.up, k))])
    case StopRelay(_) => s.(hops := s.hops[h := RelayStopped(me)])
    case MismatchRelay(_) =>
      var next := s.hops[h + 1];
      s.(hops := s.hops[h := RelayStopped(me)][h + 1 := next.(up := next.up[1..])])
  }

  ghost function Apply(c: Config, s: State, a: Action): State
    requires Shape(c, s) && Enabled(c, s, a)
  {
    if EnabledCo(c, s, a) then ApplyCo(c, s, a) else ApplyHop(c, s, a)
  }

  /** Applying an action keeps the shape, so runs never get stuck on definedness. */
  lemma ShapeKept(c: Config, s: State, a: Action)
    requires Shape(c, s) && Enabled(c, s, a)
    ensures Shape(c, Apply(c, s, a))
  {
    hide EnabledCo, EnabledHop, ApplyCo, ApplyHop, Config.Valid;
    if EnabledCo(c, s, a) { CoordinatorShape(c, s, a); } else { WorkerShape(c, s, a); }
  }

  lemma CoordinatorShape(c: Config, s: State, a: Action)
    requires Shape(c, s) && EnabledCo(c, s, a)
    ensures Shape(c, ApplyCo(c, s, a))
  {
    hide RunLayers, CacheBefore, WorkOfSlot, Acceptable;
  }

  lemma WorkerShape(c: Config, s: State, a: Action)
    requires Shape(c, s) && EnabledHop(c, s, a)
    ensures HopOf(a) < c.H() && Shape(c, ApplyHop(c, s, a)) && ApplyHop(c, s, a).co == s.co
    ensures a.SendForward? || a.RelayRead? || a.MismatchRelay? ==> HopOf(a) + 1 < c.H()
  {
    hide CanEvaluate, RunLayers, RunChain, CachesAfter, Unlinked, Evaluated, RelayStopped;
  }

  function InitialHop(w: Session): Hop {
    Hop(w, [], None, [], Idle, [], Listening, [])
  }

  ghost predicate Initial(c: Config, s: State) {
    && Shape(c, s)
    && s.hops == seq(c.H(), h requires 0 <= h < c.H() => InitialHop(c.workers[h]))
    && s.co.ring.head == 0 && s.co.ring.tail == 0 && s.co.ring.queued == 0
    && s.co == Coordinator(c.localKv, AwaitWindow, 0, Prefix(c.job.prompt[..c.job.start]), s.co.ring,
                           false, false, 0, Ready, 0, 0, false, 0, None)
  }

  /** All three coordinator threads are done. */
  predicate Ended(s: State) {
    && (s.co.producer == Finished || s.co.producer == Aborted)
    && s.co.sender == Exited && s.co.readerDone
  }

  /** The call returns 0. */
  predicate Succeeded(s: State) {
    Ended(s) && s.co.producer == Finished && s.co.senderRc == 0 && s.co.readerRc == 0
  }

  /** A run: `states[k + 1]` is `states[k]` after the enabled action `actions[k]`. */
  ghost predicate IsRun(c: Config, states: seq<State>, actions: seq<Action>) {
    && |states| == |actions| + 1
    && Initial(c, states[0])
    && forall k :: 0 <= k < |actions| ==>
         Shape(c, states[k]) && Enabled(c, states[k], actions[k])
         && states[k + 1] == Apply(c, states[k], actions[k])
  }

  ghost predicate FaultFree(actions: seq<Action>) {
    forall k :: 0 <= k < |actions| ==> !IsFailure(actions[k])
  }
}
