/** Without failures the pipelined prefill never deadlocks and always ends, although the
    slot ring, the flow window, every socket, every job queue and every pending FIFO are
    bounded: some step is enabled in every unfinished state, and every step consumes
    part of a fixed budget. */
module PrefillLiveness {
  import opened TokenHash
  import opened Inference
  import opened WorkerSession
  import opened PrefillFrames
  import opened Monitors
  import opened PrefillMachine
  import opened PrefillCore
  import opened PrefillAligned
  import opened PrefillRefinement
  import opened PrefillLoss
  import opened PrefillOutcome

  /** What a run needs from its surroundings, and exactly that (ZeroIsPossibleExactly): the
      span fits every worker, only the last worker is asked for logits, each worker's session
      takes the first chunk, and if there are more chunks it holds exactly the tokens before
      the span. A RESET run gets the session part for free (ResetReadies). */
  ghost predicate Synced(c: Config) {
    && c.Valid() && c.job.end <= c.ctx && 0 < c.N()
    && forall h :: 0 <= h < c.H() ==> HopReady(c, h)
  }

  ghost predicate HopReady(c: Config, h: nat)
    requires c.Valid() && h < c.H() && 0 < c.N()
  {
    && (h + 1 < c.H() ==> !c.job.nodes[h + 1].outputLogits)
    && Accepts(c.workers[h], SpanOf(IdealWork(c, h, 0)), BlankOf(c, h))
    && CanExtend(c.workers[h], SpanOf(IdealWork(c, h, 0)), BlankOf(c, h))
    && (c.N() > 1 ==> StartLength(c, h) == c.job.start)
  }

  lemma ResetReadies(c: Config)
    requires c.Valid() && c.job.end <= c.ctx && c.job.reset
    requires forall n :: 1 <= n < c.H() ==> !c.job.nodes[n].outputLogits
    ensures Synced(c)
  {
    hide RunChain, RunLayers, CachesAfter, InTo;
    CountBounds(c.job, 0);
    ChunkShape(c.job, 0);
    assert c.job.prompt[..0] == [];
  }

  /** No thread has given up. */
  ghost predicate Healthy(c: Config, s: State) {
    && Shape(c, s)
    && !s.co.stop && s.co.senderRc == 0 && s.co.readerRc == 0 && s.co.producer != Aborted
    && forall h :: 0 <= h < c.H() ==> !s.hops[h].relay.Stopped?
  }

  lemma HealthyWorkerStep(c: Config, s: State, a: Action)
    requires Healthy(c, s) && EnabledHop(c, s, a) && !IsFailure(a)
    ensures Healthy(c, ApplyHop(c, s, a))
  {
    hide CanEvaluate, RunLayers, RunChain, CachesAfter, Unlinked, RunSpan, LayersOf, ForwardOf, ReplyOf;
    WorkerShape(c, s, a);
  }

  lemma HealthyCoordinatorStep(c: Config, s: State, a: Action)
    requires Healthy(c, s) && EnabledCo(c, s, a) && !IsFailure(a)
    ensures Healthy(c, ApplyCo(c, s, a))
  {
    hide RunLayers, RunChain, CachesAfter, WorkOfSlot, Acceptable;
  }

  // --- The plain loop's request can always be evaluated ---

  lemma IdealWorkIsWellFormed(c: Config, h: nat, i: nat)
    requires Synced(c) && h < c.H() && i < c.N()
    ensures WellFormedWork(c, h, IdealWork(c, h, i))
  {
    hide RunChain, RunLayers, CachesAfter, InTo, Prefix, Continue, Synced;
    SpanFits(c, h);
    ChunkShape(c.job, i);
    HashChain(c, i);
  }

  lemma SpanFits(c: Config, h: nat)
    requires Synced(c) && h < c.H()
    ensures c.Valid() && c.job.end <= c.ctx && (h + 1 < c.H() ==> !c.job.nodes[h + 1].outputLogits)
  {
    hide Config.Valid, Accepts, CanExtend;
    assert HopReady(c, h);
  }

  lemma AlignedCanEvaluate(c: Config, h: nat, me: Hop, n: Count, x: nat, y: nat)
    requires Synced(c) && HopAligned(c, h, me, n, x, y) && me.eval.Evaluating?
    ensures CanEvaluate(c, h, me.session, me.eval.job)
  {
    hide Works, Results, Pendings, IdealResult, IdealTelemetry, CachesAfter, RunChain, RunLayers, InTo,
         InputAligned, OutputAligned, Prefix, Continue, BlankKv, WellFormedWork;
    assert HopReady(c, h);
    IdealWorkIsWellFormed(c, h, n.ev);
    ChunkShape(c.job, n.ev);
    if n.ev > 0 {
      HashChain(c, n.ev - 1);
      ChunkShape(c.job, n.ev - 1);
    }
  }

  // --- Finding the enabled step: look at the work furthest downstream ---

  ghost predicate Step(c: Config, s: State, a: Action) {
    Shape(c, s) && Enabled(c, s, a) && !IsFailure(a)
  }

  lemma HeadAnswerAcceptable(c: Config, s: State, p: Progress)
    requires Aligned(c, s, p) && s.hops[0].up != []
    ensures s.co.received < c.N() && Acceptable(c, s.co.received, s.hops[0].up[0])
  {
    hide HopAligned, RunChain, RunLayers, CachesAfter, OutOf, Telemetries;
    AlignedHop(c, s, p, 0);
    TakeLocal(c, 0, s.hops[0], p[0], SentNext(p, 0), s.co.received);
    CountsOf(c, s, p, 0);
    ChunkShape(c.job, s.co.received);
    CountBounds(c.job, s.co.received);
  }

  /** Answers: either a relay or the reader can move one, or there are none up to `h`. */
  lemma {:induction false} DrainAnswers(c: Config, s: State, p: Progress, h: nat) returns (found: bool, a: Action)
    requires Core(c, s) && Healthy(c, s) && Aligned(c, s, p) && h < c.H()
    requires s.co.received == s.co.completed
    ensures found ==> Step(c, s, a)
    ensures !found ==> forall g :: 0 <= g <= h ==> s.hops[g].up == [] && (g < h ==> s.hops[g].relay.Listening?)
  {
    hide HopAligned, Aligned, RingIdeal, LocalIdeal, Bounded, Acceptable, Ring.Valid;
    if h == 0 {
      found, a := s.hops[0].up != [], AcceptResult;
      if found { HeadAnswerAcceptable(c, s, p); }
    } else {
      found, a := DrainAnswers(c, s, p, h - 1);
      if !found {
        if s.hops[h - 1].relay.Holding? {
          found, a := true, RelayWrite(h - 1);
        } else if s.hops[h].up != [] {
          AnswersMatchPending(c, s, p, h - 1);
          found, a := true, RelayRead(h - 1);
        }
      }
    }
  }

  /** With all answers drained, each worker's counters meet at the reader's. */
  lemma {:induction false} DrainedCounts(c: Config, s: State, p: Progress, h: nat)
    requires Aligned(c, s, p) && h < c.H()
    requires forall g :: 0 <= g <= h ==> s.hops[g].up == [] && (g < h ==> s.hops[g].relay.Listening?)
    ensures Answered(s, p, h) == s.co.received && p[h].res == s.co.received
  {
    hide HopAligned, Aligned;
    AlignedHop(c, s, p, h);
    HopAlignedCounts(c, h, s.hops[h], p[h], SentNext(p, h), Answered(s, p, h));
    if h > 0 {
      DrainedCounts(c, s, p, h - 1);
      AlignedHop(c, s, p, h - 1);
      PendingRange(c, h - 1, s.hops[h - 1], p[h - 1], SentNext(p, h - 1), Answered(s, p, h - 1));
    }
  }

  /** An idle, empty worker has passed on everything it was sent. */
  lemma EmptyWorker(c: Config, h: nat, me: Hop, n: Count, x: nat, y: nat)
    requires HopAligned(c, h, me, n, x, y)
    requires me.down == [] && me.rx.None? && me.queue == [] && me.eval.Idle?
    ensures n.sent == (if h + 1 < c.H() then x else n.res)
  {
    hide Works, Results, Pendings, IdealWork, IdealResult, IdealTelemetry, CachesAfter, OutputAligned, SessionAligned;
  }

  /** One worker with nothing below it: something moves, or it is empty. */
  lemma WorkerMoves(c: Config, s: State, p: Progress, h: nat) returns (found: bool, a: Action)
    requires Synced(c) && Healthy(c, s) && Aligned(c, s, p) && h < c.H()
    requires s.hops[h].up == [] && (h + 1 < c.H() ==> s.hops[h + 1].down == [] && s.hops[h].relay.Listening?)
    requires h + 1 < c.H() ==> SentNext(p, h) == p[h].res
    ensures found ==> Step(c, s, a)
    ensures !found ==> p[h].sent == (if h + 1 < c.H() then SentNext(p, h) else p[h].res) && s.hops[h].down == []
  {
    hide HopAligned, Aligned, CanEvaluate;
    AlignedHop(c, s, p, h);
    var me, n, x, y := s.hops[h], p[h], SentNext(p, h), Answered(s, p, h);
    PendingRange(c, h, me, n, x, y);
    EvalShape(c, h, me, n, x, y);
    found := true;
    match me.eval {
      case Evaluating(_) => AlignedCanEvaluate(c, h, me, n, x, y); a := Evaluate(h);
      case Forwarding(_, _) => a := TrackForward(h);
      case Tracked(_) => a := SendForward(h);
      case Replying(_) => a := SendReply(h);
      case Idle =>
        if me.queue != [] { a := PopJob(h); }
        else if me.rx.Some? { a := EnqueueJob(h); }
        else if me.down != [] { a := Receive(h); }
        else { found := false; a := PopJob(h); EmptyWorker(c, h, me, n, x, y); }
    }
  }

  lemma EvalShape(c: Config, h: nat, me: Hop, n: Count, x: nat, y: nat)
    requires HopAligned(c, h, me, n, x, y)
    ensures me.eval.Forwarding? || me.eval.Tracked? ==> h + 1 < c.H()
    ensures me.eval.Replying? ==> h + 1 == c.H()
  {
    hide Works, Results, Pendings, IdealWork, IdealResult, IdealTelemetry, CachesAfter, OutputAligned, SessionAligned, InputAligned;
  }

  /** Requests: from the last worker up to `h`, something moves, or all are empty. */
  lemma {:induction false} DrainRequests(c: Config, s: State, p: Progress, h: nat) returns (found: bool, a: Action)
    requires Synced(c) && Healthy(c, s) && Aligned(c, s, p) && h < c.H()
    requires forall g :: 0 <= g < c.H() ==> s.hops[g].up == [] && (g + 1 < c.H() ==> s.hops[g].relay.Listening?)
    ensures found ==> Step(c, s, a)
    ensures !found ==> p[h].sent == s.co.received && s.hops[h].down == []
    decreases c.H() - h
  {
    hide HopAligned, Aligned, Step;
    AlignedHop(c, s, p, h);
    DrainedCounts(c, s, p, h);
    found := false;
    if h + 1 < c.H() {
      found, a := DrainRequests(c, s, p, h + 1);
    }
    if !found {
      found, a := WorkerMoves(c, s, p, h);
    }
  }

  /** The coordinator with an empty pipeline behind it. */
  lemma CoordinatorMoves(c: Config, s: State) returns (a: Action)
    requires Core(c, s) && Healthy(c, s) && !Succeeded(s)
    requires s.co.received == s.co.completed && s.hops[0].down == []
    requires SentCount(s) == s.co.received
    ensures Step(c, s, a)
  {
    hide RingIdeal, LocalIdeal, Bounded, Acceptable, EnabledHop, CanEvaluate, WorkOfSlot, IdealWork, Ring.Valid;
    if s.co.sender == Sent {
      a := ReleaseSlot;
    } else if s.co.sender == Taken {
      SentFrameIsIdeal(c, s);
      a := SendSlot;
    } else if s.co.sender == Ready && s.co.ring.queued > 0 {
      a := TakeSlot;
    } else if s.co.producer == AwaitWindow {
      a := if s.co.submitted < c.N() then PassWindow else FinishProducer;
    } else if s.co.producer == AwaitSlot {
      a := AcquireSlot;
    } else if s.co.producer == Filling {
      a := FillSlot;
    } else if s.co.producer == Publishing {
      a := PublishSlot;
    } else {
      a := ExitSender;
    }
  }

  /** Deadlock freedom: in a fault-free run every unfinished state has an enabled step. */
  lemma SomeStepEnabled(c: Config, s: State, p: Progress) returns (a: Action)
    requires Synced(c) && Core(c, s) && Healthy(c, s) && Aligned(c, s, p) && !Succeeded(s)
    ensures Step(c, s, a)
  {
    hide HopAligned, Aligned, Step, RingIdeal, LocalIdeal, Bounded, Ring.Valid;
    if s.co.completed < s.co.received {
      a := SignalProgress;
      SignalIsStep(c, s);
      return;
    }
    var found, x := DrainAnswers(c, s, p, c.H() - 1);
    if found { return x; }
    found, x := DrainRequests(c, s, p, 0);
    if found { return x; }
    SentIsFirst(c, s, p);
    a := CoordinatorMoves(c, s);
  }

  lemma SignalIsStep(c: Config, s: State)
    requires Shape(c, s) && s.co.completed < s.co.received
    ensures Step(c, s, SignalProgress)
  {
  }

  lemma SentIsFirst(c: Config, s: State, p: Progress)
    requires Aligned(c, s, p)
    ensures p[0].sent == SentCount(s)
  {
    hide HopAligned;
  }

  // --- Every step consumes budget ---

  function ProducerEffort(s: State): nat {
    4 * s.co.submitted + match s.co.producer
                         case AwaitWindow => 0
                         case AwaitSlot => 1
                         case Filling => 2
                         case Publishing => 3
                         case Finished => 1
                         case Aborted => 0
  }

  function SenderEffort(s: State): int {
    3 * (s.co.submitted - s.co.ring.queued) + match s.co.sender
                                              case Ready => 0
                                              case Taken => 1
                                              case Sent => 2
                                              case Exited => 1
  }

  function CountSum(n: Count): nat {
    n.sent + n.got + n.enq + n.pop + n.ev + n.fwd + n.rd + n.res
  }

  function WorkerEffort(p: Progress): nat {
    if p == [] then 0 else CountSum(p[0]) + WorkerEffort(p[1..])
  }

  lemma {:induction false} WorkerEffortUpdate(p: Progress, h: nat, n: Count)
    requires h < |p|
    ensures WorkerEffort(p[h := n]) == WorkerEffort(p) - CountSum(p[h]) + CountSum(n)
  {
    if h > 0 {
      assert p[h := n][1..] == p[1..][h - 1 := n];
      WorkerEffortUpdate(p[1..], h - 1, n);
    } else {
      assert p[h := n][1..] == p[1..];
    }
  }

  lemma {:induction false} WorkerEffortBound(p: Progress, k: nat)
    requires forall h :: 0 <= h < |p| ==> CountSum(p[h]) <= k
    ensures WorkerEffort(p) <= |p| * k
  {
    if p != [] {
      hide CountSum;
      WorkerEffortBound(p[1..], k);
      var n := |p| - 1;
      assert (n + 1) * k == n * k + k;
    }
  }

  /** Steps taken so far, read off the state. */
  function Effort(s: State, p: Progress): int {
    ProducerEffort(s) + SenderEffort(s) + s.co.received + s.co.completed + WorkerEffort(p)
  }

  /** No fault-free run takes more steps than this. */
  function Budget(c: Config): nat
    requires c.Valid()
  {
    9 * c.N() + 2 + c.H() * (8 * c.N())
  }

  lemma EffortWithinBudget(c: Config, s: State, p: Progress)
    requires Core(c, s) && Aligned(c, s, p)
    ensures Effort(s, p) <= Budget(c)
  {
    hide HopAligned, RingIdeal, LocalIdeal, Bounded, Ring.Valid;
    forall h | 0 <= h < c.H() ensures CountSum(p[h]) <= 8 * c.N() {
      AlignedHop(c, s, p, h);
      CountsOf(c, s, p, h);
      CountsOfAll(c, h, p[h], SentNext(p, h), Answered(s, p, h));
    }
    WorkerEffortBound(p, 8 * c.N());
  }

  lemma CountsOfAll(c: Config, h: nat, n: Count, x: nat, y: nat)
    requires c.Valid() && Ordered(c, h, n, x, y)
    requires h + 1 < c.H() ==> x <= n.fwd
    ensures CountSum(n) <= 8 * c.N()
  {
  }

  lemma WorkerStepCosts(c: Config, s: State, p: Progress, a: Action)
    requires Shape(c, s) && |p| == c.H() && EnabledHop(c, s, a) && !IsFailure(a)
    ensures WorkerEffort(Advance(p, a)) == WorkerEffort(p) + 1
  {
    hide CanEvaluate, WorkerEffort;
    var h := HopOf(a);
    var n := p[h];
    if a.SendForward? {
      WorkerEffortUpdate(p, h + 1, p[h + 1].(sent := p[h + 1].sent + 1));
    } else {
      WorkerEffortUpdate(p, h, Advance(p, a)[h]);
      assert Advance(p, a) == p[h := Advance(p, a)[h]];
    }
  }

  lemma CoordinatorStepCosts(c: Config, s: State, p: Progress, a: Action)
    requires Control(c, s) && Shape(c, s) && |p| == c.H() && EnabledCo(c, s, a) && !IsFailure(a)
    ensures Effort(ApplyCo(c, s, a), Advance(p, a)) >= Effort(s, p) + 1
  {
    hide WorkerEffort, RunLayers, RunChain, CachesAfter, WorkOfSlot, Acceptable, Ring.Valid;
    if a.SendSlot? { WorkerEffortUpdate(p, 0, p[0].(sent := p[0].sent + 1)); }
  }

  /** What holds at every point of a fault-free run, with its explicit counters. */
  function CountsAt(c: Config, actions: seq<Action>, n: nat): Progress
    requires n <= |actions|
  {
    if n == 0 then StartCounts(c) else Advance(CountsAt(c, actions, n - 1), actions[n - 1])
  }

  lemma StepKeepsAll(c: Config, s: State, p: Progress, a: Action)
    requires Core(c, s) && Healthy(c, s) && Aligned(c, s, p) && Step(c, s, a)
    ensures var t, q := Apply(c, s, a), Advance(p, a);
            Core(c, t) && Healthy(c, t) && Aligned(c, t, q) && Effort(t, q) >= Effort(s, p) + 1
  {
    hide HopAligned, RingIdeal, LocalIdeal, Bounded, ApplyCo, ApplyHop, EnabledHop, Ring.Valid, WorkerEffort, Healthy;
    CoreStep(c, s, a);
    if EnabledCo(c, s, a) {
      CoordinatorStep(c, s, p, a);
      HealthyCoordinatorStep(c, s, a);
      CoordinatorStepCosts(c, s, p, a);
    } else {
      WorkerStep(c, s, p, a);
      HealthyWorkerStep(c, s, a);
      WorkerStepCosts(c, s, p, a);
      WorkerShape(c, s, a);
    }
  }

  lemma {:induction false} FaultFreeRun(c: Config, states: seq<State>, actions: seq<Action>, n: nat)
    requires IsRun(c, states, actions) && FaultFree(actions) && n <= |actions|
    ensures var s, p := states[n], CountsAt(c, actions, n);
            Core(c, s) && Healthy(c, s) && Aligned(c, s, p) && Effort(s, p) >= n
  {
    hide Core, Healthy, Aligned, Effort, Apply, Enabled, Advance;
    if n == 0 {
      StartOfRun(c, states[0]);
    } else {
      FaultFreeRun(c, states, actions, n - 1);
      assert Step(c, states[n - 1], actions[n - 1]);
      StepKeepsAll(c, states[n - 1], CountsAt(c, actions, n - 1), actions[n - 1]);
    }
  }

  lemma StartOfRun(c: Config, s: State)
    requires Initial(c, s)
    ensures Core(c, s) && Healthy(c, s) && Aligned(c, s, StartCounts(c)) && Effort(s, StartCounts(c)) >= 0
  {
    hide Core, Aligned;
    InitialCore(c, s);
    InitialAligned(c, s);
  }

  /** Termination: a fault-free run is never longer than the budget. */
  lemma FaultFreeRunsEnd(c: Config, states: seq<State>, actions: seq<Action>)
    requires IsRun(c, states, actions) && FaultFree(actions)
    ensures |actions| <= Budget(c)
  {
    hide Core, Healthy, Aligned, Effort, Apply, Enabled, Advance, Initial;
    FaultFreeRun(c, states, actions, |actions|);
    EffortWithinBudget(c, states[|actions|], CountsAt(c, actions, |actions|));
  }

  /** Deadlock freedom over runs: a fault-free run that has not succeeded yet can always
      be continued, so every maximal one succeeds; by ZeroMeansPlainLoop it has then
      computed the plain loop. */
  lemma UnfinishedRunsContinue(c: Config, states: seq<State>, actions: seq<Action>) returns (a: Action)
    requires Synced(c) && IsRun(c, states, actions) && FaultFree(actions)
    requires !Succeeded(states[|actions|])
    ensures !IsFailure(a) && Shape(c, states[|actions|]) && Enabled(c, states[|actions|], a)
    ensures IsRun(c, states + [Apply(c, states[|actions|], a)], actions + [a])
  {
    hide Core, Healthy, Aligned, Effort, Apply, Enabled, Advance, Initial, Succeeded, Synced, Shape;
    FaultFreeRun(c, states, actions, |actions|);
    a := SomeStepEnabled(c, states[|actions|], CountsAt(c, actions, |actions|));
    var t := states + [Apply(c, states[|actions|], a)];
    var b := actions + [a];
    forall k | 0 <= k < |b|
      ensures Shape(c, t[k]) && Enabled(c, t[k], b[k]) && t[k + 1] == Apply(c, t[k], b[k])
    {
      if k < |actions| { assert t[k] == states[k] && t[k + 1] == states[k + 1] && b[k] == actions[k]; }
    }
  }

  /** Relay pairing over runs: at every hop the pending FIFO is exactly what is on the wire
      below it and unanswered, and no answer ever meets the wrong request. */
  lemma FaultFreeRelaysPair(c: Config, states: seq<State>, actions: seq<Action>, n: nat, h: nat)
    requires IsRun(c, states, actions) && FaultFree(actions) && n <= |actions| && h + 1 < c.H()
    ensures var s, p := states[n], CountsAt(c, actions, n);
            && Aligned(c, s, p)
            && PendingMatches(c, h, s.hops[h], Answered(s, p, h + 1), p[h + 1].sent)
            && !EnabledHop(c, s, MismatchRelay(h))
  {
    hide Core, Healthy, HopAligned, Effort, Apply, Enabled, EnabledHop, Advance, PendingMatches;
    FaultFreeRun(c, states, actions, n);
    var s, p := states[n], CountsAt(c, actions, n);
    PendingIsOutstanding(c, s, p, h);
    NoMismatch(c, s, p, h);
  }

  /** Telemetry over runs: whatever waits for the reader carries one record per worker, the
      last worker's first, about the chunk the reader expects next. */
  lemma FaultFreeTelemetryInOrder(c: Config, states: seq<State>, actions: seq<Action>, n: nat)
    requires IsRun(c, states, actions) && FaultFree(actions) && n <= |actions|
    ensures Shape(c, states[n])
    ensures states[n].hops[0].up != [] ==>
              states[n].co.received < c.N() && LastHopFirst(c, states[n].hops[0].up[0].telemetry, states[n].co.received)
  {
    hide Core, Healthy, HopAligned, Effort, Apply, Enabled, Advance, LastHopFirst;
    FaultFreeRun(c, states, actions, n);
    if states[n].hops[0].up != [] { TelemetryIsComplete(c, states[n], CountsAt(c, actions, n)); }
  }

  /** Flags over runs: whenever a worker holds a job, its flags are those of the chunk it has
      reached, and evaluating it passes them on. */
  lemma FaultFreeFlags(c: Config, states: seq<State>, actions: seq<Action>, n: nat, h: nat)
    requires IsRun(c, states, actions) && FaultFree(actions) && n <= |actions| && h < c.H()
    ensures Shape(c, states[n]) && |CountsAt(c, actions, n)| == c.H()
    ensures states[n].hops[h].eval.Evaluating? ==>
              CountsAt(c, actions, n)[h].ev < c.N() && FlagsCarried(c, h, states[n].hops[h], CountsAt(c, actions, n)[h].ev)
  {
    hide Core, Healthy, HopAligned, Effort, Apply, Enabled, Advance, FlagsCarried, Config.Valid;
    FaultFreeRun(c, states, actions, n);
    if states[n].hops[h].eval.Evaluating? { FlagsReachEveryWorker(c, states[n], CountsAt(c, actions, n), h); }
  }

  lemma NoMismatch(c: Config, s: State, p: Progress, h: nat)
    requires Aligned(c, s, p) && h + 1 < c.H()
    ensures !EnabledHop(c, s, MismatchRelay(h))
  {
    hide HopAligned, WellFormedWork, CanEvaluate, LayersOf, RunLayers, FinalAligned;
    if s.hops[h].relay.Listening? && s.hops[h + 1].up != [] { AnswersMatchPending(c, s, p, h); }
  }

  // --- When a call can return 0 at all ---

  /** The state every run starts from. */
  function Start(c: Config): State
    requires c.Valid()
  {
    var empty := Slot(0, 0, 0, INIT, INIT, false, false, c.job.engine.embed([], 0));
    State(Coordinator(c.localKv, AwaitWindow, 0, Prefix(c.job.prompt[..c.job.start]),
                      Ring(seq(c.slotCount, _ => empty), 0, 0, 0),
                      false, false, 0, Ready, 0, 0, false, 0, None),
          seq(c.H(), h requires 0 <= h < c.H() => InitialHop(c.workers[h])))
  }

  lemma StartIsRun(c: Config)
    requires c.Valid()
    ensures IsRun(c, [Start(c)], [])
  {
  }

  /** Any fault-free run of a configuration that is ready can be driven to success. */
  lemma {:induction false} DriveToSuccess(c: Config, states: seq<State>, actions: seq<Action>)
    returns (states': seq<State>, actions': seq<Action>)
    requires Synced(c) && IsRun(c, states, actions) && FaultFree(actions)
    ensures IsRun(c, states', actions') && FaultFree(actions') && Succeeded(states'[|actions'|])
    decreases Budget(c) - |actions|
  {
    hide IsRun, Succeeded, Synced, Enabled, Apply;
    RunLength(c, states, actions);
    if Succeeded(states[|actions|]) {
      states', actions' := states, actions;
    } else {
      FaultFreeRunsEnd(c, states, actions);
      var a := UnfinishedRunsContinue(c, states, actions);
      FaultFreeRunsEnd(c, states + [Apply(c, states[|actions|], a)], actions + [a]);
      states', actions' := DriveToSuccess(c, states + [Apply(c, states[|actions|], a)], actions + [a]);
    }
    RunLength(c, states', actions');
  }

  lemma RunLength(c: Config, states: seq<State>, actions: seq<Action>)
    requires IsRun(c, states, actions)
    ensures |states| == |actions| + 1
  {
  }

  lemma ServedMeansReady(c: Config, h: nat)
    requires c.Valid() && h < c.H() && 0 < c.N() && forall i :: 0 <= i < c.N() ==> CanServe(c, h, i)
    ensures c.job.end <= c.ctx && HopReady(c, h)
  {
    hide RunChain, RunLayers, CachesAfter, InTo, Accepts, CanExtend, StartLength, BlankOf, Prefix, Continue;
    var last := c.N() - 1;
    ChunkShape(c.job, last);
    assert CanServe(c, h, 0) && CanServe(c, h, last) && (c.N() > 1 ==> CanServe(c, h, 1));
  }

  /** A run of the call that returns 0. */
  ghost predicate ReturnsZero(c: Config, states: seq<State>, actions: seq<Action>) {
    IsRun(c, states, actions) && Succeeded(states[|actions|])
  }

  /** A call can return 0 if and only if the configuration is ready; and then it can do so
      without a failure. */
  lemma ZeroIsPossibleExactly(c: Config)
    requires c.Valid()
    ensures (exists states, actions :: ReturnsZero(c, states, actions)) <==> Synced(c)
    ensures Synced(c) ==> exists states, actions :: ReturnsZero(c, states, actions) && FaultFree(actions)
  {
    hide IsRun, Succeeded, Synced;
    if Synced(c) {
      StartIsRun(c);
      var states, actions := DriveToSuccess(c, [Start(c)], []);
      assert ReturnsZero(c, states, actions) by { RunLength(c, states, actions); }
    }
    hide ReturnsZero;
    forall states, actions | ReturnsZero(c, states, actions) ensures Synced(c) {
      SuccessMeansSynced(c, states, actions);
    }
  }

  lemma SuccessMeansSynced(c: Config, states: seq<State>, actions: seq<Action>)
    requires ReturnsZero(c, states, actions)
    ensures Synced(c)
  {
    RunLength(c, states, actions);
    hide IsRun, Succeeded, CanServe, Sound, Aligned, HopReady;
    var n := |actions|;
    SoundOnEveryRun(c, states, actions, n);
    SoundIsValid(c, states[n]);
    var p := SucceededIsAligned(c, states[n]);
    CountBounds(c.job, 0);
    ServedThroughout(c, states[n], p, 0);
    forall h: nat | h < c.H() ensures HopReady(c, h) { ServedThroughout(c, states[n], p, h); }
  }

  lemma ServedThroughout(c: Config, s: State, p: Progress, h: nat)
    requires c.Valid() && 0 < c.N() && Aligned(c, s, p) && h < c.H() && s.co.received == c.N()
    ensures c.job.end <= c.ctx && HopReady(c, h)
  {
    hide Aligned, CanServe, HopReady;
    AllAnsweredAllServed(c, s, p, h);
    ServedMeansReady(c, h);
  }

  lemma SucceededIsAligned(c: Config, s: State) returns (p: Progress)
    requires Sound(c, s) && Succeeded(s)
    ensures Aligned(c, s, p) && s.co.received == c.N()
  {
    hide CachesAfter, HopAligned, Lost, Succeeded, RingIdeal, LocalIdeal, Bounded, Ring.Valid;
    SuccessIsNotLost(c, s);
    p :| Aligned(c, s, p);
  }
}
