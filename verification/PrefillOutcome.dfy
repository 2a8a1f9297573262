/** From "every frame is the plain loop's" to "a chunk is lost": each chunk has exactly
    one live copy, so the first failure loses exactly one chunk for good. Together with
    the two invariants this gives the outcome of every run. */
module PrefillOutcome {
  import opened Inference
  import PlainLoop
  import SingleMachine
  import opened PrefillFrames
  import opened Monitors
  import opened PrefillMachine
  import opened PrefillCore
  import opened PrefillAligned
  import opened PrefillRefinement
  import opened PrefillLoss

  /** Requests at worker `h` are the chunks `Low .. sent - 1`. */
  function Low(c: Config, p: Progress, h: nat): nat
    requires h < |p|
  {
    if h + 1 < c.H() then SentNext(p, h) else p[h].res
  }

  /** Answers at worker `h` are the chunks `Answered .. High - 1`. */
  function High(c: Config, p: Progress, h: nat): nat
    requires h < |p|
  {
    if h + 1 < c.H() then p[h].rd else p[h].res
  }

  lemma CountsOf(c: Config, s: State, p: Progress, h: nat)
    requires Aligned(c, s, p) && h < c.H()
    ensures c.Valid() && |p| == c.H() && Ordered(c, h, p[h], SentNext(p, h), Answered(s, p, h))
  {
    AlignedHop(c, s, p, h);
  }

  lemma {:induction false} SentDecreases(c: Config, s: State, p: Progress, g: nat, h: nat)
    requires Aligned(c, s, p) && g <= h < c.H()
    ensures p[h].sent <= p[g].sent
    decreases h
  {
    hide HopAligned;
    if g < h {
      SentDecreases(c, s, p, g, h - 1);
      CountsOf(c, s, p, h - 1);
    }
  }

  lemma {:induction false} AnsweredIncreases(c: Config, s: State, p: Progress, g: nat, h: nat)
    requires Aligned(c, s, p) && g <= h < c.H()
    ensures Answered(s, p, g) <= Answered(s, p, h)
    decreases h
  {
    hide HopAligned;
    if g < h {
      AnsweredIncreases(c, s, p, g, h - 1);
      CountsOf(c, s, p, h - 1);
    }
  }

  /** Everything answered lies below everything still to be evaluated. */
  lemma AnswersBelowRequests(c: Config, s: State, p: Progress, g: nat, h: nat)
    requires Aligned(c, s, p) && g < c.H() && h < c.H()
    ensures High(c, p, g) <= Low(c, p, h)
    ensures Answered(s, p, h) <= High(c, p, h) && Low(c, p, h) <= p[h].sent
  {
    hide Aligned, HopAligned, Ordered;
    var l := c.H() - 1;
    CountsOf(c, s, p, l);
    CountsOf(c, s, p, h);
    if g < l { AnsweredIncreases(c, s, p, g + 1, l); }
    if h < l { SentDecreases(c, s, p, h + 1, l); }
    OrderedBounds(c, l, p[l], SentNext(p, l), Answered(s, p, l));
    OrderedBounds(c, h, p[h], SentNext(p, h), Answered(s, p, h));
  }

  lemma OrderedBounds(c: Config, h: nat, n: Count, sentNext: nat, taken: nat)
    requires c.Valid() && Ordered(c, h, n, sentNext, taken)
    ensures taken <= n.res <= n.ev <= n.sent
    ensures h + 1 < c.H() ==> n.res <= n.rd <= sentNext <= n.ev
  {
    hide Config.Valid;
  }

  // --- Where a chunk's frames can be inside one worker ---

  lemma WorksAt(c: Config, h: nat, a: nat, b: nat, x: nat)
    requires c.Valid() && h < c.H() && a <= b <= c.N() && x < b - a
    ensures Works(c, h, a, b)[x].id == c.job.firstId + a + x
  {
    hide IdealWork;
    IdealIds(c, h, a + x);
  }

  lemma ResultsAt(c: Config, h: nat, a: nat, b: nat, x: nat)
    requires c.Valid() && h < c.H() && a <= b <= c.N() && x < b - a
    ensures Results(c, h, a, b)[x].id == c.job.firstId + a + x
  {
    hide IdealResult;
    IdealIds(c, h, a + x);
  }

  lemma WorksIds(c: Config, h: nat, a: nat, b: nat, k: nat)
    requires c.Valid() && h < c.H() && a <= b <= c.N() && (k < a || k >= b)
    ensures NoneIn(Works(c, h, a, b), c.job.firstId + k)
  {
    hide Works;
    forall x: nat | x < b - a ensures Works(c, h, a, b)[x].id != c.job.firstId + k {
      WorksAt(c, h, a, b, x);
    }
  }

  lemma ResultsIds(c: Config, h: nat, a: nat, b: nat, k: nat)
    requires c.Valid() && h < c.H() && a <= b <= c.N() && (k < a || k >= b)
    ensures NoSuccessIn(Results(c, h, a, b), c.job.firstId + k)
  {
    hide Results;
    forall x: nat | x < b - a ensures Results(c, h, a, b)[x].id != c.job.firstId + k {
      ResultsAt(c, h, a, b, x);
    }
  }

  lemma DroppedWorkIds(c: Config, h: nat, a: nat, b: nat, k: nat)
    requires c.Valid() && h < c.H() && a <= b <= c.N() && k < b - a
    ensures NoneIn(Drop(Works(c, h, a, b), k), c.job.firstId + a + k)
  {
    hide Works;
    var w := Works(c, h, a, b);
    forall x | 0 <= x < |w| - 1 ensures Drop(w, k)[x].id != c.job.firstId + a + k {
      WorksAt(c, h, a, b, if x < k then x else x + 1);
    }
  }

  lemma DroppedResultIds(c: Config, h: nat, a: nat, b: nat, k: nat)
    requires c.Valid() && h < c.H() && a <= b <= c.N() && k < b - a
    ensures NoSuccessIn(Drop(Results(c, h, a, b), k), c.job.firstId + a + k)
  {
    hide Results;
    var w := Results(c, h, a, b);
    forall x | 0 <= x < |w| - 1 ensures Drop(w, k)[x].id != c.job.firstId + a + k {
      ResultsAt(c, h, a, b, if x < k then x else x + 1);
    }
  }

  lemma InputIds(c: Config, h: nat, me: Hop, n: Count, x: nat, y: nat, k: nat)
    requires HopAligned(c, h, me, n, x, y)
    ensures k < n.got || k >= n.sent ==> NoneIn(me.down, c.job.firstId + k)
    ensures k < n.enq || k >= n.got ==> (me.rx.Some? ==> me.rx.value.id != c.job.firstId + k)
    ensures k < n.pop || k >= n.enq ==> NoneIn(me.queue, c.job.firstId + k)
  {
    hide Works, Results, Pendings, IdealWork, IdealResult, IdealTelemetry, CachesAfter, NoneIn;
    if k < n.got || k >= n.sent { WorksIds(c, h, n.got, n.sent, k); }
    if k < n.pop || k >= n.enq { WorksIds(c, h, n.pop, n.enq, k); }
    if n.enq < n.got { IdealIds(c, h, n.enq); }
  }

  lemma EvalIds(c: Config, h: nat, me: Hop, n: Count, x: nat, y: nat, k: nat)
    requires HopAligned(c, h, me, n, x, y)
    requires (if h + 1 < c.H() then k < x else k < n.res) || k >= n.pop
    ensures NotInEval(me.eval, c.job.firstId + k)
  {
    hide Works, Results, Pendings, IdealWork, IdealResult, IdealTelemetry, CachesAfter, InputAligned, SessionAligned, OutputAligned;
    match me.eval
    case Idle =>
    case Evaluating(_) => IdealIds(c, h, n.ev);
    case Forwarding(_, _) => IdealIds(c, h + 1, n.fwd);
    case Tracked(_) => IdealIds(c, h + 1, x);
    case Replying(_) => IdealIds(c, h, n.res);
  }

  lemma AnswerIds(c: Config, h: nat, me: Hop, n: Count, x: nat, y: nat, k: nat)
    requires HopAligned(c, h, me, n, x, y)
    requires k < y || (if h + 1 < c.H() then k >= n.rd else k >= n.res)
    ensures NoAnswer(me, c.job.firstId + k)
  {
    hide Works, Results, Pendings, IdealWork, IdealResult, IdealTelemetry, CachesAfter, InputAligned, SessionAligned, EvalAligned, NoSuccessIn;
    ResultsIds(c, h, y, n.res, k);
    if me.relay.Holding? { IdealIds(c, h, n.res); }
  }

  /** A worker holds nothing of a chunk outside its two ranges. */
  lemma OutsideIsDead(c: Config, s: State, p: Progress, g: nat, k: nat)
    requires Aligned(c, s, p) && g < c.H()
    requires k < Low(c, p, g) || k >= p[g].sent
    requires k < Answered(s, p, g) || k >= High(c, p, g)
    ensures Dead(s.hops[g], c.job.firstId + k, false)
  {
    hide HopAligned, NotInEval, NoneIn, NoSuccessIn, NoAnswer;
    AlignedHop(c, s, p, g);
    CountsOf(c, s, p, g);
    var me, n, x, y := s.hops[g], p[g], SentNext(p, g), Answered(s, p, g);
    InputIds(c, g, me, n, x, y, k);
    EvalIds(c, g, me, n, x, y, k);
    AnswerIds(c, g, me, n, x, y, k);
  }

  /** A chunk waiting at worker `h` has no other copy anywhere. */
  lemma RequestIsUnique(c: Config, s: State, p: Progress, h: nat, j: nat)
    requires Aligned(c, s, p) && h < c.H() && Low(c, p, h) <= j < p[h].sent
    ensures forall g :: 0 <= g < c.H() && g != h ==> Dead(s.hops[g], c.job.firstId + j, false)
    ensures NoAnswer(s.hops[h], c.job.firstId + j)
    ensures s.co.received <= j < SentCount(s) && j < c.N()
  {
    hide HopAligned, Dead, NoAnswer;
    forall g | 0 <= g < c.H() && g != h ensures Dead(s.hops[g], c.job.firstId + j, false) {
      AnswersBelowRequests(c, s, p, g, h);
      if g < h { SentDecreases(c, s, p, g + 1, h); } else { SentDecreases(c, s, p, h + 1, g); }
      OutsideIsDead(c, s, p, g, j);
    }
    AnswersBelowRequests(c, s, p, h, h);
    AnswersBelowRequests(c, s, p, 0, h);
    SentDecreases(c, s, p, 0, h);
    CountsOf(c, s, p, 0);
    CountsOf(c, s, p, h);
    AlignedHop(c, s, p, h);
    AnswerIds(c, h, s.hops[h], p[h], SentNext(p, h), Answered(s, p, h), j);
  }

  /** An answer on its way up from worker `h` has no other copy anywhere. */
  lemma AnswerIsUnique(c: Config, s: State, p: Progress, h: nat, j: nat)
    requires Aligned(c, s, p) && h < c.H() && Answered(s, p, h) <= j < High(c, p, h)
    ensures forall g :: 0 <= g < c.H() && g != h ==> Dead(s.hops[g], c.job.firstId + j, false)
    ensures NoInput(s.hops[h], c.job.firstId + j) && NotInEval(s.hops[h].eval, c.job.firstId + j)
    ensures s.co.received <= j < SentCount(s) && j < c.N()
  {
    hide HopAligned, Dead, NoneIn, NotInEval;
    forall g | 0 <= g < c.H() && g != h ensures Dead(s.hops[g], c.job.firstId + j, false) {
      AnswersBelowRequests(c, s, p, h, g);
      CountsOf(c, s, p, if g < h then g else h);
      if g < h { AnsweredIncreases(c, s, p, g + 1, h); } else { AnsweredIncreases(c, s, p, h + 1, g); }
      OutsideIsDead(c, s, p, g, j);
    }
    AnswersBelowRequests(c, s, p, h, h);
    AnswersBelowRequests(c, s, p, h, 0);
    AnsweredIncreases(c, s, p, 0, h);
    CountsOf(c, s, p, 0);
    CountsOf(c, s, p, h);
    AlignedHop(c, s, p, h);
    InputIds(c, h, s.hops[h], p[h], SentNext(p, h), Answered(s, p, h), j);
    EvalIds(c, h, s.hops[h], p[h], SentNext(p, h), Answered(s, p, h), j);
  }

  // --- The first failure ---

  lemma LostEverywhere(c: Config, s: State, h: nat, j: nat, me: Hop)
    requires Shape(c, s) && h < c.H() && j < c.N() && s.co.received <= j < SentCount(s)
    requires forall g :: 0 <= g < c.H() && g != h ==> Dead(s.hops[g], c.job.firstId + j, false)
    requires Dead(me, c.job.firstId + j, false)
    ensures Lost(c, s.(hops := s.hops[h := me]), c.H() - 1, j)
  {
    hide Dead;
  }

  /** The evaluator gives up its request and answers it with an error. */
  lemma ClearedEvalIsDead(c: Config, h: nat, me: Hop, n: Count, x: nat, y: nat, j: nat, after: Hop)
    requires HopAligned(c, h, me, n, x, y) && j < n.pop && NoAnswer(me, c.job.firstId + j)
    requires after.down == me.down && after.rx == me.rx && after.queue == me.queue && after.relay == me.relay
    requires after.eval == Idle && after.up == me.up + [ErrorReply(c.job.firstId + j)]
    ensures Dead(after, c.job.firstId + j, false)
  {
    hide HopAligned, NoneIn;
    InputIds(c, h, me, n, x, y, j) by { HopAlignedCounts(c, h, me, n, x, y); }
    HopAlignedCounts(c, h, me, n, x, y);
  }

  lemma HopAlignedCounts(c: Config, h: nat, me: Hop, n: Count, x: nat, y: nat)
    requires HopAligned(c, h, me, n, x, y)
    ensures c.Valid() && h < c.H() && Ordered(c, h, n, x, y)
    ensures |me.down| == n.sent - n.got && |me.queue| == n.enq - n.pop && |me.up| == n.res - y
    ensures me.rx.Some? <==> n.enq < n.got
  {
    hide Works, Results, Pendings, IdealWork, IdealResult, IdealTelemetry, CachesAfter, EvalAligned, SessionAligned;
  }

  /** A frame vanishes from the worker's input. */
  lemma DroppedInputIsDead(c: Config, h: nat, me: Hop, n: Count, x: nat, y: nat, a: Action, j: nat)
    requires HopAligned(c, h, me, n, x, y) && NoAnswer(me, c.job.firstId + j)
    requires (a.LoseDown? && a.k < |me.down| && j == n.got + a.k)
             || (a.LoseRx? && me.rx.Some? && j == n.enq)
             || (a.LoseQueued? && a.k < |me.queue| && j == n.pop + a.k)
    ensures Dead(if a.LoseDown? then me.(down := Drop(me.down, a.k)) else if a.LoseRx? then me.(rx := None)
                 else me.(queue := Drop(me.queue, a.k)), c.job.firstId + j, false)
  {
    hide HopAligned, NoneIn, Drop, NotInEval, NoSuccessIn;
    HopAlignedCounts(c, h, me, n, x, y);
    InputIds(c, h, me, n, x, y, j);
    EvalIds(c, h, me, n, x, y, j);
    if a.LoseDown? { DroppedDown(c, h, me, n, x, y, a.k); }
    if a.LoseQueued? { DroppedQueue(c, h, me, n, x, y, a.k); }
  }

  lemma DroppedDown(c: Config, h: nat, me: Hop, n: Count, x: nat, y: nat, k: nat)
    requires HopAligned(c, h, me, n, x, y) && k < |me.down|
    ensures NoneIn(Drop(me.down, k), c.job.firstId + n.got + k)
  {
    hide Works, Results, Pendings, IdealWork, IdealResult, IdealTelemetry, CachesAfter, Drop, NoneIn, EvalAligned, SessionAligned, OutputAligned;
    DroppedWorkIds(c, h, n.got, n.sent, k);
  }

  lemma DroppedQueue(c: Config, h: nat, me: Hop, n: Count, x: nat, y: nat, k: nat)
    requires HopAligned(c, h, me, n, x, y) && k < |me.queue|
    ensures NoneIn(Drop(me.queue, k), c.job.firstId + n.pop + k)
  {
    hide Works, Results, Pendings, IdealWork, IdealResult, IdealTelemetry, CachesAfter, Drop, NoneIn, EvalAligned, SessionAligned, OutputAligned;
    DroppedWorkIds(c, h, n.pop, n.enq, k);
  }

  /** Which chunk the evaluator's request belongs to. */
  lemma EvalRequest(c: Config, h: nat, me: Hop, n: Count, x: nat, y: nat)
    requires HopAligned(c, h, me, n, x, y) && !me.eval.Idle? && !me.eval.Replying?
    ensures var j := n.pop - 1;
            && n.pop >= 1 && j < c.N() && (if h + 1 < c.H() then x <= j else n.res <= j)
            && (me.eval.Evaluating? ==> me.eval.job.id == c.job.firstId + j)
            && (!me.eval.Evaluating? ==> me.eval.next.id == c.job.firstId + j)
  {
    hide Works, Results, Pendings, IdealWork, IdealResult, IdealTelemetry, CachesAfter, InputAligned, SessionAligned, OutputAligned;
    match me.eval
    case Evaluating(_) => IdealIds(c, h, n.ev);
    case Forwarding(_, _) => IdealIds(c, h + 1, n.fwd);
    case Tracked(_) => IdealIds(c, h + 1, x);
  }

  /** The evaluator fails its request: evaluation, tracking or sending. */
  lemma EvaluatorFails(c: Config, s: State, p: Progress, a: Action)
    requires Aligned(c, s, p) && EnabledHop(c, s, a)
    requires a.FailEvaluation? || a.FailTrack? || a.FailForward?
    ensures p[a.h].pop >= 1 && Lost(c, ApplyHop(c, s, a), c.H() - 1, p[a.h].pop - 1)
  {
    hide HopAligned, Aligned, Dead, NoAnswer, Unlinked, CachesAfter, RunLayers, RunChain, CanEvaluate;
    var h := a.h;
    AlignedHop(c, s, p, h);
    var me, n, x, y := s.hops[h], p[h], SentNext(p, h), Answered(s, p, h);
    HopAlignedCounts(c, h, me, n, x, y);
    EvalRequest(c, h, me, n, x, y);
    RequestIsUnique(c, s, p, h, n.pop - 1);
    var after := ApplyHop(c, s, a).hops[h];
    ClearedEvalIsDead(c, h, me, n, x, y, n.pop - 1, after);
    LostEverywhere(c, s, h, n.pop - 1, after);
  }

  /** A WORK frame is lost in transit or in a queue. */
  lemma InputLost(c: Config, s: State, p: Progress, a: Action) returns (j: nat)
    requires Aligned(c, s, p) && EnabledHop(c, s, a)
    requires a.LoseDown? || a.LoseRx? || a.LoseQueued?
    ensures Lost(c, ApplyHop(c, s, a), c.H() - 1, j)
  {
    hide HopAligned, Aligned, Dead, NoAnswer, Drop, CachesAfter, RunLayers, RunChain;
    var h := a.h;
    AlignedHop(c, s, p, h);
    var me, n, x, y := s.hops[h], p[h], SentNext(p, h), Answered(s, p, h);
    HopAlignedCounts(c, h, me, n, x, y);
    j := if a.LoseDown? then n.got + a.k else if a.LoseRx? then n.enq else n.pop + a.k;
    RequestIsUnique(c, s, p, h, j);
    DroppedInputIsDead(c, h, me, n, x, y, a, j);
    LostEverywhere(c, s, h, j, ApplyHop(c, s, a).hops[h]);
  }

  lemma DroppedAnswerIsDead(c: Config, h: nat, me: Hop, n: Count, x: nat, y: nat, k: nat)
    requires HopAligned(c, h, me, n, x, y) && k < |me.up|
    requires NoInput(me, c.job.firstId + y + k) && NotInEval(me.eval, c.job.firstId + y + k)
    ensures Dead(me.(up := Drop(me.up, k)), c.job.firstId + y + k, false)
  {
    hide Works, Results, Pendings, IdealWork, IdealResult, IdealTelemetry, CachesAfter, Drop, NoneIn, NoSuccessIn,
         NotInEval, EvalAligned, SessionAligned, InputAligned;
    DroppedResultIds(c, h, y, n.res, k);
    if me.relay.Holding? { IdealIds(c, h, n.res); }
  }

  lemma AnswerLost(c: Config, s: State, p: Progress, h: nat, k: nat)
    requires Aligned(c, s, p) && EnabledHop(c, s, LoseUp(h, k))
    ensures Lost(c, ApplyHop(c, s, LoseUp(h, k)), c.H() - 1, Answered(s, p, h) + k)
  {
    hide HopAligned, Aligned, Dead, NoInput, NotInEval, Drop, CachesAfter, RunLayers, RunChain;
    AlignedHop(c, s, p, h);
    var me, n, x, y := s.hops[h], p[h], SentNext(p, h), Answered(s, p, h);
    HopAlignedCounts(c, h, me, n, x, y);
    AnswerIsUnique(c, s, p, h, y + k);
    DroppedAnswerIsDead(c, h, me, n, x, y, k);
    LostEverywhere(c, s, h, y + k, me.(up := Drop(me.up, k)));
  }

  // --- A relay that stops ---

  lemma PendingRange(c: Config, h: nat, me: Hop, n: Count, x: nat, y: nat)
    requires HopAligned(c, h, me, n, x, y)
    ensures |me.pending| == n.fwd - n.rd
    ensures h + 1 < c.H() && !me.relay.Holding? ==> n.rd == n.res
    ensures h + 1 < c.H() ==> n.fwd == x + if me.eval.Tracked? then 1 else 0
  {
    hide Works, Results, Pendings, IdealWork, IdealResult, IdealTelemetry, CachesAfter, InputAligned, SessionAligned;
  }

  lemma InputFree(c: Config, h: nat, me: Hop, n: Count, x: nat, y: nat, k: nat)
    requires HopAligned(c, h, me, n, x, y) && k < n.pop
    ensures NoInput(me, c.job.firstId + k)
  {
    hide HopAligned, NoneIn;
    HopAlignedCounts(c, h, me, n, x, y);
    InputIds(c, h, me, n, x, y, k);
  }

  /** The oldest unanswered request of worker `h` lies between its answers and its input. */
  lemma OldestPending(c: Config, s: State, p: Progress, h: nat)
    requires Aligned(c, s, p) && h < c.H()
    requires s.hops[h].relay.Listening? && s.hops[h].pending != []
    ensures h + 1 < c.H() && p[h].rd == p[h].res && p[h].rd < p[h].fwd <= p[h].pop <= p[h].sent <= c.N()
    ensures !s.hops[h].eval.Tracked? ==> p[h].rd < SentNext(p, h)
  {
    hide HopAligned;
    AlignedHop(c, s, p, h);
    CountsOf(c, s, p, h);
    PendingRange(c, h, s.hops[h], p[h], SentNext(p, h), Answered(s, p, h));
  }

  /** Above a relay that stops, its oldest unanswered request is dead. */
  lemma AboveStoppedRelay(c: Config, s: State, p: Progress, h: nat, g: nat)
    requires Aligned(c, s, p) && g < h < c.H()
    requires s.hops[h].relay.Listening? && s.hops[h].pending != []
    ensures Dead(s.hops[g], c.job.firstId + p[h].rd, false)
  {
    hide HopAligned, Dead;
    OldestPending(c, s, p, h);
    CountsOf(c, s, p, h);
    CountsOf(c, s, p, g);
    SentDecreases(c, s, p, g + 1, h);
    AnsweredIncreases(c, s, p, g + 1, h);
    OutsideIsDead(c, s, p, g, p[h].rd);
  }

  /** At the relay that stops, it is dead too, unless it is just leaving downstream. */
  lemma AtStoppedRelay(c: Config, s: State, p: Progress, h: nat)
    requires Aligned(c, s, p) && h < c.H()
    requires s.hops[h].relay.Listening? && s.hops[h].pending != []
    ensures Dead(RelayStopped(s.hops[h]), c.job.firstId + p[h].rd, true)
  {
    hide HopAligned, NoneIn, NotInEval, NoSuccessIn;
    var j, me, x, y := p[h].rd, s.hops[h], SentNext(p, h), Answered(s, p, h);
    OldestPending(c, s, p, h);
    AlignedHop(c, s, p, h);
    InputFree(c, h, me, p[h], x, y, j);
    AnswerIds(c, h, me, p[h], x, y, j);
    if !me.eval.Tracked? { EvalIds(c, h, me, p[h], x, y, j); }
    ErrorIsNoSuccess(me.up, me.pending[0].id, c.job.firstId + j);
  }

  lemma RelayStops(c: Config, s: State, p: Progress, h: nat)
    requires Aligned(c, s, p) && EnabledHop(c, s, StopRelay(h)) && s.hops[h].pending != []
    ensures Lost(c, ApplyHop(c, s, StopRelay(h)), h, p[h].rd)
  {
    hide HopAligned, Dead, RelayStopped;
    var j, t := p[h].rd, ApplyHop(c, s, StopRelay(h));
    OldestPending(c, s, p, h);
    StoppedChunkInFlight(c, s, p, h);
    AtStoppedRelay(c, s, p, h);
    forall g | 0 <= g <= h
      ensures Dead(t.hops[g], c.job.firstId + j, g == h && h + 1 < c.H())
    {
      if g < h { AboveStoppedRelay(c, s, p, h, g); }
    }
  }

  lemma StoppedChunkInFlight(c: Config, s: State, p: Progress, h: nat)
    requires Aligned(c, s, p) && h < c.H()
    requires s.hops[h].relay.Listening? && s.hops[h].pending != []
    ensures s.co.received <= p[h].rd < SentCount(s) && p[h].rd < c.N()
  {
    hide HopAligned;
    OldestPending(c, s, p, h);
    CountsOf(c, s, p, h);
    AnsweredIncreases(c, s, p, 0, h);
    SentDecreases(c, s, p, 0, h);
  }

  lemma ErrorIsNoSuccess(q: seq<Result>, e: nat, id: nat)
    requires NoSuccessIn(q, id)
    ensures NoSuccessIn(q + [ErrorReply(e)], id)
  {
  }

  /** With nothing outstanding, a stopping relay loses nothing. */
  lemma IdleRelayStops(c: Config, s: State, p: Progress, h: nat)
    requires Aligned(c, s, p) && EnabledHop(c, s, StopRelay(h)) && s.hops[h].pending == []
    ensures Aligned(c, ApplyHop(c, s, StopRelay(h)), p)
  {
    hide Aligned, Works, Results, Pendings, IdealWork, IdealResult, IdealTelemetry, CachesAfter;
    AlignedHop(c, s, p, h);
    OneHopStep(c, s, p, h, s.hops[h].(relay := Stopped), p[h]);
    assert p[h := p[h]] == p;
  }

  /** Relay pairing: while nothing is lost, the answer at the head of a worker's return
      socket is always for the oldest pending request, so a mismatch cannot occur. */
  lemma AnswersMatchPending(c: Config, s: State, p: Progress, h: nat)
    requires Aligned(c, s, p) && h + 1 < c.H() && s.hops[h].relay.Listening? && s.hops[h + 1].up != []
    ensures s.hops[h].pending != [] && s.hops[h + 1].up[0].id == s.hops[h].pending[0].id
    ensures !EnabledHop(c, s, MismatchRelay(h))
  {
    hide Aligned, HopAligned, IdealResult;
    AlignedHop(c, s, p, h);
    AlignedHop(c, s, p, h + 1);
    TakeLocal(c, h + 1, s.hops[h + 1], p[h + 1], SentNext(p, h + 1), p[h].rd);
    AnswerWasSent(c, s, p, h);
    RelayReadLocal(c, h, s.hops[h], p[h], SentNext(p, h), Answered(s, p, h));
  }

  lemma WorkerFailure(c: Config, s: State, p: Progress, a: Action)
    requires Aligned(c, s, p) && EnabledHop(c, s, a) && IsFailure(a)
    ensures Aligned(c, ApplyHop(c, s, a), p) || exists b, j :: Lost(c, ApplyHop(c, s, a), b, j)
  {
    hide Aligned, Lost, ApplyHop, CanEvaluate, RunLayers, RunChain, CachesAfter;
    AlignedHop(c, s, p, 0);
    match a
    case FailEvaluation(_, _) => EvaluatorFails(c, s, p, a);
    case FailTrack(_) => EvaluatorFails(c, s, p, a);
    case FailForward(_) => EvaluatorFails(c, s, p, a);
    case LoseDown(_, _) => var j := InputLost(c, s, p, a);
    case LoseRx(_) => var j := InputLost(c, s, p, a);
    case LoseQueued(_, _) => var j := InputLost(c, s, p, a);
    case LoseUp(h, k) => AnswerLost(c, s, p, h, k);
    case StopRelay(h) =>
      if s.hops[h].pending == [] { IdleRelayStops(c, s, p, h); } else { RelayStops(c, s, p, h); }
    case MismatchRelay(h) => AnswersMatchPending(c, s, p, h);
  }

  // --- Every run ---

  /** Either every frame and cache is the plain loop's, or a chunk is lost for good. */
  ghost predicate Sound(c: Config, s: State) {
    Core(c, s) && ((exists p :: Aligned(c, s, p)) || (exists b, j :: Lost(c, s, b, j)))
  }

  lemma SoundStep(c: Config, s: State, a: Action)
    requires Sound(c, s) && Enabled(c, s, a)
    ensures Sound(c, Apply(c, s, a))
  {
    hide Aligned, Lost, ApplyCo, ApplyHop, EnabledHop, RingIdeal, LocalIdeal, Bounded, Ring.Valid;
    CoreStep(c, s, a);
    if b, j :| Lost(c, s, b, j) {
      LostStep(c, s, a, b, j);
    } else {
      var p :| Aligned(c, s, p);
      if EnabledCo(c, s, a) {
        CoordinatorStep(c, s, p, a);
      } else if IsFailure(a) {
        WorkerFailure(c, s, p, a);
      } else {
        WorkerStep(c, s, p, a);
      }
    }
  }

  lemma {:induction false} SoundOnEveryRun(c: Config, states: seq<State>, actions: seq<Action>, n: nat)
    requires IsRun(c, states, actions) && n < |states|
    ensures Sound(c, states[n])
  {
    hide Sound, Enabled, Apply, Initial;
    if n == 0 {
      InitiallySound(c, states[0]);
    } else {
      SoundOnEveryRun(c, states, actions, n - 1);
      SoundStep(c, states[n - 1], actions[n - 1]);
    }
  }

  lemma InitiallySound(c: Config, s: State)
    requires Initial(c, s)
    ensures Sound(c, s)
  {
    hide Core, Aligned;
    InitialCore(c, s);
    InitialAligned(c, s);
  }

  /** The logits the call returns: copied from the last RESULT, or the coordinator's own
      head on the returned hidden state. */
  function ReturnedLogits(c: Config, payload: Payload): Option<Logits>
    requires c.Valid()
  {
    match payload
    case Final(logits) => Some(logits)
    case HiddenState(h, n) => Some(c.job.engine.head(h, n))
    case Ack => None
  }

  lemma FinalPayloadGivesPlainLogits(c: Config)
    requires c.Valid()
    ensures c.N() >= 1
    ensures ReturnedLogits(c, IdealPayload(c, c.N() - 1)) == Some(FinalLogits(c.job, c.Init()))
  {
    hide RunChain, RunLayers, CachesAfter, OutOf;
    CountBounds(c.job, c.N() - 1);
    ChunkShape(c.job, c.N() - 1);
  }

  /** All chunks answered means all chunks evaluated everywhere. */
  lemma AllAnsweredAllEvaluated(c: Config, s: State, p: Progress, h: nat)
    requires Aligned(c, s, p) && h < c.H() && s.co.received == c.N()
    ensures p[h].ev == c.N()
    ensures s.hops[h].session.kv == CachesAfter(c.job, c.Init(), c.N())[h + 1]
  {
    hide Works, Results, Pendings, IdealWork, IdealResult, IdealTelemetry, CachesAfter,
         InputAligned, EvalAligned, OutputAligned;
    AnsweredIncreases(c, s, p, 0, h);
    AlignedHop(c, s, p, h);
  }

  /** And every worker was able to serve every chunk. */
  lemma AllAnsweredAllServed(c: Config, s: State, p: Progress, h: nat)
    requires Aligned(c, s, p) && h < c.H() && s.co.received == c.N()
    ensures forall i :: 0 <= i < c.N() ==> CanServe(c, h, i)
  {
    hide Works, Results, Pendings, IdealWork, IdealResult, IdealTelemetry, CachesAfter, CanServe,
         InputAligned, EvalAligned, OutputAligned;
    AllAnsweredAllEvaluated(c, s, p, h);
    AlignedHop(c, s, p, h);
  }

  /** What a state in which the call has returned 0 contains. */
  ghost predicate HoldsPlainResult(c: Config, s: State)
    requires c.Valid()
  {
    var caches := CachesAfter(c.job, c.Init(), c.N());
    && s.co.local == caches[0]
    && |s.hops| == c.H()
    && (forall h :: 0 <= h < c.H() ==> s.hops[h].session.kv == caches[h + 1])
    && s.co.final.Some?
    && ReturnedLogits(c, s.co.final.value) == Some(FinalLogits(c.job, c.Init()))
  }

  lemma SuccessIsNotLost(c: Config, s: State)
    requires Core(c, s) && Succeeded(s)
    ensures s.co.received == c.N() && s.co.local == CachesAfter(c.job, c.Init(), c.N())[0]
    ensures forall b, j :: !Lost(c, s, b, j)
  {
    hide CachesAfter, Dead, RingIdeal, Bounded, Ring.Valid;
  }

  lemma FinalPayloadKept(c: Config, s: State, p: Progress)
    requires Aligned(c, s, p) && s.co.received == c.N()
    ensures c.N() >= 1 && s.co.final == Some(IdealPayload(c, c.N() - 1))
  {
    hide HopAligned, IdealPayload;
    CountBounds(c.job, 0);
  }

  lemma SuccessHoldsPlainResult(c: Config, s: State)
    requires Sound(c, s) && Succeeded(s)
    ensures HoldsPlainResult(c, s)
  {
    hide CachesAfter, ReturnedLogits, FinalLogits, HopAligned, Lost, Succeeded, RingIdeal, LocalIdeal, Bounded, Ring.Valid,
         IdealPayload;
    SuccessIsNotLost(c, s);
    var p :| Aligned(c, s, p);
    forall h | 0 <= h < c.H()
      ensures s.hops[h].session.kv == CachesAfter(c.job, c.Init(), c.N())[h + 1]
    {
      AllAnsweredAllEvaluated(c, s, p, h);
    }
    FinalPayloadKept(c, s, p);
    FinalPayloadGivesPlainLogits(c);
  }

  /** Pipelined prefill refines the plain loop: for every interleaving of all threads and
      every pattern of failures, if the call returns 0 then the coordinator's and every
      worker's caches, and the logits, are those of the plain loop. */
  lemma ZeroMeansPlainLoop(c: Config, states: seq<State>, actions: seq<Action>, n: nat)
    requires IsRun(c, states, actions) && n < |states| && Succeeded(states[n])
    ensures c.Valid() && HoldsPlainResult(c, states[n])
  {
    hide Enabled, Apply, Initial, HoldsPlainResult, Succeeded;
    SoundOnEveryRun(c, states, actions, n);
    SoundIsValid(c, states[n]);
    SuccessHoldsPlainResult(c, states[n]);
  }

  /** The same in terms of layer calls alone: any layer-by-layer account of the prompt, every
      chunk through every layer of every machine in order, ends in the caches and the logits
      that a successful call leaves. */
  lemma ZeroMeansEveryLayerRan(c: Config, states: seq<State>, actions: seq<Action>, n: nat,
                               caches: seq<seq<seq<Kv>>>, spans: seq<seq<seq<Hidden>>>)
    requires IsRun(c, states, actions) && n < |states| && Succeeded(states[n])
    requires PlainLoop.PrefillTrace(c.job, c.Init(), caches, spans)
    ensures var s, last := states[n], caches[|spans|];
            && |last| == c.H() + 1 == |s.hops| + 1 && s.co.local == last[0]
            && (forall h :: 0 <= h < c.H() ==> s.hops[h].session.kv == last[h + 1])
    ensures var hss := spans[|spans| - 1];
            && hss != [] && hss[|hss| - 1] != [] && c.job.nodes != []
            && c.job.start + (|spans| - 1) * c.job.cap <= c.job.end && states[n].co.final.Some?
            && var logits := PlainLoop.TraceLogits(c.job, spans);
               match states[n].co.final.value
               case Final(l) => l == logits
               case HiddenState(h, k) => c.job.engine.head(h, k) == logits
               case Ack => false
  {
    hide Enabled, Apply, Initial, Succeeded, FinalLogits, CachesAfter, PlainLoop.PrefillTrace, PlainLoop.TraceLogits;
    ZeroMeansPlainLoop(c, states, actions, n);
    PlainLoop.TraceIsPlainLoop(c.job, c.Init(), caches, spans);
  }

  /** With 32-bit activations and a contiguous route, a successful call returns what one
      machine holding all the layers returns. */
  lemma ZeroMeansSingleMachine(c: Config, states: seq<State>, actions: seq<Action>, n: nat, one: Job, flat: seq<Kv>)
    requires IsRun(c, states, actions) && n < |states| && Succeeded(states[n])
    requires SingleMachine.Together(c.job, one, c.Init(), flat)
    ensures c.Valid() && one.Valid() && Fits(one, [flat]) && states[n].co.final.Some?
    ensures ReturnedLogits(c, states[n].co.final.value) == Some(FinalLogits(one, [flat]))
  {
    hide Enabled, Apply, Initial, Succeeded, ReturnedLogits, FinalLogits, SingleMachine.Together;
    ZeroMeansPlainLoop(c, states, actions, n);
    SingleMachine.LogitsAreTheSame(c.job, one, c.Init(), flat);
  }

  lemma SoundIsValid(c: Config, s: State)
    requires Sound(c, s)
    ensures c.Valid() && Core(c, s)
  {
    hide RingIdeal, LocalIdeal, Bounded, Aligned, Lost;
  }

  /** Ring and window safety on every run, failures included: the slot being written is
      never one the sender may read, slots leave oldest first with the chunks in order,
      and at most `window` chunks are submitted and unanswered. */
  lemma RingAndWindowSafety(c: Config, states: seq<State>, actions: seq<Action>, n: nat)
    requires IsRun(c, states, actions) && n < |states|
    ensures Shape(c, states[n])
    ensures var co := states[n].co;
            && co.submitted <= co.received + c.window
            && (co.producer == Filling || co.producer == Publishing
                ==> forall q :: 0 <= q < co.ring.queued ==> co.ring.At(q) != co.ring.tail)
            && (co.sender == Taken || co.sender == Sent ==> co.ring.queued >= 1 && co.ring.head == co.ring.At(0))
            && co.ring.queued <= co.submitted <= c.N()
            && co.ring.Queue() == IdealSlots(c, co.submitted - co.ring.queued, co.submitted)
  {
    hide Enabled, Apply, Initial, Sound, Ring.Queue, IdealSlots, LocalIdeal, Bounded;
    SoundOnEveryRun(c, states, actions, n);
    SoundIsValid(c, states[n]);
    var r := states[n].co.ring;
    if r.queued < c.slotCount {
      forall q | 0 <= q < r.queued ensures r.At(q) != r.tail { DistinctWithin(r.head, q, r.queued, c.slotCount); }
    }
    if r.queued >= 1 { ReleaseShiftsIndices(r, 0); }
  }

  /** One telemetry record per worker for chunk `i`, the last worker's first. */
  ghost predicate LastHopFirst(c: Config, t: seq<Telemetry>, i: nat)
    requires c.Valid() && i < c.N()
  {
    |t| == c.H() && forall k :: 0 <= k < |t| ==> t[k] == IdealTelemetry(c, c.H() - 1 - k, i)
  }

  /** Any result the reader finds carries one telemetry record per worker, last first. */
  lemma TelemetryIsComplete(c: Config, s: State, p: Progress)
    requires Aligned(c, s, p) && s.hops[0].up != []
    ensures s.co.received < c.N()
    ensures LastHopFirst(c, s.hops[0].up[0].telemetry, s.co.received)
  {
    hide HopAligned, IdealTelemetry, IdealPayload;
    AlignedHop(c, s, p, 0);
    CountsOf(c, s, p, 0);
    TakeLocal(c, 0, s.hops[0], p[0], SentNext(p, 0), s.co.received);
  }

  /** The pending FIFO of a worker that has read `n.rd` answers, `sentNext` requests being
      on the wire below it. */
  ghost predicate PendingMatches(c: Config, h: nat, me: Hop, read: nat, sentNext: nat)
    requires c.Valid() && h < c.H()
  {
    && read <= sentNext <= c.N()
    && (me.eval.Tracked? ==> sentNext < c.N())
    && me.pending == Pendings(c, h, read, sentNext)
                     + if me.eval.Tracked? then [Pending(c.job.firstId + sentNext, IdealTelemetry(c, h, sentNext))] else []
  }

  lemma PendingLocal(c: Config, h: nat, me: Hop, n: Count, sentNext: nat, taken: nat)
    requires HopAligned(c, h, me, n, sentNext, taken) && h + 1 < c.H()
    ensures PendingMatches(c, h, me, n.rd, sentNext)
  {
    hide Works, Results, Pendings, IdealWork, IdealResult, IdealTelemetry, CachesAfter, InputAligned, SessionAligned,
         RunChain, RunLayers;
    PendingsEnds(c, h, n.rd, sentNext);
  }

  /** A worker's pending FIFO is exactly what it put on the wire and has not seen answered,
      in order, plus the request it is just about to send. */
  lemma PendingIsOutstanding(c: Config, s: State, p: Progress, h: nat)
    requires Aligned(c, s, p) && h + 1 < c.H()
    ensures PendingMatches(c, h, s.hops[h], Answered(s, p, h + 1), p[h + 1].sent)
  {
    hide HopAligned, PendingMatches;
    AlignedHop(c, s, p, h);
    PendingLocal(c, h, s.hops[h], p[h], SentNext(p, h), Answered(s, p, h));
  }

  /** Worker `h` is about to evaluate chunk `i`: RESET is set on the first chunk of a
      resetting run only, ACK_ONLY on all but the last of an acknowledging one; a worker in
      the middle forwards both, and the last one keeps its output exactly under ACK_ONLY. */
  ghost predicate FlagsCarried(c: Config, h: nat, me: Hop, i: nat)
    requires c.Valid() && h < c.H() && i < c.N() && me.eval.Evaluating?
  {
    var w := me.eval.job;
    && (w.reset <==> c.job.reset && i == 0)
    && (w.ackOnly <==> c.job.ackOnly && i + 1 < c.N())
    && (CanEvaluate(c, h, me.session, w) ==>
          match Evaluated(c, h, me).eval
          case Forwarding(next, _) => h + 1 < c.H() && next == IdealWork(c, h + 1, i)
          case Replying(r) => h + 1 == c.H() && (r.payload == Ack <==> w.ackOnly)
          case _ => false)
  }

  lemma IdealFlags(c: Config, h: nat, i: nat)
    requires c.Valid() && h < c.H() && i < c.N()
    ensures IdealWork(c, h, i).reset <==> c.job.reset && i == 0
    ensures IdealWork(c, h, i).ackOnly <==> c.job.ackOnly && i + 1 < c.N()
    ensures IdealResult(c, h, i).payload == Ack <==> IdealWork(c, h, i).ackOnly
  {
    hide InTo, OutOf, IdealTelemetry, Telemetries;
    CountBounds(c.job, i);
  }

  lemma FlagsLocal(c: Config, h: nat, me: Hop, n: Count, sentNext: nat, taken: nat)
    requires HopAligned(c, h, me, n, sentNext, taken) && me.eval.Evaluating?
    ensures n.ev < c.N() && FlagsCarried(c, h, me, n.ev)
  {
    hide Works, Results, Pendings, IdealWork, IdealResult, IdealTelemetry, CachesAfter, RunChain, RunLayers,
         InputAligned, OutputAligned, CanEvaluate, Evaluated;
    IdealFlags(c, h, n.ev);
    if CanEvaluate(c, h, me.session, me.eval.job) { EvaluatedStage(c, h, me, n.ev); }
  }

  lemma FlagsReachEveryWorker(c: Config, s: State, p: Progress, h: nat)
    requires Aligned(c, s, p) && h < c.H() && s.hops[h].eval.Evaluating?
    ensures p[h].ev < c.N() && FlagsCarried(c, h, s.hops[h], p[h].ev)
  {
    hide HopAligned, FlagsCarried;
    AlignedHop(c, s, p, h);
    FlagsLocal(c, h, s.hops[h], p[h], SentNext(p, h), Answered(s, p, h));
  }
}
