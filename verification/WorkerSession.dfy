/** A worker's per-session KV state and the token-hash guard in front of it: the locked
    part of WORK handling and of snapshot restore (ds4_distributed.c), together with the
    engine's own bookkeeping of the session's tokens (ds4.c). */
module WorkerSession {
  import opened TokenHash
  import opened Inference

  /** `timeline` are the tokens the engine session holds; `committed` is its flag that the
      cache agrees with them (checkpoint_valid). `hash` and `valid` are the worker's. */
  datatype Session = Session(kv: seq<Kv>, timeline: seq<Token>, committed: bool, hash: Hash, valid: bool)

  /** The fields of a WORK frame that the session guard looks at. */
  datatype Span = Span(tokens: seq<Token>, pos: nat, prefixHash: Hash, resultHash: Hash, reset: bool)

  /** How the device reacted to a reset and to an evaluation; a failure may leave anything
      in the cache, and takes the flag away or leaves it. */
  datatype ResetReply = Cleared | NotCleared(kv: seq<Kv>)
  datatype EngineReply = Extended(kv: seq<Kv>) | Broken(kv: seq<Kv>, committed: bool)
  datatype LoadReply = Restored(kv: seq<Kv>) | NotRestored(kv: seq<Kv>, committed: bool)

  datatype Verdict = Done | ResetFailed | PrefixMismatch | EvalFailed

  function Fresh(blank: seq<Kv>): Session {
    Session(blank, [], false, 0, false)
  }

  /** Session after RESET, or after recomputing a hash that was not valid. */
  function Prepared(s: Session, reset: bool, blank: seq<Kv>): Session {
    if reset then Session(blank, [], false, INIT, true)
    else if !s.valid then s.(hash := Prefix(s.timeline), valid := true)
    else s
  }

  predicate Accepts(s: Session, w: Span, blank: seq<Kv>) {
    Prepared(s, w.reset, blank).hash == w.prefixHash
  }

  /** The engine's check before it evaluates: it only appends, to a cache that agrees with
      the timeline or to one it fills from position 0. */
  predicate CanExtend(s: Session, w: Span, blank: seq<Kv>) {
    var p := Prepared(s, w.reset, blank);
    w.pos == if p.committed then |p.timeline| else 0
  }

  /** One WORK frame under the session lock. A failed reset has already dropped the tokens,
      and the worker keeps its hash. */
  function RunSpan(s: Session, w: Span, blank: seq<Kv>, cleared: ResetReply, reply: EngineReply): (Session, Verdict) {
    if w.reset && cleared.NotCleared? then (s.(kv := cleared.kv, timeline := [], committed := false), ResetFailed)
    else
      var p := Prepared(s, w.reset, blank);
      if p.hash != w.prefixHash then (p, PrefixMismatch)
      else if !CanExtend(s, w, blank) then (p.(valid := false), EvalFailed)
      else match reply
        case Extended(kv) => (Session(kv, p.timeline + w.tokens, true, w.resultHash, true), Done)
        case Broken(kv, committed) => (p.(kv := kv, committed := p.committed && committed, valid := false), EvalFailed)
  }

  /** One frame a worker handles, together with how its device reacted. `transcript` is
      the coordinator's prompt at the time it sent the span. */
  datatype Event =
    | WorkArrives(id: nat, span: Span, transcript: seq<Token>, cleared: ResetReply, engine: EngineReply)
    | LoadArrives(id: nat, tokens: seq<Token>, tokenHash: Hash, headerOk: bool, load: LoadReply)

  function Lookup(m: map<nat, Session>, id: nat, blank: seq<Kv>): Session {
    if id in m then m[id] else Fresh(blank)
  }

  /** The worker's check that the frame's two hashes belong to its tokens. */
  predicate Consistent(w: Span) {
    Continue(w.prefixHash, w.tokens) == w.resultHash
  }

  /** Session table after one event. */
  function Handle(m: map<nat, Session>, e: Event, blank: seq<Kv>): map<nat, Session> {
    var s := Lookup(m, e.id, blank);
    match e
    case WorkArrives(id, w, _, cleared, reply) =>
      if !Consistent(w) then m else m[id := RunSpan(s, w, blank, cleared, reply).0]
    case LoadArrives(id, tokens, tokenHash, headerOk, reply) =>
      if Prefix(tokens) != tokenHash || !headerOk then m
      else match reply
        case Restored(kv) => m[id := Session(kv, tokens, true, tokenHash, true)]
        case NotRestored(kv, committed) => m[id := s.(kv := kv, committed := s.committed && committed, valid := false)]
  }

  /** What becomes of a session whose WORK frame has consistent hashes. `was` is the session
      before, `now` the session after. */
  ghost predicate SpanOutcome(was: Session, now: Session, evaluated: bool, w: Span, blank: seq<Kv>, cleared: ResetReply,
                              reply: EngineReply)
  {
    var kept := if w.reset then [] else was.timeline;
    var expected := if w.reset then INIT else if was.valid then was.hash else Prefix(was.timeline);
    var end := if !w.reset && was.committed then |was.timeline| else 0;
    if w.reset && cleared.NotCleared? then
      !evaluated && now == Session(cleared.kv, [], false, was.hash, was.valid)
    else
      && (evaluated <==> w.prefixHash == expected && w.pos == end && reply.Extended?)
      && (evaluated ==> now == Session(reply.kv, kept + w.tokens, true, w.resultHash, true))
      && (!evaluated ==> now.timeline == kept && (now.committed ==> !w.reset && was.committed))
      && (w.prefixHash != expected ==> now.valid && now.hash == expected && now.kv == if w.reset then blank else was.kv)
      && (w.prefixHash == expected && !evaluated ==> !now.valid)
  }

  lemma OutcomeOfSpan(was: Session, w: Span, blank: seq<Kv>, cleared: ResetReply, reply: EngineReply)
    ensures var (now, verdict) := RunSpan(was, w, blank, cleared, reply);
            SpanOutcome(was, now, verdict == Done, w, blank, cleared, reply)
  {
  }

  /** The session table as the worker mutates it. */
  class Worker {
    var sessions: map<nat, Session>
    const blank: seq<Kv>

    constructor (blank: seq<Kv>)
      ensures sessions == map[] && this.blank == blank
    {
      sessions := map[];
      this.blank := blank;
    }

    method HandleWork(id: nat, w: Span, ghost transcript: seq<Token>, cleared: ResetReply, reply: EngineReply)
      returns (evaluated: bool)
      modifies this
      ensures sessions == Handle(old(sessions), WorkArrives(id, w, transcript, cleared, reply), blank)
      ensures evaluated <==> Consistent(w)
                             && RunSpan(Lookup(old(sessions), id, blank), w, blank, cleared, reply).1 == Done
      ensures Continue(w.prefixHash, w.tokens) != w.resultHash ==> !evaluated && sessions == old(sessions)
      ensures Continue(w.prefixHash, w.tokens) == w.resultHash ==>
                && id in sessions && sessions == old(sessions)[id := sessions[id]]
                && SpanOutcome(if id in old(sessions) then old(sessions)[id] else Session(blank, [], false, 0, false),
                               sessions[id], evaluated, w, blank, cleared, reply)
    {
      OutcomeOfSpan(if id in sessions then sessions[id] else Session(blank, [], false, 0, false), w, blank, cleared, reply);

      evaluated := false;
      var metadata := UpdateSpan(w.prefixHash, w.tokens);
      if metadata != w.resultHash { return; }
      var s := if id in sessions then sessions[id] else Fresh(blank);
      if w.reset {
        s := s.(timeline := [], committed := false);
        if cleared.NotCleared? {
          sessions := sessions[id := s.(kv := cleared.kv)];
          return;
        }
        s := s.(kv := blank, hash := INIT, valid := true);
      } else if !s.valid {
        var h := UpdateSpan(INIT, s.timeline);
        s := s.(hash := h, valid := true);
      }
      if s.hash == w.prefixHash {
        if w.pos != (if s.committed then |s.timeline| else 0) {
          s := s.(valid := false);
        } else {
          match reply {
            case Extended(kv) =>
              s := s.(kv := kv, timeline := s.timeline + w.tokens, committed := true);
              s := s.(hash := w.resultHash, valid := true);
              evaluated := true;
            case Broken(kv, committed) =>
              s := s.(kv := kv, committed := s.committed && committed, valid := false);
          }
        }
      }
      sessions := sessions[id := s];
    }

    method HandleLoad(id: nat, tokens: seq<Token>, tokenHash: Hash, headerOk: bool, reply: LoadReply)
      modifies this
      ensures sessions == Handle(old(sessions), LoadArrives(id, tokens, tokenHash, headerOk, reply), blank)
      ensures Prefix(tokens) != tokenHash || !headerOk ==> sessions == old(sessions)
      ensures Prefix(tokens) == tokenHash && headerOk && reply.Restored? ==>
                sessions == old(sessions)[id := Session(reply.kv, tokens, true, Prefix(tokens), true)]
      ensures Prefix(tokens) == tokenHash && headerOk && reply.NotRestored? ==>
                && id in sessions && sessions == old(sessions)[id := sessions[id]] && !sessions[id].valid
                && (id in old(sessions) ==> sessions[id].timeline == old(sessions)[id].timeline)
                && (id !in old(sessions) ==> sessions[id].timeline == [])
    {
      var h := UpdateSpan(INIT, tokens);
      if h != tokenHash || !headerOk { return; }
      var s := if id in sessions then sessions[id] else Fresh(blank);
      match reply {
        case Restored(kv) => s := s.(kv := kv, timeline := tokens, committed := true, hash := tokenHash, valid := true);
        case NotRestored(kv, committed) => s := s.(kv := kv, committed := s.committed && committed, valid := false);
      }
      sessions := sessions[id := s];
    }
  }

  // --- The guard ---

  /** A valid stored hash is the hash of the tokens actually in the session. */
  ghost predicate Guarded(s: Session) {
    s.valid ==> s.hash == Prefix(s.timeline)
  }

  ghost predicate AllGuarded(m: map<nat, Session>) {
    forall id :: id in m ==> Guarded(m[id])
  }

  /** The one way to lose the guard: a reset fails, so that the tokens are gone, on a session
      whose hash is valid and not that of the empty timeline. */
  predicate LeavesStaleHash(m: map<nat, Session>, e: Event, blank: seq<Kv>) {
    && e.WorkArrives? && Consistent(e.span) && e.span.reset && e.cleared.NotCleared?
    && var s := Lookup(m, e.id, blank); s.valid && s.hash != INIT
  }

  lemma PreparedIsGuarded(s: Session, reset: bool, blank: seq<Kv>)
    requires Guarded(s)
    ensures var p := Prepared(s, reset, blank); p.valid && p.hash == Prefix(p.timeline)
  {
    assert Prefix([]) == INIT;
  }

  /** Appending a span appends to the hash. */
  lemma AppendKeepsGuard(s: Session, w: Span, blank: seq<Kv>)
    requires Guarded(s) && Accepts(s, w, blank) && Consistent(w)
    ensures w.resultHash == Prefix(Prepared(s, w.reset, blank).timeline + w.tokens)
  {
    hide Continue;
    PreparedIsGuarded(s, w.reset, blank);
    PrefixExtends(Prepared(s, w.reset, blank).timeline, w.tokens);
  }

  lemma PrefixExtends(t: seq<Token>, tokens: seq<Token>)
    ensures Continue(Prefix(t), tokens) == Prefix(t + tokens)
  {
    ContinueConcat(INIT, t, tokens);
  }

  /** Every event keeps the guard of every session, whatever the frame claims, except
      exactly one that leaves a stale hash behind. */
  lemma StepKeepsGuardsExactly(m: map<nat, Session>, e: Event, blank: seq<Kv>)
    requires AllGuarded(m)
    ensures AllGuarded(Handle(m, e, blank)) <==> !LeavesStaleHash(m, e, blank)
  {
    hide Prefix, Continue;
    var s := Lookup(m, e.id, blank);
    EmptyPrefix();
    PreparedIsGuarded(s, if e.WorkArrives? then e.span.reset else false, blank);
    if e.WorkArrives? && Consistent(e.span) {
      if Accepts(s, e.span, blank) { AppendKeepsGuard(s, e.span, blank); }
      assert Handle(m, e, blank)[e.id] == RunSpan(s, e.span, blank, e.cleared, e.engine).0;
    }
  }

  lemma EmptyPrefix()
    ensures Prefix([]) == INIT
  {
  }

  ghost predicate IsHistory(tables: seq<map<nat, Session>>, events: seq<Event>, blank: seq<Kv>) {
    && |tables| == |events| + 1
    && tables[0] == map[]
    && forall i :: 0 <= i < |events| ==> tables[i + 1] == Handle(tables[i], events[i], blank)
  }

  /** Over every run of resets, spans and snapshot loads, failed or not, honest or not, each
      session's valid hash is the prefix hash of its own timeline, as long as no reset has
      left a stale hash. */
  lemma {:induction false} GuardHoldsOnEveryRun(tables: seq<map<nat, Session>>, events: seq<Event>, blank: seq<Kv>, n: nat)
    requires IsHistory(tables, events, blank) && n < |tables|
    requires forall i :: 0 <= i < n ==> !LeavesStaleHash(tables[i], events[i], blank)
    ensures AllGuarded(tables[n])
  {
    if n > 0 {
      GuardHoldsOnEveryRun(tables, events, blank, n - 1);
      StepKeepsGuardsExactly(tables[n - 1], events[n - 1], blank);
    }
  }

  /** Both directions: a run is guarded throughout if and only if no reset in it leaves a
      stale hash. */
  lemma RunIsGuardedExactly(tables: seq<map<nat, Session>>, events: seq<Event>, blank: seq<Kv>)
    requires IsHistory(tables, events, blank)
    ensures (forall n :: 0 <= n < |tables| ==> AllGuarded(tables[n]))
            <==> forall i :: 0 <= i < |events| ==> !LeavesStaleHash(tables[i], events[i], blank)
  {
    hide LeavesStaleHash, Handle, AllGuarded;
    if forall i :: 0 <= i < |events| ==> !LeavesStaleHash(tables[i], events[i], blank) {
      forall n | 0 <= n < |tables| ensures AllGuarded(tables[n]) { GuardHoldsOnEveryRun(tables, events, blank, n); }
    }
    if forall n :: 0 <= n < |tables| ==> AllGuarded(tables[n]) {
      forall i | 0 <= i < |events| ensures !LeavesStaleHash(tables[i], events[i], blank) {
        assert AllGuarded(tables[i]) && AllGuarded(tables[i + 1]);
        StepKeepsGuardsExactly(tables[i], events[i], blank);
      }
    }
  }

  /** A reset that fails over the timeline [1] leaves the hash of [1] over no tokens. */
  lemma FailedResetBreaksGuard(blank: seq<Kv>, held: seq<Kv>, wreck: seq<Kv>, reply: EngineReply) returns (s: Session, w: Span)
    ensures s == Session(held, [1], true, Prefix([1]), true) && Guarded(s)
    ensures w == Span([1], 0, INIT, Prefix([1]), true) && Consistent(w)
    ensures var (after, verdict) := RunSpan(s, w, blank, NotCleared(wreck), reply);
            verdict == ResetFailed && after.valid && after.hash == Prefix([1]) && after.timeline == [] && !Guarded(after)
  {
    hide Prefix, Continue;
    s := Session(held, [1], true, Prefix([1]), true);
    w := Span([1], 0, INIT, Prefix([1]), true);
    HashOfOneToken();
    PrefixIsContinued([1]);
  }

  lemma PrefixIsContinued(t: seq<Token>)
    ensures Prefix(t) == Continue(INIT, t)
  {
  }

  // --- What is evaluated ---

  /** The hash tells these two token sequences apart. */
  ghost predicate NoCollision(a: seq<Token>, b: seq<Token>) {
    Prefix(a) == Prefix(b) ==> a == b
  }

  /** The coordinator labels a span with the hash of its own prompt up to `pos`. */
  ghost predicate Honest(w: Span, transcript: seq<Token>) {
    && w.pos <= |transcript|
    && w.prefixHash == Prefix(transcript[..w.pos])
    && (w.reset ==> w.pos == 0)
  }

  /** Guarded, or emptied by a failed reset. */
  ghost predicate Tame(s: Session) {
    Guarded(s) || (s.timeline == [] && !s.committed)
  }

  /** An evaluated span of an honest coordinator starts exactly at the end of the session's
      tokens, and these are the coordinator's prefix; even a stale hash changes nothing
      about that, because the engine fills an emptied cache from position 0 only. */
  lemma EvaluatedSpanExtendsExactPrefix(s: Session, w: Span, transcript: seq<Token>, blank: seq<Kv>, kv: seq<Kv>)
    requires Tame(s) && CanExtend(s, w, blank) && Accepts(s, w, blank) && Consistent(w)
    requires Honest(w, transcript)
    requires NoCollision(Prepared(s, w.reset, blank).timeline, transcript[..w.pos])
    ensures Prepared(s, w.reset, blank).timeline == transcript[..w.pos]
    ensures w.pos == |Prepared(s, w.reset, blank).timeline|
    ensures var after := RunSpan(s, w, blank, Cleared, Extended(kv)).0;
            Guarded(after) && after.timeline == transcript[..w.pos] + w.tokens
  {
    hide Prefix, Continue;
    var p := Prepared(s, w.reset, blank);
    EmptyPrefix();
    if Guarded(s) { PreparedIsGuarded(s, w.reset, blank); }
    assert p.timeline == transcript[..w.pos];
    PrefixExtends(p.timeline, w.tokens);
  }

  /** What a run may assume of one event: the frame is honest and the hash separates
      the session's timeline from the coordinator's prefix. */
  ghost predicate Fair(m: map<nat, Session>, e: Event, blank: seq<Kv>) {
    e.WorkArrives? ==>
      && Honest(e.span, e.transcript)
      && NoCollision(Prepared(Lookup(m, e.id, blank), e.span.reset, blank).timeline,
                     e.transcript[..e.span.pos])
  }

  ghost predicate AllTame(m: map<nat, Session>) {
    forall id :: id in m ==> Tame(m[id])
  }

  lemma StepKeepsTame(m: map<nat, Session>, e: Event, blank: seq<Kv>)
    requires AllTame(m) && Fair(m, e, blank)
    ensures AllTame(Handle(m, e, blank))
  {
    hide Prefix, Continue;
    var s := Lookup(m, e.id, blank);
    EmptyPrefix();
    if e.WorkArrives? && Consistent(e.span) {
      SpanKeepsTame(s, e.span, e.transcript, blank, e.cleared, e.engine);
      assert Handle(m, e, blank)[e.id] == RunSpan(s, e.span, blank, e.cleared, e.engine).0;
    }
  }

  lemma SpanKeepsTame(s: Session, w: Span, transcript: seq<Token>, blank: seq<Kv>, cleared: ResetReply, reply: EngineReply)
    requires Tame(s) && Consistent(w) && Honest(w, transcript)
    requires NoCollision(Prepared(s, w.reset, blank).timeline, transcript[..w.pos])
    ensures Tame(RunSpan(s, w, blank, cleared, reply).0)
  {
    hide Prefix, Continue;
    EmptyPrefix();
    if Accepts(s, w, blank) && CanExtend(s, w, blank) && reply.Extended? {
      EvaluatedSpanExtendsExactPrefix(s, w, transcript, blank, reply.kv);
    }
  }

  lemma {:induction false} TameOnEveryRun(tables: seq<map<nat, Session>>, events: seq<Event>, blank: seq<Kv>, n: nat)
    requires IsHistory(tables, events, blank) && n < |tables|
    requires forall i :: 0 <= i < n ==> Fair(tables[i], events[i], blank)
    ensures AllTame(tables[n])
  {
    if n > 0 {
      TameOnEveryRun(tables, events, blank, n - 1);
      StepKeepsTame(tables[n - 1], events[n - 1], blank);
    }
  }

  /** Hence on every run of an honest coordinator, failed resets included, any WORK a worker
      evaluates starts exactly at the end of its timeline, that timeline is the coordinator's
      prefix, and afterwards the guard holds. */
  lemma EveryEvaluationContinuesThePrompt(tables: seq<map<nat, Session>>, events: seq<Event>, blank: seq<Kv>, n: nat)
    requires IsHistory(tables, events, blank) && n < |events|
    requires forall i :: 0 <= i <= n ==> Fair(tables[i], events[i], blank)
    requires var e := events[n];
             e.WorkArrives? && Consistent(e.span)
             && RunSpan(Lookup(tables[n], e.id, blank), e.span, blank, e.cleared, e.engine).1 == Done
    ensures var e := events[n];
            var before := Prepared(Lookup(tables[n], e.id, blank), e.span.reset, blank).timeline;
            && e.span.pos == |before| <= |e.transcript| && before == e.transcript[..e.span.pos]
            && e.id in tables[n + 1] && Guarded(tables[n + 1][e.id])
            && tables[n + 1][e.id].timeline == e.transcript[..e.span.pos] + e.span.tokens
  {
    hide Prefix, Continue;
    TameOnEveryRun(tables, events, blank, n);
    EmptyPrefix();
    var e := events[n];
    var s := Lookup(tables[n], e.id, blank);
    EvaluatedSpanExtendsExactPrefix(s, e.span, e.transcript, blank, e.engine.kv);
    assert tables[n + 1][e.id] == RunSpan(s, e.span, blank, e.cleared, e.engine).0;
  }

  /** A restored session goes on: the span that continues the restored prompt is evaluated, and
      the session then holds both. */
  lemma RestoredSessionContinues(m: map<nat, Session>, id: nat, tokens: seq<Token>, kv: seq<Kv>, w: Span, blank: seq<Kv>,
                                 cleared: ResetReply, after: seq<Kv>)
    requires !w.reset && w.pos == |tokens| && w.prefixHash == Prefix(tokens) && Consistent(w)
    ensures var m' := Handle(m, LoadArrives(id, tokens, Prefix(tokens), true, Restored(kv)), blank);
            && id in m' && m' == m[id := Session(kv, tokens, true, Prefix(tokens), true)]
            && RunSpan(Lookup(m', id, blank), w, blank, cleared, Extended(after))
               == (Session(after, tokens + w.tokens, true, Prefix(tokens + w.tokens), true), Done)
  {
    hide Prefix, Continue;
    PrefixExtends(tokens, w.tokens);
  }
}
