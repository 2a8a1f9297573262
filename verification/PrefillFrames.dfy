/** Frames of the pipelined prefill, and the frames the plain loop would send: the
    ideal WORK and RESULT of every (hop, chunk). */
module PrefillFrames {
  import opened TokenHash
  import opened Inference
  import opened WorkerSession

  datatype Option<+T> = None | Some(value: T)

  /** A WORK frame on the wire; `hidden` is what the receiver will decode. */
  datatype Work = Work(id: nat, prefixHash: Hash, resultHash: Hash, pos: nat, tokens: seq<Token>,
                       first: nat, last: nat, outputLogits: bool, reset: bool, ackOnly: bool,
                       routeIndex: nat, hidden: Hidden)

  datatype Payload = Ack | HiddenState(hidden: Hidden, n: nat) | Final(logits: Logits)

  datatype Telemetry = Telemetry(first: nat, last: nat, routeIndex: nat, pos: nat, n: nat)

  datatype Result = Result(id: nat, hash: Hash, ok: bool, payload: Payload, telemetry: seq<Telemetry>)

  /** A send slot of the coordinator's ring. */
  datatype Slot = Slot(pos: nat, n: nat, id: nat, prefixHash: Hash, resultHash: Hash,
                       reset: bool, ackOnly: bool, hidden: Hidden)

  /** One entry of a forwarder's FIFO of unanswered requests. */
  datatype Pending = Pending(id: nat, telemetry: Telemetry)

  function ErrorReply(id: nat): Result {
    Result(id, 0, false, Ack, [])
  }

  function SpanOf(w: Work): Span {
    Span(w.tokens, w.pos, w.prefixHash, w.resultHash, w.reset)
  }

  function TelemetryOf(w: Work): Telemetry {
    Telemetry(w.first, w.last, w.routeIndex, w.pos, |w.tokens|)
  }

  /** Constants of one pipelined run. `initial` is every machine's state at the start. */
  datatype Config = Config(job: Job, localKv: seq<Kv>, workers: seq<Session>,
                           slotCount: nat, window: nat, depth: nat, pendingDepth: nat,
                           wireCap: nat, ctx: nat)
  {
    function N(): nat
      requires job.cap > 0 && job.start <= job.end
    {
      job.Count()
    }

    function H(): nat { |workers| }

    function Init(): seq<seq<Kv>> {
      [localKv] + seq(|workers|, h requires 0 <= h < |workers| => workers[h].kv)
    }

    ghost predicate Valid() {
      && job.Valid()
      && |workers| >= 1 && |job.nodes| == |workers| + 1
      && Fits(job, Init())
      && slotCount >= 1 && window >= 1 && depth >= 1 && wireCap >= 1
    }
  }

  // --- The plain loop's frames ---

  function PrefixHashOf(c: Config, i: nat): Hash
    requires c.job.Pos(i) <= |c.job.prompt|
  {
    Prefix(c.job.prompt[..c.job.Pos(i)])
  }

  function ResultHashOf(c: Config, i: nat): Hash
    requires c.job.End(i) <= |c.job.prompt|
  {
    Prefix(c.job.prompt[..c.job.End(i)])
  }

  predicate ResetOf(c: Config, i: nat) { c.job.reset && i == 0 }

  predicate AckOf(c: Config, i: nat) { c.job.ackOnly && c.job.Pos(i) + c.job.cap < c.job.end }

  function IdealSlot(c: Config, i: nat): Slot
    requires c.Valid() && i < c.N()
  {
    ChunkShape(c.job, i);
    Slot(c.job.Pos(i), c.job.End(i) - c.job.Pos(i), c.job.firstId + i, PrefixHashOf(c, i), ResultHashOf(c, i),
         ResetOf(c, i), AckOf(c, i), OutOf(c.job, c.Init(), 0, i))
  }

  function IdealWork(c: Config, h: nat, i: nat): Work
    requires c.Valid() && i < c.N() && h < c.H()
  {
    ChunkShape(c.job, i);
    var node := c.job.nodes[h + 1];
    Work(c.job.firstId + i, PrefixHashOf(c, i), ResultHashOf(c, i), c.job.Pos(i), c.job.Chunk(i),
         node.first, node.last, node.outputLogits, ResetOf(c, i), AckOf(c, i),
         h, InTo(c.job, c.Init(), h + 1, i))
  }

  function IdealPayload(c: Config, i: nat): Payload
    requires c.Valid() && i < c.N()
  {
    ChunkShape(c.job, i);
    var out := OutOf(c.job, c.Init(), c.H(), i);
    var n := c.job.End(i) - c.job.Pos(i);
    if AckOf(c, i) then Ack
    else if c.job.LogitsAtLast() then Final(c.job.engine.head(out, n))
    else HiddenState(c.job.engine.wire(out), n)
  }

  function IdealTelemetry(c: Config, h: nat, i: nat): Telemetry
    requires c.Valid() && i < c.N() && h < c.H()
  {
    ChunkShape(c.job, i);
    Telemetry(c.job.nodes[h + 1].first, c.job.nodes[h + 1].last, h, c.job.Pos(i), c.job.End(i) - c.job.Pos(i))
  }

  /** Telemetry as it has accumulated when hop `h` answers upstream. */
  function Telemetries(c: Config, h: nat, i: nat): (t: seq<Telemetry>)
    requires c.Valid() && i < c.N() && h < c.H()
    ensures |t| == c.H() - h
    ensures forall k :: 0 <= k < |t| ==> t[k] == IdealTelemetry(c, c.H() - 1 - k, i)
    decreases c.H() - h
  {
    if h + 1 == c.H() then [IdealTelemetry(c, h, i)]
    else Telemetries(c, h + 1, i) + [IdealTelemetry(c, h, i)]
  }

  function IdealResult(c: Config, h: nat, i: nat): Result
    requires c.Valid() && i < c.N() && h < c.H()
  {
    ChunkShape(c.job, i);
    Result(c.job.firstId + i, ResultHashOf(c, i), true, IdealPayload(c, i), Telemetries(c, h, i))
  }

  // --- Slices of the ideal streams: chunks a, a+1, ..., b-1 ---

  function Works(c: Config, h: nat, a: nat, b: nat): (r: seq<Work>)
    requires c.Valid() && h < c.H() && a <= b <= c.N()
    ensures |r| == b - a
  {
    seq(b - a, k requires 0 <= k < b - a => IdealWork(c, h, a + k))
  }

  function Results(c: Config, h: nat, a: nat, b: nat): (r: seq<Result>)
    requires c.Valid() && h < c.H() && a <= b <= c.N()
    ensures |r| == b - a
  {
    seq(b - a, k requires 0 <= k < b - a => IdealResult(c, h, a + k))
  }

  function Pendings(c: Config, h: nat, a: nat, b: nat): (r: seq<Pending>)
    requires c.Valid() && h < c.H() && a <= b <= c.N()
    ensures |r| == b - a
  {
    seq(b - a, k requires 0 <= k < b - a => Pending(c.job.firstId + (a + k), IdealTelemetry(c, h, a + k)))
  }

  /** Each chunk's prefix hash is the previous chunk's result hash, and both are the
      hash of the prompt itself. */
  lemma HashChain(c: Config, i: nat)
    requires c.Valid() && i < c.N()
    ensures c.job.start <= c.job.Pos(i) < c.job.End(i) <= c.job.end
    ensures Continue(PrefixHashOf(c, i), c.job.Chunk(i)) == ResultHashOf(c, i)
    ensures i + 1 < c.N() ==> c.job.Pos(i + 1) <= |c.job.prompt| && PrefixHashOf(c, i + 1) == ResultHashOf(c, i)
  {
    ChunkShape(c.job, i);
    var p := c.job.prompt;
    assert p[..c.job.End(i)] == p[..c.job.Pos(i)] + c.job.Chunk(i);
    ContinueConcat(INIT, p[..c.job.Pos(i)], c.job.Chunk(i));
  }

  lemma NextExpectedHash(c: Config, i: nat, h: Hash)
    requires c.Valid() && i < c.N() && Front(c.job, i) <= |c.job.prompt|
    requires h == Prefix(c.job.prompt[..Front(c.job, i)])
    ensures Front(c.job, i) == c.job.Pos(i) && Front(c.job, i + 1) == c.job.End(i) <= |c.job.prompt|
    ensures c.job.Pos(i) < c.job.End(i)
    ensures Continue(h, c.job.Chunk(i)) == ResultHashOf(c, i)
  {
    FrontAdvances(c.job, i);
    HashChain(c, i);
  }

  /** The hash table the coordinator fills before it starts the reader thread. */
  method ExpectedHashes(c: Config) returns (hashes: seq<Hash>)
    requires c.Valid()
    ensures |hashes| == c.N()
    ensures forall i :: 0 <= i < c.N() ==> c.job.End(i) <= |c.job.prompt| && hashes[i] == ResultHashOf(c, i)
  {
    hide Prefix, Continue, Front;
    hashes := [];
    var hashPos := c.job.start;
    FrontAdvances(c.job, 0);
    CountBounds(c.job, 0);
    var h := UpdateSpan(INIT, c.job.prompt[..hashPos]);
    assert h == Prefix(c.job.prompt[..hashPos]) by { PrefixIsContinue(c.job.prompt[..hashPos]); }
    for i := 0 to c.N()
      invariant |hashes| == i && hashPos == Front(c.job, i) <= |c.job.prompt|
      invariant h == Prefix(c.job.prompt[..hashPos])
      invariant forall k :: 0 <= k < i ==> c.job.End(k) <= |c.job.prompt| && hashes[k] == ResultHashOf(c, k)
    {
      NextExpectedHash(c, i, h);
      var remaining := c.job.end - hashPos;
      var chunk := if remaining < c.job.cap then remaining else c.job.cap;
      h := UpdateSpan(h, c.job.prompt[hashPos..hashPos + chunk]);
      hashes := hashes + [h];
      hashPos := hashPos + chunk;
    }
  }

  lemma PrefixIsContinue(t: seq<Token>)
    ensures Prefix(t) == Continue(INIT, t)
  {
  }
}
