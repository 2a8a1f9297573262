/** The result reader thread as the loop it is, against what its socket delivers. */
module PrefillReader {
  import opened TokenHash
  import opened Inference
  import opened PrefillFrames
  import opened PrefillMachine

  const TRANSPORT: nat := 1
  const REMOTE: nat := 2

  datatype Outcome = Outcome(rc: nat, completed: nat, final: Option<Payload>)

  /** The hashes the reader compares with, as `ExpectedHashes` computes them. */
  ghost predicate Expected(c: Config, hashes: seq<Hash>)
    requires c.Valid()
  {
    && |hashes| == c.N()
    && forall i :: 0 <= i < c.N() ==> c.job.End(i) <= |c.job.prompt| && hashes[i] == ResultHashOf(c, i)
  }

  /** dist_prefill_result_reader_main: `frames` is what arrives before the connection breaks.
      It completes the run exactly when the first N frames are the acceptable answers to
      first_id, first_id + 1, ... in this order, and otherwise stops at the first that is
      not, telling a remote error from everything else. */
  method ReadResults(c: Config, hashes: seq<Hash>, frames: seq<Result>) returns (o: Outcome)
    requires c.Valid() && Expected(c, hashes)
    ensures o.completed <= c.N() && o.completed <= |frames|
    ensures forall i: nat :: i < o.completed ==> Acceptable(c, i, frames[i])
    ensures o.rc == 0 <==> o.completed == c.N()
    ensures o.completed < c.N() ==> o.completed == |frames| || !Acceptable(c, o.completed, frames[o.completed])
    ensures o.rc == REMOTE <==> o.completed < c.N() && o.completed < |frames|
                                && frames[o.completed].id == c.job.firstId + o.completed && !frames[o.completed].ok
    ensures o.rc == 0 && c.N() > 0 ==> o.final == Some(frames[c.N() - 1].payload)
    ensures o.rc != 0 ==> o.rc == TRANSPORT || o.rc == REMOTE
  {
    hide ResultHashOf, Job.Count;
    var final: Option<Payload> := None;
    var count := c.N();
    for i := 0 to count
      invariant i <= |frames| && forall k: nat :: k < i ==> Acceptable(c, k, frames[k])
      invariant i == count > 0 ==> final == Some(frames[count - 1].payload)
    {
      ChunkShape(c.job, i);
      if i >= |frames| { return Outcome(TRANSPORT, i, None); }
      var frame := frames[i];
      if frame.id != c.job.firstId + i { return Outcome(TRANSPORT, i, None); }
      if !frame.ok { return Outcome(REMOTE, i, None); }
      if frame.hash != hashes[i] { return Outcome(TRANSPORT, i, None); }
      var chunk := c.job.End(i) - c.job.Pos(i);
      var finalChunk := i + 1 == count;
      var validAck := !finalChunk && frame.payload.Ack?;
      var validLogits := frame.payload.Final?;
      var validHidden := !c.job.LogitsAtLast() && frame.payload.HiddenState? && frame.payload.n == chunk;
      if !validAck && !validLogits && !validHidden { return Outcome(TRANSPORT, i, None); }
      if finalChunk { final := Some(frame.payload); }
    }
    o := Outcome(0, count, final);
  }
}
