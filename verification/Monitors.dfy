/** The lock-protected queues of the runtime, one method per lock-held block. A wait on
    a condition variable is the method's precondition: the state in which the waiting
    loop falls through. */
module Monitors {
  import Bits
  import opened Permutations
  import opened LinkedFifo
  import opened PrefillFrames

  // --- The coordinator's ring of send slots ---

  datatype Ring = Ring(slots: seq<Slot>, head: nat, tail: nat, queued: nat)
  {
    ghost predicate Valid() {
      && |slots| >= 1
      && head < |slots| && tail < |slots| && queued <= |slots|
      && tail == (head + queued) % |slots|
    }

    /** Index of the `q`-th queued slot. */
    function At(q: nat): (r: nat)
      requires |slots| >= 1
      ensures r < |slots|
    {
      (head + q) % |slots|
    }

    /** Slots handed to the sender and not yet released, oldest first. */
    function Queue(): seq<Slot>
      requires |slots| >= 1
    {
      seq(queued, q requires 0 <= q < queued => slots[At(q)])
    }

    function Fill(s: Slot): Ring
      requires tail < |slots|
    {
      this.(slots := slots[tail := s])
    }

    function Publish(): Ring
      requires |slots| >= 1
    {
      this.(tail := (tail + 1) % |slots|, queued := queued + 1)
    }

    function Release(): Ring
      requires |slots| >= 1 && queued >= 1
    {
      this.(head := (head + 1) % |slots|, queued := queued - 1)
    }
  }

  lemma NextIndex(head: nat, q: nat, n: nat)
    requires n >= 1
    ensures ((head + 1) % n + q) % n == (head + q + 1) % n
    ensures ((head + q) % n + 1) % n == (head + q + 1) % n
  {
    ModAbsorbs(head + 1, q, n);
    ModAbsorbs(head + q, 1, n);
  }

  lemma ModAbsorbs(a: nat, b: nat, n: nat)
    requires n >= 1
    ensures (a % n + b) % n == (a + b) % n
  {
    var k, r, s := a / n, a % n, (a % n + b) % n;
    var k' := (r + b) / n;
    assert a + b == n * (k + k') + s by {
      assert r + b == n * k' + s;
      assert n * (k + k') == n * k + n * k';
    }
    Bits.DivideExact(a + b, n, k + k', s);
  }

  lemma DistinctWithin(head: nat, p: nat, q: nat, n: nat)
    requires n >= 1 && p < q < p + n
    ensures (head + p) % n != (head + q) % n
  {
    var a, b := head + p, head + q;
    if a % n == b % n {
      assert n * (b / n - a / n) == b - a by {
        assert n * (b / n) == b - b % n && n * (a / n) == a - a % n;
        assert n * (b / n - a / n) == n * (b / n) - n * (a / n);
      }
      Bits.NoMultipleBelow(n, b / n - a / n);
    }
  }

  /** Ring safety: the slot being filled is none of the queued ones, so filling it
      changes nothing the sender may read. */
  lemma FillTouchesNoQueuedSlot(r: Ring, s: Slot)
    requires r.Valid() && r.queued < |r.slots|
    ensures forall q :: 0 <= q < r.queued ==> r.At(q) != r.tail
    ensures r.Fill(s).Valid() && r.Fill(s).Queue() == r.Queue()
  {
    forall q | 0 <= q < r.queued ensures r.At(q) != r.tail {
      DistinctWithin(r.head, q, r.queued, |r.slots|);
    }
  }

  /** A filled slot that is published becomes the newest queued one. */
  lemma PublishAppends(r: Ring)
    requires r.Valid() && r.queued < |r.slots|
    ensures r.Publish().Valid()
    ensures r.Publish().Queue() == r.Queue() + [r.slots[r.tail]]
  {
    NextIndex(r.head, r.queued, |r.slots|);
  }

  lemma ReleaseShiftsIndices(r: Ring, q: nat)
    requires r.Valid() && q + 1 <= r.queued
    ensures ((r.head + 1) % |r.slots| + q) % |r.slots| == r.At(q + 1)
    ensures r.At(0) == r.head
  {
    NextIndex(r.head, q, |r.slots|);
    Bits.DivideExact(r.head, |r.slots|, 0, r.head);
  }

  /** Slots leave in the order they were acquired. */
  lemma ReleaseDropsOldest(r: Ring)
    requires r.Valid() && r.queued >= 1
    ensures r.Queue()[0] == r.slots[r.head]
    ensures r.Release().Valid()
    ensures r.Release().Queue() == r.Queue()[1..]
  {
    ReleaseShiftsIndices(r, r.queued - 1);
    forall q | 0 <= q < r.queued - 1
      ensures r.Release().Queue()[q] == r.Queue()[q + 1]
    {
      ReleaseShiftsIndices(r, q);
    }
  }

  class PrefillSender {
    const slots: array<Slot>
    var head: nat
    var tail: nat
    var queued: nat
    var producerDone: bool
    var stop: bool
    var rc: nat

    ghost predicate Valid()
      reads this, slots
    {
      Abs().Valid()
    }

    ghost function Abs(): Ring
      reads this, slots
    {
      Ring(slots[..], head, tail, queued)
    }

    constructor (depth: nat, empty: Slot)
      requires depth >= 1
      ensures Valid() && fresh(slots) && slots.Length == depth
      ensures Abs().Queue() == [] && !stop && !producerDone && rc == 0
    {
      slots := new Slot[depth](_ => empty);
      head, tail, queued := 0, 0, 0;
      producerDone, stop, rc := false, false, 0;
    }

    /** dist_prefill_sender_acquire_slot, once its wait is over: the slot handed out is in
        the array and none of those the sender may be reading. */
    method AcquireSlot() returns (slot: Option<nat>)
      requires Valid()
      requires stop || queued < slots.Length
      ensures slot.None? <==> stop || rc != 0
      ensures slot.Some? ==> slot.value == tail < slots.Length && queued < slots.Length
      ensures slot.Some? ==> forall q :: 0 <= q < queued ==> Abs().At(q) != slot.value
    {
      if stop || rc != 0 { return None; }
      FillTouchesNoQueuedSlot(Abs(), slots[tail]);
      slot := Some(tail);
    }

    /** The producer writes the acquired slot without holding the lock. */
    method FillSlot(slot: nat, s: Slot)
      requires Valid() && slot == tail && queued < slots.Length
      modifies slots
      ensures Valid() && Abs() == old(Abs()).Fill(s)
      ensures Abs().Queue() == old(Abs().Queue())
    {
      FillTouchesNoQueuedSlot(Abs(), s);
      slots[slot] := s;
    }

    /** dist_prefill_sender_enqueue_slot. */
    method EnqueueSlot() returns (ok: bool)
      requires Valid() && queued < slots.Length
      modifies this
      ensures Valid() && stop == old(stop) && rc == old(rc) && producerDone == old(producerDone)
      ensures ok == (!stop && rc == 0)
      ensures Abs() == if ok then old(Abs()).Publish() else old(Abs())
      ensures ok ==> Abs().Queue() == old(Abs().Queue()) + [slots[old(tail)]]
    {
      ok := !stop && rc == 0;
      if ok {
        PublishAppends(Abs());
        tail := (tail + 1) % slots.Length;
        queued := queued + 1;
      }
    }

    /** Lower half of dist_prefill_sender_main: release the slot that was sent. */
    method ReleaseSlot()
      requires Valid() && queued >= 1
      modifies this
      ensures Valid() && stop == old(stop) && rc == old(rc) && producerDone == old(producerDone)
      ensures Abs() == old(Abs()).Release()
      ensures Abs().Queue() == old(Abs().Queue())[1..]
    {
      ReleaseDropsOldest(Abs());
      head := (head + 1) % slots.Length;
      queued := queued - 1;
    }
  }

  // --- A worker's bounded queue of received jobs ---

  class JobQueue {
    const list: Fifo<Work>
    const depth: nat
    var closed: bool
    var canceled: bool

    ghost predicate Valid()
      reads list, list.nodes
    {
      list.Valid()
    }

    constructor (depth: nat)
      ensures Valid() && fresh(list) && list.contents == [] && this.depth == depth && !closed && !canceled
    {
      list := new Fifo<Work>();
      this.depth, closed, canceled := depth, false, false;
    }

    /** The wait is over when there is room, or the queue no longer accepts work. */
    method Enqueue(job: Work) returns (ok: bool)
      requires Valid() && (closed || canceled || list.count < depth)
      modifies list, list.nodes
      ensures Valid() && ok == !(closed || canceled)
      ensures list.contents == if ok then old(list.contents) + [job] else old(list.contents)
      ensures |old(list.contents)| <= depth ==> |list.contents| <= depth
      ensures forall n :: n in list.nodes ==> n in old(list.nodes) || fresh(n)
    {
      if closed || canceled { return false; }
      list.Append(job);
      ok := true;
    }

    method Pop() returns (job: Option<Work>)
      requires Valid() && (list.head != null || closed || canceled)
      modifies list
      ensures Valid() && (job.None? <==> canceled || old(list.contents) == [])
      ensures job.Some? ==> old(list.contents) == [job.value] + list.contents
      ensures job.None? ==> list.contents == old(list.contents)
      ensures forall n :: n in list.nodes ==> n in old(list.nodes)
    {
      if canceled || list.head == null { return None; }
      var value := list.TakeHead();
      job := Some(value);
    }
  }

  // --- A forwarder's FIFO of requests waiting for the next worker's RESULT ---

  /** `p` without its first entry for `id`. */
  function Unlinked(p: seq<Pending>, id: nat): seq<Pending> {
    if p == [] then []
    else if p[0].id == id then p[1..]
    else [p[0]] + Unlinked(p[1..], id)
  }

  lemma {:induction false} UnlinkedFirst(p: seq<Pending>, id: nat, k: nat)
    requires k < |p| && p[k].id == id
    requires forall i :: 0 <= i < k ==> p[i].id != id
    ensures Unlinked(p, id) == Without(p, k)
  {
    if k > 0 {
      UnlinkedFirst(p[1..], id, k - 1);
      assert Without(p, k) == [p[0]] + Without(p[1..], k - 1);
    }
  }

  lemma {:induction false} UnlinkedAbsent(p: seq<Pending>, id: nat)
    requires forall i :: 0 <= i < |p| ==> p[i].id != id
    ensures Unlinked(p, id) == p
  {
    if p != [] {
      UnlinkedAbsent(p[1..], id);
      assert p == [p[0]] + p[1..];
    }
  }

  class Forwarder {
    const pending: Fifo<Pending>
    const depth: nat
    var closing: bool

    ghost predicate Valid()
      reads pending, pending.nodes
    {
      pending.Valid()
    }

    constructor (depth: nat)
      ensures Valid() && fresh(pending) && pending.contents == [] && this.depth == depth && !closing
    {
      pending := new Fifo<Pending>();
      this.depth, closing := depth, false;
    }

    /** A depth of zero means unbounded. */
    method EnqueueRequest(id: nat, telemetry: Telemetry) returns (ok: bool)
      requires Valid() && (closing || depth == 0 || pending.count < depth)
      modifies pending, pending.nodes
      ensures Valid() && ok == !closing
      ensures pending.contents == if ok then old(pending.contents) + [Pending(id, telemetry)] else old(pending.contents)
      ensures depth > 0 && |old(pending.contents)| <= depth ==> |pending.contents| <= depth
      ensures forall n :: n in pending.nodes ==> n in old(pending.nodes) || fresh(n)
    {
      if closing { return false; }
      pending.Append(Pending(id, telemetry));
      ok := true;
    }

    method PopRequest() returns (p: Option<Pending>)
      requires Valid()
      modifies pending
      ensures Valid() && (p.None? <==> old(pending.contents) == [])
      ensures p.Some? ==> old(pending.contents) == [p.value] + pending.contents
      ensures p.None? ==> pending.contents == []
      ensures forall n :: n in pending.nodes ==> n in old(pending.nodes)
    {
      if pending.head == null { return None; }
      var value := pending.TakeHead();
      p := Some(value);
    }

    /** Unlinks the first request with this id, wherever it stands in the list. */
    method RemoveRequest(id: nat) returns (found: bool)
      requires Valid()
      modifies pending, pending.nodes
      ensures Valid() && pending.contents == Unlinked(old(pending.contents), id)
      ensures found <==> exists i :: 0 <= i < |old(pending.contents)| && old(pending.contents)[i].id == id
      ensures forall n :: n in pending.nodes ==> n in old(pending.nodes)
    {
      ghost var was := pending.contents;
      ghost var at;
      found, at := pending.RemoveFirst((p: Pending) => p.id == id);
      if found { UnlinkedFirst(was, id, at); } else { UnlinkedAbsent(was, id); }
    }

    method CloseQueue()
      requires Valid()
      modifies this`closing
      ensures Valid() && closing && pending.contents == old(pending.contents)
    {
      closing := true;
    }
  }
}
