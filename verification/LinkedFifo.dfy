/** The singly linked FIFO of the runtime: a head, a tail and a count, edited in place. The
    worker's job queue and a forwarder's pending requests are both such lists. */
module LinkedFifo {
  import opened Permutations

  ghost predicate Distinct<T>(s: seq<T>) {
    forall i, j :: 0 <= i < j < |s| ==> s[i] != s[j]
  }

  lemma DistinctWithout<T>(s: seq<T>, at: nat)
    requires Distinct(s) && at < |s|
    ensures Distinct(Without(s, at))
  {
  }

  lemma OnlyAt<T>(s: seq<T>, k: nat)
    requires Distinct(s) && k < |s|
    ensures forall i :: 0 <= i < |s| && i != k ==> s[i] != s[k]
  {
  }

  class Node<T> {
    var value: T
    var next: Node?<T>

    constructor (value: T)
      ensures this.value == value && next == null
    {
      this.value, next := value, null;
    }
  }

  class Fifo<T> {
    var head: Node?<T>
    var tail: Node?<T>
    var count: nat
    ghost var nodes: seq<Node<T>>
    ghost var contents: seq<T>

    /** The node at position `i`, or the null behind the last one. */
    ghost function NodeAt(i: nat): Node?<T>
      reads this
    {
      if i < |nodes| then nodes[i] else null
    }

    /** The node at position `i` points to the one behind it. */
    ghost predicate Linked(i: nat)
      requires i < |nodes|
      reads this, nodes
    {
      nodes[i].next == NodeAt(i + 1)
    }

    ghost predicate Valid()
      reads this, nodes
    {
      && count == |nodes| == |contents|
      && Distinct(nodes)
      && (forall i :: 0 <= i < |nodes| ==> nodes[i].value == contents[i])
      && (forall i :: 0 <= i < |nodes| ==> Linked(i))
      && head == NodeAt(0)
      && tail == if nodes == [] then null else nodes[|nodes| - 1]
    }

    constructor ()
      ensures Valid() && contents == [] && nodes == []
    {
      head, tail, count := null, null, 0;
      nodes, contents := [], [];
    }

    /** Links a new node behind the tail, or makes it the head of an empty list. */
    method Append(value: T)
      requires Valid()
      modifies this, nodes
      ensures Valid() && contents == old(contents) + [value]
      ensures forall n :: n in nodes ==> n in old(nodes) || fresh(n)
    {
      var node := new Node(value);
      if tail != null {
        tail.next := node;
      } else {
        head := node;
      }
      tail := node;
      count := count + 1;
      nodes, contents := nodes + [node], contents + [value];
      forall i | 0 <= i < |nodes| ensures Linked(i) {
        if i + 1 < |nodes| { assert old(Linked(i)); }
      }
    }

    /** Unlinks the head; the tail is reset when the list becomes empty. */
    method TakeHead() returns (value: T)
      requires Valid() && contents != []
      modifies this
      ensures Valid() && old(contents) == [value] + contents
      ensures forall n :: n in nodes ==> n in old(nodes)
    {
      var node := head;
      assert node == nodes[0] && Linked(0);
      value := node.value;
      head := node.next;
      if head == null { tail := null; }
      if count != 0 { count := count - 1; }
      nodes, contents := nodes[1..], contents[1..];
      forall i | 0 <= i < |nodes| ensures Linked(i) { assert old(Linked(i + 1)); }
    }

    /** Rewrites the link from `prev` to `node`, and the tail if `node` was the last. */
    method UnlinkAfter(prev: Node<T>, node: Node<T>, ghost at: nat)
      requires Valid() && 0 < at < |nodes| && node == nodes[at] && prev == nodes[at - 1]
      modifies this, prev
      ensures Valid() && nodes == Without(old(nodes), at) && contents == Without(old(contents), at)
    {
      WithoutAt(nodes, at);
      WithoutAt(contents, at);
      hide Without;
      DistinctWithout(nodes, at);
      hide Distinct;
      ghost var was := nodes;
      assert forall i :: 0 <= i < |was| && i + 1 != at ==> was[i] != prev by { OnlyAt(was, at - 1); }
      prev.next := node.next;
      if tail == node { tail := prev; }
      if count != 0 { count := count - 1; }
      nodes, contents := Without(nodes, at), Without(contents, at);
      forall i | 0 <= i < |nodes| ensures Linked(i) {
        assert old(Linked(if i + 1 < at then i else i + 1));
        if i + 1 == at { assert nodes[i] == prev; } else { assert nodes[i] == was[if i < at then i else i + 1]; }
      }
    }

    /** Walks the list and unlinks the first node whose value matches; while `prev` is null
        the link to rewrite is the head itself. */
    method RemoveFirst(matches: T -> bool) returns (found: bool, ghost at: nat)
      requires Valid()
      modifies this, nodes
      ensures Valid()
      ensures found <==> exists i :: 0 <= i < |old(contents)| && matches(old(contents)[i])
      ensures found ==> at < |old(contents)| && matches(old(contents)[at])
                        && (forall i :: 0 <= i < at ==> !matches(old(contents)[i]))
                        && contents == Without(old(contents), at)
      ensures !found ==> contents == old(contents)
      ensures forall n :: n in nodes ==> n in old(nodes)
    {
      var prev: Node?<T> := null;
      var node := head;
      at := 0;
      while node != null
        invariant Valid() && nodes == old(nodes) && contents == old(contents)
        invariant at <= |nodes| && node == NodeAt(at)
        invariant prev == if at == 0 then null else nodes[at - 1]
        invariant forall i :: 0 <= i < at ==> !matches(contents[i])
        decreases |nodes| - at
      {
        if matches(node.value) {
          if prev == null {
            var _ := TakeHead();
          } else {
            UnlinkAfter(prev, node, at);
          }
          return true, at;
        }
        assert Linked(at);
        prev := node;
        node := node.next;
        at := at + 1;
      }
      found := false;
    }
  }
}
