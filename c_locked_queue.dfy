/** core/src/details/locked_queue.c: a mutex-guarded singly linked FIFO of
    caller-owned nodes, with a node handler that clear hands every node to.
    One thread at a time is modelled, so the mutex is left out. */
module CLockedQueue {
  import opened Common

  /** connector_locked_queue_node_t: the link and an opaque payload. */
  class QNode {
    var next: QNode?
    var contents: nat

    constructor(contents: nat)
      ensures this.contents == contents && next == null
    {
      this.contents := contents;
      next := null;
    }
  }

  /** The node handler: the built-in dummy_handler or a caller's function. */
  datatype Handler = DummyHandler | Custom(address: nat)

  /** No node appears twice. */
  ghost predicate Distinct(ns: seq<QNode>) {
    forall i, j :: 0 <= i < j < |ns| ==> ns[i] != ns[j]
  }

  /** Dropping the first node keeps the rest distinct. */
  lemma DistinctTail(ns: seq<QNode>)
    requires Distinct(ns) && ns != []
    ensures Distinct(ns[1..])
  {
    var t := ns[1..];
    forall i, j | 0 <= i < j < |t|
      ensures t[i] != t[j]
    {
      assert t[i] == ns[i + 1] && t[j] == ns[j + 1];
    }
  }

  /** Starting at `f`, the links spell out `ns` and end in NULL. */
  ghost predicate LinkedFrom(f: QNode?, ns: seq<QNode>)
    reads ns
    decreases |ns|
  {
    if ns == [] then f == null else f == ns[0] && LinkedFrom(ns[0].next, ns[1..])
  }

  /** A linked sequence, link by link: it starts at `f`, each node links to
      the next and the last links to NULL. */
  lemma {:induction false} LinksOf(f: QNode?, ns: seq<QNode>)
    requires LinkedFrom(f, ns) && ns != []
    ensures f == ns[0] && ns[|ns| - 1].next == null
    ensures forall k :: 0 <= k < |ns| - 1 ==> ns[k].next == ns[k + 1]
    decreases |ns|
  {
    if |ns| > 1 {
      LinksOf(ns[0].next, ns[1..]);
      forall k | 0 < k < |ns| - 1
        ensures ns[k].next == ns[k + 1]
      {
        assert ns[k] == ns[1..][k - 1] && ns[k + 1] == ns[1..][k];
      }
    }
  }

  /** The converse: links from each node to the next and from the last to
      NULL make a linked sequence. */
  lemma {:induction false} FromLinks(ns: seq<QNode>)
    requires ns != [] && ns[|ns| - 1].next == null
    requires forall k :: 0 <= k < |ns| - 1 ==> ns[k].next == ns[k + 1]
    ensures LinkedFrom(ns[0], ns)
    decreases |ns|
  {
    if |ns| > 1 {
      var t := ns[1..];
      forall k | 0 <= k < |t| - 1
        ensures t[k].next == t[k + 1]
      {
        assert t[k] == ns[k + 1] && t[k + 1] == ns[k + 2];
      }
      FromLinks(t);
    }
  }

  /** Moving the first node of the rest to the handed-over part. */
  lemma ShiftFront(handed: seq<QNode>, rest: seq<QNode>)
    requires rest != []
    ensures handed + rest == (handed + [rest[0]]) + rest[1..]
  {
    assert rest == [rest[0]] + rest[1..];
  }

  /** connector_locked_queue_t. `nodes` lists the queued nodes front to back. */
  class LockedQueue {
    var front: QNode?
    var end: QNode?
    var handler: Handler
    ghost var nodes: seq<QNode>

    /** `front` and the `next` links spell out `nodes`, ending in NULL. */
    ghost predicate Linked()
      reads this, nodes
    {
      LinkedFrom(front, nodes)
    }

    /** What enqueue and dequeue rely on: no node is queued twice, and a
        non-empty queue's `end` is its last node. An empty queue's `end` may
        be left over. */
    ghost predicate Usable()
      reads this, nodes
    {
      Linked() && Distinct(nodes) && (nodes != [] ==> end == nodes[|nodes| - 1])
    }

    /** The queue as init leaves it and as enqueue and dequeue keep it: an
        empty queue has no `end` either. */
    ghost predicate Valid()
      reads this, nodes
    {
      Usable() && (nodes == [] ==> end == null)
    }

    /** The struct's storage, before init. */
    constructor()
      ensures Valid() && nodes == []
    {
      front, end, handler := null, null, DummyHandler;
      nodes := [];
    }

    /** connector_locked_queue_init: empties the queue and installs the
        handler, or dummy_handler when it is NULL. */
    method Init(h: FnPtr)
      modifies this
      ensures Valid() && nodes == []
      ensures handler == (if h.NullFn? then DummyHandler else Custom(h.address))
    {
      front := null;
      end := null;
      nodes := [];
      if h.NullFn? {
        handler := DummyHandler;
      } else {
        handler := Custom(h.address);
      }
    }

    /** connector_locked_queue_clear: hands the nodes to the handler front to
        back (the returned sequence) and empties the queue, but `end` keeps
        pointing at the last node handed over. */
    method Clear() returns (handed: seq<QNode>)
      requires Linked()
      modifies this
      ensures handed == old(nodes) && nodes == [] && front == null
      ensures end == old(end) && handler == old(handler)
      ensures Usable()
    {
      handed := [];
      while front != null
        invariant Linked()
        invariant old(nodes) == handed + nodes
        invariant end == old(end) && handler == old(handler)
        decreases |nodes|
      {
        var first: QNode := front;
        assert first == nodes[0];
        ShiftFront(handed, nodes);
        front := first.next;
        nodes := nodes[1..];
        handed := handed + [first];
      }
    }

    /** Clear as evidently intended: `end` is reset as well, so the queue is
        valid and empty afterwards. */
    method ClearCorrected() returns (handed: seq<QNode>)
      requires Linked()
      modifies this
      ensures handed == old(nodes) && handler == old(handler)
      ensures Valid() && nodes == []
    {
      handed := Clear();
      end := null;
    }

    /** connector_locked_enqueue: appends the node. The old `end`'s link is set
        to the node even when that `end` was left over by clear. */
    method Enqueue(node: QNode)
      requires Usable() && node !in nodes
      modifies this, node, end
      ensures nodes == old(nodes) + [node] && end == node && handler == old(handler)
      ensures front == (if old(front) == null then node else old(front))
      ensures old(end) != null ==> old(end).next == node
      ensures old(end) != node ==> Valid()
      ensures node.contents == old(node.contents)
    {
      ghost var oldEnd := end;
      if nodes != [] {
        LinksOf(front, nodes);
      }
      node.next := null;
      var last := end;
      end := node;
      if front == null {
        front := end;
      }
      if last != null {
        last.next := node;
      }
      nodes := nodes + [node];
      if oldEnd != node {
        forall i | 0 <= i < |nodes| - 1
          ensures nodes[i].next == nodes[i + 1]
        {
          if i < |old(nodes)| - 1 {
            assert nodes[i] != node && nodes[i] != oldEnd;
          }
        }
        FromLinks(nodes);
      }
    }

    /** connector_locked_dequeue: the front node and its removal, or NULL with
        nothing changed for an empty queue; taking the last node resets `end`. */
    method Dequeue() returns (node: QNode?)
      requires Usable()
      modifies this
      ensures old(nodes) == [] ==> node == null && nodes == [] && front == old(front) && end == old(end)
      ensures old(nodes) != [] ==> node == old(nodes)[0] && nodes == old(nodes)[1..]
      ensures old(nodes) != [] && nodes == [] ==> end == null
      ensures handler == old(handler) && Usable()
      ensures old(Valid()) ==> Valid()
    {
      node := null;
      if front != null {
        node := front;
        DistinctTail(nodes);
        front := node.next;
        nodes := nodes[1..];
        assert nodes != [] ==> nodes[|nodes| - 1] == old(nodes)[|old(nodes)| - 1];
        assert LinkedFrom(front, nodes);
        if front == null {
          end := null;
        }
      }
    }
  }

  /** Clear followed by an enqueue of a node at the address of the one clear
      handed over (the handler freed it and the allocator gave it back): the
      node links to itself, and the queue never empties again. */
  method StaleEndAfterClear() returns (q: LockedQueue, a: QNode, handed: seq<QNode>)
    ensures handed == [a]
    ensures q.front == a && q.end == a && a.next == a
  {
    q := new LockedQueue();
    q.Init(NullFn);
    a := new QNode(1);
    q.Enqueue(a);
    handed := q.Clear();
    q.Enqueue(a);
  }

  /** The same calls with the corrected clear leave a one-node queue. */
  method FreshEndAfterClearCorrected() returns (q: LockedQueue, a: QNode, handed: seq<QNode>)
    ensures handed == [a]
    ensures q.Valid() && q.nodes == [a] && a.next == null
  {
    q := new LockedQueue();
    q.Init(NullFn);
    a := new QNode(1);
    q.Enqueue(a);
    handed := q.ClearCorrected();
    q.Enqueue(a);
    LinksOf(q.front, q.nodes);
  }
}
