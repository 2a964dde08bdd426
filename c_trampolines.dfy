/** core/src/details/callbacks.c: the singly linked list of trampoline
    functions through which the C core hands each received message to the
    language bindings.

    The list is a class whose ghost `nodes` are the nodes reachable from
    `front`, in order. connector_free is modelled by adding the node to the
    list's ghost `freed` set: a freed node is still there, but may not be
    used again. */
module CTrampolines {
  import opened Common

  /** connector_trampoline_node_t. */
  class Node {
    var trampoline: FnPtr
    var next: Node?

    constructor (trampoline: FnPtr, next: Node?)
      ensures this.trampoline == trampoline && this.next == next
    {
      this.trampoline := trampoline;
      this.next := next;
    }
  }

  /** One call `trampoline(context, type, message)`. */
  datatype Call = Call(trampoline: FnPtr, context: u32, messageType: Uuid, message: string)

  /** The trampolines with the first node holding t unlinked. */
  function RemoveFirst(s: seq<FnPtr>, t: FnPtr): (r: seq<FnPtr>)
  {
    if s == [] then []
    else if s[0] == t then s[1..]
    else [s[0]] + RemoveFirst(s[1..], t)
  }

  /** The index of the first t in s. */
  function FirstPosition(s: seq<FnPtr>, t: FnPtr): (k: nat)
    requires t in s
    ensures k < |s| && s[k] == t && t !in s[..k]
  {
    if s[0] == t then 0
    else
      assert s == [s[0]] + s[1..];
      var k := FirstPosition(s[1..], t);
      assert s[..k + 1] == [s[0]] + s[1..][..k];
      k + 1
  }

  /** An absent t changes nothing. */
  lemma {:induction false} RemoveFirstAbsent(s: seq<FnPtr>, t: FnPtr)
    requires t !in s
    ensures RemoveFirst(s, t) == s
  {
    if s != [] {
      assert s == [s[0]] + s[1..];
      RemoveFirstAbsent(s[1..], t);
    }
  }

  /** Removing the first occurrence of a present t takes out exactly that
      one element and keeps the others in their order. */
  lemma RemoveFirstPresent(s: seq<FnPtr>, t: FnPtr)
    requires t in s
    ensures RemoveFirst(s, t) == s[..FirstPosition(s, t)] + s[FirstPosition(s, t) + 1..]
    ensures |RemoveFirst(s, t)| == |s| - 1
    ensures multiset(RemoveFirst(s, t)) == multiset(s) - multiset{t}
  {
    var k := FirstPosition(s, t);
    RemoveAt(s, k, t);
    assert s == s[..k] + [s[k]] + s[k + 1..];
  }

  /** No node appears twice. */
  ghost predicate Distinct(ns: seq<Node>) {
    forall i, j :: 0 <= i < j < |ns| ==> ns[i] != ns[j]
  }

  /** Starting at `f`, the links spell out `ns` and end in NULL. */
  ghost predicate LinkedFrom(f: Node?, ns: seq<Node>)
    reads ns
    decreases |ns|
  {
    if ns == [] then f == null else f == ns[0] && LinkedFrom(ns[0].next, ns[1..])
  }

  /** A linked sequence, link by link. */
  lemma {:induction false} LinksOf(f: Node?, ns: seq<Node>)
    requires LinkedFrom(f, ns)
    ensures ns == [] <==> f == null
    ensures ns != [] ==> f == ns[0] && ns[|ns| - 1].next == null
    ensures forall k :: 0 <= k < |ns| - 1 ==> ns[k].next == ns[k + 1]
    decreases |ns|
  {
    if |ns| > 1 {
      LinksOf(ns[0].next, ns[1..]);
      forall k | 0 < k < |ns| - 1
        ensures ns[k].next == ns[k + 1]
      {
        assert ns[k] == ns[1..][k - 1] && ns[k + 1] == ns[1..][k];
      }
    }
  }

  /** The converse: links from each node to the next and from the last to
      NULL make a linked sequence. */
  lemma {:induction false} FromLinks(f: Node?, ns: seq<Node>)
    requires ns == [] <==> f == null
    requires ns != [] ==> f == ns[0] && ns[|ns| - 1].next == null
    requires forall k :: 0 <= k < |ns| - 1 ==> ns[k].next == ns[k + 1]
    ensures LinkedFrom(f, ns)
    decreases |ns|
  {
    if |ns| > 1 {
      var t := ns[1..];
      forall k | 0 <= k < |t| - 1
        ensures t[k].next == t[k + 1]
      {
        assert t[k] == ns[k + 1] && t[k + 1] == ns[k + 2];
      }
      FromLinks(t[0], t);
    }
  }

  /** Taking out position k of a sequence of distinct nodes: where the others
      land, and that they stay distinct and do not include the one taken out. */
  lemma RemovedAt(ns: seq<Node>, k: nat) returns (rest: seq<Node>)
    requires Distinct(ns) && k < |ns|
    ensures rest == ns[..k] + ns[k + 1..] && |rest| == |ns| - 1
    ensures forall i :: 0 <= i < |rest| ==> rest[i] == ns[if i < k then i else i + 1]
    ensures forall i :: 0 <= i < |rest| ==> rest[i] != ns[k]
    ensures Distinct(rest)
  {
    rest := ns[..k] + ns[k + 1..];
    forall i | 0 <= i < |rest|
      ensures rest[i] == ns[if i < k then i else i + 1]
    {
    }
  }

  /** connector_trampoline_list_t, the static `trampoline_list`. */
  class TrampolineList {
    var front: Node?
    ghost var nodes: seq<Node>
    ghost var freed: set<Node>
    ghost var contents: seq<FnPtr>

    /** `nodes` is the chain from `front` to NULL, without repeats, and
        `contents` lists their trampolines front to back. */
    ghost predicate Valid()
      reads this, nodes
    {
      LinkedFrom(front, nodes) && Distinct(nodes) && |contents| == |nodes| &&
      forall i :: 0 <= i < |nodes| ==> nodes[i].trampoline == contents[i]
    }

    /** Valid, and no node of the chain has been freed. */
    ghost predicate Usable()
      reads this, nodes
    {
      Valid() && forall i :: 0 <= i < |nodes| ==> nodes[i] !in freed
    }

    constructor ()
      ensures Usable() && contents == [] && freed == {}
    {
      front := null;
      nodes := [];
      freed := {};
      contents := [];
    }

    /** connector_init_trampoline_subsystem: forgets every node. */
    method InitSubsystem() returns (status: Status)
      modifies this
      ensures Usable() && contents == [] && status == Success
      ensures freed == old(freed)
    {
      front := null;
      nodes := [];
      contents := [];
      status := Success;
    }

    /** connector_shutdown_trampoline_subsystem: frees every node front to
      back, but leaves `front` pointing at the first freed node. */
    method ShutdownSubsystem() returns (status: Status)
      requires Usable()
      modifies this
      ensures Valid() && front == old(front) && nodes == old(nodes) && contents == old(contents)
      ensures freed == old(freed) + set i | 0 <= i < |nodes| :: nodes[i]
      ensures status == Success
    {
      LinksOf(front, nodes);
      var node := front;
      ghost var k := 0;
      ghost var start := freed;
      while node != null
        invariant 0 <= k <= |nodes| && nodes == old(nodes) && front == old(front)
        invariant contents == old(contents)
        invariant node == (if k < |nodes| then nodes[k] else null)
        invariant freed == start + set i | 0 <= i < k :: nodes[i]
        decreases |nodes| - k
      {
        var next := node.next;
        freed := freed + {node};
        node := next;
        k := k + 1;
        assert (set i | 0 <= i < k :: nodes[i]) == (set i | 0 <= i < k - 1 :: nodes[i]) + {nodes[k - 1]};
      }
      status := Success;
    }

    /** connector_notify_trampolines: calls every trampoline once with the
      message, front to back, and returns SUCCESS. */
    method NotifyTrampolines(context: u32, messageType: Uuid, message: string)
      returns (status: Status, calls: seq<Call>)
      requires Usable()
      ensures status == Success
      ensures |calls| == |contents|
      ensures forall i :: 0 <= i < |calls| ==>
        calls[i] == Call(contents[i], context, messageType, message)
    {
      calls := [];
      LinksOf(front, nodes);
      var node := front;
      ghost var k := 0;
      while node != null
        invariant 0 <= k <= |nodes|
        invariant node == (if k < |nodes| then nodes[k] else null)
        invariant |calls| == k
        invariant forall i :: 0 <= i < k ==>
          calls[i] == Call(nodes[i].trampoline, context, messageType, message)
        decreases |nodes| - k
      {
        calls := calls + [Call(node.trampoline, context, messageType, message)];
        node := node.next;
        k := k + 1;
      }
      status := Success;
    }

    /** connector_add_trampoline: NULL gives INVALID and no change; any
      other function is put in a new node at the front. */
    method AddTrampoline(trampoline: FnPtr) returns (status: Status)
      requires Usable()
      modifies this
      ensures Usable() && freed == old(freed)
      ensures trampoline == NullFn ==> status == Invalid && contents == old(contents)
      ensures trampoline != NullFn ==> status == Success && contents == [trampoline] + old(contents)
    {
      status := Invalid;
      if trampoline != NullFn {
        var node := new Node(trampoline, front);
        assert ([node] + nodes)[1..] == nodes;
        front := node;
        nodes := [node] + nodes;
        contents := [trampoline] + contents;
        status := Success;
      }
    }

    /** connector_remove_trampoline: unlinks and frees the first node that
      holds the function and returns SUCCESS; NULL, or a function the list
      does not hold, gives INVALID and no change. */
    method RemoveTrampoline(trampoline: FnPtr) returns (status: Status)
      requires Usable()
      modifies this, nodes
      ensures Usable()
      ensures status == Success <==> trampoline != NullFn && trampoline in old(contents)
      ensures status != Success ==> status == Invalid && contents == old(contents)
      ensures status == Success ==> contents == RemoveFirst(old(contents), trampoline)
      ensures status == Success ==>
        exists k :: (0 <= k < |old(nodes)| &&
          old(contents)[k] == trampoline && trampoline !in old(contents)[..k] &&
          nodes == old(nodes)[..k] + old(nodes)[k + 1..] && freed == old(freed) + {old(nodes)[k]})
      ensures status != Success ==> nodes == old(nodes) && freed == old(freed)
    {
      status := Invalid;
      LinksOf(front, nodes);
      var prev: Node? := null;
      var node := front;
      ghost var k := 0;
      ghost var cs := contents;
      var found := false;
      while node != null && trampoline != NullFn
        invariant 0 <= k <= |nodes|
        invariant node == (if k < |nodes| then nodes[k] else null)
        invariant prev == (if k > 0 then nodes[k - 1] else null)
        invariant trampoline !in cs[..k]
        decreases |nodes| - k
      {
        if node.trampoline == trampoline {
          found := true;
          break;
        }
        assert contents[..k + 1] == cs[..k] + [cs[k]];
        prev := node;
        node := node.next;
        k := k + 1;
      }
      if found {
        RemoveAt(cs, k, trampoline);
        Unlink(prev, node, k);
        status := Success;
      } else {
        assert trampoline != NullFn ==> cs[..k] == cs;
      }
    }

    /** The unlinking step of connector_remove_trampoline: the previous
      node, or `front` when there is none, skips the node at position k,
      which is freed. */
    method Unlink(prev: Node?, node: Node, ghost k: nat)
      requires Usable() && k < |nodes| && node == nodes[k]
      requires prev == (if k > 0 then nodes[k - 1] else null)
      modifies this, prev
      ensures Usable() && freed == old(freed) + {node}
      ensures nodes == old(nodes[..k] + nodes[k + 1..])
      ensures contents == old(contents[..k] + contents[k + 1..])
    {
      ghost var ns := nodes;
      ghost var c := contents;
      LinksOf(front, nodes);
      ghost var rest := RemovedAt(ns, k);
      assert node == front <==> k == 0;
      ghost var after := if k + 1 < |ns| then ns[k + 1] else null;
      assert node.next == after;
      if prev != null {
        prev.next := node.next;
      }
      if node == front {
        front := node.next;
      }
      freed := freed + {node};
      nodes := rest;
      contents := c[..k] + c[k + 1..];
      assert front == (if rest == [] then null else rest[0]);
      forall i | 0 <= i < |rest| - 1
        ensures rest[i].next == rest[i + 1]
      {
        if i < k - 1 {
          assert rest[i] == ns[i] && ns[i] != prev;
        } else if k <= i {
          assert rest[i] == ns[i + 1] && ns[i + 1] != prev;
        }
      }
      if rest != [] && k < |rest| {
        assert rest[|rest| - 1] == ns[|ns| - 1];
      }
      FromLinks(front, rest);
      forall i | 0 <= i < |rest|
        ensures rest[i] !in freed && rest[i].trampoline == contents[i]
      {
        assert rest[i] == ns[if i < k then i else i + 1];
      }
    }
  }

  /** At the first position holding t, removing that position is RemoveFirst. */
  lemma {:induction false} RemoveAt(s: seq<FnPtr>, k: nat, t: FnPtr)
    requires k < |s| && s[k] == t && t !in s[..k]
    ensures RemoveFirst(s, t) == s[..k] + s[k + 1..]
  {
    if k > 0 {
      assert s[0] == s[..k][0];
      assert s[1..][..k - 1] == s[..k][1..];
      RemoveAt(s[1..], k - 1, t);
      assert s[..k] == [s[0]] + s[1..][..k - 1];
    }
  }
}
