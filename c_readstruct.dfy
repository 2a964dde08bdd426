/** core/src/details/threadimpl/readstructimpl.c: the bookkeeping of a read
    thread, which polls up to READ_CONTEXTS connection contexts. The thread
    keeps the context identifiers and their poll entries in two parallel
    fixed-size arrays, of which the first `assigned_contexts` slots are in use. */
module CReadStruct {
  import opened Common

  /** SUBSTANCE_CONNECTOR_CONTEXT_COUNT / SUBSTANCE_CONNECTOR_INBOUND_COUNT + 1. */
  const ContextCount: nat := 32
  const InboundCount: nat := 2
  const ReadContexts: nat := ContextCount / InboundCount + 1

  /** SUBSTANCE_CONNECTOR_CONN_SHUTDOWN, the context state bit for "ready to
      shut down". */
  const ConnShutdown: bv32 := 0x400

  /** POLLIN on POSIX systems. */
  const PollIn: int := 0x001

  /** connector_poll_t: a file descriptor and the events to poll for. */
  datatype Poll = Poll(fd: int, events: int)

  /** One slot in use: a context identifier and its poll entry. */
  datatype Entry = Entry(id: u32, poll: Poll)

  /** Bit 10 of a context state, the SUBSTANCE_CONNECTOR_CONN_SHUTDOWN bit. */
  predicate IsShutdown(state: u32) {
    (state as int / 0x400) % 2 == 1
  }

  /** IsShutdown is the test `state & SUBSTANCE_CONNECTOR_CONN_SHUTDOWN`. */
  lemma IsShutdownMasks(state: u32)
    ensures IsShutdown(state) <==> (state as bv32) & ConnShutdown != 0
  {
  }

  /** Whether a context is ready to shut down, by connector_context_state. */
  predicate Shut(stateOf: u32 -> u32, context: u32) {
    IsShutdown(stateOf(context))
  }

  /** The slots after remove_context(k): the last slot moved into slot k and
      the count one less. */
  function RemovedAt<T>(s: seq<T>, k: nat): (r: seq<T>)
    requires k < |s|
  {
    s[k := s[|s| - 1]][..|s| - 1]
  }

  /** RemovedAt spelled out as slices. */
  lemma RemovedAtShape<T>(s: seq<T>, k: nat)
    requires k < |s|
    ensures k == |s| - 1 ==> RemovedAt(s, k) == s[..k]
    ensures k < |s| - 1 ==> RemovedAt(s, k) == s[..k] + [s[|s| - 1]] + s[k + 1..|s| - 1]
  {
    var n := |s| - 1;
    if k < n {
      var r := RemovedAt(s, k);
      var t := s[..k] + [s[n]] + s[k + 1..n];
      assert |r| == |t|;
      forall j | 0 <= j < |r|
        ensures r[j] == t[j]
      {
        if j < k {
          assert t[j] == s[j];
        } else if j > k {
          assert t[j] == s[k + 1..n][j - k - 1];
        }
      }
    }
  }

  /** Removing slot k drops exactly that element and keeps the ones before. */
  lemma RemovedAtContents<T>(s: seq<T>, k: nat)
    requires k < |s|
    ensures |RemovedAt(s, k)| == |s| - 1
    ensures RemovedAt(s, k)[..k] == s[..k]
    ensures multiset(s) == multiset(RemovedAt(s, k)) + multiset{s[k]}
  {
    var n := |s| - 1;
    RemovedAtShape(s, k);
    if k == n {
      SplitLast(s);
    } else {
      SplitFour(s, k);
      MultisetFour(s[..k], s[k], s[k + 1..n], s[n]);
      assert (s[..k] + [s[n]] + s[k + 1..n])[..k] == s[..k];
    }
  }

  lemma SplitLast<T>(s: seq<T>)
    requires |s| > 0
    ensures s == s[..|s| - 1] + [s[|s| - 1]]
  {
  }

  lemma SplitFour<T>(s: seq<T>, k: nat)
    requires k < |s| - 1
    ensures s == s[..k] + [s[k]] + s[k + 1..|s| - 1] + [s[|s| - 1]]
  {
    var n := |s| - 1;
    assert s == s[..k] + s[k..];
    assert s[k..] == [s[k]] + s[k + 1..];
    assert s[k + 1..] == s[k + 1..n] + [s[n]];
  }

  lemma MultisetFour<T>(a: seq<T>, x: T, m: seq<T>, y: T)
    ensures multiset(a + [x] + m + [y]) == multiset(a + [y] + m) + multiset{x}
  {
    calc {
      multiset(a + [x] + m + [y]);
      multiset(a) + multiset([x]) + multiset(m) + multiset([y]);
      multiset(a) + multiset([y]) + multiset(m) + multiset([x]);
      multiset(a + [y] + m) + multiset{x};
    }
  }

  /** The loop of connector_read_thread_cleanup_connections, from counter i,
      `item_removed` flag `removed` and slots es, as written: the counter is
      compared with the count before it is stepped back after a removal.
      The result is the slots left and the entries removed, in order. */
  function Walk(es: seq<Entry>, i: nat, removed: bool, stateOf: u32 -> u32): (r: (seq<Entry>, seq<Entry>))
    requires removed ==> i >= 1
    decreases 2 * |es| + 2 - 2 * i + (if removed then 1 else 0)
  {
    if i >= |es| then (es, [])
    else
      var j := if removed then i - 1 else i;
      if Shut(stateOf, es[j].id) then Removing(es[j], Walk(RemovedAt(es, j), j + 1, true, stateOf))
      else Walk(es, j + 1, false, stateOf)
  }

  /** A walk's result with e removed before it. */
  function Removing(e: Entry, r: (seq<Entry>, seq<Entry>)): (seq<Entry>, seq<Entry>) {
    (r.0, [e] + r.1)
  }

  /** cleanup_connections as written, from the start. */
  function Cleanup(es: seq<Entry>, stateOf: u32 -> u32): (r: (seq<Entry>, seq<Entry>)) {
    Walk(es, 0, false, stateOf)
  }

  /** The identifiers of some entries. */
  function Ids(es: seq<Entry>): (r: seq<u32>) {
    seq(|es|, k requires 0 <= k < |es| => es[k].id)
  }

  /** The loop never loses or invents an entry. */
  lemma {:induction false} WalkConserves(es: seq<Entry>, i: nat, removed: bool, stateOf: u32 -> u32)
    requires removed ==> i >= 1
    ensures multiset(Walk(es, i, removed, stateOf).0) + multiset(Walk(es, i, removed, stateOf).1) == multiset(es)
    decreases 2 * |es| + 2 - 2 * i + (if removed then 1 else 0)
  {
    if i < |es| {
      WalkStep(es, i, removed, stateOf);
      var j := if removed then i - 1 else i;
      if Shut(stateOf, es[j].id) {
        WalkConserves(RemovedAt(es, j), j + 1, true, stateOf);
        RemovingConserves(es, j, Walk(RemovedAt(es, j), j + 1, true, stateOf));
      } else {
        WalkConserves(es, j + 1, false, stateOf);
      }
    }
  }

  /** Removing slot j and then walking on conserves the entries when the
      walk on does. */
  lemma RemovingConserves(es: seq<Entry>, j: nat, r: (seq<Entry>, seq<Entry>))
    requires j < |es|
    requires multiset(r.0) + multiset(r.1) == multiset(RemovedAt(es, j))
    ensures multiset(Removing(es[j], r).0) + multiset(Removing(es[j], r).1) == multiset(es)
  {
    RemovedAtContents(es, j);
    assert multiset([es[j]] + r.1) == multiset{es[j]} + multiset(r.1);
  }

  /** The loop removes only entries whose context is shutting down. */
  lemma {:induction false} WalkRemovesOnlyShut(es: seq<Entry>, i: nat, removed: bool, stateOf: u32 -> u32)
    requires removed ==> i >= 1
    ensures forall e :: e in Walk(es, i, removed, stateOf).1 ==> Shut(stateOf, e.id)
    decreases 2 * |es| + 2 - 2 * i + (if removed then 1 else 0)
  {
    if i < |es| {
      WalkStep(es, i, removed, stateOf);
      var j := if removed then i - 1 else i;
      if Shut(stateOf, es[j].id) {
        WalkRemovesOnlyShut(RemovedAt(es, j), j + 1, true, stateOf);
      } else {
        WalkRemovesOnlyShut(es, j + 1, false, stateOf);
      }
    }
  }

  /** The element swapped into a removed slot is not looked at when it came
      from the slot right after it: with two contexts both shutting down, the
      second survives the cleanup. */
  lemma CleanupSkipsSwapped(a: Entry, b: Entry, stateOf: u32 -> u32)
    requires Shut(stateOf, a.id) && Shut(stateOf, b.id)
    ensures Cleanup([a, b], stateOf) == ([b], [a])
  {
    assert RemovedAt([a, b], 0) == [b];
    assert Walk([b], 1, true, stateOf) == ([b], []);
    assert Walk([a, b], 0, false, stateOf) == ([b], [a] + []);
    assert [a] + [] == [a];
  }

  /** The loop as evidently intended: after a removal the same slot is looked
      at again, before the counter is compared with the count. */
  function WalkCorrected(es: seq<Entry>, i: nat, stateOf: u32 -> u32): (r: (seq<Entry>, seq<Entry>))
    decreases |es| - i
  {
    if i >= |es| then (es, [])
    else if Shut(stateOf, es[i].id) then Removing(es[i], WalkCorrected(RemovedAt(es, i), i, stateOf))
    else WalkCorrected(es, i + 1, stateOf)
  }

  /** The corrected loop never loses or invents an entry. */
  lemma {:induction false} WalkCorrectedConserves(es: seq<Entry>, i: nat, stateOf: u32 -> u32)
    ensures multiset(WalkCorrected(es, i, stateOf).0) + multiset(WalkCorrected(es, i, stateOf).1) == multiset(es)
    decreases |es| - i
  {
    if i < |es| {
      if Shut(stateOf, es[i].id) {
        WalkCorrectedConserves(RemovedAt(es, i), i, stateOf);
        RemovingConserves(es, i, WalkCorrected(RemovedAt(es, i), i, stateOf));
      } else {
        WalkCorrectedConserves(es, i + 1, stateOf);
      }
    }
  }

  /** The corrected loop removes only contexts that are shutting down. */
  lemma {:induction false} WalkCorrectedRemovesOnlyShut(es: seq<Entry>, i: nat, stateOf: u32 -> u32)
    ensures forall e :: e in WalkCorrected(es, i, stateOf).1 ==> Shut(stateOf, e.id)
    decreases |es| - i
  {
    if i < |es| {
      if Shut(stateOf, es[i].id) {
        WalkCorrectedRemovesOnlyShut(RemovedAt(es, i), i, stateOf);
      } else {
        WalkCorrectedRemovesOnlyShut(es, i + 1, stateOf);
      }
    }
  }

  /** The corrected loop leaves no context that is shutting down, given that
      the slots before i hold none. */
  lemma {:induction false} WalkCorrectedLeavesNoShut(es: seq<Entry>, i: nat, stateOf: u32 -> u32)
    requires forall k :: 0 <= k < i && k < |es| ==> !Shut(stateOf, es[k].id)
    ensures forall e :: e in WalkCorrected(es, i, stateOf).0 ==> !Shut(stateOf, e.id)
    decreases |es| - i
  {
    if i >= |es| {
      forall e | e in es
        ensures !Shut(stateOf, e.id)
      {
        var k :| 0 <= k < |es| && es[k] == e;
      }
    } else if Shut(stateOf, es[i].id) {
      RemovedAtContents(es, i);
      var es' := RemovedAt(es, i);
      forall k | 0 <= k < i && k < |es'|
        ensures !Shut(stateOf, es'[k].id)
      {
        assert es'[k] == es'[..i][k] == es[..i][k] == es[k];
      }
      WalkCorrectedLeavesNoShut(es', i, stateOf);
    } else {
      WalkCorrectedLeavesNoShut(es, i + 1, stateOf);
    }
  }

  /** The corrected cleanup from the start. */
  lemma CleanupCorrectedRemovesAll(es: seq<Entry>, stateOf: u32 -> u32)
    ensures forall e :: e in WalkCorrected(es, 0, stateOf).0 ==> !Shut(stateOf, e.id)
    ensures forall e :: e in WalkCorrected(es, 0, stateOf).1 ==> Shut(stateOf, e.id)
    ensures multiset(WalkCorrected(es, 0, stateOf).0) + multiset(WalkCorrected(es, 0, stateOf).1) == multiset(es)
  {
    WalkCorrectedConserves(es, 0, stateOf);
    WalkCorrectedRemovesOnlyShut(es, 0, stateOf);
    WalkCorrectedLeavesNoShut(es, 0, stateOf);
  }

  /** The status cleanup_connections returns: ERROR when nothing was removed,
      otherwise the status of the last context shutdown. */
  function LastStatus(shutdowns: seq<u32>, shutdownStatus: u32 -> Status): Status {
    if shutdowns == [] then Error else shutdownStatus(shutdowns[|shutdowns| - 1])
  }

  /** connector_read_thread_t, without its thread handle and identifier. */
  class ReadThread {
    var contexts: array<Poll>
    var contextIds: array<u32>
    var assignedContexts: u32

    ghost predicate Valid()
      reads this
    {
      contexts.Length == ReadContexts && contextIds.Length == ReadContexts &&
      assignedContexts as int <= ReadContexts
    }

    /** The slots in use. */
    ghost function Entries(): seq<Entry>
      reads this, contexts, contextIds
      requires Valid()
    {
      var n, ids, polls := assignedContexts as int, contextIds, contexts;
      seq(n, k requires 0 <= k < n reads ids, polls => Entry(ids[k], polls[k]))
    }

    /** A zeroed structure, as the tests set it up. */
    constructor()
      ensures Valid() && Entries() == []
    {
      contexts := new Poll[ReadContexts](_ => Poll(0, 0));
      contextIds := new u32[ReadContexts](_ => 0);
      assignedContexts := 0;
    }

    /** connector_read_thread_remove_context: ERROR and no change for an index
        outside the slots in use; otherwise the last slot moves into the
        index and the count drops by one. */
    method RemoveContext(index: u32) returns (status: Status)
      requires Valid()
      modifies this, contexts, contextIds
      ensures Valid() && contexts == old(contexts) && contextIds == old(contextIds)
      ensures index >= old(assignedContexts) ==>
        status == Error && assignedContexts == old(assignedContexts) &&
        contexts[..] == old(contexts[..]) && contextIds[..] == old(contextIds[..])
      ensures index < old(assignedContexts) ==>
        status == Success && assignedContexts == old(assignedContexts) - 1 &&
        contextIds[..] == (if assignedContexts > 0 then old(contextIds[..])[index := old(contextIds[..])[assignedContexts]] else old(contextIds[..])) &&
        contexts[..] == (if assignedContexts > 0 then old(contexts[..])[index := old(contexts[..])[assignedContexts]] else old(contexts[..]))
      ensures index < old(assignedContexts) ==> Entries() == RemovedAt(old(Entries()), index as nat)
    {
      status := Error;
      if index < assignedContexts {
        assignedContexts := assignedContexts - 1;
        if assignedContexts > 0 {
          contextIds[index] := contextIds[assignedContexts];
          contexts[index] := contexts[assignedContexts];
        }
        status := Success;
      }
    }

    /** remove_context on a slot in use, as cleanup_connections calls it. */
    method TakeOff(i: nat, ghost es: seq<Entry>)
      requires Valid() && Entries() == es && i < |es|
      modifies this, contexts, contextIds
      ensures Valid() && contexts == old(contexts) && contextIds == old(contextIds)
      ensures Entries() == RemovedAt(es, i)
    {
      var _ := RemoveContext(i as u32);
    }

    /** connector_read_thread_check_load: whether the thread takes another
        context. */
    function CheckLoad(): (r: bool)
      reads this
      ensures r <==> (assignedContexts as int) < ReadContexts
    {
      assignedContexts as int < ReadContexts
    }

    /** connector_read_thread_try_acquire. `popped` is the result of popping the
        available-context queue, `fdOf` connector_context_get_fd and
        `handshake` connector_context_write_handshake. The new context goes
        into slot `assigned_contexts` without a bound check, so callers must have
        room, which check_load tells them. */
    method TryAcquire(popped: Option<u32>, fdOf: u32 -> int, handshake: u32 -> Status) returns (status: Status)
      requires Valid() && CheckLoad()
      modifies this, contexts, contextIds
      ensures Valid() && contexts == old(contexts) && contextIds == old(contextIds)
      ensures popped.None? ==> status == Error && Entries() == old(Entries())
      ensures popped.Some? ==>
        status == handshake(popped.value) &&
        Entries() == old(Entries()) + [Entry(popped.value, Poll(fdOf(popped.value), PollIn))]
    {
      if popped.None? {
        return Error;
      }
      var context := popped.value;
      var index := assignedContexts;
      contexts[index] := Poll(fdOf(context), PollIn);
      contextIds[index] := context;
      assignedContexts := assignedContexts + 1;
      status := handshake(context);
    }

    /** connector_read_thread_cleanup_connections. `stateOf` is
        connector_context_state and `shutdownStatus` is
        connector_context_shutdown_from_read_thread; `shutdowns` lists the
        contexts handed to the latter, in order. */
    method CleanupConnections(stateOf: u32 -> u32, shutdownStatus: u32 -> Status)
      returns (retcode: Status, shutdowns: seq<u32>)
      requires Valid()
      modifies this, contexts, contextIds
      ensures Valid() && contexts == old(contexts) && contextIds == old(contextIds)
      ensures Entries() == Cleanup(old(Entries()), stateOf).0
      ensures shutdowns == Ids(Cleanup(old(Entries()), stateOf).1)
      ensures retcode == LastStatus(shutdowns, shutdownStatus)
    {
      ghost var gone: seq<Entry> := [];
      ghost var es := Entries();
      ghost var start := es;
      retcode := Error;
      shutdowns := [];
      var itemRemoved := false;
      var i: nat := 0;
      assert [] + Cleanup(es, stateOf).1 == Cleanup(es, stateOf).1;
      while i < assignedContexts as int
        invariant Valid() && contexts == old(contexts) && contextIds == old(contextIds)
        invariant Entries() == es
        invariant itemRemoved ==> i >= 1
        invariant i <= |es| + 1
        invariant Cleanup(start, stateOf) == After(gone, Walk(es, i, itemRemoved, stateOf))
        invariant shutdowns == Ids(gone)
        invariant retcode == LastStatus(shutdowns, shutdownStatus)
        decreases 2 * |es| + 2 - 2 * i + (if itemRemoved then 1 else 0)
      {
        ghost var i0, removed0 := i, itemRemoved;
        if itemRemoved {
          i := i - 1;
          itemRemoved := false;
        }
        var context := contextIds[i];
        assert context == es[i].id;
        if Shut(stateOf, context) {
          StepShut(start, gone, es, i0, removed0, i, stateOf);
          TakeOff(i, es);
          itemRemoved := true;
          retcode := shutdownStatus(context);
          IdsSnoc(gone, es[i]);
          gone := gone + [es[i]];
          shutdowns := shutdowns + [context];
          es := RemovedAt(es, i);
        } else {
          StepKept(start, gone, es, i0, removed0, i, stateOf);
        }
        i := i + 1;
      }
    }
  }

  /** A turn of the loop that removes the entry at the (stepped-back)
      counter j. */
  lemma StepShut(start: seq<Entry>, gone: seq<Entry>, es: seq<Entry>, i: nat, removed: bool, j: nat, stateOf: u32 -> u32)
    requires i < |es| && (removed ==> i >= 1) && j == (if removed then i - 1 else i)
    requires Cleanup(start, stateOf) == After(gone, Walk(es, i, removed, stateOf))
    requires Shut(stateOf, es[j].id)
    ensures Cleanup(start, stateOf) == After(gone + [es[j]], Walk(RemovedAt(es, j), j + 1, true, stateOf))
  {
    WalkStep(es, i, removed, stateOf);
    AfterRemoving(gone, es[j], Walk(RemovedAt(es, j), j + 1, true, stateOf));
  }

  /** A turn of the loop that keeps the entry at the (stepped-back) counter j. */
  lemma StepKept(start: seq<Entry>, gone: seq<Entry>, es: seq<Entry>, i: nat, removed: bool, j: nat, stateOf: u32 -> u32)
    requires i < |es| && (removed ==> i >= 1) && j == (if removed then i - 1 else i)
    requires Cleanup(start, stateOf) == After(gone, Walk(es, i, removed, stateOf))
    requires !Shut(stateOf, es[j].id)
    ensures Cleanup(start, stateOf) == After(gone, Walk(es, j + 1, false, stateOf))
  {
    WalkStep(es, i, removed, stateOf);
  }

  /** A walk's result behind the entries already removed. */
  function After(gone: seq<Entry>, r: (seq<Entry>, seq<Entry>)): (seq<Entry>, seq<Entry>) {
    (r.0, gone + r.1)
  }

  lemma AfterRemoving(gone: seq<Entry>, e: Entry, r: (seq<Entry>, seq<Entry>))
    ensures After(gone, Removing(e, r)) == After(gone + [e], r)
  {
    assert gone + ([e] + r.1) == (gone + [e]) + r.1;
  }

  /** One turn of the loop. */
  lemma WalkStep(es: seq<Entry>, i: nat, removed: bool, stateOf: u32 -> u32)
    requires i < |es| && (removed ==> i >= 1)
    ensures var j := if removed then i - 1 else i;
      Walk(es, i, removed, stateOf) ==
        if Shut(stateOf, es[j].id) then Removing(es[j], Walk(RemovedAt(es, j), j + 1, true, stateOf))
        else Walk(es, j + 1, false, stateOf)
  {
  }

  lemma IdsSnoc(es: seq<Entry>, e: Entry)
    ensures Ids(es + [e]) == Ids(es) + [e.id]
  {
  }
}
