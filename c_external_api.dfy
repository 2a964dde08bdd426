/** core/src/external_api.c: the library's global state word and the
    guards every API call puts on it.

    The subsystems that init and shutdown call (configuration, the
    connection directory, contexts, message queues, trampolines, dispatch,
    communication, allocators) are outside this module: each call's status
    is a parameter and the call is recorded in `events`. One thread at a time
    is modelled, so the compare-exchange is an ordinary test and update. */
module CExternalApi {
  import opened Common
  import CMessage

  /** enum SubstanceConnectorState, state.h. */
  const StateShutdown: u32 := 0x0
  const StateInitStarted: u32 := 0x1
  const StateInitFinished: u32 := 0x2
  const StateShutdownStarted: u32 := 0x3
  const StateAllocatorStarted: u32 := 0x4
  const StateInternalError: u32 := 0x128

  /** The states a call can leave behind; the others only exist while a call
      is running. */
  predicate AtRest(state: u32) {
    state == StateShutdown || state == StateInitFinished || state == StateInternalError
  }

  /** CONNECTOR_ATOMIC_COMPARE_EXCHANGE(state, x, y, ret) with the GCC and
      Clang builtins (and InterlockedCompareExchange on Windows): the new
      state, and in `ret` the state found; the state is replaced by y
      exactly when the `ret == x` guard that follows passes. */
  function CompareExchange(state: u32, x: u32, y: u32): (r: (u32, u32))
    ensures r.1 == state
    ensures r.1 == x ==> r.0 == y
    ensures r.1 != x ==> r.0 == state
  {
    if state == x then (y, x) else (state, state)
  }

  /** The guard `ret == x` after the exchange holds exactly when the state
      was x, and only then is the state replaced. */
  lemma CompareExchangeGuards(state: u32, x: u32, y: u32)
    ensures CompareExchange(state, x, y).1 == x <==> state == x
    ensures CompareExchange(state, x, y).0 == (if state == x then y else state)
  {
  }

  /** The same macro under SUBSTANCE_CONNECTOR_NO_ATOMIC: `ret` is written only
      when the state matches, so otherwise it keeps what the caller put in it,
      and the guard `ret == x` then also passes when the caller's initial ret
      was x. */
  function CompareExchangeNoAtomic(state: u32, x: u32, y: u32, ret: u32): (r: (u32, u32))
    ensures r.0 == (if state == x then y else state)
    ensures r.1 == x <==> state == x || ret == x
    ensures state != x ==> r.1 == ret
  {
    if state == x then (y, state) else (state, ret)
  }

  /** substance_connector_init and substance_connector_set_allocators start
      with `initialized = 0u`, which is STATE_SHUTDOWN; without atomics their
      guard then passes in every state, here an initialized library. */
  lemma NoAtomicGuardPassesWhenInitialized()
    ensures CompareExchangeNoAtomic(StateInitFinished, StateShutdown, StateInitStarted, 0).1 == StateShutdown
    ensures CompareExchangeNoAtomic(StateInitFinished, StateShutdown, StateAllocatorStarted, 0).1 == StateShutdown
    ensures CompareExchange(StateInitFinished, StateShutdown, StateInitStarted).1 != StateShutdown
  {
  }

  /** The no-atomics macro as evidently intended: `ret` always receives the
      state found, which makes it the builtin's exchange. */
  function CompareExchangeNoAtomicCorrected(state: u32, x: u32, y: u32): (r: (u32, u32))
  {
    if state == x then (y, state) else (state, state)
  }

  lemma NoAtomicCorrectedGuards(state: u32, x: u32, y: u32)
    ensures CompareExchangeNoAtomicCorrected(state, x, y) == CompareExchange(state, x, y)
    ensures CompareExchangeNoAtomicCorrected(state, x, y).1 == x <==> state == x
  {
  }

  /** The subsystem calls of substance_connector_init, in the order made. */
  datatype InitStep =
    | SetApplicationName | SetupDefaultTcpDirectory | InitContextSubsystem
    | InitMessageQueueSubsystem | InitTrampolineSubsystem | InitDispatchSubsystem
    | InitCommSubsystem

  const InitOrder: seq<InitStep> := [SetApplicationName, SetupDefaultTcpDirectory,
    InitContextSubsystem, InitMessageQueueSubsystem, InitTrampolineSubsystem,
    InitDispatchSubsystem, InitCommSubsystem]

  /** The subsystem calls of substance_connector_shutdown, in the order made. */
  datatype ShutdownStep =
    | ShutdownContextSubsystem | ShutdownCommSubsystem | ShutdownDispatchSubsystem
    | ShutdownMessageQueueSubsystem | ShutdownTrampolineSubsystem
    | CleanupDefaultTcpDirectory | ClearAllocators

  const ShutdownOrder: seq<ShutdownStep> := [ShutdownContextSubsystem, ShutdownCommSubsystem,
    ShutdownDispatchSubsystem, ShutdownMessageQueueSubsystem, ShutdownTrampolineSubsystem,
    CleanupDefaultTcpDirectory, ClearAllocators]

  /** The calls that forward to another part of the library once the state
      allows it. */
  datatype ApiCall =
    | AddTrampoline(trampoline: FnPtr) | RemoveTrampoline(trampoline: FnPtr)
    | OpenTcp(port: u32) | OpenUnix(path: string) | CloseContext(context: u32)
    | ConnectTcp(port: u32) | ConnectUnix(path: string)
    | BroadcastTcp | BroadcastUnix | BroadcastDefault
    | OpenDefaultTcp | OpenDefaultUnix | OpenDefault

  /** open_tcp, open_unix, connect_tcp and connect_unix also refuse a NULL
      context pointer; the open_default calls pass it on unchecked. */
  predicate NeedsContextPointer(c: ApiCall) {
    c.OpenTcp? || c.OpenUnix? || c.ConnectTcp? || c.ConnectUnix?
  }

  /** close_context is the one forwarding call with no state guard. */
  predicate Guarded(c: ApiCall) {
    !c.CloseContext?
  }

  /** What the library does to the rest of the system, in order. */
  datatype Event =
    | InitCall(initStep: InitStep)
    | ShutdownCall(shutdownStep: ShutdownStep)
    | EnqueueOutbound(message: CMessage.Message)
    | FlagWrite
    | Forwarded(call: ApiCall)

  /** The init calls for a sequence of steps. */
  function InitCalls(steps: seq<InitStep>): (r: seq<Event>)
    ensures |r| == |steps| && forall i :: 0 <= i < |steps| ==> r[i] == InitCall(steps[i])
  {
    if steps == [] then [] else [InitCall(steps[0])] + InitCalls(steps[1..])
  }

  /** The shutdown calls for a sequence of steps. */
  function ShutdownCalls(steps: seq<ShutdownStep>): (r: seq<Event>)
    ensures |r| == |steps| && forall i :: 0 <= i < |steps| ==> r[i] == ShutdownCall(steps[i])
  {
    if steps == [] then [] else [ShutdownCall(steps[0])] + ShutdownCalls(steps[1..])
  }

  /** The position of the first status that is not SUCCESS, or the length
      when there is none. */
  function FailAt(rs: seq<Status>): (k: nat)
    ensures k <= |rs|
    ensures forall i :: 0 <= i < k ==> rs[i] == Success
    ensures k < |rs| ==> rs[k] != Success
  {
    if rs == [] then 0
    else if rs[0] != Success then 0
    else 1 + FailAt(rs[1..])
  }

  /** The first status that is not SUCCESS, or SUCCESS: what a chain of
      `if (retcode == SUCCESS)` steps returns. */
  function FirstFailure(rs: seq<Status>): (r: Status)
  {
    if FailAt(rs) < |rs| then rs[FailAt(rs)] else Success
  }

  /** FirstFailure is SUCCESS exactly when every status is, and otherwise a
      failing status all of whose predecessors succeeded. */
  lemma FirstFailureMeaning(rs: seq<Status>)
    ensures FirstFailure(rs) == Success <==> forall i :: 0 <= i < |rs| ==> rs[i] == Success
    ensures FirstFailure(rs) != Success ==>
      exists k :: 0 <= k < |rs| && rs[k] == FirstFailure(rs) &&
        forall i :: 0 <= i < k ==> rs[i] == Success
  {
    var k := FailAt(rs);
    if k < |rs| {
      assert rs[k] == FirstFailure(rs);
    }
  }

  /** The first failure is determined by where it is: a status position all
      of whose predecessors succeeded and which failed is FailAt. */
  lemma FailAtUnique(rs: seq<Status>, k: nat)
    requires k <= |rs| && forall i :: 0 <= i < k ==> rs[i] == Success
    requires k < |rs| ==> rs[k] != Success
    ensures FailAt(rs) == k
  {
  }

  /** The outcome of each init call, in call order. */
  function InitResults(outcome: InitStep -> Status): (rs: seq<Status>)
    ensures |rs| == |InitOrder| && forall i :: 0 <= i < |rs| ==> rs[i] == outcome(InitOrder[i])
  {
    [outcome(SetApplicationName), outcome(SetupDefaultTcpDirectory),
     outcome(InitContextSubsystem), outcome(InitMessageQueueSubsystem),
     outcome(InitTrampolineSubsystem), outcome(InitDispatchSubsystem),
     outcome(InitCommSubsystem)]
  }

  /** The outcome of each shutdown call, in call order. */
  function ShutdownResults(outcome: ShutdownStep -> Status): (rs: seq<Status>)
    ensures |rs| == |ShutdownOrder| && forall i :: 0 <= i < |rs| ==> rs[i] == outcome(ShutdownOrder[i])
  {
    [outcome(ShutdownContextSubsystem), outcome(ShutdownCommSubsystem),
     outcome(ShutdownDispatchSubsystem), outcome(ShutdownMessageQueueSubsystem),
     outcome(ShutdownTrampolineSubsystem), outcome(CleanupDefaultTcpDirectory),
     outcome(ClearAllocators)]
  }

  /** How many init calls are made: up to and including the first failure. */
  function InitCallCount(outcome: InitStep -> Status): (n: nat)
  {
    var k := FailAt(InitResults(outcome));
    if k < |InitOrder| then k + 1 else k
  }

  /** Init makes at least one call and at most all seven; every call before
      the last succeeded, and the last failed unless all seven were made. */
  lemma InitCallCountMeaning(outcome: InitStep -> Status)
    ensures 1 <= InitCallCount(outcome) <= |InitOrder|
    ensures forall i :: 0 <= i < InitCallCount(outcome) - 1 ==> outcome(InitOrder[i]) == Success
    ensures InitCallCount(outcome) < |InitOrder| ==>
      outcome(InitOrder[InitCallCount(outcome) - 1]) != Success
    ensures FirstFailure(InitResults(outcome)) == Success <==>
      (InitCallCount(outcome) == |InitOrder| && outcome(InitCommSubsystem) == Success)
  {
    var rs := InitResults(outcome);
    FirstFailureMeaning(rs);
    if FailAt(rs) == |InitOrder| {
      assert rs[6] == outcome(InitCommSubsystem);
    }
  }

  /** The library's global state (connector_module_state) and the custom
      allocators that connector_set_allocator and connector_set_deallocator
      store; None stands for the defaults. */
  class Connector {
    var state: u32
    var allocators: Option<(FnPtr, FnPtr)>
    var events: seq<Event>

    /** The library as loaded: shut down, default allocators, nothing done. */
    constructor ()
      ensures state == StateShutdown && allocators == None && events == []
    {
      state := StateShutdown;
      allocators := None;
      events := [];
    }

    /** substance_connector_init: only from SHUTDOWN, through INIT_STARTED; the
        seven subsystem calls are made in order up to the first failure,
        whose status is returned and which locks the state at INTERNAL_ERROR;
        when all succeed the state is INIT_FINISHED. In any other state it
        returns ERROR and changes nothing. */
    method Init(outcome: InitStep -> Status) returns (retcode: Status)
      modifies this
      ensures allocators == old(allocators)
      ensures old(state) != StateShutdown ==>
        retcode == Error && state == old(state) && events == old(events)
      ensures old(state) == StateShutdown ==>
        retcode == FirstFailure(InitResults(outcome)) &&
        events == old(events) + InitCalls(InitOrder[..InitCallCount(outcome)]) &&
        state == (if retcode == Success then StateInitFinished else StateInternalError)
      ensures old(AtRest(state)) ==> AtRest(state)
    {
      retcode := Error;
      var initialized: u32;
      state, initialized := CompareExchange(state, StateShutdown, StateInitStarted).0,
                            CompareExchange(state, StateShutdown, StateInitStarted).1;
      if initialized == StateShutdown {
        var calls;
        retcode, calls := InitSubsystems(outcome);
        events := events + calls;
        if retcode == Success {
          state, initialized := CompareExchange(state, StateInitStarted, StateInitFinished).0,
                                CompareExchange(state, StateInitStarted, StateInitFinished).1;
        } else {
          state, initialized := CompareExchange(state, StateInitStarted, StateInternalError).0,
                                CompareExchange(state, StateInitStarted, StateInternalError).1;
        }
      }
    }

    /** substance_connector_shutdown: only from INIT_FINISHED, through
        SHUTDOWN_STARTED; all seven subsystem calls are made, in order, even
        after a failure, the first failing status is returned, the allocators
        are reset to the defaults and the state becomes SHUTDOWN whatever the
        statuses. In any other state it returns ERROR and calls nothing; the
        closing exchange still turns a SHUTDOWN_STARTED state into SHUTDOWN. */
    method Shutdown(outcome: ShutdownStep -> Status) returns (retcode: Status)
      modifies this
      ensures old(state) == StateInitFinished ==>
        retcode == FirstFailure(ShutdownResults(outcome)) &&
        events == old(events) + ShutdownCalls(ShutdownOrder) &&
        allocators == None && state == StateShutdown
      ensures old(state) != StateInitFinished ==>
        retcode == Error && events == old(events) && allocators == old(allocators) &&
        state == (if old(state) == StateShutdownStarted then StateShutdown else old(state))
      ensures old(AtRest(state)) ==> AtRest(state)
    {
      retcode := Error;
      var initialized: u32;
      state, initialized := CompareExchange(state, StateInitFinished, StateShutdownStarted).0,
                            CompareExchange(state, StateInitFinished, StateShutdownStarted).1;
      if initialized == StateInitFinished {
        var calls;
        retcode, calls := ShutdownSubsystems(outcome);
        events := events + calls;
        allocators := None;
      }
      state, initialized := CompareExchange(state, StateShutdownStarted, StateShutdown).0,
                            CompareExchange(state, StateShutdownStarted, StateShutdown).1;
    }

    /** substance_connector_set_allocators: only from SHUTDOWN, through
        ALLOCATOR_STARTED and back; both functions must be non-NULL to be
        stored. Anything else returns INVALID and stores nothing. */
    method SetAllocators(allocator: FnPtr, deallocator: FnPtr) returns (retcode: Status)
      modifies this
      ensures state == old(state) && events == old(events)
      ensures old(state) == StateShutdown && allocator != NullFn && deallocator != NullFn ==>
        retcode == Success && allocators == Some((allocator, deallocator))
      ensures !(old(state) == StateShutdown && allocator != NullFn && deallocator != NullFn) ==>
        retcode == Invalid && allocators == old(allocators)
    {
      retcode := Invalid;
      var initialized: u32;
      state, initialized := CompareExchange(state, StateShutdown, StateAllocatorStarted).0,
                            CompareExchange(state, StateShutdown, StateAllocatorStarted).1;
      if initialized == StateShutdown {
        if allocator != NullFn && deallocator != NullFn {
          allocators := Some((allocator, deallocator));
          retcode := Success;
        }
        state, initialized := CompareExchange(state, StateAllocatorStarted, StateShutdown).0,
                              CompareExchange(state, StateAllocatorStarted, StateShutdown).1;
      }
    }

    /** substance_connector_write_message: only in INIT_FINISHED, and only when
        connector_build_message gives a message, which is queued outbound and
        signalled to the write threads; otherwise INVALID and nothing done. */
    method WriteMessage(context: u32, typ: Option<Uuid>, message: Option<string>,
                        allocationSucceeds: bool)
      returns (retcode: Status)
      modifies this
      ensures state == old(state) && allocators == old(allocators)
      ensures retcode == Success <==>
        old(state) == StateInitFinished && typ.Some? && message.Some? && allocationSucceeds
      ensures retcode != Success ==> retcode == Invalid && events == old(events)
      ensures retcode == Success ==>
        |events| == |old(events)| + 2 && events[..|old(events)|] == old(events) &&
        events[|events| - 1] == FlagWrite && events[|events| - 2].EnqueueOutbound? &&
        var m := events[|events| - 2].message;
        m.context == context && m.payload == message &&
        m.header == Some(CMessage.BuiltHeader(typ.value, message.value))
    {
      retcode := Invalid;
      if state == StateInitFinished {
        var built := CMessage.BuildMessage(context, typ, message, allocationSucceeds);
        if built != null {
          built.context := context;
          events := events + [EnqueueOutbound(built), FlagWrite];
          retcode := Success;
        }
      }
    }

    /** The calls that hand over to another part of the library: in
        INIT_FINISHED (and, for the four that take one, with a non-NULL
        context pointer) the call is made and its status returned, in any
        other case ERROR. close_context is made in every state. */
    method Forward(call: ApiCall, contextPointerGiven: bool, result: Status)
      returns (retcode: Status)
      modifies this
      ensures state == old(state) && allocators == old(allocators)
      ensures var made := !Guarded(call) ||
        (old(state) == StateInitFinished && (NeedsContextPointer(call) ==> contextPointerGiven));
        (made ==> retcode == result && events == old(events) + [Forwarded(call)]) &&
        (!made ==> retcode == Error && events == old(events))
    {
      retcode := Error;
      if !Guarded(call) ||
         (state == StateInitFinished && (NeedsContextPointer(call) ==> contextPointerGiven)) {
        events := events + [Forwarded(call)];
        retcode := result;
      }
    }
  }

  /** The shutdown sequence of substance_connector_shutdown: every subsystem
      call is made, and `retcode` takes a call's status only while it is
      still SUCCESS. */
  method ShutdownSubsystems(outcome: ShutdownStep -> Status) returns (retcode: Status, calls: seq<Event>)
    ensures retcode == FirstFailure(ShutdownResults(outcome))
    ensures calls == ShutdownCalls(ShutdownOrder)
  {
    var rs := ShutdownResults(outcome);
    ShutdownOrderAt();
    calls := [ShutdownCall(ShutdownContextSubsystem)];
    retcode := outcome(ShutdownContextSubsystem);
    FirstFailureFirst(rs);
    assert retcode == FirstFailure(rs[..1]);
    var subRetcode: Status;
    calls := calls + [ShutdownCall(ShutdownCommSubsystem)];
    subRetcode := outcome(ShutdownCommSubsystem);
    FirstFailureSnoc(rs, 1);
    if retcode == Success {
      retcode := subRetcode;
    }
    assert retcode == FirstFailure(rs[..2]);
    calls := calls + [ShutdownCall(ShutdownDispatchSubsystem)];
    subRetcode := outcome(ShutdownDispatchSubsystem);
    FirstFailureSnoc(rs, 2);
    if retcode == Success {
      retcode := subRetcode;
    }
    assert retcode == FirstFailure(rs[..3]);
    calls := calls + [ShutdownCall(ShutdownMessageQueueSubsystem)];
    subRetcode := outcome(ShutdownMessageQueueSubsystem);
    FirstFailureSnoc(rs, 3);
    if retcode == Success {
      retcode := subRetcode;
    }
    assert retcode == FirstFailure(rs[..4]);
    calls := calls + [ShutdownCall(ShutdownTrampolineSubsystem)];
    subRetcode := outcome(ShutdownTrampolineSubsystem);
    FirstFailureSnoc(rs, 4);
    if retcode == Success {
      retcode := subRetcode;
    }
    assert retcode == FirstFailure(rs[..5]);
    calls := calls + [ShutdownCall(CleanupDefaultTcpDirectory)];
    subRetcode := outcome(CleanupDefaultTcpDirectory);
    FirstFailureSnoc(rs, 5);
    if retcode == Success {
      retcode := subRetcode;
    }
    assert retcode == FirstFailure(rs[..6]);
    calls := calls + [ShutdownCall(ClearAllocators)];
    subRetcode := outcome(ClearAllocators);
    FirstFailureSnoc(rs, 6);
    if retcode == Success {
      retcode := subRetcode;
    }
    assert retcode == FirstFailure(rs[..7]);
    assert rs[..7] == rs;
    assert calls == ShutdownCallsInOrder();
    ShutdownCallsInOrderMeaning();
  }

  /** The seven shutdown calls, written out. */
  function ShutdownCallsInOrder(): seq<Event> {
    [ShutdownCall(ShutdownContextSubsystem), ShutdownCall(ShutdownCommSubsystem), ShutdownCall(ShutdownDispatchSubsystem), ShutdownCall(ShutdownMessageQueueSubsystem), ShutdownCall(ShutdownTrampolineSubsystem), ShutdownCall(CleanupDefaultTcpDirectory), ShutdownCall(ClearAllocators)]
  }

  lemma ShutdownCallsInOrderMeaning()
    ensures ShutdownCalls(ShutdownOrder) == ShutdownCallsInOrder()
  {
    ShutdownOrderAt();
  }

  lemma ShutdownOrderAt()
    ensures ShutdownOrder[0] == ShutdownContextSubsystem && ShutdownOrder[1] == ShutdownCommSubsystem
    ensures ShutdownOrder[2] == ShutdownDispatchSubsystem && ShutdownOrder[3] == ShutdownMessageQueueSubsystem
    ensures ShutdownOrder[4] == ShutdownTrampolineSubsystem && ShutdownOrder[5] == CleanupDefaultTcpDirectory
    ensures ShutdownOrder[6] == ClearAllocators
  {
  }

  lemma FirstFailureFirst(rs: seq<Status>)
    requires rs != []
    ensures FirstFailure(rs[..1]) == rs[0]
  {
    assert rs[..1][0] == rs[0];
  }

  /** FirstFailure one status further: a failure found stays, SUCCESS gives
      way to the next status. */
  lemma FirstFailureSnoc(rs: seq<Status>, k: nat)
    requires k < |rs|
    ensures FirstFailure(rs[..k + 1]) ==
      if FirstFailure(rs[..k]) == Success then rs[k] else FirstFailure(rs[..k])
  {
    var p, q := rs[..k], rs[..k + 1];
    assert forall i :: 0 <= i < k ==> p[i] == q[i];
    if FailAt(p) < k {
      FailAtUnique(q, FailAt(p));
    } else if rs[k] != Success {
      FailAtUnique(q, k);
    } else {
      FailAtUnique(q, k + 1);
    }
  }

  /** The if-chain of substance_connector_init: each subsystem call is made
      while the previous ones returned SUCCESS; the calls made and the last
      status are returned. */
  method InitSubsystems(outcome: InitStep -> Status) returns (retcode: Status, calls: seq<Event>)
    ensures retcode == FirstFailure(InitResults(outcome))
    ensures calls == InitCalls(InitOrder[..InitCallCount(outcome)])
  {
    ghost var start: seq<Event> := [];
    InitOrderAt();
    calls := [];
    ghost var k: nat := 1;
    calls := calls + [InitCall(SetApplicationName)];
    retcode := outcome(SetApplicationName);
    InitFirst(start, outcome);
    if retcode == Success {
      InitNext(start, calls, outcome, 1);
      calls := calls + [InitCall(SetupDefaultTcpDirectory)];
      retcode := outcome(SetupDefaultTcpDirectory);
      k := 2;
    }
    if retcode == Success {
      InitNext(start, calls, outcome, 2);
      calls := calls + [InitCall(InitContextSubsystem)];
      retcode := outcome(InitContextSubsystem);
      k := 3;
    }
    if retcode == Success {
      InitNext(start, calls, outcome, 3);
      calls := calls + [InitCall(InitMessageQueueSubsystem)];
      retcode := outcome(InitMessageQueueSubsystem);
      k := 4;
    }
    if retcode == Success {
      InitNext(start, calls, outcome, 4);
      calls := calls + [InitCall(InitTrampolineSubsystem)];
      retcode := outcome(InitTrampolineSubsystem);
      k := 5;
    }
    if retcode == Success {
      InitNext(start, calls, outcome, 5);
      calls := calls + [InitCall(InitDispatchSubsystem)];
      retcode := outcome(InitDispatchSubsystem);
      k := 6;
    }
    if retcode == Success {
      InitNext(start, calls, outcome, 6);
      calls := calls + [InitCall(InitCommSubsystem)];
      retcode := outcome(InitCommSubsystem);
      k := 7;
    }
    InitDone(start, calls, outcome, k, retcode);
  }

  lemma InitOrderAt()
    ensures InitOrder[0] == SetApplicationName && InitOrder[1] == SetupDefaultTcpDirectory
    ensures InitOrder[2] == InitContextSubsystem && InitOrder[3] == InitMessageQueueSubsystem
    ensures InitOrder[4] == InitTrampolineSubsystem && InitOrder[5] == InitDispatchSubsystem
    ensures InitOrder[6] == InitCommSubsystem
  {
  }

  /** After k of the init calls: the first k were made, all but the last
      succeeded, and `retcode` holds the last one's status. */
  ghost predicate InitSoFar(start: seq<Event>, events: seq<Event>, outcome: InitStep -> Status,
                            k: nat, retcode: Status) {
    1 <= k <= |InitOrder| && events == start + InitCalls(InitOrder[..k]) &&
    (forall i :: 0 <= i < k - 1 ==> outcome(InitOrder[i]) == Success) &&
    retcode == outcome(InitOrder[k - 1])
  }

  lemma InitFirst(start: seq<Event>, outcome: InitStep -> Status)
    ensures InitSoFar(start, start + [InitCall(SetApplicationName)], outcome, 1, outcome(SetApplicationName))
  {
    assert InitCalls(InitOrder[..1]) == [InitCall(SetApplicationName)];
  }

  /** The next call in the chain, made after a SUCCESS. */
  lemma InitNext(start: seq<Event>, events: seq<Event>, outcome: InitStep -> Status, k: nat)
    requires k < |InitOrder| && InitSoFar(start, events, outcome, k, Success)
    ensures InitSoFar(start, events + [InitCall(InitOrder[k])], outcome, k + 1, outcome(InitOrder[k]))
  {
    assert InitOrder[..k + 1] == InitOrder[..k] + [InitOrder[k]];
    InitCallsSnoc(InitOrder[..k], InitOrder[k]);
  }

  lemma {:induction false} InitCallsSnoc(steps: seq<InitStep>, s: InitStep)
    ensures InitCalls(steps + [s]) == InitCalls(steps) + [InitCall(s)]
  {
    var r := InitCalls(steps + [s]);
    assert |r| == |InitCalls(steps) + [InitCall(s)]|;
    forall i | 0 <= i < |r|
      ensures r[i] == (InitCalls(steps) + [InitCall(s)])[i]
    {
      assert (steps + [s])[i] == if i < |steps| then steps[i] else s;
    }
  }

  /** The chain ends after a failure or after the seventh call: its status
      and its calls are those the specification functions give. */
  lemma InitDone(start: seq<Event>, events: seq<Event>, outcome: InitStep -> Status, k: nat, retcode: Status)
    requires InitSoFar(start, events, outcome, k, retcode)
    requires retcode != Success || k == |InitOrder|
    ensures retcode == FirstFailure(InitResults(outcome))
    ensures events == start + InitCalls(InitOrder[..InitCallCount(outcome)])
  {
    var rs := InitResults(outcome);
    if retcode != Success {
      FailAtUnique(rs, k - 1);
    } else {
      FailAtUnique(rs, k);
    }
  }
}
