/** module-cpp/src/framework/core.cpp: the C++ framework's lifecycle. A
    static set of Application pointers, an atomic StartupState guarding
    registerApplication, init and shutdown, the feature strings the
    registered applications advertise, and the trampoline the framework
    installs in the C core, which hands a message to every callback bound
    to its type. The application hooks and the C calls are recorded as
    events; what the C calls return is passed in. */
module CppCore {
  import opened Common
  import CppUuid
  import opened CppCallbacks

  /** StartupState, whose size_t values are SHUTDOWN 0, INIT_STARTED 1,
      INITIALIZED 2, SHUTDOWN_STARTED 3 and ADDING_APPLICATION 4. */
  datatype StartupState = Shutdown | InitStarted | Initialized | ShutdownStarted | AddingApplication

  /** An Application*, by its address; 0 is nullptr. */
  type ApplicationPtr = nat

  const Nullptr: ApplicationPtr := 0

  /** The four virtual hooks the framework calls on each application. */
  datatype Hook = PreInitHook | PostInitHook | PreShutdownHook | PostShutdownHook

  /** What the framework does outside its own state: a hook called on an
      application, or a call into the C core. */
  datatype Event =
    | HookCall(hook: Hook, application: ApplicationPtr)
    | InitDynamicLoad(moduleHandle: nat)
    | NativeInit(id: string)
    | AddTrampoline
    | NativeShutdown

  /** The order a std::set<Application*> holds its elements in: strictly
      increasing addresses. */
  predicate Increasing(r: seq<nat>) {
    forall i, j :: 0 <= i < j < |r| ==> r[i] < r[j]
  }

  /** std::set::insert of an address not yet present: placed before the
      first larger one. */
  function Insert(r: seq<nat>, x: nat): (t: seq<nat>)
    requires Increasing(r) && x !in r
    ensures Increasing(t) && |t| == |r| + 1
    ensures forall y :: y in t <==> y in r || y == x
    decreases |r|
  {
    if r == [] || x < r[0] then [x] + r
    else
      var tail := Insert(r[1..], x);
      assert forall i :: 0 <= i < |tail| ==> r[0] < tail[i] by {
        forall i | 0 <= i < |tail| ensures r[0] < tail[i] {
          assert tail[i] in r[1..] || tail[i] == x;
        }
      }
      [r[0]] + tail
  }

  /** The order of the applications, and so of every hook loop, depends
      only on their addresses, never on the order they were registered in:
      inserting a then b gives what inserting b then a gives. */
  lemma {:induction false} RegistrationOrderIrrelevant(r: seq<nat>, a: nat, b: nat)
    requires Increasing(r) && a !in r && b !in r && a != b
    ensures Insert(Insert(r, a), b) == Insert(Insert(r, b), a)
    decreases |r|
  {
    if r != [] && r[0] < a && r[0] < b {
      RegistrationOrderIrrelevant(r[1..], a, b);
    }
  }

  /** An application at address 7 registered before one at address 3 still
      has its hooks run second. */
  lemma PointerOrderExample()
    ensures Insert(Insert([], 7), 3) == [3, 7]
  {
  }

  /** The events of one hook loop over the applications in `order`. */
  function HookEvents(h: Hook, order: seq<ApplicationPtr>): (r: seq<Event>)
    ensures |r| == |order| && forall i :: 0 <= i < |order| ==> r[i] == HookCall(h, order[i])
  {
    seq(|order|, i requires 0 <= i < |order| => HookCall(h, order[i]))
  }

  /** The loop of preInit, postInit, preShutdown and postShutdown: the
      hook called on every application of `order`, in turn. */
  method HookLoop(h: Hook, order: seq<ApplicationPtr>) returns (log: seq<Event>)
    ensures log == HookEvents(h, order)
  {
    log := [];
    var i := 0;
    while i < |order|
      invariant 0 <= i <= |order|
      invariant log == HookEvents(h, order[..i])
    {
      assert HookEvents(h, order[..i + 1]) == log + [HookCall(h, order[i])];
      log := log + [HookCall(h, order[i])];
      i := i + 1;
    }
    assert order[..|order|] == order;
  }

  /** The text registerApplication builds from the first i elements of a
      feature id: each element as unpadded lower-case hexadecimal, with '-'
      before every one but the first. */
  function FeatureWords(id: Uuid, i: nat): (r: string)
    requires i <= 4
    ensures |r| > 0 <==> i > 0
  {
    if i == 0 then ""
    else if i == 1 then CppUuid.Hex(id[0] as nat)
    else FeatureWords(id, i - 1) + "-" + CppUuid.Hex(id[i - 1] as nat)
  }

  /** The feature string of one id. */
  function FeatureString(id: Uuid): string {
    FeatureWords(id, 4)
  }

  function FeatureStrings(ids: seq<Uuid>): (r: seq<string>)
    ensures |r| == |ids| && forall i :: 0 <= i < |ids| ==> r[i] == FeatureString(ids[i])
  {
    seq(|ids|, i requires 0 <= i < |ids| => FeatureString(ids[i]))
  }

  /** A feature string is the four elements in unpadded hexadecimal,
      joined by '-'. */
  lemma FeatureStringForm(id: Uuid)
    ensures FeatureString(id) == CppUuid.Hex(id[0] as nat) + "-" + CppUuid.Hex(id[1] as nat) + "-"
                                 + CppUuid.Hex(id[2] as nat) + "-" + CppUuid.Hex(id[3] as nat)
  {
    assert FeatureWords(id, 2) == CppUuid.Hex(id[0] as nat) + "-" + CppUuid.Hex(id[1] as nat);
    assert FeatureWords(id, 3) == FeatureWords(id, 2) + "-" + CppUuid.Hex(id[2] as nat);
  }

  /** The loop of registerApplication over the feature ids: one feature
      string appended per id, in order. */
  method AppendFeatureStrings(level: seq<string>, featureIds: seq<Uuid>) returns (r: seq<string>)
    ensures r == level + FeatureStrings(featureIds)
  {
    r := level;
    var k := 0;
    while k < |featureIds|
      invariant 0 <= k <= |featureIds|
      invariant r == level + FeatureStrings(featureIds[..k])
    {
      var text := FeatureText(featureIds[k]);
      assert FeatureStrings(featureIds[..k + 1]) == FeatureStrings(featureIds[..k]) + [text];
      r := r + [text];
      k := k + 1;
    }
    assert featureIds[..|featureIds|] == featureIds;
  }

  /** The inner loop of registerApplication, for one feature id. */
  method FeatureText(id: Uuid) returns (uuidString: string)
    ensures uuidString == FeatureString(id)
  {
    uuidString := "";
    var i := 0;
    while i < 4
      invariant 0 <= i <= 4 && uuidString == FeatureWords(id, i)
    {
      if |uuidString| > 0 {
        uuidString := uuidString + "-";
      }
      uuidString := uuidString + CppUuid.Hex(id[i] as nat);
      i := i + 1;
    }
  }

  /** The feature string is not the text form uuidToString writes: the id
      whose elements are 1, 2, 3 and 4 is advertised as "1-2-3-4", four
      groups without their leading zeros... */
  lemma FeatureStringExample()
    ensures FeatureString([1, 2, 3, 4]) == "1-2-3-4"
  {
    assert CppUuid.Hex(1) == "1" && CppUuid.Hex(2) == "2" && CppUuid.Hex(3) == "3" && CppUuid.Hex(4) == "4";
  }

  /** ...which uuidFromString reads back as the zero id, since its four
      digits do not fill one group of eight. */
  lemma FeatureStringParsesAsZero()
    ensures CppUuid.FromStringSpec("1-2-3-4") == ZeroUuid
  {
    assert CppUuid.NoDashes("1-2-3-4") == "1234";
  }

  /** Whether registerApplication accepts an application. */
  predicate RegisterAccepted(state: StartupState, applications: seq<ApplicationPtr>, application: ApplicationPtr) {
    state == Shutdown && application != Nullptr && application !in applications
  }

  /** The state and the result init leaves, given what the C init returned:
      only SHUTDOWN starts an init, and a failed C init leaves INIT_STARTED. */
  function InitOutcome(state: StartupState, native: Status): (r: (StartupState, bool))
    ensures r.1 <==> state == Shutdown && native == Success
    ensures state != Shutdown ==> r.0 == state
  {
    if state != Shutdown then (state, false)
    else if native == Success then (Initialized, true)
    else (InitStarted, false)
  }

  /** The state and the result shutdown leaves, given what the C shutdown
      returned: only INITIALIZED starts a shutdown, and a failed C shutdown
      leaves SHUTDOWN_STARTED. */
  function ShutdownOutcome(state: StartupState, native: Status): (r: (StartupState, bool))
    ensures r.1 <==> state == Initialized && native == Success
    ensures state != Initialized ==> r.0 == state
  {
    if state != Initialized then (state, false)
    else if native == Success then (Shutdown, true)
    else (ShutdownStarted, false)
  }

  /** A lifecycle call, with what the C core answers where it is asked. */
  datatype Call = Register(application: ApplicationPtr) | InitCall(native: Status) | ShutdownCall(native: Status)

  /** The state after one call: registerApplication always puts back the
      state it found. */
  function Next(state: StartupState, c: Call): StartupState {
    match c
    case Register(_) => state
    case InitCall(n) => InitOutcome(state, n).0
    case ShutdownCall(n) => ShutdownOutcome(state, n).0
  }

  /** The state after a sequence of calls. */
  function Run(state: StartupState, calls: seq<Call>): StartupState
    decreases |calls|
  {
    if calls == [] then state else Run(Next(state, calls[0]), calls[1..])
  }

  /** After a failed init or a failed shutdown no call ever changes the
      state again: nothing leaves INIT_STARTED or SHUTDOWN_STARTED. */
  lemma {:induction false} StuckAfterFailure(state: StartupState, calls: seq<Call>)
    requires state == InitStarted || state == ShutdownStarted
    ensures Run(state, calls) == state
    decreases |calls|
  {
    if calls != [] {
      assert Next(state, calls[0]) == state;
      StuckAfterFailure(state, calls[1..]);
    }
  }

  /** ADDING_APPLICATION is only ever seen inside registerApplication: no
      sequence of calls ends there. */
  lemma {:induction false} NeverLeftAdding(state: StartupState, calls: seq<Call>)
    requires state != AddingApplication
    ensures Run(state, calls) != AddingApplication
    decreases |calls|
  {
    if calls != [] {
      NeverLeftAdding(Next(state, calls[0]), calls[1..]);
    }
  }

  /** A successful init and a successful shutdown bring the framework back
      to SHUTDOWN, where applications can be registered again. */
  lemma InitShutdownCycle(calls: seq<Call>)
    ensures Run(Shutdown, [InitCall(Success), ShutdownCall(Success)] + calls) == Run(Shutdown, calls)
  {
    var two: seq<Call> := [InitCall(Success), ShutdownCall(Success)];
    assert (two + calls)[1..] == [ShutdownCall(Success)] + calls;
    assert ([ShutdownCall(Success)] + calls)[1..] == calls;
  }

  /** A call the framework makes to a callback: the function pointer's
      address and the arguments passed on. */
  datatype Invocation = Invocation(callback: nat, context: u32, messageType: Uuid, message: string)

  /** The calls the trampoline makes for a vector of callbacks: one per
      non-null pointer, in vector order. */
  function Invocations(callbacks: seq<FnPtr>, context: u32, messageType: Uuid, message: string): (r: seq<Invocation>)
    ensures |r| <= |callbacks|
    ensures forall k :: 0 <= k < |r| ==>
      Fn(r[k].callback) in callbacks && r[k] == Invocation(r[k].callback, context, messageType, message)
    decreases |callbacks|
  {
    if callbacks == [] then []
    else
      var front := Invocations(callbacks[..|callbacks| - 1], context, messageType, message);
      match callbacks[|callbacks| - 1]
      case NullFn => front
      case Fn(a) => front + [Invocation(a, context, messageType, message)]
  }

  /** Invocations over two vectors placed end to end are those of the first
      followed by those of the second. */
  lemma {:induction false} InvocationsAppend(a: seq<FnPtr>, b: seq<FnPtr>, context: u32, messageType: Uuid, message: string)
    ensures Invocations(a + b, context, messageType, message)
      == Invocations(a, context, messageType, message) + Invocations(b, context, messageType, message)
    decreases |b|
  {
    if b == [] {
      assert a + b == a;
    } else {
      var b' := b[..|b| - 1];
      assert (a + b)[..|a + b| - 1] == a + b';
      InvocationsAppend(a, b', context, messageType, message);
    }
  }

  /** A null pointer is skipped and any other is called exactly once. */
  lemma InvocationsOfOne(c: FnPtr, context: u32, messageType: Uuid, message: string)
    ensures c.NullFn? ==> Invocations([c], context, messageType, message) == []
    ensures c.Fn? ==> Invocations([c], context, messageType, message) == [Invocation(c.address, context, messageType, message)]
  {
    assert [c][..0] == [];
  }

  /** connector_cpp_trampoline: a copy of the type's vector (empty when
      nothing is bound), each non-null callback called in order with the
      message's context, type and text. */
  method Trampoline(registry: CallbackRegistry, context: u32, messageType: Uuid, message: string)
    returns (calls: seq<Invocation>)
    ensures calls == Invocations(Find(registry.callbackMap, messageType), context, messageType, message)
  {
    var callbacks := registry.FindCallbacks(messageType);
    calls := [];
    if |callbacks| > 0 {
      var i := 0;
      while i < |callbacks|
        invariant 0 <= i <= |callbacks|
        invariant calls == Invocations(callbacks[..i], context, messageType, message)
      {
        assert callbacks[..i + 1][..i] == callbacks[..i];
        if callbacks[i] != NullFn {
          calls := calls + [Invocation(callbacks[i].address, context, messageType, message)];
        }
        i := i + 1;
      }
      assert callbacks[..|callbacks|] == callbacks;
    }
  }

  /** A message whose type has no binding reaches nothing. */
  lemma UnboundTypeReachesNothing(callbacks: map<Uuid, seq<FnPtr>>, context: u32, messageType: Uuid, message: string)
    requires messageType !in callbacks
    ensures Invocations(Find(callbacks, messageType), context, messageType, message) == []
  {
  }

  /** The descriptor getConnectionContext serialises. */
  datatype ConnectionDetails = ConnectionDetails(displayName: string, idName: string, connectorVersion: string, availableFeatures: seq<string>)

  /** The framework's static state. */
  class Core {
    var applications: seq<ApplicationPtr>
    var startupState: StartupState
    var featureLevel: seq<string>
    var connectionDisplayName: string
    var connectionId: string
    var events: seq<Event>

    /** The set keeps its elements ordered. */
    predicate Valid()
      reads this
    {
      Increasing(applications)
    }

    /** Static initialisation: no applications, the zero state SHUTDOWN. */
    constructor ()
      ensures Valid() && applications == [] && startupState == StartupState.Shutdown && featureLevel == []
      ensures connectionDisplayName == "" && connectionId == "" && events == []
    {
      applications := [];
      startupState := StartupState.Shutdown;
      featureLevel := [];
      connectionDisplayName := "";
      connectionId := "";
      events := [];
    }

    /** getConnectionContext: the names init stored, the C core's version
        (passed in) and the feature strings of every registered id. */
    function ConnectionContext(version: string): (r: ConnectionDetails)
      reads this
      ensures r.idName == connectionId && r.displayName == connectionDisplayName
      ensures r.availableFeatures == featureLevel && r.connectorVersion == version
    {
      ConnectionDetails(connectionDisplayName, connectionId, version, featureLevel)
    }

    /** registerApplication: in SHUTDOWN, a non-null application not yet in
        the set is added and each of its feature ids (what its getFeatureIds
        returns) appended to featureLevel as a feature string; the state is
        put back to SHUTDOWN whatever happened. */
    method RegisterApplication(application: ApplicationPtr, featureIds: seq<Uuid>) returns (result: bool)
      requires Valid()
      modifies this
      ensures Valid()
      ensures result == RegisterAccepted(old(startupState), old(applications), application)
      ensures result ==> applications == Insert(old(applications), application)
      ensures result ==> featureLevel == old(featureLevel) + FeatureStrings(featureIds)
      ensures !result ==> applications == old(applications) && featureLevel == old(featureLevel)
      ensures startupState == old(startupState) && events == old(events)
      ensures connectionDisplayName == old(connectionDisplayName) && connectionId == old(connectionId)
    {
      result := false;
      if startupState == StartupState.Shutdown {
        startupState := AddingApplication;
        if application != Nullptr && application !in applications {
          applications := Insert(applications, application);
          result := true;
          featureLevel := AppendFeatureStrings(featureLevel, featureIds);
        }
        startupState := StartupState.Shutdown;
      }
    }

    /** init(display_name, id, module): the names are stored before the
        state is checked, so even a refused init replaces them. From
        SHUTDOWN it loads the C core from `moduleHandle`, runs preInit, calls the C
        init with the id and, when that answers SUCCESS, installs the
        trampoline, runs postInit and becomes INITIALIZED. */
    method Init(displayName: string, id: string, moduleHandle: nat, native: Status) returns (result: bool)
      requires Valid()
      modifies this
      ensures Valid()
      ensures connectionDisplayName == displayName && connectionId == id
      ensures (startupState, result) == InitOutcome(old(startupState), native)
      ensures old(startupState) != StartupState.Shutdown ==> events == old(events)
      ensures old(startupState) == StartupState.Shutdown ==>
        events == old(events) + [InitDynamicLoad(moduleHandle)] + HookEvents(PreInitHook, applications) + [NativeInit(id)]
                  + (if result then [AddTrampoline] + HookEvents(PostInitHook, applications) else [])
      ensures applications == old(applications) && featureLevel == old(featureLevel)
    {
      connectionDisplayName := displayName;
      connectionId := id;
      result := false;
      if startupState == StartupState.Shutdown {
        startupState := InitStarted;
        var pre := HookLoop(PreInitHook, applications);
        var log := events + [InitDynamicLoad(moduleHandle)] + pre + [NativeInit(id)];
        result := native == Success;
        if result {
          var post := HookLoop(PostInitHook, applications);
          log := log + [AddTrampoline] + post;
          startupState := Initialized;
        }
        events := log;
      }
    }

    /** init(display_name, module): the display name doubles as the id. */
    method InitSameId(displayName: string, moduleHandle: nat, native: Status) returns (result: bool)
      requires Valid()
      modifies this
      ensures Valid()
      ensures connectionDisplayName == displayName && connectionId == displayName
      ensures (startupState, result) == InitOutcome(old(startupState), native)
      ensures old(startupState) != StartupState.Shutdown ==> events == old(events)
      ensures old(startupState) == StartupState.Shutdown ==>
        events == old(events) + [InitDynamicLoad(moduleHandle)] + HookEvents(PreInitHook, applications) + [NativeInit(displayName)]
                  + (if result then [AddTrampoline] + HookEvents(PostInitHook, applications) else [])
      ensures applications == old(applications) && featureLevel == old(featureLevel)
    {
      result := Init(displayName, displayName, moduleHandle, native);
    }

    /** shutdown: from INITIALIZED, runs preShutdown and calls the C
        shutdown; when that answers SUCCESS it runs postShutdown, returns to
        SHUTDOWN and forgets the applications and their feature strings. */
    method Shutdown(native: Status) returns (result: bool)
      requires Valid()
      modifies this
      ensures Valid()
      ensures (startupState, result) == ShutdownOutcome(old(startupState), native)
      ensures old(startupState) != Initialized ==> events == old(events)
      ensures old(startupState) == Initialized ==>
        events == old(events) + HookEvents(PreShutdownHook, old(applications)) + [NativeShutdown]
                  + (if result then HookEvents(PostShutdownHook, old(applications)) else [])
      ensures result ==> applications == [] && featureLevel == []
      ensures !result ==> applications == old(applications) && featureLevel == old(featureLevel)
      ensures connectionDisplayName == old(connectionDisplayName) && connectionId == old(connectionId)
    {
      result := false;
      if startupState == Initialized {
        startupState := ShutdownStarted;
        var pre := HookLoop(PreShutdownHook, applications);
        var log := events + pre + [NativeShutdown];
        result := native == Success;
        if result {
          var post := HookLoop(PostShutdownHook, applications);
          log := log + post;
          startupState := StartupState.Shutdown;
          applications := [];
          featureLevel := [];
        }
        events := log;
      }
    }
  }
}
