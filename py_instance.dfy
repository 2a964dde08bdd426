/** module-python/lib/substanceconnector/framework/instance.py: the
    ConnectorInstance lifecycle and its _ApplicationManager. The calls into
    the native `connector` module and into the applications' hooks are
    recorded, in order, in an event log; what the native calls return is
    passed in. */
module PyInstance {
  import opened Common
  import opened PyUuidUtils
  import opened PyJson
  import opened PyCallbacks
  import opened PyMessage
  import opened PyTrampoline
  import opened PyApplication
  import opened PyConnectionSchema
  import opened PyJsonSchema
  import CppUuid

  /** ConnectorInstance._State, values 0 to 4 in order. */
  datatype State = ShutdownState | InitStartedState | InitializedState | ShutdownStartedState | ErrorState

  /** The application hooks the manager calls. */
  datatype Hook = PreInitHook | PostInitHook | PreShutdownHook | PostShutdownHook

  /** A message text, or the JSON value a to_json text encodes. */
  datatype Payload = Text(text: string) | Serialized(value: Json)

  /** What the instance does outside its own fields, in order. */
  datatype Event =
    | HookCall(hook: Hook, app: Application)
    | NativeInit(applicationName: string)
    | NativeRegisterTrampoline
    | NativeOpenDefaultTcp
    | NativeBroadcastTcp
    | CallbacksCleared
    | NativeShutdown
    | NativeWrite(context: int, words: Uuid, payload: Payload)

  /** One call of `hook` on every application of the list, in list order. */
  function HookCalls(hook: Hook, apps: seq<Application>): (calls: seq<Event>)
    ensures |calls| == |apps|
    ensures forall i :: 0 <= i < |apps| ==> calls[i] == HookCall(hook, apps[i])
    decreases |apps|
  {
    if apps == [] then [] else HookCalls(hook, apps[..|apps| - 1]) + [HookCall(hook, apps[|apps| - 1])]
  }

  /** The callback map after every application's pre_init, in list order. */
  function RegisteredAll(m: map<MessageType, PyCallable>, apps: seq<Application>): map<MessageType, PyCallable>
    decreases |apps|
  {
    if apps == [] then m
    else Registered(RegisteredAll(m, apps[..|apps| - 1]), apps[|apps| - 1].callbackList)
  }

  /** The log of an initialize that passed its guard: every pre_init, the
      native init, and, only when that returned 0, the trampoline
      registration, the default connection, the broadcast and every
      post_init. */
  function InitLog(apps: seq<Application>, name: string, nativeOk: bool): seq<Event> {
    HookCalls(PreInitHook, apps) + [NativeInit(name)]
    + (if nativeOk
       then [NativeRegisterTrampoline, NativeOpenDefaultTcp, NativeBroadcastTcp] + HookCalls(PostInitHook, apps)
       else [])
  }

  /** The log of a shutdown that passed its guard: every pre_shutdown, the
      clearing of the callbacks, the native shutdown and, only when that
      returned 0, every post_shutdown. */
  function ShutdownLog(apps: seq<Application>, nativeOk: bool): seq<Event> {
    HookCalls(PreShutdownHook, apps) + [CallbacksCleared, NativeShutdown]
    + (if nativeOk then HookCalls(PostShutdownHook, apps) else [])
  }

  /** The three lifecycle calls, with what their native call returns. */
  datatype LifecycleCall =
    | RegisterCall(hasFeatureIds: bool)
    | InitializeCall(nativeOk: bool)
    | ShutdownCall(nativeOk: bool)

  /** Whether the call raises from this state. */
  predicate Raises(s: State, call: LifecycleCall) {
    match call
    case RegisterCall(hasFeatureIds) => s != ShutdownState || !hasFeatureIds
    case InitializeCall(nativeOk) => s != ShutdownState || !nativeOk
    case ShutdownCall(nativeOk) => s != InitializedState || !nativeOk
  }

  /** The state a call leaves behind. */
  function NextState(s: State, call: LifecycleCall): State {
    match call
    case RegisterCall(_) => s
    case InitializeCall(nativeOk) => if s != ShutdownState then s else if nativeOk then InitializedState else ErrorState
    case ShutdownCall(nativeOk) => if s != InitializedState then s else if nativeOk then ShutdownState else ErrorState
  }

  /** The state after a sequence of calls. */
  function Run(s: State, calls: seq<LifecycleCall>): State
    decreases |calls|
  {
    if calls == [] then s else Run(NextState(s, calls[0]), calls[1..])
  }

  /** The states a sequence of complete calls can leave. */
  predicate AtRest(s: State) {
    s == ShutdownState || s == InitializedState || s == ErrorState
  }

  const NotShutdownForRegister := "Error - all Connector applications must be registered prior to initialization"
  const NotShutdownForInit := "Initialization must be called from an uninitialized state"
  const InitFailed := "Failed to initialize connector library, state now set to error."
  const NotInitializedForShutdown := "Shutdown must be called from a fully initialized state."
  const ShutdownFailed := "Failed to properly shutdown connector library, state now set to error."

  /** str(uuid.UUID(int=f)): the 8-4-4-4-12 lower-case hexadecimal form,
      which is the text of its four 32-bit words. */
  function FeatureString(f: FeatureId): string {
    CppUuid.UuidToString(ToIntegers(f))
  }

  /** `[str(feature_id) for feature_id in feature_level]`. */
  function FeatureStrings(features: seq<FeatureId>): (r: seq<Json>)
    ensures |r| == |features|
    ensures forall i :: 0 <= i < |features| ==> r[i] == JStr(FeatureString(features[i]))
    decreases |features|
  {
    if features == [] then [] else [JStr(FeatureString(features[0]))] + FeatureStrings(features[1..])
  }

  /** A Python value that is a string or None. */
  function NameValue(name: Option<string>): Json {
    match name
    case None => JNull
    case Some(s) => JStr(s)
  }

  /** convert_integers_to_uuid followed by call_trampoline, as a value. */
  function Received(trampoline: Trampoline, context: int, uuidInts: seq<int>, message: string,
                    callbacks: map<MessageType, PyCallable>): Result<seq<Invocation>, PyError>
  {
    match FromIntegers(uuidInts)
    case Err(e) => Err(e)
    case Ok(v) => Ok(Dispatch(trampoline, context, v, message, callbacks))
  }

  /** _ApplicationManager: the registered application classes, in order. */
  class ApplicationManager {
    var applicationList: seq<Application>

    constructor ()
      ensures applicationList == []
    {
      applicationList := [];
    }

    /** register_application: appends. */
    method RegisterApplication(app: Application)
      modifies this
      ensures applicationList == old(applicationList) + [app]
    {
      applicationList := applicationList + [app];
    }

    /** call_pre_init: each application's pre_init, BaseApplication's, which
        registers its callback list, in list order. */
    method CallPreInit(callbacks: CallbackManager) returns (calls: seq<Event>)
      modifies callbacks
      ensures callbacks.callbackMap == RegisteredAll(old(callbacks.callbackMap), applicationList)
      ensures calls == HookCalls(PreInitHook, applicationList)
    {
      var apps := applicationList;
      calls := [];
      var i := 0;
      while i < |apps|
        invariant 0 <= i <= |apps|
        invariant callbacks.callbackMap == RegisteredAll(old(callbacks.callbackMap), apps[..i])
        invariant calls == HookCalls(PreInitHook, apps[..i])
      {
        assert apps[..i + 1][..i] == apps[..i];
        PreInit(apps[i], callbacks);
        calls := calls + [HookCall(PreInitHook, apps[i])];
        i := i + 1;
      }
      assert apps[..i] == apps;
    }

    /** call_post_init, call_pre_shutdown and call_post_shutdown: the hook
      of each application, in list order. */
    method CallHook(hook: Hook) returns (calls: seq<Event>)
      requires hook != PreInitHook
      ensures calls == HookCalls(hook, applicationList)
    {
      var apps := applicationList;
      calls := [];
      var i := 0;
      while i < |apps|
        invariant 0 <= i <= |apps|
        invariant calls == HookCalls(hook, apps[..i])
      {
        assert apps[..i + 1][..i] == apps[..i];
        calls := calls + [HookCall(hook, apps[i])];
        i := i + 1;
      }
      assert apps[..i] == apps;
    }

    /** clear_applications. */
    method ClearApplications()
      modifies this
      ensures applicationList == []
    {
      applicationList := [];
    }
  }

  /** ConnectorInstance, whose class attributes are the fields; the
      CallbackManager and TrampolineManager it drives are shared with the
      message dispatch. */
  class ConnectorInstance {
    var applicationName: Option<string>
    var state: State
    var openContext: Option<int>
    var featureLevel: seq<FeatureId>
    var events: seq<Event>
    const manager: ApplicationManager
    const callbacks: CallbackManager
    const trampolines: TrampolineManager

    /** The class as imported. */
    constructor (callbacks: CallbackManager, trampolines: TrampolineManager)
      ensures applicationName == None && state == ShutdownState && openContext == None
      ensures featureLevel == [] && events == [] && fresh(manager) && manager.applicationList == []
      ensures this.callbacks == callbacks && this.trampolines == trampolines
    {
      applicationName := None;
      state := ShutdownState;
      openContext := None;
      featureLevel := [];
      events := [];
      manager := new ApplicationManager();
      this.callbacks := callbacks;
      this.trampolines := trampolines;
    }

    /** register_application: only in SHUTDOWN; `+=` of None raises a
      TypeError before anything changes; otherwise the feature ids are
      appended and then the application. */
    method RegisterApplication(app: Application) returns (raised: Option<PyException>)
      modifies this, manager
      ensures state == NextState(old(state), RegisterCall(app.featureIds.Some?)) == old(state)
      ensures raised.Some? == Raises(old(state), RegisterCall(app.featureIds.Some?))
      ensures old(state) != ShutdownState ==> raised == Some(ConnectorException(NotShutdownForRegister))
      ensures old(state) == ShutdownState && app.featureIds.None? ==> raised == Some(TypeError)
      ensures raised.Some? ==>
        featureLevel == old(featureLevel) && manager.applicationList == old(manager.applicationList)
      ensures raised.None? ==>
        featureLevel == old(featureLevel) + app.featureIds.value
        && manager.applicationList == old(manager.applicationList) + [app]
      ensures applicationName == old(applicationName) && openContext == old(openContext) && events == old(events)
    {
      if state != ShutdownState {
        return Some(ConnectorException(NotShutdownForRegister));
      }
      if app.featureIds.None? {
        return Some(TypeError);
      }
      featureLevel := featureLevel + app.featureIds.value;
      manager.RegisterApplication(app);
      raised := None;
    }

    /** initialize: only from SHUTDOWN; the rest is InitializeFromShutdown. */
    method Initialize(name: string, nativeResult: int, openedContext: int) returns (raised: Option<PyException>)
      modifies this, callbacks, trampolines
      ensures state == NextState(old(state), InitializeCall(nativeResult == 0))
      ensures raised.Some? == Raises(old(state), InitializeCall(nativeResult == 0))
      ensures manager.applicationList == old(manager.applicationList) && featureLevel == old(featureLevel)
      ensures old(state) != ShutdownState ==>
        raised == Some(ConnectorException(NotShutdownForInit)) && events == old(events)
        && callbacks.callbackMap == old(callbacks.callbackMap) && trampolines.current == old(trampolines.current)
        && applicationName == old(applicationName) && openContext == old(openContext)
      ensures old(state) == ShutdownState ==>
        events == old(events) + InitLog(manager.applicationList, name, nativeResult == 0)
        && callbacks.callbackMap == RegisteredAll(old(callbacks.callbackMap), manager.applicationList)
        && trampolines.current == Initialized(old(trampolines.current))
      ensures old(state) == ShutdownState && nativeResult != 0 ==>
        raised == Some(ConnectorException(InitFailed))
        && applicationName == old(applicationName) && openContext == old(openContext)
      ensures old(state) == ShutdownState && nativeResult == 0 ==>
        raised == None && applicationName == Some(name) && openContext == Some(openedContext)
    {
      if state != ShutdownState {
        return Some(ConnectorException(NotShutdownForInit));
      }
      raised := InitializeFromShutdown(name, nativeResult, openedContext);
    }

    /** The body of initialize once its guard has passed. It goes through
      INITIALIZED_STARTED, runs every pre_init, sets up the trampoline and
      calls the native init, whose non-zero result gives ERROR and raises;
      otherwise it registers the trampoline, opens the default connection,
      broadcasts, keeps the name, runs every post_init and ends in
      INITIALIZED. `nativeResult` is what `connector.init` returns and
      `openedContext` what `connector.open_default_tcp` returns. */
    method InitializeFromShutdown(name: string, nativeResult: int, openedContext: int)
      returns (raised: Option<PyException>)
      requires state == ShutdownState
      modifies this, callbacks, trampolines
      ensures manager.applicationList == old(manager.applicationList) && featureLevel == old(featureLevel)
      ensures events == old(events) + InitLog(manager.applicationList, name, nativeResult == 0)
      ensures callbacks.callbackMap == RegisteredAll(old(callbacks.callbackMap), manager.applicationList)
      ensures trampolines.current == Initialized(old(trampolines.current))
      ensures nativeResult != 0 ==>
        raised == Some(ConnectorException(InitFailed)) && state == ErrorState
        && applicationName == old(applicationName) && openContext == old(openContext)
      ensures nativeResult == 0 ==>
        raised == None && state == InitializedState
        && applicationName == Some(name) && openContext == Some(openedContext)
    {
      state := InitStartedState;
      var apps := manager.applicationList;
      var pre := manager.CallPreInit(callbacks);
      trampolines.Initialize();
      var log := pre + [NativeInit(name)];
      if nativeResult != 0 {
        assert log == InitLog(apps, name, false);
        events := events + log;
        state := ErrorState;
        return Some(ConnectorException(InitFailed));
      }
      openContext := Some(openedContext);
      applicationName := Some(name);
      var post := manager.CallHook(PostInitHook);
      log := log + ([NativeRegisterTrampoline, NativeOpenDefaultTcp, NativeBroadcastTcp] + post);
      events := events + log;
      state := InitializedState;
      raised := None;
    }

    /** shutdown: only from INITIALIZED; the rest is ShutdownFromInitialized. */
    method Shutdown(nativeResult: int) returns (raised: Option<PyException>)
      modifies this, manager, callbacks
      ensures state == NextState(old(state), ShutdownCall(nativeResult == 0))
      ensures raised.Some? == Raises(old(state), ShutdownCall(nativeResult == 0))
      ensures featureLevel == old(featureLevel)
      ensures old(state) != InitializedState ==>
        raised == Some(ConnectorException(NotInitializedForShutdown)) && events == old(events)
        && callbacks.callbackMap == old(callbacks.callbackMap)
        && manager.applicationList == old(manager.applicationList)
        && applicationName == old(applicationName) && openContext == old(openContext)
      ensures old(state) == InitializedState ==>
        events == old(events) + ShutdownLog(old(manager.applicationList), nativeResult == 0)
        && callbacks.callbackMap == map[]
      ensures old(state) == InitializedState && nativeResult != 0 ==>
        raised == Some(ConnectorException(ShutdownFailed))
        && manager.applicationList == old(manager.applicationList)
        && applicationName == old(applicationName) && openContext == old(openContext)
      ensures old(state) == InitializedState && nativeResult == 0 ==>
        raised == None && manager.applicationList == [] && applicationName == Some("") && openContext == None
    {
      if state != InitializedState {
        return Some(ConnectorException(NotInitializedForShutdown));
      }
      raised := ShutdownFromInitialized(nativeResult);
    }

    /** The body of shutdown once its guard has passed. It goes through
      SHUTDOWN_STARTED, runs every pre_shutdown, clears the callbacks and
      calls the native shutdown, whose non-zero result gives ERROR and
      raises; otherwise the name becomes '', the open context None, every
      post_shutdown runs, the applications are forgotten and the state is
      SHUTDOWN again. The feature ids are kept. */
    method ShutdownFromInitialized(nativeResult: int) returns (raised: Option<PyException>)
      requires state == InitializedState
      modifies this, manager, callbacks
      ensures featureLevel == old(featureLevel)
      ensures events == old(events) + ShutdownLog(old(manager.applicationList), nativeResult == 0)
      ensures callbacks.callbackMap == map[]
      ensures nativeResult != 0 ==>
        raised == Some(ConnectorException(ShutdownFailed)) && state == ErrorState
        && manager.applicationList == old(manager.applicationList)
        && applicationName == old(applicationName) && openContext == old(openContext)
      ensures nativeResult == 0 ==>
        raised == None && state == ShutdownState
        && manager.applicationList == [] && applicationName == Some("") && openContext == None
    {
      state := ShutdownStartedState;
      var apps := manager.applicationList;
      var pre := manager.CallHook(PreShutdownHook);
      callbacks.ClearCallbacks();
      var log := pre + [CallbacksCleared, NativeShutdown];
      if nativeResult != 0 {
        assert log == ShutdownLog(apps, false);
        events := events + log;
        state := ErrorState;
        return Some(ConnectorException(ShutdownFailed));
      }
      applicationName := Some("");
      openContext := None;
      var post := manager.CallHook(PostShutdownHook);
      manager.ClearApplications();
      log := log + post;
      assert log == ShutdownLog(apps, true);
      events := events + log;
      state := ShutdownState;
      raised := None;
    }

    /** write_message: the type as four 32-bit words, then the native
      write. */
    method WriteMessage(context: int, messageType: MessageType, message: Payload)
      modifies this
      ensures events == old(events) + [NativeWrite(context, ToIntegers(messageType), message)]
      ensures state == old(state) && applicationName == old(applicationName)
      ensures openContext == old(openContext) && featureLevel == old(featureLevel)
    {
      var words := ToIntegers(messageType);
      events := events + [NativeWrite(context, words, message)];
    }

    /** get_connection_context: the application name as display and id
      name, the native version, and the feature ids as strings. */
    function ConnectionContext(version: string): (s: ConnectionSchema)
      reads this
      ensures s.displayName == s.idName == NameValue(applicationName)
      ensures s.connectorVersion == JStr(version)
      ensures s.availableFeatures.JArr? && |s.availableFeatures.items| == |featureLevel|
      ensures forall i :: 0 <= i < |featureLevel| ==>
        s.availableFeatures.items[i] == JStr(FeatureString(featureLevel[i]))
    {
      ConnectionSchema(NameValue(applicationName), NameValue(applicationName), JStr(version),
                       JArr(FeatureStrings(featureLevel)))
    }

    /** _trampoline, the function the native library calls with each
      incoming message: the four words back to a uuid.UUID, whose errors
      propagate, then call_trampoline. */
    method NativeTrampoline(context: int, uuidInts: seq<int>, message: string)
      returns (r: Result<seq<Invocation>, PyError>)
      ensures r == Received(trampolines.current, context, uuidInts, message, callbacks.callbackMap)
    {
      var converted := FromIntegers(uuidInts);
      if converted.Err? {
        return Err(converted.error);
      }
      var calls := trampolines.CallTrampoline(context, converted.value, message, callbacks);
      r := Ok(calls);
    }
  }

  /** In the log of initialize, every pre_init comes first, in
      registration order, then the native init; every post_init comes after
      it, and none at all when the native init failed. */
  lemma InitLogOrder(apps: seq<Application>, name: string, nativeOk: bool)
    ensures var log := InitLog(apps, name, nativeOk);
      && (forall i :: 0 <= i < |apps| ==> log[i] == HookCall(PreInitHook, apps[i]))
      && log[|apps|] == NativeInit(name)
      && (nativeOk ==> |log| == 2 * |apps| + 4
                       && forall i :: 0 <= i < |apps| ==> log[|apps| + 4 + i] == HookCall(PostInitHook, apps[i]))
      && (!nativeOk ==> |log| == |apps| + 1
                        && forall i :: 0 <= i < |log| ==> !(log[i].HookCall? && log[i].hook == PostInitHook))
  {
    var log := InitLog(apps, name, nativeOk);
    var pre := HookCalls(PreInitHook, apps);
    assert forall i :: 0 <= i < |apps| ==> log[i] == pre[i];
    if nativeOk {
      var post := HookCalls(PostInitHook, apps);
      assert forall i :: 0 <= i < |apps| ==> log[|apps| + 4 + i] == post[i];
    }
  }

  /** In the log of shutdown, every pre_shutdown comes first, then the
      callbacks are cleared, then the native shutdown; every post_shutdown
      comes after it, and none when the native shutdown failed. */
  lemma ShutdownLogOrder(apps: seq<Application>, nativeOk: bool)
    ensures var log := ShutdownLog(apps, nativeOk);
      && (forall i :: 0 <= i < |apps| ==> log[i] == HookCall(PreShutdownHook, apps[i]))
      && log[|apps|] == CallbacksCleared && log[|apps| + 1] == NativeShutdown
      && (nativeOk ==> |log| == 2 * |apps| + 2
                       && forall i :: 0 <= i < |apps| ==> log[|apps| + 2 + i] == HookCall(PostShutdownHook, apps[i]))
      && (!nativeOk ==> |log| == |apps| + 2
                        && forall i :: 0 <= i < |log| ==> !(log[i].HookCall? && log[i].hook == PostShutdownHook))
  {
    var log := ShutdownLog(apps, nativeOk);
    var pre := HookCalls(PreShutdownHook, apps);
    assert forall i :: 0 <= i < |apps| ==> log[i] == pre[i];
    if nativeOk {
      var post := HookCalls(PostShutdownHook, apps);
      assert forall i :: 0 <= i < |apps| ==> log[|apps| + 2 + i] == post[i];
    }
  }

  /** Once in ERROR, every lifecycle call raises and the state stays ERROR. */
  lemma {:induction false} ErrorIsFinal(calls: seq<LifecycleCall>)
    ensures Run(ErrorState, calls) == ErrorState
    ensures forall i :: 0 <= i < |calls| ==> Raises(ErrorState, calls[i])
    decreases |calls|
  {
    if calls != [] {
      ErrorIsFinal(calls[1..]);
      forall i | 0 <= i < |calls|
        ensures Raises(ErrorState, calls[i])
      {
      }
    }
  }

  /** Between calls the state is SHUTDOWN, INITIALIZED or ERROR: the two
      STARTED states never outlast the call that entered them. */
  lemma {:induction false} RunStaysAtRest(s: State, calls: seq<LifecycleCall>)
    requires AtRest(s)
    ensures AtRest(Run(s, calls))
    decreases |calls|
  {
    if calls != [] {
      RunStaysAtRest(NextState(s, calls[0]), calls[1..]);
    }
  }

  /** A successful initialize followed by a successful shutdown brings the
      instance back to SHUTDOWN, ready for another initialize. */
  lemma InitializeShutdownCycle(registrations: seq<LifecycleCall>)
    requires forall i :: 0 <= i < |registrations| ==> registrations[i].RegisterCall?
    ensures Run(ShutdownState, registrations + [InitializeCall(true), ShutdownCall(true)]) == ShutdownState
  {
    RunRegistrations(ShutdownState, registrations, [InitializeCall(true), ShutdownCall(true)]);
  }

  lemma {:induction false} RunRegistrations(s: State, registrations: seq<LifecycleCall>, rest: seq<LifecycleCall>)
    requires forall i :: 0 <= i < |registrations| ==> registrations[i].RegisterCall?
    ensures Run(s, registrations + rest) == Run(s, rest)
    decreases |registrations|
  {
    if registrations != [] {
      var all := registrations + rest;
      assert all[0] == registrations[0] && all[1..] == registrations[1..] + rest;
      assert NextState(s, all[0]) == s;
      assert Run(s, all) == Run(s, all[1..]);
      RunRegistrations(s, registrations[1..], rest);
    } else {
      assert registrations + rest == rest;
    }
  }

  /** A message written with write_message and handed back by the native
      library to _trampoline reaches the trampoline with the type it was
      written with. */
  lemma WrittenTypeReceived(trampoline: Trampoline, context: int, messageType: MessageType, message: string,
                            callbacks: map<MessageType, PyCallable>)
    ensures Received(trampoline, context, AsInts(ToIntegers(messageType)), message, callbacks)
      == Ok(Dispatch(trampoline, context, messageType, message, callbacks))
  {
    IntegersRoundTrip(messageType);
  }

  /** Each feature string of the connection context reads back, as a C++
      peer parses it, to the words of the feature id. */
  lemma FeatureStringsParse(f: FeatureId)
    ensures CppUuid.FromStringSpec(FeatureString(f)) == ToIntegers(f)
  {
    CppUuid.UuidStringRoundTrip(ToIntegers(f));
  }

  /** The context an instance sends is never valid as is_valid is
      written, and is valid against the corrected schema exactly when the
      instance has been initialized with a name. */
  lemma OwnContextRejected(instance: ConnectorInstance, version: string)
    ensures !IsValid(instance.ConnectionContext(version))
    ensures IsValidCorrected(instance.ConnectionContext(version)) <==> instance.applicationName.Some?
  {
    var s := instance.ConnectionContext(version);
    assert !Satisfies(ToJson(s).fields[AvailableFeaturesKey], ConnectionSchemaDef.properties[AvailableFeaturesKey]);
    if instance.applicationName.None? {
      assert !Satisfies(ToJson(s).fields[DisplayNameKey], ConnectionSchemaDefCorrected.properties[DisplayNameKey]);
    }
  }
}
