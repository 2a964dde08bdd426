/** module-python/lib/substanceconnector/framework/trampoline.py: the
    TrampolineManager, whose class attribute `_current_trampoline` is the
    function every incoming message is handed to. */
module PyTrampoline {
  import opened PyCallbacks
  import opened PyMessage

  /** The value of `_current_trampoline`: None, the bound
      `_default_trampoline`, or a function the application installed. */
  datatype Trampoline = NoTrampoline | DefaultTrampoline | CustomTrampoline(installed: PyCallable)

  /** Python truth value of `_current_trampoline`. */
  predicate TrampolineTruthy(t: Trampoline) {
    t.DefaultTrampoline? || (t.CustomTrampoline? && Truthy(t.installed))
  }

  /** The trampoline after `initialize`. */
  function Initialized(t: Trampoline): Trampoline {
    if t == NoTrampoline then DefaultTrampoline else t
  }

  /** The trampoline after `set_custom_trampoline(f)`. */
  function WithCustom(t: Trampoline, f: PyCallable): Trampoline {
    if Truthy(f) then CustomTrampoline(f) else t
  }

  /** The calls `call_trampoline` makes: none without a trampoline, the
      default one dispatches through Message.process, a custom one is called
      itself. At most one call is made, exactly when the trampoline is
      truthy and is custom or finds a truthy callback, and it passes the
      context, type and text through unchanged. */
  function Dispatch(t: Trampoline, context: int, messageType: MessageType, message: string,
                    callbacks: map<MessageType, PyCallable>): (calls: seq<Invocation>)
    ensures |calls| <= 1
    ensures calls != [] <==> TrampolineTruthy(t) && (t.CustomTrampoline? || Truthy(Lookup(callbacks, messageType)))
    ensures forall c :: c in calls ==>
      c == Invocation(if t.CustomTrampoline? then t.installed else Lookup(callbacks, messageType), context, messageType, message)
  {
    if !TrampolineTruthy(t) then []
    else if t.DefaultTrampoline? then Process(Message(context, messageType, message), callbacks)
    else [Invocation(t.installed, context, messageType, message)]
  }

  class TrampolineManager {
    var current: Trampoline

    /** The class as imported: no trampoline. */
    constructor ()
      ensures current == NoTrampoline
    {
      current := NoTrampoline;
    }

    /** initialize: installs the default trampoline only when none is set. */
    method Initialize()
      modifies this
      ensures current == Initialized(old(current))
    {
      if current == NoTrampoline {
        current := DefaultTrampoline;
      }
    }

    /** set_custom_trampoline: a falsy argument is ignored. */
    method SetCustomTrampoline(f: PyCallable)
      modifies this
      ensures current == WithCustom(old(current), f)
    {
      if Truthy(f) {
        current := CustomTrampoline(f);
      }
    }

    /** reset_trampoline: back to None. */
    method ResetTrampoline()
      modifies this
      ensures current == NoTrampoline
    {
      current := NoTrampoline;
    }

    /** call_trampoline: calls the current trampoline, if any, once; the
      default one looks the type up in the callback map. */
    method CallTrampoline(context: int, messageType: MessageType, message: string, callbacks: CallbackManager)
      returns (calls: seq<Invocation>)
      ensures calls == Dispatch(current, context, messageType, message, callbacks.callbackMap)
      ensures current == NoTrampoline ==> calls == []
      ensures current == DefaultTrampoline ==>
        calls == Process(Message(context, messageType, message), callbacks.callbackMap)
      ensures current.CustomTrampoline? && Truthy(current.installed) ==>
        calls == [Invocation(current.installed, context, messageType, message)]
    {
      calls := [];
      if TrampolineTruthy(current) {
        match current {
          case DefaultTrampoline =>
            var m := Message(context, messageType, message);
            var callback := callbacks.FindCallback(m.messageType);
            if Truthy(callback) {
              calls := [Invocation(callback, m.context, m.messageType, m.message)];
            }
          case CustomTrampoline(f) =>
            calls := [Invocation(f, context, messageType, message)];
        }
      }
    }
  }

  /** initialize never replaces a trampoline that is already set, always
      leaves one set, and a second call changes nothing. */
  lemma InitializeKeepsExisting(t: Trampoline)
    ensures t != NoTrampoline ==> Initialized(t) == t
    ensures Initialized(t) != NoTrampoline
    ensures Initialized(Initialized(t)) == Initialized(t)
  {
  }

  /** A custom trampoline survives initialize, and the default one then
      never runs. */
  lemma CustomSurvivesInitialize(t: Trampoline, f: PyCallable, context: int, messageType: MessageType,
                                 message: string, callbacks: map<MessageType, PyCallable>)
    requires Truthy(f)
    ensures Initialized(WithCustom(t, f)) == CustomTrampoline(f)
    ensures Dispatch(Initialized(WithCustom(t, f)), context, messageType, message, callbacks)
      == [Invocation(f, context, messageType, message)]
  {
  }

  /** set_custom_trampoline with a falsy argument keeps the trampoline. */
  lemma FalsyCustomIgnored(t: Trampoline, f: PyCallable)
    requires !Truthy(f)
    ensures WithCustom(t, f) == t
  {
  }

  /** After reset_trampoline, call_trampoline calls nothing. */
  lemma ResetSilences(context: int, messageType: MessageType, message: string,
                      callbacks: map<MessageType, PyCallable>)
    ensures Dispatch(NoTrampoline, context, messageType, message, callbacks) == []
  {
  }

  /** At most one call, and it is to the current trampoline itself or, for
      the default, to the callback registered for the type. */
  lemma DispatchCallsOnce(t: Trampoline, context: int, messageType: MessageType, message: string,
                          callbacks: map<MessageType, PyCallable>)
    ensures |Dispatch(t, context, messageType, message, callbacks)| <= 1
    ensures t.CustomTrampoline? && Truthy(t.installed) ==>
      Dispatch(t, context, messageType, message, callbacks) == [Invocation(t.installed, context, messageType, message)]
    ensures t == DefaultTrampoline && messageType in callbacks && Truthy(callbacks[messageType]) ==>
      Dispatch(t, context, messageType, message, callbacks)
        == [Invocation(callbacks[messageType], context, messageType, message)]
  {
    ProcessCallsRegistered(Message(context, messageType, message), callbacks);
  }
}
