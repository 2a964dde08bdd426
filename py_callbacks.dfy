/** module-python/lib/substanceconnector/framework/callbacks.py: the
    CallbackManager, whose class-level `_callback_map` maps message types to
    the callback registered for them. A message type is a uuid.UUID, given
    here by its 128-bit integer. */
module PyCallbacks {
  import opened Common
  import PyUuidUtils

  /** A uuid.UUID message type, by its `int`. */
  type MessageType = v: int | PyUuidUtils.IsUuidInt(v)

  /** A Python value used as a callback or a trampoline: None, or some
      callable (all of which are truthy). */
  datatype PyCallable = PyNone | Function(id: nat)

  /** Python truth value of such a value. */
  predicate Truthy(c: PyCallable) {
    c.Function?
  }

  /** The exceptions the framework lets through to its callers. */
  datatype PyException =
    | KeyError          // dict.pop or dict[...] of a missing key
    | TypeError         // `list += None`, calling with the wrong arguments
    | AttributeError    // `.get` on a value that is not a dict
    | JsonDecodeError   // json.loads of text that is not JSON
    | ConnectorException(reason: string)

  /** What find_callback gives for a type: its callback, or None. */
  function Lookup(callbacks: map<MessageType, PyCallable>, messageType: MessageType): (r: PyCallable)
    ensures messageType !in callbacks ==> r == PyNone
    ensures messageType in callbacks ==> r == callbacks[messageType]
  {
    if messageType in callbacks then callbacks[messageType] else PyNone
  }

  /** CallbackManager, with its class attribute as a field. */
  class CallbackManager {
    var callbackMap: map<MessageType, PyCallable>

    /** The class as imported: an empty map. */
    constructor ()
      ensures callbackMap == map[]
    {
      callbackMap := map[];
    }

    /** find_callback: the registered callback or None; the map is only read. */
    method FindCallback(messageType: MessageType) returns (result: PyCallable)
      ensures result == Lookup(callbackMap, messageType)
    {
      result := PyNone;
      if messageType in callbackMap {
        result := callbackMap[messageType];
      }
    }

    /** clear_callbacks: a fresh empty map. */
    method ClearCallbacks()
      modifies this
      ensures callbackMap == map[]
    {
      callbackMap := map[];
    }

    /** register_callback: binds the type, replacing any earlier callback. */
    method RegisterCallback(messageType: MessageType, callback: PyCallable)
      modifies this
      ensures callbackMap == old(callbackMap)[messageType := callback]
      ensures Lookup(callbackMap, messageType) == callback
      ensures forall t :: t != messageType ==> Lookup(callbackMap, t) == Lookup(old(callbackMap), t)
    {
      callbackMap := callbackMap[messageType := callback];
    }

    /** remove_callback: `dict.pop` without a default, so a type with nothing
        registered raises KeyError and the map is kept. */
    method RemoveCallback(messageType: MessageType) returns (r: Result<PyCallable, PyException>)
      modifies this
      ensures messageType in old(callbackMap) ==>
        r == Ok(old(callbackMap)[messageType]) && callbackMap == old(callbackMap) - {messageType}
      ensures messageType !in old(callbackMap) ==>
        r == Err(KeyError) && callbackMap == old(callbackMap)
    {
      if messageType in callbackMap {
        r := Ok(callbackMap[messageType]);
        callbackMap := callbackMap - {messageType};
      } else {
        r := Err(KeyError);
      }
    }
  }

  /** Registering twice for one type keeps only the second callback. */
  lemma LastRegistrationWins(m: map<MessageType, PyCallable>, t: MessageType, first: PyCallable, second: PyCallable)
    ensures m[t := first][t := second] == m[t := second]
  {
  }

  /** Removing a type after registering it leaves every other type as it
      was, and the removed type unbound. */
  lemma RemoveAfterRegister(m: map<MessageType, PyCallable>, t: MessageType, c: PyCallable)
    ensures t !in m[t := c] - {t}
    ensures forall u :: u != t ==> Lookup(m[t := c] - {t}, u) == Lookup(m, u)
  {
  }
}
