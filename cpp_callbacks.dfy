/** module-cpp/src/framework/details/callbacks.cpp: the static
    `callbackMap` from a message type to the vector of MessageCallback
    function pointers bound to it. Unlike the Python CallbackManager, a
    binding is never overwritten: the first one stays until it is unbound. */
module CppCallbacks {
  import opened Common

  /** What findCallbacks answers for a type: the bound vector, or the shared
      empty vector. */
  function Find(callbacks: map<Uuid, seq<FnPtr>>, messageType: Uuid): (r: seq<FnPtr>)
    ensures messageType in callbacks ==> r == callbacks[messageType]
    ensures messageType !in callbacks ==> r == []
  {
    if messageType in callbacks then callbacks[messageType] else []
  }

  /** The translation unit's static state. */
  class CallbackRegistry {
    var callbackMap: map<Uuid, seq<FnPtr>>

    /** Static initialisation: an empty map. */
    constructor ()
      ensures callbackMap == map[]
    {
      callbackMap := map[];
    }

    /** bindCallback: stores the vector only when the type has none yet. */
    method BindCallback(messageType: Uuid, callbacks: seq<FnPtr>) returns (result: bool)
      modifies this
      ensures result <==> messageType !in old(callbackMap)
      ensures result ==> callbackMap == old(callbackMap)[messageType := callbacks]
      ensures !result ==> callbackMap == old(callbackMap)
    {
      result := false;
      if messageType !in callbackMap {
        callbackMap := callbackMap[messageType := callbacks];
        result := true;
      }
    }

    /** unbindCallback: erases the type's entry, reporting whether there was
        one. */
    method UnbindCallback(messageType: Uuid) returns (result: bool)
      modifies this
      ensures result <==> messageType in old(callbackMap)
      ensures callbackMap == old(callbackMap) - {messageType}
    {
      result := false;
      if messageType in callbackMap {
        callbackMap := callbackMap - {messageType};
        result := true;
      }
    }

    /** findCallbacks: a lookup that changes nothing. */
    method FindCallbacks(messageType: Uuid) returns (r: seq<FnPtr>)
      ensures r == Find(callbackMap, messageType)
      ensures messageType !in callbackMap ==> r == []
    {
      r := [];
      if messageType in callbackMap {
        r := callbackMap[messageType];
      }
    }
  }

  /** After a successful bind the type finds exactly the bound vector, and
      every other type finds what it found before. */
  lemma BindThenFind(m: map<Uuid, seq<FnPtr>>, t: Uuid, callbacks: seq<FnPtr>)
    ensures Find(m[t := callbacks], t) == callbacks
    ensures forall u :: u != t ==> Find(m[t := callbacks], u) == Find(m, u)
  {
  }

  /** After an unbind the type finds nothing, and every other type finds
      what it found before. */
  lemma UnbindThenFind(m: map<Uuid, seq<FnPtr>>, t: Uuid)
    ensures Find(m - {t}, t) == []
    ensures forall u :: u != t ==> Find(m - {t}, u) == Find(m, u)
  {
  }

  /** Binding, then unbinding, a type that had no binding gives the map
      back. */
  lemma BindUnbindRestores(m: map<Uuid, seq<FnPtr>>, t: Uuid, callbacks: seq<FnPtr>)
    requires t !in m
    ensures m[t := callbacks] - {t} == m
  {
  }
}
