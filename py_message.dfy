/** module-python/lib/substanceconnector/framework/message.py: a received
    message and its dispatch to the callback registered for its type. */
module PyMessage {
  import opened PyCallbacks

  /** Message: the context it came from, its type and its text, stored as
      given. */
  datatype Message = Message(context: int, messageType: MessageType, message: string)

  /** One call of a Python callable with (context, message_type, message). */
  datatype Invocation = Invocation(callee: PyCallable, context: int, messageType: MessageType, message: string)

  /** Message.process against the callback map: the calls it makes. At
      most one, made exactly when the callback found for the type is truthy,
      to that callback and with the message's own context, type and text. */
  function Process(m: Message, callbacks: map<MessageType, PyCallable>): (calls: seq<Invocation>)
    ensures |calls| <= 1
    ensures calls != [] <==> Truthy(Lookup(callbacks, m.messageType))
    ensures forall c :: c in calls ==>
      c == Invocation(Lookup(callbacks, m.messageType), m.context, m.messageType, m.message)
  {
    var callback := Lookup(callbacks, m.messageType);
    if Truthy(callback) then [Invocation(callback, m.context, m.messageType, m.message)] else []
  }

  /** A registered callback is called exactly once, with the message's own
      context, type and text; with nothing (or None) registered nothing is
      called. */
  lemma ProcessCallsRegistered(m: Message, callbacks: map<MessageType, PyCallable>)
    ensures m.messageType in callbacks && Truthy(callbacks[m.messageType]) ==>
      Process(m, callbacks) == [Invocation(callbacks[m.messageType], m.context, m.messageType, m.message)]
    ensures m.messageType !in callbacks ==> Process(m, callbacks) == []
    ensures |Process(m, callbacks)| <= 1
  {
  }

  /** Only the entry for the message's type matters: maps that agree on it
      give the same calls. */
  lemma ProcessReadsOneEntry(m: Message, a: map<MessageType, PyCallable>, b: map<MessageType, PyCallable>)
    requires Lookup(a, m.messageType) == Lookup(b, m.messageType)
    ensures Process(m, a) == Process(m, b)
  {
  }
}
