/** module-python/lib/substanceconnector/framework/system.py: the
    SystemApplication, which keeps `_application_map`, the directory of
    connected peers by name, up to date from the three system messages. */
module PySystem {
  import opened Common
  import opened PyUuidUtils
  import opened PyJson
  import opened PyCallbacks
  import opened PyMessage
  import opened PyTrampoline
  import opened PyApplication
  import opened PyConnectionSchema
  import opened PyInstance

  /** _CONNECTION_ESTABLISHED_UUID, 02572bc5-2d84-450a-9e01-d22c66b1abb1. */
  const ConnectionEstablishedUuid: MessageType := 0x02572bc5_2d84_450a_9e01_d22c66b1abb1
  /** _CONNECTION_CLOSED_UUID, 04705ddf-16d4-4489-af6c-6e3a93f1959d. */
  const ConnectionClosedUuid: MessageType := 0x04705ddf_16d4_4489_af6c_6e3a93f1959d
  /** _CONNECTION_UPDATE_CONTEXT_UUID, 39b07a67-4996-4b62-a340-908a81f66562. */
  const ConnectionUpdateContextUuid: MessageType := 0x39b07a67_4996_4b62_a340_908a81f66562

  /** The three receive handlers, as the callables registered for them. */
  const RecvConnectionEstablishedFn: PyCallable := Function(1)
  const RecvConnectionClosedFn: PyCallable := Function(2)
  const RecvContextFn: PyCallable := Function(3)

  /** SystemApplication as an application class: its callback list and its
      feature ids, the three system message types. */
  const SystemApplicationClass: Application := Application(1,
    [(ConnectionEstablishedUuid, RecvConnectionEstablishedFn),
     (ConnectionClosedUuid, RecvConnectionClosedFn),
     (ConnectionUpdateContextUuid, RecvContextFn)],
    Some([ConnectionEstablishedUuid, ConnectionClosedUuid, ConnectionUpdateContextUuid]))

  /** The "schema" member of an entry: `{}` until the peer's context
      arrives, then the ConnectionSchema built from it. */
  datatype SchemaSlot = EmptySchema | Schema(schema: ConnectionSchema)

  /** One entry of `_application_map`: `{"context": ..., "schema": ...}`. */
  datatype Peer = Peer(context: int, schema: SchemaSlot)

  /** The directory after recv_connection_established: the peer named by
      the message is (re)entered with its context and an empty schema,
      replacing any entry of that name, and every other peer is kept;
      another type changes nothing. */
  function AfterEstablished(m: map<string, Peer>, messageType: MessageType, context: int, name: string): (r: map<string, Peer>)
    ensures messageType == ConnectionEstablishedUuid ==>
      && r.Keys == m.Keys + {name} && r[name] == Peer(context, EmptySchema)
      && forall other :: other in m && other != name ==> r[other] == m[other]
    ensures messageType != ConnectionEstablishedUuid ==> r == m
  {
    if messageType == ConnectionEstablishedUuid then m[name := Peer(context, EmptySchema)] else m
  }

  /** The directory after recv_connection_closed: `pop` of the name, which
      raises KeyError for a name that is not there; exactly that peer is
      removed and the others are kept. Another type changes nothing. */
  function AfterClosed(m: map<string, Peer>, messageType: MessageType, name: string): (r: Result<map<string, Peer>, PyException>)
    ensures r.Err? <==> messageType == ConnectionClosedUuid && name !in m
    ensures r.Err? ==> r.error == KeyError
    ensures r.Ok? && messageType == ConnectionClosedUuid ==>
      && r.value.Keys == m.Keys - {name}
      && forall other :: other in r.value ==> r.value[other] == m[other]
    ensures messageType != ConnectionClosedUuid ==> r == Ok(m)
  {
    if messageType != ConnectionClosedUuid then Ok(m)
    else if name in m then Ok(m - {name})
    else Err(KeyError)
  }

  /** The schema recv_context stores, if any: the decoded message must be
      an object with the four members, and its id_name a string naming a
      known peer; every other outcome raises inside the `try` and is
      swallowed. */
  function AcceptedContext(m: map<string, Peer>, decoded: Option<Json>): (r: Option<ConnectionSchema>)
    ensures r.Some? <==>
      && decoded.Some? && FromJson(decoded.value).Some?
      && decoded.value.fields[IdNameKey].JStr? && decoded.value.fields[IdNameKey].s in m
    ensures r.Some? ==> FromJson(decoded.value) == r && r.value.idName.JStr? && r.value.idName.s in m
  {
    if decoded.None? then None
    else
      match FromJson(decoded.value)
      case None => None
      case Some(s) => if s.idName.JStr? && s.idName.s in m then Some(s) else None
  }

  /** The directory after recv_context: the same peers, and only the peer
      an accepted context names changes, to that schema with its context
      kept; another type, or a context not accepted, changes nothing. */
  function AfterContext(m: map<string, Peer>, messageType: MessageType, decoded: Option<Json>): (r: map<string, Peer>)
    ensures r.Keys == m.Keys
    ensures forall k :: k in m ==> r[k].context == m[k].context
    ensures forall k :: k in m && r[k] != m[k] ==>
      && messageType == ConnectionUpdateContextUuid && AcceptedContext(m, decoded).Some?
      && k == AcceptedContext(m, decoded).value.idName.s && r[k].schema == Schema(AcceptedContext(m, decoded).value)
    ensures messageType == ConnectionUpdateContextUuid && AcceptedContext(m, decoded).Some? ==>
      var s := AcceptedContext(m, decoded).value; r[s.idName.s] == Peer(m[s.idName.s].context, Schema(s))
    ensures messageType != ConnectionUpdateContextUuid || AcceptedContext(m, decoded).None? ==> r == m
  {
    if messageType != ConnectionUpdateContextUuid then m
    else
      match AcceptedContext(m, decoded)
      case None => m
      case Some(s) => m[s.idName.s := m[s.idName.s].(schema := Schema(s))]
  }

  class SystemApplication {
    var applicationMap: map<string, Peer>

    /** The class as imported: no peers. */
    constructor ()
      ensures applicationMap == map[]
    {
      applicationMap := map[];
    }

    /** post_shutdown: forgets every peer. */
    method PostShutdown()
      modifies this
      ensures applicationMap == map[]
    {
      applicationMap := map[];
    }

    /** send_context: this process's connection context, as JSON, to the
      connection. `version` is what `connector.version()` returns. */
    method SendContext(context: int, instance: ConnectorInstance, version: string)
      modifies instance
      ensures instance.events == old(instance.events)
        + [NativeWrite(context, ToIntegers(ConnectionUpdateContextUuid), Serialized(ToJson(old(instance.ConnectionContext(version)))))]
      ensures instance.state == old(instance.state) && instance.applicationName == old(instance.applicationName)
      ensures instance.featureLevel == old(instance.featureLevel) && instance.openContext == old(instance.openContext)
    {
      var currentSchema := instance.ConnectionContext(version);
      instance.WriteMessage(context, ConnectionUpdateContextUuid, Serialized(ToJson(currentSchema)));
    }

    /** recv_connection_established: for its own type, enters the peer the
      message names and sends it this process's context. */
    method RecvConnectionEstablished(context: int, messageType: MessageType, message: string,
                                     instance: ConnectorInstance, version: string)
      modifies this, instance
      ensures applicationMap == AfterEstablished(old(applicationMap), messageType, context, message)
      ensures messageType == ConnectionEstablishedUuid ==>
        instance.events == old(instance.events)
          + [NativeWrite(context, ToIntegers(ConnectionUpdateContextUuid), Serialized(ToJson(old(instance.ConnectionContext(version)))))]
      ensures messageType != ConnectionEstablishedUuid ==> instance.events == old(instance.events)
      ensures instance.state == old(instance.state) && instance.applicationName == old(instance.applicationName)
      ensures instance.featureLevel == old(instance.featureLevel) && instance.openContext == old(instance.openContext)
    {
      if messageType == ConnectionEstablishedUuid {
        applicationMap := applicationMap[message := Peer(context, EmptySchema)];
        SendContext(context, instance, version);
      }
    }

    /** recv_connection_closed: for its own type, removes the peer the
      message names; a name that is not there raises KeyError, which
      nothing catches. */
    method RecvConnectionClosed(context: int, messageType: MessageType, message: string)
      returns (raised: Option<PyException>)
      modifies this
      ensures AfterClosed(old(applicationMap), messageType, message).Ok? ==>
        raised == None && applicationMap == AfterClosed(old(applicationMap), messageType, message).value
      ensures AfterClosed(old(applicationMap), messageType, message).Err? ==>
        raised == Some(KeyError) && applicationMap == old(applicationMap)
    {
      raised := None;
      if messageType == ConnectionClosedUuid {
        if message !in applicationMap {
          return Some(KeyError);
        }
        applicationMap := applicationMap - {message};
      }
    }

    /** recv_context: for its own type, stores the schema a peer sent under
      its id_name. `decoded` is what json.loads makes of the message, None
      when it raises. */
    method RecvContext(context: int, messageType: MessageType, message: string, decoded: Option<Json>)
      modifies this
      ensures applicationMap == AfterContext(old(applicationMap), messageType, decoded)
    {
      if messageType == ConnectionUpdateContextUuid && decoded.Some? {
        var messageObject := decoded.value;
        var messageAsSchema := FromJson(messageObject);
        if messageAsSchema.Some? && messageAsSchema.value.idName.JStr? {
          var id := messageAsSchema.value.idName.s;
          if id in applicationMap {
            applicationMap := applicationMap[id := applicationMap[id].(schema := Schema(messageAsSchema.value))];
          }
        }
      }
    }
  }

  /** The handshake: once a peer named `name` is entered, the context that
      peer sends with send_context, read back, becomes its schema while the
      context it connected on is kept. */
  lemma HandshakeRecordsSchema(m: map<string, Peer>, context: int, name: string, sent: ConnectionSchema)
    requires sent.idName == JStr(name)
    ensures var entered := AfterEstablished(m, ConnectionEstablishedUuid, context, name);
      AfterContext(entered, ConnectionUpdateContextUuid, Some(ToJson(sent)))[name] == Peer(context, Schema(sent))
  {
    SchemaJsonRoundTrip(sent);
  }

  /** The three system types are distinct, so after SystemApplication's
      pre_init the default trampoline routes each to its own handler. */
  lemma SystemRouting(m: map<MessageType, PyCallable>, context: int, message: string)
    ensures var callbacks := Registered(m, SystemApplicationClass.callbackList);
      && Dispatch(DefaultTrampoline, context, ConnectionEstablishedUuid, message, callbacks)
         == [Invocation(RecvConnectionEstablishedFn, context, ConnectionEstablishedUuid, message)]
      && Dispatch(DefaultTrampoline, context, ConnectionClosedUuid, message, callbacks)
         == [Invocation(RecvConnectionClosedFn, context, ConnectionClosedUuid, message)]
      && Dispatch(DefaultTrampoline, context, ConnectionUpdateContextUuid, message, callbacks)
         == [Invocation(RecvContextFn, context, ConnectionUpdateContextUuid, message)]
  {
    var list := SystemApplicationClass.callbackList;
    RegisteredLastWins(m, list, 0);
    RegisteredLastWins(m, list, 1);
    RegisteredLastWins(m, list, 2);
  }
}
