/** core/src/details/message.c: building a message (header and payload
    copy) and clearing one.

    A C string is modelled by its characters before the terminating NUL;
    a NULL pointer is `None`. Whether the allocator returns memory is a
    parameter. */
module CMessage {
  import opened Common

  /** CONNECTOR_MESSAGE_IDENTIFIER */
  const MessageIdentifier: u16 := 0x03c9

  /** CONNECTOR_HEADER_R1 */
  const HeaderR1: u16 := 0x0000

  /** CONNECTOR_IDENTIFY_MESSAGE(x): the low twelve bits carry every bit of
      the identifier. */
  predicate IdentifyMessage(x: u16) {
    ((x as bv16) & 0x0fff) & (MessageIdentifier as bv16) == MessageIdentifier as bv16
  }

  /** CONNECTOR_PROTOCOL_VERSION(x): the top four bits. */
  function ProtocolVersion(x: u16): u16 {
    ((x as bv16) & 0xf000) as u16
  }

  /** `(uint32_t) strlen(s)`: the length, truncated to 32 bits. */
  function Strlen32(s: string): u32 {
    (|s| % 0x1_0000_0000) as u32
  }

  /** connector_message_t with the header allocated alongside it. After
      connector_clear_message every field is zero: no header, no payload,
      context 0. */
  class Message {
    var header: Option<Header>
    var payload: Option<string>
    var context: u32

    constructor (context: u32, header: Header, payload: string)
      ensures this.context == context && this.header == Some(header)
      ensures this.payload == Some(payload)
    {
      this.context := context;
      this.header := Some(header);
      this.payload := Some(payload);
    }
  }

  /** The header connector_build_message writes for a payload and a type:
      the zeroed description or-ed with CONNECTOR_HEADER_R1 and
      CONNECTOR_MESSAGE_IDENTIFIER, the payload's strlen, and the type. */
  function BuiltHeader(typ: Uuid, payload: string): Header {
    Header(((0 as bv16) | (HeaderR1 as bv16) | (MessageIdentifier as bv16)) as u16,
           Strlen32(payload), typ)
  }

  /** A built header identifies itself as a connector message of revision
      one, and its length is the payload's length whenever that fits in 32
      bits. */
  lemma BuiltHeaderIdentified(typ: Uuid, payload: string)
    ensures IdentifyMessage(BuiltHeader(typ, payload).description)
    ensures ProtocolVersion(BuiltHeader(typ, payload).description) == HeaderR1
    ensures BuiltHeader(typ, payload).messageId == typ
    ensures |payload| < 0x1_0000_0000 ==> BuiltHeader(typ, payload).messageLength as int == |payload|
  {
    BuiltDescription();
    DescriptionR1();
  }

  /** The or of the two constants is the identifier itself. */
  lemma BuiltDescription()
    ensures ((0 as bv16) | (HeaderR1 as bv16) | (MessageIdentifier as bv16)) as u16 == 0x03c9
  {
    var bits: bv16 := (0 as bv16) | (HeaderR1 as bv16) | (MessageIdentifier as bv16);
    assert bits == 0x03c9;
    assert (0x03c9 as bv16) as u16 == 0x03c9;
  }

  /** The identifier alone passes the identification test and is revision one. */
  lemma DescriptionR1()
    ensures IdentifyMessage(0x03c9) && ProtocolVersion(0x03c9) == HeaderR1
  {
    assert (0x03c9 as u16) as bv16 == 0x03c9;
  }

  /** connector_build_message: NULL when the payload or the type is NULL or
      the allocation fails; otherwise a fresh message holding the context,
      a copy of the payload and the built header. */
  method BuildMessage(context: u32, typ: Option<Uuid>, message: Option<string>,
                      allocationSucceeds: bool)
    returns (result: Message?)
    ensures result == null <==> (message.None? || typ.None? || !allocationSucceeds)
    ensures result != null ==> fresh(result)
    ensures result != null ==>
      result.context == context && result.payload == message &&
      result.header == Some(BuiltHeader(typ.value, message.value))
  {
    result := null;
    if message.Some? && typ.Some? {
      if allocationSucceeds {
        var copy := message.value;
        result := new Message(context, BuiltHeader(typ.value, copy), copy);
      }
    }
  }

  /** connector_clear_message: frees the payload and zeroes the structure;
      NULL is left alone. */
  method ClearMessage(message: Message?)
    modifies message
    ensures message != null ==>
      message.payload == None && message.header == None && message.context == 0
  {
    if message != null {
      message.payload := None;
      message.header := None;
      message.context := 0;
    }
  }
}
