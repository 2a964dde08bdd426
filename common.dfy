/** Types shared by every layer of the connector: fixed-width integers,
    the 128-bit message identifier as the C core stores it (four 32-bit
    elements), and a result type for error returns and exceptions. */
module Common {

  /** An unsigned 32-bit integer (uint32_t, unsigned int). */
  newtype u32 = x: int | 0 <= x < 0x1_0000_0000

  /** An unsigned 16-bit integer (uint16_t). */
  newtype u16 = x: int | 0 <= x < 0x1_0000

  /** substance_connector_uuid_t: four 32-bit elements, most significant first. */
  type Uuid = s: seq<u32> | |s| == 4 witness [0, 0, 0, 0]

  /** The all-zero identifier. */
  const ZeroUuid: Uuid := [0, 0, 0, 0]

  datatype Option<T> = None | Some(value: T)

  datatype Result<T, E> = Ok(value: T) | Err(error: E)

  /** 2 to the power k. */
  function Pow2(k: nat): (r: nat)
    ensures r >= 1
  {
    if k == 0 then 1 else 2 * Pow2(k - 1)
  }

  /** The C status codes of errorcodes.h. */
  datatype Status =
    | Success      // SUBSTANCE_CONNECTOR_SUCCESS = 0
    | Error        // SUBSTANCE_CONNECTOR_ERROR = 1
    | BadAlloc     // SUBSTANCE_CONNECTOR_BADALLOC = 2
    | NotLoaded    // SUBSTANCE_CONNECTOR_NOTLOADED = 3
    | ConnFail     // SUBSTANCE_CONNECTOR_CONN_FAIL = 4
    | SendFail     // SUBSTANCE_CONNECTOR_SEND_FAIL = 5
    | Unsupported  // SUBSTANCE_CONNECTOR_UNSUPPORTED = 6
    | Invalid      // SUBSTANCE_CONNECTOR_INVALID = 7
    | ReadFail     // SUBSTANCE_CONNECTOR_READ_FAIL = 8
    | OpenFail     // SUBSTANCE_CONNECTOR_OPEN_FAIL = 9

  /** connector_message_header_t (revision one of the wire header): the
      16-bit description (12 identifier bits, 4 protocol version bits), the
      body length and the 128-bit message type. */
  datatype Header = Header(description: u16, messageLength: u32, messageId: Uuid)

  /** A C function pointer: NULL or the address of some function. */
  datatype FnPtr = NullFn | Fn(address: nat)
}
