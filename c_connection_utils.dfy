/** core/src/details/connection_utils.c: byte-order conversion of the wire
    header and the mapping of socket errors to poll error codes.

    htonl/htons and ntohl/ntohs are the identity on a big-endian host and a
    byte swap on a little-endian one; the host's byte order is a parameter. */
module CConnectionUtils {
  import opened Common
  import opened Arith

  /** The four bytes of a 32-bit value, most significant first. */
  function BigEndianBytes32(x: u32): (r: seq<nat>)
    ensures |r| == 4 && forall i :: 0 <= i < 4 ==> r[i] < 256
  {
    var v := x as nat;
    [v / 0x100_0000, (v / 0x1_0000) % 256, (v / 256) % 256, v % 256]
  }

  /** The two bytes of a 16-bit value, most significant first. */
  function BigEndianBytes16(x: u16): (r: seq<nat>)
    ensures |r| == 2 && forall i :: 0 <= i < 2 ==> r[i] < 256
  {
    [x as nat / 256, x as nat % 256]
  }

  /** The bytes a host stores in memory for a 32-bit value, first address first. */
  function HostBytes32(x: u32, littleEndian: bool): (r: seq<nat>)
    ensures |r| == 4
  {
    var b := BigEndianBytes32(x);
    if littleEndian then [b[3], b[2], b[1], b[0]] else b
  }

  function HostBytes16(x: u16, littleEndian: bool): (r: seq<nat>)
    ensures |r| == 2
  {
    var b := BigEndianBytes16(x);
    if littleEndian then [b[1], b[0]] else b
  }

  function Swap32(x: u32): u32 {
    var v := x as nat;
    ((v % 256) * 0x100_0000 + ((v / 256) % 256) * 0x1_0000 +
     ((v / 0x1_0000) % 256) * 256 + v / 0x100_0000) as u32
  }

  function Swap16(x: u16): u16 {
    ((x as nat % 256) * 256 + x as nat / 256) as u16
  }

  /** Swapping reverses the big-endian bytes of a 32-bit value. */
  lemma Swap32Bytes(x: u32)
    ensures var b := BigEndianBytes32(x); BigEndianBytes32(Swap32(x)) == [b[3], b[2], b[1], b[0]]
  {
    var b0, b1, b2, b3 := Decompose(x as nat);
    var w := Swap32(x) as nat;
    assert w == b3 * 0x100_0000 + b2 * 0x1_0000 + b1 * 256 + b0;
    BytesOf(w, b3, b2, b1, b0);
  }

  /** Swapping reverses the big-endian bytes of a 16-bit value. */
  lemma Swap16Bytes(x: u16)
    ensures var b := BigEndianBytes16(x); BigEndianBytes16(Swap16(x)) == [b[1], b[0]]
  {
    DivModUnique(Swap16(x) as nat, 256, x as nat % 256, x as nat / 256);
  }

  /** A 32-bit value is determined by its big-endian bytes. */
  lemma BigEndianInjective32(x: u32, y: u32)
    requires BigEndianBytes32(x) == BigEndianBytes32(y)
    ensures x == y
  {
    var _, _, _, _ := Decompose(x as nat);
    var _, _, _, _ := Decompose(y as nat);
  }

  /** A 16-bit value is determined by its big-endian bytes. */
  lemma BigEndianInjective16(x: u16, y: u16)
    requires BigEndianBytes16(x) == BigEndianBytes16(y)
    ensures x == y
  {
    assert x as nat == (x as nat / 256) * 256 + x as nat % 256;
  }

  /** htonl: the result is laid out in the host's memory as the big-endian
      bytes of x. */
  function Htonl(x: u32, littleEndian: bool): (r: u32)
    ensures HostBytes32(r, littleEndian) == BigEndianBytes32(x)
  {
    Swap32Bytes(x);
    if littleEndian then Swap32(x) else x
  }

  /** ntohl: the host's memory bytes of x, read in network (big-endian)
      order, are the result. */
  function Ntohl(x: u32, littleEndian: bool): (r: u32)
    ensures BigEndianBytes32(r) == HostBytes32(x, littleEndian)
  {
    Swap32Bytes(x);
    if littleEndian then Swap32(x) else x
  }

  /** htons: the result is laid out in the host's memory as the big-endian
      bytes of x. */
  function Htons(x: u16, littleEndian: bool): (r: u16)
    ensures HostBytes16(r, littleEndian) == BigEndianBytes16(x)
  {
    Swap16Bytes(x);
    if littleEndian then Swap16(x) else x
  }

  /** ntohs: the host's memory bytes of x, read in network order, are the
      result. */
  function Ntohs(x: u16, littleEndian: bool): (r: u16)
    ensures BigEndianBytes16(r) == HostBytes16(x, littleEndian)
  {
    Swap16Bytes(x);
    if littleEndian then Swap16(x) else x
  }

  /** htonl stores a value in memory as its big-endian bytes, whichever the
      host's own order, and ntohl reads such bytes back to the value. */
  lemma HtonlIsBigEndian(x: u32, littleEndian: bool)
    ensures HostBytes32(Htonl(x, littleEndian), littleEndian) == BigEndianBytes32(x)
    ensures Ntohl(Htonl(x, littleEndian), littleEndian) == x
  {
    BigEndianInjective32(Ntohl(Htonl(x, littleEndian), littleEndian), x);
  }

  /** A 32-bit value is the positional sum of its big-endian bytes. */
  lemma Decompose(v: nat) returns (b0: nat, b1: nat, b2: nat, b3: nat)
    requires v < 0x1_0000_0000
    ensures [b0, b1, b2, b3] == [v / 0x100_0000, (v / 0x1_0000) % 256, (v / 256) % 256, v % 256]
    ensures b0 < 256 && b1 < 256 && b2 < 256 && b3 < 256
    ensures v == b0 * 0x100_0000 + b1 * 0x1_0000 + b2 * 256 + b3
  {
    var q1 := v / 256;
    var q2 := q1 / 256;
    var q3 := q2 / 256;
    b0, b1, b2, b3 := q3, q2 % 256, q1 % 256, v % 256;
    assert v == q3 * 0x100_0000 + b1 * 0x1_0000 + b2 * 256 + b3;
    BytesOf(v, b0, b1, b2, b3);
  }

  lemma BytesOf(w: nat, c0: nat, c1: nat, c2: nat, c3: nat)
    requires c0 < 256 && c1 < 256 && c2 < 256 && c3 < 256
    requires w == c0 * 0x100_0000 + c1 * 0x1_0000 + c2 * 256 + c3
    ensures w / 0x100_0000 == c0 && (w / 0x1_0000) % 256 == c1
    ensures (w / 256) % 256 == c2 && w % 256 == c3
  {
    DivModUnique(w, 256, c0 * 0x1_0000 + c1 * 256 + c2, c3);
    DivModUnique(c0 * 0x1_0000 + c1 * 256 + c2, 256, c0 * 256 + c1, c2);
    DivModUnique(w, 0x1_0000, c0 * 256 + c1, c2 * 256 + c3);
    DivModUnique(c0 * 256 + c1, 256, c0, c1);
    DivModUnique(w, 0x100_0000, c0, c1 * 0x1_0000 + c2 * 256 + c3);
  }

  /** The same two facts for 16-bit values and htons/ntohs. */
  lemma HtonsIsBigEndian(x: u16, littleEndian: bool)
    ensures HostBytes16(Htons(x, littleEndian), littleEndian) == BigEndianBytes16(x)
    ensures Ntohs(Htons(x, littleEndian), littleEndian) == x
  {
    BigEndianInjective16(Ntohs(Htons(x, littleEndian), littleEndian), x);
  }

  /** htonuuid: each of the four elements through htonl, in place. */
  function HtonUuid(u: Uuid, littleEndian: bool): (r: Uuid)
  {
    [Htonl(u[0], littleEndian), Htonl(u[1], littleEndian),
     Htonl(u[2], littleEndian), Htonl(u[3], littleEndian)]
  }

  /** ntohuuid: each of the four elements through ntohl, in place. */
  function NtohUuid(u: Uuid, littleEndian: bool): (r: Uuid)
  {
    [Ntohl(u[0], littleEndian), Ntohl(u[1], littleEndian),
     Ntohl(u[2], littleEndian), Ntohl(u[3], littleEndian)]
  }

  /** connector_htonheader: the target gets the converted fields, the
      original being read only. Every field, and every element of the
      identifier, is laid out in memory as its own big-endian bytes: no
      field's bytes depend on another. */
  function HtonHeader(h: Header, littleEndian: bool): (r: Header)
    ensures HostBytes16(r.description, littleEndian) == BigEndianBytes16(h.description)
    ensures HostBytes32(r.messageLength, littleEndian) == BigEndianBytes32(h.messageLength)
    ensures forall i :: 0 <= i < 4 ==> HostBytes32(r.messageId[i], littleEndian) == BigEndianBytes32(h.messageId[i])
  {
    Header(Htons(h.description, littleEndian), Htonl(h.messageLength, littleEndian),
           HtonUuid(h.messageId, littleEndian))
  }

  /** connector_ntohheader: every field, and every element of the
      identifier, is the host's memory bytes of the original's field read in
      network order. */
  function NtohHeader(h: Header, littleEndian: bool): (r: Header)
    ensures BigEndianBytes16(r.description) == HostBytes16(h.description, littleEndian)
    ensures BigEndianBytes32(r.messageLength) == HostBytes32(h.messageLength, littleEndian)
    ensures forall i :: 0 <= i < 4 ==> BigEndianBytes32(r.messageId[i]) == HostBytes32(h.messageId[i], littleEndian)
  {
    Header(Ntohs(h.description, littleEndian), Ntohl(h.messageLength, littleEndian),
           NtohUuid(h.messageId, littleEndian))
  }

  /** Converting a header to network order and back gives it back. */
  lemma HeaderRoundTrip(h: Header, littleEndian: bool)
    ensures NtohHeader(HtonHeader(h, littleEndian), littleEndian) == h
  {
    HtonsIsBigEndian(h.description, littleEndian);
    HtonlIsBigEndian(h.messageLength, littleEndian);
    var u := h.messageId;
    HtonlIsBigEndian(u[0], littleEndian);
    HtonlIsBigEndian(u[1], littleEndian);
    HtonlIsBigEndian(u[2], littleEndian);
    HtonlIsBigEndian(u[3], littleEndian);
  }

  // ---------------------------------------------------------------------
  // convert_network_error

  /** The platform's socket error codes the switch names (errno values on
      POSIX, WSA codes on Windows), and every other code. */
  datatype NetworkError = EBadF | EFault | EIntr | ENetDown | ENoMem | EInval | OtherError(code: int)

  /** enum SubstanceConnectorPollError */
  const PollESuccess: nat := 0
  const PollEBadF: nat := 1
  const PollEFault: nat := 2
  const PollEIntr: nat := 3
  const PollENetDown: nat := 4
  const PollENoMem: nat := 5
  const PollEInval: nat := 6
  const PollEUnknown: nat := 7

  /** The poll code the switch computes for each platform code. */
  function PollCode(e: NetworkError): nat {
    match e
    case EBadF => PollEBadF
    case EFault => PollEFault
    case EIntr => PollEIntr
    case ENetDown => PollENetDown
    case ENoMem => PollENoMem
    case EInval => PollEInval
    case OtherError(_) => PollEUnknown
  }

  /** convert_network_error as written: the switch stores the poll code in
      the parameter `errorcode`, and the function returns `retcode`, which
      still holds its initial POLL_EUNKNOWN: the result differs from the
      switch's code exactly for the six codes the switch names. */
  function ConvertNetworkError(errorcode: NetworkError): (retcode: nat)
    ensures retcode != PollCode(errorcode) <==> !errorcode.OtherError?
  {
    var converted := PollCode(errorcode);
    PollEUnknown
  }

  /** The code as written loses the error: every input gives POLL_EUNKNOWN,
      bad descriptors included. */
  lemma ConvertNetworkErrorIgnoresInput(e: NetworkError)
    ensures ConvertNetworkError(e) == PollEUnknown
    ensures ConvertNetworkError(EBadF) != ConvertNetworkErrorIntended(EBadF)
  {
  }

  /** convert_network_error as its comment intends: the switch's code is returned. */
  function ConvertNetworkErrorIntended(errorcode: NetworkError): (retcode: nat)
  {
    PollCode(errorcode)
  }

  /** The intended mapping never reports success, reports POLL_EUNKNOWN
      exactly for the codes the switch does not name, and tells every named
      code apart. */
  lemma IntendedDistinguishesErrors(e1: NetworkError, e2: NetworkError)
    ensures PollEBadF <= ConvertNetworkErrorIntended(e1) <= PollEUnknown
    ensures ConvertNetworkErrorIntended(e1) == PollEUnknown <==> e1.OtherError?
    ensures !e1.OtherError? && ConvertNetworkErrorIntended(e1) == ConvertNetworkErrorIntended(e2)
      ==> e1 == e2
  {
  }
}
