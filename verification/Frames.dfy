/** Vocabulary shared by the resumption, framing and lifecycle modules. */
module Frames {

  datatype Option<+T> = None | Some(value: T)

  /** One octet on the wire. */
  type Byte = b: int | 0 <= b < 0x100

  /** The number of values of `size_t` on the 64-bit targets of the library. */
  const SIZE_T: nat := 0x1_0000_0000_0000_0000

  datatype FrameType =
    | RESERVED | SETUP | LEASE | KEEPALIVE
    | REQUEST_RESPONSE | REQUEST_FNF | REQUEST_STREAM | REQUEST_CHANNEL
    | REQUEST_N | CANCEL | PAYLOAD | ERROR
    | METADATA_PUSH | RESUME | RESUME_OK | EXT

  /** A serialized frame together with the header fields and the control fields that
      the connection reads back from it: `position` and `respond` matter for KEEPALIVE,
      `position` alone for RESUME_OK. */
  datatype Frame = Frame(kind: FrameType, streamId: nat, bytes: seq<Byte>, position: int, respond: bool)

  function Length(f: Frame): nat {
    |f.bytes|
  }

  /** The frame types that count towards resume positions. */
  predicate ShouldTrack(kind: FrameType) {
    match kind
    case REQUEST_CHANNEL | REQUEST_STREAM | REQUEST_RESPONSE | REQUEST_FNF => true
    case REQUEST_N | CANCEL | ERROR | PAYLOAD => true
    case _ => false
  }
}
