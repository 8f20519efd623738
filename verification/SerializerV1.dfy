/** The frame format of protocol 1.0: printing, parsing and peeking. */
module SerializerV1 {
  import opened Frames
  import opened Wire
  import opened WireFrames

  const MAX_METADATA_LENGTH := 0xFFFFFF

  function Code(kind: FrameType): (c: nat)
    ensures c < 0x40
  {
    match kind
    case RESERVED => 0x00
    case SETUP => 0x01
    case LEASE => 0x02
    case KEEPALIVE => 0x03
    case REQUEST_RESPONSE => 0x04
    case REQUEST_FNF => 0x05
    case REQUEST_STREAM => 0x06
    case REQUEST_CHANNEL => 0x07
    case REQUEST_N => 0x08
    case CANCEL => 0x09
    case PAYLOAD => 0x0A
    case ERROR => 0x0B
    case METADATA_PUSH => 0x0C
    case RESUME => 0x0D
    case RESUME_OK => 0x0E
    case EXT => 0x3F
  }

  /** Unknown types read as reserved. */
  function KindOf(code: nat): FrameType {
    match code
    case 0x01 => SETUP
    case 0x02 => LEASE
    case 0x03 => KEEPALIVE
    case 0x04 => REQUEST_RESPONSE
    case 0x05 => REQUEST_FNF
    case 0x06 => REQUEST_STREAM
    case 0x07 => REQUEST_CHANNEL
    case 0x08 => REQUEST_N
    case 0x09 => CANCEL
    case 0x0A => PAYLOAD
    case 0x0B => ERROR
    case 0x0C => METADATA_PUSH
    case 0x0D => RESUME
    case 0x0E => RESUME_OK
    case 0x3F => EXT
    case _ => RESERVED
  }

  // ---- Printing ----

  /** Stream id, six bits of type, ten bits of flags. */
  function HeaderBytes(h: Header): Bytes {
    BigEndian(h.streamId, 4) + [Code(h.kind) * 4 + h.flags / 0x100, h.flags % 0x100]
  }

  function MetadataBytes(metadata: Option<Bytes>): Bytes {
    match metadata
    case None => []
    case Some(m) => BigEndian(|m|, 3) + m
  }

  function PayloadBytes(p: Payload): Bytes {
    MetadataBytes(p.metadata) + Present(p.data)
  }

  function Body(f: WireFrame): Bytes {
    match f
    case RequestStream(_, n, p) => BigEndian(n, 4) + PayloadBytes(p)
    case RequestChannel(_, n, p) => BigEndian(n, 4) + PayloadBytes(p)
    case RequestResponse(_, p) => PayloadBytes(p)
    case RequestFnf(_, p) => PayloadBytes(p)
    case RequestMore(_, n) => BigEndian(n, 4)
    case MetadataPush(_, m) => Present(m)
    case Cancel(_) => []
    case PayloadFrame(_, p) => PayloadBytes(p)
    case Error(_, code, p) => BigEndian(code, 4) + PayloadBytes(p)
    case Keepalive(_, position, data) => BigEndian(Bits64(position), 8) + Present(data)
    case Setup(h, major, minor, keepalive, lifetime, token, mm, dm, p) =>
      BigEndian(major, 2) + (BigEndian(minor, 2) + (BigEndian(keepalive, 4) + (BigEndian(lifetime, 4)
        + (TokenBytes(h.flags, token) + (BigEndian(|mm|, 1) + (mm + (BigEndian(|dm|, 1) + (dm + PayloadBytes(p)))))))))
    case Lease(_, ttl, n, m) => BigEndian(ttl, 4) + (BigEndian(n, 4) + Present(m))
    case Resume(_, major, minor, token, server, client) =>
      BigEndian(major, 2) + (BigEndian(minor, 2) + (BigEndian(|token|, 2) + (token
        + (BigEndian(Bits64(server), 8) + BigEndian(Bits64(client), 8)))))
    case ResumeOk(_, position) => BigEndian(Bits64(position), 8)
  }

  function TokenBytes(flags: Flags, token: Token): Bytes {
    if Has(flags, RESUME_ENABLE) then BigEndian(|token|, 2) + token else []
  }

  function Serialize(f: WireFrame): Bytes {
    HeaderBytes(f.header) + Body(f)
  }

  predicate MetadataFits(p: Payload) {
    p.metadata.Some? ==> |p.metadata.value| <= MAX_METADATA_LENGTH
  }

  /** The checks of the serializer: metadata and mime types fit their length fields, and the version is known. */
  predicate Serializable(f: WireFrame) {
    match f
    case RequestStream(_, _, p) => MetadataFits(p)
    case RequestChannel(_, _, p) => MetadataFits(p)
    case RequestResponse(_, p) => MetadataFits(p)
    case RequestFnf(_, p) => MetadataFits(p)
    case PayloadFrame(_, p) => MetadataFits(p)
    case Error(_, _, p) => MetadataFits(p)
    case Setup(_, major, minor, _, _, _, mm, dm, p) =>
      MetadataFits(p) && |mm| <= 0xFF && |dm| <= 0xFF && !(major == 0xFFFF && minor == 0xFFFF)
    case Resume(_, major, minor, _, _, _) => !(major == 0xFFFF && minor == 0xFFFF)
    case _ => true
  }

  // ---- Parsing ----

  function ReadHeader(b: Bytes): Read<Header> {
    if |b| < 6 || FromBigEndian(b[..4]) >= 0x8000_0000 then Fail
    else Got(Header(KindOf(b[4] / 4), b[4] as int % 4 * 0x100 + b[5] as int, FromBigEndian(b[..4])), b[6..])
  }

  function ReadMetadata(b: Bytes, flags: Flags): Read<Option<Bytes>> {
    if !Has(flags, METADATA) then Got(None, b)
    else
      var (length, b1) :- ReadUnsigned(b, 3);
      var (m, b2) :- ReadBytes(b1, length);
      Got(Some(m), b2)
  }

  function ReadPayload(b: Bytes, flags: Flags): Read<Payload> {
    var (metadata, b1) :- ReadMetadata(b, flags);
    Got(Payload(ReadData(b1), metadata), [])
  }

  /** A 32-bit integer that must not be negative when read as signed. */
  function ReadU31(b: Bytes): Read<U32> {
    var (n, b1) :- ReadUnsigned(b, 4);
    if n < 0x8000_0000 then Got(n, b1) else Fail
  }

  function ReadPositive(b: Bytes): Read<U32> {
    var (n, b1) :- ReadU31(b);
    if n > 0 then Got(n, b1) else Fail
  }

  /** A position must not be negative. */
  function ReadPosition(b: Bytes): Read<I64> {
    var (n, b1) :- ReadUnsigned(b, 8);
    if n < 0x8000_0000_0000_0000 then Got(n, b1) else Fail
  }

  function ReadToken(b: Bytes): Read<Token> {
    var (length, b1) :- ReadU16(b);
    var (token, b2) :- ReadBytes(b1, length);
    Got(token, b2)
  }

  function ParseSetup(h: Header, b: Bytes): Read<WireFrame> {
    var (major, b1) :- ReadU16(b);
    var (minor, b2) :- ReadU16(b1);
    var (keepalive, b3) :- ReadPositive(b2);
    var (lifetime, b4) :- ReadPositive(b3);
    var (token, b5) :- if Has(h.flags, RESUME_ENABLE) then ReadToken(b4) else Got([], b4);
    var (mm, b6) :- ReadMime(b5);
    var (dm, b7) :- ReadMime(b6);
    var (p, b8) :- ReadPayload(b7, h.flags);
    Got(Setup(h, major, minor, keepalive, lifetime, token, mm, dm, p), b8)
  }

  function ParseResume(h: Header, b: Bytes): Read<WireFrame> {
    var (major, b1) :- ReadU16(b);
    var (minor, b2) :- ReadU16(b1);
    var (token, b3) :- ReadToken(b2);
    var (server, b4) :- ReadPosition(b3);
    var (client, b5) :- ReadPosition(b4);
    Got(Resume(h, major, minor, token, server, client), b5)
  }

  function ParseBody(shape: FrameType, h: Header, b: Bytes): Read<WireFrame> {
    match shape
    case REQUEST_STREAM =>
      var (n, b1) :- ReadU31(b); var (p, b2) :- ReadPayload(b1, h.flags); Got(RequestStream(h, n, p), b2)
    case REQUEST_CHANNEL =>
      var (n, b1) :- ReadU31(b); var (p, b2) :- ReadPayload(b1, h.flags); Got(RequestChannel(h, n, p), b2)
    case REQUEST_RESPONSE => var (p, b1) :- ReadPayload(b, h.flags); Got(RequestResponse(h, p), b1)
    case REQUEST_FNF => var (p, b1) :- ReadPayload(b, h.flags); Got(RequestFnf(h, p), b1)
    case REQUEST_N => var (n, b1) :- ReadPositive(b); Got(RequestMore(h, n), b1)
    case METADATA_PUSH => if b == [] then Fail else Got(MetadataPush(h, Some(b)), [])
    case CANCEL => Got(Cancel(h), b)
    case PAYLOAD => var (p, b1) :- ReadPayload(b, h.flags); Got(PayloadFrame(h, p), b1)
    case ERROR =>
      var (code, b1) :- ReadU32(b); var (p, b2) :- ReadPayload(b1, h.flags); Got(Error(h, code, p), b2)
    case KEEPALIVE => var (position, b1) :- ReadPosition(b); Got(Keepalive(h, position, ReadData(b1)), [])
    case SETUP => ParseSetup(h, b)
    case LEASE =>
      var (ttl, b1) :- ReadPositive(b); var (n, b2) :- ReadPositive(b1); Got(Lease(h, ttl, n, ReadData(b2)), [])
    case RESUME => ParseResume(h, b)
    case RESUME_OK => var (position, b1) :- ReadPosition(b); Got(ResumeOk(h, position), b1)
    case _ => Fail
  }

  /** Bytes after the frame are ignored. */
  function Deserialize(shape: FrameType, b: Bytes): Option<WireFrame> {
    match ReadHeader(b)
    case Fail => None
    case Got(h, rest) =>
      match ParseBody(shape, h, rest)
      case Fail => None
      case Got(f, _) => Some(f)
  }

  function PeekFrameType(b: Bytes): FrameType {
    if |b| < 5 then RESERVED else KindOf(b[4] / 4)
  }

  function PeekStreamId(b: Bytes): Option<U32> {
    if |b| < 4 || FromBigEndian(b[..4]) >= 0x8000_0000 then None else Some(FromBigEndian(b[..4]))
  }
}
