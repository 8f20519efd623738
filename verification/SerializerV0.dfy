/** The frame format of protocols 0.0 and 0.1: printing, parsing and peeking. */
module SerializerV0 {
  import opened Frames
  import opened Wire
  import opened WireFrames

  const MAX_METADATA_LENGTH := 0xFFFFFF
  const NO_POSITION: I64 := -1
  const MAX_TIME := 0x7FFF_FFFF

  /** One type that 1.0 no longer has sits in the middle of the numbering. */
  function Code(kind: FrameType): (c: U16) {
    match kind
    case RESERVED => 0x0000
    case SETUP => 0x0001
    case LEASE => 0x0002
    case KEEPALIVE => 0x0003
    case REQUEST_RESPONSE => 0x0004
    case REQUEST_FNF => 0x0005
    case REQUEST_STREAM => 0x0006
    case REQUEST_CHANNEL => 0x0008
    case REQUEST_N => 0x0009
    case CANCEL => 0x000A
    case PAYLOAD => 0x000B
    case ERROR => 0x000C
    case METADATA_PUSH => 0x000D
    case RESUME => 0x000E
    case RESUME_OK => 0x000F
    case EXT => 0xFFFF
  }

  /** Unknown types read as reserved, subscriptions as stream requests. */
  function KindOf(code: nat): FrameType {
    match code
    case 0x0001 => SETUP
    case 0x0002 => LEASE
    case 0x0003 => KEEPALIVE
    case 0x0004 => REQUEST_RESPONSE
    case 0x0005 => REQUEST_FNF
    case 0x0006 => REQUEST_STREAM
    case 0x0007 => REQUEST_STREAM
    case 0x0008 => REQUEST_CHANNEL
    case 0x0009 => REQUEST_N
    case 0x000A => CANCEL
    case 0x000B => PAYLOAD
    case 0x000C => ERROR
    case 0x000D => METADATA_PUSH
    case 0x000E => RESUME
    case 0x000F => RESUME_OK
    case 0xFFFF => EXT
    case _ => RESERVED
  }

  // ---- Flags ----

  const IGNORE_V0: nat := 0x8000
  const METADATA_V0: nat := 0x4000
  const FOLLOWS_V0: nat := 0x2000
  const KEEPALIVE_RESPOND_V0: nat := 0x2000
  const LEASE_V0: nat := 0x2000
  const COMPLETE_V0: nat := 0x1000
  const RESUME_ENABLE_V0: nat := 0x0800

  /** The pairs of a 1.0 flag and its 0.x bit that a frame of the shape carries besides IGNORE and METADATA. */
  function ExtraFlags(shape: FrameType): (nat, nat, nat, nat) {
    match shape
    case REQUEST_STREAM => (FOLLOWS, FOLLOWS_V0, COMPLETE_FLAG, COMPLETE_V0)
    case REQUEST_CHANNEL => (FOLLOWS, FOLLOWS_V0, COMPLETE_FLAG, COMPLETE_V0)
    case PAYLOAD => (FOLLOWS, FOLLOWS_V0, COMPLETE_FLAG, COMPLETE_V0)
    case REQUEST_RESPONSE => (FOLLOWS, FOLLOWS_V0, 0, 0)
    case REQUEST_FNF => (FOLLOWS, FOLLOWS_V0, 0, 0)
    case KEEPALIVE => (KEEPALIVE_RESPOND, KEEPALIVE_RESPOND_V0, 0, 0)
    case SETUP => (RESUME_ENABLE, RESUME_ENABLE_V0, LEASE_FLAG, LEASE_V0)
    case _ => (0, 0, 0, 0)
  }

  /** `bit` if `flags` has `flag`; flag 0 is no flag. */
  function Move(flags: nat, flag: nat, bit: nat): nat {
    if flag > 0 && Has(flags, flag) then bit else 0
  }

  function WriteFlags(shape: FrameType, flags: Flags): nat {
    var (f, f0, g, g0) := ExtraFlags(shape);
    Move(flags, IGNORE, IGNORE_V0) + Move(flags, METADATA, METADATA_V0) + Move(flags, f, f0) + Move(flags, g, g0)
  }

  function ReadFlags(shape: FrameType, word: nat): (flags: Flags) {
    var (f, f0, g, g0) := ExtraFlags(shape);
    Move(word, IGNORE_V0, IGNORE) + Move(word, METADATA_V0, METADATA) + Move(word, f0, f) + Move(word, g0, g)
  }

  /** The flags that the format keeps. */
  function Kept(shape: FrameType, flags: Flags): (kept: Flags) {
    var (f, f0, g, g0) := ExtraFlags(shape);
    Move(flags, IGNORE, IGNORE) + Move(flags, METADATA, METADATA) + Move(flags, f, f) + Move(flags, g, g)
  }

  // ---- Printing ----

  function HeaderBytes(shape: FrameType, h: Header): Bytes {
    BigEndian(Code(h.kind), 2) + (BigEndian(WriteFlags(shape, h.flags), 2) + BigEndian(h.streamId, 4))
  }

  /** The length counts its own four bytes. */
  function MetadataBytes(metadata: Option<Bytes>): Bytes {
    match metadata
    case None => []
    case Some(m) => BigEndian((|m| + 4) % 0x1_0000_0000, 4) + m
  }

  function PayloadBytes(p: Payload): Bytes {
    MetadataBytes(p.metadata) + Present(p.data)
  }

  function TokenBytes(flags: Flags, token: Token): Bytes {
    if Has(flags, RESUME_ENABLE) then token else []
  }

  function Body(f: WireFrame, resumable: bool): Bytes {
    match f
    case RequestStream(_, n, p) => BigEndian(n, 4) + PayloadBytes(p)
    case RequestChannel(_, n, p) => BigEndian(n, 4) + PayloadBytes(p)
    case RequestResponse(_, p) => PayloadBytes(p)
    case RequestFnf(_, p) => PayloadBytes(p)
    case RequestMore(_, n) => BigEndian(n, 4)
    case MetadataPush(_, m) => MetadataBytes(m)
    case Cancel(_) => []
    case PayloadFrame(_, p) => PayloadBytes(p)
    case Error(_, code, p) => BigEndian(code, 4) + PayloadBytes(p)
    case Keepalive(_, position, data) =>
      (if resumable then BigEndian(Bits64(position), 8) else []) + Present(data)
    case Setup(h, major, minor, keepalive, lifetime, token, mm, dm, p) =>
      BigEndian(major, 2) + (BigEndian(minor, 2) + (BigEndian(keepalive, 4) + (BigEndian(lifetime, 4)
        + (TokenBytes(h.flags, token) + (BigEndian(|mm|, 1) + (mm + (BigEndian(|dm|, 1) + (dm + PayloadBytes(p)))))))))
    case Lease(_, ttl, n, m) => BigEndian(ttl, 4) + (BigEndian(n, 4) + MetadataBytes(m))
    case Resume(_, _, _, token, server, _) => token + BigEndian(Bits64(server), 8)
    case ResumeOk(_, position) => BigEndian(Bits64(position), 8)
  }

  function Serialize(f: WireFrame, resumable: bool): Bytes {
    HeaderBytes(ShapeOf(f), f.header) + Body(f, resumable)
  }

  predicate MetadataFits(metadata: Option<Bytes>) {
    metadata.Some? ==> |metadata.value| < MAX_METADATA_LENGTH - 4
  }

  /** The checks of the serializer. */
  predicate Serializable(f: WireFrame) {
    match f
    case RequestStream(_, _, p) => MetadataFits(p.metadata)
    case RequestChannel(_, _, p) => MetadataFits(p.metadata)
    case RequestResponse(_, p) => MetadataFits(p.metadata)
    case RequestFnf(_, p) => MetadataFits(p.metadata)
    case MetadataPush(_, m) => MetadataFits(m)
    case PayloadFrame(_, p) => MetadataFits(p.metadata)
    case Error(_, _, p) => MetadataFits(p.metadata)
    case Setup(_, major, minor, _, _, _, mm, dm, p) =>
      MetadataFits(p.metadata) && |mm| <= 0xFF && |dm| <= 0xFF && !(major == 0xFFFF && minor == 0xFFFF)
    case Lease(_, _, _, m) => MetadataFits(m)
    case Resume(_, _, _, token, _, _) => |token| <= 16
    case _ => true
  }

  // ---- Parsing ----

  function ReadHeader(shape: FrameType, b: Bytes): Read<Header> {
    if |b| < 8 then Fail
    else
      var id := FromBigEndian(b[4..8]);
      if id >= 0x1_0000_0000 then Fail
      else Got(Header(KindOf(FromBigEndian(b[..2])), ReadFlags(shape, FromBigEndian(b[2..4])), id), b[8..])
  }

  /** Times and counts are cut off at the largest positive value. */
  function ReadClamped(b: Bytes): Read<U32> {
    var (n, b1) :- ReadU32(b);
    Got(Clamped(n), b1)
  }

  function Clamped(n: U32): U32 {
    if n < MAX_TIME then n else MAX_TIME
  }

  /** A signed 64-bit position. */
  function ReadPosition(b: Bytes): Read<I64> {
    var (n, b1) :- ReadUnsigned(b, 8);
    if n < 0x8000_0000_0000_0000 then Got(n, b1) else if n < SIZE_T then Got(n - SIZE_T, b1) else Fail
  }

  function ReadMetadata(b: Bytes, flags: Flags): Read<Option<Bytes>> {
    if !Has(flags, METADATA) then Got(None, b)
    else
      var (length, b1) :- ReadU32(b);
      if length >= MAX_METADATA_LENGTH || length <= 4 then Fail
      else
        var (m, b2) :- ReadBytes(b1, length - 4);
        Got(Some(m), b2)
  }

  function ReadPayload(b: Bytes, flags: Flags): Read<Payload> {
    var (metadata, b1) :- ReadMetadata(b, flags);
    Got(Payload(ReadData(b1), metadata), [])
  }

  function ParseSetup(h: Header, b: Bytes): Read<WireFrame> {
    var (major, b1) :- ReadU16(b);
    var (minor, b2) :- ReadU16(b1);
    var (keepalive, b3) :- ReadClamped(b2);
    var (lifetime, b4) :- ReadClamped(b3);
    var (token, b5) :- if Has(h.flags, RESUME_ENABLE) then ReadBytes(b4, 16) else Got([], b4);
    var (mm, b6) :- ReadMime(b5);
    var (dm, b7) :- ReadMime(b6);
    var (p, b8) :- ReadPayload(b7, h.flags);
    if |token| > 0xFFFF then Fail
    else Got(Setup(h, major, minor, keepalive, lifetime, token, mm, dm, p), b8)
  }

  /** The version is that of the serializer and the client's position is not on the wire. */
  function ParseResume(h: Header, b: Bytes, minor: U16): Read<WireFrame> {
    var (token, b1) :- ReadBytes(b, 16);
    var (server, b2) :- ReadPosition(b1);
    if |token| > 0xFFFF then Fail
    else Got(Resume(h, 0, minor, token, server, NO_POSITION), b2)
  }

  function ParseBody(shape: FrameType, h: Header, b: Bytes, resumable: bool, minor: U16): Read<WireFrame> {
    match shape
    case REQUEST_STREAM =>
      var (n, b1) :- ReadU32(b); var (p, b2) :- ReadPayload(b1, h.flags); Got(RequestStream(h, n, p), b2)
    case REQUEST_CHANNEL =>
      var (n, b1) :- ReadU32(b); var (p, b2) :- ReadPayload(b1, h.flags); Got(RequestChannel(h, n, p), b2)
    case REQUEST_RESPONSE => var (p, b1) :- ReadPayload(b, h.flags); Got(RequestResponse(h, p), b1)
    case REQUEST_FNF => var (p, b1) :- ReadPayload(b, h.flags); Got(RequestFnf(h, p), b1)
    case REQUEST_N => var (n, b1) :- ReadU32(b); Got(RequestMore(h, n), b1)
    case METADATA_PUSH =>
      var (m, b1) :- ReadMetadata(b, h.flags); if m == None then Fail else Got(MetadataPush(h, m), b1)
    case CANCEL => Got(Cancel(h), b)
    case PAYLOAD => var (p, b1) :- ReadPayload(b, h.flags); Got(PayloadFrame(h, p), b1)
    case ERROR =>
      var (code, b1) :- ReadU32(b); var (p, b2) :- ReadPayload(b1, h.flags); Got(Error(h, code, p), b2)
    case KEEPALIVE =>
      var (position, b1) :- if resumable then ReadPosition(b) else Got(0, b);
      Got(Keepalive(h, position, ReadData(b1)), [])
    case SETUP => ParseSetup(h, b)
    case LEASE =>
      var (ttl, b1) :- ReadClamped(b); var (n, b2) :- ReadClamped(b1); var (m, b3) :- ReadMetadata(b2, h.flags);
      Got(Lease(h, ttl, n, m), b3)
    case RESUME => ParseResume(h, b, minor)
    case RESUME_OK => var (position, b1) :- ReadPosition(b); Got(ResumeOk(h, position), b1)
    case _ => Fail
  }

  /** `minor` is the minor version of the serializer, 0 or 1. */
  function Deserialize(shape: FrameType, b: Bytes, resumable: bool, minor: U16): Option<WireFrame> {
    match ReadHeader(shape, b)
    case Fail => None
    case Got(h, rest) =>
      match ParseBody(shape, h, rest, resumable, minor)
      case Fail => None
      case Got(f, _) => Some(f)
  }

  function PeekFrameType(b: Bytes): FrameType {
    if |b| < 2 then RESERVED else KindOf(FromBigEndian(b[..2]))
  }

  function PeekStreamId(b: Bytes): Option<nat> {
    if |b| < 8 then None else Some(FromBigEndian(b[4..8]))
  }
}
