/** The frames of the protocol with all their fields, and the primitives with which both serializers read bytes. */
module WireFrames {
  import opened Frames
  import opened Wire

  type Bytes = seq<Byte>
  type U16 = n: nat | n < 0x1_0000
  type U32 = n: nat | n < 0x1_0000_0000
  type I64 = n: int | -0x8000_0000_0000_0000 <= n < 0x8000_0000_0000_0000

  /** Ten bits of flags. */
  type Flags = n: nat | n < 0x400

  const IGNORE: nat := 0x200
  const METADATA: nat := 0x100
  const FOLLOWS: nat := 0x80
  const RESUME_ENABLE: nat := 0x80
  const KEEPALIVE_RESPOND: nat := 0x80
  const LEASE_FLAG: nat := 0x40
  const COMPLETE_FLAG: nat := 0x40

  predicate Has(flags: nat, flag: nat)
    requires flag > 0
  {
    flags / flag % 2 == 1
  }

  datatype Header = Header(kind: FrameType, flags: Flags, streamId: U32)

  datatype Payload = Payload(data: Option<Bytes>, metadata: Option<Bytes>)

  /** The 16-bit length field of a token bounds it. */
  type Token = t: Bytes | |t| <= 0xFFFF

  datatype WireFrame =
    | RequestStream(header: Header, requestN: U32, payload: Payload)
    | RequestChannel(header: Header, requestN: U32, payload: Payload)
    | RequestResponse(header: Header, payload: Payload)
    | RequestFnf(header: Header, payload: Payload)
    | RequestMore(header: Header, requestN: U32)
    | MetadataPush(header: Header, metadata: Option<Bytes>)
    | Cancel(header: Header)
    | PayloadFrame(header: Header, payload: Payload)
    | Error(header: Header, errorCode: U32, payload: Payload)
    | Keepalive(header: Header, position: I64, data: Option<Bytes>)
    | Setup(header: Header, versionMajor: U16, versionMinor: U16, keepaliveTime: U32, maxLifetime: U32,
            token: Token, metadataMimeType: Bytes, dataMimeType: Bytes, payload: Payload)
    | Lease(header: Header, ttl: U32, numberOfRequests: U32, metadata: Option<Bytes>)
    | Resume(header: Header, versionMajor: U16, versionMinor: U16, token: Token,
             lastReceivedServerPosition: I64, clientPosition: I64)
    | ResumeOk(header: Header, position: I64)

  /** The type of frame a caller asks to deserialize; the type in the header is not compared with it. */
  function ShapeOf(f: WireFrame): FrameType {
    match f
    case RequestStream(_, _, _) => REQUEST_STREAM
    case RequestChannel(_, _, _) => REQUEST_CHANNEL
    case RequestResponse(_, _) => REQUEST_RESPONSE
    case RequestFnf(_, _) => REQUEST_FNF
    case RequestMore(_, _) => REQUEST_N
    case MetadataPush(_, _) => METADATA_PUSH
    case Cancel(_) => CANCEL
    case PayloadFrame(_, _) => PAYLOAD
    case Error(_, _, _) => ERROR
    case Keepalive(_, _, _) => KEEPALIVE
    case Setup(_, _, _, _, _, _, _, _, _) => SETUP
    case Lease(_, _, _, _) => LEASE
    case Resume(_, _, _, _, _, _) => RESUME
    case ResumeOk(_, _) => RESUME_OK
  }

  // ---- Reading ----

  /** What a cursor read yields, with the bytes that are left; `Fail` is the exception of a read past the end or of a
      value that is refused. */
  datatype Read<+T> = Fail | Got(value: T, rest: Bytes) {
    predicate IsFailure() {
      Fail?
    }
    function PropagateFailure<U>(): Read<U>
      requires Fail?
    {
      Fail
    }
    function Extract(): (T, Bytes)
      requires Got?
    {
      (value, rest)
    }
  }

  function ReadBytes(b: Bytes, k: nat): Read<Bytes> {
    if |b| < k then Fail else Got(b[..k], b[k..])
  }

  /** An unsigned big-endian integer of `k` bytes. */
  function ReadUnsigned(b: Bytes, k: nat): Read<nat> {
    if |b| < k then Fail else Got(FromBigEndian(b[..k]), b[k..])
  }

  /** What is left, or nothing if nothing is left. */
  function ReadData(b: Bytes): Option<Bytes> {
    if b == [] then None else Some(b)
  }

  function Present(data: Option<Bytes>): Bytes {
    match data
    case None => []
    case Some(b) => b
  }

  /** Absent and empty data look the same on the wire. */
  function Normal(data: Option<Bytes>): Option<Bytes> {
    ReadData(Present(data))
  }

  /** The 64 bits of a signed integer. */
  function Bits64(p: I64): nat {
    if p >= 0 then p else p + SIZE_T
  }

  lemma ReadsBytes(s: Bytes, rest: Bytes)
    ensures ReadBytes(s + rest, |s|) == Got(s, rest)
  {
    assert (s + rest)[..|s|] == s && (s + rest)[|s|..] == rest;
  }

  lemma ReadsUnsigned(n: nat, k: nat, rest: Bytes)
    requires n < Base(k)
    ensures ReadUnsigned(BigEndian(n, k) + rest, k) == Got(n, rest)
  {
    var s := BigEndian(n, k);
    assert (s + rest)[..k] == s && (s + rest)[k..] == rest;
    ReadsBack(n, k);
  }

  lemma Powers()
    ensures Base(1) == 0x100 && Base(2) == 0x1_0000 && Base(3) == 0x100_0000 && Base(4) == 0x1_0000_0000
    ensures Base(8) == SIZE_T
  {
    assert Base(5) == 0x100 * Base(4) && Base(6) == 0x100 * Base(5) && Base(7) == 0x100 * Base(6);
  }

  function ReadU16(b: Bytes): Read<U16> {
    var (n, b1) :- ReadUnsigned(b, 2);
    if n < 0x1_0000 then Got(n, b1) else Fail
  }

  function ReadU32(b: Bytes): Read<U32> {
    var (n, b1) :- ReadUnsigned(b, 4);
    if n < 0x1_0000_0000 then Got(n, b1) else Fail
  }

  /** A string after its length in one byte. */
  function ReadMime(b: Bytes): Read<Bytes> {
    var (length, b1) :- ReadUnsigned(b, 1);
    ReadBytes(b1, length)
  }

  function NormalPayload(p: Payload): Payload {
    Payload(Normal(p.data), p.metadata)
  }

  predicate Gives<T(==)>(r: Read<T>, value: T) {
    r.Got? && r.value == value
  }

  lemma U16RoundTrip(n: U16, rest: Bytes)
    ensures ReadU16(BigEndian(n, 2) + rest) == Got(n, rest)
  {
    Powers();
    ReadsUnsigned(n, 2, rest);
  }

  lemma U32RoundTrip(n: U32, rest: Bytes)
    ensures ReadU32(BigEndian(n, 4) + rest) == Got(n, rest)
  {
    Powers();
    ReadsUnsigned(n, 4, rest);
  }

  lemma MimeRoundTrip(s: Bytes, rest: Bytes)
    requires |s| <= 0xFF
    ensures ReadMime(BigEndian(|s|, 1) + (s + rest)) == Got(s, rest)
  {
    Powers();
    ReadsUnsigned(|s|, 1, s + rest);
    ReadsBytes(s, rest);
  }
}
