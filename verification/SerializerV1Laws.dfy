/** Round trips of the 1.0 frame format. */
module SerializerV1Laws {
  import opened Frames
  import opened Wire
  import opened WireFrames
  import opened SerializerV1
  import opened Autodetection

  /** The frame types survive their six bits. */
  lemma KindRoundTrip(kind: FrameType)
    ensures KindOf(Code(kind)) == kind
  {
  }

  /** A header reads back exactly if its stream id fits 31 bits. */
  lemma HeaderRoundTripIff(h: Header, rest: Bytes)
    ensures ReadHeader(HeaderBytes(h) + rest) == if h.streamId < 0x8000_0000 then Got(h, rest) else Fail
  {
    var b := HeaderBytes(h) + rest;
    assert b[..4] == BigEndian(h.streamId, 4) && b[6..] == rest;
    Powers();
    ReadsBack(h.streamId, 4);
    KindRoundTrip(h.kind);
    assert b[4] == Code(h.kind) * 4 + h.flags / 0x100 && b[5] == h.flags % 0x100;
  }

  /** What is peeked is what a full parse of the header finds. */
  lemma PeeksAgree(b: Bytes)
    ensures match ReadHeader(b)
      case Got(h, _) => PeekFrameType(b) == h.kind && PeekStreamId(b) == Some(h.streamId)
      case Fail => |b| < 6 || PeekStreamId(b) == None
  {
  }

  /** The header says there is metadata exactly when there is. */
  predicate FlagMatches(h: Header, p: Payload) {
    Has(h.flags, METADATA) <==> p.metadata.Some?
  }

  lemma PayloadRoundTripIff(p: Payload, h: Header)
    requires MetadataFits(p)
    ensures ReadPayload(PayloadBytes(p), h.flags) == Got(NormalPayload(p), []) <==> FlagMatches(h, p)
    ensures ReadPayload(PayloadBytes(p), h.flags).Got? ==>
      (ReadPayload(PayloadBytes(p), h.flags).value == NormalPayload(p) <==> FlagMatches(h, p))
  {
    Powers();
    match p.metadata
    case None =>
      assert [] + Present(p.data) == Present(p.data);
    case Some(m) =>
      var data := Present(p.data);
      assert PayloadBytes(p) == BigEndian(|m|, 3) + (m + data);
      ReadsUnsigned(|m|, 3, m + data);
      ReadsBytes(m, data);
  }

  lemma U31RoundTrip(n: U32, rest: Bytes)
    ensures ReadU31(BigEndian(n, 4) + rest) == if n < 0x8000_0000 then Got(n, rest) else Fail
    ensures ReadPositive(BigEndian(n, 4) + rest) == if 0 < n < 0x8000_0000 then Got(n, rest) else Fail
  {
    Powers();
    ReadsUnsigned(n, 4, rest);
  }

  lemma PositionRoundTrip(p: I64, rest: Bytes)
    ensures ReadPosition(BigEndian(Bits64(p), 8) + rest) == if p >= 0 then Got(p, rest) else Fail
  {
    Powers();
    ReadsUnsigned(Bits64(p), 8, rest);
  }

  lemma TokenRoundTrip(t: Token, rest: Bytes)
    ensures ReadToken(BigEndian(|t|, 2) + (t + rest)) == Got(t, rest)
  {
    U16RoundTrip(|t|, t + rest);
    ReadsBytes(t, rest);
  }

  // ---- Whole frames ----

  /** The frames the format can carry: stream ids and counts of 31 bits, positive times and REQUEST_N counts, positions
      that are not negative, the METADATA flag exactly with metadata, a token only where it is announced, and something
      in a metadata push. */
  predicate WellFormed(f: WireFrame) {
    && f.header.streamId < 0x8000_0000
    && match f
       case RequestStream(h, n, p) => n < 0x8000_0000 && FlagMatches(h, p)
       case RequestChannel(h, n, p) => n < 0x8000_0000 && FlagMatches(h, p)
       case RequestResponse(h, p) => FlagMatches(h, p)
       case RequestFnf(h, p) => FlagMatches(h, p)
       case RequestMore(_, n) => 0 < n < 0x8000_0000
       case MetadataPush(_, m) => Present(m) != []
       case Cancel(_) => true
       case PayloadFrame(h, p) => FlagMatches(h, p)
       case Error(h, _, p) => FlagMatches(h, p)
       case Keepalive(_, position, _) => position >= 0
       case Setup(h, _, _, keepalive, lifetime, token, _, _, p) =>
         && 0 < keepalive < 0x8000_0000 && 0 < lifetime < 0x8000_0000
         && (Has(h.flags, RESUME_ENABLE) || token == []) && FlagMatches(h, p)
       case Lease(_, ttl, n, _) => 0 < ttl < 0x8000_0000 && 0 < n < 0x8000_0000
       case Resume(_, _, _, _, server, client) => server >= 0 && client >= 0
       case ResumeOk(_, position) => position >= 0
  }

  /** The frame with empty data taken for absent data. */
  function NormalFrame(f: WireFrame): WireFrame {
    match f
    case RequestStream(h, n, p) => RequestStream(h, n, NormalPayload(p))
    case RequestChannel(h, n, p) => RequestChannel(h, n, NormalPayload(p))
    case RequestResponse(h, p) => RequestResponse(h, NormalPayload(p))
    case RequestFnf(h, p) => RequestFnf(h, NormalPayload(p))
    case MetadataPush(h, m) => MetadataPush(h, Normal(m))
    case PayloadFrame(h, p) => PayloadFrame(h, NormalPayload(p))
    case Error(h, code, p) => Error(h, code, NormalPayload(p))
    case Keepalive(h, position, data) => Keepalive(h, position, Normal(data))
    case Setup(h, major, minor, keepalive, lifetime, token, mm, dm, p) =>
      Setup(h, major, minor, keepalive, lifetime, token, mm, dm, NormalPayload(p))
    case Lease(h, ttl, n, m) => Lease(h, ttl, n, Normal(m))
    case _ => f
  }

  /** Parsing what was printed gives the frame back, up to empty data, for exactly the well-formed frames of all
      fourteen types. */
  lemma RoundTripIff(f: WireFrame)
    requires Serializable(f)
    ensures Deserialize(ShapeOf(f), Serialize(f)) == Some(NormalFrame(f)) <==> WellFormed(f)
  {
    hide ReadHeader, HeaderBytes, ParseBody, Body;
    HeaderRoundTripIff(f.header, Body(f));
    if f.header.streamId < 0x8000_0000 {
      BodyRoundTripIff(f);
    }
  }

  lemma BodyRoundTripIff(f: WireFrame)
    requires Serializable(f) && f.header.streamId < 0x8000_0000
    ensures Gives(ParseBody(ShapeOf(f), f.header, Body(f)), NormalFrame(f)) <==> WellFormed(f)
  {
    hide ReadPayload, PayloadBytes, ReadU31, ReadU32, ReadPositive, ReadPosition, BigEndian, FlagMatches, MetadataFits, ParseSetup, ParseResume, Has;
    match f
    case RequestStream(h, n, p) =>
      U31RoundTrip(n, PayloadBytes(p));
      PayloadRoundTripIff(p, h);
    case RequestChannel(h, n, p) =>
      U31RoundTrip(n, PayloadBytes(p));
      PayloadRoundTripIff(p, h);
    case RequestResponse(h, p) => PayloadRoundTripIff(p, h);
    case RequestFnf(h, p) => PayloadRoundTripIff(p, h);
    case RequestMore(_, n) =>
      assert BigEndian(n, 4) + [] == BigEndian(n, 4);
      U31RoundTrip(n, []);
    case MetadataPush(_, m) =>
    case Cancel(_) =>
    case PayloadFrame(h, p) => PayloadRoundTripIff(p, h);
    case Error(h, code, p) =>
      U32RoundTrip(code, PayloadBytes(p));
      PayloadRoundTripIff(p, h);
    case Keepalive(_, position, data) => PositionRoundTrip(position, Present(data));
    case Setup(_, _, _, _, _, _, _, _, _) => SetupRoundTripIff(f);
    case Lease(_, ttl, n, m) =>
      U31RoundTrip(ttl, BigEndian(n, 4) + Present(m));
      U31RoundTrip(n, Present(m));
    case Resume(_, _, _, _, _, _) => ResumeRoundTripIff(f);
    case ResumeOk(_, position) =>
      assert BigEndian(Bits64(position), 8) + [] == BigEndian(Bits64(position), 8);
      PositionRoundTrip(position, []);
  }

  lemma SetupRoundTripIff(f: WireFrame)
    requires f.Setup? && Serializable(f) && f.header.streamId < 0x8000_0000
    ensures Gives(ParseSetup(f.header, Body(f)), NormalFrame(f)) <==> WellFormed(f)
  {
    hide ReadPayload, PayloadBytes, ReadU16, ReadPositive, ReadToken, ReadMime, BigEndian, FlagMatches, MetadataFits, Has;
    var Setup(h, major, minor, keepalive, lifetime, token, mm, dm, p) := f;
    var b7 := PayloadBytes(p);
    var b6 := BigEndian(|dm|, 1) + (dm + b7);
    var b5 := BigEndian(|mm|, 1) + (mm + b6);
    var b4 := TokenBytes(h.flags, token) + b5;
    var b3 := BigEndian(lifetime, 4) + b4;
    var b2 := BigEndian(keepalive, 4) + b3;
    var b1 := BigEndian(minor, 2) + b2;
    U16RoundTrip(major, b1);
    U16RoundTrip(minor, b2);
    U31RoundTrip(keepalive, b3);
    U31RoundTrip(lifetime, b4);
    if Has(h.flags, RESUME_ENABLE) {
      TokenRoundTrip(token, b5);
      assert b4 == BigEndian(|token|, 2) + (token + b5);
    } else {
      assert b4 == b5;
    }
    MimeRoundTrip(mm, b6);
    MimeRoundTrip(dm, b7);
    PayloadRoundTripIff(p, h);
  }

  lemma ResumeRoundTripIff(f: WireFrame)
    requires f.Resume? && Serializable(f) && f.header.streamId < 0x8000_0000
    ensures Gives(ParseResume(f.header, Body(f)), NormalFrame(f)) <==> WellFormed(f)
  {
    hide ReadU16, ReadToken, ReadPosition, BigEndian;
    var Resume(h, major, minor, token, server, client) := f;
    var b4 := BigEndian(Bits64(client), 8);
    var b3 := BigEndian(Bits64(server), 8) + b4;
    var b2 := BigEndian(|token|, 2) + (token + b3);
    U16RoundTrip(major, BigEndian(minor, 2) + b2);
    U16RoundTrip(minor, b2);
    TokenRoundTrip(token, b3);
    PositionRoundTrip(server, b4);
    assert b4 + [] == b4;
    PositionRoundTrip(client, []);
  }

  /** What is printed starts with what the autodetection looks for: a SETUP or RESUME frame of version 1.0 on stream 0
      selects this serializer. */
  lemma SelectsItself(f: WireFrame)
    requires f.Setup? || f.Resume?
    requires f.header.kind == ShapeOf(f) && f.header.streamId == 0
    requires f.versionMajor == 1 && f.versionMinor == 0
    ensures Autodetect(Serialize(f)) == V1_0
  {
    hide Autodetect, DetectV0, DetectV1;
    var b, h := Serialize(f), f.header;
    SmallNumbers();
    var rest := Body(f);
    assert rest[..4] == [0, 1, 0, 0];
    assert b[..10] == HeaderBytes(h) + rest[..4];
    assert b[..10] == StartV1(f.Resume?, h.flags);
    assert b == StartV1(f.Resume?, h.flags) + b[10..];
    AutodetectsOwnVersion(b[10..], f.Resume?, h.flags, 0, 0);
  }

  lemma SmallNumbers()
    ensures BigEndian(0, 4) == [0, 0, 0, 0] && BigEndian(0, 2) == [0, 0] && BigEndian(1, 2) == [0, 1]
  {
    assert BigEndian(0, 1) == [0];
    assert BigEndian(0, 3) == [0, 0, 0];
  }
}
