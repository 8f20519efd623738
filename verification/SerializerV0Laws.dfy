/** Round trips of the 0.x frame format, which drops some fields. */
module SerializerV0Laws {
  import opened Frames
  import opened Wire
  import opened WireFrames
  import opened SerializerV0
  import opened Autodetection

  lemma KindRoundTrip(kind: FrameType)
    ensures KindOf(Code(kind)) == kind
  {
  }

  // ---- Flags ----

  /** Every bit of a sum of different powers of two can be told. */
  lemma FourBits(a: bool, b: bool, c: bool, d: bool, e: bool)
    ensures var w := (if a then 0x8000 else 0) + (if b then 0x4000 else 0) + (if c then 0x2000 else 0)
                   + (if d then 0x1000 else 0) + (if e then 0x0800 else 0);
      && w < 0x1_0000
      && (Has(w, 0x8000) <==> a) && (Has(w, 0x4000) <==> b) && (Has(w, 0x2000) <==> c)
      && (Has(w, 0x1000) <==> d) && (Has(w, 0x0800) <==> e)
  {
  }

  /** The bits of the flags word are the flags they stand for. */
  lemma WordBits(shape: FrameType, flags: Flags)
    ensures var word := WriteFlags(shape, flags);
      var (f, f0, g, g0) := ExtraFlags(shape);
      && word < 0x1_0000
      && (Has(word, IGNORE_V0) <==> Has(flags, IGNORE)) && (Has(word, METADATA_V0) <==> Has(flags, METADATA))
      && (f > 0 <==> f0 > 0) && (f > 0 ==> (Has(word, f0) <==> Has(flags, f)))
      && (g > 0 <==> g0 > 0) && (g > 0 ==> (Has(word, g0) <==> Has(flags, g)))
  {
    hide Has;
    var (f, f0, g, g0) := ExtraFlags(shape);
    var i, m := Has(flags, IGNORE), Has(flags, METADATA);
    if f == 0 {
      FourBits(i, m, false, false, false);
    } else if g == 0 {
      FourBits(i, m, Has(flags, f), false, false);
    } else if g0 == COMPLETE_V0 {
      FourBits(i, m, Has(flags, f), Has(flags, g), false);
    } else {
      FourBits(i, m, Has(flags, g), false, Has(flags, f));
    }
  }

  /** Exactly the flags that have a bit in the old format survive. */
  lemma FlagsRoundTrip(shape: FrameType, flags: Flags)
    ensures WriteFlags(shape, flags) < 0x1_0000
    ensures ReadFlags(shape, WriteFlags(shape, flags)) == Kept(shape, flags)
  {
    hide Has, Move, WriteFlags;
    WordBits(shape, flags);
    var word := WriteFlags(shape, flags);
    var (f, f0, g, g0) := ExtraFlags(shape);
    MovesBack(word, flags, IGNORE, IGNORE_V0);
    MovesBack(word, flags, METADATA, METADATA_V0);
    MovesBack(word, flags, f, f0);
    MovesBack(word, flags, g, g0);
  }

  lemma MovesBack(word: nat, flags: nat, flag: nat, bit: nat)
    requires flag > 0 <==> bit > 0
    requires flag > 0 ==> (Has(word, bit) <==> Has(flags, flag))
    ensures Move(word, bit, flag) == Move(flags, flag, flag)
  {
  }

  /** Metadata and resumption stay announced. */
  lemma KeptFlags(shape: FrameType, flags: Flags)
    ensures Has(Kept(shape, flags), METADATA) <==> Has(flags, METADATA)
    ensures shape == SETUP ==> (Has(Kept(shape, flags), RESUME_ENABLE) <==> Has(flags, RESUME_ENABLE))
  {
  }

  function KeptHeader(shape: FrameType, h: Header): Header {
    h.(flags := Kept(shape, h.flags))
  }

  lemma HeaderRoundTrip(shape: FrameType, h: Header, rest: Bytes)
    ensures ReadHeader(shape, HeaderBytes(shape, h) + rest) == Got(KeptHeader(shape, h), rest)
  {
    hide ReadFlags, WriteFlags, Kept;
    var b := HeaderBytes(shape, h) + rest;
    FlagsRoundTrip(shape, h.flags);
    KindRoundTrip(h.kind);
    Powers();
    ReadsBack(Code(h.kind), 2);
    ReadsBack(WriteFlags(shape, h.flags), 2);
    ReadsBack(h.streamId, 4);
    Pieces(BigEndian(Code(h.kind), 2), BigEndian(WriteFlags(shape, h.flags), 2), BigEndian(h.streamId, 4), rest);
  }

  lemma Pieces(x: Bytes, y: Bytes, z: Bytes, rest: Bytes)
    requires |x| == 2 && |y| == 2 && |z| == 4
    ensures var b := x + (y + z) + rest;
      |b| >= 8 && b[..2] == x && b[2..4] == y && b[4..8] == z && b[8..] == rest
  {
  }

  /** What is peeked is what a full parse of the header finds. */
  lemma PeeksAgree(shape: FrameType, b: Bytes)
    ensures match ReadHeader(shape, b)
      case Got(h, _) => PeekFrameType(b) == h.kind && PeekStreamId(b) == Some(h.streamId)
      case Fail => PeekStreamId(b) == None
  {
    if |b| >= 8 {
      WritesBack(b[4..8]);
      Powers();
    }
  }

  // ---- Fields ----

  lemma ClampedRoundTrip(n: U32, rest: Bytes)
    ensures ReadClamped(BigEndian(n, 4) + rest) == Got(Clamped(n), rest)
  {
    Powers();
    ReadsUnsigned(n, 4, rest);
  }

  lemma PositionRoundTrip(p: I64, rest: Bytes)
    ensures ReadPosition(BigEndian(Bits64(p), 8) + rest) == Got(p, rest)
  {
    Powers();
    ReadsUnsigned(Bits64(p), 8, rest);
  }

  /** Metadata comes back if it is announced exactly when it is there, and is not empty. */
  predicate MetadataCarried(flags: Flags, metadata: Option<Bytes>) {
    && (Has(flags, METADATA) <==> metadata.Some?)
    && metadata != Some([])
  }

  lemma MetadataRoundTrip(metadata: Option<Bytes>, flags: Flags, rest: Bytes)
    requires MetadataFits(metadata) && MetadataCarried(flags, metadata)
    ensures ReadMetadata(MetadataBytes(metadata) + rest, flags) == Got(metadata, rest)
  {
    match metadata
    case None =>
      assert MetadataBytes(metadata) + rest == rest;
    case Some(m) =>
      assert MetadataBytes(metadata) + rest == BigEndian(|m| + 4, 4) + (m + rest);
      U32RoundTrip(|m| + 4, m + rest);
      ReadsBytes(m, rest);
  }

  lemma MetadataIsLost(metadata: Option<Bytes>, flags: Flags, rest: Bytes)
    requires MetadataFits(metadata) && !MetadataCarried(flags, metadata)
    ensures var r := ReadMetadata(MetadataBytes(metadata) + rest, flags);
      r.Got? ==> r.value != metadata
  {
    if metadata == Some([]) && Has(flags, METADATA) {
      assert MetadataBytes(metadata) + rest == BigEndian(4, 4) + rest;
      U32RoundTrip(4, rest);
    }
  }

  lemma PayloadRoundTripIff(p: Payload, flags: Flags)
    requires MetadataFits(p.metadata)
    ensures Gives(ReadPayload(PayloadBytes(p), flags), NormalPayload(p)) <==> MetadataCarried(flags, p.metadata)
  {
    if MetadataCarried(flags, p.metadata) {
      MetadataRoundTrip(p.metadata, flags, Present(p.data));
    } else {
      MetadataIsLost(p.metadata, flags, Present(p.data));
    }
  }

  // ---- Whole frames ----

  /** Metadata of 1 to 0xFFFFFF - 5 bytes (the upper end is checked when printing), announced by its flag, and tokens of
      16 bytes where there are any. */
  predicate WellFormed(f: WireFrame) {
    var flags := f.header.flags;
    match f
    case RequestStream(_, _, p) => MetadataCarried(flags, p.metadata)
    case RequestChannel(_, _, p) => MetadataCarried(flags, p.metadata)
    case RequestResponse(_, p) => MetadataCarried(flags, p.metadata)
    case RequestFnf(_, p) => MetadataCarried(flags, p.metadata)
    case MetadataPush(_, m) => m.Some? && MetadataCarried(flags, m)
    case PayloadFrame(_, p) => MetadataCarried(flags, p.metadata)
    case Error(_, _, p) => MetadataCarried(flags, p.metadata)
    case Setup(_, _, _, _, _, token, _, _, p) =>
      MetadataCarried(flags, p.metadata) && (Has(flags, RESUME_ENABLE) ==> |token| == 16)
    case Lease(_, _, _, m) => MetadataCarried(flags, m)
    case Resume(_, _, _, token, _, _) => |token| == 16
    case _ => true
  }

  /** The frame without what the format drops: flags it has no bit for, such as NEXT, the position of a keepalive that
      is not resumable, a token that is not announced, the version and the client's position of a RESUME; times and
      counts of a SETUP or a LEASE are cut off, and empty data is absent. */
  function Dropped(f: WireFrame, resumable: bool, minor: U16): WireFrame {
    var h := KeptHeader(ShapeOf(f), f.header);
    match f
    case RequestStream(_, n, p) => RequestStream(h, n, NormalPayload(p))
    case RequestChannel(_, n, p) => RequestChannel(h, n, NormalPayload(p))
    case RequestResponse(_, p) => RequestResponse(h, NormalPayload(p))
    case RequestFnf(_, p) => RequestFnf(h, NormalPayload(p))
    case RequestMore(_, n) => RequestMore(h, n)
    case MetadataPush(_, m) => MetadataPush(h, m)
    case Cancel(_) => Cancel(h)
    case PayloadFrame(_, p) => PayloadFrame(h, NormalPayload(p))
    case Error(_, code, p) => Error(h, code, NormalPayload(p))
    case Keepalive(_, position, data) => Keepalive(h, if resumable then position else 0, Normal(data))
    case Setup(_, major, minor', keepalive, lifetime, token, mm, dm, p) =>
      Setup(h, major, minor', Clamped(keepalive), Clamped(lifetime),
            if Has(f.header.flags, RESUME_ENABLE) then token else [], mm, dm, NormalPayload(p))
    case Lease(_, ttl, n, m) => Lease(h, Clamped(ttl), Clamped(n), m)
    case Resume(_, _, _, token, server, _) => Resume(h, 0, minor, token, server, NO_POSITION)
    case ResumeOk(_, position) => ResumeOk(h, position)
  }

  /** Parsing what was printed gives the frame back without what the format drops, for exactly the well-formed frames of
      all fourteen types. */
  lemma RoundTripIff(f: WireFrame, resumable: bool, minor: U16)
    requires Serializable(f)
    ensures Deserialize(ShapeOf(f), Serialize(f, resumable), resumable, minor) == Some(Dropped(f, resumable, minor))
      <==> WellFormed(f)
  {
    hide ReadHeader, HeaderBytes, ParseBody, Body, Dropped, WellFormed, KeptHeader;
    HeaderRoundTrip(ShapeOf(f), f.header, Body(f, resumable));
    BodyRoundTripIff(f, resumable, minor);
  }

  lemma BodyRoundTripIff(f: WireFrame, resumable: bool, minor: U16)
    requires Serializable(f)
    ensures var r := ParseBody(ShapeOf(f), KeptHeader(ShapeOf(f), f.header), Body(f, resumable), resumable, minor);
      Gives(r, Dropped(f, resumable, minor)) <==> WellFormed(f)
  {
    hide ReadPayload, PayloadBytes, ReadU32, ReadClamped, ReadPosition, ReadMetadata, MetadataBytes, BigEndian,
         MetadataFits, ParseSetup, ParseResume, Has, Kept, Clamped;
    KeptFlags(ShapeOf(f), f.header.flags);
    var flags := Kept(ShapeOf(f), f.header.flags);
    match f
    case RequestStream(_, n, p) =>
      U32RoundTrip(n, PayloadBytes(p));
      PayloadRoundTripIff(p, flags);
    case RequestChannel(_, n, p) =>
      U32RoundTrip(n, PayloadBytes(p));
      PayloadRoundTripIff(p, flags);
    case RequestResponse(_, p) => PayloadRoundTripIff(p, flags);
    case RequestFnf(_, p) => PayloadRoundTripIff(p, flags);
    case RequestMore(_, n) =>
      assert BigEndian(n, 4) + [] == BigEndian(n, 4);
      U32RoundTrip(n, []);
    case MetadataPush(_, m) => MetadataRoundTripIff(m, flags);
    case Cancel(_) =>
    case PayloadFrame(_, p) => PayloadRoundTripIff(p, flags);
    case Error(_, code, p) =>
      U32RoundTrip(code, PayloadBytes(p));
      PayloadRoundTripIff(p, flags);
    case Keepalive(_, position, data) =>
      assert [] + Present(data) == Present(data);
      PositionRoundTrip(position, Present(data));
    case Setup(_, _, _, _, _, _, _, _, _) => SetupRoundTripIff(f, resumable, minor);
    case Lease(_, ttl, n, m) =>
      ClampedRoundTrip(ttl, BigEndian(n, 4) + MetadataBytes(m));
      ClampedRoundTrip(n, MetadataBytes(m));
      MetadataRoundTripIff(m, flags);
    case Resume(_, _, _, _, _, _) => ResumeRoundTripIff(f, resumable, minor);
    case ResumeOk(_, position) =>
      assert BigEndian(Bits64(position), 8) + [] == BigEndian(Bits64(position), 8);
      PositionRoundTrip(position, []);
  }

  lemma MetadataRoundTripIff(m: Option<Bytes>, flags: Flags)
    requires MetadataFits(m)
    ensures Gives(ReadMetadata(MetadataBytes(m), flags), m) <==> MetadataCarried(flags, m)
  {
    assert MetadataBytes(m) + [] == MetadataBytes(m);
    if MetadataCarried(flags, m) {
      MetadataRoundTrip(m, flags, []);
    } else {
      MetadataIsLost(m, flags, []);
    }
  }

  lemma SetupRoundTripIff(f: WireFrame, resumable: bool, minor: U16)
    requires f.Setup? && Serializable(f)
    ensures Gives(ParseSetup(KeptHeader(SETUP, f.header), Body(f, resumable)), Dropped(f, resumable, minor))
      <==> WellFormed(f)
  {
    hide ReadPayload, PayloadBytes, ReadU16, ReadClamped, ReadMime, BigEndian, MetadataFits, Has, Kept, Clamped;
    KeptFlags(SETUP, f.header.flags);
    var Setup(h, major, minor', keepalive, lifetime, token, mm, dm, p) := f;
    var b7 := PayloadBytes(p);
    var b6 := BigEndian(|dm|, 1) + (dm + b7);
    var b5 := BigEndian(|mm|, 1) + (mm + b6);
    var b4 := TokenBytes(h.flags, token) + b5;
    var b3 := BigEndian(lifetime, 4) + b4;
    var b2 := BigEndian(keepalive, 4) + b3;
    U16RoundTrip(major, BigEndian(minor', 2) + b2);
    U16RoundTrip(minor', b2);
    ClampedRoundTrip(keepalive, b3);
    ClampedRoundTrip(lifetime, b4);
    if Has(h.flags, RESUME_ENABLE) {
      ReadsBytes(token, b5);
    } else {
      assert b4 == b5;
    }
    MimeRoundTrip(mm, b6);
    MimeRoundTrip(dm, b7);
    PayloadRoundTripIff(p, Kept(SETUP, h.flags));
  }

  lemma ResumeRoundTripIff(f: WireFrame, resumable: bool, minor: U16)
    requires f.Resume? && Serializable(f)
    ensures Gives(ParseResume(KeptHeader(RESUME, f.header), Body(f, resumable), minor), Dropped(f, resumable, minor))
      <==> WellFormed(f)
  {
    hide ReadPosition, BigEndian, Kept;
    var Resume(_, _, _, token, server, _) := f;
    if |token| == 16 {
      ReadsBytes(token, BigEndian(Bits64(server), 8));
      assert BigEndian(Bits64(server), 8) + [] == BigEndian(Bits64(server), 8);
      PositionRoundTrip(server, []);
    }
  }

  /** What is printed starts with what the autodetection looks for: a SETUP frame of version 0.0 or 0.1 and a RESUME
      frame, on stream 0, select a serializer of the 0.x family. */
  lemma SelectsItself(f: WireFrame, resumable: bool)
    requires f.Setup? || f.Resume?
    requires f.header.kind == ShapeOf(f) && f.header.streamId == 0
    requires f.Setup? ==> f.versionMajor == 0 && f.versionMinor <= 1
    ensures Autodetect(Serialize(f, resumable))
      == if f.Setup? && f.versionMinor == 0 then V0_0 else V0_1
  {
    hide WriteFlags, Autodetect, DetectV0, DetectV1, Body, HeaderBytes;
    var word, body := WriteFlags(ShapeOf(f), f.header.flags), Body(f, resumable);
    FlagsRoundTrip(ShapeOf(f), f.header.flags);
    ControlHeader(f);
    if f.Setup? {
      SmallNumbers(word, f.versionMinor);
      SetupBodyStarts(f, resumable);
      assert Serialize(f, resumable) == StartV0(word, f.versionMinor) + body[4..];
      AutodetectsOwnVersion(body[4..], false, 0, word, f.versionMinor);
    } else {
      AutodetectsOwnVersion(body, false, 0, word, 0);
    }
  }

  /** The header of a SETUP or RESUME on stream 0 is what the detector expects first. */
  lemma ControlHeader(f: WireFrame)
    requires (f.Setup? || f.Resume?) && f.header.kind == ShapeOf(f) && f.header.streamId == 0
    ensures var word := WriteFlags(ShapeOf(f), f.header.flags);
      && word < 0x1_0000
      && HeaderBytes(ShapeOf(f), f.header) == if f.Setup? then StartV0(word, 0)[..8] else StartResumeV0(word)
  {
    hide WriteFlags;
    FlagsRoundTrip(ShapeOf(f), f.header.flags);
    SmallNumbers(WriteFlags(ShapeOf(f), f.header.flags), Code(f.header.kind));
  }

  lemma SetupBodyStarts(f: WireFrame, resumable: bool)
    requires f.Setup?
    ensures var rest := Body(f, resumable);
      |rest| >= 4 && rest[..4] == BigEndian(f.versionMajor, 2) + BigEndian(f.versionMinor, 2)
  {
  }

  lemma SmallNumbers(word: nat, n: nat)
    requires word < 0x1_0000 && n < 0x100
    ensures BigEndian(word, 2) == [word / 0x100, word % 0x100] && BigEndian(n, 2) == [0, n]
    ensures BigEndian(0, 4) == [0, 0, 0, 0] && BigEndian(0, 2) == [0, 0]
  {
    assert BigEndian(word / 0x100, 1) == [word / 0x100];
    assert BigEndian(n / 0x100, 1) == [0];
    assert BigEndian(0, 1) == [0] && BigEndian(0, 3) == [0, 0, 0];
  }
}
