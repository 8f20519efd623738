/** Recognizing the protocol version from the first bytes of a connection. */
module Autodetection {
  import opened Frames
  import opened Wire

  datatype ProtocolVersion = Unknown | V0_0 | V0_1 | V1_0

  /** The big-endian integer of `k` bytes at offset `i`. */
  function At(b: seq<Byte>, i: nat, k: nat): nat
    requires i + k <= |b|
  {
    FromBigEndian(b[i..i + k])
  }

  /** The detector of protocol 1.0; a read past the end throws, which it reports as unrecognized. */
  function DetectV1(b: seq<Byte>, skip: nat): ProtocolVersion {
    if |b| < skip + 10 then Unknown
    else if At(b, skip, 4) == 0 && (b[skip + 4] / 4 == 0x01 || b[skip + 4] / 4 == 0x0D)
            && At(b, skip + 6, 2) == 1 && At(b, skip + 8, 2) == 0 then V1_0
    else Unknown
  }

  /** The detector of protocols 0.0 and 0.1. */
  function DetectV0(b: seq<Byte>, skip: nat): ProtocolVersion {
    if |b| < skip + 8 then Unknown
    else if At(b, skip, 2) == 0x0001 && At(b, skip + 4, 4) == 0 then
      if |b| < skip + 12 then Unknown
      else if At(b, skip + 8, 2) == 0 && At(b, skip + 10, 2) == 0 then V0_0
      else if At(b, skip + 8, 2) == 0 && At(b, skip + 10, 2) == 1 then V0_1
      else Unknown
    else if At(b, skip, 2) == 0x000E && At(b, skip + 4, 4) == 0 then V0_1
    else Unknown
  }

  /** The serializer chosen for the first frame of a connection. */
  function Autodetect(first: seq<Byte>): ProtocolVersion {
    var v := DetectV1(first, 0);
    if v == Unknown then DetectV0(first, 0) else v
  }

  const MIN_BYTES := 12

  /** What a framed reader makes of at least `MIN_BYTES` buffered bytes, length fields included. */
  function Recognize(b: seq<Byte>): ProtocolVersion
    requires |b| >= MIN_BYTES
  {
    if DetectV1(b, 3) != Unknown then V1_0
    else if DetectV0(b, 4) != Unknown then V0_1
    else Unknown
  }

  /** The first ten bytes of a 1.0 SETUP or RESUME frame. */
  function StartV1(resume: bool, flags: nat): seq<Byte>
    requires flags < 0x400
  {
    [0, 0, 0, 0, (if resume then 0x0D else 0x01) * 4 + flags / 0x100, flags % 0x100, 0, 1, 0, 0]
  }

  /** The first twelve bytes of a 0.0 or 0.1 SETUP frame. */
  function StartV0(flags: nat, minor: Byte): seq<Byte>
    requires flags < 0x10000
  {
    [0, 0x01, flags / 0x100, flags % 0x100, 0, 0, 0, 0, 0, 0, 0, minor]
  }

  /** The first eight bytes of a 0.0 or 0.1 RESUME frame, which carries no version. */
  function StartResumeV0(flags: nat): seq<Byte>
    requires flags < 0x10000
  {
    [0, 0x0E, flags / 0x100, flags % 0x100, 0, 0, 0, 0]
  }

  lemma Two(s: seq<Byte>)
    requires |s| == 2
    ensures FromBigEndian(s) == s[0] as int * 0x100 + s[1] as int
  {
    assert s[..1] == [s[0]] && s[..1][..0] == [];
    assert FromBigEndian(s[..1]) == s[0];
  }

  lemma Four(s: seq<Byte>)
    requires |s| == 4
    ensures FromBigEndian(s) == (FromBigEndian(s[..2]) * 0x100 + s[2]) * 0x100 + s[3]
    ensures FromBigEndian(s[..2]) == s[0] as int * 0x100 + s[1] as int
  {
    assert s[..3][..2] == s[..2];
    assert FromBigEndian(s[..3]) == FromBigEndian(s[..2]) * 0x100 + s[2];
    Two(s[..2]);
  }

  lemma FourIsZero(s: seq<Byte>)
    requires |s| == 4
    ensures FromBigEndian(s) == 0 <==> s == [0, 0, 0, 0]
  {
    Four(s);
  }

  /** No byte string is taken for both families, with and without length fields. */
  lemma Unambiguous(b: seq<Byte>)
    ensures DetectV1(b, 0) == Unknown || DetectV0(b, 0) == Unknown
    ensures DetectV1(b, 3) == Unknown || DetectV0(b, 4) == Unknown
  {
    if DetectV1(b, 0) != Unknown {
      FourIsZero(b[0..4]);
      assert b[0..2] == b[0..4][0..2];
      Two(b[0..2]);
    }
    if DetectV1(b, 3) != Unknown {
      FourIsZero(b[3..7]);
      assert b[4..6] == b[3..7][1..3];
      Two(b[4..6]);
    }
  }

  /** The detectors recognize exactly the starts they look for. */
  lemma DetectsV1Iff(b: seq<Byte>, skip: nat)
    ensures DetectV1(b, skip) == V1_0
      <==> |b| >= skip + 10 && exists resume: bool, flags: nat | flags < 0x400 :: b[skip..skip + 10] == StartV1(resume, flags)
  {
    if |b| >= skip + 10 {
      var s := b[skip..skip + 10];
      SubSlice(b, skip, 10, 0, 4);
      SubSlice(b, skip, 10, 6, 8);
      SubSlice(b, skip, 10, 8, 10);
      FourIsZero(s[0..4]);
      Two(s[6..8]);
      Two(s[8..10]);
      if DetectV1(b, skip) == V1_0 {
        var flags: nat := s[4] as int % 4 * 0x100 + s[5] as int;
        assert s[0..4] == [0, 0, 0, 0] && s[6] == 0 && s[7] == 1 && s[8] == 0 && s[9] == 0;
        assert s == StartV1(s[4] / 4 == 0x0D, flags);
      }
    }
  }

  lemma StartsV0(b: seq<Byte>, skip: nat, flags: nat, minor: Byte)
    requires flags < 0x10000 && minor <= 1
    requires |b| >= skip + 12 && b[skip..skip + 12] == StartV0(flags, minor)
    ensures DetectV0(b, skip) == if minor == 0 then V0_0 else V0_1
  {
    var s := b[skip..skip + 12];
    SubSlice(b, skip, 12, 0, 2);
    SubSlice(b, skip, 12, 4, 8);
    SubSlice(b, skip, 12, 8, 10);
    SubSlice(b, skip, 12, 10, 12);
    Two(s[0..2]);
    FourIsZero(s[4..8]);
    Two(s[8..10]);
    Two(s[10..12]);
  }

  lemma StartsResumeV0(b: seq<Byte>, skip: nat, flags: nat)
    requires flags < 0x10000
    requires |b| >= skip + 8 && b[skip..skip + 8] == StartResumeV0(flags)
    ensures DetectV0(b, skip) == V0_1
  {
    var s := b[skip..skip + 8];
    SubSlice(b, skip, 8, 0, 2);
    SubSlice(b, skip, 8, 4, 8);
    Two(s[0..2]);
    FourIsZero(s[4..8]);
  }

  /** Every start of a SETUP or RESUME frame selects a serializer of its own family. */
  lemma AutodetectsOwnVersion(rest: seq<Byte>, resume: bool, flags: nat, flags0: nat, minor: Byte)
    requires flags < 0x400 && flags0 < 0x10000 && minor <= 1
    ensures Autodetect(StartV1(resume, flags) + rest) == V1_0
    ensures Autodetect(StartV0(flags0, minor) + rest) == if minor == 0 then V0_0 else V0_1
    ensures Autodetect(StartResumeV0(flags0) + rest) == V0_1
  {
    var one, setup, again := StartV1(resume, flags) + rest, StartV0(flags0, minor) + rest, StartResumeV0(flags0) + rest;
    assert one[0..10] == StartV1(resume, flags);
    DetectsV1Iff(one, 0);
    assert setup[0..12] == StartV0(flags0, minor);
    StartsV0(setup, 0, flags0, minor);
    Unambiguous(setup);
    assert again[0..8] == StartResumeV0(flags0);
    StartsResumeV0(again, 0, flags0);
    Unambiguous(again);
  }

  /** A framed reader that sees a 1.0 connection recognizes it exactly if it holds one byte more than its gate asks. */
  lemma RecognizesV1Iff(length: seq<Byte>, resume: bool, flags: nat, rest: seq<Byte>, seen: nat)
    requires |length| == 3 && flags < 0x400
    requires MIN_BYTES <= seen <= 13 + |rest|
    ensures var b := (length + StartV1(resume, flags) + rest)[..seen];
      Recognize(b) == if seen >= 13 then V1_0 else Unknown
  {
    var b := (length + StartV1(resume, flags) + rest)[..seen];
    if seen >= 13 {
      assert b[3..13] == StartV1(resume, flags);
      DetectsV1Iff(b, 3);
    } else {
      assert b[4] == StartV1(resume, flags)[1] && b[5] == StartV1(resume, flags)[2];
      Two(b[4..6]);
    }
  }

  /** A framed reader that sees a 0.x connection recognizes a RESUME always, and a SETUP exactly if it holds four bytes
      more than its gate asks. */
  lemma RecognizesV0Iff(length: seq<Byte>, flags: nat, minor: Byte, rest: seq<Byte>, seen: nat)
    requires |length| == 4 && flags < 0x10000 && minor <= 1
    ensures MIN_BYTES <= seen <= 16 + |rest| ==>
      var b := (length + StartV0(flags, minor) + rest)[..seen];
      Recognize(b) == if seen >= 16 then V0_1 else Unknown
    ensures MIN_BYTES <= seen <= 12 + |rest| ==>
      Recognize((length + StartResumeV0(flags) + rest)[..seen]) == V0_1
  {
    if MIN_BYTES <= seen <= 16 + |rest| {
      var b := (length + StartV0(flags, minor) + rest)[..seen];
      NotV1(b, 0x01);
      if seen >= 16 {
        assert b[4..16] == StartV0(flags, minor);
        StartsV0(b, 4, flags, minor);
      } else {
        assert DetectV0(b, 4) == Unknown;
      }
    }
    if MIN_BYTES <= seen <= 12 + |rest| {
      var b := (length + StartResumeV0(flags) + rest)[..seen];
      NotV1(b, 0x0E);
      assert b[4..12] == StartResumeV0(flags);
      StartsResumeV0(b, 4, flags);
    }
  }

  lemma NotV1(b: seq<Byte>, kind: Byte)
    requires |b| >= MIN_BYTES && b[5] == kind && kind != 0
    ensures DetectV1(b, 3) == Unknown
  {
    FourIsZero(b[3..7]);
    assert b[3..7][2] == kind;
  }
}
