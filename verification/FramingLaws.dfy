/** What holds between framed writers and framed readers. */
module FramingLaws {
  import opened Frames
  import opened Allowances
  import opened Wire
  import opened Autodetection
  import opened Framing

  // ---- One frame ----

  lemma Bases()
    ensures Base(3) == 0x1000000 && Base(4) == 0x1_0000_0000
  {
    assert Base(1) == 0x100 && Base(2) == 0x10000;
  }

  /** The reader reads the length the writer wrote. */
  lemma LengthReadsBack(v: ProtocolVersion, frame: seq<Byte>, rest: seq<Byte>)
    requires Writable(v, frame)
    ensures ReadLength(v, Encode(v, frame) + rest) == LengthFor(v, |frame|)
  {
    var n, k := LengthFor(v, |frame|), FieldLength(v);
    var b := Encode(v, frame) + rest;
    assert b[..k] == BigEndian(n, k);
    Bases();
    ReadsBack(n, k);
    if Old(v) {
      SmallHasZeroHighByte(n);
      assert b[0] == BigEndian(n, 4)[0];
    }
  }

  lemma SmallHasZeroHighByte(n: nat)
    requires n <= MAX_FRAME_LENGTH
    ensures BigEndian(n, 4)[0] == 0
  {
    Bases();
    HighByteWrittenFirst(n, 4);
    QuotientIs(n, 0x1000000, 0, n);
  }

  /** Round trip, exactly when the frame is as long as a header: a shorter one is written, but fails the reader. */
  lemma RoundTripIff(v: ProtocolVersion, frame: seq<Byte>, rest: seq<Byte>)
    requires Writable(v, frame)
    ensures Next(v, Encode(v, frame) + rest)
         == if LengthFor(v, |frame|) >= MinimalLength(v) then Whole(frame, rest) else Invalid
  {
    LengthReadsBack(v, frame, rest);
    var b := Encode(v, frame) + rest;
    var end := FieldLength(v) + |frame|;
    assert b[FieldLength(v)..end] == frame && b[end..] == rest;
  }

  /** A proper part of an encoded frame is never taken for a frame or for an error. */
  lemma PartIsIncomplete(v: ProtocolVersion, frame: seq<Byte>, seen: nat)
    requires Frameable(v, frame) && seen < |Encode(v, frame)|
    ensures Next(v, Encode(v, frame)[..seen]) == Incomplete
  {
    var b := Encode(v, frame)[..seen];
    if seen >= FieldLength(v) {
      LengthReadsBack(v, frame, []);
      assert Encode(v, frame) + [] == Encode(v, frame);
      assert b[..FieldLength(v)] == Encode(v, frame)[..FieldLength(v)];
    }
  }

  predicate Frameable(v: ProtocolVersion, frame: seq<Byte>) {
    MinimalLength(v) <= LengthFor(v, |frame|) <= MAX_FRAME_LENGTH
  }

  ghost predicate AllFrameable(v: ProtocolVersion, frames: seq<seq<Byte>>) {
    forall i | 0 <= i < |frames| :: Frameable(v, frames[i])
  }

  /** More bytes do not change what the front of a buffer is known to hold. */
  lemma NextGrows(v: ProtocolVersion, b: seq<Byte>, more: seq<Byte>)
    ensures match Next(v, b)
      case Incomplete => true
      case Invalid => Next(v, b + more) == Invalid
      case Whole(frame, rest) => Next(v, b + more) == Whole(frame, rest + more)
  {
    if |b| >= FieldLength(v) {
      assert (b + more)[..FieldLength(v)] == b[..FieldLength(v)];
      var length := ReadLength(v, b);
      if length >= MinimalLength(v) {
        var end := FieldLength(v) + PayloadSize(v, length);
        if |b| >= end {
          assert (b + more)[FieldLength(v)..end] == b[FieldLength(v)..end];
          assert (b + more)[end..] == b[end..] + more;
        }
      }
    }
  }

  // ---- Credit ----

  /** Credit is what was asked for and has not been delivered, until the sum of the requests reaches infinity. */
  predicate Conserved(r: Reader) {
    r.demand < INFINITE ==> r.credit + |r.delivered| == r.demand
  }

  lemma DeliverConserves(r: Reader, frame: seq<Byte>, rest: seq<Byte>, react: nat -> Reaction)
    requires Conserved(r) && r.credit > 0
    ensures Conserved(Deliver(r, frame, rest, react))
    ensures Deliver(r, frame, rest, react).demand >= r.demand
  {
    match react(|r.delivered|)
    case Grant(n) => ReleaseSaturates(Acquired(r.credit, 1), n);
    case Stop =>
  }

  lemma {:induction false} ParseConserves(r: Reader, react: nat -> Reaction)
    requires Conserved(r)
    ensures Conserved(Parse(r, react))
    ensures Parse(r, react).demand >= r.demand
    decreases |r.buffer|, r.version == Unknown
  {
    if r.status == Open && r.credit > 0 {
      if r.version == Unknown {
        if |r.buffer| >= MIN_BYTES && Recognize(r.buffer) != Unknown {
          ParseConserves(r.(version := Recognize(r.buffer)), react);
        }
      } else if Next(r.version, r.buffer).Whole? {
        var next := Next(r.version, r.buffer);
        DeliverConserves(r, next.frame, next.rest, react);
        ParseConserves(Deliver(r, next.frame, next.rest, react), react);
      }
    }
  }

  // ---- Chunking ----

  lemma DeliverFed(r: Reader, frame: seq<Byte>, rest: seq<Byte>, chunk: seq<Byte>, react: nat -> Reaction)
    requires r.status == Open && r.credit > 0
    ensures Fed(Deliver(r, frame, rest, react), chunk) == Deliver(Fed(r, chunk), frame, rest + chunk, react)
  {
  }

  /** Parsing early changes nothing: bytes may as well come together. */
  lemma {:induction false} ParseEarly(r: Reader, chunk: seq<Byte>, react: nat -> Reaction)
    requires r.version != Unknown
    ensures Parse(Fed(Parse(r, react), chunk), react) == Parse(Fed(r, chunk), react)
    decreases |r.buffer|
  {
    if r.status == Open && r.credit > 0 {
      NextGrows(r.version, r.buffer, chunk);
      var next := Next(r.version, r.buffer);
      if next.Whole? {
        DeliverFed(r, next.frame, next.rest, chunk, react);
        ParseEarly(Deliver(r, next.frame, next.rest, react), chunk, react);
      }
    }
  }

  lemma DeliverRequested(r: Reader, frame: seq<Byte>, rest: seq<Byte>, n: Size, react: nat -> Reaction)
    requires Conserved(r) && r.credit > 0
    requires Requested(Deliver(r, frame, rest, react), n).demand < INFINITE
    ensures Requested(r, n).credit > 0
    ensures Requested(Deliver(r, frame, rest, react), n) == Deliver(Requested(r, n), frame, rest, react)
  {
    hide Released;
    ReleaseSaturates(r.credit, n);
    ReleaseSaturates(r.credit - 1, n);
    match react(|r.delivered|)
    case Grant(m) =>
      ReleasesBatch(r.credit - 1, m, n);
    case Stop =>
  }

  /** Parsing early changes nothing: requests may as well come first. */
  lemma {:induction false} RequestLate(r: Reader, n: Size, react: nat -> Reaction)
    requires r.version != Unknown && Conserved(r)
    requires Parse(Requested(Parse(r, react), n), react).demand < INFINITE
    ensures Parse(Requested(Parse(r, react), n), react) == Parse(Requested(r, n), react)
    decreases |r.buffer|
  {
    if r.status == Open && r.credit > 0 {
      var next := Next(r.version, r.buffer);
      if next.Whole? {
        var d := Deliver(r, next.frame, next.rest, react);
        DeliverConserves(r, next.frame, next.rest, react);
        RequestLate(d, n, react);
        RequestConserves(d, n);
        ParseConserves(Requested(d, n), react);
        DeliverRequested(r, next.frame, next.rest, n, react);
      }
    }
  }

  lemma RequestConserves(r: Reader, n: Size)
    requires Conserved(r)
    ensures Conserved(Requested(r, n))
  {
    ReleaseSaturates(r.credit, n);
  }

  /** A reader that is given all bytes and all requests at once. */
  function AtOnce(v: ProtocolVersion, bytes: seq<Byte>, n: Size): Reader {
    Requested(Fed(Fresh(v), bytes), n)
  }

  lemma {:induction false} AfterConserves(v: ProtocolVersion, events: seq<Event>, react: nat -> Reaction)
    ensures Conserved(After(Fresh(v), events, react))
    ensures Requests(events) <= After(Fresh(v), events, react).demand
  {
    if events != [] {
      var before, e := events[..|events| - 1], events[|events| - 1];
      AfterConserves(v, before, react);
      var r := After(Fresh(v), before, react);
      match e
      case Chunk(bytes) => ParseConserves(Fed(r, bytes), react);
      case Request(n) =>
        RequestConserves(r, n);
        ParseConserves(Requested(r, n), react);
      case _ =>
    }
  }

  lemma NothingAtOnce(v: ProtocolVersion, react: nat -> Reaction)
    ensures AtOnce(v, [], 0) == Fresh(v) && Parse(Fresh(v), react) == Fresh(v)
  {
    ReleaseSaturates(0, 0);
  }

  /** A run of chunks and requests ends where the same bytes and requests end when they come all at once: how the bytes
      are cut, and how requests fall between them, does not matter. */
  lemma {:induction false} ChunkingIsIrrelevant(v: ProtocolVersion, events: seq<Event>, react: nat -> Reaction)
    requires v != Unknown && Undisturbed(events)
    requires After(Fresh(v), events, react).demand < INFINITE
    ensures Requests(events) < INFINITE
    ensures After(Fresh(v), events, react) == Parse(AtOnce(v, Bytes(events), Requests(events)), react)
  {
    hide Parse, Released, FromBigEndian;
    AfterConserves(v, events, react);
    if events == [] {
      NothingAtOnce(v, react);
    } else {
      var before, e := events[..|events| - 1], events[|events| - 1];
      var r := After(Fresh(v), before, react);
      AfterConserves(v, before, react);
      DemandGrows(r, e, react);
      ChunkingIsIrrelevant(v, before, react);
      var start := AtOnce(v, Bytes(before), Requests(before));
      match e
      case Chunk(bytes) =>
        ParseEarly(start, bytes, react);
        assert Fed(start, bytes) == AtOnce(v, Bytes(events), Requests(events));
      case Request(n) =>
        ReleaseSaturates(0, Requests(before));
        RequestLate(start, n, react);
        ReleasesBatch(0, Requests(before), n);
        assert Requested(start, n) == AtOnce(v, Bytes(events), Requests(events));
        assert Bytes(events) == Bytes(before);
    }
  }

  lemma DemandGrows(r: Reader, e: Event, react: nat -> Reaction)
    requires Conserved(r)
    ensures Step(r, e, react).demand >= r.demand
  {
    hide Parse;
    match e
    case Chunk(bytes) => ParseConserves(Fed(r, bytes), react);
    case Request(n) =>
      RequestConserves(r, n);
      ParseConserves(Requested(r, n), react);
    case _ =>
  }

  // ---- Safety and completeness over every run ----

  lemma {:induction false} WrittenSplits(v: ProtocolVersion, a: seq<seq<Byte>>, b: seq<seq<Byte>>)
    ensures Written(v, a + b) == Written(v, a) + Written(v, b)
  {
    hide Encode;
    if a == [] {
      assert a + b == b;
    } else {
      WrittenSplits(v, a[1..], b);
      assert (a + b)[1..] == a[1..] + b && (a + b)[0] == a[0];
    }
  }

  /** The first `k` frames have left the reader, and the rest of what it was fed waits in its buffer. */
  ghost predicate Faithful(v: ProtocolVersion, frames: seq<seq<Byte>>, fed: seq<Byte>, r: Reader) {
    && r.version == v
    && r.delivered <= frames
    && (r.status == Open ==> fed <= Written(v, frames) && fed == Written(v, r.delivered) + r.buffer)
  }

  /** At the front of the buffer stands the next frame or a part of it. */
  lemma NextOfStream(v: ProtocolVersion, frames: seq<seq<Byte>>, k: nat, b: seq<Byte>)
    requires AllFrameable(v, frames) && k <= |frames|
    requires Written(v, frames[..k]) + b <= Written(v, frames)
    ensures if k < |frames| && |b| >= |Encode(v, frames[k])|
      then b == Encode(v, frames[k]) + b[|Encode(v, frames[k])|..]
        && Next(v, b) == Whole(frames[k], b[|Encode(v, frames[k])|..])
      else Next(v, b) == Incomplete
  {
    hide Next, Encode;
    assert frames == frames[..k] + frames[k..];
    WrittenSplits(v, frames[..k], frames[k..]);
    StartsWith(Written(v, frames[..k]), b, Written(v, frames[k..]));
    if k == |frames| {
      NothingIsIncomplete(v);
    } else {
      var code := Encode(v, frames[k]);
      assert Written(v, frames[k..]) == code + Written(v, frames[k + 1..]);
      if |b| >= |code| {
        assert b[..|code|] == code;
        RoundTripIff(v, frames[k], b[|code|..]);
      } else {
        assert b == code[..|b|];
        PartIsIncomplete(v, frames[k], |b|);
      }
    }
  }

  lemma StartsWith(a: seq<Byte>, b: seq<Byte>, c: seq<Byte>)
    requires a + b <= a + c
    ensures b <= c
  {
    assert forall i | 0 <= i < |b| :: b[i] == (a + b)[|a| + i] == (a + c)[|a| + i] == c[i];
  }

  lemma NothingIsIncomplete(v: ProtocolVersion)
    ensures Next(v, []) == Incomplete
  {
  }

  lemma DeliverFaithful(v: ProtocolVersion, frames: seq<seq<Byte>>, fed: seq<Byte>, r: Reader, react: nat -> Reaction)
    requires v != Unknown && AllFrameable(v, frames) && Faithful(v, frames, fed, r)
    requires r.status == Open && r.credit > 0
    ensures var next := Next(v, r.buffer);
      !next.Invalid? && (next.Whole? ==>
        var d := Deliver(r, next.frame, next.rest, react);
        Faithful(v, frames, fed, d) && d.status != Failed)
  {
    hide Next, Encode, Released, Acquired;
    var k := |r.delivered|;
    assert r.delivered == frames[..k];
    NextOfStream(v, frames, k, r.buffer);
    if Next(v, r.buffer).Whole? {
      assert frames[..k + 1] == frames[..k] + [frames[k]];
      WrittenSplits(v, frames[..k], [frames[k]]);
      JustOne(v, frames[k]);
      assert fed == Written(v, frames[..k]) + (Encode(v, frames[k]) + Next(v, r.buffer).rest);
      assert fed == Written(v, frames[..k + 1]) + Next(v, r.buffer).rest;
    }
  }

  lemma JustOne(v: ProtocolVersion, frame: seq<Byte>)
    ensures Written(v, [frame]) == Encode(v, frame)
  {
    hide Encode;
    assert [frame][1..] == [];
    assert Written(v, []) == [];
  }

  lemma {:induction false} ParseFaithful(v: ProtocolVersion, frames: seq<seq<Byte>>, fed: seq<Byte>, r: Reader, react: nat -> Reaction)
    requires v != Unknown && AllFrameable(v, frames) && Faithful(v, frames, fed, r)
    ensures Faithful(v, frames, fed, Parse(r, react))
    ensures Parse(r, react).status == Failed ==> r.status == Failed
    decreases |r.buffer|
  {
    hide Deliver, Faithful, AllFrameable, Encode;
    VersionKept(v, frames, fed, r);
    if r.status == Open && r.credit > 0 {
      DeliverFaithful(v, frames, fed, r, react);
      var next := Next(v, r.buffer);
      if next.Whole? {
        DeliverShrinks(r, next.frame, next.rest, react);
        ParseFaithful(v, frames, fed, Deliver(r, next.frame, next.rest, react), react);
      }
    }
  }

  lemma VersionKept(v: ProtocolVersion, frames: seq<seq<Byte>>, fed: seq<Byte>, r: Reader)
    requires Faithful(v, frames, fed, r)
    ensures r.version == v
  {
  }

  lemma DeliverShrinks(r: Reader, frame: seq<Byte>, rest: seq<Byte>, react: nat -> Reaction)
    requires r.credit > 0
    ensures |Deliver(r, frame, rest, react).buffer| <= |rest|
  {
  }

  /** Parsing stops only for want of credit or of bytes. */
  lemma {:induction false} ParseGoesAllTheWay(r: Reader, react: nat -> Reaction)
    requires r.version != Unknown
    ensures var end := Parse(r, react);
      end.status == Open && end.credit > 0 ==> Next(end.version, end.buffer) == Incomplete
    decreases |r.buffer|
  {
    hide Deliver;
    if r.status == Open && r.credit > 0 && Next(r.version, r.buffer).Whole? {
      var next := Next(r.version, r.buffer);
      DeliverShrinks(r, next.frame, next.rest, react);
      DeliverKeepsVersion(r, next.frame, next.rest, react);
      ParseGoesAllTheWay(Deliver(r, next.frame, next.rest, react), react);
    }
  }

  lemma DeliverKeepsVersion(r: Reader, frame: seq<Byte>, rest: seq<Byte>, react: nat -> Reaction)
    requires r.credit > 0
    ensures Deliver(r, frame, rest, react).version == r.version
  {
  }

  /** Whatever arrives, an idle open reader has no credit left or no whole frame in its buffer. */
  lemma {:induction false} IdleMeansStarved(v: ProtocolVersion, events: seq<Event>, react: nat -> Reaction)
    requires v != Unknown
    ensures var r := After(Fresh(v), events, react);
      r.version == v && (r.status == Open && r.credit > 0 ==> Next(v, r.buffer) == Incomplete)
  {
    hide Parse, Next, Released;
    if events == [] {
      NothingIsIncomplete(v);
    } else {
      var before, e := events[..|events| - 1], events[|events| - 1];
      IdleMeansStarved(v, before, react);
      var r := After(Fresh(v), before, react);
      match e
      case Chunk(bytes) =>
        ParseGoesAllTheWay(Fed(r, bytes), react);
        ParseKeepsVersion(Fed(r, bytes), react);
      case Request(n) =>
        ParseGoesAllTheWay(Requested(r, n), react);
        ParseKeepsVersion(Requested(r, n), react);
      case _ =>
    }
  }

  lemma {:induction false} ParseKeepsVersion(r: Reader, react: nat -> Reaction)
    requires r.version != Unknown
    ensures Parse(r, react).version == r.version
    decreases |r.buffer|
  {
    hide Deliver;
    if r.status == Open && r.credit > 0 && Next(r.version, r.buffer).Whole? {
      var next := Next(r.version, r.buffer);
      DeliverShrinks(r, next.frame, next.rest, react);
      DeliverKeepsVersion(r, next.frame, next.rest, react);
      ParseKeepsVersion(Deliver(r, next.frame, next.rest, react), react);
    }
  }

  lemma {:induction false} AfterFaithful(v: ProtocolVersion, frames: seq<seq<Byte>>, events: seq<Event>, react: nat -> Reaction)
    requires v != Unknown && AllFrameable(v, frames) && Bytes(events) <= Written(v, frames)
    ensures Faithful(v, frames, Bytes(events), After(Fresh(v), events, react))
    ensures After(Fresh(v), events, react).status == Failed ==> StreamError in events
  {
    hide Parse, AllFrameable, Released, Encode;
    if events == [] {
      assert Written(v, []) == [];
    } else {
      var before, e := events[..|events| - 1], events[|events| - 1];
      AfterFaithful(v, frames, before, react);
      var r := After(Fresh(v), before, react);
      match e
      case Chunk(bytes) => ParseFaithful(v, frames, Bytes(events), Fed(r, bytes), react);
      case Request(n) => ParseFaithful(v, frames, Bytes(events), Requested(r, n), react);
      case _ =>
    }
  }

  /** Over every run whose bytes come from a writer: however they are cut and whatever happens in between, the
      subscriber sees the written frames, in order and whole; never more than it asked for; the stream is not taken for
      invalid; and an open reader with credit has delivered every frame that has fully arrived. */
  lemma DeliversWhatWasWritten(v: ProtocolVersion, frames: seq<seq<Byte>>, events: seq<Event>, react: nat -> Reaction)
    requires v != Unknown && AllFrameable(v, frames) && Bytes(events) <= Written(v, frames)
    ensures var r := After(Fresh(v), events, react);
      && r.delivered <= frames
      && (r.demand < INFINITE ==> r.credit + |r.delivered| == r.demand)
      && (r.status == Failed ==> StreamError in events)
      && (r.status == Open && r.credit > 0 && |r.delivered| < |frames| ==>
            |Bytes(events)| < |Written(v, frames[..|r.delivered| + 1])|)
  {
    hide Parse, Next, AllFrameable, Encode;
    var r := After(Fresh(v), events, react);
    AfterFaithful(v, frames, events, react);
    AfterConserves(v, events, react);
    IdleMeansStarved(v, events, react);
    if r.status == Open && r.credit > 0 && |r.delivered| < |frames| {
      var k := |r.delivered|;
      assert r.delivered == frames[..k];
      NextOfStream(v, frames, k, r.buffer);
      assert frames[..k + 1] == frames[..k] + [frames[k]];
      WrittenSplits(v, frames[..k], [frames[k]]);
      JustOne(v, frames[k]);
    }
  }

  /** When everything has arrived and the subscriber still has credit, it has seen everything. */
  lemma DeliversEverything(v: ProtocolVersion, frames: seq<seq<Byte>>, events: seq<Event>, react: nat -> Reaction)
    requires v != Unknown && AllFrameable(v, frames) && Bytes(events) == Written(v, frames)
    ensures var r := After(Fresh(v), events, react);
      r.status == Open && r.credit > 0 ==> r.delivered == frames
  {
    hide Parse, AllFrameable, Encode;
    DeliversWhatWasWritten(v, frames, events, react);
    var r := After(Fresh(v), events, react);
    if |r.delivered| < |frames| {
      var k := |r.delivered| + 1;
      assert frames == frames[..k] + frames[k..];
      WrittenSplits(v, frames[..k], frames[k..]);
    }
  }

  /** A reader that still has to detect the version of a 1.0 connection fails exactly if it looks at twelve bytes. */
  lemma DetectingV1Iff(r: Reader, length: seq<Byte>, resume: bool, flags: nat, rest: seq<Byte>, react: nat -> Reaction)
    requires |length| == 3 && flags < 0x400
    requires r.version == Unknown && r.status == Open && r.credit > 0
    requires r.buffer <= length + StartV1(resume, flags) + rest
    ensures Parse(r, react) ==
      if |r.buffer| < MIN_BYTES then r
      else if |r.buffer| == MIN_BYTES then Close(r, Failed)
      else Parse(r.(version := V1_0), react)
  {
    hide Recognize, Next, Deliver;
    var all := length + StartV1(resume, flags) + rest;
    assert r.buffer == all[..|r.buffer|];
    if |r.buffer| >= MIN_BYTES {
      RecognizesV1Iff(length, resume, flags, rest, |r.buffer|);
    }
  }

  /** A reader that still has to detect the version of a 0.x connection fails exactly if it looks at twelve to fifteen
      bytes. */
  lemma DetectingV0Iff(r: Reader, length: seq<Byte>, flags: nat, minor: Byte, rest: seq<Byte>, react: nat -> Reaction)
    requires |length| == 4 && flags < 0x10000 && minor <= 1
    requires r.version == Unknown && r.status == Open && r.credit > 0
    requires r.buffer <= length + StartV0(flags, minor) + rest
    ensures Parse(r, react) ==
      if |r.buffer| < MIN_BYTES then r
      else if |r.buffer| < 16 then Close(r, Failed)
      else Parse(r.(version := V0_1), react)
  {
    hide Recognize, Next, Deliver;
    var all := length + StartV0(flags, minor) + rest;
    assert r.buffer == all[..|r.buffer|];
    if |r.buffer| >= MIN_BYTES {
      RecognizesV0Iff(length, flags, minor, rest, |r.buffer|);
    }
  }

  // ---- Detection over runs ----

  /** A reader of this stream that looks at up to `last` bytes recognizes nothing, and `v` if it looks at more. */
  ghost predicate RecognizedAfter(stream: seq<Byte>, last: nat, v: ProtocolVersion) {
    forall seen | MIN_BYTES <= seen <= |stream| :: Recognize(stream[..seen]) == if seen > last then v else Unknown
  }

  /** There is credit, and there are 12 to `last` bytes. */
  predicate EarlyLook(events: seq<Event>, last: nat) {
    MIN_BYTES <= |Bytes(events)| <= last && Requests(events) > 0
  }

  /** There is such a look at some point of the run. */
  ghost predicate LooksEarly(events: seq<Event>, last: nat) {
    exists k :: 0 <= k <= |events| && EarlyLook(events[..k], last)
  }

  lemma LooksEarlyOneMore(events: seq<Event>, last: nat)
    requires events != []
    ensures LooksEarly(events, last) <==>
      LooksEarly(events[..|events| - 1], last) || EarlyLook(events, last)
  {
    hide EarlyLook;
    var before := events[..|events| - 1];
    assert events[..|events|] == events;
    if k :| 0 <= k <= |before| && EarlyLook(before[..k], last) {
      assert before[..k] == events[..k];
    }
    if k :| 0 <= k <= |events| && EarlyLook(events[..k], last) {
      if k < |events| {
        assert before[..k] == events[..k];
      }
    }
  }

  /** Before the version is known: the reader keeps all bytes. */
  ghost predicate Undecided(r: Reader, events: seq<Event>) {
    && r.version == Unknown && r.status == Open && r.buffer == Bytes(events)
    && (r.credit > 0 <==> Requests(events) > 0)
  }

  /** The three outcomes: still waiting, failed by an early look, or detected. */
  ghost predicate Detection(r: Reader, events: seq<Event>, last: nat, v: ProtocolVersion) {
    if LooksEarly(events, last) then r.version == Unknown && r.status == Failed
    else if Requests(events) == 0 || |Bytes(events)| < MIN_BYTES then Undecided(r, events)
    else r.version == v
  }

  lemma FirstLook(r: Reader, events: seq<Event>, stream: seq<Byte>, last: nat, v: ProtocolVersion, react: nat -> Reaction)
    requires v != Unknown && RecognizedAfter(stream, last, v)
    requires Undecided(r, events) && Bytes(events) <= stream
    ensures var m := Parse(r, react);
      if Requests(events) == 0 || |Bytes(events)| < MIN_BYTES then m == r
      else if |Bytes(events)| <= last then m.version == Unknown && m.status == Failed
      else m.version == v
  {
    hide Next, Deliver, Recognize;
    var seen := |Bytes(events)|;
    if Requests(events) > 0 && seen >= MIN_BYTES {
      assert r.buffer == stream[..seen];
      if seen > last {
        ParseKeepsVersion(r.(version := v), react);
      }
    }
  }

  /** A run over the bytes of one connection fails the detection exactly if it looks early. */
  lemma {:induction false} DetectionOverRuns(events: seq<Event>, stream: seq<Byte>, last: nat, v: ProtocolVersion,
                                             react: nat -> Reaction)
    requires v != Unknown && RecognizedAfter(stream, last, v) && last >= MIN_BYTES
    requires Undisturbed(events) && Bytes(events) <= stream
    ensures Detection(After(Fresh(Unknown), events, react), events, last, v)
    decreases |events|
  {
    hide Parse, Released, RecognizedAfter, LooksEarly;
    if events == [] {
      assert !LooksEarly([], last) by { NothingToLookAt(last); }
    } else {
      var before, e := events[..|events| - 1], events[|events| - 1];
      DetectionOverRuns(before, stream, last, v, react);
      LooksEarlyOneMore(events, last);
      var r := After(Fresh(Unknown), before, react);
      var u := match e case Chunk(bytes) => Fed(r, bytes) case Request(n) => Requested(r, n) case _ => r;
      if e.Request? {
        ReleaseSaturates(r.credit, e.n);
      }
      if LooksEarly(before, last) {
        ClosedStays(u, react);
      } else if Requests(before) == 0 || |Bytes(before)| < MIN_BYTES {
        FirstLook(u, events, stream, last, v, react);
      } else {
        assert |Bytes(before)| > last by { NotEarly(before, last); }
        ParseKeepsVersion(u, react);
      }
    }
  }

  lemma NothingToLookAt(last: nat)
    ensures !LooksEarly([], last)
  {
  }

  lemma NotEarly(events: seq<Event>, last: nat)
    requires !LooksEarly(events, last) && Requests(events) > 0 && |Bytes(events)| >= MIN_BYTES
    ensures |Bytes(events)| > last
  {
    assert events[..|events|] == events;
  }

  lemma ClosedStays(r: Reader, react: nat -> Reaction)
    requires r.status != Open
    ensures Parse(r, react) == r
  {
  }

  /** Over every run on a 1.0 connection, the reader fails to detect the version exactly if at some point it has credit
      and twelve bytes. */
  lemma DetectsV1OverRuns(events: seq<Event>, length: seq<Byte>, resume: bool, flags: nat, rest: seq<Byte>,
                          react: nat -> Reaction)
    requires |length| == 3 && flags < 0x400
    requires Undisturbed(events) && Bytes(events) <= length + StartV1(resume, flags) + rest
    ensures var r := After(Fresh(Unknown), events, react);
      && (r.version == Unknown && r.status == Failed <==> LooksEarly(events, MIN_BYTES))
      && (r.version != Unknown ==> r.version == V1_0)
  {
    hide Recognize, After, LooksEarly, Requests;
    var stream := length + StartV1(resume, flags) + rest;
    forall seen | MIN_BYTES <= seen <= |stream|
      ensures Recognize(stream[..seen]) == if seen > MIN_BYTES then V1_0 else Unknown
    {
      RecognizesV1Iff(length, resume, flags, rest, seen);
    }
    DetectionOverRuns(events, stream, MIN_BYTES, V1_0, react);
  }

  /** Over every run on a 0.x connection that starts with a SETUP frame, exactly if at some point it has credit and
      twelve to fifteen bytes. */
  lemma DetectsV0OverRuns(events: seq<Event>, length: seq<Byte>, flags: nat, minor: Byte, rest: seq<Byte>,
                          react: nat -> Reaction)
    requires |length| == 4 && flags < 0x10000 && minor <= 1
    requires Undisturbed(events) && Bytes(events) <= length + StartV0(flags, minor) + rest
    ensures var r := After(Fresh(Unknown), events, react);
      && (r.version == Unknown && r.status == Failed <==> LooksEarly(events, 15))
      && (r.version != Unknown ==> r.version == V0_1)
  {
    hide Recognize, After, LooksEarly, Requests;
    var stream := length + StartV0(flags, minor) + rest;
    forall seen | MIN_BYTES <= seen <= |stream|
      ensures Recognize(stream[..seen]) == if seen > 15 then V0_1 else Unknown
    {
      RecognizesV0Iff(length, flags, minor, rest, seen);
    }
    DetectionOverRuns(events, stream, 15, V0_1, react);
  }

  // ---- The writer ----

  /** The frames of the batches before the first batch with a frame that is too long. */
  function Accepted(v: ProtocolVersion, ops: seq<Write>): seq<seq<Byte>> {
    if ops == [] || !AllWritable(v, BatchOf(ops[0])) then [] else BatchOf(ops[0]) + Accepted(v, ops[1..])
  }

  /** Over every run the byte stream is the encoding of the accepted frames and nothing of the others. */
  lemma {:induction false} WritesTheAccepted(w: Writer, ops: seq<Write>)
    requires w.open
    ensures WroteAll(w, ops).output == w.output + Written(w.version, Accepted(w.version, ops))
    decreases |ops|
  {
    hide Encode, AllWritable, BatchOf, Written;
    if ops == [] {
      NothingWritten(w.version);
    } else {
      var frames, later := BatchOf(ops[0]), Accepted(w.version, ops[1..]);
      if AllWritable(w.version, frames) {
        WritesTheAccepted(Wrote(w, frames), ops[1..]);
        WrittenSplits(w.version, frames, later);
      } else {
        ClosedWritesNothing(w.(open := false), ops[1..]);
        NothingWritten(w.version);
      }
    }
  }

  lemma NothingWritten(v: ProtocolVersion)
    ensures Written(v, []) == []
  {
  }

  /** A writer stays open exactly if it is never handed a frame that is too long. */
  lemma {:induction false} StaysOpenIff(w: Writer, ops: seq<Write>)
    requires w.open
    ensures WroteAll(w, ops).open <==> forall op | op in ops :: AllWritable(w.version, BatchOf(op))
    decreases |ops|
  {
    hide Encode, AllWritable, BatchOf, Written;
    if ops != [] {
      if AllWritable(w.version, BatchOf(ops[0])) {
        StaysOpenIff(Wrote(w, BatchOf(ops[0])), ops[1..]);
        assert forall op | op in ops :: op == ops[0] || op in ops[1..];
      } else {
        ClosedWritesNothing(w.(open := false), ops[1..]);
      }
    }
  }

  lemma {:induction false} ClosedWritesNothing(w: Writer, ops: seq<Write>)
    requires !w.open
    ensures WroteAll(w, ops) == w
  {
    if ops != [] {
      ClosedWritesNothing(w, ops[1..]);
    }
  }

  /** A batch comes out as its frames one by one, exactly if they all fit: otherwise the frames before the first one
      that is too long are lost with it. */
  lemma {:induction false} BatchIsOneByOneIff(w: Writer, frames: seq<seq<Byte>>)
    requires w.open
    ensures WroteAll(w, seq(|frames|, i requires 0 <= i < |frames| => One(frames[i]))) == Wrote(w, frames)
      <==> AllWritable(w.version, frames) || !Writable(w.version, frames[0])
    decreases |frames|
  {
    hide Encode;
    var ones := seq(|frames|, i requires 0 <= i < |frames| => One(frames[i]));
    if frames != [] {
      JustOne(w.version, frames[0]);
      var first := Wrote(w, [frames[0]]);
      assert BatchOf(ones[0]) == [frames[0]];
      if Writable(w.version, frames[0]) {
        var rest := seq(|frames| - 1, i requires 0 <= i < |frames| - 1 => One(frames[1..][i]));
        assert ones[1..] == rest;
        BatchIsOneByOneIff(first, frames[1..]);
        WritesTheAccepted(first, rest);
        assert AllWritable(w.version, frames) <==> AllWritable(w.version, frames[1..]);
        assert |Encode(w.version, frames[0])| > 0 by { EncodesSomething(w.version, frames[0]); }
      } else {
        ClosedWritesNothing(first, ones[1..]);
      }
    }
  }

  lemma EncodesSomething(v: ProtocolVersion, frame: seq<Byte>)
    ensures |Encode(v, frame)| > 0
  {
  }
}
