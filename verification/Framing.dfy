/** Length-prefixed framing over a byte stream: what a framed writer puts on the wire, and what a framed reader hands
    to its subscriber, as values and functions. */
module Framing {
  import opened Frames
  import opened Allowances
  import opened Wire
  import opened Autodetection

  const MAX_FRAME_LENGTH := 0xFFFFFF

  /** Versions below 1.0 write four length bytes and count them in the length. */
  predicate Old(v: ProtocolVersion) {
    v == V0_0 || v == V0_1
  }

  function FieldLength(v: ProtocolVersion): nat {
    if Old(v) then 4 else 3
  }

  /** The length to write for a payload. */
  function LengthFor(v: ProtocolVersion, payload: nat): nat {
    if Old(v) then payload + FieldLength(v) else payload
  }

  /** The smallest length a reader accepts: a frame header, with the length field if the length counts it. */
  function MinimalLength(v: ProtocolVersion): nat {
    if Old(v) then 8 + FieldLength(v) else 6
  }

  function PayloadSize(v: ProtocolVersion, length: nat): nat
    requires length >= MinimalLength(v)
  {
    if Old(v) then length - FieldLength(v) else length
  }

  function Encode(v: ProtocolVersion, frame: seq<Byte>): seq<Byte> {
    BigEndian(LengthFor(v, |frame|), FieldLength(v)) + frame
  }

  predicate Writable(v: ProtocolVersion, frame: seq<Byte>) {
    LengthFor(v, |frame|) <= MAX_FRAME_LENGTH
  }

  predicate AllWritable(v: ProtocolVersion, frames: seq<seq<Byte>>) {
    forall i | 0 <= i < |frames| :: Writable(v, frames[i])
  }

  function Written(v: ProtocolVersion, frames: seq<seq<Byte>>): seq<Byte> {
    if frames == [] then [] else Encode(v, frames[0]) + Written(v, frames[1..])
  }

  /** Reading a length: the highest of four bytes is shifted into the sign bit of an `int` and widened with its sign. */
  function ReadLength(v: ProtocolVersion, b: seq<Byte>): nat
    requires |b| >= FieldLength(v)
  {
    var n := FromBigEndian(b[..FieldLength(v)]);
    if Old(v) && b[0] >= 0x80 then n + SIZE_T - 0x1_0000_0000 else n
  }

  datatype Scan = Incomplete | Invalid | Whole(frame: seq<Byte>, rest: seq<Byte>)

  /** What the front of a buffer holds. */
  function Next(v: ProtocolVersion, b: seq<Byte>): Scan {
    if |b| < FieldLength(v) then Incomplete
    else
      var length := ReadLength(v, b);
      if length < MinimalLength(v) then Invalid
      else
        var end := FieldLength(v) + PayloadSize(v, length);
        if |b| < end then Incomplete else Whole(b[FieldLength(v)..end], b[end..])
  }

  datatype Status = Open | Completed | Failed

  /** What the subscriber does inside `onNext`: it asks for more frames, or cancels. */
  datatype Reaction = Grant(n: Size) | Stop

  /** `delivered` and `demand` record the frames handed to the subscriber and the sum of its requests. */
  datatype Reader = Reader(version: ProtocolVersion, buffer: seq<Byte>, credit: Size, status: Status,
                           delivered: seq<seq<Byte>>, demand: nat)

  function Fresh(v: ProtocolVersion): Reader {
    Reader(v, [], 0, Open, [], 0)
  }

  function Close(r: Reader, status: Status): Reader {
    r.(buffer := [], status := status)
  }

  function Requested(r: Reader, n: Size): Reader {
    r.(credit := Released(r.credit, n), demand := r.demand + n)
  }

  function Reacted(r: Reader, reaction: Reaction): Reader {
    match reaction
    case Grant(n) => Requested(r, n)
    case Stop => Close(r, Completed)
  }

  /** One round of the parse loop: a frame leaves the buffer, uses one credit, and the subscriber reacts. */
  function Deliver(r: Reader, frame: seq<Byte>, rest: seq<Byte>, react: nat -> Reaction): Reader
    requires r.credit > 0
  {
    Reacted(r.(buffer := rest, credit := Acquired(r.credit, 1), delivered := r.delivered + [frame]), react(|r.delivered|))
  }

  /** The parse loop. */
  function Parse(r: Reader, react: nat -> Reaction): Reader
    decreases |r.buffer|, r.version == Unknown
  {
    if r.status != Open || r.credit == 0 then r
    else if r.version == Unknown then
      if |r.buffer| < MIN_BYTES then r
      else
        var v := Recognize(r.buffer);
        if v == Unknown then Close(r, Failed) else Parse(r.(version := v), react)
    else
      match Next(r.version, r.buffer)
      case Incomplete => r
      case Invalid => Close(r, Failed)
      case Whole(frame, rest) => Parse(Deliver(r, frame, rest, react), react)
  }

  /** Bytes that arrive after the stream is closed are not looked at. */
  function Fed(r: Reader, chunk: seq<Byte>): Reader {
    if r.status == Open then r.(buffer := r.buffer + chunk) else r
  }

  datatype Event = Chunk(bytes: seq<Byte>) | Request(n: Size) | Cancel | StreamComplete | StreamError

  function Step(r: Reader, e: Event, react: nat -> Reaction): Reader {
    match e
    case Chunk(bytes) => Parse(Fed(r, bytes), react)
    case Request(n) => Parse(Requested(r, n), react)
    case Cancel => if r.status == Open then Close(r, Completed) else r
    case StreamComplete => if r.status == Open then Close(r, Completed) else r
    case StreamError => if r.status == Open then Close(r, Failed) else r
  }

  function After(r: Reader, events: seq<Event>, react: nat -> Reaction): Reader {
    if events == [] then r
    else Step(After(r, events[..|events| - 1], react), events[|events| - 1], react)
  }

  /** All bytes of a run. */
  function Bytes(events: seq<Event>): seq<Byte> {
    if events == [] then []
    else
      var e := events[|events| - 1];
      Bytes(events[..|events| - 1]) + if e.Chunk? then e.bytes else []
  }

  /** The sum of the requests of a run, without those made inside `onNext`. */
  function Requests(events: seq<Event>): nat {
    if events == [] then 0
    else
      var e := events[|events| - 1];
      Requests(events[..|events| - 1]) + if e.Request? then e.n else 0
  }

  predicate Undisturbed(events: seq<Event>) {
    forall i | 0 <= i < |events| :: events[i].Chunk? || events[i].Request?
  }

  // ---- The writer ----

  /** `output` is what has gone to the byte stream; a frame that is too long closes the writer. */
  datatype Writer = Writer(version: ProtocolVersion, output: seq<Byte>, open: bool)

  datatype Write = One(frame: seq<Byte>) | Many(frames: seq<seq<Byte>>)

  function BatchOf(op: Write): seq<seq<Byte>> {
    match op
    case One(frame) => [frame]
    case Many(frames) => frames
  }

  /** A batch is written whole or not at all. */
  function Wrote(w: Writer, frames: seq<seq<Byte>>): Writer {
    if !w.open then w
    else if AllWritable(w.version, frames) then w.(output := w.output + Written(w.version, frames))
    else w.(open := false)
  }

  function WroteAll(w: Writer, ops: seq<Write>): Writer
    decreases |ops|
  {
    if ops == [] then w else WroteAll(Wrote(w, BatchOf(ops[0])), ops[1..])
  }
}
