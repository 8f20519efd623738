/** The resumption part of a connection automaton as a value, and what each entry point does to it.
    Class `ConnectionAutomaton` performs these transitions; module `ResumeProtocol` joins two of them. */
module ConnectionState {
  import opened Frames
  import opened ResumeState

  /** `connected`: a frame transport is attached.  `resuming`: the client waits for RESUME_OK.
      `stuck`: a cache eviction never ends.  `pending`: frames queued until they can be sent.
      The last four fields are history and steer nothing: the stream frames handed over by the application, those
      of them that went through the cache, the stream frames received, and whether making room in the cache (or an
      oversize frame) has ever cost a cached frame. */
  datatype Endpoint = Endpoint(
    client: bool, cache: Cache, connected: bool, resuming: bool, closed: bool, stuck: bool, pending: seq<Frame>,
    produced: seq<Frame>, log: seq<Frame>, received: seq<Frame>, evicted: bool)

  /** An endpoint after a step, and the frames the step has written to its transport. */
  datatype Step = Step(end: Endpoint, out: seq<Frame>)

  /** The two positions of a RESUME frame. */
  datatype ResumeRequest = ResumeRequest(serverPosition: int, clientPosition: int)

  /** The client position of a RESUME frame whose format has no room for it. */
  const UNSPECIFIED_POSITION := -1

  predicate Alive(e: Endpoint) {
    !e.closed && !e.stuck
  }

  /** Tracked frames of a stream; the ERROR frame that announces the end of a session has stream id 0. */
  predicate IsData(f: Frame) {
    ShouldTrack(f.kind) && f.streamId > 0
  }

  function Data(frames: seq<Frame>): seq<Frame> {
    if frames == [] then []
    else if IsData(frames[0]) then [frames[0]] + Data(frames[1..])
    else Data(frames[1..])
  }

  function Blank(n: nat): seq<Byte> {
    seq(n, _ => 0)
  }

  function KeepaliveFrame(position: int, respond: bool): Frame {
    Frame(KEEPALIVE, 0, Blank(14), position, respond)
  }

  function ResumeOkFrame(position: int): Frame {
    Frame(RESUME_OK, 0, Blank(14), position, false)
  }

  function ConnectionErrorFrame(): Frame {
    Frame(ERROR, 0, Blank(10), 0, false)
  }

  /** What the stream layer and the application hand to the connection. */
  predicate IsAppFrame(f: Frame) {
    || (IsData(f) && Length(f) >= 1)
    || (f.kind == METADATA_PUSH && f.streamId == 0 && Length(f) >= 1)
  }

  function Init(client: bool, capacity: nat): Endpoint {
    Endpoint(client, Empty(capacity), true, false, false, false, [], [], [], [], false)
  }

  predicate CanWrite(e: Endpoint) {
    e.connected && !e.resuming
  }

  /** Tracks the frame and writes it. */
  function OutputFrame(e: Endpoint, f: Frame): Step {
    match TrackSent(e.cache, f)
    case None => Step(e.(stuck := true), [])
    case Some(c) =>
      var lost := ShouldTrack(f.kind) && |c.frames| != |e.cache.frames| + 1;
      Step(e.(cache := c, log := e.log + Data([f]), evicted := e.evicted || lost), [f])
  }

  function OutputFrameOrEnqueue(e: Endpoint, f: Frame): Step {
    if CanWrite(e) then OutputFrame(e, f) else Step(e.(pending := e.pending + [f]), [])
  }

  /** Sends queued frames again, oldest first. */
  function OutputAll(e: Endpoint, frames: seq<Frame>): Step
    decreases |frames|
  {
    if frames == [] then Step(e, []) else
    var first := OutputFrameOrEnqueue(e, frames[0]);
    if first.end.stuck then first else
    var rest := OutputAll(first.end, frames[1..]);
    Step(rest.end, first.out + rest.out)
  }

  /** A frame of the application. */
  function Send(e: Endpoint, f: Frame): Step {
    OutputFrameOrEnqueue(e.(produced := e.produced + Data([f])), f)
  }

  function SendKeepalive(e: Endpoint, respond: bool): Step {
    OutputFrameOrEnqueue(e, KeepaliveFrame(e.cache.implied, respond))
  }

  function Disconnect(e: Endpoint): Endpoint {
    e.(connected := false, resuming := false)
  }

  function Close(e: Endpoint): Endpoint {
    Disconnect(e).(closed := true)
  }

  function CloseWithError(e: Endpoint): Step {
    var last := OutputFrameOrEnqueue(e, ConnectionErrorFrame());
    if last.end.stuck then last else Step(Close(last.end), last.out)
  }

  /** Replays the cache from `p` and then sends what has been queued. */
  function ResumeFromPosition(e: Endpoint, p: int): Step {
    var queued := OutputAll(e.(pending := []), e.pending);
    Step(queued.end, Replay(e.cache, p) + queued.out)
  }

  /** The server's answer to a RESUME frame. */
  function ResumeFromPositionOrClose(e: Endpoint, r: ResumeRequest): Step {
    if ServerCanResume(e, r) then
      var resumed := ResumeFromPosition(e, r.serverPosition);
      Step(resumed.end, [ResumeOkFrame(e.cache.implied)] + resumed.out)
    else CloseWithError(e)
  }

  predicate ServerCanResume(e: Endpoint, r: ResumeRequest) {
    && (r.clientPosition == UNSPECIFIED_POSITION || CanResumeFrom(e.cache, r.clientPosition))
    && Available(e.cache, r.serverPosition)
  }

  /** A RESUME frame has arrived on a fresh transport: the old one is dropped for it. */
  function TryResumeServer(e: Endpoint, r: ResumeRequest): Step {
    ResumeFromPositionOrClose(Disconnect(e).(connected := true), r)
  }

  /** What the client writes on a fresh transport; `full`: the format carries the client position. */
  function CreateResumeFrame(e: Endpoint, full: bool): ResumeRequest {
    ResumeRequest(e.cache.implied, if full then e.cache.reset else UNSPECIFIED_POSITION)
  }

  function TryClientResume(e: Endpoint): Endpoint {
    Disconnect(e).(connected := true, resuming := true)
  }

  function ProcessFrame(e: Endpoint, f: Frame): Step {
    if e.closed then Step(e, []) else
    var tracked := e.(cache := TrackReceived(e.cache, f));
    if f.streamId == 0 then ProcessConnectionFrame(tracked, f)
    else if e.resuming then CloseWithError(tracked)
    else Step(tracked.(received := e.received + Data([f])), [])
  }

  function ProcessConnectionFrame(e: Endpoint, f: Frame): Step {
    match f.kind
    case KEEPALIVE =>
      var trimmed := e.(cache := ResetUpTo(e.cache, f.position));
      if f.respond == e.client then CloseWithError(trimmed)
      else if e.client then Step(trimmed, [])
      else SendKeepalive(trimmed, false)
    case RESUME_OK =>
      if e.resuming && Available(e.cache, f.position)
      then ResumeFromPosition(e.(resuming := false), f.position)
      else CloseWithError(e)
    case ERROR => Step(Close(e), [])
    case METADATA_PUSH | SETUP => Step(e, [])
    case _ => CloseWithError(e)
  }
}
