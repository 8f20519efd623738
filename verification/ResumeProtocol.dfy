/** Two resumable endpoints and the connections between them, over whole runs.

    A connection is a FIFO link in each direction.  An endpoint that drops its transport never sees what is
    still on its way to it, while its own last frames may still arrive at the peer until the peer drops that
    connection too: so every disconnect loses an arbitrary tail of what is in flight.  A resuming client opens
    a new connection with a RESUME frame; the server answers on it and forgets the old one. */
module ResumeProtocol {
  import opened Frames
  import opened SentLog
  import opened ResumeState
  import opened ResumeLaws
  import opened ConnectionState
  import opened EndpointLaws

  /** `c2s` and `s2c` are in flight to the transports that server and client are attached to.  `linked`: those
      two are the ends of the same connection.  `resume`: a RESUME frame the server has not seen yet.  `full`:
      the frame format carries the client position in RESUME (version 1.0). */
  datatype System = System(
    client: Endpoint, server: Endpoint, c2s: seq<Frame>, s2c: seq<Frame>,
    linked: bool, resume: Option<ResumeRequest>, full: bool)

  datatype Action =
    | ClientSends(frame: Frame) | ServerSends(frame: Frame) | ClientKeepalive
    | ClientReads | ServerReads | ClientDrops | ServerDrops
    | ClientResumes | ServerAnswers

  predicate Up(e: Endpoint) {
    e.connected && Alive(e)
  }

  function Start(clientCapacity: nat, serverCapacity: nat, full: bool): System {
    System(Init(true, clientCapacity), Init(false, serverCapacity), [], [], true, None, full)
  }

  predicate Enabled(s: System, a: Action) {
    match a
    case ClientSends(f) => Alive(s.client) && IsAppFrame(f)
    case ServerSends(f) => Alive(s.server) && IsAppFrame(f)
    case ClientKeepalive => Alive(s.client)
    case ClientReads => Alive(s.client) && s.s2c != []
    case ServerReads => Alive(s.server) && s.c2s != []
    case ClientDrops => Up(s.client)
    case ServerDrops => Up(s.server)
    case ClientResumes => Alive(s.client)
    case ServerAnswers => Alive(s.server) && s.resume.Some?
  }

  /** The client has made a step and has left `unread` in flight to it. */
  function AfterClient(s: System, step: Step, unread: seq<Frame>): System {
    var up := Up(step.end);
    s.(client := step.end,
       c2s := if s.linked then s.c2s + step.out else s.c2s,
       s2c := if up then unread else [],
       linked := s.linked && up,
       resume := if up then s.resume else None)
  }

  function AfterServer(s: System, step: Step, unread: seq<Frame>): System {
    var up := Up(step.end);
    s.(server := step.end,
       s2c := if s.linked then s.s2c + step.out else s.s2c,
       c2s := if up then unread else [],
       linked := s.linked && up)
  }

  function Apply(s: System, a: Action): System
    requires Enabled(s, a)
  {
    match a
    case ClientSends(f) => AfterClient(s, Send(s.client, f), s.s2c)
    case ServerSends(f) => AfterServer(s, Send(s.server, f), s.c2s)
    case ClientKeepalive => AfterClient(s, SendKeepalive(s.client, true), s.s2c)
    case ClientReads => AfterClient(s, ProcessFrame(s.client, s.s2c[0]), s.s2c[1..])
    case ServerReads => AfterServer(s, ProcessFrame(s.server, s.c2s[0]), s.c2s[1..])
    case ClientDrops => s.(client := Disconnect(s.client), s2c := [], linked := false, resume := None)
    case ServerDrops => s.(server := Disconnect(s.server), c2s := [], linked := false)
    case ClientResumes =>
      s.(client := TryClientResume(s.client), s2c := [], linked := false,
         resume := Some(CreateResumeFrame(s.client, s.full)))
    case ServerAnswers =>
      var answer := TryResumeServer(s.server, s.resume.value);
      s.(server := answer.end, s2c := answer.out, c2s := [], linked := Up(answer.end), resume := None)
  }

  /** A run: every action is enabled where it happens. */
  predicate IsRun(s: System, actions: seq<Action>)
    decreases |actions|
  {
    actions == [] || (Enabled(s, actions[0]) && IsRun(Apply(s, actions[0]), actions[1..]))
  }

  function After(s: System, actions: seq<Action>): System
    requires IsRun(s, actions)
    decreases |actions|
  {
    if actions == [] then s else After(Apply(s, actions[0]), actions[1..])
  }

  // ---- the invariant ----------------------------------------------------------------------------

  ghost predicate Topology(s: System) {
    && s.client.client && !s.server.client
    && (s.linked ==> Up(s.client) && Up(s.server) && s.resume.None?)
    && (!Up(s.client) ==> s.s2c == [] && s.resume.None?)
    && (!Up(s.server) ==> s.c2s == [])
  }

  /** What has been received and what is in flight is the beginning of what the sender put on record; all of it
      when the link is live. */
  ghost predicate Ships(log: seq<Frame>, received: seq<Frame>, wire: seq<Frame>, live: bool) {
    && received + Data(wire) <= log
    && (live ==> received + Data(wire) == log)
  }

  ghost predicate FlowOk(s: System) {
    && Ships(s.client.log, s.server.received, s.c2s, s.linked && !s.client.resuming)
    && Ships(s.server.log, s.client.received, s.s2c, s.linked)
  }

  /** Without a loss to capacity, an endpoint still has every frame that its peer lacks. */
  ghost predicate Retains(e: Endpoint, received: seq<Frame>) {
    Alive(e) && !e.evicted ==> Dropped(e.cache, e.log) <= |received|
  }

  /** Every keepalive names a boundary of what its sender has received. */
  ghost predicate KeepalivesOk(frames: seq<Frame>, received: seq<Frame>) {
    forall i | 0 <= i < |frames| && frames[i].kind == KEEPALIVE :: IsBoundary(received, frames[i].position)
  }

  ghost predicate Keepalives(s: System) {
    && KeepalivesOk(s.c2s, s.client.received) && KeepalivesOk(s.client.pending, s.client.received)
    && KeepalivesOk(s.s2c, s.server.received) && KeepalivesOk(s.server.pending, s.server.received)
  }

  predicate IsResumeOk(f: Frame) {
    f.kind == RESUME_OK && f.streamId == 0
  }

  /** The client reads only frames of the stream layer and answers to its keepalives, except for a RESUME_OK at
      the head of a new connection and an ERROR from a server that has closed. */
  ghost predicate Wires(s: System) {
    && AllSendable(true, s.c2s)
    && forall i | 0 <= i < |s.s2c| ::
         || Sendable(false, s.s2c[i])
         || (s.s2c[i] == ConnectionErrorFrame() && s.server.closed)
         || (i == 0 && IsResumeOk(s.s2c[i]))
  }

  ghost predicate Handshake(s: System) {
    && (s.resume.Some? ==>
          && s.client.resuming && s.s2c == []
          && s.resume.value == CreateResumeFrame(s.client, s.full))
    && (s.client.resuming && Alive(s.client) && s.resume.None? && s.s2c == [] ==> !s.linked)
    && (s.client.resuming && s.s2c != [] ==> IsResumeOk(s.s2c[0]) || s.s2c[0] == ConnectionErrorFrame())
    && (s.s2c != [] && IsResumeOk(s.s2c[0]) ==>
          && s.client.resuming && s.c2s == [] && (s.linked || !Up(s.server))
          && s.s2c[0].position == End(s.server.received)
          && (s.full ==> s.client.cache.reset <= s.s2c[0].position))
  }

  ghost predicate Inv(s: System) {
    && EndpointOk(s.client) && EndpointOk(s.server)
    && Topology(s) && FlowOk(s)
    && Retains(s.client, s.server.received) && Retains(s.server, s.client.received)
    && Keepalives(s) && Wires(s) && Handshake(s)
  }

  lemma StartInv(clientCapacity: nat, serverCapacity: nat, full: bool)
    requires clientCapacity < SIZE_T / 2 && serverCapacity < SIZE_T / 2
    ensures Inv(Start(clientCapacity, serverCapacity, full))
  {
  }

  // ---- small facts ------------------------------------------------------------------------------

  lemma BoundaryOfReceived(received: seq<Frame>, log: seq<Frame>, p: int) returns (j: nat)
    requires received <= log && IsBoundary(received, p)
    ensures j <= |received| && Boundary(log, j) == p
  {
    j :| 0 <= j <= |received| && Boundary(received, j) == p;
    BoundaryOfPrefix(received, log, j);
  }

  lemma MoreReceived(frames: seq<Frame>, received: seq<Frame>, more: seq<Frame>)
    requires KeepalivesOk(frames, received) && received <= more
    ensures KeepalivesOk(frames, more)
  {
    forall i | 0 <= i < |frames| && frames[i].kind == KEEPALIVE ensures IsBoundary(more, frames[i].position) {
      var j := BoundaryOfReceived(received, more, frames[i].position);
    }
  }

  lemma EndIsBoundary(received: seq<Frame>)
    ensures IsBoundary(received, End(received))
  {
  }

  lemma ShipMore(log: seq<Frame>, received: seq<Frame>, wire: seq<Frame>, out: seq<Frame>)
    requires Ships(log, received, wire, true)
    ensures Ships(log + Data(out), received, wire + out, true)
  {
    hide Data;
    DataConcat(wire, out);
    assert received + Data(wire + out) == (received + Data(wire)) + Data(out);
  }

  // ---- writing ----------------------------------------------------------------------------------

  /** An endpoint has sent or queued the frame `f`. */
  ghost predicate WroteOrQueued(e: Endpoint, step: Step, f: Frame, produced: seq<Frame>) {
    && EndpointOk(step.end) && Wrote(e.(produced := produced), step.end, step.out)
    && (CanWrite(e) ==> step.end.pending == e.pending)
    && (CanWrite(e) && !step.end.stuck ==> step.out == [f])
    && (!CanWrite(e) ==> step.out == [] && step.end == e.(produced := produced, pending := e.pending + [f]))
    && (step.end.stuck ==> step.out == [])
  }

  lemma SendableKind(client: bool, f: Frame)
    requires Sendable(client, f)
    ensures !IsResumeOk(f) && f != ConnectionErrorFrame()
  {
  }

  lemma ClientWroteInv(s: System, step: Step, f: Frame, produced: seq<Frame>)
    requires Inv(s) && Alive(s.client) && Sendable(true, f)
    requires f.kind == KEEPALIVE ==> IsBoundary(s.client.received, f.position)
    requires WroteOrQueued(s.client, step, f, produced)
    ensures Inv(AfterClient(s, step, s.s2c))
  {
    hide EndpointOk, IsBoundary, Data, End, CacheOk, Sendable, Blank, Represents;
    SendableKind(true, f);
    DataNil(s.client.log);
    DataNil(s.server.received);
    var t := AfterClient(s, step, s.s2c);
    assert s.c2s + [] == s.c2s;
    assert Topology(t);
    assert FlowOk(t) by {
      if s.linked && CanWrite(s.client) {
        ShipMore(s.client.log, s.server.received, s.c2s, step.out);
      }
    }
    assert Keepalives(t);
    assert Wires(t);
    assert Handshake(t);
  }

  lemma ServerWroteInv(s: System, step: Step, f: Frame, produced: seq<Frame>)
    requires Inv(s) && Alive(s.server) && Sendable(false, f)
    requires f.kind == KEEPALIVE ==> IsBoundary(s.server.received, f.position)
    requires WroteOrQueued(s.server, step, f, produced)
    ensures Inv(AfterServer(s, step, s.c2s))
  {
    hide EndpointOk, IsBoundary, Data, End, CacheOk, Sendable, Blank, Represents, Boundary;
    SendableKind(false, f);
    DataNil(s.server.log);
    DataNil(s.client.received);
    var t := AfterServer(s, step, s.c2s);
    assert s.s2c + [] == s.s2c;
    assert Topology(t);
    assert FlowOk(t) by {
      if s.linked && CanWrite(s.server) {
        ShipMore(s.server.log, s.client.received, s.s2c, step.out);
      }
    }
    assert Keepalives(t);
    assert Wires(t);
    assert Handshake(t);
    assert Inv(t) by {
      hide Topology, FlowOk, Keepalives, Wires, Handshake;
    }
  }

  lemma ClientSendsInv(s: System, f: Frame)
    requires Inv(s) && Enabled(s, ClientSends(f))
    ensures Inv(Apply(s, ClientSends(f)))
  {
    hide EndpointOk, OutputFrameOrEnqueue, Inv, Wrote;
    assert EndpointOk(s.client) && s.client.client by { InvEndpoints(s); }
    SendOk(s.client, f);
    ClientWroteInv(s, Send(s.client, f), f, s.client.produced + Data([f]));
  }

  lemma ServerSendsInv(s: System, f: Frame)
    requires Inv(s) && Enabled(s, ServerSends(f))
    ensures Inv(Apply(s, ServerSends(f)))
  {
    hide EndpointOk, OutputFrameOrEnqueue, Inv, Wrote;
    assert EndpointOk(s.server) && !s.server.client by { InvEndpoints(s); }
    SendOk(s.server, f);
    ServerWroteInv(s, Send(s.server, f), f, s.server.produced + Data([f]));
  }

  lemma InvEndpoints(s: System)
    requires Inv(s)
    ensures EndpointOk(s.client) && EndpointOk(s.server) && s.client.client && !s.server.client
  {
    hide EndpointOk;
  }

  lemma ImpliedIsBoundary(e: Endpoint)
    requires EndpointOk(e) && Alive(e)
    ensures IsBoundary(e.received, e.cache.implied)
  {
    hide CacheOk;
    EndIsBoundary(e.received);
  }

  lemma ClientKeepaliveInv(s: System)
    requires Inv(s) && Enabled(s, ClientKeepalive)
    ensures Inv(Apply(s, ClientKeepalive))
  {
    hide EndpointOk, OutputFrameOrEnqueue, Inv, Wrote, IsBoundary;
    InvEndpoints(s);
    SendKeepaliveOk(s.client);
    ImpliedIsBoundary(s.client);
    ClientWroteInv(s, SendKeepalive(s.client, true), KeepaliveFrame(s.client.cache.implied, true), s.client.produced);
  }

  // ---- losing and opening connections -----------------------------------------------------------

  lemma DisconnectOk(e: Endpoint)
    requires EndpointOk(e)
    ensures EndpointOk(Disconnect(e))
    ensures Alive(e) && e.client ==> EndpointOk(TryClientResume(e))
  {
    hide Represents, Exact;
  }

  lemma ClientDropsInv(s: System)
    requires Inv(s) && Enabled(s, ClientDrops)
    ensures Inv(Apply(s, ClientDrops))
  {
    hide EndpointOk, IsBoundary, End, Sendable;
    DisconnectOk(s.client);
  }

  lemma ServerDropsInv(s: System)
    requires Inv(s) && Enabled(s, ServerDrops)
    ensures Inv(Apply(s, ServerDrops))
  {
    hide EndpointOk, IsBoundary, End, Sendable;
    DisconnectOk(s.server);
  }

  lemma ClientResumesInv(s: System)
    requires Inv(s) && Enabled(s, ClientResumes)
    ensures Inv(Apply(s, ClientResumes))
  {
    hide EndpointOk, IsBoundary, End, Sendable;
    DisconnectOk(s.client);
  }

  // ---- reading ----------------------------------------------------------------------------------

  lemma ShipReceived(log: seq<Frame>, received: seq<Frame>, wire: seq<Frame>, live: bool)
    requires Ships(log, received, wire, live) && wire != []
    ensures Ships(log, received + Data([wire[0]]), wire[1..], live)
  {
    hide Data;
    DataConcat([wire[0]], wire[1..]);
    assert wire == [wire[0]] + wire[1..];
    assert received + Data(wire) == (received + Data([wire[0]])) + Data(wire[1..]);
  }

  lemma NoData(f: Frame)
    requires !IsData(f)
    ensures Data([f]) == []
  {
  }

  lemma SkipUntracked(e: Endpoint, f: Frame)
    requires !ShouldTrack(f.kind)
    ensures e.(cache := TrackReceived(e.cache, f)) == e
  {
  }

  /** The server has taken the head of its wire; it may have received a stream frame or trimmed its cache. */
  lemma ServerTookInv(s: System, r: Endpoint)
    requires Inv(s) && Up(s.server) && s.c2s != []
    requires EndpointOk(r) && Up(r)
    requires r.log == s.server.log && r.pending == s.server.pending && r.client == s.server.client
    requires r.received == s.server.received + Data([s.c2s[0]])
    requires Retains(r, s.client.received)
    ensures Inv(s.(server := r, c2s := s.c2s[1..]))
  {
    hide EndpointOk, IsBoundary, CacheOk, Sendable, Retains, Boundary, Blank, Data;
    var t := s.(server := r, c2s := s.c2s[1..]);
    ShipReceived(s.client.log, s.server.received, s.c2s, s.linked && !s.client.resuming);
    MoreReceived(s.s2c, s.server.received, r.received);
    MoreReceived(s.server.pending, s.server.received, r.received);
    assert Retains(t.client, t.server.received) by { RetainsMore(s.client, s.server.received, r.received); }
    assert Topology(t) && FlowOk(t);
    assert Keepalives(t);
    assert Wires(t);
    assert Handshake(t);
  }

  lemma RetainsMore(e: Endpoint, received: seq<Frame>, more: seq<Frame>)
    requires Retains(e, received) && received <= more
    ensures Retains(e, more)
  {
  }

  lemma ServerReadsInv(s: System)
    requires Inv(s) && Enabled(s, ServerReads)
    ensures Inv(Apply(s, ServerReads))
  {
    hide EndpointOk, Inv, OutputFrameOrEnqueue, IsBoundary, Wrote;
    var f := s.c2s[0];
    InvReads(s);
    InvEndpoints(s);
    if IsData(f) {
      ReceiveDataOk(s.server, f);
      ServerReadsDataInv(s);
    } else if f.kind == KEEPALIVE {
      ServerReadsKeepaliveInv(s);
    } else {
      SkipUntracked(s.server, f);
      ServerTookInv(s, s.server);
      assert s.s2c + [] == s.s2c;
    }
  }

  lemma InvReads(s: System)
    requires Inv(s)
    ensures s.c2s != [] ==> Up(s.server) && !s.server.resuming && Sendable(true, s.c2s[0])
    ensures s.c2s != [] ==> Retains(s.server, s.client.received)
    ensures s.s2c != [] ==> Up(s.client)
  {
    hide Represents, Exact;
  }

  lemma ServerReadsDataInv(s: System)
    requires Inv(s) && Enabled(s, ServerReads) && IsData(s.c2s[0])
    ensures Inv(Apply(s, ServerReads))
  {
    hide EndpointOk, Inv, IsBoundary, Wrote;
    InvReads(s);
    InvEndpoints(s);
    assert s.server.cache.frames == TrackReceived(s.server.cache, s.c2s[0]).frames;
    ReceiveDataOk(s.server, s.c2s[0]);
    ServerTookInv(s, ProcessFrame(s.server, s.c2s[0]).end);
    assert s.s2c + [] == s.s2c;
  }

  /** The boundary of the reader's log that a keepalive names. */
  lemma KeepaliveBoundary(s: System, fromClient: bool) returns (j: nat)
    requires Inv(s)
    requires fromClient ==> s.c2s != [] && s.c2s[0].kind == KEEPALIVE
    requires !fromClient ==> s.s2c != [] && s.s2c[0].kind == KEEPALIVE
    ensures fromClient ==> j <= |s.client.received| && j <= |s.server.log| && Boundary(s.server.log, j) == s.c2s[0].position
    ensures !fromClient ==> j <= |s.server.received| && j <= |s.client.log| && Boundary(s.client.log, j) == s.s2c[0].position
  {
    hide EndpointOk, Data;
    if fromClient {
      assert s.client.received <= s.server.log;
      j := BoundaryOfReceived(s.client.received, s.server.log, s.c2s[0].position);
    } else {
      assert s.server.received <= s.client.log;
      j := BoundaryOfReceived(s.server.received, s.client.log, s.s2c[0].position);
    }
  }

  lemma ServerReadsKeepaliveInv(s: System)
    requires Inv(s) && Enabled(s, ServerReads) && s.c2s[0].kind == KEEPALIVE
    ensures Inv(Apply(s, ServerReads))
  {
    hide EndpointOk, Inv, OutputFrameOrEnqueue, IsBoundary, Wrote, ResetUpTo, Boundary;
    var f := s.c2s[0];
    InvReads(s);
    InvEndpoints(s);
    SkipUntracked(s.server, f);
    var j := KeepaliveBoundary(s, true);
    KeepaliveTrims(s.server, j);
    var trimmed := s.server.(cache := ResetUpTo(s.server.cache, f.position));
    DataNil(s.server.received);
    assert Data([f]) == [];
    ServerTookInv(s, trimmed);
    var s1 := s.(server := trimmed, c2s := s.c2s[1..]);
    SendKeepaliveOk(trimmed);
    ImpliedIsBoundary(trimmed);
    ServerWroteInv(s1, SendKeepalive(trimmed, false), KeepaliveFrame(trimmed.cache.implied, false), trimmed.produced);
  }

  lemma ClientTookInv(s: System, r: Endpoint)
    requires Inv(s) && Up(s.client) && s.s2c != [] && !s.client.resuming
    requires EndpointOk(r) && Up(r) && !r.resuming
    requires r.log == s.client.log && r.pending == s.client.pending && r.client == s.client.client
    requires r.received == s.client.received + Data([s.s2c[0]])
    requires Retains(r, s.server.received)
    ensures Inv(s.(client := r, s2c := s.s2c[1..]))
  {
    hide EndpointOk, IsBoundary, CacheOk, Sendable, Retains, Boundary, Blank, Data;
    var t := s.(client := r, s2c := s.s2c[1..]);
    ShipReceived(s.server.log, s.client.received, s.s2c, s.linked);
    MoreReceived(s.c2s, s.client.received, r.received);
    MoreReceived(s.client.pending, s.client.received, r.received);
    assert Retains(t.server, t.client.received) by { RetainsMore(s.server, s.client.received, r.received); }
    assert Topology(t) && FlowOk(t);
    assert Keepalives(t);
    assert Wires(t) by { SendableKinds(s); }
    assert Handshake(t) by { SendableKinds(s); }
  }

  lemma SendableKinds(s: System)
    requires Wires(s)
    ensures forall i | 1 <= i < |s.s2c| :: !IsResumeOk(s.s2c[i])
  {
    hide Blank;
  }

  /** The client stops: what was in flight to it is lost, and its connection with it. */
  lemma ClientStoppedInv(s: System, r: Endpoint, unread: seq<Frame>)
    requires Inv(s) && EndpointOk(r) && !Alive(r)
    requires r.log == s.client.log && r.client == s.client.client
    requires KeepalivesOk(r.pending, r.received)
    requires r.received == s.client.received
    ensures Inv(AfterClient(s, Step(r, []), unread))
  {
    hide EndpointOk, IsBoundary, CacheOk, Sendable, Boundary, Blank;
    var t := AfterClient(s, Step(r, []), unread);
    assert s.c2s + [] == s.c2s;
    DataNil(s.client.received);
    assert Topology(t) && FlowOk(t);
    assert Keepalives(t);
    assert Wires(t);
    assert Handshake(t);
  }

  // ---- the resumption handshake -----------------------------------------------------------------

  /** The boundary from which a peer that has received `received` resumes is available only if the frames behind it
      are still cached. */
  lemma AvailableAtReceived(e: Endpoint, received: seq<Frame>)
    requires CacheOk(e) && Alive(e) && received <= e.log
    ensures End(received) == Boundary(e.log, |received|)
    ensures Available(e.cache, End(received)) <==> Dropped(e.cache, e.log) <= |received|
  {
    hide Exact, Available, Boundary, Entries;
    BoundaryOfPrefix(received, e.log, |received|);
    if Available(e.cache, End(received)) {
      var j := BoundaryOfAvailable(e.cache, e.log, End(received));
      BoundaryInjective(e.log, j, |received|);
    }
    if Dropped(e.cache, e.log) <= |received| {
      AvailableAtBoundary(e.cache, e.log, |received|);
    }
  }

  /** What a replay puts on the wire completes what the peer has received. */
  lemma ReplayShips(log: seq<Frame>, more: seq<Frame>, received: seq<Frame>, out: seq<Frame>)
    requires received <= log <= more && more[|received|..] == Data(out)
    ensures Ships(more, received, out, true)
  {
    assert received == more[..|received|];
  }

  lemma ReplaySendable(client: bool, log: seq<Frame>, pending: seq<Frame>, out: seq<Frame>, received: seq<Frame>)
    requires AllData(log) && AllSendable(client, pending) && KeepalivesOk(pending, received)
    requires out <= log + pending
    ensures AllSendable(client, out) && KeepalivesOk(out, received)
  {
    hide IsBoundary;
    forall i | 0 <= i < |out|
      ensures Sendable(client, out[i]) && (out[i].kind == KEEPALIVE ==> IsBoundary(received, out[i].position))
    {
      assert out[i] == (log + pending)[i];
      assert i >= |log| ==> out[i] == pending[i - |log|];
    }
  }

  lemma AllDataSuffix(log: seq<Frame>, j: nat)
    requires AllData(log) && j <= |log|
    ensures AllData(log[j..])
  {
  }

  /** The client gets its RESUME_OK and can resume. */
  lemma ClientAcceptsInv(s: System)
    requires Inv(s) && Enabled(s, ClientReads) && IsResumeOk(s.s2c[0]) && Available(s.client.cache, s.s2c[0].position)
    ensures Inv(Apply(s, ClientReads))
  {
    hide EndpointOk, Inv, IsBoundary, ResumeFromPosition, Available, Boundary, CacheOk, SessionOk, Data;
    var f := s.s2c[0];
    SkipUntracked(s.client, f);
    ClientHandshakeFacts(s);
    var e := s.client.(resuming := false);
    var j := |s.server.received|;
    AvailableAtReceived(s.client, s.server.received);
    ResumeFromPositionOk(e, j);
    ClientAcceptedInv(s, ResumeFromPosition(e, f.position));
  }

  lemma ClientHandshakeFacts(s: System)
    requires Inv(s) && s.s2c != [] && IsResumeOk(s.s2c[0])
    ensures Up(s.client) && s.client.resuming && s.c2s == []
    ensures CacheOk(s.client) && SessionOk(s.client.(resuming := false))
    ensures s.server.received <= s.client.log
    ensures s.s2c[0].position == End(s.server.received)
    ensures KeepalivesOk(s.client.pending, s.client.received)
    ensures AllData(s.client.log) && AllSendable(true, s.client.pending)
  {
    hide Represents, Exact, IsBoundary, Sendable;
    assert s.server.received <= s.server.received + Data(s.c2s) <= s.client.log;
  }

  lemma ClientAcceptedInv(s: System, step: Step)
    requires Inv(s) && Up(s.client) && s.s2c != [] && IsResumeOk(s.s2c[0]) && s.c2s == []
    requires EndpointOk(step.end) && SameSession(s.client.(resuming := false), step.end)
    requires s.client.log <= step.end.log && s.server.received <= s.client.log
    requires step.end.log[|s.server.received|..] == Data(step.out)
    requires step.out <= s.client.log[|s.server.received|..] + s.client.pending && step.end.pending == []
    requires Alive(step.end) && !step.end.evicted ==>
      !s.client.evicted && Dropped(step.end.cache, step.end.log) == Dropped(s.client.cache, s.client.log)
    requires AllData(s.client.log) && AllSendable(true, s.client.pending)
    ensures Inv(AfterClient(s, step, s.s2c[1..]))
  {
    hide EndpointOk, IsBoundary, Data, Boundary, CacheOk, Sendable, AllData, Blank;
    var t := AfterClient(s, step, s.s2c[1..]);
    AllDataSuffix(s.client.log, |s.server.received|);
    ReplaySendable(true, s.client.log[|s.server.received|..], s.client.pending, step.out, s.client.received);
    ReplayShips(s.client.log, step.end.log, s.server.received, step.out);
    ShipReceived(s.server.log, s.client.received, s.s2c, s.linked);
    DataNil(s.server.received);
    DataNil(s.client.received);
    SendableKinds(s);
    assert [] + step.out == step.out;
    assert Topology(t);
    assert FlowOk(t) by {
      NoData(s.s2c[0]);
      assert s.client.received + [] == s.client.received;
    }
    assert Keepalives(t);
    assert Wires(t);
    assert Handshake(t);
  }

  /** The client closes with an error while it waits for RESUME_OK: the ERROR frame stays in its queue. */
  lemma ClientRefusesInv(s: System)
    requires Inv(s) && Enabled(s, ClientReads) && IsResumeOk(s.s2c[0]) && !Available(s.client.cache, s.s2c[0].position)
    ensures Inv(Apply(s, ClientReads))
    ensures Apply(s, ClientReads).client.closed
  {
    hide EndpointOk, Inv, IsBoundary, Available, SessionOk, CacheOk;
    var f := s.s2c[0];
    SkipUntracked(s.client, f);
    ClientHandshakeFacts(s);
    assert SessionOk(s.client) by { InvSessions(s); }
    CloseWithErrorOk(s.client);
    ClientStoppedInv(s, CloseWithError(s.client).end, s.s2c[1..]);
  }

  lemma InvSessions(s: System)
    requires Inv(s)
    ensures SessionOk(s.client) && SessionOk(s.server)
    ensures s.server.received <= s.client.log && s.client.received <= s.server.log
  {
    hide CacheOk, Data;
    assert s.server.received <= s.server.received + Data(s.c2s) <= s.client.log;
    assert s.client.received <= s.client.received + Data(s.s2c) <= s.server.log;
  }

  lemma CloseOk(e: Endpoint, c: Cache)
    requires EndpointOk(e) && c.capacity == e.cache.capacity
    ensures EndpointOk(Close(e.(cache := c)))
  {
  }

  lemma ClientReadsErrorInv(s: System)
    requires Inv(s) && Enabled(s, ClientReads) && s.s2c[0] == ConnectionErrorFrame()
    ensures Inv(Apply(s, ClientReads))
  {
    hide EndpointOk, Inv, IsBoundary;
    InvEndpoints(s);
    CloseOk(s.client, TrackReceived(s.client.cache, s.s2c[0]));
    assert KeepalivesOk(s.client.pending, s.client.received) by { InvKeepalives(s); }
    ClientStoppedInv(s, ProcessFrame(s.client, s.s2c[0]).end, s.s2c[1..]);
  }

  lemma InvKeepalives(s: System)
    requires Inv(s)
    ensures KeepalivesOk(s.client.pending, s.client.received) && KeepalivesOk(s.server.pending, s.server.received)
    ensures Retains(s.client, s.server.received)
  {
    hide EndpointOk;
  }

  /** What may be at the head of the client's wire. */
  lemma ClientHead(s: System)
    requires Inv(s) && s.s2c != []
    ensures Up(s.client)
    ensures IsResumeOk(s.s2c[0]) || s.s2c[0] == ConnectionErrorFrame() || (Sendable(false, s.s2c[0]) && !s.client.resuming)
    ensures s.s2c[0] == ConnectionErrorFrame() ==> s.server.closed
  {
    hide EndpointOk, Data;
  }

  lemma ClientReadsKeepaliveInv(s: System)
    requires Inv(s) && Enabled(s, ClientReads) && s.s2c[0].kind == KEEPALIVE
    ensures Inv(Apply(s, ClientReads))
  {
    hide EndpointOk, Inv, IsBoundary, ResetUpTo, Boundary;
    var f := s.s2c[0];
    ClientHead(s);
    InvEndpoints(s);
    InvKeepalives(s);
    SkipUntracked(s.client, f);
    var j := KeepaliveBoundary(s, false);
    KeepaliveTrims(s.client, j);
    NoData(f);
    DataNil(s.client.received);
    ClientTookInv(s, s.client.(cache := ResetUpTo(s.client.cache, f.position)));
    assert s.c2s + [] == s.c2s;
  }

  lemma ClientReadsDataInv(s: System)
    requires Inv(s) && Enabled(s, ClientReads) && IsData(s.s2c[0])
    ensures Inv(Apply(s, ClientReads))
  {
    hide EndpointOk, Inv, IsBoundary;
    ClientHead(s);
    InvEndpoints(s);
    InvKeepalives(s);
    assert s.client.cache.frames == TrackReceived(s.client.cache, s.s2c[0]).frames;
    ReceiveDataOk(s.client, s.s2c[0]);
    ClientTookInv(s, ProcessFrame(s.client, s.s2c[0]).end);
    assert s.c2s + [] == s.c2s;
  }

  lemma ClientReadsInv(s: System)
    requires Inv(s) && Enabled(s, ClientReads)
    ensures Inv(Apply(s, ClientReads))
  {
    hide EndpointOk, Inv, IsBoundary, Available;
    var f := s.s2c[0];
    ClientHead(s);
    if IsResumeOk(f) {
      if Available(s.client.cache, f.position) {
        ClientAcceptsInv(s);
      } else {
        ClientRefusesInv(s);
      }
    } else if f == ConnectionErrorFrame() {
      ClientReadsErrorInv(s);
    } else if IsData(f) {
      ClientReadsDataInv(s);
    } else if f.kind == KEEPALIVE {
      ClientReadsKeepaliveInv(s);
    } else {
      InvEndpoints(s);
      InvKeepalives(s);
      SkipUntracked(s.client, f);
      NoData(f);
      DataNil(s.client.received);
      ClientTookInv(s, s.client);
      assert s.c2s + [] == s.c2s;
    }
  }

  // ---- the server's answer ----------------------------------------------------------------------

  /** The server on the client's new connection, before it has answered. */
  function Attached(e: Endpoint): Endpoint {
    Disconnect(e).(connected := true)
  }

  lemma AttachedOk(e: Endpoint)
    requires SessionOk(e) && Alive(e)
    ensures SessionOk(Attached(e)) && Up(Attached(e)) && CanWrite(Attached(e))
  {
    hide CacheOk;
    SameCacheOk(e, Attached(e));
  }

  lemma ResumeFacts(s: System)
    requires Inv(s) && s.resume.Some?
    ensures Up(s.client) && s.client.resuming && s.s2c == [] && !s.linked
    ensures s.resume.value.serverPosition == End(s.client.received)
    ensures s.resume.value.clientPosition == (if s.full then s.client.cache.reset else UNSPECIFIED_POSITION)
    ensures s.client.cache.reset >= 0
    ensures s.client.received <= s.server.log && s.server.received <= s.client.log
  {
    hide Data, Exact, IsBoundary, CacheOk;
    InvSessions(s);
    SessionMeans(s.client);
    CacheOkMeans(s.client);
  }

  lemma ServerAcceptsInv(s: System)
    requires Inv(s) && Enabled(s, ServerAnswers) && ServerCanResume(s.server, s.resume.value)
    ensures Inv(Apply(s, ServerAnswers))
  {
    hide EndpointOk, Inv, IsBoundary, ResumeFromPosition, Available, Boundary, CacheOk, SessionOk, Data;
    ResumeFacts(s);
    InvSessions(s);
    var e := Attached(s.server);
    AttachedOk(s.server);
    assert CacheOk(s.server) && s.server.cache.implied == End(s.server.received) by { SessionMeans(s.server); }
    AvailableAtReceived(s.server, s.client.received);
    ResumeFromPositionOk(e, |s.client.received|);
    SessionMeans(s.server);
    InvEndpoints(s);
    ServerAcceptedInv(s, ResumeFromPosition(e, s.resume.value.serverPosition));
  }

  lemma SessionMeans(e: Endpoint)
    requires SessionOk(e) && Alive(e)
    ensures CacheOk(e) && e.cache.implied == End(e.received) && AllData(e.log) && AllSendable(e.client, e.pending)
  {
    hide Represents, Exact;
  }

  lemma ServerAcceptedInv(s: System, step: Step)
    requires Inv(s) && s.resume.Some? && Alive(s.server)
    requires ServerCanResume(s.server, s.resume.value)
    requires s.server.cache.implied == End(s.server.received)
    requires EndpointOk(step.end) && SameSession(Attached(s.server), step.end)
    requires s.server.log <= step.end.log && s.client.received <= s.server.log
    requires step.end.log[|s.client.received|..] == Data(step.out)
    requires step.out <= s.server.log[|s.client.received|..] + s.server.pending && step.end.pending == []
    requires Alive(step.end) && !step.end.evicted ==>
      !s.server.evicted && Dropped(step.end.cache, step.end.log) == Dropped(s.server.cache, s.server.log)
    requires AllData(s.server.log) && AllSendable(false, s.server.pending)
    ensures Inv(s.(server := step.end, s2c := [ResumeOkFrame(s.server.cache.implied)] + step.out, c2s := [],
                   linked := Up(step.end), resume := None))
  {
    hide EndpointOk, IsBoundary, Data, Boundary, CacheOk, Sendable, AllData, Blank, Available, End;
    var ok := ResumeOkFrame(s.server.cache.implied);
    var t := s.(server := step.end, s2c := [ok] + step.out, c2s := [], linked := Up(step.end), resume := None);
    ResumeFacts(s);
    AllDataSuffix(s.server.log, |s.client.received|);
    ReplaySendable(false, s.server.log[|s.client.received|..], s.server.pending, step.out, s.server.received);
    ReplayShips(s.server.log, step.end.log, s.client.received, step.out);
    NoData(ok);
    DataConcat([ok], step.out);
    assert [] + Data(step.out) == Data(step.out);
    DataNil(s.server.received);
    assert Topology(t);
    assert FlowOk(t);
    assert Keepalives(t);
    assert Wires(t);
    assert Handshake(t);
  }

  lemma ServerRefusesInv(s: System)
    requires Inv(s) && Enabled(s, ServerAnswers) && !ServerCanResume(s.server, s.resume.value)
    ensures Inv(Apply(s, ServerAnswers))
  {
    hide EndpointOk, IsBoundary, Boundary, CacheOk, SessionOk, Data, Available, CloseWithError, Sendable, Blank;
    InvSessions(s);
    AttachedOk(s.server);
    var e := Attached(s.server);
    CloseWithErrorOk(e);
    var o := CloseWithError(e);
    NoData(ConnectionErrorFrame());
    DataNil(s.client.received);
    var t := Apply(s, ServerAnswers);
    assert t.s2c == o.out && t.server == o.end && !t.linked;
    assert Topology(t);
    assert FlowOk(t);
    assert Keepalives(t);
    assert Wires(t);
    assert Handshake(t);
  }

  // ---- whole runs -------------------------------------------------------------------------------

  /** Every step keeps the invariant. */
  lemma StepInv(s: System, a: Action)
    requires Inv(s) && Enabled(s, a)
    ensures Inv(Apply(s, a))
  {
    hide Inv, Apply, ServerCanResume;
    match a
    case ClientSends(f) => ClientSendsInv(s, f);
    case ServerSends(f) => ServerSendsInv(s, f);
    case ClientKeepalive => ClientKeepaliveInv(s);
    case ClientReads => ClientReadsInv(s);
    case ServerReads => ServerReadsInv(s);
    case ClientDrops => ClientDropsInv(s);
    case ServerDrops => ServerDropsInv(s);
    case ClientResumes => ClientResumesInv(s);
    case ServerAnswers =>
      if ServerCanResume(s.server, s.resume.value) {
        ServerAcceptsInv(s);
      } else {
        ServerRefusesInv(s);
      }
  }

  lemma {:induction false} RunInv(s: System, actions: seq<Action>)
    requires Inv(s) && IsRun(s, actions)
    ensures Inv(After(s, actions))
    decreases |actions|
  {
    hide Inv, Apply;
    if actions != [] {
      StepInv(s, actions[0]);
      RunInv(Apply(s, actions[0]), actions[1..]);
    }
  }

  // ---- what the protocol promises ---------------------------------------------------------------

  lemma ReachableInv(clientCapacity: nat, serverCapacity: nat, full: bool, actions: seq<Action>) returns (s: System)
    requires clientCapacity < SIZE_T / 2 && serverCapacity < SIZE_T / 2
    requires IsRun(Start(clientCapacity, serverCapacity, full), actions)
    ensures s == After(Start(clientCapacity, serverCapacity, full), actions) && Inv(s)
  {
    hide Inv, Apply;
    var start := Start(clientCapacity, serverCapacity, full);
    StartInv(clientCapacity, serverCapacity, full);
    RunInv(start, actions);
    s := After(start, actions);
  }

  /** Over every run of two resumable endpoints, oversize frames and evictions included, each side has received
      a prefix of the stream frames the other side produced: nothing twice, nothing out of order, no gap. */
  lemma ExactlyOnceInOrder(clientCapacity: nat, serverCapacity: nat, full: bool, actions: seq<Action>)
    requires clientCapacity < SIZE_T / 2 && serverCapacity < SIZE_T / 2
    requires IsRun(Start(clientCapacity, serverCapacity, full), actions)
    ensures var s := After(Start(clientCapacity, serverCapacity, full), actions);
      && s.server.received <= s.client.produced
      && s.client.received <= s.server.produced
  {
    hide Inv, Apply, SessionOk;
    var s := ReachableInv(clientCapacity, serverCapacity, full, actions);
    InvSessions(s);
    assert s.client.log <= s.client.produced && s.server.log <= s.server.produced by { LogsAreProduced(s); }
  }

  lemma LogsAreProduced(s: System)
    requires Inv(s)
    ensures s.client.log <= s.client.produced && s.server.log <= s.server.produced
  {
    hide CacheOk;
  }

  /** Once both ends of a connection are past the handshake and nothing is in flight, nothing is missing: all that
      was ever produced has been received, whatever connections were lost before. */
  lemma NothingIsLost(s: System)
    requires Inv(s) && s.linked && !s.client.resuming && Data(s.c2s) == [] && Data(s.s2c) == []
    ensures s.server.received == s.client.produced && s.client.received == s.server.produced
  {
    hide CacheOk;
    assert s.server.received + [] == s.server.received;
    assert s.client.received + [] == s.client.received;
    assert !s.server.resuming;
  }

  /** The frames of a log behind the first `n`. */
  function Behind(log: seq<Frame>, n: nat): seq<Frame> {
    if n <= |log| then log[n..] else []
  }

  /** The frames on a new connection: the answer, then the replay from where the client stands, then what was
      queued meanwhile. */
  lemma AcceptedServerReplays(s: System)
    requires Inv(s) && Enabled(s, ServerAnswers) && ServerCanResume(s.server, s.resume.value)
    ensures |s.client.received| <= |s.server.log|
    ensures var t := Apply(s, ServerAnswers);
      t.server.stuck ||
      t.s2c == [ResumeOkFrame(End(s.server.received))] + Behind(s.server.log, |s.client.received|) + s.server.pending
  {
    hide EndpointOk, Inv, IsBoundary, ResumeFromPosition, Available, Boundary, CacheOk, SessionOk, Data;
    ResumeFacts(s);
    InvSessions(s);
    var e := Attached(s.server);
    AttachedOk(s.server);
    SessionMeans(s.server);
    AvailableAtReceived(s.server, s.client.received);
    ResumeFromPositionOk(e, |s.client.received|);
  }

  /** The same for the client, behind the RESUME_OK it has read. */
  lemma AcceptedClientReplays(s: System)
    requires Inv(s) && Enabled(s, ClientReads) && IsResumeOk(s.s2c[0]) && Available(s.client.cache, s.s2c[0].position)
    requires s.linked
    ensures |s.server.received| <= |s.client.log|
    ensures var t := Apply(s, ClientReads);
      t.client.stuck || t.c2s == Behind(s.client.log, |s.server.received|) + s.client.pending
  {
    hide EndpointOk, Inv, IsBoundary, ResumeFromPosition, Available, Boundary, CacheOk, SessionOk, Data;
    var f := s.s2c[0];
    SkipUntracked(s.client, f);
    ClientHandshakeFacts(s);
    AvailableAtReceived(s.client, s.server.received);
    ResumeFromPositionOk(s.client.(resuming := false), |s.server.received|);
    assert s.c2s == [];
  }

  /** The server accepts exactly when it still caches every frame the client lacks and, where the RESUME frame says
      so, the client has not given up a byte that the server lacks. */
  lemma ServerAcceptsIff(s: System)
    requires Inv(s) && Enabled(s, ServerAnswers)
    ensures ServerCanResume(s.server, s.resume.value) <==>
      && Dropped(s.server.cache, s.server.log) <= |s.client.received|
      && (s.full ==> s.client.cache.reset <= End(s.server.received))
  {
    hide EndpointOk, Inv, IsBoundary, Available, Boundary, CacheOk, SessionOk, Data;
    ResumeFacts(s);
    InvSessions(s);
    SessionMeans(s.server);
    AvailableAtReceived(s.server, s.client.received);
  }

  /** The client's check of RESUME_OK succeeds exactly when it still caches every frame the server lacks; while no
      logged frame is oversize, that is when the server stands at or behind its reset position. */
  lemma ClientAcceptsIff(s: System)
    requires Inv(s) && s.s2c != [] && IsResumeOk(s.s2c[0])
    ensures Available(s.client.cache, s.s2c[0].position) <==>
      Dropped(s.client.cache, s.client.log) <= |s.server.received|
    ensures AllFit(s.client.cache.capacity, s.client.log) ==>
      (Available(s.client.cache, s.s2c[0].position) <==> s.client.cache.reset <= s.s2c[0].position)
  {
    hide EndpointOk, Inv, Available, Boundary, SessionOk, Data, Represents;
    ClientHandshakeFacts(s);
    AvailableAtReceived(s.client, s.server.received);
    if AllFit(s.client.cache.capacity, s.client.log) {
      AvailableIffBoundary(s.client.cache, s.client.log, s.s2c[0].position);
      assert IsBoundary(s.client.log, s.s2c[0].position);
    }
  }

  /** Under version 1.0 a server that accepts a RESUME never strands the client: its check of the RESUME_OK succeeds
      too, even when both caches have evicted frames, as long as no frame of the client was oversize. */
  lemma ServerAcceptsThenClientAccepts(s: System)
    requires Inv(s) && s.full && Enabled(s, ClientReads) && IsResumeOk(s.s2c[0])
    requires AllFit(s.client.cache.capacity, s.client.log)
    ensures Available(s.client.cache, s.s2c[0].position)
  {
    hide EndpointOk, Available, Boundary, Data, Represents, Wires, Keepalives, FlowOk, Retains, End;
    ClientAcceptsIff(s);
  }

  /** While neither cache has lost a frame to its capacity, no RESUME is ever refused by either side. */
  lemma NeverRefusedWithoutEviction(s: System)
    requires Inv(s) && !s.client.evicted && !s.server.evicted
    ensures Enabled(s, ServerAnswers) ==> ServerCanResume(s.server, s.resume.value)
    ensures Enabled(s, ClientReads) && IsResumeOk(s.s2c[0]) ==> Available(s.client.cache, s.s2c[0].position)
  {
    hide EndpointOk, Available, Boundary, Data, CacheOk, Wires, Keepalives, FlowOk, IsBoundary;
    if Enabled(s, ServerAnswers) {
      ServerAcceptsIff(s);
      ResumeFacts(s);
      InvSessions(s);
      ResetWithinReceived(s.client, s.server.received);
    }
    if Enabled(s, ClientReads) && IsResumeOk(s.s2c[0]) {
      ClientAcceptsIff(s);
    }
  }

  lemma ResetWithinReceived(e: Endpoint, received: seq<Frame>)
    requires SessionOk(e) && Alive(e) && received <= e.log && Dropped(e.cache, e.log) <= |received|
    ensures e.cache.reset <= End(received)
  {
    hide Exact, Boundary, Entries;
    BoundaryOfPrefix(received, e.log, |received|);
    BoundaryMonotone(e.log, Dropped(e.cache, e.log), |received|);
  }

  /** Reading a keepalive never drops a cached frame that the peer has not received. */
  lemma KeepaliveKeepsTheUnreceived(s: System, a: Action)
    requires Inv(s) && Enabled(s, a)
    requires (a == ServerReads && s.c2s[0].kind == KEEPALIVE) || (a == ClientReads && s.s2c[0].kind == KEEPALIVE)
    ensures var e := if a == ServerReads then s.server else s.client;
      var peer := if a == ServerReads then s.client else s.server;
      var r := ResetUpTo(e.cache, (if a == ServerReads then s.c2s[0] else s.s2c[0]).position);
      && |peer.received| <= |e.log|
      && (Dropped(r, e.log) == Dropped(e.cache, e.log) || Dropped(r, e.log) <= |peer.received|)
      && (AllFit(e.cache.capacity, e.log) ==> r.frames == [] || r.frames[0].at == r.reset)
  {
    hide EndpointOk, Inv, ResetUpTo, Boundary, IsBoundary, SessionOk;
    InvSessions(s);
    InvEndpoints(s);
    var j := KeepaliveBoundary(s, a == ServerReads);
    InvReads(s);
    var e := if a == ServerReads then s.server else s.client;
    KeepaliveTrims(e, j);
    KeepaliveAligned(e, j);
  }

  lemma KeepaliveAligned(e: Endpoint, j: nat)
    requires EndpointOk(e) && Alive(e) && j <= |e.log|
    ensures var r := ResetUpTo(e.cache, Boundary(e.log, j));
      && Dropped(r, e.log) >= Dropped(e.cache, e.log)
      && (AllFit(e.cache.capacity, e.log) ==> r.frames == [] || r.frames[0].at == r.reset)
  {
    hide ResetUpTo, Boundary, Exact, Entries;
    ResetRepresents(e.cache, e.log, Boundary(e.log, j));
    if AllFit(e.cache.capacity, e.log) {
      assert IsBoundary(e.log, Boundary(e.log, j));
      DebugChecksHold(e.cache, e.log, Boundary(e.log, j));
    }
  }

  /** As long as no produced frame is larger than the cache, no eviction ever gets stuck. */
  lemma NeverStuckWithoutOversize(s: System)
    requires Inv(s)
    ensures AllFit(s.client.cache.capacity, s.client.produced) ==> !s.client.stuck
    ensures AllFit(s.server.cache.capacity, s.server.produced) ==> !s.server.stuck
  {
    hide CacheOk;
  }

  lemma {:induction false} OutputAllKeepsOpen(e: Endpoint, frames: seq<Frame>)
    ensures OutputAll(e, frames).end.closed == e.closed
    decreases |frames|
  {
    hide TrackSent;
    if frames != [] {
      OutputAllKeepsOpen(OutputFrameOrEnqueue(e, frames[0]).end, frames[1..]);
    }
  }

  /** Sending and resuming close nothing. */
  lemma OutputKeepsOpen(e: Endpoint, f: Frame)
    ensures OutputFrameOrEnqueue(e, f).end.closed == e.closed
  {
    hide TrackSent;
  }

  lemma ResumingKeepsOpen(e: Endpoint, p: int)
    ensures ResumeFromPosition(e, p).end.closed == e.closed
  {
    hide OutputAll;
    OutputAllKeepsOpen(e.(pending := []), e.pending);
  }

  lemma ServerReadsKeepsOpen(s: System)
    requires Inv(s) && Enabled(s, ServerReads)
    ensures !ProcessFrame(s.server, s.c2s[0]).end.closed
  {
    hide OutputFrameOrEnqueue, CacheOk, ResetUpTo, Blank;
    InvReads(s);
    var trimmed := s.server.(cache := TrackReceived(s.server.cache, s.c2s[0]));
    var reset := trimmed.(cache := ResetUpTo(trimmed.cache, s.c2s[0].position));
    OutputKeepsOpen(reset, KeepaliveFrame(reset.cache.implied, false));
  }

  lemma ClientReadsClosesOnRefusal(s: System)
    requires Inv(s) && Enabled(s, ClientReads) && ProcessFrame(s.client, s.s2c[0]).end.closed
    ensures || (s.s2c[0] == ConnectionErrorFrame() && s.server.closed)
            || (IsResumeOk(s.s2c[0]) && !Available(s.client.cache, s.s2c[0].position))
  {
    hide EndpointOk, CloseWithError, OutputFrameOrEnqueue, ResetUpTo, ResumeFromPosition, Data, IsBoundary, Available;
    var f := s.s2c[0];
    ClientHead(s);
    if IsResumeOk(f) {
      SkipUntracked(s.client, f);
      ResumingKeepsOpen(s.client.(resuming := false), f.position);
    }
  }

  /** The only ways a session ends: the server refuses a RESUME, the client refuses the RESUME_OK or learns from an
      ERROR frame that the server has closed.  All the other error branches of the code are unreachable. */
  lemma SessionsEndOnlyByRefusal(s: System, a: Action)
    requires Inv(s) && Enabled(s, a)
    ensures Alive(s.server) && Apply(s, a).server.closed ==>
      a == ServerAnswers && !ServerCanResume(s.server, s.resume.value)
    ensures Alive(s.client) && Apply(s, a).client.closed ==>
      && a == ClientReads
      && (|| (s.s2c[0] == ConnectionErrorFrame() && s.server.closed)
          || (IsResumeOk(s.s2c[0]) && !Available(s.client.cache, s.s2c[0].position)))
  {
    hide Inv, OutputFrameOrEnqueue, ProcessFrame, ResumeFromPosition, CloseWithError, Available;
    match a
    case ClientSends(f) => OutputKeepsOpen(s.client.(produced := s.client.produced + Data([f])), f);
    case ServerSends(f) => OutputKeepsOpen(s.server.(produced := s.server.produced + Data([f])), f);
    case ClientKeepalive => OutputKeepsOpen(s.client, KeepaliveFrame(s.client.cache.implied, true));
    case ServerReads => ServerReadsKeepsOpen(s);
    case ClientReads =>
      if ProcessFrame(s.client, s.s2c[0]).end.closed {
        ClientReadsClosesOnRefusal(s);
      }
    case ServerAnswers => ResumingKeepsOpen(Attached(s.server), s.resume.value.serverPosition);
    case _ =>
  }

  /** All of it over whole runs. */
  lemma EveryRun(clientCapacity: nat, serverCapacity: nat, full: bool, actions: seq<Action>)
    requires clientCapacity < SIZE_T / 2 && serverCapacity < SIZE_T / 2
    requires IsRun(Start(clientCapacity, serverCapacity, full), actions)
    ensures var s := After(Start(clientCapacity, serverCapacity, full), actions);
      // safety
      && s.server.received <= s.client.produced && s.client.received <= s.server.produced
      // nothing is lost
      && (s.linked && !s.client.resuming && Data(s.c2s) == [] && Data(s.s2c) == [] ==>
            s.server.received == s.client.produced && s.client.received == s.server.produced)
      // no refusal without eviction
      && (!s.client.evicted && !s.server.evicted && Enabled(s, ServerAnswers) ==>
            ServerCanResume(s.server, s.resume.value))
      // agreement of the two checks
      && (s.full && Enabled(s, ClientReads) && IsResumeOk(s.s2c[0])
            && AllFit(s.client.cache.capacity, s.client.log) ==>
            Available(s.client.cache, s.s2c[0].position))
      // evictions end
      && (AllFit(s.client.cache.capacity, s.client.produced) ==> !s.client.stuck)
      && (AllFit(s.server.cache.capacity, s.server.produced) ==> !s.server.stuck)
  {
    hide Inv, Apply, ServerCanResume, Available, Data, AllFit;
    ExactlyOnceInOrder(clientCapacity, serverCapacity, full, actions);
    var s := ReachableInv(clientCapacity, serverCapacity, full, actions);
    NeverStuckWithoutOversize(s);
    if s.linked && !s.client.resuming && Data(s.c2s) == [] && Data(s.s2c) == [] {
      NothingIsLost(s);
    }
    if !s.client.evicted && !s.server.evicted {
      NeverRefusedWithoutEviction(s);
    }
    if s.full && Enabled(s, ClientReads) && IsResumeOk(s.s2c[0])
       && AllFit(s.client.cache.capacity, s.client.log) {
      ServerAcceptsThenClientAccepts(s);
    }
  }
}
