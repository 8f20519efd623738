/** The streams of one connection: stream ids, the map from ids to automata, and how streams come and go.  Protocol
    versions above 0.0. */
module StreamTable {
  import opened Frames
  import opened Allowances
  import opened StreamAutomata
  import opened StreamLaws

  /** `automata` holds every stream there ever was, in the map (`registered`) or not. */
  datatype Table = Table(nextStreamId: nat, lastPeerStreamId: nat, automata: map<nat, Automaton>, closed: bool)

  function Empty(client: bool): Table {
    Table(if client then 1 else 2, 0, map[], false)
  }

  predicate Live(t: Table, id: nat) {
    id in t.automata && t.automata[id].registered
  }

  predicate OwnId(t: Table, id: nat) {
    t.nextStreamId % 2 == id % 2
  }

  /** `registerNewPeerStreamId`: accepted if it has the peer's parity and is larger than every one before. */
  predicate Accepts(t: Table, id: nat) {
    !OwnId(t, id) && id > t.lastPeerStreamId
  }

  function Put(t: Table, id: nat, a: Automaton): Table {
    t.(automata := t.automata[id := a])
  }

  function Ended(automata: map<nat, Automaton>, why: Completion): map<nat, Automaton> {
    map id | id in automata :: CloseStream(automata[id], why)
  }

  /** Takes every stream out of the map and ends it. */
  function CloseStreams(t: Table, why: Completion): Table {
    if t.closed then t
    else t.(closed := true, automata := Ended(t.automata, why))
  }

  /** A frame with a stream id, as far as it matters here; `OtherFrame` is of a type that has no business on a stream,
      or of a type that this library does not know. */
  datatype StreamFrame =
    | Request(kind: Kind, initialRequestN: Size) | FireAndForget | ForStream(event: Event) | OtherFrame(known: bool)

  predicate OfPeer(e: Event) {
    e.PeerPayload? || e.PeerError? || e.PeerCancel? || e.PeerRequestN?
  }

  function HandleStreamFrame(t: Table, id: nat, f: StreamFrame): Table
    requires Live(t, id)
  {
    match f
    case ForStream(e) => Put(t, id, Step(t.automata[id], e))
    case OtherFrame(false) => t
    case _ => CloseStreams(t, Completion.ERROR)
  }

  function HandleUnknownStream(t: Table, id: nat, f: StreamFrame): Table {
    if !Accepts(t, id) then t
    else
      var u := t.(lastPeerStreamId := id);
      match f
      case Request(kind, n) => Put(u, id, Created(kind, n))
      case FireAndForget => u
      case _ => CloseStreams(u, Completion.ERROR)
  }

  datatype Action =
    | CreateRequester(kind: Kind) | SendFireAndForget
    | FrameArrives(id: nat, frame: StreamFrame)
    | Application(target: nat, event: Event)
    | CloseConnection(why: Completion)

  /** Stream frames carry a non-zero id; calls and frames that fail a check are left out. */
  predicate Enabled(t: Table, a: Action) {
    match a
    case CreateRequester(kind) => Requests(kind) && t.nextStreamId <= 0x7FFF_FFFF - 2
    case SendFireAndForget => t.nextStreamId <= 0x7FFF_FFFF - 2
    case FrameArrives(id, f) =>
      && id != 0
      && (f.Request? ==> !Requests(f.kind))
      && (f.ForStream? ==> OfPeer(f.event))
      && (f.ForStream? && Live(t, id) ==> !Fatal(t.automata[id], f.event))
    case Application(id, e) =>
      id in t.automata && !OfPeer(e) && !e.ConnectionCloses? && StreamAutomata.Enabled(t.automata[id], e) && !Fatal(t.automata[id], e)
    case CloseConnection(why) => OfConnection(why)
  }

  function Apply(t: Table, a: Action): Table {
    match a
    case CreateRequester(kind) => Put(t, t.nextStreamId, Created(kind, 0)).(nextStreamId := t.nextStreamId + 2)
    case SendFireAndForget => t.(nextStreamId := t.nextStreamId + 2)
    case FrameArrives(id, f) =>
      if t.closed then t
      else if Live(t, id) then HandleStreamFrame(t, id, f)
      else HandleUnknownStream(t, id, f)
    case Application(id, e) => if id in t.automata then Put(t, id, Step(t.automata[id], e)) else t
    case CloseConnection(why) => CloseStreams(t, why)
  }

  predicate IsRun(t: Table, actions: seq<Action>)
    decreases |actions|
  {
    actions == [] || (Enabled(t, actions[0]) && IsRun(Apply(t, actions[0]), actions[1..]))
  }

  function After(t: Table, actions: seq<Action>): Table
    decreases |actions|
  {
    if actions == [] then t else After(Apply(t, actions[0]), actions[1..])
  }

  // ---- The invariant ----

  predicate OkAt(t: Table, id: nat, a: Automaton) {
    && Ok(a) && !a.crashed
    && if Requests(a.kind) then OwnId(t, id) && id < t.nextStreamId
       else !OwnId(t, id) && id <= t.lastPeerStreamId
  }

  ghost predicate TableOk(t: Table) {
    forall id | id in t.automata :: OkAt(t, id, t.automata[id])
  }

  /** An action that puts a new stream into the map, and the id it gets. */
  function Adds(t: Table, a: Action): Option<nat> {
    match a
    case CreateRequester(_) => Some(t.nextStreamId)
    case FrameArrives(id, f) => if !t.closed && !Live(t, id) && Accepts(t, id) && f.Request? then Some(id) else None
    case _ => None
  }

  lemma CloseStreamsOk(t: Table, why: Completion)
    requires TableOk(t) && OfConnection(why)
    ensures TableOk(CloseStreams(t, why))
  {
    hide Ok, CloseStream;
    if !t.closed {
      forall id | id in t.automata ensures OkAt(CloseStreams(t, why), id, CloseStream(t.automata[id], why)) {
        ClosedOk(t, id, t.automata[id], why);
      }
    }
  }

  lemma ClosedOk(t: Table, id: nat, a: Automaton, why: Completion)
    requires OkAt(t, id, a) && OfConnection(why)
    ensures OkAt(t, id, CloseStream(a, why)) && !CloseStream(a, why).registered
  {
    if a.registered {
      hide Ok;
      assert !Fatal(a, ConnectionCloses(why));
      StepOk(a, ConnectionCloses(why));
    }
  }

  lemma ApplyOk(t: Table, a: Action)
    requires TableOk(t) && Enabled(t, a)
    ensures TableOk(Apply(t, a))
  {
    hide Ok, Step, Fatal, StreamAutomata.Enabled, CloseStreams;
    match a
    case CreateRequester(kind) => CreatedOk(kind, 0);
    case SendFireAndForget =>
    case FrameArrives(id, f) =>
      if !t.closed {
        if Live(t, id) {
          FrameForLiveOk(t, id, f);
        } else if Accepts(t, id) {
          UnknownOk(t, id, f);
        }
      }
    case Application(id, e) =>
      StepOk(t.automata[id], e);
    case CloseConnection(why) => CloseStreamsOk(t, why);
  }

  lemma FrameForLiveOk(t: Table, id: nat, f: StreamFrame)
    requires TableOk(t) && Live(t, id) && Enabled(t, FrameArrives(id, f))
    ensures TableOk(HandleStreamFrame(t, id, f))
  {
    hide Ok, Step, Fatal, CloseStreams;
    match f
    case ForStream(e) =>
      StepOk(t.automata[id], e);
    case OtherFrame(false) =>
    case _ => CloseStreamsOk(t, Completion.ERROR);
  }

  lemma UnknownOk(t: Table, id: nat, f: StreamFrame)
    requires TableOk(t) && Accepts(t, id) && Enabled(t, FrameArrives(id, f))
    ensures TableOk(HandleUnknownStream(t, id, f))
  {
    hide Ok, Step, Fatal, CloseStreams;
    var u := t.(lastPeerStreamId := id);
    assert TableOk(u);
    match f
    case Request(kind, n) => CreatedOk(kind, n);
    case FireAndForget =>
    case _ => CloseStreamsOk(u, Completion.ERROR);
  }

  lemma {:induction false} RunOk(t: Table, actions: seq<Action>)
    requires TableOk(t) && IsRun(t, actions)
    ensures TableOk(After(t, actions))
    decreases |actions|
  {
    hide TableOk, Enabled, Apply;
    if actions != [] {
      ApplyOk(t, actions[0]);
      RunOk(Apply(t, actions[0]), actions[1..]);
    }
  }

  // ---- The theorems ----

  /** Over every run: a stream is in the map if and only if its automaton is not closed, own ids and peer ids are told
      apart by parity, and the next stream, own or accepted from the peer, gets an id that was never used before, larger
      than all ids of its kind. */
  lemma IdsAreNeverReused(client: bool, actions: seq<Action>, next: Action)
    requires IsRun(Empty(client), actions) && Enabled(After(Empty(client), actions), next)
    ensures var t := After(Empty(client), actions);
      && (forall id | id in t.automata :: t.automata[id].registered <==> t.automata[id].state != CLOSED)
      && (forall id | id in t.automata :: Requests(t.automata[id].kind) <==> OwnId(t, id))
      && (Adds(t, next).Some? ==>
            && Adds(t, next).value !in t.automata
            && forall id | id in t.automata && OwnId(t, id) == OwnId(t, Adds(t, next).value) :: id < Adds(t, next).value)
  {
    hide Enabled, IsRun, After;
    RunOk(Empty(client), actions);
  }

  /** The ids given out keep one parity. */
  lemma {:induction false} ParityIsKept(t: Table, actions: seq<Action>)
    requires IsRun(t, actions)
    ensures After(t, actions).nextStreamId % 2 == t.nextStreamId % 2
    ensures After(t, actions).nextStreamId >= t.nextStreamId && After(t, actions).lastPeerStreamId >= t.lastPeerStreamId
    decreases |actions|
  {
    hide Enabled, Step;
    if actions != [] {
      ParityIsKept(Apply(t, actions[0]), actions[1..]);
    }
  }

  /** Closing the connection empties the map; every stream that was in it is ended then, once, and those that were not
      stay as they were. */
  lemma ClosingEndsEachOnce(client: bool, actions: seq<Action>, why: Completion)
    requires IsRun(Empty(client), actions) && OfConnection(why) && !After(Empty(client), actions).closed
    ensures var t, u := After(Empty(client), actions), CloseStreams(After(Empty(client), actions), why);
      && u.automata.Keys == t.automata.Keys
      && forall id | id in t.automata :: EndedOnce(t.automata[id], u.automata[id])
  {
    hide Enabled, IsRun, After, CloseStream, EndedOnce, Ok;
    RunOk(Empty(client), actions);
    var t := After(Empty(client), actions);
    forall id | id in t.automata ensures EndedOnce(t.automata[id], CloseStream(t.automata[id], why)) {
      EndsOnce(t, id, t.automata[id], why);
    }
  }

  /** From `a` to `b` the stream leaves the map, if it was there: its subscriber is told it failed, its publisher is
      cancelled, and nothing is written. */
  predicate EndedOnce(a: Automaton, b: Automaton) {
    && !b.registered && b.written == a.written
    && (!a.registered ==> b == a)
    && (a.registered ==>
          && b.state == CLOSED
          && b.signals == a.signals + (if Consumes(a.kind) && a.attached then [OnError] else [])
          && b.cancelled == a.cancelled + (if Publishes(a.kind) && a.hooked then 1 else 0))
  }

  lemma EndsOnce(t: Table, id: nat, a: Automaton, why: Completion)
    requires OkAt(t, id, a) && OfConnection(why)
    ensures EndedOnce(a, CloseStream(a, why))
  {
    ClosedOk(t, id, a, why);
  }

  // ---- Openings that come late ----

  /** Every frame for a stream of the peer has had a smaller id. */
  predicate SmallerBefore(own: nat, actions: seq<Action>, id: nat) {
    forall k | 0 <= k < |actions| && actions[k].FrameArrives? && actions[k].id % 2 != own % 2 :: actions[k].id < id
  }

  lemma {:induction false} ClosedForever(t: Table, actions: seq<Action>)
    requires IsRun(t, actions) && t.closed
    ensures After(t, actions).closed
    decreases |actions|
  {
    hide Enabled, Step;
    if actions != [] {
      ClosedForever(Apply(t, actions[0]), actions[1..]);
    }
  }

  /** What one frame does to the last id of the peer. */
  lemma LastMoves(t: Table, a: Action)
    requires TableOk(t) && Enabled(t, a) && !t.closed
    ensures Apply(t, a).nextStreamId % 2 == t.nextStreamId % 2
    ensures Apply(t, a).lastPeerStreamId ==
      if a.FrameArrives? && a.id % 2 != t.nextStreamId % 2 && a.id > t.lastPeerStreamId then a.id else t.lastPeerStreamId
  {
    hide Ok, Step, Fatal, StreamAutomata.Enabled;
  }

  lemma {:induction false} LastIsLargest(t: Table, actions: seq<Action>, id: nat)
    requires TableOk(t) && IsRun(t, actions) && !After(t, actions).closed
    ensures After(t, actions).lastPeerStreamId < id <==> t.lastPeerStreamId < id && SmallerBefore(t.nextStreamId, actions, id)
    ensures After(t, actions).nextStreamId % 2 == t.nextStreamId % 2
    decreases |actions|
  {
    hide TableOk, Enabled, Apply;
    if actions != [] {
      if t.closed {
        ClosedForever(t, actions);
        assert false;
      }
      LastMoves(t, actions[0]);
      ApplyOk(t, actions[0]);
      LastIsLargest(Apply(t, actions[0]), actions[1..], id);
      SmallerFrom(t.nextStreamId, actions, id);
      SameParity(Apply(t, actions[0]).nextStreamId, t.nextStreamId, actions[1..], id);
    }
  }

  lemma SmallerFrom(own: nat, actions: seq<Action>, id: nat)
    requires actions != []
    ensures SmallerBefore(own, actions, id) <==>
      (actions[0].FrameArrives? && actions[0].id % 2 != own % 2 ==> actions[0].id < id) && SmallerBefore(own, actions[1..], id)
  {
    var later := actions[1..];
    if SmallerBefore(own, actions, id) {
      assert forall k | 0 <= k < |later| :: later[k] == actions[k + 1];
    } else {
      var k :| 0 <= k < |actions| && actions[k].FrameArrives? && actions[k].id % 2 != own % 2 && actions[k].id >= id;
      assert k == 0 || later[k - 1] == actions[k];
    }
  }

  lemma SameParity(own: nat, own': nat, actions: seq<Action>, id: nat)
    requires own % 2 == own' % 2
    ensures SmallerBefore(own, actions, id) <==> SmallerBefore(own', actions, id)
  {
  }

  /** Over every run: the opening frame of a peer's stream adds the stream if and only if no frame with a larger id of
      the peer came before it, and is dropped otherwise.  Ids are taken when a requester is created, but the opening
      frame is written with its first request. */
  lemma OpeningIsHeardIff(client: bool, actions: seq<Action>, id: nat, kind: Kind, initialRequestN: Size)
    requires IsRun(Empty(client), actions) && !After(Empty(client), actions).closed
    requires var t := After(Empty(client), actions);
      id !in t.automata && !OwnId(t, id) && Enabled(t, FrameArrives(id, Request(kind, initialRequestN)))
    ensures var t := After(Empty(client), actions);
      var u := Apply(t, FrameArrives(id, Request(kind, initialRequestN)));
      if SmallerBefore(Empty(client).nextStreamId, actions, id)
      then id in u.automata && u.automata[id] == Created(kind, initialRequestN)
      else u == t
  {
    hide IsRun, After;
    LastIsLargest(Empty(client), actions, id);
  }
}
