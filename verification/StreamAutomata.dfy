/** The six stream automata: their states, and what every signal of the application and every frame of the peer does to
    them.  Inheritance is flattened: one value has the fields of all of them. */
module StreamAutomata {
  import opened Frames
  import opened Allowances
  import opened Credits

  datatype Kind =
    | RequestResponseRequester | StreamRequester | ChannelRequester
    | RequestResponseResponder | StreamResponder | ChannelResponder

  predicate Requests(kind: Kind) {
    kind == RequestResponseRequester || kind == StreamRequester || kind == ChannelRequester
  }

  predicate Consumes(kind: Kind) {
    Requests(kind) || kind == ChannelResponder
  }

  predicate Publishes(kind: Kind) {
    !Requests(kind) || kind == ChannelRequester
  }

  datatype State = NEW | REQUESTED | RESPONDING | CLOSED

  /** Why a stream ends. */
  datatype Completion =
    | CANCEL | COMPLETE | APPLICATION_ERROR | ERROR
    | INVALID_SETUP | UNSUPPORTED_SETUP | REJECTED_SETUP | CONNECTION_ERROR | CONNECTION_END | SOCKET_CLOSED

  /** What the consuming subscriber is told. */
  datatype Signal = OnNext | OnComplete | OnError

  /** What is written for the stream: the frame that opens it, credit, a payload, and the frame that closes it. */
  datatype Out = Open(n: nat) | RequestN(n: nat) | Payload(complete: bool) | Close(why: Completion)

  /** `registered`: the connection's map has the stream.  `attached` and `hooked` record that a subscriber was attached
      and that `onSubscribe` was called, `signals`, `written` and `cancelled` what was told to the subscriber, what was
      written, and how often the application's subscription was cancelled; `crashed` is a failed CHECK, a failed debug
      check on the ending signal, or a call through a missing subscriber. */
  datatype Automaton = Automaton(
    kind: Kind, state: State, registered: bool, terminated: bool,
    consumingSubscriber: bool, consumer: Consumer, early: Size,
    producingSubscription: bool, publisher: Publisher,
    attached: bool, hooked: bool, signals: seq<Signal>, written: seq<Out>, cancelled: nat, crashed: bool)

  /** A stream as it is put into the map; a requester is given its subscriber in the same step. */
  function Created(kind: Kind, initialRequestN: Size): (a: Automaton)
    ensures a.registered
  {
    Automaton(kind, if Requests(kind) then NEW else RESPONDING, true, false,
              Requests(kind), Consumer(0, 0), 0,
              false, Publisher(false, if kind == RequestResponseResponder then 1
                                      else if Requests(kind) then 0 else initialRequestN, 0),
              Requests(kind), false, [], [], 0, false)
  }

  function Write(a: Automaton, out: Out): Automaton {
    a.(written := a.written + [out])
  }

  function Tell(a: Automaton, signal: Signal): Automaton {
    a.(signals := a.signals + [signal])
  }

  /** The last word to the consuming subscriber, if it has not had one. */
  function Dismiss(a: Automaton, signal: Signal): (b: Automaton)
    ensures b.kind == a.kind && b.registered == a.registered && b.written == a.written
  {
    if a.consumingSubscriber then Tell(a, signal).(consumingSubscriber := false) else a
  }

  function Crash(a: Automaton): Automaton {
    a.(crashed := true)
  }

  function TerminatePublisher(a: Automaton): (b: Automaton)
    ensures b.kind == a.kind && b.registered == a.registered && b.written == a.written
  {
    if a.producingSubscription then a.(producingSubscription := false, cancelled := a.cancelled + 1) else a
  }

  /** An automaton that has not closed itself checks that the ending is not a regular one. */
  function Shut(a: Automaton, regular: bool): (b: Automaton)
    ensures b.kind == a.kind && b.registered == a.registered && b.written == a.written
  {
    if a.state != CLOSED && regular then a.(state := CLOSED, crashed := true) else a.(state := CLOSED)
  }

  /** The isTerminated flag, which the base class sets; a request-response requester does not call it. */
  function Terminate(a: Automaton): (b: Automaton)
    ensures b.kind == a.kind && b.registered == a.registered && b.written == a.written
  {
    if a.kind == RequestResponseRequester then a else a.(terminated := true)
  }

  /** `endStream`, called once the stream has left the map. */
  function EndStream(a: Automaton, why: Completion): (b: Automaton)
    ensures b.kind == a.kind && b.registered == a.registered && b.written == a.written
  {
    var regular := why == COMPLETE || why == Completion.CANCEL;
    var closed := Shut(a, regular);
    var silent := if Publishes(a.kind) then TerminatePublisher(closed) else closed;
    Terminate(if Consumes(a.kind) then Dismiss(silent, if regular then OnComplete else OnError) else silent)
  }

  /** `closeStream`: the connection takes the stream out of its map and ends it; nothing if it is not there. */
  function CloseStream(a: Automaton, why: Completion): (b: Automaton)
    ensures b.kind == a.kind && !b.registered && b.written == a.written
  {
    if a.registered then EndStream(a.(registered := false), why) else a
  }

  function WriteAndClose(a: Automaton, why: Completion): (b: Automaton)
    ensures b.kind == a.kind && !b.registered && b.written == a.written + [Close(why)]
  {
    CloseStream(Write(a, Close(why)), why)
  }

  function WriteRequests(a: Automaton, w: Written): (b: Automaton)
    ensures b.kind == a.kind
  {
    a.(consumer := w.to, written := a.written + if w.requests == [] then [] else [RequestN(w.requests[0])])
  }

  /** Opens the stream, and asks for what did not fit the opening frame. */
  function OpenStream(a: Automaton, initial: Size, remaining: Size): (b: Automaton)
    ensures b.kind == a.kind
  {
    var c := Write(a.(state := REQUESTED, consumer := AddImplicitAllowance(a.consumer, initial)), Open(initial % 0x1_0000_0000));
    if remaining > 0 then WriteRequests(c, GenerateRequest(c.consumer, remaining)) else c
  }

  // ---- Signals of the application ----

  function Request(a: Automaton, n: Count): (b: Automaton)
    ensures b.kind == a.kind
  {
    match a.kind
    case RequestResponseRequester =>
      if n == 0 then a
      else if a.state == NEW then Write(a.(state := REQUESTED), Open(1))
      else CloseStream(Dismiss(a, OnError), Completion.ERROR)
    case StreamRequester =>
      if n == 0 then a
      else if a.state == NEW then OpenStream(a, InitialPart(n), RemainingPart(n))
      else if a.state == REQUESTED then WriteRequests(a, GenerateRequest(a.consumer, AsSize(n)))
      else a
    case ChannelRequester =>
      if a.state == NEW then a.(early := Released(a.early, AsSize(n)))
      else if a.state == REQUESTED then WriteRequests(a, GenerateRequest(a.consumer, AsSize(n)))
      else a
    case ChannelResponder =>
      if a.state == RESPONDING then WriteRequests(a, GenerateRequest(a.consumer, AsSize(n))) else a
    case _ => a
  }

  function Cancel(a: Automaton): Automaton {
    if a.state == CLOSED then a
    else if a.kind == ChannelResponder then WriteAndClose(a.(state := CLOSED), COMPLETE)
    else if a.state == NEW then CloseStream(a.(state := CLOSED), Completion.CANCEL)
    else WriteAndClose(a.(state := CLOSED), Completion.CANCEL)
  }

  /** The consuming subscriber of a channel responder comes after the automaton. */
  function Attach(a: Automaton): Automaton {
    if a.terminated then Tell(a, OnComplete).(attached := true)
    else a.(attached := true, consumingSubscriber := true)
  }

  /** A channel requester also asks for its first payload, which travels in the opening frame and needs no credit; that
      one request is not counted in `granted`. */
  function OnSubscribe(a: Automaton): Automaton {
    var b := a.(hooked := true);
    if a.kind == ChannelRequester && a.state != NEW then Crash(b)
    else if a.terminated then b.(cancelled := b.cancelled + 1)
    else b.(producingSubscription := true, publisher := Subscribed(a.publisher))
  }

  /** The first payload of a channel requester opens the stream with the credit gathered so far. */
  function OpenChannel(a: Automaton): (b: Automaton)
    ensures b.kind == a.kind
  {
    var initial := Drained(a.early, MAX_REQUEST_N);
    var left := Undrained(a.early, MAX_REQUEST_N);
    if initial > MAX_REQUEST_N then Crash(a)
    else OpenStream(a.(early := Undrained(left, INFINITE)), initial, Drained(left, INFINITE))
  }

  function OnNextPayload(a: Automaton): (b: Automaton)
    ensures b.kind == a.kind
  {
    match a.kind
    case ChannelRequester =>
      if a.state == NEW then OpenChannel(a)
      else if a.state == REQUESTED then Write(a, Payload(false))
      else a
    case RequestResponseResponder =>
      if a.state == RESPONDING then CloseStream(Write(a.(state := CLOSED), Payload(true)), COMPLETE) else a
    case _ =>
      if a.state == RESPONDING then Write(a, Payload(false)) else a
  }

  function OnCompleted(a: Automaton): Automaton {
    if a.state == CLOSED then a
    else if a.state == NEW then CloseStream(a.(state := CLOSED), COMPLETE)
    else WriteAndClose(a.(state := CLOSED), COMPLETE)
  }

  /** A channel requester leaves it to `endStream` to change its state. */
  function OnFailed(a: Automaton): Automaton {
    if a.state == CLOSED then a
    else if a.state == NEW then CloseStream(a.(state := CLOSED), APPLICATION_ERROR)
    else WriteAndClose(if a.kind == ChannelRequester then a else a.(state := CLOSED), APPLICATION_ERROR)
  }

  // ---- Frames of the peer ----

  /** A payload counts against the allowance if it carries something or is flagged NEXT. */
  function ProcessPayload(a: Automaton, counts: bool): (b: Automaton)
    ensures b.kind == a.kind
  {
    if !counts then a
    else match TakePayload(a.consumer)
      case Some(w) =>
        if a.consumingSubscriber then Tell(WriteRequests(a, w), OnNext) else Crash(a)
      case None => WriteAndClose(Dismiss(a, OnError), Completion.ERROR)
  }

  function HandlePayload(a: Automaton, complete: bool, counts: bool): (b: Automaton)
    ensures b.kind == a.kind
  {
    match a.kind
    case RequestResponseRequester =>
      if a.state != REQUESTED then Crash(a)
      else
        var c := a.(state := CLOSED);
        if counts then (if a.consumingSubscriber then CloseStream(Tell(c, OnNext), COMPLETE) else Crash(c))
        else if complete then CloseStream(c, COMPLETE)
        else WriteAndClose(c, Completion.ERROR)
    case StreamRequester => HandleStreamPayload(a, complete, counts)
    case ChannelRequester => HandleStreamPayload(a, complete, counts)
    case ChannelResponder => HandleStreamPayload(a, complete, counts)
    case _ => a
  }

  function HandleStreamPayload(a: Automaton, complete: bool, counts: bool): (b: Automaton)
    ensures b.kind == a.kind
  {
    if a.state == NEW then Crash(a)
    else
      var end := complete && a.state != CLOSED;
      var c := ProcessPayload(if end then a.(state := CLOSED) else a, counts);
      if end then CloseStream(c, COMPLETE) else c
  }

  function HandleError(a: Automaton): Automaton {
    if !Requests(a.kind) || a.state == CLOSED then a
    else if a.state == NEW then Crash(a)
    else CloseStream(Dismiss(a.(state := CLOSED), OnError), Completion.ERROR)
  }

  function HandleCancel(a: Automaton): Automaton {
    if Requests(a.kind) || a.state == CLOSED then a
    else CloseStream(a.(state := CLOSED), Completion.CANCEL)
  }

  function HandleRequestN(a: Automaton, n: Size): Automaton {
    if Publishes(a.kind) then
      a.(publisher := ProcessRequestN(a.publisher.(subscribed := a.producingSubscription), n))
    else a
  }

  // ---- Runs ----

  datatype Event =
    | AppRequest(n: Count) | AppCancel | AppAttach | AppSubscribe | AppNext | AppComplete | AppError
    | PeerPayload(complete: bool, counts: bool) | PeerError | PeerCancel | PeerRequestN(credit: Size)
    | ConnectionCloses(why: Completion)

  /** The endings that the connection itself gives to its streams. */
  predicate OfConnection(why: Completion) {
    why != Completion.CANCEL && why != COMPLETE && why != APPLICATION_ERROR
  }

  /** The application calls what it holds, subscribes once on each side, and may go on calling when the stream is gone;
      frames and endings of the connection only find streams in the map. */
  predicate Enabled(a: Automaton, e: Event) {
    && !a.crashed
    && match e
       case AppRequest(_) => Consumes(a.kind) && a.attached
       case AppCancel => Consumes(a.kind) && a.attached
       case AppAttach => a.kind == ChannelResponder && !a.attached
       case AppSubscribe => Publishes(a.kind) && !a.hooked
       case AppNext => Publishes(a.kind) && a.hooked
       case AppComplete => Publishes(a.kind) && a.hooked
       case AppError => Publishes(a.kind) && a.hooked
       case ConnectionCloses(why) => a.registered && OfConnection(why)
       case _ => a.registered
  }

  function Step(a: Automaton, e: Event): (b: Automaton)
    ensures b.kind == a.kind
  {
    match e
    case AppRequest(n) => Request(a, n)
    case AppCancel => Cancel(a)
    case AppAttach => Attach(a)
    case AppSubscribe => OnSubscribe(a)
    case AppNext => OnNextPayload(a)
    case AppComplete => OnCompleted(a)
    case AppError => OnFailed(a)
    case PeerPayload(complete, counts) => HandlePayload(a, complete, counts)
    case PeerError => HandleError(a)
    case PeerCancel => HandleCancel(a)
    case PeerRequestN(n) => HandleRequestN(a, n)
    case ConnectionCloses(why) => CloseStream(a, why)
  }

  predicate IsRun(a: Automaton, events: seq<Event>)
    decreases |events|
  {
    events == [] || (Enabled(a, events[0]) && IsRun(Step(a, events[0]), events[1..]))
  }

  function After(a: Automaton, events: seq<Event>): Automaton
    decreases |events|
  {
    if events == [] then a else After(Step(a, events[0]), events[1..])
  }
}
