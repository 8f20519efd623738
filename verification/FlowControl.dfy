/** One direction of a stream between a consuming and a publishing endpoint, joined by frames that arrive in order. */
module FlowControl {
  import opened Frames
  import opened Allowances
  import opened Credits

  /** How the stream is opened: by the first request of a subscriber, by the first payload of a channel, or (the
      reverse direction of a channel) already open. */
  datatype Mode = STREAM | CHANNEL | CHANNEL_BACK

  datatype Credit = Start(n: nat) | More(n: nat)

  /** One direction of a stream between two endpoints.  `wire` and `inFlight` are the credit and payload frames under
      way; `demand`, `delivered` and `produced` record the subscriber's requests, the payloads it got and the payloads
      sent; `failed` is set by a flow-control error. */
  datatype Flow = Flow(mode: Mode, started: bool, early: Size, consumer: Consumer, wire: seq<Credit>,
                       publisher: Option<Publisher>, inFlight: nat, failed: bool,
                       demand: nat, delivered: nat, produced: nat)

  function Init(mode: Mode): Flow {
    Flow(mode, mode == CHANNEL_BACK, 0, Consumer(0, 0), [],
         if mode == CHANNEL_BACK then Some(Publisher(true, 0, 0)) else None, 0, false, 0, 0, 0)
  }

  function Mores(requests: seq<nat>): seq<Credit> {
    if requests == [] then [] else [More(requests[0])] + Mores(requests[1..])
  }

  function Sent(f: Flow, w: Written): Flow {
    f.(consumer := w.to, wire := f.wire + Mores(w.requests))
  }

  /** Opens the stream with `initial` credits, cast to 32 bits in the frame, and asks for the `remaining` ones after
      that. */
  function Opened(f: Flow, initial: Size, remaining: Size): Flow {
    var o := f.(started := true, consumer := AddImplicitAllowance(f.consumer, initial), wire := f.wire + [Start(initial % 0x1_0000_0000)]);
    if remaining > 0 then Sent(o, GenerateRequest(o.consumer, remaining)) else o
  }

  /** The subscriber asks for `n` payloads: `StreamRequester::request`, `ChannelRequester::request`,
      `ChannelResponder::request`. */
  function Request(f: Flow, n: Count): Flow {
    var g := f.(demand := f.demand + AsSize(n));
    match f.mode
    case STREAM =>
      if n == 0 then f
      else if !f.started then Opened(g, InitialPart(n), RemainingPart(n))
      else Sent(g, GenerateRequest(f.consumer, AsSize(n)))
    case CHANNEL =>
      if !f.started then g.(early := Released(f.early, AsSize(n))) else Sent(g, GenerateRequest(f.consumer, AsSize(n)))
    case CHANNEL_BACK => Sent(g, GenerateRequest(f.consumer, AsSize(n)))
  }

  /** The first payload of a channel: the credit gathered so far is drained twice, within the limit and then whole. */
  function FirstPayload(f: Flow): Flow {
    var initial := Drained(f.early, MAX_REQUEST_N);
    var left := Undrained(f.early, MAX_REQUEST_N);
    Opened(f.(early := Undrained(left, INFINITE)), initial, Drained(left, INFINITE))
  }

  datatype Action =
    | Demand(n: Count) | OpenChannel | CreditArrives | PublisherSubscribes | Produce | Surplus | PayloadArrives

  /** Rule 3.9 of Reactive Streams does not let a subscriber ask for a negative number.  `Produce` is a payload within
      the credit of the publisher, `Surplus` one of a responder that ignores it. */
  predicate Enabled(f: Flow, a: Action) {
    match a
    case Demand(n) => n >= 0
    case OpenChannel => f.mode == CHANNEL && !f.started
    case CreditArrives => f.wire != [] && f.wire[0].n < SIZE_T && (f.wire[0].More? ==> f.publisher.Some?)
    case PublisherSubscribes => f.publisher.Some? && !f.publisher.value.subscribed
    case Produce => f.publisher.Some? && f.produced < f.publisher.value.granted
    case Surplus => f.publisher.Some?
    case PayloadArrives => f.inFlight > 0 && f.started && !f.failed
  }

  function Apply(f: Flow, a: Action): Flow
    requires Enabled(f, a)
  {
    match a
    case Demand(n) => Request(f, n)
    case OpenChannel => FirstPayload(f)
    case CreditArrives =>
      var credit := f.wire[0];
      f.(wire := f.wire[1..],
         publisher := Some(if credit.Start? then Publisher(false, credit.n, 0)
                           else ProcessRequestN(f.publisher.value, credit.n)))
    case PublisherSubscribes => f.(publisher := Some(Subscribed(f.publisher.value)))
    case Produce => f.(produced := f.produced + 1, inFlight := f.inFlight + 1)
    case Surplus => f.(produced := f.produced + 1, inFlight := f.inFlight + 1)
    case PayloadArrives =>
      match TakePayload(f.consumer)
      case Some(w) => Sent(f.(inFlight := f.inFlight - 1, delivered := f.delivered + 1), w)
      case None => f.(inFlight := f.inFlight - 1, failed := true)
  }

  predicate IsRun(f: Flow, actions: seq<Action>)
    decreases |actions|
  {
    actions == [] || (Enabled(f, actions[0]) && IsRun(Apply(f, actions[0]), actions[1..]))
  }

  function After(f: Flow, actions: seq<Action>): Flow
    requires IsRun(f, actions)
    decreases |actions|
  {
    if actions == [] then f else After(Apply(f, actions[0]), actions[1..])
  }

  predicate WellBehaved(actions: seq<Action>) {
    forall a | a in actions :: !a.Surplus?
  }
}
