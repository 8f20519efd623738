/** The credit that `FlowControl` moves between two endpoints is the credit that the stream automata move: step by step,
    with the same frames. */
module CreditRefinement {
  import opened Frames
  import opened Allowances
  import opened Credits
  import opened StreamAutomata
  import FlowControl

  /** The credit frames among the frames of a stream. */
  function CreditFrames(written: seq<Out>): seq<FlowControl.Credit> {
    if written == [] then []
    else
      CreditFrames(written[..|written| - 1]) + Credited(written[|written| - 1])
  }

  function Credited(out: Out): seq<FlowControl.Credit> {
    match out
    case Open(n) => [FlowControl.Start(n)]
    case RequestN(n) => [FlowControl.More(n)]
    case _ => []
  }

  predicate SameMode(kind: Kind, mode: FlowControl.Mode) {
    match kind
    case StreamRequester => mode == FlowControl.STREAM
    case ChannelRequester => mode == FlowControl.CHANNEL
    case ChannelResponder => mode == FlowControl.CHANNEL_BACK
    case _ => false
  }

  /** The consuming side of the flow is automaton `a`, which has written `a.written` so far; `sent` is all credit that
      was ever put on the wire. */
  predicate Mirrors(a: Automaton, f: FlowControl.Flow, sent: seq<FlowControl.Credit>) {
    && SameMode(a.kind, f.mode)
    && a.registered && a.consumingSubscriber == a.attached && !a.crashed && !f.failed
    && a.state == (if a.kind == ChannelResponder then RESPONDING else if f.started then REQUESTED else NEW)
    && f.consumer == a.consumer && f.early == a.early
    && (a.kind == ChannelResponder ==> f.started)
    && sent == CreditFrames(a.written)
  }

  lemma OneMore(written: seq<Out>, out: Out)
    ensures CreditFrames(written + [out]) == CreditFrames(written) + Credited(out)
  {
    assert (written + [out])[..|written|] == written;
  }

  /** What an automaton writes when it syncs is what the flow puts on the wire. */
  lemma SyncAgrees(a: Automaton, f: FlowControl.Flow, w: Written, sent: seq<FlowControl.Credit>)
    requires sent == CreditFrames(a.written) && |w.requests| <= 1
    ensures var b, g := WriteRequests(a, w), FlowControl.Sent(f, w);
      && b.consumer == g.consumer
      && |g.wire| >= |f.wire| && g.wire[..|f.wire|] == f.wire
      && CreditFrames(b.written) == sent + g.wire[|f.wire|..]
      && b == a.(consumer := b.consumer, written := b.written)
      && g == f.(consumer := g.consumer, wire := g.wire)
  {
    if w.requests == [] {
      assert a.written + [] == a.written;
    } else {
      OneMore(a.written, RequestN(w.requests[0]));
      assert w.requests[1..] == [] && FlowControl.Mores([]) == [];
    }
  }

  lemma OpenAgrees(a: Automaton, f: FlowControl.Flow, initial: Size, remaining: Size, sent: seq<FlowControl.Credit>)
    requires f.consumer == a.consumer && sent == CreditFrames(a.written)
    ensures var b, g := OpenStream(a, initial, remaining), FlowControl.Opened(f, initial, remaining);
      && b.consumer == g.consumer
      && |g.wire| >= |f.wire| && g.wire[..|f.wire|] == f.wire
      && CreditFrames(b.written) == sent + g.wire[|f.wire|..]
      && b == a.(state := REQUESTED, consumer := b.consumer, written := b.written)
      && g == f.(started := true, consumer := g.consumer, wire := g.wire)
  {
    hide GenerateRequest, WriteRequests, FlowControl.Sent, CreditFrames, OpenStream, FlowControl.Opened;
    var start := initial % 0x1_0000_0000;
    FirstFrame(a, f, initial, sent);
    if remaining > 0 {
      var c, o := OpenStream(a, initial, 0), FlowControl.Opened(f, initial, 0);
      OpenWithMore(c, o, start, remaining, sent, f.wire);
      ThenMore(a, f, initial, remaining);
    }
  }

  lemma FirstFrame(a: Automaton, f: FlowControl.Flow, initial: Size, sent: seq<FlowControl.Credit>)
    requires f.consumer == a.consumer && sent == CreditFrames(a.written)
    ensures var c, o, start := OpenStream(a, initial, 0), FlowControl.Opened(f, initial, 0),
                               FlowControl.Start(initial % 0x1_0000_0000);
      && c.consumer == o.consumer && o.wire == f.wire + [start] && CreditFrames(c.written) == sent + [start]
      && o.wire[..|f.wire|] == f.wire && sent + o.wire[|f.wire|..] == sent + [start]
      && c == a.(state := REQUESTED, consumer := c.consumer, written := c.written)
      && o == f.(started := true, consumer := o.consumer, wire := o.wire)
  {
    hide CreditFrames, AddImplicitAllowance;
    OneMore(a.written, Open(initial % 0x1_0000_0000));
    OneStep(sent, f.wire, FlowControl.Start(initial % 0x1_0000_0000));
  }

  lemma ThenMore(a: Automaton, f: FlowControl.Flow, initial: Size, remaining: Size)
    requires remaining > 0
    ensures var c, o := OpenStream(a, initial, 0), FlowControl.Opened(f, initial, 0);
      && OpenStream(a, initial, remaining) == WriteRequests(c, GenerateRequest(c.consumer, remaining))
      && FlowControl.Opened(f, initial, remaining) == FlowControl.Sent(o, GenerateRequest(o.consumer, remaining))
  {
  }

  lemma OpenWithMore(c: Automaton, o: FlowControl.Flow, start: Size, remaining: Size, sent: seq<FlowControl.Credit>,
                     wire: seq<FlowControl.Credit>)
    requires o.consumer == c.consumer && o.wire == wire + [FlowControl.Start(start)]
    requires CreditFrames(c.written) == sent + [FlowControl.Start(start)]
    ensures var b, g := WriteRequests(c, GenerateRequest(c.consumer, remaining)),
                        FlowControl.Sent(o, GenerateRequest(c.consumer, remaining));
      && b.consumer == g.consumer
      && |g.wire| >= |wire| && g.wire[..|wire|] == wire
      && CreditFrames(b.written) == sent + g.wire[|wire|..]
      && b == c.(consumer := b.consumer, written := b.written)
      && g == o.(consumer := g.consumer, wire := g.wire)
  {
    hide GenerateRequest, WriteRequests, FlowControl.Sent, CreditFrames;
    AtMostOne(c.consumer, remaining);
    SyncAgrees(c, o, GenerateRequest(c.consumer, remaining), sent + [FlowControl.Start(start)]);
    TwoSteps(sent, wire, FlowControl.Start(start), FlowControl.Sent(o, GenerateRequest(c.consumer, remaining)).wire);
  }

  lemma OneStep(sent: seq<FlowControl.Credit>, a: seq<FlowControl.Credit>, c: FlowControl.Credit)
    ensures (a + [c])[..|a|] == a && sent + (a + [c])[|a|..] == sent + [c]
  {
  }

  lemma TwoSteps(sent: seq<FlowControl.Credit>, a: seq<FlowControl.Credit>, c: FlowControl.Credit, b: seq<FlowControl.Credit>)
    requires |b| > |a| && b[..|a| + 1] == a + [c]
    ensures b[..|a|] == a && sent + [c] + b[|a| + 1..] == sent + b[|a|..]
  {
    assert b[..|a|] == b[..|a| + 1][..|a|];
    assert b[|a|] == b[..|a| + 1][|a|];
  }

  lemma AtMostOne(c: Consumer, n: Size)
    ensures |GenerateRequest(c, n).requests| <= 1 && |SendRequests(c).requests| <= 1
  {
  }

  /** A request of the subscriber. */
  lemma RequestRefines(a: Automaton, f: FlowControl.Flow, n: Count, sent: seq<FlowControl.Credit>)
    requires Mirrors(a, f, sent)
    ensures var b, g := Request(a, n), FlowControl.Request(f, n);
      && |g.wire| >= |f.wire| && g.wire[..|f.wire|] == f.wire
      && Mirrors(b, g, sent + g.wire[|f.wire|..]) && b.signals == a.signals
  {
    hide GenerateRequest, OpenStream, FlowControl.Opened, WriteRequests, FlowControl.Sent;
    assert sent + f.wire[|f.wire|..] == sent;
    AtMostOne(a.consumer, AsSize(n));
    if f.started {
      SyncAgrees(a, f.(demand := f.demand + AsSize(n)), GenerateRequest(a.consumer, AsSize(n)), sent);
    } else if a.kind == StreamRequester {
      OpenAgrees(a, f.(demand := f.demand + AsSize(n)), InitialPart(n), RemainingPart(n), sent);
    }
  }

  /** The first payload of a channel. */
  lemma FirstPayloadRefines(a: Automaton, f: FlowControl.Flow, sent: seq<FlowControl.Credit>)
    requires Mirrors(a, f, sent) && a.kind == ChannelRequester && a.state == NEW && a.early < INFINITE
    ensures var b, g := OnNextPayload(a), FlowControl.FirstPayload(f);
      && |g.wire| >= |f.wire| && g.wire[..|f.wire|] == f.wire
      && Mirrors(b, g, sent + g.wire[|f.wire|..]) && b.signals == a.signals
  {
    hide OpenStream, FlowControl.Opened;
    var initial := Drained(a.early, MAX_REQUEST_N);
    OpenAgrees(a.(early := 0), f.(early := 0), initial, a.early - initial, sent);
  }

  /** A payload of the peer within the allowance, which does not complete the stream. */
  lemma PayloadRefines(a: Automaton, f: FlowControl.Flow, sent: seq<FlowControl.Credit>)
    requires Mirrors(a, f, sent) && f.started && f.inFlight > 0 && a.attached && a.consumer.allowance >= 1
    ensures var b, g := HandlePayload(a, false, true), FlowControl.Apply(f, FlowControl.PayloadArrives);
      && |g.wire| >= |f.wire| && g.wire[..|f.wire|] == f.wire
      && Mirrors(b, g, sent + g.wire[|f.wire|..]) && b.signals == a.signals + [OnNext]
  {
    hide WriteRequests, FlowControl.Sent, SendRequests;
    var c := a.consumer.(allowance := Acquired(a.consumer.allowance, 1));
    AtMostOne(c, 0);
    SyncAgrees(a, f.(inFlight := f.inFlight - 1, delivered := f.delivered + 1), SendRequests(c), sent);
  }

  /** A payload beyond the allowance: the flow-control error of the flow is an error frame of the automaton, an error to
      its subscriber, and the end of the stream. */
  lemma SurplusRefines(a: Automaton, f: FlowControl.Flow, sent: seq<FlowControl.Credit>)
    requires Mirrors(a, f, sent) && f.started && f.inFlight > 0 && a.consumer.allowance == 0
    ensures FlowControl.Apply(f, FlowControl.PayloadArrives).failed
    ensures var b := HandlePayload(a, false, true);
      && !b.registered && b.signals == a.signals + (if a.attached then [OnError] else [])
      && b.written == a.written + [Close(Completion.ERROR)]
  {
    hide CreditFrames, WriteRequests, SendRequests, FlowControl.Sent, WriteAndClose, Dismiss;
    ErrorEnds(a);
    assert StreamAutomata.ProcessPayload(a, true) == WriteAndClose(Dismiss(a, OnError), Completion.ERROR);
  }

  lemma ErrorEnds(a: Automaton)
    requires a.registered
    ensures var b := WriteAndClose(Dismiss(a, OnError), Completion.ERROR);
      && !b.registered && b.signals == a.signals + (if a.consumingSubscriber then [OnError] else [])
      && b.written == a.written + [Close(Completion.ERROR)]
  {
    hide EndStream;
    var d := Write(Dismiss(a, OnError), Close(Completion.ERROR));
    EndIsSilent(d.(registered := false), Completion.ERROR);
  }

  /** Nothing heard, nothing written, and no change in the map. */
  predicate Silent(a: Automaton, b: Automaton) {
    && b.registered == a.registered && b.signals == a.signals && b.written == a.written
    && b.consumingSubscriber == a.consumingSubscriber
  }

  lemma EndIsSilent(a: Automaton, why: Completion)
    requires !a.consumingSubscriber
    ensures Silent(a, EndStream(a, why))
  {
    hide Shut, TerminatePublisher, Dismiss, Terminate;
    var regular := why == COMPLETE || why == Completion.CANCEL;
    var closed := Shut(a, regular);
    var silent := if Publishes(a.kind) then TerminatePublisher(closed) else closed;
    StepsAreSilent(a, regular, OnComplete);
    StepsAreSilent(closed, regular, OnComplete);
    StepsAreSilent(silent, regular, if regular then OnComplete else OnError);
  }

  lemma StepsAreSilent(a: Automaton, regular: bool, signal: Signal)
    requires !a.consumingSubscriber
    ensures Silent(a, Shut(a, regular)) && Silent(a, TerminatePublisher(a)) && Silent(a, Terminate(a))
    ensures Dismiss(a, signal) == a
  {
  }

  /** The publishing side of the flow is automaton `a`. */
  predicate Provides(a: Automaton, f: FlowControl.Flow) {
    && Publishes(a.kind) && a.registered && !a.terminated
    && f.publisher == Some(a.publisher)
    && a.publisher.subscribed == a.producingSubscription
  }

  /** Credit that arrives, and the subscription of the application. */
  lemma CreditRefines(a: Automaton, f: FlowControl.Flow)
    requires Provides(a, f)
    ensures f.wire != [] && f.wire[0].More? && f.wire[0].n < SIZE_T
      ==> Provides(HandleRequestN(a, f.wire[0].n), FlowControl.Apply(f, FlowControl.CreditArrives))
    ensures !a.publisher.subscribed && (a.kind == ChannelRequester ==> a.state == NEW)
      ==> Provides(OnSubscribe(a), FlowControl.Apply(f, FlowControl.PublisherSubscribes))
  {
  }

  /** The frame that opens the stream creates its publishing side. */
  lemma StartRefines(f: FlowControl.Flow, kind: Kind)
    requires kind == StreamResponder || kind == ChannelResponder
    requires f.wire != [] && f.wire[0].Start? && f.wire[0].n < SIZE_T
    ensures Provides(Created(kind, f.wire[0].n), FlowControl.Apply(f, FlowControl.CreditArrives))
  {
  }

  /** A new stream is where the flow starts. */
  lemma StartsRefine(initialRequestN: Size)
    ensures Mirrors(Created(StreamRequester, initialRequestN), FlowControl.Init(FlowControl.STREAM), [])
    ensures Mirrors(Created(ChannelRequester, initialRequestN), FlowControl.Init(FlowControl.CHANNEL), [])
    ensures Mirrors(Created(ChannelResponder, initialRequestN), FlowControl.Init(FlowControl.CHANNEL_BACK), [])
  {
  }
}
