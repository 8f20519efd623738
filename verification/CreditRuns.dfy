/** Every run of a consuming stream automaton is, as far as credit goes, a run of the flow-control model: what is proved
    about all runs of that model holds of the automata. */
module CreditRuns {
  import opened Frames
  import opened Allowances
  import opened Credits
  import opened StreamAutomata
  import opened CreditRefinement
  import StreamLaws
  import FlowControl
  import FlowControlLaws

  /** The sum of the requests of the subscriber. */
  function DemandOf(events: seq<Event>): nat {
    if events == [] then 0 else DemandOfOne(events[0]) + DemandOf(events[1..])
  }

  function DemandOfOne(e: Event): nat {
    if e.AppRequest? then AsSize(e.n) else 0
  }

  predicate NoNegativeRequests(events: seq<Event>) {
    forall e | e in events :: e.AppRequest? ==> e.n >= 0
  }

  /** What the flow does for an event that leaves the automaton in the map: a payload is preceded by the arrival of the
      opening frame, if that is still under way, and by its own production, within the responder's credit or not. */
  function Actions(a: Automaton, f: FlowControl.Flow, e: Event): seq<FlowControl.Action> {
    match e
    case AppRequest(n) => [FlowControl.Demand(n)]
    case AppNext => if a.kind == ChannelRequester && a.state == NEW then [FlowControl.OpenChannel] else []
    case PeerPayload(complete, counts) =>
      if !counts then []
      else (if f.publisher.None? then [FlowControl.CreditArrives] else []) + [FlowControl.Surplus, FlowControl.PayloadArrives]
    case _ => []
  }

  /** The automaton and the flow go together: same credit, same frames, same counts. */
  ghost predicate Together(a: Automaton, f: FlowControl.Flow, sent: seq<FlowControl.Credit>) {
    && Mirrors(a, f, sent) && StreamLaws.Ok(a) && FlowControlLaws.DemandOk(f)
    && FlowControlLaws.Total(sent) == FlowControlLaws.Told(f)
    && f.delivered == |a.signals|
    && forall c | c in sent :: FlowControlLaws.Carried(c)
  }

  // ---- Runs ----

  lemma {:induction false} RunsJoin(f: FlowControl.Flow, xs: seq<FlowControl.Action>, ys: seq<FlowControl.Action>)
    requires FlowControl.IsRun(f, xs) && FlowControl.IsRun(FlowControl.After(f, xs), ys)
    ensures FlowControl.IsRun(f, xs + ys)
    ensures FlowControl.After(f, xs + ys) == FlowControl.After(FlowControl.After(f, xs), ys)
    decreases |xs|
  {
    hide FlowControl.Apply, FlowControl.Enabled;
    if xs == [] {
      assert xs + ys == ys;
    } else {
      assert (xs + ys)[0] == xs[0] && (xs + ys)[1..] == xs[1..] + ys;
      RunsJoin(FlowControl.Apply(f, xs[0]), xs[1..], ys);
    }
  }

  lemma RunOfOne(f: FlowControl.Flow, x: FlowControl.Action)
    requires FlowControl.Enabled(f, x)
    ensures FlowControl.IsRun(f, [x]) && FlowControl.After(f, [x]) == FlowControl.Apply(f, x)
  {
    hide FlowControl.Apply, FlowControl.Enabled;
    assert [x][1..] == [];
  }

  // ---- One event ----

  /** An event that changes neither credit nor frames nor signals. */
  lemma Stutters(a: Automaton, b: Automaton, f: FlowControl.Flow, sent: seq<FlowControl.Credit>)
    requires Together(a, f, sent) && StreamLaws.Ok(b) && !b.crashed
    requires b.kind == a.kind && b.registered && b.state == a.state && b.consumer == a.consumer && b.early == a.early
    requires b.signals == a.signals && CreditFrames(b.written) == CreditFrames(a.written)
    ensures Together(b, f, sent)
  {
    hide CreditFrames;
  }

  /** The sum of the credit that a step adds. */
  lemma MoreSent(sent: seq<FlowControl.Credit>, f: FlowControl.Flow, g: FlowControl.Flow)
    requires FlowControlLaws.Total(sent) == FlowControlLaws.Told(f)
    requires |g.wire| >= |f.wire| && g.wire[..|f.wire|] == f.wire && g.publisher == f.publisher
    requires (forall c | c in sent :: FlowControlLaws.Carried(c)) && (forall c | c in g.wire :: FlowControlLaws.Carried(c))
    ensures FlowControlLaws.Total(sent + g.wire[|f.wire|..]) == FlowControlLaws.Told(g)
    ensures forall c | c in sent + g.wire[|f.wire|..] :: FlowControlLaws.Carried(c)
  {
    var more := g.wire[|f.wire|..];
    FlowControlLaws.TotalAppends(sent, more);
    FlowControlLaws.TotalAppends(f.wire, more);
    assert g.wire == f.wire + more;
  }

  lemma RequestTogether(a: Automaton, f: FlowControl.Flow, sent: seq<FlowControl.Credit>, n: Count)
    requires Together(a, f, sent) && Enabled(a, AppRequest(n)) && n >= 0 && f.demand + n < INFINITE
    ensures var b, g := Request(a, n), FlowControl.Request(f, n);
      |g.wire| >= |f.wire| && Together(b, g, sent + g.wire[|f.wire|..]) && g.demand == f.demand + n
  {
    hide Request, FlowControl.Request, Mirrors, FlowControlLaws.ConsumerOk, FlowControlLaws.InOrder,
         FlowControlLaws.Told, FlowControlLaws.Carried, StreamLaws.Ok;
    RequestRefines(a, f, n, sent);
    StreamLaws.RequestOk(a, n);
    FlowControlLaws.RequestOk(f, n);
    var g := FlowControl.Request(f, n);
    AllCarried(g);
    MoreSent(sent, f, g);
  }

  lemma AllCarried(f: FlowControl.Flow)
    requires FlowControlLaws.ConsumerOk(f)
    ensures forall c | c in f.wire :: FlowControlLaws.Carried(c)
  {
  }

  lemma FirstPayloadTogether(a: Automaton, f: FlowControl.Flow, sent: seq<FlowControl.Credit>)
    requires Together(a, f, sent) && Enabled(a, AppNext) && a.kind == ChannelRequester && a.state == NEW
    requires a.early < INFINITE && f.demand < INFINITE
    ensures FlowControl.Enabled(f, FlowControl.OpenChannel)
    ensures var b, g := OnNextPayload(a), FlowControl.FirstPayload(f);
      |g.wire| >= |f.wire| && Together(b, g, sent + g.wire[|f.wire|..]) && g.demand == f.demand
  {
    hide OnNextPayload, FlowControl.FirstPayload, FlowControlLaws.ConsumerOk, FlowControlLaws.InOrder,
         FlowControlLaws.Told, FlowControlLaws.Carried, StreamLaws.Ok, CreditFrames;
    FirstPayloadRefines(a, f, sent);
    StreamLaws.OnNextPayloadOk(a);
    FlowControlLaws.FirstPayloadOk(f);
    var g := FlowControl.FirstPayload(f);
    AllCarried(g);
    MoreSent(sent, f, g);
  }

  /** The opening frame has arrived before a payload comes back. */
  lemma Arrives(a: Automaton, f: FlowControl.Flow, sent: seq<FlowControl.Credit>) returns (g: FlowControl.Flow)
    requires Together(a, f, sent) && f.started && f.demand < INFINITE
    ensures var before := if f.publisher.None? then [FlowControl.CreditArrives] else [];
      FlowControl.IsRun(f, before) && g == FlowControl.After(f, before)
    ensures Together(a, g, sent) && g.started && g.publisher.Some? && g.demand == f.demand
  {
    hide FlowControlLaws.Told, CreditFrames, StreamLaws.Ok;
    g := f;
    if f.publisher.None? {
      assert f.wire[0] in f.wire && FlowControlLaws.Carried(f.wire[0]);
      FlowControlLaws.CreditArrivesOk(f);
      FlowControlLaws.StepDemandOk(f, FlowControl.CreditArrives);
      RunOfOne(f, FlowControl.CreditArrives);
      g := FlowControl.Apply(f, FlowControl.CreditArrives);
    }
  }

  /** A payload within the allowance. */
  lemma PayloadTogether(a: Automaton, f: FlowControl.Flow, sent: seq<FlowControl.Credit>)
    requires Together(a, f, sent) && a.attached && a.consumer.allowance >= 1
    requires f.started && f.publisher.Some? && f.demand < INFINITE
    ensures var last := [FlowControl.Surplus, FlowControl.PayloadArrives];
      FlowControl.IsRun(f, last) && (
        var b, g := HandlePayload(a, false, true), FlowControl.After(f, last);
        StreamLaws.Ok(b) && !b.crashed ==>
          |g.wire| >= |f.wire| && Together(b, g, sent + g.wire[|f.wire|..]) && g.demand == f.demand)
  {
    hide HandlePayload, FlowControlLaws.InOrder, FlowControlLaws.Told, FlowControlLaws.Carried, StreamLaws.Ok, CreditFrames,
         FlowControl.Sent, SendRequests;
    var h := FlowControl.Apply(f, FlowControl.Surplus);
    FlowControlLaws.StepDemandOk(f, FlowControl.Surplus);
    PayloadRefines(a, h, sent);
    FlowControlLaws.PayloadArrivesOk(h);
    FlowControlLaws.StepDemandOk(h, FlowControl.PayloadArrives);
    var g := FlowControl.Apply(h, FlowControl.PayloadArrives);
    RunOfOne(f, FlowControl.Surplus);
    RunOfOne(h, FlowControl.PayloadArrives);
    RunsJoin(f, [FlowControl.Surplus], [FlowControl.PayloadArrives]);
    assert [FlowControl.Surplus] + [FlowControl.PayloadArrives] == [FlowControl.Surplus, FlowControl.PayloadArrives];
    SameTold(f, h);
    AllCarried(g);
    MoreSent(sent, h, g);
  }

  lemma SameTold(f: FlowControl.Flow, h: FlowControl.Flow)
    requires h.wire == f.wire && h.publisher == f.publisher
    ensures FlowControlLaws.Told(h) == FlowControlLaws.Told(f)
  {
  }

  /** The events that always take an open consuming stream out of the map. */
  lemma Leaves(a: Automaton, e: Event)
    requires a.kind == StreamRequester || a.kind == ChannelRequester || a.kind == ChannelResponder
    requires a.registered && a.state != CLOSED && !Step(a, e).crashed
    requires e.AppCancel? || e.AppComplete? || e.AppError? || e.ConnectionCloses? || (e.PeerPayload? && e.complete)
      || (e.PeerError? && Requests(a.kind)) || (e.PeerCancel? && !Requests(a.kind))
    ensures !Step(a, e).registered
  {
    hide EndStream, ProcessPayload, CloseStream, Dismiss;
  }

  /** The events that touch neither credit nor signals. */
  predicate Quiet(a: Automaton, e: Event) {
    || e.AppAttach? || e.AppSubscribe? || e.PeerRequestN? || (e.PeerError? && !Requests(a.kind))
    || (e.PeerCancel? && Requests(a.kind)) || (e.PeerPayload? && !e.complete && !e.counts)
    || (e.AppNext? && !(a.kind == ChannelRequester && a.state == NEW))
  }

  lemma NothingToDo(a: Automaton, f: FlowControl.Flow, sent: seq<FlowControl.Credit>, e: Event)
    requires Together(a, f, sent) && Enabled(a, e) && StreamLaws.Ok(Step(a, e)) && !Step(a, e).crashed
    requires Quiet(a, e)
    ensures Together(Step(a, e), f, sent)
  {
    hide Subscribed, ProcessRequestN, CreditFrames, StreamLaws.Ok, FlowControlLaws.DemandOk, FlowControlLaws.Told,
         FlowControlLaws.Total;
    var b := Step(a, e);
    OkRegistered(a);
    if e.AppNext? {
      OneMore(a.written, Payload(false));
    }
    Stutters(a, b, f, sent);
  }

  lemma OkRegistered(a: Automaton)
    requires StreamLaws.Ok(a)
    ensures a.registered <==> a.state != CLOSED
    ensures a.registered ==> !a.terminated
    ensures a.consumer.allowance > 0 ==> a.attached
  {
  }

  /** What the automaton and the flow do for one event. */
  lemma StepTogether(a: Automaton, f: FlowControl.Flow, sent: seq<FlowControl.Credit>, e: Event)
      returns (sent': seq<FlowControl.Credit>)
    requires Together(a, f, sent) && Enabled(a, e) && !StreamLaws.Fatal(a, e) && Step(a, e).registered
    requires (e.AppRequest? ==> e.n >= 0) && f.demand + DemandOfOne(e) < INFINITE
    ensures FlowControl.IsRun(f, Actions(a, f, e))
    ensures var g := FlowControl.After(f, Actions(a, f, e));
      Together(Step(a, e), g, sent') && g.demand == f.demand + DemandOfOne(e)
  {
    hide StreamLaws.Ok, FlowControlLaws.DemandOk, CreditFrames, FlowControl.Apply, FlowControlLaws.Told,
         FlowControl.IsRun, FlowControl.After, FlowControl.Init;
    hide Request, Cancel, Attach, OnSubscribe, OnNextPayload, OnCompleted, OnFailed, HandlePayload, HandleError,
         HandleCancel, HandleRequestN, CloseStream;
    StreamLaws.StepOk(a, e);
    OkRegistered(a);
    sent' := sent;
    if Quiet(a, e) {
      NothingToDo(a, f, sent, e);
      NoActions(f);
    } else {
      match e
      case AppRequest(n) => sent' := RequestStep(a, f, sent, n);
      case AppNext => sent' := FirstPayloadStep(a, f, sent);
      case PeerPayload(complete, counts) =>
        if complete {
          Leaves(a, e);
        } else {
          sent' := PayloadStep(a, f, sent);
        }
      case _ => Leaves(a, e);
    }
  }

  lemma RequestStep(a: Automaton, f: FlowControl.Flow, sent: seq<FlowControl.Credit>, n: Count)
      returns (sent': seq<FlowControl.Credit>)
    requires Together(a, f, sent) && Enabled(a, AppRequest(n)) && n >= 0 && f.demand + n < INFINITE
    ensures FlowControl.IsRun(f, [FlowControl.Demand(n)])
    ensures var g := FlowControl.After(f, [FlowControl.Demand(n)]);
      Together(Request(a, n), g, sent') && g.demand == f.demand + n
  {
    hide Request, FlowControl.Request, Together;
    RequestTogether(a, f, sent, n);
    RunOfOne(f, FlowControl.Demand(n));
    sent' := sent + FlowControl.Request(f, n).wire[|f.wire|..];
  }

  lemma FirstPayloadStep(a: Automaton, f: FlowControl.Flow, sent: seq<FlowControl.Credit>)
      returns (sent': seq<FlowControl.Credit>)
    requires Together(a, f, sent) && Enabled(a, AppNext) && a.kind == ChannelRequester && a.state == NEW
    requires a.early < INFINITE && f.demand < INFINITE
    ensures FlowControl.IsRun(f, [FlowControl.OpenChannel])
    ensures var g := FlowControl.After(f, [FlowControl.OpenChannel]);
      Together(OnNextPayload(a), g, sent') && g.demand == f.demand
  {
    hide OnNextPayload, FlowControl.FirstPayload, Together;
    FirstPayloadTogether(a, f, sent);
    RunOfOne(f, FlowControl.OpenChannel);
    sent' := sent + FlowControl.FirstPayload(f).wire[|f.wire|..];
  }

  lemma PayloadStep(a: Automaton, f: FlowControl.Flow, sent: seq<FlowControl.Credit>)
      returns (sent': seq<FlowControl.Credit>)
    requires Together(a, f, sent) && a.state != NEW && f.demand < INFINITE
    requires StreamLaws.Ok(HandlePayload(a, false, true)) && !HandlePayload(a, false, true).crashed
    requires HandlePayload(a, false, true).registered
    ensures var actions := Actions(a, f, PeerPayload(false, true));
      FlowControl.IsRun(f, actions) && (
        var g := FlowControl.After(f, actions);
        Together(HandlePayload(a, false, true), g, sent') && g.demand == f.demand)
  {
    hide HandlePayload, StreamLaws.Ok, FlowControlLaws.DemandOk, FlowControlLaws.Told, CreditFrames,
         FlowControl.IsRun, FlowControl.After;
    var g := Arrives(a, f, sent);
    OkRegistered(a);
    if a.consumer.allowance == 0 {
      SurplusRefines(a, FlowControl.Apply(g, FlowControl.Surplus), sent);
      assert false;
    }
    PayloadTogether(a, g, sent);
    var before := if f.publisher.None? then [FlowControl.CreditArrives] else [];
    var last := [FlowControl.Surplus, FlowControl.PayloadArrives];
    RunsJoin(f, before, last);
    sent' := sent + FlowControl.After(g, last).wire[|g.wire|..];
  }

  // ---- Whole runs ----

  /** A run of the automaton that ends in the map is a run of the flow. */
  lemma {:induction false} RunTogether(a: Automaton, f: FlowControl.Flow, sent: seq<FlowControl.Credit>, events: seq<Event>)
      returns (actions: seq<FlowControl.Action>, sent': seq<FlowControl.Credit>)
    requires Together(a, f, sent) && IsRun(a, events) && NoNegativeRequests(events)
    requires After(a, events).registered && !After(a, events).crashed && f.demand + DemandOf(events) < INFINITE
    ensures FlowControl.IsRun(f, actions)
    ensures var g := FlowControl.After(f, actions);
      Together(After(a, events), g, sent') && g.demand == f.demand + DemandOf(events)
    decreases |events|
  {
    hide Step, Together, FlowControl.Apply, Actions, FlowControl.IsRun, FlowControl.After;
    if events == [] {
      actions, sent' := [], sent;
      NoActions(f);
    } else {
      var e := events[0];
      StaysRegistered(a, f, sent, events);
      assert NoNegativeRequests(events[1..]) by {
        assert forall x | x in events[1..] :: x in events;
      }
      var first := Actions(a, f, e);
      var sent1 := StepTogether(a, f, sent, e);
      var later;
      later, sent' := RunTogether(Step(a, e), FlowControl.After(f, first), sent1, events[1..]);
      RunsJoin(f, first, later);
      actions := first + later;
    }
  }

  lemma NoActions(f: FlowControl.Flow)
    ensures FlowControl.IsRun(f, []) && FlowControl.After(f, []) == f
  {
  }

  /** What is in the map at the end of a run was there all along, and no check failed on the way. */
  lemma StaysRegistered(a: Automaton, f: FlowControl.Flow, sent: seq<FlowControl.Credit>, events: seq<Event>)
    requires Together(a, f, sent) && IsRun(a, events) && events != []
    requires After(a, events).registered && !After(a, events).crashed
    ensures !StreamLaws.Fatal(a, events[0]) && Step(a, events[0]).registered
  {
    hide Step, StreamLaws.Ok, StreamLaws.Fatal;
    var b := Step(a, events[0]);
    StreamLaws.StepOk(a, events[0]);
    if StreamLaws.Fatal(a, events[0]) {
      StreamLaws.CrashIsLast(b, events[1..]);
    } else if !b.registered {
      StreamLaws.SilentRun(b, events[1..]);
    }
  }

  /** Over every run of a stream requester, a channel requester or a channel responder that is still in the map, with a
      finite demand and whatever the peer does: the credit in the frames it has written and the credit it still owes are
      the demand of its subscriber, the allowance is the demand less the payloads delivered, and every credit frame is
      one that the wire can carry. */
  lemma AutomataConserveCredit(kind: Kind, initialRequestN: Size, events: seq<Event>)
    requires kind == StreamRequester || kind == ChannelRequester || kind == ChannelResponder
    requires IsRun(Created(kind, initialRequestN), events) && NoNegativeRequests(events)
    requires var a := After(Created(kind, initialRequestN), events); a.registered && !a.crashed
    requires DemandOf(events) < INFINITE
    ensures var a := After(Created(kind, initialRequestN), events);
      && (a.state != NEW ==>
            && FlowControlLaws.Total(CreditFrames(a.written)) + a.consumer.pending == DemandOf(events)
            && a.consumer.allowance == DemandOf(events) - |a.signals|)
      && |a.signals| <= DemandOf(events)
      && forall c | c in CreditFrames(a.written) :: FlowControlLaws.Carried(c)
  {
    hide *;
    var mode := ModeOf(kind);
    var a, f := Created(kind, initialRequestN), FlowControl.Init(mode);
    StartsTogether(kind, initialRequestN);
    var actions, sent := RunTogether(a, f, [], events);
    FlowControlLaws.CreditIsConserved(mode, actions);
    CarriesOver(After(a, events), FlowControl.After(f, actions), sent);
  }

  function ModeOf(kind: Kind): FlowControl.Mode {
    if kind == StreamRequester then FlowControl.STREAM
    else if kind == ChannelRequester then FlowControl.CHANNEL
    else FlowControl.CHANNEL_BACK
  }

  lemma StartsTogether(kind: Kind, initialRequestN: Size)
    requires kind == StreamRequester || kind == ChannelRequester || kind == ChannelResponder
    ensures Together(Created(kind, initialRequestN), FlowControl.Init(ModeOf(kind)), [])
    ensures FlowControl.Init(ModeOf(kind)).demand == 0
  {
    hide StreamLaws.Ok, FlowControlLaws.DemandOk, Mirrors, FlowControlLaws.Told, FlowControlLaws.Carried;
    StartsRefine(initialRequestN);
    StreamLaws.CreatedOk(kind, initialRequestN);
    FlowControlLaws.InitOk(ModeOf(kind));
    FlowControlLaws.NothingTold(FlowControl.Init(ModeOf(kind)));
  }

  lemma CarriesOver(a: Automaton, f: FlowControl.Flow, sent: seq<FlowControl.Credit>)
    requires Together(a, f, sent)
    requires f.started ==> FlowControlLaws.Told(f) + f.consumer.pending == f.demand
    requires f.started ==> f.consumer.allowance == f.demand - f.delivered
    requires f.delivered <= f.demand
    ensures a.state != NEW ==>
      && FlowControlLaws.Total(CreditFrames(a.written)) + a.consumer.pending == f.demand
      && a.consumer.allowance == f.demand - |a.signals|
    ensures |a.signals| <= f.demand
    ensures forall c | c in CreditFrames(a.written) :: FlowControlLaws.Carried(c)
  {
    hide StreamLaws.Ok, FlowControlLaws.DemandOk, CreditFrames, FlowControlLaws.Told, FlowControlLaws.Total,
         FlowControlLaws.Carried;
  }
}
