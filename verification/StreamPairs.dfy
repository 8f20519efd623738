/** One stream between two endpoints: a requester and the responder of its peer, joined by the frames they write, which
    arrive in order.  The connection stays up and stays open. */
module StreamPairs {
  import opened Frames
  import opened Allowances
  import opened Credits
  import opened StreamAutomata
  import opened StreamLaws

  function Peer(kind: Kind): Kind {
    match kind
    case RequestResponseRequester => RequestResponseResponder
    case StreamRequester => StreamResponder
    case ChannelRequester => ChannelResponder
    case _ => kind
  }

  /** Of what the requester has written, `seen` frames have arrived, and `heard` frames of what the responder has
      written.  `abandoned`: the requester has left the stream in a way that the responder is not told of.  `refused`:
      a frame arrived for which the endpoint would have closed its connection. */
  datatype Pair = Pair(requester: Automaton, responder: Option<Automaton>, seen: nat, heard: nat,
                       abandoned: bool, refused: bool)

  function Start(kind: Kind): Pair {
    Pair(Created(kind, 0), None, 0, 0, false, false)
  }

  /** What the responder has written. */
  function Answers(p: Pair): seq<Out> {
    if p.responder.Some? then p.responder.value.written else []
  }

  /** Every frame has arrived. */
  predicate Quiet(p: Pair) {
    p.seen == |p.requester.written| && p.heard == |Answers(p)|
  }

  /** What a frame is for the automaton it reaches: counts are 32-bit fields, payload frames are flagged NEXT, and the
      frame that completes a stream is a payload frame without a payload. */
  function Arriving(out: Out): Event {
    match out
    case RequestN(n) => PeerRequestN(n % 0x1_0000_0000)
    case Payload(complete) => PeerPayload(complete, true)
    case Close(CANCEL) => PeerCancel
    case Close(COMPLETE) => PeerPayload(true, false)
    case _ => PeerError
  }

  /** A second request of a request-response requester, an error of the application on a channel, and a payload without
      credit end the requester without a frame that its peer would act on. */
  predicate Abandons(a: Automaton, e: Event) {
    a.registered && match e
      case AppRequest(n) => a.kind == RequestResponseRequester && n != 0 && a.state == REQUESTED
      case AppError => a.kind == ChannelRequester && a.state == REQUESTED
      case PeerPayload(_, counts) => a.kind != RequestResponseRequester && counts && a.consumer.allowance == 0
      case _ => false
  }

  predicate OfApplication(e: Event) {
    !e.PeerPayload? && !e.PeerError? && !e.PeerCancel? && !e.PeerRequestN? && !e.ConnectionCloses?
  }

  datatype Action = RequesterCalls(call: Event) | ResponderCalls(call: Event) | ReachesResponder | ReachesRequester

  predicate Enabled(p: Pair, x: Action) {
    match x
    case RequesterCalls(e) => OfApplication(e) && StreamAutomata.Enabled(p.requester, e) && !Fatal(p.requester, e)
    case ResponderCalls(e) =>
      p.responder.Some? && OfApplication(e) && StreamAutomata.Enabled(p.responder.value, e) && !Fatal(p.responder.value, e)
    case ReachesResponder => p.seen < |p.requester.written|
    case ReachesRequester => p.heard < |Answers(p)|
  }

  function RequesterSteps(p: Pair, e: Event): Pair {
    p.(requester := Step(p.requester, e), abandoned := p.abandoned || Abandons(p.requester, e))
  }

  /** Frames for a stream that was in the map before are ignored. */
  function Apply(p: Pair, x: Action): Pair
    requires Enabled(p, x)
  {
    match x
    case RequesterCalls(e) => RequesterSteps(p, e)
    case ResponderCalls(e) => p.(responder := Some(Step(p.responder.value, e)))
    case ReachesResponder => ToResponder(p.(seen := p.seen + 1), p.requester.written[p.seen])
    case ReachesRequester =>
      var q, out := p.(heard := p.heard + 1), Answers(p)[p.heard];
      if !p.requester.registered then q
      else if out.Open? then q.(refused := true)
      else RequesterSteps(q, Arriving(out))
  }

  function ToResponder(p: Pair, out: Out): Pair {
    match p.responder
    case None =>
      if out.Open? then p.(responder := Some(Created(Peer(p.requester.kind), out.n % 0x1_0000_0000)))
      else p.(refused := true)
    case Some(b) =>
      if !b.registered then p
      else if out.Open? then p.(refused := true)
      else p.(responder := Some(Step(b, Arriving(out))))
  }

  predicate IsRun(p: Pair, actions: seq<Action>)
    decreases |actions|
  {
    actions == [] || (Enabled(p, actions[0]) && IsRun(Apply(p, actions[0]), actions[1..]))
  }

  function After(p: Pair, actions: seq<Action>): Pair
    requires IsRun(p, actions)
    decreases |actions|
  {
    if actions == [] then p else After(Apply(p, actions[0]), actions[1..])
  }

  // ---- What one automaton writes ----

  /** The frames with which a requester ends its responder as well. */
  predicate EndsPeer(kind: Kind, out: Out) {
    out == Close(Completion.CANCEL) || (kind == ChannelRequester && out == Close(COMPLETE))
  }

  /** The frames with which a responder ends its requester. */
  predicate EndsRequester(out: Out) {
    out == Payload(true) || (out.Close? && out.why != Completion.CANCEL)
  }

  /** The requester has written its last frame, and its peer will act on it. */
  predicate EndedPeer(a: Automaton) {
    a.written != [] && EndsPeer(a.kind, a.written[|a.written| - 1])
  }

  predicate EndedRequester(b: Automaton) {
    b.written != [] && EndsRequester(b.written[|b.written| - 1])
  }

  /** What the requester may hear from the application or from its peer. */
  predicate ForRequester(e: Event) {
    !e.ConnectionCloses? && !e.PeerCancel?
  }

  /** A frame that tells the requester of the end. */
  predicate Tells(a: Automaton, e: Event) {
    e.PeerError? || (e.PeerPayload? && (e.complete || a.kind == RequestResponseRequester))
  }

  /** What leaving the map has to do with the frames written. */
  predicate Left(a: Automaton, e: Event, b: Automaton) {
    && |b.written| >= |a.written|
    && (!b.registered ==> (EndedPeer(b) && |b.written| > |a.written|) || b.written == [] || Tells(a, e) || Abandons(a, e))
    && (Tells(a, e) || Abandons(a, e) ==> !b.registered)
  }

  lemma RequestLeaves(a: Automaton, n: Count)
    requires Ok(a) && Requests(a.kind) && a.registered
    ensures Left(a, AppRequest(n), Request(a, n))
  {
    hide SubscriberOk, SubscriptionOk, SignalsInOrder, FramesInOrder, NoneTerminal, CloseStream, Dismiss, GenerateRequest;
  }

  lemma EndLeaves(a: Automaton)
    requires Ok(a) && Requests(a.kind) && a.registered
    ensures Left(a, AppCancel, Cancel(a))
    ensures a.kind == ChannelRequester ==> Left(a, AppComplete, OnCompleted(a)) && Left(a, AppError, OnFailed(a))
  {
    hide SubscriberOk, SubscriptionOk, SignalsInOrder, FramesInOrder, NoneTerminal, CloseStream, WriteAndClose;
  }

  lemma PayloadLeaves(a: Automaton, complete: bool, counts: bool)
    requires Ok(a) && Requests(a.kind) && a.registered && a.state != NEW
    ensures Left(a, PeerPayload(complete, counts), HandlePayload(a, complete, counts))
  {
    hide SubscriptionOk, SignalsInOrder, FramesInOrder, NoneTerminal, CloseStream, WriteAndClose, Dismiss, SendRequests;
  }

  lemma OtherLeaves(a: Automaton, e: Event)
    requires Ok(a) && Requests(a.kind) && a.registered && StreamAutomata.Enabled(a, e) && !Fatal(a, e)
    requires e.AppSubscribe? || e.AppNext? || e.PeerError? || e.PeerRequestN?
    ensures Left(a, e, Step(a, e))
  {
    hide SubscriberOk, SubscriptionOk, SignalsInOrder, FramesInOrder, NoneTerminal, CloseStream, Dismiss, GenerateRequest;
  }

  /** A requester that leaves the map has ended its peer, never opened the stream, was told to, or abandons its peer;
      and if it is told to or abandons its peer, it leaves. */
  lemma RequesterLeaves(a: Automaton, e: Event)
    requires Ok(a) && Requests(a.kind) && a.registered && StreamAutomata.Enabled(a, e) && !Fatal(a, e) && ForRequester(e)
    ensures Left(a, e, Step(a, e))
  {
    hide SubscriberOk, SubscriptionOk, SignalsInOrder, FramesInOrder, NoneTerminal, Left, Request, Cancel, OnCompleted, OnFailed,
         HandlePayload;
    match e
    case AppRequest(n) => RequestLeaves(a, n);
    case AppCancel => EndLeaves(a);
    case AppComplete => EndLeaves(a);
    case AppError => EndLeaves(a);
    case PeerPayload(complete, counts) => PayloadLeaves(a, complete, counts);
    case _ => OtherLeaves(a, e);
  }

  /** The same for a responder, which always says that it leaves, unless its peer has. */
  predicate Answered(b: Automaton, e: Event, c: Automaton) {
    && |c.written| >= |b.written|
    && (!c.registered ==> (EndedRequester(c) && |c.written| > |b.written|) || EndedBy(b, e))
    && (EndedBy(b, e) ==> !c.registered)
    && (b.kind == RequestResponseResponder && c.registered ==> c.written == b.written)
    && (e.PeerError? ==> c == b)
  }

  predicate EndedBy(b: Automaton, e: Event) {
    e.PeerCancel? || (e.PeerPayload? && e.complete && b.kind == ChannelResponder)
  }

  lemma ResponderLeaves(b: Automaton, e: Event)
    requires Ok(b) && !Requests(b.kind) && b.registered && StreamAutomata.Enabled(b, e) && !e.ConnectionCloses?
    ensures !Fatal(b, e) && Answered(b, e, Step(b, e))
  {
    hide SubscriberOk, SubscriptionOk, FramesOk, CloseStream, WriteAndClose, Dismiss, GenerateRequest, SendRequests, Answered;
    match e
    case PeerPayload(complete, counts) => ResponderPayload(b, complete, counts);
    case AppNext => ResponderNext(b);
    case AppRequest(n) => ResponderRequests(b, n);
    case _ => ResponderEnds(b, e);
  }

  lemma ResponderPayload(b: Automaton, complete: bool, counts: bool)
    requires Ok(b) && !Requests(b.kind) && b.registered
    ensures Answered(b, PeerPayload(complete, counts), HandlePayload(b, complete, counts))
  {
    hide SubscriberOk, SubscriptionOk, FramesOk, CloseStream, WriteAndClose, Dismiss, SendRequests;
  }

  lemma ResponderNext(b: Automaton)
    requires Ok(b) && !Requests(b.kind) && b.registered
    ensures Answered(b, AppNext, OnNextPayload(b))
  {
    hide SubscriberOk, SubscriptionOk, FramesOk, CloseStream;
  }

  lemma ResponderRequests(b: Automaton, n: Count)
    requires Ok(b) && !Requests(b.kind) && b.registered
    ensures Answered(b, AppRequest(n), Request(b, n))
  {
    hide SubscriberOk, SubscriptionOk, FramesOk, GenerateRequest;
  }

  lemma ResponderEnds(b: Automaton, e: Event)
    requires Ok(b) && !Requests(b.kind) && b.registered && StreamAutomata.Enabled(b, e)
    requires e.AppCancel? || e.AppAttach? || e.AppSubscribe? || e.AppComplete? || e.AppError?
      || e.PeerError? || e.PeerCancel? || e.PeerRequestN?
    ensures Answered(b, e, Step(b, e))
  {
    hide SubscriberOk, SubscriptionOk, FramesOk, CloseStream, WriteAndClose;
  }

  // ---- The invariant ----

  predicate ResponderOk(kind: Kind, b: Automaton) {
    && Ok(b) && !b.crashed && b.kind == Peer(kind)
    && (b.kind == RequestResponseResponder && b.registered ==> b.written == [])
  }

  /** Once the responder has left, so has the requester, or the closing frame is under way. */
  predicate ResponderLeft(p: Pair) {
    p.responder.Some? && !p.responder.value.registered ==>
      !p.requester.registered || (EndedRequester(p.responder.value) && p.heard < |Answers(p)|)
  }

  /** The other way round, unless the requester abandoned the stream. */
  predicate RequesterLeft(p: Pair) {
    !p.requester.registered && p.requester.written != [] ==>
      || p.abandoned
      || (EndedPeer(p.requester) && p.seen < |p.requester.written|)
      || (p.responder.Some? && !p.responder.value.registered)
  }

  predicate Inv(p: Pair) {
    && Requests(p.requester.kind) && Ok(p.requester) && !p.requester.crashed && !p.refused
    && p.seen <= |p.requester.written| && p.heard <= |Answers(p)|
    && (p.responder.None? <==> p.seen == 0)
    && (p.responder.Some? ==> ResponderOk(p.requester.kind, p.responder.value))
    && (p.abandoned ==> !p.requester.registered)
    && ResponderLeft(p) && RequesterLeft(p)
  }

  lemma StartInv(kind: Kind)
    requires Requests(kind)
    ensures Inv(Start(kind))
  {
    CreatedOk(kind, 0);
  }

  /** The requester has opened the stream if there is a responder. */
  lemma HasOpened(p: Pair)
    requires Inv(p) && p.responder.Some? && p.requester.registered
    ensures p.requester.state != NEW
  {
    hide SubscriberOk, SubscriptionOk, FramesInOrder, NoneTerminal;
  }

  lemma RequesterInv(p: Pair, e: Event)
    requires Inv(p) && StreamAutomata.Enabled(p.requester, e) && !Fatal(p.requester, e) && ForRequester(e)
    requires Tells(p.requester, e) ==> p.responder.Some? && !p.responder.value.registered
    ensures Inv(RequesterSteps(p, e))
  {
    hide Ok, Step, Fatal, ResponderOk, Abandons, Tells;
    StepOk(p.requester, e);
    if p.requester.registered {
      RequesterLeaves(p.requester, e);
      assert Left(p.requester, e, Step(p.requester, e));
    } else {
      SilentOutsideMap(p.requester, e);
    }
  }

  lemma ResponderInv(p: Pair, e: Event)
    requires Inv(p) && p.responder.Some? && StreamAutomata.Enabled(p.responder.value, e) && !e.ConnectionCloses?
    requires EndedBy(p.responder.value, e) ==> !p.requester.registered
    ensures Fatal(p.responder.value, e) || Inv(p.(responder := Some(Step(p.responder.value, e))))
  {
    hide Ok, Step, Fatal, EndedBy;
    var b := p.responder.value;
    StepOk(b, e);
    if b.registered {
      ResponderLeaves(b, e);
    } else if !Fatal(b, e) {
      SilentOutsideMap(b, e);
    }
  }

  /** The first frame of the requester opens the stream, and no other frame does. */
  lemma OpensFirst(a: Automaton, k: nat)
    requires Ok(a) && Requests(a.kind) && k < |a.written|
    ensures a.written[k].Open? <==> k == 0
    ensures k < |a.written| - 1 ==> !Terminal(a.written[k])
    ensures a.registered ==> !Terminal(a.written[k])
  {
  }

  lemma NeverOpens(b: Automaton, k: nat)
    requires Ok(b) && !Requests(b.kind) && k < |b.written|
    ensures !b.written[k].Open?
    ensures k < |b.written| - 1 ==> !Terminal(b.written[k])
    ensures b.registered ==> !Terminal(b.written[k])
  {
  }

  lemma ReachesResponderInv(p: Pair)
    requires Inv(p) && Enabled(p, ReachesResponder)
    ensures Inv(Apply(p, ReachesResponder))
  {
    hide Ok, Step;
    var out := p.requester.written[p.seen];
    OpensFirst(p.requester, p.seen);
    match p.responder
    case None =>
      CreatedOk(Peer(p.requester.kind), out.n % 0x1_0000_0000);
    case Some(b) =>
      if b.registered {
        var e := Arriving(out);
        assert EndedBy(b, e) ==> Terminal(out);
        assert !Fatal(b, e) by { ResponderIsNotNew(b); }
        ResponderInv(p, e);
        ResponderLeaves(b, e);
      }
  }

  lemma ResponderIsNotNew(b: Automaton)
    requires Ok(b) && !Requests(b.kind)
    ensures b.state != NEW
  {
  }

  lemma ReachesRequesterInv(p: Pair)
    requires Inv(p) && Enabled(p, ReachesRequester)
    ensures Inv(Apply(p, ReachesRequester))
  {
    hide Ok, Step, Created;
    var b := p.responder.value;
    NeverOpens(b, p.heard);
    if p.requester.registered {
      HasOpened(p);
      var out := b.written[p.heard];
      var e := Arriving(out);
      assert Terminal(out) ==> p.heard == |b.written| - 1 && EndsRequester(out);
      assert Tells(p.requester, e) ==> !b.registered;
      RequesterInv(p, e);
      RequesterLeaves(p.requester, e);
    }
  }

  lemma StepInv(p: Pair, x: Action)
    requires Inv(p) && Enabled(p, x)
    ensures Inv(Apply(p, x))
  {
    hide Ok, Step, Fatal, ResponderLeft, RequesterLeft, ResponderOk;
    match x
    case RequesterCalls(e) => RequesterInv(p, e);
    case ResponderCalls(e) => ResponderInv(p, e);
    case ReachesResponder => ReachesResponderInv(p);
    case ReachesRequester => ReachesRequesterInv(p);
  }

  lemma {:induction false} RunInv(p: Pair, actions: seq<Action>)
    requires Inv(p) && IsRun(p, actions)
    ensures Inv(After(p, actions))
    decreases |actions|
  {
    hide Inv, Enabled, Apply;
    if actions != [] {
      StepInv(p, actions[0]);
      RunInv(Apply(p, actions[0]), actions[1..]);
    }
  }

  // ---- What the two endpoints can rely on ----

  /** No frame that is still to arrive fails a check of the automaton that it reaches, or makes an endpoint close its
      connection. */
  predicate SafeToDeliver(p: Pair) {
    && (p.seen < |p.requester.written| ==>
          var out := p.requester.written[p.seen];
          match p.responder
          case None => out.Open?
          case Some(b) => b.registered ==> !out.Open? && !Fatal(b, Arriving(out)))
    && (p.heard < |Answers(p)| && p.requester.registered ==>
          !Answers(p)[p.heard].Open? && !Fatal(p.requester, Arriving(Answers(p)[p.heard])))
  }

  lemma IsSafe(p: Pair)
    requires Inv(p)
    ensures SafeToDeliver(p)
  {
    hide Ok, ResponderLeft, RequesterLeft;
    if p.seen < |p.requester.written| {
      OpensFirst(p.requester, p.seen);
      if p.responder.Some? {
        ResponderIsNotNew(p.responder.value);
      }
    }
    if p.heard < |Answers(p)| && p.requester.registered {
      NeverOpens(p.responder.value, p.heard);
      HasOpened(p);
    }
  }

  /** Over every run of two endpoints: frames of a peer that runs this library never fail a check.  When all frames have
      arrived, a responder that has left leaves no requester behind, and a requester that has left no responder, unless
      it abandoned it. */
  lemma EveryRun(kind: Kind, actions: seq<Action>)
    requires Requests(kind) && IsRun(Start(kind), actions)
    ensures var p := After(Start(kind), actions);
      && SafeToDeliver(p) && !p.refused
      && (p.responder.Some? <==> p.seen > 0)
      && (Quiet(p) && p.responder.Some? && !p.responder.value.registered ==> !p.requester.registered)
      && (Quiet(p) && p.responder.Some? && !p.requester.registered && !p.abandoned ==> !p.responder.value.registered)
  {
    hide Ok, IsRun, After, SafeToDeliver;
    StartInv(kind);
    RunInv(Start(kind), actions);
    IsSafe(After(Start(kind), actions));
  }

  /** An abandoned responder does not notice: the requester is gone, and what it wrote last is ignored. */
  lemma AbandonedStays(p: Pair, e: Event)
    requires Inv(p) && Quiet(p) && p.responder.Some? && p.responder.value.registered
    requires Enabled(p, RequesterCalls(e)) && Abandons(p.requester, e)
    ensures var q := Apply(p, RequesterCalls(e));
      && !q.requester.registered && q.abandoned
      && (Quiet(q) || (Enabled(q, ReachesResponder) && Quiet(Apply(q, ReachesResponder))))
      && (!Quiet(q) ==> Apply(q, ReachesResponder).responder == p.responder)
  {
    hide Ok;
    RequesterLeaves(p.requester, e);
  }
}
