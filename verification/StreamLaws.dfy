/** What every run of a stream automaton keeps. */
module StreamLaws {
  import opened Frames
  import opened Allowances
  import opened Credits
  import opened StreamAutomata

  predicate Terminal(out: Out) {
    out.Close? || (out.Payload? && out.complete)
  }

  /** Only payloads before the last signal. */
  predicate SignalsInOrder(signals: seq<Signal>) {
    forall i | 0 <= i < |signals| - 1 :: signals[i] == OnNext
  }

  predicate AllNext(signals: seq<Signal>) {
    forall i | 0 <= i < |signals| :: signals[i] == OnNext
  }

  predicate Dismissed(signals: seq<Signal>) {
    signals != [] && signals[|signals| - 1] != OnNext
  }

  /** A closing frame is the last, and a requester opens the stream once, before anything else. */
  predicate FramesInOrder(kind: Kind, written: seq<Out>) {
    && (forall i | 0 <= i < |written| - 1 :: !Terminal(written[i]))
    && (forall i | 0 <= i < |written| :: written[i].Open? <==> i == 0 && Requests(kind))
  }

  predicate NoneTerminal(written: seq<Out>) {
    forall i | 0 <= i < |written| :: !Terminal(written[i])
  }

  /** In the map if and only if not closed; and what follows from that for the subscriber, the subscription and the
      frames. */
  predicate Ok(a: Automaton) {
    && (a.registered <==> a.state != CLOSED)
    && (Requests(a.kind) ==> a.state != RESPONDING && a.attached)
    && (!Requests(a.kind) ==> a.state == RESPONDING || a.state == CLOSED)
    && (a.terminated <==> !a.registered && a.kind != RequestResponseRequester)
    && SubscriberOk(a) && SubscriptionOk(a) && FramesOk(a)
  }

  predicate SubscriberOk(a: Automaton) {
    && (a.consumingSubscriber <==> Consumes(a.kind) && a.attached && a.registered)
    && (a.consumer.allowance > 0 || a.early > 0 || a.consumer.pending > 0 ==> Consumes(a.kind) && a.attached)
    && SignalsInOrder(a.signals)
    && (a.consumingSubscriber ==> AllNext(a.signals))
    && (!a.attached ==> a.signals == [])
    && (Consumes(a.kind) && a.attached && !a.registered ==> Dismissed(a.signals))
  }

  predicate SubscriptionOk(a: Automaton) {
    && (a.producingSubscription <==> Publishes(a.kind) && a.hooked && a.registered)
    && (a.cancelled == if Publishes(a.kind) && a.hooked && !a.registered then 1 else 0)
    && (a.kind == ChannelRequester && a.registered ==> (a.hooked || a.state == NEW))
  }

  predicate FramesOk(a: Automaton) {
    && FramesInOrder(a.kind, a.written)
    && (a.state == NEW ==> a.written == [])
    && (a.state == REQUESTED ==> a.written != [])
    && (a.registered ==> NoneTerminal(a.written))
  }

  /** The calls and frames that fail a CHECK: a payload or an error for a stream that was never opened, a subscription
      for a channel requester that is no longer new, and the first payload of a channel with unlimited credit. */
  predicate Fatal(a: Automaton, e: Event) {
    match e
    case PeerPayload(_, _) => a.state == NEW
    case PeerError => a.state == NEW
    case AppSubscribe => a.kind == ChannelRequester && a.state != NEW
    case AppNext => a.kind == ChannelRequester && a.state == NEW && a.early == INFINITE
    case _ => false
  }

  lemma CreatedOk(kind: Kind, initialRequestN: Size)
    ensures Ok(Created(kind, initialRequestN)) && !Created(kind, initialRequestN).crashed
  {
  }

  // ---- Signals and frames ----

  lemma TellOk(signals: seq<Signal>, signal: Signal)
    requires AllNext(signals)
    ensures SignalsInOrder(signals) && SignalsInOrder(signals + [signal])
    ensures signal == OnNext ==> AllNext(signals + [signal])
    ensures signal != OnNext ==> Dismissed(signals + [signal])
  {
    assert forall i | 0 <= i < |signals| :: (signals + [signal])[i] == signals[i];
  }

  lemma WriteOk(kind: Kind, written: seq<Out>, out: Out)
    requires FramesInOrder(kind, written) && NoneTerminal(written)
    requires out.Open? <==> written == [] && Requests(kind)
    ensures FramesInOrder(kind, written + [out])
    ensures !Terminal(out) ==> NoneTerminal(written + [out])
  {
    assert forall i | 0 <= i < |written| :: (written + [out])[i] == written[i];
  }

  /** A registered stream on its way out of the map: its state may be closed already, its subscriber told and its
      closing frame written. */
  predicate Closing(a: Automaton) {
    && a.registered && !a.terminated && !a.crashed
    && (Requests(a.kind) ==> a.attached)
    && (a.consumer.allowance > 0 || a.early > 0 || a.consumer.pending > 0 ==> Consumes(a.kind) && a.attached)
    && (a.consumingSubscriber ==> Consumes(a.kind) && a.attached && AllNext(a.signals))
    && (!a.consumingSubscriber && Consumes(a.kind) && a.attached ==> Dismissed(a.signals))
    && (!a.attached ==> a.signals == [])
    && SignalsInOrder(a.signals)
    && (a.producingSubscription <==> Publishes(a.kind) && a.hooked)
    && a.cancelled == 0
    && FramesInOrder(a.kind, a.written)
  }

  /** What the steps of ending a stream that has come this far amount to. */
  lemma EndedIs(a: Automaton, why: Completion)
    requires Closing(a) && (a.state == CLOSED || (why != COMPLETE && why != Completion.CANCEL))
    ensures CloseStream(a, why) == a.(
      registered := false, state := CLOSED, terminated := a.kind != RequestResponseRequester,
      producingSubscription := false, cancelled := if a.producingSubscription then 1 else 0,
      consumingSubscriber := false,
      signals := if !a.consumingSubscriber then a.signals
                 else a.signals + [if why == COMPLETE || why == Completion.CANCEL then OnComplete else OnError])
  {
    hide SignalsInOrder, AllNext, Dismissed, FramesInOrder;
  }

  lemma CloseStreamOk(a: Automaton, why: Completion)
    requires Closing(a)
    requires a.state == CLOSED || (why != COMPLETE && why != Completion.CANCEL)
    ensures Ok(CloseStream(a, why)) && !CloseStream(a, why).crashed
  {
    hide SignalsInOrder, AllNext, Dismissed, FramesInOrder, NoneTerminal, CloseStream;
    var c := CloseStream(a, why);
    EndedIs(a, why);
    if a.consumingSubscriber {
      TellOk(a.signals, if why == COMPLETE || why == Completion.CANCEL then OnComplete else OnError);
    }
    assert SubscriberOk(c) && !c.crashed;
    assert SubscriptionOk(c);
    assert FramesOk(c);
    assert Ok(c) by {
      hide SubscriberOk, SubscriptionOk, FramesOk;
    }
  }

  /** What is known of a stream that is in the map. */
  lemma RegisteredIsClosing(a: Automaton)
    requires Ok(a) && a.registered && !a.crashed
    ensures Closing(a) && NoneTerminal(a.written)
    ensures Closing(a.(state := CLOSED))
    ensures a.consumingSubscriber ==> AllNext(a.signals)
  {
    hide SignalsInOrder, AllNext, Dismissed, FramesInOrder, NoneTerminal;
  }

  lemma DismissOk(a: Automaton)
    requires Closing(a)
    ensures Closing(Dismiss(a, OnError)) && !Dismiss(a, OnError).consumingSubscriber
    ensures Dismiss(a, OnError).written == a.written && Dismiss(a, OnError).state == a.state
    ensures Dismiss(a, OnError).kind == a.kind
  {
    hide SignalsInOrder, AllNext, Dismissed, FramesInOrder, NoneTerminal;
    if a.consumingSubscriber {
      TellOk(a.signals, OnError);
    }
  }

  lemma WriteAndCloseOk(a: Automaton, why: Completion)
    requires Closing(a) && NoneTerminal(a.written)
    requires Requests(a.kind) ==> a.written != []
    requires a.state == CLOSED || (why != COMPLETE && why != Completion.CANCEL)
    ensures Ok(WriteAndClose(a, why)) && !WriteAndClose(a, why).crashed && !WriteAndClose(a, why).registered
  {
    hide SignalsInOrder, AllNext, Dismissed, FramesInOrder, NoneTerminal;
    WriteOk(a.kind, a.written, Close(why));
    CloseStreamOk(Write(a, Close(why)), why);
  }

  lemma WriteRequestsOk(a: Automaton, w: Written)
    requires Closing(a) && NoneTerminal(a.written) && Consumes(a.kind) && a.attached
    requires Requests(a.kind) ==> a.written != []
    ensures var b := WriteRequests(a, w);
      && Closing(b) && NoneTerminal(b.written) && |b.written| >= |a.written|
      && b == a.(consumer := w.to, written := b.written)
  {
    hide SignalsInOrder, AllNext, Dismissed, FramesInOrder, NoneTerminal;
    if w.requests == [] {
      assert a.written + [] == a.written;
    } else {
      WriteOk(a.kind, a.written, RequestN(w.requests[0]));
    }
  }

  /** A registered stream that is not closed, back in order. */
  lemma OpenIsOk(a: Automaton)
    requires Closing(a) && NoneTerminal(a.written) && a.state != CLOSED
    requires a.consumingSubscriber <==> Consumes(a.kind) && a.attached
    requires Requests(a.kind) <==> a.state == NEW || a.state == REQUESTED
    requires a.state == NEW <==> Requests(a.kind) && a.written == []
    requires a.kind == ChannelRequester ==> a.hooked || a.state == NEW
    ensures Ok(a)
  {
    hide SignalsInOrder, AllNext, Dismissed, FramesInOrder, NoneTerminal;
  }

  // ---- One step ----

  lemma OpenStreamOk(a: Automaton, initial: Size, remaining: Size)
    requires Ok(a) && a.registered && !a.crashed && a.state == NEW && a.kind != RequestResponseRequester
    requires a.kind == ChannelRequester ==> a.hooked
    ensures Ok(OpenStream(a, initial, remaining)) && !OpenStream(a, initial, remaining).crashed
  {
    hide SignalsInOrder, AllNext, Dismissed, FramesInOrder, NoneTerminal, GenerateRequest;
    RegisteredIsClosing(a);
    WriteOk(a.kind, a.written, Open(initial % 0x1_0000_0000));
    var b := Write(a.(state := REQUESTED, consumer := AddImplicitAllowance(a.consumer, initial)), Open(initial % 0x1_0000_0000));
    if remaining > 0 {
      WriteRequestsOk(b, GenerateRequest(b.consumer, remaining));
    }
    OpenIsOk(OpenStream(a, initial, remaining));
  }

  lemma RequestOk(a: Automaton, n: Count)
    requires Ok(a) && Enabled(a, AppRequest(n))
    ensures Ok(Request(a, n)) && !Request(a, n).crashed
  {
    hide SignalsInOrder, AllNext, Dismissed, FramesInOrder, NoneTerminal, GenerateRequest, OpenStream;
    if a.registered {
      RegisteredIsClosing(a);
    }
    match a.kind
    case RequestResponseRequester =>
      if a.state == NEW {
        if n != 0 {
          WriteOk(a.kind, a.written, Open(1));
          OpenIsOk(Request(a, n));
        }
      } else if a.registered && n != 0 {
        DismissOk(a);
        CloseStreamOk(Dismiss(a, OnError), Completion.ERROR);
      }
    case StreamRequester =>
      if a.state == NEW && n != 0 {
        OpenStreamOk(a, InitialPart(n), RemainingPart(n));
      } else if a.state == REQUESTED && n != 0 {
        WriteRequestsOk(a, GenerateRequest(a.consumer, AsSize(n)));
        OpenIsOk(Request(a, n));
      }
    case ChannelRequester =>
      if a.state == NEW {
        OpenIsOk(Request(a, n));
      } else if a.state == REQUESTED {
        WriteRequestsOk(a, GenerateRequest(a.consumer, AsSize(n)));
        OpenIsOk(Request(a, n));
      }
    case ChannelResponder =>
      if a.state == RESPONDING {
        WriteRequestsOk(a, GenerateRequest(a.consumer, AsSize(n)));
        OpenIsOk(Request(a, n));
      }
  }

  lemma CancelOk(a: Automaton)
    requires Ok(a) && Enabled(a, AppCancel)
    ensures Ok(Cancel(a)) && !Cancel(a).crashed
  {
    hide SignalsInOrder, AllNext, Dismissed, FramesInOrder, NoneTerminal;
    if a.registered {
      RegisteredIsClosing(a);
      var b := a.(state := CLOSED);
      if a.state == NEW {
        CloseStreamOk(b, Completion.CANCEL);
      } else {
        WriteAndCloseOk(b, if a.kind == ChannelResponder then COMPLETE else Completion.CANCEL);
      }
    }
  }

  lemma AttachOk(a: Automaton)
    requires Ok(a) && Enabled(a, AppAttach)
    ensures Ok(Attach(a)) && !Attach(a).crashed
  {
    hide FramesInOrder, NoneTerminal;
  }

  lemma OnSubscribeOk(a: Automaton)
    requires Ok(a) && Enabled(a, AppSubscribe)
    ensures OnSubscribe(a).crashed <==> Fatal(a, AppSubscribe)
    ensures !Fatal(a, AppSubscribe) ==> Ok(OnSubscribe(a))
  {
    hide SignalsInOrder, AllNext, Dismissed, FramesInOrder, NoneTerminal, Subscribed;
  }

  lemma OnNextPayloadOk(a: Automaton)
    requires Ok(a) && Enabled(a, AppNext)
    ensures OnNextPayload(a).crashed <==> Fatal(a, AppNext)
    ensures !Fatal(a, AppNext) ==> Ok(OnNextPayload(a))
  {
    hide SignalsInOrder, AllNext, Dismissed, FramesInOrder, NoneTerminal, OpenStream;
    if a.registered {
      RegisteredIsClosing(a);
      if a.state == NEW {
        if a.early < INFINITE {
          var initial := Drained(a.early, MAX_REQUEST_N);
          OpenStreamOk(a.(early := 0), initial, a.early - initial);
        }
      } else if a.kind == RequestResponseResponder {
        WriteOk(a.kind, a.written, Payload(true));
        CloseStreamOk(Write(a.(state := CLOSED), Payload(true)), COMPLETE);
      } else {
        WriteOk(a.kind, a.written, Payload(false));
        OpenIsOk(OnNextPayload(a));
      }
    }
  }

  lemma OnEndOk(a: Automaton)
    requires Ok(a) && Enabled(a, AppComplete)
    ensures Ok(OnCompleted(a)) && !OnCompleted(a).crashed
    ensures Ok(OnFailed(a)) && !OnFailed(a).crashed
  {
    hide SignalsInOrder, AllNext, Dismissed, FramesInOrder, NoneTerminal;
    if a.registered {
      RegisteredIsClosing(a);
      var b := a.(state := CLOSED);
      if a.state == NEW {
        CloseStreamOk(b, COMPLETE);
        CloseStreamOk(b, APPLICATION_ERROR);
      } else {
        WriteAndCloseOk(b, COMPLETE);
        WriteAndCloseOk(if a.kind == ChannelRequester then a else b, APPLICATION_ERROR);
      }
    }
  }

  /** Closing a second time is not noticed. */
  lemma CloseTwice(a: Automaton, why: Completion)
    requires !a.registered
    ensures CloseStream(a, why) == a
  {
  }

  lemma HandleStreamPayloadOk(a: Automaton, complete: bool, counts: bool)
    requires Ok(a) && a.registered && !a.crashed && a.state != NEW
    requires Consumes(a.kind) && a.kind != RequestResponseRequester
    ensures Ok(HandleStreamPayload(a, complete, counts)) && !HandleStreamPayload(a, complete, counts).crashed
  {
    hide SignalsInOrder, AllNext, Dismissed, FramesInOrder, NoneTerminal, SendRequests, CloseStream;
    RegisteredIsClosing(a);
    var b := if complete then a.(state := CLOSED) else a;
    var c := ProcessPayload(b, counts);
    if counts {
      match TakePayload(a.consumer) {
        case Some(w) =>
          WriteRequestsOk(b, w);
          TellOk(b.signals, OnNext);
          if !complete {
            OpenIsOk(c);
          }
        case None =>
          DismissOk(b);
          WriteAndCloseOk(Dismiss(b, OnError), Completion.ERROR);
          CloseTwice(c, COMPLETE);
      }
    }
    if complete && c.registered {
      CloseStreamOk(c, COMPLETE);
    }
  }

  lemma HandlePayloadOk(a: Automaton, complete: bool, counts: bool)
    requires Ok(a) && Enabled(a, PeerPayload(complete, counts))
    ensures HandlePayload(a, complete, counts).crashed <==> a.state == NEW
    ensures a.state != NEW ==> Ok(HandlePayload(a, complete, counts))
  {
    hide SignalsInOrder, AllNext, Dismissed, FramesInOrder, NoneTerminal, HandleStreamPayload;
    RegisteredIsClosing(a);
    if a.kind == RequestResponseRequester {
      if a.state == REQUESTED {
        var b := a.(state := CLOSED);
        if counts {
          TellOk(a.signals, OnNext);
          CloseStreamOk(Tell(b, OnNext), COMPLETE);
        } else if complete {
          CloseStreamOk(b, COMPLETE);
        } else {
          WriteAndCloseOk(b, Completion.ERROR);
        }
      }
    } else if Consumes(a.kind) && a.state != NEW {
      HandleStreamPayloadOk(a, complete, counts);
    } else if a.state == NEW {
      NewPayloadCrashes(a, complete, counts);
    }
  }

  lemma NewPayloadCrashes(a: Automaton, complete: bool, counts: bool)
    requires a.state == NEW
    ensures HandleStreamPayload(a, complete, counts) == Crash(a)
  {
  }

  lemma HandleEndOk(a: Automaton)
    requires Ok(a) && a.registered && !a.crashed
    ensures HandleError(a).crashed <==> a.state == NEW
    ensures a.state != NEW ==> Ok(HandleError(a))
    ensures Ok(HandleCancel(a)) && !HandleCancel(a).crashed
  {
    hide SignalsInOrder, AllNext, Dismissed, FramesInOrder, NoneTerminal;
    RegisteredIsClosing(a);
    var b := a.(state := CLOSED);
    DismissOk(b);
    CloseStreamOk(Dismiss(b, OnError), Completion.ERROR);
    CloseStreamOk(b, Completion.CANCEL);
  }

  /** Every call and frame keeps the automaton in order, unless it is one of the fatal ones, which are exactly those
      that fail a check. */
  lemma StepOk(a: Automaton, e: Event)
    requires Ok(a) && Enabled(a, e)
    ensures Step(a, e).crashed <==> Fatal(a, e)
    ensures !Fatal(a, e) ==> Ok(Step(a, e))
  {
    hide SignalsInOrder, AllNext, Dismissed, FramesInOrder, NoneTerminal;
    hide Request, Cancel, Attach, OnSubscribe, OnNextPayload, OnCompleted, OnFailed;
    hide HandlePayload, HandleError, HandleCancel, CloseStream, ProcessRequestN;
    match e
    case AppRequest(n) => RequestOk(a, n);
    case AppCancel => CancelOk(a);
    case AppAttach => AttachOk(a);
    case AppSubscribe => OnSubscribeOk(a);
    case AppNext => OnNextPayloadOk(a);
    case AppComplete => OnEndOk(a);
    case AppError => OnEndOk(a);
    case PeerPayload(complete, counts) => HandlePayloadOk(a, complete, counts);
    case PeerError => HandleEndOk(a);
    case PeerCancel => HandleEndOk(a);
    case PeerRequestN(credit) =>
    case ConnectionCloses(why) =>
      RegisteredIsClosing(a);
      CloseStreamOk(a, why);
  }

  // ---- Every run ----

  /** A stream that has left the map writes nothing more, tells its subscriber nothing more, and does not come back. */
  lemma SilentOutsideMap(a: Automaton, e: Event)
    requires Ok(a) && !a.registered && Enabled(a, e) && !Fatal(a, e)
    ensures var b := Step(a, e);
      && !b.registered && b.written == a.written
      && (a.attached ==> b.attached && b.signals == a.signals)
  {
    hide SignalsInOrder, AllNext, Dismissed, FramesInOrder, NoneTerminal;
  }

  lemma {:induction false} RunOk(a: Automaton, events: seq<Event>)
    requires Ok(a) && IsRun(a, events)
    ensures !After(a, events).crashed ==> Ok(After(a, events))
    decreases |events|
  {
    hide Ok, Step, Enabled;
    if events != [] {
      StepOk(a, events[0]);
      var b := Step(a, events[0]);
      if Fatal(a, events[0]) {
        CrashIsLast(b, events[1..]);
      } else {
        RunOk(b, events[1..]);
      }
    }
  }

  lemma CrashIsLast(a: Automaton, events: seq<Event>)
    requires IsRun(a, events) && a.crashed
    ensures events == []
  {
  }

  /** Over every run that fails no check: the stream is in the map if and only if its automaton is not closed; the
      subscriber has had at most one last signal, and has had it exactly if the stream is gone; the application's
      subscription has been cancelled once if the stream is gone, and not before; a closing frame is the last one
      written. */
  lemma EveryRun(kind: Kind, initialRequestN: Size, events: seq<Event>)
    requires IsRun(Created(kind, initialRequestN), events)
    requires !After(Created(kind, initialRequestN), events).crashed
    ensures var a := After(Created(kind, initialRequestN), events);
      && (a.registered <==> a.state != CLOSED)
      && SignalsInOrder(a.signals)
      && (Consumes(a.kind) && a.attached ==> (Dismissed(a.signals) <==> !a.registered))
      && FramesInOrder(a.kind, a.written)
      && (Publishes(a.kind) && a.hooked ==> a.cancelled == if a.registered then 0 else 1)
  {
    hide Step, Enabled, IsRun, After, SignalsInOrder, FramesInOrder, NoneTerminal;
    CreatedOk(kind, initialRequestN);
    RunOk(Created(kind, initialRequestN), events);
  }

  lemma {:induction false} SilentRun(a: Automaton, events: seq<Event>)
    requires Ok(a) && !a.registered && IsRun(a, events) && !After(a, events).crashed
    ensures var b := After(a, events);
      && !b.registered && b.written == a.written
      && (a.attached ==> b.signals == a.signals)
    decreases |events|
  {
    hide Ok, Step, Enabled;
    if events != [] {
      StepOk(a, events[0]);
      var b := Step(a, events[0]);
      if Fatal(a, events[0]) {
        CrashIsLast(b, events[1..]);
      } else {
        SilentOutsideMap(a, events[0]);
        SilentRun(b, events[1..]);
      }
    }
  }
}
