/** Stream automata and the map of a connection's streams as the library has them: objects updated in place that call
    each other.  Every method performs the transition of the same name in modules `StreamAutomata` and `StreamTable`. */
module Streams {
  import opened Frames
  import opened Allowances
  import opened Credits
  import opened StreamAutomata
  import StreamTable

  class StreamAutomaton {
    const kind: Kind
    const streamId: nat
    const writer: Connection
    var state: State
    var isTerminated: bool
    var consumingSubscriber: bool
    var allowance: Size
    var pendingAllowance: Size
    var initialResponseAllowance: Size
    var producingSubscription: bool
    var initialRequestN: Size
    var signals: seq<Signal>
    var written: seq<Out>
    var crashed: bool

    ghost var granted: nat
    ghost var subscribed: bool
    ghost var attached: bool
    ghost var hooked: bool
    ghost var cancelled: nat

    ghost function View(): Automaton
      reads this, writer`streams
    {
      Automaton(kind, state, Registered(), isTerminated,
                consumingSubscriber, Consumer(allowance, pendingAllowance), initialResponseAllowance,
                producingSubscription, Publisher(subscribed, initialRequestN, granted),
                attached, hooked, signals, written, cancelled, crashed)
    }

    lemma RegisteredInView()
      ensures View().registered == Registered()
    {
    }

    /** Other streams come and go unnoticed. */
    twostate lemma Unnoticed()
      requires unchanged(this) && Registered() == old(Registered())
      ensures View() == old(View())
    {
    }

    ghost predicate Registered()
      reads writer`streams
    {
      streamId in writer.streams
    }

    /** Under its id the map has this automaton or nothing. */
    ghost predicate Valid()
      reads writer`streams
    {
      Registered() ==> writer.streams[streamId] == this
    }

    constructor (kind: Kind, streamId: nat, writer: Connection, initialRequestN: Size)
      ensures this.kind == kind && this.streamId == streamId && this.writer == writer
      ensures View() == Created(kind, initialRequestN).(registered := Registered())
    {
      this.kind, this.streamId, this.writer := kind, streamId, writer;
      state := if Requests(kind) then NEW else RESPONDING;
      isTerminated, consumingSubscriber := false, Requests(kind);
      allowance, pendingAllowance, initialResponseAllowance := 0, 0, 0;
      producingSubscription := false;
      this.initialRequestN := if kind == RequestResponseResponder then 1 else if Requests(kind) then 0 else initialRequestN;
      signals, written, crashed := [], [], false;
      granted, subscribed, attached, hooked, cancelled := 0, false, Requests(kind), false, 0;
    }

    // ---- What the base classes provide ----

    method Dismiss(signal: Signal)
      modifies this
      ensures View() == StreamAutomata.Dismiss(old(View()), signal)
    {
      if consumingSubscriber {
        consumingSubscriber := false;
        signals := signals + [signal];
      }
    }

    method TerminatePublisher()
      modifies this
      ensures View() == StreamAutomata.TerminatePublisher(old(View()))
    {
      if producingSubscription {
        producingSubscription := false;
        cancelled := cancelled + 1;
      }
    }

    /** The terminal signal from the connection, which has taken the stream out of its map. */
    method EndStream(why: Completion)
      modifies this
      ensures View() == StreamAutomata.EndStream(old(View()), why)
    {
      hide StreamAutomata.Dismiss, StreamAutomata.TerminatePublisher, StreamAutomata.Terminate, StreamAutomata.Shut;
      var regular := why == COMPLETE || why == Completion.CANCEL;
      Shut(regular);
      if Publishes(kind) {
        TerminatePublisher();
      }
      if Consumes(kind) {
        Dismiss(if regular then Signal.OnComplete else Signal.OnError);
      }
      Terminate();
    }

    method Shut(regular: bool)
      modifies this
      ensures View() == StreamAutomata.Shut(old(View()), regular)
    {
      if state != CLOSED && regular {
        crashed := true;
      }
      state := CLOSED;
    }

    method Terminate()
      modifies this
      ensures View() == StreamAutomata.Terminate(old(View()))
    {
      if kind != RequestResponseRequester {
        isTerminated := true;
      }
    }

    method CloseStream(why: Completion)
      requires Valid()
      modifies this, writer
      ensures Valid() && View() == StreamAutomata.CloseStream(old(View()), why)
      ensures writer.streams == old(writer.streams) - {streamId} && writer.Unmoved(old(writer.Counters()))
    {
      writer.OnStreamClosed(streamId, why);
    }

    method WriteAndClose(why: Completion)
      requires Valid()
      modifies this, writer
      ensures Valid() && View() == StreamAutomata.WriteAndClose(old(View()), why)
      ensures writer.streams == old(writer.streams) - {streamId} && writer.Unmoved(old(writer.Counters()))
    {
      written := written + [Close(why)];
      CloseStream(why);
    }

    /** Tells the other side as much of the pending credit as one frame can carry. */
    method SendRequests()
      modifies this
      ensures View() == WriteRequests(old(View()), Credits.SendRequests(old(View()).consumer))
    {
      var toSync := Drained(pendingAllowance, MAX_REQUEST_N);
      pendingAllowance := Undrained(pendingAllowance, MAX_REQUEST_N);
      assert written + [] == written;
      if toSync > 0 {
        written := written + [RequestN(toSync % 0x1_0000_0000)];
      }
    }

    method GenerateRequest(n: Size)
      modifies this
      ensures View() == WriteRequests(old(View()), Credits.GenerateRequest(old(View()).consumer, n))
    {
      allowance := Released(allowance, n);
      pendingAllowance := Released(pendingAllowance, n);
      SendRequests();
    }

    method OpenStream(initial: Size, remaining: Size)
      modifies this
      ensures View() == StreamAutomata.OpenStream(old(View()), initial, remaining)
    {
      hide Credits.GenerateRequest;
      state := REQUESTED;
      allowance := Released(allowance, initial);
      written := written + [Open(initial % 0x1_0000_0000)];
      if remaining > 0 {
        GenerateRequest(remaining);
      }
    }

    // ---- Signals of the application ----

    method Request(n: Count)
      requires Valid() && Consumes(kind)
      modifies this, writer
      ensures Valid() && View() == StreamAutomata.Request(old(View()), n) && Leaves(old(writer.streams))
      ensures writer.Unmoved(old(writer.Counters()))
    {
      hide Credits.GenerateRequest, StreamAutomata.OpenStream, StreamAutomata.CloseStream, WriteRequests,
           StreamAutomata.Dismiss, InitialPart, RemainingPart, AsSize, Released;
      match kind {
        case RequestResponseRequester =>
          if n != 0 {
            if state == NEW {
              state := REQUESTED;
              written := written + [Open(1)];
            } else {
              Dismiss(Signal.OnError);
              CloseStream(Completion.ERROR);
            }
          }
        case StreamRequester =>
          if n != 0 {
            if state == NEW {
              OpenStream(InitialPart(n), RemainingPart(n));
            } else if state == REQUESTED {
              GenerateRequest(AsSize(n));
            }
          }
        case ChannelRequester =>
          if state == NEW {
            initialResponseAllowance := Released(initialResponseAllowance, AsSize(n));
          } else if state == REQUESTED {
            GenerateRequest(AsSize(n));
          }
        case ChannelResponder =>
          if state == RESPONDING {
            GenerateRequest(AsSize(n));
          }
      }
    }

    /** The map lost this stream if it is no longer registered, and nothing else. */
    ghost predicate Leaves(before: map<nat, StreamAutomaton>)
      reads writer`streams
    {
      writer.streams == before || writer.streams == before - {streamId}
    }

    method Cancel()
      requires Valid()
      modifies this, writer
      ensures Valid() && View() == StreamAutomata.Cancel(old(View())) && Leaves(old(writer.streams))
      ensures writer.Unmoved(old(writer.Counters()))
    {
      hide StreamAutomata.CloseStream;
      if state == CLOSED {
        return;
      }
      var isNew := state == NEW;
      state := CLOSED;
      if kind == ChannelResponder {
        WriteAndClose(COMPLETE);
      } else if isNew {
        CloseStream(Completion.CANCEL);
      } else {
        WriteAndClose(Completion.CANCEL);
      }
    }

    method Attach()
      requires Valid()
      modifies this
      ensures View() == StreamAutomata.Attach(old(View()))
    {
      attached := true;
      if isTerminated {
        signals := signals + [Signal.OnComplete];
      } else {
        consumingSubscriber := true;
      }
    }

    method OnSubscribe()
      modifies this
      ensures View() == StreamAutomata.OnSubscribe(old(View()))
    {
      hide Subscribed;
      hooked := true;
      if kind == ChannelRequester && state != NEW {
        crashed := true;
      } else if isTerminated {
        cancelled := cancelled + 1;
      } else {
        PublisherSubscribe();
      }
    }

    method PublisherSubscribe()
      modifies this
      ensures View() == old(View()).(producingSubscription := true, publisher := Subscribed(old(View()).publisher))
    {
      producingSubscription, subscribed := true, true;
      if initialRequestN > 0 {
        granted := granted + Drained(initialRequestN, INFINITE);
        initialRequestN := Undrained(initialRequestN, INFINITE);
      }
    }

    method OnNext()
      requires Valid() && Publishes(kind)
      modifies this, writer
      ensures Valid() && View() == OnNextPayload(old(View())) && Leaves(old(writer.streams))
      ensures writer.Unmoved(old(writer.Counters()))
    {
      hide StreamAutomata.OpenStream, StreamAutomata.CloseStream, Drained, Undrained;
      if kind == ChannelRequester {
        if state == NEW {
          FirstPayload();
        } else if state == REQUESTED {
          written := written + [Payload(false)];
        }
      } else if state == RESPONDING {
        Respond();
      }
    }

    method Respond()
      requires Valid() && Publishes(kind) && kind != ChannelRequester && state == RESPONDING
      modifies this, writer
      ensures Valid() && View() == OnNextPayload(old(View())) && Leaves(old(writer.streams))
      ensures writer.Unmoved(old(writer.Counters()))
    {
      hide StreamAutomata.OpenStream, StreamAutomata.CloseStream, Drained, Undrained;
      if kind == RequestResponseResponder {
        state := CLOSED;
        written := written + [Payload(true)];
        CloseStream(COMPLETE);
      } else {
        written := written + [Payload(false)];
      }
    }

    /** Opens the channel with the credit gathered so far: what one frame can carry, and then the rest. */
    method FirstPayload()
      requires kind == ChannelRequester && state == NEW
      modifies this
      ensures View() == OnNextPayload(old(View()))
    {
      hide StreamAutomata.OpenStream, StreamAutomata.CloseStream;
      var initial := Drained(initialResponseAllowance, MAX_REQUEST_N);
      var left := Undrained(initialResponseAllowance, MAX_REQUEST_N);
      if initial > MAX_REQUEST_N {
        crashed := true;
        return;
      }
      initialResponseAllowance := Undrained(left, INFINITE);
      OpenStream(initial, Drained(left, INFINITE));
    }

    method OnComplete()
      requires Valid()
      modifies this, writer
      ensures Valid() && View() == OnCompleted(old(View())) && Leaves(old(writer.streams))
      ensures writer.Unmoved(old(writer.Counters()))
    {
      hide StreamAutomata.CloseStream;
      if state == CLOSED {
        return;
      }
      var isNew := state == NEW;
      state := CLOSED;
      if isNew {
        CloseStream(COMPLETE);
      } else {
        WriteAndClose(COMPLETE);
      }
    }

    method OnError()
      requires Valid()
      modifies this, writer
      ensures Valid() && View() == OnFailed(old(View())) && Leaves(old(writer.streams))
      ensures writer.Unmoved(old(writer.Counters()))
    {
      hide StreamAutomata.CloseStream;
      if state == CLOSED {
        return;
      }
      if state == NEW {
        state := CLOSED;
        CloseStream(APPLICATION_ERROR);
      } else {
        if kind != ChannelRequester {
          state := CLOSED;
        }
        WriteAndClose(APPLICATION_ERROR);
      }
    }

    // ---- Frames of the peer ----

    method ProcessPayload(counts: bool)
      requires Valid()
      modifies this, writer
      ensures Valid() && View() == StreamAutomata.ProcessPayload(old(View()), counts) && Leaves(old(writer.streams))
      ensures writer.Unmoved(old(writer.Counters()))
    {
      hide StreamAutomata.CloseStream, Credits.SendRequests, StreamAutomata.WriteAndClose, StreamAutomata.Dismiss;
      if !counts {
        return;
      }
      if allowance >= 1 {
        if !consumingSubscriber {
          crashed := true;
          return;
        }
        allowance := Acquired(allowance, 1);
        SendRequests();
        signals := signals + [Signal.OnNext];
      } else {
        HandleFlowControlError();
      }
    }

    method HandleFlowControlError()
      requires Valid()
      modifies this, writer
      ensures Valid() && Leaves(old(writer.streams)) && writer.Unmoved(old(writer.Counters()))
      ensures View() == StreamAutomata.WriteAndClose(StreamAutomata.Dismiss(old(View()), Signal.OnError), Completion.ERROR)
    {
      hide StreamAutomata.WriteAndClose, StreamAutomata.Dismiss;
      Dismiss(Signal.OnError);
      WriteAndClose(Completion.ERROR);
    }

    method HandlePayload(complete: bool, counts: bool)
      requires Valid()
      modifies this, writer
      ensures Valid() && View() == StreamAutomata.HandlePayload(old(View()), complete, counts) && Leaves(old(writer.streams))
      ensures writer.Unmoved(old(writer.Counters()))
    {
      hide StreamAutomata.HandleStreamPayload;
      if kind == RequestResponseRequester {
        HandleResponse(complete, counts);
      } else if Consumes(kind) {
        HandleStreamPayload(complete, counts);
      }
    }

    method HandleResponse(complete: bool, counts: bool)
      requires Valid() && kind == RequestResponseRequester
      modifies this, writer
      ensures Valid() && View() == StreamAutomata.HandlePayload(old(View()), complete, counts) && Leaves(old(writer.streams))
      ensures writer.Unmoved(old(writer.Counters()))
    {
      hide StreamAutomata.CloseStream, StreamAutomata.WriteAndClose;
      if state != REQUESTED {
        crashed := true;
        return;
      }
      state := CLOSED;
      if counts {
        if !consumingSubscriber {
          crashed := true;
          return;
        }
        signals := signals + [Signal.OnNext];
      } else if !complete {
        WriteAndClose(Completion.ERROR);
        return;
      }
      CloseStream(COMPLETE);
    }

    method HandleStreamPayload(complete: bool, counts: bool)
      requires Valid()
      modifies this, writer
      ensures Valid() && View() == StreamAutomata.HandleStreamPayload(old(View()), complete, counts) && Leaves(old(writer.streams))
      ensures writer.Unmoved(old(writer.Counters()))
    {
      hide StreamAutomata.CloseStream, StreamAutomata.ProcessPayload;
      if state == NEW {
        crashed := true;
        return;
      }
      var end := complete && state != CLOSED;
      if end {
        state := CLOSED;
      }
      ProcessPayload(counts);
      if end {
        CloseStream(COMPLETE);
      }
    }

    method HandleError()
      requires Valid()
      modifies this, writer
      ensures Valid() && View() == StreamAutomata.HandleError(old(View())) && Leaves(old(writer.streams))
      ensures writer.Unmoved(old(writer.Counters()))
    {
      hide StreamAutomata.CloseStream, StreamAutomata.Dismiss;
      if Requests(kind) && state == NEW {
        crashed := true;
      } else if Requests(kind) && state != CLOSED {
        state := CLOSED;
        Dismiss(Signal.OnError);
        CloseStream(Completion.ERROR);
      }
    }

    method HandleCancel()
      requires Valid()
      modifies this, writer
      ensures Valid() && View() == StreamAutomata.HandleCancel(old(View())) && Leaves(old(writer.streams))
      ensures writer.Unmoved(old(writer.Counters()))
    {
      hide StreamAutomata.CloseStream;
      if !Requests(kind) && state != CLOSED {
        state := CLOSED;
        CloseStream(Completion.CANCEL);
      }
    }

    method HandleRequestN(n: Size)
      modifies this
      ensures View() == StreamAutomata.HandleRequestN(old(View()), n)
    {
      if Publishes(kind) {
        subscribed := producingSubscription;
        if n > 0 {
          if producingSubscription {
            granted := granted + n;
          } else {
            initialRequestN := Released(initialRequestN, n);
          }
        }
      }
    }

    method HandleFrame(e: Event)
      requires Valid() && StreamTable.OfPeer(e)
      modifies this, writer
      ensures Valid() && View() == Step(old(View()), e) && Leaves(old(writer.streams))
      ensures writer.Unmoved(old(writer.Counters()))
    {
      hide StreamAutomata.HandlePayload, StreamAutomata.HandleError, StreamAutomata.HandleCancel,
           StreamAutomata.HandleRequestN;
      match e {
        case PeerPayload(complete, counts) => HandlePayload(complete, counts);
        case PeerError => HandleError();
        case PeerCancel => HandleCancel();
        case PeerRequestN(credit) => HandleRequestN(credit);
      }
    }
  }

  /** The part of a connection that owns the streams, with the id counters of its streams factory. */
  class Connection {
    var nextStreamId: nat
    var lastPeerStreamId: nat
    var streams: map<nat, StreamAutomaton>
    var isClosed: bool
    /** Every stream there ever was. */
    ghost var all: map<nat, StreamAutomaton>

    ghost function Counters(): (nat, nat, bool, map<nat, StreamAutomaton>)
      reads this
    {
      (nextStreamId, lastPeerStreamId, isClosed, all)
    }

    /** Only the map may have changed. */
    ghost predicate Unmoved(before: (nat, nat, bool, map<nat, StreamAutomaton>))
      reads this
    {
      Counters() == before
    }

    ghost predicate Valid()
      reads this
    {
      && (forall id | id in all :: all[id].streamId == id && all[id].writer == this)
      && (forall id | id in streams :: id in all && streams[id] == all[id])
    }

    ghost function View(): StreamTable.Table
      requires Valid()
      reads this, all.Values
    {
      StreamTable.Table(nextStreamId, lastPeerStreamId, map id | id in all :: all[id].View(), isClosed)
    }

    constructor (client: bool)
      ensures Valid() && View() == StreamTable.Empty(client)
    {
      nextStreamId := if client then 1 else 2;
      lastPeerStreamId, streams, isClosed, all := 0, map[], false, map[];
    }

    method OnStreamClosed(streamId: nat, why: Completion)
      requires streamId in streams ==> streams[streamId].streamId == streamId && streams[streamId].writer == this
      modifies this, if streamId in streams then {streams[streamId]} else {}
      ensures streams == old(streams) - {streamId} && Unmoved(old(Counters()))
      ensures streamId in old(streams) ==>
        old(streams)[streamId].View() == StreamAutomata.CloseStream(old(streams[streamId].View()), why)
    {
      var _ := EndStreamInternal(streamId, why);
    }

    /** The stream leaves the map before it is notified. */
    method EndStreamInternal(streamId: nat, why: Completion) returns (found: bool)
      requires streamId in streams ==> streams[streamId].streamId == streamId && streams[streamId].writer == this
      modifies this, if streamId in streams then {streams[streamId]} else {}
      ensures found == (streamId in old(streams))
      ensures streams == old(streams) - {streamId} && Unmoved(old(Counters()))
      ensures found ==> old(streams)[streamId].View() == StreamAutomata.CloseStream(old(streams[streamId].View()), why)
    {
      hide StreamAutomata.EndStream;
      if streamId !in streams {
        return false;
      }
      var automaton := streams[streamId];
      streams := streams - {streamId};
      automaton.EndStream(why);
      return true;
    }

    /** Until the map is empty, the stream with the smallest id is ended. */
    method CloseStreams(why: Completion)
      requires Valid()
      modifies this, all.Values
      ensures Valid() && Unmoved(old(Counters())) && streams == map[]
      ensures View() == old(View()).(automata := StreamTable.Ended(old(View()).automata, why))
    {
      hide StreamAutomaton.View, StreamAutomaton.Registered, StreamAutomata.CloseStream, ClosedOrSame;
      ghost var before := View().automata;
      forall id | id in all ensures ClosedOrSame(all[id].View(), before[id], why) {
        NotClosedYet(before[id], why);
      }
      EndAll(why, before);
      forall id | id in all
        ensures all[id].View() == StreamAutomata.CloseStream(before[id], why)
      {
        OnlyRegisteredClose(all[id], before[id], why);
      }
      assert View().automata == StreamTable.Ended(before, why);
    }

    method EndAll(why: Completion, ghost before: map<nat, Automaton>)
      requires Valid() && before.Keys == all.Keys
      requires forall id | id in all :: ClosedOrSame(all[id].View(), before[id], why)
      modifies this, all.Values
      ensures Valid() && Unmoved(old(Counters())) && streams == map[]
      ensures forall id | id in all :: ClosedOrSame(all[id].View(), before[id], why)
    {
      hide StreamAutomaton.View, StreamAutomaton.Registered, StreamAutomata.CloseStream, ClosedOrSame, Connection.View;
      while streams != map[]
        invariant Valid() && Unmoved(old(Counters()))
        invariant forall id | id in all :: ClosedOrSame(all[id].View(), before[id], why)
        decreases |streams|
      {
        EndFirst(why, before);
      }
    }

    method EndFirst(why: Completion, ghost before: map<nat, Automaton>)
      requires Valid() && before.Keys == all.Keys && streams != map[]
      requires forall id | id in all :: ClosedOrSame(all[id].View(), before[id], why)
      modifies this, all.Values
      ensures Valid() && Unmoved(old(Counters())) && |streams| < |old(streams)|
      ensures forall id | id in all :: ClosedOrSame(all[id].View(), before[id], why)
    {
      hide StreamAutomaton.View, StreamAutomaton.Registered, StreamAutomata.CloseStream, ClosedOrSame, Connection.View;
      var first := Begin();
      ghost var now := map id | id in all :: all[id].View();
      CloseOne(first, why);
      forall id | id in all ensures ClosedOrSame(all[id].View(), before[id], why) {
        StaysClosedOrSame(now[id], all[id].View(), before[id], why);
      }
    }

    static predicate ClosedOrSame(now: Automaton, before: Automaton, why: Completion) {
      now == before || (!now.registered && now == StreamAutomata.CloseStream(before, why))
    }

    static lemma NotClosedYet(a: Automaton, why: Completion)
      ensures ClosedOrSame(a, a, why)
    {
    }

    static lemma StaysClosedOrSame(a: Automaton, b: Automaton, before: Automaton, why: Completion)
      requires ClosedOrSame(a, before, why)
      requires b == a || (b == StreamAutomata.CloseStream(a, why) && !b.registered)
      ensures ClosedOrSame(b, before, why)
    {
    }

    /** With an empty map nothing is registered, so what has not been closed had nothing to close. */
    lemma OnlyRegisteredClose(s: StreamAutomaton, a: Automaton, why: Completion)
      requires s.writer == this && streams == map[]
      requires ClosedOrSame(s.View(), a, why)
      ensures s.View() == StreamAutomata.CloseStream(a, why)
    {
    }

    method CloseOne(id: nat, why: Completion)
      requires Valid() && id in streams
      modifies this, all.Values
      ensures Valid() && Unmoved(old(Counters())) && streams == old(streams) - {id}
      ensures forall i | i in all && i != id :: all[i].View() == old(all[i].View())
      ensures all[id].View() == StreamAutomata.CloseStream(old(all[id].View()), why) && !all[id].View().registered
    {
      hide StreamAutomaton.View, StreamAutomata.CloseStream;
      label before:
      var _ := EndStreamInternal(id, why);
      forall i | i in all && i != id ensures all[i].View() == old(all[i].View()) {
        all[i].Unnoticed@before();
      }
      assert !all[id].Registered();
      all[id].RegisteredInView();
    }

    method Begin() returns (first: nat)
      requires streams != map[]
      ensures first in streams && forall id | id in streams :: first <= id
    {
      first :| first in streams;
      var rest := streams.Keys;
      while rest != {}
        invariant first in streams && rest <= streams.Keys
        invariant forall id | id in streams :: id in rest || first <= id
        decreases |rest|
      {
        var id :| id in rest;
        if id < first {
          first := id;
        }
        rest := rest - {id};
      }
    }

    method Close(why: Completion)
      requires Valid()
      modifies this, all.Values
      ensures Valid() && all == old(all)
      ensures View() == StreamTable.CloseStreams(old(View()), why)
    {
      hide StreamAutomaton.View, StreamAutomaton.Registered, StreamTable.Ended;
      if isClosed {
        return;
      }
      ghost var before := View();
      isClosed := true;
      assert View().automata == before.automata;
      CloseStreams(why);
    }

    method GetNextStreamId() returns (streamId: nat)
      requires nextStreamId <= 0x7FFF_FFFF - 2
      modifies this`nextStreamId
      ensures streamId == old(nextStreamId) && nextStreamId == streamId + 2
    {
      streamId := nextStreamId;
      nextStreamId := nextStreamId + 2;
    }

    method RegisterNewPeerStreamId(streamId: nat) returns (ok: bool)
      requires Valid()
      modifies this`lastPeerStreamId
      ensures ok == StreamTable.Accepts(old(View()), streamId)
      ensures lastPeerStreamId == if ok then streamId else old(lastPeerStreamId)
    {
      if nextStreamId % 2 == streamId % 2 {
        return false;
      }
      if streamId <= lastPeerStreamId {
        return false;
      }
      lastPeerStreamId := streamId;
      return true;
    }

    /** The id must be new: that the library never breaks this is `StreamTable.IdsAreNeverReused`. */
    method AddStream(kind: Kind, streamId: nat, initialRequestN: Size) returns (automaton: StreamAutomaton)
      requires Valid() && streamId !in all
      modifies this
      ensures Valid() && fresh(automaton) && all == old(all)[streamId := automaton]
      ensures View() == StreamTable.Put(old(View()), streamId, Created(kind, initialRequestN))
    {
      automaton := new StreamAutomaton(kind, streamId, this, initialRequestN);
      Register(automaton);
    }

    method Register(automaton: StreamAutomaton)
      requires Valid() && automaton.streamId !in all && automaton.writer == this
      requires forall id | id in all :: all[id] != automaton
      modifies this
      ensures Valid() && all == old(all)[automaton.streamId := automaton]
      ensures streams == old(streams)[automaton.streamId := automaton]
      ensures automaton.Registered() && View() == StreamTable.Put(old(View()), automaton.streamId, automaton.View())
    {
      hide StreamAutomaton.View, View;
      streams := streams[automaton.streamId := automaton];
      all := all[automaton.streamId := automaton];
      forall id | id in old(all) ensures all[id].View() == old(all[id].View()) {
        all[id].Unnoticed();
      }
      Joined(automaton);
    }

    twostate lemma Joined(automaton: StreamAutomaton)
      requires old(Valid()) && Valid() && unchanged(this`nextStreamId, this`lastPeerStreamId, this`isClosed)
      requires automaton.streamId !in old(all) && all == old(all)[automaton.streamId := automaton]
      requires forall id | id in old(all) :: all[id].View() == old(all[id].View())
      ensures View() == StreamTable.Put(old(View()), automaton.streamId, automaton.View())
    {
      hide StreamAutomaton.View, Valid;
      assert View().automata == old(View()).automata[automaton.streamId := automaton.View()];
    }

    method CreateRequester(kind: Kind) returns (automaton: StreamAutomaton)
      requires Valid() && nextStreamId !in all && nextStreamId <= 0x7FFF_FFFF - 2
      modifies this
      ensures Valid() && fresh(automaton) && all == old(all)[old(nextStreamId) := automaton]
      ensures View() == StreamTable.Apply(old(View()), StreamTable.CreateRequester(kind))
    {
      hide StreamAutomaton.View, Created, StreamTable.Apply;
      Creates(View(), kind);
      var streamId := GetNextStreamId();
      automaton := AddStream(kind, streamId, 0);
    }

    /** A fire-and-forget request uses up an id; no stream is kept for it. */
    method RequestFireAndForget() returns (streamId: nat)
      requires Valid() && nextStreamId <= 0x7FFF_FFFF - 2
      modifies this`nextStreamId
      ensures Valid() && streamId == old(nextStreamId)
      ensures View() == StreamTable.Apply(old(View()), StreamTable.SendFireAndForget)
    {
      streamId := GetNextStreamId();
    }

    static lemma Creates(t: StreamTable.Table, kind: Kind)
      ensures StreamTable.Apply(t, StreamTable.CreateRequester(kind)) ==
        StreamTable.Put(t.(nextStreamId := t.nextStreamId + 2), t.nextStreamId, Created(kind, 0))
    {
    }

    method HandleUnknownStream(streamId: nat, frame: StreamTable.StreamFrame)
      requires Valid() && (StreamTable.Accepts(View(), streamId) ==> streamId !in all)
      modifies this, all.Values
      ensures Valid() && View() == StreamTable.HandleUnknownStream(old(View()), streamId, frame)
    {
      hide StreamAutomaton.View, StreamAutomata.CloseStream, StreamTable.CloseStreams, Step;
      ghost var before := View();
      var ok := RegisterNewPeerStreamId(streamId);
      assert View() == before.(lastPeerStreamId := lastPeerStreamId);
      if !ok {
        return;
      }
      match frame {
        case Request(kind, n) => var _ := AddStream(kind, streamId, n);
        case FireAndForget =>
        case _ => Close(Completion.ERROR);
      }
    }

    method Forward(streamId: nat, event: Event)
      requires Valid() && streamId in streams && StreamTable.OfPeer(event)
      modifies this, all.Values
      ensures Valid()
      ensures View() == StreamTable.Put(old(View()), streamId, Step(old(View()).automata[streamId], event))
    {
      hide StreamAutomaton.View, Step;
      var automaton := streams[streamId];
      label before:
      automaton.HandleFrame(event);
      forall id | id in all && id != streamId ensures all[id].View() == old(all[id].View()) {
        all[id].Unnoticed@before();
      }
    }

    method HandleStreamFrame(streamId: nat, frame: StreamTable.StreamFrame)
      requires Valid() && (frame.ForStream? ==> StreamTable.OfPeer(frame.event))
      requires StreamTable.Accepts(View(), streamId) ==> streamId !in all
      modifies this, all.Values
      ensures Valid()
      ensures View() == if streamId in old(streams)
        then StreamTable.HandleStreamFrame(old(View()), streamId, frame)
        else StreamTable.HandleUnknownStream(old(View()), streamId, frame)
    {
      hide StreamAutomaton.View, StreamAutomata.CloseStream, StreamTable.CloseStreams, Step;
      if streamId !in streams {
        HandleUnknownStream(streamId, frame);
        return;
      }
      match frame {
        case ForStream(event) => Forward(streamId, event);
        case OtherFrame(false) =>
        case _ => Close(Completion.ERROR);
      }
    }

    /** The frame goes to the stream that has the id, or may open a new one; a closed connection drops it. */
    method ProcessFrame(streamId: nat, frame: StreamTable.StreamFrame)
      requires Valid() && (frame.ForStream? ==> StreamTable.OfPeer(frame.event))
      requires StreamTable.Accepts(View(), streamId) ==> streamId !in all
      modifies this, all.Values
      ensures Valid() && View() == StreamTable.Apply(old(View()), StreamTable.FrameArrives(streamId, frame))
    {
      hide StreamTable.HandleStreamFrame, StreamTable.HandleUnknownStream;
      if isClosed {
        return;
      }
      HandleStreamFrame(streamId, frame);
    }
  }
}
