/** The queues of a frame transport as a value: frames wait for write allowance in one direction and for a frame
    processor in the other.  Calls do not nest. */
module TransportState {
  import opened Frames
  import opened Allowances

  type Bytes = seq<Byte>

  /** What frame processors are told. */
  datatype Heard = Read(frame: Bytes) | Terminal

  /** `handed`, `written`, `allowed`, `arrived` and `heard` record the frames handed in for writing, the frames written,
      the sum of the allowance granted, the frames that arrived, and what processors were told. */
  datatype Transport = Transport(
    open: bool, connected: bool, processor: bool, allowance: Size,
    pendingWrites: seq<Bytes>, pendingReads: seq<Bytes>, pendingTerminal: bool,
    handed: seq<Bytes>, written: seq<Bytes>, allowed: nat, arrived: seq<Bytes>, heard: seq<Heard>)

  function Fresh(): Transport {
    Transport(true, false, false, 0, [], [], false, [], [], 0, [], [])
  }

  function Reads(frames: seq<Bytes>): seq<Heard> {
    seq(|frames|, i requires 0 <= i < |frames| => Read(frames[i]))
  }

  /** As many of the queued frames are written as there is allowance for. */
  function Flushed(t: Transport): Transport {
    var n := if t.allowance == INFINITE || |t.pendingWrites| < t.allowance then |t.pendingWrites| else t.allowance;
    t.(written := t.written + t.pendingWrites[..n], pendingWrites := t.pendingWrites[n..],
       allowance := if t.allowance == INFINITE then INFINITE else t.allowance - n)
  }

  /** `drainOutputFramesQueue`. */
  function Drain(t: Transport): Transport {
    if t.open then Flushed(t) else t
  }

  function Terminate(t: Transport): Transport {
    if t.processor then t.(processor := false, heard := t.heard + [Terminal]) else t.(pendingTerminal := true)
  }

  /** `setFrameProcessor`: a new processor is told all that was kept, the terminal last. */
  function SetProcessor(t: Transport, present: bool): Transport {
    var c := Drain(t.(processor := present, connected := t.connected || present));
    if !present then c
    else
      var d := c.(heard := c.heard + Reads(c.pendingReads), pendingReads := []);
      if d.pendingTerminal then Terminate(d).(pendingTerminal := false) else d
  }

  function Close(t: Transport): Transport {
    t.(processor := false, open := false)
  }

  function FrameArrives(t: Transport, frame: Bytes): Transport {
    var u := t.(arrived := t.arrived + [frame]);
    if t.open && t.processor then u.(heard := u.heard + [Read(frame)]) else u.(pendingReads := u.pendingReads + [frame])
  }

  /** Write allowance: if some was left, nothing can be waiting for it. */
  function Request(t: Transport, n: Size): Transport {
    if !t.open then t
    else
      var u := t.(allowance := Released(t.allowance, n), allowed := t.allowed + n);
      if t.allowance > 0 then u else Drain(u)
  }

  function OutputFrame(t: Transport, frame: Bytes): Transport {
    var u := Drain(t).(handed := t.handed + [frame]);
    if u.open && u.pendingWrites == [] && u.allowance >= 1 then
      u.(written := u.written + [frame], allowance := Acquired(u.allowance, 1))
    else u.(pendingWrites := u.pendingWrites + [frame])
  }

  datatype Event =
    | AppSetsProcessor(present: bool) | AppCloses | AppSends(frame: Bytes)
    | PeerFrame(frame: Bytes) | PeerTerminal | Allowance(n: Size)

  /** A processor is only set on an open transport, and allowance only comes from a connected output. */
  predicate Enabled(t: Transport, e: Event) {
    match e
    case AppSetsProcessor(present) => present ==> t.open
    case Allowance(_) => t.open ==> t.connected
    case _ => true
  }

  function Step(t: Transport, e: Event): Transport {
    match e
    case AppSetsProcessor(present) => SetProcessor(t, present)
    case AppCloses => Close(t)
    case AppSends(frame) => OutputFrame(t, frame)
    case PeerFrame(frame) => FrameArrives(t, frame)
    case PeerTerminal => Terminate(t)
    case Allowance(n) => Request(t, n)
  }

  predicate IsRun(t: Transport, events: seq<Event>)
    decreases |events|
  {
    events == [] || (Enabled(t, events[0]) && IsRun(Step(t, events[0]), events[1..]))
  }

  function After(t: Transport, events: seq<Event>): Transport
    decreases |events|
  {
    if events == [] then t else After(Step(t, events[0]), events[1..])
  }

  // ---- The invariant ----

  function FramesHeard(heard: seq<Heard>): seq<Bytes> {
    if heard == [] then []
    else FramesHeard(heard[..|heard| - 1]) + (match heard[|heard| - 1] case Read(f) => [f] case Terminal => [])
  }

  ghost predicate Ok(t: Transport) {
    && t.handed == t.written + t.pendingWrites
    && (t.allowed < INFINITE ==> t.allowance + |t.written| == t.allowed)
    && (t.open && t.pendingWrites != [] ==> t.allowance == 0)
    && (!t.connected ==> t.allowance == 0)
    && t.arrived == FramesHeard(t.heard) + t.pendingReads
    && (t.processor ==> t.open && t.pendingReads == [] && !t.pendingTerminal)
  }

  lemma FlushedOk(t: Transport)
    requires t.handed == t.written + t.pendingWrites
    requires t.allowed < INFINITE ==> t.allowance + |t.written| == t.allowed
    ensures var u := Flushed(t);
      && u.handed == u.written + u.pendingWrites
      && (u.allowed < INFINITE ==> u.allowance + |u.written| == u.allowed)
      && (u.pendingWrites != [] ==> u.allowance == 0)
      && (t.allowance == 0 ==> u.allowance == 0)
      && u == t.(written := u.written, pendingWrites := u.pendingWrites, allowance := u.allowance)
  {
    var n := |t.pendingWrites| - |Flushed(t).pendingWrites|;
    assert t.pendingWrites == t.pendingWrites[..n] + t.pendingWrites[n..];
  }

  lemma HearsOne(heard: seq<Heard>, h: Heard)
    ensures FramesHeard(heard + [h]) == FramesHeard(heard) + (match h case Read(f) => [f] case Terminal => [])
  {
    assert (heard + [h])[..|heard|] == heard;
  }

  lemma {:induction false} HearsAll(heard: seq<Heard>, frames: seq<Bytes>)
    ensures FramesHeard(heard + Reads(frames)) == FramesHeard(heard) + frames
    decreases |frames|
  {
    hide FramesHeard;
    if frames == [] {
      assert heard + Reads(frames) == heard;
    } else {
      var front, last := frames[..|frames| - 1], frames[|frames| - 1];
      HearsAll(heard, front);
      HearsOne(heard + Reads(front), Read(last));
      assert heard + Reads(frames) == heard + Reads(front) + [Read(last)];
      assert frames == front + [last];
    }
  }

  lemma SetProcessorOk(t: Transport, present: bool)
    requires Ok(t) && (present ==> t.open)
    ensures Ok(SetProcessor(t, present))
  {
    hide Flushed;
    var b := t.(processor := present, connected := t.connected || present);
    FlushedOk(b);
    var c := Drain(b);
    if present {
      HearsAll(c.heard, c.pendingReads);
      HearsOne(c.heard + Reads(c.pendingReads), Terminal);
    }
  }

  lemma RequestOk(t: Transport, n: Size)
    requires Ok(t) && (t.open ==> t.connected)
    ensures Ok(Request(t, n))
  {
    hide Flushed, FramesHeard;
    if t.open {
      ReleaseSaturates(t.allowance, n);
      FlushedOk(t.(allowance := Released(t.allowance, n), allowed := t.allowed + n));
    }
  }

  lemma OutputFrameOk(t: Transport, frame: Bytes)
    requires Ok(t)
    ensures Ok(OutputFrame(t, frame))
  {
    hide Flushed, FramesHeard;
    FlushedOk(t);
    var u := Drain(t).(handed := t.handed + [frame]);
    assert t.handed + [frame] == u.written + (u.pendingWrites + [frame]);
  }

  lemma FrameArrivesOk(t: Transport, frame: Bytes)
    requires Ok(t)
    ensures Ok(FrameArrives(t, frame))
  {
    hide FramesHeard;
    HearsOne(t.heard, Read(frame));
    assert t.arrived + [frame] == FramesHeard(t.heard) + (t.pendingReads + [frame]);
  }

  lemma TerminateOk(t: Transport)
    requires Ok(t)
    ensures Ok(Terminate(t))
  {
    hide FramesHeard;
    HearsOne(t.heard, Terminal);
  }

  lemma StepOk(t: Transport, e: Event)
    requires Ok(t) && Enabled(t, e)
    ensures Ok(Step(t, e))
  {
    hide FramesHeard, SetProcessor, Request, OutputFrame, FrameArrives, Terminate;
    match e
    case AppSetsProcessor(present) => SetProcessorOk(t, present);
    case AppCloses =>
    case AppSends(frame) => OutputFrameOk(t, frame);
    case PeerFrame(frame) => FrameArrivesOk(t, frame);
    case PeerTerminal => TerminateOk(t);
    case Allowance(n) => RequestOk(t, n);
  }

  lemma {:induction false} RunOk(t: Transport, events: seq<Event>)
    requires Ok(t) && IsRun(t, events)
    ensures Ok(After(t, events))
    decreases |events|
  {
    hide Ok, Step, Enabled;
    if events != [] {
      StepOk(t, events[0]);
      RunOk(Step(t, events[0]), events[1..]);
    }
  }

  // ---- The theorems ----

  /** Over every run: the frames handed in are the frames written, in order, followed by those that wait; no more is
      written than was allowed; an open transport with waiting frames has no allowance left, so a request that finds
      some has nothing to write; and processors have been told the frames that arrived, in order, except those that
      wait for a processor. */
  lemma EveryRun(events: seq<Event>)
    requires IsRun(Fresh(), events)
    ensures var t := After(Fresh(), events);
      && t.handed == t.written + t.pendingWrites
      && (t.allowed < INFINITE ==> |t.written| <= t.allowed)
      && (t.open && t.pendingWrites != [] ==> t.allowance == 0)
      && t.arrived == FramesHeard(t.heard) + t.pendingReads
      && (t.processor ==> t.pendingReads == [])
  {
    hide IsRun, After, FramesHeard;
    FreshOk();
    RunOk(Fresh(), events);
  }

  lemma FreshOk()
    ensures Ok(Fresh())
  {
  }

  /** The early return of a request loses nothing: draining would find nothing to write. */
  lemma EarlyReturnLosesNothing(events: seq<Event>, n: Size)
    requires IsRun(Fresh(), events) && After(Fresh(), events).open && After(Fresh(), events).connected
    ensures var t := After(Fresh(), events);
      Request(t, n) == Drain(t.(allowance := Released(t.allowance, n), allowed := t.allowed + n))
  {
    hide *;
    FreshOk();
    RunOk(Fresh(), events);
    NothingWaits(After(Fresh(), events), n);
  }

  lemma NothingWaits(t: Transport, n: Size)
    requires Ok(t) && t.open
    ensures Request(t, n) == Drain(t.(allowance := Released(t.allowance, n), allowed := t.allowed + n))
  {
    hide FramesHeard, Released, Flushed;
    if t.allowance > 0 {
      NothingToFlush(t.(allowance := Released(t.allowance, n), allowed := t.allowed + n));
    }
  }

  lemma NothingToFlush(t: Transport)
    requires t.pendingWrites == []
    ensures Flushed(t) == t
  {
    assert t.written + t.pendingWrites[..0] == t.written;
  }

  /** A newly set processor is told everything that was kept, in order, before the terminal, and nothing after it. */
  lemma ProcessorCatchesUp(events: seq<Event>)
    requires IsRun(Fresh(), events) && After(Fresh(), events).open
    ensures var t, u := After(Fresh(), events), SetProcessor(After(Fresh(), events), true);
      && u.heard == t.heard + Reads(t.pendingReads) + (if t.pendingTerminal then [Terminal] else [])
      && u.pendingReads == [] && (u.processor <==> !t.pendingTerminal)
      && u.arrived == FramesHeard(u.heard)
  {
    hide IsRun, After, FramesHeard, Flushed;
    FreshOk();
    RunOk(Fresh(), events);
    var t := After(Fresh(), events);
    SetProcessorOk(t, true);
    FlushedOk(t.(processor := true, connected := true));
  }
}
