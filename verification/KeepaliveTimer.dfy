/** The keepalive timer: callbacks are never cancelled, but carry the generation in which they were scheduled. */
module KeepaliveTimer {
  import opened Frames

  const GENERATIONS: nat := 0x1_0000_0000

  /** What happened, as far as it matters; a stale callback does nothing. */
  datatype Happened = Started | Stopped | Answered | Sent | Disconnected | Stale

  /** `scheduled` holds the generations of the callbacks that have not fired, `running` says that a connection is set,
      `log` what happened. */
  datatype Timer = Timer(generation: nat, pending: bool, running: bool, scheduled: seq<nat>, log: seq<Happened>)

  function Idle(): Timer {
    Timer(0, false, false, [], [])
  }

  function Schedule(t: Timer): Timer {
    t.(scheduled := t.scheduled + [t.generation])
  }

  function Logged(t: Timer, h: Happened): Timer {
    t.(log := t.log + [h])
  }

  function Stop(t: Timer): Timer {
    t.(generation := (t.generation + 1) % GENERATIONS, pending := false, running := false)
  }

  function Start(t: Timer): Timer {
    Schedule(t.(running := true, generation := (t.generation + 1) % GENERATIONS))
  }

  function SendKeepalive(t: Timer): Timer {
    if t.pending then Logged(Stop(t), Disconnected) else Logged(Schedule(t.(pending := true)), Sent)
  }

  /** A scheduled callback fires. */
  function Fire(t: Timer, k: nat): Timer
    requires k < |t.scheduled|
  {
    var u := t.(scheduled := t.scheduled[..k] + t.scheduled[k + 1..]);
    if t.scheduled[k] == t.generation then SendKeepalive(u) else Logged(u, Stale)
  }

  datatype Event = AppStart | AppStop | KeepaliveReceived | Fires(k: nat)

  /** A timer is not started while a keepalive is unanswered. */
  predicate Enabled(t: Timer, e: Event) {
    match e
    case AppStart => !t.pending
    case Fires(k) => k < |t.scheduled|
    case _ => true
  }

  function Step(t: Timer, e: Event): Timer
    requires Enabled(t, e)
  {
    match e
    case AppStart => Logged(Start(t), Started)
    case AppStop => Logged(Stop(t), Stopped)
    case KeepaliveReceived => Logged(t.(pending := false), Answered)
    case Fires(k) => Fire(t, k)
  }

  predicate IsRun(t: Timer, events: seq<Event>)
    decreases |events|
  {
    events == [] || (Enabled(t, events[0]) && IsRun(Step(t, events[0]), events[1..]))
  }

  function After(t: Timer, events: seq<Event>): Timer
    requires IsRun(t, events)
    decreases |events|
  {
    if events == [] then t else After(Step(t, events[0]), events[1..])
  }

  // ---- What the timer is for ----

  /** A keepalive was sent, and since then nothing has answered it and the timer was neither stopped nor started. */
  predicate Unanswered(log: seq<Happened>) {
    if log == [] then false
    else match log[|log| - 1]
      case Sent => true
      case Stale => Unanswered(log[..|log| - 1])
      case _ => false
  }

  /** How many callbacks carry the current generation. */
  function Live(scheduled: seq<nat>, generation: nat): nat {
    if scheduled == [] then 0
    else Live(scheduled[..|scheduled| - 1], generation) + (if scheduled[|scheduled| - 1] == generation then 1 else 0)
  }

  lemma LiveAppends(scheduled: seq<nat>, g: nat, generation: nat)
    ensures Live(scheduled + [g], generation) == Live(scheduled, generation) + (if g == generation then 1 else 0)
  {
    assert (scheduled + [g])[..|scheduled|] == scheduled;
  }

  lemma {:induction false} LiveWithout(scheduled: seq<nat>, k: nat, generation: nat)
    requires k < |scheduled|
    ensures Live(scheduled, generation)
      == Live(scheduled[..k] + scheduled[k + 1..], generation) + (if scheduled[k] == generation then 1 else 0)
    decreases |scheduled|
  {
    var front, last := scheduled[..|scheduled| - 1], scheduled[|scheduled| - 1];
    if k == |scheduled| - 1 {
      assert scheduled[..k] + scheduled[k + 1..] == front;
    } else {
      LiveWithout(front, k, generation);
      assert scheduled[..k] + scheduled[k + 1..] == (front[..k] + front[k + 1..]) + [last];
      LiveAppends(front[..k] + front[k + 1..], last, generation);
    }
  }

  predicate AllBefore(scheduled: seq<nat>, generation: nat) {
    forall i | 0 <= i < |scheduled| :: scheduled[i] < generation
  }

  lemma {:induction false} NoneLater(scheduled: seq<nat>, generation: nat)
    requires AllBefore(scheduled, generation)
    ensures Live(scheduled, generation) == 0
    decreases |scheduled|
  {
    if scheduled != [] {
      NoneLater(scheduled[..|scheduled| - 1], generation);
    }
  }

  /** No generation has been used up, and exactly one callback is live while the timer runs. */
  ghost predicate Ok(t: Timer) {
    && t.generation <= |t.log|
    && AllBefore(t.scheduled, t.generation + 1)
    && Live(t.scheduled, t.generation) == (if t.running then 1 else 0)
    && (t.pending ==> t.running)
    && (t.pending <==> Unanswered(t.log))
  }

  lemma LogsOne(log: seq<Happened>, h: Happened)
    ensures Unanswered(log + [h]) == match h
      case Sent => true
      case Stale => Unanswered(log)
      case _ => false
  {
    assert (log + [h])[..|log|] == log;
  }

  lemma FireOk(t: Timer, k: nat)
    requires Ok(t) && k < |t.scheduled| && |t.log| < GENERATIONS - 1
    ensures Ok(Fire(t, k)) && |Fire(t, k).log| == |t.log| + 1
  {
    hide Live, Unanswered;
    var u := t.(scheduled := t.scheduled[..k] + t.scheduled[k + 1..]);
    LiveWithout(t.scheduled, k, t.generation);
    if t.scheduled[k] != t.generation {
      LogsOne(t.log, Stale);
    } else if t.pending {
      LogsOne(t.log, Disconnected);
      NoneLater(u.scheduled, t.generation + 1);
    } else {
      LogsOne(t.log, Sent);
      LiveAppends(u.scheduled, t.generation, t.generation);
    }
  }

  lemma StepOk(t: Timer, e: Event)
    requires Ok(t) && Enabled(t, e) && |t.log| < GENERATIONS - 1
    ensures Ok(Step(t, e)) && |Step(t, e).log| == |t.log| + 1
  {
    hide Live, Unanswered, Fire;
    match e
    case AppStart =>
      LogsOne(t.log, Started);
      NoneLater(t.scheduled, t.generation + 1);
      LiveAppends(t.scheduled, t.generation + 1, t.generation + 1);
    case AppStop =>
      LogsOne(t.log, Stopped);
      NoneLater(t.scheduled, t.generation + 1);
    case KeepaliveReceived => LogsOne(t.log, Answered);
    case Fires(k) => FireOk(t, k);
  }

  lemma {:induction false} RunOk(t: Timer, events: seq<Event>)
    requires Ok(t) && IsRun(t, events) && |t.log| + |events| < GENERATIONS
    ensures Ok(After(t, events)) && |After(t, events).log| == |t.log| + |events|
    decreases |events|
  {
    hide Ok, Step, Enabled;
    if events != [] {
      StepOk(t, events[0]);
      RunOk(Step(t, events[0]), events[1..]);
    }
  }

  /** Over every run too short for the generation to wrap around: one callback is live while the timer runs and none
      while it does not; a firing callback acts if and only if it is that one; and it disconnects if and only if the
      keepalive before it has not been answered. */
  lemma EveryRun(events: seq<Event>, k: nat)
    requires IsRun(Idle(), events) && |events| < GENERATIONS
    requires k < |After(Idle(), events).scheduled|
    ensures var t, u := After(Idle(), events), Fire(After(Idle(), events), k);
      && Live(t.scheduled, t.generation) == (if t.running then 1 else 0)
      && (t.scheduled[k] == t.generation ==> t.running)
      && (t.scheduled[k] != t.generation ==> u == Logged(t.(scheduled := u.scheduled), Stale))
      && (u.log == t.log + [Disconnected] <==> t.scheduled[k] == t.generation && Unanswered(t.log))
      && (u.log == t.log + [Disconnected] ==> !u.running && !u.pending)
  {
    hide IsRun, After, Enabled;
    RunOk(Idle(), events);
    var t := After(Idle(), events);
    LiveWithout(t.scheduled, k, t.generation);
    var u := Fire(t, k);
    assert u.log[|t.log|] == if t.scheduled[k] != t.generation then Stale else if t.pending then Disconnected else Sent;
  }

  lemma IdleOk()
    ensures Ok(Idle())
  {
  }

  lemma {:induction false} GenerationGrows(t: Timer, events: seq<Event>)
    requires Ok(t) && IsRun(t, events) && |t.log| + |events| < GENERATIONS
    ensures After(t, events).generation >= t.generation
    decreases |events|
  {
    hide Live, Unanswered;
    if events != [] {
      StepOk(t, events[0]);
      GenerationGrows(Step(t, events[0]), events[1..]);
    }
  }

  /** Once the timer has been stopped or started again, a callback that was scheduled before that never acts, however
      long it takes to fire. */
  lemma OldCallbacksNeverAct(events: seq<Event>, again: Event, later: seq<Event>, k: nat)
    requires IsRun(Idle(), events) && |events| + 1 + |later| < GENERATIONS
    requires (again == AppStop || again == AppStart) && Enabled(After(Idle(), events), again)
    requires IsRun(Step(After(Idle(), events), again), later)
    requires k < |After(Step(After(Idle(), events), again), later).scheduled|
    requires After(Step(After(Idle(), events), again), later).scheduled[k] in After(Idle(), events).scheduled
    ensures var u := After(Step(After(Idle(), events), again), later);
      Fire(u, k) == Logged(u.(scheduled := Fire(u, k).scheduled), Stale)
  {
    hide IsRun, After, Live, Unanswered;
    IdleOk();
    RunOk(Idle(), events);
    var t := After(Idle(), events);
    StepOk(t, again);
    GenerationGrows(Step(t, again), later);
    var u := After(Step(t, again), later);
    var i :| 0 <= i < |t.scheduled| && t.scheduled[i] == u.scheduled[k];
    assert t.scheduled[i] < t.generation + 1;
  }

  /** The timer of the library, an object updated in place. */
  class FollyKeepaliveTimer {
    var generation: nat
    var pending: bool
    var connection: bool
    /** The callbacks handed to the event base, by the generation they captured. */
    var scheduled: seq<nat>
    ghost var log: seq<Happened>

    ghost function View(): Timer
      reads this
    {
      Timer(generation, pending, connection, scheduled, log)
    }

    constructor ()
      ensures View() == Idle()
    {
      generation, pending, connection, scheduled, log := 0, false, false, [], [];
    }

    method ScheduleCallback()
      modifies this
      ensures View() == Schedule(old(View()))
    {
      scheduled := scheduled + [generation];
    }

    method RunCallback(k: nat)
      requires k < |scheduled|
      modifies this
      ensures View() == Fire(old(View()), k)
    {
      var scheduledGeneration := scheduled[k];
      scheduled := scheduled[..k] + scheduled[k + 1..];
      if generation == scheduledGeneration {
        SendKeepaliveOrDisconnect();
      } else {
        log := log + [Stale];
      }
    }

    method SendKeepaliveOrDisconnect()
      modifies this
      ensures View() == SendKeepalive(old(View()))
    {
      if pending {
        StopTimer();
        log := log + [Disconnected];
      } else {
        pending := true;
        ScheduleCallback();
        log := log + [Sent];
      }
    }

    method StopTimer()
      modifies this
      ensures View() == Stop(old(View()))
    {
      generation := (generation + 1) % GENERATIONS;
      pending, connection := false, false;
    }

    method StartTimer()
      modifies this
      ensures View() == Start(old(View()))
    {
      connection := true;
      generation := (generation + 1) % GENERATIONS;
      ScheduleCallback();
    }

    method ReceiveKeepalive()
      modifies this
      ensures View() == old(View()).(pending := false)
    {
      pending := false;
    }
  }
}
