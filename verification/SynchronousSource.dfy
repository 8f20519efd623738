/** The synchronous source of a pipeline: the subscription whose process loop drives everything, as the library has it,
    an object updated in place. */
module SynchronousSource {
  import opened Pipelines
  import opened PipelineLaws
  import opened PipelineLists

  /** `range` reports what it was asked for, `justN` what it emitted. */
  datatype Kind = RANGE | JUST_N

  /** The takes are small enough for the source's 63-bit counter. */
  ghost predicate Bounded(stages: seq<Stage>, n: nat) {
    forall i | 0 <= i < |stages| :: stages[i].Take? ==> stages[i].limit + n < NO_FLOW_CONTROL
  }

  ghost predicate HasTake(stages: seq<Stage>) {
    exists i | 0 <= i < |stages| :: stages[i].Take?
  }

  /** What a run comes to: the values received, whether it crashes, and how often the subscriber hears of the end. */
  datatype Outcome = Outcome(received: seq<int>, crashes: bool, completions: nat)

  /** The outcome on lists, if `received` has been received and the operators are now `stages`. */
  function Result(stages: seq<Stage>, received: seq<int>, rest: seq<int>): Outcome {
    Outcome(received + Applied(stages, rest), RunOutTogether(stages, rest), Completions(stages, rest))
  }

  /** The pipeline as it is subscribed, before the first request. */
  function Subscribed(stages: seq<Stage>, batch: int): (l: Line)
    ensures Shaped(l)
  {
    Line(stages, seq(|stages|, i => 0), seq(|stages| + 1, i => true), 0, batch, batch, [], 0, false, 0)
  }

  /** The source is running: `used` of its credit is settled, `e` values went out since, and what has been received and
      what the operators make of the values left is the whole result. */
  ghost predicate Live(l: Line, used: int, e: nat, rest: seq<int>, expected: Outcome) {
    && Ready(l) && l.completions == 0
    && Above(l.stages, l.pend, |l.stages|, l.pending)
    && l.granted - used - e == Up(l.stages, |l.stages|, l.pending)
    && l.requested <= NO_FLOW_CONTROL
    && (l.requested == l.granted - used || (!HasTake(l.stages) && l.requested == NO_FLOW_CONTROL))
    && Bounded(l.stages, |rest| + e)
    && Result(l.stages, l.received, rest) == expected
  }

  /** A take has run out and cancelled the source, which still has `left` values. */
  ghost predicate Over(l: Line, left: nat, expected: Outcome) {
    && Shaped(l) && !l.crashed && NoneAttached(l) && l.requested == CANCELED && l.completions == 1
    && expected == Outcome(l.received, false, if left == 0 then 2 else 1)
  }

  /** Nothing can happen any more. */
  ghost predicate Ended(l: Line, expected: Outcome) {
    && Shaped(l) && !l.crashed && NoneAttached(l) && l.requested == CANCELED
    && expected == Outcome(l.received, false, l.completions)
  }

  /** A second take ran out with the same value. */
  ghost predicate Crashed(l: Line, expected: Outcome) {
    Shaped(l) && l.crashed && l.received == expected.received && expected.crashes
  }

  lemma UpIsNeed(stages: seq<Stage>, pend: seq<int>, x: int)
    requires |stages| == |pend| && Above(stages, pend, |stages|, x)
    ensures Need(stages, 0, x) == Up(stages, |stages|, x)
    ensures Below(stages, pend, 0, x)
  {
    CutAtTop(stages, pend, 0, x);
  }

  lemma KeepsBound(stages: seq<Stage>, v: int, n: nat)
    requires Bounded(stages, n + 1)
    ensures Bounded(Passed(stages, 0, v), n + 1) && HasTake(Passed(stages, 0, v)) == HasTake(stages)
  {
    PassedTakes(stages, 0, v);
  }

  /** With a take in the line, the source is never asked for so much that its counter overflows. */
  lemma NoOverflow(stages: seq<Stage>, x: int, n: nat)
    requires HasTake(stages) && Bounded(stages, n) && n < NO_FLOW_CONTROL && x >= 0
    ensures 0 <= Need(stages, 0, x) && Need(stages, 0, x) + n < NO_FLOW_CONTROL
  {
    var j :| 0 <= j < |stages| && stages[j].Take?;
    NeedAtMost(stages, 0, x, j);
  }

  /** The list side of one value. */
  lemma ListsOne(stages: seq<Stage>, received: seq<int>, rest: seq<int>)
    requires rest != [] && AllOpen(stages)
    ensures var ran, after := RunningOut(stages, 0, rest[0]), Passed(stages, 0, rest[0]);
      && (ran == 0 <==> AllOpen(after))
      && Result(stages, received, rest) ==
        if ran == 0 then Result(after, received + Out(stages, 0, rest[0]), rest[1..])
        else Outcome(received + Out(stages, 0, rest[0]), ran >= 2, if |rest| == 1 then 2 else 1)
  {
    hide Out, RunningOut, Passed, Applied;
    var v, after := rest[0], Passed(stages, 0, rest[0]);
    assert rest == [v] + rest[1..] && stages[0..] == stages && after[0..] == after;
    AppliedToOne(stages, 0, v, rest[1..]);
    OpenUnlessRunningOut(stages, 0, v);
    assert OpenFrom(after, 0) <==> AllOpen(after);
    assert received + (Out(stages, 0, v) + Applied(after, rest[1..])) == received + Out(stages, 0, v) + Applied(after, rest[1..]);
    if RunningOut(stages, 0, v) >= 1 {
      NothingOutOfClosed(after, rest[1..]);
      assert !RunOutTogether(after, rest[1..]);
    }
  }

  /** One value from a running source: it goes on running, or the only take that runs out has stopped it and no credit
      is left, or two takes ran out and it crashes. */
  lemma EmitOne(l: Line, used: int, e: nat, rest: seq<int>, expected: Outcome)
    requires Live(l, used, e, rest, expected) && rest != [] && AllOpen(l.stages)
    requires e + |rest| < NO_FLOW_CONTROL
    ensures var m, ran := NextAt(l, 0, rest[0]), RunningOut(l.stages, 0, rest[0]);
      && (ran == 0 ==> Live(m, used, e + 1, rest[1..], expected) && AllOpen(m.stages) && m.requested >= l.requested)
      && (ran == 1 ==> Over(m, |rest| - 1, expected) && HasTake(l.stages) && l.requested <= e + 1)
      && (ran >= 2 ==> Crashed(m, expected))
  {
    hide NextAt, RunningOut, Passed, Out, Applied, RunOutTogether, Above, Below, AllOpen, Bounded, HasTake;
    var v := rest[0];
    UpIsNeed(l.stages, l.pend, l.pending);
    WantedIffOpen(l.stages, l.pending);
    AboveNothing(l.stages, l.pend, Need(l.stages, 0, l.pending) - 1);
    NextSettles(l, 0, v);
    var m := NextAt(l, 0, v);
    ListsOne(l.stages, l.received, rest);
    KeepsBound(l.stages, v, |rest| - 1 + e);
    if !m.crashed {
      UpIsNeed(m.stages, m.pend, m.pending);
      WantedIffOpen(m.stages, m.pending);
      if RunningOut(l.stages, 0, v) == 1 {
        ClosedHasTake(m.stages);
      } else if HasTake(l.stages) {
        NoOverflow(m.stages, m.pending, |rest| + e);
      }
    }
  }

  lemma AboveNothing(stages: seq<Stage>, pend: seq<int>, x: int)
    requires |stages| == |pend|
    ensures Above(stages, pend, 0, x) && Up(stages, 0, x) == x
  {
  }

  lemma ClosedHasTake(stages: seq<Stage>)
    requires !AllOpen(stages)
    ensures HasTake(stages)
  {
  }

  /** Something is wanted of a running source exactly while all takes are open; once one is closed, everything has been
      received. */
  lemma CreditIsWanted(l: Line, used: int, e: nat, rest: seq<int>, expected: Outcome)
    requires Live(l, used, e, rest, expected)
    ensures AllOpen(l.stages) <==> l.granted - used - e >= 1
    ensures l.granted - used - e >= 0
    ensures !AllOpen(l.stages) ==> expected == Outcome(l.received, false, 0)
  {
    hide Applied, Above, Below, Bounded, Up, Need;
    UpIsNeed(l.stages, l.pend, l.pending);
    WantedIffOpen(l.stages, l.pending);
    if !AllOpen(l.stages) {
      NothingOutOfClosed(l.stages, rest);
      assert !RunOutTogether(l.stages, rest);
    }
  }

  /** The counter after an emission of `e` values: what was emitted is taken off, unless credit is unlimited. */
  lemma Settle(l: Line, used: int, e: nat, rest: seq<int>, expected: Outcome)
    requires Live(l, used, e, rest, expected) && e + |rest| < NO_FLOW_CONTROL
    ensures l.requested != CANCELED
    ensures var m := if l.requested == NO_FLOW_CONTROL then l else l.(requested := l.requested - e);
      Live(m, used + e, 0, rest, expected)
  {
    hide Applied, Above, Below, RunOutTogether, AllOpen, Up, Need;
    CreditIsWanted(l, used, e, rest, expected);
    if HasTake(l.stages) {
      UpIsNeed(l.stages, l.pend, l.pending);
      NoOverflow(l.stages, l.pending, e + |rest|);
    }
  }

  lemma LiveIs(l: Line, used: int, e: nat, rest: seq<int>, expected: Outcome)
    requires Live(l, used, e, rest, expected)
    ensures Shaped(l) && !l.crashed
  {
  }

  /** The loop stops for want of credit exactly if a take was closed from the start, and then everything has been
      received. */
  lemma StopsIff(l: Line, used: int, rest: seq<int>, expected: Outcome)
    requires Live(l, used, 0, rest, expected)
    ensures l.requested != CANCELED && l.completions == 0 && (l.requested > 0 <==> AllOpen(l.stages))
    ensures l.requested <= 0 ==> expected == Outcome(l.received, false, 0)
  {
    hide Applied, Above, RunOutTogether, Up, Bounded, AllOpen;
    CreditIsWanted(l, used, 0, rest, expected);
    if !AllOpen(l.stages) {
      ClosedHasTake(l.stages);
    }
  }

  /** The source has no more values: it completes the line. */
  lemma SourceEnds(l: Line, used: int, e: nat, expected: Outcome)
    requires Over(l, 0, expected) || (Live(l, used, e, [], expected) && AllOpen(l.stages))
    ensures Ended(CompleteAt(l, 0).(requested := CANCELED), expected)
  {
    hide Above, Below, Bounded, Up, Need, AllOpen, Applied;
    CompleteOk(l, 0);
    NothingIn(l.stages);
    assert !RunOutTogether(l.stages, []);
  }

  // ---- The first request ----

  lemma {:induction false} NothingWanted(stages: seq<Stage>, pend: seq<int>, k: nat)
    requires k <= |stages| == |pend| && forall i | 0 <= i < |pend| :: pend[i] == 0
    ensures Above(stages, pend, k, 0) && Up(stages, k, 0) == 0
    decreases k
  {
    if k > 0 {
      NothingWanted(stages, pend, k - 1);
    }
  }

  lemma {:induction false} UpAtMost(stages: seq<Stage>, k: nat, x: int)
    requires k <= |stages| && x >= 0
    ensures 0 <= Up(stages, k, x) <= x
    decreases k
  {
    if k > 0 {
      UpAtMost(stages, k - 1, Thru(stages[k - 1], x));
    }
  }

  lemma FirstRequest(stages: seq<Stage>, batch: int, values: seq<int>)
    requires 2 <= batch <= NO_FLOW_CONTROL && Bounded(stages, |values|)
    ensures Live(RequestAt(Subscribed(stages, batch), |stages|, batch), 0, 0, values,
                 Result(stages, [], values))
    ensures RequestAt(Subscribed(stages, batch), |stages|, batch).stages == stages
  {
    hide Above, Below, Up, Applied, RunOutTogether, Bounded, HasTake;
    var l := Subscribed(stages, batch);
    NothingWanted(stages, l.pend, |stages|);
    RequestSettles(l, |stages|, batch, 0);
    UpAtMost(stages, |stages|, batch);
    var m := RequestAt(l, |stages|, batch);
    assert m.received + Applied(stages, values) == Applied(stages, values);
  }

  class SynchronousSubscription {
    const values: seq<int>
    const kind: Kind
    var i: nat
    var line: Line
    /** The lock that keeps a request inside `onNext` from starting a second loop. */
    var processing: bool
    /** Credit that the loop has taken off the counter. */
    ghost var used: int

    constructor (values: seq<int>, kind: Kind, stages: seq<Stage>, batch: int)
      ensures this.values == values && i == 0 && line == Subscribed(stages, batch) && !processing && used == 0
    {
      this.values, this.kind := values, kind;
      i, line, processing, used := 0, Subscribed(stages, batch), false, 0;
    }

    ghost predicate Continues(e: int, expected: Outcome)
      reads this
    {
      e >= 0 && i <= |values| && Live(line, used, e, values[i..], expected)
    }

    /** The generator: it sends values as long as there are any and as many as it was asked for, whatever happens
        below. */
    method Emit(requested: int, ghost expected: Outcome) returns (emitted: int, done: bool)
      requires i <= |values| < NO_FLOW_CONTROL && 0 < requested == line.requested
      requires Live(line, used, 0, values[i..], expected) && AllOpen(line.stages)
      modifies this`i, this`line
      ensures old(i) <= i <= |values| && Shaped(line)
      ensures line.crashed ==> Crashed(line, expected)
      ensures !line.crashed && done ==> Ended(line, expected)
      ensures !line.crashed && !done ==> i > old(i)
      ensures !line.crashed && !done && !Ended(line, expected) ==>
        Continues(emitted, expected) && AllOpen(line.stages)
      ensures !line.crashed && !done ==> emitted == i - old(i)
    {
      hide Live, NextAt, RunningOut, AllOpen, CompleteAt, Above, NoneAttached;
      LiveIs(line, used, 0, values[i..], expected);
      emitted := 0;
      done := false;
      while i < |values| && emitted < requested && !line.crashed
        invariant Shaped(line) && old(i) <= i <= |values| && emitted == i - old(i) && emitted <= requested
        invariant line.crashed ==> Crashed(line, expected)
        invariant !line.crashed ==>
          (Over(line, |values| - i, expected) && emitted == requested)
          || (Live(line, used, emitted, values[i..], expected) && AllOpen(line.stages) && requested <= line.requested)
        decreases |values| - i
      {
        assert values[i..][0] == values[i] && values[i..][1..] == values[i + 1..];
        EmitOne(line, used, emitted, values[i..], expected);
        ghost var ran := RunningOut(line.stages, 0, values[i]);
        line := NextAt(line, 0, values[i]);
        i := i + 1;
        if ran == 0 {
          LiveIs(line, used, emitted + 1, values[i..], expected);
        }
        emitted := emitted + 1;
      }
      if line.crashed {
        return;
      }
      if i >= |values| {
        assert values[i..] == [];
        SourceEnds(line, used, emitted, expected);
        line := CompleteAt(line, 0).(requested := CANCELED);
        done := true;
      }
      if kind == RANGE {
        emitted := requested;
      }
    }

    /** Emits until the credit is used up, or the source is done or cancelled. */
    method Process(ghost expected: Outcome)
      requires !processing && i <= |values| < NO_FLOW_CONTROL
      requires Live(line, used, 0, values[i..], expected)
      modifies this
      ensures Shaped(line) && line.received == expected.received
      ensures line.crashed <==> expected.crashes
      ensures !line.crashed ==> line.completions == expected.completions
    {
      hide Live, AllOpen, Above, NoneAttached;
      if processing {
        return;
      }
      processing := true;
      LiveIs(line, used, 0, values[i..], expected);
      ghost var open := AllOpen(line.stages);
      while true
        invariant i <= |values| && Shaped(line)
        invariant line.crashed ==> Crashed(line, expected)
        invariant !line.crashed ==> (Ended(line, expected) || Continues(0, expected))
        invariant !line.crashed && open && !Ended(line, expected) ==> AllOpen(line.stages)
        decreases |values| - i, line.requested != CANCELED
      {
        if line.crashed {
          return;
        }
        var current := line.requested;
        if !Ended(line, expected) {
          StopsIff(line, used, values[i..], expected);
        }
        if current == CANCELED {
          processing := false;
          return;
        }
        if current <= 0 {
          processing := false;
          return;
        }
        var emitted, done := Emit(current, expected);
        if line.crashed {
          return;
        }
        ghost var live := !done && !Ended(line, expected);
        if live {
          Settle(line, used, emitted, values[i..], expected);
          LiveIs(line, used, emitted, values[i..], expected);
        }
        current := line.requested;
        if current != CANCELED && !(current == NO_FLOW_CONTROL && !done) {
          line := line.(requested := if done then CANCELED else current - emitted);
        }
        used := used + emitted;
      }
    }

    /** Subscribing makes the first request, which runs the whole pipeline: the subscriber receives exactly what the
        operators make of the list of values, and the run crashes exactly if two takes run out with the same value. */
    static method Run(values: seq<int>, kind: Kind, stages: seq<Stage>, batch: int) returns (line: Line)
      requires 2 <= batch <= NO_FLOW_CONTROL && |values| < NO_FLOW_CONTROL && Bounded(stages, |values|)
      ensures line.received == Applied(stages, values)
      ensures line.crashed <==> RunOutTogether(stages, values)
      ensures !line.crashed ==> line.completions == Completions(stages, values)
    {
      hide Live, Applied, RunOutTogether, Completions;
      var source := new SynchronousSubscription(values, kind, stages, batch);
      FirstRequest(stages, batch, values);
      source.line := RequestAt(source.line, |stages|, batch);
      assert values[0..] == values;
      assert [] + Applied(stages, values) == Applied(stages, values);
      source.Process(Result(stages, [], values));
      line := source.line;
    }
  }
}
