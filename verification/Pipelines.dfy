/** A pipeline of operators between a synchronous source and a batching subscriber, as one value: what happens, inside
    one call of the source, when a value comes down or a request goes up. */
module Pipelines {

  const NO_FLOW_CONTROL: int := 0x7FFF_FFFF_FFFF_FFFF
  const CANCELED: int := -0x8000_0000_0000_0000

  /** An operator; `limit` is what a take still lets through. */
  datatype Stage = Map(f: int -> int) | Filter(p: int -> bool) | Take(limit: int)

  /** Position 0 is the operator next to the source, position `|stages|` the subscriber.
      `requested`: the source's credit.  `pend`: what a take has requested and not yet received.  `attached`: the
      position still has its upstream; calling through it otherwise is a crash.  `pending`: what the subscriber has
      requested and not yet received.  `granted` records the sum of all requests that reached the source. */
  datatype Line = Line(stages: seq<Stage>, pend: seq<int>, attached: seq<bool>, requested: int,
                       batch: int, pending: int, received: seq<int>, completions: nat, crashed: bool, granted: int)

  predicate Shaped(l: Line) {
    |l.pend| == |l.stages| && |l.attached| == |l.stages| + 1
  }

  predicate SameShape(l: Line, m: Line) {
    Shaped(m) && |m.stages| == |l.stages|
  }

  function Crash(l: Line): Line {
    l.(crashed := true)
  }

  /** Credit is added up; an overflow turns flow control off. */
  function Added(current: int, delta: int): int {
    if current > NO_FLOW_CONTROL - delta then NO_FLOW_CONTROL else current + delta
  }

  function Min(a: int, b: int): int {
    if a < b then a else b
  }

  function Max(a: int, b: int): int {
    if a < b then b else a
  }

  /** The call `request(delta)` of position `k` on its upstream, while the source is already emitting. */
  function RequestAt(l: Line, k: nat, delta: int): (m: Line)
    requires Shaped(l) && k <= |l.stages|
    ensures SameShape(l, m)
    decreases k
  {
    if l.crashed then l
    else if !l.attached[k] then Crash(l)
    else if k == 0 then l.(requested := Added(l.requested, delta), granted := l.granted + delta)
    else
      match l.stages[k - 1]
      case Take(limit) =>
        var d := Min(delta, limit - l.pend[k - 1]);
        if d > 0 then RequestAt(l.(pend := l.pend[k - 1 := l.pend[k - 1] + d]), k - 1, d) else l
      case _ => RequestAt(l, k - 1, delta)
  }

  /** The call `cancel()` of position `k` on its upstream, after which it drops the upstream. */
  function CancelAt(l: Line, k: nat): (m: Line)
    requires Shaped(l) && k <= |l.stages|
    ensures SameShape(l, m)
    decreases k
  {
    if l.crashed then l
    else if !l.attached[k] then Crash(l)
    else
      var up := if k == 0 then l.(requested := CANCELED) else CancelAt(l, k - 1);
      if up.crashed then up else up.(attached := up.attached[k := false])
  }

  /** `onComplete` arrives at position `k` and is passed on. */
  function CompleteAt(l: Line, k: nat): (m: Line)
    requires Shaped(l) && k <= |l.stages|
    ensures SameShape(l, m)
    decreases |l.stages| - k
  {
    if l.crashed then l
    else
      var down := if k == |l.stages| then l.(completions := l.completions + 1) else CompleteAt(l, k + 1);
      down.(attached := down.attached[k := false])
  }

  /** The subscriber: it asks for a full batch again when less than half a batch is under way. */
  function Consume(l: Line, v: int): (m: Line)
    requires Shaped(l)
    ensures SameShape(l, m)
  {
    var c := l.(received := l.received + [v], pending := l.pending - 1);
    if c.pending < c.batch / 2 then RequestAt(c.(pending := c.batch), |c.stages|, c.batch - c.pending) else c
  }

  /** The end of a take that has let its last value through. */
  function RunOut(l: Line, k: nat): (m: Line)
    requires Shaped(l) && k < |l.stages|
    ensures SameShape(l, m)
  {
    var c := CompleteAt(CancelAt(l, k), k + 1);
    if c.crashed then c else c.(attached := c.attached[k := false])
  }

  /** `onNext(v)` arrives at position `k`. */
  function NextAt(l: Line, k: nat, v: int): (m: Line)
    requires Shaped(l) && k <= |l.stages|
    ensures SameShape(l, m)
    decreases |l.stages| - k
  {
    if l.crashed then l
    else if k == |l.stages| then Consume(l, v)
    else
      match l.stages[k]
      case Map(f) => NextAt(l, k + 1, f(v))
      case Filter(p) => if p(v) then NextAt(l, k + 1, v) else RequestAt(l, k, 1)
      case Take(limit) =>
        var t := l.(stages := l.stages[k := Take(limit - 1)]);
        if limit > 0 then
          var n := NextAt(t.(pend := t.pend[k := if t.pend[k] > 0 then t.pend[k] - 1 else t.pend[k]]), k + 1, v);
          if limit == 1 then RunOut(n, k) else n
        else t
  }

  // ---- What it should compute ----

  function Mapped(f: int -> int, xs: seq<int>): seq<int> {
    if xs == [] then [] else [f(xs[0])] + Mapped(f, xs[1..])
  }

  function Filtered(p: int -> bool, xs: seq<int>): seq<int> {
    if xs == [] then [] else (if p(xs[0]) then [xs[0]] else []) + Filtered(p, xs[1..])
  }

  function Taken(limit: int, xs: seq<int>): seq<int> {
    if limit <= 0 then [] else if limit < |xs| then xs[..limit] else xs
  }

  /** The same operators on lists. */
  function Applied(stages: seq<Stage>, xs: seq<int>): seq<int> {
    if stages == [] then xs
    else
      match stages[0]
      case Map(f) => Applied(stages[1..], Mapped(f, xs))
      case Filter(p) => Applied(stages[1..], Filtered(p, xs))
      case Take(limit) => Applied(stages[1..], Taken(limit, xs))
  }

  // ---- One value ----

  /** What comes out at the end when `v` goes in at position `k`: one value or none. */
  function Out(stages: seq<Stage>, k: nat, v: int): seq<int>
    requires k <= |stages|
    decreases |stages| - k
  {
    if k == |stages| then [v]
    else
      match stages[k]
      case Map(f) => Out(stages, k + 1, f(v))
      case Filter(p) => if p(v) then Out(stages, k + 1, v) else []
      case Take(limit) => if limit > 0 then Out(stages, k + 1, v) else []
  }

  /** The operators after that: every take that the value has passed lets one less through. */
  function Passed(stages: seq<Stage>, k: nat, v: int): (after: seq<Stage>)
    requires k <= |stages|
    ensures |after| == |stages|
    decreases |stages| - k
  {
    if k == |stages| then stages
    else
      match stages[k]
      case Map(f) => Passed(stages, k + 1, f(v))
      case Filter(p) => if p(v) then Passed(stages, k + 1, v) else stages
      case Take(limit) =>
        if limit > 0 then Passed(stages[k := Take(limit - 1)], k + 1, v) else stages[k := Take(limit - 1)]
  }

  /** How many takes run out with this value. */
  function RunningOut(stages: seq<Stage>, k: nat, v: int): nat
    requires k <= |stages|
    decreases |stages| - k
  {
    if k == |stages| then 0
    else
      match stages[k]
      case Map(f) => RunningOut(stages, k + 1, f(v))
      case Filter(p) => if p(v) then RunningOut(stages, k + 1, v) else 0
      case Take(limit) =>
        if limit > 0 then RunningOut(stages, k + 1, v) + (if limit == 1 then 1 else 0) else 0
  }

  /** Every take lets at least one more value through. */
  predicate AllOpen(stages: seq<Stage>) {
    forall i | 0 <= i < |stages| :: stages[i].Take? ==> stages[i].limit > 0
  }

  /** Two takes run out with the same value, before any other take has. */
  predicate RunOutTogether(stages: seq<Stage>, xs: seq<int>)
    decreases |xs|
  {
    AllOpen(stages) && xs != [] &&
    (RunningOut(stages, 0, xs[0]) >= 2 || RunOutTogether(Passed(stages, 0, xs[0]), xs[1..]))
  }

  /** A take runs out with the last value, and no take before it. */
  predicate RunsOutWithLast(stages: seq<Stage>, xs: seq<int>)
    decreases |xs|
  {
    AllOpen(stages) && xs != [] &&
    if RunningOut(stages, 0, xs[0]) == 0 then RunsOutWithLast(Passed(stages, 0, xs[0]), xs[1..]) else |xs| == 1
  }

  /** How often the subscriber hears of the end: never if nothing is asked of the source, and twice if a take ends the
      line with the last value, since the source then completes as well. */
  function Completions(stages: seq<Stage>, xs: seq<int>): nat {
    if !AllOpen(stages) then 0 else if RunsOutWithLast(stages, xs) then 2 else 1
  }
}
