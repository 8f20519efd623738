/** Credit and values in a pipeline. */
module PipelineLaws {
  import opened Pipelines

  // ---- Credit ----

  /** Of `x` values wanted below an operator, those it can still pass on. */
  function Thru(s: Stage, x: int): int {
    if s.Take? then Min(x, Max(s.limit, 0)) else x
  }

  /** The values wanted at position `k` when the subscriber wants `x`. */
  function Need(stages: seq<Stage>, k: nat, x: int): int
    requires k <= |stages|
    decreases |stages| - k
  {
    if k == |stages| then x else Thru(stages[k], Need(stages, k + 1, x))
  }

  /** The values wanted of the source when position `k` wants `x`. */
  function Up(stages: seq<Stage>, k: nat, x: int): int
    requires k <= |stages|
    decreases k
  {
    if k == 0 then x else Up(stages, k - 1, Thru(stages[k - 1], x))
  }

  /** Above position `k`, every take has under way the smaller of what is wanted below it and its limit. */
  predicate Above(stages: seq<Stage>, pend: seq<int>, k: nat, x: int)
    requires k <= |stages| == |pend|
    decreases k
  {
    k == 0 || (Above(stages, pend, k - 1, Thru(stages[k - 1], x))
               && (stages[k - 1].Take? ==> pend[k - 1] == Thru(stages[k - 1], x)))
  }

  /** The same from position `k` on, when the subscriber wants `x`. */
  predicate Below(stages: seq<Stage>, pend: seq<int>, k: nat, x: int)
    requires k <= |stages| == |pend|
    decreases |stages| - k
  {
    k == |stages| || (Below(stages, pend, k + 1, x)
                      && (stages[k].Take? ==> pend[k] == Thru(stages[k], Need(stages, k + 1, x))))
  }

  predicate AllAttached(l: Line) {
    forall i | 0 <= i < |l.attached| :: l.attached[i]
  }

  predicate NoneAttached(l: Line) {
    forall i | 0 <= i < |l.attached| :: !l.attached[i]
  }

  lemma {:induction false} AboveKeeps(stages: seq<Stage>, stages': seq<Stage>, pend: seq<int>, pend': seq<int>, k: nat, x: int)
    requires k <= |stages| == |pend| && |stages'| == |stages| && |pend'| == |pend|
    requires stages[..k] == stages'[..k] && pend[..k] == pend'[..k]
    ensures Above(stages, pend, k, x) <==> Above(stages', pend', k, x)
    ensures Up(stages, k, x) == Up(stages', k, x)
    decreases k
  {
    if k > 0 {
      assert stages[k - 1] == stages[..k][k - 1] == stages'[..k][k - 1] && pend[k - 1] == pend[..k][k - 1] == pend'[..k][k - 1];
      assert stages[..k - 1] == stages[..k][..k - 1] && pend[..k - 1] == pend[..k][..k - 1];
      assert stages'[..k - 1] == stages'[..k][..k - 1] && pend'[..k - 1] == pend'[..k][..k - 1];
      AboveKeeps(stages, stages', pend, pend', k - 1, Thru(stages[k - 1], x));
    }
  }

  lemma {:induction false} BelowKeeps(stages: seq<Stage>, stages': seq<Stage>, pend: seq<int>, pend': seq<int>, k: nat, x: int)
    requires k <= |stages| == |pend| && |stages'| == |stages| && |pend'| == |pend|
    requires stages[k..] == stages'[k..] && pend[k..] == pend'[k..]
    ensures Below(stages, pend, k, x) <==> Below(stages', pend', k, x)
    ensures Need(stages, k, x) == Need(stages', k, x)
    decreases |stages| - k
  {
    if k < |stages| {
      assert stages[k] == stages[k..][0] == stages'[k..][0] && pend[k] == pend[k..][0] == pend'[k..][0];
      assert stages[k + 1..] == stages[k..][1..] && pend[k + 1..] == pend[k..][1..];
      assert stages'[k + 1..] == stages'[k..][1..] && pend'[k + 1..] == pend'[k..][1..];
      BelowKeeps(stages, stages', pend, pend', k + 1, x);
    }
  }

  /** Both halves together are the whole, wherever it is cut. */
  lemma {:induction false} AnyCut(stages: seq<Stage>, pend: seq<int>, k: nat, x: int)
    requires k <= |stages| == |pend|
    requires Below(stages, pend, k, x) && Above(stages, pend, k, Need(stages, k, x))
    ensures Above(stages, pend, |stages|, x)
    ensures Up(stages, k, Need(stages, k, x)) == Up(stages, |stages|, x)
    decreases |stages| - k
  {
    if k < |stages| {
      AnyCut(stages, pend, k + 1, x);
    }
  }

  lemma {:induction false} CutAtTop(stages: seq<Stage>, pend: seq<int>, k: nat, x: int)
    requires k <= |stages| == |pend| && Above(stages, pend, |stages|, x)
    ensures Below(stages, pend, k, x) && Above(stages, pend, k, Need(stages, k, x))
    ensures Up(stages, k, Need(stages, k, x)) == Up(stages, |stages|, x)
    decreases |stages| - k
  {
    if k < |stages| {
      CutAtTop(stages, pend, k + 1, x);
    }
  }

  /** The source's counter follows the requests, or has overflowed into unlimited credit. */
  predicate Counted(l: Line, m: Line) {
    m.granted >= l.granted
    && m.requested == if m.granted == l.granted then l.requested else Added(l.requested, m.granted - l.granted)
  }

  /** A request of `delta` more, in addition to `x` that are under way. */
  lemma {:induction false} RequestSettles(l: Line, k: nat, delta: int, x: int)
    requires Shaped(l) && k <= |l.stages| && AllAttached(l) && !l.crashed
    requires delta > 0 && x >= 0 && Above(l.stages, l.pend, k, x)
    ensures var m := RequestAt(l, k, delta);
      && m == l.(pend := m.pend, requested := m.requested, granted := m.granted)
      && m.pend[k..] == l.pend[k..]
      && Above(m.stages, m.pend, k, x + delta)
      && m.granted - l.granted == Up(l.stages, k, x + delta) - Up(l.stages, k, x)
      && Counted(l, m)
    decreases k, 1
  {
    if k > 0 {
      match l.stages[k - 1]
      case Take(limit) => RequestSettlesTake(l, k, delta, x, limit);
      case _ =>
        RequestSettles(l, k - 1, delta, x);
        DropOneMore(RequestAt(l, k - 1, delta).pend, l.pend, k);
    }
  }

  lemma RequestSettlesTake(l: Line, k: nat, delta: int, x: int, limit: int)
    requires Shaped(l) && 0 < k <= |l.stages| && AllAttached(l) && !l.crashed && l.stages[k - 1] == Take(limit)
    requires delta > 0 && x >= 0 && Above(l.stages, l.pend, k, x)
    ensures var m := RequestAt(l, k, delta);
      && m == l.(pend := m.pend, requested := m.requested, granted := m.granted)
      && m.pend[k..] == l.pend[k..]
      && Above(m.stages, m.pend, k, x + delta)
      && m.granted - l.granted == Up(l.stages, k, x + delta) - Up(l.stages, k, x)
      && Counted(l, m)
    decreases k, 0
  {
    var d := Min(delta, limit - l.pend[k - 1]);
    if d > 0 {
      var n := l.(pend := l.pend[k - 1 := l.pend[k - 1] + d]);
      AboveKeeps(l.stages, l.stages, l.pend, n.pend, k - 1, Thru(Take(limit), x));
      RequestSettles(n, k - 1, d, Thru(Take(limit), x));
      DropOneMore(RequestAt(n, k - 1, d).pend, n.pend, k);
    }
  }

  lemma DropOneMore(a: seq<int>, b: seq<int>, k: nat)
    requires 0 < k <= |a| == |b| && a[k - 1..] == b[k - 1..]
    ensures a[k..] == b[k..] && a[k - 1] == b[k - 1]
  {
    assert a[k - 1] == a[k - 1..][0] == b[k - 1..][0];
    assert a[k..] == a[k - 1..][1..] && b[k..] == b[k - 1..][1..];
  }

  // ---- One value ----

  /** What becomes of a value depends on the operators still ahead of it. */
  lemma {:induction false} AheadOnly(stages: seq<Stage>, stages': seq<Stage>, k: nat, v: int)
    requires k <= |stages| == |stages'| && stages[k..] == stages'[k..]
    ensures Out(stages, k, v) == Out(stages', k, v) && RunningOut(stages, k, v) == RunningOut(stages', k, v)
    decreases |stages| - k
  {
    if k < |stages| {
      assert stages[k] == stages[k..][0] == stages'[k..][0];
      assert stages[k + 1..] == stages[k..][1..] && stages'[k + 1..] == stages'[k..][1..];
      match stages[k]
      case Map(f) => AheadOnly(stages, stages', k + 1, f(v));
      case Filter(p) => AheadOnly(stages, stages', k + 1, v);
      case Take(limit) => AheadOnly(stages, stages', k + 1, v);
    }
  }

  lemma {:induction false} CancelOk(l: Line, k: nat)
    requires Shaped(l) && k <= |l.stages| && !l.crashed
    ensures var m := CancelAt(l, k);
      && (!l.attached[k] ==> m.crashed)
      && m == l.(attached := m.attached, requested := m.requested, crashed := m.crashed)
      && (AllAttached(l) ==> !m.crashed && m.requested == CANCELED)
      && (AllAttached(l) ==> m.attached == seq(k + 1, i => false) + l.attached[k + 1..])
    decreases k
  {
    if k > 0 && l.attached[k] {
      CancelOk(l, k - 1);
      var up := CancelAt(l, k - 1);
      if AllAttached(l) {
        assert up.attached[k := false] == seq(k + 1, i => false) + l.attached[k + 1..];
      }
    }
  }

  lemma {:induction false} CompleteOk(l: Line, k: nat)
    requires Shaped(l) && k <= |l.stages| && !l.crashed
    ensures var m := CompleteAt(l, k);
      && m == l.(attached := m.attached, completions := l.completions + 1)
      && m.attached == l.attached[..k] + seq(|l.stages| + 1 - k, i => false)
    decreases |l.stages| - k
  {
    if k < |l.stages| {
      CompleteOk(l, k + 1);
      var down := CompleteAt(l, k + 1);
      assert down.attached[k := false] == l.attached[..k] + seq(|l.stages| + 1 - k, i => false);
    }
  }

  /** A take runs out: it takes the whole line down, or crashes if that has already happened. */
  lemma RunOutOk(l: Line, k: nat)
    requires Shaped(l) && k < |l.stages| && !l.crashed && (AllAttached(l) || NoneAttached(l))
    ensures var m := RunOut(l, k);
      && m.crashed == NoneAttached(l)
      && m == l.(attached := m.attached, requested := m.requested, completions := m.completions, crashed := m.crashed)
      && (AllAttached(l) ==> NoneAttached(m) && m.requested == CANCELED && m.completions == l.completions + 1)
  {
    CancelOk(l, k);
    var c := CancelAt(l, k);
    if AllAttached(l) {
      assert l.attached[k];
      CompleteOk(c, k + 1);
    } else {
      assert !l.attached[k];
    }
  }

  /** The effect of one value on a line whose position `k` wants at least this one. */
  ghost predicate Handled(l: Line, k: nat, v: int, m: Line)
    requires Shaped(l) && Shaped(m) && SameShape(l, m) && k <= |l.stages|
  {
    var ran := RunningOut(l.stages, k, v);
    && m.received == l.received + Out(l.stages, k, v)
    && m.stages == Passed(l.stages, k, v)
    && m.batch == l.batch && 1 <= m.pending <= m.batch
    && (m.crashed <==> ran >= 2)
    && (ran == 0 ==> AllAttached(m) && m.completions == l.completions && Counted(l, m))
    && (ran == 1 ==> NoneAttached(m) && m.requested == CANCELED && m.completions == l.completions + 1)
    && (!m.crashed ==> m.granted >= l.granted && Above(m.stages, m.pend, |m.stages|, m.pending))
  }

  /** The source has been asked for what is now wanted of it, less what was wanted besides the value. */
  predicate Granted(l: Line, k: nat, m: Line)
    requires k <= |l.stages|
  {
    m.granted - l.granted == Up(m.stages, |m.stages|, m.pending) - Up(l.stages, k, Need(l.stages, k, l.pending) - 1)
  }

  predicate Ready(l: Line) {
    Shaped(l) && AllAttached(l) && !l.crashed && l.batch >= 2 && 1 <= l.pending <= l.batch
  }

  lemma ConsumeOk(l: Line, v: int)
    requires Ready(l) && Above(l.stages, l.pend, |l.stages|, l.pending - 1)
    ensures var m := Consume(l, v);
      && Handled(l, |l.stages|, v, m)
      && Granted(l, |l.stages|, m)
  {
    var c := l.(received := l.received + [v], pending := l.pending - 1);
    if c.pending < c.batch / 2 {
      RequestSettles(c.(pending := c.batch), |c.stages|, c.batch - c.pending, c.pending);
    }
  }

  /** A value comes down: it is handled as on lists, every take keeps under way the smaller of what is wanted below it
      and its limit, and the source is granted exactly what is now wanted of it in addition. */
  lemma {:induction false} NextSettles(l: Line, k: nat, v: int)
    requires Ready(l) && k <= |l.stages|
    requires Need(l.stages, k, l.pending) >= 1 && Below(l.stages, l.pend, k, l.pending)
    requires Above(l.stages, l.pend, k, Need(l.stages, k, l.pending) - 1)
    ensures var m := NextAt(l, k, v);
      && Handled(l, k, v, m)
      && (!m.crashed ==> Granted(l, k, m))
    decreases |l.stages| - k, 1
  {
    var x := Need(l.stages, k, l.pending);
    if k == |l.stages| {
      ConsumeOk(l, v);
    } else {
      match l.stages[k]
      case Map(f) => NextSettles(l, k + 1, f(v));
      case Filter(p) =>
        if p(v) {
          NextSettles(l, k + 1, v);
        } else {
          FilteredOut(l, k, v);
        }
      case Take(limit) => TakeSettles(l, k, v, limit);
    }
  }

  /** A filter that drops the value asks for another one. */
  lemma FilteredOut(l: Line, k: nat, v: int)
    requires Ready(l) && k < |l.stages| && l.stages[k].Filter? && !l.stages[k].p(v)
    requires Need(l.stages, k, l.pending) >= 1 && Below(l.stages, l.pend, k, l.pending)
    requires Above(l.stages, l.pend, k, Need(l.stages, k, l.pending) - 1)
    ensures var m := RequestAt(l, k, 1);
      && Handled(l, k, v, m)
      && Granted(l, k, m)
  {
    var x := Need(l.stages, k, l.pending);
    RequestSettles(l, k, 1, x - 1);
    var m := RequestAt(l, k, 1);
    BelowKeeps(l.stages, m.stages, l.pend, m.pend, k, l.pending);
    AnyCut(m.stages, m.pend, k, m.pending);
    assert m.received == l.received + [];
  }

  /** An open take passes the value on to the operators behind it. */
  lemma TakePasses(stages: seq<Stage>, k: nat, v: int, limit: int)
    requires k < |stages| && stages[k] == Take(limit) && limit > 0
    ensures var t := stages[k := Take(limit - 1)];
      && t[k + 1..] == stages[k + 1..]
      && Out(stages, k, v) == Out(t, k + 1, v) && Passed(stages, k, v) == Passed(t, k + 1, v)
      && RunningOut(stages, k, v) == RunningOut(t, k + 1, v) + (if limit == 1 then 1 else 0)
  {
    AheadOnly(stages, stages[k := Take(limit - 1)], k + 1, v);
  }

  lemma TakeSettles(l: Line, k: nat, v: int, limit: int)
    requires Ready(l) && k < |l.stages| && l.stages[k] == Take(limit)
    requires Need(l.stages, k, l.pending) >= 1 && Below(l.stages, l.pend, k, l.pending)
    requires Above(l.stages, l.pend, k, Need(l.stages, k, l.pending) - 1)
    ensures var m := NextAt(l, k, v);
      && Handled(l, k, v, m)
      && (!m.crashed ==> Granted(l, k, m))
    decreases |l.stages| - k, 0
  {
    var x, y := Need(l.stages, k, l.pending), Need(l.stages, k + 1, l.pending);
    assert limit >= 1 && y >= 1 && x == Min(y, limit) && l.pend[k] == x;
    var t := l.(stages := l.stages[k := Take(limit - 1)], pend := l.pend[k := x - 1]);
    BelowKeeps(l.stages, t.stages, l.pend, t.pend, k + 1, l.pending);
    AboveKeeps(l.stages, t.stages, l.pend, t.pend, k, x - 1);
    assert Thru(t.stages[k], y - 1) == x - 1;
    TakePasses(l.stages, k, v, limit);
    hide Out, Passed, RunningOut;
    NextSettles(t, k + 1, v);
    var n := NextAt(t, k + 1, v);
    if limit == 1 && !n.crashed {
      RunOutOk(n, k);
    }
  }
}
