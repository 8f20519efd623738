/** When two takes of a pipeline run out with the same value, said with list functions only. */
module PipelineLimits {
  import opened Pipelines
  import opened PipelineLaws
  import opened PipelineLists

  /** How many of the values reach operator `i`. */
  function Reaching(stages: seq<Stage>, i: nat, xs: seq<int>): nat
    requires i <= |stages|
  {
    |Applied(stages[..i], xs)|
  }

  /** Operator `i` is a take, and the source value number `n` is the one that makes it reach its limit. */
  predicate ReachesLimit(stages: seq<Stage>, i: nat, xs: seq<int>, n: nat) {
    && i < |stages| && stages[i].Take? && 1 <= n <= |xs|
    && Reaching(stages, i, xs[..n]) >= stages[i].limit > Reaching(stages, i, xs[..n - 1])
  }

  /** Two takes reach their limits with the same source value, and no take with an earlier one. */
  ghost predicate TwoReachTogether(stages: seq<Stage>, xs: seq<int>) {
    exists n: nat, i: nat, j: nat :: i < j && ReachesLimit(stages, i, xs, n) && ReachesLimit(stages, j, xs, n)
      && NoneReaches(stages, xs, n)
  }

  ghost predicate NoneReaches(stages: seq<Stage>, xs: seq<int>, n: nat) {
    forall k: nat, m: nat | m < n :: !ReachesLimit(stages, k, xs, m)
  }

  // ---- One value ----

  /** What becomes of the operators before `i` does not depend on the others. */
  lemma {:induction false} PassedPrefix(stages: seq<Stage>, k: nat, v: int, i: nat)
    requires k <= i < |stages|
    ensures Passed(stages, k, v)[..i] == Passed(stages[..i], k, v)
    ensures |Out(stages[..i], k, v)| <= 1
    ensures Passed(stages, k, v)[i] ==
      if stages[i].Take? && Out(stages[..i], k, v) != [] then Take(stages[i].limit - 1) else stages[i]
    decreases |stages| - k
  {
    if k == i {
      PassedKeeps(stages, k, v);
      match stages[k]
      case Map(f) => PassedAt(stages, k + 1, f(v), k);
      case Filter(p) => PassedAt(stages, k + 1, v, k);
      case Take(limit) => PassedAt(stages[k := Take(limit - 1)], k + 1, v, k);
    } else {
      match stages[k]
      case Map(f) => PassedPrefix(stages, k + 1, f(v), i);
      case Filter(p) => PassedPrefix(stages, k + 1, v, i);
      case Take(limit) =>
        var t := stages[k := Take(limit - 1)];
        assert t[..i] == stages[..i][k := Take(limit - 1)];
        PassedPrefix(t, k + 1, v, i);
        assert t[..i][k + 1..] == stages[..i][k + 1..];
        AheadOnly(stages[..i], t[..i], k + 1, v);
    }
  }

  lemma PassedAt(stages: seq<Stage>, k: nat, v: int, i: nat)
    requires i < k <= |stages|
    ensures Passed(stages, k, v)[i] == stages[i] && Passed(stages, k, v)[..i] == stages[..i]
  {
    KeepsAt(stages, k, v, i);
    PassedKeeps(stages, k, v);
    assert Passed(stages, k, v)[..i] == Passed(stages, k, v)[..k][..i];
    assert stages[..i] == stages[..k][..i];
  }

  lemma OneMoreReaching(stages: seq<Stage>, i: nat, v: int, ys: seq<int>)
    requires i < |stages|
    ensures Reaching(stages, i, [v] + ys)
      == |Out(stages[..i], 0, v)| + Reaching(Passed(stages, 0, v), i, ys)
  {
    PassedPrefix(stages, 0, v, i);
    AppliedToOne(stages[..i], 0, v, ys);
    assert stages[..i][0..] == stages[..i];
    assert Passed(stages[..i], 0, v)[0..] == Passed(stages[..i], 0, v);
  }

  /** With the first value, exactly the takes of limit one that it comes to reach their limits. */
  predicate First(stages: seq<Stage>, k: nat, i: nat, v: int) {
    k <= i < |stages| && stages[i] == Take(1) && Out(stages[..i], k, v) != []
  }

  lemma FirstValue(stages: seq<Stage>, i: nat, xs: seq<int>)
    requires AllOpen(stages) && xs != []
    ensures ReachesLimit(stages, i, xs, 1) <==> First(stages, 0, i, xs[0])
  {
    if i < |stages| {
      assert xs[..1] == [xs[0]] + [] && xs[..0] == [];
      NothingIn(stages[..i]);
      NothingIn(Passed(stages, 0, xs[0])[..i]);
      OneMoreReaching(stages, i, xs[0], []);
      PassedPrefix(stages, 0, xs[0], i);
    }
  }

  /** A later value is one value earlier for the operators that the first value leaves. */
  lemma LaterValue(stages: seq<Stage>, i: nat, xs: seq<int>, n: nat)
    requires xs != [] && n >= 2
    ensures ReachesLimit(stages, i, xs, n) <==> ReachesLimit(Passed(stages, 0, xs[0]), i, xs[1..], n - 1)
  {
    if i < |stages| && n <= |xs| {
      var v, ys := xs[0], xs[1..];
      assert xs[..n] == [v] + ys[..n - 1] && xs[..n - 1] == [v] + ys[..n - 2];
      OneMoreReaching(stages, i, v, ys[..n - 1]);
      OneMoreReaching(stages, i, v, ys[..n - 2]);
      PassedPrefix(stages, 0, v, i);
    }
  }

  lemma {:induction false} FirstsAreCounted(stages: seq<Stage>, k: nat, v: int)
    requires k <= |stages| && AllOpen(stages)
    ensures RunningOut(stages, k, v) >= 1 <==> exists i: nat :: First(stages, k, i, v)
    ensures RunningOut(stages, k, v) >= 2 <==> exists i: nat, j: nat :: i < j && First(stages, k, i, v) && First(stages, k, j, v)
    decreases |stages| - k
  {
    hide First, Out;
    if k == |stages| {
      NoFirst(stages, k, v);
    } else {
      var w, next := if stages[k].Map? then stages[k].f(v) else v, k + 1;
      var passes := stages[k].Filter? ==> stages[k].p(v);
      FirstsAreCounted(stages, next, w);
      forall i: nat ensures First(stages, k, i, v) <==>
        if i == k then stages[k] == Take(1) else passes && First(stages, next, i, w)
      {
        FirstBeyond(stages, k, i, v);
      }
      forall i: nat | First(stages, next, i, w) ensures i > k {
        FirstIsLater(stages, next, i, w);
      }
      assert First(stages, k, k, v) <==> stages[k] == Take(1);
      assert RunningOut(stages, k, v)
        == if passes then RunningOut(stages, next, w) + (if stages[k] == Take(1) then 1 else 0) else 0;
      if i: nat, j: nat :| i < j && First(stages, next, i, w) && First(stages, next, j, w) {
        assert passes ==> First(stages, k, i, v) && First(stages, k, j, v);
      } else if i: nat :| First(stages, next, i, w) {
        assert passes ==> First(stages, k, i, v);
      }
    }
  }

  lemma NoFirst(stages: seq<Stage>, k: nat, v: int)
    requires k == |stages|
    ensures forall i: nat :: !First(stages, k, i, v)
  {
  }

  lemma FirstIsLater(stages: seq<Stage>, k: nat, i: nat, v: int)
    requires First(stages, k, i, v)
    ensures i >= k
  {
  }

  lemma FirstBeyond(stages: seq<Stage>, k: nat, i: nat, v: int)
    requires k < |stages| && AllOpen(stages)
    ensures First(stages, k, i, v) <==>
      if i == k then stages[k] == Take(1)
      else (stages[k].Filter? ==> stages[k].p(v)) && First(stages, k + 1, i, if stages[k].Map? then stages[k].f(v) else v)
  {
    if k < i < |stages| {
      assert stages[..i][k] == stages[k];
    }
  }

  // ---- Whole lists ----

  /** The condition under which a pipeline crashes, step by step and on lists. */
  lemma {:induction false} TogetherIff(stages: seq<Stage>, xs: seq<int>)
    ensures RunOutTogether(stages, xs) <==> AllOpen(stages) && TwoReachTogether(stages, xs)
    decreases |xs|
  {
    hide ReachesLimit, First, RunningOut, Passed;
    if xs == [] {
      NothingReaches(stages);
    } else if AllOpen(stages) {
      var v, ys, after := xs[0], xs[1..], Passed(stages, 0, xs[0]);
      FirstsAreCounted(stages, 0, v);
      forall i: nat ensures ReachesLimit(stages, i, xs, 1) <==> First(stages, 0, i, v) {
        FirstValue(stages, i, xs);
      }
      OpenUnlessRunningOut(stages, 0, v);
      assert OpenFrom(after, 0) <==> AllOpen(after);
      if RunningOut(stages, 0, v) == 0 {
        TogetherIff(after, ys);
        Shifted(stages, xs);
      } else {
        AtOnce(stages, xs);
      }
    }
  }

  lemma NothingReaches(stages: seq<Stage>)
    ensures !TwoReachTogether(stages, [])
  {
  }

  lemma ReachesFromOne(stages: seq<Stage>, i: nat, xs: seq<int>, n: nat)
    requires ReachesLimit(stages, i, xs, n)
    ensures n >= 1
  {
  }

  /** Some take runs out with the first value: only that value counts. */
  lemma AtOnce(stages: seq<Stage>, xs: seq<int>)
    requires xs != [] && exists i: nat :: ReachesLimit(stages, i, xs, 1)
    ensures TwoReachTogether(stages, xs) <==>
      exists i: nat, j: nat :: i < j && ReachesLimit(stages, i, xs, 1) && ReachesLimit(stages, j, xs, 1)
  {
    hide ReachesLimit;
    forall k: nat ensures !ReachesLimit(stages, k, xs, 0) {
      if ReachesLimit(stages, k, xs, 0) {
        ReachesFromOne(stages, k, xs, 0);
      }
    }
    assert NoneReaches(stages, xs, 1);
    if n: nat, i: nat, j: nat :| i < j && ReachesLimit(stages, i, xs, n) && ReachesLimit(stages, j, xs, n) && NoneReaches(stages, xs, n) {
      ReachesFromOne(stages, i, xs, n);
      assert n == 1;
    }
  }

  lemma NoneShifted(stages: seq<Stage>, xs: seq<int>, n: nat)
    requires xs != [] && n >= 1 && forall i: nat :: !ReachesLimit(stages, i, xs, 1)
    ensures NoneReaches(stages, xs, n) <==> NoneReaches(Passed(stages, 0, xs[0]), xs[1..], n - 1)
  {
    hide ReachesLimit, Passed;
    var after, ys := Passed(stages, 0, xs[0]), xs[1..];
    if NoneReaches(stages, xs, n) {
      forall k: nat, m: nat | m < n - 1 ensures !ReachesLimit(after, k, ys, m) {
        if ReachesLimit(after, k, ys, m) {
          ReachesFromOne(after, k, ys, m);
          LaterValue(stages, k, xs, m + 1);
        }
      }
    }
    if NoneReaches(after, ys, n - 1) {
      forall k: nat, m: nat | m < n ensures !ReachesLimit(stages, k, xs, m) {
        if ReachesLimit(stages, k, xs, m) {
          ReachesFromOne(stages, k, xs, m);
          LaterValue(stages, k, xs, m);
        }
      }
    }
  }

  /** No take runs out with the first value: everything happens one value later. */
  lemma Shifted(stages: seq<Stage>, xs: seq<int>)
    requires xs != [] && forall i: nat :: !ReachesLimit(stages, i, xs, 1)
    ensures TwoReachTogether(stages, xs) <==> TwoReachTogether(Passed(stages, 0, xs[0]), xs[1..])
  {
    hide ReachesLimit, Passed, NoneReaches;
    var after, ys := Passed(stages, 0, xs[0]), xs[1..];
    if n: nat, i: nat, j: nat :| i < j && ReachesLimit(stages, i, xs, n) && ReachesLimit(stages, j, xs, n) && NoneReaches(stages, xs, n) {
      ReachesFromOne(stages, i, xs, n);
      LaterValue(stages, i, xs, n);
      LaterValue(stages, j, xs, n);
      NoneShifted(stages, xs, n);
    }
    if n: nat, i: nat, j: nat :| i < j && ReachesLimit(after, i, ys, n) && ReachesLimit(after, j, ys, n) && NoneReaches(after, ys, n) {
      ReachesFromOne(after, i, ys, n);
      LaterValue(stages, i, xs, n + 1);
      LaterValue(stages, j, xs, n + 1);
      NoneShifted(stages, xs, n + 1);
    }
  }

  // ---- The last value ----

  /** Some take reaches its limit with the last value, and none does before. */
  ghost predicate ReachedWithLast(stages: seq<Stage>, xs: seq<int>) {
    (exists i: nat :: ReachesLimit(stages, i, xs, |xs|)) && NoneReaches(stages, xs, |xs|)
  }

  /** When the subscriber is told twice of the end, step by step and on lists. */
  lemma {:induction false} WithLastIff(stages: seq<Stage>, xs: seq<int>)
    ensures RunsOutWithLast(stages, xs) <==> AllOpen(stages) && ReachedWithLast(stages, xs)
    decreases |xs|
  {
    hide ReachesLimit, First, RunningOut, Passed, ReachedWithLast;
    if xs == [] {
      NoLastValue(stages);
    } else if AllOpen(stages) {
      var v, after := xs[0], Passed(stages, 0, xs[0]);
      FirstsAreCounted(stages, 0, v);
      forall i: nat ensures ReachesLimit(stages, i, xs, 1) <==> First(stages, 0, i, v) {
        FirstValue(stages, i, xs);
      }
      OpenUnlessRunningOut(stages, 0, v);
      assert OpenFrom(after, 0) <==> AllOpen(after);
      if RunningOut(stages, 0, v) == 0 {
        WithLastIff(after, xs[1..]);
        LastShifted(stages, xs);
      } else {
        LastAtOnce(stages, xs);
      }
    }
  }

  lemma NoLastValue(stages: seq<Stage>)
    ensures !ReachedWithLast(stages, [])
  {
  }

  lemma LastAtOnce(stages: seq<Stage>, xs: seq<int>)
    requires xs != [] && exists i: nat :: ReachesLimit(stages, i, xs, 1)
    ensures ReachedWithLast(stages, xs) <==> |xs| == 1
  {
    hide ReachesLimit;
    forall k: nat ensures !ReachesLimit(stages, k, xs, 0) {
      if ReachesLimit(stages, k, xs, 0) {
        ReachesFromOne(stages, k, xs, 0);
      }
    }
  }

  lemma LastShifted(stages: seq<Stage>, xs: seq<int>)
    requires xs != [] && forall i: nat :: !ReachesLimit(stages, i, xs, 1)
    ensures ReachedWithLast(stages, xs) <==> ReachedWithLast(Passed(stages, 0, xs[0]), xs[1..])
  {
    hide ReachesLimit, Passed, NoneReaches;
    var after, ys := Passed(stages, 0, xs[0]), xs[1..];
    if ys == [] {
      NoLastValue(after);
    } else {
      NoneShifted(stages, xs, |xs|);
      forall i: nat ensures ReachesLimit(stages, i, xs, |xs|) <==> ReachesLimit(after, i, ys, |ys|) {
        LaterValue(stages, i, xs, |xs|);
      }
    }
  }
}
