/** A pipeline computes what the same operators compute on lists. */
module PipelineLists {
  import opened Pipelines
  import opened PipelineLaws

  lemma {:induction false} PassedKeeps(stages: seq<Stage>, k: nat, v: int)
    requires k <= |stages|
    ensures Passed(stages, k, v)[..k] == stages[..k]
    decreases |stages| - k
  {
    if k < |stages| {
      match stages[k]
      case Map(f) =>
        PassedKeeps(stages, k + 1, f(v));
        assert Passed(stages, k, v)[..k] == Passed(stages, k, v)[..k + 1][..k];
      case Filter(p) =>
        PassedKeeps(stages, k + 1, v);
        assert Passed(stages, k + 1, v)[..k] == Passed(stages, k + 1, v)[..k + 1][..k];
      case Take(limit) =>
        var t := stages[k := Take(limit - 1)];
        PassedKeeps(t, k + 1, v);
        assert Passed(t, k + 1, v)[..k] == Passed(t, k + 1, v)[..k + 1][..k];
    }
  }

  lemma {:induction false} NothingIn(stages: seq<Stage>)
    ensures Applied(stages, []) == []
  {
    if stages != [] {
      NothingIn(stages[1..]);
    }
  }

  lemma {:induction false} NothingOutOfClosed(stages: seq<Stage>, xs: seq<int>)
    requires !AllOpen(stages)
    ensures Applied(stages, xs) == []
    decreases |stages|
  {
    if stages[0].Take? && stages[0].limit <= 0 {
      NothingIn(stages[1..]);
    } else {
      var i :| 0 <= i < |stages| && stages[i].Take? && stages[i].limit <= 0;
      assert stages[1..][i - 1] == stages[i];
      match stages[0]
      case Map(f) => NothingOutOfClosed(stages[1..], Mapped(f, xs));
      case Filter(p) => NothingOutOfClosed(stages[1..], Filtered(p, xs));
      case Take(limit) => NothingOutOfClosed(stages[1..], Taken(limit, xs));
    }
  }

  /** One value at a time. */
  lemma {:induction false} AppliedToOne(stages: seq<Stage>, k: nat, x: int, xs: seq<int>)
    requires k <= |stages|
    ensures Applied(stages[k..], [x] + xs) == Out(stages, k, x) + Applied(Passed(stages, k, x)[k..], xs)
    decreases |stages| - k
  {
    var all := [x] + xs;
    assert all[0] == x && all[1..] == xs;
    if k < |stages| {
      var s := stages[k..];
      assert s[0] == stages[k] && s[1..] == stages[k + 1..];
      var after := Passed(stages, k, x);
      assert after[k..][1..] == after[k + 1..];
      match stages[k]
      case Map(f) =>
        AppliedToOne(stages, k + 1, f(x), Mapped(f, xs));
        PassedKeeps(stages, k + 1, f(x));
        assert after[k] == after[..k + 1][k] == stages[k];
      case Filter(p) =>
        if p(x) {
          AppliedToOne(stages, k + 1, x, Filtered(p, xs));
          PassedKeeps(stages, k + 1, x);
          assert after[k] == after[..k + 1][k] == stages[k];
        } else {
          assert Filtered(p, all) == Filtered(p, xs);
        }
      case Take(limit) =>
        if limit > 0 {
          var t := stages[k := Take(limit - 1)];
          AppliedToOne(t, k + 1, x, Taken(limit - 1, xs));
          TakenFirst(stages, k, x, limit);
          TakenOne(limit, x, xs);
        } else {
          NothingIn(stages[k + 1..]);
          assert after[k + 1..] == stages[k + 1..];
        }
    }
  }

  lemma TakenFirst(stages: seq<Stage>, k: nat, x: int, limit: int)
    requires k < |stages| && stages[k] == Take(limit) && limit > 0
    ensures var t := stages[k := Take(limit - 1)];
      && t[k + 1..] == stages[k + 1..] && Passed(stages, k, x) == Passed(t, k + 1, x)
      && Out(stages, k, x) == Out(t, k + 1, x) && Passed(t, k + 1, x)[k] == Take(limit - 1)
  {
    var t := stages[k := Take(limit - 1)];
    TakePasses(stages, k, x, limit);
    PassedKeeps(t, k + 1, x);
    assert Passed(t, k + 1, x)[k] == Passed(t, k + 1, x)[..k + 1][k] == t[k];
  }

  lemma TakenOne(limit: int, x: int, xs: seq<int>)
    requires limit > 0
    ensures Taken(limit, [x] + xs) == [x] + Taken(limit - 1, xs)
  {
  }

  // ---- Open and closed takes ----

  lemma {:induction false} PassedTakes(stages: seq<Stage>, k: nat, v: int)
    requires k <= |stages|
    ensures var after := Passed(stages, k, v);
      forall i | 0 <= i < |stages| :: after[i].Take? == stages[i].Take? && (stages[i].Take? ==> after[i].limit <= stages[i].limit)
    decreases |stages| - k
  {
    if k < |stages| {
      match stages[k]
      case Map(f) => PassedTakes(stages, k + 1, f(v));
      case Filter(p) => PassedTakes(stages, k + 1, v);
      case Take(limit) => PassedTakes(stages[k := Take(limit - 1)], k + 1, v);
    }
  }

  predicate OpenFrom(stages: seq<Stage>, k: nat) {
    forall i | k <= i < |stages| :: stages[i].Take? ==> stages[i].limit > 0
  }

  lemma OpenFromNext(stages: seq<Stage>, k: nat)
    requires k < |stages|
    ensures OpenFrom(stages, k) <==> (stages[k].Take? ==> stages[k].limit > 0) && OpenFrom(stages, k + 1)
  {
    if (stages[k].Take? ==> stages[k].limit > 0) && OpenFrom(stages, k + 1) {
      forall i | k <= i < |stages| ensures stages[i].Take? ==> stages[i].limit > 0 {
        assert i == k || i >= k + 1;
      }
    }
  }

  /** The operators stay open exactly if no take runs out. */
  lemma {:induction false} OpenUnlessRunningOut(stages: seq<Stage>, k: nat, v: int)
    requires k <= |stages| && OpenFrom(stages, k)
    ensures RunningOut(stages, k, v) == 0 <==> OpenFrom(Passed(stages, k, v), k)
    decreases |stages| - k
  {
    if k < |stages| {
      OpenFromNext(stages, k);
      OpenFromNext(Passed(stages, k, v), k);
      match stages[k]
      case Map(f) =>
        OpenUnlessRunningOut(stages, k + 1, f(v));
        KeepsAt(stages, k + 1, f(v), k);
      case Filter(p) =>
        OpenUnlessRunningOut(stages, k + 1, v);
        KeepsAt(stages, k + 1, v, k);
      case Take(limit) =>
        var t := stages[k := Take(limit - 1)];
        assert OpenFrom(t, k + 1);
        OpenUnlessRunningOut(t, k + 1, v);
        AheadOnly(stages, t, k + 1, v);
        KeepsAt(t, k + 1, v, k);
    }
  }

  lemma KeepsAt(stages: seq<Stage>, k: nat, v: int, i: nat)
    requires i < k <= |stages|
    ensures Passed(stages, k, v)[i] == stages[i]
  {
    PassedKeeps(stages, k, v);
    assert Passed(stages, k, v)[i] == Passed(stages, k, v)[..k][i];
  }

  lemma {:induction false} NeedAtMost(stages: seq<Stage>, k: nat, x: int, j: nat)
    requires k <= j < |stages| && stages[j].Take? && x >= 0
    ensures 0 <= Need(stages, k, x) <= Max(stages[j].limit, 0)
    decreases |stages| - k
  {
    NeedIsNatural(stages, k + 1, x);
    if k < j {
      NeedAtMost(stages, k + 1, x, j);
    }
  }

  lemma {:induction false} NeedIsNatural(stages: seq<Stage>, k: nat, x: int)
    requires k <= |stages| && x >= 0
    ensures Need(stages, k, x) >= 0
    decreases |stages| - k
  {
    if k < |stages| {
      NeedIsNatural(stages, k + 1, x);
    }
  }

  /** Something is wanted of the source exactly as long as all takes are open. */
  lemma {:induction false} WantedIffOpen(stages: seq<Stage>, x: int)
    requires x >= 1
    ensures Need(stages, 0, x) >= 1 <==> AllOpen(stages)
    ensures Need(stages, 0, x) >= 0
  {
    NeedIsNatural(stages, 0, x);
    if AllOpen(stages) {
      OpenIsWanted(stages, 0, x);
    } else {
      var j :| 0 <= j < |stages| && stages[j].Take? && stages[j].limit <= 0;
      NeedAtMost(stages, 0, x, j);
    }
  }

  lemma {:induction false} OpenIsWanted(stages: seq<Stage>, k: nat, x: int)
    requires k <= |stages| && AllOpen(stages) && x >= 1
    ensures Need(stages, k, x) >= 1
    decreases |stages| - k
  {
    if k < |stages| {
      OpenIsWanted(stages, k + 1, x);
    }
  }

  // ---- Two takes ----

  /** With nothing but two takes, they run out together exactly if their limits are the same and the source has enough.
      */
  lemma {:induction false} TwoTakesIff(a: int, b: int, xs: seq<int>)
    requires a >= 1 && b >= 1
    ensures RunOutTogether([Take(a), Take(b)], xs) <==> a == b <= |xs|
    decreases |xs|
  {
    var s := [Take(a), Take(b)];
    if xs != [] {
      var x := xs[0];
      var t := [Take(a - 1), Take(b)];
      var u := [Take(a - 1), Take(b - 1)];
      assert s[0 := Take(a - 1)] == t && t[1 := Take(b - 1)] == u;
      assert Passed(u, 2, x) == u && Passed(t, 1, x) == u && Passed(s, 0, x) == u;
      assert RunningOut(s, 2, x) == 0 && RunningOut(s, 1, x) == (if b == 1 then 1 else 0);
      assert RunningOut(s, 0, x) == (if a == 1 then 1 else 0) + (if b == 1 then 1 else 0);
      if a > 1 && b > 1 {
        TwoTakesIff(a - 1, b - 1, xs[1..]);
      } else {
        assert u[0].limit <= 0 || u[1].limit <= 0;
        assert !AllOpen(u);
      }
    }
  }
}
