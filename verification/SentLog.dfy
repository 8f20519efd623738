/** The ideal object behind a resume cache: the list of every tracked frame ever sent, and the
    byte position at which each of them starts. */
module SentLog {
  import opened Frames

  /** The byte position of the boundary just before `log[i]`. */
  function Boundary(log: seq<Frame>, i: nat): nat
    requires i <= |log|
  {
    if i == 0 then 0 else Boundary(log, i - 1) + Length(log[i - 1])
  }

  /** The position just behind the whole log. */
  function End(log: seq<Frame>): nat {
    Boundary(log, |log|)
  }

  /** Every serialized frame holds at least its header. */
  ghost predicate NonEmptyFrames(log: seq<Frame>) {
    forall i | 0 <= i < |log| :: Length(log[i]) >= 1
  }

  ghost predicate IsBoundary(log: seq<Frame>, p: int) {
    exists i :: 0 <= i <= |log| && Boundary(log, i) == p
  }

  /** Boundaries only depend on the frames before them. */
  lemma {:induction false} BoundaryOfPrefix(log: seq<Frame>, more: seq<Frame>, i: nat)
    requires i <= |log| && log <= more
    ensures Boundary(log, i) == Boundary(more, i)
  {
    if i > 0 {
      BoundaryOfPrefix(log, more, i - 1);
    }
  }

  lemma {:induction false} BoundaryIncreases(log: seq<Frame>, i: nat, j: nat)
    requires NonEmptyFrames(log)
    requires i < j <= |log|
    ensures Boundary(log, i) < Boundary(log, j)
    decreases j
  {
    if i < j - 1 {
      BoundaryIncreases(log, i, j - 1);
    }
  }

  lemma {:induction false} BoundaryMonotone(log: seq<Frame>, i: nat, j: nat)
    requires NonEmptyFrames(log)
    requires i <= j <= |log|
    ensures Boundary(log, i) <= Boundary(log, j)
  {
    if i < j {
      BoundaryIncreases(log, i, j);
    }
  }

  /** A position names at most one boundary. */
  lemma BoundaryInjective(log: seq<Frame>, i: nat, j: nat)
    requires NonEmptyFrames(log)
    requires i <= |log| && j <= |log| && Boundary(log, i) == Boundary(log, j)
    ensures i == j
  {
    if i < j {
      BoundaryIncreases(log, i, j);
    } else if j < i {
      BoundaryIncreases(log, j, i);
    }
  }

  lemma AppendKeepsBoundaries(log: seq<Frame>, f: Frame)
    ensures forall i :: 0 <= i <= |log| ==> Boundary(log + [f], i) == Boundary(log, i)
    ensures End(log + [f]) == End(log) + Length(f)
  {
    forall i | 0 <= i <= |log| ensures Boundary(log + [f], i) == Boundary(log, i) {
      BoundaryOfPrefix(log, log + [f], i);
    }
  }
}
