/** The resume cache as the library has it: an object whose fields are updated in place.  Every method performs
    the transition of the same name in module `ResumeState`. */
module ResumeCaches {
  import opened Frames
  import opened SentLog
  import opened ResumeState
  import opened ResumeLaws

  class ResumeCache {
    const capacity: nat
    var position: int
    var resetPosition: int
    var impliedPosition: int
    var frames: seq<Entry>
    var size: nat
    var streamMap: map<nat, int>
    var statFrames: int
    var statBytes: int

    /** Every tracked frame sent so far. */
    ghost var log: seq<Frame>

    function State(): Cache
      reads this
    {
      Cache(capacity, position, resetPosition, impliedPosition, frames, size, streamMap, statFrames, statBytes)
    }

    ghost predicate Valid()
      reads this
    {
      Represents(State(), log)
    }

    constructor (capacity: nat)
      ensures Valid() && State() == Empty(capacity) && log == []
    {
      this.capacity := capacity;
      position, resetPosition, impliedPosition := 0, 0, 0;
      frames, size, streamMap := [], 0, map[];
      statFrames, statBytes := 0, 0;
      log := [];
    }

    method TrackReceivedFrame(f: Frame)
      requires Valid()
      modifies this
      ensures Valid() && log == old(log)
      ensures State() == TrackReceived(old(State()), f)
    {
      if ShouldTrack(f.kind) {
        impliedPosition := impliedPosition + Length(f);
      }
    }

    /** `ok` is false when eviction finds nothing to evict; the state then no longer matters. */
    method TrackSentFrame(f: Frame) returns (ok: bool)
      requires Valid() && Length(f) >= 1
      modifies this
      ensures ok <==> TrackSent(old(State()), f).Some?
      ensures ok ==> Valid() && log == Logged(old(log), f)
      ensures ok ==> State() == TrackSent(old(State()), f).value
    {
      hide Represents, ResetUpTo, Evict;
      ghost var before := State();
      TrackSentRepresents(before, log, f);
      if ShouldTrack(f.kind) {
        if Length(f) > capacity {
          ResetUpToPosition(position);
          position := position + Length(f);
          log := log + [f];
          return true;
        }
        ok := AddFrame(f);
        if ok {
          position := position + Length(f);
          streamMap := streamMap[f.streamId := position];
          log := log + [f];
        }
      } else {
        ok := true;
      }
    }

    method ResetUpToPosition(p: int)
      requires Valid()
      modifies this
      ensures Valid() && log == old(log)
      ensures State() == ResetUpTo(old(State()), p)
    {
      hide Represents, ClearFrames;
      ghost var before := State();
      ResetRepresents(before, log, p);
      if p <= resetPosition {
        return;
      }
      var target := p;
      if target > position {
        target := position;
      }
      EraseStreams(target);
      RepresentsIsSorted(before, log);
      ghost var erased := State();
      assert erased == before.(streams := map id | id in before.streams && before.streams[id] > target :: before.streams[id]);
      ClearFramesTo(target);
      resetPosition := target;
      assert State() == ClearFrames(erased, target).(reset := target);
      assert State() == ResetUpTo(before, p);
    }

    /** Forgets the streams whose last frame ends by `p`. */
    method EraseStreams(p: int)
      modifies this`streamMap
      ensures streamMap == map id | id in old(streamMap) && old(streamMap)[id] > p :: old(streamMap)[id]
    {
      var visit := streamMap.Keys;
      while visit != {}
        invariant visit <= streamMap.Keys <= old(streamMap).Keys
        invariant forall id | id in streamMap :: streamMap[id] == old(streamMap)[id]
        invariant forall id | id in streamMap :: id in visit || streamMap[id] > p
        invariant forall id | id in old(streamMap) && id !in streamMap :: old(streamMap)[id] <= p
        decreases |visit|
      {
        var id :| id in visit;
        visit := visit - {id};
        if streamMap[id] <= p {
          streamMap := streamMap - {id};
        }
      }
    }

    /** The binary search of the standard library: the first cached frame that starts at `p` or later. */
    method FirstFrom(p: int) returns (first: nat)
      requires forall i, j | 0 <= i < j < |frames| :: frames[i].at < frames[j].at
      ensures first == LowerBound(frames, p)
    {
      var count: nat := |frames|;
      first := 0;
      while count > 0
        invariant first + count <= |frames|
        invariant forall i | 0 <= i < first :: frames[i].at < p
        invariant first + count < |frames| ==> frames[first + count].at >= p
      {
        var step := count / 2;
        if frames[first + step].at < p {
          first, count := first + step + 1, count - step - 1;
        } else {
          count := step;
        }
      }
      assert first == LowerBound(frames, p);
    }

    method ClearFramesTo(p: int)
      requires forall i, j | 0 <= i < j < |frames| :: frames[i].at < frames[j].at
      modifies this
      ensures State() == ClearFrames(old(State()), p) && log == old(log)
    {
      if frames == [] {
        return;
      }
      var end := FirstFrom(p);
      var pos := if end == |frames| then p else frames[end].at;
      statFrames := statFrames - end;
      statBytes := statBytes - (pos - resetPosition);
      frames := frames[end..];
      size := (size - (pos - resetPosition)) % SIZE_T;
    }

    /** Counts the frame, makes room for it and stores it; its end position is left to the caller. */
    method AddFrame(f: Frame) returns (ok: bool)
      requires Valid() && 1 <= Length(f)
      modifies this
      ensures var evicted := Evict(old(State()).(size := (old(size) + Length(f)) % SIZE_T));
        && (ok <==> evicted.Some?)
        && (ok ==> State() == Appended(evicted.value, f).(position := old(position), streams := evicted.value.streams))
      ensures log == old(log)
    {
      hide Represents, ResetUpTo;
      ghost var before := State();
      size := (size + Length(f)) % SIZE_T;
      ghost var start := State();
      SameRepresentation(before, start, log);
      while size > capacity
        invariant Valid() && log == old(log) && position == old(position)
        invariant Evict(State()) == Evict(start)
        decreases |frames|
      {
        var count := |frames|;
        EvictFrame();
        if |frames| == count {
          return false;
        }
      }
      frames := frames + [Entry(position, f)];
      statFrames := statFrames + 1;
      statBytes := statBytes + Length(f);
      ok := true;
    }

    method EvictFrame()
      requires Valid()
      modifies this
      ensures Valid() && log == old(log)
      ensures State() == ResetUpTo(old(State()), EvictPosition(old(State())))
      ensures |frames| <= old(|frames|)
    {
      ResetRepresents(State(), log, EvictPosition(State()));
      var p := if |frames| > 1 then frames[1].at else position;
      ResetUpToPosition(p);
    }

    method IsPositionAvailable(p: int) returns (available: bool)
      requires Valid()
      ensures available <==> Available(State(), p)
    {
      if position == p {
        return true;
      }
      RepresentsIsSorted(State(), log);
      var i := FirstFrom(p);
      available := i < |frames| && frames[i].at == p;
    }

    /** Hands the cached frames from position `p` on to the transport, oldest first. */
    method SendFramesFromPosition(p: int) returns (sent: seq<Frame>)
      requires Valid() && Available(State(), p)
      ensures sent == Replay(State(), p)
    {
      hide Represents, Scan;
      sent := [];
      if p == position {
        return;
      }
      RepresentsIsSorted(State(), log);
      var found := FirstFrom(p);
      ghost var first := found;
      while found < |frames|
        invariant first <= found <= |frames|
        invariant sent == FramesOf(frames[first..found])
      {
        sent := sent + [frames[found].frame];
        found := found + 1;
      }
      assert frames[first..] == frames[first..found];
    }

    /** The destructor: gives back everything reported to the statistics. */
    method Destroy()
      requires Valid()
      modifies this
      ensures State() == ClearFrames(old(State()), old(position))
      ensures Exact(old(State()), old(log)) ==> statFrames == 0 && statBytes == 0
    {
      RepresentsIsSorted(State(), log);
      if Exact(State(), log) {
        DestructionSettlesStatistics(State(), log);
      }
      ClearFramesTo(position);
    }
  }
}
