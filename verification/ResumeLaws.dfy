/** What the transitions of a resume cache mean for the log of sent frames. */
module ResumeLaws {
  import opened Frames
  import opened SentLog
  import opened ResumeState

  /** The frames of the log from index `from` on, each at the position where it was sent. */
  ghost function Entries(log: seq<Frame>, from: nat): (r: seq<Entry>)
    requires from <= |log|
  {
    seq(|log| - from, i requires 0 <= i < |log| - from => Entry(Boundary(log, from + i), log[from + i]))
  }

  lemma EntriesAppend(log: seq<Frame>, from: nat, f: Frame)
    requires from <= |log|
    ensures Entries(log + [f], from) == Entries(log, from) + [Entry(End(log), f)]
  {
    AppendKeepsBoundaries(log, f);
  }

  /** The number of frames of the log that are no longer cached. */
  function Dropped(c: Cache, log: seq<Frame>): (k: nat)
    ensures k <= |log|
  {
    if |c.frames| <= |log| then |log| - |c.frames| else 0
  }

  /** The cached frames are a suffix of the log, each at the position where it was sent.  This survives
      oversize frames and misaligned resets. */
  ghost predicate Represents(c: Cache, log: seq<Frame>) {
    && NonEmptyFrames(log)
    && |c.frames| <= |log|
    && c.position == End(log)
    && 0 <= c.reset <= Boundary(log, Dropped(c, log))
    && c.frames == Entries(log, Dropped(c, log))
  }

  /** `streams` maps each stream with a cached frame to the end of its last cached frame. */
  ghost predicate StreamEnds(streams: map<nat, int>, frames: seq<Entry>) {
    && (forall id | id in streams ::
          exists i :: 0 <= i < |frames| && frames[i].frame.streamId == id && streams[id] == EndOf(frames[i]))
    && (forall i | 0 <= i < |frames| ::
          frames[i].frame.streamId in streams && streams[frames[i].frame.streamId] >= EndOf(frames[i]))
  }

  /** No hole between the reset position and the cached frames, and a size, a stream map and statistics
      that agree with them; `extra` is what `size` counts for a frame that is about to be added. */
  ghost predicate Tight(c: Cache, log: seq<Frame>, extra: nat) {
    && Represents(c, log)
    && c.reset == Boundary(log, Dropped(c, log))
    && c.size == c.position - c.reset + extra < SIZE_T
    && StreamEnds(c.streams, c.frames)
    && c.statFrames == |c.frames|
    && c.statBytes == c.position - c.reset
  }

  /** The full representation of a log between two operations. */
  ghost predicate Exact(c: Cache, log: seq<Frame>) {
    Tight(c, log, 0) && c.size <= c.capacity < SIZE_T / 2
  }

  lemma EmptyIsExact(capacity: nat)
    requires capacity < SIZE_T / 2
    ensures Exact(Empty(capacity), [])
  {
  }

  /** Cached frames start at strictly increasing positions below the end position. */
  lemma RepresentsIsSorted(c: Cache, log: seq<Frame>)
    requires Represents(c, log)
    ensures forall i | 0 <= i < |c.frames| :: c.reset <= c.frames[i].at < c.position
    ensures forall i, j | 0 <= i < j < |c.frames| :: c.frames[i].at < c.frames[j].at
  {
    var k := Dropped(c, log);
    forall i | 0 <= i < |c.frames| ensures c.reset <= c.frames[i].at < c.position {
      BoundaryMonotone(log, k, k + i);
      BoundaryIncreases(log, k + i, |log|);
    }
    forall i, j | 0 <= i < j < |c.frames| ensures c.frames[i].at < c.frames[j].at {
      BoundaryIncreases(log, k + i, k + j);
    }
  }

  /** Representation only looks at the frames and the two positions. */
  lemma SameRepresentation(c: Cache, d: Cache, log: seq<Frame>)
    requires Represents(c, log)
    requires d.frames == c.frames && d.position == c.position && d.reset == c.reset
    ensures Represents(d, log) && Dropped(d, log) == Dropped(c, log)
  {
    hide Boundary, Entries;
  }

  // ---- lookup and replay ------------------------------------------------------------------------

  lemma AvailableAtBoundary(c: Cache, log: seq<Frame>, j: nat)
    requires Represents(c, log)
    requires Dropped(c, log) <= j <= |log|
    ensures Available(c, Boundary(log, j))
  {
    if j < |log| {
      assert c.frames[j - Dropped(c, log)].at == Boundary(log, j);
    }
  }

  lemma BoundaryOfAvailable(c: Cache, log: seq<Frame>, p: int) returns (j: nat)
    requires Represents(c, log) && Available(c, p)
    ensures Dropped(c, log) <= j <= |log| && Boundary(log, j) == p
  {
    if p == c.position {
      j := |log|;
    } else {
      var i :| 0 <= i < |c.frames| && c.frames[i].at == p;
      j := Dropped(c, log) + i;
    }
  }

  /** Exactly the boundaries from the oldest cached frame on are available. */
  lemma AvailableIffCachedBoundary(c: Cache, log: seq<Frame>, p: int)
    requires Represents(c, log)
    ensures Available(c, p) <==>
            exists j :: Dropped(c, log) <= j <= |log| && Boundary(log, j) == p
  {
    if Available(c, p) {
      var j := BoundaryOfAvailable(c, log, p);
    } else {
      forall j | Dropped(c, log) <= j <= |log| ensures Boundary(log, j) != p {
        AvailableAtBoundary(c, log, j);
      }
    }
  }

  /** Without a hole, exactly the boundaries at or behind the reset position are available. */
  lemma AvailableIffBoundary(c: Cache, log: seq<Frame>, p: int)
    requires Exact(c, log)
    ensures Available(c, p) <==> IsBoundary(log, p) && p >= c.reset
  {
    var k := Dropped(c, log);
    AvailableIffCachedBoundary(c, log, p);
    if j :| k <= j <= |log| && Boundary(log, j) == p {
      BoundaryMonotone(log, k, j);
    }
    if j :| 0 <= j < k && Boundary(log, j) == p {
      BoundaryIncreases(log, j, k);
    }
  }

  lemma LowerBoundIs(frames: seq<Entry>, p: int, i: nat)
    requires i <= |frames|
    requires forall j | 0 <= j < i :: frames[j].at < p
    requires i < |frames| ==> frames[i].at >= p
    ensures LowerBound(frames, p) == i
  {
    hide Scan;
  }

  lemma EntriesBelow(log: seq<Frame>, k: nat, j: nat)
    requires NonEmptyFrames(log) && k <= j <= |log|
    ensures forall i | 0 <= i < j - k :: Entries(log, k)[i].at < Boundary(log, j)
    ensures j < |log| ==> Entries(log, k)[j - k].at == Boundary(log, j)
  {
    forall i | 0 <= i < j - k ensures Entries(log, k)[i].at < Boundary(log, j) {
      BoundaryIncreases(log, k + i, j);
    }
  }

  /** The search for a boundary finds the frame that starts there. */
  lemma LowerBoundOfEntries(log: seq<Frame>, k: nat, j: nat)
    requires NonEmptyFrames(log) && k <= j <= |log|
    ensures LowerBound(Entries(log, k), Boundary(log, j)) == j - k
  {
    hide Boundary, LowerBound, Scan;
    EntriesBelow(log, k, j);
    LowerBoundIs(Entries(log, k), Boundary(log, j), j - k);
  }

  lemma FramesOfEntries(log: seq<Frame>, k: nat, i: nat)
    requires k + i <= |log|
    ensures FramesOf(Entries(log, k)[i..]) == log[k + i..]
  {
    hide Boundary;
  }

  /** Replaying from a boundary retransmits exactly the frames of the log behind it. */
  lemma ReplayIsLogSuffix(c: Cache, log: seq<Frame>, j: nat)
    requires Represents(c, log)
    requires Dropped(c, log) <= j <= |log|
    ensures Available(c, Boundary(log, j))
    ensures Replay(c, Boundary(log, j)) == log[j..]
  {
    hide Boundary, LowerBound, Scan, Entries, FramesOf, Available;
    var k := Dropped(c, log);
    AvailableAtBoundary(c, log, j);
    if j < |log| {
      BoundaryIncreases(log, j, |log|);
      LowerBoundOfEntries(log, k, j);
      FramesOfEntries(log, k, j - k);
    }
  }

  // ---- resetting --------------------------------------------------------------------------------

  /** A reset, aligned or not, leaves a suffix of the log in place. */
  lemma ResetRepresents(c: Cache, log: seq<Frame>, p: int)
    requires Represents(c, log)
    ensures Represents(ResetUpTo(c, p), log)
    ensures |ResetUpTo(c, p).frames| <= |c.frames|
  {
    var k := Dropped(c, log);
    var q := ResetTarget(c, p);
    if p > c.reset && c.frames != [] {
      var i := LowerBound(c.frames, q);
      if i < |c.frames| {
      }
    }
  }

  /** Dropping the frames that start before `q` and the streams that end by `q`, where a frame that
      starts before `q` also ends by `q`. */
  lemma ResetStreamEnds(streams: map<nat, int>, frames: seq<Entry>, i: nat, q: int)
    requires StreamEnds(streams, frames) && i <= |frames|
    requires forall m | 0 <= m < i :: EndOf(frames[m]) <= q
    requires forall m | i <= m < |frames| :: EndOf(frames[m]) > q
    ensures StreamEnds(map id | id in streams && streams[id] > q :: streams[id], frames[i..])
  {
    var s := map id | id in streams && streams[id] > q :: streams[id];
    forall id | id in s
      ensures exists m :: 0 <= m < |frames[i..]| && frames[i..][m].frame.streamId == id && s[id] == EndOf(frames[i..][m])
    {
      var m :| 0 <= m < |frames| && frames[m].frame.streamId == id && streams[id] == EndOf(frames[m]);
      assert frames[i..][m - i] == frames[m];
    }
    forall m | 0 <= m < |frames[i..]|
      ensures frames[i..][m].frame.streamId in s && s[frames[i..][m].frame.streamId] >= EndOf(frames[i..][m])
    {
      assert frames[i..][m] == frames[i + m];
    }
  }

  /** Which of the frames from index `k` on end by boundary `j`. */
  lemma EntriesEndBefore(log: seq<Frame>, k: nat, j: nat)
    requires NonEmptyFrames(log) && k <= j <= |log|
    ensures forall i | 0 <= i < |log| - k :: EndOf(Entries(log, k)[i]) <= Boundary(log, j) <==> i < j - k
  {
    forall i | 0 <= i < |log| - k
      ensures EndOf(Entries(log, k)[i]) <= Boundary(log, j) <==> i < j - k
    {
      if k + i + 1 <= j {
        BoundaryMonotone(log, k + i + 1, j);
      } else {
        BoundaryIncreases(log, j, k + i + 1);
      }
    }
  }

  /** A reset forward to boundary `j`: the frames before it go, and the streams that ended by it. */
  lemma ResetForward(c: Cache, log: seq<Frame>, p: int, j: nat)
    requires Represents(c, log)
    requires Dropped(c, log) <= j <= |log| && Boundary(log, j) == p && p > c.reset && c.frames != []
    ensures ResetTarget(c, p) == p
    ensures ResetUpTo(c, p).frames == c.frames[j - Dropped(c, log)..] == Entries(log, j)
    ensures ResetUpTo(c, p).size == (c.size - (p - c.reset)) % SIZE_T
    ensures ResetUpTo(c, p).statFrames == c.statFrames - (j - Dropped(c, log))
    ensures ResetUpTo(c, p).statBytes == c.statBytes - (p - c.reset)
  {
    hide Boundary, Scan, LowerBound;
    BoundaryMonotone(log, j, |log|);
    LowerBoundOfEntries(log, Dropped(c, log), j);
  }

  lemma ResetForwardStreams(c: Cache, log: seq<Frame>, p: int, j: nat)
    requires Represents(c, log) && StreamEnds(c.streams, c.frames)
    requires Dropped(c, log) <= j <= |log| && Boundary(log, j) == p && p > c.reset && c.frames != []
    ensures StreamEnds(ResetUpTo(c, p).streams, ResetUpTo(c, p).frames)
  {
    hide Boundary, Scan, LowerBound, StreamEnds, Entries;
    ResetForward(c, log, p, j);
    EntriesEndBefore(log, Dropped(c, log), j);
    ResetStreamEnds(c.streams, c.frames, j - Dropped(c, log), p);
  }

  /** A reset to a boundary drops exactly the frames before it. */
  lemma ResetToBoundary(c: Cache, log: seq<Frame>, p: int, j: nat, extra: nat)
    requires Tight(c, log, extra)
    requires Dropped(c, log) <= j <= |log| && Boundary(log, j) == p
    ensures Tight(ResetUpTo(c, p), log, extra)
    ensures Dropped(ResetUpTo(c, p), log) == j
  {
    hide Boundary, Scan, LowerBound, StreamEnds, Entries;
    var k := Dropped(c, log);
    BoundaryMonotone(log, j, |log|);
    if p > c.reset {
      ResetForward(c, log, p, j);
      ResetForwardStreams(c, log, p, j);
    } else {
      BoundaryMonotone(log, k, j);
      BoundaryInjective(log, k, j);
    }
  }

  /** A reset keeps the cache exact precisely when it is a no-op, a reset of everything, or aligned. */
  lemma ResetExactIffAligned(c: Cache, log: seq<Frame>, p: int)
    requires Exact(c, log)
    ensures Exact(ResetUpTo(c, p), log) <==> p <= c.reset || p >= c.position || IsBoundary(log, p)
  {
    var k := Dropped(c, log);
    var r := ResetUpTo(c, p);
    if p > c.reset {
      if p >= c.position {
        assert r == ResetUpTo(c, c.position) || c.position == c.reset;
        if c.position > c.reset {
          ResetToBoundary(c, log, c.position, |log|, 0);
        } else if k < |log| {
          BoundaryIncreases(log, k, |log|);
        }
      } else if j :| 0 <= j <= |log| && Boundary(log, j) == p {
        if j < k {
          BoundaryIncreases(log, j, k);
        }
        ResetToBoundary(c, log, p, j, 0);
      } else {
        assert r.reset == p;
      }
    }
  }

  // ---- eviction and tracking --------------------------------------------------------------------

  /** Eviction drops the oldest frames, and no more of them than needed. */
  lemma {:induction false} EvictFits(c: Cache, log: seq<Frame>, n: nat)
    requires Tight(c, log, n) && n <= c.capacity
    ensures Evict(c).Some?
    ensures var e := Evict(c).value;
      && Tight(e, log, n)
      && e.size <= e.capacity
      && Dropped(c, log) <= Dropped(e, log)
      && (Dropped(e, log) == Dropped(c, log)
          || End(log) - Boundary(log, Dropped(e, log) - 1) + n > c.capacity)
    decreases |c.frames|
  {
    hide Boundary, Scan, StreamEnds, ResetUpTo;
    var k := Dropped(c, log);
    if c.size > c.capacity {
      assert c.frames != [];
      if |c.frames| > 1 {
      }
      assert EvictPosition(c) == Boundary(log, k + 1);
      ResetToBoundary(c, log, EvictPosition(c), k + 1, n);
      EvictFits(ResetUpTo(c, EvictPosition(c)), log, n);
    }
  }

  lemma StreamEndsAppend(streams: map<nat, int>, frames: seq<Entry>, e: Entry)
    requires StreamEnds(streams, frames)
    requires forall i | 0 <= i < |frames| :: EndOf(frames[i]) <= EndOf(e)
    ensures StreamEnds(streams[e.frame.streamId := EndOf(e)], frames + [e])
  {
    var s := streams[e.frame.streamId := EndOf(e)];
    var all := frames + [e];
    forall id | id in s
      ensures exists i :: 0 <= i < |all| && all[i].frame.streamId == id && s[id] == EndOf(all[i])
    {
      if id == e.frame.streamId {
        assert all[|frames|] == e;
      } else {
        var i :| 0 <= i < |frames| && frames[i].frame.streamId == id && streams[id] == EndOf(frames[i]);
        assert all[i] == frames[i];
      }
    }
  }

  /** Where a cached frame ends. */
  lemma EntryEnds(log: seq<Frame>, k: nat, i: nat)
    requires k + i < |log|
    ensures EndOf(Entries(log, k)[i]) == Boundary(log, k + i + 1)
  {
  }

  /** The log after a frame has been handed to the cache. */
  function Logged(log: seq<Frame>, f: Frame): seq<Frame> {
    if ShouldTrack(f.kind) then log + [f] else log
  }

  lemma AppendRepresents(e: Cache, log: seq<Frame>, f: Frame)
    requires Represents(e, log) && Length(f) >= 1
    ensures Represents(Appended(e, f), log + [f])
  {
    AppendKeepsBoundaries(log, f);
    EntriesAppend(log, Dropped(e, log), f);
  }

  lemma AppendTight(e: Cache, log: seq<Frame>, f: Frame)
    requires Tight(e, log, Length(f)) && Length(f) >= 1
    ensures Tight(Appended(e, f), log + [f], 0)
    ensures Dropped(Appended(e, f), log + [f]) == Dropped(e, log)
  {
    var k := Dropped(e, log);
    AppendRepresents(e, log, f);
    AppendKeepsBoundaries(log, f);
    forall i | 0 <= i < |e.frames| ensures EndOf(e.frames[i]) <= End(log) + Length(f) {
      EntryEnds(log, k, i);
      BoundaryMonotone(log, k + i + 1, |log|);
    }
    StreamEndsAppend(e.streams, e.frames, Entry(e.position, f));
  }

  lemma GrowTight(c: Cache, log: seq<Frame>, n: nat)
    requires Tight(c, log, 0) && c.size + n < SIZE_T
    ensures Tight(c.(size := c.size + n), log, n)
  {
    hide Boundary, StreamEnds;
  }

  lemma TrackSentUnfold(c: Cache, f: Frame)
    requires ShouldTrack(f.kind) && Length(f) <= c.capacity && c.size + Length(f) < SIZE_T
    ensures TrackSent(c, f) ==
      match Evict(c.(size := c.size + Length(f)))
      case None => None
      case Some(e) => Some(Appended(e, f))
  {
    hide Evict, ResetUpTo, Appended;
  }

  /** A frame that fits leaves the cache exact: it then holds the longest suffix of what it held plus
      the new frame that its capacity allows. */
  lemma TrackSentExact(c: Cache, log: seq<Frame>, f: Frame)
    requires Exact(c, log)
    requires ShouldTrack(f.kind) && 1 <= Length(f) <= c.capacity
    ensures TrackSent(c, f).Some?
    ensures var r := TrackSent(c, f).value;
      && Exact(r, log + [f])
      && Dropped(c, log) <= Dropped(r, log + [f]) <= |log|
      && (Dropped(r, log + [f]) == Dropped(c, log)
          || End(log + [f]) - Boundary(log + [f], Dropped(r, log + [f]) - 1) > c.capacity)
  {
    hide TrackSent, Evict, Represents, StreamEnds, Boundary;
    TrackSentUnfold(c, f);
    var c1 := c.(size := c.size + Length(f));
    assert Tight(c1, log, Length(f)) by { GrowTight(c, log, Length(f)); }
    EvictFits(c1, log, Length(f));
    AppendTight(Evict(c1).value, log, f);
    AppendKeepsBoundaries(log, f);
  }

  /** A tracked frame keeps the cache exact precisely when it is not larger than the capacity. */
  lemma TrackSentExactIffFits(c: Cache, log: seq<Frame>, f: Frame)
    requires Exact(c, log)
    requires ShouldTrack(f.kind) && Length(f) >= 1
    ensures (TrackSent(c, f).Some? && Exact(TrackSent(c, f).value, log + [f])) <==> Length(f) <= c.capacity
  {
    if Length(f) <= c.capacity {
      TrackSentExact(c, log, f);
    } else {
      AppendKeepsBoundaries(log, f);
      ResetAllEmpties(c, log);
    }
  }

  /** A reset to the end position empties the cache. */
  lemma ResetAllEmpties(c: Cache, log: seq<Frame>)
    requires Represents(c, log)
    ensures ResetUpTo(c, c.position).frames == []
  {
    var k := Dropped(c, log);
    LowerBoundOfEntries(log, k, |log|);
    BoundaryMonotone(log, k, |log|);
    if c.frames != [] {
      BoundaryIncreases(log, k, |log|);
    }
  }

  lemma {:induction false} EvictRepresents(c: Cache, log: seq<Frame>)
    requires Represents(c, log)
    ensures Evict(c).Some? ==> Represents(Evict(c).value, log) && |Evict(c).value.frames| <= |c.frames|
    decreases |c.frames|
  {
    var r := ResetUpTo(c, EvictPosition(c));
    if c.size > c.capacity && |r.frames| < |c.frames| {
      ResetRepresents(c, log, EvictPosition(c));
      EvictRepresents(r, log);
    }
  }

  lemma OversizeRepresents(c: Cache, log: seq<Frame>, f: Frame)
    requires Represents(c, log) && Length(f) >= 1
    ensures var r := ResetUpTo(c, c.position).(position := c.position + Length(f));
      Represents(r, log + [f]) && r.frames == []
  {
    hide LowerBound;
    AppendKeepsBoundaries(log, f);
    ResetAllEmpties(c, log);
    BoundaryMonotone(log, Dropped(c, log), |log|);
  }

  /** Whatever is sent, oversize frames included, the cache goes on holding a suffix of the log. */
  lemma TrackSentRepresents(c: Cache, log: seq<Frame>, f: Frame)
    requires Represents(c, log) && Length(f) >= 1
    ensures TrackSent(c, f).Some? ==> Represents(TrackSent(c, f).value, Logged(log, f))
    ensures TrackSent(c, f).Some? ==>
      Dropped(c, log) <= Dropped(TrackSent(c, f).value, Logged(log, f))
  {
    hide Represents, Evict, ResetUpTo;
    if ShouldTrack(f.kind) {
      if Length(f) > c.capacity {
        OversizeRepresents(c, log, f);
      } else {
        var c1 := c.(size := (c.size + Length(f)) % SIZE_T);
        SameRepresentation(c, c1, log);
        EvictRepresents(c1, log);
        if Evict(c1).Some? {
          AppendRepresents(Evict(c1).value, log, f);
        }
      }
    }
  }

  // ---- whole histories --------------------------------------------------------------------------

  datatype Op = Sent(frame: Frame) | Reset(p: int)

  /** The cache and the log after a history of operations, as long as no eviction gets stuck. */
  function Run(c: Cache, log: seq<Frame>, ops: seq<Op>): Option<(Cache, seq<Frame>)>
    decreases |ops|
  {
    if ops == [] then Some((c, log)) else
    match ops[0]
    case Reset(p) => Run(ResetUpTo(c, p), log, ops[1..])
    case Sent(f) =>
      match TrackSent(c, f)
      case None => None
      case Some(r) => Run(r, Logged(log, f), ops[1..])
  }

  /** What the callers have to respect: no tracked frame is larger than the capacity, and every reset goes to
      a boundary of what has been sent so far. */
  ghost predicate WellUsed(capacity: nat, log: seq<Frame>, ops: seq<Op>)
    decreases |ops|
  {
    ops == [] ||
    match ops[0]
    case Reset(p) => IsBoundary(log, p) && WellUsed(capacity, log, ops[1..])
    case Sent(f) => 1 <= Length(f) <= capacity && WellUsed(capacity, Logged(log, f), ops[1..])
  }

  lemma {:induction false} WellUsedKeepsExact(c: Cache, log: seq<Frame>, ops: seq<Op>)
    requires Exact(c, log) && WellUsed(c.capacity, log, ops)
    ensures Run(c, log, ops).Some?
    ensures var (r, sent) := Run(c, log, ops).value;
      Exact(r, sent) && log <= sent && r.capacity == c.capacity
    decreases |ops|
  {
    hide Exact, ResetUpTo, TrackSent, IsBoundary;
    if ops != [] {
      match ops[0]
      case Reset(p) =>
        ResetExactIffAligned(c, log, p);
        WellUsedKeepsExact(ResetUpTo(c, p), log, ops[1..]);
      case Sent(f) =>
        TrackAnyExact(c, log, f);
        WellUsedKeepsExact(TrackSent(c, f).value, Logged(log, f), ops[1..]);
    }
  }

  /** The tracked frames of a history. */
  function TrackedBy(ops: seq<Op>): seq<Frame> {
    if ops == [] then []
    else (if ops[0].Sent? && ShouldTrack(ops[0].frame.kind) then [ops[0].frame] else []) + TrackedBy(ops[1..])
  }

  lemma {:induction false} RunLogsTracked(c: Cache, log: seq<Frame>, ops: seq<Op>)
    requires Run(c, log, ops).Some?
    ensures Run(c, log, ops).value.1 == log + TrackedBy(ops)
    decreases |ops|
  {
    hide ResetUpTo, TrackSent, Logged, ShouldTrack, Run, TrackedBy;
    RunOne(c, log, ops);
    if ops == [] {
      assert log + [] == log;
    } else {
      match ops[0]
      case Reset(p) => RunLogsTracked(ResetUpTo(c, p), log, ops[1..]);
      case Sent(f) =>
        RunLogsTracked(TrackSent(c, f).value, Logged(log, f), ops[1..]);
        LogThen(log, f, TrackedBy(ops[1..]));
    }
  }

  lemma RunOne(c: Cache, log: seq<Frame>, ops: seq<Op>)
    requires Run(c, log, ops).Some?
    ensures ops == [] ==> Run(c, log, ops).value == (c, log) && TrackedBy(ops) == []
    ensures ops != [] && ops[0].Reset? ==>
      Run(c, log, ops) == Run(ResetUpTo(c, ops[0].p), log, ops[1..]) && TrackedBy(ops) == TrackedBy(ops[1..])
    ensures ops != [] && ops[0].Sent? ==>
      && TrackSent(c, ops[0].frame).Some?
      && Run(c, log, ops) == Run(TrackSent(c, ops[0].frame).value, Logged(log, ops[0].frame), ops[1..])
      && TrackedBy(ops) == (if ShouldTrack(ops[0].frame.kind) then [ops[0].frame] else []) + TrackedBy(ops[1..])
  {
    hide ResetUpTo, TrackSent, Logged, ShouldTrack;
  }

  lemma LogThen(log: seq<Frame>, f: Frame, rest: seq<Frame>)
    ensures Logged(log, f) + rest == log + ((if ShouldTrack(f.kind) then [f] else []) + rest)
  {
    assert log + ([] + rest) == log + rest;
  }

  /** Over every well-used history of a new cache: eviction never gets stuck, the cached frames are the contiguous end
      of all tracked frames sent, and sizes, stream map and statistics agree with them. */
  lemma WellUsedRunsAreExact(capacity: nat, ops: seq<Op>)
    requires capacity < SIZE_T / 2 && WellUsed(capacity, [], ops)
    ensures Run(Empty(capacity), [], ops).Some?
    ensures var (r, sent) := Run(Empty(capacity), [], ops).value;
      Exact(r, sent) && sent == TrackedBy(ops) && r.capacity == capacity
  {
    hide Exact, ResetUpTo, TrackSent, IsBoundary;
    EmptyIsExact(capacity);
    WellUsedKeepsExact(Empty(capacity), [], ops);
    RunLogsTracked(Empty(capacity), [], ops);
    assert [] + TrackedBy(ops) == TrackedBy(ops);
  }

  lemma TrackAnyExact(c: Cache, log: seq<Frame>, f: Frame)
    requires Exact(c, log) && 1 <= Length(f) <= c.capacity
    ensures TrackSent(c, f).Some? && Exact(TrackSent(c, f).value, Logged(log, f))
  {
    if ShouldTrack(f.kind) {
      TrackSentExact(c, log, f);
    }
  }

  /** The debug checks of an exact cache: a reset to a boundary leaves the first cached frame at the reset
      position, and a full reset leaves size zero. */
  lemma DebugChecksHold(c: Cache, log: seq<Frame>, p: int)
    requires Exact(c, log) && IsBoundary(log, p)
    ensures var r := ResetUpTo(c, p); r.frames == [] || r.frames[0].at == r.reset
    ensures ResetUpTo(c, c.position).size == 0
  {
    hide Scan, StreamEnds;
    ResetExactIffAligned(c, log, p);
    ResetExactIffAligned(c, log, c.position);
    ResetAllEmpties(c, log);
  }

  /** When an exact cache is destroyed, its statistics have been taken back completely. */
  lemma DestructionSettlesStatistics(c: Cache, log: seq<Frame>)
    requires Exact(c, log)
    ensures var d := ClearFrames(c, c.position);
      d.frames == [] && d.statFrames == 0 && d.statBytes == 0 && d.size == 0
  {
    var k := Dropped(c, log);
    LowerBoundOfEntries(log, k, |log|);
  }

  // ---- what goes wrong outside of that ----------------------------------------------------------

  function Sample(n: nat): Frame {
    Frame(PAYLOAD, 1, seq(n, _ => 0), 0, false)
  }

  /** An oversize frame goes uncached; the next frame is cached behind the hole. */
  lemma OversizeFrameLeavesHole()
    ensures TrackSent(Empty(10), Sample(12)) == Some(Empty(10).(position := 12))
    ensures TrackSent(Empty(10).(position := 12), Sample(5)) ==
      Some(Cache(10, 17, 0, 0, [Entry(12, Sample(5))], 5, map[1 := 17], 1, 5))
  {
    var c := Empty(10).(position := 12, size := 5);
    assert Evict(c) == Some(c);
    assert c.frames + [Entry(12, Sample(5))] == [Entry(12, Sample(5))];
    assert c.streams[1 := 17] == map[1 := 17];
    assert Length(Sample(5)) == 5;
    assert Appended(c, Sample(5)) == Cache(10, 17, 0, 0, [Entry(12, Sample(5))], 5, map[1 := 17], 1, 5);
  }

  /** A frame larger than the capacity leaves a hole that a later reset subtracts from the size, and the next
      eviction then never ends. */
  lemma OversizeFrameDesynchronizes()
    ensures var first := TrackSent(Empty(10), Sample(12));
      && first.Some?
      && var second := TrackSent(first.value, Sample(5));
      && second.Some?
      && var reset := ResetUpTo(second.value, 17);
      && reset.frames == [] && reset.size == SIZE_T - 12
      && TrackSent(reset, Sample(5)) == None
  {
    OversizeFrameLeavesHole();
    hide TrackSent;
    var c2 := Cache(10, 17, 0, 0, [Entry(12, Sample(5))], 5, map[1 := 17], 1, 5);
    assert LowerBound(c2.frames, 17) == 1;
    var c3 := ResetUpTo(c2, 17);
    EmptyButFullSticks(c3, Sample(5));
  }

  /** An empty cache whose size does not fit cannot take a frame any more. */
  lemma EmptyButFullSticks(c: Cache, f: Frame)
    requires c.frames == [] && ShouldTrack(f.kind) && Length(f) <= c.capacity < c.size
    requires c.size + Length(f) < SIZE_T
    ensures TrackSent(c, f) == None
  {
  }

  /** A reset into the middle of a frame leaves bytes in the size that no cached frame accounts for. */
  lemma MisalignedResetDesynchronizes()
    ensures var first := TrackSent(Empty(10), Sample(5));
      && first.Some?
      && var reset := ResetUpTo(first.value, 3);
      && reset.frames == [] && reset.size == 2
  {
    var c1 := TrackSent(Empty(10), Sample(5)).value;
    assert c1.frames == [Entry(0, Sample(5))] && c1.size == 5 && c1.position == 5;
    assert LowerBound(c1.frames, 3) == 1;
  }
}
