/** The state of a resume cache as a value, and what each of its operations does to it.
    Class `ResumeCache` is proved to perform exactly these transitions; the laws about them are
    in module `ResumeLaws`. */
module ResumeState {
  import opened Frames

  /** A cached frame with the position at which it starts. */
  datatype Entry = Entry(at: int, frame: Frame)

  function EndOf(e: Entry): int {
    e.at + Length(e.frame)
  }

  /** `size` is a `size_t`: it wraps around modulo 2^64.  `statFrames` and `statBytes` are the sums
      of all deltas reported to the statistics so far. */
  datatype Cache = Cache(
    capacity: nat, position: int, reset: int, implied: int,
    frames: seq<Entry>, size: nat, streams: map<nat, int>,
    statFrames: int, statBytes: int)

  function Empty(capacity: nat): Cache {
    Cache(capacity, 0, 0, 0, [], 0, map[], 0, 0)
  }

  /** The first cached frame that starts at `p` or later, found by a linear scan. */
  function LowerBound(frames: seq<Entry>, p: int): (i: nat)
    ensures i <= |frames|
    ensures forall j | 0 <= j < i :: frames[j].at < p
    ensures i < |frames| ==> frames[i].at >= p
  {
    Scan(frames, p, 0)
  }

  function Scan(frames: seq<Entry>, p: int, from: nat): (i: nat)
    requires from <= |frames|
    ensures from <= i <= |frames|
    ensures forall j | from <= j < i :: frames[j].at < p
    ensures i < |frames| ==> frames[i].at >= p
    decreases |frames| - from
  {
    if from == |frames| || frames[from].at >= p then from else Scan(frames, p, from + 1)
  }

  function ClearFrames(c: Cache, p: int): Cache {
    if c.frames == [] then c else
    var i := LowerBound(c.frames, p);
    var pos := if i == |c.frames| then p else c.frames[i].at;
    c.(frames := c.frames[i..],
       size := (c.size - (pos - c.reset)) % SIZE_T,
       statFrames := c.statFrames - i,
       statBytes := c.statBytes - (pos - c.reset))
  }

  /** The position that a reset to `p` really reaches. */
  function ResetTarget(c: Cache, p: int): int {
    if p <= c.reset then c.reset else if p > c.position then c.position else p
  }

  function ResetUpTo(c: Cache, p: int): (r: Cache)
    ensures r.reset == ResetTarget(c, p) && r.position == c.position
    ensures r.capacity == c.capacity && r.implied == c.implied
  {
    if p <= c.reset then c else
    var q := ResetTarget(c, p);
    var kept := map id | id in c.streams && c.streams[id] > q :: c.streams[id];
    ClearFrames(c.(streams := kept), q).(reset := q)
  }

  /** The position behind the oldest cached frame. */
  function EvictPosition(c: Cache): int {
    if |c.frames| > 1 then c.frames[1].at else c.position
  }

  /** Drops the oldest frames until the size fits.  `None`: nothing is left to drop and the size still does
      not fit, which fails the debug check of the code, and without that check never terminates. */
  function Evict(c: Cache): (r: Option<Cache>)
    ensures r.Some? ==> r.value.position == c.position && r.value.capacity == c.capacity
    ensures r.Some? ==> r.value.implied == c.implied
    decreases |c.frames|
  {
    if c.size <= c.capacity then Some(c)
    else
      var r := ResetUpTo(c, EvictPosition(c));
      if |r.frames| < |c.frames| then Evict(r) else None
  }

  /** A frame whose length `size` already counts, put at the end. */
  function Appended(c: Cache, f: Frame): Cache {
    c.(frames := c.frames + [Entry(c.position, f)],
       position := c.position + Length(f),
       streams := c.streams[f.streamId := c.position + Length(f)],
       statFrames := c.statFrames + 1,
       statBytes := c.statBytes + Length(f))
  }

  function TrackSent(c: Cache, f: Frame): (r: Option<Cache>)
    ensures r.Some? ==> r.value.capacity == c.capacity && r.value.implied == c.implied
  {
    if !ShouldTrack(f.kind) then Some(c)
    else if Length(f) > c.capacity then
      Some(ResetUpTo(c, c.position).(position := c.position + Length(f)))
    else
      match Evict(c.(size := (c.size + Length(f)) % SIZE_T))
      case None => None
      case Some(e) =>
        Some(Appended(e, f))
  }

  function TrackReceived(c: Cache, f: Frame): Cache {
    if ShouldTrack(f.kind) then c.(implied := c.implied + Length(f)) else c
  }

  /** Whether the peer may resume from position `p`. */
  predicate Available(c: Cache, p: int) {
    || c.position == p
    || (exists i :: 0 <= i < |c.frames| && c.frames[i].at == p)
  }

  predicate CanResumeFrom(c: Cache, p: int) {
    p <= c.implied
  }

  function FramesOf(entries: seq<Entry>): seq<Frame> {
    seq(|entries|, i requires 0 <= i < |entries| => entries[i].frame)
  }

  /** The frames retransmitted when the peer resumes from position `p`. */
  function Replay(c: Cache, p: int): seq<Frame> {
    if p == c.position then [] else FramesOf(c.frames[LowerBound(c.frames, p)..])
  }
}
