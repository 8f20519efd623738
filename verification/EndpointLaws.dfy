/** What a single endpoint keeps, whatever its peer does. */
module EndpointLaws {
  import opened Frames
  import opened SentLog
  import opened ResumeState
  import opened ResumeLaws
  import opened ConnectionState

  lemma {:induction false} DataConcat(a: seq<Frame>, b: seq<Frame>)
    ensures Data(a + b) == Data(a) + Data(b)
  {
    if a == [] {
      assert a + b == b;
    } else {
      DataConcat(a[1..], b);
      assert (a + b)[1..] == a[1..] + b;
    }
  }

  lemma {:induction false} DataOfData(frames: seq<Frame>)
    requires forall i | 0 <= i < |frames| :: IsData(frames[i])
    ensures Data(frames) == frames
  {
    if frames != [] {
      DataOfData(frames[1..]);
    }
  }

  ghost predicate AllFit(capacity: nat, frames: seq<Frame>) {
    forall i | 0 <= i < |frames| :: Length(frames[i]) <= capacity
  }

  ghost predicate AllData(frames: seq<Frame>) {
    forall i | 0 <= i < |frames| :: IsData(frames[i]) && Length(frames[i]) >= 1
  }

  /** What an endpoint may have in its queue or on the wire to its peer: frames of the application and
      keepalives. */
  ghost predicate Sendable(client: bool, f: Frame) {
    IsAppFrame(f) || (f.kind == KEEPALIVE && f.streamId == 0 && f.respond == client)
  }

  ghost predicate AllSendable(client: bool, frames: seq<Frame>) {
    forall i | 0 <= i < |frames| :: Sendable(client, frames[i])
  }

  /** The cache of a live endpoint holds the end of its log; exactly so while no logged frame is oversize. */
  ghost predicate CacheOk(e: Endpoint) {
    && e.cache.capacity < SIZE_T / 2
    && AllData(e.log)
    && (Alive(e) ==>
          && Represents(e.cache, e.log)
          && (AllFit(e.cache.capacity, e.log) ==> Exact(e.cache, e.log)))
  }

  /** What an endpoint keeps even while its queue is being sent. */
  ghost predicate SessionOk(e: Endpoint) {
    && CacheOk(e)
    && e.log <= e.produced
    && AllData(e.received) && AllData(e.produced)
    && (Alive(e) ==> e.cache.implied == End(e.received))
    && (Alive(e) ==> e.produced == e.log + Data(e.pending))
    && (e.resuming ==> e.connected && e.client)
    && (e.closed ==> !e.connected)
    && (Alive(e) ==> AllSendable(e.client, e.pending))
    && (e.stuck ==> !AllFit(e.cache.capacity, e.produced))
  }

  /** What every endpoint keeps over every step of its own. */
  ghost predicate EndpointOk(e: Endpoint) {
    SessionOk(e) && (Alive(e) && CanWrite(e) ==> e.pending == [])
  }

  // ---- writing ----------------------------------------------------------------------------------

  /** Everything but the cache and the history of sent frames is as before. */
  ghost predicate SameSession(e: Endpoint, r: Endpoint) {
    && r.client == e.client && r.connected == e.connected && r.resuming == e.resuming && r.closed == e.closed
    && r.produced == e.produced && r.received == e.received
    && r.cache.implied == e.cache.implied && r.cache.capacity == e.cache.capacity
  }

  /** `r` is `e` after the frames `out` went through its cache. */
  ghost predicate Wrote(e: Endpoint, r: Endpoint, out: seq<Frame>) {
    && SameSession(e, r)
    && r.log == e.log + Data(out)
    && CacheOk(r)
    && (Alive(r) && !r.evicted ==> !e.evicted && Dropped(r.cache, r.log) == Dropped(e.cache, e.log))
  }

  lemma AllFitPrefix(capacity: nat, a: seq<Frame>, b: seq<Frame>)
    requires a <= b && AllFit(capacity, b)
    ensures AllFit(capacity, a)
  {
    forall i | 0 <= i < |a| ensures Length(a[i]) <= capacity {
      assert a[i] == b[i];
    }
  }

  /** Writing one frame on a live connection. */
  lemma OutputFrameWrites(e: Endpoint, f: Frame)
    requires Alive(e) && CacheOk(e) && Sendable(e.client, f)
    ensures var o := OutputFrame(e, f);
      && Wrote(e, o.end, o.out) && o.end.pending == e.pending
      && (!o.end.stuck ==> o.out == [f])
      && (o.end.stuck ==> !AllFit(e.cache.capacity, e.log + Data([f])) && o.out == [])
  {
    hide Represents, Exact, TrackSent;
    var o := OutputFrame(e, f);
    assert Logged(e.log, f) == e.log + Data([f]);
    if IsData(f) {
      TrackSentRepresents(e.cache, e.log, f);
      if AllFit(e.cache.capacity, e.log + [f]) {
        AllFitPrefix(e.cache.capacity, e.log, e.log + [f]);
        assert (e.log + [f])[|e.log|] == f;
        TrackSentExact(e.cache, e.log, f);
      }
    } else {
      TrackUntracked(e.cache, f);
    }
    if !o.end.stuck && !o.end.evicted {
      KeptFrames(e.cache, o.end.cache, e.log, f);
    }
  }

  lemma TrackUntracked(c: Cache, f: Frame)
    requires !ShouldTrack(f.kind)
    ensures TrackSent(c, f) == Some(c)
  {
  }

  lemma KeptFrames(c: Cache, r: Cache, log: seq<Frame>, f: Frame)
    requires Represents(c, log) && Represents(r, Logged(log, f))
    requires |r.frames| == |c.frames| + (if ShouldTrack(f.kind) then 1 else 0)
    ensures Dropped(r, Logged(log, f)) == Dropped(c, log)
  {
  }

  lemma DataNil(log: seq<Frame>)
    ensures Data([]) == [] && log + Data([]) == log
  {
  }

  lemma WroteTwice(e: Endpoint, m: Endpoint, r: Endpoint, a: seq<Frame>, b: seq<Frame>)
    requires Wrote(e, m, a) && Wrote(m, r, b) && Alive(m)
    ensures Wrote(e, r, a + b)
  {
    hide CacheOk;
    DataConcat(a, b);
    assert e.log + Data(a + b) == (e.log + Data(a)) + Data(b);
  }

  /** Sending a queue on a live connection: all of it goes out, in order. */
  lemma {:induction false} OutputAllWrites(e: Endpoint, frames: seq<Frame>)
    requires Alive(e) && CanWrite(e) && CacheOk(e) && AllSendable(e.client, frames)
    ensures var o := OutputAll(e, frames);
      && Wrote(e, o.end, o.out) && o.end.pending == e.pending
      && (!o.end.stuck ==> o.out == frames)
      && (o.end.stuck ==> !AllFit(e.cache.capacity, e.log + Data(frames)) && o.out <= frames)
    decreases |frames|
  {
    hide OutputFrame, CacheOk, Data, AllFit;
    if frames == [] {
      DataNil(e.log);
    } else {
      OutputFrameWrites(e, frames[0]);
      var first := OutputFrame(e, frames[0]);
      var rest := frames[1..];
      assert frames == [frames[0]] + rest;
      DataConcat([frames[0]], rest);
      assert e.log + Data(frames) == (e.log + Data([frames[0]])) + Data(rest);
      if first.end.stuck {
        if AllFit(e.cache.capacity, e.log + Data(frames)) {
          AllFitPrefix(e.cache.capacity, e.log + Data([frames[0]]), e.log + Data(frames));
        }
      } else {
        OutputAllWrites(first.end, rest);
        var last := OutputAll(first.end, rest);
        WroteTwice(e, first.end, last.end, first.out, last.out);
      }
    }
  }

  lemma AppendSendable(client: bool, frames: seq<Frame>, f: Frame)
    requires AllSendable(client, frames) && Sendable(client, f)
    ensures AllSendable(client, frames + [f])
  {
  }

  /** A frame for the peer, sent now or queued. */
  lemma OutputOk(e: Endpoint, f: Frame)
    requires SessionOk(e.(produced := e.log + Data(e.pending))) && Alive(e) && Sendable(e.client, f)
    requires CanWrite(e) ==> e.pending == []
    requires e.produced == e.log + Data(e.pending) + Data([f]) && AllData(e.produced)
    ensures var o := OutputFrameOrEnqueue(e, f);
      && EndpointOk(o.end) && Wrote(e, o.end, o.out)
      && (CanWrite(e) ==> o.end.pending == e.pending)
      && (CanWrite(e) && !o.end.stuck ==> o.out == [f])
      && (!CanWrite(e) ==> o.out == [] && o.end == e.(pending := e.pending + [f]))
      && (o.end.stuck ==> o.out == [])
  {
    hide CacheOk, OutputFrame, Data, Sendable, AllData;
    SameCacheOk(e.(produced := e.log + Data(e.pending)), e);
    DataNil(e.log);
    if CanWrite(e) {
      OutputFrameWrites(e, f);
    } else {
      DataConcat(e.pending, [f]);
      SameCacheOk(e, e.(pending := e.pending + [f]));
      AppendSendable(e.client, e.pending, f);
    }
  }

  lemma AppendData(frames: seq<Frame>, f: Frame)
    requires AllData(frames) && IsAppFrame(f)
    ensures AllData(frames + Data([f]))
  {
  }

  lemma SendOk(e: Endpoint, f: Frame)
    requires EndpointOk(e) && Alive(e) && IsAppFrame(f)
    ensures var e1 := e.(produced := e.produced + Data([f])); var o := Send(e, f);
      && EndpointOk(o.end) && Wrote(e1, o.end, o.out)
      && (CanWrite(e) ==> o.end.pending == e.pending)
      && (CanWrite(e) && !o.end.stuck ==> o.out == [f])
      && (!CanWrite(e) ==> o.out == [] && o.end == e1.(pending := e.pending + [f]))
      && (o.end.stuck ==> o.out == [])
  {
    hide CacheOk, OutputFrameOrEnqueue, Data, IsAppFrame;
    var e1 := e.(produced := e.produced + Data([f]));
    AppendData(e.produced, f);
    SameCacheOk(e, e1);
    SameCacheOk(e, e1.(produced := e1.log + Data(e1.pending)));
    OutputOk(e1, f);
  }

  /** The cache of an endpoint is judged by the cache, the log and whether the endpoint is alive. */
  lemma SameCacheOk(e: Endpoint, r: Endpoint)
    requires CacheOk(e) && r.cache == e.cache && r.log == e.log && (Alive(r) ==> Alive(e))
    ensures CacheOk(r)
  {
  }

  lemma SendKeepaliveOk(e: Endpoint)
    requires EndpointOk(e) && Alive(e)
    ensures var o := SendKeepalive(e, e.client); var f := KeepaliveFrame(e.cache.implied, e.client);
      && EndpointOk(o.end) && Wrote(e, o.end, o.out) && !o.end.stuck
      && (CanWrite(e) ==> o.out == [f] && o.end.pending == e.pending)
      && (!CanWrite(e) ==> o.out == [] && o.end == e.(pending := e.pending + [f]))
  {
    hide CacheOk, Represents, Exact;
    var f := KeepaliveFrame(e.cache.implied, e.client);
    SameCacheOk(e, e.(produced := e.log + Data(e.pending)));
    TrackUntracked(e.cache, f);
    OutputOk(e, f);
  }

  // ---- resuming ---------------------------------------------------------------------------------

  lemma DataSuffix(frames: seq<Frame>, j: nat)
    requires AllData(frames) && j <= |frames|
    ensures Data(frames[j..]) == frames[j..]
  {
    DataOfData(frames[j..]);
  }

  /** Resuming from boundary `j` of the log: the frames behind it go out once more, then everything queued, and
      the stream frames written are exactly the log from `j` on, as it then is. */
  lemma ResumeFromPositionOk(e: Endpoint, j: nat)
    requires SessionOk(e) && Alive(e) && CanWrite(e)
    requires Dropped(e.cache, e.log) <= j <= |e.log|
    ensures var o := ResumeFromPosition(e, Boundary(e.log, j));
      && EndpointOk(o.end) && SameSession(e, o.end)
      && e.log <= o.end.log && o.end.log[j..] == Data(o.out)
      && o.out <= e.log[j..] + e.pending && o.end.pending == []
      && (!o.end.stuck ==> o.out == e.log[j..] + e.pending && o.end.log == e.log + Data(e.pending))
      && (Alive(o.end) && !o.end.evicted ==>
            !e.evicted && Dropped(o.end.cache, o.end.log) == Dropped(e.cache, e.log))
  {
    hide Represents, Exact, OutputAll, Boundary, Replay, CacheOk, Data, AllData;
    var e1 := e.(pending := []);
    SameCacheOk(e, e1);
    OutputAllWrites(e1, e.pending);
    CacheOkMeans(e);
    ReplayIsLogSuffix(e.cache, e.log, j);
    var queued := OutputAll(e1, e.pending);
    DataSuffix(e.log, j);
    DataConcat(e.log[j..], queued.out);
    assert queued.end.log[j..] == e.log[j..] + Data(queued.out);
    DataPrefix(queued.out, e.pending);
    DataNil(queued.end.log);
    assert queued.end.log <= e.produced;
  }

  lemma CacheOkMeans(e: Endpoint)
    requires CacheOk(e) && Alive(e)
    ensures Represents(e.cache, e.log) && AllData(e.log)
  {
  }

  lemma DataPrefix(a: seq<Frame>, b: seq<Frame>)
    requires a <= b
    ensures Data(a) <= Data(b)
  {
    DataConcat(a, b[|a|..]);
    assert b == a + b[|a|..];
  }

  // ---- reading ----------------------------------------------------------------------------------

  /** A keepalive whose position is boundary `j` of the log trims nothing behind that boundary. */
  lemma KeepaliveTrims(e: Endpoint, j: nat)
    requires EndpointOk(e) && Alive(e) && j <= |e.log|
    ensures var r := e.(cache := ResetUpTo(e.cache, Boundary(e.log, j)));
      && EndpointOk(r)
      && Dropped(r.cache, r.log) <= (if Dropped(e.cache, e.log) >= j then Dropped(e.cache, e.log) else j)
  {
    hide ResetUpTo, Boundary, Exact, Entries, LowerBound;
    var p := Boundary(e.log, j);
    ResetRepresents(e.cache, e.log, p);
    if AllFit(e.cache.capacity, e.log) {
      ResetExactIffAligned(e.cache, e.log, p);
    }
    ResetDropsAtMost(e.cache, e.log, j);
  }

  lemma ResetDropsAtMost(c: Cache, log: seq<Frame>, j: nat)
    requires Represents(c, log) && j <= |log|
    ensures Dropped(ResetUpTo(c, Boundary(log, j)), log) <= (if Dropped(c, log) >= j then Dropped(c, log) else j)
  {
    hide Scan;
    var k := Dropped(c, log);
    var p := Boundary(log, j);
    BoundaryMonotone(log, j, |log|);
    if p > c.reset && c.frames != [] {
      if j >= k {
        LowerBoundOfEntries(log, k, j);
      } else {
        BoundaryIncreases(log, j, k);
        LowerBoundIs(c.frames, p, 0);
      }
    }
  }

  lemma ReceiveDataOk(e: Endpoint, f: Frame)
    requires EndpointOk(e) && Alive(e) && !e.resuming && IsData(f) && Length(f) >= 1
    ensures var r := ProcessFrame(e, f).end;
      EndpointOk(r) && r == e.(cache := TrackReceived(e.cache, f), received := e.received + [f])
    ensures ProcessFrame(e, f).out == []
  {
    hide Boundary;
    AppendKeepsBoundaries(e.received, f);
    assert Data([f]) == [f];
    var c := TrackReceived(e.cache, f);
    SameRepresentation(e.cache, c, e.log);
  }

  /** Closing with an error: at most the ERROR frame is written, and nothing of the history changes. */
  lemma CloseWithErrorOk(e: Endpoint)
    requires SessionOk(e) && Alive(e)
    ensures var o := CloseWithError(e);
      && EndpointOk(o.end) && (o.end.closed || o.end.stuck)
      && o.end.produced == e.produced && o.end.received == e.received && o.end.log == e.log
      && o.end.client == e.client && o.end.cache.capacity == e.cache.capacity
      && (o.end.stuck ==> !AllFit(e.cache.capacity, e.log))
      && (o.out == [] || (o.out == [ConnectionErrorFrame()] && o.end.closed && CanWrite(e)))
      && o.end.pending == (if CanWrite(e) then e.pending else e.pending + [ConnectionErrorFrame()])
  {
    hide Represents, Exact, TrackSent, IsBoundary, End;
    var f := ConnectionErrorFrame();
    DataNil(e.log);
    assert Data([f]) == [];
    if AllFit(e.cache.capacity, e.log) {
      ControlFrameNeverSticks(e.cache, e.log, f);
    } else if AllFit(e.cache.capacity, e.produced) {
      AllFitPrefix(e.cache.capacity, e.log, e.produced);
    }
  }

  lemma ControlFrameNeverSticks(c: Cache, log: seq<Frame>, f: Frame)
    requires Exact(c, log) && Length(f) >= 1
    ensures TrackSent(c, f).Some?
  {
    hide Exact, Evict, ResetUpTo;
    if ShouldTrack(f.kind) && Length(f) <= c.capacity {
      TrackSentExact(c, log, f);
    }
  }
}
