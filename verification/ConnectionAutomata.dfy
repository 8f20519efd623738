/** The resumption part of a connection automaton as the library has it: an object that owns a resume cache, a
    queue of unsent frames and a frame transport.  Every method performs the transition of the same name in module
    `ConnectionState`. */
module ConnectionAutomata {
  import opened Frames
  import opened ResumeState
  import opened ResumeCaches
  import opened ConnectionState

  class ConnectionAutomaton {
    const client: bool
    const resumeCache: ResumeCache
    var connected: bool
    var resuming: bool
    var closed: bool
    var stuck: bool
    var outputFrames: seq<Frame>

    /** Everything written to frame transports so far. */
    var written: seq<Frame>

    ghost var produced: seq<Frame>
    ghost var log: seq<Frame>
    ghost var received: seq<Frame>
    ghost var evicted: bool

    ghost function View(): Endpoint
      reads this, resumeCache
    {
      Endpoint(client, resumeCache.State(), connected, resuming, closed, stuck, outputFrames,
               produced, log, received, evicted)
    }

    ghost predicate Valid()
      reads this, resumeCache
    {
      && (!stuck ==> resumeCache.Valid())
      && forall i | 0 <= i < |outputFrames| :: Length(outputFrames[i]) >= 1
    }

    /** The outcome of a transition: the frames it writes, and, unless an eviction never ends, the new state. */
    ghost predicate Performed(step: Step, before: seq<Frame>)
      reads this, resumeCache
    {
      && Valid()
      && written == before + step.out
      && stuck == step.end.stuck
      && (!stuck ==> View() == step.end)
    }

    constructor (client: bool, cache: ResumeCache)
      requires cache.Valid() && cache.State() == Empty(cache.capacity)
      ensures Valid() && View() == Init(client, cache.capacity) && written == []
      ensures resumeCache == cache
    {
      this.client := client;
      resumeCache := cache;
      connected, resuming, closed, stuck := true, false, false, false;
      outputFrames, written := [], [];
      produced, log, received, evicted := [], [], [], false;
    }

    method OutputFrame(f: Frame)
      requires Valid() && !stuck && Length(f) >= 1
      modifies this, resumeCache
      ensures Performed(ConnectionState.OutputFrame(old(View()), f), old(written))
    {
      hide TrackSent, Data;
      var count := |resumeCache.frames|;
      var ok := resumeCache.TrackSentFrame(f);
      if ok {
        written := written + [f];
        log := log + Data([f]);
        evicted := evicted || (ShouldTrack(f.kind) && |resumeCache.frames| != count + 1);
      } else {
        stuck := true;
      }
    }

    method OutputFrameOrEnqueue(f: Frame)
      requires Valid() && !stuck && Length(f) >= 1
      modifies this, resumeCache
      ensures Performed(ConnectionState.OutputFrameOrEnqueue(old(View()), f), old(written))
    {
      hide ConnectionState.OutputFrame;
      if connected && !resuming {
        OutputFrame(f);
      } else {
        outputFrames := outputFrames + [f];
      }
    }

    /** The queue is moved out and sent again, oldest first; what cannot be sent queues up again. */
    method SendPendingFrames()
      requires Valid() && !stuck
      modifies this, resumeCache
      ensures Performed(OutputAll(old(View()).(pending := []), old(outputFrames)), old(written))
    {
      hide ConnectionState.OutputFrameOrEnqueue;
      var queue := outputFrames;
      outputFrames := [];
      ghost var start := View();
      ghost var before := written;
      var i := 0;
      while i < |queue|
        invariant 0 <= i <= |queue|
        invariant Valid() && !stuck
        invariant OutputAll(start, queue).end == OutputAll(View(), queue[i..]).end
        invariant before + OutputAll(start, queue).out == written + OutputAll(View(), queue[i..]).out
      {
        ghost var here := View();
        assert queue[i..][0] == queue[i] && queue[i..][1..] == queue[i + 1..];
        OutputFrameOrEnqueue(queue[i]);
        if stuck {
          return;
        }
        i := i + 1;
      }
    }

    method SendKeepalive(respond: bool)
      requires Valid() && !stuck
      modifies this, resumeCache
      ensures Performed(ConnectionState.SendKeepalive(old(View()), respond), old(written))
    {
      OutputFrameOrEnqueue(KeepaliveFrame(resumeCache.impliedPosition, respond));
    }

    method Disconnect()
      requires Valid()
      modifies this
      ensures Valid() && View() == ConnectionState.Disconnect(old(View())) && written == old(written)
    {
      connected, resuming := false, false;
    }

    method Close()
      requires Valid()
      modifies this
      ensures Valid() && View() == ConnectionState.Close(old(View())) && written == old(written)
    {
      Disconnect();
      closed := true;
    }

    method CloseWithError()
      requires Valid() && !stuck
      modifies this, resumeCache
      ensures Performed(ConnectionState.CloseWithError(old(View())), old(written))
    {
      hide ConnectionState.OutputFrameOrEnqueue;
      OutputFrameOrEnqueue(ConnectionErrorFrame());
      if !stuck {
        Close();
      }
    }

    method ResumeFromPosition(p: int)
      requires Valid() && !stuck && Available(resumeCache.State(), p)
      modifies this, resumeCache
      ensures Performed(ConnectionState.ResumeFromPosition(old(View()), p), old(written))
    {
      hide OutputAll, Replay;
      var replay := resumeCache.SendFramesFromPosition(p);
      written := written + replay;
      SendPendingFrames();
    }

    method ResumeFromPositionOrClose(request: ResumeRequest) returns (accepted: bool)
      requires Valid() && !stuck
      modifies this, resumeCache
      ensures Performed(ConnectionState.ResumeFromPositionOrClose(old(View()), request), old(written))
      ensures accepted <==> ServerCanResume(old(View()), request)
    {
      hide ConnectionState.ResumeFromPosition, ConnectionState.CloseWithError, Available;
      var clientPositionExists :=
        request.clientPosition == UNSPECIFIED_POSITION || request.clientPosition <= resumeCache.impliedPosition;
      accepted := clientPositionExists;
      if clientPositionExists {
        accepted := resumeCache.IsPositionAvailable(request.serverPosition);
      }
      if accepted {
        written := written + [ResumeOkFrame(resumeCache.impliedPosition)];
        ResumeFromPosition(request.serverPosition);
      } else {
        CloseWithError();
      }
    }

    method TryResumeServer(request: ResumeRequest) returns (accepted: bool)
      requires Valid() && !stuck
      modifies this, resumeCache
      ensures Performed(ConnectionState.TryResumeServer(old(View()), request), old(written))
      ensures accepted <==> ServerCanResume(old(View()), request)
    {
      hide ConnectionState.ResumeFromPositionOrClose, Available;
      Disconnect();
      connected := true;
      accepted := ResumeFromPositionOrClose(request);
    }

    /** The RESUME frame for the fresh transport is made before the old transport is dropped. */
    method TryClientResume(full: bool) returns (request: ResumeRequest)
      requires Valid()
      modifies this
      ensures Valid() && View() == ConnectionState.TryClientResume(old(View())) && written == old(written)
      ensures request == CreateResumeFrame(old(View()), full)
    {
      request := ResumeRequest(resumeCache.impliedPosition,
                               if full then resumeCache.resetPosition else UNSPECIFIED_POSITION);
      Disconnect();
      connected, resuming := true, true;
    }

    method ProcessFrame(f: Frame)
      requires Valid() && !stuck
      modifies this, resumeCache
      ensures Performed(ConnectionState.ProcessFrame(old(View()), f), old(written))
    {
      hide ConnectionState.ProcessConnectionFrame, ConnectionState.CloseWithError, Data;
      if closed {
        return;
      }
      resumeCache.TrackReceivedFrame(f);
      if f.streamId == 0 {
        HandleConnectionFrame(f);
      } else if resuming {
        CloseWithError();
      } else {
        received := received + Data([f]);
      }
    }

    method HandleConnectionFrame(f: Frame)
      requires Valid() && !stuck
      modifies this, resumeCache
      ensures Performed(ProcessConnectionFrame(old(View()), f), old(written))
    {
      hide ConnectionState.SendKeepalive, ConnectionState.CloseWithError, ConnectionState.ResumeFromPosition;
      hide ResetUpTo, Available;
      match f.kind
      case KEEPALIVE =>
        resumeCache.ResetUpToPosition(f.position);
        if f.respond == client {
          CloseWithError();
        } else if !client {
          SendKeepalive(false);
        }
      case RESUME_OK =>
        var available := false;
        if resuming {
          available := resumeCache.IsPositionAvailable(f.position);
        }
        if available {
          resuming := false;
          ResumeFromPosition(f.position);
        } else {
          CloseWithError();
        }
      case ERROR =>
        Close();
      case METADATA_PUSH | SETUP =>
      case _ =>
        CloseWithError();
    }
  }
}
