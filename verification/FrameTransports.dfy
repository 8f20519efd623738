/** The frame transport as the library has it: an object updated in place.  Every method performs the transition of the
    same name in module `TransportState`. */
module FrameTransports {
  import opened Frames
  import opened Allowances
  import opened TransportState

  class FrameTransport {
    const writeAllowance: AllowanceSemaphore
    var frameProcessor: bool
    var connection: bool
    var connectionOutput: bool
    var pendingWrites: seq<Bytes>
    var pendingReads: seq<Bytes>
    var pendingTerminal: bool
    /** What went to the connection and to frame processors. */
    var written: seq<Bytes>
    var heard: seq<Heard>

    ghost var handed: seq<Bytes>
    ghost var allowed: nat
    ghost var arrived: seq<Bytes>

    ghost function View(): Transport
      reads this, writeAllowance
    {
      Transport(connection, connectionOutput, frameProcessor, writeAllowance.value,
                pendingWrites, pendingReads, pendingTerminal, handed, written, allowed, arrived, heard)
    }

    constructor ()
      ensures View() == Fresh() && fresh(writeAllowance)
    {
      writeAllowance := new AllowanceSemaphore(0);
      frameProcessor, connection, connectionOutput := false, true, false;
      pendingWrites, pendingReads, pendingTerminal := [], [], false;
      written, heard, handed, allowed, arrived := [], [], [], 0, [];
    }

    method DrainOutputFramesQueue()
      modifies this`written, this`pendingWrites, writeAllowance
      ensures View() == Drain(old(View()))
    {
      if connection {
        FlushWrites();
      }
    }

    /** Writes queued frames until the queue or the allowance is used up. */
    method FlushWrites()
      modifies this`written, this`pendingWrites, writeAllowance
      ensures View() == Flushed(old(View()))
    {
      ghost var queue, before, credit := pendingWrites, written, writeAllowance.value;
      ghost var n := 0;
      while pendingWrites != [] && writeAllowance.value >= 1
        invariant 0 <= n <= |queue| && (credit == INFINITE || n <= credit)
        invariant writeAllowance.value == if credit == INFINITE then INFINITE else credit - n
        invariant pendingWrites == queue[n..] && written == before + queue[..n]
        decreases |pendingWrites|
      {
        var _ := writeAllowance.TryAcquire(1);
        assert queue[..n + 1] == queue[..n] + [queue[n]];
        written := written + [pendingWrites[0]];
        pendingWrites := pendingWrites[1..];
        n := n + 1;
      }
    }

    method SetFrameProcessor(present: bool)
      requires present ==> connection
      modifies this, writeAllowance
      ensures View() == SetProcessor(old(View()), present)
    {
      hide Drain;
      frameProcessor := present;
      if frameProcessor {
        connectionOutput := true;
      }
      DrainOutputFramesQueue();
      if frameProcessor {
        DeliverPendingReads();
        if pendingTerminal {
          TerminateFrameProcessor();
          pendingTerminal := false;
        }
      }
    }

    method DeliverPendingReads()
      modifies this`heard, this`pendingReads
      ensures heard == old(heard) + Reads(old(pendingReads)) && pendingReads == []
    {
      ghost var kept, before := pendingReads, heard;
      ghost var n := 0;
      while pendingReads != []
        invariant 0 <= n <= |kept| && pendingReads == kept[n..]
        invariant heard == before + Reads(kept[..n])
        decreases |pendingReads|
      {
        assert Reads(kept[..n + 1]) == Reads(kept[..n]) + [Read(kept[n])];
        heard := heard + [Read(pendingReads[0])];
        pendingReads := pendingReads[1..];
        n := n + 1;
      }
      assert kept[..n] == kept;
    }

    method TerminateFrameProcessor()
      modifies this
      ensures View() == Terminate(old(View()))
    {
      if !frameProcessor {
        pendingTerminal := true;
        return;
      }
      frameProcessor := false;
      heard := heard + [Terminal];
    }

    method CloseTransport()
      modifies this
      ensures View() == Close(old(View()))
    {
      frameProcessor, connection := false, false;
    }

    method OnNext(frame: Bytes)
      modifies this
      ensures View() == FrameArrives(old(View()), frame)
    {
      arrived := arrived + [frame];
      if connection && frameProcessor {
        heard := heard + [Read(frame)];
      } else {
        pendingReads := pendingReads + [frame];
      }
    }

    method Request(n: Size)
      modifies this, writeAllowance
      ensures View() == TransportState.Request(old(View()), n)
    {
      hide Drain, Released;
      if !connection {
        return;
      }
      allowed := allowed + n;
      var before := writeAllowance.Release(n);
      if before > 0 {
        return;
      }
      DrainOutputFramesQueue();
    }

    method OutputFrameOrEnqueue(frame: Bytes)
      modifies this, writeAllowance
      ensures View() == OutputFrame(old(View()), frame)
    {
      hide Flushed;
      ghost var before := View();
      handed := handed + [frame];
      HandedStays(before, frame);
      if connection {
        DrainOutputFramesQueue();
        assert View() == Drain(before).(handed := handed);
        if pendingWrites == [] {
          var acquired := writeAllowance.TryAcquire(1);
          if acquired {
            written := written + [frame];
            return;
          }
        }
      }
      pendingWrites := pendingWrites + [frame];
    }

    static lemma HandedStays(t: Transport, frame: Bytes)
      ensures Drain(t.(handed := t.handed + [frame])) == Drain(t).(handed := t.handed + [frame])
    {
    }
  }
}
