/** The framed reader and the framed writer as the library has them: objects updated in place.  Every method performs
    the transition of the same name in module `Framing`. */
module Framed {
  import opened Frames
  import opened Allowances
  import opened Wire
  import opened Autodetection
  import opened Framing
  import opened FramingLaws

  class FramedReader {
    /** What the subscriber does inside `onNext`. */
    const react: nat -> Reaction
    const allowance: AllowanceSemaphore
    var version: ProtocolVersion
    var payloadQueue: seq<Byte>
    var dispatchingFrames: bool
    /** A byte chunk has been asked for since the last one arrived. */
    var streamRequested: bool
    var status: Status
    var delivered: seq<seq<Byte>>
    ghost var demand: nat

    ghost function State(): Reader
      reads this, allowance
    {
      Reader(version, payloadQueue, allowance.value, status, delivered, demand)
    }

    /** An open reader with credit waits for a chunk it has asked for: it cannot stall. */
    predicate Waiting()
      reads this, allowance
    {
      status == Open && allowance.value > 0 ==> streamRequested
    }

    constructor (version: ProtocolVersion, react: nat -> Reaction)
      ensures State() == Fresh(version) && this.react == react
      ensures !dispatchingFrames && Waiting() && fresh(allowance)
    {
      this.react := react;
      allowance := new AllowanceSemaphore(0);
      this.version := version;
      payloadQueue, delivered, demand := [], [], 0;
      dispatchingFrames, streamRequested, status := false, false, Open;
    }

    /** A chunk that is delivered while frames are being dispatched is left to the running parse loop. */
    method OnNext(payload: seq<Byte>)
      modifies this, allowance
      ensures old(dispatchingFrames) ==> State() == Fed(old(State()), payload)
      ensures !old(dispatchingFrames) ==> State() == Step(old(State()), Chunk(payload), react)
      ensures dispatchingFrames == old(dispatchingFrames) && (status == Open ==> Waiting())
    {
      hide Next, Deliver, Recognize;
      if status != Open {
        return;
      }
      streamRequested := false;
      payloadQueue := payloadQueue + payload;
      ParseFrames();
      RequestStream();
    }

    method OnComplete()
      modifies this
      ensures State() == Step(old(State()), StreamComplete, react)
      ensures dispatchingFrames == old(dispatchingFrames)
    {
      if status == Open {
        payloadQueue, status := [], Completed;
      }
    }

    method OnError()
      modifies this
      ensures State() == Step(old(State()), StreamError, react)
      ensures dispatchingFrames == old(dispatchingFrames)
    {
      if status == Open {
        payloadQueue, status := [], Failed;
      }
    }

    /** Inside `onNext` the nested parse loop gives way to the running one. */
    method Request(n: Size)
      modifies this, allowance
      ensures old(dispatchingFrames) ==> State() == Requested(old(State()), n)
      ensures !old(dispatchingFrames) ==> State() == Step(old(State()), Event.Request(n), react)
      ensures dispatchingFrames == old(dispatchingFrames) && Waiting()
      decreases if dispatchingFrames then 1 else 4
    {
      hide Parse, Released;
      var _ := allowance.Release(n);
      demand := demand + n;
      ParseFrames();
      RequestStream();
    }

    method Cancel()
      modifies this
      ensures State() == Step(old(State()), Event.Cancel, react)
      ensures dispatchingFrames == old(dispatchingFrames)
    {
      if status == Open {
        payloadQueue, status := [], Completed;
      }
    }

    method RequestStream()
      modifies this`streamRequested
      ensures Waiting()
    {
      if status == Open && allowance.CanAcquire(1) {
        streamRequested := true;
      }
    }

    method ReadFrameLength() returns (frameLength: nat)
      requires |payloadQueue| >= FieldLength(version)
      ensures frameLength == ReadLength(version, payloadQueue)
    {
      var k := FieldLength(version);
      var field := payloadQueue[..k];
      var unit := Base(k - 1);
      var i := 0;
      frameLength := 0;
      Bases();
      ghost var extension := if Old(version) && field[0] >= 0x80 then SIZE_T - 0x1_0000_0000 else 0;
      while i < k
        invariant 0 <= i <= k
        invariant i < k ==> unit == Base(k - i - 1)
        invariant frameLength + FromBigEndian(field[i..]) == FromBigEndian(field) + if i == 0 then 0 else extension
      {
        HighByteFirst(field[i..]);
        assert field[i..][1..] == field[i + 1..];
        frameLength := frameLength + field[i] as int * unit
          + if unit == 0x100_0000 && field[i] >= 0x80 then SIZE_T - 0x1_0000_0000 else 0;
        unit := unit / 0x100;
        i := i + 1;
      }
      assert field[k..] == [] && field[0] == payloadQueue[0];
    }

    /** The version is fixed once it is known; false if there are too few bytes to tell, or none is recognized. */
    method EnsureOrAutodetectProtocolVersion() returns (known: bool)
      requires status == Open && allowance.value > 0
      modifies this
      ensures dispatchingFrames == old(dispatchingFrames)
      ensures known ==> version != Unknown && State() == old(State()).(version := version)
      ensures known ==> Parse(State(), react) == Parse(old(State()), react)
      ensures !known ==> State() == Parse(old(State()), react)
    {
      hide Next, Recognize, Deliver;
      if version != Unknown {
        return true;
      }
      if |payloadQueue| < MIN_BYTES {
        return false;
      }
      var recognized := Recognize(payloadQueue);
      if recognized != Unknown {
        version := recognized;
        return true;
      }
      OnError();
      return false;
    }

    method ParseFrames()
      modifies this, allowance
      ensures old(dispatchingFrames) ==> State() == old(State())
      ensures !old(dispatchingFrames) ==> State() == Parse(old(State()), react)
      ensures dispatchingFrames == old(dispatchingFrames)
      decreases if dispatchingFrames then 0 else 3
    {
      hide Deliver, ReadLength, Recognize;
      if !allowance.CanAcquire(1) || dispatchingFrames {
        return;
      }
      dispatchingFrames := true;
      ghost var start := State();
      while allowance.CanAcquire(1) && status == Open
        invariant dispatchingFrames
        invariant Parse(State(), react) == Parse(start, react)
        decreases |payloadQueue|
      {
        var known := EnsureOrAutodetectProtocolVersion();
        if !known {
          break;
        }
        if |payloadQueue| < FieldLength(version) {
          break;
        }
        var nextFrameSize := ReadFrameLength();
        if nextFrameSize < MinimalLength(version) {
          OnError();
          break;
        }
        var end := FieldLength(version) + PayloadSize(version, nextFrameSize);
        if |payloadQueue| < end {
          break;
        }
        var nextFrame := payloadQueue[FieldLength(version)..end];
        ghost var before := State();
        var rest := payloadQueue[end..];
        assert Next(version, payloadQueue) == Whole(nextFrame, rest);
        DeliverShrinks(before, nextFrame, rest, react);
        payloadQueue := rest;
        Dispatch(nextFrame, before);
      }
      dispatchingFrames := false;
    }

    /** Takes one credit and calls the subscriber, which may call back. */
    method Dispatch(frame: seq<Byte>, ghost before: Reader)
      requires dispatchingFrames && status == Open && allowance.value > 0
      requires State() == before.(buffer := payloadQueue)
      modifies this, allowance
      ensures dispatchingFrames
      ensures State() == Deliver(before, frame, old(payloadQueue), react)
      decreases 2
    {
      var _ := allowance.TryAcquire(1);
      var count := |delivered|;
      delivered := delivered + [frame];
      match react(count) {
        case Grant(n) => Request(n);
        case Stop => Cancel();
      }
    }
  }

  class FramedWriter {
    var version: ProtocolVersion
    var open: bool
    /** Everything handed to the byte stream. */
    var output: seq<Byte>

    function State(): Writer
      reads this
    {
      Writer(version, output, open)
    }

    constructor (version: ProtocolVersion)
      ensures State() == Writer(version, [], true)
    {
      this.version := version;
      open, output := true, [];
    }

    static method WriteFrameLength(frameLength: nat, fieldLength: nat) returns (bytes: seq<Byte>)
      requires fieldLength > 0
      ensures bytes == BigEndian(frameLength, fieldLength)
    {
      var unit := Base(fieldLength - 1);
      var left := fieldLength;
      bytes := [];
      while left > 0
        invariant 0 <= left <= fieldLength
        invariant left > 0 ==> unit == Base(left - 1)
        invariant bytes + BigEndian(frameLength, left) == BigEndian(frameLength, fieldLength)
      {
        HighByteWrittenFirst(frameLength, left);
        bytes := bytes + [frameLength / unit % 0x100];
        unit := unit / 0x100;
        left := left - 1;
      }
    }

    /** Nothing, if the frame is too long. */
    method AppendSize(payload: seq<Byte>) returns (sized: Option<seq<Byte>>)
      requires version != Unknown
      ensures sized == if Writable(version, payload) then Some(Encode(version, payload)) else None
    {
      var payloadLength := LengthFor(version, |payload|);
      if payloadLength > MAX_FRAME_LENGTH {
        return None;
      }
      var field := WriteFrameLength(payloadLength, FieldLength(version));
      return Some(field + payload);
    }

    method Cancel()
      modifies this
      ensures State() == old(State()).(open := false)
    {
      open := false;
    }

    method OnNext(payload: seq<Byte>)
      requires version != Unknown
      modifies this
      ensures State() == Wrote(old(State()), [payload])
    {
      hide Encode;
      if !open {
        return;
      }
      JustOne(version, payload);
      var sized := AppendSize(payload);
      if sized == None {
        Cancel();
        return;
      }
      output := output + sized.value;
    }

    method OnNextMultiple(payloads: seq<seq<Byte>>)
      requires version != Unknown && open
      modifies this
      ensures State() == Wrote(old(State()), payloads)
    {
      hide Encode;
      var queue: seq<Byte> := [];
      var i := 0;
      while i < |payloads|
        invariant 0 <= i <= |payloads|
        invariant State() == old(State())
        invariant AllWritable(version, payloads[..i])
        invariant queue == Written(version, payloads[..i])
      {
        var sized := AppendSize(payloads[i]);
        if sized == None {
          Cancel();
          return;
        }
        assert payloads[..i + 1] == payloads[..i] + [payloads[i]];
        WrittenSplits(version, payloads[..i], [payloads[i]]);
        JustOne(version, payloads[i]);
        queue := queue + sized.value;
        i := i + 1;
      }
      assert payloads[..i] == payloads;
      output := output + queue;
    }
  }
}
