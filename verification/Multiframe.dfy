// Receiving messages that span several frames: one state machine per channel.
module Multiframe {
  import opened Types
  import opened Header
  import opened Message
  import Varint

  datatype ReceiverState =
    | Ready
    | InProgress(header: Header, payload: Bytes, total: u32)
  {
    /** A transfer in progress holds some of its payload, but not all of it. */
    ghost predicate Valid() {
      InProgress? ==> 0 < |payload| < total && header.Frame?
    }

    function InProgressHeader(): Option<Header> {
      if Ready? then None else Some(header)
    }
  }

  datatype CompletedFrame =
    | NewMultiFrame
    | IntermediateMultiFrame
    | SingleFrame(payload: Bytes)
    | CompletedMultiFrame(payload: Bytes)
  {
    /** Whether the frame was the first of a message. */
    predicate WasNew() {
      NewMultiFrame? || SingleFrame?
    }

    /** The payload, if the frame completed one. */
    function IntoCompletedPayload(): Option<Bytes> {
      if SingleFrame? || CompletedMultiFrame? then Some(payload) else None
    }
  }

  function ErrMsg(header: Header, kind: ErrorKind): OutgoingMessage {
    OutgoingMessage(header.WithErr(kind), None)
  }

  /** What the start of a buffer says about the first frame of a message. */
  datatype InitialFrameData = InitialFrameData(preambleLen: nat, segmentLen: nat, payloadSize: u32) {
    predicate IsComplete() {
      segmentLen == payloadSize
    }
  }

  /** Finds a complete first frame at the front of a buffer that still has the header. */
  function DetectStartingSegment(header: Header, buffer: Bytes, mfs: MaxFrameSize, maxPayloadSize: u32,
                                 tooLarge: ErrorKind): (r: Outcome<InitialFrameData, OutgoingMessage>)
    requires |buffer| >= SIZE
    ensures r.Success? ==> SIZE < r.value.preambleLen && r.value.preambleLen + r.value.segmentLen <= |buffer|
    ensures r.Success? ==> r.value.segmentLen <= r.value.payloadSize <= maxPayloadSize
    ensures r.Success? && !r.value.IsComplete() ==> 0 < r.value.segmentLen
  {
    Varint.DecodeExtend(buffer[SIZE..], []);
    match Varint.DecodeVarint(buffer[SIZE..])
    case Incomplete(n) => Incomplete(n)
    case Fatal(_) => Fatal(ErrMsg(header, BadVarInt))
    case Success(payloadSize) =>
      if payloadSize.value > maxPayloadSize then Fatal(ErrMsg(header, tooLarge))
      else
        var preambleLen := SIZE + payloadSize.offset;
        var segmentLen := Min(mfs - preambleLen, payloadSize.value);
        var frameEnd := preambleLen + segmentLen;
        if |buffer| < frameEnd then Incomplete(frameEnd - |buffer|)
        else Success(InitialFrameData(preambleLen, segmentLen, payloadSize.value))
  }

  /** The result of looking at one frame: the new state and how much of the buffer was used up. */
  datatype Accepted = Accepted(state: ReceiverState, consumed: nat, outcome: Outcome<CompletedFrame, OutgoingMessage>)

  /** Takes the next frame of the transfer in progress off the front of the buffer. */
  function AcceptNext(state: ReceiverState, buffer: Bytes, mfs: MaxFrameSize): (r: Accepted)
    requires state.Valid() && state.InProgress?
    ensures r.state.Valid() && r.consumed <= |buffer|
    ensures r.outcome.Success? ==> r.consumed >= SIZE
    ensures !r.outcome.Success? ==> r.state == state && r.consumed == 0
  {
    var segmentSize := Min(state.total - |state.payload|, WithoutHeader(mfs));
    var frameEnd := segmentSize + SIZE;
    if |buffer| < frameEnd then Accepted(state, 0, Incomplete(frameEnd - |buffer|))
    else
      var payload := state.payload + buffer[SIZE..frameEnd];
      if |payload| == state.total then Accepted(Ready, frameEnd, Success(CompletedMultiFrame(payload)))
      else Accepted(state.(payload := payload), frameEnd, Success(IntermediateMultiFrame))
  }

  /** Takes the first frame of a message off the front of the buffer. */
  function AcceptFirst(state: ReceiverState, header: Header, buffer: Bytes, mfs: MaxFrameSize, maxPayloadSize: u32,
                       tooLarge: ErrorKind): (r: Accepted)
    requires |buffer| >= SIZE && state.Valid() && header.Frame?
    ensures r.state.Valid() && r.consumed <= |buffer|
    ensures r.outcome.Success? ==> r.consumed >= SIZE
    ensures !r.outcome.Success? ==> r.state == state && r.consumed == 0
  {
    match DetectStartingSegment(header, buffer, mfs, maxPayloadSize, tooLarge)
    case Incomplete(n) => Accepted(state, 0, Incomplete(n))
    case Fatal(e) => Accepted(state, 0, Fatal(e))
    case Success(frame) =>
      var frameEnd := frame.preambleLen + frame.segmentLen;
      var segment := buffer[frame.preambleLen..frameEnd];
      if frame.IsComplete() then Accepted(state, frameEnd, Success(SingleFrame(segment)))
      else if state.Ready? then
        Accepted(ReceiverState.InProgress(header, segment, frame.payloadSize), frameEnd, Success(NewMultiFrame))
      else Accepted(state, 0, Fatal(ErrMsg(header, ErrorKind.InProgress)))
  }

  /** Takes one frame with a payload off the front of the buffer. */
  function AcceptFrame(state: ReceiverState, header: Header, buffer: Bytes, mfs: MaxFrameSize, maxPayloadSize: u32,
                       tooLarge: ErrorKind): (r: Accepted)
    requires |buffer| >= SIZE && state.Valid() && header.Frame?
    ensures r.state.Valid() && r.consumed <= |buffer|
    ensures r.outcome.Success? ==> r.consumed >= SIZE
    ensures !r.outcome.Success? ==> r.state == state && r.consumed == 0
  {
    if state.InProgressHeader() == Some(header) then AcceptNext(state, buffer, mfs)
    else AcceptFirst(state, header, buffer, mfs, maxPayloadSize, tooLarge)
  }

  // ---------------------------------------------------------------- the mutable receiver

  /** A growing receive buffer. */
  class BytesMut {
    var data: Bytes

    constructor ()
      ensures data == []
    {
      data := [];
    }

    method Advance(n: nat)
      requires n <= |data|
      modifies this
      ensures data == old(data)[n..]
    {
      data := data[n..];
    }

    method SplitTo(n: nat) returns (front: Bytes)
      requires n <= |data|
      modifies this
      ensures front == old(data)[..n] && data == old(data)[n..]
    {
      front := data[..n];
      data := data[n..];
    }
  }

  class MultiframeReceiver {
    var state: ReceiverState

    constructor ()
      ensures state == Ready
    {
      state := Ready;
    }

    /** Processes a single frame with a payload, taking it off `buffer` if it is complete. */
    method Accept(header: Header, buffer: BytesMut, mfs: MaxFrameSize, maxPayloadSize: u32, tooLarge: ErrorKind)
      returns (outcome: Outcome<CompletedFrame, OutgoingMessage>)
      requires |buffer.data| >= SIZE && state.Valid() && header.Frame?
      modifies this, buffer
      ensures var r := AcceptFrame(old(state), header, old(buffer.data), mfs, maxPayloadSize, tooLarge);
        && state == r.state && buffer.data == old(buffer.data)[r.consumed..] && outcome == r.outcome
    {
      ghost var r := AcceptFrame(state, header, buffer.data, mfs, maxPayloadSize, tooLarge);
      assert r == if state.InProgressHeader() == Some(header) then AcceptNext(state, buffer.data, mfs)
                  else AcceptFirst(state, header, buffer.data, mfs, maxPayloadSize, tooLarge);
      hide DetectStartingSegment; hide AcceptFrame;
      match state
      case Ready =>
        match DetectStartingSegment(header, buffer.data, mfs, maxPayloadSize, tooLarge) {
          case Incomplete(n) => return Incomplete(n);
          case Fatal(e) => return Fatal(e);
          case Success(frame) =>
            SliceTwice(buffer.data, frame.preambleLen, frame.segmentLen);
            buffer.Advance(frame.preambleLen);
            var segment := buffer.SplitTo(frame.segmentLen);
            if frame.IsComplete() {
              return Success(SingleFrame(segment));
            }
            state := ReceiverState.InProgress(header, segment, frame.payloadSize);
            return Success(NewMultiFrame);
        }
      case InProgress(activeHeader, payload, total) =>
        if header != activeHeader {
          match DetectStartingSegment(header, buffer.data, mfs, maxPayloadSize, tooLarge) {
            case Incomplete(n) => return Incomplete(n);
            case Fatal(e) => return Fatal(e);
            case Success(frame) =>
              if frame.IsComplete() {
                SliceTwice(buffer.data, frame.preambleLen, frame.segmentLen);
                buffer.Advance(frame.preambleLen);
                var segment := buffer.SplitTo(frame.segmentLen);
                return Success(SingleFrame(segment));
              }
              return Fatal(ErrMsg(header, ErrorKind.InProgress));
          }
        }
        hide AcceptFirst;
        var extended := ExtractSegment(buffer, payload, total, mfs);
        if extended.Incomplete? {
          return Incomplete(extended.n);
        }
        if |extended.value| == total {
          state := Ready;
          return Success(CompletedMultiFrame(extended.value));
        }
        state := ReceiverState.InProgress(activeHeader, extended.value, total);
        return Success(IntermediateMultiFrame);
    }

    /** Appends the next segment to the stored payload, if all of it has arrived. */
    static method ExtractSegment(incoming: BytesMut, storedPayload: Bytes, totalPayloadSize: nat, mfs: MaxFrameSize)
      returns (outcome: Outcome<Bytes, OutgoingMessage>)
      requires |storedPayload| < totalPayloadSize
      modifies incoming
      ensures var frameEnd := SIZE + Min(totalPayloadSize - |storedPayload|, WithoutHeader(mfs));
        if |old(incoming.data)| < frameEnd then
          outcome == Incomplete(frameEnd - |old(incoming.data)|) && incoming.data == old(incoming.data)
        else
          && outcome == Success(storedPayload + old(incoming.data)[SIZE..frameEnd])
          && incoming.data == old(incoming.data)[frameEnd..]
    {
      var bytesRemaining := totalPayloadSize - |storedPayload|;
      var segmentSize := Min(bytesRemaining, WithoutHeader(mfs));
      var frameEnd := segmentSize + SIZE;
      if |incoming.data| < frameEnd {
        return Incomplete(frameEnd - |incoming.data|);
      }
      SliceTwice(incoming.data, SIZE, segmentSize);
      incoming.Advance(SIZE);
      var segment := incoming.SplitTo(segmentSize);
      return Success(storedPayload + segment);
    }
  }

  // ---------------------------------------------------------------- more bytes

  /** A larger buffer changes nothing that is decided, and completes only what it had to. */
  lemma DetectExtend(header: Header, buffer: Bytes, more: Bytes, mfs: MaxFrameSize, maxPayloadSize: u32,
                     tooLarge: ErrorKind)
    requires |buffer| >= SIZE
    ensures var a := DetectStartingSegment(header, buffer, mfs, maxPayloadSize, tooLarge);
      var b := DetectStartingSegment(header, buffer + more, mfs, maxPayloadSize, tooLarge);
      && (!a.Incomplete? ==> b == a)
      && (a.Incomplete? ==> 1 <= a.n < 0x1_0000_0000)
      && (a.Incomplete? && |more| < a.n ==> b == Incomplete(a.n - |more|))
      && (a.Incomplete? && b.Success? ==> b.value.preambleLen + b.value.segmentLen > |buffer|)
  {
    assert (buffer + more)[SIZE..] == buffer[SIZE..] + more;
    Varint.DecodeExtend(buffer[SIZE..], more);
    if Varint.DecodeVarint(buffer[SIZE..]).Incomplete? && more == [] {
      assert buffer + more == buffer;
    }
  }

  lemma AcceptNextExtend(state: ReceiverState, buffer: Bytes, more: Bytes, mfs: MaxFrameSize)
    requires state.Valid() && state.InProgress?
    ensures var a := AcceptNext(state, buffer, mfs);
      var b := AcceptNext(state, buffer + more, mfs);
      && (!a.outcome.Incomplete? ==> b == a)
      && (a.outcome.Incomplete? ==> 1 <= a.outcome.n < 0x1_0000_0000)
      && (a.outcome.Incomplete? && |more| < a.outcome.n ==>
            b == Accepted(state, 0, Incomplete(a.outcome.n - |more|)))
      && (a.outcome.Incomplete? && b.outcome.Success? ==> b.consumed > |buffer|)
  {
    var frameEnd := Min(state.total - |state.payload|, WithoutHeader(mfs)) + SIZE;
    if frameEnd <= |buffer| { SliceFront(buffer, more, SIZE, frameEnd); }
  }

  lemma AcceptFirstExtend(state: ReceiverState, header: Header, buffer: Bytes, more: Bytes, mfs: MaxFrameSize,
                          maxPayloadSize: u32, tooLarge: ErrorKind)
    requires |buffer| >= SIZE && state.Valid() && header.Frame?
    ensures var a := AcceptFirst(state, header, buffer, mfs, maxPayloadSize, tooLarge);
      var b := AcceptFirst(state, header, buffer + more, mfs, maxPayloadSize, tooLarge);
      && (!a.outcome.Incomplete? ==> b == a)
      && (a.outcome.Incomplete? ==> 1 <= a.outcome.n < 0x1_0000_0000)
      && (a.outcome.Incomplete? && |more| < a.outcome.n ==>
            b == Accepted(state, 0, Incomplete(a.outcome.n - |more|)))
      && (a.outcome.Incomplete? && b.outcome.Success? ==> b.consumed > |buffer|)
  {
    DetectExtend(header, buffer, more, mfs, maxPayloadSize, tooLarge);
    hide DetectStartingSegment;
    var d := DetectStartingSegment(header, buffer, mfs, maxPayloadSize, tooLarge);
    if d.Success? { SliceFront(buffer, more, d.value.preambleLen, d.value.preambleLen + d.value.segmentLen); }
  }

  lemma AcceptExtend(state: ReceiverState, header: Header, buffer: Bytes, more: Bytes, mfs: MaxFrameSize,
                     maxPayloadSize: u32, tooLarge: ErrorKind)
    requires |buffer| >= SIZE && state.Valid() && header.Frame?
    ensures var a := AcceptFrame(state, header, buffer, mfs, maxPayloadSize, tooLarge);
      var b := AcceptFrame(state, header, buffer + more, mfs, maxPayloadSize, tooLarge);
      && (!a.outcome.Incomplete? ==> b == a)
      && (a.outcome.Incomplete? ==> 1 <= a.outcome.n < 0x1_0000_0000)
      && (a.outcome.Incomplete? && |more| < a.outcome.n ==>
            b == Accepted(state, 0, Incomplete(a.outcome.n - |more|)))
      && (a.outcome.Incomplete? && b.outcome.Success? ==> b.consumed > |buffer|)
  {
    if state.InProgressHeader() == Some(header) {
      AcceptNextExtend(state, buffer, more, mfs);
    } else {
      AcceptFirstExtend(state, header, buffer, more, mfs, maxPayloadSize, tooLarge);
    }
    hide AcceptNext; hide AcceptFirst;
  }
}
