// Where the sender meets the receiver: what a receiver makes of the bytes of a frame that the frame
// iterator of a message produced.
module Transfer {
  import opened Types
  import opened Header
  import opened Message
  import opened Multiframe
  import Varint

  /** The bytes of the next frame. */
  function FrameBytes(it: FrameIter, mfs: MaxFrameSize): Bytes
    requires it.Valid()
  {
    it.NextFrame(mfs).Wire()
  }

  /** The transfer state of a receiver that has taken all frames before the next one of `it`. */
  function Holding(it: FrameIter): ReceiverState
    requires it.Valid() && it.processed > 0
  {
    ReceiverState.InProgress(it.msg.header, it.msg.payload.value[..it.processed], |it.msg.payload.value|)
  }

  lemma FirstIsFinal(it: FrameIter, mfs: MaxFrameSize)
    requires it.Valid() && it.processed == 0
    ensures it.msg.IsMultiFrame(mfs) <==> !it.IsFinal(mfs)
  {
  }

  /** The start of a frame parses as its header, whatever follows. */
  lemma HeaderParses(it: FrameIter, mfs: MaxFrameSize, more: Bytes)
    requires it.Valid()
    ensures var b := FrameBytes(it, mfs) + more;
      |b| >= SIZE && Parse(b[..SIZE]) == Some(it.msg.header)
  {
    var b := FrameBytes(it, mfs) + more;
    assert b[..SIZE] == it.msg.header.Raw();
    ParseInvertsRaw(it.msg.header);
  }

  /** The first frame of a payload is recognised for what it is. */
  lemma FirstSegment(it: FrameIter, mfs: MaxFrameSize, maxPayloadSize: u32, tooLarge: ErrorKind)
    requires it.Valid() && it.processed == 0 && it.msg.payload.Some?
    requires |it.msg.payload.value| <= maxPayloadSize
    ensures var b := FrameBytes(it, mfs);
      && |b| >= SIZE
      && |b| == SIZE + it.PrefixLen() + it.SegmentLen(mfs)
      && DetectStartingSegment(it.msg.header, b, mfs, maxPayloadSize, tooLarge) ==
         Success(InitialFrameData(SIZE + it.PrefixLen(), it.SegmentLen(mfs), |it.msg.payload.value|))
      && b[SIZE + it.PrefixLen()..] == it.msg.payload.value[..it.SegmentLen(mfs)]
  {
    var b, segment := FrameBytes(it, mfs), it.msg.payload.value[..it.SegmentLen(mfs)];
    var prefix := Varint.Encoding(|it.msg.payload.value|);
    assert b == it.msg.header.Raw() + prefix + segment;
    assert b[SIZE..] == prefix + segment;
    Varint.RoundTrip(|it.msg.payload.value|, segment);
  }

  /** A receiver that can take the first frame of a message does. */
  lemma AcceptsFirst(state: ReceiverState, it: FrameIter, mfs: MaxFrameSize, maxPayloadSize: u32, tooLarge: ErrorKind)
    requires it.Valid() && it.processed == 0 && it.msg.payload.Some? && it.msg.header.Frame?
    requires |it.msg.payload.value| <= maxPayloadSize
    requires state.Valid() && state.InProgressHeader() != Some(it.msg.header)
    requires it.IsFinal(mfs) || state.Ready?
    ensures var b := FrameBytes(it, mfs);
      && |b| >= SIZE
      && AcceptFrame(state, it.msg.header, b, mfs, maxPayloadSize, tooLarge) ==
         if it.IsFinal(mfs) then Accepted(state, |b|, Success(SingleFrame(it.msg.payload.value)))
         else Accepted(Holding(it.Rest(mfs)), |b|, Success(NewMultiFrame))
  {
    FirstSegment(it, mfs, maxPayloadSize, tooLarge);
    hide DetectStartingSegment; hide OutgoingFrame.Wire;
    var b := FrameBytes(it, mfs);
    hide FrameBytes;
    assert b[SIZE + it.PrefixLen()..|b|] == b[SIZE + it.PrefixLen()..];
    assert it.IsFinal(mfs) ==> it.msg.payload.value[..it.SegmentLen(mfs)] == it.msg.payload.value;
  }

  /** A receiver in the middle of a message takes its next frame. */
  lemma AcceptsNext(it: FrameIter, mfs: MaxFrameSize, maxPayloadSize: u32, tooLarge: ErrorKind)
    requires it.Valid() && it.processed > 0 && it.msg.header.Frame?
    ensures var b := FrameBytes(it, mfs);
      && |b| >= SIZE && Holding(it).Valid()
      && AcceptFrame(Holding(it), it.msg.header, b, mfs, maxPayloadSize, tooLarge) ==
         if it.IsFinal(mfs) then Accepted(Ready, |b|, Success(CompletedMultiFrame(it.msg.payload.value)))
         else Accepted(Holding(it.Rest(mfs)), |b|, Success(IntermediateMultiFrame))
  {
    var b, payload, n := FrameBytes(it, mfs), it.msg.payload.value, it.SegmentLen(mfs);
    assert b == it.msg.header.Raw() + payload[it.processed..it.processed + n];
    assert b[SIZE..|b|] == payload[it.processed..it.processed + n];
    assert payload[..it.processed] + payload[it.processed..it.processed + n] == payload[..it.processed + n];
    assert it.IsFinal(mfs) ==> payload[..it.processed + n] == payload;
    hide AcceptFirst;
  }
}
