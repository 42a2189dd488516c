// Errors on their way: what one peer sends as its last frame is what the other one reports, after
// everything that was sent before it, and nothing is sent or parsed any more.
module Errors {
  import opened Types
  import opened Header
  import opened Message
  import opened Protocol
  import opened Streaming
  import opened Transfer
  import opened IoState
  import opened WaitQueue
  import opened Duplex
  import opened TwoPeers
  import opened Reassembly
  import opened Discipline
  import Varint

  /** Data comes with an application defined error, and with no other. */
  ghost predicate IsErrorMessage(msg: OutgoingMessage) {
    msg.Valid() && msg.header.Error? && (msg.payload.Some? <==> msg.header.errorKind == Other)
  }

  /** The frame of an error is read as that error, whatever follows it. */
  lemma ErrorRoundTrip(msg: OutgoingMessage, q: ProtocolState, later: Bytes)
    requires IsErrorMessage(msg) && q.Valid() && |msg.Frames().AllFrames(q.mfs)| == 1
    ensures var bytes := FrameBytes(msg.Frames(), q.mfs);
      Pass(q, bytes + later) == Step(q, |bytes|, Success(Some(ErrorReceived(msg.header, msg.payload))))
  {
    hide Varint.DecodeVarint; hide Varint.Encoding; hide Header.Raw;
    var it, mfs := msg.Frames(), q.mfs;
    ClosedForms(msg, mfs);
    FirstIsFinal(it, mfs);
    HeaderParses(it, mfs, later);
    var bytes := FrameBytes(it, mfs) + later;
    assert bytes[..SIZE] == msg.header.Raw();
    if msg.payload.Some? {
      var data, prefix := msg.payload.value, Varint.Encoding(|msg.payload.value|);
      assert data[0..|data|] == data;
      assert FrameBytes(it, mfs) == msg.header.Raw() + prefix + data;
      assert bytes[SIZE..] == prefix + (data + later);
      Varint.RoundTrip(|data|, data + later);
      assert bytes[SIZE + |prefix|..SIZE + |prefix| + |data|] == data;
    }
    hide Parse;
  }

  /** A custom error is read with its header and its data. */
  lemma CustomErrorRoundTrip(p: ProtocolState, channel: ChannelId, id: Id, data: Bytes, q: ProtocolState, later: Bytes)
    requires |data| < 0x1_0000_0000 && q.Valid() && q.mfs == p.mfs
    requires CustomError(p, channel, id, data).result.Ok?
    ensures var msg := CustomError(p, channel, id, data).result.value;
      var bytes := FrameBytes(msg.Frames(), p.mfs);
      Pass(q, bytes + later) == Step(q, |bytes|, Success(Some(ErrorReceived(Error(Other, channel, id), Some(data)))))
  {
    var msg := CustomError(p, channel, id, data).result.value;
    ClosedForms(msg, p.mfs);
    assert |msg.Frames().AllFrames(p.mfs)| >= 1;
    hide Pass;
    ErrorRoundTrip(msg, q, later);
  }

  /** What is left of the data of an error when it is cut to a frame. */
  function Shown(err: OutgoingMessage, mfs: MaxFrameSize): Option<Bytes>
    requires err.Valid()
  {
    err.TruncateToSingleFrame(mfs).payload
  }

  lemma ShownIsPrefix(err: OutgoingMessage, mfs: MaxFrameSize)
    requires err.Valid()
    ensures err.payload.None? <==> Shown(err, mfs).None?
    ensures err.payload.Some? ==> Shown(err, mfs).value <= err.payload.value
    ensures |err.Frames().AllFrames(mfs)| == 1 ==> Shown(err, mfs) == err.payload
  {
    Truncation(err, mfs);
    ClosedForms(err, mfs);
    hide FrameIter.AllFrames;
  }

  /**
   * An error that is injected is what the peer reads, whatever state it is in and whatever follows, and
   * what the local endpoint learns once it has been sent.
   */
  lemma InjectedErrorIsRead(io: IoState, err: OutgoingMessage, q: ProtocolState, later: Bytes)
    requires io.Valid() && IsErrorMessage(err) && q.Valid() && q.mfs == io.juliet.mfs
    ensures var n, shown := InjectError(io, err), Shown(err, io.juliet.mfs);
      && n.pendingError.Some?
      && var bytes := n.pendingError.value.Wire();
      && Pass(q, bytes + later) == Step(q, |bytes|, Success(Some(ErrorReceived(err.header, shown))))
      && ErrorSent(n).result == Err(RemoteProtocolViolation(err.header, shown))
      && ErrorSent(n).state.pendingError.None?
  {
    hide Pass; hide IoState.Valid; hide OutgoingMessage.TruncateToSingleFrame; hide OutgoingFrame.Wire;
    var msg := err.TruncateToSingleFrame(io.juliet.mfs);
    Truncation(err, io.juliet.mfs);
    ErrorRoundTrip(msg, q, later);
    OnlySegment(msg, io.juliet.mfs);
  }

  lemma OnlySegment(msg: OutgoingMessage, mfs: MaxFrameSize)
    requires msg.Valid() && |msg.Frames().AllFrames(mfs)| == 1
    ensures msg.payload.Some? ==> msg.Frames().NextFrame(mfs).segment == msg.payload.value
  {
    FramesCarryPayload(msg.Frames(), mfs);
    var fs := msg.Frames().AllFrames(mfs);
    assert Segments(fs) == fs[0].segment + Segments(fs[1..]);
    assert fs[1..] == [];
    if msg.payload.Some? { assert msg.payload.value[0..] == msg.payload.value; }
  }

  /** After that, nothing is readied, nothing is parsed, nothing waits, and nobody waits for an answer. */
  lemma NothingFollows(io: IoState, err: OutgoingMessage)
    requires io.Valid() && err.Valid()
    ensures var n := InjectError(io, err);
      && ReadyNextFrame(n) == n
      && ParseStep(n) == Handled(n, Ok(None))
      && n.requestMap == map[]
      && (forall c :: 0 <= c < |n.waitQueue| ==> n.waitQueue[c] == [])
      && (forall c: ChannelId :: n.juliet.Knows(c) ==> ProcessWaitQueue(n, c) == Handled(n, Ok(())))
      && n.juliet == io.juliet && n.currentFrame == io.currentFrame && n.activeMultiFrame == io.activeMultiFrame
  {
    Shapes(InjectError(io, err));
    hide IoState.Valid; hide OutgoingMessage.TruncateToSingleFrame;
  }

  /** What is fatal to the parser is reported to the peer, with the header of the frame at fault. */
  lemma FatalIsReported(io: IoState, q: ProtocolState, later: Bytes)
    requires io.Valid() && q.Valid() && q.mfs == io.juliet.mfs
    requires io.nextParseAt <= |io.buffer| && ProcessIncoming(io.juliet, io.buffer).outcome.Fatal?
    ensures var err, r := ProcessIncoming(io.juliet, io.buffer).outcome.error, ParseStep(io);
      && r.result == Ok(None) && r.state.pendingError.Some? && r.state.readyQueue == []
      && var bytes := r.state.pendingError.value.Wire();
      Pass(q, bytes + later) == Step(q, |bytes|, Success(Some(ErrorReceived(err.header, None))))
  {
    ProcessIncomingReports(io.juliet, io.buffer);
    hide ProcessIncoming; hide Pass; hide InjectError;
    var p := ProcessIncoming(io.juliet, io.buffer);
    var next := io.(nextParseAt := 0, juliet := p.state, buffer := p.rest);
    InjectedErrorIsRead(next, p.outcome.error, q, later);
    ShownIsPrefix(p.outcome.error, io.juliet.mfs);
    NothingFollows(next, p.outcome.error);
    CutQueue(next, p.outcome.error);
  }

  lemma CutQueue(io: IoState, err: OutgoingMessage)
    requires io.Valid() && err.Valid()
    ensures InjectError(io, err).readyQueue == []
  {
    hide IoState.Valid;
  }

  /** A custom error that the local endpoint hands over is the next that is sent, unless it is too long. */
  lemma CustomErrorOutcome(io: IoState, channel: ChannelId, id: Id, data: Bytes)
    requires io.Valid() && |data| < 0x1_0000_0000
    ensures var r := HandleIncomingItem(io, QueuedError(channel, id, data));
      var msg := OutgoingMessage(Error(Other, channel, id), Some(data));
      if |msg.Frames().AllFrames(io.juliet.mfs)| == 1 then
        r == Handled(InjectError(io, msg), Ok(())) && Shown(msg, io.juliet.mfs) == Some(data)
      else r == Handled(io, Err(LocalViolation(ErrorPayloadIsMultiFrame(|data|, io.juliet.mfs))))
  {
    hide IoState.Valid; hide InjectError; hide FrameIter.AllFrames;
    ClosedForms(OutgoingMessage(Error(Other, channel, id), Some(data)), io.juliet.mfs);
    AtLeastOne(OutgoingMessage(Error(Other, channel, id), Some(data)), io.juliet.mfs);
  }

  lemma AtLeastOne(msg: OutgoingMessage, mfs: MaxFrameSize)
    requires msg.Valid()
    ensures |msg.Frames().AllFrames(mfs)| >= 1
  {
  }

  /** The IO layer that parses the error reports it. */
  lemma ErrorIsReported(io: IoState, header: Header, data: Option<Bytes>, bytes: Bytes)
    requires io.Valid() && io.nextParseAt <= |io.buffer| && bytes <= io.buffer
    requires Pass(io.juliet, io.buffer) == Step(io.juliet, |bytes|, Success(Some(ErrorReceived(header, data))))
    ensures ParseStep(io).result == Err(RemoteReportedError(header, data))
  {
    hide Pass; hide IoState.Valid;
  }

  /**
   * Between two peers, an error comes last: the bytes on their way and those of the error yield the
   * messages that end before it, and then the error.
   */
  lemma ErrorComesLast(p: Peer, q: Peer, err: OutgoingMessage, s: Setup)
    requires Good(p, q, s) && IsErrorMessage(err)
    ensures p.io.Valid() && q.io.juliet.Valid()
    ensures var n := InjectError(p.io, err);
      && n.pendingError.Some?
      && var run := Drain(q.io.juliet, (q.io.buffer + p.wire) + n.pendingError.value.Wire());
      && run.error.None? && run.rest == [] && |run.completed| >= 1
      && Said(run.completed[..|run.completed| - 1]) == Endings(p.sent, s.mfs)
      && run.completed[|run.completed| - 1] == ErrorReceived(err.header, Shown(err, s.mfs))
  {
    hide Drain; hide Pass; hide IoState.Valid; hide Said; hide Endings; hide InjectError; hide ErrorSent; hide Flat;
    hide Shown; hide FeedAll; hide Sound; hide Lanes;
    SameSize(p, q, s);
    var x := q.io.buffer + p.wire;
    Whole(p, q, x, s);
    var first := Drain(q.io.juliet, x);
    InjectedErrorIsRead(p.io, err, first.state, []);
    var y := InjectError(p.io, err).pendingError.value.Wire();
    DrainSplit(q.io.juliet, x, y);
    DrainStep(first.state, y + []);
    EmptyDrain(first.state);
    assert y + [] == y && [] + y == y && y[|y|..] == [];
    var run := Drain(q.io.juliet, x + y);
    assert run.completed == first.completed + [ErrorReceived(err.header, Shown(err, s.mfs))];
    assert run.completed[..|run.completed| - 1] == first.completed;
  }

  lemma SameSize(p: Peer, q: Peer, s: Setup)
    requires Good(p, q, s)
    ensures p.io.Valid() && q.io.Valid() && q.io.juliet.Valid() && p.io.juliet.mfs == q.io.juliet.mfs == s.mfs
  {
    hide Lanes; hide Linked; hide Patient; hide CurrentIs; hide Framed;
  }

  /** The bytes on their way, parsed at once. */
  lemma Whole(p: Peer, q: Peer, x: Bytes, s: Setup)
    requires Good(p, q, s) && x == q.io.buffer + p.wire
    ensures q.io.juliet.Valid()
    ensures var run := Drain(q.io.juliet, x);
      run.error.None? && run.rest == [] && Said(run.completed) == Endings(p.sent, s.mfs)
  {
    hide Drain; hide Good; hide Said; hide Endings; hide FeedAll;
    assert [x][1..] == [];
    assert Flatten([x]) == x;
    OnItsWayIsReassembled(p, q, [x], s);
    ChunkIndependence(q.io.juliet, [x]);
  }
}
