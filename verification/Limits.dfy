// Where the protocol and the IO layer do less than their documentation promises, and exactly when.
module Limits {
  import opened Types
  import opened Header
  import opened Message
  import opened Multiframe
  import opened Protocol
  import opened IoState
  import WaitQueue
  import opened Transfer
  import RequestIds
  import Varint

  // ---------------------------------------------------------------- cancelling requests

  /** A cancellation leaves a transfer in progress alone, of a request or of a response, unless it has the same id. */
  lemma CancellationDropsTransfer(ch: ChannelState, header: Header)
    requires ch.receiver.Valid() && header.Frame? && header.kind == CancelReq && ch.allowance > 0
    ensures var r := PassCancelReq(ch, header);
      && r.outcome.Success?
      && (r.channel.receiver == ch.receiver <==> !(ch.receiver.InProgress? && ch.receiver.header.id == header.id))
      && (r.channel.receiver != ch.receiver ==>
            r.channel.receiver.Ready? && header.id !in r.channel.incoming && r.outcome.value.None?)
  {
  }

  /** A request of 40 bytes: with frames of 20 bytes, 15 of them go out with the first frame and 16 with the second. */
  function LongRequest(): OutgoingMessage {
    OutgoingMessage(Frame(RequestPl, 0, 7), Some(seq(40, _ => 0xff)))
  }

  function SecondFrame(): FrameIter {
    FrameIter(LongRequest(), 15)
  }

  const SMALL: MaxFrameSize := 20

  /** The first frame, as its bytes are parsed on a new channel. */
  function FirstPass(config: ChannelConfiguration): Passed {
    HeaderParses(LongRequest().Frames(), SMALL, []);
    ChannelPass(NewChannel(config), LongRequest().header, FrameBytes(LongRequest().Frames(), SMALL), SMALL)
  }

  lemma FirstPassIs(config: ChannelConfiguration)
    requires config.requestLimit >= 1 && config.maxRequestPayloadSize >= 40
    ensures var it := LongRequest().Frames();
      it.Valid() && !it.IsFinal(SMALL) && it.Rest(SMALL) == SecondFrame()
    ensures FirstPass(config).outcome == Success(None)
    ensures FirstPass(config).channel ==
            NewChannel(config).(receiver := Holding(SecondFrame()), incoming := {7}, allowance := 1)
  {
    hide Varint.Encoding; hide FrameBytes; hide AcceptFrame;
    AcceptsFirst(Ready, LongRequest().Frames(), SMALL, config.maxRequestPayloadSize, RequestTooLarge);
  }

  /**
   * The next frame of a request is rejected if the request is cancelled before: the sender does not
   * withdraw what is queued.
   */
  lemma FrameAfterCancellationIsFatal(config: ChannelConfiguration)
    requires config.requestLimit >= 1 && config.maxRequestPayloadSize >= 40
    ensures SecondFrame().Valid() && |FrameBytes(SecondFrame(), SMALL)| == 20
    ensures var header, frame := LongRequest().header, FrameBytes(SecondFrame(), SMALL);
      var begun := FirstPass(config);
      var cancelled := PassCancelReq(begun.channel, Frame(CancelReq, 0, 7));
      && begun.outcome == Success(None) && cancelled.outcome == Success(None)
      && ChannelPass(begun.channel, header, frame, SMALL).outcome == Success(None)
      && ChannelPass(cancelled.channel, header, frame, SMALL).outcome == Fatal(ErrMsg(header, BadVarInt))
  {
    hide Varint.DecodeVarint; hide FirstPass;
    FirstPassIs(config);
    var it, header := SecondFrame(), LongRequest().header;
    AcceptsNext(it, SMALL, config.maxRequestPayloadSize, RequestTooLarge);
    var frame := FrameBytes(it, SMALL);
    var segment := LongRequest().payload.value[15..31];
    assert frame == header.Raw() + segment;
    assert frame[SIZE..] == segment;
    Varint.DecodeMeaning(segment);
    hide Header.Raw;
    assert Varint.DecodeVarint(segment).Fatal?;
    assert {7} - {7} == {};
  }

  /** With room for one request, cancelling it a second time is a violation of the protocol. */
  lemma SecondCancellationIsFatal(config: ChannelConfiguration)
    requires config.requestLimit == 1
    ensures var requested := PassRequest(NewChannel(config), Frame(Request, 0, 1));
      var once := PassCancelReq(requested.channel, Frame(CancelReq, 0, 1));
      && requested.outcome.Success? && once.outcome == Success(Some(RequestCancellation(0, 1)))
      && PassCancelReq(once.channel, Frame(CancelReq, 0, 1)).outcome ==
         Fatal(ErrMsg(Frame(CancelReq, 0, 1), CancellationLimitExceeded))
  {
  }

  /** A cancellation takes effect, by a frame for the peer, exactly for a request that has left its wait queue. */
  lemma CancelsWhatIsMapped(io: IoState, ioId: IoId)
    requires io.Valid() && RequestIds.MapAgrees(io)
    ensures var r, w := HandleIncomingItem(io, QueuedRequestCancellation(ioId)), io.requestMap;
      && r.result.Ok?
      && (r.state != io <==> ioId in w)
      && (ioId in w ==> r.state == Enqueue(io, OutgoingMessage(Frame(CancelReq, w[ioId].0, w[ioId].1), None)))
  {
    if ioId in io.requestMap {
      assert RequestIds.Mapped(io.requestMap, io.requestMap[ioId]);
    }
    hide IoState.Valid;
  }

  /** Cancelling a request that is still in a wait queue does nothing: it will be sent all the same. */
  lemma WaitingRequestIsNotCancelled(io: IoState, channel: ChannelId, i: nat)
    requires io.Valid() && io.juliet.Knows(channel) && i < |io.waitQueue[channel]| &&
             io.waitQueue[channel][i].QueuedRequest?
    requires RequestIds.Fresh(io.requestMap, io.waitQueue[channel])
    ensures var item := QueuedRequestCancellation(io.waitQueue[channel][i].ioId);
      item.Valid() && io.Indexable(item) && HandleIncomingItem(io, item) == Handled(io, Ok(()))
  {
  }

  // ---------------------------------------------------------------- payloads that are too large

  /** What can go wrong with a request or a response that need not wait: its payload is too large, and nothing else. */
  lemma OnlySizeMatters(io: IoState, item: QueuedItem)
    requires io.Valid() && item.Valid() && (item.QueuedRequest? || item.QueuedResponse?) &&
             io.juliet.Knows(item.channel)
    requires WaitQueue.MayGoOut(io, item)
    ensures var ch := io.juliet.channels[item.channel];
      SendToReadyQueue(io, item).result.Err? <==>
        item.payload.Some? &&
        if item.QueuedRequest? then |item.payload.value| > ch.config.maxRequestPayloadSize
        else item.id in ch.incoming && |item.payload.value| > ch.config.maxResponsePayloadSize
  {
    hide NextId; hide IoState.Valid;
  }

  /**
   * A response that is too large fails, but the request is forgotten all the same, so that no other
   * answer can be created; the error names the limit for requests.
   */
  lemma LargeResponseIsForgotten(p: ProtocolState, channel: ChannelId, id: Id, payload: Bytes, other: Option<Bytes>)
    requires p.Knows(channel) && id in p.channels[channel].incoming
    requires |payload| > p.channels[channel].config.maxResponsePayloadSize
    ensures var r := CreateResponse(p, channel, id, Some(payload));
      && r.result == Err(PayloadExceedsLimit(|payload|, p.channels[channel].config.maxRequestPayloadSize))
      && CreateResponse(r.state, channel, id, other).result == Ok(None)
      && CancelResponse(r.state, channel, id).result == Ok(None)
  {
  }

  /** A custom error is sent in full or not at all: what does not fit into a frame is rejected, not cut. */
  lemma LongErrorsAreRejected(io: IoState, channel: ChannelId, id: Id, data: Bytes)
    requires io.Valid() && |data| < 0x1_0000_0000
    ensures var r := SendToReadyQueue(io, QueuedError(channel, id, data));
      && (r.result.Err? <==> PayloadIsMultiFrame(io.juliet.mfs, |data|))
      && (r.result.Err? ==> r.state == io)
      && (r.result.Ok? ==> r.state.pendingError.Some? && r.state.pendingError.value.segment == data)
  {
    var msg := OutgoingMessage(Error(Other, channel, id), Some(data));
    if !msg.IsMultiFrame(io.juliet.mfs) {
      assert data[0..|data|] == data;
    }
    hide IoState.Valid;
  }
}
