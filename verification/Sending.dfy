// What becomes of an item that the local endpoint hands over: all its outcomes, and the whole state
// after each of them.
module Sending {
  import opened Types
  import opened Header
  import opened Message
  import opened Protocol
  import opened IoState
  import opened WaitQueue
  import RequestIds

  predicate TooLarge(payload: Option<Bytes>, limit: nat) {
    payload.Some? && |payload.value| > limit
  }

  /** The queues and the lock once a message has been queued. */
  ghost predicate Queues(io: IoState, n: IoState, msg: OutgoingMessage)
    requires msg.Valid() && msg.header.channel < |io.activeMultiFrame|
  {
    && n.readyQueue == io.readyQueue + [msg.Frames()]
    && n.activeMultiFrame ==
       (if |msg.Frames().AllFrames(io.juliet.mfs)| > 1 then io.activeMultiFrame[msg.header.channel := Some(msg.header)]
        else io.activeMultiFrame)
    && n.waitQueue == io.waitQueue && n.currentFrame == io.currentFrame && n.pendingError == io.pendingError
    && n.buffer == io.buffer && n.nextParseAt == io.nextParseAt
  }

  /** Nothing has happened to the protocol but on one channel. */
  ghost predicate Becomes(p: ProtocolState, q: ProtocolState, c: ChannelId, ch: ChannelState)
    requires p.Knows(c)
  {
    q == p.(channels := p.channels[c := ch])
  }

  lemma LockIfLong(msg: OutgoingMessage, mfs: MaxFrameSize)
    requires msg.Valid()
    ensures msg.IsMultiFrame(mfs) <==> |msg.Frames().AllFrames(mfs)| > 1
  {
    ClosedForms(msg, mfs);
    hide FrameIter.AllFrames;
  }

  /** Creating a request: the channel, the size and the room are checked in this order. */
  lemma CreateRequestOutcome(p: ProtocolState, c: ChannelId, payload: Option<Bytes>)
    requires p.Valid()
    ensures var r := CreateRequest(p, c, payload);
      if c >= |p.channels| then r == Created(p, Err(LocalProtocolViolation.InvalidChannel(c, |p.channels|)))
      else
        var ch := p.channels[c];
        if TooLarge(payload, ch.config.maxRequestPayloadSize) then
          r == Created(p, Err(PayloadExceedsLimit(|payload.value|, ch.config.maxRequestPayloadSize)))
        else if |ch.outgoing| >= ch.config.requestLimit then
          r == Created(p, Err(WouldExceedRequestLimit(ch.config.requestLimit)))
        else
          var id := r.state.channels[c].prevRequestId;
          && id !in ch.outgoing && Becomes(p, r.state, c, ch.(outgoing := ch.outgoing + {id}, prevRequestId := id))
          && r.result == Ok(OutgoingMessage(Frame(if payload.Some? then RequestPl else Request, c, id), payload))
  {
    hide NextId;
    if CreateRequest(p, c, payload).result.Ok? { CreateRequestIsFresh(p, c, payload); }
  }

  /** Answering a request, by a response or a cancellation: nothing is created if it is not there any more. */
  lemma AnswerOutcome(p: ProtocolState, c: ChannelId, id: Id, payload: Option<Bytes>)
    requires p.Valid()
    ensures var r, l := CreateResponse(p, c, id, payload), CancelResponse(p, c, id);
      if c >= |p.channels| then
        && r == Created(p, Err(LocalProtocolViolation.InvalidChannel(c, |p.channels|)))
        && l == Created(p, Err(LocalProtocolViolation.InvalidChannel(c, |p.channels|)))
      else
        var ch := p.channels[c];
        if id !in ch.incoming then r == Created(p, Ok(None)) && l == Created(p, Ok(None))
        else
          && Becomes(p, r.state, c, ch.(incoming := ch.incoming - {id})) && l.state == r.state
          && l.result == Ok(Some(OutgoingMessage(Frame(CancelResp, c, id), None)))
          && r.result ==
             if TooLarge(payload, ch.config.maxResponsePayloadSize) then
               Err(PayloadExceedsLimit(|payload.value|, ch.config.maxRequestPayloadSize))
             else Ok(Some(OutgoingMessage(Frame(if payload.Some? then ResponsePl else Response, c, id), payload)))
  {
  }

  /** Cancelling a request: there is a message for it as long as it has not been answered. */
  lemma CancelOutcome(p: ProtocolState, c: ChannelId, id: Id)
    requires p.Valid()
    ensures CancelRequest(p, c, id) ==
            Created(p, if c >= |p.channels| then Err(LocalProtocolViolation.InvalidChannel(c, |p.channels|))
                       else if id !in p.channels[c].outgoing then Ok(None)
                       else Ok(Some(OutgoingMessage(Frame(CancelReq, c, id), None))))
  {
  }

  /**
   * A request: the channel may not exist, the request may have to wait, its payload may be too large;
   * otherwise it gets the next free identifier, is tracked and mapped under it, and its message is
   * queued, with the lock if it takes several frames.
   */
  lemma RequestOutcome(io: IoState, item: QueuedItem)
    requires io.Valid() && item.Valid() && item.QueuedRequest?
    ensures var r, c := HandleIncomingItem(io, item), item.channel;
      if !io.juliet.Knows(c) then
        r == Handled(io, Err(LocalViolation(LocalProtocolViolation.InvalidChannel(c, |io.juliet.channels|))))
      else if !MayGoOut(io, item) then
        c < |io.waitQueue| && r == Handled(io.(waitQueue := io.waitQueue[c := io.waitQueue[c] + [item]]), Ok(()))
      else if TooLarge(item.payload, io.juliet.channels[c].config.maxRequestPayloadSize) then
        r == Handled(io, Err(LocalViolation(
          PayloadExceedsLimit(|item.payload.value|, io.juliet.channels[c].config.maxRequestPayloadSize))))
      else
        var ch, id := io.juliet.channels[c], r.state.juliet.channels[c].prevRequestId;
        var msg := OutgoingMessage(Frame(if item.payload.Some? then RequestPl else Request, c, id), item.payload);
        && r.result == Ok(())
        && id !in ch.outgoing && id == NextId(ch.outgoing, ch.prevRequestId)
        && Becomes(io.juliet, r.state.juliet, c, ch.(outgoing := ch.outgoing + {id}, prevRequestId := id))
        && c < |io.activeMultiFrame| && Queues(io, r.state, msg)
        && item.ioId in r.state.requestMap && r.state.requestMap[item.ioId] == (c, id)
        && (forall l :: l in r.state.requestMap && l != item.ioId ==>
              l in io.requestMap && r.state.requestMap[l] == io.requestMap[l])
        && (forall l :: l in io.requestMap && io.requestMap[l] != (c, id) ==> l in r.state.requestMap)
  {
    var c := item.channel;
    Shapes(io);
    if io.juliet.Knows(c) {
      WaitsExactly(io, item);
      if MayGoOut(io, item) {
        RequestQueues(io, item);
      }
    }
    hide IoState.Valid; hide MayGoOut; hide SendToReadyQueue; hide NextId; hide Queues;
  }

  lemma RequestQueues(io: IoState, item: QueuedItem)
    requires io.Valid() && item.Valid() && item.QueuedRequest? && io.juliet.Knows(item.channel) && MayGoOut(io, item)
    ensures var r, c := SendToReadyQueue(io, item), item.channel;
      var ch, id := io.juliet.channels[c], r.state.juliet.channels[c].prevRequestId;
      if TooLarge(item.payload, ch.config.maxRequestPayloadSize) then
        r == Handled(io, Err(LocalViolation(
          PayloadExceedsLimit(|item.payload.value|, ch.config.maxRequestPayloadSize))))
      else
        var msg := OutgoingMessage(Frame(if item.payload.Some? then RequestPl else Request, c, id), item.payload);
        && r.result == Ok(())
        && id !in ch.outgoing && id == NextId(ch.outgoing, ch.prevRequestId)
        && Becomes(io.juliet, r.state.juliet, c, ch.(outgoing := ch.outgoing + {id}, prevRequestId := id))
        && c < |io.activeMultiFrame| && Queues(io, r.state, msg)
        && item.ioId in r.state.requestMap && r.state.requestMap[item.ioId] == (c, id)
        && (forall l :: l in r.state.requestMap && l != item.ioId ==>
              l in io.requestMap && r.state.requestMap[l] == io.requestMap[l])
        && (forall l :: l in io.requestMap && io.requestMap[l] != (c, id) ==> l in r.state.requestMap)
  {
    hide NextId; hide FrameIter.AllFrames; hide IoState.Valid;
    Shapes(io);
    var r := CreateRequest(io.juliet, item.channel, item.payload);
    if r.result.Ok? {
      CreateRequestIsFresh(io.juliet, item.channel, item.payload);
      LockIfLong(r.result.value, io.juliet.mfs);
    }
  }

  /**
   * A response, on a channel that exists: it may have to wait, its request may be gone, its payload may
   * be too large, which nevertheless forgets the request; otherwise its message is queued.
   */
  lemma ResponseOutcome(io: IoState, item: QueuedItem)
    requires io.Valid() && item.Valid() && item.QueuedResponse? && io.juliet.Knows(item.channel)
    ensures item.channel < |io.waitQueue| && item.channel < |io.activeMultiFrame|
    ensures var r, c, ch := HandleIncomingItem(io, item), item.channel, io.juliet.channels[item.channel];
      if !MayGoOut(io, item) then
        r == Handled(io.(waitQueue := io.waitQueue[c := io.waitQueue[c] + [item]]), Ok(()))
      else if item.id !in ch.incoming then r == Handled(io, Ok(()))
      else if TooLarge(item.payload, ch.config.maxResponsePayloadSize) then
        && Becomes(io.juliet, r.state.juliet, c, ch.(incoming := ch.incoming - {item.id}))
        && r.state == io.(juliet := r.state.juliet)
        && r.result == Err(LocalViolation(PayloadExceedsLimit(|item.payload.value|, ch.config.maxRequestPayloadSize)))
      else
        var kind := if item.payload.Some? then ResponsePl else Response;
        && r.result == Ok(())
        && Becomes(io.juliet, r.state.juliet, c, ch.(incoming := ch.incoming - {item.id}))
        && Queues(io, r.state, OutgoingMessage(Frame(kind, c, item.id), item.payload))
        && r.state.requestMap == io.requestMap
  {
    hide FrameIter.AllFrames; hide MayGoOut; hide ItemShouldWait;
    WaitsExactly(io, item);
    Shapes(io);
    var r := CreateResponse(io.juliet, item.channel, item.id, item.payload);
    if r.result.Ok? && r.result.value.Some? { LockIfLong(r.result.value.value, io.juliet.mfs); }
    hide IoState.Valid;
  }

  /** The cancellation of a response: it never waits, and is queued if the request has not been answered. */
  lemma ResponseCancellationOutcome(io: IoState, channel: ChannelId, id: Id)
    requires io.Valid()
    ensures var r := HandleIncomingItem(io, QueuedResponseCancellation(channel, id));
      if !io.juliet.Knows(channel) then
        r == Handled(io, Err(LocalViolation(LocalProtocolViolation.InvalidChannel(channel, |io.juliet.channels|))))
      else if id !in io.juliet.channels[channel].incoming then r == Handled(io, Ok(()))
      else
        var ch := io.juliet.channels[channel];
        && r.result == Ok(())
        && Becomes(io.juliet, r.state.juliet, channel, ch.(incoming := ch.incoming - {id}))
        && var msg := OutgoingMessage(Frame(CancelResp, channel, id), None);
        r.state == io.(juliet := r.state.juliet, readyQueue := io.readyQueue + [msg.Frames()])
  {
    hide IoState.Valid;
  }

  /** The front of a wait queue is taken out exactly if it may go out; else it goes to the back. */
  lemma FrontOrBack(io: IoState, channel: ChannelId)
    requires io.Valid() && io.juliet.Knows(channel) && channel < |io.waitQueue| && io.waitQueue[channel] != []
    ensures var r, queue := ProcessFront(io, channel), io.waitQueue[channel];
      && queue[0].Valid() && (queue[0].QueuedRequest? || queue[0].QueuedResponse?) && queue[0].channel == channel
      && |r.state.waitQueue| == |io.waitQueue|
      && (MayGoOut(io, queue[0]) <==> r.state.waitQueue[channel] == queue[1..])
      && (!MayGoOut(io, queue[0]) ==>
            r == Handled(io.(waitQueue := io.waitQueue[channel := queue[1..] + [queue[0]]]), Ok(false)))
      && (MayGoOut(io, queue[0]) && r.result.Ok? ==>
            (r.result.value <==> |r.state.juliet.channels[channel].outgoing| >=
                                 r.state.juliet.channels[channel].config.requestLimit))
  {
    hide MayGoOut; hide SendToReadyQueue; hide ItemShouldWait;
    QueuedIsValid(io, channel);
    Shapes(io);
    var item := io.waitQueue[channel][0];
    var popped := SetQueue(io, channel, io.waitQueue[channel][1..]);
    WaitsExactly(io, item);
    SendIgnoresQueues(popped, item, popped.waitQueue);
    hide IoState.Valid;
  }

  // ---------------------------------------------------------------- what is left behind

  /** No request that may go out is left in a queue and, if there is room for requests, nothing that may. */
  ghost predicate NoneLeft(io: IoState, c: ChannelId)
    requires io.Valid() && io.juliet.Knows(c) && c < |io.waitQueue|
  {
    var ch := io.juliet.channels[c];
    forall item :: item in io.waitQueue[c] ==>
      && item.Valid() && (item.QueuedRequest? || item.QueuedResponse?) && item.channel == c
      && (item.QueuedRequest? || |ch.outgoing| < ch.config.requestLimit ==> !MayGoOut(io, item))
  }

  lemma ProcessedLeavesNone(io: IoState, c: ChannelId)
    requires io.Valid() && io.juliet.Knows(c) && ProcessWaitQueue(io, c).result.Ok?
    ensures c < |ProcessWaitQueue(io, c).state.waitQueue|
    ensures NoneLeft(ProcessWaitQueue(io, c).state, c)
  {
    hide ProcessWaitQueue; hide AmountsTo; hide Taken; hide MayGoOut;
    ProcessWaitQueueConserves(io, c);
    var r := ProcessWaitQueue(io, c).state;
    Shapes(r);
    QueuedOn(r, c);
    hide IoState.Valid;
  }

  lemma QueuedOn(io: IoState, c: ChannelId)
    requires io.Valid() && io.juliet.Knows(c) && c < |io.waitQueue|
    ensures forall item :: item in io.waitQueue[c] ==>
              item.Valid() && (item.QueuedRequest? || item.QueuedResponse?) && item.channel == c
  {
    assert io.Waiting(c, io.waitQueue[c]);
  }

  /**
   * A frame that has been written out: an error ends the connection; else nothing is left behind in the
   * queue of its channel that may go out, and with an empty queue only the lock may have been released.
   */
  lemma FrameSentOutcome(io: IoState)
    requires io.Valid() && io.currentFrame.Some?
    ensures var r, h, c := FrameSent(io), io.currentFrame.value.0.header, io.currentFrame.value.0.header.channel;
      && r.state.currentFrame.None? && r.state.juliet.Knows(c)
      && c < |io.activeMultiFrame| == |io.waitQueue| == |r.state.waitQueue|
      && (h.Error? ==> r.result == Err(RemoteProtocolViolation(h, None)))
      && (h.Frame? && r.result.Ok? ==> NoneLeft(r.state, c))
      && (h.Frame? && io.waitQueue[c] == [] ==>
            && r.result == Ok(())
            && r.state == io.(currentFrame := None,
                              activeMultiFrame := if io.currentFrame.value.1 && io.activeMultiFrame[c] == Some(h)
                                                  then io.activeMultiFrame[c := None] else io.activeMultiFrame))
  {
    hide NoneLeft;
    var h, cleared := io.currentFrame.value.0.header, Cleared(io);
    Shapes(io);
    Shapes(cleared);
    Shapes(FrameSent(io).state);
    if h.Frame? && FrameSent(io).result.Ok? { ProcessedLeavesNone(cleared, h.channel); }
    ProcessWaitingStep(cleared, h.channel, |cleared.waitQueue[h.channel]|);
    hide ProcessWaiting;
    StaysWithout(cleared, h.channel, |cleared.waitQueue[h.channel]|);
    hide IoState.Valid;
  }

  lemma {:induction false} StaysWithout(io: IoState, channel: ChannelId, remaining: nat)
    requires io.Valid() && io.juliet.Knows(channel) && io.currentFrame.None?
    ensures ProcessWaiting(io, channel, remaining).state.currentFrame.None?
    decreases remaining
  {
    hide SendToReadyQueue; hide IoState.Valid;
    Shapes(io);
    var queue := io.waitQueue[channel];
    if queue != [] && remaining > 0 {
      QueuedIsValid(io, channel);
      var item, popped := queue[0], SetQueue(io, channel, queue[1..]);
      var waits := ItemShouldWait(item, popped.juliet, popped.activeMultiFrame);
      hide ItemShouldWait;
      if waits.Ok? && waits.value.Some? {
        StaysWithout(SetQueue(io, channel, queue[1..] + [item]), channel, remaining - 1);
      } else if waits.Ok? {
        SendKeepsCurrent(popped, item);
        StaysWithout(SendToReadyQueue(popped, item).state, channel, remaining - 1);
      }
    }
  }

  lemma SendKeepsCurrent(io: IoState, item: QueuedItem)
    requires io.Valid() && item.Valid()
    ensures SendToReadyQueue(io, item).state.currentFrame == io.currentFrame
  {
    hide CreateRequest; hide CreateResponse; hide IoState.Valid;
  }

  /** When a response has been parsed, nothing that may go out is left behind on its channel either. */
  lemma ResponseLeavesNone(io: IoState, read: CompletedRead)
    requires io.Valid() && RequestIds.Finds(io, read) && read.ReceivedResponse? && ParseStep(io).result.Ok?
    ensures ParseStep(io).state.juliet.Knows(read.channel) && read.channel < |ParseStep(io).state.waitQueue|
    ensures NoneLeft(ParseStep(io).state, read.channel)
  {
    hide NoneLeft;
    ProcessIncomingReports(io.juliet, io.buffer);
    var found := RequestIds.Parsed(io);
    assert found.Valid();
    hide ProcessIncoming; hide ProcessWaitQueue; hide IoState.Valid;
    ProcessedLeavesNone(found, read.channel);
    var q := ProcessWaitQueue(found, read.channel).state;
    MapAside(q, ParseStep(io).state, read.channel);
  }

  lemma MapAside(io: IoState, n: IoState, c: ChannelId)
    requires io.Valid() && n.Valid() && n == io.(requestMap := n.requestMap)
    requires io.juliet.Knows(c) && c < |io.waitQueue| && NoneLeft(io, c)
    ensures NoneLeft(n, c)
  {
    hide FrameIter.AllFrames; hide IoState.Valid;
  }
}
