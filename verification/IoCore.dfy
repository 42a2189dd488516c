// The IO layer as it is written: queues and locks are updated in place. Every method does what the
// function of the same name in `IoState` says.
module IoCore {
  import opened Types
  import opened Header
  import opened Message
  import opened Multiframe
  import opened Protocol
  import opened IoState
  import opened JulietProtocol
  import Spec = IoState
  import WaitQueue

  class IoCore {
    const juliet: JulietProtocol
    const buffer: BytesMut
    var nextParseAt: nat
    var pendingError: Option<OutgoingFrame>
    var currentFrame: Option<(OutgoingFrame, bool)>
    var activeMultiFrame: seq<Option<Header>>
    var readyQueue: seq<FrameIter>
    var waitQueue: seq<seq<QueuedItem>>
    var requestMap: RequestMap

    ghost function Repr(): set<object> {
      {this, buffer} + juliet.Repr
    }

    ghost predicate Separate() {
      {this, buffer} !! juliet.Repr
    }

    ghost function State(): IoState
      reads Repr()
    {
      IoState(juliet.State(), buffer.data, nextParseAt, pendingError, currentFrame, activeMultiFrame, readyQueue,
              waitQueue, requestMap)
    }

    ghost predicate Valid()
      reads Repr()
    {
      Separate() && juliet.Valid() && State().Valid()
    }

    constructor (configs: seq<ChannelConfiguration>, mfs: MaxFrameSize)
      requires |configs| <= 0x100
      ensures Valid() && fresh(Repr())
      ensures buffer.data == [] && nextParseAt == 0 && pendingError.None? && currentFrame.None? &&
              readyQueue == [] && requestMap == map[]
      ensures juliet.State() ==
              ProtocolState(seq(|configs|, c requires 0 <= c < |configs| => NewChannel(configs[c])), mfs)
      ensures forall c :: 0 <= c < |configs| ==> activeMultiFrame[c].None? && waitQueue[c] == []
    {
      juliet := new JulietProtocol(configs, mfs);
      buffer := new BytesMut();
      nextParseAt, pendingError, currentFrame, readyQueue, requestMap := 0, None, None, [], map[];
      activeMultiFrame := seq(|configs|, _ => None);
      waitQueue := seq(|configs|, _ => []);
      new;
      juliet.StateIsValid();
      hide ProtocolState.Valid;
    }

    method ItemShouldWait(item: QueuedItem) returns (r: Result<Option<ChannelId>, LocalProtocolViolation>)
      requires Valid() && item.Valid() && State().Indexable(item)
      ensures r == Spec.ItemShouldWait(item, juliet.State(), activeMultiFrame)
    {
      match item {
        case QueuedRequest(channel, _, _) =>
          var allowed := juliet.AllowedToSendRequest(channel);
          if allowed.Err? {
            return Err(allowed.error);
          }
          if !allowed.value {
            return Ok(Some(channel));
          }
        case QueuedResponse(_, _, _) =>
        case _ =>
          return Ok(None);
      }
      if activeMultiFrame[item.channel].Some? && item.payload.Some? {
        if PayloadIsMultiFrame(juliet.mfs, |item.payload.value|) {
          return Ok(Some(item.channel));
        }
      }
      return Ok(None);
    }

    method InjectError(err: OutgoingMessage)
      requires Valid() && err.Valid()
      modifies Repr()
      ensures Valid() && State() == Spec.InjectError(old(State()), err)
    {
      hide IoState.Valid; hide ProtocolState.Valid;
      nextParseAt := USIZE_MAX;
      buffer.data := [];
      readyQueue := [];
      requestMap := map[];
      for c := 0 to |waitQueue|
        invariant |waitQueue| == old(|waitQueue|)
        invariant forall d :: 0 <= d < c ==> waitQueue[d] == []
        modifies this`waitQueue
      {
        waitQueue := waitQueue[c := []];
      }
      var frame, _ := NextOwned(err.TruncateToSingleFrame(juliet.mfs).Frames(), juliet.mfs);
      pendingError := Some(frame);
      assert waitQueue == seq(|waitQueue|, _ => []);
      assert State() == Spec.InjectError(old(State()), err);
    }

    method Push(channel: ChannelId, msg: OutgoingMessage)
      requires msg.Valid() && channel < |activeMultiFrame|
      modifies this`readyQueue, this`activeMultiFrame
      ensures readyQueue == old(readyQueue) + [msg.Frames()]
      ensures activeMultiFrame ==
              if msg.IsMultiFrame(juliet.mfs) then old(activeMultiFrame)[channel := Some(msg.header)]
              else old(activeMultiFrame)
    {
      if msg.IsMultiFrame(juliet.mfs) {
        activeMultiFrame := activeMultiFrame[channel := Some(msg.header)];
      }
      readyQueue := readyQueue + [msg.Frames()];
    }

    method SendQueuedRequest(item: QueuedItem) returns (r: Result<(), CoreError>)
      requires Valid() && item.Valid() && item.QueuedRequest?
      modifies Repr()
      ensures Handled(State(), r) == Spec.SendQueuedRequest(old(State()), item) && Valid()
    {
      hide IoState.Valid; hide ProtocolState.Valid; hide NextId;
      WaitQueue.Shapes(State());
      var created := juliet.CreateRequest(item.channel, item.payload);
      if created.Err? {
        return Err(LocalViolation(created.error));
      }
      var msg := created.value;
      requestMap := Insert(requestMap, item.ioId, (item.channel, msg.header.id));
      Push(item.channel, msg);
      return Ok(());
    }

    method SendQueuedResponse(item: QueuedItem) returns (r: Result<(), CoreError>)
      requires Valid() && item.Valid() && item.QueuedResponse?
      modifies Repr()
      ensures Handled(State(), r) == Spec.SendQueuedResponse(old(State()), item) && Valid()
    {
      hide IoState.Valid; hide ProtocolState.Valid;
      WaitQueue.Shapes(State());
      var created := juliet.CreateResponse(item.channel, item.id, item.payload);
      if created.Err? {
        return Err(LocalViolation(created.error));
      }
      if created.value.Some? {
        Push(item.channel, created.value.value);
      }
      return Ok(());
    }

    /** Moves an item to the ready queue. */
    method SendToReadyQueue(item: QueuedItem) returns (r: Result<(), CoreError>)
      requires Valid() && item.Valid()
      modifies Repr()
      ensures Handled(State(), r) == Spec.SendToReadyQueue(old(State()), item) && Valid()
    {
      hide IoState.Valid; hide ProtocolState.Valid; hide Spec.SendQueuedRequest; hide Spec.SendQueuedResponse;
      match item
      case QueuedRequest(_, _, _) =>
        r := SendQueuedRequest(item);
      case QueuedRequestCancellation(ioId) =>
        if ioId !in requestMap {
          return Ok(());
        }
        var created := juliet.CancelRequest(requestMap[ioId].0, requestMap[ioId].1);
        if created.Err? {
          return Err(LocalViolation(created.error));
        }
        if created.value.Some? {
          readyQueue := readyQueue + [created.value.value.Frames()];
        }
        return Ok(());
      case QueuedResponse(_, _, _) =>
        r := SendQueuedResponse(item);
      case QueuedResponseCancellation(channel, id) =>
        var created := juliet.CancelResponse(channel, id);
        if created.Err? {
          return Err(LocalViolation(created.error));
        }
        if created.value.Some? {
          readyQueue := readyQueue + [created.value.value.Frames()];
        }
        return Ok(());
      case QueuedError(channel, id, data) =>
        var created := juliet.CustomError(channel, id, data);
        if created.Err? {
          return Err(LocalViolation(created.error));
        }
        InjectError(created.value);
        return Ok(());
    }

    /** Takes an item from the local endpoint. */
    method HandleIncomingItem(item: QueuedItem) returns (r: Result<(), CoreError>)
      requires Valid() && item.Valid() && State().Indexable(item)
      modifies Repr()
      ensures Handled(State(), r) == Spec.HandleIncomingItem(old(State()), item) && Valid()
    {
      hide IoState.Valid; hide ProtocolState.Valid; hide Spec.SendToReadyQueue; hide Spec.ItemShouldWait;
      WaitQueue.Shapes(State());
      var waits := ItemShouldWait(item);
      if waits.Err? {
        return Err(LocalViolation(waits.error));
      }
      if waits.value.Some? {
        var channel := waits.value.value;
        waitQueue := waitQueue[channel := waitQueue[channel] + [item]];
        return Ok(());
      }
      r := SendToReadyQueue(item);
    }

    /** The next frame in the ready queue becomes the current one; the rest of its message queues up again. */
    method ReadyNextFrame()
      requires Valid()
      modifies this
      ensures State() == Spec.ReadyNextFrame(old(State())) && Valid()
    {
      if readyQueue == [] {
        return;
      }
      assert State().Queueable(readyQueue[0]);
      hide IoState.Valid; hide ProtocolState.Valid;
      var item := readyQueue[0];
      readyQueue := readyQueue[1..];
      var frame, more := NextOwned(item, juliet.mfs);
      var isFinal := true;
      if more.Some? {
        readyQueue := readyQueue + [more.value];
        isFinal := false;
      }
      currentFrame := Some((frame, isFinal));
    }

    /** Sends the front item of a wait queue, or puts it back. Tells whether to look no further. */
    method ProcessFront(channel: ChannelId) returns (r: Result<bool, CoreError>)
      requires Valid() && juliet.Knows(channel) && |waitQueue| == |juliet.channels| && waitQueue[channel] != []
      modifies Repr()
      ensures Handled(State(), r) == Spec.ProcessFront(old(State()), channel) && Valid()
      ensures |waitQueue| == |juliet.channels|
    {
      hide IoState.Valid; hide ProtocolState.Valid; hide Spec.SendToReadyQueue; hide Spec.ItemShouldWait;
      WaitQueue.QueuedIsValid(State(), channel);
      WaitQueue.Shapes(Spec.ProcessFront(State(), channel).state);
      var item := waitQueue[channel][0];
      waitQueue := waitQueue[channel := waitQueue[channel][1..]];
      assert State() == SetQueue(old(State()), channel, old(waitQueue)[channel][1..]);
      var waits := ItemShouldWait(item);
      if waits.Err? {
        return Err(LocalViolation(waits.error));
      }
      if waits.value.Some? {
        waitQueue := waitQueue[channel := waitQueue[channel] + [item]];
        assert State() == SetQueue(old(State()), channel, old(waitQueue)[channel][1..] + [item]);
        return Ok(false);
      }
      var sent := SendToReadyQueue(item);
      if sent.Err? {
        return Err(sent.error);
      }
      var allowed := juliet.AllowedToSendRequest(channel);
      return Ok(!allowed.value);
    }

    /** Sends what need not wait any longer. Every item is looked at once at most. */
    method ProcessWaitQueue(channel: ChannelId) returns (r: Result<(), CoreError>)
      requires Valid() && juliet.Knows(channel)
      modifies Repr()
      ensures Handled(State(), r) == Spec.ProcessWaitQueue(old(State()), channel) && Valid()
    {
      hide IoState.Valid; hide ProtocolState.Valid; hide Spec.ProcessFront; hide ProcessWaiting;
      WaitQueue.Shapes(State());
      var remaining := |waitQueue[channel]|;
      while |waitQueue[channel]| > 0
        invariant Valid() && |waitQueue| == |juliet.channels|
        invariant remaining >= 0 && (remaining == 0 ==> waitQueue[channel] == [])
        invariant ProcessWaiting(State(), channel, remaining) ==
                  ProcessWaiting(old(State()), channel, |old(waitQueue)[channel]|)
        decreases remaining
      {
        WaitQueue.ProcessWaitingStep(State(), channel, remaining);
        var front := ProcessFront(channel);
        if front.Err? {
          return Err(front.error);
        }
        if front.value {
          return Ok(());
        }
        remaining := remaining - 1;
        WaitQueue.ProcessWaitingStep(State(), channel, remaining);
        if remaining == 0 {
          return Ok(());
        }
      }
      WaitQueue.ProcessWaitingStep(State(), channel, remaining);
      return Ok(());
    }

    /** The pending error has been written out. */
    method ErrorSent() returns (r: Result<(), CoreError>)
      requires Valid()
      modifies this`pendingError
      ensures Handled(State(), r) == Spec.ErrorSent(old(State())) && Valid()
    {
      hide IoState.Valid; hide ProtocolState.Valid;
      ghost var before := State();
      if pendingError.None? {
        return Ok(());
      }
      var frame := pendingError.value;
      var data := None;
      if frame.header.IsError() && frame.header.errorKind == Other {
        data := Some(frame.segment);
      }
      pendingError := None;
      assert State() == Spec.ErrorSent(before).state;
      return Err(RemoteProtocolViolation(frame.header, data));
    }

    /** The current frame has been written out. */
    method FrameSent() returns (r: Result<(), CoreError>)
      requires Valid()
      modifies Repr()
      ensures Handled(State(), r) == Spec.FrameSent(old(State())) && Valid()
    {
      if currentFrame.None? {
        return Ok(());
      }
      var (frame, wasFinal) := currentFrame.value;
      var header := frame.header;
      assert State().Sendable(header);
      hide Spec.ProcessWaitQueue; hide ProtocolState.Valid;
      currentFrame := None;
      if wasFinal && activeMultiFrame[header.channel] == Some(header) {
        activeMultiFrame := activeMultiFrame[header.channel := None];
      }
      if header.IsError() {
        return Err(RemoteProtocolViolation(header, None));
      }
      r := ProcessWaitQueue(header.channel);
    }

    /** Turns a read into an event. */
    method HandleCompletedRead(read: CompletedRead) returns (r: Result<IoEvent, CoreError>)
      requires Valid()
      modifies this`requestMap
      ensures Handled(State(), r) == Spec.HandleCompletedRead(old(State()), read) && Valid()
    {
      hide ProtocolState.Valid; hide RemoveByRight;
      assert Bijective(requestMap);
      hide IoState.Valid;
      match read
      case ErrorReceived(header, data) => return Err(RemoteReportedError(header, data));
      case NewRequest(channel, id, payload) => return Ok(RequestReceived(channel, id, payload));
      case RequestCancellation(channel, id) => return Ok(RequestCancelled(channel, id));
      case ReceivedResponse(channel, id, payload) =>
        var (m, ioId) := RemoveByRight(requestMap, (channel, id));
        requestMap := m;
        return if ioId.None? then Err(InternalError) else Ok(ResponseReceived(ioId.value, payload));
      case ResponseCancellation(channel, id) =>
        var (m, ioId) := RemoveByRight(requestMap, (channel, id));
        requestMap := m;
        return if ioId.None? then Err(InternalError) else Ok(CancellationResponseReceived(ioId.value));
    }

    /** Parses what has been read. */
    method ParseStep() returns (r: Result<Option<IoEvent>, CoreError>)
      requires Valid()
      modifies Repr()
      ensures Handled(State(), r) == Spec.ParseStep(old(State())) && Valid()
    {
      hide Protocol.ProcessIncoming; hide Spec.ProcessWaitQueue; hide Spec.HandleCompletedRead; hide Spec.InjectError;
      if nextParseAt > |buffer.data| {
        return Ok(None);
      }
      nextParseAt := 0;
      ProcessIncomingReports(juliet.State(), buffer.data);
      var outcome := juliet.ProcessIncoming(buffer);
      match outcome
      case Incomplete(n) =>
        nextParseAt := |buffer.data| + n;
        return Ok(None);
      case Fatal(err) =>
        InjectError(err);
        return Ok(None);
      case Success(read) =>
        if read.ReceivedResponse? {
          var processed := ProcessWaitQueue(read.channel);
          if processed.Err? {
            return Err(processed.error);
          }
        }
        var event := HandleCompletedRead(read);
        if event.Err? {
          return Err(event.error);
        }
        return Ok(Some(event.value));
    }
  }
}
