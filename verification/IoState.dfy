// The IO layer as functions on values: queues of items that wait and of messages that are ready, one
// multi-frame message per channel, and the mapping from local request ids to those on the wire. The
// class in IoCore.dfy implements these functions.
module IoState {
  import opened Types
  import opened Header
  import opened Message
  import opened Protocol

  /** A request id unique among all requests that the local endpoint ever makes. */
  type IoId = nat

  const USIZE_MAX: nat := 0xffff_ffff_ffff_ffff

  /** An item in the outgoing queue; requests get an id on the wire only when they leave it. */
  datatype QueuedItem =
    | QueuedRequest(channel: ChannelId, ioId: IoId, payload: Option<Bytes>)
    | QueuedRequestCancellation(ioId: IoId)
    | QueuedResponse(channel: ChannelId, id: Id, payload: Option<Bytes>)
    | QueuedResponseCancellation(channel: ChannelId, id: Id)
    | QueuedError(channel: ChannelId, id: Id, data: Bytes)
  {
    /** Payload lengths fit 32 bits. */
    ghost predicate Valid() {
      && ((QueuedRequest? || QueuedResponse?) && payload.Some? ==> |payload.value| < 0x1_0000_0000)
      && (QueuedError? ==> |data| < 0x1_0000_0000)
    }
  }

  datatype IoEvent =
    | RequestReceived(channel: ChannelId, id: Id, payload: Option<Bytes>)
    | RequestCancelled(channel: ChannelId, id: Id)
    | ResponseReceived(ioId: IoId, payload: Option<Bytes>)
    | CancellationResponseReceived(ioId: IoId)

  datatype CoreError =
    | RemoteReportedError(header: Header, data: Option<Bytes>)
    | RemoteProtocolViolation(header: Header, data: Option<Bytes>)
    | LocalViolation(violation: LocalProtocolViolation)
    | InternalError

  /** A bijective map, kept as its left-to-right half. */
  type RequestMap = map<IoId, (ChannelId, Id)>

  ghost predicate Bijective(m: RequestMap) {
    forall k, l :: k in m && l in m && m[k] == m[l] ==> k == l
  }

  /** Inserting a pair removes every pair that shares either half with it. */
  function Insert(m: RequestMap, ioId: IoId, wire: (ChannelId, Id)): RequestMap {
    (map l | l in m && m[l] != wire :: m[l])[ioId := wire]
  }

  /** Removes the pair with this right half, and returns its left half. */
  function RemoveByRight(m: RequestMap, wire: (ChannelId, Id)): (RequestMap, Option<IoId>)
    requires Bijective(m)
  {
    if wire in m.Values then
      assert exists l :: l in m && m[l] == wire;
      var l :| l in m && m[l] == wire;
      (m - {l}, Some(l))
    else (m, None)
  }

  datatype IoState = IoState(
    juliet: ProtocolState,
    buffer: Bytes,
    nextParseAt: nat,
    pendingError: Option<OutgoingFrame>,
    currentFrame: Option<(OutgoingFrame, bool)>,
    activeMultiFrame: seq<Option<Header>>,
    readyQueue: seq<FrameIter>,
    waitQueue: seq<seq<QueuedItem>>,
    requestMap: RequestMap)
  {
    /** There is a lock and a wait queue for every channel, and whatever is queued is well-formed. */
    ghost predicate Valid() {
      && juliet.Valid()
      && |activeMultiFrame| == |waitQueue| == |juliet.channels|
      && (forall it :: it in readyQueue ==> Queueable(it))
      && (currentFrame.Some? ==> Sendable(currentFrame.value.0.header))
      && (forall c :: 0 <= c < |waitQueue| ==> Waiting(c, waitQueue[c]))
      && Bijective(requestMap)
    }

    ghost predicate Queueable(it: FrameIter) {
      it.Valid() && Sendable(it.msg.header)
    }

    predicate Sendable(header: Header) {
      juliet.Knows(header.channel)
    }

    /** Only requests and responses ever wait, each in the queue of its own channel. */
    ghost predicate Waiting(c: nat, queue: seq<QueuedItem>) {
      forall item :: item in queue ==>
        item.Valid() && (item.QueuedRequest? || item.QueuedResponse?) && item.channel == c
    }

    /** The lock of a response's channel is looked up without a check of the channel. */
    predicate Indexable(item: QueuedItem) {
      item.QueuedResponse? ==> juliet.Knows(item.channel)
    }
  }

  /** Whether an item must stay in the wait queue of a channel for now. */
  function ItemShouldWait(item: QueuedItem, juliet: ProtocolState, active: seq<Option<Header>>)
    : (r: Result<Option<ChannelId>, LocalProtocolViolation>)
    requires item.Valid() && |active| == |juliet.channels|
    requires item.QueuedResponse? ==> juliet.Knows(item.channel)
    ensures r.Ok? && r.value.Some? ==>
              (item.QueuedRequest? || item.QueuedResponse?) && r.value.value == item.channel &&
                juliet.Knows(item.channel)
  {
    if item.QueuedRequest? && !juliet.Knows(item.channel) then
      Err(LocalProtocolViolation.InvalidChannel(item.channel, |juliet.channels|))
    else if item.QueuedRequest? && !juliet.channels[item.channel].AllowedToSendRequest() then Ok(Some(item.channel))
    else if !item.QueuedRequest? && !item.QueuedResponse? then Ok(None)
    else if active[item.channel].Some? && item.payload.Some?
            && PayloadIsMultiFrame(juliet.mfs, |item.payload.value|) then
      Ok(Some(item.channel))
    else Ok(None)
  }

  datatype Handled<+T> = Handled(state: IoState, result: Result<T, CoreError>)

  /** The number of channels never changes. */
  predicate SameShape(io: IoState, was: IoState) {
    |io.juliet.channels| == |was.juliet.channels| && io.juliet.mfs == was.juliet.mfs
  }

  function SetQueue(io: IoState, channel: ChannelId, queue: seq<QueuedItem>): IoState
    requires channel < |io.waitQueue|
  {
    io.(waitQueue := io.waitQueue[channel := queue])
  }

  function Enqueue(io: IoState, msg: OutgoingMessage): IoState
    requires msg.Valid()
  {
    io.(readyQueue := io.readyQueue + [msg.Frames()])
  }

  /** Queues a message, and locks its channel if it takes more than one frame. */
  function EnqueueLocking(io: IoState, channel: ChannelId, msg: OutgoingMessage): IoState
    requires msg.Valid() && channel < |io.activeMultiFrame|
  {
    var queued := Enqueue(io, msg);
    if msg.IsMultiFrame(io.juliet.mfs) then
      queued.(activeMultiFrame := io.activeMultiFrame[channel := Some(msg.header)])
    else queued
  }

  /** Drops all that was to be sent, in favour of an error. */
  function InjectError(io: IoState, err: OutgoingMessage): (r: IoState)
    requires io.Valid() && err.Valid()
    ensures r.Valid() && SameShape(r, io)
  {
    var frame := err.TruncateToSingleFrame(io.juliet.mfs).Frames().NextFrame(io.juliet.mfs);
    io.(nextParseAt := USIZE_MAX,
        buffer := [],
        readyQueue := [],
        requestMap := map[],
        waitQueue := seq(|io.waitQueue|, _ => []),
        pendingError := Some(frame))
  }

  function SendQueuedRequest(io: IoState, item: QueuedItem): (r: Handled<()>)
    requires io.Valid() && item.Valid() && item.QueuedRequest?
    ensures r.state.Valid() && SameShape(r.state, io)
  {
    var r := CreateRequest(io.juliet, item.channel, item.payload);
    if r.result.Err? then Handled(io, Err(LocalViolation(r.result.error)))
    else
      var msg := r.result.value;
      Handled(EnqueueLocking(io.(juliet := r.state,
                                 requestMap := Insert(io.requestMap, item.ioId, (item.channel, msg.header.id))),
                             item.channel, msg),
              Ok(()))
  }

  function SendQueuedResponse(io: IoState, item: QueuedItem): (r: Handled<()>)
    requires io.Valid() && item.Valid() && item.QueuedResponse?
    ensures r.state.Valid() && SameShape(r.state, io)
  {
    var r := CreateResponse(io.juliet, item.channel, item.id, item.payload);
    match r.result
    case Err(e) => Handled(io.(juliet := r.state), Err(LocalViolation(e)))
    case Ok(None) => Handled(io.(juliet := r.state), Ok(()))
    case Ok(Some(msg)) => Handled(EnqueueLocking(io.(juliet := r.state), item.channel, msg), Ok(()))
  }

  /** Moves an item to the ready queue, whether or not it should wait. */
  function SendToReadyQueue(io: IoState, item: QueuedItem): (r: Handled<()>)
    requires io.Valid() && item.Valid()
    ensures r.state.Valid() && SameShape(r.state, io)
  {
    match item
    case QueuedRequest(_, _, _) => SendQueuedRequest(io, item)
    case QueuedRequestCancellation(ioId) =>
      if ioId !in io.requestMap then Handled(io, Ok(()))
      else (
        var r := CancelRequest(io.juliet, io.requestMap[ioId].0, io.requestMap[ioId].1);
        match r.result
        case Err(e) => Handled(io, Err(LocalViolation(e)))
        case Ok(None) => Handled(io, Ok(()))
        case Ok(Some(msg)) => Handled(Enqueue(io, msg), Ok(()))
      )
    case QueuedResponse(_, _, _) => SendQueuedResponse(io, item)
    case QueuedResponseCancellation(channel, id) => (
      var r := CancelResponse(io.juliet, channel, id);
      match r.result
      case Err(e) => Handled(io, Err(LocalViolation(e)))
      case Ok(None) => Handled(io, Ok(()))
      case Ok(Some(msg)) => Handled(Enqueue(io.(juliet := r.state), msg), Ok(()))
    )
    case QueuedError(channel, id, data) => (
      var r := CustomError(io.juliet, channel, id, data);
      match r.result
      case Err(e) => Handled(io, Err(LocalViolation(e)))
      case Ok(msg) => Handled(InjectError(io, msg), Ok(()))
    )
  }

  /** Takes an item from the local endpoint. */
  function HandleIncomingItem(io: IoState, item: QueuedItem): (r: Handled<()>)
    requires io.Valid() && item.Valid() && io.Indexable(item)
    ensures r.state.Valid() && SameShape(r.state, io)
  {
    match ItemShouldWait(item, io.juliet, io.activeMultiFrame)
    case Err(e) => Handled(io, Err(LocalViolation(e)))
    case Ok(Some(channel)) =>
      Handled(SetQueue(io, channel, io.waitQueue[channel] + [item]), Ok(()))
    case Ok(None) => SendToReadyQueue(io, item)
  }

  /** The next frame of the message at the front of the ready queue becomes current. */
  function ReadyNextFrame(io: IoState): (r: IoState)
    requires io.Valid()
    ensures r.Valid() && SameShape(r, io)
  {
    if io.readyQueue == [] then io
    else
      var it, mfs := io.readyQueue[0], io.juliet.mfs;
      assert io.Queueable(io.readyQueue[0]);
      var back := if it.IsFinal(mfs) then [] else [it.Rest(mfs)];
      assert forall i :: i in io.readyQueue[1..] + back ==> i in io.readyQueue || (i in back && i.msg == it.msg);
      io.(readyQueue := io.readyQueue[1..] + back,
          currentFrame := Some((it.NextFrame(mfs), it.IsFinal(mfs))))
  }

  /** Looks at the front item of a wait queue: sends it, or puts it back to wait. Tells whether to stop. */
  function ProcessFront(io: IoState, channel: ChannelId): (r: Handled<bool>)
    requires io.Valid() && io.juliet.Knows(channel) && io.waitQueue[channel] != []
    ensures r.state.Valid() && SameShape(r.state, io)
  {
    var queue := io.waitQueue[channel];
    var item := queue[0];
    var popped := SetQueue(io, channel, queue[1..]);
    match ItemShouldWait(item, popped.juliet, popped.activeMultiFrame)
    case Err(e) => Handled(popped, Err(LocalViolation(e)))
    case Ok(Some(_)) => Handled(SetQueue(io, channel, queue[1..] + [item]), Ok(false))
    case Ok(None) =>
      var sent := SendToReadyQueue(popped, item);
      Handled(sent.state,
              if sent.result.Err? then Err(sent.result.error)
              else Ok(!sent.state.juliet.channels[channel].AllowedToSendRequest()))
  }

  /** Looks at up to `remaining` items of a wait queue, sending those that need not wait. */
  function ProcessWaiting(io: IoState, channel: ChannelId, remaining: nat): (r: Handled<()>)
    requires io.Valid() && io.juliet.Knows(channel)
    ensures r.state.Valid() && SameShape(r.state, io)
    decreases remaining
  {
    if io.waitQueue[channel] == [] || remaining == 0 then Handled(io, Ok(()))
    else
      var front := ProcessFront(io, channel);
      if front.result.Err? then Handled(front.state, Err(front.result.error))
      else if front.result.value then Handled(front.state, Ok(()))
      else ProcessWaiting(front.state, channel, remaining - 1)
  }

  /** Looks at every item of a wait queue once. */
  function ProcessWaitQueue(io: IoState, channel: ChannelId): (r: Handled<()>)
    requires io.Valid() && io.juliet.Knows(channel)
    ensures r.state.Valid() && SameShape(r.state, io)
  {
    ProcessWaiting(io, channel, |io.waitQueue[channel]|)
  }

  /** The current frame has gone, and with the last frame of its message the lock. */
  function Cleared(io: IoState): (r: IoState)
    requires io.Valid() && io.currentFrame.Some?
    ensures r.Valid() && SameShape(r, io)
  {
    var (frame, wasFinal) := io.currentFrame.value;
    var header, active := frame.header, io.activeMultiFrame;
    var released := wasFinal && active[header.channel] == Some(header);
    io.(currentFrame := None, activeMultiFrame := if released then active[header.channel := None] else active)
  }

  /** The pending error has been written out: it ends the connection, and says why. */
  function ErrorSent(io: IoState): (r: Handled<()>)
    requires io.Valid()
    ensures r.state.Valid() && SameShape(r.state, io)
  {
    if io.pendingError.None? then Handled(io, Ok(()))
    else
      var frame := io.pendingError.value;
      var data := if frame.header.IsError() && frame.header.errorKind == Other then Some(frame.segment) else None;
      Handled(io.(pendingError := None), Err(RemoteProtocolViolation(frame.header, data)))
  }

  /** The current frame has been written out. */
  function FrameSent(io: IoState): (r: Handled<()>)
    requires io.Valid()
    ensures r.state.Valid() && SameShape(r.state, io)
  {
    if io.currentFrame.None? then Handled(io, Ok(()))
    else
      var header := io.currentFrame.value.0.header;
      if header.IsError() then Handled(Cleared(io), Err(RemoteProtocolViolation(header, None)))
      else ProcessWaitQueue(Cleared(io), header.channel)
  }

  /** Turns a read into an event, giving local requests their local ids back. */
  function HandleCompletedRead(io: IoState, read: CompletedRead): (r: Handled<IoEvent>)
    requires io.Valid()
    ensures r.state.Valid() && SameShape(r.state, io)
  {
    match read
    case ErrorReceived(header, data) => Handled(io, Err(RemoteReportedError(header, data)))
    case NewRequest(channel, id, payload) => Handled(io, Ok(RequestReceived(channel, id, payload)))
    case RequestCancellation(channel, id) => Handled(io, Ok(RequestCancelled(channel, id)))
    case ReceivedResponse(channel, id, payload) =>
      var (m, ioId) := RemoveByRight(io.requestMap, (channel, id));
      Handled(io.(requestMap := m),
              if ioId.None? then Err(InternalError) else Ok(ResponseReceived(ioId.value, payload)))
    case ResponseCancellation(channel, id) =>
      var (m, ioId) := RemoveByRight(io.requestMap, (channel, id));
      Handled(io.(requestMap := m),
              if ioId.None? then Err(InternalError) else Ok(CancellationResponseReceived(ioId.value)))
  }

  /** Parses what has been read so far, unless it is known not to be enough. */
  function ParseStep(io: IoState): (r: Handled<Option<IoEvent>>)
    requires io.Valid()
    ensures r.state.Valid() && SameShape(r.state, io)
  {
    if io.nextParseAt > |io.buffer| then Handled(io, Ok(None))
    else
      var p := ProcessIncoming(io.juliet, io.buffer);
      ProcessIncomingReports(io.juliet, io.buffer);
      var next := io.(nextParseAt := 0, juliet := p.state, buffer := p.rest);
      match p.outcome
      case Incomplete(n) => Handled(next.(nextParseAt := |p.rest| + n), Ok(None))
      case Fatal(err) => Handled(InjectError(next, err), Ok(None))
      case Success(read) =>
        var q := if read.ReceivedResponse? then ProcessWaitQueue(next, read.channel) else Handled(next, Ok(()));
        if q.result.Err? then Handled(q.state, Err(q.result.error))
        else
          var h := HandleCompletedRead(q.state, read);
          Handled(h.state, if h.result.Err? then Err(h.result.error) else Ok(Some(h.result.value)))
  }
}
