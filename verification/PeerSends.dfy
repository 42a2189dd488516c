// Items that leave the wait queues, or never wait, are steps of one channel of the two-peer model.
module PeerSends {
  import opened Types
  import opened Header
  import opened Message
  import opened Protocol
  import opened IoState
  import opened Duplex
  import opened DuplexSteps
  import opened TwoPeers
  import WaitQueue

  /** A message has been queued on a channel, and the channel has a new state. */
  ghost predicate Queued(io: IoState, after: IoState, c: ChannelId, chan: ChannelState, msg: OutgoingMessage)
    requires io.Valid() && io.juliet.Knows(c)
  {
    && msg.Valid()
    && after == io.(juliet := io.juliet.(channels := io.juliet.channels[c := chan]),
                    readyQueue := io.readyQueue + [msg.Frames()],
                    activeMultiFrame :=
                      if msg.IsMultiFrame(io.juliet.mfs) then io.activeMultiFrame[c := Some(msg.header)]
                                        else io.activeMultiFrame,
                    requestMap := after.requestMap)
  }

  lemma QueuedMoves(p: Peer, after: IoState, c: ChannelId, chan: ChannelState, cancelled: set<Id>,
                    msg: OutgoingMessage, s: Setup)
    requires Sized(p, s) && s.Knows(c) && Queued(p.io, after, c, chan, msg) && after.Valid()
    requires msg.header.channel == c
    ensures var e := Push(Proj(p, c, s).(chan := chan, cancelled := cancelled), msg, s.At(c));
      Sized(With(p, after, c, e), s) && Moved(p, With(p, after, c, e), c, e, s)
  {
    hide IoState.Valid;
    var it := msg.Frames();
    forall d: ChannelId ensures Lane(after.readyQueue, d) == Lane(p.io.readyQueue, d) + (if d == c then [it] else []) {
      LaneAppend(p.io.readyQueue, [it], d);
      LaneOne(it, d);
    }
    hide Lane;
    WaitQueue.Shapes(p.io);
    WaitQueue.Shapes(after);
  }

  /** The wait queues have not changed, and one channel only, which still has all requests that are to be answered. */
  lemma StillPatient(p: Peer, n: Peer, c: ChannelId, d: ChannelId, s: Setup)
    requires Sized(p, s) && Sized(n, s) && s.Knows(c) && s.Knows(d) && Patient(p, d, s)
    requires n.io.waitQueue == p.io.waitQueue && (d != c ==> n.io.juliet.channels[d] == p.io.juliet.channels[d])
    requires d == c ==> AnswerIds(p.io.waitQueue[c]) <= multiset(Complete(n.io.juliet.channels[c]))
    ensures Patient(n, d, s)
  {
    hide Complete; hide AnswerIds;
  }

  lemma QueuedKeepsSound(p: Peer, n: Peer, after: IoState, c: ChannelId, chan: ChannelState, msg: OutgoingMessage,
                         s: Setup)
    requires Sound(p, s) && s.Knows(c) && Queued(p.io, after, c, chan, msg) && MapKnown(after.requestMap, s)
    requires msg.header.Frame? && msg.header.channel == c
    requires AnswerIds(p.io.waitQueue[c]) <= multiset(Complete(chan))
    requires Sized(n, s) && n == p.(io := after, history := n.history)
    ensures Sound(n, s)
  {
    hide IoState.Valid; hide Complete; hide AnswerIds; hide Patient;
    forall d: ChannelId | s.Knows(d) ensures Patient(n, d, s) {
      StillPatient(p, n, c, d, s);
    }
    hide CurrentIs;
  }

  /** What queueing a message on a channel keeps, once the channel has taken the step. */
  lemma QueuedKeepsGood(p: Peer, q: Peer, after: IoState, c: ChannelId, chan: ChannelState, cancelled: set<Id>,
                        msg: OutgoingMessage, s: Setup)
    requires Good(p, q, s) && s.Knows(c) && Queued(p.io, after, c, chan, msg) && after.Valid() &&
             MapKnown(after.requestMap, s)
    requires msg.header.Frame? && msg.header.channel == c
    requires AnswerIds(p.io.waitQueue[c]) <= multiset(Complete(chan))
    requires var e := Push(Proj(p, c, s).(chan := chan, cancelled := cancelled), msg, s.At(c));
      Inv(e, Proj(q, c, s), s.At(c))
    ensures var e := Push(Proj(p, c, s).(chan := chan, cancelled := cancelled), msg, s.At(c));
      Good(With(p, after, c, e), q, s)
  {
    hide IoState.Valid; hide Inv; hide Complete; hide Push; hide Flat; hide Framed; hide Patient;
    hide CurrentIs; hide Proj; hide AnswerIds;
    var e := Push(Proj(p, c, s).(chan := chan, cancelled := cancelled), msg, s.At(c));
    var n := With(p, after, c, e);
    QueuedMoves(p, after, c, chan, cancelled, msg, s);
    MovedLanes(p, n, q, c, e, s);
    hide Lanes; hide Moved;
    QueuedKeepsSound(p, n, after, c, chan, msg, s);
  }

  // ---------------------------------------------------------------- items

  /** The header of the answer that an item stands for. */
  function AnswerOf(item: QueuedItem): OutgoingMessage
    requires item.QueuedResponse? || item.QueuedResponseCancellation?
  {
    if item.QueuedResponseCancellation? then OutgoingMessage(Frame(CancelResp, item.channel, item.id), None)
    else OutgoingMessage(Frame(if item.payload.Some? then ResponsePl else Response, item.channel, item.id),
      item.payload)
  }

  /** The request is complete, and no answer to it waits. */
  ghost predicate Unanswered(p: Peer, c: ChannelId, id: Id, s: Setup)
    requires Sized(p, s) && s.Knows(c)
  {
    id in Complete(p.io.juliet.channels[c]) && id !in AnswerIds(p.io.waitQueue[c])
  }

  /** A request is cancelled at most once, and not while a message with its id is sent in several frames. */
  ghost predicate MayCancelOn(p: Peer, wire: (ChannelId, Id), s: Setup)
    requires Sized(p, s) && s.Knows(wire.0)
  {
    wire.1 in p.io.juliet.channels[wire.0].outgoing ==>
      wire.1 !in p.history[wire.0].cancelled && Undisturbed(Lane(p.io.readyQueue, wire.0), wire.1, s.At(wire.0))
  }

  /** What the local endpoint must heed when it hands over an item. */
  ghost predicate Honest(p: Peer, item: QueuedItem, s: Setup)
    requires Sized(p, s)
  {
    && item.Valid()
    && match item
    case QueuedRequest(c, _, _) => s.Knows(c) && SmallEnough(item, s.configs[c])
    case QueuedResponse(c, id, _) => s.Knows(c) && SmallEnough(item, s.configs[c]) && Unanswered(p, c, id, s)
    case QueuedResponseCancellation(c, id) => s.Knows(c) && Unanswered(p, c, id, s)
    case QueuedRequestCancellation(ioId) =>
      ioId in p.io.requestMap ==> s.Knows(p.io.requestMap[ioId].0) && MayCancelOn(p, p.io.requestMap[ioId], s)
    case QueuedError(_, _, _) => false
  }

  /** Nothing keeps the item from being sent now. */
  predicate NeedNotWait(io: IoState, item: QueuedItem)
    requires item.Valid() && (item.QueuedRequest? || item.QueuedResponse?)
    requires io.juliet.Knows(item.channel) && |io.activeMultiFrame| == |io.juliet.channels|
  {
    ItemShouldWait(item, io.juliet, io.activeMultiFrame) == Ok(None)
  }

  /** The peer after an item has been sent. */
  ghost function Sent(p: Peer, item: QueuedItem, s: Setup): Peer
    requires Sized(p, s) && Honest(p, item, s)
  {
    var io := SendToReadyQueue(p.io, item).state;
    match item
    case QueuedRequest(c, _, payload) => With(p, io, c, SendRequest(Proj(p, c, s), payload, s.At(c)))
    case QueuedRequestCancellation(ioId) =>
      if ioId in p.io.requestMap &&
        p.io.requestMap[ioId].1 in p.io.juliet.channels[p.io.requestMap[ioId].0].outgoing then
        var (c, id) := p.io.requestMap[ioId];
        With(p, io, c, SendCancel(Proj(p, c, s), id, s.At(c)))
      else p.(io := io)
    case QueuedResponse(c, _, _) => With(p, io, c, SendAnswer(Proj(p, c, s), AnswerOf(item), s.At(c)))
    case QueuedResponseCancellation(c, _) => With(p, io, c, SendAnswer(Proj(p, c, s), AnswerOf(item), s.At(c)))
  }

  lemma RequestIsQueued(p: Peer, item: QueuedItem, s: Setup)
    requires Sized(p, s) && item.Valid() && item.QueuedRequest? && s.Knows(item.channel) &&
             SmallEnough(item, s.configs[item.channel])
    requires p.io.juliet.channels[item.channel].config == s.configs[item.channel]
    requires |p.io.activeMultiFrame| == |p.io.juliet.channels| && NeedNotWait(p.io, item)
    ensures var r, c := SendToReadyQueue(p.io, item), item.channel;
      var (chan, msg) := p.io.juliet.channels[c].CreateUncheckedRequest(c, item.payload);
      && r.result.Ok? && Queued(p.io, r.state, c, chan, msg)
      && chan.incoming == p.io.juliet.channels[c].incoming && chan.receiver == p.io.juliet.channels[c].receiver
      && msg.header.Frame? && msg.header.channel == c
      && (MapKnown(p.io.requestMap, s) ==> MapKnown(r.state.requestMap, s))
      && MayRequest(Proj(p, c, s), item.payload, s.At(c))
  {
    hide NextId; hide IoState.Valid;
  }

  lemma RequestKeepsGood(p: Peer, q: Peer, item: QueuedItem, s: Setup)
    requires Good(p, q, s) && Honest(p, item, s) && item.QueuedRequest? && p.io.juliet.Knows(item.channel)
    requires |p.io.activeMultiFrame| == |p.io.juliet.channels| && NeedNotWait(p.io, item)
    ensures SendToReadyQueue(p.io, item).result.Ok? && Good(Sent(p, item, s), q, s)
  {
    var c := item.channel;
    var g, e := s.At(c), Proj(p, c, s);
    assert Inv(e, Proj(q, c, s), g) && Patient(p, c, s);
    assert e.chan.config == s.configs[c];
    hide Inv; hide IoState.Valid; hide Good; hide NeedNotWait; hide Patient;
    RequestIsQueued(p, item, s);
    hide SendToReadyQueue; hide ChannelState.CreateUncheckedRequest; hide MayRequest; hide Push; hide Proj;
    hide Queued;
    RequestKeepsInv(e, Proj(q, c, s), item.payload, g);
    var (chan, msg) := p.io.juliet.channels[c].CreateUncheckedRequest(c, item.payload);
    QueuedKeepsGood(p, q, SendToReadyQueue(p.io, item).state, c, chan, p.history[c].cancelled, msg, s);
  }

  lemma AnswerIsQueued(p: Peer, item: QueuedItem, s: Setup)
    requires Sized(p, s) && Honest(p, item, s) && (item.QueuedResponse? || item.QueuedResponseCancellation?)
    requires p.io.juliet.channels[item.channel].config == s.configs[item.channel]
    requires |p.io.activeMultiFrame| == |p.io.juliet.channels| && (item.QueuedResponse? ==> NeedNotWait(p.io, item))
    ensures var r, c, msg := SendToReadyQueue(p.io, item), item.channel, AnswerOf(item);
      var chan := p.io.juliet.channels[c].(incoming := p.io.juliet.channels[c].incoming - {item.id});
      && r.result.Ok? && Queued(p.io, r.state, c, chan, msg) && r.state.requestMap == p.io.requestMap
      && MayAnswer(Proj(p, c, s), msg, s.At(c))
  {
    hide IoState.Valid; hide AnswerIds;
  }

  lemma AnswerLeavesOthers(ch: ChannelState, id: Id, waiting: multiset<Id>)
    requires waiting <= multiset(Complete(ch)) && id !in waiting
    ensures waiting <= multiset(Complete(ch.(incoming := ch.incoming - {id})))
  {
    var after := Complete(ch.(incoming := ch.incoming - {id}));
    assert after == Complete(ch) - {id};
  }

  lemma AnswerKeepsGood(p: Peer, q: Peer, item: QueuedItem, s: Setup)
    requires Good(p, q, s) && Honest(p, item, s) && (item.QueuedResponse? || item.QueuedResponseCancellation?)
    requires |p.io.activeMultiFrame| == |p.io.juliet.channels| && (item.QueuedResponse? ==> NeedNotWait(p.io, item))
    ensures SendToReadyQueue(p.io, item).result.Ok? && Good(Sent(p, item, s), q, s)
  {
    var c, msg := item.channel, AnswerOf(item);
    var g, e := s.At(c), Proj(p, c, s);
    assert Inv(e, Proj(q, c, s), g) && Patient(p, c, s);
    assert e.chan.config == s.configs[c];
    hide Inv; hide IoState.Valid; hide Good; hide NeedNotWait; hide AnswerIds; hide Complete;
    AnswerIsQueued(p, item, s);
    AnswerLeavesOthers(e.chan, item.id, AnswerIds(p.io.waitQueue[c]));
    hide SendToReadyQueue; hide MayAnswer; hide Push; hide Queued;
    AnswerKeepsInv(e, Proj(q, c, s), msg, g);
    assert MapKnown(p.io.requestMap, s) by { GoodIsSound(p, q, s); }
    var chan := e.chan.(incoming := e.chan.incoming - {item.id});
    hide Proj;
    QueuedKeepsGood(p, q, SendToReadyQueue(p.io, item).state, c, chan, p.history[c].cancelled, msg, s);
  }

  lemma GoodIsSound(p: Peer, q: Peer, s: Setup)
    requires Good(p, q, s)
    ensures Sound(p, s) && Sound(q, s)
  {
  }

  lemma CancelIsQueued(p: Peer, item: QueuedItem, s: Setup)
    requires Sized(p, s) && Honest(p, item, s) && item.QueuedRequestCancellation?
    ensures SendToReadyQueue(p.io, item).result.Ok?
    ensures if item.ioId in p.io.requestMap &&
               p.io.requestMap[item.ioId].1 in p.io.juliet.channels[p.io.requestMap[item.ioId].0].outgoing then
        var (c, id) := p.io.requestMap[item.ioId];
        && Queued(p.io, SendToReadyQueue(p.io, item).state, c, p.io.juliet.channels[c], CancelMsg(id, s.At(c)))
        && SendToReadyQueue(p.io, item).state.requestMap == p.io.requestMap
        && MayCancel(Proj(p, c, s), id, s.At(c))
      else SendToReadyQueue(p.io, item).state == p.io
  {
    hide IoState.Valid; hide Undisturbed;
  }

  lemma CancelKeepsGood(p: Peer, q: Peer, item: QueuedItem, s: Setup)
    requires Good(p, q, s) && Honest(p, item, s) && item.QueuedRequestCancellation?
    ensures SendToReadyQueue(p.io, item).result.Ok? && Good(Sent(p, item, s), q, s)
  {
    CancelIsQueued(p, item, s);
    if item.ioId in p.io.requestMap &&
      p.io.requestMap[item.ioId].1 in p.io.juliet.channels[p.io.requestMap[item.ioId].0].outgoing {
      var (c, id) := p.io.requestMap[item.ioId];
      var g, e := s.At(c), Proj(p, c, s);
      assert Inv(e, Proj(q, c, s), g) && Patient(p, c, s);
      hide Inv; hide IoState.Valid; hide Good; hide AnswerIds; hide Complete; hide SendToReadyQueue;
      hide MayCancel; hide Push; hide Queued;
      CancelKeepsInv(e, Proj(q, c, s), id, g);
      assert MapKnown(p.io.requestMap, s) by { GoodIsSound(p, q, s); }
      QueuedKeepsGood(p, q, SendToReadyQueue(p.io, item).state, c, e.chan, p.history[c].cancelled + {id},
        CancelMsg(id, g), s);
    }
  }

  /** Sending an item that need not wait succeeds, and is a step that keeps everything. */
  lemma SendKeepsGood(p: Peer, q: Peer, item: QueuedItem, s: Setup)
    requires Good(p, q, s) && Honest(p, item, s)
    requires |p.io.activeMultiFrame| == |p.io.juliet.channels|
    requires item.QueuedRequest? || item.QueuedResponse? ==> p.io.juliet.Knows(item.channel) && NeedNotWait(p.io, item)
    ensures SendToReadyQueue(p.io, item).result.Ok? && Good(Sent(p, item, s), q, s)
  {
    assert !item.QueuedError?;
    hide Good; hide NeedNotWait; hide Honest; hide SendToReadyQueue; hide Sent;
    match item
    case QueuedRequest(_, _, _) => RequestKeepsGood(p, q, item, s);
    case QueuedResponse(_, _, _) => AnswerKeepsGood(p, q, item, s);
    case QueuedResponseCancellation(_, _) => AnswerKeepsGood(p, q, item, s);
    case QueuedRequestCancellation(_) => CancelKeepsGood(p, q, item, s);
  }
}
