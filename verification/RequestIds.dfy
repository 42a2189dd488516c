// The mapping between local request ids and those on the wire. It is a bijection between the requests
// in the mapping and the requests under way, except that an identifier which has just been freed by a
// response may be given to a waiting request before the response is reported.
module RequestIds {
  import opened Types
  import opened Header
  import opened Message
  import opened Multiframe
  import opened Protocol
  import opened IoState
  import opened WaitQueue

  type Wire = (ChannelId, Id)

  /** The request is under way. */
  predicate UnderWay(p: ProtocolState, w: Wire) {
    p.Knows(w.0) && w.1 in p.channels[w.0].outgoing
  }

  ghost predicate Mapped(m: RequestMap, w: Wire) {
    exists l :: l in m && m[l] == w
  }

  /** The right side of the mapping is the set of requests under way, and those in `extra`. */
  ghost predicate MapIs(io: IoState, extra: set<Wire>) {
    forall w: Wire :: Mapped(io.requestMap, w) <==> UnderWay(io.juliet, w) || w in extra
  }

  /** The right side of the mapping is exactly the set of requests under way. */
  ghost predicate MapAgrees(io: IoState) {
    MapIs(io, {})
  }

  lemma InsertMaps(m: RequestMap, ioId: IoId, wire: Wire)
    requires Bijective(m) && ioId !in m
    ensures Bijective(Insert(m, ioId, wire))
    ensures forall w: Wire :: Mapped(Insert(m, ioId, wire), w) <==> Mapped(m, w) || w == wire
  {
    var n := Insert(m, ioId, wire);
    forall w: Wire ensures Mapped(n, w) <==> Mapped(m, w) || w == wire {
      if w == wire {
        assert n[ioId] == wire;
      } else if Mapped(m, w) {
        var l :| l in m && m[l] == w;
        assert n[l] == w;
      }
    }
  }

  lemma RemoveUnmaps(m: RequestMap, wire: Wire)
    requires Bijective(m)
    ensures var (n, l) := RemoveByRight(m, wire);
      && (Mapped(m, wire) <==> l.Some?)
      && (l.Some? ==> l.value in m && m[l.value] == wire)
      && Bijective(n)
      && (forall w: Wire :: Mapped(n, w) <==> Mapped(m, w) && w != wire)
  {
    var (n, l) := RemoveByRight(m, wire);
    if Mapped(m, wire) {
      assert wire in m.Values;
    }
    forall w: Wire ensures Mapped(n, w) <==> Mapped(m, w) && w != wire {
      if Mapped(m, w) && w != wire {
        var k :| k in m && m[k] == w;
        assert k in n && n[k] == w;
      }
    }
  }

  // ---------------------------------------------------------------- requests under way

  predicate IsAnswer(read: CompletedRead) {
    read.ReceivedResponse? || read.ResponseCancellation?
  }

  /** A read of an answer ends one request; no other frame does anything to the requests under way. */
  ghost predicate Ends(p: ProtocolState, q: ProtocolState, read: Option<CompletedRead>) {
    if read.Some? && IsAnswer(read.value) then
      && UnderWay(p, (read.value.channel, read.value.id))
      && (forall w: Wire :: UnderWay(q, w) <==> UnderWay(p, w) && w != (read.value.channel, read.value.id))
    else forall w: Wire :: UnderWay(q, w) <==> UnderWay(p, w)
  }

  lemma PassOutgoing(ch: ChannelState, header: Header, buffer: Bytes, mfs: MaxFrameSize)
    requires |buffer| >= SIZE && ch.receiver.Valid() && header.Frame?
    ensures var r := ChannelPass(ch, header, buffer, mfs);
      r.outcome.Success? ==>
        if r.outcome.value.Some? && IsAnswer(r.outcome.value.value) then
          var read := r.outcome.value.value;
          read.channel == header.channel && read.id in ch.outgoing && r.channel.outgoing == ch.outgoing - {read.id}
        else r.channel.outgoing == ch.outgoing
  {
    hide AcceptFrame;
  }

  lemma PassEnds(p: ProtocolState, buffer: Bytes)
    requires p.Valid() && Pass(p, buffer).outcome.Success?
    ensures Ends(p, Pass(p, buffer).state, Pass(p, buffer).outcome.value)
  {
    var header := Parse(buffer[..SIZE]).value;
    if header.Frame? {
      PassOutgoing(p.channels[header.channel], header, buffer, p.mfs);
    }
    hide ChannelPass; hide PassError; hide Parse;
  }

  lemma {:induction false} ProcessIncomingEnds(p: ProtocolState, buffer: Bytes)
    requires p.Valid()
    ensures var r := ProcessIncoming(p, buffer);
      && (r.outcome.Success? ==> Ends(p, r.state, Some(r.outcome.value)))
      && (r.outcome.Incomplete? ==> Ends(p, r.state, None))
    decreases |buffer|
  {
    var step := Pass(p, buffer);
    if step.outcome.Success? {
      PassEnds(p, buffer);
      if step.outcome.value.None? {
        ProcessIncomingEnds(step.state, buffer[step.consumed..]);
        var r := ProcessIncoming(step.state, buffer[step.consumed..]);
        assert ProcessIncoming(p, buffer) == r;
        hide Pass; hide ProcessIncoming; hide UnderWay;
        var read := if r.outcome.Success? then Some(r.outcome.value) else None;
        if !r.outcome.Fatal? { EndsTogether(p, step.state, r.state, read); }
      }
    }
    hide Pass;
  }

  lemma EndsTogether(p: ProtocolState, q: ProtocolState, r: ProtocolState, read: Option<CompletedRead>)
    requires Ends(p, q, None) && Ends(q, r, read)
    ensures Ends(p, r, read)
  {
    hide UnderWay;
    forall w: Wire ensures UnderWay(q, w) <==> UnderWay(p, w) {
    }
  }

  // ---------------------------------------------------------------- sending

  /** The local ids of waiting requests are unused and distinct. */
  ghost predicate Fresh(m: RequestMap, queue: seq<QueuedItem>) {
    && (forall i :: 0 <= i < |queue| && queue[i].QueuedRequest? ==> queue[i].ioId !in m)
    && (forall i, j :: 0 <= i < j < |queue| && queue[i].QueuedRequest? && queue[j].QueuedRequest? ==>
          queue[i].ioId != queue[j].ioId)
  }

  /**
   * A local id and the identifier that it had on the wire: the pair is in the mapping until the latter is
   * used again.
   */
  ghost predicate Held(io: IoState, entry: Option<(IoId, Wire)>) {
    entry.Some? ==>
      if UnderWay(io.juliet, entry.value.1) then entry.value.0 !in io.requestMap
      else entry.value.0 in io.requestMap && io.requestMap[entry.value.0] == entry.value.1
  }

  ghost predicate NotOf(entry: Option<(IoId, Wire)>, item: QueuedItem) {
    entry.Some? && item.QueuedRequest? ==> item.ioId != entry.value.0
  }

  /** What sending a request does to the requests under way and to the mapping. */
  lemma SendRequestMaps(io: IoState, item: QueuedItem)
    requires io.Valid() && item.Valid() && item.QueuedRequest?
    ensures var r := SendQueuedRequest(io, item);
      if r.result.Ok? then
        var w := (item.channel, r.state.juliet.channels[item.channel].prevRequestId);
        && r.state.requestMap == Insert(io.requestMap, item.ioId, w)
        && !UnderWay(io.juliet, w)
        && (forall v: Wire :: UnderWay(r.state.juliet, v) <==> UnderWay(io.juliet, v) || v == w)
      else r.state == io
  {
    var r := CreateRequest(io.juliet, item.channel, item.payload);
    if r.result.Ok? {
      CreateRequestIsFresh(io.juliet, item.channel, item.payload);
    }
    hide Insert; hide NextId;
  }

  /** Nothing but a request does anything to them. */
  lemma SendOtherMaps(io: IoState, item: QueuedItem)
    requires io.Valid() && item.Valid() && !item.QueuedError? && !item.QueuedRequest?
    ensures var r := SendToReadyQueue(io, item);
      && r.state.requestMap == io.requestMap
      && (forall v: Wire :: UnderWay(r.state.juliet, v) <==> UnderWay(io.juliet, v))
  {
  }

  lemma SendKeepsMap(io: IoState, item: QueuedItem, extra: set<Wire>, entry: Option<(IoId, Wire)>)
    requires io.Valid() && item.Valid() && !item.QueuedError?
    requires item.QueuedRequest? ==> item.ioId !in io.requestMap
    requires MapIs(io, extra) && Held(io, entry) && NotOf(entry, item)
    ensures MapIs(SendToReadyQueue(io, item).state, extra) && Held(SendToReadyQueue(io, item).state, entry)
  {
    if item.QueuedRequest? { SendRequestMaps(io, item); } else { SendOtherMaps(io, item); }
    var r := SendToReadyQueue(io, item);
    assert Bijective(io.requestMap);
    hide SendQueuedRequest; hide IoState.Valid; hide Mapped; hide UnderWay;
    if item.QueuedRequest? && r.result.Ok? {
      var w := (item.channel, r.state.juliet.channels[item.channel].prevRequestId);
      InsertMaps(io.requestMap, item.ioId, w);
    }
  }

  lemma SendKeepsFresh(io: IoState, item: QueuedItem, queue: seq<QueuedItem>)
    requires io.Valid() && item.Valid() && !item.QueuedError? && Fresh(io.requestMap, queue)
    requires forall i :: 0 <= i < |queue| ==> item.QueuedRequest? && queue[i].QueuedRequest? ==>
               queue[i].ioId != item.ioId
    ensures Fresh(SendToReadyQueue(io, item).state.requestMap, queue)
  {
    if item.QueuedRequest? { SendRequestMaps(io, item); } else { SendOtherMaps(io, item); }
    hide SendQueuedRequest; hide IoState.Valid; hide UnderWay;
  }

  lemma FreshTail(m: RequestMap, queue: seq<QueuedItem>)
    requires Fresh(m, queue) && queue != []
    ensures Fresh(m, queue[1..]) && Fresh(m, queue[1..] + [queue[0]])
  {
    var back := queue[1..] + [queue[0]];
    forall i, j | 0 <= i < j < |back| && back[i].QueuedRequest? && back[j].QueuedRequest?
      ensures back[i].ioId != back[j].ioId {
      if j == |queue| - 1 {
        assert back[i] == queue[i + 1] && back[j] == queue[0];
      } else {
        assert back[i] == queue[i + 1] && back[j] == queue[j + 1];
      }
    }
  }

  ghost predicate NoneOf(entry: Option<(IoId, Wire)>, queue: seq<QueuedItem>) {
    forall i :: 0 <= i < |queue| ==> NotOf(entry, queue[i])
  }

  ghost predicate Apart(queue: seq<QueuedItem>, other: seq<QueuedItem>) {
    forall i, j :: 0 <= i < |queue| && 0 <= j < |other| && queue[i].QueuedRequest? && other[j].QueuedRequest? ==>
      queue[i].ioId != other[j].ioId
  }

  /** What a wait queue, another one and the mapping must be like for requests to be sent from the first. */
  ghost predicate InStep(io: IoState, channel: ChannelId, other: seq<QueuedItem>, extra: set<Wire>,
                         entry: Option<(IoId, Wire)>)
    requires io.Valid() && io.juliet.Knows(channel)
  {
    && Fresh(io.requestMap, io.waitQueue[channel]) && NoneOf(entry, io.waitQueue[channel])
    && Fresh(io.requestMap, other) && Apart(io.waitQueue[channel], other)
    && MapIs(io, extra) && Held(io, entry)
  }

  lemma ApartTail(queue: seq<QueuedItem>, other: seq<QueuedItem>)
    requires Apart(queue, other) && queue != []
    ensures Apart(queue[1..], other) && Apart(queue[1..] + [queue[0]], other)
  {
  }

  lemma InStepRotates(io: IoState, channel: ChannelId, other: seq<QueuedItem>, extra: set<Wire>,
                      entry: Option<(IoId, Wire)>)
    requires io.Valid() && io.juliet.Knows(channel) && InStep(io, channel, other, extra, entry) &&
             io.waitQueue[channel] != []
    requires SetQueue(io, channel, io.waitQueue[channel][1..] + [io.waitQueue[channel][0]]).Valid()
    ensures InStep(SetQueue(io, channel, io.waitQueue[channel][1..] + [io.waitQueue[channel][0]]), channel, other,
            extra, entry)
  {
    FreshTail(io.requestMap, io.waitQueue[channel]);
    ApartTail(io.waitQueue[channel], other);
    hide IoState.Valid; hide Mapped; hide UnderWay; hide Fresh; hide NotOf; hide Apart;
  }

  lemma InStepSends(io: IoState, channel: ChannelId, other: seq<QueuedItem>, extra: set<Wire>,
                    entry: Option<(IoId, Wire)>)
    requires io.Valid() && io.juliet.Knows(channel) && InStep(io, channel, other, extra, entry) &&
             io.waitQueue[channel] != []
    requires var item := io.waitQueue[channel][0]; item.Valid() && (item.QueuedRequest? || item.QueuedResponse?)
    requires SetQueue(io, channel, io.waitQueue[channel][1..]).Valid()
    ensures InStep(SendToReadyQueue(SetQueue(io, channel, io.waitQueue[channel][1..]), io.waitQueue[channel][0]).state,
                    channel, other, extra, entry)
  {
    var queue := io.waitQueue[channel];
    var item, popped := queue[0], SetQueue(io, channel, queue[1..]);
    FreshTail(io.requestMap, queue);
    ApartTail(queue, other);
    SendIgnoresQueues(popped, item, popped.waitQueue);
    assert NotOf(entry, item);
    assert item.QueuedRequest? ==> item.ioId !in io.requestMap;
    hide IoState.Valid; hide Mapped; hide UnderWay; hide SendToReadyQueue; hide NotOf;
    SendKeepsMap(popped, item, extra, entry);
    SendKeepsFresh(popped, item, queue[1..]);
    SendKeepsFresh(popped, item, other);
    hide Fresh; hide Held; hide MapIs; hide Apart;
  }

  /** Processing a wait queue keeps the mapping in agreement, and what waits unused and distinct. */
  lemma {:induction false} ProcessWaitingKeepsMap(io: IoState, channel: ChannelId, remaining: nat,
                                                  other: seq<QueuedItem>,
                                                  extra: set<Wire>, entry: Option<(IoId, Wire)>)
    requires io.Valid() && io.juliet.Knows(channel) && InStep(io, channel, other, extra, entry)
    requires ProcessWaiting(io, channel, remaining).result.Ok?
    ensures InStep(ProcessWaiting(io, channel, remaining).state, channel, other, extra, entry)
    decreases remaining
  {
    hide InStep; hide SendToReadyQueue; hide IoState.Valid;
    Shapes(io);
    var queue := io.waitQueue[channel];
    if queue != [] && remaining > 0 {
      QueuedIsValid(io, channel);
      var item, popped := queue[0], SetQueue(io, channel, queue[1..]);
      var waits := ItemShouldWait(item, popped.juliet, popped.activeMultiFrame);
      if waits.Ok? && waits.value.Some? {
        InStepRotates(io, channel, other, extra, entry);
        ProcessWaitingKeepsMap(SetQueue(io, channel, queue[1..] + [item]), channel, remaining - 1, other, extra, entry);
      } else if waits.Ok? {
        InStepSends(io, channel, other, extra, entry);
        var sent := SendToReadyQueue(popped, item);
        if sent.state.juliet.channels[channel].AllowedToSendRequest() {
          ProcessWaitingKeepsMap(sent.state, channel, remaining - 1, other, extra, entry);
        }
      }
    }
  }

  // ---------------------------------------------------------------- which local ids are in use

  /** There is a request with this local id among the items. */
  ghost predicate Asks(items: seq<QueuedItem>, ioId: IoId) {
    exists i :: 0 <= i < |items| && items[i].QueuedRequest? && items[i].ioId == ioId
  }

  lemma AsksFront(items: seq<QueuedItem>, ioId: IoId)
    requires items != []
    ensures Asks(items, ioId) <==> (items[0].QueuedRequest? && items[0].ioId == ioId) || Asks(items[1..], ioId)
  {
    if Asks(items[1..], ioId) {
      var i :| 0 <= i < |items[1..]| && items[1..][i].QueuedRequest? && items[1..][i].ioId == ioId;
      assert items[i + 1] == items[1..][i];
    }
    if Asks(items, ioId) {
      var i :| 0 <= i < |items| && items[i].QueuedRequest? && items[i].ioId == ioId;
      assert i > 0 ==> items[1..][i - 1] == items[i];
    }
  }

  lemma AsksBack(items: seq<QueuedItem>, item: QueuedItem, ioId: IoId)
    ensures Asks(items + [item], ioId) <==> (item.QueuedRequest? && item.ioId == ioId) || Asks(items, ioId)
  {
    var all := items + [item];
    assert all[|items|] == item;
    if Asks(items, ioId) {
      var i :| 0 <= i < |items| && items[i].QueuedRequest? && items[i].ioId == ioId;
      assert all[i] == items[i];
    }
  }

  /** The mapping has all that it had, and besides it only local ids of requests that have left the queue. */
  ghost predicate Moves(m: RequestMap, queue: seq<QueuedItem>, n: RequestMap, rest: seq<QueuedItem>) {
    && (forall l :: l in m ==> l in n && n[l] == m[l])
    && (forall l :: l in n || Asks(rest, l) <==> l in m || Asks(queue, l))
  }

  /** Nothing among `extra` is under way. */
  ghost predicate NoneUnderWay(p: ProtocolState, extra: set<Wire>) {
    forall w :: w in extra ==> !UnderWay(p, w)
  }

  lemma {:induction false} ProcessWaitingStarts(io: IoState, channel: ChannelId, remaining: nat)
    requires io.Valid() && io.juliet.Knows(channel)
    ensures forall w :: UnderWay(io.juliet, w) ==> UnderWay(ProcessWaiting(io, channel, remaining).state.juliet, w)
    decreases remaining
  {
    hide SendToReadyQueue; hide IoState.Valid; hide UnderWay;
    Shapes(io);
    var queue := io.waitQueue[channel];
    if queue != [] && remaining > 0 {
      QueuedIsValid(io, channel);
      var item, popped := queue[0], SetQueue(io, channel, queue[1..]);
      var waits := ItemShouldWait(item, popped.juliet, popped.activeMultiFrame);
      hide ItemShouldWait;
      if waits.Ok? && waits.value.Some? {
        ProcessWaitingStarts(SetQueue(io, channel, queue[1..] + [item]), channel, remaining - 1);
      } else if waits.Ok? {
        SendStarts(popped, item);
        ProcessWaitingStarts(SendToReadyQueue(popped, item).state, channel, remaining - 1);
      }
    }
  }

  lemma SendStarts(io: IoState, item: QueuedItem)
    requires io.Valid() && item.Valid() && (item.QueuedRequest? || item.QueuedResponse?)
    ensures forall w :: UnderWay(io.juliet, w) ==> UnderWay(SendToReadyQueue(io, item).state.juliet, w)
  {
    hide IoState.Valid; hide UnderWay;
    if item.QueuedRequest? { SendRequestMaps(io, item); } else { SendOtherMaps(io, item); }
    hide SendQueuedRequest;
  }

  /** Sending one item moves its local id into the mapping. */
  lemma SendMoves(io: IoState, item: QueuedItem, extra: set<Wire>)
    requires io.Valid() && item.Valid() && (item.QueuedRequest? || item.QueuedResponse?)
    requires item.QueuedRequest? ==> item.ioId !in io.requestMap
    requires MapIs(io, extra) && SendToReadyQueue(io, item).result.Ok?
    requires NoneUnderWay(SendToReadyQueue(io, item).state.juliet, extra)
    ensures var m, n := io.requestMap, SendToReadyQueue(io, item).state.requestMap;
      && (forall l :: l in m ==> l in n && n[l] == m[l])
      && (forall l :: l in n <==> l in m || (item.QueuedRequest? && item.ioId == l))
  {
    hide IoState.Valid; hide UnderWay;
    if item.QueuedRequest? {
      SendRequestMaps(io, item);
      var r := SendQueuedRequest(io, item);
      hide SendQueuedRequest;
      var w := (item.channel, r.state.juliet.channels[item.channel].prevRequestId);
      assert !Mapped(io.requestMap, w);
      forall l | l in io.requestMap ensures io.requestMap[l] != w {
        assert Mapped(io.requestMap, io.requestMap[l]);
      }
    } else {
      SendOtherMaps(io, item);
    }
  }

  /** Sending the front item, and then what follows. */
  lemma MovesFirst(m: RequestMap, queue: seq<QueuedItem>, sent: RequestMap, n: RequestMap, rest: seq<QueuedItem>)
    requires queue != [] && Moves(sent, queue[1..], n, rest)
    requires forall l :: l in m ==> l in sent && sent[l] == m[l]
    requires forall l :: l in sent <==> l in m || (queue[0].QueuedRequest? && queue[0].ioId == l)
    ensures Moves(m, queue, n, rest)
  {
    hide Asks;
    forall l ensures l in n || Asks(rest, l) <==> l in m || Asks(queue, l) {
      AsksFront(queue, l);
    }
  }

  lemma MovesRotated(m: RequestMap, queue: seq<QueuedItem>, n: RequestMap, rest: seq<QueuedItem>)
    requires queue != [] && Moves(m, queue[1..] + [queue[0]], n, rest)
    ensures Moves(m, queue, n, rest)
  {
    hide Asks;
    forall l ensures l in n || Asks(rest, l) <==> l in m || Asks(queue, l) {
      AsksFront(queue, l);
      AsksBack(queue[1..], queue[0], l);
    }
  }

  lemma MovesNone(m: RequestMap, queue: seq<QueuedItem>)
    ensures Moves(m, queue, m, queue)
  {
  }

  /** What leaves a wait queue gets into the mapping, and nothing gets out of that. */
  lemma {:induction false} ProcessWaitingMoves(io: IoState, channel: ChannelId, remaining: nat, extra: set<Wire>)
    requires io.Valid() && io.juliet.Knows(channel) && InStep(io, channel, [], extra, None)
    requires ProcessWaiting(io, channel, remaining).result.Ok?
    requires NoneUnderWay(ProcessWaiting(io, channel, remaining).state.juliet, extra)
    ensures var r := ProcessWaiting(io, channel, remaining).state;
      Moves(io.requestMap, io.waitQueue[channel], r.requestMap, r.waitQueue[channel])
    decreases remaining
  {
    hide InStep; hide SendToReadyQueue; hide IoState.Valid; hide UnderWay; hide Moves;
    Shapes(io);
    Shapes(ProcessWaiting(io, channel, remaining).state);
    var queue := io.waitQueue[channel];
    MovesNone(io.requestMap, queue);
    if queue != [] && remaining > 0 {
      QueuedIsValid(io, channel);
      var item, popped := queue[0], SetQueue(io, channel, queue[1..]);
      var r := ProcessWaiting(io, channel, remaining).state;
      var waits := ItemShouldWait(item, popped.juliet, popped.activeMultiFrame);
      hide ItemShouldWait;
      if waits.Ok? && waits.value.Some? {
        InStepRotates(io, channel, [], extra, None);
        ProcessWaitingMoves(SetQueue(io, channel, queue[1..] + [item]), channel, remaining - 1, extra);
        MovesRotated(io.requestMap, queue, r.requestMap, r.waitQueue[channel]);
      } else if waits.Ok? {
        InStepSends(io, channel, [], extra, None);
        var sent := SendToReadyQueue(popped, item);
        SendIgnoresQueues(popped, item, popped.waitQueue);
        ProcessWaitingStarts(sent.state, channel, remaining - 1);
        FrontIsNew(io, channel, extra);
        SendMoves(popped, item, extra);
        MovesNone(sent.state.requestMap, queue[1..]);
        if sent.state.juliet.channels[channel].AllowedToSendRequest() {
          ProcessWaitingMoves(sent.state, channel, remaining - 1, extra);
        }
        MovesFirst(io.requestMap, queue, sent.state.requestMap, r.requestMap, r.waitQueue[channel]);
      }
    }
  }

  lemma FrontIsNew(io: IoState, channel: ChannelId, extra: set<Wire>)
    requires io.Valid() && io.juliet.Knows(channel) && InStep(io, channel, [], extra, None) &&
             io.waitQueue[channel] != []
    ensures io.waitQueue[channel][0].QueuedRequest? ==> io.waitQueue[channel][0].ioId !in io.requestMap
    ensures SetQueue(io, channel, io.waitQueue[channel][1..]).Valid()
    ensures MapIs(SetQueue(io, channel, io.waitQueue[channel][1..]), extra)
  {
    QueuedIsValid(io, channel);
    hide IoState.Valid; hide Mapped; hide UnderWay;
  }

  // ---------------------------------------------------------------- answers

  /** The state once the parser has found an answer, before anything else is done about it. */
  function Parsed(io: IoState): IoState
    requires io.Valid()
  {
    var p := ProcessIncoming(io.juliet, io.buffer);
    io.(nextParseAt := 0, juliet := p.state, buffer := p.rest)
  }

  /** The parser is due, and what it finds is this. */
  predicate Finds(io: IoState, read: CompletedRead)
    requires io.Valid()
  {
    io.nextParseAt <= |io.buffer| && ProcessIncoming(io.juliet, io.buffer).outcome == Success(read)
  }

  lemma FoundAnswer(io: IoState, read: CompletedRead, l: IoId)
    requires io.Valid() && MapAgrees(io) && Finds(io, read) && IsAnswer(read)
    requires l in io.requestMap && io.requestMap[l] == (read.channel, read.id)
    ensures Parsed(io).Valid() && Parsed(io).juliet.Knows(read.channel)
    ensures MapIs(Parsed(io), {(read.channel, read.id)})
    ensures Held(Parsed(io), Some((l, (read.channel, read.id))))
  {
    ProcessIncomingEnds(io.juliet, io.buffer);
    ProcessIncomingReports(io.juliet, io.buffer);
    hide ProcessIncoming; hide Mapped;
  }

  /** An answer is for a request that was made. */
  lemma AnswerHasAsker(io: IoState, read: CompletedRead)
    requires io.Valid() && MapAgrees(io) && Finds(io, read) && IsAnswer(read)
    ensures io.juliet.Knows(read.channel)
    ensures exists l :: l in io.requestMap && io.requestMap[l] == (read.channel, read.id)
  {
    ProcessIncomingEnds(io.juliet, io.buffer);
    hide ProcessIncoming;
    assert Mapped(io.requestMap, (read.channel, read.id));
  }

  /** The event that tells the one who made a request of the answer. */
  function Report(l: IoId, read: CompletedRead): IoEvent
    requires IsAnswer(read)
  {
    if read.ReceivedResponse? then ResponseReceived(l, read.payload) else CancellationResponseReceived(l)
  }

  lemma ReportRemoves(io: IoState, read: CompletedRead, l: IoId)
    requires io.Valid() && IsAnswer(read)
    requires MapIs(io, {(read.channel, read.id)}) && Held(io, Some((l, (read.channel, read.id))))
    ensures var r, w := HandleCompletedRead(io, read), (read.channel, read.id);
      && r.result.Ok?
      && (r.result.value == Report(l, read) <==> !UnderWay(io.juliet, w))
      && (MapAgrees(r.state) <==> !UnderWay(io.juliet, w))
  {
    var w := (read.channel, read.id);
    RemoveUnmaps(io.requestMap, w);
    hide IoState.Valid; hide UnderWay; hide Mapped; hide RemoveByRight;
    var r := HandleCompletedRead(io, read);
    var (n, k) := RemoveByRight(io.requestMap, w);
    assert r.state == io.(requestMap := n);
    assert Mapped(io.requestMap, w);
    assert forall v: Wire :: Mapped(n, v) <==> (UnderWay(io.juliet, v) && v != w);
    assert UnderWay(io.juliet, w) ==> !MapAgrees(r.state);
  }

  // ---------------------------------------------------------------- when an identifier is used again

  /** How many identifiers from `d` to `end` places after `prev` are free, `end` excluded. */
  function FreeFrom(used: set<Id>, prev: Id, d: nat, end: nat): nat
    decreases end - d
  {
    if d >= end then 0 else (if CyclicAdd(prev, d) !in used then 1 else 0) + FreeFrom(used, prev, d + 1, end)
  }

  /** The place of `id` after `prev`. */
  function PlaceOf(prev: Id, id: Id): (d: nat)
    ensures 1 <= d <= ID_SPACE && CyclicAdd(prev, d) == id
  {
    if id > prev then id - prev else id - prev + ID_SPACE
  }

  /** How many free identifiers will be given out before `id`. */
  function FreeBefore(used: set<Id>, prev: Id, id: Id): nat {
    FreeFrom(used, prev, 1, PlaceOf(prev, id))
  }

  lemma {:induction false} FreeFromSkip(used: set<Id>, prev: Id, d: nat, e: nat, end: nat)
    requires d <= e <= end && forall k :: d <= k < e ==> CyclicAdd(prev, k) in used
    ensures FreeFrom(used, prev, d, end) == FreeFrom(used, prev, e, end)
    decreases e - d
  {
    if d < e { FreeFromSkip(used, prev, d + 1, e, end); }
  }

  lemma {:induction false} FreeFromShift(used: set<Id>, prev: Id, e: nat, d: nat, end: nat)
    requires 1 <= e && 1 <= d && e + end <= ID_SPACE
    ensures FreeFrom(used + {CyclicAdd(prev, e)}, CyclicAdd(prev, e), d, end) == FreeFrom(used, prev, e + d, e + end)
    decreases end - d
  {
    if d < end {
      FreeFromShift(used, prev, e, d + 1, end);
      CyclicTwice(prev, e, d);
      hide CyclicAdd;
    }
  }

  lemma CyclicTwice(prev: Id, e: nat, d: nat)
    requires 1 <= d < ID_SPACE
    ensures CyclicAdd(CyclicAdd(prev, e), d) == CyclicAdd(prev, e + d) != CyclicAdd(prev, e)
  {
  }

  lemma PlaceShift(prev: Id, id: Id, e: nat)
    requires 1 <= e < PlaceOf(prev, id)
    ensures CyclicAdd(prev, e) != id && PlaceOf(CyclicAdd(prev, e), id) == PlaceOf(prev, id) - e
  {
  }

  /** The first of the free identifiers is given out: either `id`, or one of those before it. */
  lemma FirstOfFree(used: set<Id>, prev: Id, id: Id)
    requires |used| < ID_SPACE && id !in used
    ensures var next := NextId(used, prev);
      if FreeBefore(used, prev, id) == 0 then next == id
      else next != id && FreeBefore(used + {next}, next, id) == FreeBefore(used, prev, id) - 1
  {
    NextIdIsNextFree(used, prev);
    var e, place, next := Distance(used, prev, 1), PlaceOf(prev, id), NextId(used, prev);
    hide CyclicAdd; hide Distance;
    if e < place {
      FreeFromSkip(used, prev, 1, e, place);
      FreeFromShift(used, prev, e, 1, place - e);
      PlaceShift(prev, id, e);
      hide PlaceOf;
    } else {
      assert CyclicAdd(prev, place) !in used;
      FreeFromSkip(used, prev, 1, place, place);
    }
  }

  function Requests(items: seq<QueuedItem>): nat {
    if items == [] then 0 else (if items[0].QueuedRequest? then 1 else 0) + Requests(items[1..])
  }

  lemma SendReuses(io: IoState, item: QueuedItem)
    requires io.Valid() && item.Valid() && (item.QueuedRequest? || item.QueuedResponse?) &&
             io.juliet.Knows(item.channel)
    requires SendToReadyQueue(io, item).result.Ok?
    ensures var ch := io.juliet.channels[item.channel];
      var r := SendToReadyQueue(io, item).state.juliet.channels[item.channel];
      if item.QueuedRequest? then
        && |ch.outgoing| < ID_SPACE
        && r.prevRequestId == NextId(ch.outgoing, ch.prevRequestId) && r.outgoing == ch.outgoing + {r.prevRequestId}
      else r.prevRequestId == ch.prevRequestId && r.outgoing == ch.outgoing
  {
    hide NextId;
  }

  ghost predicate AllOn(items: seq<QueuedItem>, channel: ChannelId) {
    forall item :: item in items ==>
      item.Valid() && (item.QueuedRequest? || item.QueuedResponse?) && item.channel == channel
  }

  lemma {:induction false} SendAllReuses(io: IoState, items: seq<QueuedItem>, channel: ChannelId, id: Id)
    requires io.Valid() && io.juliet.Knows(channel) && AllOn(items, channel) && SendAll(io, items).result.Ok?
    ensures SendAll(io, items).state.juliet.Knows(channel)
    ensures var ch, r := io.juliet.channels[channel], SendAll(io, items).state.juliet.channels[channel];
      id in r.outgoing <==> id in ch.outgoing || FreeBefore(ch.outgoing, ch.prevRequestId, id) < Requests(items)
    decreases |items|
  {
    hide SendToReadyQueue; hide IoState.Valid; hide FreeBefore; hide NextId;
    if items != [] {
      var item, ch := items[0], io.juliet.channels[channel];
      assert item in items;
      SendReuses(io, item);
      SendAllReuses(SendToReadyQueue(io, item).state, items[1..], channel, id);
      if item.QueuedRequest? && id !in ch.outgoing {
        FirstOfFree(ch.outgoing, ch.prevRequestId, id);
      }
    }
  }

  /**
   * The identifier of an answered request is used again, before the answer is reported, exactly if
   * more requests leave the wait queue than there are free identifiers before it.
   */
  lemma ReusedExactly(io: IoState, channel: ChannelId, id: Id)
    requires io.Valid() && io.juliet.Knows(channel) && id !in io.juliet.channels[channel].outgoing
    requires ProcessWaitQueue(io, channel).result.Ok?
    ensures UnderWay(ProcessWaitQueue(io, channel).state.juliet, (channel, id)) <==>
              FreeBefore(io.juliet.channels[channel].outgoing, io.juliet.channels[channel].prevRequestId, id)
                < Requests(Taken(io, channel, |io.waitQueue[channel]|))
  {
    var taken := Taken(io, channel, |io.waitQueue[channel]|);
    ProcessWaitQueueConserves(io, channel);
    hide IoState.Valid; hide ProcessWaitQueue; hide Taken; hide FreeBefore; hide Requests; hide SendAll;
    SendAllReuses(io, taken, channel, id);
  }

  /**
   * A response is reported to whoever made the request, and the mapping stays in agreement, if and
   * only if there are enough free identifiers before the one of that request. Otherwise the wait
   * queue, which is processed first, yields a request that gets the same identifier.
   */
  lemma ResponseReachesAsker(io: IoState, read: CompletedRead, l: IoId)
    requires io.Valid() && MapAgrees(io) && Finds(io, read) && read.ReceivedResponse? && io.juliet.Knows(read.channel)
    requires l in io.requestMap && io.requestMap[l] == (read.channel, read.id)
    requires Fresh(io.requestMap, io.waitQueue[read.channel])
    requires Parsed(io).Valid() && Parsed(io).juliet.Knows(read.channel) &&
             ProcessWaitQueue(Parsed(io), read.channel).result.Ok?
    ensures var ch := Parsed(io).juliet.channels[read.channel];
      var reused := FreeBefore(ch.outgoing, ch.prevRequestId, read.id)
                      < Requests(Taken(Parsed(io), read.channel, |io.waitQueue[read.channel]|));
      && ParseStep(io).result.Ok?
      && (ParseStep(io).result.value == Some(ResponseReceived(l, read.payload)) <==> !reused)
      && (MapAgrees(ParseStep(io).state) <==> !reused)
  {
    var w := (read.channel, read.id);
    FoundAnswer(io, read, l);
    ProcessIncomingEnds(io.juliet, io.buffer);
    var found := Parsed(io);
    assert !UnderWay(found.juliet, w);
    assert InStep(found, read.channel, [], {w}, Some((l, w)));
    ProcessWaitingKeepsMap(found, read.channel, |found.waitQueue[read.channel]|, [], {w}, Some((l, w)));
    ReusedExactly(found, read.channel, read.id);
    hide ProcessIncoming; hide MapIs; hide Held; hide IoState.Valid; hide ProcessWaiting; hide UnderWay;
    hide FreeBefore; hide Requests; hide Taken;
    var q := ProcessWaitQueue(found, read.channel);
    hide ProcessWaitQueue;
    ReportRemoves(q.state, read, l);
    hide HandleCompletedRead;
  }

  /** A cancellation response always reaches the one who made the request. */
  lemma CancellationReachesAsker(io: IoState, read: CompletedRead, l: IoId)
    requires io.Valid() && MapAgrees(io) && Finds(io, read) && read.ResponseCancellation?
    requires l in io.requestMap && io.requestMap[l] == (read.channel, read.id)
    ensures ParseStep(io).result == Ok(Some(CancellationResponseReceived(l)))
    ensures MapAgrees(ParseStep(io).state)
  {
    FoundAnswer(io, read, l);
    ProcessIncomingEnds(io.juliet, io.buffer);
    assert !UnderWay(Parsed(io).juliet, (read.channel, read.id));
    hide ProcessIncoming; hide MapIs; hide Held; hide UnderWay;
    ReportRemoves(Parsed(io), read, l);
    hide HandleCompletedRead;
  }

  /** Nothing else that is read has anything to do with the mapping. */
  lemma OtherReadsKeepMap(io: IoState)
    requires io.Valid() && MapAgrees(io) && io.nextParseAt <= |io.buffer|
    requires var o := ProcessIncoming(io.juliet, io.buffer).outcome; !o.Fatal? && (o.Success? ==> !IsAnswer(o.value))
    ensures MapAgrees(ParseStep(io).state) && ParseStep(io).state.requestMap == io.requestMap
    ensures ParseStep(io).result != Err(InternalError)
  {
    ProcessIncomingEnds(io.juliet, io.buffer);
    hide ProcessIncoming; hide UnderWay; hide Mapped;
  }

  // ---------------------------------------------------------------- it does happen

  /** A request without payload, and the answer to it. */
  function RequestAndAnswer(ch: ChannelState): ChannelState {
    var (after, msg) := ch.CreateUncheckedRequest(0, None);
    PassResponse(after, Frame(Response, 0, msg.header.id)).channel
  }

  function Repeat(ch: ChannelState, n: nat): ChannelState
    decreases n
  {
    if n == 0 then ch else Repeat(RequestAndAnswer(ch), n - 1)
  }

  lemma OnePassesBy(ch: ChannelState)
    requires ch.outgoing == {1} && 1 <= ch.prevRequestId < ID_SPACE - 1
    ensures RequestAndAnswer(ch) == ch.(prevRequestId := ch.prevRequestId + 1)
  {
    var k := ch.prevRequestId + 1;
    assert CyclicAdd(ch.prevRequestId, 1) == k;
    assert {1} + {k} - {k} == {1};
  }

  /** While request 1 stays unanswered, others use up the identifiers after it one by one. */
  lemma {:induction false} OthersPassBy(ch: ChannelState, n: nat)
    requires ch.outgoing == {1} && 1 <= ch.prevRequestId && ch.prevRequestId + n < ID_SPACE
    ensures Repeat(ch, n) == ch.(prevRequestId := ch.prevRequestId + n)
    decreases n
  {
    if n > 0 {
      OnePassesBy(ch);
      hide RequestAndAnswer;
      OthersPassBy(RequestAndAnswer(ch), n - 1);
    }
  }

  /** Two requests under way, 1 and 0; the latter was made last. */
  function Wrapped(config: ChannelConfiguration): ChannelState {
    NewChannel(config).(outgoing := {0, 1})
  }

  /** A channel gets there from its start: by one request that is not answered, and many that are. */
  lemma WrapIsReached(config: ChannelConfiguration, others: nat)
    requires others == ID_SPACE - 2
    ensures var first := NewChannel(config).CreateUncheckedRequest(0, None).0;
      Repeat(first, others).CreateUncheckedRequest(0, None).0 == Wrapped(config)
  {
    hide Repeat;
    var first := NewChannel(config).CreateUncheckedRequest(0, None).0;
    assert CyclicAdd(0, 1) == 1;
    assert first.outgoing == {1};
    OthersPassBy(first, others);
    assert CyclicAdd(0xffff, 1) == 0;
    assert first.outgoing + {0} == {0, 1};
  }

  /** In that state, a third request waits, and the answer to request 1 is in the buffer. */
  function Answered(config: ChannelConfiguration): IoState {
    IoState(ProtocolState([Wrapped(config)], 4096), Frame(Response, 0, 1).Raw(), 0, None, None, [None], [],
            [[QueuedRequest(0, 12, None)]], map[10 := (0, 1), 11 := (0, 0)])
  }

  lemma WaitingRequestIsSent(io: IoState)
    requires io.Valid() && |io.waitQueue| >= 1 && io.waitQueue[0] == [QueuedRequest(0, 12, None)]
    requires io.juliet.channels[0].outgoing == {0} && io.juliet.channels[0].prevRequestId == 0
    requires io.juliet.channels[0].config.requestLimit == 2
    ensures var r := ProcessWaitQueue(io, 0);
      && r.result.Ok? && r.state.requestMap == Insert(io.requestMap, 12, (0, 1)) && UnderWay(r.state.juliet, (0, 1))
      && |r.state.waitQueue| == |io.waitQueue| && r.state.waitQueue[0] == [] && r.state.nextParseAt == io.nextParseAt
  {
    var item := QueuedRequest(0, 12, None);
    assert io.waitQueue[0][1..] == [];
    QueuedIsValid(io, 0);
    var popped := SetQueue(io, 0, []);
    assert CyclicAdd(0, 1) == 1;
    var sent := SendToReadyQueue(popped, item);
    assert sent.result.Ok? && sent.state.requestMap == Insert(io.requestMap, 12, (0, 1)) &&
      UnderWay(sent.state.juliet, (0, 1));
    assert sent.state.juliet.channels[0].outgoing == {0, 1};
    hide SendToReadyQueue; hide IoState.Valid; hide Insert;
  }

  lemma AnswerIsFound(config: ChannelConfiguration)
    ensures var io := Answered(config);
      && io.Valid() && MapAgrees(io) && Finds(io, ReceivedResponse(0, 1, None))
      && Parsed(io) == io.(buffer := [], juliet := ProtocolState([Wrapped(config).(outgoing := {0})], 4096))
  {
    var io, header := Answered(config), Header.Frame(Response, 0, 1);
    assert io.requestMap[10] == (0, 1) && io.requestMap[11] == (0, 0);
    ParseInvertsRaw(header);
    assert header.Raw()[..SIZE] == header.Raw();
    assert {0, 1} - {1} == {0};
    hide Header.Raw;
    assert Pass(io.juliet, io.buffer).outcome == Success(Some(ReceivedResponse(0, 1, None)));
  }

  /** Parsing a response: the wait queue, then the report. */
  lemma ResponseStep(io: IoState, read: CompletedRead)
    requires io.Valid() && Finds(io, read) && read.ReceivedResponse?
    requires Parsed(io).Valid() && Parsed(io).juliet.Knows(read.channel) &&
             ProcessWaitQueue(Parsed(io), read.channel).result.Ok?
    ensures var h := HandleCompletedRead(ProcessWaitQueue(Parsed(io), read.channel).state, read);
      && ParseStep(io).state == h.state
      && (h.result.Ok? ==> ParseStep(io).result == Ok(Some(h.result.value)))
  {
    hide ProcessIncoming; hide IoState.Valid; hide HandleCompletedRead; hide ProcessWaitQueue;
  }

  lemma OnlyPair(m: RequestMap, l: IoId, wire: Wire)
    requires Bijective(m) && l in m && m[l] == wire
    ensures RemoveByRight(m, wire).1 == Some(l) && !Mapped(RemoveByRight(m, wire).0, wire)
  {
    RemoveUnmaps(m, wire);
    assert Mapped(m, wire);
  }

  /** The response to the request with local id 10 is reported as one to the request with local id 12. */
  lemma AnswerGoesAstray(config: ChannelConfiguration)
    requires config.requestLimit == 2
    ensures Answered(config).Valid() && MapAgrees(Answered(config)) && Answered(config).requestMap[10] == (0, 1)
    ensures ParseStep(Answered(config)).result == Ok(Some(ResponseReceived(12, None)))
    ensures !MapAgrees(ParseStep(Answered(config)).state)
  {
    AnswerIsFound(config);
    var io := Answered(config);
    WaitingRequestIsSent(Parsed(io));
    ResponseStep(io, ReceivedResponse(0, 1, None));
    var q := ProcessWaitQueue(Parsed(io), 0).state;
    assert Bijective(q.requestMap);
    hide ProcessWaitQueue; hide IoState.Valid; hide UnderWay; hide ParseStep; hide ProcessIncoming;
    OnlyPair(q.requestMap, 12, (0, 1));
    hide RemoveByRight; hide Mapped; hide Bijective;
    var after := HandleCompletedRead(q, ReceivedResponse(0, 1, None)).state;
    assert !Mapped(after.requestMap, (0, 1)) && UnderWay(after.juliet, (0, 1));
  }

  /** An answer is an internal error exactly if it is for nobody. */
  lemma ErrorIfForNobody(io: IoState, read: CompletedRead)
    requires io.Valid() && IsAnswer(read)
    ensures HandleCompletedRead(io, read).result == Err(InternalError) <==>
              !Mapped(io.requestMap, (read.channel, read.id))
  {
    RemoveUnmaps(io.requestMap, (read.channel, read.id));
    hide IoState.Valid; hide RemoveByRight; hide Mapped;
  }

  lemma ResponseIsFound(io: IoState, id: Id)
    requires io.Valid() && UnderWay(io.juliet, (0, id)) && io.buffer == Frame(Response, 0, id).Raw() &&
             io.nextParseAt == 0
    ensures Finds(io, ReceivedResponse(0, id, None)) && Parsed(io).Valid() && Parsed(io).waitQueue == io.waitQueue
  {
    var header := Header.Frame(Response, 0, id);
    ParseInvertsRaw(header);
    assert io.buffer[..SIZE] == io.buffer;
    hide Header.Raw;
    assert Pass(io.juliet, io.buffer).outcome == Success(Some(ReceivedResponse(0, id, None)));
  }

  /** A response to a request that has no local id any more is an internal error. */
  lemma ResponseToNobody(io: IoState, id: Id)
    requires io.Valid() && UnderWay(io.juliet, (0, id)) && !Mapped(io.requestMap, (0, id))
    requires io.buffer == Frame(Response, 0, id).Raw() && io.nextParseAt == 0 && io.waitQueue[0] == []
    ensures ParseStep(io).result == Err(InternalError)
  {
    ResponseIsFound(io, id);
    var read := ReceivedResponse(0, id, None);
    ErrorIfForNobody(Parsed(io), read);
    hide ProcessIncoming; hide IoState.Valid; hide HandleCompletedRead; hide Mapped;
  }

  /**
   * After the response has been reported to the request with local id 12, the response to that one is an
   * internal error.
   */
  lemma NextAnswerIsForNobody(config: ChannelConfiguration)
    requires config.requestLimit == 2
    ensures var io := ParseStep(Answered(config)).state.(buffer := Frame(Response, 0, 1).Raw());
      io.Valid() && UnderWay(io.juliet, (0, 1)) && ParseStep(io).result == Err(InternalError)
  {
    AnswerIsFound(config);
    var before, read := Answered(config), ReceivedResponse(0, 1, None);
    WaitingRequestIsSent(Parsed(before));
    ResponseStep(before, read);
    var q := ProcessWaitQueue(Parsed(before), 0).state;
    assert Bijective(q.requestMap);
    hide ProcessWaitQueue; hide IoState.Valid; hide ParseStep; hide ProcessIncoming;
    OnlyPair(q.requestMap, 12, (0, 1));
    hide RemoveByRight; hide Mapped; hide Bijective;
    var io := ParseStep(before).state.(buffer := Frame(Response, 0, 1).Raw());
    assert !Mapped(io.requestMap, (0, 1));
    StillValid(ParseStep(before).state, io.buffer);
    ResponseToNobody(io, 1);
  }

  lemma StillValid(io: IoState, buffer: Bytes)
    requires io.Valid()
    ensures io.(buffer := buffer).Valid()
  {
  }
}
