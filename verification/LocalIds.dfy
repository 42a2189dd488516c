// Local ids in runs: as long as no identifier is used again before its answer has been reported, the
// mapping agrees with the requests under way after every step, and the internal errors cannot occur.
module LocalIds {
  import opened Types
  import opened Protocol
  import opened IoState
  import opened WaitQueue
  import opened RequestIds

  /** The local ids of all waiting requests are unused and distinct. */
  ghost predicate FreshAll(io: IoState) {
    && (forall c :: 0 <= c < |io.waitQueue| ==> Fresh(io.requestMap, io.waitQueue[c]))
    && (forall c, d :: 0 <= c < |io.waitQueue| && 0 <= d < |io.waitQueue| && c != d ==>
         Apart(io.waitQueue[c], io.waitQueue[d]))
  }

  ghost predicate Agreed(io: IoState) {
    io.Valid() && MapAgrees(io) && FreshAll(io)
  }

  /** No request under way and no waiting one has this local id. */
  ghost predicate Unused(io: IoState, ioId: IoId) {
    ioId !in io.requestMap && forall c :: 0 <= c < |io.waitQueue| ==> !Asks(io.waitQueue[c], ioId)
  }

  /**
   * What a step does to the local ids in use: `more` is a new one, `gone` is one no longer in use.
   * Until it is gone, a local id stays mapped to the same identifier.
   */
  ghost predicate Uses(io: IoState, n: IoState, more: Option<IoId>, gone: Option<IoId>) {
    && (forall l: IoId :: Unused(n, l) <==> (Unused(io, l) && more != Some(l)) || gone == Some(l))
    && (forall l :: l in io.requestMap && gone != Some(l) ==> l in n.requestMap && n.requestMap[l] == io.requestMap[l])
  }

  // ---------------------------------------------------------------- processing a wait queue

  lemma ProcessKeepsOther(io: IoState, channel: ChannelId, d: nat, extra: set<Wire>, entry: Option<(IoId, Wire)>)
    requires io.Valid() && io.juliet.Knows(channel) && d < |io.waitQueue| && d != channel
    requires FreshAll(io) && MapIs(io, extra) && Held(io, entry) && NoneOf(entry, io.waitQueue[channel])
    requires channel < |io.waitQueue| && ProcessWaitQueue(io, channel).result.Ok?
    ensures var r := ProcessWaitQueue(io, channel).state;
      && channel < |r.waitQueue| && d < |r.waitQueue| && r.waitQueue[d] == io.waitQueue[d]
      && Fresh(r.requestMap, r.waitQueue[d])
      && Apart(r.waitQueue[channel], r.waitQueue[d]) && Apart(r.waitQueue[d], r.waitQueue[channel])
  {
    hide IoState.Valid; hide MapIs; hide Held; hide Fresh; hide ProcessWaiting; hide NoneOf; hide SendAll;
    assert Apart(io.waitQueue[channel], io.waitQueue[d]);
    ProcessWaitingKeepsMap(io, channel, |io.waitQueue[channel]|, io.waitQueue[d], extra, entry);
    ProcessWaitQueueConserves(io, channel);
    hide Taken;
    Shapes(io);
    Shapes(ProcessWaitQueue(io, channel).state);
  }

  /** Processing a wait queue keeps the mapping as it is to be, and what waits fresh. */
  lemma ProcessKeepsFresh(io: IoState, channel: ChannelId, extra: set<Wire>, entry: Option<(IoId, Wire)>)
    requires io.Valid() && io.juliet.Knows(channel) && channel < |io.waitQueue| &&
             ProcessWaitQueue(io, channel).result.Ok?
    requires FreshAll(io) && MapIs(io, extra) && Held(io, entry) && NoneOf(entry, io.waitQueue[channel])
    ensures var r := ProcessWaitQueue(io, channel).state; FreshAll(r) && MapIs(r, extra) && Held(r, entry)
  {
    hide IoState.Valid; hide MapIs; hide Held; hide Fresh; hide ProcessWaiting; hide NoneOf; hide Apart;
    var r := ProcessWaitQueue(io, channel).state;
    Shapes(io);
    Shapes(r);
    assert Apart(io.waitQueue[channel], []) by { ApartNone(io.waitQueue[channel]); }
    assert Fresh(io.requestMap, []) by { FreshNone(io.requestMap); }
    ProcessWaitingKeepsMap(io, channel, |io.waitQueue[channel]|, [], extra, entry);
    assert Fresh(r.requestMap, r.waitQueue[channel]);
    forall d | 0 <= d < |r.waitQueue| && d != channel
      ensures r.waitQueue[d] == io.waitQueue[d] && Fresh(r.requestMap, r.waitQueue[d])
      ensures Apart(r.waitQueue[channel], r.waitQueue[d]) && Apart(r.waitQueue[d], r.waitQueue[channel]) {
      ProcessKeepsOther(io, channel, d, extra, entry);
    }
    hide ProcessWaitQueue;
  }

  lemma ApartNone(queue: seq<QueuedItem>)
    ensures Apart(queue, [])
  {
  }

  lemma FreshNone(m: RequestMap)
    ensures Fresh(m, [])
  {
  }

  lemma OneQueueChanges(io: IoState, n: IoState, channel: ChannelId, l: IoId)
    requires channel < |io.waitQueue| == |n.waitQueue|
    requires forall d :: 0 <= d < |io.waitQueue| && d != channel ==> n.waitQueue[d] == io.waitQueue[d]
    requires l in n.requestMap || Asks(n.waitQueue[channel], l) <==>
               l in io.requestMap || Asks(io.waitQueue[channel], l)
    requires l in io.requestMap ==> l in n.requestMap
    ensures Unused(n, l) <==> Unused(io, l)
  {
    hide Asks;
    if Unused(io, l) {
      assert !Asks(io.waitQueue[channel], l);
      forall d | 0 <= d < |n.waitQueue| ensures !Asks(n.waitQueue[d], l) {
        assert !Asks(io.waitQueue[d], l);
      }
    }
    if Unused(n, l) {
      assert !Asks(n.waitQueue[channel], l);
      forall d | 0 <= d < |io.waitQueue| ensures !Asks(io.waitQueue[d], l) {
        assert !Asks(n.waitQueue[d], l);
      }
    }
  }

  /** Processing a wait queue moves local ids to the mapping, and they stay in use. */
  lemma ProcessUses(io: IoState, channel: ChannelId, extra: set<Wire>)
    requires io.Valid() && io.juliet.Knows(channel) && ProcessWaitQueue(io, channel).result.Ok?
    requires FreshAll(io) && MapIs(io, extra) && NoneUnderWay(ProcessWaitQueue(io, channel).state.juliet, extra)
    ensures Uses(io, ProcessWaitQueue(io, channel).state, None, None)
  {
    hide IoState.Valid; hide MapIs; hide Fresh; hide ProcessWaiting; hide Apart; hide Asks; hide SendAll; hide Taken;
    hide NoneUnderWay;
    var r := ProcessWaitQueue(io, channel).state;
    Shapes(io);
    Shapes(r);
    assert Apart(io.waitQueue[channel], []) by { ApartNone(io.waitQueue[channel]); }
    assert Fresh(io.requestMap, []) by { FreshNone(io.requestMap); }
    ProcessWaitingMoves(io, channel, |io.waitQueue[channel]|, extra);
    ProcessWaitQueueConserves(io, channel);
    hide ProcessWaitQueue; hide FreshAll;
    forall l: IoId ensures Unused(r, l) <==> Unused(io, l) {
      OneQueueChanges(io, r, channel, l);
    }
  }

  // ---------------------------------------------------------------- enqueueing

  lemma SendKeepsQueues(io: IoState, item: QueuedItem)
    requires io.Valid() && item.Valid() && !item.QueuedError?
    ensures SendToReadyQueue(io, item).state.waitQueue == io.waitQueue
  {
    hide CreateRequest; hide CreateResponse; hide IoState.Valid;
  }

  lemma UnusedInQueue(io: IoState, item: QueuedItem, c: nat)
    requires c < |io.waitQueue| && (item.QueuedRequest? ==> Unused(io, item.ioId))
    ensures forall i :: 0 <= i < |io.waitQueue[c]| ==>
              item.QueuedRequest? && io.waitQueue[c][i].QueuedRequest? ==> io.waitQueue[c][i].ioId != item.ioId
  {
  }

  lemma SendAgrees(io: IoState, item: QueuedItem)
    requires Agreed(io) && item.Valid() && !item.QueuedError? && (item.QueuedRequest? ==> Unused(io, item.ioId))
    ensures Agreed(SendToReadyQueue(io, item).state)
  {
    hide SendToReadyQueue; hide IoState.Valid; hide MapIs; hide Fresh; hide Apart;
    var r := SendToReadyQueue(io, item).state;
    SendKeepsQueues(io, item);
    SendKeepsMap(io, item, {}, None);
    forall c | 0 <= c < |io.waitQueue| ensures Fresh(r.requestMap, io.waitQueue[c]) {
      UnusedInQueue(io, item, c);
      SendKeepsFresh(io, item, io.waitQueue[c]);
    }
  }

  lemma FreshPush(m: RequestMap, queue: seq<QueuedItem>, item: QueuedItem)
    requires Fresh(m, queue)
    requires item.QueuedRequest? ==> item.ioId !in m
    requires forall i :: 0 <= i < |queue| ==> item.QueuedRequest? && queue[i].QueuedRequest? ==>
               queue[i].ioId != item.ioId
    ensures Fresh(m, queue + [item])
  {
    var q := queue + [item];
    forall i, j | 0 <= i < j < |q| && q[i].QueuedRequest? && q[j].QueuedRequest? ensures q[i].ioId != q[j].ioId {
      if j < |queue| {
        assert q[i] == queue[i] && q[j] == queue[j];
      }
    }
  }

  lemma ApartPush(queue: seq<QueuedItem>, other: seq<QueuedItem>, item: QueuedItem)
    requires Apart(queue, other)
    requires forall i :: 0 <= i < |other| ==> item.QueuedRequest? && other[i].QueuedRequest? ==>
               other[i].ioId != item.ioId
    ensures Apart(queue + [item], other) && Apart(other, queue + [item])
  {
  }

  lemma WaitAgrees(io: IoState, item: QueuedItem, c: ChannelId)
    requires Agreed(io) && item.Valid() && (item.QueuedRequest? ==> Unused(io, item.ioId)) && c < |io.waitQueue|
    requires SetQueue(io, c, io.waitQueue[c] + [item]).Valid()
    ensures Agreed(SetQueue(io, c, io.waitQueue[c] + [item]))
  {
    hide IoState.Valid; hide Fresh; hide Apart; hide Mapped;
    var r := SetQueue(io, c, io.waitQueue[c] + [item]);
    UnusedInQueue(io, item, c);
    FreshPush(io.requestMap, io.waitQueue[c], item);
    forall d | 0 <= d < |io.waitQueue| && d != c
      ensures Apart(r.waitQueue[c], r.waitQueue[d]) && Apart(r.waitQueue[d], r.waitQueue[c]) {
      assert Apart(io.waitQueue[c], io.waitQueue[d]);
      UnusedInQueue(io, item, d);
      ApartPush(io.waitQueue[c], io.waitQueue[d], item);
    }
  }

  /** Handing over an item keeps the agreement, if a request comes with an unused local id. */
  lemma EnqueueAgrees(io: IoState, item: QueuedItem)
    requires Agreed(io) && item.Valid() && !item.QueuedError? && io.Indexable(item)
    requires item.QueuedRequest? ==> Unused(io, item.ioId)
    ensures Agreed(HandleIncomingItem(io, item).state)
  {
    hide SendToReadyQueue; hide FreshAll; hide MapIs; hide Unused;
    var waits := ItemShouldWait(item, io.juliet, io.activeMultiFrame);
    hide ItemShouldWait;
    Shapes(io);
    if waits.Ok? && waits.value.Some? {
      PushIsValid(io, item);
      WaitAgrees(io, item, waits.value.value);
    } else if waits.Ok? {
      SendAgrees(io, item);
    }
    hide IoState.Valid;
  }

  // ---------------------------------------------------------------- frames

  /** Writing out a frame keeps the agreement. */
  lemma FrameSentAgrees(io: IoState)
    requires Agreed(io) && FrameSent(io).result.Ok?
    ensures Agreed(FrameSent(io).state)
  {
    hide ProcessWaitQueue; hide Mapped; hide Fresh; hide Apart;
    if io.currentFrame.Some? {
      var taken, header := Cleared(io), io.currentFrame.value.0.header;
      hide IoState.Valid;
      Shapes(taken);
      ProcessKeepsFresh(taken, header.channel, {}, None);
    }
  }

  lemma ReadyAgrees(io: IoState)
    requires Agreed(io)
    ensures Agreed(ReadyNextFrame(io))
  {
    hide Mapped; hide Fresh; hide Apart; hide IoState.Valid;
  }

  // ---------------------------------------------------------------- parsing

  /** The identifier that a response frees will not be used again before the response is reported. */
  ghost predicate NotReused(io: IoState)
    requires io.Valid()
  {
    forall read :: Finds(io, read) && read.ReceivedResponse? ==>
      && Parsed(io).Valid() && Parsed(io).juliet.Knows(read.channel) && read.channel < |Parsed(io).waitQueue|
      && var ch := Parsed(io).juliet.channels[read.channel];
      FreeBefore(ch.outgoing, ch.prevRequestId, read.id) >=
        Requests(Taken(Parsed(io), read.channel, |io.waitQueue[read.channel]|))
  }

  /** What a response frees can be sent. */
  ghost predicate QueueSends(io: IoState)
    requires io.Valid()
  {
    forall read :: Finds(io, read) && read.ReceivedResponse? ==>
      Parsed(io).Valid() && Parsed(io).juliet.Knows(read.channel) &&
        ProcessWaitQueue(Parsed(io), read.channel).result.Ok?
  }

  lemma RemoveKeepsFresh(io: IoState, read: CompletedRead)
    requires io.Valid() && FreshAll(io)
    ensures FreshAll(HandleCompletedRead(io, read).state)
  {
    var r := HandleCompletedRead(io, read).state;
    assert forall l :: l in r.requestMap ==> l in io.requestMap;
    assert r.waitQueue == io.waitQueue;
    hide IoState.Valid; hide HandleCompletedRead; hide Apart;
    forall c | 0 <= c < |io.waitQueue| ensures Fresh(r.requestMap, io.waitQueue[c]) {
      assert Fresh(io.requestMap, io.waitQueue[c]);
    }
  }

  lemma ResponseAgrees(io: IoState, read: CompletedRead)
    requires Agreed(io) && Finds(io, read) && read.ReceivedResponse? && NotReused(io) && QueueSends(io)
    ensures Agreed(ParseStep(io).state) && ParseStep(io).result.Ok?
  {
    hide IoState.Valid; hide FreeBefore; hide Requests; hide Taken; hide ProcessWaitQueue;
    hide ProcessIncoming; hide ParseStep; hide Apart; hide Mapped;
    AnswerHasAsker(io, read);
    var l :| l in io.requestMap && io.requestMap[l] == (read.channel, read.id);
    Shapes(io);
    assert Fresh(io.requestMap, io.waitQueue[read.channel]);
    ResponseReachesAsker(io, read, l);
    FoundAnswer(io, read, l);
    ResponseStep(io, read);
    var found, w := Parsed(io), (read.channel, read.id);
    Shapes(found);
    assert NoneOf(Some((l, w)), found.waitQueue[read.channel]);
    hide Fresh; hide MapIs; hide Held; hide HandleCompletedRead;
    ProcessKeepsFresh(found, read.channel, {w}, Some((l, w)));
    RemoveKeepsFresh(ProcessWaitQueue(found, read.channel).state, read);
  }

  lemma OtherReadAgrees(io: IoState)
    requires Agreed(io) && io.nextParseAt <= |io.buffer|
    requires var o := ProcessIncoming(io.juliet, io.buffer).outcome;
      !o.Fatal? && (o.Success? ==> !IsAnswer(o.value) && !o.value.ErrorReceived?)
    ensures Agreed(ParseStep(io).state) && ParseStep(io).result.Ok?
  {
    hide ProcessIncoming; hide MapIs; hide Fresh; hide Apart;
    OtherReadsKeepMap(io);
    hide IoState.Valid;
  }

  lemma CancellationAgrees(io: IoState, read: CompletedRead)
    requires Agreed(io) && Finds(io, read) && read.ResponseCancellation?
    ensures Agreed(ParseStep(io).state) && ParseStep(io).result.Ok?
  {
    hide ProcessIncoming; hide MapIs; hide Fresh; hide Apart; hide Mapped;
    AnswerHasAsker(io, read);
    var l :| l in io.requestMap && io.requestMap[l] == (read.channel, read.id);
    CancellationReachesAsker(io, read, l);
    FoundAnswer(io, read, l);
    hide MapAgrees; hide IoState.Valid; hide FreshAll; hide HandleCompletedRead;
    RemoveKeepsFresh(Parsed(io), read);
  }

  /**
   * Parsing keeps the agreement, and every answer belongs to a request, unless an identifier is used again
   * too early.
   */
  lemma ParseAgrees(io: IoState)
    requires Agreed(io) && NotReused(io) && QueueSends(io)
    requires io.nextParseAt <= |io.buffer| ==>
               var o := ProcessIncoming(io.juliet, io.buffer).outcome;
               !o.Fatal? && (o.Success? ==> !o.value.ErrorReceived?)
    ensures Agreed(ParseStep(io).state) && ParseStep(io).result.Ok?
  {
    assert io.juliet.Valid();
    hide IoState.Valid; hide NotReused; hide QueueSends; hide MapAgrees; hide FreshAll; hide ProcessIncoming;
    if io.nextParseAt <= |io.buffer| {
      var o := ProcessIncoming(io.juliet, io.buffer).outcome;
      hide ParseStep;
      if o.Success? && o.value.ReceivedResponse? {
        ResponseAgrees(io, o.value);
      } else if o.Success? && o.value.ResponseCancellation? {
        CancellationAgrees(io, o.value);
      } else {
        OtherReadAgrees(io);
      }
    }
  }

  // ---------------------------------------------------------------- local ids in use

  lemma SendUses(io: IoState, item: QueuedItem)
    requires Agreed(io) && item.Valid() && !item.QueuedError? && (item.QueuedRequest? ==> Unused(io, item.ioId))
    requires SendToReadyQueue(io, item).result.Ok?
    ensures Uses(io, SendToReadyQueue(io, item).state, if item.QueuedRequest? then Some(item.ioId) else None, None)
  {
    hide SendToReadyQueue; hide IoState.Valid; hide MapIs; hide Fresh; hide Apart; hide Asks;
    SendKeepsQueues(io, item);
    if item.QueuedRequest? || item.QueuedResponse? {
      SendMoves(io, item, {});
    } else {
      SendOtherMaps(io, item);
    }
  }

  lemma WaitUses(io: IoState, item: QueuedItem, c: ChannelId)
    requires c < |io.waitQueue|
    ensures Uses(io, SetQueue(io, c, io.waitQueue[c] + [item]),
                 if item.QueuedRequest? then Some(item.ioId) else None, None)
  {
    hide Asks;
    var n := SetQueue(io, c, io.waitQueue[c] + [item]);
    forall l: IoId
      ensures Unused(n, l) <==> Unused(io, l) && !(item.QueuedRequest? && item.ioId == l) {
      AsksBack(io.waitQueue[c], item, l);
      assert Asks(n.waitQueue[c], l) <==> (item.QueuedRequest? && item.ioId == l) || Asks(io.waitQueue[c], l);
      forall d | 0 <= d < |io.waitQueue| && d != c ensures Asks(n.waitQueue[d], l) <==> Asks(io.waitQueue[d], l) {
      }
    }
  }

  /** Handing over a request brings its local id into use, and nothing else is done to the local ids. */
  lemma EnqueueUses(io: IoState, item: QueuedItem)
    requires Agreed(io) && item.Valid() && !item.QueuedError? && io.Indexable(item)
    requires item.QueuedRequest? ==> Unused(io, item.ioId)
    requires HandleIncomingItem(io, item).result.Ok?
    ensures Uses(io, HandleIncomingItem(io, item).state, if item.QueuedRequest? then Some(item.ioId) else None, None)
  {
    hide SendToReadyQueue; hide FreshAll; hide MapIs; hide Unused; hide Uses;
    var waits := ItemShouldWait(item, io.juliet, io.activeMultiFrame);
    hide ItemShouldWait;
    Shapes(io);
    if waits.Ok? && waits.value.Some? {
      WaitUses(io, item, waits.value.value);
    } else if waits.Ok? {
      SendUses(io, item);
    }
    hide IoState.Valid;
  }

  lemma UsesNothing(io: IoState, n: IoState)
    requires n.requestMap == io.requestMap && n.waitQueue == io.waitQueue
    ensures Uses(io, n, None, None)
  {
  }

  lemma FrameSentUses(io: IoState)
    requires Agreed(io) && FrameSent(io).result.Ok?
    ensures Uses(io, FrameSent(io).state, None, None)
  {
    hide ProcessWaitQueue; hide Mapped; hide Fresh; hide Apart; hide Uses;
    UsesNothing(io, io);
    if io.currentFrame.Some? {
      var taken, header := Cleared(io), io.currentFrame.value.0.header;
      hide IoState.Valid;
      ProcessUses(taken, header.channel, {});
      UsesThen(io, taken, FrameSent(io).state, None);
    }
  }

  lemma UsesThen(io: IoState, n: IoState, r: IoState, gone: Option<IoId>)
    requires (n.requestMap == io.requestMap && n.waitQueue == io.waitQueue) || Uses(io, n, None, None)
    requires Uses(n, r, None, gone)
    ensures Uses(io, r, None, gone)
  {
    if n.requestMap == io.requestMap && n.waitQueue == io.waitQueue { UsesNothing(io, n); }
    hide Unused;
  }

  lemma ReadyUses(io: IoState)
    requires io.Valid()
    ensures Uses(io, ReadyNextFrame(io), None, None)
  {
    hide Uses; hide IoState.Valid;
    UsesNothing(io, ReadyNextFrame(io));
  }

  /** The local id that an event is for. */
  function ToldBy(event: Option<IoEvent>): Option<IoId> {
    if event.Some? && (event.value.ResponseReceived? || event.value.CancellationResponseReceived?) then
      Some(event.value.ioId)
    else None
  }

  /** What is parsed is reported: an answer to the one that has the request, and nobody else is told of one. */
  ghost predicate Tells(io: IoState)
    requires io.Valid()
  {
    && ParseStep(io).result.Ok?
    && (forall read :: Finds(io, read) && IsAnswer(read) ==> TellsAnswer(io, read))
    && (ToldBy(ParseStep(io).result.value).Some? ==> exists read :: Finds(io, read) && IsAnswer(read))
  }

  ghost predicate TellsAnswer(io: IoState, read: CompletedRead)
    requires io.Valid() && IsAnswer(read)
  {
    exists l :: l in io.requestMap && io.requestMap[l] == (read.channel, read.id) &&
      ParseStep(io).result == Ok(Some(Report(l, read)))
  }

  /** Reporting an answer gives up the local id of the request. */
  lemma RemoveUses(io: IoState, read: CompletedRead, l: IoId)
    requires io.Valid() && FreshAll(io) && IsAnswer(read)
    requires l in io.requestMap && io.requestMap[l] == (read.channel, read.id)
    ensures Uses(io, HandleCompletedRead(io, read).state, None, Some(l))
  {
    hide Apart; hide Asks; hide Mapped; hide IoState.Valid;
    MapIsBijective(io);
    OnlyPair(io.requestMap, l, (read.channel, read.id));
    var r := HandleCompletedRead(io, read).state;
    assert r == io.(requestMap := RemoveByRight(io.requestMap, (read.channel, read.id)).0);
    forall c | 0 <= c < |io.waitQueue| ensures !Asks(io.waitQueue[c], l) {
      FreshAsks(io.requestMap, io.waitQueue[c], l);
    }
  }

  lemma MapIsBijective(io: IoState)
    requires io.Valid()
    ensures Bijective(io.requestMap)
  {
  }

  lemma FreshAsks(m: RequestMap, queue: seq<QueuedItem>, l: IoId)
    requires Fresh(m, queue) && l in m
    ensures !Asks(queue, l)
  {
  }

  lemma ResponseReports(io: IoState, read: CompletedRead) returns (l: IoId)
    requires Agreed(io) && Finds(io, read) && read.ReceivedResponse? && NotReused(io) && QueueSends(io)
    ensures l in io.requestMap && io.requestMap[l] == (read.channel, read.id)
    ensures ParseStep(io).result == Ok(Some(Report(l, read)))
    ensures Uses(io, ParseStep(io).state, None, Some(l))
  {
    hide IoState.Valid; hide FreeBefore; hide Requests; hide Taken; hide ProcessWaitQueue;
    hide ProcessIncoming; hide ParseStep; hide Apart; hide Mapped; hide Uses;
    AnswerHasAsker(io, read);
    l :| l in io.requestMap && io.requestMap[l] == (read.channel, read.id);
    Shapes(io);
    assert Fresh(io.requestMap, io.waitQueue[read.channel]);
    ResponseReachesAsker(io, read, l);
    FoundAnswer(io, read, l);
    ResponseStep(io, read);
    var found, w := Parsed(io), (read.channel, read.id);
    NotUnderWay(io, read);
    ReusedExactly(found, read.channel, read.id);
    hide UnderWay;
    Shapes(found);
    assert NoneOf(Some((l, w)), found.waitQueue[read.channel]);
    hide Fresh; hide MapIs; hide Held; hide HandleCompletedRead;
    ProcessKeepsFresh(found, read.channel, {w}, Some((l, w)));
    ProcessUses(found, read.channel, {w});
    var q := ProcessWaitQueue(found, read.channel).state;
    UsesThen(io, found, q, None);
    UsesStays(io, q, l);
    RemoveUses(q, read, l);
    UsesThen(io, q, ParseStep(io).state, Some(l));
  }

  /** An answer that has been parsed ends its request. */
  lemma NotUnderWay(io: IoState, read: CompletedRead)
    requires io.Valid() && Finds(io, read) && IsAnswer(read)
    ensures !UnderWay(Parsed(io).juliet, (read.channel, read.id))
  {
    ProcessIncomingEnds(io.juliet, io.buffer);
    hide ProcessIncoming;
  }

  lemma UsesStays(io: IoState, n: IoState, l: IoId)
    requires Uses(io, n, None, None) && l in io.requestMap
    ensures l in n.requestMap && n.requestMap[l] == io.requestMap[l]
  {
  }

  lemma CancellationReports(io: IoState, read: CompletedRead) returns (l: IoId)
    requires Agreed(io) && Finds(io, read) && read.ResponseCancellation?
    ensures l in io.requestMap && io.requestMap[l] == (read.channel, read.id)
    ensures ParseStep(io).result == Ok(Some(Report(l, read)))
    ensures Uses(io, ParseStep(io).state, None, Some(l))
  {
    hide ProcessIncoming; hide MapIs; hide Fresh; hide Apart; hide Mapped; hide Uses;
    AnswerHasAsker(io, read);
    l :| l in io.requestMap && io.requestMap[l] == (read.channel, read.id);
    CancellationReachesAsker(io, read, l);
    FoundAnswer(io, read, l);
    hide MapAgrees; hide IoState.Valid; hide HandleCompletedRead;
    RemoveUses(Parsed(io), read, l);
    UsesThen(io, Parsed(io), ParseStep(io).state, Some(l));
  }

  lemma OtherReadReports(io: IoState)
    requires Agreed(io) && io.nextParseAt <= |io.buffer|
    requires var o := ProcessIncoming(io.juliet, io.buffer).outcome;
      !o.Fatal? && (o.Success? ==> !IsAnswer(o.value) && !o.value.ErrorReceived?)
    ensures ParseStep(io).result.Ok? && ToldBy(ParseStep(io).result.value).None?
    ensures Uses(io, ParseStep(io).state, None, None)
  {
    hide ProcessIncoming; hide MapIs; hide Fresh; hide Apart; hide Uses;
    UsesNothing(io, ParseStep(io).state);
    hide IoState.Valid;
  }

  /**
   * Unless an identifier is used again too early, an answer is reported to the one that has the
   * request, whose local id is then out of use, and no other local id is.
   */
  lemma ParseReports(io: IoState)
    requires Agreed(io) && NotReused(io) && QueueSends(io)
    requires io.nextParseAt <= |io.buffer| ==>
               var o := ProcessIncoming(io.juliet, io.buffer).outcome;
               !o.Fatal? && (o.Success? ==> !o.value.ErrorReceived?)
    ensures Tells(io)
    ensures Uses(io, ParseStep(io).state, None, ToldBy(ParseStep(io).result.value))
    ensures var told := ToldBy(ParseStep(io).result.value); told.Some? ==> told.value in io.requestMap
  {
    assert io.juliet.Valid();
    hide IoState.Valid; hide NotReused; hide QueueSends; hide MapAgrees; hide FreshAll; hide ProcessIncoming; hide Uses;
    UsesNothing(io, io);
    if io.nextParseAt <= |io.buffer| {
      var o := ProcessIncoming(io.juliet, io.buffer).outcome;
      hide ParseStep;
      if o.Success? && o.value.ReceivedResponse? {
        assert Finds(io, o.value);
        var l := ResponseReports(io, o.value);
      } else if o.Success? && o.value.ResponseCancellation? {
        assert Finds(io, o.value);
        var l := CancellationReports(io, o.value);
      } else {
        OtherReadReports(io);
      }
    }
  }
}
