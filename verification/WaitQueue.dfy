// What processing a wait queue does: items are neither lost nor duplicated, the ones sent are sent in
// order, and those that stay had to.
module WaitQueue {
  import opened Types
  import opened Header
  import opened Message
  import opened Protocol
  import opened IoState

  /** The items that leave the wait queue, in the order in which they are sent. */
  ghost function Taken(io: IoState, channel: ChannelId, remaining: nat): seq<QueuedItem>
    requires io.Valid() && io.juliet.Knows(channel)
    decreases remaining
  {
    var queue := io.waitQueue[channel];
    if queue == [] || remaining == 0 then []
    else
      var item := queue[0];
      var popped := SetQueue(io, channel, queue[1..]);
      match ItemShouldWait(item, popped.juliet, popped.activeMultiFrame)
      case Err(e) => []
      case Ok(Some(_)) => Taken(SetQueue(io, channel, queue[1..] + [item]), channel, remaining - 1)
      case Ok(None) =>
        var sent := SendToReadyQueue(popped, item);
        [item] + if sent.result.Err? || !sent.state.juliet.channels[channel].AllowedToSendRequest() then []
                 else Taken(sent.state, channel, remaining - 1)
  }

  /** Sends items one after the other. */
  ghost function SendAll(io: IoState, items: seq<QueuedItem>): (r: Handled<()>)
    requires io.Valid() && forall item :: item in items ==> item.Valid()
    ensures r.state.Valid()
    decreases |items|
  {
    if items == [] then Handled(io, Ok(()))
    else
      var sent := SendToReadyQueue(io, items[0]);
      if sent.result.Err? then sent else SendAll(sent.state, items[1..])
  }

  /** Sending a request or a response neither looks at the wait queues nor changes them. */
  lemma SendIgnoresQueues(io: IoState, item: QueuedItem, queues: seq<seq<QueuedItem>>)
    requires io.Valid() && io.(waitQueue := queues).Valid() && item.Valid() &&
             (item.QueuedRequest? || item.QueuedResponse?)
    ensures SendToReadyQueue(io, item).state.waitQueue == io.waitQueue
    ensures SendToReadyQueue(io.(waitQueue := queues), item).result == SendToReadyQueue(io, item).result
    ensures SendToReadyQueue(io.(waitQueue := queues), item).state ==
            SendToReadyQueue(io, item).state.(waitQueue := queues)
  {
    hide CreateRequest; hide CreateResponse; hide IoState.Valid;
  }

  lemma {:induction false} SendAllIgnoresQueues(io: IoState, items: seq<QueuedItem>, queues: seq<seq<QueuedItem>>)
    requires io.Valid() && io.(waitQueue := queues).Valid()
    requires forall item :: item in items ==> item.Valid() && (item.QueuedRequest? || item.QueuedResponse?)
    ensures SendAll(io.(waitQueue := queues), items).result == SendAll(io, items).result
    ensures SendAll(io.(waitQueue := queues), items).state == SendAll(io, items).state.(waitQueue := queues)
    decreases |items|
  {
    if items != [] {
      SendIgnoresQueues(io, items[0], queues);
      hide SendToReadyQueue; hide IoState.Valid;
      var sent := SendToReadyQueue(io, items[0]);
      if sent.result.Ok? {
        SendAllIgnoresQueues(sent.state, items[1..], queues);
      }
    }
  }

  lemma Shapes(io: IoState)
    requires io.Valid()
    ensures |io.waitQueue| == |io.activeMultiFrame| == |io.juliet.channels|
  {
  }

  lemma PopFront<T>(queue: seq<T>)
    requires queue != []
    ensures multiset(queue) == multiset{queue[0]} + multiset(queue[1..])
    ensures multiset(queue[1..] + [queue[0]]) == multiset(queue)
  {
    assert queue == [queue[0]] + queue[1..];
  }

  lemma QueuedIsValid(io: IoState, channel: ChannelId)
    requires io.Valid() && io.juliet.Knows(channel) && io.waitQueue[channel] != []
    ensures var item := io.waitQueue[channel][0];
      && item.Valid() && (item.QueuedRequest? || item.QueuedResponse?) && item.channel == channel
      && SetQueue(io, channel, io.waitQueue[channel][1..]).Valid()
      && SetQueue(io, channel, io.waitQueue[channel][1..] + [item]).Valid()
  {
    assert io.Waiting(channel, io.waitQueue[channel]);
  }

  lemma PushIsValid(io: IoState, item: QueuedItem)
    requires io.Valid() && item.Valid() && (item.QueuedRequest? || item.QueuedResponse?) &&
             io.juliet.Knows(item.channel)
    ensures SetQueue(io, item.channel, io.waitQueue[item.channel] + [item]).Valid()
  {
    assert io.Waiting(item.channel, io.waitQueue[item.channel]);
  }

  /** On a channel that exists, an item waits or does not. */
  lemma WaitsOrNot(io: IoState, item: QueuedItem)
    requires item.Valid() && (item.QueuedRequest? || item.QueuedResponse?)
    requires io.juliet.Knows(item.channel) && |io.activeMultiFrame| == |io.juliet.channels|
    ensures ItemShouldWait(item, io.juliet, io.activeMultiFrame) in [Ok(None), Ok(Some(item.channel))]
  {
  }

  /** One item after the other. */
  lemma ProcessWaitingStep(io: IoState, channel: ChannelId, remaining: nat)
    requires io.Valid() && io.juliet.Knows(channel)
    ensures io.waitQueue[channel] == [] || remaining == 0 ==>
              ProcessWaiting(io, channel, remaining) == Handled(io, Ok(()))
    ensures io.waitQueue[channel] != [] && remaining > 0 ==>
              var front := ProcessFront(io, channel);
              ProcessWaiting(io, channel, remaining) ==
                if front.result.Err? then Handled(front.state, Err(front.result.error))
                else if front.result.value then Handled(front.state, Ok(()))
                else ProcessWaiting(front.state, channel, remaining - 1)
  {
    hide ProcessFront;
  }

  /** What processing a wait queue comes to: sending the items taken, and keeping the others. */
  ghost predicate AmountsTo(io: IoState, channel: ChannelId, taken: seq<QueuedItem>, r: Handled<()>)
    requires io.Valid() && io.juliet.Knows(channel) && r.state.Valid() && SameShape(r.state, io)
  {
    && (forall item :: item in taken ==>
         item.Valid() && (item.QueuedRequest? || item.QueuedResponse?) && item.channel == channel)
    && SendAll(io, taken).result == r.result
    && r.state == SendAll(io, taken).state.(waitQueue := r.state.waitQueue)
    && multiset(io.waitQueue[channel]) == multiset(r.state.waitQueue[channel]) + multiset(taken)
    && (forall d :: 0 <= d < |io.waitQueue| && d != channel ==> r.state.waitQueue[d] == io.waitQueue[d])
  }

  lemma AmountsToNothing(io: IoState, channel: ChannelId)
    requires io.Valid() && io.juliet.Knows(channel)
    ensures AmountsTo(io, channel, [], Handled(io, Ok(())))
  {
    hide IoState.Valid; hide SendToReadyQueue;
    Shapes(io);
    assert multiset(io.waitQueue[channel]) + multiset([]) == multiset(io.waitQueue[channel]);
  }

  /** Rotating a queue does not change what processing it comes to. */
  lemma AmountsToSame(io: IoState, channel: ChannelId, taken: seq<QueuedItem>, r: Handled<()>, back: IoState)
    requires io.Valid() && io.juliet.Knows(channel) && r.state.Valid() && SameShape(r.state, io) &&
             io.waitQueue[channel] != []
    requires back == SetQueue(io, channel, io.waitQueue[channel][1..] + [io.waitQueue[channel][0]]) && back.Valid()
    requires AmountsTo(back, channel, taken, r)
    ensures AmountsTo(io, channel, taken, r)
  {
    SendAllIgnoresQueues(io, taken, back.waitQueue);
    PopFront(io.waitQueue[channel]);
    hide IoState.Valid; hide SendAll;
  }

  /** Sending the front item first. */
  lemma AmountsToOneMore(io: IoState, channel: ChannelId, taken: seq<QueuedItem>, r: Handled<()>)
    requires io.Valid() && io.juliet.Knows(channel) && r.state.Valid() && SameShape(r.state, io) &&
             io.waitQueue[channel] != []
    requires SetQueue(io, channel, io.waitQueue[channel][1..]).Valid()
    requires io.waitQueue[channel][0].Valid()
    requires io.waitQueue[channel][0].QueuedRequest? || io.waitQueue[channel][0].QueuedResponse?
    requires io.waitQueue[channel][0].channel == channel
    requires var sent := SendToReadyQueue(SetQueue(io, channel, io.waitQueue[channel][1..]), io.waitQueue[channel][0]);
      sent.result.Ok? && AmountsTo(sent.state, channel, taken, r)
    ensures AmountsTo(io, channel, [io.waitQueue[channel][0]] + taken, r)
  {
    var queue := io.waitQueue[channel];
    var popped, item := SetQueue(io, channel, queue[1..]), queue[0];
    var sent, direct := SendToReadyQueue(popped, item), SendToReadyQueue(io, item);
    SendIgnoresQueues(io, item, popped.waitQueue);
    SendIgnoresQueues(popped, item, popped.waitQueue);
    hide SendToReadyQueue; hide IoState.Valid;
    SendAllIgnoresQueues(direct.state, taken, popped.waitQueue);
    assert ([item] + taken)[1..] == taken;
    assert SendAll(io, [item] + taken) == SendAll(direct.state, taken);
    hide SendAll;
    PopFront(queue);
    MoveOne(multiset(queue), multiset(queue[1..]), multiset(r.state.waitQueue[channel]), taken, item);
  }

  lemma MoveOne<T>(whole: multiset<T>, tail: multiset<T>, left: multiset<T>, taken: seq<T>, item: T)
    requires whole == multiset{item} + tail && tail == left + multiset(taken)
    ensures whole == left + multiset([item] + taken)
  {
    assert multiset([item] + taken) == multiset{item} + multiset(taken);
  }

  lemma {:induction false} ProcessWaitingConserves(io: IoState, channel: ChannelId, remaining: nat)
    requires io.Valid() && io.juliet.Knows(channel) && ProcessWaiting(io, channel, remaining).result.Ok?
    ensures AmountsTo(io, channel, Taken(io, channel, remaining), ProcessWaiting(io, channel, remaining))
    decreases remaining
  {
    hide AmountsTo; hide SendAll; hide SendToReadyQueue; hide IoState.Valid;
    Shapes(io);
    var queue := io.waitQueue[channel];
    AmountsToNothing(io, channel);
    if queue != [] && remaining > 0 {
      QueuedIsValid(io, channel);
      var item, popped := queue[0], SetQueue(io, channel, queue[1..]);
      var r, taken := ProcessWaiting(io, channel, remaining), Taken(io, channel, remaining);
      var waits := ItemShouldWait(item, popped.juliet, popped.activeMultiFrame);
      hide ItemShouldWait;
      if waits.Ok? && waits.value.Some? {
        var back := SetQueue(io, channel, queue[1..] + [item]);
        ProcessWaitingConserves(back, channel, remaining - 1);
        AmountsToSame(io, channel, taken, r, back);
      } else if waits.Ok? {
        var sent := SendToReadyQueue(popped, item);
        if sent.state.juliet.channels[channel].AllowedToSendRequest() {
          ProcessWaitingConserves(sent.state, channel, remaining - 1);
          AmountsToOneMore(io, channel, Taken(sent.state, channel, remaining - 1), r);
        } else {
          AmountsToNothing(sent.state, channel);
          assert sent.result.value == ();
          assert r == sent;
          AmountsToOneMore(io, channel, [], r);
        }
      }
    }
  }

  // ---------------------------------------------------------------- when an item waits

  /** The message of an item, but for the identifier that a request gets later. */
  function Draft(item: QueuedItem): OutgoingMessage
    requires item.QueuedRequest? || item.QueuedResponse?
  {
    var id := if item.QueuedResponse? then item.id else 0;
    var kind := if item.QueuedRequest? then if item.payload.Some? then RequestPl else Request
                else if item.payload.Some? then ResponsePl else Response;
    OutgoingMessage(Frame(kind, item.channel, id), item.payload)
  }

  /** The channel has room for a request, and no other message of several frames is in the way. */
  ghost predicate MayGoOut(io: IoState, item: QueuedItem)
    requires io.Valid() && item.Valid() && (item.QueuedRequest? || item.QueuedResponse?) &&
             io.juliet.Knows(item.channel)
  {
    var ch := io.juliet.channels[item.channel];
    && (item.QueuedRequest? ==> |ch.outgoing| < ch.config.requestLimit)
    && (io.activeMultiFrame[item.channel].None? || |Draft(item).Frames().AllFrames(io.juliet.mfs)| == 1)
  }

  /** An item waits exactly if it may not go out. */
  lemma WaitsExactly(io: IoState, item: QueuedItem)
    requires io.Valid() && item.Valid() && (item.QueuedRequest? || item.QueuedResponse?) &&
             io.juliet.Knows(item.channel)
    ensures |io.activeMultiFrame| == |io.juliet.channels|
    ensures ItemShouldWait(item, io.juliet, io.activeMultiFrame) ==
            Ok(if MayGoOut(io, item) then None else Some(item.channel))
  {
    ClosedForms(Draft(item), io.juliet.mfs);
    assert |Draft(item).Frames().AllFrames(io.juliet.mfs)| >= 1;
    hide FrameIter.AllFrames;
  }

  /**
   * Handing over a request or a response leaves the wait queues alone if and only if it may go out;
   * otherwise it goes to the end of the queue of its channel, and nothing else happens.
   */
  lemma WaitsOrGoesOut(io: IoState, item: QueuedItem)
    requires io.Valid() && item.Valid() && (item.QueuedRequest? || item.QueuedResponse?) &&
             io.juliet.Knows(item.channel)
    ensures item.channel < |io.waitQueue|
    ensures var r, c := HandleIncomingItem(io, item), item.channel;
      && (r.state.waitQueue == io.waitQueue <==> MayGoOut(io, item))
      && (!MayGoOut(io, item) ==> r == Handled(io.(waitQueue := io.waitQueue[c := io.waitQueue[c] + [item]]), Ok(())))
  {
    hide MayGoOut; hide ItemShouldWait;
    WaitsExactly(io, item);
    Shapes(io);
    if MayGoOut(io, item) {
      SendIgnoresQueues(io, item, io.waitQueue);
    } else {
      PushIsValid(io, item);
      assert |io.waitQueue[item.channel] + [item]| != |io.waitQueue[item.channel]|;
    }
    hide IoState.Valid; hide SendToReadyQueue;
  }

  /** An item that may not be sent yet. */
  ghost predicate MustWait(io: IoState, item: QueuedItem)
    requires io.Valid()
  {
    && item.Valid() && (item.QueuedRequest? || item.QueuedResponse?) && io.juliet.Knows(item.channel)
    && !MayGoOut(io, item)
  }

  /** An item waits all the more if more requests are under way or more channels are locked. */
  lemma WaitsAfter(io: IoState, other: IoState, item: QueuedItem)
    requires io.Valid() && other.Valid() && SameShape(other, io) && MustWait(io, item)
    requires |other.juliet.channels[item.channel].outgoing| >= |io.juliet.channels[item.channel].outgoing|
    requires other.juliet.channels[item.channel].config == io.juliet.channels[item.channel].config
    requires io.activeMultiFrame[item.channel].Some? ==> other.activeMultiFrame[item.channel].Some?
    ensures MustWait(other, item)
  {
    hide FrameIter.AllFrames;
  }

  lemma SendLocksMore(io: IoState, item: QueuedItem, c: ChannelId)
    requires io.Valid() && item.Valid() && (item.QueuedRequest? || item.QueuedResponse?) && io.juliet.Knows(c)
    ensures var r := SendToReadyQueue(io, item).state;
      && io.juliet.channels[c].outgoing <= r.juliet.channels[c].outgoing
      && r.juliet.channels[c].config == io.juliet.channels[c].config
      && (io.activeMultiFrame[c].Some? ==> r.activeMultiFrame[c].Some?)
  {
  }

  /** Sending an item never makes room for another. */
  lemma WaitingIsMonotone(io: IoState, item: QueuedItem, other: QueuedItem)
    requires io.Valid() && item.Valid() && (item.QueuedRequest? || item.QueuedResponse?)
    requires MustWait(io, other)
    ensures MustWait(SendToReadyQueue(io, item).state, other)
  {
    var r := SendToReadyQueue(io, item).state;
    Shapes(io);
    Shapes(r);
    SendLocksMore(io, item, other.channel);
    Subset(io.juliet.channels[other.channel].outgoing, r.juliet.channels[other.channel].outgoing);
    hide IoState.Valid; hide SendToReadyQueue; hide MustWait;
    WaitsAfter(io, r, other);
  }

  ghost predicate AllWait(io: IoState, items: seq<QueuedItem>)
    requires io.Valid()
  {
    forall item :: item in items ==> MustWait(io, item)
  }

  ghost predicate RequestsWait(io: IoState, items: seq<QueuedItem>)
    requires io.Valid()
  {
    forall item :: item in items && item.QueuedRequest? ==> MustWait(io, item)
  }

  lemma SaturatedRequestsWait(io: IoState, channel: ChannelId)
    requires io.Valid() && io.juliet.Knows(channel) && !io.juliet.channels[channel].AllowedToSendRequest()
    ensures RequestsWait(io, io.waitQueue[channel])
  {
    assert io.Waiting(channel, io.waitQueue[channel]);
  }

  lemma StillWaiting(io: IoState, item: QueuedItem, items: seq<QueuedItem>)
    requires io.Valid() && item.Valid() && (item.QueuedRequest? || item.QueuedResponse?) && AllWait(io, items)
    ensures AllWait(SendToReadyQueue(io, item).state, items)
  {
    hide SendToReadyQueue; hide MustWait; hide IoState.Valid;
    forall other | other in items ensures MustWait(SendToReadyQueue(io, item).state, other) {
      WaitingIsMonotone(io, item, other);
    }
  }

  /** Items at the back of the queue have been looked at and had to wait. */
  lemma {:induction false} ProcessWaitingLeaves(io: IoState, channel: ChannelId, remaining: nat)
    requires io.Valid() && io.juliet.Knows(channel) && ProcessWaiting(io, channel, remaining).result.Ok?
    requires remaining <= |io.waitQueue[channel]| && AllWait(io, io.waitQueue[channel][remaining..])
    ensures var r, taken := ProcessWaiting(io, channel, remaining).state, Taken(io, channel, remaining);
      && RequestsWait(r, r.waitQueue[channel])
      && (taken == [] || r.juliet.channels[channel].AllowedToSendRequest() ==> AllWait(r, r.waitQueue[channel]))
      && (taken == [] ==>
            r == SetQueue(io, channel, io.waitQueue[channel][remaining..] + io.waitQueue[channel][..remaining]))
    decreases remaining
  {
    hide SendToReadyQueue; hide IoState.Valid; hide MustWait;
    Shapes(io);
    var queue := io.waitQueue[channel];
    if queue == [] || remaining == 0 {
      assert queue[remaining..] == queue && queue + queue[..remaining] == queue;
      assert io.waitQueue[channel := queue] == io.waitQueue;
    } else {
      QueuedIsValid(io, channel);
      var item, popped := queue[0], SetQueue(io, channel, queue[1..]);
      var waits := ItemShouldWait(item, popped.juliet, popped.activeMultiFrame);
      if waits.Ok? && waits.value.Some? {
        var back := SetQueue(io, channel, queue[1..] + [item]);
        assert (queue[1..] + [item])[remaining - 1..] == queue[remaining..] + [item];
        assert (queue[1..] + [item])[..remaining - 1] == queue[1..remaining];
        assert queue[remaining..] + [item] + queue[1..remaining] == queue[remaining..] + queue[..remaining];
        WaitsTogether(io, back, queue[remaining..], item);
        ProcessWaitingLeaves(back, channel, remaining - 1);
      } else if waits.Ok? {
        var sent := SendToReadyQueue(popped, item);
        SameWaiting(io, popped, queue[remaining..]);
        StillWaiting(popped, item, queue[remaining..]);
        SendIgnoresQueues(popped, item, popped.waitQueue);
        if sent.state.juliet.channels[channel].AllowedToSendRequest() {
          assert queue[1..][remaining - 1..] == queue[remaining..];
          ProcessWaitingLeaves(sent.state, channel, remaining - 1);
          AllRequestsWait(ProcessWaiting(io, channel, remaining).state, channel);
        } else {
          SaturatedRequestsWait(sent.state, channel);
        }
      }
    }
  }

  lemma AllRequestsWait(io: IoState, channel: ChannelId)
    requires io.Valid() && io.juliet.Knows(channel)
    ensures AllWait(io, io.waitQueue[channel]) ==> RequestsWait(io, io.waitQueue[channel])
  {
  }

  lemma SameWaiting(io: IoState, other: IoState, items: seq<QueuedItem>)
    requires io.Valid() && other.Valid() && other == io.(waitQueue := other.waitQueue) && AllWait(io, items)
    ensures AllWait(other, items)
  {
    hide MustWait;
    forall item | item in items ensures MustWait(other, item) {
      StaysWaiting(io, other, item);
    }
  }

  lemma StaysWaiting(io: IoState, other: IoState, item: QueuedItem)
    requires io.Valid() && other.Valid() && other == io.(waitQueue := other.waitQueue) && MustWait(io, item)
    ensures MustWait(other, item)
  {
    hide FrameIter.AllFrames; hide IoState.Valid;
  }

  lemma WaitsTogether(io: IoState, other: IoState, items: seq<QueuedItem>, item: QueuedItem)
    requires io.Valid() && other.Valid() && other == io.(waitQueue := other.waitQueue) && AllWait(io, items)
    requires item.Valid() && (item.QueuedRequest? || item.QueuedResponse?) && io.juliet.Knows(item.channel)
    requires ItemShouldWait(item, io.juliet, io.activeMultiFrame).Ok? &&
             ItemShouldWait(item, io.juliet, io.activeMultiFrame).value.Some?
    ensures AllWait(other, items + [item])
  {
    WaitsExactly(io, item);
    StaysWaiting(io, other, item);
    SameWaiting(io, other, items);
    hide MustWait;
  }

  /**
   * Processing a wait queue sends some of its items, in order, and keeps the others. No request that
   * could be sent is left behind; if the channel is not saturated, no response either; and if nothing
   * could be sent, then every item must wait and the queue is as it was.
   */
  lemma ProcessWaitQueueConserves(io: IoState, channel: ChannelId)
    requires io.Valid() && io.juliet.Knows(channel) && ProcessWaitQueue(io, channel).result.Ok?
    ensures var r, taken := ProcessWaitQueue(io, channel).state, Taken(io, channel, |io.waitQueue[channel]|);
      && AmountsTo(io, channel, taken, ProcessWaitQueue(io, channel))
      && RequestsWait(r, r.waitQueue[channel])
      && (r.juliet.channels[channel].AllowedToSendRequest() ==> AllWait(r, r.waitQueue[channel]))
      && (taken == [] ==> r == io && AllWait(r, r.waitQueue[channel]))
  {
    var n := |io.waitQueue[channel]|;
    ProcessWaitingConserves(io, channel, n);
    assert io.waitQueue[channel][n..] == [];
    ProcessWaitingLeaves(io, channel, n);
    assert io.waitQueue[channel][n..] + io.waitQueue[channel][..n] == io.waitQueue[channel];
    assert io.waitQueue[channel := io.waitQueue[channel]] == io.waitQueue;
    hide IoState.Valid; hide ProcessWaiting; hide Taken;
  }
}
