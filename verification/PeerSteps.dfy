// The steps of a peer that send: an item is enqueued, the wait queue is processed, the next frame is
// readied, the current frame is written out, and bytes travel.
module PeerSteps {
  import opened Types
  import opened Message
  import opened Transfer
  import opened IoState
  import opened Duplex
  import opened DuplexSteps
  import opened TwoPeers
  import opened PeerSends
  import WaitQueue

  // ---------------------------------------------------------------- wait queues

  /** Nothing that the channels see has changed. */
  ghost predicate SameView(p: Peer, n: Peer) {
    && n.io.juliet == p.io.juliet && n.io.readyQueue == p.io.readyQueue &&
         n.io.activeMultiFrame == p.io.activeMultiFrame
    && n.current == p.current && n.sent == p.sent && n.history == p.history
  }

  lemma SameLanes(p: Peer, n: Peer, q: Peer, s: Setup)
    requires Sized(p, s) && Sized(n, s) && Sized(q, s) && SameView(p, n) && Lanes(p, q, s)
    ensures Lanes(n, q, s)
  {
    hide Inv; hide Sized; hide Lane;
    forall d: ChannelId | s.Knows(d) ensures Inv(Proj(n, d, s), Proj(q, d, s), s.At(d)) {
      assert Proj(n, d, s) == Proj(p, d, s);
    }
  }

  lemma PatientWith(p: Peer, c: ChannelId, queue: seq<QueuedItem>, d: ChannelId, s: Setup)
    requires Sized(p, s) && s.Knows(c) && s.Knows(d) && Patient(p, d, s) && c < |p.io.waitQueue| &&
             SetQueue(p.io, c, queue).Valid()
    requires forall item :: item in queue ==> SmallEnough(item, s.configs[c])
    requires AnswerIds(queue) <= multiset(Complete(p.io.juliet.channels[c]))
    ensures Patient(p.(io := SetQueue(p.io, c, queue)), d, s)
  {
    hide Complete; hide AnswerIds;
  }

  lemma QueueKeepsSound(p: Peer, c: ChannelId, queue: seq<QueuedItem>, s: Setup)
    requires Sound(p, s) && s.Knows(c) && c < |p.io.waitQueue| && SetQueue(p.io, c, queue).Valid()
    requires forall item :: item in queue ==> SmallEnough(item, s.configs[c])
    requires AnswerIds(queue) <= multiset(Complete(p.io.juliet.channels[c]))
    ensures Sound(p.(io := SetQueue(p.io, c, queue)), s)
  {
    hide IoState.Valid; hide Complete; hide AnswerIds; hide Framed; hide CurrentIs; hide Patient;
    forall d: ChannelId | s.Knows(d) ensures Patient(p.(io := SetQueue(p.io, c, queue)), d, s) {
      PatientWith(p, c, queue, d, s);
    }
  }

  /** Only the wait queue of one channel has changed. */
  lemma QueueKeepsGood(p: Peer, q: Peer, c: ChannelId, queue: seq<QueuedItem>, s: Setup)
    requires Good(p, q, s) && s.Knows(c) && c < |p.io.waitQueue| && SetQueue(p.io, c, queue).Valid()
    requires forall item :: item in queue ==> SmallEnough(item, s.configs[c])
    requires AnswerIds(queue) <= multiset(Complete(p.io.juliet.channels[c]))
    ensures Good(p.(io := SetQueue(p.io, c, queue)), q, s)
  {
    hide IoState.Valid; hide Complete; hide AnswerIds; hide Flat; hide Framed; hide CurrentIs; hide Patient;
    hide Lanes;
    QueueKeepsSound(p, c, queue, s);
    SameLanes(p, p.(io := SetQueue(p.io, c, queue)), q, s);
  }

  lemma {:induction false} AnswerIdsAppend(x: seq<QueuedItem>, item: QueuedItem)
    ensures AnswerIds(x + [item]) == AnswerIds(x) + (if item.QueuedResponse? then multiset{item.id} else multiset{})
  {
    if x == [] {
      assert x + [item] == [item] && [item][1..] == [];
    } else {
      assert (x + [item])[1..] == x[1..] + [item];
      AnswerIdsAppend(x[1..], item);
    }
  }

  lemma OneMoreAnswer(waiting: multiset<Id>, complete: set<Id>, id: Id)
    requires waiting <= multiset(complete) && id in complete && id !in waiting
    ensures waiting + multiset{id} <= multiset(complete)
  {
  }

  lemma OneAnswerLess(waiting: multiset<Id>, complete: set<Id>, id: Id)
    requires multiset{id} + waiting <= multiset(complete)
    ensures waiting <= multiset(complete) && id in complete && id !in waiting
  {
    assert (multiset{id} + waiting)[id] <= multiset(complete)[id] <= 1;
    assert (multiset{id} + waiting)[id] == 1 + waiting[id];
  }

  /** The front item leaves the queue: it may be sent if it need not wait. */
  lemma PopKeepsGood(p: Peer, q: Peer, c: ChannelId, s: Setup)
    requires Good(p, q, s) && s.Knows(c) && c < |p.io.waitQueue| && p.io.waitQueue[c] != []
    ensures p.io.juliet.Knows(c) && |p.io.activeMultiFrame| == |p.io.juliet.channels|
    ensures var item, n := p.io.waitQueue[c][0], p.(io := SetQueue(p.io, c, p.io.waitQueue[c][1..]));
      && (item.QueuedRequest? || item.QueuedResponse?) && item.channel == c
      && Good(n, q, s) && Honest(n, item, s)
  {
    hide IoState.Valid; hide Good; hide Complete;
    var queue := p.io.waitQueue[c];
    var item := queue[0];
    QueueFacts(p, q, c, s);
    var complete := Complete(p.io.juliet.channels[c]);
    if item.QueuedResponse? {
      OneAnswerLess(AnswerIds(queue[1..]), complete, item.id);
    }
    assert item in queue;
    QueueKeepsGood(p, q, c, queue[1..], s);
    var n := p.(io := SetQueue(p.io, c, queue[1..]));
    assert Sized(n, s) by { GoodIsSound(n, q, s); }
  }

  lemma QueueFacts(p: Peer, q: Peer, c: ChannelId, s: Setup)
    requires Good(p, q, s) && s.Knows(c) && c < |p.io.waitQueue| && p.io.waitQueue[c] != []
    ensures var queue := p.io.waitQueue[c];
      && p.io.juliet.Knows(c) && |p.io.activeMultiFrame| == |p.io.juliet.channels|
      && queue[0].Valid() && (queue[0].QueuedRequest? || queue[0].QueuedResponse?) && queue[0].channel == c
      && SetQueue(p.io, c, queue[1..]).Valid() && SetQueue(p.io, c, queue[1..] + [queue[0]]).Valid()
      && (forall item :: item in queue ==> SmallEnough(item, s.configs[c]))
      && AnswerIds(queue) <= multiset(Complete(p.io.juliet.channels[c]))
  {
    WaitQueue.Shapes(p.io);
    WaitQueue.QueuedIsValid(p.io, c);
    assert Patient(p, c, s);
  }

  lemma RotateKeepsGood(p: Peer, q: Peer, c: ChannelId, s: Setup)
    requires Good(p, q, s) && s.Knows(c) && c < |p.io.waitQueue| && p.io.waitQueue[c] != []
    ensures Good(p.(io := SetQueue(p.io, c, p.io.waitQueue[c][1..] + [p.io.waitQueue[c][0]])), q, s)
  {
    hide IoState.Valid; hide Good; hide Complete;
    var queue := p.io.waitQueue[c];
    QueueFacts(p, q, c, s);
    AnswerIdsAppend(queue[1..], queue[0]);
    assert AnswerIds(queue[1..] + [queue[0]]) == AnswerIds(queue);
    hide AnswerIds;
    QueueKeepsGood(p, q, c, queue[1..] + [queue[0]], s);
  }

  /** The peer after the front item of a wait queue has been looked at. */
  ghost function Fronted(p: Peer, q: Peer, c: ChannelId, s: Setup): Peer
    requires Good(p, q, s) && s.Knows(c) && c < |p.io.waitQueue| && p.io.waitQueue[c] != []
  {
    PopKeepsGood(p, q, c, s);
    var item, popped := p.io.waitQueue[c][0], p.(io := SetQueue(p.io, c, p.io.waitQueue[c][1..]));
    if NeedNotWait(popped.io, item) then Sent(popped, item, s)
    else p.(io := SetQueue(p.io, c, p.io.waitQueue[c][1..] + [item]))
  }

  lemma SentIo(p: Peer, q: Peer, item: QueuedItem, s: Setup)
    requires Good(p, q, s) && Honest(p, item, s)
    ensures Sent(p, item, s) == p.(io := SendToReadyQueue(p.io, item).state, history := Sent(p, item, s).history)
  {
    hide SendToReadyQueue; hide SendRequest; hide SendAnswer; hide SendCancel; hide Proj;
  }

  lemma FrontKeepsGood(p: Peer, q: Peer, c: ChannelId, s: Setup)
    requires Good(p, q, s) && s.Knows(c) && c < |p.io.waitQueue| && p.io.waitQueue[c] != [] && p.io.juliet.Knows(c)
    ensures var n, r := Fronted(p, q, c, s), ProcessFront(p.io, c);
      r.result.Ok? && n.io == r.state && Good(n, q, s) && n == p.(io := n.io, history := n.history)
  {
    hide Good; hide IoState.Valid; hide SendToReadyQueue; hide Honest; hide Sent; hide ItemShouldWait;
    PopKeepsGood(p, q, c, s);
    QueueFacts(p, q, c, s);
    WaitQueue.WaitsOrNot(p.io, p.io.waitQueue[c][0]);
    var item, popped := p.io.waitQueue[c][0], p.(io := SetQueue(p.io, c, p.io.waitQueue[c][1..]));
    if NeedNotWait(popped.io, item) {
      SendKeepsGood(popped, q, item, s);
      SentIo(popped, q, item, s);
    } else {
      RotateKeepsGood(p, q, c, s);
    }
  }

  lemma GoodShapes(p: Peer, q: Peer, s: Setup)
    requires Good(p, q, s)
    ensures p.io.Valid() && p.io.juliet.mfs == s.mfs
    ensures |p.io.waitQueue| == |p.io.activeMultiFrame| == |p.io.juliet.channels| == |p.history| == |s.configs|
  {
    WaitQueue.Shapes(p.io);
  }

  /** The peer after up to `remaining` items of a wait queue have been looked at. */
  ghost function Drained(p: Peer, q: Peer, c: ChannelId, remaining: nat, s: Setup): (n: Peer)
    requires Good(p, q, s) && s.Knows(c)
    ensures Good(n, q, s) && n == p.(io := n.io, history := n.history)
    ensures p.io.Valid() && p.io.juliet.Knows(c) && ProcessWaiting(p.io, c, remaining) == Handled(n.io, Ok(()))
    decreases remaining
  {
    hide Good; hide Fronted; hide ProcessFront; hide IoState.Valid;
    GoodShapes(p, q, s);
    WaitQueue.ProcessWaitingStep(p.io, c, remaining);
    if p.io.waitQueue[c] == [] || remaining == 0 then p
    else
      FrontKeepsGood(p, q, c, s);
      var front := Fronted(p, q, c, s);
      if ProcessFront(p.io, c).result.value then front else Drained(front, q, c, remaining - 1, s)
  }

  // ---------------------------------------------------------------- enqueueing

  /** The peer after the local endpoint has handed over an item. */
  ghost function Enqueued(p: Peer, q: Peer, item: QueuedItem, s: Setup): Peer
    requires Good(p, q, s) && Honest(p, item, s)
  {
    GoodShapes(p, q, s);
    if (item.QueuedRequest? || item.QueuedResponse?) && !NeedNotWait(p.io, item) then
      p.(io := SetQueue(p.io, item.channel, p.io.waitQueue[item.channel] + [item]))
    else Sent(p, item, s)
  }

  lemma EnqueueKeepsGood(p: Peer, q: Peer, item: QueuedItem, s: Setup)
    requires Good(p, q, s) && Honest(p, item, s)
    ensures p.io.Valid() && p.io.Indexable(item)
    ensures HandleIncomingItem(p.io, item).result.Ok?
    ensures Enqueued(p, q, item, s).io == HandleIncomingItem(p.io, item).state
    ensures Good(Enqueued(p, q, item, s), q, s)
  {
    hide Good; hide IoState.Valid; hide SendToReadyQueue; hide Sent; hide ItemShouldWait; hide AnswerIds;
    hide Complete; hide MayCancelOn;
    GoodShapes(p, q, s);
    if item.QueuedRequest? || item.QueuedResponse? {
      WaitQueue.WaitsOrNot(p.io, item);
    } else {
      assert ItemShouldWait(item, p.io.juliet, p.io.activeMultiFrame) == Ok(None) by { NeverWaits(p.io, item); }
    }
    if (item.QueuedRequest? || item.QueuedResponse?) && !NeedNotWait(p.io, item) {
      var c := item.channel;
      var queue := p.io.waitQueue[c];
      WaitsIn(p, q, item, s);
      AnswerIdsAppend(queue, item);
      if item.QueuedResponse? {
        OneMoreAnswer(AnswerIds(queue), Complete(p.io.juliet.channels[c]), item.id);
      } else {
        assert AnswerIds(queue) + multiset{} == AnswerIds(queue);
      }
      QueueKeepsGood(p, q, c, queue + [item], s);
    } else {
      SendKeepsGood(p, q, item, s);
      SentIo(p, q, item, s);
    }
  }

  lemma NeverWaits(io: IoState, item: QueuedItem)
    requires item.Valid() && |io.activeMultiFrame| == |io.juliet.channels| && !item.QueuedRequest? &&
             !item.QueuedResponse?
    ensures ItemShouldWait(item, io.juliet, io.activeMultiFrame) == Ok(None)
  {
  }

  lemma WaitsIn(p: Peer, q: Peer, item: QueuedItem, s: Setup)
    requires Good(p, q, s) && item.Valid() && (item.QueuedRequest? || item.QueuedResponse?) && s.Knows(item.channel)
    ensures |p.io.waitQueue| == |s.configs|
    ensures var c := item.channel;
      && SetQueue(p.io, c, p.io.waitQueue[c] + [item]).Valid()
      && (forall i :: i in p.io.waitQueue[c] ==> SmallEnough(i, s.configs[c]))
      && AnswerIds(p.io.waitQueue[c]) <= multiset(Complete(p.io.juliet.channels[c]))
  {
    hide IoState.Valid; hide AnswerIds; hide Complete; hide Lanes; hide Linked; hide Framed; hide CurrentIs;
    WaitQueue.Shapes(p.io);
    WaitQueue.PushIsValid(p.io, item);
    assert Patient(p, item.channel, s);
  }

  // ---------------------------------------------------------------- frames

  /** The peer after the next frame has become the current one. */
  ghost function Readied(p: Peer, s: Setup): Peer
    requires Sound(p, s) && p.io.readyQueue != []
  {
    var it := p.io.readyQueue[0];
    var c := it.msg.header.channel;
    assert s.Knows(c);
    With(p, ReadyNextFrame(p.io), c, ReadyNext(Readying(p, s), s.At(c))).(current := Some(it))
  }

  /** What the channel of the next frame sees. */
  ghost function Readying(p: Peer, s: Setup): (e: End)
    requires Sound(p, s) && p.io.readyQueue != []
    ensures e.ready != [] && e.ready[0] == p.io.readyQueue[0]
  {
    assert s.Knows(p.io.readyQueue[0].msg.header.channel);
    Proj(p, p.io.readyQueue[0].msg.header.channel, s)
  }

  lemma LanesOfNext(queue: seq<FrameIter>, back: seq<FrameIter>, d: ChannelId)
    requires queue != [] && |back| <= 1
    requires forall b :: b in back ==> b.msg.header.channel == queue[0].msg.header.channel
    ensures d == queue[0].msg.header.channel ==> Lane(queue, d)[1..] + back == Lane(queue[1..] + back, d)
    ensures d != queue[0].msg.header.channel ==> Lane(queue[1..] + back, d) == Lane(queue, d)
  {
    LaneAppend(queue[1..], back, d);
    if back != [] {
      assert back[0] in back;
      LaneOne(back[0], d);
      assert back == [back[0]];
    }
  }

  lemma ReadyMoves(p: Peer, s: Setup)
    requires Sound(p, s) && p.current.None? && p.io.readyQueue != []
    ensures var n, c := Readied(p, s), p.io.readyQueue[0].msg.header.channel;
      Sized(n, s) && s.Knows(c) && Moved(p, n, c, ReadyNext(Readying(p, s), s.At(c)), s)
  {
    hide IoState.Valid; hide Patient; hide CurrentIs;
    var it, n := p.io.readyQueue[0], Readied(p, s);
    assert it in p.io.readyQueue;
    var back := if it.IsFinal(s.mfs) then [] else [it.Rest(s.mfs)];
    forall d: ChannelId
      ensures d == it.msg.header.channel ==> Lane(p.io.readyQueue, d)[1..] + back == Lane(n.io.readyQueue, d)
      ensures d != it.msg.header.channel ==> Lane(n.io.readyQueue, d) == Lane(p.io.readyQueue, d) {
      LanesOfNext(p.io.readyQueue, back, d);
    }
    hide Lane;
  }

  lemma ReadyKeepsSound(p: Peer, s: Setup)
    requires Sound(p, s) && p.current.None? && p.io.readyQueue != []
    requires Sized(Readied(p, s), s)
    ensures Sound(Readied(p, s), s)
  {
    hide IoState.Valid; hide Complete; hide AnswerIds; hide ReadyNext; hide Proj;
    var n, it := Readied(p, s), p.io.readyQueue[0];
    assert it in p.io.readyQueue;
    assert forall i :: i in n.io.readyQueue ==> i in p.io.readyQueue || (!it.IsFinal(s.mfs) && i == it.Rest(s.mfs));
    forall d: ChannelId | s.Knows(d) ensures Patient(n, d, s) {
      assert Patient(p, d, s);
    }
    hide Patient;
  }

  lemma ReadyKeepsGood(p: Peer, q: Peer, s: Setup)
    requires Good(p, q, s) && p.current.None? && p.io.readyQueue != []
    ensures Good(Readied(p, s), q, s) && Readied(p, s).io == ReadyNextFrame(p.io)
  {
    hide Inv; hide IoState.Valid; hide Patient; hide Flat; hide CurrentIs; hide Framed; hide ReadyNext;
    ReadyMoves(p, s);
    ReadyKeepsSound(p, s);
    var n, c := Readied(p, s), p.io.readyQueue[0].msg.header.channel;
    var e := Readying(p, s);
    assert Inv(e, Proj(q, c, s), s.At(c));
    hide Readying; hide Sound; hide Proj;
    ReadyKeepsInv(e, Proj(q, c, s), s.At(c));
    MovedLanes(p, n, q, c, ReadyNext(e, s.At(c)), s);
  }

  /** The peer once the current frame has gone, before the wait queue is processed. */
  ghost function Gone(p: Peer, s: Setup): Peer
    requires Sound(p, s) && p.current.Some?
  {
    var it := p.current.value;
    var c := it.msg.header.channel;
    assert it in [it];
    With(p, Cleared(p.io), c, SendCurrent(Going(p, s), s.At(c)))
      .(current := None, sent := p.sent + [it], wire := p.wire + FrameBytes(it, s.mfs))
  }

  /** What the channel of the current frame sees. */
  ghost function Going(p: Peer, s: Setup): (e: End)
    requires Sound(p, s) && p.current.Some?
    ensures e.current == p.current && s.Knows(p.current.value.msg.header.channel)
  {
    assert p.current.value in [p.current.value];
    Proj(p, p.current.value.msg.header.channel, s)
  }

  lemma GoneMoves(p: Peer, s: Setup)
    requires Sound(p, s) && p.current.Some?
    ensures var n, c := Gone(p, s), p.current.value.msg.header.channel;
      Sized(n, s) && Moved(p, n, c, SendCurrent(Going(p, s), s.At(c)), s)
  {
    hide IoState.Valid; hide Patient;
    var it, n := p.current.value, Gone(p, s);
    assert it in [it];
    forall d: ChannelId ensures Lane(n.sent, d) == Lane(p.sent, d) + (if d == it.msg.header.channel then [it] else []) {
      LaneAppend(p.sent, [it], d);
      LaneOne(it, d);
    }
    hide Lane;
    WaitQueue.Shapes(p.io);
  }

  lemma GoneKeepsSound(p: Peer, s: Setup)
    requires Sound(p, s) && p.current.Some? && Sized(Gone(p, s), s)
    ensures Sound(Gone(p, s), s)
  {
    hide IoState.Valid; hide Complete; hide AnswerIds; hide SendCurrent; hide Proj; hide FrameBytes;
    var n, it := Gone(p, s), p.current.value;
    assert it in [it];
    forall d: ChannelId | s.Knows(d) ensures Patient(n, d, s) {
      assert Patient(p, d, s);
    }
    hide Patient;
  }

  lemma GoneKeepsGood(p: Peer, q: Peer, s: Setup)
    requires Good(p, q, s) && p.current.Some?
    ensures Good(Gone(p, s), q, s)
  {
    hide Inv; hide IoState.Valid; hide Patient; hide Flat; hide SendCurrent; hide FrameBytes;
    GoneMoves(p, s);
    GoneKeepsSound(p, s);
    var n, it := Gone(p, s), p.current.value;
    var c := it.msg.header.channel;
    var e := Going(p, s);
    assert Inv(e, Proj(q, c, s), s.At(c));
    assert it in [it];
    FlatAppend(p.sent, it, s.mfs);
    assert q.io.buffer + (p.wire + FrameBytes(it, s.mfs)) == (q.io.buffer + p.wire) + FrameBytes(it, s.mfs);
    hide Going; hide Proj; hide Framed; hide CurrentIs;
    SentKeepsInv(e, Proj(q, c, s), s.At(c));
    MovedLanes(p, n, q, c, SendCurrent(e, s.At(c)), s);
    hide Lanes;
  }

  /** The peer after the current frame has been written out. */
  ghost function Written(p: Peer, q: Peer, s: Setup): (n: Peer)
    requires Good(p, q, s) && p.current.Some?
    ensures Good(n, q, s)
  {
    GoneKeepsGood(p, q, s);
    var n, c := Gone(p, s), Going(p, s).current.value.msg.header.channel;
    GoodShapes(n, q, s);
    Drained(n, q, c, |n.io.waitQueue[c]|, s)
  }

  lemma WrittenIo(p: Peer, q: Peer, s: Setup)
    requires Good(p, q, s) && p.current.Some?
    ensures p.io.Valid() && FrameSent(p.io) == Handled(Written(p, q, s).io, Ok(()))
    ensures Written(p, q, s).sent == p.sent + [p.current.value] && Written(p, q, s).current.None?
  {
    GoneKeepsGood(p, q, s);
    var n, it := Gone(p, s), p.current.value;
    assert it in [it];
    GoodShapes(n, q, s);
    hide Good; hide ProcessWaiting; hide Drained; hide SendCurrent; hide FrameBytes; hide IoState.Valid;
    hide Going; hide Patient;
    var c := it.msg.header.channel;
    var d := Drained(n, q, c, |n.io.waitQueue[c]|, s);
    assert ProcessWaitQueue(Cleared(p.io), c) == Handled(d.io, Ok(()));
  }

  // ---------------------------------------------------------------- bytes

  /** Some bytes travel from `p` to `q`. */
  lemma DeliverKeepsGood(p: Peer, q: Peer, k: nat, s: Setup)
    requires Good(p, q, s) && k <= |p.wire|
    ensures Good(p.(wire := p.wire[k..]), q.(io := q.io.(buffer := q.io.buffer + p.wire[..k])), s)
  {
    hide Inv; hide Complete; hide AnswerIds; hide Flat; hide Framed; hide CurrentIs; hide Lane;
    var n, m := p.(wire := p.wire[k..]), q.(io := q.io.(buffer := q.io.buffer + p.wire[..k]));
    assert m.io.buffer + n.wire == q.io.buffer + (p.wire[..k] + p.wire[k..]);
    assert m.io.Valid() && Sized(n, s) && Sized(m, s);
    hide IoState.Valid;
    forall d: ChannelId | s.Knows(d)
      ensures Patient(n, d, s) && Patient(m, d, s) && Proj(n, d, s) == Proj(p, d, s) && Proj(m, d, s) == Proj(q, d, s) {
      assert Patient(p, d, s) && Patient(q, d, s);
    }
    hide Patient; hide Proj;
    forall d: ChannelId | s.Knows(d) ensures Inv(Proj(n, d, s), Proj(m, d, s), s.At(d)) {
      assert Inv(Proj(p, d, s), Proj(q, d, s), s.At(d));
    }
  }
}
