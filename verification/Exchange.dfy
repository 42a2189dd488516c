// The smallest exchange: a request without a payload travels from one peer to the other. It shows that
// the steps of the two-peer model can be taken, and that they get a message across.
module Exchange {
  import opened Types
  import opened Header
  import opened Message
  import opened Protocol
  import opened Transfer
  import opened IoState
  import opened TwoPeers
  import opened PeerSends
  import opened PeerSteps
  import opened PeerReceives
  import opened Runs

  const ITEM := QueuedRequest(0, 0, None)
  const MESSAGE := OutgoingMessage(Frame(Request, 0, 1), None)

  /** There is a channel with room for a request. */
  ghost predicate Roomy(s: Setup) {
    1 <= |s.configs| <= 0x100 && s.configs[0].requestLimit > 0
  }

  /** A peer that has made the request, and nothing else. */
  ghost predicate Asked(p: Peer, s: Setup) {
    && |p.history| >= 1 && p.history[0].created == multiset{MESSAGE}
    && (forall c :: 0 <= c < |p.io.waitQueue| ==> p.io.waitQueue[c] == [])
    && p.sent == [] && p.wire == []
  }

  lemma ItemIsSent(io: IoState)
    requires io.Valid() && |io.juliet.channels| >= 1 && io.juliet.channels[0].outgoing == {} &&
             io.juliet.channels[0].prevRequestId == 0
    requires io.juliet.channels[0].config.requestLimit > 0
    ensures ITEM.Valid() && |io.activeMultiFrame| == |io.juliet.channels| && NeedNotWait(io, ITEM)
    ensures io.juliet.channels[0].CreateUncheckedRequest(0, None).1 == MESSAGE
    ensures var r := SendToReadyQueue(io, ITEM);
      r.result.Ok? && r.state.readyQueue == io.readyQueue + [MESSAGE.Frames()] && r.state.waitQueue == io.waitQueue
  {
    assert CyclicAdd(0, 1) == 1;
  }

  lemma Ask(s: Setup)
    requires Roomy(s)
    ensures var p := NewPeer(s);
      && Good(p, p, s) && Sized(p, s) && Honest(p, ITEM, s)
      && var n := Enqueued(p, p, ITEM, s);
      Asked(n, s) && n.current.None? && n.io.readyQueue == [MESSAGE.Frames()]
  {
    var p := NewPeer(s);
    StartIsGood(s);
    GoodShapes(p, p, s);
    ItemIsSent(p.io);
    hide Good; hide IoState.Valid; hide SendToReadyQueue; hide ChannelState.CreateUncheckedRequest;
    var n := Enqueued(p, p, ITEM, s);
    assert n == Sent(p, ITEM, s);
    assert n.history[0].created == multiset{} + multiset{MESSAGE};
  }

  lemma MakeItReady(p: Peer, q: Peer, s: Setup)
    requires Good(p, q, s) && Asked(p, s) && p.current.None? && p.io.readyQueue == [MESSAGE.Frames()]
    ensures Sound(p, s)
    ensures var n := Readied(p, s);
      Asked(n, s) && n.current == Some(MESSAGE.Frames()) && n.io.readyQueue == []
  {
    hide IoState.Valid; hide Lanes; hide Linked; hide Patient; hide CurrentIs; hide Lane;
    assert MESSAGE.Frames() in p.io.readyQueue;
    assert MESSAGE.Frames().IsFinal(s.mfs);
    GoodShapes(p, q, s);
  }

  /** The queue of no channel holds anything, so that processing one changes nothing. */
  lemma NothingWaits(p: Peer, q: Peer, c: ChannelId, s: Setup)
    requires Good(p, q, s) && s.Knows(c) && c < |p.io.waitQueue| && p.io.waitQueue[c] == []
    ensures Drained(p, q, c, 0, s) == p
  {
    hide Good;
  }

  lemma WriteItOut(p: Peer, q: Peer, s: Setup)
    requires Good(p, q, s) && Asked(p, s) && p.current == Some(MESSAGE.Frames()) && p.io.readyQueue == [] &&
             |s.configs| >= 1
    ensures MESSAGE.Frames().Valid()
    ensures var n := Written(p, q, s);
      && n.history[0].created == multiset{MESSAGE} && |n.history| >= 1
      && n.current.None? && n.io.readyQueue == [] && n.sent == [MESSAGE.Frames()] &&
           n.wire == FrameBytes(MESSAGE.Frames(), s.mfs)
      && q.io.buffer == []
  {
    hide IoState.Valid; hide Lanes; hide Patient; hide Lane; hide FrameBytes;
    GoneKeepsGood(p, q, s);
    GoodShapes(p, q, s);
    var n := Gone(p, s);
    GoodShapes(n, q, s);
    assert q.io.buffer + [] == Flat([], s.mfs);
    assert [] + [MESSAGE.Frames()] == [MESSAGE.Frames()];
    NothingWaits(n, q, 0, s);
  }

  /** With the frame in its buffer, the other peer parses it, and has received the message. */
  lemma ParseIt(x: Peer, y: Peer, s: Setup)
    requires Good(x, y, s) && |s.configs| >= 1 && x.io.nextParseAt == 0
    requires y.sent == [MESSAGE.Frames()] && y.current.None? && y.io.readyQueue == []
    requires x.io.buffer == FrameBytes(MESSAGE.Frames(), s.mfs) && |y.history| >= 1 &&
             y.history[0].created == multiset{MESSAGE}
    ensures var r := AfterParse(x, y, s); |r.x.history| >= 1 && r.x.history[0].got == [MESSAGE]
  {
    hide Good; hide IoState.Valid; hide FrameBytes; hide Announced; hide ProcessIncoming; hide Parsing; hide Taker;
    GoodShapes(x, y, s);
    assert Arrived(x, y, s);
    FirstIsTaken(x, y, s);
    var r := AfterParse(x, y, s);
    assert r.y.sent == [];
    GoodSwaps(r.x, r.y, s);
    DeliveredIntact(r.y, r.x, 0, s);
    OnlyOne(r.x.history[0].got, MESSAGE);
  }

  lemma OnlyOne<T>(xs: seq<T>, x: T)
    requires multiset(xs) == multiset{x}
    ensures xs == [x]
  {
    assert |xs| == |multiset(xs)| == 1;
    assert xs[0] in multiset(xs);
  }

  /** The only frame that is on its way is taken. */
  lemma FirstIsTaken(x: Peer, y: Peer, s: Setup)
    requires Arrived(x, y, s) && |y.sent| == 1
    ensures Parsing(x, y, s).y == Giver(y)
  {
    hide Good; hide Pass; hide Taker; hide FrameBytes;
    PassIsTake(x, y, s);
    TakeKeepsGood(x, y, s);
    if Pass(x.io.juliet, x.io.buffer).outcome.value.None? {
      var r := Parsing(Taker(x, y, s), Giver(y), s);
    }
  }

  /** One step, and then others. */
  lemma StepFirst(w: Pair, step: Turn, rest: seq<Turn>, s: Setup)
    requires Good(w.x, w.y, s) && May(if step.who == Who.First then w.x else w.y, step.action, s)
    requires MayRun(TakeTurn(w, step, s), rest, s)
    ensures MayRun(w, [step] + rest, s) && AfterRun(w, [step] + rest, s) == AfterRun(TakeTurn(w, step, s), rest, s)
  {
    hide Good; hide May; hide Act;
    assert ([step] + rest)[1..] == rest;
  }

  const ENQUEUE := Turn(Who.First, Action.Enqueue(ITEM))
  const READY := Turn(Who.First, MakeReady)
  const WRITE := Turn(Who.First, WriteOut)
  const DELIVER := Turn(Who.First, Action.Deliver(4))
  const PARSE := Turn(Who.Second, Action.Parse)

  /** The peers when the frame has been delivered. */
  lemma DeliverIt(p: Peer, q: Peer, s: Setup)
    requires Good(p, q, s) && p.wire == FrameBytes(MESSAGE.Frames(), s.mfs) && q.io.buffer == []
    ensures Sized(p, s) && May(p, DELIVER.action, s)
    ensures var r := Act(p, q, DELIVER.action, s);
      && r.x == p.(wire := []) && r.y == q.(io := q.io.(buffer := FrameBytes(MESSAGE.Frames(), s.mfs)))
  {
    hide Good;
    GoodIsSound(p, q, s);
    assert |MESSAGE.Frames().NextFrame(s.mfs).Wire()| == 4;
    assert p.wire[..4] == p.wire && p.wire[4..] == [] && [] + p.wire == p.wire;
  }

  /** From the start, on any setup with room for a request, there is a run in which one arrives. */
  lemma ExchangeHappens(s: Setup)
    requires Roomy(s)
    ensures var steps := [ENQUEUE] + ([READY] + ([WRITE] + ([DELIVER] + ([PARSE] + []))));
      && MayRun(Start(s), steps, s)
      && |AfterRun(Start(s), steps, s).y.history| >= 1 && AfterRun(Start(s), steps, s).y.history[0].got == [MESSAGE]
  {
    hide Good; hide Honest; hide Enqueued; hide Readied; hide Written; hide AfterParse; hide Asked;
    hide FrameBytes; hide IoState.Valid;
    var q := NewPeer(s);
    var w0 := Start(s);
    Ask(s);
    assert q.io.buffer == [] && q.io.nextParseAt == 0;
    hide NewPeer;
    var w1 := TakeTurn(w0, ENQUEUE, s);
    GoodIsSound(w1.x, w1.y, s);
    MakeItReady(w1.x, q, s);
    var w2 := TakeTurn(w1, READY, s);
    GoodIsSound(w2.x, w2.y, s);
    WriteItOut(w2.x, q, s);
    var w3 := TakeTurn(w2, WRITE, s);
    DeliverIt(w3.x, q, s);
    var w4 := TakeTurn(w3, DELIVER, s);
    GoodSwaps(w4.x, w4.y, s);
    GoodIsSound(w4.x, w4.y, s);
    ParseIt(w4.y, w4.x, s);
    var w5 := TakeTurn(w4, PARSE, s);
    StepFirst(w4, PARSE, [], s);
    StepFirst(w3, DELIVER, [PARSE] + [], s);
    StepFirst(w2, WRITE, [DELIVER] + ([PARSE] + []), s);
    StepFirst(w1, READY, [WRITE] + ([DELIVER] + ([PARSE] + [])), s);
    StepFirst(w0, ENQUEUE, [READY] + ([WRITE] + ([DELIVER] + ([PARSE] + []))), s);
    assert AfterRun(w5, [], s) == w5;
  }
}
