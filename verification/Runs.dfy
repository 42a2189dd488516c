// Runs of two peers: any interleaving of items handed over, frames readied and written out, bytes
// delivered in any portions, and parsing. No peer ever finds fault with the other or with itself, and
// every payload arrives intact. An answer may still belong to no request, which is an internal error,
// but only once an identifier has been used again too early (Reports.dfy).
module Runs {
  import opened Types
  import opened Message
  import opened Protocol
  import opened Transfer
  import opened IoState
  import opened Duplex
  import opened DuplexSteps
  import opened TwoPeers
  import opened PeerSends
  import opened PeerSteps
  import opened PeerReceives

  datatype Action =
    | Enqueue(item: QueuedItem)
    | MakeReady
    | WriteOut
    | Deliver(bytes: nat)
    | Parse

  /** When a peer `p` may act; all but the first are up to the IO layer and the network. */
  ghost predicate May(p: Peer, action: Action, s: Setup)
    requires Sized(p, s)
  {
    match action
    case Enqueue(item) => Honest(p, item, s)
    case MakeReady => p.current.None? && p.io.readyQueue != []
    case WriteOut => p.current.Some?
    case Deliver(bytes) => bytes <= |p.wire|
    case Parse => true
  }

  /** Both peers after the first has acted. */
  ghost function Act(p: Peer, q: Peer, action: Action, s: Setup): (r: Pair)
    requires Good(p, q, s) && May(p, action, s)
    ensures Good(r.x, r.y, s)
  {
    hide Good; hide Honest;
    match action
    case Enqueue(item) =>
      EnqueueKeepsGood(p, q, item, s);
      Pair(Enqueued(p, q, item, s), q)
    case MakeReady =>
      GoodIsSound(p, q, s);
      ReadyKeepsGood(p, q, s);
      Pair(Readied(p, s), q)
    case WriteOut => Pair(Written(p, q, s), q)
    case Deliver(k) =>
      DeliverKeepsGood(p, q, k, s);
      Pair(p.(wire := p.wire[k..]), q.(io := q.io.(buffer := q.io.buffer + p.wire[..k])))
    case Parse => AfterParse(p, q, s)
  }

  /**
   * What the IO layer does for an action. Nothing that is sent is refused, and nothing that is parsed is
   * at fault; the one error left is that an answer belongs to no request.
   */
  ghost predicate Works(p: Peer, after: Peer, action: Action)
    requires p.io.Valid()
  {
    match action
    case Enqueue(item) =>
      item.Valid() && p.io.Indexable(item) && HandleIncomingItem(p.io, item).state == after.io &&
        HandleIncomingItem(p.io, item).result.Ok?
    case MakeReady => ReadyNextFrame(p.io) == after.io
    case WriteOut => FrameSent(p.io).state == after.io && FrameSent(p.io).result.Ok?
    case Deliver(_) => after.io == p.io
    case Parse =>
      && (p.io.nextParseAt <= |p.io.buffer| ==> !ProcessIncoming(p.io.juliet, p.io.buffer).outcome.Fatal?)
      && ParseStep(p.io).state == after.io
      && (ParseStep(p.io).result.Ok? || ParseStep(p.io).result == Err(InternalError))
  }

  lemma ActWorks(p: Peer, q: Peer, action: Action, s: Setup)
    requires Good(p, q, s) && May(p, action, s)
    ensures p.io.Valid() && Works(p, Act(p, q, action, s).x, action)
  {
    hide Good; hide MayCancelOn; hide Unanswered; hide IoState.Valid; hide HandleIncomingItem;
    hide ReadyNextFrame; hide FrameSent; hide ParseStep; hide ProcessIncoming;
    match action
    case Enqueue(item) => EnqueueKeepsGood(p, q, item, s);
    case MakeReady =>
      GoodIsSound(p, q, s);
      ReadyKeepsGood(p, q, s);
    case WriteOut => WrittenIo(p, q, s);
    case Deliver(k) => GoodShapes(p, q, s);
    case Parse => AfterParseIo(p, q, s);
  }

  // ---------------------------------------------------------------- runs

  datatype Who = First | Second

  datatype Turn = Turn(who: Who, action: Action)

  ghost function TakeTurn(w: Pair, step: Turn, s: Setup): (r: Pair)
    requires Good(w.x, w.y, s) && May(if step.who == Who.First then w.x else w.y, step.action, s)
    ensures Good(r.x, r.y, s)
  {
    hide Good; hide May;
    GoodSwaps(w.x, w.y, s);
    if step.who == Who.First then Act(w.x, w.y, step.action, s)
    else
      var r := Act(w.y, w.x, step.action, s);
      GoodSwaps(r.x, r.y, s);
      Pair(r.y, r.x)
  }

  lemma GoodSwaps(p: Peer, q: Peer, s: Setup)
    requires Good(p, q, s)
    ensures Good(q, p, s)
  {
    hide Lanes; hide Linked; hide Patient; hide CurrentIs; hide Framed; hide IoState.Valid;
    LanesSwap(p, q, s);
  }

  /** The steps may be taken one after the other. */
  ghost predicate MayRun(w: Pair, steps: seq<Turn>, s: Setup)
    requires Good(w.x, w.y, s)
    decreases |steps|
  {
    steps != [] ==>
      && May(if steps[0].who == Who.First then w.x else w.y, steps[0].action, s)
      && MayRun(TakeTurn(w, steps[0], s), steps[1..], s)
  }

  ghost function AfterRun(w: Pair, steps: seq<Turn>, s: Setup): (r: Pair)
    requires Good(w.x, w.y, s) && MayRun(w, steps, s)
    ensures Good(r.x, r.y, s)
    decreases |steps|
  {
    if steps == [] then w else AfterRun(TakeTurn(w, steps[0], s), steps[1..], s)
  }

  function NewPeer(s: Setup): Peer {
    var n := |s.configs|;
    Peer(IoState(ProtocolState(seq(n, c requires 0 <= c < n => NewChannel(s.configs[c])), s.mfs), [], 0, None, None,
                 seq(n, _ => None), [], seq(n, _ => []), map[]),
         None, [], [], seq(n, _ => History(Idle, {}, multiset{}, [], [])))
  }

  /** The end of a channel on which nothing has happened. */
  function NewEnd(config: ChannelConfiguration): End {
    End(NewChannel(config), [], None, None, [], Idle, {}, multiset{}, [], [])
  }

  lemma NewEndsInv(g: Shared)
    ensures Inv(NewEnd(g.config), NewEnd(g.config), g)
  {
    var e := NewEnd(g.config);
    assert Pipe(e) == [] && Wire(e) == [];
    assert multiset(e.chan.outgoing) == multiset{} && multiset(e.chan.incoming) == multiset{};
    assert Complete(e.chan) == {} && Partial(e.chan) == {};
  }

  lemma StartIsGood(s: Setup)
    requires |s.configs| <= 0x100
    ensures Good(NewPeer(s), NewPeer(s), s)
  {
    var p := NewPeer(s);
    assert p.io.Valid();
    hide IoState.Valid;
    assert Sized(p, s);
    forall c: ChannelId | s.Knows(c) ensures Patient(p, c, s) && Proj(p, c, s) == NewEnd(s.configs[c]) {
    }
    hide Proj; hide Patient; hide Inv;
    forall c: ChannelId | s.Knows(c) ensures Inv(Proj(p, c, s), Proj(p, c, s), s.At(c)) {
      NewEndsInv(s.At(c));
    }
  }

  /** Every step of a run is one of the IO layer in which neither peer is at fault. */
  ghost predicate AllWork(w: Pair, steps: seq<Turn>, s: Setup)
    requires Good(w.x, w.y, s) && MayRun(w, steps, s)
    decreases |steps|
  {
    steps != [] ==>
      var n := TakeTurn(w, steps[0], s);
      && (if steps[0].who == Who.First then w.x.io.Valid() && Works(w.x, n.x, steps[0].action)
          else w.y.io.Valid() && Works(w.y, n.y, steps[0].action))
      && AllWork(n, steps[1..], s)
  }

  lemma {:induction false} RunsWork(w: Pair, steps: seq<Turn>, s: Setup)
    requires Good(w.x, w.y, s) && MayRun(w, steps, s)
    ensures AllWork(w, steps, s)
    decreases |steps|
  {
    hide Good; hide May; hide Works; hide Act;
    if steps != [] {
      GoodSwaps(w.x, w.y, s);
      if steps[0].who == Who.First {
        ActWorks(w.x, w.y, steps[0].action, s);
      } else {
        ActWorks(w.y, w.x, steps[0].action, s);
      }
      RunsWork(TakeTurn(w, steps[0], s), steps[1..], s);
    }
  }

  /** Two peers that have done nothing yet. */
  ghost function Start(s: Setup): (w: Pair)
    requires |s.configs| <= 0x100
    ensures Good(w.x, w.y, s) && w == Pair(NewPeer(s), NewPeer(s))
  {
    hide Good;
    StartIsGood(s);
    Pair(NewPeer(s), NewPeer(s))
  }

  /**
   * From the start, however a run of two honest peers is interleaved and cut into portions: no item is
   * refused, no frame is rejected, no error is sent to the other peer, and none is received.
   */
  lemma HonestRunsNeverViolate(steps: seq<Turn>, s: Setup)
    requires |s.configs| <= 0x100 && MayRun(Start(s), steps, s)
    ensures AllWork(Start(s), steps, s)
    ensures var w := AfterRun(Start(s), steps, s);
      Good(w.x, w.y, s) && w.x.io.pendingError.None? && w.y.io.pendingError.None?
  {
    hide May; hide Works; hide Act; hide NewPeer;
    RunsWork(Start(s), steps, s);
  }

  // ---------------------------------------------------------------- what holds in every reachable state

  /**
   * On every channel, a peer has received exactly the messages that the other has finished sending,
   * in order and unaltered; once nothing is on its way, it has received every message created.
   */
  lemma DeliveredIntact(p: Peer, q: Peer, c: ChannelId, s: Setup)
    requires Good(p, q, s) && s.Knows(c)
    ensures Sized(p, s) && Sized(q, s)
    ensures q.history[c].got <= p.history[c].log
    ensures multiset(q.history[c].got) <= p.history[c].created
    ensures Lane(p.sent, c) == [] && LaneOf(p.current, c).None? && Lane(p.io.readyQueue, c) == [] ==>
              multiset(q.history[c].got) == p.history[c].created
  {
    hide IoState.Valid; hide Patient; hide CurrentIs; hide Framed; hide Flat; hide Lane;
    var e, f, g := Proj(p, c, s), Proj(q, c, s), s.At(c);
    assert Inv(e, f, g);
    hide Conserved; hide Allowed; hide Streams; hide Shape;
    assert Delivered(e, f, g);
    assert multiset(e.log) == multiset(f.got) + multiset(Endings(Wire(e), g.mfs));
  }

  /**
   * Every request under way is in exactly one of three stages: no frame of it has arrived, the other
   * peer tracks it, or the answer is on its way. No identifier is in use twice.
   */
  lemma RequestsAccountedFor(p: Peer, q: Peer, c: ChannelId, id: Id, s: Setup)
    requires Good(p, q, s) && s.Knows(c)
    ensures Sized(p, s) && Sized(q, s)
    ensures var e, f, g := Proj(p, c, s), Proj(q, c, s), s.At(c);
      (if id in p.io.juliet.channels[c].outgoing then 1 else 0) ==
      Unstarted(e, g)[id] + (if id in q.io.juliet.channels[c].incoming then 1 else 0) + Unfinished(Answers, f, g)[id]
  {
    hide IoState.Valid; hide Patient; hide CurrentIs; hide Framed; hide Flat; hide Lane;
    var e, f, g := Proj(p, c, s), Proj(q, c, s), s.At(c);
    assert Inv(e, f, g);
    hide Allowed; hide Streams; hide Shape; hide Delivered; hide Unstarted; hide Unfinished; hide Complete;
    hide Partial;
    assert Conserved(e, f, g);
    assert multiset(e.chan.outgoing)[id] == Unstarted(e, g)[id] + multiset(f.chan.incoming)[id] +
      Unfinished(Answers, f, g)[id];
  }

  /**
   * A channel has at most one message of several frames that is not sent in full, and it is locked
   * exactly while there is one, by the header of that message.
   */
  lemma LockedWhileSending(p: Peer, q: Peer, c: ChannelId, s: Setup)
    requires Good(p, q, s) && s.Knows(c)
    ensures Sized(p, s) && c < |p.io.activeMultiFrame|
    ensures var multis, current := Multis(Lane(p.io.readyQueue, c), s.At(c)), LaneOf(p.current, c);
      var lock := p.io.activeMultiFrame[c];
      && |multis| <= 1
      && (lock.Some? <==> multis != [] || (current.Some? && Multi(current.value, s.At(c))))
      && (multis != [] ==> lock == Some(multis[0].msg.header))
      && (current.Some? && Multi(current.value, s.At(c)) && multis == [] ==> lock == Some(current.value.msg.header))
      && (current.Some? && Multi(current.value, s.At(c)) ==>
            multis == if Final(current.value, s.At(c)) then [] else [Next(current.value, s.At(c))])
  {
    hide Patient; hide CurrentIs; hide Framed; hide Flat; hide Lane; hide Multis; hide Walk;
    var e, f, g := Proj(p, c, s), Proj(q, c, s), s.At(c);
    assert Inv(e, f, g);
    if e.current.Some? && Multi(e.current.value, g) && !Final(e.current.value, g) { UnfinishedIsQueued(e, f, g); }
    hide Conserved; hide Allowed; hide Delivered; hide Shape; hide NoClash;
    assert Streams(e, f, g);
  }

  /** The messages that a read stands for. */
  function Got(read: Option<CompletedRead>, d: ChannelId): seq<OutgoingMessage> {
    if read.Some? && !read.value.ErrorReceived? && read.value.channel == d && MessageOf(read.value).Some? then
      [MessageOf(read.value).value]
    else []
  }

  lemma TakeGets(x: Peer, y: Peer, d: ChannelId, s: Setup)
    requires Arrived(x, y, s) && s.Knows(d)
    ensures x.io.Valid() && |x.history| == |Taker(x, y, s).history| == |s.configs|
    ensures Pass(x.io.juliet, x.io.buffer).outcome.Success?
    ensures Taker(x, y, s).history[d].got == x.history[d].got + Got(Pass(x.io.juliet, x.io.buffer).outcome.value, d)
  {
    hide FrameBytes; hide Pass; hide CurrentIs; hide Receive; hide Patient; hide Inv; hide Lane;
    hide IoState.Valid; hide Framed; hide Flat; hide MessageOf; hide Advance;
    ArrivalFacts(x, y, s);
    ArrivedPass(x, y, s);
    var c := ArrivingOn(y);
    ReceivesNoError(Proj(x, c, s), Proj(y, c, s), s.At(c));
    hide Good;
  }

  /** What a peer has received grows by exactly what the parser reports. */
  lemma {:induction false} ParseGets(x: Peer, y: Peer, d: ChannelId, s: Setup)
    requires Good(x, y, s) && s.Knows(d)
    ensures x.io.Valid() && |x.history| == |Parsing(x, y, s).x.history| == |s.configs|
    ensures var o := ProcessIncoming(x.io.juliet, x.io.buffer).outcome;
      Parsing(x, y, s).x.history[d].got == x.history[d].got + Got(if o.Success? then Some(o.value) else None, d)
    decreases |x.io.buffer|
  {
    hide Good; hide Pass; hide Taker; hide IoState.Valid; hide Got; hide FrameBytes;
    GoodShapes(x, y, s);
    PassIsTake(x, y, s);
    if !Arrived(x, y, s) {
      assert Got(None, d) == [] by { NothingGot(d); }
      assert x.history[d].got + [] == x.history[d].got;
    } else {
      TakeKeepsGood(x, y, s);
      TakeGets(x, y, d, s);
      if Pass(x.io.juliet, x.io.buffer).outcome.value.None? {
        NothingGot(d);
        ParseGets(Taker(x, y, s), Giver(y), d, s);
      }
    }
  }

  lemma NothingGot(d: ChannelId)
    ensures Got(None, d) == []
  {
  }
}
