// The step of a peer that parses what it has read: every pass of the parser takes one frame that the
// other peer has sent, in full, and none is ever at fault.
module PeerReceives {
  import opened Types
  import opened Header
  import opened Message
  import opened Protocol
  import Streaming
  import opened Transfer
  import opened IoState
  import opened Duplex
  import opened DuplexReceive
  import opened TwoPeers
  import opened PeerSteps

  // ---------------------------------------------------------------- one pass

  /** The bytes of a frame lead the parser to the channel of the frame. */
  lemma PassOfFrame(p: ProtocolState, it: FrameIter)
    requires p.Valid() && it.Valid() && it.msg.header.Frame? && p.Knows(it.msg.header.channel)
    ensures var c, b := it.msg.header.channel, FrameBytes(it, p.mfs);
      && |b| >= SIZE
      && var r := ChannelPass(p.channels[c], it.msg.header, b, p.mfs);
      Pass(p, b) == Step(p.(channels := p.channels[c := r.channel]), r.consumed, r.outcome)
  {
    HeaderParses(it, p.mfs, []);
    assert FrameBytes(it, p.mfs) + [] == FrameBytes(it, p.mfs);
    hide FrameBytes; hide ChannelPass; hide Parse;
  }

  /**
   * A frame that is taken from its own bytes is taken from any buffer that starts with them, and from no
   * shorter one.
   */
  lemma PassNeedsFrame(p: ProtocolState, frame: Bytes, buffer: Bytes, wire: Bytes, later: Bytes)
    requires p.Valid() && Pass(p, frame).outcome.Success? && Pass(p, frame).consumed == |frame|
    requires buffer + wire == frame + later
    ensures |buffer| >= |frame| ==> Pass(p, buffer) == Pass(p, frame) && buffer[|frame|..] + wire == later
    ensures |buffer| < |frame| ==> Pass(p, buffer).outcome.Incomplete?
  {
    hide Pass;
    if |buffer| >= |frame| {
      var rest := buffer[|frame|..];
      assert buffer[..|frame|] == (buffer + wire)[..|frame|] == frame;
      assert buffer == frame + rest;
      Streaming.PassExtend(p, frame, rest);
      assert (buffer + wire)[|frame|..] == later;
    } else {
      var rest := frame[|buffer|..];
      assert buffer == (buffer + wire)[..|buffer|] == frame[..|buffer|];
      assert frame == buffer + rest;
      Streaming.PassExtend(p, buffer, rest);
      if !Pass(p, buffer).outcome.Incomplete? {
        PassConsumes(p, buffer);
        assert false;
      }
    }
  }

  lemma PassConsumes(p: ProtocolState, buffer: Bytes)
    requires p.Valid()
    ensures Pass(p, buffer).consumed <= |buffer|
  {
  }

  /** Requests that are complete stay complete when a frame is received. */
  lemma CompleteGrows(x: End, y: End, g: Shared)
    requires Inv(x, y, g) && y.sent != []
    ensures y.sent[0].Valid() && y.sent[0].msg.header.Frame? && x.chan.receiver.Valid()
    ensures Complete(x.chan) <= Complete(Receive(x, y, g).channel)
  {
    ReceiveSucceeds(x, y, g);
    HeadIsWelcome(x, y, g);
    hide Receive; hide Welcome; hide Accepting; hide Complete; hide Unstarted; hide Unfinished; hide Allowed;
    hide Streams; hide Delivered;
    AcceptingCompletes(x.chan, x.track, y.sent[0], g);
  }

  lemma LanesOfHead(its: seq<FrameIter>, d: ChannelId)
    requires its != []
    ensures its[0].msg.header.channel == d ==>
              Lane(its, d) != [] && Lane(its, d)[0] == its[0] && Lane(its, d)[1..] == Lane(its[1..], d)
    ensures its[0].msg.header.channel != d ==> Lane(its, d) == Lane(its[1..], d)
  {
  }

  /** What the two peers see of the channel of the frame that arrives next. */
  ghost predicate Arriving(x: Peer, y: Peer, s: Setup) {
    Good(x, y, s) && y.sent != []
  }

  ghost function ArrivingOn(y: Peer): ChannelId
    requires y.sent != []
  {
    y.sent[0].msg.header.channel
  }

  /** The frame that arrives next, as one channel sees it. */
  lemma ArrivalFacts(x: Peer, y: Peer, s: Setup)
    requires Arriving(x, y, s)
    ensures var it, c := y.sent[0], ArrivingOn(y);
      && it.Valid() && it.msg.header.Frame? && s.Knows(c) && x.io.juliet.Valid() && x.io.juliet.Knows(c) &&
           x.io.juliet.mfs == s.mfs
      && var e, f := Proj(x, c, s), Proj(y, c, s);
      && Inv(e, f, s.At(c)) && f.sent != [] && f.sent[0] == it && e.chan.receiver.Valid()
      && Receive(e, f, s.At(c)).outcome.Success? && Receive(e, f, s.At(c)).consumed == |FrameBytes(it, s.mfs)|
      && Pass(x.io.juliet, FrameBytes(it, s.mfs)) ==
         Step(x.io.juliet.(channels := x.io.juliet.channels[c := Receive(e, f, s.At(c)).channel]),
              |FrameBytes(it, s.mfs)|, Receive(e, f, s.At(c)).outcome)
  {
    hide Inv; hide Patient; hide Flat; hide FrameBytes; hide ChannelPass; hide Pass; hide CurrentIs;
    var it, c := y.sent[0], ArrivingOn(y);
    assert it in y.sent;
    var e, f := Proj(x, c, s), Proj(y, c, s);
    assert Inv(e, f, s.At(c));
    LanesOfHead(y.sent, c);
    ReceiveKeepsInv(e, f, s.At(c));
    PassOfFrame(x.io.juliet, it);
    HeaderParses(it, s.mfs, []);
    hide Lanes;
  }

  /** The state of the parser and the buffer after a pass. */
  ghost function Stepped(io: IoState): (r: IoState)
    requires io.Valid()
    ensures r.Valid() && SameShape(r, io)
  {
    var step := Pass(io.juliet, io.buffer);
    io.(juliet := step.state, buffer := io.buffer[step.consumed..])
  }

  /** The receiving peer after the next frame. */
  ghost function Taker(x: Peer, y: Peer, s: Setup): Peer
    requires Arriving(x, y, s)
  {
    ArrivalFacts(x, y, s);
    var c := ArrivingOn(y);
    With(x, Stepped(x.io), c, Received(Proj(x, c, s), Proj(y, c, s), s.At(c)))
  }

  /** The sending peer after the next frame. */
  function Giver(y: Peer): Peer
    requires y.sent != []
  {
    y.(sent := y.sent[1..])
  }

  /** All of the next frame is in the buffer. */
  ghost predicate Arrived(x: Peer, y: Peer, s: Setup) {
    Arriving(x, y, s) && y.sent[0].Valid() && |x.io.buffer| >= |FrameBytes(y.sent[0], s.mfs)|
  }

  /** With all of the frame in the buffer, the pass takes it; else it waits for more. */
  lemma ArrivedPass(x: Peer, y: Peer, s: Setup)
    requires Arriving(x, y, s)
    ensures x.io.Valid() && y.sent[0].Valid()
    ensures !Arrived(x, y, s) ==> Pass(x.io.juliet, x.io.buffer).outcome.Incomplete?
    ensures Arrived(x, y, s) ==>
              && Pass(x.io.juliet, x.io.buffer) == Pass(x.io.juliet, FrameBytes(y.sent[0], s.mfs))
              && x.io.buffer[|FrameBytes(y.sent[0], s.mfs)|..] + y.wire == FlatTail(y, s)
  {
    ArrivalFacts(x, y, s);
    hide Inv; hide Patient; hide FrameBytes; hide Pass; hide CurrentIs; hide Lanes; hide Receive; hide Proj;
    assert x.io.buffer + y.wire == FrameBytes(y.sent[0], s.mfs) + FlatTail(y, s);
    hide Good;
    PassNeedsFrame(x.io.juliet, FrameBytes(y.sent[0], s.mfs), x.io.buffer, y.wire, FlatTail(y, s));
  }

  /** The bytes of all frames that the other peer has sent but for the next. */
  ghost function FlatTail(y: Peer, s: Setup): Bytes
    requires y.sent != []
  {
    if Framed(y.sent, s) then Flat(y.sent[1..], s.mfs) else []
  }

  lemma TakeMoves(x: Peer, y: Peer, s: Setup)
    requires Arrived(x, y, s)
    ensures var c := ArrivingOn(y);
      && Sized(x, s) && Sized(y, s) && Sized(Taker(x, y, s), s) && Sized(Giver(y), s) && s.Knows(c)
      && Proj(y, c, s).sent != [] && Proj(y, c, s).sent[0] == y.sent[0] && y.sent[0].Valid() &&
           y.sent[0].msg.header.Frame?
      && Proj(x, c, s).chan.receiver.Valid()
      && Moved(x, Taker(x, y, s), c, Received(Proj(x, c, s), Proj(y, c, s), s.At(c)), s)
      && Moved(y, Giver(y), c, Shortened(Proj(y, c, s)), s)
  {
    hide Inv; hide Patient; hide FrameBytes; hide Pass; hide CurrentIs; hide Lanes; hide Receive; hide Flat;
    hide Advance;
    ArrivalFacts(x, y, s);
    ArrivedPass(x, y, s);
    forall d: ChannelId
      ensures y.sent[0].msg.header.channel == d ==> Lane(y.sent, d)[1..] == Lane(y.sent[1..], d)
      ensures y.sent[0].msg.header.channel != d ==> Lane(y.sent, d) == Lane(y.sent[1..], d) {
      LanesOfHead(y.sent, d);
    }
    hide Lane; hide IoState.Valid; hide Framed;
  }

  lemma MovedBoth(x: Peer, y: Peer, n: Peer, m: Peer, c: ChannelId, e: End, f: End, s: Setup)
    requires Sized(x, s) && Sized(y, s) && Sized(n, s) && Sized(m, s) && Lanes(x, y, s)
    requires Moved(x, n, c, e, s) && Moved(y, m, c, f, s) && Inv(e, f, s.At(c))
    ensures Lanes(n, m, s)
  {
    hide Inv; hide Proj;
  }

  lemma TakeKeepsLanes(x: Peer, y: Peer, s: Setup)
    requires Arrived(x, y, s)
    ensures Sized(Taker(x, y, s), s) && Sized(Giver(y), s) && Lanes(Taker(x, y, s), Giver(y), s)
  {
    hide Sound; hide Linked; hide FrameBytes;
    var c := ArrivingOn(y);
    TakeMoves(x, y, s);
    var e, f := Proj(x, c, s), Proj(y, c, s);
    assert Inv(e, f, s.At(c));
    ReceiveKeepsInv(e, f, s.At(c));
    hide Inv; hide Taker; hide Giver; hide Received; hide Proj; hide Moved;
    MovedBoth(x, y, Taker(x, y, s), Giver(y), c, Received(e, f, s.At(c)), Shortened(f), s);
  }

  lemma TakerParts(x: Peer, y: Peer, s: Setup)
    requires Arrived(x, y, s)
    ensures var n, c := Taker(x, y, s), ArrivingOn(y);
      && s.Knows(c) && Sized(x, s) && Sized(y, s)
      && x.io.juliet.Knows(c) && n.io.waitQueue == x.io.waitQueue
      && n.io.juliet.channels == x.io.juliet.channels[c := n.io.juliet.channels[c]]
      && Complete(x.io.juliet.channels[c]) <= Complete(n.io.juliet.channels[c])
  {
    hide FrameBytes; hide Pass; hide CurrentIs; hide Receive; hide Flat; hide Patient; hide Linked;
    hide Received; hide Inv; hide Complete; hide Lane; hide Framed;
    ArrivalFacts(x, y, s);
    ArrivedPass(x, y, s);
    var c := ArrivingOn(y);
    CompleteGrows(Proj(x, c, s), Proj(y, c, s), s.At(c));
    hide Good; hide IoState.Valid;
  }

  lemma PatientGrown(x: Peer, n: Peer, d: ChannelId, s: Setup)
    requires Sized(x, s) && Sized(n, s) && s.Knows(d) && Patient(x, d, s) && n.io.waitQueue == x.io.waitQueue
    requires Complete(x.io.juliet.channels[d]) <= Complete(n.io.juliet.channels[d])
    ensures Patient(n, d, s)
  {
    hide Complete; hide AnswerIds;
    SubsetCounts(AnswerIds(x.io.waitQueue[d]), Complete(x.io.juliet.channels[d]), Complete(n.io.juliet.channels[d]));
  }

  lemma TakeKeepsPatient(x: Peer, y: Peer, d: ChannelId, s: Setup)
    requires Arrived(x, y, s) && s.Knows(d) && Sized(Taker(x, y, s), s)
    ensures Patient(Taker(x, y, s), d, s)
  {
    hide Taker; hide FrameBytes; hide Lanes; hide Linked; hide Complete; hide Patient; hide IoState.Valid;
    TakerParts(x, y, s);
    assert Patient(x, d, s);
    hide Good;
    PatientGrown(x, Taker(x, y, s), d, s);
  }

  lemma SubsetCounts(m: multiset<Id>, a: set<Id>, b: set<Id>)
    requires m <= multiset(a) && a <= b
    ensures m <= multiset(b)
  {
  }

  lemma TakeKeepsSound(x: Peer, y: Peer, s: Setup)
    requires Arrived(x, y, s) && Sized(Taker(x, y, s), s)
    ensures Sound(Taker(x, y, s), s)
  {
    hide FrameBytes; hide CurrentIs; hide Received; hide Lanes; hide Patient; hide Proj; hide Linked;
    hide Framed; hide IoState.Valid; hide Pass;
    forall d: ChannelId | s.Knows(d) ensures Patient(Taker(x, y, s), d, s) {
      TakeKeepsPatient(x, y, d, s);
    }
  }

  lemma GiverKeepsSound(y: Peer, s: Setup)
    requires Sound(y, s) && y.sent != []
    ensures Sound(Giver(y), s)
  {
    hide CurrentIs; hide Patient; hide IoState.Valid;
    forall d: ChannelId | s.Knows(d) ensures Patient(Giver(y), d, s) {
      PatientGiver(y, d, s);
    }
  }

  lemma TakeKeepsLinks(x: Peer, y: Peer, s: Setup)
    requires Arrived(x, y, s)
    ensures var n, m := Taker(x, y, s), Giver(y);
      Framed(n.sent, s) && Framed(m.sent, s) && Linked(n, m, s) && Linked(m, n, s)
  {
    hide FrameBytes; hide CurrentIs; hide Received; hide Lanes; hide Patient; hide Proj; hide IoState.Valid;
    hide Pass; hide Receive;
    ArrivalFacts(x, y, s);
    ArrivedPass(x, y, s);
  }

  /** Taking a frame keeps everything. */
  lemma TakeKeepsGood(x: Peer, y: Peer, s: Setup)
    requires Arrived(x, y, s)
    ensures Good(Taker(x, y, s), Giver(y), s)
  {
    hide FrameBytes; hide Lanes; hide Linked; hide Framed; hide Sound; hide Taker; hide Giver;
    TakeKeepsLanes(x, y, s);
    TakeKeepsSound(x, y, s);
    GiverKeepsSound(y, s);
    TakeKeepsLinks(x, y, s);
  }

  lemma PatientGiver(y: Peer, d: ChannelId, s: Setup)
    requires y.sent != [] && Sized(y, s) && s.Knows(d) && Patient(y, d, s)
    ensures Sized(Giver(y), s) && Patient(Giver(y), d, s)
  {
    hide IoState.Valid; hide Complete; hide AnswerIds;
  }

  // ---------------------------------------------------------------- all passes

  datatype Pair = Pair(x: Peer, y: Peer)

  lemma ReceivesNoError(x: End, y: End, g: Shared)
    requires Inv(x, y, g) && y.sent != []
    ensures y.sent[0].Valid() && y.sent[0].msg.header.Frame? && x.chan.receiver.Valid()
    ensures var o := Receive(x, y, g).outcome;
      && o.Success?
      && (o.value.Some? ==> !o.value.value.ErrorReceived? && o.value.value.channel == y.sent[0].msg.header.channel)
  {
    hide Inv; hide Receive; hide Accepting; hide Received; hide FrameBytes; hide AfterRead; hide Advance;
    ReceiveSucceeds(x, y, g);
    AcceptingReports(x.chan, y.sent[0], g);
  }

  lemma AcceptingReports(ch: ChannelState, it: FrameIter, g: Shared)
    requires it.msg.header.Frame?
    ensures var read := Accepting(ch, it, g).1;
      read.Some? ==> !read.value.ErrorReceived? && read.value.channel == it.msg.header.channel
  {
    hide TransferAfter; hide Final;
  }

  /** One pass of the parser: a frame is taken, or more bytes are needed. */
  lemma PassIsTake(x: Peer, y: Peer, s: Setup)
    requires Good(x, y, s)
    ensures x.io.Valid()
    ensures var step := Pass(x.io.juliet, x.io.buffer);
      if Arrived(x, y, s) then
        && step.outcome.Success? && (step.outcome.value.Some? ==> !step.outcome.value.value.ErrorReceived?)
        && Taker(x, y, s) == x.(io := Stepped(x.io), history := Taker(x, y, s).history)
      else step.outcome.Incomplete?
  {
    hide FrameBytes; hide Pass; hide CurrentIs; hide Receive; hide Patient; hide Received; hide Inv; hide Lane;
    if y.sent == [] {
      assert x.io.buffer == [] by { assert x.io.buffer + y.wire == []; }
      assert Pass(x.io.juliet, []).outcome.Incomplete? by { EmptyPass(x.io.juliet); }
    } else {
      ArrivalFacts(x, y, s);
      ArrivedPass(x, y, s);
      var c := ArrivingOn(y);
      ReceivesNoError(Proj(x, c, s), Proj(y, c, s), s.At(c));
    }
  }

  lemma EmptyPass(p: ProtocolState)
    requires p.Valid()
    ensures Pass(p, []).outcome.Incomplete?
  {
  }

  /** Both peers after the passes of the parser up to the next read, or until more bytes are needed. */
  ghost function Parsing(x: Peer, y: Peer, s: Setup): (r: Pair)
    requires Good(x, y, s)
    ensures Good(r.x, r.y, s)
    ensures x.io.Valid()
    ensures var p := ProcessIncoming(x.io.juliet, x.io.buffer);
      && r.x == x.(io := x.io.(juliet := p.state, buffer := p.rest), history := r.x.history)
      && r.y == y.(sent := r.y.sent)
      && !p.outcome.Fatal? && (p.outcome.Success? ==> !p.outcome.value.ErrorReceived?)
    decreases |x.io.buffer|
  {
    hide Good; hide Pass; hide Arrived; hide Taker;
    PassIsTake(x, y, s);
    if !Arrived(x, y, s) then
      assert x.io.buffer[0..] == x.io.buffer;
      Pair(x, y)
    else
      TakeKeepsGood(x, y, s);
      if Pass(x.io.juliet, x.io.buffer).outcome.value.Some? then Pair(Taker(x, y, s), Giver(y))
      else Parsing(Taker(x, y, s), Giver(y), s)
  }

  /** A change of the parse threshold or of the mapping of identifiers. */
  lemma BookkeepingKeepsGood(p: Peer, q: Peer, at: nat, m: RequestMap, s: Setup)
    requires Good(p, q, s) && Bijective(m) && MapKnown(m, s)
    ensures Good(p.(io := p.io.(nextParseAt := at, requestMap := m)), q, s)
  {
    hide Inv; hide Complete; hide AnswerIds; hide Flat; hide Framed; hide CurrentIs; hide Lane;
    var n := p.(io := p.io.(nextParseAt := at, requestMap := m));
    assert Sized(n, s);
    hide IoState.Valid;
    forall d: ChannelId | s.Knows(d) ensures Patient(n, d, s) {
      assert Patient(p, d, s);
    }
    hide Patient;
    SameLanes(p, n, q, s);
  }

  lemma RemoveKeepsKnown(io: IoState, read: CompletedRead, s: Setup)
    requires io.Valid() && MapKnown(io.requestMap, s)
    ensures var r := HandleCompletedRead(io, read);
      && r.state == io.(requestMap := r.state.requestMap) && Bijective(r.state.requestMap) &&
           MapKnown(r.state.requestMap, s)
      && (r.result.Ok? || r.result == Err(InternalError) || read.ErrorReceived?)
  {
    assert Bijective(HandleCompletedRead(io, read).state.requestMap);
    hide IoState.Valid;
  }

  lemma KnownMap(p: Peer, q: Peer, s: Setup)
    requires Good(p, q, s)
    ensures p.io.Valid() && Bijective(p.io.requestMap) && MapKnown(p.io.requestMap, s)
  {
  }

  /** The wait queue is processed after a response. */
  function AfterAnswer(io: IoState, read: CompletedRead): (r: Handled<()>)
    requires io.Valid() && (read.ReceivedResponse? ==> io.juliet.Knows(read.channel))
    ensures r.state.Valid()
  {
    if read.ReceivedResponse? then ProcessWaitQueue(io, read.channel) else Handled(io, Ok(()))
  }

  /** The peer once it has found a read in the buffer and reported it. */
  ghost function Announced(p: Peer, q: Peer, read: CompletedRead, s: Setup): (n: Peer)
    requires Good(p, q, s) && !read.ErrorReceived? && (read.ReceivedResponse? ==> s.Knows(read.channel))
    ensures Good(n, q, s)
    ensures p.io.Valid() && (read.ReceivedResponse? ==> p.io.juliet.Knows(read.channel))
    ensures AfterAnswer(p.io, read).result.Ok?
    ensures var h := HandleCompletedRead(AfterAnswer(p.io, read).state, read);
      n.io == h.state && (h.result.Ok? || h.result == Err(InternalError))
  {
    hide Good; hide IoState.Valid; hide HandleCompletedRead; hide ProcessWaiting;
    GoodShapes(p, q, s);
    var sent := if read.ReceivedResponse? then Drained(p, q, read.channel, |p.io.waitQueue[read.channel]|, s) else p;
    KnownMap(sent, q, s);
    RemoveKeepsKnown(sent.io, read, s);
    var m := HandleCompletedRead(sent.io, read).state.requestMap;
    BookkeepingKeepsGood(sent, q, sent.io.nextParseAt, m, s);
    sent.(io := sent.io.(nextParseAt := sent.io.nextParseAt, requestMap := m))
  }

  /** Changes the parse threshold. */
  ghost function ParseAt(p: Peer, q: Peer, at: nat, s: Setup): (n: Peer)
    requires Good(p, q, s)
    ensures Good(n, q, s) && n == p.(io := p.io.(nextParseAt := at))
  {
    hide Good;
    KnownMap(p, q, s);
    BookkeepingKeepsGood(p, q, at, p.io.requestMap, s);
    p.(io := p.io.(nextParseAt := at, requestMap := p.io.requestMap))
  }

  /** Both peers after `x` has parsed. */
  ghost function AfterParse(x: Peer, y: Peer, s: Setup): (r: Pair)
    requires Good(x, y, s)
    ensures Good(r.x, r.y, s)
  {
    hide Good; hide IoState.Valid; hide Parsing; hide ProcessIncoming;
    GoodShapes(x, y, s);
    if x.io.nextParseAt > |x.io.buffer| then Pair(x, y)
    else
      var r := Parsing(x, y, s);
      match ProcessIncoming(x.io.juliet, x.io.buffer).outcome
      case Incomplete(n) => Pair(ParseAt(r.x, r.y, |r.x.io.buffer| + n, s), r.y)
      case Success(read) =>
        ProcessIncomingReports(x.io.juliet, x.io.buffer);
        Pair(Announced(ParseAt(r.x, r.y, 0, s), r.y, read, s), r.y)
  }

  lemma ParseStepParts(io: IoState)
    requires io.Valid() && io.nextParseAt <= |io.buffer| && !ProcessIncoming(io.juliet, io.buffer).outcome.Fatal?
    ensures var p := ProcessIncoming(io.juliet, io.buffer);
      var next := io.(nextParseAt := 0, juliet := p.state, buffer := p.rest);
      && next.Valid()
      && (p.outcome.Incomplete? ==> ParseStep(io) == Handled(next.(nextParseAt := |p.rest| + p.outcome.n), Ok(None)))
      && (p.outcome.Success? && !p.outcome.value.ErrorReceived? ==>
            var read := p.outcome.value;
            && next.juliet.Knows(read.channel)
            && (AfterAnswer(next, read).result.Ok? ==>
                  var h := HandleCompletedRead(AfterAnswer(next, read).state, read);
                  && ParseStep(io).state == h.state
                  && (h.result.Ok? <==> ParseStep(io).result.Ok?) &&
                       (h.result.Err? ==> ParseStep(io).result == Err(h.result.error))))
  {
    hide ProcessWaitQueue; hide HandleCompletedRead; hide ProcessIncoming;
    ProcessIncomingReports(io.juliet, io.buffer);
  }

  /** Parsing is what the IO layer does, and it fails at most because a response belongs to nobody. */
  lemma AfterParseIo(x: Peer, y: Peer, s: Setup)
    requires Good(x, y, s)
    ensures x.io.Valid() && ParseStep(x.io).state == AfterParse(x, y, s).x.io
    ensures ParseStep(x.io).result.Ok? || ParseStep(x.io).result == Err(InternalError)
    ensures x.io.nextParseAt <= |x.io.buffer| ==> !ProcessIncoming(x.io.juliet, x.io.buffer).outcome.Fatal?
  {
    hide Good; hide IoState.Valid; hide Parsing; hide ProcessIncoming; hide HandleCompletedRead;
    hide ProcessWaitQueue; hide AfterAnswer; hide Announced; hide ParseStep;
    GoodShapes(x, y, s);
    if x.io.nextParseAt <= |x.io.buffer| {
      var r := Parsing(x, y, s);
      ParseStepParts(x.io);
      var p := ProcessIncoming(x.io.juliet, x.io.buffer);
      if p.outcome.Success? {
        var found := ParseAt(r.x, r.y, 0, s);
        assert found.io == x.io.(nextParseAt := 0, juliet := p.state, buffer := p.rest);
        ProcessIncomingReports(x.io.juliet, x.io.buffer);
        var n := Announced(found, r.y, p.outcome.value, s);
      }
    } else {
      NotDue(x.io);
    }
  }

  lemma NotDue(io: IoState)
    requires io.Valid() && io.nextParseAt > |io.buffer|
    ensures ParseStep(io) == Handled(io, Ok(None))
  {
  }
}
