// What the local endpoint is told: every read becomes the event that it stands for, and in runs of two
// peers the requests that are announced are those that the other peer has sent, payloads included.
module Events {
  import opened Types
  import opened Header
  import opened Message
  import opened Protocol
  import opened IoState
  import opened RequestIds
  import opened Duplex
  import opened TwoPeers
  import opened PeerSends
  import opened PeerSteps
  import opened PeerReceives
  import opened Runs
  import Reports

  // ---------------------------------------------------------------- one read

  /** Requests, cancellations of them and errors are passed on as they were read. */
  lemma ReadIsPassedOn(io: IoState, read: CompletedRead)
    requires io.Valid() && Finds(io, read) && !IsAnswer(read)
    ensures ParseStep(io).state.requestMap == io.requestMap && ParseStep(io).state.waitQueue == io.waitQueue
    ensures match read
      case NewRequest(c, id, payload) => ParseStep(io).result == Ok(Some(RequestReceived(c, id, payload)))
      case RequestCancellation(c, id) => ParseStep(io).result == Ok(Some(RequestCancelled(c, id)))
      case ErrorReceived(h, data) => ParseStep(io).result == Err(RemoteReportedError(h, data))
      case _ => true
  {
    hide ProcessIncoming; hide IoState.Valid;
  }

  /** An answer is never announced as a request, nor is anything if nothing has been read. */
  lemma AnswerIsNoRequest(io: IoState, c: ChannelId)
    requires io.Valid()
    requires io.nextParseAt <= |io.buffer| ==>
               var o := ProcessIncoming(io.juliet, io.buffer).outcome; o.Success? ==> IsAnswer(o.value)
    ensures RequestIn(ParseStep(io).result, c) == []
  {
    hide ProcessIncoming; hide ProcessWaitQueue; hide RemoveByRight; hide InjectError; hide IoState.Valid;
  }

  // ---------------------------------------------------------------- requests announced and received

  function RequestMessage(c: ChannelId, id: Id, payload: Option<Bytes>): OutgoingMessage {
    OutgoingMessage(Frame(if payload.Some? then RequestPl else Request, c, id), payload)
  }

  /** The request on a channel that a parse step announces. */
  function RequestIn(result: Result<Option<IoEvent>, CoreError>, c: ChannelId): seq<OutgoingMessage> {
    if result.Ok? && result.value.Some? && result.value.value.RequestReceived? && result.value.value.channel == c then
      [RequestMessage(c, result.value.value.id, result.value.value.payload)]
    else []
  }

  /** The requests among messages. */
  function RequestsAmong(msgs: seq<OutgoingMessage>): seq<OutgoingMessage> {
    if msgs == [] then []
    else (if On(Requests, msgs[0].header) then [msgs[0]] else []) + RequestsAmong(msgs[1..])
  }

  lemma {:induction false} RequestsAppend(a: seq<OutgoingMessage>, b: seq<OutgoingMessage>)
    ensures RequestsAmong(a + b) == RequestsAmong(a) + RequestsAmong(b)
  {
    hide On;
    if a == [] {
      assert a + b == b;
    } else {
      var first := if On(Requests, a[0].header) then [a[0]] else [];
      assert (a + b)[1..] == a[1..] + b && (a + b)[0] == a[0];
      RequestsAppend(a[1..], b);
      Associate(first, RequestsAmong(a[1..]), RequestsAmong(b));
    }
  }

  lemma RequestsOfOne(msg: OutgoingMessage)
    ensures RequestsAmong([msg]) == if On(Requests, msg.header) then [msg] else []
  {
    assert [msg][1..] == [];
  }

  /** What the parser has found, if it was due. */
  function Found(io: IoState): Option<CompletedRead>
    requires io.Valid()
  {
    if io.nextParseAt > |io.buffer| then None
    else
      var o := ProcessIncoming(io.juliet, io.buffer).outcome;
      if o.Success? then Some(o.value) else None
  }

  /** The request announced is the one that was received. */
  lemma AnnouncedIsReceived(io: IoState, c: ChannelId)
    requires io.Valid()
    ensures RequestIn(ParseStep(io).result, c) == RequestsAmong(Got(Found(io), c))
  {
    hide ProcessIncoming; hide ParseStep; hide IoState.Valid;
    var read := Found(io);
    if read.Some? && !IsAnswer(read.value) {
      ReadIsPassedOn(io, read.value);
      if Got(read, c) != [] { RequestsOfOne(Got(read, c)[0]); }
    } else {
      AnswerIsNoRequest(io, c);
      if Got(read, c) != [] { RequestsOfOne(Got(read, c)[0]); }
    }
  }

  // ---------------------------------------------------------------- what a step receives

  /** Nothing has been received. */
  ghost predicate GotSame(p: Peer, n: Peer) {
    |n.history| == |p.history| && forall d :: 0 <= d < |p.history| ==> n.history[d].got == p.history[d].got
  }

  lemma SentGets(p: Peer, item: QueuedItem, s: Setup)
    requires Sized(p, s) && Honest(p, item, s)
    ensures GotSame(p, Sent(p, item, s))
  {
    hide SendToReadyQueue; hide IoState.Valid; hide ChannelState.CreateUncheckedRequest;
  }

  lemma FrontGets(p: Peer, q: Peer, c: ChannelId, s: Setup)
    requires Good(p, q, s) && s.Knows(c) && c < |p.io.waitQueue| && p.io.waitQueue[c] != []
    ensures GotSame(p, Fronted(p, q, c, s))
  {
    hide Good; hide Sent; hide Honest; hide NeedNotWait; hide IoState.Valid; hide GotSame;
    hide CurrentIs; hide Framed; hide MapKnown; hide Patient;
    PopKeepsGood(p, q, c, s);
    var item, popped := p.io.waitQueue[c][0], p.(io := SetQueue(p.io, c, p.io.waitQueue[c][1..]));
    SameHistory(p, p.(io := SetQueue(p.io, c, p.io.waitQueue[c][1..] + [item])));
    GoodIsSound(popped, q, s);
    HonestFacts(popped, item, s);
    if NeedNotWait(popped.io, item) {
      SentGets(popped, item, s);
      SameHistory(p, popped);
      GotThen(p, popped, Sent(popped, item, s));
    }
  }

  lemma HonestFacts(p: Peer, item: QueuedItem, s: Setup)
    requires Sized(p, s) && Honest(p, item, s)
    ensures item.Valid() && (item.QueuedRequest? || item.QueuedResponse? ==> s.Knows(item.channel))
  {
    hide IoState.Valid; hide Unanswered; hide MayCancelOn;
  }

  lemma SameHistory(p: Peer, n: Peer)
    requires n.history == p.history
    ensures GotSame(p, n)
  {
  }

  lemma GotThen(p: Peer, n: Peer, m: Peer)
    requires GotSame(p, n) && GotSame(n, m)
    ensures GotSame(p, m)
  {
  }

  lemma {:induction false} DrainedGets(p: Peer, q: Peer, c: ChannelId, remaining: nat, s: Setup)
    requires Good(p, q, s) && s.Knows(c)
    ensures GotSame(p, Drained(p, q, c, remaining, s))
    decreases remaining
  {
    hide Good; hide Fronted; hide ProcessFront; hide IoState.Valid; hide GotSame;
    GoodShapes(p, q, s);
    SameHistory(p, p);
    if p.io.waitQueue[c] != [] && remaining > 0 {
      FrontKeepsGood(p, q, c, s);
      FrontGets(p, q, c, s);
      var front := Fronted(p, q, c, s);
      if !ProcessFront(p.io, c).result.value {
        DrainedGets(front, q, c, remaining - 1, s);
        GotThen(p, front, Drained(front, q, c, remaining - 1, s));
      }
    }
  }

  lemma AnnouncedGets(p: Peer, q: Peer, read: CompletedRead, s: Setup)
    requires Good(p, q, s) && !read.ErrorReceived? && (read.ReceivedResponse? ==> s.Knows(read.channel))
    ensures GotSame(p, Announced(p, q, read, s))
  {
    hide Good; hide IoState.Valid; hide HandleCompletedRead; hide ProcessWaiting; hide GotSame; hide Drained;
    GoodShapes(p, q, s);
    SameHistory(p, p);
    var sent := if read.ReceivedResponse? then Drained(p, q, read.channel, |p.io.waitQueue[read.channel]|, s) else p;
    if read.ReceivedResponse? { DrainedGets(p, q, read.channel, |p.io.waitQueue[read.channel]|, s); }
    SameHistory(sent, Announced(p, q, read, s));
    GotThen(p, sent, Announced(p, q, read, s));
  }

  /** A parse step receives what the parser has found. */
  lemma ParseStepGets(x: Peer, y: Peer, d: ChannelId, s: Setup)
    requires Good(x, y, s) && s.Knows(d)
    ensures x.io.Valid() && |x.history| == |AfterParse(x, y, s).x.history| == |s.configs|
    ensures AfterParse(x, y, s).x.history[d].got == x.history[d].got + Got(Found(x.io), d)
    ensures AfterParse(x, y, s).y.history == y.history
  {
    hide Good; hide IoState.Valid; hide Parsing; hide ProcessIncoming; hide Announced; hide Got;
    GoodShapes(x, y, s);
    NothingGot(d);
    if x.io.nextParseAt <= |x.io.buffer| {
      var r := Parsing(x, y, s);
      ParseGets(x, y, d, s);
      var o := ProcessIncoming(x.io.juliet, x.io.buffer).outcome;
      if o.Success? {
        ProcessIncomingReports(x.io.juliet, x.io.buffer);
        AnnouncedGets(ParseAt(r.x, r.y, 0, s), r.y, o.value, s);
      }
    }
  }

  lemma WrittenGets(p: Peer, q: Peer, s: Setup)
    requires Good(p, q, s) && p.current.Some?
    ensures GotSame(p, Written(p, q, s))
  {
    hide IoState.Valid; hide GotSame; hide Drained; hide Lanes; hide Linked;
    GoneKeepsGood(p, q, s);
    var n, c := Gone(p, s), Going(p, s).current.value.msg.header.channel;
    GoodShapes(n, q, s);
    GoneGets(p, s);
    hide Good; hide Gone; hide Going;
    DrainedGets(n, q, c, |n.io.waitQueue[c]|, s);
    GotThen(p, n, Written(p, q, s));
  }

  lemma GoneGets(p: Peer, s: Setup)
    requires Sound(p, s) && p.current.Some?
    ensures GotSame(p, Gone(p, s))
  {
    hide IoState.Valid; hide Patient; hide Framed;
  }

  lemma ReadiedGets(p: Peer, s: Setup)
    requires Sound(p, s) && p.current.None? && p.io.readyQueue != []
    ensures GotSame(p, Readied(p, s))
  {
    hide IoState.Valid; hide Patient;
  }

  lemma EnqueuedGets(p: Peer, q: Peer, item: QueuedItem, s: Setup)
    requires Good(p, q, s) && Honest(p, item, s)
    ensures GotSame(p, Enqueued(p, q, item, s))
  {
    hide Good; hide Sent; hide IoState.Valid; hide NeedNotWait; hide GotSame; hide Honest;
    hide CurrentIs; hide Framed; hide MapKnown; hide Patient;
    GoodShapes(p, q, s);
    GoodIsSound(p, q, s);
    HonestFacts(p, item, s);
    SentGets(p, item, s);
    if (item.QueuedRequest? || item.QueuedResponse?) && !NeedNotWait(p.io, item) {
      SameHistory(p, Enqueued(p, q, item, s));
    }
  }

  /** A peer receives something by parsing, and in no other way. */
  lemma ActGets(p: Peer, q: Peer, action: Action, d: ChannelId, s: Setup)
    requires Good(p, q, s) && May(p, action, s) && s.Knows(d)
    ensures p.io.Valid() && |p.history| == |q.history| == |s.configs|
    ensures var n := Act(p, q, action, s);
      && |n.x.history| == |n.y.history| == |s.configs|
      && n.y.history[d].got == q.history[d].got
      && n.x.history[d].got == p.history[d].got + if action.Parse? then Got(Found(p.io), d) else []
  {
    hide Good; hide Honest; hide IoState.Valid; hide Enqueued; hide Readied; hide Written; hide AfterParse;
    hide Got; hide Found;
    GoodShapes(p, q, s);
    GoodSwaps(p, q, s);
    GoodShapes(q, p, s);
    GoodIsSound(p, q, s);
    match action
    case Enqueue(item) => EnqueuedGets(p, q, item, s);
    case MakeReady => ReadiedGets(p, s);
    case WriteOut => WrittenGets(p, q, s);
    case Deliver(k) =>
    case Parse => ParseStepGets(p, q, d, s);
  }

  // ---------------------------------------------------------------- runs

  /** The requests on a channel that a peer is told of in the course of a run. */
  ghost function RequestsTold(w: Pair, steps: seq<Turn>, who: Who, d: ChannelId, s: Setup): seq<OutgoingMessage>
    requires Good(w.x, w.y, s) && MayRun(w, steps, s)
    decreases |steps|
  {
    if steps == [] then []
    else
      Reports.ActorIsValid(w, who, s);
      var io := Reports.ActorOf(w, who).io;
      (if steps[0].who == who && steps[0].action.Parse? then RequestIn(ParseStep(io).result, d) else [])
      + RequestsTold(TakeTurn(w, steps[0], s), steps[1..], who, d, s)
  }

  /** What a peer has received on a channel. */
  function GotOn(p: Peer, d: ChannelId): seq<OutgoingMessage> {
    if d < |p.history| then p.history[d].got else []
  }

  /**
   * In every run: the requests that the local endpoint of a peer is told of on a channel are the requests
   * among the messages that the peer has received on it meanwhile, in order and with their payloads.
   */
  lemma {:induction false} ToldAsReceived(w: Pair, steps: seq<Turn>, who: Who, d: ChannelId, s: Setup)
    requires Good(w.x, w.y, s) && MayRun(w, steps, s) && s.Knows(d)
    ensures RequestsAmong(GotOn(Reports.ActorOf(AfterRun(w, steps, s), who), d)) ==
            RequestsAmong(GotOn(Reports.ActorOf(w, who), d)) + RequestsTold(w, steps, who, d, s)
    decreases |steps|
  {
    hide Good; hide May; hide TakeTurn; hide IoState.Valid; hide RequestsAmong; hide RequestIn; hide Got; hide Found;
    hide ParseStep; hide GotOn;
    var before := RequestsAmong(GotOn(Reports.ActorOf(w, who), d));
    if steps == [] {
      assert before + [] == before;
    } else {
      var n := TakeTurn(w, steps[0], s);
      Reports.ActorIsValid(w, who, s);
      ToldAsReceived(n, steps[1..], who, d, s);
      TurnTells(w, steps[0], who, d, s);
      var io := Reports.ActorOf(w, who).io;
      var told := if steps[0].who == who && steps[0].action.Parse? then RequestIn(ParseStep(io).result, d) else [];
      Associate(before, told, RequestsTold(n, steps[1..], who, d, s));
    }
  }

  lemma TurnTells(w: Pair, step: Turn, who: Who, d: ChannelId, s: Setup)
    requires Good(w.x, w.y, s) && May(Reports.ActorOf(w, step.who), step.action, s) && s.Knows(d)
    ensures Reports.ActorOf(w, who).io.Valid()
    ensures RequestsAmong(GotOn(Reports.ActorOf(TakeTurn(w, step, s), who), d)) ==
            RequestsAmong(GotOn(Reports.ActorOf(w, who), d)) +
            if step.who == who && step.action.Parse? then RequestIn(ParseStep(Reports.ActorOf(w, who).io).result, d)
            else []
  {
    hide Good; hide May; hide Act; hide IoState.Valid; hide RequestsAmong; hide RequestIn; hide Got; hide Found;
    hide ParseStep;
    Reports.ActorIsValid(w, who, s);
    GoodSwaps(w.x, w.y, s);
    if step.who == Who.First { ActGets(w.x, w.y, step.action, d, s); } else { ActGets(w.y, w.x, step.action, d, s); }
    var before := GotOn(Reports.ActorOf(w, who), d);
    if step.who == who && step.action.Parse? {
      var io := Reports.ActorOf(w, who).io;
      AnnouncedIsReceived(io, d);
      RequestsAppend(before, Got(Found(io), d));
    } else {
      assert before + [] == before;
      assert RequestsAmong(before) + [] == RequestsAmong(before);
    }
  }

  /**
   * From the start: the requests that a local endpoint is told of on a channel are, in order and with
   * their payloads, the first ones of those that the other peer has finished sending.
   */
  lemma RequestsArriveIntact(steps: seq<Turn>, d: ChannelId, s: Setup)
    requires |s.configs| <= 0x100 && MayRun(Start(s), steps, s) && s.Knows(d)
    ensures var w := AfterRun(Start(s), steps, s);
      && d < |w.y.history| && d < |w.x.history|
      && RequestsTold(Start(s), steps, Who.First, d, s) <= RequestsAmong(w.y.history[d].log)
      && RequestsTold(Start(s), steps, Who.Second, d, s) <= RequestsAmong(w.x.history[d].log)
  {
    hide Good; hide May; hide Act; hide IoState.Valid; hide RequestsTold; hide MayRun;
    var w := AfterRun(Start(s), steps, s);
    ToldAsReceived(Start(s), steps, Who.First, d, s);
    ToldAsReceived(Start(s), steps, Who.Second, d, s);
    NothingAtStart(d, s);
    GoodSwaps(w.x, w.y, s);
    DeliveredIntact(w.x, w.y, d, s);
    DeliveredIntact(w.y, w.x, d, s);
    GoodShapes(w.x, w.y, s);
    GoodShapes(w.y, w.x, s);
    RequestsPrefix(w.x.history[d].got, w.y.history[d].log);
    RequestsPrefix(w.y.history[d].got, w.x.history[d].log);
  }

  lemma NothingAtStart(d: ChannelId, s: Setup)
    requires |s.configs| <= 0x100 && s.Knows(d)
    ensures RequestsAmong(GotOn(Start(s).x, d)) == [] && RequestsAmong(GotOn(Start(s).y, d)) == []
  {
    hide Good;
  }

  lemma RequestsPrefix(a: seq<OutgoingMessage>, b: seq<OutgoingMessage>)
    requires a <= b
    ensures RequestsAmong(a) <= RequestsAmong(b)
  {
    assert b == a + b[|a|..];
    RequestsAppend(a, b[|a|..]);
  }
}
