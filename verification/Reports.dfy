// Local ids in runs of two peers: whatever is parsed is reported, an answer to the one that made the
// request, and every request is told of one answer at most. This holds of every run in which no local
// id is used twice and no channel has more requests than there are identifiers.
module Reports {
  import opened Types
  import opened Protocol
  import opened IoState
  import opened RequestIds
  import opened LocalIds
  import opened IdSupply
  import opened TwoPeers
  import opened PeerSends
  import opened PeerSteps
  import opened PeerReceives
  import opened Runs

  /** What a peer has been asked for, and which local ids have been told of an answer. */
  datatype Book = Book(asked: seq<QueuedItem>, told: set<IoId>)

  function Noted(b: Book, io: IoState, action: Action): Book
    requires io.Valid()
  {
    match action
    case Enqueue(item) => b.(asked := b.asked + Requested(action))
    case Parse =>
      var r := ParseStep(io).result;
      if r.Ok? && ToldBy(r.value).Some? then b.(told := b.told + {ToldBy(r.value).value}) else b
    case _ => b
  }

  function Requested(action: Action): seq<QueuedItem> {
    if action.Enqueue? && action.item.QueuedRequest? then [action.item] else []
  }

  /**
   * Every local id that was handed over is in use, by a request that waits or is under way, or else
   * has been told of an answer.
   */
  ghost predicate Kept(io: IoState, b: Book) {
    && Agreed(io)
    && (forall l: IoId :: Asks(b.asked, l) <==> l in b.told || !Unused(io, l))
    && (forall l :: l in b.told ==> Unused(io, l))
  }

  /**
   * What is parsed is reported, to the right one, which has not been told of an answer before; and
   * what a request is mapped to stays the same until then.
   */
  ghost predicate TellsOnce(io: IoState, n: IoState, b: Book, action: Action)
    requires io.Valid()
  {
    && (action.Parse? ==>
          Tells(io) && var told := ToldBy(ParseStep(io).result.value); told.Some? ==> told.value !in b.told)
    && (forall l :: l in io.requestMap ==>
          l in Noted(b, io, action).told || (l in n.requestMap && n.requestMap[l] == io.requestMap[l]))
  }

  lemma ParseSends(x: Peer, y: Peer, s: Setup)
    requires Good(x, y, s)
    ensures x.io.Valid() && QueueSends(x.io)
    ensures x.io.nextParseAt <= |x.io.buffer| ==>
              var o := ProcessIncoming(x.io.juliet, x.io.buffer).outcome;
              !o.Fatal? && (o.Success? ==> !o.value.ErrorReceived?)
  {
    hide Good; hide IoState.Valid; hide ProcessIncoming; hide ProcessWaitQueue; hide Parsing;
    GoodShapes(x, y, s);
    if x.io.nextParseAt <= |x.io.buffer| {
      var r := Parsing(x, y, s);
      ParseStepParts(x.io);
      ProcessIncomingReports(x.io.juliet, x.io.buffer);
      var o := ProcessIncoming(x.io.juliet, x.io.buffer).outcome;
      if o.Success? {
        var n := Announced(ParseAt(r.x, r.y, 0, s), r.y, o.value, s);
      }
    }
  }

  /** A peer does nothing to the IO layer of the other but to fill its buffer. */
  lemma ActKeepsOther(p: Peer, q: Peer, action: Action, s: Setup)
    requires Good(p, q, s) && May(p, action, s)
    ensures var n := Act(p, q, action, s).y; n.io == q.io.(buffer := n.io.buffer)
  {
    hide Good; hide Honest; hide Enqueued; hide Readied; hide Written;
    if action.Parse? { ParseKeepsOther(p, q, s); }
    hide AfterParse;
  }

  lemma ParseKeepsOther(p: Peer, q: Peer, s: Setup)
    requires Good(p, q, s)
    ensures AfterParse(p, q, s).y.io == q.io
  {
    hide Good; hide IoState.Valid; hide ProcessIncoming; hide Announced; hide Parsing;
    GoodShapes(p, q, s);
    if p.io.nextParseAt <= |p.io.buffer| { var r := Parsing(p, q, s); }
  }

  lemma BufferKept(io: IoState, b: Book, buffer: Bytes)
    requires Kept(io, b)
    ensures Kept(io.(buffer := buffer), b)
  {
    hide Asks;
  }

  lemma KeptUses(io: IoState, n: IoState, b: Book, more: Option<QueuedItem>, gone: Option<IoId>)
    requires Kept(io, b) && Agreed(n)
    requires more.Some? ==> more.value.QueuedRequest? && Unused(io, more.value.ioId) && !Asks(b.asked, more.value.ioId)
    requires Uses(io, n, if more.Some? then Some(more.value.ioId) else None, gone)
    requires gone.Some? ==> gone.value in io.requestMap
    ensures gone.Some? ==> gone.value !in b.told
    ensures Kept(n, Book(b.asked + (if more.Some? then [more.value] else []),
            b.told + (if gone.Some? then {gone.value} else {})))
  {
    hide Asks; hide Agreed; hide Unused;
    GoneWasUsed(io, gone);
    var asked := b.asked + if more.Some? then [more.value] else [];
    forall l: IoId
      ensures Asks(asked, l) <==> Asks(b.asked, l) || (more.Some? && more.value.ioId == l) {
      if more.Some? { AsksBack(b.asked, more.value, l); } else { assert asked == b.asked; }
    }
  }

  lemma GoneWasUsed(io: IoState, gone: Option<IoId>)
    requires gone.Some? ==> gone.value in io.requestMap
    ensures gone.Some? ==> !Unused(io, gone.value)
  {
  }

  /** A step of a peer keeps the books of both. */
  lemma ActReports(p: Peer, q: Peer, action: Action, b: Book, other: Book, s: Setup)
    requires Good(p, q, s) && May(p, action, s)
    requires Kept(p.io, b) && Kept(q.io, other)
    requires Requested(action) != [] ==> !Asks(b.asked, action.item.ioId)
    requires action.Parse? ==> NotReused(p.io)
    ensures p.io.Valid()
    ensures var n := Act(p, q, action, s);
      Kept(n.x.io, Noted(b, p.io, action)) && Kept(n.y.io, other) && TellsOnce(p.io, n.x.io, b, action)
  {
    hide Good; hide MayCancelOn; hide Unanswered; hide Agreed; hide HandleIncomingItem;
    hide ReadyNextFrame; hide FrameSent; hide ParseStep; hide Tells; hide Asks;
    hide IoState.Valid; hide Unused; hide NotReused; hide QueueSends;
    hide ProcessIncoming; hide Act;
    ActWorks(p, q, action, s);
    ActKeepsOther(p, q, action, s);
    var n := Act(p, q, action, s);
    BufferKept(q.io, other, n.y.io.buffer);
    assert b.asked + [] == b.asked && b.told + {} == b.told;
    match action
    case Enqueue(item) =>
      EnqueueAgrees(p.io, item);
      EnqueueUses(p.io, item);
      KeptUses(p.io, n.x.io, b, if item.QueuedRequest? then Some(item) else None, None);
    case MakeReady =>
      ReadyAgrees(p.io);
      ReadyUses(p.io);
      KeptUses(p.io, n.x.io, b, None, None);
    case WriteOut =>
      FrameSentAgrees(p.io);
      FrameSentUses(p.io);
      KeptUses(p.io, n.x.io, b, None, None);
    case Deliver(_) =>
    case Parse =>
      ParseSends(p, q, s);
      ParseAgrees(p.io);
      ParseReports(p.io);
      KeptUses(p.io, n.x.io, b, None, ToldBy(ParseStep(p.io).result.value));
  }

  // ---------------------------------------------------------------- runs

  datatype Books = Books(x: Book, y: Book)

  function ActorOf(w: Pair, who: Who): Peer {
    if who == Who.First then w.x else w.y
  }

  function BookOf(bs: Books, who: Who): Book {
    if who == Who.First then bs.x else bs.y
  }

  function NotedIn(bs: Books, w: Pair, step: Turn): Books
    requires ActorOf(w, step.who).io.Valid()
  {
    if step.who == Who.First then bs.(x := Noted(bs.x, w.x.io, step.action))
    else bs.(y := Noted(bs.y, w.y.io, step.action))
  }

  /** Every step of a run tells what it should, and the books are kept throughout. */
  ghost predicate AllReported(w: Pair, bs: Books, steps: seq<Turn>, s: Setup)
    requires Good(w.x, w.y, s) && MayRun(w, steps, s)
    decreases |steps|
  {
    && Kept(w.x.io, bs.x) && Kept(w.y.io, bs.y)
    && (steps != [] ==>
          var n, who := TakeTurn(w, steps[0], s), steps[0].who;
          && TellsOnce(ActorOf(w, who).io, ActorOf(n, who).io, BookOf(bs, who), steps[0].action)
          && AllReported(n, NotedIn(bs, w, steps[0]), steps[1..], s))
  }

  /** The requests that a peer is asked for in the course of a run. */
  function Calls(steps: seq<Turn>, who: Who): seq<QueuedItem> {
    if steps == [] then []
    else (if steps[0].who == who then Requested(steps[0].action) else []) + Calls(steps[1..], who)
  }

  /** No local id is used twice. */
  predicate DistinctIds(items: seq<QueuedItem>) {
    forall i, j :: 0 <= i < j < |items| && items[i].QueuedRequest? && items[j].QueuedRequest? ==>
      items[i].ioId != items[j].ioId
  }

  /** No channel has more requests than there are identifiers, the one that is never used first left out. */
  predicate Few(items: seq<QueuedItem>) {
    forall c: ChannelId :: AskedOn(items, c) < ID_SPACE
  }

  ghost predicate DistinctCalls(bs: Books, steps: seq<Turn>) {
    DistinctIds(bs.x.asked + Calls(steps, Who.First)) && DistinctIds(bs.y.asked + Calls(steps, Who.Second))
  }

  ghost predicate FewCalls(bs: Books, steps: seq<Turn>) {
    Few(bs.x.asked + Calls(steps, Who.First)) && Few(bs.y.asked + Calls(steps, Who.Second))
  }

  /** Whenever a peer parses, no identifier that it has under way is too old. */
  ghost predicate SpacedRun(w: Pair, steps: seq<Turn>, s: Setup)
    requires Good(w.x, w.y, s) && MayRun(w, steps, s)
    decreases |steps|
  {
    steps != [] ==>
      && (steps[0].action.Parse? ==> Spaced(ActorOf(w, steps[0].who).io))
      && SpacedRun(TakeTurn(w, steps[0], s), steps[1..], s)
  }

  lemma CallsFirst(asked: seq<QueuedItem>, steps: seq<Turn>, who: Who)
    requires steps != []
    ensures steps[0].who == who ==>
              asked + Calls(steps, who) == (asked + Requested(steps[0].action)) + Calls(steps[1..], who)
    ensures steps[0].who != who ==> asked + Calls(steps, who) == asked + Calls(steps[1..], who)
  {
    hide Requested;
    var rest := Calls(steps[1..], who);
    if steps[0].who == who {
      Associate(asked, Requested(steps[0].action), rest);
    } else {
      assert Calls(steps, who) == [] + rest == rest;
    }
  }

  /** What remains of a run asks for the same requests as the whole. */
  lemma CallsStay(w: Pair, bs: Books, steps: seq<Turn>)
    requires steps != [] && ActorOf(w, steps[0].who).io.Valid()
    ensures var after := NotedIn(bs, w, steps[0]);
      && after.x.asked + Calls(steps[1..], Who.First) == bs.x.asked + Calls(steps, Who.First)
      && after.y.asked + Calls(steps[1..], Who.Second) == bs.y.asked + Calls(steps, Who.Second)
  {
    hide IoState.Valid; hide ParseStep; hide Calls;
    NotedAsks(BookOf(bs, steps[0].who), ActorOf(w, steps[0].who).io, steps[0].action);
    CallsFirst(bs.x.asked, steps, Who.First);
    CallsFirst(bs.y.asked, steps, Who.Second);
    hide Noted;
  }

  lemma NotedAsks(b: Book, io: IoState, action: Action)
    requires io.Valid()
    ensures Noted(b, io, action).asked == b.asked + Requested(action)
  {
    hide ParseStep; hide IoState.Valid;
  }

  lemma NewInDistinct(asked: seq<QueuedItem>, steps: seq<Turn>, who: Who)
    requires steps != [] && steps[0].who == who && Requested(steps[0].action) != []
    requires DistinctIds(asked + Calls(steps, who))
    ensures !Asks(asked, steps[0].action.item.ioId)
  {
    var all := asked + Calls(steps, who);
    assert all[|asked|] == steps[0].action.item;
    forall i | 0 <= i < |asked| && asked[i].QueuedRequest? ensures asked[i].ioId != steps[0].action.item.ioId {
      assert all[i] == asked[i];
    }
  }

  /** The step that a turn is, from the one who takes it. */
  lemma TurnReports(w: Pair, bs: Books, step: Turn, s: Setup)
    requires Good(w.x, w.y, s) && May(ActorOf(w, step.who), step.action, s)
    requires Kept(w.x.io, bs.x) && Kept(w.y.io, bs.y)
    requires Requested(step.action) != [] ==> !Asks(BookOf(bs, step.who).asked, step.action.item.ioId)
    requires step.action.Parse? ==> ActorOf(w, step.who).io.Valid() && NotReused(ActorOf(w, step.who).io)
    ensures ActorOf(w, step.who).io.Valid()
    ensures var n, after := TakeTurn(w, step, s), NotedIn(bs, w, step);
      && Kept(n.x.io, after.x) && Kept(n.y.io, after.y)
      && TellsOnce(ActorOf(w, step.who).io, ActorOf(n, step.who).io, BookOf(bs, step.who), step.action)
  {
    hide Good; hide May; hide Act; hide Kept; hide TellsOnce; hide NotReused; hide Asks; hide Requested; hide Noted;
    hide IoState.Valid;
    GoodSwaps(w.x, w.y, s);
    if step.who == Who.First {
      ActReports(w.x, w.y, step.action, bs.x, bs.y, s);
    } else {
      ActReports(w.y, w.x, step.action, bs.y, bs.x, s);
    }
  }

  /** The requests so far are counted. */
  ghost predicate CountsAll(io: IoState, b: Book) {
    forall c: ChannelId :: c < |io.juliet.channels| ==> CountedOn(io, c, AskedOn(b.asked, c))
  }

  /** A run without reuse, because identifiers are never too old, or because there are not too many requests. */
  lemma {:induction false} RunsReport(w: Pair, bs: Books, steps: seq<Turn>, s: Setup)
    requires Good(w.x, w.y, s) && MayRun(w, steps, s)
    requires Kept(w.x.io, bs.x) && Kept(w.y.io, bs.y) && DistinctCalls(bs, steps)
    requires SpacedRun(w, steps, s) || (FewCalls(bs, steps) && CountsAll(w.x.io, bs.x) && CountsAll(w.y.io, bs.y))
    ensures AllReported(w, bs, steps, s)
    decreases |steps|
  {
    hide Good; hide May; hide Kept; hide TellsOnce; hide Noted; hide TakeTurn; hide DistinctIds; hide Few;
    hide CountsAll;
    hide Spaced; hide Asks; hide Calls; hide Requested; hide IoState.Valid; hide NotReused;
    if steps != [] {
      var step := steps[0];
      ActorIsValid(w, step.who, s);
      if Requested(step.action) != [] { NewInDistinct(BookOf(bs, step.who).asked, steps, step.who); }
      if step.action.Parse? { NeverReused(w, bs, steps, s); }
      TurnReports(w, bs, step, s);
      CallsStay(w, bs, steps);
      if !SpacedRun(w, steps, s) { TurnCounts(w, bs, steps, s); }
      RunsReport(TakeTurn(w, step, s), NotedIn(bs, w, step), steps[1..], s);
    }
  }

  lemma ActorIsValid(w: Pair, who: Who, s: Setup)
    requires Good(w.x, w.y, s)
    ensures ActorOf(w, who).io.Valid()
  {
    GoodShapes(w.x, w.y, s);
    GoodSwaps(w.x, w.y, s);
    GoodShapes(w.y, w.x, s);
    hide Good; hide IoState.Valid;
  }

  lemma NeverReused(w: Pair, bs: Books, steps: seq<Turn>, s: Setup)
    requires Good(w.x, w.y, s) && MayRun(w, steps, s) && steps != [] && steps[0].action.Parse?
    requires SpacedRun(w, steps, s) || (FewCalls(bs, steps) && CountsAll(w.x.io, bs.x) && CountsAll(w.y.io, bs.y))
    ensures ActorOf(w, steps[0].who).io.Valid() && NotReused(ActorOf(w, steps[0].who).io)
  {
    hide Good; hide May; hide TakeTurn; hide Spaced; hide Calls; hide IoState.Valid; hide NotReused; hide CountedOn;
    hide Few;
    var who := steps[0].who;
    var io, b := ActorOf(w, who).io, BookOf(bs, who);
    ActorIsValid(w, who, s);
    if SpacedRun(w, steps, s) {
      SpacedIsNotReused(io);
    } else {
      forall c: ChannelId | c < |io.juliet.channels|
        ensures CountedOn(io, c, AskedOn(b.asked, c)) && AskedOn(b.asked, c) <= ID_SPACE {
        FewSoFar(b.asked, Calls(steps, who), c);
      }
      CountedIsNotReused(io, b.asked);
    }
  }

  lemma FewSoFar(asked: seq<QueuedItem>, calls: seq<QueuedItem>, c: ChannelId)
    requires Few(asked + calls)
    ensures AskedOn(asked, c) < ID_SPACE
  {
    AskedOnAppend(asked, calls, c);
  }

  /** A turn keeps the count. */
  lemma TurnCounts(w: Pair, bs: Books, steps: seq<Turn>, s: Setup)
    requires Good(w.x, w.y, s) && steps != [] && May(ActorOf(w, steps[0].who), steps[0].action, s)
    requires FewCalls(bs, steps) && CountsAll(w.x.io, bs.x) && CountsAll(w.y.io, bs.y)
    ensures ActorOf(w, steps[0].who).io.Valid()
    ensures var n, after := TakeTurn(w, steps[0], s), NotedIn(bs, w, steps[0]);
      FewCalls(after, steps[1..]) && CountsAll(n.x.io, after.x) && CountsAll(n.y.io, after.y)
  {
    hide Good; hide May; hide Act; hide CountsAll; hide Few; hide Noted; hide Calls; hide IoState.Valid;
    var step := steps[0];
    ActorIsValid(w, step.who, s);
    GoodSwaps(w.x, w.y, s);
    CallsStay(w, bs, steps);
    if step.who == Who.First {
      CallsFirst(bs.x.asked, steps, Who.First);
      ActCounts(w.x, w.y, step.action, bs.x, bs.y, Calls(steps[1..], Who.First), s);
    } else {
      CallsFirst(bs.y.asked, steps, Who.Second);
      ActCounts(w.y, w.x, step.action, bs.y, bs.x, Calls(steps[1..], Who.Second), s);
    }
  }

  lemma ActCounts(p: Peer, q: Peer, action: Action, b: Book, other: Book, calls: seq<QueuedItem>, s: Setup)
    requires Good(p, q, s) && May(p, action, s)
    requires CountsAll(p.io, b) && CountsAll(q.io, other) && Few((b.asked + Requested(action)) + calls)
    ensures p.io.Valid()
    ensures var n := Act(p, q, action, s); CountsAll(n.x.io, Noted(b, p.io, action)) && CountsAll(n.y.io, other)
  {
    hide Good; hide MayCancelOn; hide Unanswered; hide CountedOn; hide HandleIncomingItem;
    hide ReadyNextFrame; hide FrameSent; hide ParseStep; hide Few; hide AskedOn; hide Noted; hide Requested;
    hide IoState.Valid; hide ProcessIncoming; hide Act;
    ActWorks(p, q, action, s);
    ActKeepsOther(p, q, action, s);
    var n := Act(p, q, action, s);
    NotedAsks(b, p.io, action);
    forall c: ChannelId | c < |q.io.juliet.channels| ensures CountedOn(n.y.io, c, AskedOn(other.asked, c)) {
      BufferCounts(q.io, n.y.io.buffer, c, AskedOn(other.asked, c));
    }
    forall c: ChannelId | c < |p.io.juliet.channels|
      ensures CountedOn(n.x.io, c, AskedOn(b.asked + Requested(action), c)) {
      FewSoFar(b.asked + Requested(action), calls, c);
      AskedOnAppend(b.asked, Requested(action), c);
      ActCountsOn(p, q, action, c, AskedOn(b.asked, c), s);
    }
  }

  lemma BufferCounts(io: IoState, buffer: Bytes, c: ChannelId, n: nat)
    requires CountedOn(io, c, n)
    ensures CountedOn(io.(buffer := buffer), c, n)
  {
  }

  lemma ActCountsOn(p: Peer, q: Peer, action: Action, c: ChannelId, n: nat, s: Setup)
    requires Good(p, q, s) && May(p, action, s)
    requires CountedOn(p.io, c, n) && n + AskedOn(Requested(action), c) < ID_SPACE
    ensures |Act(p, q, action, s).x.io.juliet.channels| == |p.io.juliet.channels|
    ensures CountedOn(Act(p, q, action, s).x.io, c, n + AskedOn(Requested(action), c))
  {
    hide Good; hide MayCancelOn; hide Unanswered; hide CountedOn; hide HandleIncomingItem;
    hide FrameSent; hide ParseStep; hide IoState.Valid; hide ProcessIncoming; hide Act;
    ActWorks(p, q, action, s);
    match action
    case Enqueue(item) =>
      EnqueueCounts(p.io, item, c, n);
    case MakeReady => ReadyCounts(p.io, c, n);
    case WriteOut => FrameSentCounts(p.io, c, n);
    case Deliver(_) =>
    case Parse => ParseCounts(p.io, c, n);
  }

  const NOTHING := Book([], {})

  lemma StartKept(s: Setup)
    requires |s.configs| <= 0x100
    ensures Kept(Start(s).x.io, NOTHING) && Kept(Start(s).y.io, NOTHING)
    ensures CountsAll(Start(s).x.io, NOTHING) && CountsAll(Start(s).y.io, NOTHING)
  {
    hide Good;
    assert NewPeer(s).io.Valid();
  }

  /**
   * From the start, in every run in which no local id is used twice and no channel has more than
   * 65535 requests: every answer is reported to the one that made the request, and to no one twice.
   */
  lemma FewRequestsNeverMisreport(steps: seq<Turn>, s: Setup)
    requires |s.configs| <= 0x100 && MayRun(Start(s), steps, s)
    requires DistinctIds(Calls(steps, Who.First)) && DistinctIds(Calls(steps, Who.Second))
    requires Few(Calls(steps, Who.First)) && Few(Calls(steps, Who.Second))
    ensures AllReported(Start(s), Books(NOTHING, NOTHING), steps, s)
  {
    hide Kept; hide May; hide Act; hide Good; hide CountsAll; hide DistinctIds; hide Few; hide Calls;
    StartKept(s);
    assert [] + Calls(steps, Who.First) == Calls(steps, Who.First);
    assert [] + Calls(steps, Who.Second) == Calls(steps, Who.Second);
    RunsReport(Start(s), Books(NOTHING, NOTHING), steps, s);
  }

  /**
   * The same with any number of requests, as long as none is left unanswered while as many others
   * are made on its channel as there are identifiers, less the request limit.
   */
  lemma SpacedRunsNeverMisreport(steps: seq<Turn>, s: Setup)
    requires |s.configs| <= 0x100 && MayRun(Start(s), steps, s) && SpacedRun(Start(s), steps, s)
    requires DistinctIds(Calls(steps, Who.First)) && DistinctIds(Calls(steps, Who.Second))
    ensures AllReported(Start(s), Books(NOTHING, NOTHING), steps, s)
  {
    hide Kept; hide May; hide Act; hide Good; hide CountsAll; hide DistinctIds; hide Calls; hide SpacedRun;
    StartKept(s);
    assert [] + Calls(steps, Who.First) == Calls(steps, Who.First);
    assert [] + Calls(steps, Who.Second) == Calls(steps, Who.Second);
    RunsReport(Start(s), Books(NOTHING, NOTHING), steps, s);
  }

  // ---------------------------------------------------------------- in the end

  ghost function BooksAfter(w: Pair, bs: Books, steps: seq<Turn>, s: Setup): Books
    requires Good(w.x, w.y, s) && MayRun(w, steps, s)
    decreases |steps|
  {
    if steps == [] then bs
    else
      ActorIsValid(w, steps[0].who, s);
      BooksAfter(TakeTurn(w, steps[0], s), NotedIn(bs, w, steps[0]), steps[1..], s)
  }

  /** The books are kept at the end of a run, and have all requests of the run. */
  lemma {:induction false} KeptToTheEnd(w: Pair, bs: Books, steps: seq<Turn>, s: Setup)
    requires Good(w.x, w.y, s) && MayRun(w, steps, s) && AllReported(w, bs, steps, s)
    ensures var n, after := AfterRun(w, steps, s), BooksAfter(w, bs, steps, s);
      && Kept(n.x.io, after.x) && Kept(n.y.io, after.y)
      && after.x.asked == bs.x.asked + Calls(steps, Who.First)
      && after.y.asked == bs.y.asked + Calls(steps, Who.Second)
    decreases |steps|
  {
    hide Good; hide May; hide Kept; hide TellsOnce; hide NotedIn; hide TakeTurn; hide IoState.Valid; hide Requested;
    if steps != [] {
      ActorIsValid(w, steps[0].who, s);
      CallsStay(w, bs, steps);
      hide Calls;
      KeptToTheEnd(TakeTurn(w, steps[0], s), NotedIn(bs, w, steps[0]), steps[1..], s);
    }
  }

  /**
   * After a run with distinct local ids and few requests, once a peer has no request waiting or under
   * way: exactly the local ids of the requests that were handed over have been told of an answer.
   */
  lemma EveryoneIsTold(steps: seq<Turn>, s: Setup)
    requires |s.configs| <= 0x100 && MayRun(Start(s), steps, s)
    requires DistinctIds(Calls(steps, Who.First)) && DistinctIds(Calls(steps, Who.Second))
    requires Few(Calls(steps, Who.First)) && Few(Calls(steps, Who.Second))
    ensures var io, told := AfterRun(Start(s), steps, s).x.io,
                            BooksAfter(Start(s), Books(NOTHING, NOTHING), steps, s).x.told;
      (forall l: IoId :: Unused(io, l)) ==> forall l: IoId :: l in told <==> Asks(Calls(steps, Who.First), l)
  {
    hide May; hide Act; hide Good; hide DistinctIds; hide Few; hide Calls; hide AllReported; hide Agreed; hide Asks;
    hide Unused;
    FewRequestsNeverMisreport(steps, s);
    KeptToTheEnd(Start(s), Books(NOTHING, NOTHING), steps, s);
    assert [] + Calls(steps, Who.First) == Calls(steps, Who.First);
  }
}
