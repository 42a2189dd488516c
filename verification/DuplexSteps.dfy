// Every step of either peer keeps the invariant of a channel, and no received frame is rejected.
module DuplexSteps {
  import opened Types
  import opened Header
  import opened Message
  import opened Protocol
  import opened Transfer
  import opened Duplex

  // ---------------------------------------------------------------- entries in sequence

  lemma {:induction false} AllowanceAppend(a: int, x: seq<FrameIter>, y: seq<FrameIter>, limit: nat)
    ensures Allowance(a, x + y, limit) == Allowance(Allowance(a, x, limit), y, limit)
    decreases |x|
  {
    if x == [] {
      assert x + y == y;
    } else {
      assert (x + y)[1..] == x[1..] + y;
      AllowanceAppend(AllowanceAfter(a, x[0], limit), x[1..], y, limit);
    }
  }

  lemma AllowanceOne(a: int, it: FrameIter, limit: nat)
    ensures Allowance(a, [it], limit) == AllowanceAfter(a, it, limit)
  {
    assert [it][1..] == [];
  }

  lemma {:induction false} WalkAppend(t: Track, x: seq<FrameIter>, y: seq<FrameIter>, g: Shared)
    ensures Walk(t, x + y, g) == Walk(Walk(t, x, g), y, g)
    decreases |x|
  {
    if x == [] {
      assert x + y == y;
    } else {
      assert (x + y)[1..] == x[1..] + y;
      WalkAppend(Advance(t, x[0], g), x[1..], y, g);
    }
  }

  lemma WalkOne(t: Track, it: FrameIter, g: Shared)
    ensures Walk(t, [it], g) == Advance(t, it, g)
  {
    assert [it][1..] == [];
  }

  lemma {:induction false} WalkBroken(its: seq<FrameIter>, g: Shared)
    ensures Walk(Broken, its, g) == Broken
    decreases |its|
  {
    if its != [] { WalkBroken(its[1..], g); }
  }

  lemma {:induction false} MultisAppend(x: seq<FrameIter>, y: seq<FrameIter>, g: Shared)
    ensures Multis(x + y, g) == Multis(x, g) + Multis(y, g)
  {
    if x == [] {
      assert x + y == y;
    } else {
      assert (x + y)[1..] == x[1..] + y;
      MultisAppend(x[1..], y, g);
    }
  }

  lemma MultisOne(it: FrameIter, g: Shared)
    ensures Multis([it], g) == if Multi(it, g) then [it] else []
  {
    assert [it][1..] == [];
  }

  lemma {:induction false} MultisIn(its: seq<FrameIter>, it: FrameIter, g: Shared)
    ensures it in Multis(its, g) <==> it in its && Multi(it, g)
  {
    if its != [] {
      assert its == [its[0]] + its[1..];
      MultisIn(its[1..], it, g);
    }
  }

  lemma {:induction false} EndingsAppend(x: seq<FrameIter>, y: seq<FrameIter>, mfs: MaxFrameSize)
    ensures Endings(x + y, mfs) == Endings(x, mfs) + Endings(y, mfs)
  {
    if x == [] {
      assert x + y == y;
    } else {
      assert (x + y)[1..] == x[1..] + y;
      EndingsAppend(x[1..], y, mfs);
    }
  }

  lemma EndingsOne(it: FrameIter, mfs: MaxFrameSize)
    ensures Endings([it], mfs) == if it.Valid() && it.IsFinal(mfs) && Reported(it.msg) then [it.msg] else []
  {
    assert [it][1..] == [];
  }

  lemma {:induction false} MessagesAppend(x: seq<FrameIter>, y: seq<FrameIter>)
    ensures Messages(x + y) == Messages(x) + Messages(y)
  {
    if x == [] {
      assert x + y == y;
    } else {
      assert (x + y)[1..] == x[1..] + y;
      MessagesAppend(x[1..], y);
    }
  }

  lemma MessagesOne(it: FrameIter)
    ensures Messages([it]) == if Reported(it.msg) then multiset{it.msg} else multiset{}
  {
    assert [it][1..] == [];
  }

  // ---------------------------------------------------------------- sums of multisets

  lemma SumLeft(a: multiset<Id>, b: multiset<Id>, c: multiset<Id>, x: multiset<Id>)
    ensures Sum(a + x, b, c) == Sum(a, b, c) + x
  {
  }

  lemma SumMiddle(a: multiset<Id>, b: multiset<Id>, c: multiset<Id>, x: multiset<Id>)
    ensures Sum(a, b + x, c) == Sum(a, b, c) + x
  {
  }

  lemma SumRight(a: multiset<Id>, b: multiset<Id>, c: multiset<Id>, x: multiset<Id>)
    ensures Sum(a, b, c + x) == Sum(a, b, c) + x
  {
  }

  lemma SumNone<T>(a: multiset<T>)
    ensures a + multiset{} == a && multiset{} + a == a
  {
  }

  lemma SetInsert<T>(s: set<T>, x: T)
    requires x !in s
    ensures multiset(s + {x}) == multiset(s) + multiset{x}
  {
  }

  lemma SetRemove<T>(s: set<T>, x: T)
    requires x in s
    ensures multiset(s) == multiset(s - {x}) + multiset{x}
  {
  }

  lemma Cancel<T>(a: multiset<T>, b: multiset<T>, x: multiset<T>)
    requires a + x == b + x
    ensures a == b
  {
    assert forall t :: (a + x)[t] == (b + x)[t];
    assert forall t :: a[t] == (a + x)[t] - x[t] && b[t] == (b + x)[t] - x[t];
  }

  // ---------------------------------------------------------------- a message is queued

  lemma PushPipe(e: End, msg: OutgoingMessage, g: Shared)
    ensures Wire(Push(e, msg, g)) == Wire(e)
    ensures Pipe(Push(e, msg, g)) == Pipe(e) + [msg.Frames()]
  {
  }

  /** The identifier of a message, if it is on one side. */
  function IdOn(side: Side, msg: OutgoingMessage): multiset<Id> {
    if On(side, msg.header) then multiset{msg.header.id} else multiset{}
  }

  lemma PushUnfinished(e: End, msg: OutgoingMessage, side: Side, g: Shared)
    ensures Unfinished(side, Push(e, msg, g), g) == Unfinished(side, e, g) + IdOn(side, msg)
  {
    var it := msg.Frames();
    IdsAppend(Any, side, e.ready, [it], g);
    IdsOne(Any, side, it, g);
    PushPipe(e, msg, g);
    hide Ids; hide Wire; hide On;
  }

  lemma PushUnstarted(e: End, msg: OutgoingMessage, g: Shared)
    ensures Unstarted(Push(e, msg, g), g) == Unstarted(e, g) + IdOn(Requests, msg)
  {
    var it := msg.Frames();
    PushPipe(e, msg, g);
    IdsAppend(First, Requests, Pipe(e), [it], g);
    IdsOne(First, Requests, it, g);
    hide Ids; hide Pipe; hide On;
  }

  lemma PushStreams(s: End, r: End, msg: OutgoingMessage, g: Shared)
    requires Streams(s, r, g) && MaySend(s, msg, g)
    requires IsCancelReq(msg.header) ==> Undisturbed(s.ready, msg.header.id, g)
    ensures Streams(Push(s, msg, g), r, g)
  {
    var it := msg.Frames();
    MultisAppend(s.ready, [it], g);
    MultisOne(it, g);
    hide Multis;
    var f := Push(s, msg, g);
    assert Wire(f) == Wire(s);
    hide Walk;
    forall p, q | 0 <= p < |f.ready| && 0 <= q < |f.ready| && Clash(f.ready[p], f.ready[q], g)
      ensures (p < q && f.ready[q].processed == 0) || (q < p && Final(f.ready[q], g))
    {
      if p < |s.ready| && q < |s.ready| {
        assert f.ready[p] == s.ready[p] && f.ready[q] == s.ready[q];
      } else if q < |s.ready| {
        assert f.ready[q] in s.ready;
      }
    }
  }

  lemma PushDelivered(s: End, r: End, msg: OutgoingMessage, g: Shared)
    requires Delivered(s, r, g)
    ensures Delivered(Push(s, msg, g), r, g)
  {
    MessagesAppend(s.ready, [msg.Frames()]);
    MessagesOne(msg.Frames());
    hide Messages; hide Endings;
  }

  lemma PushAllowance(s: End, msg: OutgoingMessage, a: int, limit: nat, g: Shared)
    ensures Allowance(a, Pipe(Push(s, msg, g)), limit) ==
            AllowanceAfter(Allowance(a, Pipe(s), limit), msg.Frames(), limit)
  {
    assert Pipe(Push(s, msg, g)) == Pipe(s) + [msg.Frames()];
    AllowanceAppend(a, Pipe(s), [msg.Frames()], limit);
    AllowanceOne(Allowance(a, Pipe(s), limit), msg.Frames(), limit);
  }

  // ---------------------------------------------------------------- creating messages

  /** What depends on the frames of an end only. */
  lemma SameFrames(e: End, s: End, g: Shared)
    requires e.sent == s.sent && e.current == s.current && e.ready == s.ready
    ensures Wire(e) == Wire(s) && Pipe(e) == Pipe(s) && Unstarted(e, g) == Unstarted(s, g)
    ensures forall side :: Unfinished(side, e, g) == Unfinished(side, s, g)
  {
    hide Ids;
  }

  /** One more request, not started and not finished. */
  lemma OneMoreRequest(s: End, r: End, f: End, id: Id, g: Shared)
    requires Conserved(s, r, g) && id !in s.chan.outgoing && f.chan.outgoing == s.chan.outgoing + {id}
    requires Unstarted(f, g) == Unstarted(s, g) + multiset{id}
    requires Unfinished(Requests, f, g) == Unfinished(Requests, s, g) + multiset{id}
    ensures Conserved(f, r, g)
  {
    hide Unstarted; hide Unfinished; hide Complete; hide Partial;
    SetInsert(s.chan.outgoing, id);
    SumLeft(Unstarted(s, g), multiset(r.chan.incoming), Unfinished(Answers, r, g), multiset{id});
    SumLeft(Unfinished(Requests, s, g), multiset(Complete(r.chan)), Unfinished(Answers, r, g), multiset{id});
    hide Sum;
  }

  /** The same requests received, the same answers on their way. */
  lemma SameAnswers(s: End, r: End, f: End, g: Shared)
    requires Conserved(s, r, g)
    requires f.chan.incoming == r.chan.incoming && f.chan.receiver == r.chan.receiver
    requires Unfinished(Answers, f, g) == Unfinished(Answers, r, g)
    ensures Conserved(s, f, g)
  {
    hide Unstarted; hide Unfinished; hide Sum;
  }

  /** The same requests made, and in the same stage. */
  lemma SameRequests(s: End, r: End, f: End, g: Shared)
    requires Conserved(s, r, g) && f.chan.outgoing == s.chan.outgoing
    requires Unstarted(f, g) == Unstarted(s, g) && Unfinished(Requests, f, g) == Unfinished(Requests, s, g)
    ensures Conserved(f, r, g)
  {
    hide Unstarted; hide Unfinished; hide Sum;
  }

  /** An end that differs in the requests it tracks only. */
  ghost predicate Retracked(e: End, s: End) {
    && e == s.(chan := e.chan, cancelled := e.cancelled)
    && e.chan == s.chan.(incoming := e.chan.incoming, outgoing := e.chan.outgoing,
         prevRequestId := e.chan.prevRequestId)
  }

  lemma RetrackedStreams(s: End, r: End, e: End, g: Shared)
    requires Streams(s, r, g) && Delivered(s, r, g) && Retracked(e, s)
    ensures Streams(e, r, g) && Delivered(e, r, g)
  {
    hide Multis; hide Walk; hide Messages; hide Endings;
  }

  /** The flow in the other direction, but for conservation and allowance, does not notice a push. */
  lemma PushBack(s: End, r: End, e: End, msg: OutgoingMessage, g: Shared)
    requires Streams(r, s, g) && Delivered(r, s, g) && Retracked(e, s)
    ensures Streams(r, Push(e, msg, g), g) && Delivered(r, Push(e, msg, g), g)
  {
    hide Multis; hide Walk; hide Messages; hide Endings;
  }

  lemma PushShape(s: End, e: End, msg: OutgoingMessage, g: Shared)
    requires Shape(s, g) && Fits(msg.Frames(), g) && Retracked(e, s)
    requires |e.chan.outgoing| <= g.config.requestLimit
    ensures Shape(Push(e, msg, g), g)
  {
    PushPipe(e, msg, g);
    SameFrames(e, s, g);
    hide Fits; hide Pipe;
  }

  /** All that creating a message keeps, but for conservation and allowance. */
  lemma PushKeeps(s: End, r: End, e: End, msg: OutgoingMessage, g: Shared)
    requires Inv(s, r, g) && Retracked(e, s) && |e.chan.outgoing| <= g.config.requestLimit
    requires MaySend(s, msg, g)
    requires IsCancelReq(msg.header) ==> Undisturbed(s.ready, msg.header.id, g)
    requires Conserved(Push(e, msg, g), r, g) && Conserved(r, Push(e, msg, g), g)
    requires Allowed(Push(e, msg, g), r, g) && Allowed(r, Push(e, msg, g), g)
    ensures Inv(Push(e, msg, g), r, g)
  {
    hide Conserved; hide Allowed; hide Streams; hide Delivered; hide Push; hide Shape; hide Fits; hide Multi;
    hide Undisturbed;
    PushShape(s, e, msg, g);
    RetrackedStreams(s, r, e, g);
    PushStreams(e, r, msg, g);
    PushDelivered(e, r, msg, g);
    PushBack(s, r, e, msg, g);
  }

  // ---------------------------------------------------------------- requests

  lemma RequestConserved(s: End, r: End, e: End, msg: OutgoingMessage, g: Shared)
    requires Conserved(s, r, g) && Conserved(r, s, g) && Retracked(e, s)
    requires On(Requests, msg.header) && msg.header.id !in s.chan.outgoing
    requires e.chan.incoming == s.chan.incoming && e.chan.outgoing == s.chan.outgoing + {msg.header.id}
    ensures Conserved(Push(e, msg, g), r, g) && Conserved(r, Push(e, msg, g), g)
  {
    var f := Push(e, msg, g);
    SameFrames(e, s, g);
    hide Unfinished; hide Unstarted; hide Conserved;
    PushUnfinished(e, msg, Requests, g);
    PushUnfinished(e, msg, Answers, g);
    PushUnstarted(e, msg, g);
    SumNone(Unfinished(Answers, s, g));
    OneMoreRequest(s, r, f, msg.header.id, g);
    SameAnswers(r, s, f, g);
  }

  lemma RequestAllowed(s: End, r: End, e: End, msg: OutgoingMessage, g: Shared)
    requires Allowed(s, r, g) && Allowed(r, s, g) && Retracked(e, s) && e.cancelled == s.cancelled
    requires On(Requests, msg.header) && msg.header.id !in s.chan.outgoing
    requires |e.chan.outgoing| <= g.config.requestLimit
    requires e.chan.outgoing == s.chan.outgoing + {msg.header.id}
    ensures Allowed(Push(e, msg, g), r, g) && Allowed(r, Push(e, msg, g), g)
  {
    SameFrames(e, s, g);
    PushAllowance(e, msg, r.chan.allowance, g.config.requestLimit, g);
    hide Pipe; hide Allowance;
    assert e.chan.outgoing - s.cancelled == (s.chan.outgoing - s.cancelled) + {msg.header.id};
    Protocol.Subset(e.chan.outgoing - s.cancelled, e.chan.outgoing);
  }

  /** What creating a request does to a channel that has room for it. */
  lemma RequestTracked(ch: ChannelState, channel: ChannelId, payload: Option<Bytes>)
    requires ch.AllowedToSendRequest()
    ensures var (chan, msg) := ch.CreateUncheckedRequest(channel, payload);
      && On(Requests, msg.header) && msg.header.id !in ch.outgoing
      && chan == ch.(outgoing := ch.outgoing + {msg.header.id}, prevRequestId := msg.header.id)
      && |chan.outgoing| <= ch.config.requestLimit
  {
    NextIdIsNextFree(ch.outgoing, ch.prevRequestId);
  }

  lemma RequestKeepsInv(s: End, r: End, payload: Option<Bytes>, g: Shared)
    requires Inv(s, r, g) && MayRequest(s, payload, g)
    ensures Inv(SendRequest(s, payload, g), r, g)
  {
    hide Conserved; hide Allowed; hide Streams; hide Delivered; hide Push; hide Multi;
    RequestTracked(s.chan, g.channel, payload);
    var (chan, msg) := s.chan.CreateUncheckedRequest(g.channel, payload);
    var e := s.(chan := chan);
    RequestConserved(s, r, e, msg, g);
    RequestAllowed(s, r, e, msg, g);
    PushKeeps(s, r, e, msg, g);
  }

  // ---------------------------------------------------------------- answers

  /** A request that has been answered: the same request, in another stage. */
  lemma OneAnswered(s: End, r: End, f: End, id: Id, g: Shared)
    requires Conserved(s, r, g) && id in Complete(r.chan)
    requires f.chan.incoming == r.chan.incoming - {id} && f.chan.receiver == r.chan.receiver
    requires Unfinished(Answers, f, g) == Unfinished(Answers, r, g) + multiset{id}
    ensures Conserved(s, f, g)
  {
    assert Partial(f.chan) == Partial(r.chan) && Complete(f.chan) == Complete(r.chan) - {id} && id in r.chan.incoming;
    hide Unstarted; hide Unfinished; hide Complete; hide Partial;
    SetRemove(r.chan.incoming, id);
    SetRemove(Complete(r.chan), id);
    var u, v, a, one := Unstarted(s, g), Unfinished(Requests, s, g), Unfinished(Answers, r, g), multiset{id};
    SumMiddle(u, multiset(f.chan.incoming), a, one);
    SumRight(u, multiset(f.chan.incoming), a, one);
    SumMiddle(v, multiset(Complete(f.chan)), a, one);
    SumRight(v, multiset(Complete(f.chan)), a, one);
    hide Sum;
  }

  lemma AnswerConserved(s: End, r: End, e: End, msg: OutgoingMessage, g: Shared)
    requires Conserved(s, r, g) && Conserved(r, s, g) && Retracked(e, s)
    requires On(Answers, msg.header) && msg.header.id in Complete(s.chan)
    requires e.chan.outgoing == s.chan.outgoing && e.chan.incoming == s.chan.incoming - {msg.header.id}
    ensures Conserved(Push(e, msg, g), r, g) && Conserved(r, Push(e, msg, g), g)
  {
    var f := Push(e, msg, g);
    SameFrames(e, s, g);
    hide Unfinished; hide Unstarted; hide Conserved;
    PushUnfinished(e, msg, Requests, g);
    PushUnfinished(e, msg, Answers, g);
    PushUnstarted(e, msg, g);
    SumNone(Unfinished(Requests, s, g));
    SumNone(Unstarted(s, g));
    OneAnswered(r, s, f, msg.header.id, g);
    SameRequests(s, r, f, g);
  }

  lemma AnswerAllowed(s: End, r: End, e: End, msg: OutgoingMessage, g: Shared)
    requires Allowed(s, r, g) && Allowed(r, s, g) && Retracked(e, s) && e.cancelled == s.cancelled
    requires On(Answers, msg.header) && e.chan.outgoing == s.chan.outgoing
    ensures Allowed(Push(e, msg, g), r, g) && Allowed(r, Push(e, msg, g), g)
  {
    SameFrames(e, s, g);
    PushAllowance(e, msg, r.chan.allowance, g.config.requestLimit, g);
    hide Pipe; hide Allowance;
  }

  lemma AnswerKeepsInv(s: End, r: End, msg: OutgoingMessage, g: Shared)
    requires Inv(s, r, g) && MayAnswer(s, msg, g)
    ensures Inv(SendAnswer(s, msg, g), r, g)
  {
    hide Conserved; hide Allowed; hide Streams; hide Delivered; hide Push; hide Multi;
    var e := s.(chan := s.chan.(incoming := s.chan.incoming - {msg.header.id}));
    AnswerConserved(s, r, e, msg, g);
    AnswerAllowed(s, r, e, msg, g);
    PushKeeps(s, r, e, msg, g);
  }

  // ---------------------------------------------------------------- cancellations of requests

  lemma CancelOnNeither(msg: OutgoingMessage)
    requires IsCancelReq(msg.header)
    ensures IdOn(Requests, msg) == multiset{} && IdOn(Answers, msg) == multiset{}
  {
  }

  lemma CancelConserved(s: End, r: End, e: End, msg: OutgoingMessage, g: Shared)
    requires Conserved(s, r, g) && Conserved(r, s, g) && Retracked(e, s) && e.chan == s.chan
    requires IsCancelReq(msg.header)
    ensures Conserved(Push(e, msg, g), r, g) && Conserved(r, Push(e, msg, g), g)
  {
    hide Unfinished; hide Unstarted; hide Conserved; hide IdOn; hide Multi;
    var f := Push(e, msg, g);
    SameFrames(e, s, g);
    PushUnfinished(e, msg, Requests, g);
    PushUnfinished(e, msg, Answers, g);
    PushUnstarted(e, msg, g);
    CancelOnNeither(msg);
    SumNone(Unfinished(Requests, s, g));
    SumNone(Unfinished(Answers, s, g));
    SumNone(Unstarted(s, g));
    SameAnswers(r, s, f, g);
    SameRequests(s, r, f, g);
  }

  lemma CancelAllowed(s: End, r: End, e: End, id: Id, g: Shared)
    requires Allowed(s, r, g) && Allowed(r, s, g) && Retracked(e, s) && e.chan == s.chan
    requires id in s.chan.outgoing && id !in s.cancelled && e.cancelled == s.cancelled + {id}
    ensures Allowed(Push(e, CancelMsg(id, g), g), r, g) && Allowed(r, Push(e, CancelMsg(id, g), g), g)
  {
    SameFrames(e, s, g);
    PushAllowance(e, CancelMsg(id, g), r.chan.allowance, g.config.requestLimit, g);
    hide Pipe; hide Allowance;
    assert s.chan.outgoing - s.cancelled == (s.chan.outgoing - e.cancelled) + {id};
  }

  lemma CancelIsSmall(s: End, id: Id, g: Shared)
    ensures MaySend(s, CancelMsg(id, g), g)
    ensures IsCancelReq(CancelMsg(id, g).header) && CancelMsg(id, g).header.id == id
  {
  }

  lemma CancelKeepsInv(s: End, r: End, id: Id, g: Shared)
    requires Inv(s, r, g) && MayCancel(s, id, g)
    ensures Inv(SendCancel(s, id, g), r, g)
  {
    CancelIsSmall(s, id, g);
    hide Conserved; hide Allowed; hide Streams; hide Delivered; hide Push; hide Multi; hide Fits; hide CancelMsg;
    var e := s.(cancelled := s.cancelled + {id});
    CancelConserved(s, r, e, CancelMsg(id, g), g);
    CancelAllowed(s, r, e, id, g);
    PushKeeps(s, r, e, CancelMsg(id, g), g);
  }

  // ---------------------------------------------------------------- the next frame

  ghost function More(it: FrameIter, g: Shared): seq<FrameIter> {
    if Final(it, g) then [] else [Next(it, g)]
  }

  /** What is known of an entry that fits and of what remains after its next frame. */
  lemma EntryFacts(it: FrameIter, g: Shared)
    requires Fits(it, g)
    ensures !Multi(it, g) ==> it.processed == 0 && Final(it, g)
    ensures Multi(it, g) ==> HasPayload(it.msg.header) && (it.processed == 0 ==> !Final(it, g))
    ensures !Final(it, g) ==>
              Fits(Next(it, g), g) && Next(it, g).processed > 0 && Next(it, g).msg == it.msg && Multi(it, g)
  {
    if it.processed == 0 { FirstIsFinal(it, g.mfs); }
  }

  lemma ReadyPipe(e: End, g: Shared)
    requires e.current.None? && e.ready != []
    ensures var f := ReadyNext(e, g);
      && Wire(f) == Wire(e) + [e.ready[0]]
      && f.ready == e.ready[1..] + More(e.ready[0], g)
      && Pipe(f) == Pipe(e) + More(e.ready[0], g)
      && e.ready == [e.ready[0]] + e.ready[1..]
      && Fits(e.ready[0], g) == Fits(Pipe(e)[|Wire(e)|], g)
  {
    var it, tail, more := e.ready[0], e.ready[1..], More(e.ready[0], g);
    assert e.ready == [it] + tail;
    assert Wire(e) + [it] + (tail + more) == Wire(e) + ([it] + tail) + more;
  }

  lemma ReadyUnfinished(e: End, side: Side, g: Shared)
    requires e.current.None? && e.ready != [] && Fits(e.ready[0], g)
    ensures Unfinished(side, ReadyNext(e, g), g) == Unfinished(side, e, g)
  {
    var it, tail, more := e.ready[0], e.ready[1..], More(e.ready[0], g);
    ReadyPipe(e, g);
    EntryFacts(it, g);
    IdsAppend(Last, side, Wire(e), [it], g);
    IdsOne(Last, side, it, g);
    IdsAppend(Any, side, [it], tail, g);
    IdsOne(Any, side, it, g);
    IdsAppend(Any, side, tail, more, g);
    IdsOne(Any, side, Next(it, g), g);
    var a, b := Ids(Last, side, Wire(e), g), Ids(Any, side, tail, g);
    var c := if On(side, it.msg.header) then multiset{it.msg.header.id} else multiset{};
    assert Ids(Any, side, [], g) == multiset{};
    MoveLast(a, b, c);
    hide Ids; hide Wire; hide Next; hide Final; hide Fits; hide Multi; hide On;
  }

  lemma MoveLast(a: multiset<Id>, b: multiset<Id>, c: multiset<Id>)
    ensures (a + c) + (b + multiset{}) == a + (c + b)
    ensures (a + c) + b == a + (c + b)
    ensures (a + multiset{}) + (b + c) == a + (c + b)
  {
  }

  lemma ReadyUnstarted(e: End, g: Shared)
    requires e.current.None? && e.ready != [] && Fits(e.ready[0], g)
    ensures Unstarted(ReadyNext(e, g), g) == Unstarted(e, g)
    ensures forall a, limit :: Allowance(a, Pipe(ReadyNext(e, g)), limit) == Allowance(a, Pipe(e), limit)
  {
    var it, more := e.ready[0], More(e.ready[0], g);
    ReadyPipe(e, g);
    EntryFacts(it, g);
    IdsAppend(First, Requests, Pipe(e), more, g);
    IdsOne(First, Requests, Next(it, g), g);
    SumNone(Unstarted(e, g));
    forall a, limit ensures Allowance(a, Pipe(ReadyNext(e, g)), limit) == Allowance(a, Pipe(e), limit) {
      AllowanceAppend(a, Pipe(e), more, limit);
      AllowanceOne(Allowance(a, Pipe(e), limit), Next(it, g), limit);
      assert Pipe(e) + [] == Pipe(e);
    }
    hide Ids; hide Pipe; hide Next; hide Fits; hide Multi;
  }

  lemma ReadyLogged(e: End, r: End, g: Shared)
    requires Delivered(e, r, g) && e.current.None? && e.ready != []
    ensures ReadyNext(e, g).log == r.got + Endings(Wire(ReadyNext(e, g)), g.mfs)
  {
    var it := e.ready[0];
    ReadyPipe(e, g);
    EndingsAppend(Wire(e), [it], g.mfs);
    EndingsOne(it, g.mfs);
    var ended := if Final(it, g) && Reported(it.msg) then [it.msg] else [];
    Associate(r.got, Endings(Wire(e), g.mfs), ended);
    hide Endings; hide Wire; hide Pipe; hide Messages;
  }

  lemma ReadyCreated(e: End, g: Shared)
    requires e.created == multiset(e.log) + Messages(e.ready) && e.current.None? && e.ready != [] && Fits(e.ready[0], g)
    ensures var f := ReadyNext(e, g); f.created == multiset(f.log) + Messages(f.ready)
  {
    var it, tail := e.ready[0], e.ready[1..];
    var f := ReadyNext(e, g);
    EntryFacts(it, g);
    var one := if Reported(it.msg) then multiset{it.msg} else multiset{};
    assert Messages(e.ready) == one + Messages(tail);
    if Final(it, g) {
      assert f.ready == tail;
      assert multiset(f.log) == multiset(e.log) + one;
      assert (multiset(e.log) + one) + Messages(tail) == multiset(e.log) + (one + Messages(tail));
    } else {
      MessagesAppend(tail, [Next(it, g)]);
      MessagesOne(Next(it, g));
      assert f.log == e.log;
      assert one + Messages(tail) == Messages(tail) + one;
    }
  }

  lemma ReadyDelivered(e: End, r: End, g: Shared)
    requires Delivered(e, r, g) && e.current.None? && e.ready != [] && Fits(e.ready[0], g)
    ensures Delivered(ReadyNext(e, g), r, g)
  {
    ReadyLogged(e, r, g);
    ReadyCreated(e, g);
    hide Endings; hide Messages; hide ReadyNext;
  }

  /** An identifier is among those of the entries, if an entry has it. */
  lemma {:induction false} IdsIn(part: Part, side: Side, its: seq<FrameIter>, it: FrameIter, g: Shared)
    requires it in its && Counts(part, side, it, g)
    ensures Ids(part, side, its, g)[it.msg.header.id] >= 1
  {
    if its[0] != it { IdsIn(part, side, its[1..], it, g); }
  }

  /** No identifier is in use twice on one side. */
  lemma AtMostOnce(s: End, r: End, id: Id, g: Shared)
    requires Conserved(s, r, g) && Conserved(r, s, g)
    ensures Unfinished(Requests, s, g)[id] <= 1 && Unfinished(Answers, s, g)[id] <= 1
  {
    hide Unfinished; hide Unstarted;
    assert multiset(s.chan.outgoing)[id] <= 1 && multiset(r.chan.outgoing)[id] <= 1;
  }

  /** Two entries of the ready queue never have the same payload header. */
  lemma HeadersDiffer(s: End, r: End, it: FrameIter, g: Shared)
    requires Conserved(s, r, g) && Conserved(r, s, g) && s.ready != [] && it in s.ready[1..]
    requires HasPayload(it.msg.header)
    ensures s.ready[0].msg.header != it.msg.header
  {
    var h := it.msg.header;
    if s.ready[0].msg.header == h {
      var side := if h.kind == RequestPl then Requests else Answers;
      IdsIn(Any, side, s.ready[1..], it, g);
      assert Ids(Any, side, s.ready, g)[h.id] >= 2;
      AtMostOnce(s, r, h.id, g);
      assert false;
    }
  }

  lemma {:induction false} WalkStarted(t: Track, its: seq<FrameIter>, g: Shared)
    requires t.Mid? ==> t.next.processed > 0
    requires forall it :: it in its ==> Fits(it, g)
    ensures Walk(t, its, g).Mid? ==> Walk(t, its, g).next.processed > 0
    decreases |its|
  {
    if its != [] {
      EntryFacts(its[0], g);
      WalkStarted(Advance(t, its[0], g), its[1..], g);
    }
  }

  lemma MidStarted(r: End, s: End, g: Shared)
    requires Matches(r.chan.receiver, r.track)
    requires forall it :: it in Wire(s) ==> Fits(it, g)
    ensures Walk(r.track, Wire(s), g).Mid? ==> Walk(r.track, Wire(s), g).next.processed > 0
  {
    WalkStarted(r.track, Wire(s), g);
  }

  /** A message that is not in the way of the transfer in progress. */
  lemma SingleIsApart(e: End, r: End, x: FrameIter, g: Shared)
    requires Streams(e, r, g) && Conserved(e, r, g) && Conserved(r, e, g)
    requires e.ready != [] && x in e.ready[1..] && Multi(x, g) && HasPayload(x.msg.header) && x.processed > 0
    ensures x.msg.header != e.ready[0].msg.header
    ensures !Clash(e.ready[0], x, g)
  {
    HeadersDiffer(e, r, x, g);
    var tail := e.ready[1..];
    var q :| 0 <= q < |tail| && tail[q] == x;
    assert e.ready[q + 1] == x;
    hide Multis; hide Walk; hide Conserved; hide Multi;
    assert Clash(e.ready[0], e.ready[q + 1], g) == Clash(e.ready[0], x, g);
  }

  /** The next frame is one that the receiver can take at that point. */
  lemma ReadyWalk(e: End, r: End, g: Shared)
    requires Inv(e, r, g) && e.current.None? && e.ready != []
    ensures var it, t := e.ready[0], Walk(r.track, Wire(e), g);
      && Multis(e.ready, g) == (if Multi(it, g) then [it] else []) + Multis(e.ready[1..], g)
      && (Multi(it, g) ==> Multis(e.ready[1..], g) == [])
      && Advance(t, it, g) == if !Multi(it, g) then t else if Final(it, g) then Idle else Mid(Next(it, g))
  {
    var it, tail, t := e.ready[0], e.ready[1..], Walk(r.track, Wire(e), g);
    assert forall x :: x in e.ready ==> x in Pipe(e);
    EntryFacts(it, g);
    MidStarted(r, e, g);
    assert Multis(e.ready, g) == (if Multi(it, g) then [it] else []) + Multis(tail, g);
    if t.Mid? && !Multi(it, g) {
      MultisIn(tail, t.next, g);
      EntryFacts(t.next, g);
      SingleIsApart(e, r, t.next, g);
    }
    hide Multis; hide Conserved; hide Walk; hide NoClash; hide Allowed; hide Delivered; hide Fits; hide Wire;
    hide Next; hide Final; hide Matches;
  }

  lemma ReadyTrack(e: End, r: End, g: Shared)
    requires Inv(e, r, g) && e.current.None? && e.ready != []
    ensures var f, it, t := ReadyNext(e, g), e.ready[0], Walk(r.track, Wire(e), g);
      && Walk(r.track, Wire(f), g) == (if !Multi(it, g) then t else if Final(it, g) then Idle else Mid(Next(it, g)))
      && Multis(f.ready, g) == (if !Multi(it, g) then Multis(e.ready, g) else More(it, g))
      && (Multi(it, g) ==> Multis(e.ready, g) == [it])
  {
    var it, tail, more := e.ready[0], e.ready[1..], More(e.ready[0], g);
    ReadyPipe(e, g);
    assert it in Pipe(e);
    EntryFacts(it, g);
    ReadyWalk(e, r, g);
    WalkAppend(r.track, Wire(e), [it], g);
    WalkOne(Walk(r.track, Wire(e), g), it, g);
    MultisAppend(tail, more, g);
    MultisOne(Next(it, g), g);
    assert Multis([], g) == [];
    hide Multis; hide Walk; hide Inv; hide Wire; hide Advance; hide Fits; hide Pipe; hide Final;
  }

  lemma ReadyTracked(t: Track, m: seq<FrameIter>, it: FrameIter, g: Shared)
    requires Tracked(t, m) && Fits(it, g) && (Multi(it, g) ==> m == [it])
    ensures Tracked(if !Multi(it, g) then t else if Final(it, g) then Idle else Mid(Next(it, g)),
                    if !Multi(it, g) then m else More(it, g))
  {
    hide Multi; hide Final; hide Next; hide Fits;
  }

  lemma ReadyLocked(m: seq<FrameIter>, it: FrameIter, lock: Option<Header>, g: Shared)
    requires Locked(m, None, lock, g) && Fits(it, g) && (Multi(it, g) ==> m == [it])
    ensures Locked(if !Multi(it, g) then m else More(it, g), Some(it), lock, g)
  {
    EntryFacts(it, g);
    hide Multi; hide Final; hide Next; hide Fits;
  }

  lemma ReadyStreams(e: End, r: End, g: Shared)
    requires Inv(e, r, g) && e.current.None? && e.ready != []
    ensures Streams(ReadyNext(e, g), r, g)
  {
    var it, t, m := e.ready[0], Walk(r.track, Wire(e), g), Multis(e.ready, g);
    assert it in Pipe(e);
    ReadyTrack(e, r, g);
    ReadyTracked(t, m, it, g);
    ReadyLocked(m, it, e.lock, g);
    NoClashRotates(e.ready, g);
    assert ReadyNext(e, g).ready == e.ready[1..] + More(it, g);
    hide Multis; hide Walk; hide NoClash; hide Conserved; hide Allowed; hide Delivered; hide Wire; hide Fits;
    hide Matches; hide Multi; hide Next; hide Final; hide Shape; hide Tracked; hide Locked; hide More;
  }

  /** Taking the first frame of the queue and putting the remainder at the back creates no clash. */
  lemma NoClashRotates(ready: seq<FrameIter>, g: Shared)
    requires ready != [] && NoClash(ready, g) && Fits(ready[0], g)
    ensures NoClash(ready[1..] + More(ready[0], g), g)
  {
    var rotated := ready[1..] + More(ready[0], g);
    EntryFacts(ready[0], g);
    assert forall p :: 1 <= p < |ready| && Clash(ready[p], ready[0], g) ==> Final(ready[0], g);
    forall p, q | 0 <= p < |rotated| && 0 <= q < |rotated| && Clash(rotated[p], rotated[q], g)
      ensures (p < q && rotated[q].processed == 0) || (q < p && Final(rotated[q], g))
    {
      if p < |ready| - 1 { assert rotated[p] == ready[p + 1]; }
      if q < |ready| - 1 { assert rotated[q] == ready[q + 1]; }
    }
  }

  /** Keeps every conjunct, given what changes only how the frames of an end are stored. */
  lemma FramesMoved(e: End, r: End, f: End, g: Shared)
    requires Inv(e, r, g) && f.chan == e.chan && f.cancelled == e.cancelled && f.track == e.track && f.got == e.got
    requires Shape(f, g) && Streams(f, r, g) && Delivered(f, r, g)
    requires Unstarted(f, g) == Unstarted(e, g)
    requires forall side :: Unfinished(side, f, g) == Unfinished(side, e, g)
    requires Allowance(r.chan.allowance, Pipe(f), g.config.requestLimit) ==
             Allowance(r.chan.allowance, Pipe(e), g.config.requestLimit)
    ensures Inv(f, r, g)
  {
    SameAnswers(r, e, f, g);
    SameRequests(e, r, f, g);
    assert Allowed(f, r, g) && Allowed(r, f, g) by {
      hide Allowance; hide Pipe; hide Conserved; hide Streams; hide Delivered;
    }
    assert Streams(r, f, g) && Delivered(r, f, g) by {
      hide Walk; hide Multis; hide Endings; hide Messages; hide Conserved; hide Allowed;
    }
    hide Conserved; hide Allowed; hide Streams; hide Delivered; hide Shape;
  }

  lemma ReadyShape(e: End, g: Shared)
    requires Shape(e, g) && e.current.None? && e.ready != []
    ensures Shape(ReadyNext(e, g), g) && Fits(e.ready[0], g)
  {
    assert e.ready[0] in Pipe(e);
    EntryFacts(e.ready[0], g);
    ReadyPipe(e, g);
    hide Fits; hide Pipe; hide Next; hide Final;
  }

  lemma ReadyKeepsInv(e: End, r: End, g: Shared)
    requires Inv(e, r, g) && e.current.None? && e.ready != []
    ensures Inv(ReadyNext(e, g), r, g)
  {
    hide Conserved; hide Allowed; hide Streams; hide Delivered; hide Shape; hide Unfinished; hide Unstarted;
    hide Ids; hide Pipe; hide Allowance;
    ReadyShape(e, g);
    ReadyStreams(e, r, g);
    ReadyDelivered(e, r, g);
    forall side ensures Unfinished(side, ReadyNext(e, g), g) == Unfinished(side, e, g) {
      ReadyUnfinished(e, side, g);
    }
    ReadyUnstarted(e, g);
    FramesMoved(e, r, ReadyNext(e, g), g);
  }

  // ---------------------------------------------------------------- the frame sent

  lemma SentPipe(e: End, g: Shared)
    requires e.current.Some?
    ensures Wire(SendCurrent(e, g)) == Wire(e) && Pipe(SendCurrent(e, g)) == Pipe(e)
  {
  }

  /** The last frame of a message that is not the multi-frame one has another header. */
  lemma CurrentIsApart(e: End, r: End, x: FrameIter, g: Shared)
    requires Conserved(e, r, g) && Conserved(r, e, g)
    requires e.current.Some? && Final(e.current.value, g) && x in e.ready && HasPayload(x.msg.header)
    ensures e.current.value.msg.header != x.msg.header
  {
    var it, h := e.current.value, x.msg.header;
    if it.msg.header == h {
      var side := if h.kind == RequestPl then Requests else Answers;
      IdsIn(Last, side, Wire(e), it, g);
      IdsIn(Any, side, e.ready, x, g);
      AtMostOnce(e, r, h.id, g);
      assert false;
    }
  }

  /** The lock is released exactly when no frame of its message is left. */
  lemma SentLocked(e: End, r: End, g: Shared)
    requires Inv(e, r, g) && e.current.Some?
    ensures Locked(Multis(e.ready, g), None, SendCurrent(e, g).lock, g)
  {
    var it, m := e.current.value, Multis(e.ready, g);
    assert it in Pipe(e);
    EntryFacts(it, g);
    if m != [] {
      var x := m[0];
      MultisIn(e.ready, x, g);
      assert x in Pipe(e);
      EntryFacts(x, g);
      if Final(it, g) { CurrentIsApart(e, r, x, g); }
    } else if Multi(it, g) && !Final(it, g) {
      UnfinishedIsQueued(e, r, g);
    }
    hide Multis; hide Walk; hide Conserved; hide Allowed; hide Delivered; hide NoClash; hide Fits; hide Tracked;
  }

  /** After a frame that is not the last, the rest of the message is queued. */
  lemma UnfinishedIsQueued(e: End, r: End, g: Shared)
    requires Streams(e, r, g) && e.current.Some? && Multi(e.current.value, g) && !Final(e.current.value, g)
    ensures Multis(e.ready, g) == [Next(e.current.value, g)]
  {
    var it := e.current.value;
    WalkAppend(r.track, e.sent, [it], g);
    WalkOne(Walk(r.track, e.sent, g), it, g);
    WalkBroken([it], g);
    hide Multis; hide Walk; hide NoClash; hide Locked;
  }

  lemma SentStreams(e: End, r: End, g: Shared)
    requires Inv(e, r, g) && e.current.Some?
    ensures Streams(SendCurrent(e, g), r, g)
  {
    SentLocked(e, r, g);
    SentPipe(e, g);
    hide Multis; hide Walk; hide NoClash; hide Conserved; hide Allowed; hide Delivered; hide Wire; hide Shape;
    hide Locked;
  }

  lemma SentKeepsInv(e: End, r: End, g: Shared)
    requires Inv(e, r, g) && e.current.Some?
    ensures Inv(SendCurrent(e, g), r, g)
  {
    SentStreams(e, r, g);
    SentPipe(e, g);
    FramesMoved(e, r, SendCurrent(e, g), g);
    hide Ids; hide Wire; hide Pipe; hide Walk; hide Streams; hide Conserved; hide Endings; hide Messages;
  }
}
