// A received frame is always accepted, and receiving it keeps the invariant of a channel.
module DuplexReceive {
  import opened Types
  import opened Header
  import opened Message
  import opened Multiframe
  import opened Protocol
  import opened Transfer
  import opened Duplex
  import opened DuplexSteps

  /** The transfer state after a frame that is taken. */
  ghost function TransferAfter(state: ReceiverState, it: FrameIter, g: Shared): ReceiverState {
    if Final(it, g) then if it.processed == 0 then state else Ready
    else if Fits(it, g) then EntryFacts(it, g); Holding(Next(it, g))
    else state
  }

  /** What a channel becomes and reports when it takes a frame, with all checks passed. */
  ghost function Accepting(ch: ChannelState, it: FrameIter, g: Shared): (ChannelState, Option<CompletedRead>)
    requires it.msg.header.Frame?
  {
    var h, payload := it.msg.header, it.msg.payload;
    var moved := ch.(receiver := TransferAfter(ch.receiver, it, g));
    match h.kind
    case Request => (ch.Admit(h.id), Some(NewRequest(h.channel, h.id, None)))
    case Response => (ch.(outgoing := ch.outgoing - {h.id}), Some(ReceivedResponse(h.channel, h.id, None)))
    case RequestPl =>
      (if it.processed == 0 then moved.Admit(h.id) else moved,
       if Final(it, g) then Some(NewRequest(h.channel, h.id, payload)) else None)
    case ResponsePl =>
      if Final(it, g) then (moved.(outgoing := ch.outgoing - {h.id}), Some(ReceivedResponse(h.channel, h.id, payload)))
      else (moved, None)
    case CancelReq =>
      (ch.(allowance := if ch.allowance == 0 then 0 else ch.allowance - 1),
       if h.id in ch.incoming then Some(RequestCancellation(h.channel, h.id)) else None)
    case CancelResp => (ch.(outgoing := ch.outgoing - {h.id}), Some(ResponseCancellation(h.channel, h.id)))
  }

  // ---------------------------------------------------------------- the checks pass

  /** What the invariant says about the frame that arrives next. */
  ghost predicate Welcome(ch: ChannelState, track: Track, it: FrameIter, g: Shared) {
    var h := it.msg.header;
    && Fits(it, g) && ch.config == g.config
    && Matches(ch.receiver, track) && !Advance(track, it, g).Broken?
    && (On(Requests, h) && it.processed == 0 ==> h.id !in ch.incoming && |ch.incoming| < g.config.requestLimit)
    && (On(Answers, h) ==> h.id in ch.outgoing)
    && (IsCancelReq(h) ==> ch.allowance > 0)
  }

  lemma AcceptsPayload(ch: ChannelState, track: Track, it: FrameIter, g: Shared, maxPayloadSize: u32,
                       tooLarge: ErrorKind)
    requires Welcome(ch, track, it, g) && HasPayload(it.msg.header)
    requires |it.msg.payload.value| <= maxPayloadSize
    ensures ch.receiver.Valid() && |FrameBytes(it, g.mfs)| >= SIZE
    ensures var b := FrameBytes(it, g.mfs);
      AcceptFrame(ch.receiver, it.msg.header, b, g.mfs, maxPayloadSize, tooLarge) ==
      Accepted(TransferAfter(ch.receiver, it, g), |b|,
               Success(if it.processed == 0 then
                         if Final(it, g) then SingleFrame(it.msg.payload.value) else NewMultiFrame
                       else
                         if Final(it, g) then CompletedMultiFrame(it.msg.payload.value) else IntermediateMultiFrame))
  {
    hide AcceptFrame; hide FrameBytes;
    EntryFacts(it, g);
    if it.processed == 0 {
      AcceptsFirst(ch.receiver, it, g.mfs, maxPayloadSize, tooLarge);
    } else {
      AcceptsNext(it, g.mfs, maxPayloadSize, tooLarge);
    }
  }

  lemma WelcomeIsAccepted(ch: ChannelState, track: Track, it: FrameIter, g: Shared)
    requires Welcome(ch, track, it, g)
    ensures ch.receiver.Valid() && |FrameBytes(it, g.mfs)| >= SIZE
    ensures ChannelPass(ch, it.msg.header, FrameBytes(it, g.mfs), g.mfs) ==
            Passed(Accepting(ch, it, g).0, |FrameBytes(it, g.mfs)|, Success(Accepting(ch, it, g).1))
  {
    hide AcceptFrame; hide FrameBytes; hide TransferAfter; hide Advance; hide Holding; hide Matches;
    MatchesValid(ch.receiver, track);
    HeaderParses(it, g.mfs, []);
    EntryFacts(it, g);
    match it.msg.header.kind
    case RequestPl =>
      AcceptsPayload(ch, track, it, g, ch.config.maxRequestPayloadSize, RequestTooLarge);
    case ResponsePl =>
      AcceptsPayload(ch, track, it, g, ch.config.maxResponsePayloadSize, ResponseTooLarge);
    case CancelReq =>
      NoDrop(ch, track, it, g);
      HeaderOnly(it, g);
    case _ =>
      HeaderOnly(it, g);
  }

  lemma MatchesValid(state: ReceiverState, track: Track)
    requires Matches(state, track)
    ensures state.Valid()
  {
  }

  lemma HeaderOnly(it: FrameIter, g: Shared)
    requires Fits(it, g) && !HasPayload(it.msg.header)
    ensures |FrameBytes(it, g.mfs)| == SIZE
  {
  }

  /** A cancellation does not meet a transfer with its identifier. */
  lemma NoDrop(ch: ChannelState, track: Track, it: FrameIter, g: Shared)
    requires Welcome(ch, track, it, g) && IsCancelReq(it.msg.header)
    ensures ch.(allowance := ch.allowance - 1).DropTransfer(it.msg.header.id) == ch.(allowance := ch.allowance - 1)
    ensures ch.receiver.Valid()
  {
    EntryFacts(it, g);
  }

  // ---------------------------------------------------------------- the next frame is welcome

  ghost function One(part: Part, side: Side, it: FrameIter, g: Shared): multiset<Id> {
    if Counts(part, side, it, g) then multiset{it.msg.header.id} else multiset{}
  }

  /** The frames of an end, the one that arrives next taken apart. */
  lemma HeadParts(y: End, g: Shared)
    requires y.sent != []
    ensures var it, z := y.sent[0], Shortened(y);
      && Wire(y) == [it] + Wire(z) && Wire(y)[1..] == Wire(z)
      && Pipe(y) == [it] + Pipe(z) && Pipe(y)[1..] == Pipe(z)
      && it in Pipe(y)
  {
    assert y.sent == [y.sent[0]] + y.sent[1..];
  }

  lemma HeadIds(y: End, side: Side, g: Shared)
    requires y.sent != []
    ensures var it, z := y.sent[0], Shortened(y);
      && Unstarted(y, g) == Unstarted(z, g) + One(First, Requests, it, g)
      && Unfinished(side, y, g) == Unfinished(side, z, g) + One(Last, side, it, g)
  {
    HeadParts(y, g);
    var it, z := y.sent[0], Shortened(y);
    assert Ids(First, Requests, Pipe(y), g) == One(First, Requests, it, g) + Unstarted(z, g);
    assert Ids(Last, side, Wire(y), g) == One(Last, side, it, g) + Ids(Last, side, Wire(z), g);
    hide Ids; hide Wire; hide Pipe;
    FrontToBack(One(First, Requests, it, g), Unstarted(z, g), multiset{});
    FrontToBack(One(Last, side, it, g), Ids(Last, side, Wire(z), g), Ids(Any, side, z.ready, g));
    SumNone(One(First, Requests, it, g) + Unstarted(z, g));
    SumNone(Unstarted(z, g));
  }

  lemma FrontToBack(x: multiset<Id>, a: multiset<Id>, b: multiset<Id>)
    ensures (x + a) + b == (a + b) + x
  {
  }

  /** Of a message that is in progress, the last frame is still to come. */
  lemma {:induction false} EndIsComing(t: Track, its: seq<FrameIter>, side: Side, g: Shared)
    requires t.Mid? && On(side, t.next.msg.header)
    requires !Walk(t, its, g).Broken?
    ensures var u, id := Walk(t, its, g), t.next.msg.header.id;
      Ids(Last, side, its, g)[id] >= 1 || (u.Mid? && u.next.msg == t.next.msg)
    decreases |its|
  {
    if its != [] {
      var it, rest := its[0], its[1..];
      var u := Advance(t, it, g);
      WalkBroken(rest, g);
      assert Walk(t, its, g) == Walk(u, rest, g);
      assert Ids(Last, side, its, g) == One(Last, side, it, g) + Ids(Last, side, rest, g);
      hide Walk; hide Ids;
      MidAdvances(t, it, g);
      hide Advance;
      if u.Mid? {
        EndIsComing(u, rest, side, g);
      }
    }
  }

  /** A transfer in progress stays, moves on or ends. */
  lemma MidAdvances(t: Track, it: FrameIter, g: Shared)
    requires t.Mid?
    ensures var u := Advance(t, it, g);
      || u.Broken?
      || (u.Mid? && u.next.msg == t.next.msg)
      || (u.Idle? && it == t.next && Final(it, g))
  {
  }

  /** Any frame of an answer that arrives belongs to a request that is open. */
  lemma AnswerIsOpen(x: End, y: End, g: Shared)
    requires Inv(y, x, g) && y.sent != [] && On(Answers, y.sent[0].msg.header)
    ensures Unfinished(Answers, y, g)[y.sent[0].msg.header.id] >= 1
  {
    var it := y.sent[0];
    HeadParts(y, g);
    EntryFacts(it, g);
    if Final(it, g) {
      HeadIds(y, Answers, g);
    } else {
      StartedIsOpen(x, y, g);
    }
    hide Ids; hide Wire; hide Unfinished; hide Conserved; hide Allowed; hide Delivered; hide Streams;
    hide Fits; hide Final;
  }

  /** A frame that is not the last of its message is followed by others. */
  lemma StartedAdvances(x: End, y: End, g: Shared)
    requires Streams(y, x, g) && y.sent != [] && Fits(y.sent[0], g) && !Final(y.sent[0], g)
    ensures Advance(x.track, y.sent[0], g) == Mid(Next(y.sent[0], g))
    ensures Walk(x.track, Wire(y), g) == Walk(Mid(Next(y.sent[0], g)), Wire(Shortened(y)), g)
  {
    HeadParts(y, g);
    EntryFacts(y.sent[0], g);
    WalkBroken(Wire(Shortened(y)), g);
    assert Walk(x.track, Wire(y), g) == Walk(Advance(x.track, y.sent[0], g), Wire(Shortened(y)), g);
    hide Walk; hide Multis; hide NoClash; hide Wire; hide Locked; hide Multi; hide Fits;
  }

  lemma StartedIsOpen(x: End, y: End, g: Shared)
    requires Streams(y, x, g) && y.sent != [] && Fits(y.sent[0], g) && !Final(y.sent[0], g)
    requires On(Answers, y.sent[0].msg.header)
    ensures Unfinished(Answers, y, g)[y.sent[0].msg.header.id] >= 1
  {
    var it, id, rest := y.sent[0], y.sent[0].msg.header.id, Wire(Shortened(y));
    EntryFacts(it, g);
    StartedAdvances(x, y, g);
    HeadIds(y, Answers, g);
    hide Walk; hide Multis; hide NoClash; hide Ids; hide Wire; hide Multi; hide Fits; hide Locked;
    hide Advance; hide Next; hide Final;
    EndIsComing(Mid(Next(it, g)), rest, Answers, g);
    var w := Walk(Mid(Next(it, g)), rest, g);
    if Ids(Last, Answers, rest, g)[id] < 1 {
      assert Multis(y.ready, g) == [w.next];
      MultisIn(y.ready, w.next, g);
      IdsIn(Any, Answers, y.ready, w.next, g);
    }
  }

  lemma {:induction false} AllowanceStaysNegative(a: int, its: seq<FrameIter>, limit: nat)
    requires a < 0
    ensures Allowance(a, its, limit) == a
    decreases |its|
  {
    if its != [] { AllowanceStaysNegative(a, its[1..], limit); }
  }

  lemma RequestIsNew(x: End, y: End, g: Shared)
    requires Conserved(y, x, g) && |y.chan.outgoing| <= g.config.requestLimit && y.sent != []
    requires Counts(First, Requests, y.sent[0], g)
    ensures y.sent[0].msg.header.id !in x.chan.incoming && |x.chan.incoming| < g.config.requestLimit
  {
    var it, id := y.sent[0], y.sent[0].msg.header.id;
    HeadIds(y, Requests, g);
    hide Unstarted; hide Unfinished; hide Counts; hide Complete;
    assert Unstarted(y, g)[id] >= 1;
    assert multiset(y.chan.outgoing)[id] <= 1;
    var out, u, i, a := multiset(y.chan.outgoing), Unstarted(y, g), multiset(x.chan.incoming),
      Unfinished(Answers, x, g);
    assert out == u + i + a;
    assert i[id] == 0;
    assert |out| == |u| + |i| + |a|;
  }

  lemma HeadAdvances(x: End, y: End, g: Shared)
    requires Streams(y, x, g) && y.sent != []
    ensures !Advance(x.track, y.sent[0], g).Broken?
  {
    HeadParts(y, g);
    WalkBroken(Wire(y)[1..], g);
    hide Advance; hide NoClash; hide Multis; hide Locked;
  }

  lemma CancelIsAllowed(x: End, y: End, g: Shared)
    requires Allowed(y, x, g) && y.sent != [] && IsCancelReq(y.sent[0].msg.header)
    ensures x.chan.allowance > 0
  {
    HeadParts(y, g);
    AllowanceStaysNegative(-1, Pipe(y)[1..], g.config.requestLimit);
    hide Pipe;
  }

  lemma HeadIsWelcome(x: End, y: End, g: Shared)
    requires Inv(x, y, g) && y.sent != []
    ensures Welcome(x.chan, x.track, y.sent[0], g)
  {
    hide Conserved; hide Allowed; hide Delivered; hide Fits; hide Advance; hide Unfinished; hide Pipe; hide Wire;
    hide Tracked; hide Locked; hide NoClash; hide Matches;
    var it := y.sent[0];
    HeadParts(y, g);
    HeadAdvances(x, y, g);
    if On(Requests, it.msg.header) && it.processed == 0 {
      RequestIsNew(x, y, g);
    }
    if On(Answers, it.msg.header) {
      AnswerIsOpen(x, y, g);
      AnswersAreOpen(x, y, it.msg.header.id, g);
    }
    if IsCancelReq(it.msg.header) {
      CancelIsAllowed(x, y, g);
    }
  }

  lemma AnswersAreOpen(x: End, y: End, id: Id, g: Shared)
    requires Conserved(x, y, g) && Unfinished(Answers, y, g)[id] >= 1
    ensures id in x.chan.outgoing
  {
    hide Unstarted; hide Unfinished; hide Complete; hide Partial;
    assert multiset(x.chan.outgoing)[id] >= 1;
  }

  // ---------------------------------------------------------------- receiving keeps the invariant

  /** The transfer that the receiver holds stays in step. */
  lemma AcceptingMatches(ch: ChannelState, track: Track, it: FrameIter, g: Shared)
    requires Welcome(ch, track, it, g)
    ensures Matches(Accepting(ch, it, g).0.receiver, Advance(track, it, g))
    ensures Accepting(ch, it, g).0.receiver ==
            if HasPayload(it.msg.header) then TransferAfter(ch.receiver, it, g) else ch.receiver
  {
    EntryFacts(it, g);
    hide Multi; hide Final; hide Next; hide Holding;
  }

  lemma AcceptingFields(ch: ChannelState, it: FrameIter, g: Shared)
    requires Fits(it, g)
    ensures var after := Accepting(ch, it, g).0;
      && after.config == ch.config
      && after.incoming == ch.incoming + (if Counts(First, Requests, it, g) then {it.msg.header.id} else {})
      && after.outgoing == ch.outgoing - (if Counts(Last, Answers, it, g) then {it.msg.header.id} else {})
  {
    EntryFacts(it, g);
    hide Multi; hide Final; hide Next; hide Fits; hide TransferAfter;
  }

  /** What the receiver is in the middle of, before and after a frame with a payload. */
  lemma TransferMoves(ch: ChannelState, track: Track, it: FrameIter, g: Shared)
    requires Welcome(ch, track, it, g)
    ensures var after := TransferAfter(ch.receiver, it, g);
      && (it.processed > 0 ==> ch.receiver.InProgress? && ch.receiver.header == it.msg.header)
      && (it.processed == 0 && !Final(it, g) ==> ch.receiver.Ready?)
      && (it.processed == 0 && Final(it, g) ==> after == ch.receiver)
      && (it.processed > 0 && Final(it, g) ==> after == Ready)
      && (!Final(it, g) ==> after.InProgress? && after.header == it.msg.header)
  {
    EntryFacts(it, g);
    hide Multi; hide Final; hide Next;
  }

  /** A request is complete at the receiver from its last frame on. */
  lemma AcceptingCompletes(ch: ChannelState, track: Track, it: FrameIter, g: Shared)
    requires Welcome(ch, track, it, g) && Partial(ch) <= ch.incoming
    ensures var after := Accepting(ch, it, g).0;
      && Complete(after) == Complete(ch) + (if Counts(Last, Requests, it, g) then {it.msg.header.id} else {})
      && (Counts(Last, Requests, it, g) ==> it.msg.header.id !in Complete(ch))
      && Partial(after) <= after.incoming
  {
    hide Multi; hide Fits; hide Final; hide Next; hide TransferAfter; hide Accepting; hide Welcome;
    WelcomeFits(ch, track, it, g); hide Advance; hide Matches; hide Holding;
    EntryFacts(it, g);
    TransferMoves(ch, track, it, g);
    AcceptingMatches(ch, track, it, g);
    AcceptingFields(ch, it, g);
    var after, id := Accepting(ch, it, g).0, it.msg.header.id;
    SetSplit(ch.incoming, Partial(ch), id);
    SetSplit(ch.incoming, {}, id);
    if it.msg.header.kind == RequestPl && it.processed > 0 {
      assert after.incoming == ch.incoming && Partial(ch) == {id};
      assert Partial(after) == if Final(it, g) then {} else {id};
    } else if it.msg.header.kind == RequestPl && !Final(it, g) {
      assert after.incoming == ch.incoming + {id} && Partial(ch) == {} && Partial(after) == {id};
    } else {
      assert Partial(after) == Partial(ch);
    }
  }

  lemma WelcomeFits(ch: ChannelState, track: Track, it: FrameIter, g: Shared)
    requires Welcome(ch, track, it, g)
    ensures Fits(it, g) && it.Valid() && it.msg.header.Frame?
    ensures On(Requests, it.msg.header) && it.processed == 0 ==> it.msg.header.id !in ch.incoming
  {
  }

  lemma SetSplit<T>(s: set<T>, p: set<T>, x: T)
    ensures x in s ==> s - {} == (s - {x}) + {x} && s + {} == s
    ensures x !in s ==> (s + {x}) - {x} == s - {} + {}
    ensures x !in p ==> (s + {x}) - p == (s - p) + {x}
    ensures s - p == (s - p) + {}
    ensures s + {} == s
  {
  }

  /** No check of the parser fails: this is what it does with the next frame. */
  lemma ReceiveSucceeds(x: End, y: End, g: Shared)
    requires Inv(x, y, g) && y.sent != []
    ensures var it := y.sent[0];
      && it.Valid() && it.msg.header.Frame? && x.chan.receiver.Valid()
      && Receive(x, y, g) ==
         Passed(Accepting(x.chan, it, g).0, |FrameBytes(it, g.mfs)|, Success(Accepting(x.chan, it, g).1))
      && Received(x, y, g) ==
         AfterRead(x.(chan := Accepting(x.chan, it, g).0, track := Advance(x.track, it, g)), Accepting(x.chan, it, g).1)
  {
    HeadIsWelcome(x, y, g);
    WelcomeIsAccepted(x.chan, x.track, y.sent[0], g);
    hide Inv; hide Accepting; hide ChannelPass; hide Advance; hide AfterRead; hide FrameBytes; hide Matches;
  }

  /** The parts of the two ends that receiving a frame changes. */
  ghost predicate Took(x: End, y: End, x': End, y': End, g: Shared)
  {
    && y.sent != [] && y.sent[0].msg.header.Frame?
    && var it := y.sent[0];
    var (after, read) := Accepting(x.chan, it, g);
    && Welcome(x.chan, x.track, it, g)
    && y' == Shortened(y)
    && x' == AfterRead(x.(chan := after, track := Advance(x.track, it, g)), read)
  }

  lemma TookFrames(x: End, y: End, x': End, y': End, g: Shared)
    requires Took(x, y, x', y', g)
    ensures x'.sent == x.sent && x'.current == x.current && x'.ready == x.ready && x'.lock == x.lock
    ensures x'.created == x.created && x'.log == x.log
    ensures x'.chan == Accepting(x.chan, y.sent[0], g).0 && x'.track == Advance(x.track, y.sent[0], g)
    ensures y' == y.(sent := y.sent[1..])
  {
    hide Accepting; hide Advance; hide Welcome; hide MessageOf;
  }

  lemma TookConservedIn(x: End, y: End, x': End, y': End, g: Shared)
    requires Conserved(y, x, g) && Took(x, y, x', y', g)
    ensures Conserved(y', x', g)
  {
    hide Accepting; hide Advance; hide AfterRead; hide Unstarted; hide Unfinished; hide Sum; hide Fits;
    hide Complete; hide Partial;
    var it := y.sent[0];
    TookFrames(x, y, x', y', g);
    AcceptingCompletes(x.chan, x.track, it, g);
    AcceptingFields(x.chan, it, g);
    HeadIds(y, Requests, g);
    SameFrames(x', x, g);
    var first, last := One(First, Requests, it, g), One(Last, Requests, it, g);
    var u, v, a := Unstarted(y', g), Unfinished(Requests, y', g), Unfinished(Answers, x, g);
    if Counts(First, Requests, it, g) {
      SetInsert(x.chan.incoming, it.msg.header.id);
    } else {
      assert x'.chan.incoming == x.chan.incoming;
      SumNone(multiset(x.chan.incoming));
    }
    if Counts(Last, Requests, it, g) {
      SetInsert(Complete(x.chan), it.msg.header.id);
    } else {
      assert Complete(x'.chan) == Complete(x.chan);
      SumNone(multiset(Complete(x.chan)));
    }
    hide Counts;
    SumLeft(u, multiset(x.chan.incoming), a, first);
    SumMiddle(u, multiset(x.chan.incoming), a, first);
    SumLeft(v, multiset(Complete(x.chan)), a, last);
    SumMiddle(v, multiset(Complete(x.chan)), a, last);
  }

  lemma TookConservedOut(x: End, y: End, x': End, y': End, g: Shared)
    requires Conserved(x, y, g) && Took(x, y, x', y', g)
    ensures Conserved(x', y', g)
  {
    hide Accepting; hide Advance; hide AfterRead; hide Unstarted; hide Unfinished; hide Sum; hide Fits;
    var it, id := y.sent[0], y.sent[0].msg.header.id;
    TookFrames(x, y, x', y', g);
    AcceptingFields(x.chan, it, g);
    HeadIds(y, Answers, g);
    SameFrames(x', x, g);
    assert Complete(y'.chan) == Complete(y.chan) && Partial(y'.chan) == Partial(y.chan);
    hide Complete; hide Partial;
    var last := One(Last, Answers, it, g);
    var u, v, a := Unstarted(x, g), Unfinished(Requests, x, g), Unfinished(Answers, y', g);
    SumRight(u, multiset(y.chan.incoming), a, last);
    SumRight(v, multiset(Complete(y.chan)), a, last);
    if Counts(Last, Answers, it, g) {
      SetRemove(x.chan.outgoing, id);
      Cancel(multiset(x'.chan.outgoing), Sum(u, multiset(y.chan.incoming), a), last);
      Cancel(multiset(x'.chan.outgoing), Sum(v, multiset(Complete(y.chan)), a), last);
    } else {
      assert x'.chan.outgoing == x.chan.outgoing;
      SumNone(Sum(u, multiset(y.chan.incoming), a));
      SumNone(Sum(v, multiset(Complete(y.chan)), a));
    }
  }

  lemma TookAllowedIn(x: End, y: End, x': End, y': End, g: Shared)
    requires Allowed(y, x, g) && Took(x, y, x', y', g)
    ensures Allowed(y', x', g)
  {
    hide Accepting; hide Advance; hide AfterRead; hide Fits;
    TookFrames(x, y, x', y', g);
    AcceptingAllowance(x.chan, x.track, y.sent[0], g);
    HeadParts(y, g);
    hide Pipe;
  }

  lemma AcceptingAllowance(ch: ChannelState, track: Track, it: FrameIter, g: Shared)
    requires Welcome(ch, track, it, g) && ch.allowance <= g.config.requestLimit
    ensures Accepting(ch, it, g).0.allowance ==
            AllowanceAfter(ch.allowance, it, g.config.requestLimit) <= g.config.requestLimit
  {
    EntryFacts(it, g);
    hide Multi; hide Final; hide Next; hide Fits; hide TransferAfter; hide Advance; hide Matches;
  }

  lemma AcceptingReads(ch: ChannelState, it: FrameIter, g: Shared)
    requires Fits(it, g)
    ensures var read := Accepting(ch, it, g).1;
      && (if read.Some? && MessageOf(read.value).Some? then [MessageOf(read.value).value] else []) ==
         (if Final(it, g) && Reported(it.msg) then [it.msg] else [])
      && (read.Some? && (read.value.ReceivedResponse? || read.value.ResponseCancellation?) <==>
           Counts(Last, Answers, it, g))
      && (Counts(Last, Answers, it, g) ==> read.value.id == it.msg.header.id)
  {
    EntryFacts(it, g);
    hide Multi; hide Final; hide Next; hide TransferAfter;
  }

  lemma TookAllowedOut(x: End, y: End, x': End, y': End, g: Shared)
    requires Allowed(x, y, g) && Took(x, y, x', y', g)
    ensures Allowed(x', y', g)
  {
    hide Accepting; hide Advance; hide Fits; hide Counts; hide MessageOf;
    var it, id := y.sent[0], y.sent[0].msg.header.id;
    TookFrames(x, y, x', y', g);
    AcceptingFields(x.chan, it, g);
    AcceptingReads(x.chan, it, g);
    SameFrames(x', x, g);
    hide Pipe;
    Shrinks(x.chan.outgoing, x.cancelled, id);
    if !Counts(Last, Answers, it, g) {
      assert x'.chan.outgoing == x.chan.outgoing && x'.cancelled == x.cancelled;
    }
  }

  lemma Shrinks<T>(s: set<T>, c: set<T>, x: T)
    requires c <= s
    ensures c - {x} <= s - {x} && |(s - {x}) - (c - {x})| <= |s - c|
  {
    assert (s - {x}) - (c - {x}) == (s - c) - {x};
    Protocol.Subset((s - {x}) - (c - {x}), s - c);
  }

  lemma TookStreams(x: End, y: End, x': End, y': End, g: Shared)
    requires Streams(x, y, g) && Streams(y, x, g) && Took(x, y, x', y', g)
    ensures Streams(x', y', g) && Streams(y', x', g)
  {
    hide Accepting; hide Advance; hide AfterRead; hide Fits;
    TookFrames(x, y, x', y', g);
    AcceptingMatches(x.chan, x.track, y.sent[0], g);
    SameFrames(x', x, g);
    HeadParts(y, g);
    hide Wire; hide Multis; hide NoClash; hide Locked; hide Tracked; hide Matches;
  }

  lemma TookDelivered(x: End, y: End, x': End, y': End, g: Shared)
    requires Delivered(x, y, g) && Delivered(y, x, g) && Took(x, y, x', y', g)
    ensures Delivered(x', y', g) && Delivered(y', x', g)
  {
    hide Accepting; hide Advance; hide Fits; hide MessageOf;
    var it := y.sent[0];
    TookFrames(x, y, x', y', g);
    AcceptingReads(x.chan, it, g);
    SameFrames(x', x, g);
    HeadParts(y, g);
    var ended := if Final(it, g) && Reported(it.msg) then [it.msg] else [];
    assert Endings(Wire(y), g.mfs) == ended + Endings(Wire(y'), g.mfs);
    assert x'.got == x.got + ended;
    hide Wire; hide Endings; hide Messages; hide Final;
    Associate(x.got, ended, Endings(Wire(y'), g.mfs));
  }

  lemma TookShape(x: End, y: End, x': End, y': End, g: Shared)
    requires Shape(x, g) && Shape(y, g) && Took(x, y, x', y', g)
    ensures Shape(x', g) && Shape(y', g)
  {
    hide Accepting; hide Advance; hide AfterRead; hide Fits; hide Counts; hide Welcome;
    TookFrames(x, y, x', y', g);
    assert y.sent[0] in Pipe(y);
    AcceptingFields(x.chan, y.sent[0], g);
    SameFrames(x', x, g);
    HeadParts(y, g);
    Protocol.Subset(x'.chan.outgoing, x.chan.outgoing);
    hide Pipe;
  }

  /** A frame that arrives is taken in full, without an error, and keeps the invariant. */
  lemma ReceiveKeepsInv(x: End, y: End, g: Shared)
    requires Inv(x, y, g) && y.sent != []
    ensures y.sent[0].Valid() && y.sent[0].msg.header.Frame? && x.chan.receiver.Valid()
    ensures Receive(x, y, g).outcome.Success?
    ensures Receive(x, y, g).consumed == |FrameBytes(y.sent[0], g.mfs)|
    ensures Inv(Received(x, y, g), Shortened(y), g)
  {
    hide Conserved; hide Allowed; hide Streams; hide Delivered; hide Shape; hide Welcome; hide Accepting;
    hide Receive; hide Received; hide FrameBytes; hide Advance; hide AfterRead;
    ReceiveSucceeds(x, y, g);
    HeadIsWelcome(x, y, g);
    var x', y' := Received(x, y, g), Shortened(y);
    assert Took(x, y, x', y', g);
    TookShape(x, y, x', y', g);
    TookConservedIn(x, y, x', y', g);
    TookConservedOut(x, y, x', y', g);
    TookAllowedIn(x, y, x', y', g);
    TookAllowedOut(x, y, x', y', g);
    TookStreams(x, y, x', y', g);
    TookDelivered(x, y, x', y', g);
  }

  lemma AcceptingRequests(ch: ChannelState, it: FrameIter, g: Shared)
    requires Fits(it, g)
    ensures var read := Accepting(ch, it, g).1;
      (read.Some? && read.value.NewRequest? <==> Counts(Last, Requests, it, g)) &&
      (Counts(Last, Requests, it, g) ==> read.value.id == it.msg.header.id)
  {
    EntryFacts(it, g);
    hide Multi; hide Final; hide Next; hide TransferAfter;
  }

  /** The complete requests are those that have been reported: one more with every report, and no other way. */
  lemma CompleteIsReported(x: End, y: End, g: Shared)
    requires Inv(x, y, g) && y.sent != []
    ensures y.sent[0].Valid() && y.sent[0].msg.header.Frame? && x.chan.receiver.Valid()
    ensures var p := Receive(x, y, g);
      && p.outcome.Success?
      && Complete(p.channel) == Complete(x.chan) +
           (if p.outcome.value.Some? && p.outcome.value.value.NewRequest? then {p.outcome.value.value.id} else {})
      && (p.outcome.value.Some? && p.outcome.value.value.NewRequest? ==> p.outcome.value.value.id !in Complete(x.chan))
  {
    hide Receive; hide Received; hide Accepting; hide Complete; hide Unstarted; hide Unfinished; hide Allowed;
    hide Streams; hide Delivered;
    hide Welcome; hide FrameBytes; hide Advance; hide AfterRead; hide Counts; hide Fits; hide Pipe;
    ReceiveSucceeds(x, y, g);
    HeadIsWelcome(x, y, g);
    HeadFits(x, y, g);
    AcceptingCompletes(x.chan, x.track, y.sent[0], g);
    AcceptingRequests(x.chan, y.sent[0], g);
  }

  lemma HeadFits(x: End, y: End, g: Shared)
    requires Inv(x, y, g) && y.sent != []
    ensures Fits(y.sent[0], g)
  {
    hide Fits; hide Conserved; hide Allowed; hide Streams; hide Delivered;
    assert y.sent[0] in Pipe(y);
  }
}
