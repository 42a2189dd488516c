// Identifiers cannot be used again too early as long as those under way are not too old, and in
// particular not before a channel has had as many requests as there are identifiers.
module IdSupply {
  import opened Types
  import opened Header
  import opened Message
  import opened Multiframe
  import opened Protocol
  import opened IoState
  import opened WaitQueue
  import opened RequestIds
  import opened LocalIds

  // ---------------------------------------------------------------- how many identifiers are free

  lemma {:induction false} FreeFromWithout(used: set<Id>, prev: Id, x: Id, d: nat, end: nat)
    requires forall k: nat :: d <= k < end ==> CyclicAdd(prev, k) != x
    ensures FreeFrom(used - {x}, prev, d, end) == FreeFrom(used, prev, d, end)
    decreases end - d
  {
    hide CyclicAdd;
    if d < end { FreeFromWithout(used, prev, x, d + 1, end); }
  }

  lemma OneTurn(prev: Id, d: nat, k: nat)
    requires d < k < d + ID_SPACE
    ensures CyclicAdd(prev, k) != CyclicAdd(prev, d)
  {
  }

  /** Within a turn, an identifier in use is passed once. */
  lemma {:induction false} FreeFromAtLeast(used: set<Id>, prev: Id, d: nat, end: nat)
    requires d <= end <= d + ID_SPACE
    ensures FreeFrom(used, prev, d, end) + |used| >= end - d
    decreases end - d
  {
    hide CyclicAdd;
    if d < end {
      var x := CyclicAdd(prev, d);
      if x in used {
        forall k: nat | d + 1 <= k < end ensures CyclicAdd(prev, k) != x {
          OneTurn(prev, d, k);
        }
        FreeFromWithout(used, prev, x, d + 1, end);
        FreeFromAtLeast(used - {x}, prev, d + 1, end);
      } else {
        FreeFromAtLeast(used, prev, d + 1, end);
      }
    }
  }

  /** All identifiers before `id` are free but for those in use. */
  lemma FreeBeforeAtLeast(used: set<Id>, prev: Id, id: Id)
    ensures FreeBefore(used, prev, id) + |used| >= PlaceOf(prev, id) - 1
  {
    FreeFromAtLeast(used, prev, 1, PlaceOf(prev, id));
  }

  /** The identifiers have been given out from 1 on, and `prev` was the last. */
  predicate Unwrapped(used: set<Id>, prev: Id) {
    forall i :: i in used ==> 1 <= i <= prev
  }

  lemma {:induction false} FreeFromFree(used: set<Id>, prev: Id, d: nat, e: nat, end: nat)
    requires d <= e <= end && forall k: nat :: d <= k < e ==> CyclicAdd(prev, k) !in used
    ensures FreeFrom(used, prev, d, end) >= e - d
    decreases e - d
  {
    hide CyclicAdd;
    if d < e { FreeFromFree(used, prev, d + 1, e, end); }
  }

  /** Every identifier that has never been given out comes before one that has. */
  lemma FreeWhileUnwrapped(used: set<Id>, prev: Id, id: Id)
    requires Unwrapped(used, prev) && 1 <= id <= prev
    ensures FreeBefore(used, prev, id) >= ID_SPACE - prev
  {
    FreeFromFree(used, prev, 1, ID_SPACE - prev + 1, PlaceOf(prev, id));
  }

  /** The next one given out is the next number. */
  lemma NextWhileUnwrapped(used: set<Id>, prev: Id)
    requires Unwrapped(used, prev) && prev + 1 < ID_SPACE
    ensures NextId(used, prev) == prev + 1 && Unwrapped(used + {prev + 1}, prev + 1)
  {
    assert CyclicAdd(prev, 1) == prev + 1;
  }

  // ---------------------------------------------------------------- how many are asked for

  /** No more requests leave a wait queue than there are, nor than the request limit leaves room for. */
  lemma {:induction false} TakenRequests(io: IoState, channel: ChannelId, remaining: nat)
    requires io.Valid() && io.juliet.Knows(channel) && channel < |io.waitQueue|
    ensures var ch, n := io.juliet.channels[channel], Requests(Taken(io, channel, remaining));
      && n <= Requests(io.waitQueue[channel])
      && (n == 0 || |ch.outgoing| + n <= ch.config.requestLimit)
    decreases remaining
  {
    hide SendToReadyQueue; hide IoState.Valid;
    Shapes(io);
    var queue := io.waitQueue[channel];
    if queue != [] && remaining > 0 {
      QueuedIsValid(io, channel);
      var item, popped := queue[0], SetQueue(io, channel, queue[1..]);
      var waits := ItemShouldWait(item, popped.juliet, popped.activeMultiFrame);
      MayLeave(item, popped);
      if waits.Ok? && waits.value.Some? {
        hide ItemShouldWait;
        RequestsBack(queue[1..], item);
        TakenRequests(SetQueue(io, channel, queue[1..] + [item]), channel, remaining - 1);
      } else if waits.Ok? {
        hide ItemShouldWait;
        var sent := SendToReadyQueue(popped, item);
        SendIgnoresQueues(popped, item, popped.waitQueue);
        Shapes(sent.state);
        if sent.result.Ok? && sent.state.juliet.channels[channel].AllowedToSendRequest() {
          var rest := Taken(sent.state, channel, remaining - 1);
          assert ([item] + rest)[1..] == rest;
          TakenRequests(sent.state, channel, remaining - 1);
          SendReuses(popped, item);
          hide NextId;
          OneRequestMore(popped, item);
        } else {
          assert ([item] + [])[1..] == [];
        }
      }
    }
  }

  lemma MayLeave(item: QueuedItem, io: IoState)
    requires item.Valid() && (item.QueuedRequest? || item.QueuedResponse?) && io.juliet.Knows(item.channel)
    requires |io.activeMultiFrame| == |io.juliet.channels|
    ensures ItemShouldWait(item, io.juliet, io.activeMultiFrame) == Ok(None) && item.QueuedRequest? ==>
              io.juliet.channels[item.channel].AllowedToSendRequest()
  {
  }

  lemma OneRequestMore(io: IoState, item: QueuedItem)
    requires io.Valid() && item.Valid() && (item.QueuedRequest? || item.QueuedResponse?) &&
             io.juliet.Knows(item.channel)
    requires SendToReadyQueue(io, item).result.Ok?
    ensures var ch := io.juliet.channels[item.channel];
      var r := SendToReadyQueue(io, item).state.juliet.channels[item.channel];
      r.config == ch.config && |r.outgoing| == |ch.outgoing| + if item.QueuedRequest? then 1 else 0
  {
    var ch := io.juliet.channels[item.channel];
    if item.QueuedRequest? { CreateRequestIsFresh(io.juliet, item.channel, item.payload); }
    hide NextId;
  }

  lemma {:induction false} RequestsBack(items: seq<QueuedItem>, item: QueuedItem)
    ensures Requests(items + [item]) == Requests(items) + if item.QueuedRequest? then 1 else 0
  {
    if items == [] {
      assert ([] + [item])[1..] == [];
    } else {
      assert (items + [item])[1..] == items[1..] + [item];
      RequestsBack(items[1..], item);
    }
  }

  // ---------------------------------------------------------------- when none is used again

  /**
   * No identifier under way is among the next ones up to the request limit: it was given out, and
   * since then fewer than 65536 less the limit have been.
   */
  ghost predicate Spaced(io: IoState) {
    forall c, id :: 0 <= c < |io.juliet.channels| && id in io.juliet.channels[c].outgoing ==>
      PlaceOf(io.juliet.channels[c].prevRequestId, id) > io.juliet.channels[c].config.requestLimit
  }

  /** What parsing does to the requests under way. */
  lemma ChannelPassGivesOut(ch: ChannelState, header: Header, buffer: Bytes, mfs: MaxFrameSize)
    requires |buffer| >= SIZE && ch.receiver.Valid() && header.Frame?
    ensures var r := ChannelPass(ch, header, buffer, mfs).channel;
      r.prevRequestId == ch.prevRequestId && r.outgoing <= ch.outgoing
  {
    hide AcceptFrame;
  }

  /** The parser neither gives out an identifier nor changes a limit. */
  ghost predicate GivesOutNone(p: ProtocolState, q: ProtocolState) {
    && |p.channels| == |q.channels|
    && forall c :: 0 <= c < |p.channels| ==>
         && q.channels[c].config == p.channels[c].config && q.channels[c].prevRequestId == p.channels[c].prevRequestId
         && q.channels[c].outgoing <= p.channels[c].outgoing
  }

  lemma {:induction false} ProcessIncomingGivesOut(p: ProtocolState, buffer: Bytes)
    requires p.Valid()
    ensures GivesOutNone(p, ProcessIncoming(p, buffer).state)
    decreases |buffer|
  {
    var step := Pass(p, buffer);
    PassGivesOut(p, buffer);
    if step.outcome.Success? && step.outcome.value.None? {
      ProcessIncomingGivesOut(step.state, buffer[step.consumed..]);
    }
    hide Pass;
  }

  lemma PassGivesOut(p: ProtocolState, buffer: Bytes)
    requires p.Valid()
    ensures GivesOutNone(p, Pass(p, buffer).state)
  {
    if |buffer| >= SIZE {
      var parsed := Parse(buffer[..SIZE]);
      if parsed.Some? && parsed.value.Frame? && p.Knows(parsed.value.channel) {
        ChannelPassGivesOut(p.channels[parsed.value.channel], parsed.value, buffer, p.mfs);
      }
    }
    hide ChannelPass; hide PassError; hide Parse;
  }

  /** What the parser has found, and the queue that is processed next. */
  lemma FoundFor(io: IoState, read: CompletedRead)
    requires io.Valid() && Finds(io, read) && read.ReceivedResponse?
    ensures Parsed(io).Valid() && Parsed(io).juliet.Knows(read.channel) && read.channel < |io.waitQueue|
    ensures |io.juliet.channels| == |io.waitQueue| && Parsed(io).waitQueue == io.waitQueue
    ensures read.id in io.juliet.channels[read.channel].outgoing
    ensures GivesOutNone(io.juliet, Parsed(io).juliet)
  {
    ProcessIncomingEnds(io.juliet, io.buffer);
    ProcessIncomingReports(io.juliet, io.buffer);
    ProcessIncomingGivesOut(io.juliet, io.buffer);
    hide ProcessIncoming;
  }

  /** If no identifier under way is too old, none is used again before the response to it is reported. */
  lemma SpacedIsNotReused(io: IoState)
    requires io.Valid() && Spaced(io)
    ensures NotReused(io)
  {
    hide IoState.Valid; hide FreeBefore; hide Requests; hide Taken; hide ProcessIncoming; hide Parsed; hide Finds;
    hide PlaceOf;
    forall read | Finds(io, read) && read.ReceivedResponse?
      ensures Parsed(io).Valid() && Parsed(io).juliet.Knows(read.channel) && read.channel < |Parsed(io).waitQueue|
      ensures |io.waitQueue| == |Parsed(io).waitQueue|
      ensures var ch := Parsed(io).juliet.channels[read.channel];
        FreeBefore(ch.outgoing, ch.prevRequestId, read.id) >=
          Requests(Taken(Parsed(io), read.channel, |io.waitQueue[read.channel]|)) {
      FoundFor(io, read);
      var ch := Parsed(io).juliet.channels[read.channel];
      FreeBeforeAtLeast(ch.outgoing, ch.prevRequestId, read.id);
      TakenRequests(Parsed(io), read.channel, |io.waitQueue[read.channel]|);
    }
  }

  /** So it is while the identifiers have not come round, and will not with the requests that fit the limit. */
  lemma EarlyIsSpaced(io: IoState)
    requires forall c :: 0 <= c < |io.juliet.channels| ==>
               var ch := io.juliet.channels[c];
               Unwrapped(ch.outgoing, ch.prevRequestId) && ch.prevRequestId + ch.config.requestLimit <= ID_SPACE
    ensures Spaced(io)
  {
  }

  // ---------------------------------------------------------------- counting requests

  /** The number of requests on a channel among the items. */
  function AskedOn(items: seq<QueuedItem>, c: ChannelId): nat {
    if items == [] then 0
    else (if items[0].QueuedRequest? && items[0].channel == c then 1 else 0) + AskedOn(items[1..], c)
  }

  lemma {:induction false} AskedOnAppend(a: seq<QueuedItem>, b: seq<QueuedItem>, c: ChannelId)
    ensures AskedOn(a + b, c) == AskedOn(a, c) + AskedOn(b, c)
  {
    if a == [] {
      assert a + b == b;
    } else {
      assert (a + b)[1..] == a[1..] + b;
      AskedOnAppend(a[1..], b, c);
    }
  }

  /** Every identifier given out on a channel, and every request that waits, is for one of `n` requests. */
  ghost predicate CountedOn(io: IoState, c: ChannelId, n: nat) {
    && c < |io.juliet.channels| && c < |io.waitQueue|
    && var ch := io.juliet.channels[c];
    Unwrapped(ch.outgoing, ch.prevRequestId) && ch.prevRequestId + Requests(io.waitQueue[c]) <= n
  }

  /** With no more requests than identifiers, none is used again. */
  lemma CountedIsNotReused(io: IoState, asked: seq<QueuedItem>)
    requires io.Valid()
    requires forall c: ChannelId :: c < |io.juliet.channels| ==>
               CountedOn(io, c, AskedOn(asked, c)) && AskedOn(asked, c) <= ID_SPACE
    ensures NotReused(io)
  {
    hide IoState.Valid; hide FreeBefore; hide Requests; hide Taken; hide ProcessIncoming; hide Parsed; hide Finds;
    forall read | Finds(io, read) && read.ReceivedResponse?
      ensures Parsed(io).Valid() && Parsed(io).juliet.Knows(read.channel) && read.channel < |Parsed(io).waitQueue|
      ensures |io.waitQueue| == |Parsed(io).waitQueue|
      ensures var ch := Parsed(io).juliet.channels[read.channel];
        FreeBefore(ch.outgoing, ch.prevRequestId, read.id) >=
          Requests(Taken(Parsed(io), read.channel, |io.waitQueue[read.channel]|)) {
      FoundFor(io, read);
      var ch := Parsed(io).juliet.channels[read.channel];
      assert CountedOn(io, read.channel, AskedOn(asked, read.channel));
      FreeWhileUnwrapped(ch.outgoing, ch.prevRequestId, read.id);
      TakenRequests(Parsed(io), read.channel, |io.waitQueue[read.channel]|);
    }
  }

  lemma SendCounts(io: IoState, item: QueuedItem, c: ChannelId, n: nat)
    requires io.Valid() && item.Valid() && !item.QueuedError? && n < ID_SPACE && io.juliet.Knows(c)
    requires c < |io.waitQueue|
    requires var ch := io.juliet.channels[c];
      && Unwrapped(ch.outgoing, ch.prevRequestId)
      && ch.prevRequestId + Requests(io.waitQueue[c]) + (if item.QueuedRequest? && item.channel == c then 1 else 0) <= n
    ensures CountedOn(SendToReadyQueue(io, item).state, c, n)
  {
    hide SendToReadyQueue; hide NextId; hide Requests; hide IoState.Valid; hide Unwrapped;
    var ch := io.juliet.channels[c];
    SendGivesOut(io, item, c);
    if item.QueuedRequest? && item.channel == c { NextWhileUnwrapped(ch.outgoing, ch.prevRequestId); }
    SendKeepsQueues(io, item);
  }

  /** Sending an item gives out the next identifier of a channel if it is a request on that channel. */
  lemma SendGivesOut(io: IoState, item: QueuedItem, c: ChannelId)
    requires io.Valid() && item.Valid() && !item.QueuedError? && io.juliet.Knows(c)
    ensures var ch, r := io.juliet.channels[c], SendToReadyQueue(io, item).state.juliet.channels[c];
      || (r.outgoing == ch.outgoing && r.prevRequestId == ch.prevRequestId)
      || (item.QueuedRequest? && item.channel == c && r.prevRequestId == NextId(ch.outgoing, ch.prevRequestId)
          && r.outgoing == ch.outgoing + {r.prevRequestId})
  {
    hide NextId; hide Insert; hide IoState.Valid;
    if item.QueuedRequest? {
      if CreateRequest(io.juliet, item.channel, item.payload).result.Ok? {
        CreateRequestIsFresh(io.juliet, item.channel, item.payload);
      }
    } else {
      hide CreateRequest;
    }
  }

  lemma {:induction false} ProcessCounts(io: IoState, channel: ChannelId, remaining: nat, c: ChannelId, n: nat)
    requires io.Valid() && io.juliet.Knows(channel) && CountedOn(io, c, n) && n < ID_SPACE
    ensures CountedOn(ProcessWaiting(io, channel, remaining).state, c, n)
    decreases remaining
  {
    hide SendToReadyQueue; hide IoState.Valid; hide Unwrapped;
    Shapes(io);
    var queue := io.waitQueue[channel];
    if queue != [] && remaining > 0 {
      QueuedIsValid(io, channel);
      var item, popped := queue[0], SetQueue(io, channel, queue[1..]);
      var waits := ItemShouldWait(item, popped.juliet, popped.activeMultiFrame);
      hide ItemShouldWait;
      RequestsBack(queue[1..], item);
      if waits.Ok? && waits.value.Some? {
        ProcessCounts(SetQueue(io, channel, queue[1..] + [item]), channel, remaining - 1, c, n);
      } else if waits.Ok? {
        var sent := SendToReadyQueue(popped, item);
        SendCounts(popped, item, c, n);
        ProcessCounts(sent.state, channel, remaining - 1, c, n);
      }
    }
  }

  lemma EnqueueCounts(io: IoState, item: QueuedItem, c: ChannelId, n: nat)
    requires io.Valid() && item.Valid() && !item.QueuedError? && io.Indexable(item)
    requires n + AskedOn([item], c) < ID_SPACE && CountedOn(io, c, n)
    ensures CountedOn(HandleIncomingItem(io, item).state, c, n + AskedOn([item], c))
  {
    hide SendToReadyQueue; hide IoState.Valid; hide Unwrapped;
    Shapes(io);
    var waits := ItemShouldWait(item, io.juliet, io.activeMultiFrame);
    hide ItemShouldWait;
    assert [item][1..] == [];
    if waits.Ok? && waits.value.Some? {
      RequestsBack(io.waitQueue[waits.value.value], item);
    } else if waits.Ok? {
      SendCounts(io, item, c, n + AskedOn([item], c));
    }
  }

  lemma FrameSentCounts(io: IoState, c: ChannelId, n: nat)
    requires io.Valid() && CountedOn(io, c, n) && n < ID_SPACE
    ensures CountedOn(FrameSent(io).state, c, n)
  {
    hide ProcessWaiting; hide Unwrapped; hide Requests;
    if io.currentFrame.Some? {
      var taken, header := Cleared(io), io.currentFrame.value.0.header;
      hide IoState.Valid;
      Shapes(taken);
      if !header.IsError() { ProcessCounts(taken, header.channel, |taken.waitQueue[header.channel]|, c, n); }
    }
  }

  lemma ReadyCounts(io: IoState, c: ChannelId, n: nat)
    requires io.Valid() && CountedOn(io, c, n)
    ensures CountedOn(ReadyNextFrame(io), c, n)
  {
    hide IoState.Valid; hide Unwrapped; hide Requests;
  }

  lemma ParseCounts(io: IoState, c: ChannelId, n: nat)
    requires io.Valid() && CountedOn(io, c, n) && n < ID_SPACE
    ensures CountedOn(ParseStep(io).state, c, n)
  {
    ProcessIncomingGivesOut(io.juliet, io.buffer);
    ProcessIncomingReports(io.juliet, io.buffer);
    hide ProcessIncoming; hide ProcessWaiting;
    var p := ProcessIncoming(io.juliet, io.buffer);
    var found := Parsed(io);
    assert Unwrapped(p.state.channels[c].outgoing, p.state.channels[c].prevRequestId);
    if p.outcome.Success? && p.outcome.value.ReceivedResponse? {
      Shapes(found);
      ProcessCounts(found, p.outcome.value.channel, |found.waitQueue[p.outcome.value.channel]|, c, n);
    }
    hide Unwrapped; hide IoState.Valid; hide Requests; hide RemoveByRight;
    if p.outcome.Fatal? { NoRequests(); }
  }

  lemma NoRequests()
    ensures Requests([]) == 0
  {
  }
}
