// The parse threshold: skipping the parser until the bytes that it asked for have arrived makes no
// difference, whatever the IO layer does meanwhile.
module Threshold {
  import opened Types
  import opened Header
  import opened Message
  import opened Multiframe
  import opened Protocol
  import opened Streaming
  import opened IoState
  import opened WaitQueue
  import Varint

  /** Where the threshold is not reached, the parser would ask for exactly the bytes that are missing. */
  ghost predicate Exact(io: IoState) {
    && io.Valid()
    && (io.pendingError.None? && io.nextParseAt > |io.buffer| ==>
          ProcessIncoming(io.juliet, io.buffer) ==
          Processed(io.juliet, io.buffer, Incomplete(io.nextParseAt - |io.buffer|)))
  }

  /** So a parse step with the threshold is a parse step without it. */
  lemma ThresholdMakesNoDifference(io: IoState)
    requires Exact(io) && io.pendingError.None?
    ensures io.(nextParseAt := 0).Valid()
    ensures ParseStep(io) == ParseStep(io.(nextParseAt := 0))
  {
    hide ProcessIncoming; hide ProcessWaitQueue; hide HandleCompletedRead; hide InjectError;
    assert io.(nextParseAt := 0).Valid();
    hide IoState.Valid;
  }

  // ---------------------------------------------------------------- what the parser asks for

  /** Only what the local endpoint does to the parser: it makes requests, and answers some. */
  ghost predicate Grown(p: ProtocolState, q: ProtocolState) {
    && q.mfs == p.mfs && |q.channels| == |p.channels|
    && forall c :: 0 <= c < |p.channels| ==>
         && q.channels[c].receiver == p.channels[c].receiver && q.channels[c].config == p.channels[c].config
         && p.channels[c].outgoing <= q.channels[c].outgoing
  }

  lemma ChannelStillWaits(ch: ChannelState, after: ChannelState, h: Header, buffer: Bytes, mfs: MaxFrameSize)
    requires |buffer| >= SIZE && ch.receiver.Valid() && h.Frame?
    requires after.receiver == ch.receiver && after.config == ch.config && ch.outgoing <= after.outgoing
    requires ChannelPass(ch, h, buffer, mfs).outcome.Incomplete?
    ensures ChannelPass(after, h, buffer, mfs) == Passed(after, 0, ChannelPass(ch, h, buffer, mfs).outcome)
  {
    hide AcceptFrame;
  }

  lemma StillWaits(p: ProtocolState, q: ProtocolState, buffer: Bytes)
    requires p.Valid() && q.Valid() && Grown(p, q) && Pass(p, buffer).outcome.Incomplete?
    ensures Pass(q, buffer) == Step(q, 0, Pass(p, buffer).outcome)
  {
    hide ChannelPass; hide Parse; hide Varint.DecodeVarint;
    if |buffer| >= SIZE {
      var h := Parse(buffer[..SIZE]);
      if h.Some? && h.value.Frame? && p.Knows(h.value.channel) {
        ChannelStillWaits(p.channels[h.value.channel], q.channels[h.value.channel], h.value, buffer, p.mfs);
        assert q.channels[h.value.channel := q.channels[h.value.channel]] == q.channels;
      }
    }
  }

  /** The parser has taken all that it could. */
  ghost predicate Stuck(p: ProtocolState, buffer: Bytes, n: nat)
    requires p.Valid()
  {
    ProcessIncoming(p, buffer) == Processed(p, buffer, Incomplete(n))
  }

  lemma StuckInPass(p: ProtocolState, buffer: Bytes, n: nat)
    requires p.Valid()
    ensures Stuck(p, buffer, n) <==> Pass(p, buffer).outcome == Incomplete(n)
  {
    hide Pass;
    assert buffer[0..] == buffer;
    var step := Pass(p, buffer);
    if step.outcome.Success? && step.outcome.value.None? {
      assert |ProcessIncoming(step.state, buffer[step.consumed..]).rest| < |buffer|;
    }
  }

  lemma StaysStuck(p: ProtocolState, q: ProtocolState, buffer: Bytes, n: nat)
    requires p.Valid() && q.Valid() && Grown(p, q) && Stuck(p, buffer, n)
    ensures Stuck(q, buffer, n)
  {
    hide Pass; hide ProcessIncoming; hide Stuck; hide Grown;
    StuckInPass(p, buffer, n);
    StillWaits(p, q, buffer);
    StuckInPass(q, buffer, n);
  }

  /** Once it has stopped, it is stuck. */
  lemma {:induction false} StopsStuck(p: ProtocolState, buffer: Bytes)
    requires p.Valid() && ProcessIncoming(p, buffer).outcome.Incomplete?
    ensures var r := ProcessIncoming(p, buffer); Stuck(r.state, r.rest, r.outcome.n) && r.outcome.n >= 1
    decreases |buffer|
  {
    var step := Pass(p, buffer);
    if step.outcome.Success? {
      StopsStuck(step.state, buffer[step.consumed..]);
    } else {
      PassExtend(p, buffer, []);
      StuckInPass(p, buffer, step.outcome.n);
      assert buffer[0..] == buffer;
    }
    hide Pass;
  }

  // ---------------------------------------------------------------- the steps of the IO layer

  lemma SendGrows(io: IoState, item: QueuedItem)
    requires io.Valid() && item.Valid() && !item.QueuedError?
    ensures var n := SendToReadyQueue(io, item).state;
      && Grown(io.juliet, n.juliet)
      && n.buffer == io.buffer && n.nextParseAt == io.nextParseAt && n.pendingError == io.pendingError
  {
    hide NextId; hide Insert; hide IoState.Valid; hide OutgoingMessage.IsMultiFrame;
  }

  /** A step that does nothing to the buffer keeps the threshold exact. */
  lemma KeepsExact(io: IoState, n: IoState)
    requires Exact(io) && n.Valid() && Grown(io.juliet, n.juliet)
    requires n.buffer == io.buffer && n.nextParseAt == io.nextParseAt && n.pendingError == io.pendingError
    ensures Exact(n)
  {
    assert io.juliet.Valid() && n.juliet.Valid();
    hide IoState.Valid; hide ProcessIncoming; hide Grown;
    if io.pendingError.None? && io.nextParseAt > |io.buffer| {
      StaysStuck(io.juliet, n.juliet, io.buffer, io.nextParseAt - |io.buffer|);
    }
  }

  lemma GrownTwice(p: ProtocolState, q: ProtocolState, r: ProtocolState)
    requires Grown(p, q) && Grown(q, r)
    ensures Grown(p, r)
  {
  }

  lemma NotGrown(p: ProtocolState)
    ensures Grown(p, p)
  {
  }

  lemma {:induction false} ProcessGrows(io: IoState, channel: ChannelId, remaining: nat)
    requires io.Valid() && io.juliet.Knows(channel)
    ensures var n := ProcessWaiting(io, channel, remaining).state;
      && Grown(io.juliet, n.juliet)
      && n.buffer == io.buffer && n.nextParseAt == io.nextParseAt && n.pendingError == io.pendingError
    decreases remaining
  {
    hide SendToReadyQueue; hide IoState.Valid; hide Grown;
    Shapes(io);
    NotGrown(io.juliet);
    var queue := io.waitQueue[channel];
    if queue != [] && remaining > 0 {
      QueuedIsValid(io, channel);
      var item, popped := queue[0], SetQueue(io, channel, queue[1..]);
      var waits := ItemShouldWait(item, popped.juliet, popped.activeMultiFrame);
      hide ItemShouldWait;
      if waits.Ok? && waits.value.Some? {
        ProcessGrows(SetQueue(io, channel, queue[1..] + [item]), channel, remaining - 1);
      } else if waits.Ok? {
        SendGrows(popped, item);
        var sent := SendToReadyQueue(popped, item).state;
        ProcessGrows(sent, channel, remaining - 1);
        GrownTwice(io.juliet, sent.juliet, ProcessWaiting(sent, channel, remaining - 1).state.juliet);
      }
    }
  }

  /** Handing over any item keeps the threshold exact. */
  lemma EnqueueKeepsExact(io: IoState, item: QueuedItem)
    requires Exact(io) && item.Valid() && io.Indexable(item)
    ensures Exact(HandleIncomingItem(io, item).state)
  {
    hide IoState.Valid; hide Exact; hide SendToReadyQueue; hide Grown;
    assert io.Valid() by { ExactIsValid(io); }
    NotGrown(io.juliet);
    var n := HandleIncomingItem(io, item).state;
    if item.QueuedError? {
      ErrorKeepsExact(io, item);
    } else {
      SendGrows(io, item);
      hide ItemShouldWait;
      KeepsExact(io, n);
    }
  }

  lemma ExactIsValid(io: IoState)
    requires Exact(io)
    ensures io.Valid()
  {
  }

  lemma ErrorKeepsExact(io: IoState, item: QueuedItem)
    requires Exact(io) && item.Valid() && item.QueuedError?
    ensures Exact(SendToReadyQueue(io, item).state)
  {
    hide IoState.Valid; hide ProcessIncoming;
  }

  lemma FrameSentKeepsExact(io: IoState)
    requires Exact(io)
    ensures Exact(FrameSent(io).state)
  {
    assert io.Valid();
    hide Exact; hide ProcessWaiting; hide Grown;
    NotGrown(io.juliet);
    if io.currentFrame.Some? {
      var taken, header := Cleared(io), io.currentFrame.value.0.header;
      hide IoState.Valid;
      Shapes(taken);
      KeepsExact(io, taken);
      if !header.IsError() {
        ProcessGrows(taken, header.channel, |taken.waitQueue[header.channel]|);
        KeepsExact(taken, FrameSent(io).state);
      }
    }
  }

  lemma ReadyKeepsExact(io: IoState)
    requires Exact(io)
    ensures Exact(ReadyNextFrame(io))
  {
    hide Exact; hide IoState.Valid; hide Grown;
    ExactIsValid(io);
    NotGrown(io.juliet);
    KeepsExact(io, ReadyNextFrame(io));
  }

  /** So do bytes that arrive, however few. */
  lemma BytesKeepExact(io: IoState, more: Bytes)
    requires Exact(io)
    ensures Exact(io.(buffer := io.buffer + more))
  {
    var n := io.(buffer := io.buffer + more);
    assert n.Valid() && io.juliet.Valid();
    hide IoState.Valid; hide ProcessIncoming;
    if io.pendingError.None? && io.nextParseAt > |n.buffer| {
      IncompleteIsExact(io.juliet, io.buffer, more);
    }
  }

  /**
   * And parsing sets it so: unless there is an event or an error, the parser is not called again before
   * exactly the bytes that it needs have arrived.
   */
  lemma ParseKeepsExact(io: IoState)
    requires Exact(io)
    ensures Exact(ParseStep(io).state)
    ensures ParseStep(io).result == Ok(None) && ParseStep(io).state.pendingError.None? ==>
              ParseStep(io).state.nextParseAt > |ParseStep(io).state.buffer|
  {
    ExactIsValid(io);
    if io.nextParseAt <= |io.buffer| {
      var p := ProcessIncoming(io.juliet, io.buffer);
      assert io.juliet.Valid();
      if p.outcome.Incomplete? { StopsStuck(io.juliet, io.buffer); }
      hide ProcessIncoming; hide IoState.Valid; hide ProcessWaitQueue;
      if p.outcome.Success? { SuccessResets(io); }
      hide HandleCompletedRead;
    } else {
      hide ProcessIncoming; hide IoState.Valid;
    }
  }

  lemma SuccessResets(io: IoState)
    requires io.Valid() && io.nextParseAt <= |io.buffer| && ProcessIncoming(io.juliet, io.buffer).outcome.Success?
    ensures ParseStep(io).state.nextParseAt == 0 && ParseStep(io).result != Ok(None)
  {
    ProcessIncomingReports(io.juliet, io.buffer);
    var p := ProcessIncoming(io.juliet, io.buffer);
    var next := io.(nextParseAt := 0, juliet := p.state, buffer := p.rest);
    assert next.Valid();
    hide ProcessIncoming; hide ProcessWaiting; hide IoState.Valid; hide RemoveByRight;
    if p.outcome.value.ReceivedResponse? {
      Shapes(next);
      ProcessGrows(next, p.outcome.value.channel, |next.waitQueue[p.outcome.value.channel]|);
    }
  }
}
