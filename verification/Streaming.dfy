// The parser on a stream: what it does with a buffer does not depend on how the bytes arrive, and
// what it does on one channel does not depend on the other channels.
module Streaming {
  import opened Types
  import opened Header
  import opened Message
  import opened Multiframe
  import opened Protocol
  import Varint

  // ---------------------------------------------------------------- one pass, more bytes

  /**
   * `b` is the result for a buffer of `a` with `more` bytes added: what was decided stays, what was
   * not needs the number of bytes asked for, and then reaches beyond the `had` bytes of the buffer.
   */
  ghost predicate Extends(ch: ChannelState, a: Passed, b: Passed, had: nat, more: nat) {
    && (!a.outcome.Incomplete? ==> b == a)
    && (a.outcome.Incomplete? ==> 1 <= a.outcome.n < 0x1_0000_0000)
    && (a.outcome.Incomplete? && more < a.outcome.n ==> b == Passed(ch, 0, Incomplete(a.outcome.n - more)))
    && (a.outcome.Incomplete? && b.outcome.Success? ==> b.consumed > had)
  }

  lemma PassRequestPlExtend(ch: ChannelState, header: Header, buffer: Bytes, more: Bytes, mfs: MaxFrameSize)
    requires |buffer| >= SIZE && ch.receiver.Valid() && header.Frame?
    ensures Extends(ch, PassRequestPl(ch, header, buffer, mfs), PassRequestPl(ch, header, buffer + more, mfs),
            |buffer|, |more|)
  {
    AcceptExtend(ch.receiver, header, buffer, more, mfs, ch.config.maxRequestPayloadSize, RequestTooLarge);
    hide AcceptFrame;
  }

  lemma PassResponsePlExtend(ch: ChannelState, header: Header, buffer: Bytes, more: Bytes, mfs: MaxFrameSize)
    requires |buffer| >= SIZE && ch.receiver.Valid() && header.Frame?
    ensures Extends(ch, PassResponsePl(ch, header, buffer, mfs), PassResponsePl(ch, header, buffer + more, mfs),
            |buffer|, |more|)
  {
    AcceptExtend(ch.receiver, header, buffer, more, mfs, ch.config.maxResponsePayloadSize, ResponseTooLarge);
    hide AcceptFrame;
  }

  lemma ChannelPassExtend(ch: ChannelState, header: Header, buffer: Bytes, more: Bytes, mfs: MaxFrameSize)
    requires |buffer| >= SIZE && ch.receiver.Valid() && header.Frame?
    ensures Extends(ch, ChannelPass(ch, header, buffer, mfs), ChannelPass(ch, header, buffer + more, mfs), |buffer|,
            |more|)
  {
    hide PassRequestPl; hide PassResponsePl;
    match header.kind
    case RequestPl =>
      PassRequestPlExtend(ch, header, buffer, more, mfs);
    case ResponsePl =>
      PassResponsePlExtend(ch, header, buffer, more, mfs);
    case _ =>
      assert ChannelPass(ch, header, buffer + more, mfs) == ChannelPass(ch, header, buffer, mfs);
  }

  lemma PassErrorExtend(p: ProtocolState, header: Header, buffer: Bytes, more: Bytes)
    requires |buffer| >= SIZE && header.Error?
    ensures var a := PassError(p, header, buffer);
      var b := PassError(p, header, buffer + more);
      && (!a.outcome.Incomplete? ==> b == a)
      && (a.outcome.Incomplete? ==> 1 <= a.outcome.n < 0x1_0000_0000)
      && (a.outcome.Incomplete? && |more| < a.outcome.n ==> b == Step(p, 0, Incomplete(a.outcome.n - |more|)))
      && (a.outcome.Incomplete? && b.outcome.Success? ==> b.consumed > |buffer|)
  {
    assert (buffer + more)[SIZE..] == buffer[SIZE..] + more;
    Varint.DecodeExtend(buffer[SIZE..], more);
    var d := Varint.DecodeVarint(buffer[SIZE..]);
    if d.Incomplete? && more == [] {
      assert buffer + more == buffer;
    }
    if d.Success? {
      var preambleEnd := SIZE + d.value.offset;
      if preambleEnd + d.value.value <= |buffer| {
        SliceFront(buffer, more, preambleEnd, preambleEnd + d.value.value);
      }
    }
  }

  /**
   * What a pass decides is final; `Incomplete(n)` means that fewer than `n` more bytes change
   * nothing, and that the frame ends beyond the buffer. `n` is always a valid non-zero 32-bit number.
   */
  lemma PassExtend(p: ProtocolState, buffer: Bytes, more: Bytes)
    requires p.Valid()
    ensures var a := Pass(p, buffer);
      var b := Pass(p, buffer + more);
      && (!a.outcome.Incomplete? ==> b == a)
      && (a.outcome.Incomplete? ==> 1 <= a.outcome.n < 0x1_0000_0000)
      && (a.outcome.Incomplete? && |more| < a.outcome.n ==> b == Step(p, 0, Incomplete(a.outcome.n - |more|)))
      && (a.outcome.Incomplete? && b.outcome.Success? ==> b.consumed > |buffer|)
  {
    if |buffer| >= SIZE {
      assert (buffer + more)[..SIZE] == buffer[..SIZE];
      var parsed := Parse(buffer[..SIZE]);
      if parsed.Some? {
        var header := parsed.value;
        if header.Error? {
          PassErrorExtend(p, header, buffer, more);
        } else if p.Knows(header.channel) {
          ChannelPassExtend(p.channels[header.channel], header, buffer, more, p.mfs);
          assert p.channels[header.channel := p.channels[header.channel]] == p.channels;
        }
      }
      hide ChannelPass; hide PassError; hide Parse;
    }
  }

  /** A pass that uses up `k` bytes looks at no others. */
  lemma PassLocal(p: ProtocolState, buffer: Bytes)
    requires p.Valid() && Pass(p, buffer).outcome.Success?
    ensures Pass(p, buffer[..Pass(p, buffer).consumed]) == Pass(p, buffer)
  {
    var k := Pass(p, buffer).consumed;
    assert buffer[..k] + buffer[k..] == buffer;
    PassExtend(p, buffer[..k], buffer[k..]);
    hide Pass;
  }

  // ---------------------------------------------------------------- draining a buffer

  /** The result of parsing until more bytes are needed or the peer is at fault. */
  datatype Run = Run(state: ProtocolState, rest: Bytes, completed: seq<CompletedRead>, error: Option<OutgoingMessage>)

  function Drain(p: ProtocolState, buffer: Bytes): (r: Run)
    requires p.Valid()
    ensures r.state.Valid() && r.state.mfs == p.mfs && |r.state.channels| == |p.channels|
    decreases |buffer|
  {
    var r := ProcessIncoming(p, buffer);
    match r.outcome
    case Incomplete(_) => Run(r.state, r.rest, [], None)
    case Fatal(e) => Run(r.state, r.rest, [], Some(e))
    case Success(read) =>
      var tail := Drain(r.state, r.rest);
      tail.(completed := [read] + tail.completed)
  }

  /** Draining, one pass at a time. */
  function DrainPasses(p: ProtocolState, buffer: Bytes): (r: Run)
    requires p.Valid()
    ensures r.state.Valid() && r.state.mfs == p.mfs && |r.state.channels| == |p.channels|
    decreases |buffer|
  {
    var step := Pass(p, buffer);
    var rest := buffer[step.consumed..];
    match step.outcome
    case Incomplete(_) => Run(step.state, rest, [], None)
    case Fatal(e) => Run(step.state, rest, [], Some(e))
    case Success(read) =>
      var tail := DrainPasses(step.state, rest);
      tail.(completed := (if read.Some? then [read.value] else []) + tail.completed)
  }

  lemma {:induction false} DrainIsPasses(p: ProtocolState, buffer: Bytes)
    requires p.Valid()
    ensures Drain(p, buffer) == DrainPasses(p, buffer)
    decreases |buffer|
  {
    var step := Pass(p, buffer);
    var rest := buffer[step.consumed..];
    if step.outcome.Success? {
      DrainIsPasses(step.state, rest);
      if step.outcome.value.None? {
        assert ProcessIncoming(p, buffer) == ProcessIncoming(step.state, rest);
        assert [] + DrainPasses(step.state, rest).completed == DrainPasses(step.state, rest).completed;
      }
    }
  }

  /** Draining, with its first pass taken apart. */
  lemma DrainStep(p: ProtocolState, buffer: Bytes)
    requires p.Valid()
    ensures var step := Pass(p, buffer);
      var rest := buffer[step.consumed..];
      match step.outcome
      case Incomplete(_) => Drain(p, buffer) == Run(p, buffer, [], None)
      case Fatal(e) => Drain(p, buffer) == Run(step.state, rest, [], Some(e))
      case Success(None) => Drain(p, buffer) == Drain(step.state, rest)
      case Success(Some(read)) =>
        Drain(p, buffer) == Drain(step.state, rest).(completed := [read] + Drain(step.state, rest).completed)
  {
    DrainIsPasses(p, buffer);
    var step := Pass(p, buffer);
    hide Pass; hide Drain;
    var rest := buffer[step.consumed..];
    DrainIsPasses(step.state, rest);
    assert buffer[0..] == buffer;
    assert [] + DrainPasses(step.state, rest).completed == DrainPasses(step.state, rest).completed;
  }

  /** `more` is drained after `first` has been, leaving `first.rest` behind. */
  ghost predicate Continues(first: Run, more: Bytes, whole: Run)
    requires first.state.Valid()
  {
    if first.error.Some? then whole.completed == first.completed && whole.error == first.error
    else
      var c := Drain(first.state, first.rest + more);
      whole == c.(completed := first.completed + c.completed)
  }

  lemma DrainSplitHere(p: ProtocolState, x: Bytes, y: Bytes)
    requires p.Valid() && !Pass(p, x).outcome.Success?
    ensures Continues(Drain(p, x), y, Drain(p, x + y))
  {
    DrainStep(p, x);
    PassExtend(p, x, y);
    var step := Pass(p, x);
    if step.outcome.Incomplete? {
      var c := Drain(p, x + y);
      assert [] + c.completed == c.completed;
    } else {
      DrainStep(p, x + y);
    }
    hide Pass; hide Drain;
  }

  /** Draining in two portions is draining at once. */
  lemma {:induction false} DrainSplit(p: ProtocolState, x: Bytes, y: Bytes)
    requires p.Valid()
    ensures Continues(Drain(p, x), y, Drain(p, x + y))
    decreases |x|
  {
    var step := Pass(p, x);
    if !step.outcome.Success? {
      DrainSplitHere(p, x, y);
    } else {
      DrainStep(p, x);
      DrainStep(p, x + y);
      PassExtend(p, x, y);
      hide Pass; hide Drain; hide Continues;
      var rest := x[step.consumed..];
      SliceBack(x, y, step.consumed);
      DrainSplit(step.state, rest, y);
      if step.outcome.value.Some? {
        ContinuesAfter(step.outcome.value.value, Drain(step.state, rest), y, Drain(step.state, rest + y));
      }
    }
  }

  lemma ContinuesAfter(read: CompletedRead, first: Run, more: Bytes, whole: Run)
    requires first.state.Valid() && Continues(first, more, whole)
    ensures Continues(first.(completed := [read] + first.completed), more,
            whole.(completed := [read] + whole.completed))
  {
    hide Drain;
    if first.error.None? {
      var c := Drain(first.state, first.rest + more);
      assert [read] + (first.completed + c.completed) == ([read] + first.completed) + c.completed;
    }
  }

  /** Adds a chunk to the receive buffer and drains it, unless the stream has already failed. */
  function Feed(run: Run, chunk: Bytes): (r: Run)
    requires run.state.Valid()
    ensures r.state.Valid()
  {
    if run.error.Some? then run
    else
      var r := Drain(run.state, run.rest + chunk);
      r.(completed := run.completed + r.completed)
  }

  function FeedAll(run: Run, chunks: seq<Bytes>): (r: Run)
    requires run.state.Valid()
    ensures r.state.Valid()
    decreases |chunks|
  {
    if chunks == [] then run else FeedAll(Feed(run, chunks[0]), chunks[1..])
  }

  function Flatten(chunks: seq<Bytes>): Bytes {
    if chunks == [] then [] else chunks[0] + Flatten(chunks[1..])
  }

  /** A run that has drained what it was given so far. */
  ghost predicate DrainsTo(run: Run, p: ProtocolState, buffer: Bytes)
    requires p.Valid()
  {
    var d := Drain(p, buffer);
    run.completed == d.completed && run.error == d.error && (run.error.None? ==> run == d)
  }

  lemma {:induction false} FeedAllDrained(p: ProtocolState, before: Bytes, run: Run, chunks: seq<Bytes>)
    requires p.Valid() && run.state.Valid() && DrainsTo(run, p, before)
    ensures DrainsTo(FeedAll(run, chunks), p, before + Flatten(chunks))
    decreases |chunks|
  {
    hide Drain;
    if chunks == [] {
      assert before + Flatten(chunks) == before;
    } else {
      DrainSplit(p, before, chunks[0]);
      assert DrainsTo(Feed(run, chunks[0]), p, before + chunks[0]);
      FeedAllDrained(p, before + chunks[0], Feed(run, chunks[0]), chunks[1..]);
      assert before + Flatten(chunks) == before + chunks[0] + Flatten(chunks[1..]);
    }
  }

  /**
   * However a stream is cut into chunks, parsing after every chunk yields the same reads and the same
   * first error as parsing it all at once and, without an error, the same state and leftover bytes.
   */
  lemma ChunkIndependence(p: ProtocolState, chunks: seq<Bytes>)
    requires p.Valid()
    ensures var a := FeedAll(Run(p, [], [], None), chunks);
      var b := Drain(p, Flatten(chunks));
      a.completed == b.completed && a.error == b.error && (a.error.None? ==> a == b)
  {
    assert Pass(p, []).outcome.Incomplete?;
    assert Drain(p, []) == Run(p, [], [], None);
    FeedAllDrained(p, [], Run(p, [], [], None), chunks);
    assert [] + Flatten(chunks) == Flatten(chunks);
  }

  /** Calling the parser before the number of bytes it asked for has arrived is pointless and harmless. */
  lemma {:induction false} IncompleteIsExact(p: ProtocolState, buffer: Bytes, more: Bytes)
    requires p.Valid() && ProcessIncoming(p, buffer).outcome.Incomplete?
    requires |more| < ProcessIncoming(p, buffer).outcome.n
    ensures var r := ProcessIncoming(p, buffer);
      && 1 <= r.outcome.n < 0x1_0000_0000
      && ProcessIncoming(r.state, r.rest + more) == Processed(r.state, r.rest + more, Incomplete(r.outcome.n - |more|))
    decreases |buffer|
  {
    var step := Pass(p, buffer);
    if step.outcome.Success? {
      IncompleteIsExact(step.state, buffer[step.consumed..], more);
    } else {
      PassExtend(p, buffer, more);
      assert buffer[0..] == buffer && (buffer + more)[0..] == buffer + more;
    }
  }

  // ---------------------------------------------------------------- channels are independent

  predicate IsErrorRead(read: CompletedRead) {
    read.ErrorReceived?
  }

  /** The reads of one channel. */
  function ReadsOn(all: seq<CompletedRead>, c: ChannelId): seq<CompletedRead> {
    if all == [] then []
    else (if !IsErrorRead(all[0]) && all[0].channel == c then [all[0]] else []) + ReadsOn(all[1..], c)
  }

  /** The bytes of the frames of one channel. */
  function FramesOn(p: ProtocolState, buffer: Bytes, c: ChannelId): Bytes
    requires p.Valid()
    decreases |buffer|
  {
    var step := Pass(p, buffer);
    if !step.outcome.Success? then []
    else
      (if Parse(buffer[..SIZE]).value.channel == c then buffer[..step.consumed] else []) +
      FramesOn(step.state, buffer[step.consumed..], c)
  }

  /** A pass over a frame of a channel touches that channel only, and depends on it only. */
  lemma PassOnChannel(p: ProtocolState, q: ProtocolState, buffer: Bytes)
    requires p.Valid() && q.Valid() && p.mfs == q.mfs && |p.channels| == |q.channels|
    requires Pass(p, buffer).outcome.Success?
    requires Pass(p, buffer).outcome.value.Some? ==> !IsErrorRead(Pass(p, buffer).outcome.value.value)
    ensures |buffer| >= SIZE && Parse(buffer[..SIZE]).Some?
    ensures var c := Parse(buffer[..SIZE]).value.channel;
      && p.Knows(c)
      && Pass(p, buffer).state == p.(channels := p.channels[c := Pass(p, buffer).state.channels[c]])
      && (Pass(p, buffer).outcome.value.Some? ==> Pass(p, buffer).outcome.value.value.channel == c)
      && (p.channels[c] == q.channels[c] ==>
            && Pass(q, buffer).consumed == Pass(p, buffer).consumed
            && Pass(q, buffer).outcome == Pass(p, buffer).outcome
            && Pass(q, buffer).state == q.(channels := q.channels[c := Pass(p, buffer).state.channels[c]]))
  {
    hide AcceptFrame; hide Parse;
  }

  lemma FramesFirst(p: ProtocolState, buffer: Bytes, c: ChannelId)
    requires p.Valid() && Pass(p, buffer).outcome.Success?
    ensures |buffer| >= SIZE && Parse(buffer[..SIZE]).Some?
    ensures var step := Pass(p, buffer);
      var frames := FramesOn(step.state, buffer[step.consumed..], c);
      FramesOn(p, buffer, c) ==
        if Parse(buffer[..SIZE]).value.channel == c then buffer[..step.consumed] + frames else frames
  {
    hide Parse; hide ChannelPass; hide PassError;
    var step := Pass(p, buffer);
    var frames := FramesOn(step.state, buffer[step.consumed..], c);
    assert [] + frames == frames;
  }

  /** The reads of the first frame, and then the others. */
  lemma ReadsFirst(read: Option<CompletedRead>, rest: seq<CompletedRead>, c: ChannelId)
    requires read.Some? ==> !IsErrorRead(read.value)
    ensures ReadsOn((if read.Some? then [read.value] else []) + rest, c) ==
            (if read.Some? && read.value.channel == c then [read.value] else []) + ReadsOn(rest, c)
  {
    if read.Some? {
      assert ([read.value] + rest)[1..] == rest;
    } else {
      assert [] + rest == rest;
    }
  }

  /** What a channel gets from its own frames is what it gets from all of them. */
  ghost predicate Isolated(p: ProtocolState, q: ProtocolState, buffer: Bytes, c: ChannelId)
    requires p.Valid() && q.Valid() && p.mfs == q.mfs && |p.channels| == |q.channels| && p.Knows(c)
  {
    var all, alone := Drain(p, buffer), Drain(q, FramesOn(p, buffer, c));
    && alone.error.None? && alone.rest == []
    && alone.completed == ReadsOn(all.completed, c)
    && alone.state == q.(channels := q.channels[c := all.state.channels[c]])
  }

  lemma IsolatedNext(p: ProtocolState, q: ProtocolState, buffer: Bytes, c: ChannelId)
    requires p.Valid() && q.Valid() && p.mfs == q.mfs && |p.channels| == |q.channels|
    requires p.Knows(c) && p.channels[c] == q.channels[c]
    requires Pass(p, buffer).outcome.Success?
    requires Pass(p, buffer).outcome.value.Some? ==> !IsErrorRead(Pass(p, buffer).outcome.value.value)
    requires |buffer| >= SIZE && Parse(buffer[..SIZE]).Some?
    requires var step := Pass(p, buffer);
      var rest := buffer[step.consumed..];
      var own := Parse(buffer[..SIZE]).value.channel == c;
      var alone := if own then Pass(q, buffer[..step.consumed] + FramesOn(step.state, rest, c)).state else q;
      Isolated(step.state, alone, rest, c)
    ensures Isolated(p, q, buffer, c)
  {
    hide Pass; hide Drain; hide Parse; hide ReadsOn; hide FramesOn;
    var step := Pass(p, buffer);
    var rest := buffer[step.consumed..];
    var frames := FramesOn(step.state, rest, c);
    DrainStep(p, buffer);
    FramesFirst(p, buffer, c);
    PassOnChannel(p, q, buffer);
    ReadsFirst(step.outcome.value, Drain(step.state, rest).completed, c);
    assert [] + Drain(step.state, rest).completed == Drain(step.state, rest).completed;
    if Parse(buffer[..SIZE]).value.channel == c {
      PassAlone(p, q, buffer, frames);
      DrainStep(q, buffer[..step.consumed] + frames);
    }
    assert [] + ReadsOn(Drain(step.state, rest).completed, c) == ReadsOn(Drain(step.state, rest).completed, c);
  }

  /**
   * The frames of one channel, on their own, leave the channel in the same state and yield the same
   * reads on it as when the frames of the other channels are interleaved with them.
   */
  lemma {:induction false} ChannelIsolation(p: ProtocolState, q: ProtocolState, buffer: Bytes, c: ChannelId)
    requires p.Valid() && q.Valid() && p.mfs == q.mfs && |p.channels| == |q.channels|
    requires p.Knows(c) && p.channels[c] == q.channels[c]
    requires Drain(p, buffer).error.None?
    requires forall r :: r in Drain(p, buffer).completed ==> !IsErrorRead(r)
    ensures var all, alone := Drain(p, buffer), Drain(q, FramesOn(p, buffer, c));
      && alone.error.None? && alone.rest == []
      && alone.completed == ReadsOn(all.completed, c)
      && alone.state == q.(channels := q.channels[c := all.state.channels[c]])
    decreases |buffer|
  {
    hide Pass; hide Drain; hide Parse; hide ReadsOn;
    DrainStep(p, buffer);
    var step := Pass(p, buffer);
    if step.outcome.Success? {
      var rest := buffer[step.consumed..];
      if step.outcome.value.Some? {
        assert step.outcome.value.value in Drain(p, buffer).completed;
        assert Drain(p, buffer).completed[1..] == Drain(step.state, rest).completed;
      }
      PassOnChannel(p, q, buffer);
      if Parse(buffer[..SIZE]).value.channel == c {
        PassAlone(p, q, buffer, FramesOn(step.state, rest, c));
        ChannelIsolation(step.state, Pass(q, buffer[..step.consumed] + FramesOn(step.state, rest, c)).state, rest, c);
      } else {
        ChannelIsolation(step.state, q, rest, c);
      }
      hide FramesOn;
      IsolatedNext(p, q, buffer, c);
    } else {
      EmptyDrain(q);
      NoReads(c);
      assert q.channels[c := q.channels[c]] == q.channels;
    }
  }

  lemma NoReads(c: ChannelId)
    ensures ReadsOn([], c) == []
  {
  }

  /** A frame followed by other bytes than before is taken in the same way by a channel in the same state. */
  lemma PassAlone(p: ProtocolState, q: ProtocolState, buffer: Bytes, frames: Bytes)
    requires p.Valid() && q.Valid() && p.mfs == q.mfs && |p.channels| == |q.channels|
    requires Pass(p, buffer).outcome.Success? && |buffer| >= SIZE && Parse(buffer[..SIZE]).Some?
    requires Pass(p, buffer).outcome.value.Some? ==> !IsErrorRead(Pass(p, buffer).outcome.value.value)
    requires var c := Parse(buffer[..SIZE]).value.channel; p.Knows(c) && p.channels[c] == q.channels[c]
    ensures var a := Pass(p, buffer);
      var b := Pass(q, buffer[..a.consumed] + frames);
      var c := Parse(buffer[..SIZE]).value.channel;
      && b.outcome == a.outcome && b.consumed == a.consumed
      && b.state == q.(channels := q.channels[c := a.state.channels[c]])
      && (buffer[..a.consumed] + frames)[b.consumed..] == frames
  {
    var piece := buffer[..Pass(p, buffer).consumed];
    PassLocal(p, buffer);
    assert piece[..SIZE] == buffer[..SIZE];
    PassOnChannel(p, q, piece);
    PassExtend(q, piece, frames);
    SliceBack(piece, frames, |piece|);
    hide Pass;
  }

  lemma EmptyDrain(q: ProtocolState)
    requires q.Valid()
    ensures Drain(q, []) == Run(q, [], [], None)
  {
    assert Pass(q, []).outcome.Incomplete?;
  }
}
