// Two IO layers joined by byte streams in both directions. What one channel sees of them is an end as
// in `Duplex`; every step of a peer is a step of one channel, or of none.
module TwoPeers {
  import opened Types
  import opened Message
  import opened Protocol
  import opened Transfer
  import opened IoState
  import opened Duplex

  /** What both peers agree on. */
  datatype Setup = Setup(mfs: MaxFrameSize, configs: seq<ChannelConfiguration>) {
    predicate Knows(c: nat) {
      c < |configs| <= 0x100
    }

    function At(c: ChannelId): Shared
      requires Knows(c)
    {
      Shared(mfs, c, configs[c])
    }
  }

  /** The history of an end of a channel. */
  datatype History = History(
    track: Track,
    cancelled: set<Id>,
    created: multiset<OutgoingMessage>,
    log: seq<OutgoingMessage>,
    got: seq<OutgoingMessage>)

  datatype Peer = Peer(
    io: IoState,
    /** The message whose next frame is the current frame. */
    current: Option<FrameIter>,
    /** The frames written out that the other peer has not parsed. */
    sent: seq<FrameIter>,
    /** The bytes written out that the other peer has not read. */
    wire: Bytes,
    history: seq<History>)

  /** The frames of one channel. */
  function Lane(its: seq<FrameIter>, c: ChannelId): seq<FrameIter> {
    if its == [] then []
    else (if its[0].msg.header.channel == c then [its[0]] else []) + Lane(its[1..], c)
  }

  function LaneOf(it: Option<FrameIter>, c: ChannelId): Option<FrameIter> {
    if it.Some? && it.value.msg.header.channel == c then it else None
  }

  /** The bytes of the frames, one after the other. */
  ghost function Flat(its: seq<FrameIter>, mfs: MaxFrameSize): Bytes
    requires forall it :: it in its ==> it.Valid()
  {
    if its == [] then [] else FrameBytes(its[0], mfs) + Flat(its[1..], mfs)
  }

  ghost predicate Sized(p: Peer, s: Setup) {
    && p.io.Valid() && p.io.juliet.mfs == s.mfs
    && |p.io.juliet.channels| == |p.history| == |s.configs| <= 0x100
  }

  /** What a channel sees of a peer. */
  ghost function Proj(p: Peer, c: ChannelId, s: Setup): End
    requires Sized(p, s) && s.Knows(c)
  {
    var h := p.history[c];
    End(p.io.juliet.channels[c], Lane(p.io.readyQueue, c), LaneOf(p.current, c), p.io.activeMultiFrame[c],
        Lane(p.sent, c), h.track, h.cancelled, h.created, h.log, h.got)
  }

  function HistoryOf(e: End): History {
    History(e.track, e.cancelled, e.created, e.log, e.got)
  }

  /** Answers that wait to be sent. */
  ghost function AnswerIds(queue: seq<QueuedItem>): multiset<Id> {
    if queue == [] then multiset{}
    else (if queue[0].QueuedResponse? then multiset{queue[0].id} else multiset{}) + AnswerIds(queue[1..])
  }

  predicate SmallEnough(item: QueuedItem, config: ChannelConfiguration) {
    && (item.QueuedRequest? && item.payload.Some? ==> |item.payload.value| <= config.maxRequestPayloadSize)
    && (item.QueuedResponse? && item.payload.Some? ==> |item.payload.value| <= config.maxResponsePayloadSize)
  }

  /** What waits can be sent one day: no item is too large, and no two answers are for one request. */
  ghost predicate Patient(p: Peer, c: ChannelId, s: Setup)
    requires Sized(p, s) && s.Knows(c)
  {
    && (forall item :: item in p.io.waitQueue[c] ==> SmallEnough(item, s.configs[c]))
    && AnswerIds(p.io.waitQueue[c]) <= multiset(Complete(p.io.juliet.channels[c]))
  }

  ghost predicate Framed(its: seq<FrameIter>, s: Setup) {
    forall it :: it in its ==> it.Valid() && it.msg.header.Frame? && s.Knows(it.msg.header.channel)
  }

  ghost predicate CurrentIs(frame: Option<(OutgoingFrame, bool)>, it: Option<FrameIter>, s: Setup) {
    if it.None? then frame.None?
    else Framed([it.value], s) && frame == Some((it.value.NextFrame(s.mfs), it.value.IsFinal(s.mfs)))
  }

  ghost predicate MapKnown(m: RequestMap, s: Setup) {
    forall l :: l in m ==> s.Knows(m[l].0)
  }

  /** What holds of one peer alone. */
  ghost predicate Sound(p: Peer, s: Setup) {
    && Sized(p, s) && p.io.pendingError.None?
    && CurrentIs(p.io.currentFrame, p.current, s)
    && Framed(p.io.readyQueue, s) && Framed(p.sent, s)
    && MapKnown(p.io.requestMap, s)
    && forall c: ChannelId :: s.Knows(c) ==> Patient(p, c, s)
  }

  /** The bytes that `q` has read and not parsed, and those on the wire, are the frames that `p` has sent. */
  ghost predicate Linked(p: Peer, q: Peer, s: Setup)
    requires Framed(p.sent, s)
  {
    q.io.buffer + p.wire == Flat(p.sent, s.mfs)
  }

  ghost predicate Lanes(p: Peer, q: Peer, s: Setup)
    requires Sized(p, s) && Sized(q, s)
  {
    forall c: ChannelId :: s.Knows(c) ==> Inv(Proj(p, c, s), Proj(q, c, s), s.At(c))
  }

  ghost predicate Good(p: Peer, q: Peer, s: Setup) {
    Sound(p, s) && Sound(q, s) && Linked(p, q, s) && Linked(q, p, s) && Lanes(p, q, s)
  }

  // ---------------------------------------------------------------- frames of a channel

  lemma {:induction false} LaneAppend(x: seq<FrameIter>, y: seq<FrameIter>, c: ChannelId)
    ensures Lane(x + y, c) == Lane(x, c) + Lane(y, c)
  {
    if x == [] {
      assert x + y == y;
    } else {
      assert (x + y)[1..] == x[1..] + y;
      LaneAppend(x[1..], y, c);
      var first := if x[0].msg.header.channel == c then [x[0]] else [];
      assert first + (Lane(x[1..], c) + Lane(y, c)) == (first + Lane(x[1..], c)) + Lane(y, c);
    }
  }

  lemma LaneOne(it: FrameIter, c: ChannelId)
    ensures Lane([it], c) == if it.msg.header.channel == c then [it] else []
  {
    assert [it][1..] == [];
  }

  lemma {:induction false} FlatAppend(x: seq<FrameIter>, it: FrameIter, mfs: MaxFrameSize)
    requires (forall i :: i in x ==> i.Valid()) && it.Valid()
    ensures Flat(x + [it], mfs) == Flat(x, mfs) + FrameBytes(it, mfs)
  {
    hide FrameBytes;
    if x == [] {
      assert x + [it] == [it];
      assert [it][1..] == [];
    } else {
      assert (x + [it])[1..] == x[1..] + [it];
      FlatAppend(x[1..], it, mfs);
    }
  }

  // ---------------------------------------------------------------- a step of one channel

  /** Replaces the IO state of a peer, and the history of one channel. */
  ghost function With(p: Peer, io: IoState, c: ChannelId, e: End): Peer
    requires c < |p.history|
  {
    p.(io := io, history := p.history[c := HistoryOf(e)])
  }

  /** The state of the peer has changed on one channel only, and there it is as in `e`. */
  ghost predicate Moved(p: Peer, n: Peer, c: ChannelId, e: End, s: Setup)
    requires Sized(p, s) && Sized(n, s)
  {
    && s.Knows(c) && Proj(n, c, s) == e
    && forall d: ChannelId :: s.Knows(d) && d != c ==> Proj(n, d, s) == Proj(p, d, s)
  }

  lemma MovedLanes(p: Peer, n: Peer, q: Peer, c: ChannelId, e: End, s: Setup)
    requires Sized(p, s) && Sized(n, s) && Sized(q, s) && Moved(p, n, c, e, s) && Lanes(p, q, s)
    requires Inv(e, Proj(q, c, s), s.At(c))
    ensures Lanes(n, q, s)
  {
    hide Inv; hide Proj;
  }

  lemma LanesSwap(p: Peer, q: Peer, s: Setup)
    requires Sized(p, s) && Sized(q, s) && Lanes(p, q, s)
    ensures Lanes(q, p, s)
  {
    hide Flow; hide Proj;
    forall c: ChannelId | s.Knows(c) ensures Inv(Proj(q, c, s), Proj(p, c, s), s.At(c)) {
      assert Inv(Proj(p, c, s), Proj(q, c, s), s.At(c));
    }
  }
}
