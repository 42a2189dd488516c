// Two peers and one channel. Each end has the state of the channel, the frames it is still to send
// (ready queue, current frame) and the frames on their way to the other end. Every step that a peer
// can take keeps one invariant, and under it no received frame is ever rejected.
//
// An entry of a ready queue stands for all frames that its iterator still has to produce; an entry
// that is current or on its way stands for the next frame of its iterator only.
module Duplex {
  import opened Types
  import opened Header
  import opened Message
  import opened Multiframe
  import opened Protocol
  import opened Transfer

  /** What both ends agree on. */
  datatype Shared = Shared(mfs: MaxFrameSize, channel: ChannelId, config: ChannelConfiguration)

  /** The frame that a receiver must see next of the transfer in progress, if any. */
  datatype Track = Broken | Idle | Mid(next: FrameIter)

  datatype End = End(
    chan: ChannelState,
    ready: seq<FrameIter>,
    current: Option<FrameIter>,
    lock: Option<Header>,
    sent: seq<FrameIter>,
    // history: what the receiver is in the middle of, which requests were cancelled, which messages
    // were created, which had their last frame readied, which were received from the other end
    track: Track,
    cancelled: set<Id>,
    created: multiset<OutgoingMessage>,
    log: seq<OutgoingMessage>,
    got: seq<OutgoingMessage>)

  // ---------------------------------------------------------------- frames on their way

  datatype Side = Requests | Answers

  predicate On(side: Side, h: Header) {
    h.Frame? &&
    match side
    case Requests => h.kind == Request || h.kind == RequestPl
    case Answers => h.kind == Response || h.kind == ResponsePl || h.kind == CancelResp
  }

  predicate IsCancelReq(h: Header) {
    h.Frame? && h.kind == CancelReq
  }

  predicate HasPayload(h: Header) {
    h.Frame? && (h.kind == RequestPl || h.kind == ResponsePl)
  }

  ghost predicate Final(it: FrameIter, g: Shared) {
    it.Valid() && it.IsFinal(g.mfs)
  }

  /** Whether the message takes more than one frame. */
  ghost predicate Multi(it: FrameIter, g: Shared) {
    it.msg.Valid() && it.msg.IsMultiFrame(g.mfs)
  }

  ghost function Next(it: FrameIter, g: Shared): FrameIter {
    if it.Valid() && !it.IsFinal(g.mfs) then it.Rest(g.mfs) else it
  }

  /** A message that the channel configuration allows. */
  ghost predicate Fits(it: FrameIter, g: Shared) {
    var h, payload := it.msg.header, it.msg.payload;
    && it.Valid()
    && h.Frame? && h.channel == g.channel
    && (it.processed > 0 ==> it.msg.IsMultiFrame(g.mfs))
    && (payload.Some? <==> HasPayload(h))
    && (h.kind == RequestPl ==> |payload.value| <= g.config.maxRequestPayloadSize)
    && (h.kind == ResponsePl ==> |payload.value| <= g.config.maxResponsePayloadSize)
  }

  function Wire(e: End): seq<FrameIter> {
    e.sent + if e.current.Some? then [e.current.value] else []
  }

  function Pipe(e: End): seq<FrameIter> {
    Wire(e) + e.ready
  }

  datatype Part = First | Last | Any

  ghost predicate Counts(part: Part, side: Side, it: FrameIter, g: Shared) {
    On(side, it.msg.header) && (part == First ==> it.processed == 0) && (part == Last ==> Final(it, g))
  }

  /** The identifiers of the messages on one side whose first, last or any frame is among the entries. */
  ghost function Ids(part: Part, side: Side, its: seq<FrameIter>, g: Shared): multiset<Id> {
    if its == [] then multiset{}
    else
      (if Counts(part, side, its[0], g) then multiset{its[0].msg.header.id} else multiset{})
      + Ids(part, side, its[1..], g)
  }

  lemma {:induction false} IdsAppend(part: Part, side: Side, a: seq<FrameIter>, b: seq<FrameIter>, g: Shared)
    ensures Ids(part, side, a + b, g) == Ids(part, side, a, g) + Ids(part, side, b, g)
  {
    if a == [] {
      assert a + b == b;
    } else {
      assert (a + b)[1..] == a[1..] + b;
      IdsAppend(part, side, a[1..], b, g);
    }
  }

  lemma IdsOne(part: Part, side: Side, it: FrameIter, g: Shared)
    ensures Ids(part, side, [it], g) == if Counts(part, side, it, g) then multiset{it.msg.header.id} else multiset{}
  {
    assert [it][1..] == [];
  }

  /** Requests of which the other end has not received any frame. */
  ghost function Unstarted(e: End, g: Shared): multiset<Id> {
    Ids(First, Requests, Pipe(e), g)
  }

  /** Messages of which the other end has not received all frames. */
  ghost function Unfinished(side: Side, e: End, g: Shared): multiset<Id> {
    Ids(Last, side, Wire(e), g) + Ids(Any, side, e.ready, g)
  }

  // ---------------------------------------------------------------- the invariant

  /** The request that is being received. */
  function Partial(ch: ChannelState): set<Id> {
    if ch.receiver.InProgress? && ch.receiver.header.Frame? && ch.receiver.header.kind == RequestPl then
      {ch.receiver.header.id}
    else {}
  }

  /** The requests that have been received in full and not been answered. */
  function Complete(ch: ChannelState): set<Id> {
    ch.incoming - Partial(ch)
  }

  function Sum(a: multiset<Id>, b: multiset<Id>, c: multiset<Id>): multiset<Id> {
    a + b + c
  }

  /**
   * Where the requests of `s` are: not arrived at all, accepted by `r`, or answered and the answer
   * not arrived; and, in the second equation, not arrived in full, complete at `r`, or answered.
   */
  ghost predicate Conserved(s: End, r: End, g: Shared) {
    && multiset(s.chan.outgoing) == Sum(Unstarted(s, g), multiset(r.chan.incoming), Unfinished(Answers, r, g))
    && multiset(s.chan.outgoing) ==
         Sum(Unfinished(Requests, s, g), multiset(Complete(r.chan)), Unfinished(Answers, r, g))
    && Partial(r.chan) <= r.chan.incoming
  }

  /** The allowance left once all that is on its way has been processed, negative if it runs out. */
  ghost function Allowance(a: int, its: seq<FrameIter>, limit: nat): int
    decreases |its|
  {
    if its == [] then a else Allowance(AllowanceAfter(a, its[0], limit), its[1..], limit)
  }

  ghost function AllowanceAfter(a: int, it: FrameIter, limit: nat): int {
    if a < 0 then a
    else if it.processed == 0 && On(Requests, it.msg.header) then Min(a + 1, limit)
    else if IsCancelReq(it.msg.header) then a - 1
    else a
  }

  /** The cancellation allowance suffices for every request not yet cancelled. */
  ghost predicate Allowed(s: End, r: End, g: Shared) {
    && s.cancelled <= s.chan.outgoing
    && r.chan.allowance <= g.config.requestLimit
    && Allowance(r.chan.allowance, Pipe(s), g.config.requestLimit) >= |s.chan.outgoing - s.cancelled|
  }

  /** What the receiver expects after a frame; `Broken` if it would reject or misread it. */
  ghost function Advance(t: Track, it: FrameIter, g: Shared): Track {
    if t.Broken? then Broken
    else if it.processed > 0 then
      if t != Mid(it) then Broken else if Final(it, g) then Idle else Mid(Next(it, g))
    else if Multi(it, g) then
      if t.Idle? then Mid(Next(it, g)) else Broken
    else if t.Mid? && t.next.msg.header == it.msg.header then Broken
    else if t.Mid? && IsCancelReq(it.msg.header) && t.next.msg.header.id == it.msg.header.id then Broken
    else t
  }

  ghost function Walk(t: Track, its: seq<FrameIter>, g: Shared): Track
    decreases |its|
  {
    if its == [] then t else Walk(Advance(t, its[0], g), its[1..], g)
  }

  ghost predicate Matches(state: ReceiverState, t: Track) {
    match t
    case Broken => false
    case Idle => state == Ready
    case Mid(it) => it.Valid() && it.processed > 0 && it.msg.header.Frame? && state == Holding(it)
  }

  /** The multi-frame messages among the entries. */
  ghost function Multis(its: seq<FrameIter>, g: Shared): seq<FrameIter> {
    if its == [] then [] else (if Multi(its[0], g) then [its[0]] else []) + Multis(its[1..], g)
  }

  /**
   * The header of the multi-frame message that has not been sent in full, from the queued ones and the
   * current frame.
   */
  ghost function HeldBy(multis: seq<FrameIter>, current: Option<FrameIter>, g: Shared): Option<Header> {
    if multis != [] then Some(multis[0].msg.header)
    else if current.Some? && Multi(current.value, g) then Some(current.value.msg.header)
    else None
  }

  /** There is at most one such message, and the lock is held exactly for it. */
  ghost predicate Locked(multis: seq<FrameIter>, current: Option<FrameIter>, lock: Option<Header>, g: Shared) {
    && (current.Some? && Multi(current.value, g) && Final(current.value, g) ==> multis == [])
    && lock == HeldBy(multis, current, g)
  }

  /** A message that the receiver is in the middle of is the one queued; else at most one waits to start. */
  ghost predicate Tracked(t: Track, multis: seq<FrameIter>) {
    && !t.Broken?
    && (t.Mid? ==> multis == [t.next])
    && (t.Idle? ==> multis == [] || (|multis| == 1 && multis[0].processed == 0))
  }

  ghost predicate Clash(c: FrameIter, m: FrameIter, g: Shared) {
    IsCancelReq(c.msg.header) && Multi(m, g) && c.msg.header.id == m.msg.header.id
  }

  /** No cancellation is queued so that it would go out between two frames of a message with its id. */
  ghost predicate NoClash(its: seq<FrameIter>, g: Shared) {
    forall p, q :: 0 <= p < |its| && 0 <= q < |its| && Clash(its[p], its[q], g) ==>
      (p < q && its[q].processed == 0) || (q < p && Final(its[q], g))
  }

  /** The receiver can take all that is on its way, and the queue can be sent in turns. */
  ghost predicate Streams(s: End, r: End, g: Shared) {
    && Matches(r.chan.receiver, r.track)
    && Tracked(Walk(r.track, Wire(s), g), Multis(s.ready, g))
    && Locked(Multis(s.ready, g), s.current, s.lock, g)
    && NoClash(s.ready, g)
  }

  predicate Reported(msg: OutgoingMessage) {
    !IsCancelReq(msg.header)
  }

  /** The messages whose last frame is among the entries, other than cancellations of requests. */
  ghost function Endings(its: seq<FrameIter>, mfs: MaxFrameSize): seq<OutgoingMessage> {
    if its == [] then []
    else
      (if its[0].Valid() && its[0].IsFinal(mfs) && Reported(its[0].msg) then [its[0].msg] else [])
      + Endings(its[1..], mfs)
  }

  ghost function Messages(its: seq<FrameIter>): multiset<OutgoingMessage> {
    if its == [] then multiset{}
    else (if Reported(its[0].msg) then multiset{its[0].msg} else multiset{}) + Messages(its[1..])
  }

  /**
   * What `r` has received are the messages of `s` in the order of their last frames, and every
   * message that `s` has created is among them or on its way.
   */
  ghost predicate Delivered(s: End, r: End, g: Shared) {
    && s.log == r.got + Endings(Wire(s), g.mfs)
    && s.created == multiset(s.log) + Messages(s.ready)
  }

  ghost predicate Shape(e: End, g: Shared) {
    && e.chan.config == g.config
    && |e.chan.outgoing| <= g.config.requestLimit
    && forall it :: it in Pipe(e) ==> Fits(it, g)
  }

  /** All that holds of the messages from `s` to `r`. */
  ghost predicate Flow(s: End, r: End, g: Shared) {
    Shape(s, g) && Conserved(s, r, g) && Allowed(s, r, g) && Streams(s, r, g) && Delivered(s, r, g)
  }

  ghost predicate Inv(a: End, b: End, g: Shared) {
    Flow(a, b, g) && Flow(b, a, g)
  }

  // ---------------------------------------------------------------- the steps of a peer

  ghost function Push(e: End, msg: OutgoingMessage, g: Shared): End {
    e.(ready := e.ready + [msg.Frames()],
       lock := if Multi(msg.Frames(), g) then Some(msg.header) else e.lock,
       created := e.created + if Reported(msg) then multiset{msg} else multiset{})
  }

  ghost predicate MaySend(e: End, msg: OutgoingMessage, g: Shared) {
    Fits(msg.Frames(), g) && (Multi(msg.Frames(), g) ==> e.lock.None?)
  }

  ghost predicate MayRequest(e: End, payload: Option<Bytes>, g: Shared) {
    e.chan.AllowedToSendRequest() && MaySend(e, e.chan.CreateUncheckedRequest(g.channel, payload).1, g)
  }

  ghost function SendRequest(e: End, payload: Option<Bytes>, g: Shared): End {
    var (chan, msg) := e.chan.CreateUncheckedRequest(g.channel, payload);
    Push(e.(chan := chan), msg, g)
  }

  /** Answers, by a response or a cancellation, are for requests that have been received in full. */
  ghost predicate MayAnswer(e: End, msg: OutgoingMessage, g: Shared) {
    On(Answers, msg.header) && msg.header.id in Complete(e.chan) && MaySend(e, msg, g)
  }

  ghost function SendAnswer(e: End, msg: OutgoingMessage, g: Shared): End {
    Push(e.(chan := e.chan.(incoming := e.chan.incoming - {msg.header.id})), msg, g)
  }

  /** No message with this identifier has more than one frame left to send. */
  ghost predicate Undisturbed(its: seq<FrameIter>, id: Id, g: Shared) {
    forall it :: it in its && Multi(it, g) && it.msg.header.id == id ==> Final(it, g)
  }

  function CancelMsg(id: Id, g: Shared): OutgoingMessage {
    OutgoingMessage(Frame(CancelReq, g.channel, id), None)
  }

  ghost predicate MayCancel(e: End, id: Id, g: Shared) {
    id in e.chan.outgoing && id !in e.cancelled && Undisturbed(e.ready, id, g)
  }

  ghost function SendCancel(e: End, id: Id, g: Shared): End {
    Push(e.(cancelled := e.cancelled + {id}), CancelMsg(id, g), g)
  }

  /** The next frame leaves the ready queue; what remains of its message goes to the back. */
  ghost function ReadyNext(e: End, g: Shared): End
    requires e.ready != []
  {
    var it := e.ready[0];
    e.(current := Some(it),
       ready := e.ready[1..] + if Final(it, g) then [] else [Next(it, g)],
       log := e.log + if Final(it, g) && Reported(it.msg) then [it.msg] else [])
  }

  /** The current frame has been sent; if it ended the multi-frame message, the lock is released. */
  ghost function SendCurrent(e: End, g: Shared): End
    requires e.current.Some?
  {
    var it := e.current.value;
    e.(current := None,
       sent := e.sent + [it],
       lock := if Final(it, g) && e.lock == Some(it.msg.header) then None else e.lock)
  }

  /** The message that a read reports. */
  function MessageOf(read: CompletedRead): Option<OutgoingMessage> {
    match read
    case NewRequest(c, id, payload) =>
      Some(OutgoingMessage(Frame(if payload.Some? then RequestPl else Request, c, id), payload))
    case ReceivedResponse(c, id, payload) =>
      Some(OutgoingMessage(Frame(if payload.Some? then ResponsePl else Response, c, id), payload))
    case ResponseCancellation(c, id) => Some(OutgoingMessage(Frame(CancelResp, c, id), None))
    case RequestCancellation(_, _) => None
    case ErrorReceived(_, _) => None
  }

  /** What `r` does with the first frame on its way from `s`, by the parser. */
  function Receive(r: End, s: End, g: Shared): Passed
    requires s.sent != [] && s.sent[0].Valid() && s.sent[0].msg.header.Frame? && r.chan.receiver.Valid()
  {
    HeaderParses(s.sent[0], g.mfs, []);
    ChannelPass(r.chan, s.sent[0].msg.header, FrameBytes(s.sent[0], g.mfs), g.mfs)
  }

  function AfterRead(r: End, read: Option<CompletedRead>): End {
    if read.None? then r
    else
      r.(got := r.got + (if MessageOf(read.value).Some? then [MessageOf(read.value).value] else []),
         cancelled :=
           if read.value.ReceivedResponse? || read.value.ResponseCancellation? then r.cancelled - {read.value.id}
           else r.cancelled)
  }

  ghost function Received(r: End, s: End, g: Shared): End
    requires s.sent != [] && s.sent[0].Valid() && s.sent[0].msg.header.Frame? && r.chan.receiver.Valid()
  {
    var p := Receive(r, s, g);
    AfterRead(r.(chan := p.channel, track := Advance(r.track, s.sent[0], g)),
              if p.outcome.Success? then p.outcome.value else None)
  }

  ghost function Shortened(s: End): End
    requires s.sent != []
  {
    s.(sent := s.sent[1..])
  }
}
