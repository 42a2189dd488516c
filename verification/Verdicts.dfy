// What the parser makes of any frame, from a peer that keeps to the protocol or from one that does not:
// which frames are refused, and with which error, how many bytes it waits for, and what it does with
// the frames that it takes. No stream of bytes makes it hold more than the limits allow.
module Verdicts {
  import opened Types
  import opened Header
  import opened Message
  import opened Multiframe
  import opened Protocol
  import Varint

  // ---------------------------------------------------------------- the length of a frame

  predicate IsPayloadKind(kind: Kind) {
    kind == RequestPl || kind == ResponsePl
  }

  /** The largest payload that may come with a frame of this kind. */
  function PayloadLimit(config: ChannelConfiguration, kind: Kind): nat {
    if kind == RequestPl then config.maxRequestPayloadSize else config.maxResponsePayloadSize
  }

  /** The error that answers a larger one. */
  function TooLargeError(kind: Kind): ErrorKind {
    if kind == RequestPl then RequestTooLarge else ResponseTooLarge
  }

  /** The frame belongs to the message that is being received. */
  predicate BelongsTo(ch: ChannelState, h: Header) {
    ch.receiver.InProgress? && ch.receiver.header == h
  }

  /** The number of bytes of a frame that continues a message. */
  function NextLength(ch: ChannelState, mfs: MaxFrameSize): int
    requires ch.receiver.InProgress?
  {
    4 + Min(mfs - 4, ch.receiver.total - |ch.receiver.payload|)
  }

  /** The number of bytes of a first frame, whose length is declared in a prefix of some bytes. */
  function FirstLength(prefix: nat, declared: nat, mfs: MaxFrameSize): int {
    Min(mfs, 4 + prefix + declared)
  }

  /** How many bytes the parser waits for before it says anything about a frame. */
  function Missing(ch: ChannelState, h: Header, buffer: Bytes, mfs: MaxFrameSize): int
    requires |buffer| >= 4 && h.Frame?
  {
    if !IsPayloadKind(h.kind) || (h.kind == ResponsePl && h.id !in ch.outgoing) then 0
    else if BelongsTo(ch, h) then NextLength(ch, mfs) - |buffer|
    else
      match Varint.DecodeVarint(buffer[4..])
      case Incomplete(_) => 1
      case Fatal(_) => 0
      case Success(d) =>
        if d.value > PayloadLimit(ch.config, h.kind) then 0 else FirstLength(d.offset, d.value, mfs) - |buffer|
  }

  /** Why a frame is refused, if it is: the first of the reasons that applies. */
  function Refusal(ch: ChannelState, h: Header, buffer: Bytes, mfs: MaxFrameSize): Option<ErrorKind>
    requires |buffer| >= 4 && h.Frame?
  {
    match h.kind
    case Request => Inadmissible(ch, h.id)
    case Response => if h.id !in ch.outgoing then Some(FictitiousRequest) else None
    case CancelReq => if ch.allowance == 0 then Some(CancellationLimitExceeded) else None
    case CancelResp => if h.id !in ch.outgoing then Some(FictitiousCancel) else None
    case RequestPl =>
      if BelongsTo(ch, h) then None
      else if BadStart(ch, buffer, mfs, ch.config.maxRequestPayloadSize, RequestTooLarge).Some? then
        BadStart(ch, buffer, mfs, ch.config.maxRequestPayloadSize, RequestTooLarge)
      else Inadmissible(ch, h.id)
    case ResponsePl =>
      if h.id !in ch.outgoing then Some(FictitiousRequest)
      else if BelongsTo(ch, h) then None
      else BadStart(ch, buffer, mfs, ch.config.maxResponsePayloadSize, ResponseTooLarge)
  }

  /** A request may not be admitted: there are too many, or there is one with its identifier. */
  function Inadmissible(ch: ChannelState, id: Id): Option<ErrorKind> {
    if |ch.incoming| >= ch.config.requestLimit then Some(RequestLimitExceeded)
    else if id in ch.incoming then Some(DuplicateRequest)
    else None
  }

  /** No message may start with this frame: its length is none, or too large, or another message is unfinished. */
  function BadStart(ch: ChannelState, buffer: Bytes, mfs: MaxFrameSize, limit: nat,
                    tooLarge: ErrorKind): Option<ErrorKind>
    requires |buffer| >= 4
  {
    match Varint.DecodeVarint(buffer[4..])
    case Incomplete(_) => None
    case Fatal(_) => Some(BadVarInt)
    case Success(d) =>
      if d.value > limit then Some(tooLarge)
      else if ch.receiver.InProgress? && 4 + d.offset + d.value > mfs then Some(ErrorKind.InProgress)
      else None
  }

  // ---------------------------------------------------------------- the receiver

  /** A length prefix has one to five bytes of the buffer, and what is not one asks for a byte. */
  lemma VarintShape(s: Bytes)
    ensures var d := Varint.DecodeVarint(s);
      && (d.Incomplete? ==> d.n == 1)
      && (d.Success? ==> 1 <= d.value.offset <= 5 && d.value.offset <= |s|)
  {
    hide Varint.DecodeVarint;
    Varint.DecodeMeaning(s);
    var d := Varint.DecodeVarint(s);
    if d.Success? {
      assert Varint.DecodeVarint(s) == Success(Varint.ParsedU32(d.value.offset, d.value.value));
    }
  }

  lemma StartIsDetected(h: Header, buffer: Bytes, mfs: MaxFrameSize, limit: u32, tooLarge: ErrorKind)
    requires |buffer| >= 4
    ensures var r := DetectStartingSegment(h, buffer, mfs, limit, tooLarge);
      match Varint.DecodeVarint(buffer[4..])
      case Incomplete(_) => r == Incomplete(1)
      case Fatal(_) => r == Fatal(OutgoingMessage(Error(BadVarInt, h.channel, h.id), None))
      case Success(d) =>
        var length := FirstLength(d.offset, d.value, mfs);
        if d.value > limit then r == Fatal(OutgoingMessage(Error(tooLarge, h.channel, h.id), None))
        else if |buffer| < length then r == Incomplete(length - |buffer|)
        else
          4 + d.offset <= length <= |buffer| &&
          r == Success(InitialFrameData(4 + d.offset, length - (4 + d.offset), d.value))
  {
    hide Varint.DecodeVarint;
    VarintShape(buffer[4..]);
  }

  lemma FirstFrameIs(state: ReceiverState, h: Header, buffer: Bytes, mfs: MaxFrameSize, limit: u32, tooLarge: ErrorKind)
    requires |buffer| >= 4 && state.Valid() && h.Frame? && state.InProgressHeader() != Some(h)
    ensures var a := AcceptFrame(state, h, buffer, mfs, limit, tooLarge);
      match Varint.DecodeVarint(buffer[4..])
      case Incomplete(_) => a == Accepted(state, 0, Incomplete(1))
      case Fatal(_) => a == Accepted(state, 0, Fatal(OutgoingMessage(Error(BadVarInt, h.channel, h.id), None)))
      case Success(d) =>
        var length := FirstLength(d.offset, d.value, mfs);
        if d.value > limit then
          a == Accepted(state, 0, Fatal(OutgoingMessage(Error(tooLarge, h.channel, h.id), None)))
        else if |buffer| < length then a == Accepted(state, 0, Incomplete(length - |buffer|))
        else
          && 4 + d.offset <= length <= |buffer|
          && var segment := buffer[4 + d.offset..length];
          if 4 + d.offset + d.value <= mfs then
            |segment| == d.value && a == Accepted(state, length, Success(SingleFrame(segment)))
          else if state.Ready? then
            a == Accepted(ReceiverState.InProgress(h, segment, d.value), length, Success(NewMultiFrame))
          else a == Accepted(state, 0, Fatal(OutgoingMessage(Error(ErrorKind.InProgress, h.channel, h.id), None)))
  {
    hide Varint.DecodeVarint; hide DetectStartingSegment;
    VarintShape(buffer[4..]);
    StartIsDetected(h, buffer, mfs, limit, tooLarge);
  }

  lemma NextFrameIs(state: ReceiverState, h: Header, buffer: Bytes, mfs: MaxFrameSize, limit: u32, tooLarge: ErrorKind)
    requires |buffer| >= 4 && state.Valid() && h.Frame? && state.InProgress? && state.header == h
    ensures var a := AcceptFrame(state, h, buffer, mfs, limit, tooLarge);
      var length := 4 + Min(mfs - 4, state.total - |state.payload|);
      if |buffer| < length then a == Accepted(state, 0, Incomplete(length - |buffer|))
      else
        4 < length <= |buffer| &&
        var payload := state.payload + buffer[4..length];
        if |payload| == state.total then a == Accepted(Ready, length, Success(CompletedMultiFrame(payload)))
        else a == Accepted(ReceiverState.InProgress(h, payload, state.total), length, Success(IntermediateMultiFrame))
  {
  }

  // ---------------------------------------------------------------- every frame

  /**
   * For every state of a channel, every header and every buffer: the parser waits for exactly the bytes
   * that are missing; then it refuses the frame if and only if there is a reason, and says which one.
   */
  lemma EveryFrameIsJudged(ch: ChannelState, h: Header, buffer: Bytes, mfs: MaxFrameSize)
    requires |buffer| >= 4 && ch.receiver.Valid() && h.Frame?
    ensures var o := ChannelPass(ch, h, buffer, mfs).outcome;
      var missing, refusal := Missing(ch, h, buffer, mfs), Refusal(ch, h, buffer, mfs);
      if missing > 0 then o == Incomplete(missing)
      else if refusal.Some? then o == Fatal(OutgoingMessage(Error(refusal.value, h.channel, h.id), None))
      else o.Success?
  {
    hide AcceptFrame; hide Varint.DecodeVarint; hide FirstLength; hide Min;
    if IsPayloadKind(h.kind) {
      var limit, tooLarge := PayloadLimit(ch.config, h.kind), TooLargeError(h.kind);
      if BelongsTo(ch, h) {
        NextFrameIs(ch.receiver, h, buffer, mfs, limit, tooLarge);
      } else {
        FirstFrameIs(ch.receiver, h, buffer, mfs, limit, tooLarge);
      }
    }
  }

  /** The channel with one more request of the peer, which may be cancelled. */
  function WithRequest(ch: ChannelState, id: Id): ChannelState {
    ch.(incoming := ch.incoming + {id},
        allowance := if ch.allowance + 1 <= ch.config.requestLimit then ch.allowance + 1 else ch.allowance)
  }

  /** What has been received of a message, and what its length is, once the frame has been taken. */
  datatype Transfer = Transfer(length: int, stored: Bytes, total: u32)

  function TransferOf(ch: ChannelState, h: Header, buffer: Bytes, mfs: MaxFrameSize): Transfer
    requires |buffer| >= 4 && ch.receiver.Valid()
  {
    if BelongsTo(ch, h) then
      var length := NextLength(ch, mfs);
      var segment := if 4 <= length <= |buffer| then buffer[4..length] else [];
      Transfer(length, ch.receiver.payload + segment, ch.receiver.total)
    else
      match Varint.DecodeVarint(buffer[4..])
      case Success(d) =>
        var length := FirstLength(d.offset, d.value, mfs);
        Transfer(length, if 4 + d.offset <= length <= |buffer| then buffer[4 + d.offset..length] else [], d.value)
      case _ => Transfer(0, [], 0)
  }

  /** The channel, and what is reported, after a frame with a payload that is taken. */
  function AfterTransfer(ch: ChannelState, h: Header, t: Transfer): (ChannelState, Option<CompletedRead>)
    requires h.Frame?
  {
    var done, starts := |t.stored| == t.total, !BelongsTo(ch, h);
    var receiver := if !done then ReceiverState.InProgress(h, t.stored, t.total)
                    else if starts then ch.receiver else Ready;
    if h.kind == RequestPl then
      ((if starts then WithRequest(ch, h.id) else ch).(receiver := receiver),
       if done then Some(NewRequest(h.channel, h.id, Some(t.stored))) else None)
    else
      (ch.(receiver := receiver, outgoing := if done then ch.outgoing - {h.id} else ch.outgoing),
       if done then Some(ReceivedResponse(h.channel, h.id, Some(t.stored))) else None)
  }

  /** A frame that is not refused: the whole new state of the channel, the bytes used, and what is reported. */
  lemma EveryFrameIsTaken(ch: ChannelState, h: Header, buffer: Bytes, mfs: MaxFrameSize)
    requires |buffer| >= 4 && ch.receiver.Valid() && h.Frame?
    requires Missing(ch, h, buffer, mfs) <= 0 && Refusal(ch, h, buffer, mfs).None?
    ensures var r, t := ChannelPass(ch, h, buffer, mfs), TransferOf(ch, h, buffer, mfs);
      match h.kind
      case Request => r == Passed(WithRequest(ch, h.id), 4, Success(Some(NewRequest(h.channel, h.id, None))))
      case Response =>
        r == Passed(ch.(outgoing := ch.outgoing - {h.id}), 4, Success(Some(ReceivedResponse(h.channel, h.id, None))))
      case CancelResp =>
        r == Passed(ch.(outgoing := ch.outgoing - {h.id}), 4, Success(Some(ResponseCancellation(h.channel, h.id))))
      case CancelReq =>
        var dropped := ch.receiver.InProgress? && ch.receiver.header.id == h.id;
        var read := if h.id in ch.incoming && !dropped then Some(RequestCancellation(h.channel, h.id)) else None;
        && r.channel.allowance + 1 == ch.allowance
        && r == Passed(ch.(allowance := r.channel.allowance,
                           receiver := if dropped then Ready else ch.receiver,
                           incoming := if dropped then ch.incoming - {h.id} else ch.incoming),
                       4, Success(read))
      case _ =>
        var (after, read) := AfterTransfer(ch, h, t);
        |t.stored| <= t.total && r == Passed(after, t.length, Success(read))
  {
    hide AcceptFrame; hide Varint.DecodeVarint; hide FirstLength; hide PassRequestPl; hide PassResponsePl;
    hide TransferOf; hide AfterTransfer;
    match h.kind
    case RequestPl => PayloadIsTaken(ch, h, buffer, mfs);
    case ResponsePl => PayloadIsTaken(ch, h, buffer, mfs);
    case _ =>
  }

  lemma PayloadIsTaken(ch: ChannelState, h: Header, buffer: Bytes, mfs: MaxFrameSize)
    requires |buffer| >= 4 && ch.receiver.Valid() && h.Frame? && IsPayloadKind(h.kind)
    requires Missing(ch, h, buffer, mfs) <= 0 && Refusal(ch, h, buffer, mfs).None?
    ensures var r, t := ChannelPass(ch, h, buffer, mfs), TransferOf(ch, h, buffer, mfs);
      var (after, read) := AfterTransfer(ch, h, t);
      |t.stored| <= t.total && r == Passed(after, t.length, Success(read))
  {
    hide AcceptFrame; hide Varint.DecodeVarint; hide FirstLength;
    var limit, tooLarge := PayloadLimit(ch.config, h.kind), TooLargeError(h.kind);
    if BelongsTo(ch, h) {
      NextFrameIs(ch.receiver, h, buffer, mfs, limit, tooLarge);
    } else {
      FirstFrameIs(ch.receiver, h, buffer, mfs, limit, tooLarge);
      LongOrWhole(buffer, mfs);
    }
  }

  /** The segment of a first frame is the whole payload exactly if that fits. */
  lemma LongOrWhole(buffer: Bytes, mfs: MaxFrameSize)
    requires |buffer| >= 4
    ensures var d := Varint.DecodeVarint(buffer[4..]);
      d.Success? ==> (FirstLength(d.value.offset, d.value.value, mfs) - (4 + d.value.offset) == d.value.value <==>
                      4 + d.value.offset + d.value.value <= mfs)
    ensures var d := Varint.DecodeVarint(buffer[4..]);
      d.Success? ==> FirstLength(d.value.offset, d.value.value, mfs) - (4 + d.value.offset) <= d.value.value
  {
    hide Varint.DecodeVarint;
  }

  /**
   * A frame that is refused is not used up and changes nothing; only if the request cannot be admitted
   * that a payload comes with, the start of the payload may already have been taken.
   */
  lemma RefusedFrame(ch: ChannelState, h: Header, buffer: Bytes, mfs: MaxFrameSize)
    requires |buffer| >= 4 && ch.receiver.Valid() && h.Frame?
    requires Missing(ch, h, buffer, mfs) <= 0 && Refusal(ch, h, buffer, mfs).Some?
    ensures var r, why := ChannelPass(ch, h, buffer, mfs), Refusal(ch, h, buffer, mfs).value;
      && r.channel == ch.(receiver := r.channel.receiver)
      && (h.kind == RequestPl && (why == RequestLimitExceeded || why == DuplicateRequest) ==>
            r.consumed == TransferOf(ch, h, buffer, mfs).length)
      && (!(h.kind == RequestPl && (why == RequestLimitExceeded || why == DuplicateRequest)) ==>
            r.channel == ch && r.consumed == 0)
  {
    hide AcceptFrame; hide Varint.DecodeVarint; hide FirstLength; hide Min;
    if IsPayloadKind(h.kind) {
      var limit, tooLarge := PayloadLimit(ch.config, h.kind), TooLargeError(h.kind);
      if BelongsTo(ch, h) {
        NextFrameIs(ch.receiver, h, buffer, mfs, limit, tooLarge);
      } else {
        FirstFrameIs(ch.receiver, h, buffer, mfs, limit, tooLarge);
      }
    }
  }

  // ---------------------------------------------------------------- every buffer

  /** Why an error frame is refused: its data has no length, or does not fit into a frame. */
  function ErrorRefusal(h: Header, buffer: Bytes, mfs: MaxFrameSize): Option<ErrorKind>
    requires |buffer| >= 4 && h.Error?
  {
    if h.errorKind != Other then None
    else
      match Varint.DecodeVarint(buffer[4..])
      case Incomplete(_) => None
      case Fatal(_) => Some(BadVarInt)
      case Success(d) => if 4 + d.offset + d.value > mfs then Some(SegmentViolation) else None
  }

  function ErrorMissing(h: Header, buffer: Bytes, mfs: MaxFrameSize): int
    requires |buffer| >= 4 && h.Error?
  {
    if h.errorKind != Other then 0
    else
      match Varint.DecodeVarint(buffer[4..])
      case Incomplete(_) => 1
      case Fatal(_) => 0
      case Success(d) => if 4 + d.offset + d.value > mfs then 0 else 4 + d.offset + d.value - |buffer|
  }

  /** Error frames, in the same way; the data reported is what follows its length. */
  lemma EveryErrorIsJudged(p: ProtocolState, h: Header, buffer: Bytes)
    requires |buffer| >= 4 && h.Error?
    ensures var r := PassError(p, h, buffer);
      var missing, refusal := ErrorMissing(h, buffer, p.mfs), ErrorRefusal(h, buffer, p.mfs);
      if missing > 0 then r == Step(p, 0, Incomplete(missing))
      else if refusal.Some? then r == Step(p, 0, Fatal(OutgoingMessage(Error(refusal.value, h.channel, h.id), None)))
      else if h.errorKind != Other then r == Step(p, 4, Success(Some(ErrorReceived(h, None))))
      else
        var d := Varint.DecodeVarint(buffer[4..]).value;
        var end := 4 + d.offset + d.value;
        end <= |buffer| && r == Step(p, end, Success(Some(ErrorReceived(h, Some(buffer[4 + d.offset..end])))))
  {
    hide Varint.DecodeVarint;
    VarintShape(buffer[4..]);
  }

  /** A header that is a frame for a channel that there is. */
  predicate ForChannel(p: ProtocolState, buffer: Bytes)
    requires |buffer| >= 4
  {
    var h := Parse(buffer[..4]);
    h.Some? && h.value.Frame? && h.value.channel < |p.channels|
  }

  /**
   * For every state of the parser and every buffer: it waits for a header; what is none is refused
   * without naming a channel, and so is a frame for a channel that there is not. An error frame and a
   * frame for a channel are judged as above, and nothing happens to the other channels.
   */
  lemma EveryBufferIsJudged(p: ProtocolState, buffer: Bytes)
    requires p.Valid()
    ensures var r := Pass(p, buffer);
      if |buffer| < 4 then r == Step(p, 0, Incomplete(4 - |buffer|))
      else if Parse(buffer[..4]).None? then r == Step(p, 0, Fatal(OutgoingMessage(Error(InvalidHeader, 0, 0), None)))
      else
        var h := Parse(buffer[..4]).value;
        if h.Error? then r == PassError(p, h, buffer)
        else if !ForChannel(p, buffer) then
          r == Step(p, 0, Fatal(OutgoingMessage(Error(ErrorKind.InvalidChannel, h.channel, h.id), None)))
        else
          var c := ChannelPass(p.channels[h.channel], h, buffer, p.mfs);
          r == Step(p.(channels := p.channels[h.channel := c.channel]), c.consumed, c.outcome)
  {
    hide ChannelPass; hide PassError; hide Parse;
  }

  // ---------------------------------------------------------------- what the parser holds

  /**
   * A channel tracks no more requests than the limit, allows no more cancellations, and holds less
   * than a payload of the largest size for its kind.
   */
  ghost predicate Within(ch: ChannelState) {
    && |ch.incoming| <= ch.config.requestLimit
    && ch.allowance <= ch.config.requestLimit
    && (ch.receiver.InProgress? ==>
          && ch.receiver.header.Frame? && IsPayloadKind(ch.receiver.header.kind)
          && 0 < |ch.receiver.payload| < ch.receiver.total
          && ch.receiver.total <= PayloadLimit(ch.config, ch.receiver.header.kind))
  }

  ghost predicate AllWithin(p: ProtocolState) {
    p.Valid() && forall c :: 0 <= c < |p.channels| ==> Within(p.channels[c])
  }

  /** Every frame keeps a channel within its limits, whether it is taken or refused. */
  lemma StaysWithin(ch: ChannelState, h: Header, buffer: Bytes, mfs: MaxFrameSize)
    requires |buffer| >= 4 && ch.receiver.Valid() && h.Frame? && Within(ch)
    ensures Within(ChannelPass(ch, h, buffer, mfs).channel)
  {
    hide AcceptFrame;
    Admitted(ch.incoming, h.id);
    if IsPayloadKind(h.kind) {
      ReceiverWithin(ch, h, buffer, mfs);
    }
  }

  lemma Admitted(incoming: set<Id>, id: Id)
    ensures |incoming + {id}| <= |incoming| + 1 && |incoming - {id}| <= |incoming|
  {
    if id in incoming {
      assert incoming + {id} == incoming;
      assert incoming == (incoming - {id}) + {id};
    } else {
      assert incoming - {id} == incoming;
    }
  }

  lemma ReceiverWithin(ch: ChannelState, h: Header, buffer: Bytes, mfs: MaxFrameSize)
    requires |buffer| >= 4 && ch.receiver.Valid() && h.Frame? && IsPayloadKind(h.kind) && Within(ch)
    ensures var limit, tooLarge := PayloadLimit(ch.config, h.kind), TooLargeError(h.kind);
      var state := AcceptFrame(ch.receiver, h, buffer, mfs, limit, tooLarge).state;
      state.InProgress? ==>
        && state.header.Frame? && IsPayloadKind(state.header.kind)
        && state.total <= PayloadLimit(ch.config, state.header.kind)
  {
    hide AcceptFrame; hide Varint.DecodeVarint; hide FirstLength; hide Min;
    var tooLarge := TooLargeError(h.kind);
    if BelongsTo(ch, h) {
      NextFrameIs(ch.receiver, h, buffer, mfs, PayloadLimit(ch.config, h.kind), tooLarge);
    } else {
      FirstFrameIs(ch.receiver, h, buffer, mfs, PayloadLimit(ch.config, h.kind), tooLarge);
    }
  }

  lemma PassStaysWithin(p: ProtocolState, buffer: Bytes)
    requires AllWithin(p)
    ensures AllWithin(Pass(p, buffer).state)
  {
    hide ChannelPass; hide PassError; hide Parse; hide Within;
    if |buffer| >= SIZE {
      var h := Parse(buffer[..SIZE]);
      if h.Some? && h.value.Frame? && p.Knows(h.value.channel) {
        StaysWithin(p.channels[h.value.channel], h.value, buffer, p.mfs);
      }
    }
  }

  /** No bytes whatever make the parser hold more than the limits allow. */
  lemma {:induction false} NothingExceedsLimits(p: ProtocolState, buffer: Bytes)
    requires AllWithin(p)
    ensures AllWithin(ProcessIncoming(p, buffer).state)
    decreases |buffer|
  {
    hide Pass; hide AllWithin;
    assert p.Valid() by { WithinIsValid(p); }
    var step := Pass(p, buffer);
    PassStaysWithin(p, buffer);
    if step.outcome.Success? && step.outcome.value.None? {
      NothingExceedsLimits(step.state, buffer[step.consumed..]);
    }
  }

  lemma WithinIsValid(p: ProtocolState)
    requires AllWithin(p)
    ensures p.Valid()
  {
  }

  lemma NewIsWithin(configs: seq<ChannelConfiguration>, mfs: MaxFrameSize)
    requires |configs| <= 0x100
    ensures AllWithin(ProtocolState(seq(|configs|, c requires 0 <= c < |configs| => NewChannel(configs[c])), mfs))
  {
  }

  /** A channel that tracks no request of the peer that it did not track before. */
  lemma FewerStaysWithin(p: ProtocolState, c: ChannelId, after: ChannelState)
    requires AllWithin(p) && p.Knows(c)
    requires after == p.channels[c].(incoming := after.incoming, outgoing := after.outgoing,
                                     prevRequestId := after.prevRequestId)
    requires after.incoming <= p.channels[c].incoming
    ensures AllWithin(p.(channels := p.channels[c := after]))
  {
    Subset(after.incoming, p.channels[c].incoming);
  }

  /** Nor does the local endpoint, whatever messages it creates. */
  lemma CreatingStaysWithin(p: ProtocolState, channel: ChannelId, id: Id, payload: Option<Bytes>)
    requires AllWithin(p)
    ensures AllWithin(CreateRequest(p, channel, payload).state)
    ensures AllWithin(CreateResponse(p, channel, id, payload).state)
    ensures AllWithin(CancelRequest(p, channel, id).state)
    ensures AllWithin(CancelResponse(p, channel, id).state)
  {
    hide AllWithin; hide NextId;
    if p.Knows(channel) {
      var ch := p.channels[channel];
      FewerStaysWithin(p, channel, ch.(incoming := ch.incoming - {id}));
      FewerStaysWithin(p, channel, ch.CreateUncheckedRequest(channel, payload).0);
    }
  }
}
