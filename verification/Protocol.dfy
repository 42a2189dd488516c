// The protocol state machine as functions on values: what one pass of the parser does to a channel,
// and what creating a message does. The classes in JulietProtocol.dfy implement these functions.
module Protocol {
  import opened Types
  import opened Header
  import opened Message
  import opened Multiframe
  import Varint

  const ID_SPACE := 0x1_0000

  datatype ChannelConfiguration = ChannelConfiguration(
    requestLimit: u16,
    maxRequestPayloadSize: u32,
    maxResponsePayloadSize: u32)

  /** A successful read from the peer. */
  datatype CompletedRead =
    | ErrorReceived(header: Header, data: Option<Bytes>)
    | NewRequest(channel: ChannelId, id: Id, payload: Option<Bytes>)
    | ReceivedResponse(channel: ChannelId, id: Id, payload: Option<Bytes>)
    | RequestCancellation(channel: ChannelId, id: Id)
    | ResponseCancellation(channel: ChannelId, id: Id)

  datatype LocalProtocolViolation =
    | WouldExceedRequestLimit(limit: u16)
    | InvalidChannel(channel: ChannelId, channelCount: nat)
    | PayloadExceedsLimit(payloadLength: nat, payloadLimit: nat)
    | ErrorPayloadIsMultiFrame(payloadLength: nat, maxFrameSize: nat)

  // ---------------------------------------------------------------- identifiers

  /** The identifier `d` places after `prev`, wrapping around. */
  function CyclicAdd(prev: Id, d: nat): Id {
    (prev + d) % ID_SPACE
  }

  /** How far after `prev` the next identifier outside `used` is, starting to look at `d`. */
  function Distance(used: set<Id>, prev: Id, d: nat): (r: nat)
    requires 1 <= d <= ID_SPACE
    ensures d <= r <= ID_SPACE
    decreases ID_SPACE - d
  {
    if d == ID_SPACE || CyclicAdd(prev, d) !in used then d else Distance(used, prev, d + 1)
  }

  function NextId(used: set<Id>, prev: Id): Id {
    CyclicAdd(prev, Distance(used, prev, 1))
  }

  // ---------------------------------------------------------------- channels

  datatype ChannelState = ChannelState(
    incoming: set<Id>,
    outgoing: set<Id>,
    receiver: ReceiverState,
    allowance: nat,
    config: ChannelConfiguration,
    prevRequestId: Id)
  {
    predicate IsAtMaxIncomingRequests() {
      |incoming| >= config.requestLimit
    }

    predicate AllowedToSendRequest() {
      |outgoing| < config.requestLimit
    }

    /** Tracks a new request from the peer. */
    function Admit(id: Id): ChannelState {
      this.(incoming := incoming + {id},
            allowance := if allowance < config.requestLimit then allowance + 1 else allowance)
    }

    /** Picks an identifier for a request; fails only if the identifier space is used up. */
    function GenerateRequestId(): (ChannelState, Option<Id>) {
      if |outgoing| == 0xffff then (this, None)
      else var id := NextId(outgoing, prevRequestId); (this.(prevRequestId := id), Some(id))
    }

    function CreateUncheckedRequest(channelId: ChannelId, payload: Option<Bytes>): (ChannelState, OutgoingMessage) {
      var (ch, generated) := GenerateRequestId();
      var id := if generated.Some? then generated.value else 0;
      (ch.(outgoing := ch.outgoing + {id}),
       OutgoingMessage(Frame(if payload.Some? then RequestPl else Request, channelId, id), payload))
    }

    /** Forgets the transfer that a cancellation names, and the request that came with it. */
    function DropTransfer(id: Id): ChannelState {
      if receiver.InProgress? && receiver.header.id == id then
        this.(receiver := Ready, incoming := incoming - {id})
      else this
    }
  }

  function NewChannel(config: ChannelConfiguration): ChannelState {
    ChannelState({}, {}, Ready, 0, config, 0)
  }

  /** One pass of the parser over a frame of one channel: the new state, how much of the buffer is used, the result. */
  datatype Passed = Passed(
    channel: ChannelState,
    consumed: nat,
    outcome: Outcome<Option<CompletedRead>, OutgoingMessage>)

  function PassRequest(ch: ChannelState, header: Header): Passed {
    if ch.IsAtMaxIncomingRequests() then Passed(ch, 0, Fatal(ErrMsg(header, RequestLimitExceeded)))
    else if header.id in ch.incoming then Passed(ch, 0, Fatal(ErrMsg(header, DuplicateRequest)))
    else Passed(ch.Admit(header.id), SIZE, Success(Some(NewRequest(header.channel, header.id, None))))
  }

  function PassResponse(ch: ChannelState, header: Header): Passed {
    if header.id !in ch.outgoing then Passed(ch, 0, Fatal(ErrMsg(header, FictitiousRequest)))
    else
      Passed(ch.(outgoing := ch.outgoing - {header.id}), SIZE,
             Success(Some(ReceivedResponse(header.channel, header.id, None))))
  }

  /** What follows once the receiver has taken a frame of a request. */
  function AdmitFrame(ch: ChannelState, header: Header, consumed: nat, frame: CompletedFrame): Passed {
    if frame.WasNew() && ch.IsAtMaxIncomingRequests() then
      Passed(ch, consumed, Fatal(ErrMsg(header, RequestLimitExceeded)))
    else if frame.WasNew() && header.id in ch.incoming then
      Passed(ch, consumed, Fatal(ErrMsg(header, DuplicateRequest)))
    else
      Passed(if frame.WasNew() then ch.Admit(header.id) else ch, consumed,
             Success(if frame.IntoCompletedPayload().Some? then
                       Some(NewRequest(header.channel, header.id, frame.IntoCompletedPayload()))
                     else None))
  }

  function PassRequestPl(ch: ChannelState, header: Header, buffer: Bytes, mfs: MaxFrameSize): Passed
    requires |buffer| >= SIZE && ch.receiver.Valid() && header.Frame?
  {
    var a := AcceptFrame(ch.receiver, header, buffer, mfs, ch.config.maxRequestPayloadSize, RequestTooLarge);
    match a.outcome
    case Incomplete(n) => Passed(ch, 0, Incomplete(n))
    case Fatal(e) => Passed(ch, 0, Fatal(e))
    case Success(frame) => AdmitFrame(ch.(receiver := a.state), header, a.consumed, frame)
  }

  function PassResponsePl(ch: ChannelState, header: Header, buffer: Bytes, mfs: MaxFrameSize): Passed
    requires |buffer| >= SIZE && ch.receiver.Valid() && header.Frame?
  {
    if header.id !in ch.outgoing then Passed(ch, 0, Fatal(ErrMsg(header, FictitiousRequest)))
    else
      var a := AcceptFrame(ch.receiver, header, buffer, mfs, ch.config.maxResponsePayloadSize, ResponseTooLarge);
      match a.outcome
      case Incomplete(n) => Passed(ch, 0, Incomplete(n))
      case Fatal(e) => Passed(ch, 0, Fatal(e))
      case Success(frame) =>
        if frame.IntoCompletedPayload().Some? then
          Passed(ch.(receiver := a.state, outgoing := ch.outgoing - {header.id}), a.consumed,
                 Success(Some(ReceivedResponse(header.channel, header.id, frame.IntoCompletedPayload()))))
        else Passed(ch.(receiver := a.state), a.consumed, Success(None))
  }

  function PassCancelReq(ch: ChannelState, header: Header): Passed {
    if ch.allowance == 0 then Passed(ch, 0, Fatal(ErrMsg(header, CancellationLimitExceeded)))
    else
      var rest := ch.(allowance := ch.allowance - 1).DropTransfer(header.id);
      Passed(rest, SIZE,
             Success(if header.id in rest.incoming then Some(RequestCancellation(header.channel, header.id)) else None))
  }

  function PassCancelResp(ch: ChannelState, header: Header): Passed {
    if header.id !in ch.outgoing then Passed(ch, 0, Fatal(ErrMsg(header, FictitiousCancel)))
    else
      Passed(ch.(outgoing := ch.outgoing - {header.id}), SIZE,
             Success(Some(ResponseCancellation(header.channel, header.id))))
  }

  function ChannelPass(ch: ChannelState, header: Header, buffer: Bytes, mfs: MaxFrameSize): (r: Passed)
    requires |buffer| >= SIZE && ch.receiver.Valid() && header.Frame?
    ensures r.channel.receiver.Valid() && r.consumed <= |buffer|
    ensures r.outcome.Success? ==> r.consumed >= SIZE
    ensures r.outcome.Incomplete? ==> r.channel == ch && r.consumed == 0
    ensures r.channel.config == ch.config
  {
    match header.kind
    case Request => PassRequest(ch, header)
    case Response => PassResponse(ch, header)
    case RequestPl => PassRequestPl(ch, header, buffer, mfs)
    case ResponsePl => PassResponsePl(ch, header, buffer, mfs)
    case CancelReq => PassCancelReq(ch, header)
    case CancelResp => PassCancelResp(ch, header)
  }

  // ---------------------------------------------------------------- the whole protocol

  datatype ProtocolState = ProtocolState(channels: seq<ChannelState>, mfs: MaxFrameSize) {
    ghost predicate Valid() {
      && |channels| <= 0x100
      && forall c :: 0 <= c < |channels| ==> channels[c].receiver.Valid()
    }

    predicate Knows(channel: ChannelId) {
      channel < |channels|
    }
  }

  datatype Step = Step(state: ProtocolState, consumed: nat, outcome: Outcome<Option<CompletedRead>, OutgoingMessage>)

  /** Parses an error frame: only one of kind `Other` has data, which must fit into a single frame. */
  function PassError(p: ProtocolState, header: Header, buffer: Bytes): (r: Step)
    requires |buffer| >= SIZE && header.Error?
    ensures r.consumed <= |buffer| && r.state == p
    ensures r.outcome.Success? ==> r.consumed >= SIZE && r.outcome.value.Some?
    ensures r.outcome.Incomplete? ==> r.consumed == 0
  {
    if header.errorKind == Other then
      Varint.DecodeExtend(buffer[SIZE..], []);
      match Varint.DecodeVarint(buffer[SIZE..])
      case Incomplete(n) => Step(p, 0, Incomplete(n))
      case Fatal(_) => Step(p, 0, Fatal(ErrMsg(header, BadVarInt)))
      case Success(length) =>
        var preambleEnd := SIZE + length.offset;
        var frameEnd := preambleEnd + length.value;
        if frameEnd > p.mfs then Step(p, 0, Fatal(ErrMsg(header, SegmentViolation)))
        else if |buffer| < frameEnd then Step(p, 0, Incomplete(frameEnd - |buffer|))
        else Step(p, frameEnd, Success(Some(ErrorReceived(header, Some(buffer[preambleEnd..frameEnd])))))
    else Step(p, SIZE, Success(Some(ErrorReceived(header, None))))
  }

  /** One pass of the parse loop over the front of the buffer. */
  function Pass(p: ProtocolState, buffer: Bytes): (r: Step)
    requires p.Valid()
    ensures r.state.Valid() && r.consumed <= |buffer|
    ensures r.outcome.Success? ==> r.consumed >= SIZE
    ensures r.outcome.Incomplete? ==> r.state == p && r.consumed == 0
    ensures r.state.mfs == p.mfs && |r.state.channels| == |p.channels|
  {
    if |buffer| < SIZE then Step(p, 0, Incomplete(SIZE - |buffer|))
    else
      match Parse(buffer[..SIZE])
      case None => Step(p, 0, Fatal(OutgoingMessage(Error(InvalidHeader, 0, 0), None)))
      case Some(header) =>
        if header.Error? then PassError(p, header, buffer)
        else if !p.Knows(header.channel) then Step(p, 0, Fatal(ErrMsg(header, ErrorKind.InvalidChannel)))
        else
          var r := ChannelPass(p.channels[header.channel], header, buffer, p.mfs);
          Step(p.(channels := p.channels[header.channel := r.channel]), r.consumed, r.outcome)
  }

  datatype Processed = Processed(state: ProtocolState, rest: Bytes, outcome: Outcome<CompletedRead, OutgoingMessage>)

  /** Passes until one completes a read, fails, or finds the buffer too short. */
  function ProcessIncoming(p: ProtocolState, buffer: Bytes): (r: Processed)
    requires p.Valid()
    ensures r.state.Valid() && |r.rest| <= |buffer|
    ensures r.outcome.Success? ==> |r.rest| + SIZE <= |buffer|
    ensures r.state.mfs == p.mfs && |r.state.channels| == |p.channels|
    decreases |buffer|
  {
    var step := Pass(p, buffer);
    var rest := buffer[step.consumed..];
    match step.outcome
    case Incomplete(n) => Processed(step.state, rest, Incomplete(n))
    case Fatal(e) => Processed(step.state, rest, Fatal(e))
    case Success(None) => ProcessIncoming(step.state, rest)
    case Success(Some(read)) => Processed(step.state, rest, Success(read))
  }

  // ---------------------------------------------------------------- creating messages

  datatype Created<+T> = Created(state: ProtocolState, result: Result<T, LocalProtocolViolation>)

  function CreateRequest(p: ProtocolState, channel: ChannelId, payload: Option<Bytes>): Created<OutgoingMessage> {
    if !p.Knows(channel) then Created(p, Err(LocalProtocolViolation.InvalidChannel(channel, |p.channels|)))
    else
      var ch := p.channels[channel];
      if payload.Some? && |payload.value| > ch.config.maxRequestPayloadSize then
        Created(p, Err(PayloadExceedsLimit(|payload.value|, ch.config.maxRequestPayloadSize)))
      else if !ch.AllowedToSendRequest() then Created(p, Err(WouldExceedRequestLimit(ch.config.requestLimit)))
      else
        var (chan, msg) := ch.CreateUncheckedRequest(channel, payload);
        Created(p.(channels := p.channels[channel := chan]), Ok(msg))
  }

  /** Nothing is created if the request is not tracked; the identifier is given up before the size is checked. */
  function CreateResponse(p: ProtocolState, channel: ChannelId, id: Id,
                          payload: Option<Bytes>): Created<Option<OutgoingMessage>> {
    if !p.Knows(channel) then Created(p, Err(LocalProtocolViolation.InvalidChannel(channel, |p.channels|)))
    else
      var ch := p.channels[channel];
      if id !in ch.incoming then Created(p, Ok(None))
      else
        var q := p.(channels := p.channels[channel := ch.(incoming := ch.incoming - {id})]);
        if payload.Some? && |payload.value| > ch.config.maxResponsePayloadSize then
          Created(q, Err(PayloadExceedsLimit(|payload.value|, ch.config.maxRequestPayloadSize)))
        else
          var kind := if payload.Some? then ResponsePl else Response;
          Created(q, Ok(Some(OutgoingMessage(Frame(kind, channel, id), payload))))
  }

  function CancelRequest(p: ProtocolState, channel: ChannelId, id: Id): Created<Option<OutgoingMessage>> {
    if !p.Knows(channel) then Created(p, Err(LocalProtocolViolation.InvalidChannel(channel, |p.channels|)))
    else if id !in p.channels[channel].outgoing then Created(p, Ok(None))
    else Created(p, Ok(Some(OutgoingMessage(Frame(CancelReq, channel, id), None))))
  }

  function CancelResponse(p: ProtocolState, channel: ChannelId, id: Id): Created<Option<OutgoingMessage>> {
    if !p.Knows(channel) then Created(p, Err(LocalProtocolViolation.InvalidChannel(channel, |p.channels|)))
    else
      var ch := p.channels[channel];
      if id !in ch.incoming then Created(p, Ok(None))
      else
        Created(p.(channels := p.channels[channel := ch.(incoming := ch.incoming - {id})]),
                Ok(Some(OutgoingMessage(Frame(CancelResp, channel, id), None))))
  }

  function CustomError(p: ProtocolState, channel: ChannelId, id: Id, payload: Bytes): Created<OutgoingMessage>
    requires |payload| < 0x1_0000_0000
  {
    var msg := OutgoingMessage(Error(Other, channel, id), Some(payload));
    if msg.IsMultiFrame(p.mfs) then Created(p, Err(ErrorPayloadIsMultiFrame(|payload|, p.mfs)))
    else Created(p, Ok(msg))
  }

  // ---------------------------------------------------------------- identifiers are found

  predicate Below(i: Id, n: nat) {
    i < n
  }

  lemma {:induction false} Initial(n: nat)
    requires n <= ID_SPACE
    ensures |set i: Id | Below(i, n)| == n
  {
    if n > 0 {
      Initial(n - 1);
      var m := n - 1;
      var fewer := set i: Id | Below(i, m);
      assert (set i: Id | Below(i, n)) == fewer + {n - 1};
    } else {
      assert (set i: Id | Below(i, n)) == {};
    }
  }

  /** Pigeonhole: if not every identifier is used, one is free within a full turn. */
  lemma FreeWithinTurn(used: set<Id>, prev: Id)
    requires |used| < ID_SPACE
    ensures exists d :: 1 <= d <= ID_SPACE && CyclicAdd(prev, d) !in used
  {
    var all := set i: Id | Below(i, ID_SPACE);
    Initial(ID_SPACE);
    if all <= used {
      Subset(all, used);
      assert false;
    }
    var i :| i in all && i !in used;
    var d := if i > prev then i - prev else i - prev + ID_SPACE;
    assert CyclicAdd(prev, d) == i;
  }

  lemma Subset<T>(a: set<T>, b: set<T>)
    requires a <= b
    ensures |a| <= |b|
  {
    assert b == a + (b - a);
  }

  lemma {:induction false} DistanceMeaning(used: set<Id>, prev: Id, d: nat)
    requires 1 <= d <= ID_SPACE
    ensures forall k :: d <= k < Distance(used, prev, d) ==> CyclicAdd(prev, k) in used
    ensures (exists k :: d <= k <= ID_SPACE && CyclicAdd(prev, k) !in used) ==>
              CyclicAdd(prev, Distance(used, prev, d)) !in used
    decreases ID_SPACE - d
  {
    if d < ID_SPACE && CyclicAdd(prev, d) in used {
      DistanceMeaning(used, prev, d + 1);
    }
  }

  /** The generated identifier is unused, and every one that it skips is in use. */
  lemma NextIdIsNextFree(used: set<Id>, prev: Id)
    requires |used| < ID_SPACE
    ensures NextId(used, prev) !in used
    ensures forall k :: 1 <= k < Distance(used, prev, 1) ==> CyclicAdd(prev, k) in used
  {
    FreeWithinTurn(used, prev);
    DistanceMeaning(used, prev, 1);
  }

  /** A checked request always gets an unused identifier: the fallback to zero is never taken. */
  lemma CreateRequestIsFresh(p: ProtocolState, channel: ChannelId, payload: Option<Bytes>)
    requires CreateRequest(p, channel, payload).result.Ok?
    ensures var r := CreateRequest(p, channel, payload);
      var id := r.result.value.header.id;
      && p.channels[channel].GenerateRequestId().1 == Some(id)
      && id !in p.channels[channel].outgoing
      && r.state.channels[channel].outgoing == p.channels[channel].outgoing + {id}
      && r.result.value.payload == payload
  {
    NextIdIsNextFree(p.channels[channel].outgoing, p.channels[channel].prevRequestId);
  }

  // ---------------------------------------------------------------- what is reported

  /** A read names a channel that exists; a failure is answered by an error that has no data. */
  ghost predicate Reportable(p: ProtocolState, outcome: Outcome<Option<CompletedRead>, OutgoingMessage>) {
    && (outcome.Success? && outcome.value.Some? && !outcome.value.value.ErrorReceived? ==>
         p.Knows(outcome.value.value.channel))
    && (outcome.Fatal? ==> IsBareError(outcome.error))
  }

  predicate IsBareError(msg: OutgoingMessage) {
    msg.header.Error? && msg.header.errorKind != Other && msg.payload.None?
  }

  lemma AcceptReports(ch: ChannelState, header: Header, buffer: Bytes, mfs: MaxFrameSize, limit: u32,
                      tooLarge: ErrorKind)
    requires |buffer| >= SIZE && ch.receiver.Valid() && header.Frame? && tooLarge != Other
    ensures var o := AcceptFrame(ch.receiver, header, buffer, mfs, limit, tooLarge).outcome;
      o.Fatal? ==> IsBareError(o.error)
  {
    hide Varint.DecodeVarint;
  }

  lemma ChannelPassReports(p: ProtocolState, header: Header, buffer: Bytes)
    requires |buffer| >= SIZE && p.Valid() && header.Frame? && p.Knows(header.channel)
    ensures Reportable(p, ChannelPass(p.channels[header.channel], header, buffer, p.mfs).outcome)
  {
    hide AcceptFrame;
    var ch := p.channels[header.channel];
    AcceptReports(ch, header, buffer, p.mfs, ch.config.maxRequestPayloadSize, RequestTooLarge);
    AcceptReports(ch, header, buffer, p.mfs, ch.config.maxResponsePayloadSize, ResponseTooLarge);
  }

  lemma PassReports(p: ProtocolState, buffer: Bytes)
    requires p.Valid()
    ensures Reportable(p, Pass(p, buffer).outcome)
  {
    hide Parse; hide ChannelPass; hide Varint.DecodeVarint;
    if |buffer| >= SIZE {
      var parsed := Parse(buffer[..SIZE]);
      if parsed.Some? && parsed.value.Frame? && p.Knows(parsed.value.channel) {
        ChannelPassReports(p, parsed.value, buffer);
      }
    }
  }

  lemma {:induction false} ProcessIncomingReports(p: ProtocolState, buffer: Bytes)
    requires p.Valid()
    ensures var r := ProcessIncoming(p, buffer).outcome;
      && (r.Success? && !r.value.ErrorReceived? ==> p.Knows(r.value.channel))
      && (r.Fatal? ==> IsBareError(r.error))
    decreases |buffer|
  {
    var step := Pass(p, buffer);
    PassReports(p, buffer);
    if step.outcome.Success? && step.outcome.value.None? {
      ProcessIncomingReports(step.state, buffer[step.consumed..]);
    }
    hide Pass;
  }
}
