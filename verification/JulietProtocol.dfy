// The protocol state machine as it is written: channels and parser update their state in place. Every
// method does what the function of the same name in `Protocol` says.
module JulietProtocol {
  import opened Types
  import opened Header
  import opened Message
  import opened Multiframe
  import opened Protocol
  import Varint

  /** Addition that wraps around at 16 bits. */
  function WrappingAdd(a: u16, b: u16): u16 {
    (a + b) % 0x1_0000
  }

  lemma WrapsAround(prev: Id, d: nat)
    ensures WrappingAdd(prev, 1) == CyclicAdd(prev, 1)
    ensures WrappingAdd(CyclicAdd(prev, d), 1) == CyclicAdd(prev, d + 1)
  {
  }

  /** One more identifier in use, and the search goes on. */
  lemma SearchOn(used: set<Id>, prev: Id, d: nat)
    requires 1 <= d < ID_SPACE && CyclicAdd(prev, d) in used
    ensures Distance(used, prev, d) == Distance(used, prev, d + 1)
  {
    hide CyclicAdd;
  }

  lemma SearchEnds(used: set<Id>, prev: Id, d: nat)
    requires 1 <= d <= ID_SPACE
    ensures CyclicAdd(prev, d) !in used || d == ID_SPACE ==> Distance(used, prev, d) == d
  {
    hide CyclicAdd;
  }

  class Channel {
    var incoming: set<Id>
    var outgoing: set<Id>
    const receiver: MultiframeReceiver
    var allowance: nat
    const config: ChannelConfiguration
    var prevRequestId: Id

    ghost function State(): ChannelState
      reads this, receiver
    {
      ChannelState(incoming, outgoing, receiver.state, allowance, config, prevRequestId)
    }

    constructor (config: ChannelConfiguration)
      ensures State() == NewChannel(config) && fresh(receiver)
    {
      this.incoming, this.outgoing, this.allowance, this.config, this.prevRequestId := {}, {}, 0, config, 0;
      this.receiver := new MultiframeReceiver();
    }

    predicate IsAtMaxIncomingRequests()
      reads this
    {
      |incoming| >= config.requestLimit
    }

    predicate AllowedToSendRequest()
      reads this
    {
      |outgoing| < config.requestLimit
    }

    method IncrementCancellationAllowance()
      modifies this`allowance
      ensures allowance == if old(allowance) < config.requestLimit then old(allowance) + 1 else old(allowance)
    {
      if allowance < config.requestLimit {
        allowance := allowance + 1;
      }
    }

    /** Looks for an unused identifier. The search ends because some identifier is unused. */
    method GenerateRequestId() returns (r: Option<Id>)
      requires |outgoing| < ID_SPACE
      modifies this`prevRequestId
      ensures (State(), r) == old(State()).GenerateRequestId()
      ensures r.Some? ==> r.value !in outgoing
    {
      hide Distance; hide CyclicAdd; hide WrappingAdd;
      if |outgoing| == 0xffff {
        return None;
      }
      var candidate := WrappingAdd(prevRequestId, 1);
      ghost var d := 1;
      NextIdIsNextFree(outgoing, prevRequestId);
      WrapsAround(prevRequestId, 1);
      SearchEnds(outgoing, prevRequestId, 1);
      while candidate in outgoing
        invariant prevRequestId == old(prevRequestId) && 1 <= d <= ID_SPACE
        invariant candidate == CyclicAdd(prevRequestId, d)
        invariant Distance(outgoing, prevRequestId, 1) == Distance(outgoing, prevRequestId, d)
        invariant candidate !in outgoing || d == ID_SPACE ==> Distance(outgoing, prevRequestId, d) == d
        decreases ID_SPACE - d
      {
        WrapsAround(prevRequestId, d);
        SearchOn(outgoing, prevRequestId, d);
        SearchEnds(outgoing, prevRequestId, d + 1);
        candidate := WrappingAdd(candidate, 1);
        d := d + 1;
      }
      prevRequestId := candidate;
      return Some(candidate);
    }

    method CreateUncheckedRequest(channelId: ChannelId, payload: Option<Bytes>) returns (msg: OutgoingMessage)
      requires |outgoing| < ID_SPACE
      modifies this
      ensures (State(), msg) == old(State()).CreateUncheckedRequest(channelId, payload)
    {
      var generated := GenerateRequestId();
      var id := if generated.Some? then generated.value else 0;
      outgoing := outgoing + {id};
      if payload.Some? {
        msg := OutgoingMessage(Frame(RequestPl, channelId, id), payload);
      } else {
        msg := OutgoingMessage(Frame(Request, channelId, id), None);
      }
    }

    method ProcessRequestPl(header: Header, buffer: BytesMut, mfs: MaxFrameSize)
      returns (outcome: Outcome<Option<CompletedRead>, OutgoingMessage>)
      requires |buffer.data| >= SIZE && header.Frame? && receiver.state.Valid()
      modifies this, receiver, buffer
      ensures var r := PassRequestPl(old(State()), header, old(buffer.data), mfs);
        && State() == r.channel && buffer.data == old(buffer.data)[r.consumed..] && outcome == r.outcome
    {
      hide AcceptFrame;
      var accepted := receiver.Accept(header, buffer, mfs, config.maxRequestPayloadSize, RequestTooLarge);
      match accepted {
        case Incomplete(n) => return Incomplete(n);
        case Fatal(e) => return Fatal(e);
        case Success(frame) =>
          if frame.WasNew() {
            if IsAtMaxIncomingRequests() {
              return Fatal(ErrMsg(header, RequestLimitExceeded));
            }
            if header.id in incoming {
              return Fatal(ErrMsg(header, DuplicateRequest));
            }
            incoming := incoming + {header.id};
            IncrementCancellationAllowance();
          }
          var payload := frame.IntoCompletedPayload();
          if payload.Some? {
            return Success(Some(NewRequest(header.channel, header.id, payload)));
          }
          return Success(None);
      }
    }

    method ProcessResponsePl(header: Header, buffer: BytesMut, mfs: MaxFrameSize)
      returns (outcome: Outcome<Option<CompletedRead>, OutgoingMessage>)
      requires |buffer.data| >= SIZE && header.Frame? && receiver.state.Valid()
      modifies this, receiver, buffer
      ensures var r := PassResponsePl(old(State()), header, old(buffer.data), mfs);
        && State() == r.channel && buffer.data == old(buffer.data)[r.consumed..] && outcome == r.outcome
    {
      hide AcceptFrame;
      if header.id !in outgoing {
        return Fatal(ErrMsg(header, FictitiousRequest));
      }
      var accepted := receiver.Accept(header, buffer, mfs, config.maxResponsePayloadSize, ResponseTooLarge);
      match accepted {
        case Incomplete(n) => return Incomplete(n);
        case Fatal(e) => return Fatal(e);
        case Success(frame) =>
          var payload := frame.IntoCompletedPayload();
          if payload.Some? {
            outgoing := outgoing - {header.id};
            return Success(Some(ReceivedResponse(header.channel, header.id, payload)));
          }
          return Success(None);
      }
    }

    /** Takes a frame of this channel off the buffer. */
    method ProcessFrame(header: Header, buffer: BytesMut, mfs: MaxFrameSize)
      returns (outcome: Outcome<Option<CompletedRead>, OutgoingMessage>)
      requires |buffer.data| >= SIZE && header.Frame? && receiver.state.Valid()
      modifies this, receiver, buffer
      ensures var r := ChannelPass(old(State()), header, old(buffer.data), mfs);
        && State() == r.channel && buffer.data == old(buffer.data)[r.consumed..] && outcome == r.outcome
    {
      hide PassRequestPl; hide PassResponsePl;
      match header.kind
      case Request =>
        if IsAtMaxIncomingRequests() {
          return Fatal(ErrMsg(header, RequestLimitExceeded));
        }
        if header.id in incoming {
          return Fatal(ErrMsg(header, DuplicateRequest));
        }
        incoming := incoming + {header.id};
        IncrementCancellationAllowance();
        buffer.Advance(SIZE);
        return Success(Some(NewRequest(header.channel, header.id, None)));
      case Response =>
        if header.id !in outgoing {
          return Fatal(ErrMsg(header, FictitiousRequest));
        }
        outgoing := outgoing - {header.id};
        buffer.Advance(SIZE);
        return Success(Some(ReceivedResponse(header.channel, header.id, None)));
      case RequestPl =>
        outcome := ProcessRequestPl(header, buffer, mfs);
      case ResponsePl =>
        outcome := ProcessResponsePl(header, buffer, mfs);
      case CancelReq =>
        if allowance == 0 {
          return Fatal(ErrMsg(header, CancellationLimitExceeded));
        }
        allowance := allowance - 1;
        buffer.Advance(SIZE);
        var active := receiver.state.InProgressHeader();
        if active.Some? && active.value.id == header.id {
          receiver.state := Ready;
          incoming := incoming - {header.id};
        }
        if header.id in incoming {
          return Success(Some(RequestCancellation(header.channel, header.id)));
        }
        return Success(None);
      case CancelResp =>
        if header.id !in outgoing {
          return Fatal(ErrMsg(header, FictitiousCancel));
        }
        outgoing := outgoing - {header.id};
        buffer.Advance(SIZE);
        return Success(Some(ResponseCancellation(header.channel, header.id)));
    }
  }

  class JulietProtocol {
    const channels: seq<Channel>
    const mfs: MaxFrameSize

    ghost const Repr: set<object> :=
      (set ch: Channel | ch in channels :: ch as object) + (set ch: Channel | ch in channels :: ch.receiver as object)

    /** No two channels share any state. */
    ghost predicate Valid()
      reads Repr
    {
      && |channels| <= 0x100
      && (forall i, j :: 0 <= i < j < |channels| ==>
           channels[i] != channels[j] && channels[i].receiver != channels[j].receiver)
      && (forall i :: 0 <= i < |channels| ==> channels[i].receiver.state.Valid())
    }

    ghost function StateOf(c: nat): ChannelState
      requires c < |channels|
      reads channels[c], channels[c].receiver
    {
      channels[c].State()
    }

    ghost function State(): (p: ProtocolState)
      reads Repr
      ensures |p.channels| == |channels| && p.mfs == mfs
      ensures forall c :: 0 <= c < |channels| ==> p.channels[c] == StateOf(c)
    {
      ProtocolState(seq(|channels|, c requires 0 <= c < |channels| reads Repr => StateOf(c)), mfs)
    }

    /** Only one channel has changed. */
    twostate lemma OnlyChannel(c: ChannelId)
      requires Knows(c) && forall i :: 0 <= i < |channels| && i != c ==> StateOf(i) == old(StateOf(i))
      ensures State() == old(State()).(channels := old(State()).channels[c := StateOf(c)])
    {
    }

    lemma StateIsValid()
      requires Valid()
      ensures State().Valid()
    {
    }

    constructor (configs: seq<ChannelConfiguration>, mfs: MaxFrameSize)
      requires |configs| <= 0x100
      ensures Valid() && fresh(Repr) && this.mfs == mfs
      ensures State() == ProtocolState(seq(|configs|, c requires 0 <= c < |configs| => NewChannel(configs[c])), mfs)
    {
      var created: seq<Channel> := [];
      for c := 0 to |configs|
        invariant |created| == c
        invariant forall i :: 0 <= i < c ==> fresh(created[i]) && fresh(created[i].receiver)
        invariant forall i, j :: 0 <= i < j < c ==>
                    created[i] != created[j] && created[i].receiver != created[j].receiver
        invariant forall i :: 0 <= i < c ==> created[i].State() == NewChannel(configs[i])
      {
        var ch := new Channel(configs[c]);
        created := created + [ch];
      }
      this.channels, this.mfs := created, mfs;
      new;
      assert forall c :: 0 <= c < |configs| ==> StateOf(c).receiver == Ready;
    }

    predicate Knows(channel: ChannelId) {
      channel < |channels|
    }

    method AllowedToSendRequest(channel: ChannelId) returns (r: Result<bool, LocalProtocolViolation>)
      ensures r == if Knows(channel) then Ok(StateOf(channel).AllowedToSendRequest())
                   else Err(LocalProtocolViolation.InvalidChannel(channel, |channels|))
    {
      if !Knows(channel) {
        return Err(LocalProtocolViolation.InvalidChannel(channel, |channels|));
      }
      return Ok(channels[channel].AllowedToSendRequest());
    }

    method CreateRequest(channel: ChannelId, payload: Option<Bytes>)
      returns (r: Result<OutgoingMessage, LocalProtocolViolation>)
      requires Valid()
      modifies Repr
      ensures Valid() && Created(State(), r) == Protocol.CreateRequest(old(State()), channel, payload)
    {
      if !Knows(channel) {
        return Err(LocalProtocolViolation.InvalidChannel(channel, |channels|));
      }
      var chan := channels[channel];
      if payload.Some? && |payload.value| > chan.config.maxRequestPayloadSize {
        return Err(PayloadExceedsLimit(|payload.value|, chan.config.maxRequestPayloadSize));
      }
      if !chan.AllowedToSendRequest() {
        return Err(WouldExceedRequestLimit(chan.config.requestLimit));
      }
      var msg := chan.CreateUncheckedRequest(channel, payload);
      OnlyChannel(channel);
      return Ok(msg);
    }

    /** The identifier is given up before the size of the payload is checked. */
    method CreateResponse(channel: ChannelId, id: Id, payload: Option<Bytes>)
      returns (r: Result<Option<OutgoingMessage>, LocalProtocolViolation>)
      requires Valid()
      modifies Repr
      ensures Valid() && Created(State(), r) == Protocol.CreateResponse(old(State()), channel, id, payload)
    {
      if !Knows(channel) {
        return Err(LocalProtocolViolation.InvalidChannel(channel, |channels|));
      }
      var chan := channels[channel];
      if id !in chan.incoming {
        return Ok(None);
      }
      chan.incoming := chan.incoming - {id};
      OnlyChannel(channel);
      if payload.Some? && |payload.value| > chan.config.maxResponsePayloadSize {
        return Err(PayloadExceedsLimit(|payload.value|, chan.config.maxRequestPayloadSize));
      }
      return Ok(Some(OutgoingMessage(Frame(if payload.Some? then ResponsePl else Response, channel, id), payload)));
    }

    method CancelRequest(channel: ChannelId, id: Id)
      returns (r: Result<Option<OutgoingMessage>, LocalProtocolViolation>)
      requires Valid()
      ensures Created(State(), r) == Protocol.CancelRequest(State(), channel, id)
    {
      if !Knows(channel) {
        return Err(LocalProtocolViolation.InvalidChannel(channel, |channels|));
      }
      if id !in channels[channel].outgoing {
        return Ok(None);
      }
      return Ok(Some(OutgoingMessage(Frame(CancelReq, channel, id), None)));
    }

    method CancelResponse(channel: ChannelId, id: Id)
      returns (r: Result<Option<OutgoingMessage>, LocalProtocolViolation>)
      requires Valid()
      modifies Repr
      ensures Valid() && Created(State(), r) == Protocol.CancelResponse(old(State()), channel, id)
    {
      if !Knows(channel) {
        return Err(LocalProtocolViolation.InvalidChannel(channel, |channels|));
      }
      var chan := channels[channel];
      if id !in chan.incoming {
        return Ok(None);
      }
      chan.incoming := chan.incoming - {id};
      OnlyChannel(channel);
      return Ok(Some(OutgoingMessage(Frame(CancelResp, channel, id), None)));
    }

    method CustomError(channel: ChannelId, id: Id, payload: Bytes)
      returns (r: Result<OutgoingMessage, LocalProtocolViolation>)
      requires Valid() && |payload| < 0x1_0000_0000
      ensures Created(State(), r) == Protocol.CustomError(State(), channel, id, payload)
    {
      var msg := OutgoingMessage(Error(Other, channel, id), Some(payload));
      if msg.IsMultiFrame(mfs) {
        return Err(ErrorPayloadIsMultiFrame(|payload|, mfs));
      }
      return Ok(msg);
    }

    /** Takes an error frame off the buffer. */
    method ProcessError(header: Header, buffer: BytesMut)
      returns (outcome: Outcome<Option<CompletedRead>, OutgoingMessage>)
      requires Valid() && |buffer.data| >= SIZE && header.Error?
      modifies buffer
      ensures var r := PassError(State(), header, old(buffer.data));
        buffer.data == old(buffer.data)[r.consumed..] && outcome == r.outcome
    {
      if header.errorKind == Other {
        var length := Varint.Decode(buffer.data[SIZE..]);
        Varint.DecodeExtend(buffer.data[SIZE..], []);
        hide Varint.DecodeVarint;
        match length {
          case Incomplete(n) => return Incomplete(n);
          case Fatal(_) => return Fatal(ErrMsg(header, BadVarInt));
          case Success(parsed) =>
            var preambleEnd := SIZE + parsed.offset;
            var frameEnd := preambleEnd + parsed.value;
            if frameEnd > mfs {
              return Fatal(ErrMsg(header, SegmentViolation));
            }
            if |buffer.data| < frameEnd {
              return Incomplete(frameEnd - |buffer.data|);
            }
            SliceTwice(buffer.data, preambleEnd, parsed.value);
            buffer.Advance(preambleEnd);
            var payload := buffer.SplitTo(parsed.value);
            return Success(Some(ErrorReceived(header, Some(payload))));
        }
      }
      buffer.Advance(SIZE);
      return Success(Some(ErrorReceived(header, None)));
    }

    /** One pass of the loop of the parser. */
    method ProcessNext(buffer: BytesMut) returns (outcome: Outcome<Option<CompletedRead>, OutgoingMessage>)
      requires Valid()
      modifies Repr, buffer
      ensures Valid()
      ensures var r := Pass(old(State()), old(buffer.data));
        State() == r.state && buffer.data == old(buffer.data)[r.consumed..] && outcome == r.outcome
    {
      hide ChannelPass; hide PassError; hide Parse;
      if |buffer.data| < SIZE {
        return Incomplete(SIZE - |buffer.data|);
      }
      var parsed := Parse(buffer.data[..SIZE]);
      if parsed.None? {
        return Fatal(OutgoingMessage(Error(InvalidHeader, 0, 0), None));
      }
      var header := parsed.value;
      if header.IsError() {
        outcome := ProcessError(header, buffer);
        return;
      }
      if !Knows(header.channel) {
        return Fatal(ErrMsg(header, ErrorKind.InvalidChannel));
      }
      outcome := channels[header.channel].ProcessFrame(header, buffer, mfs);
      OnlyChannel(header.channel);
    }

    /** Takes frames off the buffer until one completes a read, is at fault, or is not there in full. */
    method ProcessIncoming(buffer: BytesMut) returns (outcome: Outcome<CompletedRead, OutgoingMessage>)
      requires Valid()
      modifies Repr, buffer
      ensures Valid()
      ensures Processed(State(), buffer.data, outcome) == Protocol.ProcessIncoming(old(State()), old(buffer.data))
    {
      hide Pass;
      while true
        invariant Valid()
        invariant Protocol.ProcessIncoming(State(), buffer.data) ==
                  Protocol.ProcessIncoming(old(State()), old(buffer.data))
        decreases |buffer.data|
      {
        var step := ProcessNext(buffer);
        match step {
          case Incomplete(n) => return Incomplete(n);
          case Fatal(e) => return Fatal(e);
          case Success(Some(read)) => return Success(read);
          case Success(None) =>
        }
      }
    }
  }
}
