// Frame headers: four bytes holding a kind, a channel and a little-endian id.
module Header {
  import opened Types
  import opened Bits

  datatype ErrorKind =
    | Other
    | MaxFrameSizeExceeded
    | InvalidHeader
    | SegmentViolation
    | BadVarInt
    | InvalidChannel
    | InProgress
    | ResponseTooLarge
    | RequestTooLarge
    | DuplicateRequest
    | FictitiousRequest
    | RequestLimitExceeded
    | FictitiousCancel
    | CancellationLimitExceeded

  datatype Kind =
    | Request
    | Response
    | RequestPl
    | ResponsePl
    | CancelReq
    | CancelResp

  const SIZE := 4
  const KIND_ERR_BIT := 0x80
  const ERROR_KIND_COUNT := 14
  const KIND_COUNT := 6

  const ERROR_KINDS: seq<ErrorKind> :=
    [Other, MaxFrameSizeExceeded, InvalidHeader, SegmentViolation, BadVarInt, InvalidChannel, InProgress,
     ResponseTooLarge, RequestTooLarge, DuplicateRequest, FictitiousRequest, RequestLimitExceeded,
     FictitiousCancel, CancellationLimitExceeded]

  const KINDS: seq<Kind> := [Request, Response, RequestPl, ResponsePl, CancelReq, CancelResp]

  function ErrorCode(kind: ErrorKind): (n: nat)
    ensures n < ERROR_KIND_COUNT && ERROR_KINDS[n] == kind
  {
    match kind
    case Other => 0
    case MaxFrameSizeExceeded => 1
    case InvalidHeader => 2
    case SegmentViolation => 3
    case BadVarInt => 4
    case InvalidChannel => 5
    case InProgress => 6
    case ResponseTooLarge => 7
    case RequestTooLarge => 8
    case DuplicateRequest => 9
    case FictitiousRequest => 10
    case RequestLimitExceeded => 11
    case FictitiousCancel => 12
    case CancellationLimitExceeded => 13
  }

  function KindCode(kind: Kind): (n: nat)
    ensures n < KIND_COUNT && KINDS[n] == kind
  {
    match kind
    case Request => 0
    case Response => 1
    case RequestPl => 2
    case ResponsePl => 3
    case CancelReq => 4
    case CancelResp => 5
  }

  /** A parsed header; an error header carries an error kind instead of a frame kind. */
  datatype Header =
    | Frame(kind: Kind, channel: ChannelId, id: Id)
    | Error(errorKind: ErrorKind, channel: ChannelId, id: Id)
  {
    predicate IsError() {
      Error?
    }

    function WithErr(k: ErrorKind): Header {
      Error(k, channel, id)
    }

    function KindByte(): byte {
      if Frame? then KindCode(kind) else KIND_ERR_BIT + ErrorCode(errorKind)
    }

    /** The four bytes put on the wire. */
    function Raw(): (raw: Bytes)
      ensures |raw| == SIZE
    {
      [KindByte(), channel, id % 0x100, id / 0x100]
    }
  }

  const KIND_ERR_MASK: bv8 := 0x0f
  const KIND_MASK: bv8 := 0x07

  function And(b: byte, mask: bv8): byte {
    ((b as bv8) & mask) as byte
  }

  /** The kind byte with its reserved bits (four to six) cleared. */
  function Masked(b: byte): byte {
    And(b, KIND_ERR_MASK | KIND_MASK | 0x80)
  }

  // The masks as arithmetic: keeping the error bit and the low four bits, the remainder by 16, and
  // the remainder by 8.

  lemma MaskedIs(b: byte)
    ensures Masked(b) == if b >= 0x80 then 0x80 + b % 16 else b % 16
  {
    ByteAsBits(b);
    MaskedBits(b as bv8);
  }

  lemma ErrorBitIs(b: byte)
    ensures And(b, 0x80) == if b >= 0x80 then 0x80 else 0
  {
    ByteAsBits(b);
    ErrorBit(b as bv8);
  }

  lemma LowBitsAre(b: byte)
    ensures And(b, KIND_ERR_MASK) == b % 16 && And(b, KIND_MASK) == b % 8
  {
    ByteAsBits(b);
    LowFourBits(b as bv8);
    LowThreeBits(b as bv8);
  }

  lemma MaskIsRemainder(b: byte)
    ensures Masked(b) == if b >= 0x80 then 0x80 + b % 16 else b % 16
    ensures And(b, 0x80) == if b >= 0x80 then 0x80 else 0
    ensures And(b, KIND_ERR_MASK) == b % 16 && And(b, KIND_MASK) == b % 8
  {
    hide And; hide Masked;
    MaskedIs(b);
    ErrorBitIs(b);
    LowBitsAre(b);
  }

  function LittleEndian(lo: byte, hi: byte): u16 {
    var l: int, h: int := lo, hi;
    l + 0x100 * h
  }

  /** Parses a header from four raw bytes; `None` if they are not a valid header. */
  function Parse(raw: Bytes): (r: Option<Header>)
    requires |raw| == SIZE
  {
    var k, id := Masked(raw[0]), LittleEndian(raw[2], raw[3]);
    if And(k, 0x80) == KIND_ERR_BIT then
      if And(k, KIND_ERR_MASK) >= ERROR_KIND_COUNT then None
      else Some(Error(ERROR_KINDS[And(k, KIND_ERR_MASK)], raw[1], id))
    else if And(k, KIND_MASK) >= KIND_COUNT then None
    else if And(k, KIND_MASK) != k then None
    else Some(Frame(KINDS[And(k, KIND_MASK)], raw[1], id))
  }

  /** Parsing undoes writing. */
  lemma ParseInvertsRaw(h: Header)
    ensures Parse(h.Raw()) == Some(h)
  {
    hide And; hide Masked;
    var raw := h.Raw();
    MaskIsRemainder(raw[0]);
    MaskIsRemainder(Masked(raw[0]));
    assert LittleEndian(raw[2], raw[3]) == h.id;
    assert Masked(raw[0]) == raw[0];
    if h.Frame? {
      assert raw[0] == KindCode(h.kind);
    } else {
      assert raw[0] == KIND_ERR_BIT + ErrorCode(h.errorKind);
    }
  }

  /**
   * A header parses exactly if its kind byte is, reserved bits aside, one that is written for some
   * kind, and then writing it again gives the same bytes with the reserved bits cleared.
   */
  lemma ParseMeaning(raw: Bytes)
    requires |raw| == SIZE
    ensures Parse(raw).Some? <==> (if raw[0] >= 0x80 then raw[0] % 16 < 14 else raw[0] % 16 < 6)
    ensures Parse(raw).Some? ==> Parse(raw).value.Raw() == [Masked(raw[0])] + raw[1..]
  {
    hide And; hide Masked;
    MaskIsRemainder(raw[0]);
    MaskIsRemainder(Masked(raw[0]));
    if Parse(raw).Some? {
      var h := Parse(raw).value;
      ErrorCodes();
      KindCodes();
      assert h.id == LittleEndian(raw[2], raw[3]);
      assert h.id % 0x100 == raw[2] && h.id / 0x100 == raw[3];
      assert h.KindByte() == Masked(raw[0]);
      assert h.Raw() == [Masked(raw[0])] + raw[1..];
    }
  }

  /** The first byte on the wire, kind by kind. */
  predicate Announces(b: byte, h: Header) {
    match h
    case Frame(Request, _, _) => b == 0
    case Frame(Response, _, _) => b == 1
    case Frame(RequestPl, _, _) => b == 2
    case Frame(ResponsePl, _, _) => b == 3
    case Frame(CancelReq, _, _) => b == 4
    case Frame(CancelResp, _, _) => b == 5
    case Error(Other, _, _) => b == 0x80
    case Error(MaxFrameSizeExceeded, _, _) => b == 0x81
    case Error(InvalidHeader, _, _) => b == 0x82
    case Error(SegmentViolation, _, _) => b == 0x83
    case Error(BadVarInt, _, _) => b == 0x84
    case Error(InvalidChannel, _, _) => b == 0x85
    case Error(InProgress, _, _) => b == 0x86
    case Error(ResponseTooLarge, _, _) => b == 0x87
    case Error(RequestTooLarge, _, _) => b == 0x88
    case Error(DuplicateRequest, _, _) => b == 0x89
    case Error(FictitiousRequest, _, _) => b == 0x8a
    case Error(RequestLimitExceeded, _, _) => b == 0x8b
    case Error(FictitiousCancel, _, _) => b == 0x8c
    case Error(CancellationLimitExceeded, _, _) => b == 0x8d
  }

  /** The wire format: one byte for the kind, one for the channel, and the id with the low byte first. */
  lemma WireFormat(h: Header)
    ensures |h.Raw()| == 4 && Announces(h.Raw()[0], h)
    ensures h.Raw()[1] == h.channel && h.Raw()[2] as int + 0x100 * h.Raw()[3] as int == h.id
  {
  }

  /** A byte announces one header at most, for a given channel and id. */
  lemma AnnouncesOne(b: byte, h: Header, g: Header)
    requires Announces(b, h) && Announces(b, g)
    ensures h.Frame? <==> g.Frame?
    ensures h.Frame? ==> h.kind == g.kind
    ensures h.Error? ==> h.errorKind == g.errorKind
  {
  }

  /**
   * Four bytes parse as a header if and only if the first, without its reserved bits, announces one;
   * then the channel and the id are those that the other bytes give.
   */
  lemma ParsesAsAnnounced(raw: Bytes, h: Header)
    requires |raw| == 4
    ensures Parse(raw) == Some(h) <==>
              && Announces(if raw[0] >= 0x80 then 0x80 + raw[0] % 16 else raw[0] % 16, h)
              && h.channel == raw[1] && h.id == raw[2] as int + 0x100 * raw[3] as int
  {
    hide And; hide Masked;
    MaskIsRemainder(raw[0]);
    MaskIsRemainder(Masked(raw[0]));
    hide LittleEndian;
    var m := Masked(raw[0]);
    Little(raw[2], raw[3]);
    if Parse(raw).Some? {
      ParsedKind(raw);
      var g := Parse(raw).value;
      if Announces(m, h) { AnnouncesOne(m, h, g); }
    } else {
      Unannounced(m, h);
    }
  }

  lemma Little(lo: byte, hi: byte)
    ensures LittleEndian(lo, hi) == lo as int + 0x100 * hi as int
  {
  }

  lemma ParsedKind(raw: Bytes)
    requires |raw| == 4 && Parse(raw).Some?
    ensures Announces(Masked(raw[0]), Parse(raw).value)
    ensures Parse(raw).value.channel == raw[1] && Parse(raw).value.id == LittleEndian(raw[2], raw[3])
  {
    hide And; hide Masked;
    MaskIsRemainder(raw[0]);
    MaskIsRemainder(Masked(raw[0]));
  }

  lemma Unannounced(m: byte, h: Header)
    requires if m >= 0x80 then m - 0x80 >= 14 else m >= 6
    ensures !Announces(m, h)
  {
  }

  lemma ErrorCodes()
    ensures forall n :: 0 <= n < ERROR_KIND_COUNT ==> ErrorCode(ERROR_KINDS[n]) == n
  {
  }

  lemma KindCodes()
    ensures forall n :: 0 <= n < KIND_COUNT ==> KindCode(KINDS[n]) == n
  {
  }

  /** Two headers are equal exactly when their bytes are. */
  lemma RawInjective(h: Header, g: Header)
    ensures h.Raw() == g.Raw() <==> h == g
  {
    ParseInvertsRaw(h);
    ParseInvertsRaw(g);
  }
}
