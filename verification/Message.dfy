// Outgoing messages, their division into frames, and the two ways of writing them out: frame by
// frame (`FrameIter`) and as one byte cursor over all frames (`ByteIter`).
module Message {
  import opened Types
  import opened Header
  import Varint
  import opened Arithmetic

  /** A frame size fits a full preamble and one byte of payload. */
  type MaxFrameSize = n: int | SIZE + Varint.MAX_LEN + 1 <= n < 0x1_0000_0000 witness 4096

  function WithoutHeader(mfs: MaxFrameSize): nat {
    mfs - SIZE
  }

  function WithoutPreamble(mfs: MaxFrameSize, payloadLen: u32): nat {
    WithoutHeader(mfs) - Varint.LengthOf(payloadLen)
  }

  /** Whether a payload of this length does not fit into the first frame. */
  predicate PayloadIsMultiFrame(mfs: MaxFrameSize, payloadLen: u32) {
    WithoutPreamble(mfs, payloadLen) < payloadLen
  }

  datatype OutgoingMessage = OutgoingMessage(header: Header, payload: Option<Bytes>) {
    /** Payload lengths are written as 32-bit integers. */
    ghost predicate Valid() {
      payload.Some? ==> |payload.value| < 0x1_0000_0000
    }

    predicate IsMultiFrame(mfs: MaxFrameSize)
      requires Valid()
    {
      payload.Some? && PayloadIsMultiFrame(mfs, |payload.value|)
    }

    function Frames(): FrameIter {
      FrameIter(this, 0)
    }

    function NonHeaderLen(): nat
      requires Valid()
    {
      if payload.Some? then Varint.LengthOf(|payload.value|) + |payload.value| else 0
    }

    function NumFrames(mfs: MaxFrameSize): nat
      requires Valid()
    {
      var usable := WithoutHeader(mfs);
      var n := CeilDiv(NonHeaderLen(), usable);
      if n == 0 then 1 else n
    }

    function TotalLen(mfs: MaxFrameSize): nat
      requires Valid()
    {
      NumFrames(mfs) * SIZE + NonHeaderLen()
    }

    /** Cuts the payload so that the message fits into one frame. */
    function TruncateToSingleFrame(mfs: MaxFrameSize): (m: OutgoingMessage)
      requires Valid()
      ensures m.Valid()
    {
      if IsMultiFrame(mfs) then
        this.(payload := Some(payload.value[..WithoutPreamble(mfs, |payload.value|)]))
      else this
    }
  }

  datatype OutgoingFrame = OutgoingFrame(header: Header, lengthPrefix: Option<u32>, segment: Bytes) {
    function Preamble(): Bytes {
      header.Raw() + if lengthPrefix.Some? then Varint.Encoding(lengthPrefix.value) else []
    }

    function Wire(): Bytes {
      Preamble() + segment
    }
  }

  /** The frames of a message that are still to be produced. */
  datatype FrameIter = FrameIter(msg: OutgoingMessage, processed: nat) {
    ghost predicate Valid() {
      && msg.Valid()
      && (msg.payload.None? ==> processed == 0)
      && (msg.payload.Some? && processed > 0 ==> processed < |msg.payload.value|)
    }

    /** The length prefix goes out with the first frame only. */
    function PrefixLen(): nat
      requires Valid()
    {
      if msg.payload.Some? && processed == 0 then Varint.LengthOf(|msg.payload.value|) else 0
    }

    function PayloadLen(): nat {
      if msg.payload.Some? then |msg.payload.value| else 0
    }

    function SegmentLen(mfs: MaxFrameSize): (n: nat)
      requires Valid()
      ensures processed + n <= PayloadLen()
      ensures processed < PayloadLen() ==> n > 0
    {
      Min(WithoutHeader(mfs) - PrefixLen(), PayloadLen() - processed)
    }

    function NextFrame(mfs: MaxFrameSize): OutgoingFrame
      requires Valid()
    {
      if msg.payload.Some? then
        OutgoingFrame(msg.header,
                      if processed == 0 then Some(|msg.payload.value| as u32) else None,
                      msg.payload.value[processed..processed + SegmentLen(mfs)])
      else OutgoingFrame(msg.header, None, [])
    }

    /** Whether the next frame is the last. */
    predicate IsFinal(mfs: MaxFrameSize)
      requires Valid()
    {
      processed + SegmentLen(mfs) == PayloadLen()
    }

    /** What remains after the next frame. */
    function Rest(mfs: MaxFrameSize): (r: FrameIter)
      requires Valid() && !IsFinal(mfs)
      ensures r.Valid() && r.processed > processed && r.msg == msg
    {
      FrameIter(msg, processed + SegmentLen(mfs))
    }

    /** All remaining frames. */
    function AllFrames(mfs: MaxFrameSize): seq<OutgoingFrame>
      requires Valid()
      decreases PayloadLen() - processed
    {
      [NextFrame(mfs)] + if IsFinal(mfs) then [] else Rest(mfs).AllFrames(mfs)
    }
  }

  /** Takes the next frame and, unless it was the last, the iterator for the remainder. */
  method NextOwned(iter: FrameIter, mfs: MaxFrameSize) returns (frame: OutgoingFrame, more: Option<FrameIter>)
    requires iter.Valid()
    ensures frame == iter.NextFrame(mfs)
    ensures more == if iter.IsFinal(mfs) then None else Some(iter.Rest(mfs))
  {
    var self := iter;
    if self.msg.payload.Some? {
      var payload := self.msg.payload.value;
      var payloadRemaining := |payload| - self.processed;
      var lengthPrefix := None;
      var preambleLen := SIZE;
      if self.processed == 0 {
        lengthPrefix := Some(payloadRemaining as u32);
        var prefix := Varint.Encode(payloadRemaining);
        preambleLen := SIZE + prefix.Len();
      }
      var frameCapacity := mfs - preambleLen;
      var framePayloadLen := Min(frameCapacity, payloadRemaining);
      var framePayload := payload[self.processed..self.processed + framePayloadLen];
      self := self.(processed := self.processed + framePayloadLen);
      payloadRemaining := |payload| - self.processed;
      frame := OutgoingFrame(self.msg.header, lengthPrefix, framePayload);
      more := if payloadRemaining > 0 then Some(self) else None;
    } else {
      frame, more := OutgoingFrame(self.msg.header, None, []), None;
    }
  }

  /** The bytes of a sequence of frames, one after the other. */
  function Concat(frames: seq<OutgoingFrame>): Bytes {
    if frames == [] then [] else frames[0].Wire() + Concat(frames[1..])
  }

  /** The segments of a sequence of frames, one after the other. */
  function Segments(frames: seq<OutgoingFrame>): Bytes {
    if frames == [] then [] else frames[0].segment + Segments(frames[1..])
  }

  // ---------------------------------------------------------------- frames of a message

  /** A frame never exceeds the maximum size, and only the last one is smaller. */
  lemma FrameSize(iter: FrameIter, mfs: MaxFrameSize)
    requires iter.Valid()
    ensures |iter.NextFrame(mfs).Wire()| == SIZE + iter.PrefixLen() + iter.SegmentLen(mfs) <= mfs
    ensures !iter.IsFinal(mfs) ==> |iter.NextFrame(mfs).Wire()| == mfs
  {
  }

  /** The segments of the remaining frames are the remaining payload, in order. */
  lemma {:induction false} FramesCarryPayload(iter: FrameIter, mfs: MaxFrameSize)
    requires iter.Valid()
    ensures Segments(iter.AllFrames(mfs)) ==
            if iter.msg.payload.Some? then iter.msg.payload.value[iter.processed..] else []
    decreases iter.PayloadLen() - iter.processed
  {
    hide Varint.LengthOf;
    var fs := iter.AllFrames(mfs);
    assert Segments(fs) == fs[0].segment + Segments(fs[1..]);
    if iter.IsFinal(mfs) {
      assert fs[1..] == [];
    } else {
      var rest := iter.Rest(mfs);
      assert fs[1..] == rest.AllFrames(mfs);
      FramesCarryPayload(rest, mfs);
      var payload := iter.msg.payload.value;
      assert payload[iter.processed..] == payload[iter.processed..rest.processed] + payload[rest.processed..];
    }
  }

  /** Every frame repeats the header; the first one of a payload, and no other, carries its length. */
  lemma {:induction false} FramesShape(iter: FrameIter, mfs: MaxFrameSize)
    requires iter.Valid()
    ensures var fs := iter.AllFrames(mfs);
      && (forall i :: 0 <= i < |fs| ==> fs[i].header == iter.msg.header)
      && (fs[0].lengthPrefix.Some? <==> iter.msg.payload.Some? && iter.processed == 0)
      && (forall i :: 1 <= i < |fs| ==> fs[i].lengthPrefix.None?)
    decreases iter.PayloadLen() - iter.processed
  {
    var fs := iter.AllFrames(mfs);
    if !iter.IsFinal(mfs) {
      var tail := iter.Rest(mfs).AllFrames(mfs);
      FramesShape(iter.Rest(mfs), mfs);
      assert forall i :: 1 <= i < |fs| ==> fs[i] == tail[i - 1];
    }
  }

  /** How many frames remain, and how long they are together. */
  lemma {:induction false} FramesCount(iter: FrameIter, mfs: MaxFrameSize)
    requires iter.Valid()
    ensures var fs := iter.AllFrames(mfs);
      var n := iter.PrefixLen() + iter.PayloadLen() - iter.processed;
      var u := WithoutHeader(mfs);
      && (n == 0 ==> |fs| == 1)
      && (n > 0 ==> |fs| == CeilDiv(n, u))
      && |Concat(fs)| == |fs| * SIZE + n
    decreases iter.PayloadLen() - iter.processed
  {
    var fs, u := iter.AllFrames(mfs), WithoutHeader(mfs);
    var n := iter.PrefixLen() + iter.PayloadLen() - iter.processed;
    FrameSize(iter, mfs);
    assert Concat(fs) == fs[0].Wire() + Concat(fs[1..]);
    if iter.IsFinal(mfs) {
      CeilDivSmall(n, u);
    } else {
      assert fs[1..] == iter.Rest(mfs).AllFrames(mfs);
      FramesCount(iter.Rest(mfs), mfs);
      assert n - u == iter.PayloadLen() - iter.Rest(mfs).processed;
      CeilDivStep(n, u);
    }
  }

  /** The closed forms of the sender agree with the frames it produces. */
  lemma ClosedForms(msg: OutgoingMessage, mfs: MaxFrameSize)
    requires msg.Valid()
    ensures var fs := msg.Frames().AllFrames(mfs);
      && msg.NumFrames(mfs) == |fs|
      && msg.TotalLen(mfs) == |Concat(fs)|
      && (msg.IsMultiFrame(mfs) <==> |fs| > 1)
  {
    var it, u := msg.Frames(), WithoutHeader(mfs);
    FramesCount(it, mfs);
    var n := it.PrefixLen() + it.PayloadLen();
    assert n == msg.NonHeaderLen();
    CeilDivSmall(0, u);
    assert msg.IsMultiFrame(mfs) <==> !it.IsFinal(mfs);
    if !it.IsFinal(mfs) {
      assert it.AllFrames(mfs)[1..] == it.Rest(mfs).AllFrames(mfs);
    }
  }

  /**
   * Truncation keeps a prefix that fits into one frame. It may keep up to four bytes fewer than
   * would have fitted (a shorter payload can have a shorter length prefix), never more.
   */
  lemma Truncation(msg: OutgoingMessage, mfs: MaxFrameSize)
    requires msg.Valid()
    ensures var m := msg.TruncateToSingleFrame(mfs);
      && |m.Frames().AllFrames(mfs)| == 1
      && m.header == msg.header
      && (msg.payload.None? <==> m.payload.None?)
      && (msg.payload.Some? ==>
            && m.payload.value <= msg.payload.value
            && (forall k :: |m.payload.value| + 4 < k <= |msg.payload.value| ==> PayloadIsMultiFrame(mfs, k)))
      && (!msg.IsMultiFrame(mfs) ==> m == msg)
  {
    ClosedForms(msg.TruncateToSingleFrame(mfs), mfs);
  }

  lemma LengthGrows(a: u32, b: u32)
    requires a <= b
    ensures Varint.LengthOf(a) <= Varint.LengthOf(b)
  {
  }

  /**
   * Truncation keeps all that would fit but for one byte at most, as it is meant to, exactly if the
   * length prefix of the whole payload is at most one byte longer than that of two bytes more than it
   * keeps.
   */
  lemma TruncationExact(msg: OutgoingMessage, mfs: MaxFrameSize)
    requires msg.Valid() && msg.payload.Some?
    ensures var n, kept := |msg.payload.value|, |msg.TruncateToSingleFrame(mfs).payload.value|;
      (forall k :: kept + 1 < k <= n ==> PayloadIsMultiFrame(mfs, k)) <==>
      (kept + 2 <= n ==> Varint.LengthOf(n) <= Varint.LengthOf(kept + 2) + 1)
  {
    hide Varint.LengthOf;
    var n, kept := |msg.payload.value|, |msg.TruncateToSingleFrame(mfs).payload.value|;
    if kept + 2 <= n {
      if PayloadIsMultiFrame(mfs, kept + 2) {
        forall k | kept + 1 < k <= n ensures PayloadIsMultiFrame(mfs, k) {
          LengthGrows(kept + 2, k);
        }
      }
    }
  }

  /** The loss of four bytes does occur. */
  lemma TruncationLosesFour(msg: OutgoingMessage, k: nat)
    requires msg.Valid() && msg.payload.Some? && |msg.payload.value| >= 0x1000_0000
    requires k == |msg.TruncateToSingleFrame(20).payload.value|
    ensures !PayloadIsMultiFrame(20, k + 4)
  {
  }

  // ---------------------------------------------------------------- the byte cursor

  /** Where in the payload a frame starts, after this many whole frames. */
  function PayloadStart(framesCompleted: nat, spaceInFrame: nat, prefixLen: nat): int {
    if framesCompleted == 0 then 0 else framesCompleted * spaceInFrame - prefixLen
  }

  /** The part of a payload from `start` to `end`, or to where it ends, less what is sent already. */
  function Window(payload: Bytes, start: int, end: int, progress: int): Bytes
    requires 0 <= start <= Min(end, |payload|) && 0 <= progress <= Min(end, |payload|) - start
  {
    payload[start..Min(end, |payload|)][progress..]
  }

  function FrameStart(msg: OutgoingMessage, mfs: MaxFrameSize, index: nat): int
    requires msg.Valid()
  {
    PayloadStart(index, WithoutHeader(mfs), |Prefix(msg)|)
  }

  /** The parts of a frame that the cursor can stand in, at `p` bytes after `j` whole frames. */
  ghost predicate PartsAt(raw: Bytes, prefix: Bytes, payload: Option<Bytes>, mfs: MaxFrameSize, j: nat, p: nat,
                          here: Bytes) {
    var start := PayloadStart(j, WithoutHeader(mfs), |prefix|);
    var l := if j == 0 then |prefix| else 0;
    var end := start + WithoutHeader(mfs) - l;
    && |raw| == SIZE
    && (j == 0 ==> start == 0)
    && (p < SIZE ==> raw[p..] <= here)
    && (SIZE <= p < SIZE + l ==> prefix[p - SIZE..] <= here)
    && (SIZE + l <= p ==>
          && payload.Some?
          && 0 <= start <= Min(end, |payload.value|)
          && p - SIZE - l < Min(end, |payload.value|) - start
          && Window(payload.value, start, end, p - SIZE - l) <= here
          && Window(payload.value, start, end, p - SIZE - l) != [])
  }

  /** The chunk at `frameProgress` bytes into the frame after `framesCompleted` whole ones. */
  function ChunkOf(raw: Bytes, prefix: Bytes, payload: Option<Bytes>, mfs: MaxFrameSize,
                   framesCompleted: nat, frameProgress: nat, ghost here: Bytes): (chunk: Bytes)
    requires PartsAt(raw, prefix, payload, mfs, framesCompleted, frameProgress, here)
    ensures chunk != [] && chunk <= here
  {
    hide Window; hide PayloadStart;
    var inFirstFrame := framesCompleted == 0;
    if frameProgress < SIZE then raw[frameProgress..]
    else if inFirstFrame && frameProgress < SIZE + |prefix| then prefix[frameProgress - SIZE..]
    else
      var spaceInFrame := WithoutHeader(mfs);
      var firstPreamble := SIZE + |prefix|;
      var start := PayloadStart(framesCompleted, spaceInFrame, |prefix|);
      var progress := frameProgress - if inFirstFrame then firstPreamble else SIZE;
      var end := if inFirstFrame then mfs - firstPreamble else start + spaceInFrame;
      Window(payload.value, start, end, progress)
  }

  /** Byte-wise cursor over all frames of one message, with no regard for frame boundaries. */
  class ByteIter {
    const msg: OutgoingMessage
    const lengthPrefix: Varint.Varint32
    const mfs: MaxFrameSize
    var consumed: nat

    ghost predicate Valid()
      reads this
    {
      && msg.Valid()
      && lengthPrefix.Valid()
      && lengthPrefix.AsRef() == Prefix(msg)
      && consumed <= Total() == |Everything()|
    }

    /** Everything the cursor will ever expose. */
    ghost function Everything(): Bytes
      requires msg.Valid()
    {
      Concat(msg.Frames().AllFrames(mfs))
    }

    constructor (msg: OutgoingMessage, mfs: MaxFrameSize)
      requires msg.Valid()
      ensures Valid() && this.msg == msg && this.mfs == mfs && consumed == 0
    {
      var prefix := Varint.SENTINEL;
      if msg.payload.Some? {
        prefix := Varint.Encode(|msg.payload.value|);
      }
      ClosedForms(msg, mfs);
      this.msg, this.mfs, this.lengthPrefix, this.consumed := msg, mfs, prefix, 0;
    }

    function Total(): nat
      requires msg.Valid()
    {
      msg.TotalLen(mfs)
    }

    function Remaining(): nat
      requires Valid()
      reads this
    {
      Total() - consumed
    }

    /** The contiguous bytes at the cursor. */
    function Chunk(): (chunk: Bytes)
      requires Valid()
      reads this
      ensures chunk <= Everything()[consumed..]
      ensures chunk == [] <==> Remaining() == 0
    {
      CursorPosition(msg, mfs, consumed);
      hide AtFrame; hide Concat; hide FrameIter.AllFrames; hide Header.Raw; hide Prefix;
      hide PartsAt; hide OutgoingMessage.TotalLen; hide ChunkOf; hide Quotient; hide Remainder;
      if Remaining() == 0 then []
      else
        ChunkOf(msg.header.Raw(), lengthPrefix.AsRef(), msg.payload, mfs,
                Quotient(consumed, mfs), Remainder(consumed, mfs), Everything()[consumed..])
    }

    method Advance(cnt: nat)
      requires Valid()
      modifies this
      ensures Valid() && consumed == Min(old(consumed) + cnt, Total())
    {
      consumed := Min(consumed + cnt, Total());
    }

    /** Copies out all that remains, chunk by chunk. */
    method CopyToBytes() returns (bytes: Bytes)
      requires Valid()
      modifies this
      ensures Valid() && Remaining() == 0
      ensures Everything()[..old(consumed)] + bytes == Everything()
    {
      hide Chunk;
      bytes := [];
      ghost var all := Everything();
      while Remaining() > 0
        invariant Valid()
        invariant all[..old(consumed)] + bytes == all[..consumed]
        decreases Remaining()
      {
        var chunk := Chunk();
        TakeMore(all, consumed, chunk);
        bytes := bytes + chunk;
        Advance(|chunk|);
      }
    }
  }

  function Prefix(msg: OutgoingMessage): Bytes
    requires msg.Valid()
  {
    if msg.payload.Some? then Varint.Encoding(|msg.payload.value|) else []
  }

  lemma TakeMore(all: Bytes, n: nat, chunk: Bytes)
    requires n <= |all| && chunk <= all[n..]
    ensures n + |chunk| <= |all| && all[..n] + chunk == all[..n + |chunk|]
  {
  }

  lemma SplitThree(a: Bytes, b: Bytes, c: Bytes, p: nat)
    requires p <= |a| + |b| + |c|
    ensures p <= |a| ==> a[p..] <= (a + b + c)[p..]
    ensures |a| <= p <= |a| + |b| ==> b[p - |a|..] <= (a + b + c)[p..]
    ensures |a| + |b| <= p ==> c[p - |a| - |b|..] == (a + b + c)[p..]
  {
  }

  /** The parts of a frame, by position inside it, as the cursor computes them. */
  lemma FrameParts(msg: OutgoingMessage, mfs: MaxFrameSize, j: nat, p: nat)
    requires msg.Valid() && (msg.payload.None? ==> j == 0)
    requires FrameStart(msg, mfs, j) >= 0 && (j > 0 <==> FrameStart(msg, mfs, j) > 0)
    requires FrameIter(msg, FrameStart(msg, mfs, j)).Valid()
    requires p < |FrameIter(msg, FrameStart(msg, mfs, j)).NextFrame(mfs).Wire()|
    ensures PartsAt(msg.header.Raw(), Prefix(msg), msg.payload, mfs, j, p,
                    FrameIter(msg, FrameStart(msg, mfs, j)).NextFrame(mfs).Wire()[p..])
  {
    hide Varint.Encoding; hide Varint.LengthOf; hide Header.Raw; hide PayloadStart;
    var iter := FrameIter(msg, FrameStart(msg, mfs, j));
    var frame := iter.NextFrame(mfs);
    var prefix := if j == 0 then Prefix(msg) else [];
    assert frame.Wire() == msg.header.Raw() + prefix + frame.segment;
    SplitThree(msg.header.Raw(), prefix, frame.segment, p);
  }

  /** The frame that the byte at `consumed` belongs to, and what the cursor must show there. */
  lemma CursorPosition(msg: OutgoingMessage, mfs: MaxFrameSize, consumed: nat)
    requires msg.Valid() && consumed <= msg.TotalLen(mfs)
    ensures |Concat(msg.Frames().AllFrames(mfs))| == msg.TotalLen(mfs)
    ensures consumed < msg.TotalLen(mfs) ==>
              PartsAt(msg.header.Raw(), Prefix(msg), msg.payload, mfs,
                      Quotient(consumed, mfs), Remainder(consumed, mfs),
                      Concat(msg.Frames().AllFrames(mfs))[consumed..])
  {
    ClosedForms(msg, mfs);
    if consumed < msg.TotalLen(mfs) {
      var j, p := Locate(msg.Frames(), mfs, 0, consumed, consumed);
      QuotientUnique(consumed, mfs, j, p);
      FrameParts(msg, mfs, j, p);
      PartsExtend(msg, mfs, j, p, FrameIter(msg, FrameStart(msg, mfs, j)).NextFrame(mfs).Wire()[p..],
                  Concat(msg.Frames().AllFrames(mfs))[consumed..]);
    }
  }

  lemma PartsExtend(msg: OutgoingMessage, mfs: MaxFrameSize, j: nat, p: nat, here: Bytes, more: Bytes)
    requires msg.Valid() && here <= more
    requires PartsAt(msg.header.Raw(), Prefix(msg), msg.payload, mfs, j, p, here)
    ensures PartsAt(msg.header.Raw(), Prefix(msg), msg.payload, mfs, j, p, more)
  {
  }

  /** Frame `index` starts at a valid iterator, and its bytes from `progress` on come next. */
  ghost predicate AtFrame(msg: OutgoingMessage, mfs: MaxFrameSize, index: nat, progress: nat, consumed: nat)
    requires msg.Valid() && consumed <= |Concat(msg.Frames().AllFrames(mfs))|
  {
    && FrameStart(msg, mfs, index) >= 0
    && (msg.payload.None? ==> index == 0)
    && var it := FrameIter(msg, FrameStart(msg, mfs, index));
    && it.Valid() && (index > 0 ==> it.processed > 0)
    && progress < |it.NextFrame(mfs).Wire()|
    && it.NextFrame(mfs).Wire()[progress..] <= Concat(msg.Frames().AllFrames(mfs))[consumed..]
  }

  lemma {:induction false} Locate(it: FrameIter, mfs: MaxFrameSize, index: nat, q: nat, consumed: nat)
    returns (j: nat, p: nat)
    requires it.Valid() && it.processed == FrameStart(it.msg, mfs, index)
    requires it.msg.payload.None? ==> index == 0
    requires index > 0 ==> it.processed > 0
    requires consumed == index * mfs + q && consumed <= |Concat(it.msg.Frames().AllFrames(mfs))|
    requires q < |Concat(it.AllFrames(mfs))|
    requires Concat(it.AllFrames(mfs))[q..] == Concat(it.msg.Frames().AllFrames(mfs))[consumed..]
    ensures p < mfs && consumed == j * mfs + p
    ensures AtFrame(it.msg, mfs, j, p, consumed)
    decreases q
  {
    hide AtFrame; hide Varint.LengthOf; hide FrameIter.AllFrames; hide Concat; hide FrameStart;
    if q < mfs {
      InFrame(it, mfs, index, q, consumed);
      j, p := index, q;
    } else {
      NextStart(it, mfs, index);
      MulSucc(index, mfs);
      j, p := Locate(it.Rest(mfs), mfs, index + 1, q - mfs, consumed);
    }
  }

  lemma ConcatHead(fs: seq<OutgoingFrame>)
    requires fs != []
    ensures Concat(fs) == fs[0].Wire() + Concat(fs[1..])
    ensures forall q :: 0 <= q <= |fs[0].Wire()| ==> fs[0].Wire()[q..] <= Concat(fs)[q..]
    ensures forall q :: |fs[0].Wire()| <= q <= |Concat(fs)| ==> Concat(fs)[q..] == Concat(fs[1..])[q - |fs[0].Wire()|..]
  {
  }

  lemma InFrame(it: FrameIter, mfs: MaxFrameSize, index: nat, q: nat, consumed: nat)
    requires it.Valid() && it.processed == FrameStart(it.msg, mfs, index)
    requires it.msg.payload.None? ==> index == 0
    requires index > 0 ==> it.processed > 0
    requires consumed <= |Concat(it.msg.Frames().AllFrames(mfs))|
    requires q < mfs && q < |Concat(it.AllFrames(mfs))|
    requires Concat(it.AllFrames(mfs))[q..] == Concat(it.msg.Frames().AllFrames(mfs))[consumed..]
    ensures AtFrame(it.msg, mfs, index, q, consumed)
  {
    var fs := it.AllFrames(mfs);
    FrameSize(it, mfs);
    ConcatHead(fs);
    assert it.IsFinal(mfs) ==> fs[1..] == [];
    assert q < |fs[0].Wire()|;
    assert it == FrameIter(it.msg, FrameStart(it.msg, mfs, index));
  }

  lemma LastFrame(it: FrameIter, mfs: MaxFrameSize)
    requires it.Valid()
    ensures it.IsFinal(mfs) ==> |Concat(it.AllFrames(mfs))| <= mfs
  {
    FrameSize(it, mfs);
    if it.IsFinal(mfs) { assert it.AllFrames(mfs)[1..] == []; }
  }

  lemma NextStart(it: FrameIter, mfs: MaxFrameSize, index: nat)
    requires it.Valid() && it.processed == FrameStart(it.msg, mfs, index)
    requires it.msg.payload.None? ==> index == 0
    requires index > 0 ==> it.processed > 0
    requires |Concat(it.AllFrames(mfs))| > mfs
    ensures !it.IsFinal(mfs)
    ensures it.msg.payload.Some? && it.Rest(mfs).processed == FrameStart(it.msg, mfs, index + 1)
    ensures |Concat(it.Rest(mfs).AllFrames(mfs))| == |Concat(it.AllFrames(mfs))| - mfs
    ensures forall q :: mfs <= q <= |Concat(it.AllFrames(mfs))| ==>
      Concat(it.AllFrames(mfs))[q..] == Concat(it.Rest(mfs).AllFrames(mfs))[q - mfs..]
  {
    FrameSize(it, mfs);
    ConcatHead(it.AllFrames(mfs));
    LastFrame(it, mfs);
    assert it.AllFrames(mfs)[1..] == it.Rest(mfs).AllFrames(mfs);
    MulSucc(index, WithoutHeader(mfs));
  }
}
