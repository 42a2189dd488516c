# Juliet, verified

A model of the Juliet crate, a multiplexing request/response protocol, from the bytes of a header up
to the guards of the RPC layer, and proofs about it. `dafny verify dfyconfig.toml` checks all of it.

Two peers are joined by a byte stream in each direction. On each of up to 256 channels both make
requests, which the other answers by a response or a cancellation. Messages longer than a frame are
divided; frames of all messages take turns, but for one message of several frames per channel at a
time. Each file models one layer and builds on those before it:

| file | what it models |
|---|---|
| `Types`, `Arithmetic` | integers of fixed width, results, and a few facts about division |
| `Bits`, `Varint`, `Header` | the codecs, and the bit operations in them |
| `Message` | outgoing messages, the frame iterator, and the byte cursor that must agree with it |
| `Multiframe` | the receiver of messages in several frames |
| `Protocol` | the protocol state machine, as functions on values |
| `JulietProtocol` | the same as it is written: channels and the parse loop update their state in place |
| `Verdicts` | what the parser makes of any frame from any peer: refused and why, waited for, or taken |
| `Streaming` | parsing a growing buffer: chunks do not matter, channels do not interfere |
| `Transfer`, `Reassembly` | the frame iterator against the receiver: fragment, interleave, reassemble |
| `Duplex`, `DuplexSteps`, `DuplexReceive` | one channel between two peers: the invariant, and that every step keeps it |
| `CancelGuard`, `Limits` | where the promises end, and exactly when |
| `IoState` | the IO scheduler, as functions on values |
| `IoCore` | the same as it is written |
| `Sending` | all that can become of an item that is handed over, and what is left behind in the queues |
| `WaitQueue`, `Scheduling`, `RequestIds`, `LocalIds`, `IdSupply` | the queues of the scheduler, the mapping of local ids, and when identifiers are used again |
| `TwoPeers`, `PeerSends`, `PeerSteps`, `PeerReceives`, `Runs`, `Exchange` | two IO layers with many channels and two byte streams: runs |
| `Discipline`, `Reports`, `Events` | in runs: what is sent can be reassembled, answers are reported to the right ones, requests with their payloads |
| `Errors` | errors from one peer to the other, and the end of the connection |
| `Threshold`, `ThresholdRuns` | skipping the parser until enough bytes have arrived |
| `Rpc` | guards, timeouts and shutdown of the RPC layer |

The layers compose. A step of the two IO layers is a step of one channel of `Duplex`; its invariant
says that the frame which arrives next passes every check of the parser (`DuplexReceive`); `Transfer`
says what the parser does with the bytes of such a frame; `Streaming` says that it does not matter in
which portions they arrive. So in no run of two honest peers is either ever at fault: nothing they send
is refused, and nothing they receive is a violation (`Runs.HonestRunsNeverViolate`). What one sends the
other receives, unaltered and in order (`Runs.DeliveredIntact`). One error is left: an answer may belong
to no request, which is an internal error, but only after an identifier has been used again too early.
In runs with at most 65535 requests on a channel that does not happen: every answer is reported to the
one that asked for it, once (`Reports.FewRequestsNeverMisreport`).

An honest local endpoint (`PeerSends.Honest`) keeps to the limits on payloads, answers a request once
and after it has been reported, and cancels a request at most once and not while a message with its
identifier has more than one frame to go. That no identifier is given to two requests under way, and
that answers come after the last frame of a request, is proved.

## Where the code does less than it seems to promise

* A response frees its identifier before it is reported, and the wait queue is processed in between
  (`src/io.rs:539-547`). A waiting request can get the same identifier; then the response is reported
  to that request, and the answer to that one is an internal error. `RequestIds.AnswerGoesAstray` is
  such a state, `RequestIds.NextAnswerIsForNobody` is the internal error, `RequestIds.WrapIsReached` leads
  a channel there, and `RequestIds.ResponseReachesAsker` says exactly when it happens. It takes a request
  that is open while almost all identifiers are given out after it (`IdSupply.SpacedIsNotReused`).
* A cancellation drops a transfer in progress by its id, whether it is of a request or of a response,
  while the sender goes on sending it (`src/protocol.rs:985-995`). `CancelGuard.CancelGuardIsExact` says
  exactly when that happens, and `Limits.FrameAfterCancellationIsFatal` what follows.
* A request that is cancelled again, though it is still open, may make the peer reject the cancellation
  and close the connection: exactly if no allowance is left when it arrives
  (`CancelGuard.CancellationIsRejected`).
* A response that is too large makes its request unanswerable, and the error names the limit for
  requests (`src/protocol.rs:670-682`, `Limits.LargeResponseIsForgotten`).
* Custom errors are documented to be truncated (`src/io.rs:1180`), but long ones are rejected
  (`Limits.LongErrorsAreRejected`).
* Cancelling a request that still waits to be sent does nothing: a cancellation takes effect exactly for
  what is mapped (`Limits.CancelsWhatIsMapped`).
* Truncation to one frame may lose four bytes, not one (`Message.TruncationLosesFour`);
  `Message.TruncationExact` says for which lengths it loses more than one.
* The decoder of integers accepts encodings that are not minimal (`Varint.AcceptsNonMinimal`):
  all that are longer than the encoder's own (`Varint.ReencodesExactly`).

The text of the RFC that the crate refers to is not part of this model; the code is the specification.

## Model

| member | source | states |
|---|---|---|
| Varint.Decode | src/varint.rs:34-59 | the decoding loop yields exactly what the format says of its input: value and length, overflow, or one more byte needed |
| Varint.Encode | src/varint.rs:92-107 | the encoding loop writes the base-128 digits, least significant first, with their number in the last byte; never the sentinel |
| Varint.DecodeMeaning | src/varint.rs:34-59 | each of the three outcomes, if and only if the input looks a certain way; a decoded value is the number that the digits write |
| Varint.EncodingIsVarint | src/varint.rs:92-107 | every 32-bit value is encoded as a complete varint with that value |
| Varint.EncodingBytes | src/varint.rs:92-107 | every byte of every encoding: seven bits each, the low ones first, the top bit on all but the last |
| Varint.NumberBytes | src/varint.rs:45-47 | the number that one to five bytes write, term by term |
| Varint.RoundTrip | src/varint.rs:34-107 | decoding an encoding, whatever follows it, yields the value and its length |
| Varint.PrefixIncomplete | src/varint.rs:34-63 | no strict prefix of an encoding decodes: one more byte is asked for |
| Varint.Minimal | src/varint.rs:145-163 | every accepted encoding is at least as long as the one that the encoder writes |
| Varint.ReencodesExactly | src/varint.rs:34-107 | what the decoder accepts is what the encoder writes for the value if and only if it has as many bytes as that |
| Varint.AcceptsNonMinimal | src/varint.rs:34-59 | the decoder does accept a longer encoding, so that decoding is not injective |
| Varint.VarintBound | src/varint.rs:39-55 | an accepted encoding never exceeds 32 bits: the check of the fifth byte suffices |
| Bits.PlaceAdds | src/varint.rs:41-47 | shifting a digit that has passed the checks into place and or-ing it into a 32-bit value adds it with its weight: no bit is lost or met; the decoding loop works on such values |
| Varint.DecodeExtend | src/varint.rs:34-63 | bytes after a decided result change nothing; an undecided one ends beyond the buffer |
| Header.ParseInvertsRaw | src/header.rs:132-176 | the bytes of every header parse as that header |
| Header.ParseMeaning | src/header.rs:153-176 | which four bytes parse at all, and that the parsed header has their bytes, but for the reserved bits |
| Header.WireFormat | src/header.rs:46-115 | the four bytes of every header: the byte of each of the six kinds and fourteen error kinds, the channel, and the id with its low byte first |
| Header.ParsesAsAnnounced | src/header.rs:132-176 | four bytes parse as a header if and only if they are those bytes, reserved bits aside |
| Header.MaskIsRemainder | src/header.rs:153-157 | the masks with which a kind byte is taken apart, on bits, as the arithmetic by which it is reasoned about |
| Header.RawInjective | src/header.rs:256-266 | two headers are equal exactly when their bytes are |
| Message.NextOwned | src/protocol/outgoing_message.rs:242-277 | a step of the frame iterator yields the next frame and, unless it was the last, the iterator for the rest |
| Message.FrameSize | src/protocol/outgoing_message.rs:242-277 | no frame exceeds the maximum size, and only the last one of a message is smaller |
| Message.FramesCarryPayload | src/protocol/outgoing_message.rs:242-277 | the segments of all frames together are the payload |
| Message.FramesShape | src/protocol/outgoing_message.rs:242-277 | every frame repeats the header; the first of a payload, and no other, carries its length |
| Message.FramesCount | src/protocol/outgoing_message.rs:98-113 | how many frames remain from any point on, and how many bytes they have |
| Message.ClosedForms | src/protocol/outgoing_message.rs:48-113 | number of frames, total length and the multi-frame test in closed form agree with the iterator |
| Message.Truncation | src/protocol/outgoing_message.rs:148-157 | truncation leaves one frame with a prefix of the payload that is at most four bytes shorter than it could be |
| Message.TruncationExact | src/protocol/outgoing_message.rs:148-157 | truncation loses at most one byte of what would fit, as its comment says, if and only if the prefix of the whole payload is at most one byte longer than that of two bytes more than it keeps |
| Message.TruncationLosesFour | src/protocol/outgoing_message.rs:150-156 | the loss of four bytes occurs, where the comment speaks of one |
| Message.ByteIter.constructor | src/protocol/outgoing_message.rs:121-133 | the byte cursor starts at the front of the bytes of all frames |
| Message.ByteIter.Chunk | src/protocol/outgoing_message.rs:318-363 | the chunk at the cursor is part of the bytes of all frames there, never out of range, and empty only at the end |
| Message.ByteIter.Advance | src/protocol/outgoing_message.rs:365-368 | advancing by no more than the chunk moves the cursor by that much |
| Message.ByteIter.CopyToBytes | src/protocol/outgoing_message.rs:141-144 | draining the cursor, by chunks, yields the concatenation of the frames of the iterator |
| Multiframe.DetectStartingSegment | src/protocol/multiframe.rs:249-284 | a detected segment lies within the buffer, is at most as long as its payload, and is not empty unless the payload is complete |
| Multiframe.AcceptFrame | src/protocol/multiframe.rs:99-183 | a transfer in progress always holds more than nothing and less than all of its payload; what is taken is at least a header; nothing changes unless a frame is taken |
| Multiframe.MultiframeReceiver.Accept | src/protocol/multiframe.rs:99-183 | the receiver and the buffer, updated in place, are as the specification says in every branch |
| Multiframe.MultiframeReceiver.ExtractSegment | src/protocol/multiframe.rs:200-222 | the next segment is appended and taken off the buffer if it is there in full; else it says how much is missing |
| Multiframe.AcceptExtend | src/protocol/multiframe.rs:99-284 | more bytes change nothing that is decided; fewer than asked for leave the receiver asking for the difference |
| Protocol.FreeWithinTurn | src/protocol.rs:286-300 | as long as not all identifiers are in use, one is free within a full turn: the search for one ends |
| Protocol.NextIdIsNextFree | src/protocol.rs:286-300 | the generated identifier is unused, and every one passed over is in use |
| Protocol.CreateRequestIsFresh | src/protocol.rs:621-644 | a checked request always gets an unused identifier: the fallback to zero is never taken |
| Protocol.ChannelPass | src/protocol.rs:869-1027 | a pass that goes on consumes a header at least; one that asks for more bytes changes nothing; receiver invariant and configuration are kept |
| Protocol.Pass | src/protocol.rs:797-1029 | the same for the whole parser |
| Protocol.ProcessIncomingReports | src/protocol.rs:792-1042 | a read names a channel that exists, and a failure is answered by an error header without a payload |
| Verdicts.EveryFrameIsJudged | src/protocol.rs:869-1027 | every state, header and buffer: exactly how many bytes are waited for, and then that the frame is refused if and only if there is one of the listed reasons, with the error of the first of them |
| Verdicts.EveryFrameIsTaken | src/protocol.rs:869-1027 | a frame that is not refused: the whole new state of the channel, the bytes used up, and the read with its payload |
| Verdicts.RefusedFrame | src/protocol.rs:869-1027 | a refused frame changes nothing and is not used up, but for a first frame of a request that cannot be admitted |
| Verdicts.EveryErrorIsJudged | src/protocol.rs:818-861 | error frames, in the same way: waited for, refused, or read with the data that follows their length |
| Verdicts.EveryBufferIsJudged | src/protocol.rs:797-869 | every buffer: too short, no header, no such channel, or judged as a frame of its channel alone |
| Verdicts.StaysWithin | src/protocol.rs:869-1027 | no frame, from whatever peer, makes a channel exceed its limits: requests tracked, cancellations allowed, and bytes held of a payload whose size is within the limit of its kind |
| Verdicts.NothingExceedsLimits | src/protocol.rs:792-1030 | nor does any stream of bytes |
| Verdicts.NewIsWithin | src/protocol.rs:254-263 | new channels are within their limits |
| Verdicts.CreatingStaysWithin | src/protocol.rs:606-739 | nor does the local endpoint |
| JulietProtocol.Channel.constructor | src/protocol.rs:254-263 | a new channel tracks nothing |
| JulietProtocol.Channel.IncrementCancellationAllowance | src/protocol.rs:275-279 | the allowance grows by one, up to the request limit |
| JulietProtocol.Channel.GenerateRequestId | src/protocol.rs:286-300 | the search loop ends and finds the next free identifier |
| JulietProtocol.Channel.CreateUncheckedRequest | src/protocol.rs:319-339 | the new identifier is tracked, and the message has it |
| JulietProtocol.Channel.ProcessRequestPl | src/protocol.rs:905-939 | the branch for requests with a payload, in place, is the specification |
| JulietProtocol.Channel.ProcessResponsePl | src/protocol.rs:940-967 | the branch for responses with a payload, in place, is the specification |
| JulietProtocol.Channel.ProcessFrame | src/protocol.rs:869-1027 | all branches, in place, are the specification |
| JulietProtocol.JulietProtocol.constructor | src/protocol.rs:201-209 | all channels are new and share no state |
| JulietProtocol.JulietProtocol.AllowedToSendRequest | src/protocol.rs:598-604 | whether a channel has room for a request, or that it does not exist |
| JulietProtocol.JulietProtocol.CreateRequest | src/protocol.rs:621-644 | the new state of all channels, and the message or the reason why there is none |
| JulietProtocol.JulietProtocol.CreateResponse | src/protocol.rs:662-686 | the same for a response: the request is forgotten before the size is checked |
| JulietProtocol.JulietProtocol.CancelRequest | src/protocol.rs:699-714 | a cancellation for a request under way, else nothing |
| JulietProtocol.JulietProtocol.CancelResponse | src/protocol.rs:726-739 | the request is forgotten and its cancellation created, else nothing |
| JulietProtocol.JulietProtocol.CustomError | src/protocol.rs:749-768 | an error that fits into a frame, else a violation |
| JulietProtocol.JulietProtocol.ProcessError | src/protocol.rs:818-861 | an error frame with its data is taken off the buffer, in place, as specified |
| JulietProtocol.JulietProtocol.ProcessNext | src/protocol.rs:797-1029 | one pass of the parse loop, in place, is the specification and touches one channel only |
| JulietProtocol.JulietProtocol.ProcessIncoming | src/protocol.rs:792-1030 | the parse loop ends, and its result, the state and the buffer are as specified |
| Streaming.PassExtend | src/protocol.rs:797-1029 | what a pass decides is final; `Incomplete(n)` is never zero, fits 32 bits, and fewer than `n` more bytes change nothing |
| Streaming.PassLocal | src/protocol.rs:797-1029 | a pass depends on the bytes that it consumes and on no others |
| Streaming.DrainSplit | src/protocol.rs:792-1030 | parsing in two portions is parsing at once |
| Streaming.ChunkIndependence | src/protocol.rs:770-791 | however a stream is cut, parsing after every chunk gives the same reads, the same first error and, without one, the same state and leftover |
| Streaming.IncompleteIsExact | src/protocol.rs:776-780 | before the bytes asked for have arrived, calling the parser again only lowers the number |
| Streaming.PassOnChannel | src/protocol.rs:863-1027 | a pass over a frame of a channel reads and changes that channel only |
| Streaming.ChannelIsolation | src/protocol.rs:863-1027 | the frames of one channel alone leave it in the same state and give the same reads as interleaved with all others |
| Transfer.HeaderParses | src/protocol/outgoing_message.rs:400-424 | the bytes of any frame of the iterator parse as the header of the message |
| Transfer.AcceptsFirst | src/protocol/multiframe.rs:106-166 | a receiver that can take the first frame of a message takes all of it, and then holds its segment |
| Transfer.AcceptsNext | src/protocol/multiframe.rs:167-180 | a receiver in the middle of a message takes its next frame, and after the last one holds the payload byte for byte |
| Reassembly.NextIsTaken | src/protocol.rs:863-1027 | a frame that the ledger of its channel admits is taken in full, and the ledger stays true |
| Reassembly.ReassemblyIsIdentity | src/protocol.rs:783-785 | for any legal interleaving of any messages: no error, no remainder, and every message once, unaltered, in the order of last frames |
| Reassembly.ReassemblyInChunks | src/protocol.rs:770-785 | the same, however the bytes are cut into chunks |
| Discipline.SentIsLegalOn | src/protocol.rs:863-1027 | on a channel between two peers, the ledger of the receiver admits every frame on its way, in order |
| Discipline.ServedIsLegalOn | src/io.rs:826-854 | so it does if the sender serves its queue in turns for any length of time |
| Discipline.SentIsLegal | src/io.rs:826-854 | in every state that two peers get to, all that is on its way, on all channels, meets the discipline of the reassembly theorem |
| Discipline.OnItsWayIsReassembled | src/protocol.rs:770-785 | so the bytes on the wire and in the buffer, in any portions, yield the messages that end in them, and no error |
| DuplexSteps.RequestKeepsInv | src/protocol.rs:606-644 | creating a request keeps conservation, allowance, lock, order and delivery between two peers |
| DuplexSteps.AnswerKeepsInv | src/protocol.rs:646-739 | so does answering a request that is complete |
| DuplexSteps.CancelKeepsInv | src/protocol.rs:688-714 | so does cancelling a request once, when no message with its id has more than a frame to go |
| DuplexSteps.ReadyKeepsInv | src/io.rs:826-854 | so does readying the next frame in turn |
| DuplexSteps.SentKeepsInv | src/io.rs:579-592 | so does finishing a frame, with the release of the lock |
| DuplexReceive.HeadIsWelcome | src/protocol.rs:869-1027 | what the invariant says of the frame that arrives next: no check of the parser can fail on it |
| DuplexReceive.WelcomeIsAccepted | src/protocol.rs:869-1027 | such a frame is taken in full, with this new state and this read |
| DuplexReceive.ReceiveKeepsInv | src/protocol.rs:792-1030 | so the frame never causes an error, its bytes are consumed exactly, and the invariant is kept |
| DuplexReceive.CompleteIsReported | src/protocol.rs:881-940 | the requests that may be answered are those that have been reported: receiving adds exactly the one that it reports |
| CancelGuard.CancellationIsRejected | src/protocol.rs:968-976 | a cancellation of a request under way, the first or a repeated one, whatever is ahead of it: the parser takes all of that, and then rejects the cancellation if and only if no allowance is left |
| CancelGuard.CancelGuardIsExact | src/protocol.rs:985-1000 | the parser, when it comes to the first cancellation of a request, keeps its transfer if and only if no message with that id had more than one frame left to send; else it drops the transfer and the request without an error, and frames of the message are still queued |
| Limits.CancellationDropsTransfer | src/protocol.rs:968-1000 | a cancellation drops the transfer in progress, of a request or of a response, exactly if it has the same id |
| Limits.FrameAfterCancellationIsFatal | src/protocol.rs:985-995 | on a channel that takes the first frame of a request: its next frame is taken, but is a violation if the request is cancelled before |
| Limits.SecondCancellationIsFatal | src/protocol.rs:968-976 | with room for one request, cancelling it twice is a violation |
| Limits.CancelsWhatIsMapped | src/io.rs:782-790 | a cancellation is sent, and does anything at all, if and only if the request has left the wait queue and has not been answered |
| Limits.WaitingRequestIsNotCancelled | src/io.rs:782-790 | so cancelling a request that still waits does nothing |
| Limits.OnlySizeMatters | src/io.rs:764-811 | sending what need not wait fails exactly if the payload is too large: a request that may be sent never exceeds the request limit |
| Limits.LargeResponseIsForgotten | src/protocol.rs:670-682 | a response that is too large leaves the request without any answer, and the error names the wrong limit |
| Limits.LongErrorsAreRejected | src/protocol.rs:755-767 | a custom error is sent in full or rejected, exactly if it does not fit; it is never cut |
| IoCore.IoCore.constructor | src/io.rs:446-466 | nothing is queued and no channel is locked |
| IoCore.IoCore.ItemShouldWait | src/io.rs:917-957 | whether an item waits, and on which channel, as specified |
| IoCore.IoCore.InjectError | src/io.rs:669-693 | queues, buffer and mapping are emptied, the error is the next frame, and nothing is parsed again |
| IoCore.IoCore.Push | src/io.rs:772-775 | a message is queued, and locks its channel exactly if it takes several frames |
| IoCore.IoCore.SendQueuedRequest | src/io.rs:766-781 | the request gets an id on the wire, the mapping has the pair, and the message is queued |
| IoCore.IoCore.SendQueuedResponse | src/io.rs:792-805 | the response is queued unless the request is gone |
| IoCore.IoCore.SendToReadyQueue | src/io.rs:764-824 | all kinds of items, as specified |
| IoCore.IoCore.HandleIncomingItem | src/io.rs:749-761 | the item waits or is sent, as specified |
| IoCore.IoCore.ReadyNextFrame | src/io.rs:834-854 | the front message gives the current frame, and what remains of it goes to the back |
| IoCore.IoCore.ProcessFront | src/io.rs:860-871 | the front item is sent or put back |
| IoCore.IoCore.ProcessWaitQueue | src/io.rs:857-881 | the counted loop ends and does what the recursive specification says |
| IoCore.IoCore.FrameSent | src/io.rs:577-610 | the lock is released by the last frame of its message, and then the wait queue is processed |
| IoCore.IoCore.HandleCompletedRead | src/io.rs:696-745 | the event, with the local id restored and its pair removed |
| IoCore.IoCore.ParseStep | src/io.rs:524-550 | parsing when due, the threshold, and what follows a response, an error or a failure |
| IoCore.IoCore.ErrorSent | src/io.rs:498-527 | the pending error has been written: the connection ends with its header, and its data if it is an application defined one |
| WaitQueue.WaitsExactly | src/io.rs:917-957 | a request or a response waits if and only if there is no room for a request, or its channel is locked and it takes more than one frame |
| WaitQueue.WaitsOrGoesOut | src/io.rs:749-761 | handing it over leaves the wait queues alone if and only if it need not wait; else it goes to the end of the queue of its channel, and nothing else happens |
| Sending.CreateRequestOutcome | src/protocol.rs:621-644 | the three reasons why a request is not created, in order, and the message and the state if it is |
| Sending.AnswerOutcome | src/protocol.rs:662-739 | the same for a response and for its cancellation |
| Sending.CancelOutcome | src/protocol.rs:699-714 | the same for the cancellation of a request |
| Sending.RequestOutcome | src/io.rs:749-781 | all that can become of a request that is handed over, with the whole new state: no such channel, waits, too large, or tracked, mapped and queued, with the lock |
| Sending.ResponseOutcome | src/io.rs:749-805 | the same for a response |
| Sending.ResponseCancellationOutcome | src/io.rs:806-812 | the same for the cancellation of a response |
| Sending.FrontOrBack | src/io.rs:860-871 | the front item of a wait queue leaves it if and only if it may go out; the loop stops exactly if there is no more room for requests |
| Sending.ProcessedLeavesNone | src/io.rs:857-881 | after that no request is left behind that may go out and, with room for requests, nothing at all that may |
| Sending.FrameSentOutcome | src/io.rs:577-610 | so after every frame written out, on its channel; an error frame ends the connection; with nothing waiting, only the lock may change |
| Sending.ResponseLeavesNone | src/io.rs:539-547 | so after every response parsed |
| WaitQueue.WaitingIsMonotone | src/io.rs:917-957 | sending an item never makes room for another |
| WaitQueue.ProcessWaitingConserves | src/io.rs:857-881 | after any number of iterations: the items sent, in order, and those left are together the items that were there |
| WaitQueue.ProcessWaitQueueConserves | src/io.rs:857-881 | the same for the whole loop, and nothing left behind may go out, requests ever and responses unless the channel is saturated; if nothing could be sent, the queue is as it was |
| Scheduling.ServedInTurn | src/io.rs:834-854 | what is at position p of the ready queue is served on call p + 1, whatever is queued meanwhile |
| Scheduling.FramesLeaveInOrder | src/io.rs:834-854 | of every message in the ready queue, whatever else is queued meanwhile: the frames made current are its frames, in order and each once, and the rest is what is still queued |
| Scheduling.SendAppends | src/io.rs:764-811 | only an error overtakes: everything else goes to the end of the ready queue |
| RequestIds.InsertMaps | src/io.rs:771-771 | inserting adds exactly one right side, and keeps the mapping bijective |
| RequestIds.RemoveUnmaps | src/io.rs:724-743 | removing takes exactly one right side away, and finds its left side if and only if there is one |
| RequestIds.ProcessIncomingEnds | src/protocol.rs:792-1030 | an answer that is read ends one request under way; no other read changes them |
| RequestIds.SendKeepsMap | src/io.rs:764-811 | sending an item with a fresh local id keeps the mapping in agreement with the requests under way |
| RequestIds.ProcessWaitingKeepsMap | src/io.rs:857-881 | so does processing a wait queue |
| RequestIds.FirstOfFree | src/protocol.rs:286-300 | giving out an identifier either yields this one or leaves one free identifier fewer before it |
| RequestIds.ReusedExactly | src/io.rs:540-544 | an identifier just freed is used again at once exactly if more requests leave the wait queue than there are free identifiers before it |
| RequestIds.ResponseReachesAsker | src/io.rs:539-547 | a response is reported to the one who asked, and the mapping stays in agreement, if and only if the identifier is not used again in between |
| RequestIds.CancellationReachesAsker | src/io.rs:735-743 | a cancellation response always reaches the one who asked |
| RequestIds.OtherReadsKeepMap | src/io.rs:701-718 | no other read touches the mapping |
| RequestIds.AnswerGoesAstray | src/io.rs:539-547 | a state in which a response is reported to the wrong request, and the mapping no longer agrees |
| RequestIds.WrapIsReached | src/protocol.rs:286-300 | a channel gets into that state from its start |
| RequestIds.ErrorIfForNobody | src/io.rs:719-743 | an answer is an internal error if and only if no request is mapped to its identifier |
| RequestIds.NextAnswerIsForNobody | src/io.rs:719-734 | after that, the answer to the other request is an internal error |
| IdSupply.FreeBeforeAtLeast | src/protocol.rs:286-300 | how many identifiers are free before one that was given out: all but those in use |
| IdSupply.FreeWhileUnwrapped | src/protocol.rs:286-300 | while identifiers have not come round, at least 65536 less the number given out are free before any of them |
| IdSupply.TakenRequests | src/io.rs:857-881 | no more requests leave a wait queue than there are in it, or than the request limit leaves room for |
| IdSupply.SpacedIsNotReused | src/io.rs:539-547 | no identifier is used again before its answer is reported if, since each one under way was given out, fewer than 65536 less the request limit have been |
| IdSupply.EarlyIsSpaced | src/protocol.rs:286-300 | that is so while the number given out and the request limit are 65536 at most together |
| IdSupply.CountedIsNotReused | src/io.rs:539-547 | no identifier is used again if no more than 65536 requests were handed over on a channel |
| LocalIds.EnqueueAgrees | src/io.rs:749-811 | handing over an item with an unused local id keeps the agreement, on all channels |
| LocalIds.FrameSentAgrees | src/io.rs:577-610 | so does writing out a frame |
| LocalIds.ParseAgrees | src/io.rs:524-550 | so does parsing, and no answer belongs to nobody, unless an identifier is used again too early |
| LocalIds.ProcessUses | src/io.rs:857-881 | processing a wait queue moves local ids into the mapping; none gets lost, and none that is mapped changes |
| LocalIds.ParseReports | src/io.rs:524-550 | an answer is reported to the local id that its identifier is mapped to, which is then out of use, and no other local id is told of anything |
| PeerSends.SendKeepsGood | src/io.rs:764-811 | in the model of two peers: sending an item that need not wait succeeds, and is one step of one channel |
| PeerSteps.EnqueueKeepsGood | src/io.rs:749-761 | handing over an item succeeds and keeps the invariant of both peers |
| PeerSteps.Drained | src/io.rs:857-881 | processing a wait queue succeeds and keeps it |
| PeerSteps.ReadyKeepsGood | src/io.rs:834-854 | readying a frame keeps it |
| PeerSteps.WrittenIo | src/io.rs:577-610 | writing out a frame, releasing the lock and processing the wait queue succeed and keep it |
| PeerSteps.DeliverKeepsGood | src/io.rs:1212-1240 | delivering any number of bytes keeps it |
| PeerReceives.PassNeedsFrame | src/protocol.rs:792-1030 | with all of a frame in the buffer the pass takes it, with less it asks for more |
| PeerReceives.TakeKeepsGood | src/protocol.rs:792-1030 | taking a frame off the buffer keeps the invariant of both peers |
| PeerReceives.Parsing | src/protocol.rs:792-1030 | so do all passes up to the next read; none is fatal, and none reports an error of the peer |
| PeerReceives.AfterParseIo | src/io.rs:524-550 | so does the whole step of the IO layer, which fails at most because an answer belongs to nobody |
| Runs.ActWorks | src/io.rs:493-661 | every step of a peer is a step of the IO layer: no item is refused, no frame is fatal, no error of the peer is read; a parse step may still end in an internal error |
| Runs.StartIsGood | src/io.rs:446-466 | two new peers are in the invariant |
| Runs.RunsWork | src/io.rs:493-661 | the same for all steps of any run, from any state in the invariant |
| Runs.HonestRunsNeverViolate | src/io.rs:493-661 | from the start, in no run of two honest peers is either ever at fault, however steps interleave and bytes are cut; neither ever has an error to send |
| Runs.DeliveredIntact | src/protocol.rs:783-785 | in every reachable state, what a peer has received is what the other has finished sending, in order; with nothing on its way, it is all that was created |
| Runs.RequestsAccountedFor | src/protocol.rs:231-239 | in every reachable state, every request under way is in exactly one stage, and no identifier is in use twice |
| Runs.LockedWhileSending | src/io.rs:312-313 | a channel has at most one message of several frames unfinished, of which the current frame and what is queued are parts, and is locked by its header exactly while it has one |
| Runs.ParseGets | src/protocol.rs:792-1030 | what counts as received is exactly what the parser reports |
| Reports.ActReports | src/io.rs:493-661 | unless an identifier is used again too early, every step keeps the books of both peers: each local id handed over is in use or has been told of an answer, and never both |
| Reports.RunsReport | src/io.rs:335-353 | so does every run, from any such state, if identifiers are far enough apart or few enough |
| Reports.FewRequestsNeverMisreport | src/io.rs:335-353 | from the start, in every run with distinct local ids and at most 65535 requests on a channel: every answer is reported to the local id mapped to its channel and identifier, and to no local id twice |
| Reports.SpacedRunsNeverMisreport | src/io.rs:335-353 | the same with any number of requests, if none stays open while 65536 less the request limit others are made |
| Reports.EveryoneIsTold | src/io.rs:335-353 | after a run with few requests: when a peer has none waiting or under way, exactly those handed over have been told of an answer |
| Events.ReadIsPassedOn | src/io.rs:701-721 | a request, a cancellation or an error that is parsed becomes the event or the error that it stands for, with its payload |
| Events.AnnouncedIsReceived | src/io.rs:701-721 | what a parse step announces is the request that it has received, if it has |
| Events.ActGets | src/protocol.rs:792-1030 | a peer receives something by parsing, exactly what the parser has found, and in no other way |
| Events.ToldAsReceived | src/io.rs:493-550 | in every run, the requests that a local endpoint is told of are the requests received meanwhile, in order and with their payloads |
| Events.RequestsArriveIntact | src/io.rs:493-550 | from the start, they are the first of those that the other peer has finished sending |
| Errors.ErrorRoundTrip | src/protocol.rs:818-861 | the frame of an error, whatever follows, is read as that error with its data |
| Errors.CustomErrorRoundTrip | src/protocol.rs:749-861 | so a custom error is read by the peer with its channel, id and data |
| Errors.InjectedErrorIsRead | src/io.rs:669-693 | an injected error is read by the peer with its header, and with its data cut to a frame; the local endpoint learns the same |
| Errors.NothingFollows | src/io.rs:669-693 | after it nothing is readied, parsed or waiting, and no request is mapped |
| Errors.FatalIsReported | src/io.rs:534-538 | what is fatal to the parser becomes the next and last thing sent, and the peer reads its header |
| Errors.CustomErrorOutcome | src/io.rs:813-824 | a custom error that fits a frame is injected as it is; else it is a violation |
| Errors.ErrorIsReported | src/io.rs:701-704 | the IO layer that parses an error ends with it |
| Errors.ErrorComesLast | src/io.rs:669-693 | between two peers, everything sent before an error arrives before it |
| Threshold.ThresholdMakesNoDifference | src/io.rs:524-533 | parsing only when the threshold is reached gives the same result and state as parsing always |
| Threshold.EnqueueKeepsExact | src/io.rs:749-824 | handing over any item, in any state, keeps it so |
| Threshold.FrameSentKeepsExact | src/io.rs:577-610 | so does writing out a frame |
| Threshold.BytesKeepExact | src/io.rs:1212-1240 | so do bytes that arrive |
| Threshold.ParseKeepsExact | src/io.rs:524-550 | so does parsing, which sets the threshold so that the parser is not called before it can do anything |
| ThresholdRuns.NoParseIsMissed | src/io.rs:524-533 | in every state that two peers get to, the threshold makes no difference |
| Exchange.ExchangeHappens | src/io.rs:493-661 | from the start there is a run of five steps in which a request arrives: the theorems about runs are not empty |
| Rpc.RequestGuardInner.SetAndNotify | src/rpc.rs:221-228 | only the first outcome is kept, and it is notified exactly once |
| Rpc.PushKeepsOrder | src/rpc.rs:356-359 | pushing a timeout keeps the heap in order |
| Rpc.DueIsAll | src/rpc.rs:900-926 | draining from the top while timeouts are due finds all that are due |
| Rpc.RpcServer.Schedule | src/rpc.rs:600-633 | a scheduled guard waits |
| Rpc.RpcServer.TakeNewRequest | src/rpc.rs:343-365 | a new request becomes pending, with its timeout, or fails if the IO layer is closed; its guard is in one place |
| Rpc.RpcServer.Resolve | src/rpc.rs:410-429 | the guard of a pending request is told, and the request is gone |
| Rpc.RpcServer.OnEvent | src/rpc.rs:387-430 | a response or its cancellation is handed to the guard that waits for it, and to no other |
| Rpc.RpcServer.TimeOutFirst | src/rpc.rs:449-470 | the earliest timeout is taken; if its request is pending, the guard is told and a cancellation is enqueued |
| Rpc.RpcServer.DrainDue | src/rpc.rs:449-470 | all timeouts that are due are taken, in order, with one cancellation for each request still pending |
| Rpc.RpcServer.ProcessTimeouts | src/rpc.rs:443-477 | exactly the pending requests that are due time out, are counted, and are cancelled once each; the next deadline is in the future and not after any other |
| Rpc.RpcServer.DrainPending | src/rpc.rs:521-523 | all pending guards are told of the shutdown |
| Rpc.RpcServer.DrainNew | src/rpc.rs:525-533 | all new requests fail with their payload returned |
| Rpc.RpcServer.Drop | src/rpc.rs:516-535 | every guard ever received is resolved, and notified exactly once; none is resolved twice |
| Rpc.CancelsWhatIsDue | src/rpc.rs:449-470 | the cancellations enqueued are one for each request that is pending and due, and no others |
| Rpc.IncomingRequest.Respond | src/rpc.rs:842-856 | a request is answered at most once |
| Rpc.IncomingRequest.Cancel | src/rpc.rs:862-887 | also when it is dropped |

## Left out

- Sockets, the `select!` of `next_event`, timeouts on writes, semaphores and the channels between tasks: the IO layer is modelled as atomic steps (an item arrives, a frame is readied, a frame is written in full, bytes arrive, a parse).
- Partial writes, and the frame that is half written when an error is injected: an error follows frames written in full.
- Runs.HonestRunsNeverViolate: runs in which an endpoint sends a custom error are not included, because they end with it; Errors.ErrorComesLast says what the other peer then reads.
- Reports.FewRequestsNeverMisreport: beyond 65535 requests on a channel nothing is promised without the condition of Reports.SpacedRunsNeverMisreport, because the code does not promise it; that every answer arrives some day is not stated.
- Runs.DeliveredIntact: cancellations of requests are not counted as messages, because a late one is dropped by design.
- Order within a wait queue: the loop may stop early and leave the queue rotated, so first-in-first-out is not claimed; nor that nothing sendable ever waits, as a cancellation response frees a slot without processing the queue.
- The heap of timeouts is modelled by its contents in order, the bidirectional map by its left-to-right half, and hash sets by sets.
- Local ids and time are unbounded; the source counts both in 64 bits.
- A channel on which all 65536 identifiers are in use, where the search for a free one would not end: the request limit keeps a checked caller away from it.
- Shared buffers and allocation, display and tracing, the builders, the fizzbuzz example, and the cancellation of a `RequestGuard`, which is empty.
- The arrays of channels, locks and wait queues are sequences whose elements are replaced; the number of channels is a value, not a type parameter.
