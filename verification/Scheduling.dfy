// The order in which the ready queue is served.
module Scheduling {
  import opened Types
  import opened Message
  import opened IoState

  /** Messages that may be queued. */
  ghost predicate AllQueueable(io: IoState, batches: seq<seq<FrameIter>>) {
    forall k :: 0 <= k < |batches| ==> BatchQueueable(io, batches[k])
  }

  ghost predicate BatchQueueable(io: IoState, batch: seq<FrameIter>) {
    forall it :: it in batch ==> io.Queueable(it)
  }

  function WithBatch(io: IoState, batch: seq<FrameIter>): (r: IoState)
    requires io.Valid() && BatchQueueable(io, batch)
    ensures r.Valid() && SameShape(r, io)
  {
    var r := io.(readyQueue := io.readyQueue + batch);
    assert forall it :: it in r.readyQueue ==>
      (it in io.readyQueue || it in batch) && io.Queueable(it) && r.Queueable(it);
    r
  }

  lemma StayQueueable(io: IoState, next: IoState, batches: seq<seq<FrameIter>>)
    requires AllQueueable(io, batches) && SameShape(next, io) && batches != []
    ensures AllQueueable(next, batches[1..])
  {
    forall k | 0 <= k < |batches| - 1 ensures BatchQueueable(next, batches[1..][k]) {
      assert BatchQueueable(io, batches[k + 1]);
      forall it | it in batches[k + 1] ensures next.Queueable(it) {
        assert io.Queueable(it);
      }
    }
  }

  /** Readies one frame after the other; before each, more messages are queued. */
  ghost function Rounds(io: IoState, batches: seq<seq<FrameIter>>): (r: IoState)
    requires io.Valid() && AllQueueable(io, batches)
    decreases |batches|
  {
    if batches == [] then io
    else
      var next := ReadyNextFrame(WithBatch(io, batches[0]));
      StayQueueable(io, next, batches);
      Rounds(next, batches[1..])
  }

  /** What is at position `p` of the queue is served on call `p + 1`, whatever is queued meanwhile. */
  lemma {:induction false} ServedInTurn(io: IoState, batches: seq<seq<FrameIter>>, p: nat)
    requires io.Valid() && AllQueueable(io, batches)
    requires p < |io.readyQueue| && |batches| == p + 1
    ensures io.Queueable(io.readyQueue[p])
    ensures Rounds(io, batches).currentFrame ==
            Some((io.readyQueue[p].NextFrame(io.juliet.mfs), io.readyQueue[p].IsFinal(io.juliet.mfs)))
    decreases p
  {
    var next := ReadyNextFrame(WithBatch(io, batches[0]));
    StayQueueable(io, next, batches);
    assert io.readyQueue[p] in io.readyQueue;
    hide IoState.Valid;
    if p == 0 {
      assert batches[1..] == [];
    } else {
      assert next.readyQueue[p - 1] == io.readyQueue[p];
      ServedInTurn(next, batches[1..], p - 1);
    }
  }

  // ---------------------------------------------------------------- the frames of one message

  /** Where the entry at place `p` of the queue is after one call, if frames of its message are left. */
  ghost function PlaceAfter(io: IoState, p: nat, batch: seq<FrameIter>): (r: Option<nat>)
    requires io.Valid() && BatchQueueable(io, batch) && p < |io.readyQueue|
    ensures r.Some? ==> r.value < |ReadyNextFrame(WithBatch(io, batch)).readyQueue|
  {
    var next := ReadyNextFrame(WithBatch(io, batch));
    assert io.Queueable(io.readyQueue[p]);
    if p > 0 then Some(p - 1)
    else if io.readyQueue[0].IsFinal(io.juliet.mfs) then None
    else Some(|next.readyQueue| - 1)
  }

  /** The frames that the calls make current of the message at place `p`, and what is left of it. */
  datatype Output = Output(frames: seq<OutgoingFrame>, left: Option<FrameIter>)

  ghost function Follow(io: IoState, p: Option<nat>, batches: seq<seq<FrameIter>>): Output
    requires io.Valid() && AllQueueable(io, batches)
    requires p.Some? ==> p.value < |io.readyQueue|
    decreases |batches|
  {
    if p.None? then Output([], None)
    else if batches == [] then Output([], Some(io.readyQueue[p.value]))
    else
      var next := ReadyNextFrame(WithBatch(io, batches[0]));
      StayQueueable(io, next, batches);
      var later := Follow(next, PlaceAfter(io, p.value, batches[0]), batches[1..]);
      if p.value == 0 && next.currentFrame.Some? then
        Output([next.currentFrame.value.0] + later.frames, later.left)
      else later
  }

  lemma EntryMoves(io: IoState, p: nat, batch: seq<FrameIter>)
    requires io.Valid() && BatchQueueable(io, batch) && p < |io.readyQueue|
    ensures var next, m, it := ReadyNextFrame(WithBatch(io, batch)), PlaceAfter(io, p, batch), io.readyQueue[p];
      && it.Valid()
      && (p > 0 ==> m.Some? && next.readyQueue[m.value] == it)
      && (p == 0 ==> next.currentFrame == Some((it.NextFrame(io.juliet.mfs), it.IsFinal(io.juliet.mfs))))
      && (p == 0 ==> if it.IsFinal(io.juliet.mfs) then m.None?
                     else m.Some? && next.readyQueue[m.value] == it.Rest(io.juliet.mfs))
  {
    assert io.Queueable(io.readyQueue[p]);
    hide IoState.Valid;
  }

  /**
   * Whatever else is queued meanwhile: of every message, the calls make its frames current in order,
   * each of them once, and what has not been made current is what is left of it in the queue.
   */
  lemma {:induction false} FramesLeaveInOrder(io: IoState, p: nat, batches: seq<seq<FrameIter>>)
    requires io.Valid() && AllQueueable(io, batches) && p < |io.readyQueue|
    ensures var it, out := io.readyQueue[p], Follow(io, Some(p), batches);
      && it.Valid()
      && (out.left.Some? ==> out.left.value.Valid() && out.left.value.msg == it.msg)
      && it.AllFrames(io.juliet.mfs) ==
         out.frames + (if out.left.Some? then out.left.value.AllFrames(io.juliet.mfs) else [])
    decreases |batches|
  {
    hide IoState.Valid; hide ReadyNextFrame; hide WithBatch; hide AllQueueable; hide BatchQueueable; hide Follow;
    hide FrameIter.AllFrames;
    EntryIsValid(io, p);
    var it, mfs := io.readyQueue[p], io.juliet.mfs;
    FollowFirst(io, p, batches);
    if batches == [] {
      assert [] + it.AllFrames(mfs) == it.AllFrames(mfs);
    } else {
      FirstQueueable(io, batches);
      var next := ReadyNextFrame(WithBatch(io, batches[0]));
      StayQueueable(io, next, batches);
      EntryMoves(io, p, batches[0]);
      FramesStart(it, mfs);
      var m := PlaceAfter(io, p, batches[0]);
      hide PlaceAfter;
      if m.Some? {
        FramesLeaveInOrder(next, m.value, batches[1..]);
        var out := Follow(next, m, batches[1..]);
        var left := if out.left.Some? then out.left.value.AllFrames(mfs) else [];
        Associate([it.NextFrame(mfs)], out.frames, left);
      } else {
        NothingToFollow(next, batches[1..]);
        assert [it.NextFrame(mfs)] + [] == [it.NextFrame(mfs)];
      }
    }
  }

  lemma EntryIsValid(io: IoState, p: nat)
    requires io.Valid() && p < |io.readyQueue|
    ensures io.readyQueue[p].Valid()
  {
    assert io.Queueable(io.readyQueue[p]);
  }

  lemma FramesStart(it: FrameIter, mfs: MaxFrameSize)
    requires it.Valid()
    ensures it.AllFrames(mfs) ==
            [it.NextFrame(mfs)] + if it.IsFinal(mfs) then [] else it.Rest(mfs).AllFrames(mfs)
  {
  }

  /** Following a message for one call, and then for the others. */
  lemma FollowFirst(io: IoState, p: nat, batches: seq<seq<FrameIter>>)
    requires io.Valid() && AllQueueable(io, batches) && p < |io.readyQueue|
    ensures io.readyQueue[p].Valid()
    ensures batches == [] ==> Follow(io, Some(p), batches) == Output([], Some(io.readyQueue[p]))
    ensures batches != [] ==>
              && BatchQueueable(io, batches[0])
              && var next := ReadyNextFrame(WithBatch(io, batches[0]));
              && AllQueueable(next, batches[1..])
              && var later := Follow(next, PlaceAfter(io, p, batches[0]), batches[1..]);
              Follow(io, Some(p), batches) ==
                if p == 0 then Output([io.readyQueue[p].NextFrame(io.juliet.mfs)] + later.frames, later.left) else later
    ensures Follow(io, None, batches) == Output([], None)
  {
    hide IoState.Valid; hide ReadyNextFrame; hide WithBatch; hide AllQueueable; hide BatchQueueable; hide PlaceAfter;
    EntryIsValid(io, p);
    if batches != [] {
      FirstQueueable(io, batches);
      StayQueueable(io, ReadyNextFrame(WithBatch(io, batches[0])), batches);
      EntryMoves(io, p, batches[0]);
    }
  }

  lemma NothingToFollow(io: IoState, batches: seq<seq<FrameIter>>)
    requires io.Valid() && AllQueueable(io, batches)
    ensures Follow(io, None, batches) == Output([], None)
  {
  }

  lemma FirstQueueable(io: IoState, batches: seq<seq<FrameIter>>)
    requires AllQueueable(io, batches) && batches != []
    ensures BatchQueueable(io, batches[0])
  {
  }

  /** Short of an error, no item ever overtakes: whatever is sent goes to the end of the ready queue. */
  lemma SendAppends(io: IoState, item: QueuedItem)
    requires io.Valid() && item.Valid() && !item.QueuedError?
    ensures var q := SendToReadyQueue(io, item).state.readyQueue;
      io.readyQueue <= q && |q| <= |io.readyQueue| + 1
  {
  }
}
