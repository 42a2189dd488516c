// What becomes of a cancellation of a request: the queue is served in turns until the cancellation goes
// out, the receiver takes every frame ahead of it, and then it arrives. It is rejected exactly if no
// allowance is left, and it drops a transfer exactly if a message with its identifier had more than
// one frame to go.
module CancelGuard {
  import opened Types
  import opened Header
  import opened Message
  import opened Multiframe
  import opened Protocol
  import opened Transfer
  import opened Duplex
  import opened DuplexSteps
  import opened DuplexReceive

  // ---------------------------------------------------------------- the sender takes turns

  /** The current frame, if any, is sent. */
  ghost function Settle(e: End, g: Shared): (f: End)
    ensures f.current.None? && f.ready == e.ready
  {
    if e.current.Some? then SendCurrent(e, g) else e
  }

  /** The current frame, if any, is sent, and the next one is readied. */
  ghost function ServeOne(e: End, g: Shared): End {
    if e.ready == [] then Settle(e, g) else ReadyNext(Settle(e, g), g)
  }

  ghost function ServeMany(e: End, n: nat, g: Shared): End
    decreases n
  {
    if n == 0 then e else ServeMany(ServeOne(e, g), n - 1, g)
  }

  lemma SettleKeepsInv(e: End, r: End, g: Shared)
    requires Inv(e, r, g)
    ensures Inv(Settle(e, g), r, g) && Pipe(Settle(e, g)) == Pipe(e)
  {
    hide Inv;
    if e.current.Some? {
      SentKeepsInv(e, r, g);
      SentPipe(e, g);
    }
  }

  lemma ServeOneKeepsInv(e: End, r: End, g: Shared)
    requires Inv(e, r, g)
    ensures Inv(ServeOne(e, g), r, g)
    ensures forall a, limit :: Allowance(a, Pipe(ServeOne(e, g)), limit) == Allowance(a, Pipe(e), limit)
  {
    hide Inv; hide Pipe; hide Settle; hide Allowance;
    SettleKeepsInv(e, r, g);
    if e.ready != [] {
      var s := Settle(e, g);
      ReadyKeepsInv(s, r, g);
      AllFit(s, r, g);
      ReadyUnstarted(s, g);
    }
  }

  lemma AllFit(e: End, r: End, g: Shared)
    requires Inv(e, r, g)
    ensures forall it :: it in e.ready ==> Fits(it, g)
  {
    hide Fits; hide Conserved; hide Allowed; hide Streams; hide Delivered;
    forall it | it in e.ready ensures Fits(it, g) {
      assert it in Pipe(e);
    }
  }

  lemma {:induction false} ServeManyKeepInv(e: End, r: End, n: nat, g: Shared)
    requires Inv(e, r, g)
    ensures Inv(ServeMany(e, n, g), r, g)
    ensures forall a, limit :: Allowance(a, Pipe(ServeMany(e, n, g)), limit) == Allowance(a, Pipe(e), limit)
    decreases n
  {
    hide Inv; hide ServeOne; hide Pipe; hide Allowance;
    if n > 0 {
      ServeOneKeepsInv(e, r, g);
      ServeManyKeepInv(ServeOne(e, g), r, n - 1, g);
    }
  }

  /** What is left of the messages once each has had its turn. */
  ghost function Leftover(its: seq<FrameIter>, g: Shared): seq<FrameIter> {
    if its == [] then [] else More(its[0], g) + Leftover(its[1..], g)
  }

  /** The same end with a cancellation queued between `a` and `b`. */
  ghost predicate Behind(e: End, f: End, a: seq<FrameIter>, c: FrameIter, b: seq<FrameIter>) {
    e.ready == a + b && f == e.(ready := a + [c] + b, cancelled := f.cancelled)
  }

  /** A turn serves the front of both queues. */
  lemma BehindOne(e: End, f: End, a: seq<FrameIter>, c: FrameIter, b: seq<FrameIter>, g: Shared)
    requires Behind(e, f, a, c, b) && a != []
    ensures Behind(ServeOne(e, g), ServeOne(f, g), a[1..], c, b + More(a[0], g))
  {
    hide Final; hide Next;
    var more := More(a[0], g);
    assert (a + b)[1..] == a[1..] + b && (a + [c] + b)[1..] == a[1..] + [c] + b;
    assert (a[1..] + b) + more == a[1..] + (b + more);
    assert (a[1..] + [c] + b) + more == a[1..] + [c] + (b + more);
  }

  /** After as many turns as there were messages ahead of it, the cancellation is at the front. */
  lemma {:induction false} BehindMany(e: End, f: End, a: seq<FrameIter>, c: FrameIter, b: seq<FrameIter>, g: Shared)
    requires Behind(e, f, a, c, b)
    ensures Behind(ServeMany(e, |a|, g), ServeMany(f, |a|, g), [], c, b + Leftover(a, g))
    decreases |a|
  {
    hide ServeOne; hide More;
    if a == [] {
      assert b + [] == b;
    } else {
      BehindOne(e, f, a, c, b, g);
      hide Behind;
      BehindMany(ServeOne(e, g), ServeOne(f, g), a[1..], c, b + More(a[0], g), g);
      assert (b + More(a[0], g)) + Leftover(a[1..], g) == b + (More(a[0], g) + Leftover(a[1..], g));
    }
  }

  lemma {:induction false} ServeManyLast(e: End, n: nat, g: Shared)
    ensures ServeMany(e, n + 1, g) == ServeOne(ServeMany(e, n, g), g)
    decreases n
  {
    hide ServeOne;
    if n > 0 { ServeManyLast(ServeOne(e, g), n - 1, g); }
  }

  /** One more turn, and the cancellation is the current frame, behind all that went before. */
  lemma CancellationGoesOut(e: End, f: End, c: FrameIter, g: Shared)
    requires Behind(e, f, [], c, e.ready) && Final(c, g)
    ensures ServeOne(f, g).current == Some(c) && ServeOne(f, g).sent == Settle(e, g).sent &&
            ServeOne(f, g).ready == e.ready
  {
    hide Final; hide Next;
    assert f.ready == [c] + e.ready;
    assert f.ready[1..] == e.ready && e.ready + [] == e.ready;
  }

  // ---------------------------------------------------------------- the receiver takes what is ahead

  /** The state of a channel once the parser has taken these frames, if it takes all of them. */
  ghost function PassAll(ch: ChannelState, its: seq<FrameIter>, mfs: MaxFrameSize): Option<ChannelState>
    decreases |its|
  {
    if its == [] then Some(ch)
    else if !its[0].Valid() || !its[0].msg.header.Frame? || !ch.receiver.Valid() then None
    else
      HeaderParses(its[0], mfs, []);
      var p := ChannelPass(ch, its[0].msg.header, FrameBytes(its[0], mfs), mfs);
      if p.outcome.Success? then PassAll(p.channel, its[1..], mfs) else None
  }

  lemma ReceiveKeepsAllowance(x: End, y: End, g: Shared)
    requires Inv(x, y, g) && y.sent != []
    ensures y.sent[0].Valid() && y.sent[0].msg.header.Frame? && x.chan.receiver.Valid()
    ensures Received(x, y, g).chan == Receive(x, y, g).channel
    ensures forall limit :: limit == g.config.requestLimit ==>
              Allowance(Received(x, y, g).chan.allowance, Pipe(Shortened(y)), limit) ==
                Allowance(x.chan.allowance, Pipe(y), limit)
  {
    hide Conserved; hide Streams; hide Delivered; hide Shape; hide Welcome; hide Accepting; hide AfterRead;
    hide Advance; hide FrameBytes;
    ReceiveSucceeds(x, y, g);
    HeadIsWelcome(x, y, g);
    TookChannel(x, y, g);
    AcceptingAllowance(x.chan, x.track, y.sent[0], g);
    HeadParts(y, g);
    hide Pipe; hide AllowanceAfter;
  }

  lemma TookChannel(x: End, y: End, g: Shared)
    requires y.sent != [] && y.sent[0].Valid() && y.sent[0].msg.header.Frame? && x.chan.receiver.Valid()
    ensures Received(x, y, g).chan == Receive(x, y, g).channel
  {
    hide Receive; hide Advance; hide MessageOf;
  }

  /** The receiver takes every frame that has been sent. */
  lemma {:induction false} PassAllReceives(x: End, y: End, g: Shared) returns (z: End)
    requires Inv(x, y, g)
    ensures Inv(z, y.(sent := []), g)
    ensures PassAll(x.chan, y.sent, g.mfs) == Some(z.chan)
    ensures Allowance(z.chan.allowance, Pipe(y.(sent := [])), g.config.requestLimit) ==
            Allowance(x.chan.allowance, Pipe(y), g.config.requestLimit)
    decreases |y.sent|
  {
    hide Inv; hide Received; hide ChannelPass; hide FrameBytes; hide Allowance; hide Pipe;
    if y.sent == [] {
      assert y.(sent := []) == y;
      z := x;
    } else {
      ReceiveKeepsInv(x, y, g);
      ReceiveKeepsAllowance(x, y, g);
      z := PassAllReceives(Received(x, y, g), Shortened(y), g);
      assert Shortened(y).(sent := []) == y.(sent := []);
    }
  }

  // ---------------------------------------------------------------- the cancellation arrives

  lemma {:induction false} LeftoverFacts(its: seq<FrameIter>, id: Id, g: Shared)
    requires forall it :: it in its ==> Fits(it, g)
    ensures forall it :: it in Leftover(its, g) ==> it.processed > 0 && Multi(it, g) && !IsCancelReq(it.msg.header)
    ensures (exists it :: it in Leftover(its, g) && it.msg.header.id == id) <==> !Undisturbed(its, id, g)
  {
    hide Fits; hide Final; hide Next; hide Multi;
    if its != [] {
      var it := its[0];
      LeftoverFacts(its[1..], id, g);
      assert it in its;
      MoreFacts(it, g);
      assert its == [it] + its[1..];
      assert Leftover(its, g) == More(it, g) + Leftover(its[1..], g);
      UndisturbedFirst(its, id, g);
      if !Final(it, g) && it.msg.header.id == id {
        assert Next(it, g) in Leftover(its, g);
      }
    }
  }

  lemma MoreFacts(it: FrameIter, g: Shared)
    requires Fits(it, g)
    ensures !Final(it, g) ==>
              Multi(it, g) && Next(it, g).processed > 0 && Multi(Next(it, g), g) && Next(it, g).msg == it.msg
    ensures !Final(it, g) ==> !IsCancelReq(it.msg.header)
  {
    EntryFacts(it, g);
  }

  lemma UndisturbedFirst(its: seq<FrameIter>, id: Id, g: Shared)
    requires its != []
    ensures Undisturbed(its, id, g) <==>
              (Multi(its[0], g) && its[0].msg.header.id == id ==> Final(its[0], g)) && Undisturbed(its[1..], id, g)
  {
    hide Multi; hide Final;
    assert its == [its[0]] + its[1..];
    if (Multi(its[0], g) && its[0].msg.header.id == id ==> Final(its[0], g)) && Undisturbed(its[1..], id, g) {
      forall it | it in its && Multi(it, g) && it.msg.header.id == id ensures Final(it, g) {
        if it != its[0] { assert it in its[1..]; }
      }
    }
  }

  lemma {:induction false} LeftoverAllowance(a: int, its: seq<FrameIter>, limit: nat)
    requires forall it :: it in its ==> it.processed > 0 && !IsCancelReq(it.msg.header)
    ensures Allowance(a, its, limit) == a
    decreases |its|
  {
    if its != [] {
      assert its[0] in its;
      LeftoverAllowance(a, its[1..], limit);
    }
  }

  /**
   * With all that was sent received, the receiver is in the middle of a message exactly if some of it is
   * still queued.
   */
  lemma MiddleIsQueued(x: End, y: End, id: Id, g: Shared)
    requires Inv(x, y, g) && y.sent == [] && y.current.None?
    requires forall it :: it in y.ready ==> it.processed > 0 && Multi(it, g)
    ensures x.chan.receiver.InProgress? && x.chan.receiver.header.id == id <==>
              exists it :: it in y.ready && it.msg.header.id == id
  {
    hide Conserved; hide Allowed; hide Delivered; hide Shape; hide NoClash; hide Locked; hide Multi; hide Multis;
    hide Holding;
    assert Wire(y) == [];
    assert Walk(x.track, [], g) == x.track;
    assert Tracked(x.track, Multis(y.ready, g)) && Matches(x.chan.receiver, x.track);
    forall it ensures it in Multis(y.ready, g) <==> it in y.ready {
      MultisIn(y.ready, it, g);
    }
    HoldingHeader(x.track);
  }

  lemma HoldingHeader(t: Track)
    ensures t.Mid? && t.next.Valid() && t.next.processed > 0 ==>
              Holding(t.next).InProgress? && Holding(t.next).header == t.next.msg.header
  {
  }

  /** The cancellation as a frame. */
  function Cancellation(id: Id, g: Shared): FrameIter {
    CancelMsg(id, g).Frames()
  }

  /** What the receiver does with the cancellation, as its bytes are parsed. */
  function Arrive(ch: ChannelState, id: Id, g: Shared): Passed
    requires ch.receiver.Valid()
  {
    HeaderParses(Cancellation(id, g), g.mfs, []);
    ChannelPass(ch, CancelMsg(id, g).header, FrameBytes(Cancellation(id, g), g.mfs), g.mfs)
  }

  /** The sender when the cancellation has become its current frame. */
  ghost function GoingOut(e: End, id: Id, g: Shared): End {
    ServeMany(SendCancel(e, id, g), |e.ready| + 1, g)
  }

  /** The allowance left when the cancellation arrives. */
  ghost function AllowanceLeft(e: End, r: End, g: Shared): int {
    Allowance(r.chan.allowance, Pipe(e), g.config.requestLimit)
  }

  /** The frames ahead of the cancellation are taken; then the receiver is like this. */
  lemma AheadIsTaken(e: End, r: End, id: Id, g: Shared) returns (z: End)
    requires Inv(e, r, g) && id in e.chan.outgoing
    ensures GoingOut(e, id, g).current == Some(Cancellation(id, g))
    ensures PassAll(r.chan, GoingOut(e, id, g).sent, g.mfs) == Some(z.chan)
    ensures z.chan.receiver.Valid() && z.chan.allowance == AllowanceLeft(e, r, g)
    ensures z.chan.receiver.InProgress? && z.chan.receiver.header.id == id <==> !Undisturbed(e.ready, id, g)
    ensures (exists it :: it in GoingOut(e, id, g).ready && it.msg.header.id == id && it.processed > 0) <==>
              !Undisturbed(e.ready, id, g)
  {
    hide Inv; hide ServeOne; hide Allowance; hide Pipe; hide Undisturbed; hide Multi; hide Fits; hide Settle;
    var f, c, n := SendCancel(e, id, g), Cancellation(id, g), |e.ready|;
    CancelIsSmall(e, id, g);
    AllFit(e, r, g);
    var left := Leftover(e.ready, g);
    LeftoverFacts(e.ready, id, g);
    StartsBehind(e, id, g);
    BehindMany(e, f, e.ready, c, [], g);
    ServeManyKeepInv(e, r, n, g);
    ServeManyLast(f, n, g);
    var e', f' := ServeMany(e, n, g), ServeMany(f, n, g);
    assert [] + left == left;
    CancellationGoesOut(e', f', c, g);
    SettleKeepsInv(e', r, g);
    var s := Settle(e', g);
    InvSwaps(s, r, g);
    z := PassAllReceives(r, s, g);
    var y := s.(sent := []);
    assert Pipe(y) == left by { EmptyPipe(y); }
    InvReceiver(z, y, g);
    LeftoverAllowance(z.chan.allowance, left, g.config.requestLimit);
    MiddleIsQueued(z, y, id, g);
  }

  lemma EmptyPipe(y: End)
    requires y.sent == [] && y.current.None?
    ensures Pipe(y) == y.ready
  {
  }

  lemma InvSwaps(a: End, b: End, g: Shared)
    requires Inv(a, b, g)
    ensures Inv(b, a, g)
  {
    hide Flow;
  }

  lemma InvReceiver(x: End, y: End, g: Shared)
    requires Inv(x, y, g)
    ensures x.chan.receiver.Valid()
  {
    hide Conserved; hide Allowed; hide Delivered; hide Shape; hide NoClash; hide Locked; hide Walk; hide Multis;
    MatchesValid(x.chan.receiver, x.track);
  }

  lemma StartsBehind(e: End, id: Id, g: Shared)
    ensures Behind(e, SendCancel(e, id, g), e.ready, Cancellation(id, g), [])
  {
    assert e.ready + [] == e.ready;
    assert e.ready + [Cancellation(id, g)] + [] == e.ready + [Cancellation(id, g)];
    assert e.created + multiset{} == e.created;
  }

  /** The pass over a cancellation. */
  lemma ArriveIs(ch: ChannelState, id: Id, g: Shared)
    requires ch.receiver.Valid()
    ensures Arrive(ch, id, g) == PassCancelReq(ch, CancelMsg(id, g).header)
  {
    hide FrameBytes; hide PassCancelReq;
  }

  /**
   * Whatever is on its way and queued, and whether or not the request has been cancelled before: the
   * receiver takes all frames ahead of a cancellation; then it rejects the cancellation exactly if
   * no allowance is left.
   */
  lemma CancellationIsRejected(e: End, r: End, id: Id, g: Shared)
    requires Inv(e, r, g) && id in e.chan.outgoing
    ensures GoingOut(e, id, g).current == Some(Cancellation(id, g))
    ensures var ahead := PassAll(r.chan, GoingOut(e, id, g).sent, g.mfs);
      && ahead.Some? && ahead.value.receiver.Valid() && ahead.value.allowance == AllowanceLeft(e, r, g)
      && var p := Arrive(ahead.value, id, g);
      (p.outcome.Fatal? <==> AllowanceLeft(e, r, g) == 0) &&
      (p.outcome.Fatal? ==> p.outcome == Fatal(ErrMsg(CancelMsg(id, g).header, CancellationLimitExceeded)))
  {
    hide Inv; hide GoingOut; hide PassAll; hide AllowanceLeft; hide Undisturbed; hide Arrive;
    var z := AheadIsTaken(e, r, id, g);
    ArriveIs(z.chan, id, g);
  }

  /**
   * A request that has not been cancelled may be cancelled safely if and only if no message with its
   * identifier has more than one frame left to send. Otherwise serving the queue in turns puts the
   * cancellation between two frames of that message: the receiver, without an error, drops the transfer
   * and the request, and frames of the message are still queued.
   */
  lemma CancelGuardIsExact(e: End, r: End, id: Id, g: Shared)
    requires Inv(e, r, g) && id in e.chan.outgoing && id !in e.cancelled
    ensures GoingOut(e, id, g).current == Some(Cancellation(id, g))
    ensures var ahead := PassAll(r.chan, GoingOut(e, id, g).sent, g.mfs);
      && ahead.Some? && ahead.value.receiver.Valid()
      && var p := Arrive(ahead.value, id, g);
      && p.outcome.Success?
      && (Undisturbed(e.ready, id, g) <==> p.channel.receiver == ahead.value.receiver)
      && (!Undisturbed(e.ready, id, g) ==>
            && p.outcome == Success(None) && p.channel.receiver.Ready? && id !in p.channel.incoming
            && exists it :: it in GoingOut(e, id, g).ready && it.msg.header.id == id && it.processed > 0)
  {
    hide Inv; hide GoingOut; hide PassAll; hide AllowanceLeft; hide Undisturbed; hide Arrive;
    var z := AheadIsTaken(e, r, id, g);
    ArriveIs(z.chan, id, g);
    FirstIsAllowed(e, r, id, g);
  }

  /** The first cancellation of a request finds an allowance. */
  lemma FirstIsAllowed(e: End, r: End, id: Id, g: Shared)
    requires Inv(e, r, g) && id in e.chan.outgoing && id !in e.cancelled
    ensures AllowanceLeft(e, r, g) > 0
  {
    hide Conserved; hide Streams; hide Delivered; hide Shape; hide Allowance; hide Pipe;
    assert id in e.chan.outgoing - e.cancelled;
  }
}
