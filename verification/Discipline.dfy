// The frames that a peer sends keep the discipline under which they are reassembled: whatever the two
// peers have done so far, what is on its way is legal by the ledgers of the receiver.
module Discipline {
  import opened Types
  import opened Message
  import opened Protocol
  import opened Streaming
  import opened Transfer
  import opened IoState
  import opened Duplex
  import opened DuplexReceive
  import opened TwoPeers
  import opened Reassembly
  import CancelGuard

  // ---------------------------------------------------------------- one channel

  /** The frames may be sent in this order on one channel. */
  ghost predicate LegalOn(l: Ledger, its: seq<FrameIter>, g: Shared)
    decreases |its|
  {
    its != [] ==> l.Admits(its[0], g) && LegalOn(l.After(its[0], g), its[1..], g)
  }

  ghost function LedgerOf(x: End): Ledger {
    Ledger(x.track, x.chan.incoming, x.chan.outgoing, x.chan.allowance)
  }

  lemma InvMirrors(x: End, y: End, g: Shared)
    requires Inv(x, y, g)
    ensures Mirrors(x.chan, LedgerOf(x), g.config)
  {
    hide Conserved; hide Delivered; hide Matches; hide Tracked; hide Locked; hide NoClash; hide Allowance; hide Pipe;
  }

  /** The next frame is admitted, and the ledger of the receiver goes on as it should. */
  lemma HeadIsAdmitted(x: End, y: End, g: Shared)
    requires Inv(x, y, g) && y.sent != []
    ensures LedgerOf(x).Admits(y.sent[0], g)
    ensures y.sent[0].Valid() && y.sent[0].msg.header.Frame? && x.chan.receiver.Valid()
    ensures LedgerOf(Received(x, y, g)) == LedgerOf(x).After(y.sent[0], g)
  {
    hide Inv; hide Accepting; hide Fits; hide Advance; hide Matches; hide Receive; hide Received; hide FrameBytes;
    HeadIsWelcome(x, y, g);
    InvMirrors(x, y, g);
    ReceiveSucceeds(x, y, g);
    MirrorsAfter(x.chan, LedgerOf(x), y.sent[0], g);
    ReadKeepsLedger(x.(chan := Accepting(x.chan, y.sent[0], g).0, track := Advance(x.track, y.sent[0], g)),
                    Accepting(x.chan, y.sent[0], g).1);
    hide AfterRead; hide Counts;
  }

  lemma ReadKeepsLedger(x: End, read: Option<CompletedRead>)
    ensures LedgerOf(AfterRead(x, read)) == LedgerOf(x)
  {
  }

  /** All that is on its way on a channel is legal. */
  lemma {:induction false} SentIsLegalOn(x: End, y: End, g: Shared)
    requires Inv(x, y, g)
    ensures LegalOn(LedgerOf(x), y.sent, g)
    decreases |y.sent|
  {
    hide Inv; hide LedgerOf; hide Received; hide Ledger.Admits; hide Ledger.After;
    if y.sent != [] {
      HeadIsAdmitted(x, y, g);
      ReceiveKeepsInv(x, y, g);
      SentIsLegalOn(Received(x, y, g), Shortened(y), g);
    }
  }

  /** So is all that will be, if the queue is served in turns for any length of time. */
  lemma ServedIsLegalOn(x: End, y: End, n: nat, g: Shared)
    requires Inv(x, y, g)
    ensures LegalOn(LedgerOf(x), CancelGuard.Settle(CancelGuard.ServeMany(y, n, g), g).sent, g)
  {
    hide Inv; hide LedgerOf; hide LegalOn;
    CancelGuard.InvSwaps(x, y, g);
    CancelGuard.ServeManyKeepInv(y, x, n, g);
    CancelGuard.SettleKeepsInv(CancelGuard.ServeMany(y, n, g), x, g);
    CancelGuard.InvSwaps(CancelGuard.Settle(CancelGuard.ServeMany(y, n, g), g), x, g);
    SentIsLegalOn(x, CancelGuard.Settle(CancelGuard.ServeMany(y, n, g), g), g);
  }

  // ---------------------------------------------------------------- all channels

  /** What is legal on every channel is legal, however the channels are interleaved. */
  lemma {:induction false} LanesAreLegal(ledgers: seq<Ledger>, its: seq<FrameIter>, s: Setup)
    requires |ledgers| == |s.configs| && Framed(its, s)
    requires forall c: ChannelId :: s.Knows(c) ==> LegalOn(ledgers[c], Lane(its, c), s.At(c))
    ensures Legal(ledgers, its, s)
    decreases |its|
  {
    hide Ledger.Admits; hide Ledger.After; hide LegalOn; hide Lane;
    if its != [] {
      assert its[0] in its;
      var c := its[0].msg.header.channel;
      var g := s.At(c);
      assert Lane(its, c) == [its[0]] + Lane(its[1..], c) by { LaneFirst(its, c); }
      FirstIsLegal(ledgers[c], its[0], Lane(its[1..], c), g);
      var after := ledgers[c := ledgers[c].After(its[0], g)];
      forall d: ChannelId | s.Knows(d) ensures LegalOn(after[d], Lane(its[1..], d), s.At(d)) {
        if d != c {
          LaneFirst(its, d);
          assert LegalOn(ledgers[d], Lane(its, d), s.At(d));
        }
      }
      LanesAreLegal(after, its[1..], s);
    }
  }

  lemma LaneFirst(its: seq<FrameIter>, c: ChannelId)
    requires its != []
    ensures Lane(its, c) == if its[0].msg.header.channel == c then [its[0]] + Lane(its[1..], c) else Lane(its[1..], c)
  {
    assert [] + Lane(its[1..], c) == Lane(its[1..], c);
  }

  lemma FirstIsLegal(l: Ledger, it: FrameIter, rest: seq<FrameIter>, g: Shared)
    requires LegalOn(l, [it] + rest, g)
    ensures l.Admits(it, g) && LegalOn(l.After(it, g), rest, g)
  {
    assert ([it] + rest)[1..] == rest;
  }

  ghost function LedgersOf(q: Peer, s: Setup): seq<Ledger>
    requires Sized(q, s)
  {
    seq(|s.configs|, c requires 0 <= c < |s.configs| => LedgerOf(Proj(q, c, s)))
  }

  /** All that is on its way to a peer is legal, and the ledgers are those of its protocol state. */
  lemma SentIsLegal(p: Peer, q: Peer, s: Setup)
    requires Good(p, q, s)
    ensures Sized(q, s) && AllMirror(q.io.juliet, LedgersOf(q, s), s) && Legal(LedgersOf(q, s), p.sent, s)
  {
    hide IoState.Valid; hide Patient; hide CurrentIs; hide Flat; hide Lane; hide Inv; hide LedgerOf; hide Mirrors;
    hide LegalOn; hide Legal;
    var ledgers := LedgersOf(q, s);
    forall c: ChannelId | s.Knows(c)
      ensures Mirrors(q.io.juliet.channels[c], ledgers[c], s.configs[c])
      ensures LegalOn(ledgers[c], Lane(p.sent, c), s.At(c)) {
      var x, y := Proj(q, c, s), Proj(p, c, s);
      assert Inv(y, x, s.At(c));
      CancelGuard.InvSwaps(y, x, s.At(c));
      InvMirrors(x, y, s.At(c));
      SentIsLegalOn(x, y, s.At(c));
    }
    LanesAreLegal(ledgers, p.sent, s);
  }

  /**
   * In every state that two peers get to: the bytes that one of them has written out and the other has
   * not parsed yield, in whatever portions they arrive, the messages that end in them, and no error.
   */
  lemma OnItsWayIsReassembled(p: Peer, q: Peer, chunks: seq<Bytes>, s: Setup)
    requires Good(p, q, s) && Flatten(chunks) == q.io.buffer + p.wire
    ensures q.io.juliet.Valid()
    ensures var run := FeedAll(Run(q.io.juliet, [], [], None), chunks);
      run.error.None? && run.rest == [] && Said(run.completed) == Endings(p.sent, s.mfs)
  {
    hide AllMirror; hide Legal; hide FeedAll; hide Said; hide Endings; hide Flat; hide Flatten; hide LedgersOf;
    hide IoState.Valid; hide Sound; hide Lanes;
    SentIsLegal(p, q, s);
    ReassemblyInChunks(q.io.juliet, LedgersOf(q, s), p.sent, chunks, s);
  }
}
