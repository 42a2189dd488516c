// Fragmenting messages, interleaving their frames and reassembling them is the identity: for any
// interleaving that heeds what the ledger of every channel says, whatever order the sender chooses.
module Reassembly {
  import opened Types
  import opened Message
  import opened Protocol
  import opened Streaming
  import opened Transfer
  import opened Duplex
  import opened DuplexReceive
  import opened TwoPeers
  import opened PeerReceives

  /** What a sender knows of a channel: the message in the middle of which it is, and what the receiver tracks. */
  datatype Ledger = Ledger(track: Track, incoming: set<Id>, outgoing: set<Id>, allowance: int) {
    /** The frame may be sent next. */
    ghost predicate Admits(it: FrameIter, g: Shared) {
      var h := it.msg.header;
      && Fits(it, g) && !Advance(track, it, g).Broken?
      && (On(Requests, h) && it.processed == 0 ==> h.id !in incoming && |incoming| < g.config.requestLimit)
      && (On(Answers, h) ==> h.id in outgoing)
      && (IsCancelReq(h) ==> allowance > 0)
    }

    ghost function After(it: FrameIter, g: Shared): Ledger {
      Ledger(Advance(track, it, g),
             incoming + (if Counts(First, Requests, it, g) then {it.msg.header.id} else {}),
             outgoing - (if Counts(Last, Answers, it, g) then {it.msg.header.id} else {}),
             AllowanceAfter(allowance, it, g.config.requestLimit))
    }
  }

  /** The frames may be sent in this order, whatever channels they are for. */
  ghost predicate Legal(ledgers: seq<Ledger>, its: seq<FrameIter>, s: Setup)
    requires |ledgers| == |s.configs|
    decreases |its|
  {
    its != [] ==>
      var c := its[0].msg.header.channel;
      && s.Knows(c) && ledgers[c].Admits(its[0], s.At(c))
      && Legal(ledgers[c := ledgers[c].After(its[0], s.At(c))], its[1..], s)
  }

  /** The receiver is in the state that the ledger says. */
  ghost predicate Mirrors(ch: ChannelState, l: Ledger, config: ChannelConfiguration) {
    && ch.config == config && Matches(ch.receiver, l.track)
    && ch.incoming == l.incoming && ch.outgoing == l.outgoing && ch.allowance == l.allowance <= config.requestLimit
  }

  ghost predicate AllMirror(p: ProtocolState, ledgers: seq<Ledger>, s: Setup) {
    && p.mfs == s.mfs && |p.channels| == |ledgers| == |s.configs| <= 0x100
    && forall c :: 0 <= c < |ledgers| ==> Mirrors(p.channels[c], ledgers[c], s.configs[c])
  }

  /** The messages that the reads stand for. */
  function Said(completed: seq<CompletedRead>): seq<OutgoingMessage> {
    if completed == [] then []
    else (if MessageOf(completed[0]).Some? then [MessageOf(completed[0]).value] else []) + Said(completed[1..])
  }

  lemma MirrorsWelcome(ch: ChannelState, l: Ledger, it: FrameIter, g: Shared)
    requires Mirrors(ch, l, g.config) && l.Admits(it, g)
    ensures Welcome(ch, l.track, it, g) && it.Valid() && it.msg.header.Frame? && it.msg.header.channel == g.channel
  {
    hide Advance; hide Matches;
  }

  /** Receiving a frame keeps the ledger true. */
  lemma MirrorsAfter(ch: ChannelState, l: Ledger, it: FrameIter, g: Shared)
    requires Mirrors(ch, l, g.config) && l.Admits(it, g) && it.msg.header.Frame?
    ensures Mirrors(Accepting(ch, it, g).0, l.After(it, g), g.config)
  {
    hide Advance; hide Matches; hide Accepting; hide Counts; hide Fits; hide AllowanceAfter;
    MirrorsWelcome(ch, l, it, g);
    AcceptingMatches(ch, l.track, it, g);
    AcceptingFields(ch, it, g);
    AcceptingAllowance(ch, l.track, it, g);
  }

  lemma MirrorsValid(p: ProtocolState, ledgers: seq<Ledger>, s: Setup)
    requires AllMirror(p, ledgers, s)
    ensures p.Valid()
  {
    forall c | 0 <= c < |p.channels| ensures p.channels[c].receiver.Valid() {
      assert Mirrors(p.channels[c], ledgers[c], s.configs[c]);
      MatchesValid(p.channels[c].receiver, ledgers[c].track);
    }
  }

  /** What the parser does with the next frame, whatever follows it. */
  lemma NextIsTaken(p: ProtocolState, ledgers: seq<Ledger>, it: FrameIter, later: Bytes, s: Setup)
    requires AllMirror(p, ledgers, s) && s.Knows(it.msg.header.channel)
    requires ledgers[it.msg.header.channel].Admits(it, s.At(it.msg.header.channel))
    ensures p.Valid() && it.Valid() && it.msg.header.Frame?
    ensures var c := it.msg.header.channel;
      var (after, read) := Accepting(p.channels[c], it, s.At(c));
      && Pass(p, FrameBytes(it, s.mfs) + later) ==
         Step(p.(channels := p.channels[c := after]), |FrameBytes(it, s.mfs)|, Success(read))
      && AllMirror(p.(channels := p.channels[c := after]), ledgers[c := ledgers[c].After(it, s.At(c))], s)
  {
    hide Accepting; hide Pass; hide ChannelPass; hide Ledger.Admits; hide Ledger.After; hide Welcome;
    hide FrameBytes; hide Mirrors;
    var c := it.msg.header.channel;
    var g := s.At(c);
    assert Mirrors(p.channels[c], ledgers[c], s.configs[c]);
    MirrorsValid(p, ledgers, s);
    MirrorsWelcome(p.channels[c], ledgers[c], it, g);
    MirrorsAfter(p.channels[c], ledgers[c], it, g);
    WelcomeIsAccepted(p.channels[c], ledgers[c].track, it, g);
    PassOfFrame(p, it);
    PassExtend(p, FrameBytes(it, s.mfs), later);
  }

  lemma LegalValid(ledgers: seq<Ledger>, its: seq<FrameIter>, s: Setup)
    requires |ledgers| == |s.configs| && Legal(ledgers, its, s)
    ensures forall it :: it in its ==> it.Valid()
    decreases |its|
  {
    if its != [] {
      var c := its[0].msg.header.channel;
      LegalValid(ledgers[c := ledgers[c].After(its[0], s.At(c))], its[1..], s);
      assert its[0].Valid();
      hide Ledger.Admits; hide Ledger.After;
      assert its == [its[0]] + its[1..];
    }
  }

  /**
   * Whatever the interleaving, as long as it is legal: the bytes of the frames are parsed without an
   * error and without a remainder, and the reads are the whole messages, in the order of their last
   * frames, every payload byte for byte.
   */
  lemma {:induction false} ReassemblyIsIdentity(p: ProtocolState, ledgers: seq<Ledger>, its: seq<FrameIter>, s: Setup)
    requires AllMirror(p, ledgers, s) && Legal(ledgers, its, s)
    ensures p.Valid() && forall it :: it in its ==> it.Valid()
    ensures var run := Drain(p, Flat(its, s.mfs));
      run.error.None? && run.rest == [] && Said(run.completed) == Endings(its, s.mfs)
    decreases |its|
  {
    hide Pass; hide Drain; hide Ledger.Admits; hide Ledger.After; hide FrameBytes; hide Accepting;
    hide Mirrors; hide MessageOf;
    MirrorsValid(p, ledgers, s);
    LegalValid(ledgers, its, s);
    if its == [] {
      EmptyDrain(p);
    } else {
      var it, c, later := its[0], its[0].msg.header.channel, Flat(its[1..], s.mfs);
      NextIsTaken(p, ledgers, it, later, s);
      var (after, read) := Accepting(p.channels[c], it, s.At(c));
      var q := p.(channels := p.channels[c := after]);
      ReassemblyIsIdentity(q, ledgers[c := ledgers[c].After(it, s.At(c))], its[1..], s);
      DrainStep(p, FrameBytes(it, s.mfs) + later);
      assert (FrameBytes(it, s.mfs) + later)[|FrameBytes(it, s.mfs)|..] == later;
      ReadIsMessage(p.channels[c], ledgers[c], it, s.At(c));
      hide Endings;
      SaidOne(read, Drain(q, later).completed);
      NextEnds(its, s.mfs);
    }
  }

  /** The same, if the bytes arrive in any number of portions. */
  lemma ReassemblyInChunks(p: ProtocolState, ledgers: seq<Ledger>, its: seq<FrameIter>, chunks: seq<Bytes>, s: Setup)
    requires AllMirror(p, ledgers, s) && Legal(ledgers, its, s)
    requires (forall it :: it in its ==> it.Valid()) ==> Flatten(chunks) == Flat(its, s.mfs)
    ensures p.Valid()
    ensures var run := FeedAll(Run(p, [], [], None), chunks);
      run.error.None? && run.rest == [] && Said(run.completed) == Endings(its, s.mfs)
  {
    hide Drain; hide FeedAll;
    ReassemblyIsIdentity(p, ledgers, its, s);
    ChunkIndependence(p, chunks);
  }

  lemma ReadIsMessage(ch: ChannelState, l: Ledger, it: FrameIter, g: Shared)
    requires l.Admits(it, g) && it.msg.header.Frame?
    ensures it.Valid()
    ensures var read := Accepting(ch, it, g).1;
      (if read.Some? && MessageOf(read.value).Some? then [MessageOf(read.value).value] else []) ==
      (if it.IsFinal(g.mfs) && Reported(it.msg) then [it.msg] else [])
  {
    AcceptingReads(ch, it, g);
  }

  lemma SaidOne(read: Option<CompletedRead>, rest: seq<CompletedRead>)
    ensures Said((if read.Some? then [read.value] else []) + rest) ==
            (if read.Some? && MessageOf(read.value).Some? then [MessageOf(read.value).value] else []) + Said(rest)
  {
    if read.Some? {
      assert ([read.value] + rest)[1..] == rest;
    } else {
      assert [] + rest == rest;
    }
  }

  lemma NextEnds(its: seq<FrameIter>, mfs: MaxFrameSize)
    requires its != [] && its[0].Valid()
    ensures Endings(its, mfs) == (if its[0].IsFinal(mfs) && Reported(its[0].msg) then [its[0].msg] else []) +
            Endings(its[1..], mfs)
  {
  }
}
