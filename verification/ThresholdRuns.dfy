// The parse threshold in runs of two peers.
module ThresholdRuns {
  import opened Protocol
  import opened IoState
  import opened TwoPeers
  import opened PeerSends
  import opened PeerSteps
  import opened PeerReceives
  import opened Runs
  import opened Threshold
  import Reports

  lemma ActKeepsExact(p: Peer, q: Peer, action: Action, s: Setup)
    requires Good(p, q, s) && May(p, action, s) && Exact(p.io) && Exact(q.io)
    ensures Exact(Act(p, q, action, s).x.io) && Exact(Act(p, q, action, s).y.io)
  {
    hide Good; hide MayCancelOn; hide Unanswered; hide IoState.Valid; hide HandleIncomingItem; hide Exact;
    hide ReadyNextFrame; hide FrameSent; hide ParseStep; hide ProcessIncoming; hide Act;
    ActWorks(p, q, action, s);
    if action.Deliver? { DeliveredExact(p, q, action.bytes, s); } else { OtherBuffer(p, q, action, s); }
    match action
    case Enqueue(item) => EnqueueKeepsExact(p.io, item);
    case MakeReady => ReadyKeepsExact(p.io);
    case WriteOut => FrameSentKeepsExact(p.io);
    case Deliver(_) =>
    case Parse => ParseKeepsExact(p.io);
  }

  lemma DeliveredExact(p: Peer, q: Peer, k: nat, s: Setup)
    requires Good(p, q, s) && May(p, Action.Deliver(k), s) && Exact(q.io)
    ensures Exact(Act(p, q, Action.Deliver(k), s).y.io)
  {
    hide Good; hide Exact; hide IoState.Valid;
    BytesKeepExact(q.io, p.wire[..k]);
  }

  lemma OtherBuffer(p: Peer, q: Peer, action: Action, s: Setup)
    requires Good(p, q, s) && May(p, action, s) && !action.Deliver?
    ensures Act(p, q, action, s).y.io == q.io
  {
    hide Good; hide Honest; hide Enqueued; hide Readied; hide Written; hide AfterParse; hide IoState.Valid;
    if action.Parse? { Reports.ParseKeepsOther(p, q, s); }
  }

  /** Both thresholds are exact. */
  ghost predicate BothExact(w: Pair) {
    Exact(w.x.io) && Exact(w.y.io)
  }

  lemma TurnKeepsExact(w: Pair, step: Turn, s: Setup)
    requires Good(w.x, w.y, s) && May(if step.who == Who.First then w.x else w.y, step.action, s) && BothExact(w)
    ensures BothExact(TakeTurn(w, step, s))
  {
    hide Good; hide May; hide Act; hide Exact;
    GoodSwaps(w.x, w.y, s);
    if step.who == Who.First {
      ActKeepsExact(w.x, w.y, step.action, s);
    } else {
      ActKeepsExact(w.y, w.x, step.action, s);
    }
  }

  lemma {:induction false} RunsKeepExact(w: Pair, steps: seq<Turn>, s: Setup)
    requires Good(w.x, w.y, s) && MayRun(w, steps, s) && BothExact(w)
    ensures BothExact(AfterRun(w, steps, s))
    decreases |steps|
  {
    hide Good; hide May; hide TakeTurn; hide BothExact;
    if steps != [] {
      TurnKeepsExact(w, steps[0], s);
      RunsKeepExact(TakeTurn(w, steps[0], s), steps[1..], s);
    }
  }

  /** In every state that two peers get to, parsing on every occasion would make no difference. */
  lemma NoParseIsMissed(steps: seq<Turn>, s: Setup)
    requires |s.configs| <= 0x100 && MayRun(Start(s), steps, s)
    ensures var io := AfterRun(Start(s), steps, s).x.io;
      io.Valid() && io.(nextParseAt := 0).Valid() && ParseStep(io) == ParseStep(io.(nextParseAt := 0))
    ensures var io := AfterRun(Start(s), steps, s).y.io;
      io.Valid() && io.(nextParseAt := 0).Valid() && ParseStep(io) == ParseStep(io.(nextParseAt := 0))
  {
    hide Good; hide May; hide Act; hide ParseStep; hide MayRun; hide ProcessIncoming;
    StartIsExact(s);
    RunsKeepExact(Start(s), steps, s);
    hide IoState.Valid; hide AllWork;
    var w := AfterRun(Start(s), steps, s);
    HonestRunsNeverViolate(steps, s);
    ThresholdMakesNoDifference(w.x.io);
    ThresholdMakesNoDifference(w.y.io);
  }

  lemma StartIsExact(s: Setup)
    requires |s.configs| <= 0x100
    ensures BothExact(Start(s))
  {
    hide Good; hide ProcessIncoming;
    assert NewPeer(s).io.Valid();
  }
}
