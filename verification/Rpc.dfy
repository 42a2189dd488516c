// The bookkeeping of the RPC layer: which requests are pending, when they time out, and how their
// guards are resolved. Time is a number of nanoseconds.
module Rpc {
  import opened Types
  import opened IoState

  type Instant = nat

  /** How long to wait if no timeout is pending: an hour. */
  const DUMMY_SLEEP: nat := 3600 * 1_000_000_000

  datatype RequestError =
    | RemoteClosed(payload: Option<Bytes>)
    | Shutdown
    | TimedOut
    | RemoteCancelled

  type Response = Result<Option<Bytes>, RequestError>

  /** Shared by the server and the one who waits for the response. */
  class RequestGuardInner {
    var outcome: Option<Response>
    /** How often the one who waits was notified. */
    var notified: nat

    constructor ()
      ensures outcome.None? && notified == 0
    {
      outcome, notified := None, 0;
    }

    /** Only the first outcome counts, and only it is notified. */
    method SetAndNotify(value: Response)
      modifies this
      ensures outcome == if old(outcome).None? then Some(value) else old(outcome)
      ensures notified == if old(outcome).None? then old(notified) + 1 else old(notified)
    {
      if outcome.None? {
        outcome := Some(value);
        notified := notified + 1;
      }
    }

    /** Resolved, and notified once; or neither. */
    ghost predicate Consistent()
      reads this
    {
      notified == if outcome.Some? then 1 else 0
    }
  }

  datatype NewOutgoingRequest = NewOutgoingRequest(
    channel: ChannelId,
    ioId: IoId,
    guard: RequestGuardInner,
    payload: Option<Bytes>,
    expires: Option<Instant>)

  // ---------------------------------------------------------------- the heap of timeouts

  datatype Timeout = Timeout(expires: Instant, ioId: IoId) {
    predicate NotAfter(other: Timeout) {
      expires < other.expires || (expires == other.expires && ioId <= other.ioId)
    }
  }

  /** A heap, by its contents from the top down: the earliest timeout comes first. */
  type Heap = seq<Timeout>

  ghost predicate Ordered(heap: Heap) {
    forall i, j :: 0 <= i < j < |heap| ==> heap[i].NotAfter(heap[j])
  }

  function PushTimeout(heap: Heap, t: Timeout): Heap {
    if heap == [] || t.NotAfter(heap[0]) then [t] + heap else [heap[0]] + PushTimeout(heap[1..], t)
  }

  lemma {:induction false} PushKeepsOrder(heap: Heap, t: Timeout)
    requires Ordered(heap)
    ensures Ordered(PushTimeout(heap, t)) && forall u :: u in PushTimeout(heap, t) <==> u in heap || u == t
  {
    if heap == [] || t.NotAfter(heap[0]) {
    } else {
      var rest := PushTimeout(heap[1..], t);
      PushKeepsOrder(heap[1..], t);
      forall j | 0 <= j < |rest| ensures heap[0].NotAfter(rest[j]) {
        assert rest[j] in heap[1..] || rest[j] == t;
      }
    }
  }

  /** How many timeouts at the top of the heap are due. */
  function Due(heap: Heap, now: Instant): (n: nat)
    ensures n <= |heap| && forall i :: 0 <= i < n ==> heap[i].expires <= now
    ensures n < |heap| ==> heap[n].expires > now
  {
    if heap == [] || heap[0].expires > now then 0 else 1 + Due(heap[1..], now)
  }

  /** Draining from the top finds every timeout that is due. */
  lemma DueIsAll(heap: Heap, now: Instant)
    requires Ordered(heap)
    ensures forall i :: 0 <= i < |heap| ==> (heap[i].expires <= now <==> i < Due(heap, now))
  {
  }

  // ---------------------------------------------------------------- guards that wait

  ghost function GuardsOf(requests: seq<NewOutgoingRequest>): set<RequestGuardInner> {
    set r | r in requests :: r.guard
  }

  /** No guard and no local id occurs twice. */
  ghost predicate NoneTwice(requests: seq<NewOutgoingRequest>) {
    forall i, j :: 0 <= i < j < |requests| ==>
      requests[i].guard != requests[j].guard && requests[i].ioId != requests[j].ioId
  }

  type Pending = map<IoId, RequestGuardInner>

  ghost predicate Injective(pending: Pending) {
    forall k, l :: k in pending && l in pending && pending[k] == pending[l] ==> k == l
  }

  lemma GuardsAppend(requests: seq<NewOutgoingRequest>, r: NewOutgoingRequest)
    ensures GuardsOf(requests + [r]) == GuardsOf(requests) + {r.guard}
  {
    forall g ensures g in GuardsOf(requests + [r]) <==> g in GuardsOf(requests) + {r.guard} {
      if g == r.guard {
        assert (requests + [r])[|requests|] == r;
      } else if g in GuardsOf(requests) {
        var q :| q in requests && q.guard == g;
        assert q in requests + [r];
      }
    }
  }

  lemma GuardsTail(requests: seq<NewOutgoingRequest>)
    requires NoneTwice(requests) && requests != []
    ensures GuardsOf(requests) == GuardsOf(requests[1..]) + {requests[0].guard}
    ensures requests[0].guard !in GuardsOf(requests[1..]) && NoneTwice(requests[1..])
  {
    assert requests == [requests[0]] + requests[1..];
  }

  lemma PendingInsert(pending: Pending, k: IoId, g: RequestGuardInner)
    requires Injective(pending) && k !in pending && g !in pending.Values
    ensures Injective(pending[k := g]) && pending[k := g].Values == pending.Values + {g}
  {
    var after := pending[k := g];
    forall h ensures h in after.Values <==> h in pending.Values + {g} {
      if h == g {
        assert after[k] == h;
      } else if h in pending.Values {
        var l :| l in pending && pending[l] == h;
        assert after[l] == h;
      }
    }
  }

  lemma PendingRemove(pending: Pending, k: IoId)
    requires Injective(pending) && k in pending
    ensures Injective(pending - {k}) && (pending - {k}).Values == pending.Values - {pending[k]}
  {
    var after := pending - {k};
    forall h ensures h in after.Values <==> h in pending.Values && h != pending[k] {
      if h in pending.Values && h != pending[k] {
        var l :| l in pending && pending[l] == h;
        assert l in after && after[l] == h;
      }
    }
  }

  /** The heap holds a timeout for every pending request that has one, and no wrong ones. */
  ghost predicate TimeoutsOf(timeouts: Heap, pending: Pending, issued: set<IoId>, expiry: map<IoId, Instant>) {
    && Ordered(timeouts)
    && pending.Keys <= issued && expiry.Keys <= issued
    && (forall k :: k in pending && k in expiry ==> Timeout(expiry[k], k) in timeouts)
    && (forall t :: t in timeouts ==> t.ioId in expiry && expiry[t.ioId] == t.expires)
  }

  lemma FirstTimedOut(timeouts: Heap, pending: Pending, issued: set<IoId>, expiry: map<IoId, Instant>)
    requires TimeoutsOf(timeouts, pending, issued, expiry) && timeouts != []
    ensures TimeoutsOf(timeouts[1..], pending - {timeouts[0].ioId}, issued, expiry)
    ensures timeouts[0].ioId in expiry && expiry[timeouts[0].ioId] == timeouts[0].expires
  {
    assert timeouts == [timeouts[0]] + timeouts[1..];
  }

  /** The cancellations that follow from the timeouts that are due: one for each request still pending. */
  function Cancellations(heap: Heap, pending: Pending, now: Instant, open: bool): seq<QueuedItem>
    decreases |heap|
  {
    if heap == [] || heap[0].expires > now then []
    else
      (if heap[0].ioId in pending && open then [QueuedRequestCancellation(heap[0].ioId)] else []) +
      Cancellations(heap[1..], pending - {heap[0].ioId}, now, open)
  }

  /** How often an item is among these, and nothing but cancellations is. */
  ghost function CancelCount(items: seq<QueuedItem>, k: IoId): nat {
    multiset(items)[QueuedRequestCancellation(k)]
  }

  /** Exactly the requests that are pending and due are cancelled, each once, if anything can be sent. */
  lemma {:induction false} CancelsWhatIsDue(heap: Heap, pending: Pending, issued: set<IoId>, expiry: map<IoId, Instant>,
                                            now: Instant, open: bool, k: IoId)
    requires TimeoutsOf(heap, pending, issued, expiry)
    ensures CancelCount(Cancellations(heap, pending, now, open), k) ==
            if open && k in pending && k in expiry && expiry[k] <= now then 1 else 0
    ensures forall item :: item in Cancellations(heap, pending, now, open) ==> item.QueuedRequestCancellation?
    decreases |heap|
  {
    if heap != [] && heap[0].expires <= now {
      FirstTimedOut(heap, pending, issued, expiry);
      var l := heap[0].ioId;
      hide TimeoutsOf;
      CancelsWhatIsDue(heap[1..], pending - {l}, issued, expiry, now, open, k);
    }
  }

  /** The timeout at the top, if it is due, comes before the others. */
  lemma TopFirst(heap: Heap, pending: Pending, now: Instant, open: bool, queue: seq<QueuedItem>)
    ensures (heap == [] || heap[0].expires > now) ==>
              Due(heap, now) == 0 && queue + Cancellations(heap, pending, now, open) == queue
    ensures heap != [] && heap[0].expires <= now ==>
              && Due(heap, now) == 1 + Due(heap[1..], now)
              && queue + Cancellations(heap, pending, now, open) ==
                 (queue + if heap[0].ioId in pending && open then [QueuedRequestCancellation(heap[0].ioId)] else [])
                   + Cancellations(heap[1..], pending - {heap[0].ioId}, now, open)
  {
  }

  // ---------------------------------------------------------------- the server

  class RpcServer {
    var newRequests: seq<NewOutgoingRequest>
    var pending: Pending
    var timeouts: Heap
    /** What has been enqueued for the IO layer, and whether the IO layer still accepts anything. */
    var queue: seq<QueuedItem>
    var open: bool

    // history: every guard received, every local id seen, and when each request is to time out
    ghost var guards: set<RequestGuardInner>
    ghost var issued: set<IoId>
    ghost var expiry: map<IoId, Instant>

    /** No guard is in two places, or twice in one. */
    ghost predicate Distinct()
      reads this
    {
      && NoneTwice(newRequests) && Injective(pending) && GuardsOf(newRequests) !! pending.Values
      && (forall i :: 0 <= i < |newRequests| ==> newRequests[i].ioId !in issued)
    }

    /** The guards in the queue of new requests and in the map of pending ones. */
    ghost function Waiting(): set<RequestGuardInner>
      reads this
    {
      GuardsOf(newRequests) + pending.Values
    }

    /** Every guard is either waiting or resolved. */
    ghost predicate Accounted()
      reads this, guards
    {
      Waiting() <= guards && forall g :: g in guards ==> g.Consistent() && (g in Waiting() <==> g.outcome.None?)
    }

    ghost predicate Timely()
      reads this
    {
      TimeoutsOf(timeouts, pending, issued, expiry)
    }

    ghost predicate Valid()
      reads this, guards
    {
      Distinct() && Accounted() && Timely()
    }

    constructor ()
      ensures Valid() && newRequests == [] && pending == map[] && guards == {} && open
    {
      newRequests, pending, timeouts, queue, open := [], map[], [], [], true;
      guards, issued, expiry := {}, {}, map[];
    }

    /** A client schedules a request, with a fresh guard and a fresh local id. */
    method Schedule(request: NewOutgoingRequest)
      requires Valid() && request.guard !in guards && request.guard.outcome.None? && request.guard.notified == 0
      requires request.ioId !in issued && forall i :: 0 <= i < |newRequests| ==> newRequests[i].ioId != request.ioId
      modifies this
      ensures Valid() && guards == old(guards) + {request.guard} && newRequests == old(newRequests) + [request]
      ensures pending == old(pending) && timeouts == old(timeouts) && queue == old(queue) && open == old(open)
    {
      assert forall i :: 0 <= i < |newRequests| ==> newRequests[i].guard in GuardsOf(newRequests);
      GuardsAppend(newRequests, request);
      hide GuardsOf;
      newRequests := newRequests + [request];
      guards := guards + {request.guard};
    }

    method AddTimeout(expires: Instant, ioId: IoId)
      requires Timely() && ioId in issued && ioId !in expiry
      modifies this`timeouts, this`expiry
      ensures Timely() && expiry == old(expiry)[ioId := expires] && Timeout(expires, ioId) in timeouts
    {
      PushKeepsOrder(timeouts, Timeout(expires, ioId));
      timeouts := PushTimeout(timeouts, Timeout(expires, ioId));
      expiry := expiry[ioId := expires];
    }

    /** Takes a new request: it becomes pending or, if nothing can be sent any more, fails. */
    method TakeNewRequest()
      requires Valid() && newRequests != []
      modifies this, newRequests[0].guard
      ensures Valid() && guards == old(guards) && open == old(open)
      ensures newRequests == old(newRequests)[1..]
      ensures var r := old(newRequests)[0];
        if open then
          && pending == old(pending)[r.ioId := r.guard] && r.guard.outcome.None?
          && queue == old(queue) + [QueuedRequest(r.channel, r.ioId, r.payload)]
          && (r.expires.Some? ==>
               Timeout(r.expires.value, r.ioId) in timeouts && expiry == old(expiry)[r.ioId := r.expires.value])
          && (r.expires.None? ==> expiry == old(expiry))
        else
          && pending == old(pending) && queue == old(queue) && expiry == old(expiry)
          && r.guard.outcome == Some(Err(RemoteClosed(r.payload)))
    {
      hide GuardsOf; hide Ordered;
      var r := newRequests[0];
      GuardsTail(newRequests);
      assert r.ioId !in issued && r.ioId !in pending;
      newRequests := newRequests[1..];
      if open {
        queue := queue + [QueuedRequest(r.channel, r.ioId, r.payload)];
        PendingInsert(pending, r.ioId, r.guard);
        pending := pending[r.ioId := r.guard];
        issued := issued + {r.ioId};
        if r.expires.Some? {
          AddTimeout(r.expires.value, r.ioId);
        }
      } else {
        r.guard.SetAndNotify(Err(RemoteClosed(r.payload)));
      }
    }

    /** The server's end of a pending request: removes it, and tells the one who waits. */
    method Resolve(ioId: IoId, response: Response)
      requires Valid() && ioId in pending
      modifies this`pending, pending[ioId]
      ensures Valid() && pending == old(pending) - {ioId}
      ensures old(pending)[ioId].outcome == Some(response)
    {
      hide GuardsOf; hide Ordered;
      var guard := pending[ioId];
      PendingRemove(pending, ioId);
      pending := pending - {ioId};
      guard.SetAndNotify(response);
    }

    /**
     * Hands a response, or the lack of one, to whoever waits for it, and a request of the peer, which can
     * be answered, to the caller; that a request is cancelled is ignored.
     */
    method OnEvent(event: IoEvent) returns (incoming: Option<IncomingRequest>)
      requires Valid()
      modifies this`pending, pending.Values
      ensures Valid()
      ensures incoming.Some? <==> event.RequestReceived?
      ensures match event
        case RequestReceived(channel, id, payload) =>
          && fresh(incoming.value) && incoming.value.handle
          && incoming.value.channel == channel && incoming.value.id == id && incoming.value.payload == payload
        case _ => true
      ensures match event
        case ResponseReceived(ioId, payload) =>
          pending == old(pending) - {ioId} && (ioId in old(pending) ==> old(pending)[ioId].outcome == Some(Ok(payload)))
        case CancellationResponseReceived(ioId) =>
          pending == old(pending) - {ioId} &&
            (ioId in old(pending) ==> old(pending)[ioId].outcome == Some(Err(RemoteCancelled)))
        case _ => pending == old(pending)
      ensures forall k :: k in pending ==> unchanged(pending[k])
    {
      incoming := None;
      match event
      case RequestReceived(channel, id, payload) =>
        var request := new IncomingRequest(channel, id, payload);
        incoming := Some(request);
      case ResponseReceived(ioId, payload) =>
        if ioId in pending {
          Resolve(ioId, Ok(payload));
        }
      case CancellationResponseReceived(ioId) =>
        if ioId in pending {
          Resolve(ioId, Err(RemoteCancelled));
        }
      case _ =>
    }

    /** The pending requests that are due. */
    ghost function Expired(now: Instant): set<IoId>
      reads this
    {
      set k | k in pending && k in expiry && expiry[k] <= now
    }

    ghost function FirstGuard(): set<RequestGuardInner>
      reads this
    {
      if timeouts != [] && timeouts[0].ioId in pending then {pending[timeouts[0].ioId]} else {}
    }

    /** Takes the earliest timeout, which is due; tells whether the request was still pending. */
    method TimeOutFirst(now: Instant) returns (hit: bool)
      requires Valid() && timeouts != [] && timeouts[0].expires <= now
      modifies this`pending, this`timeouts, this`queue, FirstGuard()
      ensures Valid() && timeouts == old(timeouts)[1..]
      ensures var ioId := old(timeouts)[0].ioId;
        && hit == (ioId in old(pending)) && pending == old(pending) - {ioId}
        && ioId in expiry && expiry[ioId] <= now
        && (hit ==> old(pending)[ioId].outcome == Some(Err(TimedOut)))
        && queue == old(queue) + if hit && open then [QueuedRequestCancellation(ioId)] else []
    {
      hide GuardsOf; hide TimeoutsOf;
      FirstTimedOut(timeouts, pending, issued, expiry);
      var ioId := timeouts[0].ioId;
      hit := ioId in pending;
      if hit {
        Resolve(ioId, Err(TimedOut));
        if open {
          queue := queue + [QueuedRequestCancellation(ioId)];
        }
      }
      timeouts := timeouts[1..];
      assert pending == old(pending) - {ioId};
    }

    /** Once the earliest timeout is in the future, all are. */
    lemma NoneDue(now: Instant)
      requires Timely() && (timeouts != [] ==> timeouts[0].expires > now)
      ensures Expired(now) == {}
      ensures forall k :: k in pending && k in expiry ==> timeouts != [] && timeouts[0].expires <= expiry[k]
    {
    }

    lemma EachCancelledOnce(now: Instant)
      requires Timely()
      ensures forall k :: CancelCount(Cancellations(timeouts, pending, now, open), k) ==
                          if open && k in Expired(now) then 1 else 0
    {
      hide Cancellations; hide CancelCount;
      forall k
        ensures CancelCount(Cancellations(timeouts, pending, now, open), k) ==
                if open && k in Expired(now) then 1 else 0 {
        CancelsWhatIsDue(timeouts, pending, issued, expiry, now, open, k);
      }
    }

    /** Takes all timeouts that are due; counts the requests that were still pending. */
    method DrainDue(now: Instant) returns (timedOut: nat, ghost gone: set<IoId>)
      requires Valid()
      modifies this`pending, this`timeouts, this`queue, pending.Values
      ensures Valid() && (timeouts != [] ==> timeouts[0].expires > now)
      ensures gone <= old(Expired(now)) && timedOut == |gone| && pending == old(pending) - gone
      ensures forall k :: k in gone ==> old(pending)[k].outcome == Some(Err(TimedOut))
      ensures timeouts == old(timeouts)[Due(old(timeouts), now)..]
      ensures queue == old(queue) + Cancellations(old(timeouts), old(pending), now, open)
    {
      hide Accounted; hide Distinct; hide Timely; hide Due; hide Cancellations;
      ghost var before, heap, n := pending, timeouts, 0;
      timedOut, gone := 0, {};
      while timeouts != [] && timeouts[0].expires <= now
        invariant Valid()
        invariant gone <= old(Expired(now)) && timedOut == |gone| && pending == before - gone
        invariant forall k :: k in gone ==> before[k].outcome == Some(Err(TimedOut))
        invariant n <= |heap| && timeouts == heap[n..] && Due(heap, now) == n + Due(timeouts, now)
        invariant queue + Cancellations(timeouts, pending, now, open) == old(queue) +
                  Cancellations(heap, before, now, open)
        decreases |timeouts|
      {
        ghost var ioId := timeouts[0].ioId;
        TopFirst(timeouts, pending, now, open, queue);
        n := n + 1;
        var hit := TimeOutFirst(now);
        if hit {
          gone := gone + {ioId};
          timedOut := timedOut + 1;
        }
      }
      TopFirst(timeouts, pending, now, open, queue);
    }

    /**
     * Exactly the pending requests that are due time out: their guards are told, and a cancellation
     * is enqueued for each. The next deadline lies in the future.
     */
    method ProcessTimeouts(now: Instant) returns (deadline: Instant, timedOut: nat)
      requires Valid()
      modifies this`pending, this`timeouts, this`queue, pending.Values
      ensures Valid() && Expired(now) == {}
      ensures pending == old(pending) - old(Expired(now))
      ensures timedOut == |old(Expired(now))|
      ensures forall k :: k in old(Expired(now)) ==> old(pending)[k].outcome == Some(Err(TimedOut))
      ensures deadline > now
      ensures forall k :: k in pending && k in expiry ==> deadline <= expiry[k]
      ensures timeouts == old(timeouts)[Due(old(timeouts), now)..]
      ensures queue == old(queue) + Cancellations(old(timeouts), old(pending), now, open)
      ensures forall k :: CancelCount(queue[|old(queue)|..], k) == if open && k in old(Expired(now)) then 1 else 0
    {
      hide Accounted; hide Distinct; hide Timely; hide Due; hide Cancellations; hide CancelCount;
      EachCancelledOnce(now);
      ghost var gone;
      timedOut, gone := DrainDue(now);
      NoneDue(now);
      assert gone == old(Expired(now));
      deadline := if timeouts != [] then timeouts[0].expires else now + DUMMY_SLEEP;
    }

    method DrainPending()
      requires Valid()
      modifies this`pending, pending.Values
      ensures Valid() && pending == map[]
      ensures forall k :: k in old(pending) ==> old(pending)[k].outcome == Some(Err(Shutdown))
    {
      hide Accounted; hide Distinct; hide Timely;
      ghost var before := pending;
      while pending != map[]
        invariant Valid()
        invariant forall k :: k in pending ==> k in before && pending[k] == before[k]
        invariant forall k :: k in before && k !in pending ==> before[k].outcome == Some(Err(Shutdown))
        decreases |pending|
      {
        ghost var left := pending;
        var ioId :| ioId in pending;
        Resolve(ioId, Err(Shutdown));
        Fewer(left, ioId);
      }
    }

    static lemma Fewer(m: Pending, k: IoId)
      requires k in m
      ensures |m - {k}| < |m|
    {
      assert m == (m - {k})[k := m[k]];
    }

    /** The new requests that are left fail, as nothing can be sent any more. */
    method DrainNew()
      requires Valid() && !open
      modifies this, GuardsOf(newRequests)
      ensures Valid() && newRequests == [] && pending == old(pending) && guards == old(guards)
      ensures forall i :: 0 <= i < |old(newRequests)| ==>
                old(newRequests)[i].guard.outcome == Some(Err(RemoteClosed(old(newRequests)[i].payload)))
    {
      hide Accounted; hide Distinct; hide Timely;
      ghost var before, n := newRequests, 0;
      while newRequests != []
        invariant Valid() && guards == old(guards) && pending == old(pending) && !open
        invariant n <= |before| && newRequests == before[n..]
        invariant forall i :: 0 <= i < n ==> before[i].guard.outcome == Some(Err(RemoteClosed(before[i].payload)))
        decreases |newRequests|
      {
        assert newRequests[0] == before[n];
        assert before[n] in before;
        StillResolved(before, n);
        TakeNewRequest();
        n := n + 1;
      }
    }

    lemma StillResolved(before: seq<NewOutgoingRequest>, n: nat)
      requires Valid() && n < |before| && newRequests == before[n..]
      requires forall i :: 0 <= i < n ==> before[i].guard.outcome.Some?
      ensures forall i :: 0 <= i < n ==> before[i].guard != before[n].guard
    {
      assert newRequests[0] == before[n];
      assert newRequests[0].guard in Waiting();
    }

    /** Shutting down resolves every guard that still waits, and no other. */
    method Drop()
      requires Valid()
      modifies this, guards
      ensures Valid() && newRequests == [] && pending == map[] && guards == old(guards)
      ensures forall g :: g in guards ==> g.outcome.Some? && g.notified == 1
      ensures forall g :: g in guards && old(g.outcome).Some? ==> g.outcome == old(g.outcome)
      ensures forall k :: k in old(pending) ==> old(pending)[k].outcome == Some(Err(Shutdown))
      ensures forall i :: 0 <= i < |old(newRequests)| ==>
                old(newRequests)[i].guard.outcome == Some(Err(RemoteClosed(old(newRequests)[i].payload)))
    {
      hide TimeoutsOf; hide NoneTwice;
      assert pending.Values <= guards && GuardsOf(newRequests) <= guards;
      open := false;
      DrainPending();
      DrainNew();
    }
  }

  /** A request from the peer; whoever holds it answers it, or it is answered when dropped. */
  class IncomingRequest {
    const channel: ChannelId
    const id: Id
    const payload: Option<Bytes>
    /** Whether it can still be answered. */
    var handle: bool

    constructor (channel: ChannelId, id: Id, payload: Option<Bytes>)
      ensures this.channel == channel && this.id == id && this.payload == payload && handle
    {
      this.channel, this.id, this.payload, this.handle := channel, id, payload, true;
    }

    method Respond(payload: Option<Bytes>, queue: seq<QueuedItem>) returns (after: seq<QueuedItem>)
      modifies this
      ensures after == queue + (if old(handle) then [QueuedResponse(channel, id, payload)] else []) && !handle
    {
      after := if handle then queue + [QueuedResponse(channel, id, payload)] else queue;
      handle := false;
    }

    /** Also what dropping the request does. */
    method Cancel(queue: seq<QueuedItem>) returns (after: seq<QueuedItem>)
      modifies this
      ensures after == queue + (if old(handle) then [QueuedResponseCancellation(channel, id)] else []) && !handle
    {
      after := if handle then queue + [QueuedResponseCancellation(channel, id)] else queue;
      handle := false;
    }
  }
}
