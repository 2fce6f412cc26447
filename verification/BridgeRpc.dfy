/** The framed request/response link of crates/privileged-bridge/src/rpc.rs. */
module BridgeRpc {
  import opened Wrappers
  import opened Bytes
  import opened BridgeFrames
  import opened EventQueues

  datatype ProxyError =
    | Transport | StaleRoute | StaleResponse | FailedClosed | InvalidMigration
    | InvalidConfiguration | InvalidMessage | HelperUnavailable | Rejected

  /** What the transport yields: a decoded frame, bytes the strict decoder rejects, or a broken connection. */
  datatype Incoming = Frame(frame: ServerFrame) | Malformed | Broken

  type Reply = Result<ServerFrame, ProxyError>

  /** `sent` is everything ever sent over the link. */
  datatype RpcState = RpcState(
    inbox: seq<Incoming>,
    canSend: bool,
    queue: Queue<ServerFrame>,
    failed: bool,
    sent: seq<ClientFrame>)
  {

    /** `enqueue_event`: events are queued by kind; anything else is handed back as a response. */
    function EnqueueEvent(frame: ServerFrame): (RpcState, Result<Option<ServerFrame>, ProxyError>) {
      match frame.payload
      case None => (this, Err(InvalidMessage))
      case Some(Event(_, event)) =>
        var (next, error) := if event.FastPointer? then queue.PushFast(frame) else queue.PushCritical(frame);
        (this.(queue := next), if error.Some? then Err(FailedClosed) else Ok(None))
      case Some(_) => (this, Ok(Some(frame)))
    }

    function QueuedEvent(): (RpcState, Result<Option<ServerFrame>, ProxyError>) {
      var (popped, critical) := queue.PopCritical();
      match critical
      case Err(_) => (this, Err(FailedClosed))
      case Ok(Some(event)) => (this.(queue := popped), Ok(Some(event)))
      case Ok(None) =>
        var (next, fast) := queue.PopFast();
        (this.(queue := next), Ok(fast))
    }

    /** The loop of `call`: events met on the way are queued, the first response ends it. */
    function AwaitResponse(request: ClientFrame): (RpcState, Reply)
      decreases |inbox|
    {
      if inbox == [] then (this.(failed := true), Err(Transport))
      else
        var rest := this.(inbox := inbox[1..]);
        match inbox[0]
        case Broken => (rest.(failed := true), Err(Transport))
        case Malformed => (rest.(failed := true), Err(InvalidMessage))
        case Frame(frame) =>
          var (queued, outcome) := rest.EnqueueEvent(frame);
          match outcome
          case Err(error) => (queued.(failed := true), Err(error))
          case Ok(None) => queued.AwaitResponse(request)
          case Ok(Some(response)) =>
            if response.requestId != request.requestId || response.sequence != request.sequence
            then (queued.(failed := true), Err(ProxyError.StaleResponse))
            else (queued, Ok(response))
    }

    function Call(request: ClientFrame): (RpcState, Reply) {
      if failed then (this, Err(FailedClosed))
      else if !canSend then (this.(failed := true), Err(Transport))
      else
        var (next, reply) := AwaitResponse(request);
        (next.(sent := next.sent + [request]), reply)
    }

    function TryEvent(): (RpcState, Result<Option<ServerFrame>, ProxyError>) {
      if failed then (this, Err(FailedClosed))
      else
        var (polled, queued) := QueuedEvent();
        if queued.Err? || queued.value.Some? then (polled, queued)
        else if polled.inbox == [] then (polled, Ok(None))
        else
          var rest := polled.(inbox := polled.inbox[1..]);
          match polled.inbox[0]
          case Broken => (rest.(failed := true), Err(Transport))
          case Malformed => (rest.(failed := true), Err(InvalidMessage))
          case Frame(frame) =>
            var (next, outcome) := rest.EnqueueEvent(frame);
            match outcome
            case Err(error) => (next.(failed := true), Err(error))
            case Ok(None) => next.QueuedEvent()
            case Ok(Some(_)) => (next.(failed := true), Err(ProxyError.StaleResponse))
    }

    function FailClosed(): RpcState {
      this.(failed := true)
    }
  }

  /** The transport below the link: what has arrived and whether sending still works. */
  class LocalBridgeTransport {
    var inbox: seq<Incoming>
    var canSend: bool
    var sent: seq<ClientFrame>

    constructor ()
      ensures inbox == [] && canSend && sent == []
    {
      inbox, canSend, sent := [], true, [];
    }

    method Send(frame: ClientFrame) returns (ok: bool)
      modifies this`sent
      ensures ok == canSend && sent == if ok then old(sent) + [frame] else old(sent)
    {
      if canSend {
        sent := sent + [frame];
      }
      ok := canSend;
    }

    /** Blocks for the next item; with nothing left to come it times out, which reads as `Broken`. */
    method Receive() returns (item: Incoming)
      modifies this`inbox
      ensures old(inbox) == [] ==> item == Broken && inbox == []
      ensures old(inbox) != [] ==> item == old(inbox)[0] && inbox == old(inbox)[1..]
    {
      if inbox == [] {
        return Broken;
      }
      item := inbox[0];
      inbox := inbox[1..];
    }
  }

  class FramedBridgeRpc {
    const transport: LocalBridgeTransport
    const events: EventQueue<ServerFrame>
    var failed: bool

    function View(): RpcState
      reads this, transport, events
    {
      RpcState(transport.inbox, transport.canSend, events.View(), failed, transport.sent)
    }

    constructor (transport: LocalBridgeTransport)
      ensures this.transport == transport && fresh(events)
      ensures View() == RpcState(transport.inbox, transport.canSend, Queue([], None, false), false, transport.sent)
    {
      this.transport := transport;
      events := new EventQueue();
      failed := false;
    }

    method EnqueueEvent(frame: ServerFrame) returns (r: Result<Option<ServerFrame>, ProxyError>)
      modifies events
      ensures (View(), r) == old(View()).EnqueueEvent(frame)
    {
      if frame.payload.None? {
        return Err(InvalidMessage);
      }
      if frame.payload.value.Event? {
        var error;
        if frame.payload.value.event.FastPointer? {
          error := events.PushFast(frame);
        } else {
          error := events.PushCritical(frame);
        }
        return if error.Some? then Err(FailedClosed) else Ok(None);
      }
      r := Ok(Some(frame));
    }

    method QueuedEvent() returns (r: Result<Option<ServerFrame>, ProxyError>)
      modifies events
      ensures (View(), r) == old(View()).QueuedEvent()
    {
      var critical := events.PopCritical();
      if critical.Err? {
        return Err(FailedClosed);
      }
      if critical.value.Some? {
        return Ok(critical.value);
      }
      var fast := events.PopFast();
      r := Ok(fast);
    }

    method Call(request: ClientFrame) returns (r: Reply)
      modifies this, transport, events
      ensures (View(), r) == old(View()).Call(request)
    {
      if failed {
        return Err(FailedClosed);
      }
      var sent := transport.Send(request);
      if !sent {
        FailClosed();
        return Err(Transport);
      }
      ghost var unsent := View().(sent := old(transport.sent));
      while true
        invariant !failed && transport.canSend
        invariant transport.sent == unsent.sent + [request]
        invariant View().(sent := unsent.sent).AwaitResponse(request) == unsent.AwaitResponse(request)
        decreases |transport.inbox|
      {
        var item := transport.Receive();
        match item
        case Broken =>
          FailClosed();
          return Err(Transport);
        case Malformed =>
          FailClosed();
          return Err(InvalidMessage);
        case Frame(frame) =>
          var outcome := EnqueueEvent(frame);
          if outcome.Err? {
            FailClosed();
            return Err(outcome.error);
          }
          if outcome.value.None? {
            continue;
          }
          var response := outcome.value.value;
          if response.requestId != request.requestId || response.sequence != request.sequence {
            FailClosed();
            return Err(ProxyError.StaleResponse);
          }
          return Ok(response);
      }
    }

    method TryEvent() returns (r: Result<Option<ServerFrame>, ProxyError>)
      modifies this, transport, events
      ensures (View(), r) == old(View()).TryEvent()
    {
      if failed {
        return Err(FailedClosed);
      }
      r := QueuedEvent();
      if r.Err? || r.value.Some? {
        return;
      }
      if transport.inbox == [] {
        return Ok(None);
      }
      var item := transport.Receive();
      match item
      case Broken =>
        FailClosed();
        r := Err(Transport);
      case Malformed =>
        FailClosed();
        r := Err(InvalidMessage);
      case Frame(frame) =>
        var outcome := EnqueueEvent(frame);
        if outcome.Err? {
          FailClosed();
          return Err(outcome.error);
        }
        if outcome.value.None? {
          r := QueuedEvent();
        } else {
          FailClosed();
          r := Err(ProxyError.StaleResponse);
        }
    }

    method FailClosed()
      modifies this
      ensures View() == old(View()).FailClosed()
    {
      failed := true;
    }
  }

  // ---- What one call means ----

  predicate IsEventFrame(item: Incoming) {
    item.Frame? && item.frame.payload.Some? && item.frame.payload.value.Event?
  }

  predicate IsPointerFrame(item: Incoming) {
    IsEventFrame(item) && item.frame.payload.value.event.FastPointer?
  }

  /** The critical events of some arrivals, in order. */
  function CriticalIn(items: seq<Incoming>): seq<ServerFrame> {
    if items == [] then []
    else (if IsEventFrame(items[0]) && !IsPointerFrame(items[0]) then [items[0].frame] else []) + CriticalIn(items[1..])
  }

  /** The newest fast pointer of some arrivals, or the one that was waiting. */
  function NewestIn(waiting: Option<ServerFrame>, items: seq<Incoming>): Option<ServerFrame>
    decreases |items|
  {
    if items == [] then waiting
    else NewestIn(if IsPointerFrame(items[0]) then Some(items[0].frame) else waiting, items[1..])
  }

  /** Item `k` is the response to the request, only events come before it, and the queue has room for them. */
  predicate AnsweredAt(link: RpcState, request: ClientFrame, k: nat) {
    && k < |link.inbox| && (forall i | 0 <= i < k :: IsEventFrame(link.inbox[i]))
    && (k > 0 ==> !link.queue.failed)
    && |link.queue.critical| + |CriticalIn(link.inbox[..k])| <= MAX_CRITICAL_EVENTS
    && link.inbox[k].Frame? && link.inbox[k].frame.payload.Some? && !IsEventFrame(link.inbox[k])
    && link.inbox[k].frame.requestId == request.requestId && link.inbox[k].frame.sequence == request.sequence
  }

  /** What a call that is answered by item `k` leaves: later arrivals, and the queue with the events before it. */
  function After(link: RpcState, k: nat): RpcState
    requires k < |link.inbox|
  {
    link.(inbox := link.inbox[k + 1..],
          queue := link.queue.(critical := link.queue.critical + CriticalIn(link.inbox[..k]),
                               fast := NewestIn(link.queue.fast, link.inbox[..k])))
  }

  lemma CriticalInFirst(items: seq<Incoming>, k: nat)
    requires 0 < k <= |items|
    ensures CriticalIn(items[..k]) == (if IsEventFrame(items[0]) && !IsPointerFrame(items[0]) then [items[0].frame] else []) + CriticalIn(items[1..][..k - 1])
    ensures forall waiting :: NewestIn(waiting, items[..k])
                           == NewestIn(if IsPointerFrame(items[0]) then Some(items[0].frame) else waiting, items[1..][..k - 1])
  {
    assert items[..k][0] == items[0] && items[..k][1..] == items[1..][..k - 1];
  }

  /** The step of the receive loop over one event. */
  lemma EventStep(link: RpcState)
    requires |link.queue.critical| <= MAX_CRITICAL_EVENTS && link.inbox != [] && IsEventFrame(link.inbox[0])
    ensures var (next, outcome) := link.(inbox := link.inbox[1..]).EnqueueEvent(link.inbox[0].frame);
            && (outcome == Ok(None) <==>
                  !link.queue.failed && (IsPointerFrame(link.inbox[0]) || |link.queue.critical| < MAX_CRITICAL_EVENTS))
            && (outcome == Ok(None) ==>
                  && next == link.(inbox := link.inbox[1..],
                                   queue := link.queue.(critical := next.queue.critical, fast := next.queue.fast))
                  && next.queue.critical == link.queue.critical + (if IsPointerFrame(link.inbox[0]) then [] else [link.inbox[0].frame])
                  && next.queue.fast == if IsPointerFrame(link.inbox[0]) then Some(link.inbox[0].frame) else link.queue.fast)
            && (outcome != Ok(None) ==> outcome.Err?)
  {
  }

  /**
   * A wait ends with a response if and only if one arrives behind nothing but events for
   * which the queue has room; it leaves those events queued in order, the newest pointer
   * waiting, and what arrived later untouched.  Any other end fails the link.
   */
  lemma {:induction false} AwaitIff(link: RpcState, request: ClientFrame)
    requires |link.queue.critical| <= MAX_CRITICAL_EVENTS
    ensures var (next, reply) := link.AwaitResponse(request);
            && (forall k: nat | AnsweredAt(link, request, k) :: reply == Ok(link.inbox[k].frame) && next == After(link, k))
            && (reply.Ok? ==> exists k: nat :: AnsweredAt(link, request, k))
            && (reply.Err? ==> next.failed && next.sent == link.sent)
    decreases |link.inbox|
  {
    hide CriticalIn;
    hide NewestIn;
    if link.inbox != [] {
      if IsEventFrame(link.inbox[0]) {
        EventStep(link);
        var (queued, outcome) := link.(inbox := link.inbox[1..]).EnqueueEvent(link.inbox[0].frame);
        hide RpcState.EnqueueEvent;
        if outcome == Ok(None) {
          AwaitIff(queued, request);
          EventShifts(link, queued, request);
        } else {
          forall k: nat | AnsweredAt(link, request, k)
            ensures false
          {
            CriticalInFirst(link.inbox, k);
          }
        }
      } else {
        NothingIsIn(link);
        hide IsEventFrame;
      }
    }
  }

  lemma NothingIsIn(link: RpcState)
    ensures CriticalIn(link.inbox[..0]) == [] && NewestIn(link.queue.fast, link.inbox[..0]) == link.queue.fast
    ensures link.inbox != [] ==> After(link, 0) == link.(inbox := link.inbox[1..])
  {
  }

  lemma EventShifts(link: RpcState, queued: RpcState, request: ClientFrame)
    requires link.inbox != [] && IsEventFrame(link.inbox[0]) && !link.queue.failed
    requires IsPointerFrame(link.inbox[0]) || |link.queue.critical| < MAX_CRITICAL_EVENTS
    requires |link.queue.critical| <= MAX_CRITICAL_EVENTS
    requires queued == link.(inbox := link.inbox[1..], queue := link.queue.(critical := queued.queue.critical, fast := queued.queue.fast))
    requires queued.queue.critical == link.queue.critical + (if IsPointerFrame(link.inbox[0]) then [] else [link.inbox[0].frame])
    requires queued.queue.fast == if IsPointerFrame(link.inbox[0]) then Some(link.inbox[0].frame) else link.queue.fast
    ensures !AnsweredAt(link, request, 0)
    ensures forall k: nat :: AnsweredAt(queued, request, k) <==> AnsweredAt(link, request, k + 1)
    ensures forall k: nat | AnsweredAt(queued, request, k) :: queued.inbox[k] == link.inbox[k + 1] && After(queued, k) == After(link, k + 1)
    ensures forall k: nat | AnsweredAt(link, request, k) :: k > 0 && AnsweredAt(queued, request, k - 1)
  {
    forall k: nat
      ensures AnsweredAt(queued, request, k) <==> AnsweredAt(link, request, k + 1)
      ensures AnsweredAt(queued, request, k) ==> queued.inbox[k] == link.inbox[k + 1] && After(queued, k) == After(link, k + 1)
    {
      EventShiftsOnce(link, queued, request, k);
    }
    forall k: nat | AnsweredAt(link, request, k)
      ensures k > 0 && AnsweredAt(queued, request, k - 1)
    {
      assert k > 0;
      EventShiftsOnce(link, queued, request, k - 1);
    }
    hide After;
  }

  lemma EventShiftsOnce(link: RpcState, queued: RpcState, request: ClientFrame, k: nat)
    requires link.inbox != [] && IsEventFrame(link.inbox[0]) && !link.queue.failed
    requires IsPointerFrame(link.inbox[0]) || |link.queue.critical| < MAX_CRITICAL_EVENTS
    requires |link.queue.critical| <= MAX_CRITICAL_EVENTS
    requires queued == link.(inbox := link.inbox[1..], queue := link.queue.(critical := queued.queue.critical, fast := queued.queue.fast))
    requires queued.queue.critical == link.queue.critical + (if IsPointerFrame(link.inbox[0]) then [] else [link.inbox[0].frame])
    requires queued.queue.fast == if IsPointerFrame(link.inbox[0]) then Some(link.inbox[0].frame) else link.queue.fast
    ensures AnsweredAt(queued, request, k) <==> AnsweredAt(link, request, k + 1)
    ensures AnsweredAt(queued, request, k) ==> queued.inbox[k] == link.inbox[k + 1] && After(queued, k) == After(link, k + 1)
  {
    if k + 1 < |link.inbox| {
      CriticalInFirst(link.inbox, k + 1);
      assert link.inbox[1..][..k] == queued.inbox[..k] && link.inbox[1..][k + 1..] == link.inbox[k + 2..];
      assert (forall i | 0 <= i < k :: IsEventFrame(queued.inbox[i])) <==> (forall i | 0 <= i < k + 1 :: IsEventFrame(link.inbox[i])) by {
        assert forall i | 0 <= i < k :: queued.inbox[i] == link.inbox[i + 1];
        assert forall i | 1 <= i < k + 1 :: link.inbox[i] == queued.inbox[i - 1];
      }
    }
    hide CriticalIn;
    hide NewestIn;
    hide IsEventFrame;
    hide IsPointerFrame;
  }

  /** A call sends its request, once, if the link works; nothing else about it concerns the request. */
  lemma CallIff(link: RpcState, request: ClientFrame)
    requires |link.queue.critical| <= MAX_CRITICAL_EVENTS
    ensures var (next, reply) := link.Call(request);
            && next.sent == link.sent + (if !link.failed && link.canSend then [request] else [])
            && (reply.Ok? <==> !link.failed && link.canSend && exists k: nat :: AnsweredAt(link, request, k))
            && (forall k: nat | AnsweredAt(link, request, k) && reply.Ok? ::
                  reply.value == link.inbox[k].frame && next == After(link, k).(sent := next.sent))
            && (reply.Err? ==> next.failed)
            && (link.failed ==> next == link && reply == Err(FailedClosed))
  {
    AwaitIff(link, request);
    SentStays(link, request);
    hide RpcState.AwaitResponse;
    hide AnsweredAt;
  }

  lemma {:induction false} SentStays(link: RpcState, request: ClientFrame)
    ensures link.AwaitResponse(request).0.sent == link.sent
    decreases |link.inbox|
  {
    if link.inbox != [] && link.inbox[0].Frame? {
      var (queued, outcome) := link.(inbox := link.inbox[1..]).EnqueueEvent(link.inbox[0].frame);
      if outcome == Ok(None) {
        SentStays(queued, request);
      }
    }
  }

  /** What a poll hands over: the oldest critical event, else the waiting pointer, else the event just arriving. */
  lemma TryEventIff(link: RpcState)
    requires |link.queue.critical| <= MAX_CRITICAL_EVENTS
    ensures var (next, r) := link.TryEvent();
            && (link.failed || link.queue.failed <==> r == Err(FailedClosed))
            && (r == Err(FailedClosed) ==> next == link)
            && (r != Err(FailedClosed) ==>
                  && (link.queue.critical != [] ==>
                        r == Ok(Some(link.queue.critical[0])) && next == link.(queue := link.queue.(critical := link.queue.critical[1..])))
                  && (link.queue.critical == [] && link.queue.fast.Some? ==>
                        r == Ok(link.queue.fast) && next == link.(queue := link.queue.(fast := None)))
                  && (link.queue.critical == [] && link.queue.fast.None? ==>
                        && (r == Ok(None) <==> link.inbox == [])
                        && (r == Ok(None) ==> next == link)
                        && (r.Ok? && r.value.Some? <==> link.inbox != [] && IsEventFrame(link.inbox[0]))
                        && (r.Ok? && r.value.Some? ==> r.value.value == link.inbox[0].frame && next == link.(inbox := link.inbox[1..]))
                        && (r.Err? ==> next == link.(inbox := link.inbox[1..], failed := true))))
  {
  }

  // ---- Correlation ----

  /** What `call` returns carries the request's own id and number and is no event; any error fails the link. */
  lemma {:induction false} ResponseIsCorrelated(link: RpcState, request: ClientFrame)
    ensures var (next, reply) := link.AwaitResponse(request);
            && (reply.Err? ==> next.failed)
            && (reply.Ok? ==>
                  && reply.value.requestId == request.requestId && reply.value.sequence == request.sequence
                  && reply.value.payload.Some? && !reply.value.payload.value.Event?
                  && Frame(reply.value) in link.inbox && next.failed == link.failed)
    decreases |link.inbox|
  {
    if link.inbox != [] && link.inbox[0].Frame? {
      var (queued, outcome) := link.(inbox := link.inbox[1..]).EnqueueEvent(link.inbox[0].frame);
      if outcome == Ok(None) {
        ResponseIsCorrelated(queued, request);
      }
    }
  }
}
