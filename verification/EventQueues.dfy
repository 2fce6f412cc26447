/** The bounded event queue and request tracker of crates/privileged-bridge/src/framing.rs. */
module EventQueues {
  import opened Wrappers
  import Leases

  const MAX_PENDING_REQUESTS := 32
  const MAX_CRITICAL_EVENTS := 256
  const MAX_REQUEST_ID_UTF8_BYTES := 64

  datatype EventQueueError = CriticalOverflow | QueueFailed

  datatype Queue<T> = Queue(critical: seq<T>, fast: Option<T>, failed: bool) {

    function PushCritical(event: T): (Queue<T>, Option<EventQueueError>) {
      if failed then (this, Some(QueueFailed))
      else if |critical| >= MAX_CRITICAL_EVENTS then (Queue([], None, true), Some(CriticalOverflow))
      else (this.(critical := critical + [event]), None)
    }

    function PushFast(event: T): (Queue<T>, Option<EventQueueError>) {
      if failed then (this, Some(QueueFailed)) else (this.(fast := Some(event)), None)
    }

    function PopCritical(): (Queue<T>, Result<Option<T>, EventQueueError>) {
      if failed then (this, Err(QueueFailed))
      else if critical == [] then (this, Ok(None))
      else (this.(critical := critical[1..]), Ok(Some(critical[0])))
    }

    function PopFast(): (Queue<T>, Option<T>) {
      if failed then (this, None) else (this.(fast := None), fast)
    }
  }

  /** Critical events queue behind one another, at most 256; one more empties everything and fails the queue for good. */
  lemma QueueIff<T>(queue: Queue<T>, event: T)
    ensures var (next, error) := queue.PushCritical(event);
            && (error.None? <==> !queue.failed && |queue.critical| < MAX_CRITICAL_EVENTS)
            && next == (if error.None? then Queue(queue.critical + [event], queue.fast, false)
                        else if queue.failed then queue else Queue([], None, true))
            && (error == Some(CriticalOverflow) <==> !queue.failed && |queue.critical| >= MAX_CRITICAL_EVENTS)
    ensures var (next, error) := queue.PushFast(event);
            (error.None? <==> !queue.failed) && next == if error.None? then Queue(queue.critical, Some(event), false) else queue
    ensures var (next, r) := queue.PopCritical();
            && (r.Err? <==> queue.failed) && (r == Ok(None) <==> !queue.failed && queue.critical == [])
            && (r.Ok? && r.value.Some? ==> [r.value.value] + next.critical == queue.critical && next == queue.(critical := next.critical))
            && (!(r.Ok? && r.value.Some?) ==> next == queue)
    ensures var (next, r) := queue.PopFast();
            (!queue.failed ==> r == queue.fast && next == Queue(queue.critical, None, false)) && (queue.failed ==> r.None? && next == queue)
  {
  }

  class EventQueue<T> {
    var critical: seq<T>
    var fast: Option<T>
    var failed: bool

    function View(): Queue<T>
      reads this
    {
      Queue(critical, fast, failed)
    }

    constructor ()
      ensures View() == Queue([], None, false)
    {
      critical, fast, failed := [], None, false;
    }

    method PushCritical(event: T) returns (r: Option<EventQueueError>)
      modifies this
      ensures (View(), r) == old(View()).PushCritical(event)
    {
      if failed {
        return Some(QueueFailed);
      }
      if |critical| >= MAX_CRITICAL_EVENTS {
        FailClosed();
        return Some(CriticalOverflow);
      }
      critical := critical + [event];
      r := None;
    }

    method PushFast(event: T) returns (r: Option<EventQueueError>)
      modifies this
      ensures (View(), r) == old(View()).PushFast(event)
    {
      if failed {
        return Some(QueueFailed);
      }
      fast := Some(event);
      r := None;
    }

    method PopCritical() returns (r: Result<Option<T>, EventQueueError>)
      modifies this
      ensures (View(), r) == old(View()).PopCritical()
    {
      if failed {
        return Err(QueueFailed);
      }
      if critical == [] {
        return Ok(None);
      }
      r := Ok(Some(critical[0]));
      critical := critical[1..];
    }

    method PopFast() returns (r: Option<T>)
      modifies this
      ensures (View(), r) == old(View()).PopFast()
    {
      if failed {
        return None;
      }
      r := fast;
      fast := None;
    }

    method FailClosed()
      modifies this
      ensures View() == Queue([], None, true)
    {
      failed := true;
      critical := [];
      fast := None;
    }
  }

  datatype RequestError = InvalidRequestId | DuplicateRequest | PendingLimit | StaleResponse

  /** Request correlation: at most 32 pending identifiers, each completed once. */
  class RequestTracker {
    var pending: set<string>

    ghost predicate Valid()
      reads this
    {
      |pending| <= MAX_PENDING_REQUESTS && forall id <- pending :: id != "" && Leases.Utf8Length(id) <= MAX_REQUEST_ID_UTF8_BYTES
    }

    constructor ()
      ensures Valid() && pending == {}
    {
      pending := {};
    }

    /** An identifier is bounded by its length in UTF-8. */
    method Begin(requestId: string) returns (r: Option<RequestError>)
      requires Valid()
      modifies this
      ensures Valid()
      ensures r == if requestId == "" || Leases.Utf8Length(requestId) > MAX_REQUEST_ID_UTF8_BYTES then Some(InvalidRequestId)
                   else if requestId in old(pending) then Some(DuplicateRequest)
                   else if |old(pending)| >= MAX_PENDING_REQUESTS then Some(PendingLimit)
                   else None
      ensures pending == if r.None? then old(pending) + {requestId} else old(pending)
    {
      if requestId == "" || Leases.Utf8Length(requestId) > MAX_REQUEST_ID_UTF8_BYTES {
        return Some(InvalidRequestId);
      }
      if requestId in pending {
        return Some(DuplicateRequest);
      }
      if |pending| >= MAX_PENDING_REQUESTS {
        return Some(PendingLimit);
      }
      pending := pending + {requestId};
      r := None;
    }

    method Complete(requestId: string) returns (r: Option<RequestError>)
      requires Valid()
      modifies this
      ensures Valid()
      ensures r == if requestId in old(pending) then None else Some(StaleResponse)
      ensures pending == old(pending) - {requestId}
    {
      if requestId !in pending {
        return Some(StaleResponse);
      }
      pending := pending - {requestId};
      r := None;
    }
  }
}
