/** The routed protocol frames exchanged by Host, Broker and Helper, with their protobuf encoding left opaque. */
module BridgeFrames {
  import opened Wrappers
  import opened Bytes
  import opened Leases

  datatype ProxyRoute = ProxyRoute(leaseId: LeaseId, generation: U64)

  /** A lease reference as found on the wire, before its length and generation are checked. */
  datatype RouteRef = RouteRef(leaseId: Octets, generation: U64)

  function ParseRoute(ref: RouteRef): (r: Option<ProxyRoute>)
    ensures r.Some? <==> |ref.leaseId| == LEASE_ID_BYTES && ref.generation != 0
  {
    if |ref.leaseId| != LEASE_ID_BYTES || ref.generation == 0 then None
    else Some(ProxyRoute(ref.leaseId, ref.generation))
  }

  function RefOf(route: ProxyRoute): RouteRef {
    RouteRef(route.leaseId, route.generation)
  }

  datatype ClientPayload =
    | Authenticate
    | RegisterHelper
    | AcquireLease(sessionId: Octets, generation: U64, permissions: seq<int>, displayName: string)
    | RenewLease(ref: RouteRef)
    | ReleaseLease(ref: RouteRef)
    | StartPeer(ref: RouteRef, displayName: string)
    | RestartPeer(ref: RouteRef, displayName: string)
    | AddIceCandidate(ref: RouteRef)
    | InputCommand(ref: RouteRef, input: Octets)
    | SendSecureAttention(ref: RouteRef)
    | ClosePeer(ref: RouteRef)
  {
    /** The operations that carry an operation number. */
    predicate IsRouted() {
      StartPeer? || RestartPeer? || AddIceCandidate? || InputCommand? || SendSecureAttention? || ClosePeer?
    }
  }

  datatype ClientFrame = ClientFrame(requestId: string, sequence: U64, payload: Option<ClientPayload>)

  /** What a peer event says; the candidate and the encoded envelopes are opaque bytes. */
  datatype ProxyEvent =
    | Connected
    | Disconnected
    | Failed
    | LocalStop
    | LocalIceCandidate(candidate: Octets)
    | ReliableInput(envelope: Octets)
    | FastPointer(envelope: Octets)

  datatype ServerPayload =
    | LeaseGranted(lease: Lease, permissions: seq<int>)
    | CommandAccepted(ref: RouteRef)
    | PeerAnswer(ref: RouteRef, answer: Octets)
    | Event(ref: RouteRef, event: ProxyEvent)
    | Error
    | Other

  datatype ServerFrame = ServerFrame(requestId: string, sequence: U64, payload: Option<ServerPayload>)

  /** `response_route`: the route of a server frame, if its payload has one and it parses. */
  function ResponseRoute(frame: ServerFrame): Option<ProxyRoute> {
    match frame.payload
    case Some(CommandAccepted(ref)) => ParseRoute(ref)
    case Some(PeerAnswer(ref, _)) => ParseRoute(ref)
    case Some(Event(ref, _)) => ParseRoute(ref)
    case _ => None
  }
}
