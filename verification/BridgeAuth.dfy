/** Bridge authentication and its bounded nonce replay cache (crates/privileged-bridge/src/auth.rs). */
module BridgeAuth {
  import opened Wrappers
  import opened Bytes

  const NONCE_BYTES := 32

  datatype AuthenticationError =
    | InvalidLength | ReflectedNonce | AuthenticationFailed | NonceReused | AlreadyAuthenticated | InvalidReplayCapacity

  // ---- The reference: a window over everything ever accepted ----

  function Last<T>(log: seq<T>, n: nat): (window: seq<T>)
    ensures |window| == if |log| < n then |log| else n
  {
    if |log| < n then log else log[|log| - n..]
  }

  /** A claim succeeds unless the nonce is among the last `capacity` accepted ones. */
  function Claimed(accepted: seq<Octets>, nonce: Octets, capacity: nat): seq<Octets> {
    if nonce in Last(accepted, capacity) then accepted else accepted + [nonce]
  }

  function AcceptedOf(attempts: seq<Octets>, capacity: nat): seq<Octets> {
    if attempts == [] then []
    else Claimed(AcceptedOf(attempts[..|attempts| - 1], capacity), attempts[|attempts| - 1], capacity)
  }

  ghost predicate WindowsDistinct(accepted: seq<Octets>, capacity: nat) {
    forall i, j | 0 <= i < j < |accepted| && j - i <= capacity :: accepted[i] != accepted[j]
  }

  lemma ClaimKeepsWindowsDistinct(accepted: seq<Octets>, nonce: Octets, capacity: nat)
    requires WindowsDistinct(accepted, capacity)
    ensures WindowsDistinct(Claimed(accepted, nonce, capacity), capacity)
  {
    var window := Last(accepted, capacity);
    if nonce !in window {
      var after := accepted + [nonce];
      forall i, j | 0 <= i < j < |after| && j - i <= capacity
        ensures after[i] != after[j]
      {
        if j == |accepted| {
          assert accepted[i] == window[i - (|accepted| - |window|)];
        }
      }
    }
  }

  /** Over any run of claims, any `capacity + 1` consecutive accepted nonces are pairwise distinct. */
  lemma {:induction false} AcceptedWindowsAreDistinct(attempts: seq<Octets>, capacity: nat)
    ensures WindowsDistinct(AcceptedOf(attempts, capacity), capacity)
    decreases |attempts|
  {
    if attempts != [] {
      AcceptedWindowsAreDistinct(attempts[..|attempts| - 1], capacity);
      ClaimKeepsWindowsDistinct(AcceptedOf(attempts[..|attempts| - 1], capacity), attempts[|attempts| - 1], capacity);
    }
  }

  // ---- The guard itself ----

  ghost predicate NoDuplicates(s: seq<Octets>) {
    forall i, j | 0 <= i < j < |s| :: s[i] != s[j]
  }

  function Elements(s: seq<Octets>): set<Octets> {
    set n | n in s
  }

  lemma {:induction false} DistinctCardinality(s: seq<Octets>)
    requires NoDuplicates(s)
    ensures |Elements(s)| == |s|
  {
    if s != [] {
      DistinctCardinality(s[1..]);
      assert Elements(s) == {s[0]} + Elements(s[1..]);
      assert s[0] !in s[1..];
    }
  }

  class NonceReplayGuard {
    var used: set<Octets>
    var insertionOrder: seq<Octets>
    const capacity: nat
    ghost var accepted: seq<Octets>

    ghost predicate Valid()
      reads this
    {
      && capacity > 0
      && WindowsDistinct(accepted, capacity)
      && insertionOrder == Last(accepted, capacity)
      && used == Elements(insertionOrder)
    }

    /** The cache holds its queue's contents, once each, and never more than `capacity`. */
    lemma CacheIsTheQueue()
      requires Valid()
      ensures NoDuplicates(insertionOrder) && |used| == |insertionOrder| <= capacity
    {
      var from := |accepted| - |insertionOrder|;
      forall i, j | 0 <= i < j < |insertionOrder|
        ensures insertionOrder[i] != insertionOrder[j]
      {
        assert insertionOrder[i] == accepted[from + i] && insertionOrder[j] == accepted[from + j];
      }
      DistinctCardinality(insertionOrder);
    }

    constructor (capacity: nat)
      requires capacity > 0
      ensures Valid() && this.capacity == capacity && accepted == []
    {
      this.capacity := capacity;
      used, insertionOrder, accepted := {}, [], [];
    }

    method Claim(nonce: Octets) returns (r: Option<AuthenticationError>)
      requires Valid()
      modifies this
      ensures Valid()
      ensures accepted == Claimed(old(accepted), nonce, capacity)
      ensures r == if nonce in Last(old(accepted), capacity) then Some(NonceReused) else None
    {
      CacheIsTheQueue();
      ClaimKeepsWindowsDistinct(accepted, nonce, capacity);
      if nonce in used {
        return Some(NonceReused);
      }
      if |used| == capacity && insertionOrder != [] {
        var expired := insertionOrder[0];
        insertionOrder := insertionOrder[1..];
        used := used - {expired};
      }
      assert used == Elements(insertionOrder);
      used := used + {nonce};
      insertionOrder := insertionOrder + [nonce];
      accepted := accepted + [nonce];
      r := None;
    }
  }

  /** `NonceReplayGuard::new`. */
  method NewReplayGuard(capacity: nat) returns (r: Result<NonceReplayGuard, AuthenticationError>)
    ensures capacity == 0 ==> r == Err(InvalidReplayCapacity)
    ensures capacity > 0 ==> r.Ok? && fresh(r.value) && r.value.Valid() && r.value.capacity == capacity && r.value.accepted == []
  {
    if capacity == 0 {
      return Err(InvalidReplayCapacity);
    }
    var guard := new NonceReplayGuard(capacity);
    r := Ok(guard);
  }

  /** One connection.  The keyed proofs are opaque: a verifier and a prover fixed at construction. */
  class BridgeAuthenticator {
    const serverNonce: Octets
    const verifyClientProof: (Octets, Octets) -> bool
    const serverProof: Octets -> Octets
    var authenticated: bool

    constructor (serverNonce: Octets, verifyClientProof: (Octets, Octets) -> bool, serverProof: Octets -> Octets)
      ensures !authenticated && this.serverNonce == serverNonce
      ensures this.verifyClientProof == verifyClientProof && this.serverProof == serverProof
    {
      this.serverNonce, this.verifyClientProof, this.serverProof := serverNonce, verifyClientProof, serverProof;
      authenticated := false;
    }

    /** What must hold of a request before its nonce is spent. */
    function Rejection(clientNonce: Octets, clientProof: Octets): Option<AuthenticationError>
      reads this
    {
      if authenticated then Some(AlreadyAuthenticated)
      else if |clientNonce| != NONCE_BYTES || |clientProof| != NONCE_BYTES then Some(InvalidLength)
      else if clientNonce == serverNonce then Some(ReflectedNonce)
      else if !verifyClientProof(clientNonce, clientProof) then Some(AuthenticationFailed)
      else None
    }

    /**
     * Only a well-formed, unreflected, correctly proved nonce is ever spent; it succeeds
     * exactly when it is outside the replay window, and then at most once per connection.
     */
    method Authenticate(clientNonce: Octets, clientProof: Octets, guard: NonceReplayGuard)
      returns (r: Result<Octets, AuthenticationError>)
      requires guard.Valid()
      modifies this, guard
      ensures guard.Valid()
      ensures var rejection := old(Rejection(clientNonce, clientProof));
              var replayed := clientNonce in Last(old(guard.accepted), guard.capacity);
              && (rejection.Some? ==> r == Err(rejection.value) && guard.accepted == old(guard.accepted))
              && (rejection.None? ==> guard.accepted == Claimed(old(guard.accepted), clientNonce, guard.capacity))
              && (rejection.None? ==> r == if replayed then Err(NonceReused) else Ok(serverProof(clientNonce)))
      ensures r.Ok? <==>
                && !old(authenticated) && |clientNonce| == 32 && |clientProof| == 32 && clientNonce != serverNonce
                && verifyClientProof(clientNonce, clientProof) && clientNonce !in Last(old(guard.accepted), guard.capacity)
      ensures r == Err(AuthenticationFailed) ==> !verifyClientProof(clientNonce, clientProof)
      ensures r == Err(ReflectedNonce) ==> clientNonce == serverNonce
      ensures r == Err(InvalidLength) ==> |clientNonce| != 32 || |clientProof| != 32
      ensures authenticated == (old(authenticated) || r.Ok?)
      ensures old(authenticated) ==> r.Err?
    {
      if authenticated {
        return Err(AlreadyAuthenticated);
      }
      if |clientNonce| != NONCE_BYTES {
        return Err(InvalidLength);
      }
      if |clientProof| != NONCE_BYTES {
        return Err(InvalidLength);
      }
      if clientNonce == serverNonce {
        return Err(ReflectedNonce);
      }
      if !verifyClientProof(clientNonce, clientProof) {
        return Err(AuthenticationFailed);
      }
      var reused := guard.Claim(clientNonce);
      if reused.Some? {
        return Err(reused.value);
      }
      authenticated := true;
      r := Ok(serverProof(clientNonce));
    }
  }
}
