/** Session offers: their signed transcripts and the Host's replay cache (crates/host-agent/src/session_auth.rs). */
module OfferVerifier {
  import opened Wrappers
  import opened Bytes
  import opened Transcript
  import opened Permissions

  const DEVICE_ID_BYTES := 32
  const SESSION_ID_BYTES := 16
  const NONCE_OR_HASH_BYTES := 32
  const SIGNATURE_BYTES := 64
  const MAX_LIFETIME_MS := 30_000
  const FUTURE_SKEW_MS: U64 := 10_000
  const MAX_REPLAY_CACHE_ENTRIES := 1_024

  datatype AuthError =
    | InvalidHostIdentity | InvalidOffer | HostMismatch | NotYetValid | Expired | LifetimeTooLong | InvalidPermissions
    | ControllerNotAuthorized | PermissionDenied | OfferHashMismatch | FingerprintMismatch | InvalidSignature
    | Replay | ReplayCacheFull | InvalidTranscript

  datatype Offer = Offer(
    controllerDeviceId: Octets,
    hostDeviceId: Octets,
    sessionId: Octets,
    nonce: Octets,
    issuedAtMs: U64,
    expiresAtMs: U64,
    permissions: seq<int>,
    offerHash: Octets,
    controllerFingerprint: Octets,
    signature: Octets)

  // ---- Permissions ----

  method NormalizePermissions(values: seq<int>) returns (r: Result<seq<int>, AuthError>)
    ensures r == if IsNormal(values) then Ok(values) else Err(InvalidPermissions)
  {
    if values == [] {
      return Err(InvalidPermissions);
    }
    var previous: Option<int> := None;
    var permissions: seq<int> := [];
    var i := 0;
    while i < |values|
      invariant 0 <= i <= |values| && permissions == values[..i]
      invariant previous == if i == 0 then None else Some(values[i - 1])
      invariant forall k | 0 <= k < i :: values[k] in {VIEW_SCREEN, CONTROL_INPUT}
      invariant forall k, l | 0 <= k < l < i :: values[k] < values[l]
    {
      var value := values[i];
      if value !in {VIEW_SCREEN, CONTROL_INPUT} || (previous.Some? && value <= previous.value) {
        return Err(InvalidPermissions);
      }
      previous := Some(value);
      permissions := permissions + [value];
      i := i + 1;
    }
    if CONTROL_INPUT in permissions && VIEW_SCREEN !in permissions {
      return Err(InvalidPermissions);
    }
    assert |values| <= 2;
    assert |values| == 1 ==> values == [values[0]];
    assert |values| == 2 ==> values == [values[0], values[1]] && values[0] < values[1];
    assert values[..|values|] == values;
    r := Ok(permissions);
  }

  function PermissionBits(values: seq<int>): U32
    requires IsNormal(values)
  {
    if |values| == 1 then 1 else 3
  }

  // ---- Transcripts ----

  function BigEndian64(n: U64): (s: Octets)
    ensures |s| == 8
  {
    BigEndian32(n / 0x1_0000_0000) + BigEndian32(n % 0x1_0000_0000)
  }

  lemma BigEndian64IsInjective(m: U64, n: U64)
    requires BigEndian64(m) == BigEndian64(n)
    ensures m == n
  {
    var s := BigEndian64(m);
    assert s[..4] == BigEndian32(m / 0x1_0000_0000) == BigEndian32(n / 0x1_0000_0000);
    assert s[4..] == BigEndian32(m % 0x1_0000_0000) == BigEndian32(n % 0x1_0000_0000);
    RoundTrip32(m / 0x1_0000_0000);
    RoundTrip32(n / 0x1_0000_0000);
    RoundTrip32(m % 0x1_0000_0000);
    RoundTrip32(n % 0x1_0000_0000);
  }

  /** What an answer signs beside the offer it answers, and a reconnect beside both. */
  datatype Extra = NoExtra | Answered(answerHash: Octets, hostFingerprint: Octets) | Reconnected(answer: Octets, fingerprint: Octets, generation: U32)

  function OfferFields(offer: Offer): seq<Field>
    requires IsNormal(offer.permissions)
  {
    [Field(1, offer.controllerDeviceId), Field(2, offer.hostDeviceId), Field(8, offer.sessionId), Field(9, offer.nonce),
     Field(10, BigEndian64(offer.issuedAtMs)), Field(11, BigEndian64(offer.expiresAtMs)),
     Field(12, BigEndian32(PermissionBits(offer.permissions))), Field(13, offer.offerHash), Field(14, offer.controllerFingerprint)]
  }

  /** The transcript of an offer, an answer to it, or a reconnect of the session. */
  function SignedTranscript(offer: Offer, extra: Extra): CanonicalTranscript
    requires IsNormal(offer.permissions)
  {
    match extra
    case NoExtra => CanonicalTranscript(SessionOffer, OfferFields(offer))
    case Answered(hash, fingerprint) =>
      CanonicalTranscript(SessionAnswer, OfferFields(offer) + [Field(15, hash), Field(16, fingerprint)])
    case Reconnected(hash, fingerprint, generation) =>
      CanonicalTranscript(SessionReconnect, OfferFields(offer) + [Field(15, hash), Field(16, fingerprint), Field(17, BigEndian32(generation))])
  }

  function EncodeSigned(offer: Offer, extra: Extra): Result<Octets, AuthError> {
    if !IsNormal(offer.permissions) then Err(InvalidPermissions)
    else
      match Encode(SignedTranscript(offer, extra))
      case Ok(bytes) => Ok(bytes)
      case Err(_) => Err(InvalidTranscript)
  }

  predicate FixedFields(offer: Offer) {
    && |offer.controllerDeviceId| == DEVICE_ID_BYTES && |offer.hostDeviceId| == DEVICE_ID_BYTES
    && |offer.sessionId| == SESSION_ID_BYTES && |offer.nonce| == NONCE_OR_HASH_BYTES
    && |offer.offerHash| == NONCE_OR_HASH_BYTES && |offer.controllerFingerprint| == NONCE_OR_HASH_BYTES
    && |offer.signature| == SIGNATURE_BYTES
  }

  predicate ExtraFields(extra: Extra) {
    match extra
    case NoExtra => true
    case Answered(hash, fingerprint) => |hash| == NONCE_OR_HASH_BYTES && |fingerprint| == NONCE_OR_HASH_BYTES
    case Reconnected(hash, fingerprint, _) => |hash| == NONCE_OR_HASH_BYTES && |fingerprint| == NONCE_OR_HASH_BYTES
  }

  lemma OfferFieldsFit(offer: Offer)
    requires FixedFields(offer) && IsNormal(offer.permissions)
    ensures var fields, required := OfferFields(offer), RequiredTags(SessionOffer);
            |fields| == |required| == 9 && forall i | 0 <= i < 9 :: fields[i].tag == required[i] && |fields[i].value| == FieldLength(required[i])
  {
    hide PermissionBits;
    hide BigEndian32;
    hide BigEndian64;
  }

  lemma SignedIsWellFormed(offer: Offer, extra: Extra)
    requires FixedFields(offer) && ExtraFields(extra) && IsNormal(offer.permissions)
    ensures WellFormed(SignedTranscript(offer, extra))
  {
    OfferFieldsFit(offer);
    var t, fields := SignedTranscript(offer, extra), OfferFields(offer);
    hide OfferFields;
    hide FixedFields;
    hide BigEndian32;
    assert forall i | 0 <= i < 9 :: t.fields[i] == fields[i];
    match extra
    case NoExtra =>
    case Answered(_, _) =>
    case Reconnected(_, _, _) =>
  }

  /** Once its fields have their lengths and its permissions are normalized, an offer always has a transcript. */
  lemma FixedFieldsEncode(offer: Offer, extra: Extra)
    requires FixedFields(offer) && ExtraFields(extra) && IsNormal(offer.permissions)
    ensures EncodeSigned(offer, extra).Ok?
  {
    SignedIsWellFormed(offer, extra);
    NeverTooLong(SignedTranscript(offer, extra));
    hide SignedTranscript;
    hide WellFormed;
    hide Encode;
  }

  lemma OfferFieldsBind(a: Offer, b: Offer)
    requires IsNormal(a.permissions) && IsNormal(b.permissions) && OfferFields(a) == OfferFields(b)
    ensures a.(signature := []) == b.(signature := [])
  {
    var x, y := OfferFields(a), OfferFields(b);
    assert forall i | 0 <= i < 9 :: x[i].value == y[i].value;
    assert x[0].value == y[0].value && x[1].value == y[1].value && x[2].value == y[2].value;
    assert x[3].value == y[3].value && x[7].value == y[7].value && x[8].value == y[8].value;
    assert BigEndian64(a.issuedAtMs) == x[4].value == y[4].value == BigEndian64(b.issuedAtMs);
    assert BigEndian64(a.expiresAtMs) == x[5].value == y[5].value == BigEndian64(b.expiresAtMs);
    assert BigEndian32(PermissionBits(a.permissions)) == x[6].value == y[6].value == BigEndian32(PermissionBits(b.permissions));
    BigEndian64IsInjective(a.issuedAtMs, b.issuedAtMs);
    BigEndian64IsInjective(a.expiresAtMs, b.expiresAtMs);
    RoundTrip32(PermissionBits(a.permissions));
    RoundTrip32(PermissionBits(b.permissions));
    hide BigEndian32;
    hide BigEndian64;
  }

  /**
   * A signature binds everything but itself: equal transcript bytes mean the same kind of
   * message and the same value of every signed field, whatever the lengths.
   */
  lemma TranscriptBindsAllFields(a: Offer, b: Offer, x: Extra, y: Extra)
    requires EncodeSigned(a, x).Ok? && EncodeSigned(a, x) == EncodeSigned(b, y)
    ensures a.(signature := []) == b.(signature := []) && x == y
  {
    hide OfferFields;
    var t, u := SignedTranscript(a, x), SignedTranscript(b, y);
    EncodingIsInjective(t, u);
    hide Encode;
    FieldCount(a);
    FieldCount(b);
    assert x.NoExtra? == y.NoExtra? && x.Answered? == y.Answered?;
    assert OfferFields(a) == t.fields[..9] == u.fields[..9] == OfferFields(b);
    OfferFieldsBind(a, b);
    if !x.NoExtra? {
      assert t.fields[9].value == u.fields[9].value && t.fields[10].value == u.fields[10].value;
    }
    if x.Reconnected? {
      assert t.fields[11].value == u.fields[11].value;
      RoundTrip32(x.generation);
      RoundTrip32(y.generation);
    }
    hide BigEndian32;
  }

  lemma FieldCount(offer: Offer)
    requires IsNormal(offer.permissions)
    ensures |OfferFields(offer)| == 9
  {
  }

  // ---- One verification ----

  datatype Grant = Grant(publicKey: Octets, permissions: seq<int>)

  /** What one call is given beside the offer; `verifies` is Ed25519 over key, message and signature. */
  datatype Context = Context(
    sdpHash: Octets,
    fingerprint: Octets,
    grant: Option<Grant>,
    verifies: (Octets, Octets, Octets) -> bool,
    nowMs: U64)

  function CheckTime(offer: Offer, nowMs: U64): Option<AuthError> {
    if offer.expiresAtMs < offer.issuedAtMs then Some(Expired)
    else if offer.expiresAtMs - offer.issuedAtMs > MAX_LIFETIME_MS then Some(LifetimeTooLong)
    else if offer.issuedAtMs > SaturatingAdd(nowMs, FUTURE_SKEW_MS) then Some(NotYetValid)
    else if offer.expiresAtMs < nowMs then Some(Expired)
    else None
  }

  /** The checks on the offer alone, in order. */
  function CheckOffer(hostDeviceId: Octets, offer: Offer, context: Context): Option<AuthError> {
    if !FixedFields(offer) then Some(InvalidOffer)
    else if offer.hostDeviceId != hostDeviceId then Some(HostMismatch)
    else if CheckTime(offer, context.nowMs).Some? then CheckTime(offer, context.nowMs)
    else if !IsNormal(offer.permissions) then Some(InvalidPermissions)
    else if offer.offerHash != context.sdpHash then Some(OfferHashMismatch)
    else if offer.controllerFingerprint != context.fingerprint then Some(FingerprintMismatch)
    else None
  }

  /** Then the grant, and the signature under its key. */
  function CheckGrant(offer: Offer, context: Context): Option<AuthError> {
    if context.grant.None? then Some(ControllerNotAuthorized)
    else if exists p <- offer.permissions :: p !in context.grant.value.permissions then Some(PermissionDenied)
    else
      match EncodeSigned(offer, NoExtra)
      case Err(error) => Some(error)
      case Ok(transcript) =>
        if !context.verifies(context.grant.value.publicKey, transcript, offer.signature) then Some(InvalidSignature) else None
  }

  /** Every check made before the replay cache is looked at, in order. */
  function Precheck(hostDeviceId: Octets, offer: Offer, context: Context): Option<AuthError> {
    var fault := CheckOffer(hostDeviceId, offer, context);
    if fault.Some? then fault else CheckGrant(offer, context)
  }

  function NonceKey(offer: Offer): Octets {
    offer.controllerDeviceId + offer.nonce
  }

  lemma NonceKeyIsInjective(a: Offer, b: Offer)
    requires FixedFields(a) && FixedFields(b) && NonceKey(a) == NonceKey(b)
    ensures a.controllerDeviceId == b.controllerDeviceId && a.nonce == b.nonce
  {
    assert NonceKey(a)[..DEVICE_ID_BYTES] == a.controllerDeviceId && NonceKey(b)[..DEVICE_ID_BYTES] == b.controllerDeviceId;
    assert NonceKey(a)[DEVICE_ID_BYTES..] == a.nonce && NonceKey(b)[DEVICE_ID_BYTES..] == b.nonce;
  }

  type Cache = map<Octets, U64>

  function Prune(used: Cache, nowMs: U64): Cache {
    map key | key in used && used[key] >= nowMs :: used[key]
  }

  function Verify(hostDeviceId: Octets, used: Cache, offer: Offer, context: Context): (Cache, Option<AuthError>) {
    match Precheck(hostDeviceId, offer, context)
    case Some(error) => (used, Some(error))
    case None =>
      var live := Prune(used, context.nowMs);
      if NonceKey(offer) in live then (live, Some(Replay))
      else if |live| >= MAX_REPLAY_CACHE_ENTRIES then (live, Some(ReplayCacheFull))
      else (live[NonceKey(offer) := offer.expiresAtMs], None)
  }

  /** The transcript of `purpose` carries `value` under `tag`, and nothing else under it. */
  predicate Carries(t: CanonicalTranscript, tag: U16, value: Octets) {
    Field(tag, value) in t.fields && forall f <- t.fields :: f.tag == tag ==> f.value == value
  }

  /** What a signature over an offer covers, field by field. */
  predicate StatesOffer(t: CanonicalTranscript, offer: Offer) {
    && Carries(t, 1, offer.controllerDeviceId) && Carries(t, 2, offer.hostDeviceId)
    && Carries(t, 8, offer.sessionId) && Carries(t, 9, offer.nonce)
    && Carries(t, 10, BigEndian64(offer.issuedAtMs)) && Carries(t, 11, BigEndian64(offer.expiresAtMs))
    && Carries(t, 12, [0, 0, 0, if CONTROL_INPUT in offer.permissions then 3 else 1])
    && Carries(t, 13, offer.offerHash) && Carries(t, 14, offer.controllerFingerprint)
  }

  predicate StatesExtra(t: CanonicalTranscript, extra: Extra) {
    match extra
    case NoExtra => t.purpose == SessionOffer && |t.fields| == 9
    case Answered(hash, fingerprint) =>
      t.purpose == SessionAnswer && |t.fields| == 11 && Carries(t, 15, hash) && Carries(t, 16, fingerprint)
    case Reconnected(hash, fingerprint, generation) =>
      && t.purpose == SessionReconnect && |t.fields| == 12
      && Carries(t, 15, hash) && Carries(t, 16, fingerprint) && Carries(t, 17, BigEndian32(generation))
  }

  /** What is signed decodes to a transcript that states every field of the offer, and of the answer or reconnect, under its tag. */
  lemma SignedBytesState(offer: Offer, extra: Extra)
    requires EncodeSigned(offer, extra).Ok?
    ensures var t := Decode(EncodeSigned(offer, extra).value);
            t.Ok? && StatesOffer(t.value, offer) && StatesExtra(t.value, extra)
  {
    var t := SignedTranscript(offer, extra);
    DecodeInvertsEncode(t);
    hide Encode;
    hide Decode;
    SignedStates(offer, extra);
    hide SignedTranscript;
    hide StatesOffer;
    hide StatesExtra;
  }

  const SIGNED_TAGS: seq<U16> := [1, 2, 8, 9, 10, 11, 12, 13, 14, 15, 16, 17]

  predicate TaggedInTurn(t: CanonicalTranscript) {
    |t.fields| <= 12 && forall i | 0 <= i < |t.fields| :: t.fields[i].tag == SIGNED_TAGS[i]
  }

  lemma CarriesAt(t: CanonicalTranscript, i: nat)
    requires TaggedInTurn(t) && i < |t.fields|
    ensures Carries(t, t.fields[i].tag, t.fields[i].value)
  {
    forall f | f in t.fields && f.tag == t.fields[i].tag
      ensures f.value == t.fields[i].value
    {
      var j :| 0 <= j < |t.fields| && t.fields[j] == f;
      assert SIGNED_TAGS[i] == SIGNED_TAGS[j];
    }
  }

  lemma SignedFields(offer: Offer, extra: Extra)
    requires IsNormal(offer.permissions)
    ensures var t := SignedTranscript(offer, extra);
            TaggedInTurn(t) && |t.fields| >= 9 && t.fields[..9] == OfferFields(offer)
  {
    FieldCount(offer);
    var t, fields := SignedTranscript(offer, extra), OfferFields(offer);
    hide BigEndian32;
    hide BigEndian64;
    assert forall i | 0 <= i < 9 :: t.fields[i] == fields[i];
  }

  lemma SignedStates(offer: Offer, extra: Extra)
    requires IsNormal(offer.permissions)
    ensures StatesOffer(SignedTranscript(offer, extra), offer) && StatesExtra(SignedTranscript(offer, extra), extra)
  {
    SignedFields(offer, extra);
    var t := SignedTranscript(offer, extra);
    FieldsStateOffer(t, offer);
    if !extra.NoExtra? {
      CarriesAt(t, 9);
      CarriesAt(t, 10);
      if extra.Reconnected? {
        CarriesAt(t, 11);
      }
    }
    FieldCount(offer);
    hide OfferFields;
    hide StatesOffer;
    hide Carries;
    hide TaggedInTurn;
    hide BigEndian32;
  }

  lemma FieldsStateOffer(t: CanonicalTranscript, offer: Offer)
    requires IsNormal(offer.permissions) && TaggedInTurn(t) && |t.fields| >= 9 && t.fields[..9] == OfferFields(offer)
    ensures StatesOffer(t, offer)
  {
    BitsAreSmall(offer.permissions);
    FieldCount(offer);
    forall i | 0 <= i < 9
      ensures Carries(t, OfferFields(offer)[i].tag, OfferFields(offer)[i].value)
    {
      assert t.fields[i] == OfferFields(offer)[i];
      CarriesAt(t, i);
    }
    OfferFieldsAre(offer, OfferFields(offer));
    hide Carries;
    hide TaggedInTurn;
    hide BigEndian32;
    hide BigEndian64;
    hide PermissionBits;
    hide OfferFields;
  }

  lemma OfferFieldsAre(offer: Offer, fields: seq<Field>)
    requires IsNormal(offer.permissions) && fields == OfferFields(offer)
    ensures |fields| == 9
    ensures fields[0] == Field(1, offer.controllerDeviceId) && fields[1] == Field(2, offer.hostDeviceId)
    ensures fields[2] == Field(8, offer.sessionId) && fields[3] == Field(9, offer.nonce)
    ensures fields[4] == Field(10, BigEndian64(offer.issuedAtMs)) && fields[5] == Field(11, BigEndian64(offer.expiresAtMs))
    ensures fields[6] == Field(12, BigEndian32(PermissionBits(offer.permissions)))
    ensures fields[7] == Field(13, offer.offerHash) && fields[8] == Field(14, offer.controllerFingerprint)
  {
    hide BigEndian32;
    hide BigEndian64;
    hide PermissionBits;
  }

  lemma BitsAreSmall(permissions: seq<int>)
    requires IsNormal(permissions)
    ensures BigEndian32(PermissionBits(permissions)) == [0, 0, 0, if CONTROL_INPUT in permissions then 3 else 1]
  {
  }

  /** The signature covers exactly this offer: it verifies over bytes that decode to a statement of its fields. */
  ghost predicate SignedByGrant(offer: Offer, context: Context) {
    exists bytes: Octets ::
      && context.grant.Some? && context.verifies(context.grant.value.publicKey, bytes, offer.signature)
      && Decode(bytes).Ok? && StatesOffer(Decode(bytes).value, offer) && StatesExtra(Decode(bytes).value, NoExtra)
  }

  predicate Shaped(offer: Offer) {
    && |offer.controllerDeviceId| == |offer.hostDeviceId| == |offer.nonce| == |offer.offerHash| == |offer.controllerFingerprint| == 32
    && |offer.sessionId| == 16 && |offer.signature| == 64
  }

  predicate Timely(offer: Offer, nowMs: U64) {
    && offer.issuedAtMs <= offer.expiresAtMs && offer.expiresAtMs - offer.issuedAtMs <= 30_000
    && offer.issuedAtMs as int <= nowMs as int + 10_000 && nowMs <= offer.expiresAtMs
  }

  predicate Permitted(offer: Offer, grant: Option<Grant>) {
    grant.Some? && forall p <- offer.permissions :: p in grant.value.permissions
  }

  /** An offer to this Host, timely, intact, within its controller's grant and signed with the granted key. */
  ghost predicate Authentic(hostDeviceId: Octets, offer: Offer, context: Context) {
    && Shaped(offer) && offer.hostDeviceId == hostDeviceId && Timely(offer, context.nowMs)
    && (offer.permissions == [VIEW_SCREEN] || offer.permissions == [VIEW_SCREEN, CONTROL_INPUT])
    && offer.offerHash == context.sdpHash && offer.controllerFingerprint == context.fingerprint
    && Permitted(offer, context.grant) && SignedByGrant(offer, context)
  }

  /** No unexpired entry holds the controller and the nonce. */
  predicate Unused(used: Cache, offer: Offer, nowMs: U64) {
    forall key <- used | used[key] >= nowMs :: key != offer.controllerDeviceId + offer.nonce
  }

  function LiveEntries(used: Cache, nowMs: U64): nat {
    |set key <- used | used[key] >= nowMs|
  }

  /** Every refusal before the cache is asked names something that is wrong. */
  ghost predicate FaultNamed(hostDeviceId: Octets, offer: Offer, context: Context, error: AuthError) {
    match error
    case InvalidOffer => !Shaped(offer)
    case HostMismatch => offer.hostDeviceId != hostDeviceId
    case Expired => offer.expiresAtMs < offer.issuedAtMs || offer.expiresAtMs < context.nowMs
    case LifetimeTooLong => offer.expiresAtMs as int - offer.issuedAtMs > 30_000
    case NotYetValid => offer.issuedAtMs as int > context.nowMs as int + 10_000
    case InvalidPermissions => offer.permissions != [VIEW_SCREEN] && offer.permissions != [VIEW_SCREEN, CONTROL_INPUT]
    case OfferHashMismatch => offer.offerHash != context.sdpHash
    case FingerprintMismatch => offer.controllerFingerprint != context.fingerprint
    case ControllerNotAuthorized => context.grant.None?
    case PermissionDenied => context.grant.Some? && !Permitted(offer, context.grant)
    case InvalidSignature => !SignedByGrant(offer, context)
    case _ => false
  }

  /** The bytes an offer states are the only ones that state it, so a signature over anything else is none. */
  lemma SignedIff(offer: Offer, context: Context)
    requires FixedFields(offer) && IsNormal(offer.permissions) && context.grant.Some?
    ensures EncodeSigned(offer, NoExtra).Ok?
    ensures SignedByGrant(offer, context) <==> context.verifies(context.grant.value.publicKey, EncodeSigned(offer, NoExtra).value, offer.signature)
  {
    FixedFieldsEncode(offer, NoExtra);
    SignedBytesState(offer, NoExtra);
    forall bytes: Octets | Decode(bytes).Ok? && StatesOffer(Decode(bytes).value, offer) && StatesExtra(Decode(bytes).value, NoExtra)
      ensures bytes == EncodeSigned(offer, NoExtra).value
    {
      StatementIsUnique(bytes, offer);
    }
    hide EncodeSigned;
    hide Decode;
    hide StatesOffer;
    hide StatesExtra;
  }

  lemma StatementIsUnique(bytes: Octets, offer: Offer)
    requires EncodeSigned(offer, NoExtra).Ok?
    requires Decode(bytes).Ok? && StatesOffer(Decode(bytes).value, offer) && StatesExtra(Decode(bytes).value, NoExtra)
    ensures bytes == EncodeSigned(offer, NoExtra).value
  {
    var t, u := Decode(bytes).value, SignedTranscript(offer, NoExtra);
    EncodeInvertsDecode(bytes);
    SignedBytesState(offer, NoExtra);
    DecodeInvertsEncode(u);
    NeverTooLong(t);
    NeverTooLong(u);
    hide Encode;
    hide Decode;
    SameStatement(t, u, offer);
  }

  lemma CarriedAt(t: CanonicalTranscript, i: nat, tag: U16, value: Octets)
    requires i < |t.fields| && t.fields[i].tag == tag && Carries(t, tag, value)
    ensures t.fields[i] == Field(tag, value)
  {
    assert t.fields[i] in t.fields;
  }

  lemma StatementIs(t: CanonicalTranscript, u: CanonicalTranscript, i: nat, value: Octets)
    requires WellFormed(t) && WellFormed(u) && t.purpose == u.purpose == SessionOffer && i < 9
    requires Carries(t, SIGNED_TAGS[i], value) && Carries(u, SIGNED_TAGS[i], value)
    ensures |t.fields| == |u.fields| == 9 && t.fields[i] == u.fields[i]
  {
    assert t.fields[i].tag == SIGNED_TAGS[i] == u.fields[i].tag;
    CarriedAt(t, i, SIGNED_TAGS[i], value);
    CarriedAt(u, i, SIGNED_TAGS[i], value);
    hide Carries;
  }

  function Stated(offer: Offer): seq<Octets> {
    [offer.controllerDeviceId, offer.hostDeviceId, offer.sessionId, offer.nonce, BigEndian64(offer.issuedAtMs),
     BigEndian64(offer.expiresAtMs), [0, 0, 0, if CONTROL_INPUT in offer.permissions then 3 else 1], offer.offerHash,
     offer.controllerFingerprint]
  }

  lemma StatesInTurn(t: CanonicalTranscript, offer: Offer)
    requires StatesOffer(t, offer)
    ensures forall i | 0 <= i < 9 :: Carries(t, SIGNED_TAGS[i], Stated(offer)[i])
  {
    hide Carries;
    hide BigEndian64;
  }

  lemma SameStatement(t: CanonicalTranscript, u: CanonicalTranscript, offer: Offer)
    requires WellFormed(t) && WellFormed(u) && t.purpose == u.purpose == SessionOffer
    requires StatesOffer(t, offer) && StatesOffer(u, offer)
    ensures t == u
  {
    StatesInTurn(t, offer);
    StatesInTurn(u, offer);
    forall i | 0 <= i < 9
      ensures |t.fields| == |u.fields| == 9 && t.fields[i] == u.fields[i]
    {
      StatementIs(t, u, i, Stated(offer)[i]);
    }
    StatementIs(t, u, 0, Stated(offer)[0]);
    assert t.fields == u.fields;
    hide WellFormed;
    hide Carries;
    hide Stated;
    hide StatesOffer;
  }

  lemma TimelyIff(offer: Offer, nowMs: U64)
    ensures CheckTime(offer, nowMs).None? <==> Timely(offer, nowMs)
    ensures CheckTime(offer, nowMs) == Some(Expired) ==> offer.expiresAtMs < offer.issuedAtMs || offer.expiresAtMs < nowMs
    ensures CheckTime(offer, nowMs) == Some(LifetimeTooLong) ==> offer.expiresAtMs as int - offer.issuedAtMs > 30_000
    ensures CheckTime(offer, nowMs) == Some(NotYetValid) ==> offer.issuedAtMs as int > nowMs as int + 10_000
    ensures CheckTime(offer, nowMs).Some? ==> CheckTime(offer, nowMs).value in {Expired, LifetimeTooLong, NotYetValid}
  {
  }

  lemma ShapedIff(offer: Offer)
    ensures FixedFields(offer) <==> Shaped(offer)
  {
  }

  lemma OfferChecked(hostDeviceId: Octets, offer: Offer, context: Context)
    ensures var error := CheckOffer(hostDeviceId, offer, context);
            && (error.None? <==>
                  && Shaped(offer) && offer.hostDeviceId == hostDeviceId && Timely(offer, context.nowMs) && IsNormal(offer.permissions)
                  && offer.offerHash == context.sdpHash && offer.controllerFingerprint == context.fingerprint)
            && (error.Some? ==> FaultNamed(hostDeviceId, offer, context, error.value))
  {
    TimelyIff(offer, context.nowMs);
    ShapedIff(offer);
    hide CheckTime;
    hide Timely;
    hide FixedFields;
    hide Shaped;
    hide SignedByGrant;
  }

  lemma PermittedIff(offer: Offer, grant: Grant)
    ensures (exists p <- offer.permissions :: p !in grant.permissions) <==> !Permitted(offer, Some(grant))
  {
  }

  lemma GrantChecked(offer: Offer, context: Context)
    requires FixedFields(offer) && IsNormal(offer.permissions)
    ensures var error := CheckGrant(offer, context);
            && (error.None? <==> Permitted(offer, context.grant) && SignedByGrant(offer, context))
            && (error == Some(ControllerNotAuthorized) ==> context.grant.None?)
            && (error == Some(PermissionDenied) ==> context.grant.Some? && !Permitted(offer, context.grant))
            && (error == Some(InvalidSignature) ==> !SignedByGrant(offer, context))
            && (error.Some? ==> error.value in {ControllerNotAuthorized, PermissionDenied, InvalidSignature})
  {
    if context.grant.Some? {
      SignedIff(offer, context);
      PermittedIff(offer, context.grant.value);
    } else {
      assert !Permitted(offer, context.grant);
    }
    hide Permitted;
    hide FixedFields;
    hide IsNormal;
    hide SignedByGrant;
    hide EncodeSigned;
  }

  lemma AuthenticIff(hostDeviceId: Octets, offer: Offer, context: Context)
    ensures Precheck(hostDeviceId, offer, context).None? <==> Authentic(hostDeviceId, offer, context)
  {
    ShapedIff(offer);
    OfferChecked(hostDeviceId, offer, context);
    if CheckOffer(hostDeviceId, offer, context).None? {
      GrantChecked(offer, context);
    }
    hide CheckOffer;
    hide CheckGrant;
    hide Timely;
    hide FixedFields;
    hide Shaped;
    hide Permitted;
    hide SignedByGrant;
    hide FaultNamed;
  }

  lemma RefusalNamesItsFault(hostDeviceId: Octets, offer: Offer, context: Context)
    ensures var error := Precheck(hostDeviceId, offer, context); error.Some? ==> FaultNamed(hostDeviceId, offer, context, error.value)
  {
    ShapedIff(offer);
    OfferChecked(hostDeviceId, offer, context);
    if CheckOffer(hostDeviceId, offer, context).None? {
      GrantChecked(offer, context);
    }
    hide CheckOffer;
    hide CheckGrant;
    hide Timely;
    hide FixedFields;
    hide Shaped;
    hide Permitted;
    hide SignedByGrant;
  }

  lemma PruneCounts(used: Cache, offer: Offer, nowMs: U64)
    ensures |Prune(used, nowMs)| == LiveEntries(used, nowMs)
    ensures NonceKey(offer) in Prune(used, nowMs) <==> !Unused(used, offer, nowMs)
  {
    assert Prune(used, nowMs).Keys == set key <- used | used[key] >= nowMs;
    assert |Prune(used, nowMs)| == |Prune(used, nowMs).Keys|;
  }

  /** What an accepted offer entitles its sender to. */
  datatype VerifiedOffer = VerifiedOffer(publicKey: Octets, sessionId: Octets, permissions: seq<int>)

  class Verifier {
    const hostDeviceId: Octets
    var usedNonces: Cache

    /** The Host device identifier is already known to have 32 bytes. */
    constructor (hostDeviceId: Octets)
      requires |hostDeviceId| == DEVICE_ID_BYTES
      ensures this.hostDeviceId == hostDeviceId && usedNonces == map[]
    {
      this.hostDeviceId, usedNonces := hostDeviceId, map[];
    }

    method VerifyOffer(offer: Offer, context: Context) returns (r: Result<VerifiedOffer, AuthError>)
      modifies this
      ensures (usedNonces, if r.Err? then Some(r.error) else None) == Verify(hostDeviceId, old(usedNonces), offer, context)
      ensures r.Ok? ==> context.grant.Some? && r.value == VerifiedOffer(context.grant.value.publicKey, offer.sessionId, offer.permissions)
      ensures r.Ok? <==> Authentic(hostDeviceId, offer, context) && Unused(old(usedNonces), offer, context.nowMs)
                         && LiveEntries(old(usedNonces), context.nowMs) < MAX_REPLAY_CACHE_ENTRIES
      ensures Authentic(hostDeviceId, offer, context) ==>
                && (r == Err(Replay) <==> !Unused(old(usedNonces), offer, context.nowMs))
                && (r.Err? ==> r.error in {Replay, ReplayCacheFull})
                && usedNonces == (map key | key in old(usedNonces) && old(usedNonces)[key] >= context.nowMs :: old(usedNonces)[key])
                                 + if r.Ok? then map[offer.controllerDeviceId + offer.nonce := offer.expiresAtMs] else map[]
      ensures !Authentic(hostDeviceId, offer, context) ==>
                r.Err? && FaultNamed(hostDeviceId, offer, context, r.error) && usedNonces == old(usedNonces)
    {
      AuthenticIff(hostDeviceId, offer, context);
      RefusalNamesItsFault(hostDeviceId, offer, context);
      PruneCounts(usedNonces, offer, context.nowMs);
      hide Authentic;
      hide FaultNamed;
      hide Unused;
      hide LiveEntries;
      if !FixedFields(offer) {
        return Err(InvalidOffer);
      }
      if offer.hostDeviceId != hostDeviceId {
        return Err(HostMismatch);
      }
      var untimely := CheckTime(offer, context.nowMs);
      if untimely.Some? {
        return Err(untimely.value);
      }
      var permissions := NormalizePermissions(offer.permissions);
      if permissions.Err? {
        return Err(permissions.error);
      }
      if offer.offerHash != context.sdpHash {
        return Err(OfferHashMismatch);
      }
      if offer.controllerFingerprint != context.fingerprint {
        return Err(FingerprintMismatch);
      }
      if context.grant.None? {
        return Err(ControllerNotAuthorized);
      }
      var grant := context.grant.value;
      if exists p <- permissions.value :: p !in grant.permissions {
        return Err(PermissionDenied);
      }
      var transcript := EncodeSigned(offer, NoExtra);
      if transcript.Err? {
        return Err(transcript.error);
      }
      if !context.verifies(grant.publicKey, transcript.value, offer.signature) {
        return Err(InvalidSignature);
      }
      usedNonces := Prune(usedNonces, context.nowMs);
      var key := NonceKey(offer);
      if key in usedNonces {
        return Err(Replay);
      }
      if |usedNonces| >= MAX_REPLAY_CACHE_ENTRIES {
        return Err(ReplayCacheFull);
      }
      usedNonces := usedNonces[key := offer.expiresAtMs];
      r := Ok(VerifiedOffer(grant.publicKey, offer.sessionId, permissions.value));
    }
  }

  // ---- The pruned cache against a log that forgets nothing ----

  datatype Accepted = Accepted(key: Octets, expiresAtMs: U64, acceptedAtMs: U64)

  datatype Request = Request(offer: Offer, context: Context)

  datatype Run = Run(used: Cache, log: seq<Accepted>)

  function RunOf(hostDeviceId: Octets, requests: seq<Request>): Run
    decreases |requests|
  {
    if requests == [] then Run(map[], [])
    else
      var before, request := RunOf(hostDeviceId, requests[..|requests| - 1]), requests[|requests| - 1];
      var (used, error) := Verify(hostDeviceId, before.used, request.offer, request.context);
      Run(used, before.log + if error.None?
                             then [Accepted(NonceKey(request.offer), request.offer.expiresAtMs, request.context.nowMs)] else [])
  }

  /** The clock never runs backwards. */
  predicate Forward(requests: seq<Request>) {
    forall i, j | 0 <= i < j < |requests| :: requests[i].context.nowMs <= requests[j].context.nowMs
  }

  function LiveKeys(log: seq<Accepted>, nowMs: U64): set<Octets> {
    set e <- log | e.expiresAtMs >= nowMs :: e.key
  }

  /** The verdict of a verifier that keeps every acceptance for ever. */
  function ReferenceVerdict(hostDeviceId: Octets, log: seq<Accepted>, offer: Offer, context: Context): Option<AuthError> {
    match Precheck(hostDeviceId, offer, context)
    case Some(error) => Some(error)
    case None =>
      if NonceKey(offer) in LiveKeys(log, context.nowMs) then Some(Replay)
      else if |LiveKeys(log, context.nowMs)| >= MAX_REPLAY_CACHE_ENTRIES then Some(ReplayCacheFull)
      else None
  }

  /** From `since` on, the cache knows exactly the live acceptances of the log. */
  ghost predicate Agrees(run: Run, since: U64) {
    forall now: U64 | now >= since :: Prune(run.used, now).Keys == LiveKeys(run.log, now)
  }

  lemma PruneTwice(used: Cache, first: U64, second: U64)
    requires first <= second
    ensures Prune(Prune(used, first), second) == Prune(used, second)
  {
  }

  lemma InsertKeeps(used: Cache, log: seq<Accepted>, key: Octets, expiresAtMs: U64, acceptedAtMs: U64, now: U64)
    requires Prune(used, now).Keys == LiveKeys(log, now) && key !in used
    ensures Prune(used[key := expiresAtMs], now).Keys == LiveKeys(log + [Accepted(key, expiresAtMs, acceptedAtMs)], now)
  {
    var after := log + [Accepted(key, expiresAtMs, acceptedAtMs)];
    assert after[|log|] == Accepted(key, expiresAtMs, acceptedAtMs);
    assert forall e <- log :: e in after;
    assert forall k :: k in LiveKeys(after, now) <==> k in LiveKeys(log, now) || (k == key && expiresAtMs >= now);
  }

  /** The latest clock any pruning verification has read; only offers that reach the cache prune it. */
  function HighWater(hostDeviceId: Octets, requests: seq<Request>): U64
    decreases |requests|
  {
    if requests == [] then 0
    else
      var before, last := HighWater(hostDeviceId, requests[..|requests| - 1]), requests[|requests| - 1];
      if Precheck(hostDeviceId, last.offer, last.context).None? && last.context.nowMs > before then last.context.nowMs else before
  }

  function Noted(log: seq<Accepted>, offer: Offer, context: Context, error: Option<AuthError>): seq<Accepted> {
    log + if error.None? then [Accepted(NonceKey(offer), offer.expiresAtMs, context.nowMs)] else []
  }

  lemma StepAgrees(hostDeviceId: Octets, run: Run, offer: Offer, context: Context, since: U64, next: U64)
    requires Agrees(run, since) && since <= next
    requires Precheck(hostDeviceId, offer, context).None? ==> context.nowMs <= next
    ensures var (used, error) := Verify(hostDeviceId, run.used, offer, context);
            Agrees(Run(used, Noted(run.log, offer, context, error)), next)
  {
    var now := context.nowMs;
    var (used, error) := Verify(hostDeviceId, run.used, offer, context);
    forall later: U64 | later >= next
      ensures Prune(used, later).Keys == LiveKeys(Noted(run.log, offer, context, error), later)
    {
      if Precheck(hostDeviceId, offer, context).None? {
        PruneTwice(run.used, now, later);
        if error.None? {
          InsertKeeps(Prune(run.used, now), run.log, NonceKey(offer), offer.expiresAtMs, now, later);
        }
      }
      assert run.log + [] == run.log;
    }
    hide Precheck;
  }

  /** Whatever the clock does, cache and log agree on everything from the high-water mark on. */
  lemma {:induction false} RunAgrees(hostDeviceId: Octets, requests: seq<Request>)
    ensures Agrees(RunOf(hostDeviceId, requests), HighWater(hostDeviceId, requests))
    decreases |requests|
  {
    hide Precheck;
    hide Agrees;
    if requests == [] {
      EmptyAgrees();
    } else {
      var n := |requests| - 1;
      RunAgrees(hostDeviceId, requests[..n]);
      StepAgrees(hostDeviceId, RunOf(hostDeviceId, requests[..n]), requests[n].offer, requests[n].context,
                 HighWater(hostDeviceId, requests[..n]), HighWater(hostDeviceId, requests));
    }
    hide Verify;
  }

  lemma EmptyAgrees()
    ensures Agrees(Run(map[], []), 0)
  {
  }

  /**
   * Refinement: after any sequence of offers, read at or after the high-water mark, the
   * pruned cache gives exactly the verdict of the log that forgets nothing: which offers
   * are accepted, which are replays, and when the cache counts as full.
   */
  lemma PrunedCacheRefinesLog(hostDeviceId: Octets, requests: seq<Request>, next: Request)
    requires HighWater(hostDeviceId, requests) <= next.context.nowMs
    ensures var run := RunOf(hostDeviceId, requests);
            Verify(hostDeviceId, run.used, next.offer, next.context).1 == ReferenceVerdict(hostDeviceId, run.log, next.offer, next.context)
  {
    RunAgrees(hostDeviceId, requests);
    var run, now := RunOf(hostDeviceId, requests), next.context.nowMs;
    hide Precheck;
    hide RunOf;
    hide HighWater;
    var live := Prune(run.used, now);
    assert live.Keys == LiveKeys(run.log, now) && |live| == |live.Keys|;
  }

  /** A clock that never runs backwards is always at or after the high-water mark. */
  lemma {:induction false} ForwardReachesHighWater(hostDeviceId: Octets, requests: seq<Request>, nowMs: U64)
    requires forall i | 0 <= i < |requests| :: requests[i].context.nowMs <= nowMs
    ensures HighWater(hostDeviceId, requests) <= nowMs
    decreases |requests|
  {
    if requests != [] {
      ForwardReachesHighWater(hostDeviceId, requests[..|requests| - 1], nowMs);
    }
    hide Precheck;
  }

  // ---- No offer twice ----

  ghost predicate NoRepeat(log: seq<Accepted>) {
    forall i, j | 0 <= i < j < |log| && log[i].key == log[j].key :: log[i].expiresAtMs < log[j].acceptedAtMs
  }

  lemma ForwardPrefix(requests: seq<Request>, n: nat)
    requires Forward(requests) && n <= |requests|
    ensures Forward(requests[..n])
  {
  }

  /**
   * A controller's nonce is accepted again only after the earlier offer carrying it has
   * expired; an offer itself is only ever accepted up to its expiry.
   */
  lemma {:induction false} NonceReuseNeedsExpiry(hostDeviceId: Octets, requests: seq<Request>)
    requires Forward(requests)
    ensures var log := RunOf(hostDeviceId, requests).log;
            NoRepeat(log) && forall e <- log :: e.acceptedAtMs <= e.expiresAtMs
    decreases |requests|
  {
    if requests != [] {
      var n := |requests| - 1;
      var before, next := RunOf(hostDeviceId, requests[..n]), requests[n];
      ForwardPrefix(requests, n);
      NonceReuseNeedsExpiry(hostDeviceId, requests[..n]);
      ForwardReachesHighWater(hostDeviceId, requests[..n], next.context.nowMs);
      PrunedCacheRefinesLog(hostDeviceId, requests[..n], next);
      hide Verify;
      if ReferenceVerdict(hostDeviceId, before.log, next.offer, next.context).None? {
        AcceptedInTime(hostDeviceId, before.log, next.offer, next.context);
      }
      hide ReferenceVerdict;
    }
  }

  lemma AcceptedInTime(hostDeviceId: Octets, log: seq<Accepted>, offer: Offer, context: Context)
    requires ReferenceVerdict(hostDeviceId, log, offer, context).None?
    ensures context.nowMs <= offer.expiresAtMs <= context.nowMs as int + FUTURE_SKEW_MS as int + MAX_LIFETIME_MS
    ensures forall e <- log :: e.key == NonceKey(offer) ==> e.expiresAtMs < context.nowMs
  {
    assert forall e <- log :: e.expiresAtMs >= context.nowMs ==> e.key in LiveKeys(log, context.nowMs);
  }

  predicate AcceptedAt(hostDeviceId: Octets, requests: seq<Request>, i: nat)
    requires i < |requests|
  {
    Verify(hostDeviceId, RunOf(hostDeviceId, requests[..i]).used, requests[i].offer, requests[i].context).1.None?
  }

  predicate ReachesCache(hostDeviceId: Octets, request: Request) {
    Precheck(hostDeviceId, request.offer, request.context).None?
  }

  /** Between requests `i` and `m`, no offer reached the cache at a time past the expiry of offer `i`. */
  predicate Unpruned(hostDeviceId: Octets, requests: seq<Request>, i: nat, m: nat)
    requires i < |requests| && m <= |requests|
  {
    forall k | i < k < m && ReachesCache(hostDeviceId, requests[k]) :: requests[k].context.nowMs <= requests[i].offer.expiresAtMs
  }

  /** Between requests `i` and `m`, nothing with the nonce of offer `i` was accepted. */
  predicate Untouched(hostDeviceId: Octets, requests: seq<Request>, i: nat, m: nat)
    requires i < |requests| && m <= |requests|
  {
    forall k | i < k < m && NonceKey(requests[k].offer) == NonceKey(requests[i].offer) :: !AcceptedAt(hostDeviceId, requests, k)
  }

  lemma RunOfNext(hostDeviceId: Octets, requests: seq<Request>, m: nat)
    requires m < |requests|
    ensures RunOf(hostDeviceId, requests[..m + 1]).used
            == Verify(hostDeviceId, RunOf(hostDeviceId, requests[..m]).used, requests[m].offer, requests[m].context).0
  {
    assert requests[..m + 1][..m] == requests[..m];
    hide Verify;
  }

  /**
   * Whatever the clock does: until its nonce is accepted anew, an accepted offer is still
   * in the cache, with its own expiry, exactly as long as no pruning read a later clock.
   */
  lemma {:induction false} EntryStaysIffUnpruned(hostDeviceId: Octets, requests: seq<Request>, i: nat, m: nat)
    requires i < m <= |requests| && AcceptedAt(hostDeviceId, requests, i) && Untouched(hostDeviceId, requests, i, m)
    ensures var used, key := RunOf(hostDeviceId, requests[..m]).used, NonceKey(requests[i].offer);
            && (key in used <==> Unpruned(hostDeviceId, requests, i, m))
            && (key in used ==> used[key] == requests[i].offer.expiresAtMs)
    decreases m
  {
    hide Precheck;
    hide RunOf;
    RunOfNext(hostDeviceId, requests, m - 1);
    if m == i + 1 {
    } else {
      EntryStaysIffUnpruned(hostDeviceId, requests, i, m - 1);
      assert Unpruned(hostDeviceId, requests, i, m)
          <==> Unpruned(hostDeviceId, requests, i, m - 1)
               && (ReachesCache(hostDeviceId, requests[m - 1]) ==> requests[m - 1].context.nowMs <= requests[i].offer.expiresAtMs);
    }
  }

  /** The verdict on an offer that is not a replay: refused only when the cache is full. */
  function RoomVerdict(used: Cache, nowMs: U64): Option<AuthError> {
    if |Prune(used, nowMs)| >= MAX_REPLAY_CACHE_ENTRIES then Some(ReplayCacheFull) else None
  }

  /**
   * Exactly when a repeated offer is caught, for clocks that move in any way.  Say offer i
   * was accepted, j carries the same offer and reaches the cache, and its nonce was not
   * accepted in between.  Then j is a replay iff every offer that reached the cache in
   * between did so no later than the expiry of i; otherwise it is accepted again, if there
   * is room.  A caller who keeps the latest clock it has passed can check this beforehand.
   */
  lemma RepeatIsCaughtIffUnpruned(hostDeviceId: Octets, requests: seq<Request>, i: nat, j: nat)
    requires i < j < |requests| && AcceptedAt(hostDeviceId, requests, i) && Untouched(hostDeviceId, requests, i, j)
    requires requests[j].offer == requests[i].offer && ReachesCache(hostDeviceId, requests[j])
    ensures var used, next := RunOf(hostDeviceId, requests[..j]).used, requests[j];
            && (Verify(hostDeviceId, used, next.offer, next.context).1 == Some(Replay) <==> Unpruned(hostDeviceId, requests, i, j))
            && (!Unpruned(hostDeviceId, requests, i, j) ==>
                  Verify(hostDeviceId, used, next.offer, next.context).1 == RoomVerdict(used, next.context.nowMs))
  {
    EntryStaysIffUnpruned(hostDeviceId, requests, i, j);
    ReachesInTime(hostDeviceId, requests[j]);
    hide RunOf;
    hide Precheck;
  }

  lemma ReachesInTime(hostDeviceId: Octets, request: Request)
    requires ReachesCache(hostDeviceId, request)
    ensures request.context.nowMs <= request.offer.expiresAtMs
  {
  }

  lemma UnprunedIsRefused(hostDeviceId: Octets, requests: seq<Request>, i: nat, m: nat)
    requires i < m < |requests| && AcceptedAt(hostDeviceId, requests, i)
    requires Untouched(hostDeviceId, requests, i, m) && Unpruned(hostDeviceId, requests, i, m + 1)
    requires NonceKey(requests[m].offer) == NonceKey(requests[i].offer)
    ensures !AcceptedAt(hostDeviceId, requests, m)
  {
    hide Precheck;
    hide RunOf;
    hide NonceKey;
    assert Unpruned(hostDeviceId, requests, i, m);
    EntryStaysIffUnpruned(hostDeviceId, requests, i, m);
  }

  /** While nothing pruned past its expiry, the nonce of an accepted offer is not accepted anew. */
  lemma {:induction false} UnprunedIsUntouched(hostDeviceId: Octets, requests: seq<Request>, i: nat, m: nat)
    requires i < m <= |requests| && AcceptedAt(hostDeviceId, requests, i) && Unpruned(hostDeviceId, requests, i, m)
    ensures Untouched(hostDeviceId, requests, i, m)
    decreases m
  {
    hide AcceptedAt;
    hide ReachesCache;
    hide NonceKey;
    if m > i + 1 {
      UnprunedIsUntouched(hostDeviceId, requests, i, m - 1);
      if NonceKey(requests[m - 1].offer) == NonceKey(requests[i].offer) {
        UnprunedIsRefused(hostDeviceId, requests, i, m - 1);
      }
    }
  }

  /**
   * No identical offer is accepted twice in a run whose clock, among the offers that reach
   * the cache, never passes the offer's expiry between the two.
   */
  lemma NoOfferTwiceUnlessPruned(hostDeviceId: Octets, requests: seq<Request>, i: nat, j: nat)
    requires i < j < |requests| && requests[i].offer == requests[j].offer && Unpruned(hostDeviceId, requests, i, j)
    ensures !(AcceptedAt(hostDeviceId, requests, i) && AcceptedAt(hostDeviceId, requests, j))
  {
    if AcceptedAt(hostDeviceId, requests, i) && ReachesCache(hostDeviceId, requests[j]) {
      UnprunedIsUntouched(hostDeviceId, requests, i, j);
      RepeatIsCaughtIffUnpruned(hostDeviceId, requests, i, j);
    }
    hide Precheck;
    hide RunOf;
    hide Unpruned;
    hide Untouched;
  }

  /** With a clock that never runs backwards, no identical offer is accepted twice. */
  lemma NoOfferTwice(hostDeviceId: Octets, requests: seq<Request>, i: nat, j: nat)
    requires Forward(requests) && i < j < |requests| && requests[i].offer == requests[j].offer
    ensures !(AcceptedAt(hostDeviceId, requests, i) && AcceptedAt(hostDeviceId, requests, j))
  {
    if ReachesCache(hostDeviceId, requests[j]) {
      ReachesInTime(hostDeviceId, requests[j]);
      NoOfferTwiceUnlessPruned(hostDeviceId, requests, i, j);
    }
    hide Precheck;
    hide RunOf;
  }

  predicate LoggedAs(log: seq<Accepted>, key: Octets, expiresAtMs: U64) {
    exists e <- log :: e.key == key && e.expiresAtMs == expiresAtMs
  }

  predicate AllLogged(run: Run) {
    && (forall key <- run.used :: LoggedAs(run.log, key, run.used[key]))
    && (forall e <- run.log :: e.expiresAtMs as int <= e.acceptedAtMs as int + FUTURE_SKEW_MS as int + MAX_LIFETIME_MS)
  }

  /** Every cache entry was accepted, with an expiry at most 40,000 ms later. */
  lemma {:induction false} EntriesWereAccepted(hostDeviceId: Octets, requests: seq<Request>)
    ensures AllLogged(RunOf(hostDeviceId, requests))
    decreases |requests|
  {
    if requests != [] {
      var before, next := RunOf(hostDeviceId, requests[..|requests| - 1]), requests[|requests| - 1];
      EntriesWereAccepted(hostDeviceId, requests[..|requests| - 1]);
      StepIsLogged(hostDeviceId, before, next.offer, next.context);
      hide AllLogged;
    }
    hide Verify;
  }

  lemma StepIsLogged(hostDeviceId: Octets, run: Run, offer: Offer, context: Context)
    requires AllLogged(run)
    ensures var (used, error) := Verify(hostDeviceId, run.used, offer, context);
            AllLogged(Run(used, run.log + if error.None? then [Accepted(NonceKey(offer), offer.expiresAtMs, context.nowMs)] else []))
  {
    EntriesComeFrom(hostDeviceId, run.used, offer, context);
    var (used, error) := Verify(hostDeviceId, run.used, offer, context);
    var entry := Accepted(NonceKey(offer), offer.expiresAtMs, context.nowMs);
    var more := if error.None? then [entry] else [];
    if error.None? {
      LifetimeIsBounded(hostDeviceId, Request(offer, context));
      assert entry in run.log + more;
    }
    forall key | key in used
      ensures LoggedAs(run.log + more, key, used[key])
    {
      if key in run.used && used[key] == run.used[key] {
        LoggedStays(run.log, more, key, used[key]);
      }
    }
    hide Verify;
    hide Precheck;
    hide NonceKey;
  }

  lemma LoggedStays(log: seq<Accepted>, more: seq<Accepted>, key: Octets, expiresAtMs: U64)
    requires LoggedAs(log, key, expiresAtMs)
    ensures LoggedAs(log + more, key, expiresAtMs)
  {
    var e :| e in log && e.key == key && e.expiresAtMs == expiresAtMs;
    assert e in log + more;
  }

  lemma EntriesComeFrom(hostDeviceId: Octets, used: Cache, offer: Offer, context: Context)
    ensures var (next, error) := Verify(hostDeviceId, used, offer, context);
            && (error.None? ==> Precheck(hostDeviceId, offer, context).None?)
            && forall key <- next ::
                 || (key in used && next[key] == used[key])
                 || (error.None? && key == NonceKey(offer) && next[key] == offer.expiresAtMs)
  {
    hide Precheck;
  }

  lemma LifetimeIsBounded(hostDeviceId: Octets, request: Request)
    requires ReachesCache(hostDeviceId, request)
    ensures request.offer.expiresAtMs as int <= request.context.nowMs as int + FUTURE_SKEW_MS as int + MAX_LIFETIME_MS
  {
  }

  /** More than 40,000 ms after the last acceptance, every entry of the cache is prunable, whatever the clock did. */
  lemma {:induction false} EverythingExpires(hostDeviceId: Octets, requests: seq<Request>, nowMs: U64)
    requires forall e <- RunOf(hostDeviceId, requests).log :: nowMs as int > e.acceptedAtMs as int + FUTURE_SKEW_MS as int + MAX_LIFETIME_MS
    ensures Prune(RunOf(hostDeviceId, requests).used, nowMs) == map[]
  {
    EntriesWereAccepted(hostDeviceId, requests);
    hide RunOf;
  }

  // ---- A repeat that is not caught ----

  function Filled(n: nat, b: Byte): Octets {
    seq(n, _ => b)
  }

  function SampleOffer(hostDeviceId: Octets, nonce: Byte, issuedAtMs: U64, expiresAtMs: U64): Offer {
    Offer(Filled(32, 1), hostDeviceId, Filled(16, 2), Filled(32, nonce), issuedAtMs, expiresAtMs, [VIEW_SCREEN],
          Filled(32, 3), Filled(32, 4), Filled(64, 5))
  }

  function SampleContext(nowMs: U64): Context {
    Context(Filled(32, 3), Filled(32, 4), Some(Grant([], [VIEW_SCREEN])), (key, message, signature) => true, nowMs)
  }

  lemma SampleIsAcceptable(hostDeviceId: Octets, nonce: Byte, issuedAtMs: U64, expiresAtMs: U64, nowMs: U64)
    requires |hostDeviceId| == DEVICE_ID_BYTES && CheckTime(SampleOffer(hostDeviceId, nonce, issuedAtMs, expiresAtMs), nowMs).None?
    ensures Precheck(hostDeviceId, SampleOffer(hostDeviceId, nonce, issuedAtMs, expiresAtMs), SampleContext(nowMs)).None?
  {
    FixedFieldsEncode(SampleOffer(hostDeviceId, nonce, issuedAtMs, expiresAtMs), NoExtra);
    hide EncodeSigned;
  }

  /**
   * An offer valid from 0 to 1,000 ms is accepted at 500, pruned by another offer at 2,500,
   * and accepted once more when the clock reads 500 again.
   */
  lemma ClockFallingBackExample(hostDeviceId: Octets)
    requires |hostDeviceId| == DEVICE_ID_BYTES
    ensures var offer, other := SampleOffer(hostDeviceId, 6, 0, 1_000), SampleOffer(hostDeviceId, 7, 2_000, 3_000);
            var requests := [Request(offer, SampleContext(500)), Request(other, SampleContext(2_500)), Request(offer, SampleContext(500))];
            && AcceptedAt(hostDeviceId, requests, 0) && AcceptedAt(hostDeviceId, requests, 2)
            && !Unpruned(hostDeviceId, requests, 0, 2)
  {
    var offer, other := SampleOffer(hostDeviceId, 6, 0, 1_000), SampleOffer(hostDeviceId, 7, 2_000, 3_000);
    var requests := [Request(offer, SampleContext(500)), Request(other, SampleContext(2_500)), Request(offer, SampleContext(500))];
    SampleIsAcceptable(hostDeviceId, 6, 0, 1_000, 500);
    SampleIsAcceptable(hostDeviceId, 7, 2_000, 3_000, 2_500);
    hide Precheck;
    assert requests[..0] == [] && Prune(map[], 500) == map[];
    assert AcceptedAt(hostDeviceId, requests, 0);
    assert NonceKey(other)[DEVICE_ID_BYTES] == 7 && NonceKey(offer)[DEVICE_ID_BYTES] == 6;
    assert NonceKey(requests[1].offer) != NonceKey(requests[0].offer);
    assert Untouched(hostDeviceId, requests, 0, 2);
    assert ReachesCache(hostDeviceId, requests[1]) && !Unpruned(hostDeviceId, requests, 0, 2);
    RepeatIsCaughtIffUnpruned(hostDeviceId, requests, 0, 2);
    AtMostOnePerRequest(hostDeviceId, requests[..2], 500);
    hide *;
  }

  /** A run of n offers leaves room as long as n is below the limit. */
  lemma {:induction false} AtMostOnePerRequest(hostDeviceId: Octets, requests: seq<Request>, nowMs: U64)
    ensures var used := RunOf(hostDeviceId, requests).used; |Prune(used, nowMs)| <= |used| <= |requests|
    decreases |requests|
  {
    var used := RunOf(hostDeviceId, requests).used;
    SubsetSize(Prune(used, nowMs).Keys, used.Keys);
    assert |Prune(used, nowMs)| == |Prune(used, nowMs).Keys| && |used| == |used.Keys|;
    if requests != [] {
      var last := requests[|requests| - 1];
      AtMostOnePerRequest(hostDeviceId, requests[..|requests| - 1], last.context.nowMs);
      var live := Prune(RunOf(hostDeviceId, requests[..|requests| - 1]).used, last.context.nowMs);
      assert live[NonceKey(last.offer) := last.offer.expiresAtMs].Keys == live.Keys + {NonceKey(last.offer)};
      assert |live| == |live.Keys|;
    }
    hide Precheck;
  }

  lemma SubsetSize<T>(a: set<T>, b: set<T>)
    requires a <= b
    ensures |a| <= |b|
  {
    assert b == a + (b - a);
  }
}
