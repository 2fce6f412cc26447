/** One Host peer session and the input it applies (crates/host-webrtc/src/session.rs). */
module HostSession {
  import opened Wrappers
  import opened Bytes
  import opened InputSink

  const MINIMUM_USB_HID_KEYBOARD_USAGE := 0x04
  const MAXIMUM_USB_HID_KEYBOARD_USAGE := 0xE7
  const MAXIMUM_MODIFIER_BITS := 0xFF
  const MAXIMUM_POINTER_BUTTON_BITS := 0x07
  const MAXIMUM_SCROLL_DELTA := 10_000
  const MAXIMUM_TEXT_INPUT_BYTES := 1024
  const MAXIMUM_SDP_BYTES := 131_072
  const FINGERPRINT_BYTES := 32

  datatype State = New | Negotiating | Connected | Reconnecting | Closing | Closed

  datatype PeerAnswer = PeerAnswer(sdpBytes: nat, fingerprintBytes: nat)

  datatype PeerCall = Negotiated(answer: Option<PeerAnswer>) | CandidateAdded(taken: bool) | PeerClosed(done: bool)

  /** Native WebRTC: every call may succeed or fail, and an answer may be malformed.  `calls` is all it was asked, with the outcome. */
  class PeerBackend {
    var closes: nat
    ghost var calls: seq<PeerCall>

    constructor ()
      ensures closes == 0 && calls == []
    {
      closes, calls := 0, [];
    }

    method Negotiate() returns (r: Option<PeerAnswer>)
      modifies this`calls
      ensures calls == old(calls) + [Negotiated(r)]
    {
      r := *;
      calls := calls + [Negotiated(r)];
    }

    method AddCandidate() returns (ok: bool)
      modifies this`calls
      ensures calls == old(calls) + [CandidateAdded(ok)]
    {
      ok := *;
      calls := calls + [CandidateAdded(ok)];
    }

    method Close() returns (ok: bool)
      modifies this
      ensures closes == old(closes) + 1 && calls == old(calls) + [PeerClosed(ok)]
    {
      closes := closes + 1;
      ok := *;
      calls := calls + [PeerClosed(ok)];
    }
  }

  /** An action code the schema does not know decodes to `None`. */
  datatype ReliableEvent =
    | Keyboard(action: Option<KeyboardAction>, usage: U32, modifierBits: U32)
    | PointerButton(button: Option<InputSink.PointerButton>, buttonAction: Option<ButtonAction>, x: int, y: int)
    | Text(utf8Bytes: nat)
    | ReleaseAllInput
    | SessionControl(ends: bool)

  datatype FastEvent = Move(x: int, y: int, pressedButtonBits: U32) | Scroll(deltaX: int, deltaY: int)

  datatype Envelope<T> = Envelope(sessionId: Octets, sequence: U64, event: Option<T>)

  datatype PointerDisposition = Applied | DroppedStale

  predicate WellFormed(answer: PeerAnswer) {
    0 < answer.sdpBytes <= MAXIMUM_SDP_BYTES && answer.fingerprintBytes == FINGERPRINT_BYTES
  }

  /** `validate_keyboard`, after the action code was recognised. */
  function CheckKeyboard(usage: U32, modifierBits: U32): Option<HostError> {
    if !(MINIMUM_USB_HID_KEYBOARD_USAGE <= usage <= MAXIMUM_USB_HID_KEYBOARD_USAGE) then Some(InvalidKeyboardUsage)
    else if modifierBits > MAXIMUM_MODIFIER_BITS then Some(InvalidModifierBits)
    else None
  }

  function CheckFast(event: FastEvent): Option<HostError> {
    match event
    case Move(x, y, bits) =>
      if !Normalized(x, y) then Some(InvalidCoordinates)
      else if bits > MAXIMUM_POINTER_BUTTON_BITS then Some(InvalidPointerButtons)
      else None
    case Scroll(dx, dy) =>
      if -MAXIMUM_SCROLL_DELTA <= dx <= MAXIMUM_SCROLL_DELTA && -MAXIMUM_SCROLL_DELTA <= dy <= MAXIMUM_SCROLL_DELTA then None
      else Some(InvalidScrollDelta)
  }

  /** What a reliable event fails with before any of it is applied. */
  function CheckReliable(event: ReliableEvent, keys: set<U32>, buttons: set<InputSink.PointerButton>): Option<HostError> {
    match event
    case Keyboard(action, usage, bits) =>
      if action.None? then Some(InvalidInputEnvelope)
      else if CheckKeyboard(usage, bits).Some? then CheckKeyboard(usage, bits)
      else if action.value.UnspecifiedKeyAction? then Some(InvalidInputEnvelope)
      else if action.value.KeyDown? && usage in keys then Some(PressedInputState)
      else None
    case PointerButton(button, action, x, y) =>
      if !Normalized(x, y) then Some(InvalidCoordinates)
      else if button.None? || action.None? || action.value.UnspecifiedButtonAction? then Some(InvalidInputEnvelope)
      else if action.value.ButtonDown? && button.value in buttons then Some(PressedInputState)
      else None
    case Text(bytes) => if 0 < bytes <= MAXIMUM_TEXT_INPUT_BYTES then None else Some(InvalidInputEnvelope)
    case ReleaseAllInput => None
    case SessionControl(ends) => if ends then None else Some(InvalidInputEnvelope)
  }

  /** The session's own record of pressed keys once an accepted event was applied. */
  function KeysAfter(keys: set<U32>, event: ReliableEvent): set<U32> {
    match event
    case Keyboard(Some(KeyDown), usage, _) => keys + {usage}
    case Keyboard(Some(KeyUp), usage, _) => keys - {usage}
    case ReleaseAllInput => {}
    case SessionControl(true) => {}
    case _ => keys
  }

  function ButtonsAfter(buttons: set<InputSink.PointerButton>, event: ReliableEvent): set<InputSink.PointerButton> {
    match event
    case PointerButton(Some(button), Some(ButtonDown), _, _) => buttons + {button}
    case PointerButton(Some(button), Some(ButtonUp), _, _) => buttons - {button}
    case ReleaseAllInput => {}
    case SessionControl(true) => {}
    case _ => buttons
  }

  /** The keys the sink remembers once an accepted event was applied without failure. */
  function SinkKeysAfter(sinkKeys: set<U32>, keys: set<U32>, event: ReliableEvent): set<U32> {
    match event
    case Keyboard(Some(KeyDown), usage, bits) => Moved(Reconciled(sinkKeys, bits, usage, MODIFIER_COUNT), usage, Press)
    case Keyboard(Some(KeyUp), usage, bits) =>
      if usage in keys then Moved(Reconciled(sinkKeys, bits, usage, MODIFIER_COUNT), usage, Release) else sinkKeys
    case ReleaseAllInput => {}
    case _ => sinkKeys
  }

  function SinkButtonsAfter(sinkButtons: set<NativeButton>, buttons: set<InputSink.PointerButton>, event: ReliableEvent): set<NativeButton> {
    match event
    case PointerButton(Some(button), Some(ButtonDown), _, _) => if Native(button).Ok? then sinkButtons + {Native(button).value} else sinkButtons
    case PointerButton(Some(button), Some(ButtonUp), _, _) =>
      if button in buttons && Native(button).Ok? then sinkButtons - {Native(button).value} else sinkButtons
    case ReleaseAllInput => {}
    case _ => sinkButtons
  }

  // ---- What the checks mean ----

  /** A keyboard usage and modifiers as the protocol has them. */
  predicate GoodKey(usage: U32, modifierBits: U32) {
    0x04 <= usage <= 0xE7 && modifierBits <= 0xFF
  }

  predicate GoodPoint(x: int, y: int) {
    0 <= x <= 10_000 && 0 <= y <= 10_000
  }

  /** A reliable event makes sense, given what the session already holds pressed. */
  predicate Sensible(event: ReliableEvent, keys: set<U32>, buttons: set<InputSink.PointerButton>) {
    match event
    case Keyboard(action, usage, bits) =>
      GoodKey(usage, bits) && (action == Some(KeyUp) || (action == Some(KeyDown) && usage !in keys))
    case PointerButton(button, action, x, y) =>
      && GoodPoint(x, y) && button.Some? && action.Some? && action.value != UnspecifiedButtonAction
      && (action == Some(ButtonDown) ==> button.value !in buttons)
    case Text(bytes) => 1 <= bytes <= 1024
    case ReleaseAllInput => true
    case SessionControl(ends) => ends
  }

  /** The checks pass exactly on sensible events, and each refusal is for its one reason. */
  lemma SensibleIff(event: ReliableEvent, keys: set<U32>, buttons: set<InputSink.PointerButton>)
    ensures var error := CheckReliable(event, keys, buttons);
            && (error.None? <==> Sensible(event, keys, buttons))
            && (error == Some(InvalidKeyboardUsage) ==> event.Keyboard? && !(0x04 <= event.usage <= 0xE7))
            && (error == Some(InvalidModifierBits) ==> event.Keyboard? && event.modifierBits > 0xFF)
            && (error == Some(InvalidCoordinates) <==> event.PointerButton? && !GoodPoint(event.x, event.y))
            && (error == Some(PressedInputState) ==>
                  || (event.Keyboard? && event.action == Some(KeyDown) && event.usage in keys)
                  || (event.PointerButton? && event.buttonAction == Some(ButtonDown) && event.button.Some? && event.button.value in buttons))
            && (error.Some? ==> error.value in {InvalidKeyboardUsage, InvalidModifierBits, InvalidCoordinates, PressedInputState, InvalidInputEnvelope})
  {
  }

  lemma FastIff(event: FastEvent)
    ensures CheckFast(event).None? <==>
            match event
            case Move(x, y, bits) => GoodPoint(x, y) && bits <= 7
            case Scroll(dx, dy) => -10_000 <= dx <= 10_000 && -10_000 <= dy <= 10_000
    ensures CheckFast(event) == Some(InvalidCoordinates) <==> event.Move? && !GoodPoint(event.x, event.y)
    ensures CheckFast(event).Some? ==> CheckFast(event).value in {InvalidCoordinates, InvalidPointerButtons, InvalidScrollDelta}
  {
  }

  predicate PressesKey(event: ReliableEvent, usage: U32) {
    event.Keyboard? && event.action == Some(KeyDown) && event.usage == usage
  }

  predicate EndsKey(event: ReliableEvent, usage: U32) {
    (event.Keyboard? && event.action == Some(KeyUp) && event.usage == usage) || event.ReleaseAllInput? || event == SessionControl(true)
  }

  predicate PressesButton(event: ReliableEvent, button: InputSink.PointerButton) {
    event.PointerButton? && event.buttonAction == Some(ButtonDown) && event.button == Some(button)
  }

  predicate EndsButton(event: ReliableEvent, button: InputSink.PointerButton) {
    || (event.PointerButton? && event.buttonAction == Some(ButtonUp) && event.button == Some(button))
    || event.ReleaseAllInput? || event == SessionControl(true)
  }

  /** The session holds exactly what was pressed and has not been let go since. */
  lemma HeldAfter(keys: set<U32>, buttons: set<InputSink.PointerButton>, event: ReliableEvent, usage: U32, button: InputSink.PointerButton)
    ensures usage in KeysAfter(keys, event) <==> PressesKey(event, usage) || (usage in keys && !EndsKey(event, usage))
    ensures button in ButtonsAfter(buttons, event) <==> PressesButton(event, button) || (button in buttons && !EndsButton(event, button))
  {
  }

  /**
   * So does the sink, for events that are sensible: a key that is no modifier and a button
   * that exists follow the session's, and a modifier follows the bits sent with a key.
   */
  lemma SinkFollows(sinkKeys: set<U32>, keys: set<U32>, sinkButtons: set<NativeButton>, buttons: set<InputSink.PointerButton>,
                    event: ReliableEvent, usage: U32, button: InputSink.PointerButton)
    requires !event.SessionControl? && usage < FIRST_MODIFIER_USAGE && button != UnspecifiedButton
    requires usage in sinkKeys <==> usage in keys
    requires Native(button).value in sinkButtons <==> button in buttons
    ensures usage in SinkKeysAfter(sinkKeys, keys, event) <==> usage in KeysAfter(keys, event)
    ensures Native(button).value in SinkButtonsAfter(sinkButtons, buttons, event) <==> button in ButtonsAfter(buttons, event)
  {
    if event.Keyboard? {
      ReconciledExactly(sinkKeys, event.modifierBits, event.usage, MODIFIER_COUNT, usage);
    }
    hide Reconciled;
    hide Bit;
  }

  /** Letting go of what the session does not hold moves nothing. */
  lemma StrayReleaseIsIgnored(sinkKeys: set<U32>, keys: set<U32>, sinkButtons: set<NativeButton>, buttons: set<InputSink.PointerButton>, event: ReliableEvent)
    ensures event.Keyboard? && event.action == Some(KeyUp) && event.usage !in keys ==> SinkKeysAfter(sinkKeys, keys, event) == sinkKeys
    ensures event.PointerButton? && event.buttonAction == Some(ButtonUp) && event.button.Some? && event.button.value !in buttons ==>
              SinkButtonsAfter(sinkButtons, buttons, event) == sinkButtons
  {
  }

  /** A modifier that is not itself the key sent ends up as its bit says. */
  lemma ModifiersFollow(sinkKeys: set<U32>, keys: set<U32>, event: ReliableEvent, i: nat)
    requires i < MODIFIER_COUNT && event.Keyboard? && event.usage as int != 0xE0 + i
    requires event.action == Some(KeyDown) || (event.action == Some(KeyUp) && event.usage in keys)
    ensures 0xE0 + i in SinkKeysAfter(sinkKeys, keys, event) <==> Bit(event.modifierBits, i)
  {
    ReconciledExactly(sinkKeys, event.modifierBits, event.usage, MODIFIER_COUNT, 0xE0 + i);
    hide Reconciled;
    hide Bit;
  }

  class HostPeerSession {
    const sessionId: Octets
    const inputAllowed: bool
    const peer: PeerBackend
    const input: PlatformInputSink
    var state: State
    var lastReliableSequence: U64
    var lastPointerSequence: U64
    var pressedKeys: set<U32>
    var pressedButtons: set<InputSink.PointerButton>
    var inputCleanupPending: bool

    ghost predicate NothingRemembered()
      reads input
    {
      input.pressedKeys == {} && input.pressedButtons == {}
    }

    /**
     * No stuck input: anything that may still be held is remembered by the sink, and the
     * sink remembers nothing unless the session is connected or a cleanup is still owed.
     * The peer has been closed once if the session is closed, and not at all otherwise.
     */
    ghost predicate Valid()
      reads this, peer, input, input.backend
    {
      && input.Valid()
      && !state.Closing?
      && (!state.Connected? && !inputCleanupPending ==> NothingRemembered())
      && (!inputAllowed ==> NothingRemembered())
      && (!state.Connected? ==> pressedKeys == {} && pressedButtons == {})
      && peer.closes == if state.Closed? then 1 else 0
    }

    /** Permissions and session id are already validated; the sink is the session's own and new. */
    constructor (sessionId: Octets, inputAllowed: bool, peer: PeerBackend, input: PlatformInputSink)
      requires peer.closes == 0 && input.Valid() && input.pressedKeys == {} && input.pressedButtons == {}
      ensures Valid() && state == New && this.peer == peer && this.input == input && this.inputAllowed == inputAllowed
      ensures this.sessionId == sessionId && lastReliableSequence == 0 && lastPointerSequence == 0 && !inputCleanupPending
    {
      this.sessionId, this.inputAllowed, this.peer, this.input := sessionId, inputAllowed, peer, input;
      state, lastReliableSequence, lastPointerSequence := New, 0, 0;
      pressedKeys, pressedButtons, inputCleanupPending := {}, {}, false;
    }

    /** Nothing is physically held unless connected or awaiting a cleanup, and never without permission. */
    lemma HeldMeansConnectedOrPending()
      requires Valid()
      ensures input.backend.heldKeys != {} || input.backend.heldButtons != {} ==> inputAllowed && (state.Connected? || inputCleanupPending)
    {
    }

    method ReleaseAll() returns (r: Outcome)
      requires input.Valid()
      modifies this`inputCleanupPending, this`pressedKeys, this`pressedButtons, input, input.backend
      ensures input.Valid() && r in {None, Some(InputFailure)}
      ensures inputCleanupPending == r.Some? && pressedKeys == {} && pressedButtons == {}
      ensures r.None? <==> NothingRemembered()
      ensures old(input.backend.log) <= input.backend.log
      ensures input.pressedKeys <= old(input.pressedKeys) && input.pressedButtons <= old(input.pressedButtons)
    {
      r := input.ReleaseAll();
      inputCleanupPending := r.Some?;
      pressedKeys, pressedButtons := {}, {};
    }

    /** Closing attempts everything once; a later close retries only the releases still owed. */
    method Close() returns (r: Outcome)
      requires Valid()
      modifies this`state, this`inputCleanupPending, this`pressedKeys, this`pressedButtons, input, input.backend, peer
      ensures Valid() && state == Closed && r in {None, Some(InputFailure), Some(PeerFailure)}
      ensures r.None? || r == Some(PeerFailure) ==> !inputCleanupPending && input.backend.heldKeys == {} && input.backend.heldButtons == {}
      ensures r == Some(InputFailure) ==> inputCleanupPending
      ensures old(state).Closed? ==> r != Some(PeerFailure) && (!old(inputCleanupPending) ==> r.None?)
      ensures !old(state).Closed? ==>
                && |peer.calls| == |old(peer.calls)| + 1 && old(peer.calls) <= peer.calls && peer.calls[|old(peer.calls)|].PeerClosed?
                && (r.None? ==> peer.calls[|old(peer.calls)|].done) && (r == Some(PeerFailure) ==> !peer.calls[|old(peer.calls)|].done)
      ensures r == Some(InputFailure) <==> inputCleanupPending
      ensures old(input.backend.log) <= input.backend.log
    {
      if state == Closed {
        if inputCleanupPending {
          r := ReleaseAll();
        } else {
          r := None;
        }
        return;
      }
      state := Closing;
      var released := ReleaseAll();
      var closed := peer.Close();
      state := Closed;
      r := if released.Some? then released else if closed then None else Some(PeerFailure);
    }

    /** The peer was asked for an answer, and a well-formed one is returned. */
    ghost predicate FollowsAnswer(before: seq<PeerCall>, r: Result<PeerAnswer, HostError>)
      reads peer
    {
      && |before| < |peer.calls| && before <= peer.calls && peer.calls[|before|].Negotiated?
      && var answer := peer.calls[|before|].answer;
         r == if answer.None? then Err(PeerFailure)
              else if 0 < answer.value.sdpBytes <= 131_072 && answer.value.fingerprintBytes == 32 then Ok(answer.value)
              else Err(InvalidAnswer)
    }

    method AcceptOffer(sdpBytes: nat) returns (r: Result<PeerAnswer, HostError>)
      requires Valid()
      modifies this`state, this`inputCleanupPending, this`pressedKeys, this`pressedButtons, input, input.backend, peer
      ensures Valid()
      ensures !old(state).New? ==> r == Err(InvalidState) && state == old(state)
      ensures old(state).New? && !(0 < sdpBytes <= MAXIMUM_SDP_BYTES) ==> r == Err(InvalidSdp) && state == New
      ensures old(state).New? && 0 < sdpBytes <= MAXIMUM_SDP_BYTES ==>
                (r.Ok? && WellFormed(r.value) && state == Negotiating) || (r.Err? && r.error in {PeerFailure, InvalidAnswer} && state == Closed)
      ensures old(state).New? && 0 < sdpBytes <= MAXIMUM_SDP_BYTES ==> FollowsAnswer(old(peer.calls), r)
    {
      if state != New {
        return Err(InvalidState);
      }
      if sdpBytes == 0 || sdpBytes > MAXIMUM_SDP_BYTES {
        return Err(InvalidSdp);
      }
      var answer := peer.Negotiate();
      if answer.None? {
        var _ := Close();
        return Err(PeerFailure);
      }
      if !WellFormed(answer.value) {
        var _ := Close();
        return Err(InvalidAnswer);
      }
      state := Negotiating;
      r := Ok(answer.value);
    }

    method MarkConnected() returns (r: Outcome)
      requires Valid()
      modifies this`state
      ensures Valid()
      ensures r.None? <==> old(state) in {Negotiating, Connected, Reconnecting}
      ensures if r.None? then state == Connected else r == Some(InvalidState) && state == old(state)
    {
      if state !in {Negotiating, Connected, Reconnecting} {
        return Some(InvalidState);
      }
      state := Connected;
      r := None;
    }

    method BeginReconnect() returns (r: Outcome)
      requires Valid()
      modifies this`state, this`inputCleanupPending, this`pressedKeys, this`pressedButtons, input, input.backend
      ensures Valid()
      ensures old(state) !in {Connected, Negotiating, Reconnecting} ==> r == Some(InvalidState)
      ensures old(state) in {Connected, Negotiating, Reconnecting} ==> r in {None, Some(InputFailure)}
      ensures r.None? ==> state == Reconnecting
      ensures r.None? && !old(state).Reconnecting? ==> input.backend.heldKeys == {} && input.backend.heldButtons == {}
      ensures input.pressedKeys <= old(input.pressedKeys) && input.pressedButtons <= old(input.pressedButtons)
      ensures r.Some? ==> state == old(state)
      ensures r == Some(InputFailure) ==> inputCleanupPending && !NothingRemembered()
    {
      if state == Reconnecting {
        return None;
      }
      if state !in {Connected, Negotiating} {
        return Some(InvalidState);
      }
      r := ReleaseAll();
      if r.None? {
        state := Reconnecting;
      }
    }

    method AcceptReconnectOffer(sdpBytes: nat) returns (r: Result<PeerAnswer, HostError>)
      requires Valid()
      modifies this`state, peer`calls
      ensures Valid()
      ensures old(state) in {Reconnecting, Negotiating} && 0 < sdpBytes <= MAXIMUM_SDP_BYTES ==> FollowsAnswer(old(peer.calls), r) && |peer.calls| == |old(peer.calls)| + 1
      ensures old(state) !in {Reconnecting, Negotiating} ==> r == Err(InvalidState) && state == old(state)
      ensures old(state) in {Reconnecting, Negotiating} && !(0 < sdpBytes <= MAXIMUM_SDP_BYTES) ==> r == Err(InvalidSdp) && state == old(state)
      ensures old(state) in {Reconnecting, Negotiating} && 0 < sdpBytes <= MAXIMUM_SDP_BYTES ==>
                (r.Ok? && WellFormed(r.value) && state == Negotiating) || (r.Err? && r.error in {PeerFailure, InvalidAnswer} && state == Reconnecting)
    {
      if state !in {Reconnecting, Negotiating} {
        return Err(InvalidState);
      }
      if sdpBytes == 0 || sdpBytes > MAXIMUM_SDP_BYTES {
        return Err(InvalidSdp);
      }
      state := Reconnecting;
      var answer := peer.Negotiate();
      if answer.None? {
        return Err(PeerFailure);
      }
      if !WellFormed(answer.value) {
        return Err(InvalidAnswer);
      }
      state := Negotiating;
      r := Ok(answer.value);
    }

    method AddRemoteIceCandidate() returns (r: Outcome)
      modifies peer`calls
      ensures state !in {Negotiating, Connected} ==> r == Some(InvalidState) && peer.calls == old(peer.calls)
      ensures state in {Negotiating, Connected} ==> r in {None, Some(PeerFailure)} && peer.calls == old(peer.calls) + [CandidateAdded(r.None?)]
    {
      if state !in {Negotiating, Connected} {
        return Some(InvalidState);
      }
      var ok := peer.AddCandidate();
      r := if ok then None else Some(PeerFailure);
    }

    function InputReady(): Outcome
      reads this
    {
      if !state.Connected? then Some(InvalidState)
      else if !inputAllowed then Some(InputPermissionDenied)
      else None
    }

    /** Why a reliable envelope is refused untouched, if it is; `None` stands for bytes that do not decode. */
    function RefusesReliable(envelope: Option<Envelope<ReliableEvent>>): Outcome
      reads this
    {
      if InputReady().Some? then InputReady()
      else if envelope.None? then Some(InvalidInputEnvelope)
      else if envelope.value.sessionId != sessionId then Some(SessionMismatch)
      else if envelope.value.sequence != SaturatingAdd(lastReliableSequence, 1) then Some(ReliableSequence)
      else if envelope.value.event.None? then Some(InvalidInputEnvelope)
      else CheckReliable(envelope.value.event.value, pressedKeys, pressedButtons)
    }

    /** An envelope is applied exactly when input is allowed, the session connected, and it is this session's next sensible event. */
    lemma AppliesIff(envelope: Option<Envelope<ReliableEvent>>)
      ensures RefusesReliable(envelope).None? <==>
              && inputAllowed && state.Connected? && envelope.Some? && envelope.value.sessionId == sessionId
              && (envelope.value.sequence as int == lastReliableSequence as int + 1
                  || envelope.value.sequence == lastReliableSequence == U64_MAX)
              && envelope.value.event.Some? && Sensible(envelope.value.event.value, pressedKeys, pressedButtons)
      ensures RefusesReliable(envelope) == Some(InvalidState) <==> !state.Connected?
      ensures RefusesReliable(envelope) == Some(InputPermissionDenied) <==> state.Connected? && !inputAllowed
      ensures RefusesReliable(envelope) == Some(SessionMismatch) <==>
              state.Connected? && inputAllowed && envelope.Some? && envelope.value.sessionId != sessionId
    {
      if envelope.Some? && envelope.value.event.Some? {
        SensibleIff(envelope.value.event.value, pressedKeys, pressedButtons);
      }
      hide CheckReliable;
      hide Sensible;
    }

    lemma FastAppliesIff(envelope: Option<Envelope<FastEvent>>)
      ensures RefusesFast(envelope).None? <==> inputAllowed && state.Connected? && envelope.Some? && envelope.value.sessionId == sessionId
      ensures RefusesFast(envelope) == Some(InputPermissionDenied) <==> state.Connected? && !inputAllowed
    {
    }

    /** The native calls an accepted event makes when all of them succeed. */
    function Turns(event: ReliableEvent): seq<Injection>
      requires CheckReliable(event, pressedKeys, pressedButtons).None? && 0 < input.displayWidth && 0 < input.displayHeight
      reads this, input
    {
      match event
      case Keyboard(Some(action), usage, bits) =>
        if action.KeyUp? && usage !in pressedKeys then []
        else
          var direction := if action.KeyDown? then Press else Release;
          ModifierTurns(input.pressedKeys, bits, usage, MODIFIER_COUNT)
          + KeyTurns(Reconciled(input.pressedKeys, bits, usage, MODIFIER_COUNT), usage, direction, true)
      case PointerButton(Some(button), Some(action), x, y) =>
        if (action.ButtonUp? && button !in pressedButtons) || Native(button).Err? then []
        else [PointerTo(Scale(x, input.displayWidth), Scale(y, input.displayHeight), true)]
             + ActionTurns(input.pressedButtons, Native(button).value, action)
      case Text(_) => [OtherGesture(true)]
      case _ => []
    }

    /** An event the sink cannot carry out at all: an unspecified button, or a click on one that is down. */
    predicate Unplayable(event: ReliableEvent)
      reads input
    {
      && event.PointerButton? && event.button.Some? && event.buttonAction.Some?
      && (|| Native(event.button.value).Err?
          || ((event.buttonAction.value.Click? || event.buttonAction.value.DoubleClick?)
              && Native(event.button.value).value in input.pressedButtons))
    }

    /** Some native call since `before` failed. */
    predicate Failed(before: seq<Injection>, after: seq<Injection>) {
      exists i | |before| <= i < |after| :: !after[i].ok
    }

    /** Only in-order envelopes are applied; an injection failure closes the session. */
    method HandleReliable(envelope: Option<Envelope<ReliableEvent>>) returns (r: Outcome)
      requires Valid()
      modifies this`state, this`lastReliableSequence, this`inputCleanupPending, this`pressedKeys, this`pressedButtons, input, input.backend, peer
      ensures Valid()
      ensures old(RefusesReliable(envelope)).Some? ==>
                && r == old(RefusesReliable(envelope))
                && state == old(state) && lastReliableSequence == old(lastReliableSequence)
                && pressedKeys == old(pressedKeys) && pressedButtons == old(pressedButtons)
                && input.backend.heldKeys == old(input.backend.heldKeys) && input.backend.heldButtons == old(input.backend.heldButtons)
      ensures old(RefusesReliable(envelope)).None? ==>
                var event := envelope.value.event.value;
                && r in {None, Some(InputFailure), Some(PeerFailure)}
                && (r.Some? ==> state.Closed?) && (state.Connected? || state.Closed?)
                && (r.None? ==> lastReliableSequence == envelope.value.sequence && state.Closed? == event.SessionControl?)
                && (r.None? ==> pressedKeys == KeysAfter(old(pressedKeys), event) && pressedButtons == ButtonsAfter(old(pressedButtons), event))
                && (r == Some(PeerFailure) ==> event.SessionControl?)
                && (r.None? && !event.SessionControl? && !event.ReleaseAllInput? ==>
                      input.backend.log == old(input.backend.log) + old(Turns(event)))
                && (r == Some(InputFailure) && !event.SessionControl? && !event.ReleaseAllInput? && !old(Unplayable(event)) ==>
                      Failed(old(input.backend.log), input.backend.log))
                && (r.None? && !event.SessionControl? ==>
                      && input.pressedKeys == SinkKeysAfter(old(input.pressedKeys), old(pressedKeys), event)
                      && input.pressedButtons == SinkButtonsAfter(old(input.pressedButtons), old(pressedButtons), event))
    {
      r := InputReady();
      if r.Some? {
        return;
      }
      if envelope.None? {
        return Some(InvalidInputEnvelope);
      }
      if envelope.value.sessionId != sessionId {
        return Some(SessionMismatch);
      }
      if envelope.value.sequence != SaturatingAdd(lastReliableSequence, 1) {
        return Some(ReliableSequence);
      }
      if envelope.value.event.None? {
        return Some(InvalidInputEnvelope);
      }
      var shouldClose;
      r, shouldClose := ApplyReliableEvent(envelope.value.event.value);
      if r == Some(InputFailure) {
        ghost var turns := input.backend.log;
        var _ := Close();
        assert turns != [] ==> input.backend.log[|turns| - 1] == turns[|turns| - 1];
        return;
      }
      if r.Some? {
        return;
      }
      lastReliableSequence := envelope.value.sequence;
      if shouldClose {
        r := Close();
      }
    }

    method ApplyKeyboard(action: Option<KeyboardAction>, usage: U32, bits: U32) returns (r: Outcome)
      requires Valid() && InputReady().None?
      modifies this`inputCleanupPending, this`pressedKeys, this`pressedButtons, input, input.backend
      ensures Valid() && state == old(state)
      ensures var event := Keyboard(action, usage, bits);
              && (old(CheckReliable(event, pressedKeys, pressedButtons)).Some? ==>
                    && r == old(CheckReliable(event, pressedKeys, pressedButtons))
                    && pressedKeys == old(pressedKeys) && pressedButtons == old(pressedButtons) && input.backend.log == old(input.backend.log)
                    && input.backend.heldKeys == old(input.backend.heldKeys) && input.backend.heldButtons == old(input.backend.heldButtons))
              && (old(CheckReliable(event, pressedKeys, pressedButtons)).None? ==>
                    && r in {None, Some(InputFailure)}
                    && (r.None? ==> input.backend.log == old(input.backend.log) + old(Turns(event)))
                    && (r.Some? && !old(Unplayable(event)) ==> EndedInFailure(input.backend.log, |old(input.backend.log)|))
                    && (r.None? ==>
                          && pressedKeys == KeysAfter(old(pressedKeys), event) && pressedButtons == ButtonsAfter(old(pressedButtons), event)
                          && input.pressedKeys == SinkKeysAfter(old(input.pressedKeys), old(pressedKeys), event)
                          && input.pressedButtons == SinkButtonsAfter(old(input.pressedButtons), old(pressedButtons), event)))
    {
      if action.None? {
        return Some(InvalidInputEnvelope);
      }
      r := CheckKeyboard(usage, bits);
      if r.Some? {
        return;
      }
      match action.value {
        case KeyDown =>
          if usage in pressedKeys {
            return Some(PressedInputState);
          }
          pressedKeys := pressedKeys + {usage};
          r := input.Keyboard(KeyDown, usage, bits);
        case KeyUp =>
          if usage in pressedKeys {
            pressedKeys := pressedKeys - {usage};
            r := input.Keyboard(KeyUp, usage, bits);
          } else {
            r := None;
          }
        case UnspecifiedKeyAction => r := Some(InvalidInputEnvelope);
      }
    }

    method ApplyPointerButton(button: Option<InputSink.PointerButton>, action: Option<ButtonAction>, x: int, y: int) returns (r: Outcome)
      requires Valid() && InputReady().None?
      modifies this`inputCleanupPending, this`pressedKeys, this`pressedButtons, input, input.backend
      ensures Valid() && state == old(state)
      ensures var event := ReliableEvent.PointerButton(button, action, x, y);
              && (old(CheckReliable(event, pressedKeys, pressedButtons)).Some? ==>
                    && r == old(CheckReliable(event, pressedKeys, pressedButtons))
                    && pressedKeys == old(pressedKeys) && pressedButtons == old(pressedButtons) && input.backend.log == old(input.backend.log)
                    && input.backend.heldKeys == old(input.backend.heldKeys) && input.backend.heldButtons == old(input.backend.heldButtons))
              && (old(CheckReliable(event, pressedKeys, pressedButtons)).None? ==>
                    && r in {None, Some(InputFailure)}
                    && (r.None? ==> input.backend.log == old(input.backend.log) + old(Turns(event)))
                    && (r.Some? && !old(Unplayable(event)) ==> EndedInFailure(input.backend.log, |old(input.backend.log)|))
                    && (r.None? ==>
                          && pressedKeys == KeysAfter(old(pressedKeys), event) && pressedButtons == ButtonsAfter(old(pressedButtons), event)
                          && input.pressedKeys == SinkKeysAfter(old(input.pressedKeys), old(pressedKeys), event)
                          && input.pressedButtons == SinkButtonsAfter(old(input.pressedButtons), old(pressedButtons), event)))
    {
      if !Normalized(x, y) {
        return Some(InvalidCoordinates);
      }
      if button.None? || action.None? {
        return Some(InvalidInputEnvelope);
      }
      match action.value {
        case ButtonDown =>
          if button.value in pressedButtons {
            return Some(PressedInputState);
          }
          pressedButtons := pressedButtons + {button.value};
          r := input.PointerButton(button.value, ButtonDown, x, y);
        case ButtonUp =>
          if button.value in pressedButtons {
            pressedButtons := pressedButtons - {button.value};
            r := input.PointerButton(button.value, ButtonUp, x, y);
          } else {
            r := None;
          }
        case Click => r := input.PointerButton(button.value, Click, x, y);
        case DoubleClick => r := input.PointerButton(button.value, DoubleClick, x, y);
        case UnspecifiedButtonAction => r := Some(InvalidInputEnvelope);
      }
    }

    method ApplyReliableEvent(event: ReliableEvent) returns (r: Outcome, shouldClose: bool)
      requires Valid() && InputReady().None?
      modifies this`inputCleanupPending, this`pressedKeys, this`pressedButtons, input, input.backend
      ensures input.Valid() && state == old(state)
      ensures Valid()
      ensures old(CheckReliable(event, pressedKeys, pressedButtons)).Some? ==>
                && r == old(CheckReliable(event, pressedKeys, pressedButtons))
                && pressedKeys == old(pressedKeys) && pressedButtons == old(pressedButtons)
                && input.backend.heldKeys == old(input.backend.heldKeys) && input.backend.heldButtons == old(input.backend.heldButtons)
      ensures old(CheckReliable(event, pressedKeys, pressedButtons)).None? ==>
                && r in {None, Some(InputFailure)}
                && shouldClose == event.SessionControl?
                && (r.None? && !shouldClose && !event.ReleaseAllInput? ==> input.backend.log == old(input.backend.log) + old(Turns(event)))
                && (r.Some? && !event.ReleaseAllInput? && !old(Unplayable(event)) ==> EndedInFailure(input.backend.log, |old(input.backend.log)|))
                && (r.Some? && event.ReleaseAllInput? ==> !NothingRemembered())
                && (r.None? && !shouldClose ==>
                      && pressedKeys == KeysAfter(old(pressedKeys), event) && pressedButtons == ButtonsAfter(old(pressedButtons), event)
                      && input.pressedKeys == SinkKeysAfter(old(input.pressedKeys), old(pressedKeys), event)
                      && input.pressedButtons == SinkButtonsAfter(old(input.pressedButtons), old(pressedButtons), event))
    {
      shouldClose := false;
      match event
      case Keyboard(action, usage, bits) => r := ApplyKeyboard(action, usage, bits);
      case PointerButton(button, action, x, y) => r := ApplyPointerButton(button, action, x, y);
      case Text(bytes) =>
        if bytes == 0 || bytes > MAXIMUM_TEXT_INPUT_BYTES {
          return Some(InvalidInputEnvelope), false;
        }
        r := input.Gesture();
      case ReleaseAllInput => r := ReleaseAll();
      case SessionControl(ends) =>
        r := if ends then None else Some(InvalidInputEnvelope);
        shouldClose := ends;
    }

    /** Why a pointer-fast envelope is refused untouched, if it is; a stale one is dropped instead. */
    function RefusesFast(envelope: Option<Envelope<FastEvent>>): Outcome
      reads this
    {
      if InputReady().Some? then InputReady()
      else if envelope.None? then Some(InvalidInputEnvelope)
      else if envelope.value.sessionId != sessionId then Some(SessionMismatch)
      else None
    }

    method HandlePointerFast(envelope: Option<Envelope<FastEvent>>) returns (r: Result<PointerDisposition, HostError>)
      requires Valid()
      modifies this`state, this`lastPointerSequence, this`inputCleanupPending, this`pressedKeys, this`pressedButtons, input, input.backend, peer
      ensures Valid()
      ensures old(RefusesFast(envelope)).Some? ==> r == Err(old(RefusesFast(envelope)).value)
      ensures old(RefusesFast(envelope)).None? ==>
                && (r == Ok(DroppedStale) <==> envelope.value.sequence <= old(lastPointerSequence))
                && (r == Ok(Applied) ==> lastPointerSequence == envelope.value.sequence && state.Connected?)
                && (r.Err? && r.error != InputFailure ==>
                      Some(r.error) == if envelope.value.event.None? then Some(InvalidInputEnvelope) else CheckFast(envelope.value.event.value))
                && (r == Ok(Applied) ==> envelope.value.event.Some? && CheckFast(envelope.value.event.value).None?)
      ensures r == Err(InputFailure) <==> state != old(state)
      ensures r == Err(InputFailure) ==> state == Closed && Failed(old(input.backend.log), input.backend.log)
      ensures r == Ok(Applied) && envelope.Some? && envelope.value.event.Some? && envelope.value.event.value.Move? ==>
                input.pressedButtons == ButtonsFor(envelope.value.event.value.pressedButtonBits)
      ensures r == Ok(Applied) && envelope.Some? && envelope.value.event.Some? && envelope.value.event.value.Scroll? ==>
                input.backend.log == old(input.backend.log) + [OtherGesture(true)]
      ensures r == Ok(Applied) && envelope.Some? && envelope.value.event.Some? && envelope.value.event.value.Move? ==>
                |input.backend.log| > |old(input.backend.log)| && input.backend.log[|input.backend.log| - 1].PointerTo?
      ensures r != Ok(Applied) ==> lastPointerSequence == old(lastPointerSequence)
      ensures (r.Err? && r.error != InputFailure) || r == Ok(DroppedStale) ==>
                input.backend.heldKeys == old(input.backend.heldKeys) && input.backend.heldButtons == old(input.backend.heldButtons)
    {
      var refused := InputReady();
      if refused.Some? {
        return Err(refused.value);
      }
      if envelope.None? {
        return Err(InvalidInputEnvelope);
      }
      if envelope.value.sessionId != sessionId {
        return Err(SessionMismatch);
      }
      if envelope.value.sequence <= lastPointerSequence {
        return Ok(DroppedStale);
      }
      if envelope.value.event.None? {
        return Err(InvalidInputEnvelope);
      }
      var event := envelope.value.event.value;
      var invalid := CheckFast(event);
      if invalid.Some? {
        return Err(invalid.value);
      }
      var injected;
      match event {
        case Move(x, y, bits) => injected := input.PointerMove(x, y, bits);
        case Scroll(_, _) => injected := input.Gesture();
      }
      if injected.Some? {
        if injected == Some(InputFailure) {
          ghost var turns := input.backend.log;
          var _ := Close();
          assert input.backend.log[|turns| - 1] == turns[|turns| - 1];
        }
        return Err(injected.value);
      }
      lastPointerSequence := envelope.value.sequence;
      r := Ok(Applied);
    }
  }

  // ---- Any caller, any order ----

  datatype Op =
    | Offer(sdpBytes: nat)
    | MarkConnectedOp
    | BeginReconnectOp
    | ReconnectOffer(sdpBytes: nat)
    | Candidate
    | Reliable(envelope: Option<Envelope<ReliableEvent>>)
    | Fast(pointer: Option<Envelope<FastEvent>>)
    | CloseOp

  /** What is physically held, and what the session knows of it, between two calls. */
  datatype Moment = Moment(
    state: State,
    cleanupPending: bool,
    heldKeys: set<U32>,
    heldButtons: set<NativeButton>,
    peerCloses: nat,
    asked: nat,
    reliableSequence: U64,
    pointerSequence: U64,
    keys: set<U32>,
    buttons: set<InputSink.PointerButton>)

  ghost function Observe(session: HostPeerSession): Moment
    reads session, session.input.backend, session.peer
  {
    Moment(session.state, session.inputCleanupPending, session.input.backend.heldKeys, session.input.backend.heldButtons, session.peer.closes,
           |session.peer.calls|, session.lastReliableSequence, session.lastPointerSequence, session.pressedKeys, session.pressedButtons)
  }

  /** Held input means permission and a connection or an owed cleanup; the peer is closed with the session, once. */
  predicate NothingStuck(inputAllowed: bool, m: Moment) {
    && (m.heldKeys != {} || m.heldButtons != {} ==> inputAllowed && (m.state.Connected? || m.cleanupPending))
    && m.peerCloses == if m.state.Closed? then 1 else 0
  }

  predicate ForThisSession<T>(sessionId: Octets, inputAllowed: bool, m: Moment, envelope: Option<Envelope<T>>) {
    inputAllowed && m.state.Connected? && envelope.Some? && envelope.value.sessionId == sessionId && envelope.value.event.Some?
  }

  /**
   * What a call owes: it asks the peer, moves on, applies the input that is due and no
   * other, or ends the session because a native call failed.
   */
  predicate Owes(sessionId: Octets, inputAllowed: bool, op: Op, before: Moment, after: Moment) {
    match op
    case Offer(bytes) => before.state.New? && 0 < bytes <= MAXIMUM_SDP_BYTES ==> before.asked < after.asked && !after.state.New?
    case MarkConnectedOp => before.state in {Negotiating, Connected, Reconnecting} ==> after.state.Connected?
    case BeginReconnectOp => before.state in {Connected, Negotiating} ==> after.state.Reconnecting? || after.cleanupPending
    case ReconnectOffer(bytes) => before.state in {Reconnecting, Negotiating} && 0 < bytes <= MAXIMUM_SDP_BYTES ==> before.asked < after.asked
    case Candidate => before.state in {Negotiating, Connected} ==> before.asked < after.asked
    case Reliable(envelope) =>
      if ForThisSession(sessionId, inputAllowed, before, envelope)
         && envelope.value.sequence == SaturatingAdd(before.reliableSequence, 1)
         && Sensible(envelope.value.event.value, before.keys, before.buttons)
      then
        var event := envelope.value.event.value;
        || after.state.Closed?
        || (after.reliableSequence == envelope.value.sequence
            && after.keys == KeysAfter(before.keys, event) && after.buttons == ButtonsAfter(before.buttons, event))
      else
        && after.state == before.state && after.reliableSequence == before.reliableSequence
        && after.keys == before.keys && after.buttons == before.buttons
    case Fast(pointer) =>
      if ForThisSession(sessionId, inputAllowed, before, pointer) && before.pointerSequence < pointer.value.sequence
         && CheckFast(pointer.value.event.value).None?
      then after.state.Closed? || after.pointerSequence == pointer.value.sequence
      else after.pointerSequence == before.pointerSequence
    case CloseOp => after.state.Closed?
  }

  /** The life of a session: which call may take it from one state to another; closed is final. */
  predicate MayMove(op: Op, from: State, to: State) {
    || to == from
    || match op
       case Offer(_) => from.New? && (to.Negotiating? || to.Closed?)
       case MarkConnectedOp => (from.Negotiating? || from.Reconnecting?) && to.Connected?
       case BeginReconnectOp => (from.Connected? || from.Negotiating?) && to.Reconnecting?
       case ReconnectOffer(_) => (from.Reconnecting? && to.Negotiating?) || (from.Negotiating? && to.Reconnecting?)
       case Candidate => false
       case Reliable(_) => from.Connected? && to.Closed?
       case Fast(_) => from.Connected? && to.Closed?
       case CloseOp => to.Closed?
  }

  method Perform(session: HostPeerSession, op: Op) returns (closing: Outcome)
    requires session.Valid()
    modifies session`state, session`lastReliableSequence, session`lastPointerSequence, session`inputCleanupPending
    modifies session`pressedKeys, session`pressedButtons, session.input, session.input.backend, session.peer
    ensures session.Valid() && NothingStuck(session.inputAllowed, Observe(session))
    ensures MayMove(op, old(session.state), session.state) && Owes(session.sessionId, session.inputAllowed, op, old(Observe(session)), Observe(session))
    ensures op.CloseOp? && closing.None? ==> session.input.backend.heldKeys == {} && session.input.backend.heldButtons == {}
  {
    closing := None;
    if op.Reliable? && op.envelope.Some? && op.envelope.value.event.Some? {
      SensibleIff(op.envelope.value.event.value, session.pressedKeys, session.pressedButtons);
    }
    match op {
      case Offer(bytes) => var _ := session.AcceptOffer(bytes);
      case MarkConnectedOp => var _ := session.MarkConnected();
      case BeginReconnectOp => var _ := session.BeginReconnect();
      case ReconnectOffer(bytes) => var _ := session.AcceptReconnectOffer(bytes);
      case Candidate => var _ := session.AddRemoteIceCandidate();
      case Reliable(envelope) => var _ := session.HandleReliable(envelope);
      case Fast(pointer) =>
        var applied := session.HandlePointerFast(pointer);
        assert applied.Ok? ==> applied.value.Applied? || applied.value.DroppedStale?;
      case CloseOp => closing := session.Close();
    }
    session.HeldMeansConnectedOrPending();
  }

  /**
   * Whatever is called, in whatever order, and whichever native calls fail: `moments` is what
   * is seen before the first call, after each, and after a last close.  At every one nothing
   * is stuck, between any two the session moved as the call allows, and the close reports
   * success only when nothing is held.
   */
  method Drive(sessionId: Octets, inputAllowed: bool, width: int, height: int, ops: seq<Op>)
    returns (session: HostPeerSession, last: Outcome, ghost moments: seq<Moment>)
    requires 0 < width && 0 < height
    ensures |moments| == |ops| + 2 && forall m <- moments :: NothingStuck(inputAllowed, m)
    ensures moments[0].state == New && moments[|ops| + 1] == Observe(session) && session.state == Closed
    ensures forall i | 0 <= i <= |ops| ::
              var op := if i < |ops| then ops[i] else CloseOp;
              MayMove(op, moments[i].state, moments[i + 1].state) && Owes(sessionId, inputAllowed, op, moments[i], moments[i + 1])
    ensures last.None? ==> session.input.backend.heldKeys == {} && session.input.backend.heldButtons == {}
  {
    var backend := new InputBackend();
    var sink := new PlatformInputSink(backend, width, height);
    var peer := new PeerBackend();
    session := new HostPeerSession(sessionId, inputAllowed, peer, sink);
    moments := [Observe(session)];
    var done := 0;
    while done < |ops|
      invariant session.Valid() && session.inputAllowed == inputAllowed
      invariant fresh(session) && fresh(session.input) && fresh(session.input.backend) && fresh(session.peer)
      invariant |moments| == done + 1 <= |ops| + 1 && forall m <- moments :: NothingStuck(inputAllowed, m)
      invariant moments[0].state == New && moments[done] == Observe(session)
      invariant session.sessionId == sessionId
      invariant forall i | 0 <= i < done ::
                  MayMove(ops[i], moments[i].state, moments[i + 1].state) && Owes(sessionId, inputAllowed, ops[i], moments[i], moments[i + 1])
    {
      var _ := Perform(session, ops[done]);
      moments := moments + [Observe(session)];
      done := done + 1;
    }
    last := Perform(session, CloseOp);
    moments := moments + [Observe(session)];
  }
}
