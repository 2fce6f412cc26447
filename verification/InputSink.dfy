/** Native input injection that remembers what it may have left pressed (crates/host-platform/src/input.rs). */
module InputSink {
  import opened Wrappers
  import opened Bytes

  const FIRST_MODIFIER_USAGE: U32 := 0xE0
  const MODIFIER_COUNT := 8
  const NORMALIZED_POINTER_MAX := 10_000

  datatype Direction = Press | Release

  datatype NativeButton = Left | Right | Middle

  datatype PointerButton = LeftButton | RightButton | MiddleButton | UnspecifiedButton

  datatype ButtonAction = ButtonDown | ButtonUp | Click | DoubleClick | UnspecifiedButtonAction

  datatype KeyboardAction = KeyDown | KeyUp | UnspecifiedKeyAction

  datatype HostError =
    | InvalidSession | InvalidPermissions | InvalidState | InvalidSdp | InvalidAnswer | PeerFailure
    | InputFailure | InputPermissionDenied | InvalidInputEnvelope | SessionMismatch | ReliableSequence
    | InvalidCoordinates | InvalidKeyboardUsage | InvalidModifierBits | InvalidPointerButtons | InvalidScrollDelta
    | PressedInputState

  /** One call to the native backend and its outcome. */
  datatype Injection =
    | KeyTurn(usage: U32, keyDirection: Direction, ok: bool)
    | ButtonTurn(button: NativeButton, buttonDirection: Direction, ok: bool)
    | PointerTo(x: int, y: int, ok: bool)
    | OtherGesture(ok: bool)

  /**
   * The operating system as seen through the backend.  A call may fail, and a failed call
   * may or may not have taken effect.
   */
  class InputBackend {
    var heldKeys: set<U32>
    var heldButtons: set<NativeButton>
    ghost var log: seq<Injection>

    constructor ()
      ensures heldKeys == {} && heldButtons == {} && log == []
    {
      heldKeys, heldButtons, log := {}, {}, [];
    }

    method Keyboard(usage: U32, direction: Direction) returns (ok: bool)
      modifies this`heldKeys, this`log
      ensures heldKeys == Moved(old(heldKeys), usage, direction) || (!ok && heldKeys == old(heldKeys))
      ensures log == old(log) + [KeyTurn(usage, direction, ok)]
    {
      ok := *;
      var happened: bool := *;
      if ok || happened {
        heldKeys := Moved(heldKeys, usage, direction);
      }
      log := log + [KeyTurn(usage, direction, ok)];
    }

    method Button(button: NativeButton, direction: Direction) returns (ok: bool)
      modifies this`heldButtons, this`log
      ensures heldButtons == Moved(old(heldButtons), button, direction) || (!ok && heldButtons == old(heldButtons))
      ensures log == old(log) + [ButtonTurn(button, direction, ok)]
    {
      ok := *;
      var happened: bool := *;
      if ok || happened {
        heldButtons := Moved(heldButtons, button, direction);
      }
      log := log + [ButtonTurn(button, direction, ok)];
    }

    method Pointer(x: int, y: int) returns (ok: bool)
      modifies this`log
      ensures log == old(log) + [PointerTo(x, y, ok)]
    {
      ok := *;
      log := log + [PointerTo(x, y, ok)];
    }

    /** A scroll or a text insertion: holds nothing. */
    method Gesture() returns (ok: bool)
      modifies this`log
      ensures log == old(log) + [OtherGesture(ok)]
    {
      ok := *;
      log := log + [OtherGesture(ok)];
    }
  }

  function Moved<T(!new)>(pressed: set<T>, item: T, direction: Direction): (r: set<T>)
    ensures item in r <==> direction == Press
    ensures forall other | other != item :: other in r <==> other in pressed
  {
    if direction.Press? then pressed + {item} else pressed - {item}
  }

  // ---- What the sink remembers ----

  /** What is remembered after asking for one transition: a press that failed counts as pressed. */
  function Remembered<T(!new)>(pressed: set<T>, item: T, direction: Direction, ok: bool): (r: set<T>)
    ensures item in r <==> direction == Press || (item in pressed && !ok)
    ensures forall other | other != item :: other in r <==> other in pressed
  {
    if direction.Press? == (item in pressed) then pressed
    else if direction.Press? then pressed + {item}
    else if ok then pressed - {item}
    else pressed
  }

  predicate Bit(bits: U32, i: nat)
    requires i < MODIFIER_COUNT
  {
    bits / [1, 2, 4, 8, 16, 32, 64, 128][i] % 2 == 1
  }

  /** The bits of a power of two. */
  lemma BitOfPower(i: nat, j: nat)
    requires i < MODIFIER_COUNT && j < MODIFIER_COUNT
    ensures Bit([1, 2, 4, 8, 16, 32, 64, 128][j], i) <==> i == j
  {
  }

  function Modifier(i: nat): U32
    requires i < MODIFIER_COUNT
  {
    FIRST_MODIFIER_USAGE as int + i
  }

  function Toward(desired: bool): (r: Direction)
    ensures r == Press <==> desired
  {
    if desired then Press else Release
  }

  /** The keys remembered once the first `n` modifiers have been reconciled. */
  function Reconciled(pressed: set<U32>, bits: U32, current: U32, n: nat): set<U32>
    requires n <= MODIFIER_COUNT
  {
    if n == 0 then pressed
    else
      var before := Reconciled(pressed, bits, current, n - 1);
      if Modifier(n - 1) == current then before else Moved(before, Modifier(n - 1), Toward(Bit(bits, n - 1)))
  }

  /** The backend calls a successful reconciliation makes: one for each modifier that has to move. */
  function ModifierTurns(pressed: set<U32>, bits: U32, current: U32, n: nat): seq<Injection>
    requires n <= MODIFIER_COUNT
  {
    if n == 0 then []
    else
      var usage := Modifier(n - 1);
      var moves := usage != current && Bit(bits, n - 1) != (usage in Reconciled(pressed, bits, current, n - 1));
      ModifierTurns(pressed, bits, current, n - 1) + if moves then [KeyTurn(usage, Toward(Bit(bits, n - 1)), true)] else []
  }

  /** The last of the calls made since `since` failed. */
  predicate EndedInFailure(log: seq<Injection>, since: nat) {
    since < |log| && !log[|log| - 1].ok
  }

  function KeyTurns(pressed: set<U32>, usage: U32, direction: Direction, ok: bool): seq<Injection> {
    if direction.Press? == (usage in pressed) then [] else [KeyTurn(usage, direction, ok)]
  }

  function ButtonTurns(pressed: set<NativeButton>, button: NativeButton, direction: Direction, ok: bool): seq<Injection> {
    if direction.Press? == (button in pressed) then [] else [ButtonTurn(button, direction, ok)]
  }

  function Clicks(button: NativeButton, count: nat): seq<Injection> {
    if count == 0 then [] else Clicks(button, count - 1) + [ButtonTurn(button, Press, true), ButtonTurn(button, Release, true)]
  }

  /** The backend calls of one successful button action. */
  function ActionTurns(pressed: set<NativeButton>, button: NativeButton, action: ButtonAction): seq<Injection> {
    match action
    case ButtonDown => ButtonTurns(pressed, button, Press, true)
    case ButtonUp => ButtonTurns(pressed, button, Release, true)
    case Click => Clicks(button, 1)
    case DoubleClick => Clicks(button, 2)
    case UnspecifiedButtonAction => []
  }

  /** Reconciling stopped at modifier `n`, whose transition failed. */
  predicate StoppedAt(pressed: set<U32>, bits: U32, current: U32, n: nat, after: set<U32>) {
    && n < MODIFIER_COUNT && Modifier(n) != current
    && var before := Reconciled(pressed, bits, current, n);
       && Bit(bits, n) != (Modifier(n) in before)
       && after == Remembered(before, Modifier(n), Toward(Bit(bits, n)), false)
  }

  /** After reconciling, every modifier but the one being typed is as its bit says; no other key has moved. */
  lemma {:induction false} ReconciledExactly(pressed: set<U32>, bits: U32, current: U32, n: nat, usage: U32)
    requires n <= MODIFIER_COUNT
    ensures usage in Reconciled(pressed, bits, current, n) <==>
            if FIRST_MODIFIER_USAGE <= usage < FIRST_MODIFIER_USAGE as int + n && usage != current
            then Bit(bits, usage - FIRST_MODIFIER_USAGE) else usage in pressed
  {
    if n > 0 {
      ReconciledExactly(pressed, bits, current, n - 1, usage);
    }
  }

  function ButtonsFor(bits: U32): (s: set<NativeButton>)
    ensures Left in s <==> Bit(bits, 0)
    ensures Right in s <==> Bit(bits, 1)
    ensures Middle in s <==> Bit(bits, 2)
  {
    (if Bit(bits, 0) then {Left} else {}) + (if Bit(bits, 1) then {Right} else {}) + (if Bit(bits, 2) then {Middle} else {})
  }

  // ---- Coordinates ----

  predicate Normalized(x: int, y: int) {
    0 <= x <= NORMALIZED_POINTER_MAX && 0 <= y <= NORMALIZED_POINTER_MAX
  }

  function Scale(x: int, size: int): int
    requires 0 <= x && 0 < size
  {
    (x * (size - 1) + NORMALIZED_POINTER_MAX / 2) / NORMALIZED_POINTER_MAX
  }

  function NormalizedToPixels(x: int, y: int, width: int, height: int): Result<(int, int), HostError>
    requires 0 < width && 0 < height
  {
    if !Normalized(x, y) then Err(InvalidCoordinates) else Ok((Scale(x, width), Scale(y, height)))
  }

  lemma MulNonNegative(a: nat, b: nat)
    ensures 0 <= a * b
  {
  }

  /** The nearest pixel: always on the display, off by at most half a step, the edges exact. */
  lemma ScaleIsNearest(x: int, size: int)
    requires 0 <= x <= NORMALIZED_POINTER_MAX && 0 < size
    ensures 0 <= Scale(x, size) < size
    ensures -NORMALIZED_POINTER_MAX / 2 <= Scale(x, size) * NORMALIZED_POINTER_MAX - x * (size - 1) <= NORMALIZED_POINTER_MAX / 2
    ensures Scale(0, size) == 0 && Scale(NORMALIZED_POINTER_MAX, size) == size - 1
  {
    MulNonNegative(x, size - 1);
    MulNonNegative(NORMALIZED_POINTER_MAX - x, size - 1);
    var product := x * (size - 1);
    assert product + (NORMALIZED_POINTER_MAX - x) * (size - 1) == NORMALIZED_POINTER_MAX * (size - 1);
    assert 0 * (size - 1) == 0;
  }

  lemma ScaleIsMonotone(x: int, y: int, size: int)
    requires 0 <= x <= y && 0 < size
    ensures Scale(x, size) <= Scale(y, size)
  {
    MulNonNegative(y - x, size - 1);
    var low, high := x * (size - 1), y * (size - 1);
    assert high == low + (y - x) * (size - 1);
    DivideMonotone(low + NORMALIZED_POINTER_MAX / 2, high + NORMALIZED_POINTER_MAX / 2);
  }

  lemma DivideMonotone(a: int, b: int)
    requires a <= b
    ensures a / NORMALIZED_POINTER_MAX <= b / NORMALIZED_POINTER_MAX
  {
  }

  function Native(button: PointerButton): (r: Result<NativeButton, HostError>)
    ensures r == Ok(Left) <==> button == LeftButton
    ensures r == Ok(Right) <==> button == RightButton
    ensures r == Ok(Middle) <==> button == MiddleButton
    ensures r.Err? ==> r.error == InputFailure
  {
    match button
    case LeftButton => Ok(Left)
    case RightButton => Ok(Right)
    case MiddleButton => Ok(Middle)
    case UnspecifiedButton => Err(InputFailure)
  }

  type Outcome = Option<HostError>

  class PlatformInputSink {
    const backend: InputBackend
    const displayWidth: int
    const displayHeight: int
    var pressedKeys: set<U32>
    var pressedButtons: set<NativeButton>

    /** Whatever is physically held is remembered as pressed. */
    ghost predicate Valid()
      reads this, backend
    {
      && 0 < displayWidth && 0 < displayHeight
      && backend.heldKeys <= pressedKeys
      && backend.heldButtons <= pressedButtons
    }

    /** The display geometry is already validated. */
    constructor (backend: InputBackend, width: int, height: int)
      requires 0 < width && 0 < height
      requires backend.heldKeys == {} && backend.heldButtons == {}
      ensures this.backend == backend && Valid() && pressedKeys == {} && pressedButtons == {}
    {
      this.backend, displayWidth, displayHeight := backend, width, height;
      pressedKeys, pressedButtons := {}, {};
    }

    method SetKey(usage: U32, direction: Direction) returns (r: Outcome)
      requires Valid()
      modifies this`pressedKeys, backend`heldKeys, backend`log
      ensures Valid() && r in {None, Some(InputFailure)}
      ensures pressedKeys == Remembered(old(pressedKeys), usage, direction, r.None?)
      ensures backend.log == old(backend.log) + KeyTurns(old(pressedKeys), usage, direction, r.None?)
      ensures direction.Press? == (usage in old(pressedKeys)) ==> r.None? && backend.heldKeys == old(backend.heldKeys)
    {
      if direction.Press? == (usage in pressedKeys) {
        return None;
      }
      var ok := backend.Keyboard(usage, direction);
      if !ok {
        if direction.Press? {
          pressedKeys := pressedKeys + {usage};
        }
        return Some(InputFailure);
      }
      pressedKeys := Moved(pressedKeys, usage, direction);
      r := None;
    }

    method SetButton(button: NativeButton, direction: Direction) returns (r: Outcome)
      requires Valid()
      modifies this`pressedButtons, backend`heldButtons, backend`log
      ensures Valid() && r in {None, Some(InputFailure)}
      ensures pressedButtons == Remembered(old(pressedButtons), button, direction, r.None?)
      ensures backend.log == old(backend.log) + ButtonTurns(old(pressedButtons), button, direction, r.None?)
      ensures direction.Press? == (button in old(pressedButtons)) ==> r.None? && backend.heldButtons == old(backend.heldButtons)
    {
      if direction.Press? == (button in pressedButtons) {
        return None;
      }
      var ok := backend.Button(button, direction);
      if !ok {
        if direction.Press? {
          pressedButtons := pressedButtons + {button};
        }
        return Some(InputFailure);
      }
      pressedButtons := Moved(pressedButtons, button, direction);
      r := None;
    }

    method ReconcileModifiers(bits: U32, current: U32) returns (r: Outcome)
      requires Valid()
      modifies this`pressedKeys, backend`heldKeys, backend`log
      ensures Valid() && r in {None, Some(InputFailure)}
      ensures r.None? ==> pressedKeys == Reconciled(old(pressedKeys), bits, current, MODIFIER_COUNT)
      ensures r.None? ==> backend.log == old(backend.log) + ModifierTurns(old(pressedKeys), bits, current, MODIFIER_COUNT)
      ensures r.Some? ==> EndedInFailure(backend.log, |old(backend.log)|) && exists n :: StoppedAt(old(pressedKeys), bits, current, n, pressedKeys)
      ensures old(backend.log) <= backend.log
    {
      var bit := 0;
      while bit < MODIFIER_COUNT
        invariant 0 <= bit <= MODIFIER_COUNT && Valid()
        invariant pressedKeys == Reconciled(old(pressedKeys), bits, current, bit)
        invariant backend.log == old(backend.log) + ModifierTurns(old(pressedKeys), bits, current, bit)
      {
        var usage := Modifier(bit);
        if usage != current {
          var desired, pressed := Bit(bits, bit), usage in pressedKeys;
          if desired != pressed {
            r := SetKey(usage, Toward(desired));
            if r.Some? {
              assert StoppedAt(old(pressedKeys), bits, current, bit, pressedKeys);
              return;
            }
          }
        }
        bit := bit + 1;
      }
      r := None;
    }

    method ReconcilePointerButtons(bits: U32) returns (r: Outcome)
      requires Valid()
      modifies this`pressedButtons, backend`heldButtons, backend`log
      ensures Valid() && r in {None, Some(InputFailure)}
      ensures r.None? ==> pressedButtons == ButtonsFor(bits)
      ensures pressedButtons <= old(pressedButtons) + ButtonsFor(bits)
      ensures old(backend.log) <= backend.log && (r.Some? ==> EndedInFailure(backend.log, |old(backend.log)|))
    {
      r := SetButton(Left, Toward(Bit(bits, 0)));
      if r.Some? {
        return;
      }
      r := SetButton(Right, Toward(Bit(bits, 1)));
      if r.Some? {
        return;
      }
      r := SetButton(Middle, Toward(Bit(bits, 2)));
      if r.None? {
        assert forall b: NativeButton :: b in pressedButtons <==> b in ButtonsFor(bits) by {
          forall b: NativeButton
            ensures b in pressedButtons <==> b in ButtonsFor(bits)
          {
            match b
            case Left =>
            case Right =>
            case Middle =>
          }
        }
      }
    }

    method MoveNormalized(x: int, y: int) returns (r: Outcome)
      requires Valid()
      modifies backend`log
      ensures Valid()
      ensures backend.log == old(backend.log) + if Normalized(x, y) then [PointerTo(Scale(x, displayWidth), Scale(y, displayHeight), r.None?)] else []
      ensures r.None? ==> Normalized(x, y)
      ensures r in {None, Some(InputFailure)} || (r == Some(InvalidCoordinates) && !Normalized(x, y))
    {
      var pixels := NormalizedToPixels(x, y, displayWidth, displayHeight);
      if pixels.Err? {
        return Some(pixels.error);
      }
      var ok := backend.Pointer(pixels.value.0, pixels.value.1);
      r := if ok then None else Some(InputFailure);
    }

    method ClickButton(button: NativeButton, count: nat) returns (r: Outcome)
      requires Valid()
      modifies this`pressedButtons, backend`heldButtons, backend`log
      ensures Valid() && r in {None, Some(InputFailure)}
      ensures button in old(pressedButtons) ==> r.Some? && backend.heldButtons == old(backend.heldButtons)
      ensures pressedButtons == old(pressedButtons) || (r.Some? && pressedButtons == old(pressedButtons) + {button})
      ensures r.None? ==> backend.log == old(backend.log) + Clicks(button, count)
      ensures r.Some? && button !in old(pressedButtons) ==> EndedInFailure(backend.log, |old(backend.log)|)
      ensures old(backend.log) <= backend.log
    {
      if button in pressedButtons {
        return Some(InputFailure);
      }
      var done := 0;
      while done < count
        invariant done <= count && Valid() && pressedButtons == old(pressedButtons)
        invariant backend.log == old(backend.log) + Clicks(button, done)
      {
        r := SetButton(button, Press);
        if r.Some? {
          return;
        }
        r := SetButton(button, Release);
        if r.Some? {
          return;
        }
        done := done + 1;
      }
      r := None;
    }

    /** A key event; the modifiers are brought in line first. */
    method Keyboard(action: KeyboardAction, usage: U32, bits: U32) returns (r: Outcome)
      requires Valid()
      modifies this`pressedKeys, backend`heldKeys, backend`log
      ensures Valid() && r in {None, Some(InputFailure)}
      ensures r.None? ==>
                && !action.UnspecifiedKeyAction?
                && (var before, direction := Reconciled(old(pressedKeys), bits, usage, MODIFIER_COUNT), if action.KeyDown? then Press else Release;
                    && pressedKeys == Moved(before, usage, direction)
                    && backend.log == old(backend.log) + ModifierTurns(old(pressedKeys), bits, usage, MODIFIER_COUNT)
                                      + KeyTurns(before, usage, direction, true))
      ensures r.Some? ==>
                || (exists n :: StoppedAt(old(pressedKeys), bits, usage, n, pressedKeys))
                || pressedKeys == Reconciled(old(pressedKeys), bits, usage, MODIFIER_COUNT)
                || (action.KeyDown? && pressedKeys == Reconciled(old(pressedKeys), bits, usage, MODIFIER_COUNT) + {usage})
      ensures r.Some? && !action.UnspecifiedKeyAction? ==> EndedInFailure(backend.log, |old(backend.log)|)
    {
      r := ReconcileModifiers(bits, usage);
      if r.Some? {
        return;
      }
      match action
      case KeyDown => r := SetKey(usage, Press);
      case KeyUp => r := SetKey(usage, Release);
      case UnspecifiedKeyAction => r := Some(InputFailure);
    }

    method PointerButton(button: PointerButton, action: ButtonAction, x: int, y: int) returns (r: Outcome)
      requires Valid()
      modifies this`pressedButtons, backend`heldButtons, backend`log
      ensures Valid() && (Normalized(x, y) ==> r in {None, Some(InputFailure)}) && (r.None? ==> Native(button).Ok?)
      ensures r.None? && action.ButtonDown? ==> pressedButtons == old(pressedButtons) + {Native(button).value}
      ensures r.None? && action.ButtonUp? ==> pressedButtons == old(pressedButtons) - {Native(button).value}
      ensures r.None? && (action.Click? || action.DoubleClick?) ==> pressedButtons == old(pressedButtons)
      ensures r.None? ==> Normalized(x, y) && backend.log == old(backend.log) + [PointerTo(Scale(x, displayWidth), Scale(y, displayHeight), true)]
                                             + ActionTurns(old(pressedButtons), Native(button).value, action)
      ensures r.Some? ==> pressedButtons == old(pressedButtons) || (Native(button).Ok? && pressedButtons == old(pressedButtons) + {Native(button).value})
      ensures action.UnspecifiedButtonAction? ==> r.Some?
      ensures r.Some? && Normalized(x, y) && Native(button).Ok? && !action.UnspecifiedButtonAction?
              && !((action.Click? || action.DoubleClick?) && Native(button).value in old(pressedButtons)) ==>
                EndedInFailure(backend.log, |old(backend.log)|)
    {
      r := MoveNormalized(x, y);
      if r.Some? {
        return;
      }
      var native := Native(button);
      if native.Err? {
        return Some(native.error);
      }
      match action
      case ButtonDown => r := SetButton(native.value, Press);
      case ButtonUp => r := SetButton(native.value, Release);
      case Click => r := ClickButton(native.value, 1);
      case DoubleClick => r := ClickButton(native.value, 2);
      case UnspecifiedButtonAction => r := Some(InputFailure);
    }

    method PointerMove(x: int, y: int, bits: U32) returns (r: Outcome)
      requires Valid()
      modifies this`pressedButtons, backend`heldButtons, backend`log
      ensures Valid() && (Normalized(x, y) ==> r in {None, Some(InputFailure)})
      ensures r.None? ==> pressedButtons == ButtonsFor(bits)
      ensures pressedButtons <= old(pressedButtons) + ButtonsFor(bits)
      ensures r.None? ==> Normalized(x, y) && |backend.log| > |old(backend.log)|
                          && backend.log[|backend.log| - 1] == PointerTo(Scale(x, displayWidth), Scale(y, displayHeight), true)
      ensures r.Some? && Normalized(x, y) ==> EndedInFailure(backend.log, |old(backend.log)|)
      ensures !Normalized(x, y) ==> r.Some?
    {
      r := ReconcilePointerButtons(bits);
      if r.None? {
        r := MoveNormalized(x, y);
      }
    }

    /** A scroll or a text insertion. */
    method Gesture() returns (r: Outcome)
      requires Valid()
      modifies backend`log
      ensures Valid() && r in {None, Some(InputFailure)}
      ensures backend.log == old(backend.log) + [OtherGesture(r.None?)]
    {
      var ok := backend.Gesture();
      r := if ok then None else Some(InputFailure);
    }

    /** Asks once for the release of every remembered key; those whose release failed stay remembered. */
    method ReleaseKeys()
      requires Valid()
      modifies this`pressedKeys, backend`heldKeys, backend`log
      ensures Valid() && pressedKeys <= old(pressedKeys)
      ensures forall usage <- old(pressedKeys) ::
                if usage in pressedKeys then KeyTurn(usage, Release, false) in backend.log else KeyTurn(usage, Release, true) in backend.log
      ensures |backend.log| == |old(backend.log)| + |old(pressedKeys)| && old(backend.log) <= backend.log
    {
      var keys, kept := pressedKeys, {};
      while keys != {}
        invariant backend.heldKeys <= keys + kept && keys <= pressedKeys && kept <= pressedKeys && kept !! keys
        invariant pressedKeys == old(pressedKeys)
        invariant forall usage <- pressedKeys - keys ::
                    if usage in kept then KeyTurn(usage, Release, false) in backend.log else KeyTurn(usage, Release, true) in backend.log
        invariant |backend.log| + |keys| == |old(backend.log)| + |pressedKeys| && old(backend.log) <= backend.log
        decreases keys
      {
        var usage :| usage in keys;
        ghost var before := backend.log;
        var ok := backend.Keyboard(usage, Release);
        assert forall turn <- before :: turn in backend.log;
        assert backend.log[|before|] == KeyTurn(usage, Release, ok);
        keys := keys - {usage};
        if !ok {
          kept := kept + {usage};
        }
      }
      pressedKeys := kept;
    }

    method ReleaseButtons()
      requires Valid()
      modifies this`pressedButtons, backend`heldButtons, backend`log
      ensures Valid() && pressedButtons <= old(pressedButtons)
      ensures forall button <- old(pressedButtons) ::
                if button in pressedButtons then ButtonTurn(button, Release, false) in backend.log else ButtonTurn(button, Release, true) in backend.log
      ensures |backend.log| == |old(backend.log)| + |old(pressedButtons)| && old(backend.log) <= backend.log
    {
      var buttons, kept := pressedButtons, {};
      while buttons != {}
        invariant backend.heldButtons <= buttons + kept && buttons <= pressedButtons && kept <= pressedButtons && kept !! buttons
        invariant pressedButtons == old(pressedButtons)
        invariant forall button <- pressedButtons - buttons ::
                    if button in kept then ButtonTurn(button, Release, false) in backend.log else ButtonTurn(button, Release, true) in backend.log
        invariant |backend.log| + |buttons| == |old(backend.log)| + |pressedButtons| && old(backend.log) <= backend.log
        decreases buttons
      {
        var button :| button in buttons;
        ghost var before := backend.log;
        var ok := backend.Button(button, Release);
        assert forall turn <- before :: turn in backend.log;
        assert backend.log[|before|] == ButtonTurn(button, Release, ok);
        buttons := buttons - {button};
        if !ok {
          kept := kept + {button};
        }
      }
      pressedButtons := kept;
    }

    /**
     * Every remembered key and button is released once; those whose release failed stay
     * remembered for a later attempt.  Success means nothing is held.
     */
    method ReleaseAll() returns (r: Outcome)
      requires Valid()
      modifies this, backend
      ensures Valid() && r in {None, Some(InputFailure)}
      ensures pressedKeys <= old(pressedKeys) && pressedButtons <= old(pressedButtons)
      ensures r.None? <==> pressedKeys == {} && pressedButtons == {}
      ensures r.None? ==> backend.heldKeys == {} && backend.heldButtons == {}
      ensures forall usage <- old(pressedKeys) ::
                if usage in pressedKeys then KeyTurn(usage, Release, false) in backend.log else KeyTurn(usage, Release, true) in backend.log
      ensures forall button <- old(pressedButtons) ::
                if button in pressedButtons then ButtonTurn(button, Release, false) in backend.log else ButtonTurn(button, Release, true) in backend.log
      ensures |backend.log| == |old(backend.log)| + |old(pressedKeys)| + |old(pressedButtons)| && old(backend.log) <= backend.log
    {
      ReleaseKeys();
      ghost var turns := backend.log;
      ReleaseButtons();
      assert forall turn <- turns :: turn in backend.log;
      r := if pressedKeys == {} && pressedButtons == {} then None else Some(InputFailure);
    }
  }
}
