/** The keyboard controller: buffers key presses reported by the on-screen
    keys and, once per frame, dispatches them to the attached input field
    (mobile mode), or polls the physical keyboard and mouse (desktop mode). */
module VKeyboard {
  import opened Options
  import opened SKeyCodes
  import opened Dispatch

  /** The controller's fields that the host can observe, as one value. */
  datatype Snapshot = Snapshot(
    initialized: bool,
    mobile: bool,
    shift: bool,
    visible: bool,
    romajiActive: bool,
    symbolActive: bool,
    operatorActive: bool,
    inertia: nat,
    keyBuffer: seq<string>,
    sKeyBuffer: seq<SKeyCode>,
    target: Option<InputField>)

  /** The scene the controller is loaded with: the active flags of its boxes,
      the hide-on-start setting, how many keys sit under the key box, and the
      input field serialised with it. */
  datatype Scene = Scene(
    keyBoxActive: bool,
    romajiActive: bool,
    symbolActive: bool,
    operatorActive: bool,
    hideOnStart: bool,
    keyCount: nat,
    field: Option<InputField>)

  class Keyboard {
    /** What the platform query answers on this host; it never changes. */
    const platformMobile: bool
    /** The hide-on-start setting. */
    const hideOnStart: bool
    /** The number of keys under the key box. */
    const keyCount: nat

    var initialized: bool
    var mobile: bool
    var shift: bool
    /** Whether the key box is active. */
    var visible: bool
    var romajiActive: bool
    var symbolActive: bool
    var operatorActive: bool
    /** Milliseconds since the last desktop backspace dispatch. */
    var inertia: nat
    var keyBuffer: seq<string>
    var sKeyBuffer: seq<SKeyCode>
    var target: Option<InputField>

    /** Everything the controller has done that is seen outside it, in order. */
    ghost var trace: seq<Event>

    /** Once set up, the mode is the platform's, and in mobile mode the
        operator box is active and exactly one of romaji and symbol is. */
    ghost predicate Valid()
      reads this
    {
      && (initialized ==> mobile == platformMobile)
      && (initialized && mobile ==> operatorActive && romajiActive != symbolActive)
    }

    ghost function State(): Snapshot
      reads this
    {
      Snapshot(initialized, mobile, shift, visible, romajiActive, symbolActive,
               operatorActive, inertia, keyBuffer, sKeyBuffer, target)
    }

    ghost function Layout(): Pad
      reads this
    {
      Pad(shift, romajiActive, symbolActive)
    }

    /** The component as loaded: not set up, not shifted, empty buffers. */
    constructor (platformMobile: bool, scene: Scene)
      ensures Valid()
      ensures this.platformMobile == platformMobile
      ensures hideOnStart == scene.hideOnStart && keyCount == scene.keyCount
      ensures State() == Snapshot(false, false, false, scene.keyBoxActive, scene.romajiActive,
                                  scene.symbolActive, scene.operatorActive, 0, [], [], scene.field)
      ensures trace == []
    {
      this.platformMobile := platformMobile;
      hideOnStart := scene.hideOnStart;
      keyCount := scene.keyCount;
      initialized, mobile, shift := false, false, false;
      visible := scene.keyBoxActive;
      romajiActive, symbolActive, operatorActive :=
        scene.romajiActive, scene.symbolActive, scene.operatorActive;
      inertia := 0;
      keyBuffer, sKeyBuffer := [], [];
      target := scene.field;
      trace := [];
    }

    /** The `mobile` property: asks the platform again and stores the answer. */
    method QueryMobile() returns (m: bool)
      requires Valid()
      modifies this`mobile
      ensures Valid()
      ensures m == platformMobile && mobile == platformMobile
    {
      mobile := platformMobile;
      m := mobile;
    }

    /** Attaches another input field, or none. */
    method SwitchInputField(field: Option<InputField>)
      modifies this`target
      ensures target == field
    {
      target := field;
    }

    /** A character key reports a press. */
    method OnKeyPress(key: string)
      modifies this`keyBuffer
      ensures keyBuffer == old(keyBuffer) + [key]
    {
      keyBuffer := keyBuffer + [key];
    }

    /** A special key reports a press. */
    method OnSKeyPress(code: SKeyCode)
      modifies this`sKeyBuffer
      ensures sKeyBuffer == old(sKeyBuffer) + [code]
    {
      sKeyBuffer := sKeyBuffer + [code];
    }

    /** Shows or hides the key box; the callback runs only on a real change. */
    method SetVisibility(active: bool)
      modifies this`visible, this`trace
      ensures active == old(visible) ==> visible == old(visible) && trace == old(trace)
      ensures active != old(visible) ==>
                visible == active && trace == old(trace) + [VisibilityChanged(active)]
    {
      if active == visible {
        return;
      }
      visible := active;
      trace := trace + [VisibilityChanged(active)];
    }

    method SwitchVisibility()
      modifies this`visible, this`trace
      ensures visible == !old(visible)
      ensures trace == old(trace) + [VisibilityChanged(visible)]
    {
      SetVisibility(!visible);
    }

    method Hide(active: bool)
      modifies this`visible, this`trace
      ensures var shown := VisibilityAfter(old(visible), !active);
              visible == shown.visible && trace == old(trace) + shown.events
    {
      SetVisibility(!active);
    }

    method Show(active: bool)
      modifies this`visible, this`trace
      ensures var shown := VisibilityAfter(old(visible), active);
              visible == shown.visible && trace == old(trace) + shown.events
    {
      SetVisibility(active);
    }

    /** One-time setup. A repeated call only logs an error. In mobile mode the
        keys are bound to the controller and the romaji layout is selected; in
        desktop mode the key box is hidden. */
    method SetUp()
      requires Valid()
      modifies this
      ensures Valid() && initialized
      ensures old(initialized) ==>
                State() == old(State()) && trace == old(trace) + [AlreadyInitialised]
      ensures !old(initialized) && platformMobile ==>
                State() == old(State()).(initialized := true, mobile := true, operatorActive := true,
                                         romajiActive := true, symbolActive := false)
                && trace == old(trace) + Bindings(keyCount)
      ensures !old(initialized) && !platformMobile ==>
                var shown := VisibilityAfter(old(visible), false);
                State() == old(State()).(initialized := true, mobile := false, visible := shown.visible)
                && trace == old(trace) + shown.events
    {
      if initialized {
        trace := trace + [AlreadyInitialised];
        return;
      }
      mobile := platformMobile;
      if mobile {
        operatorActive, romajiActive, symbolActive := true, true, true;
        trace := trace + Bindings(keyCount);
        operatorActive, romajiActive, symbolActive := true, true, false;
      } else {
        SetVisibility(false);
      }
      initialized := true;
    }

    /** The component's first frame: set up unless already done, then hide
        when so configured. */
    method Start()
      requires Valid()
      modifies this
      ensures Valid() && initialized && mobile == platformMobile
      ensures var setUpEvents := if old(initialized) then []
                                 else if platformMobile then Bindings(keyCount)
                                 else VisibilityAfter(old(visible), false).events;
              var setUpVisible := if old(initialized) || platformMobile then old(visible) else false;
              var hidden := if hideOnStart then VisibilityAfter(setUpVisible, false) else Shown(setUpVisible, []);
              visible == hidden.visible && trace == old(trace) + setUpEvents + hidden.events
      ensures old(initialized) ==> State() == old(State()).(visible := visible)
      ensures !old(initialized) && platformMobile ==>
                State() == old(State()).(initialized := true, mobile := true, operatorActive := true,
                                         romajiActive := true, symbolActive := false, visible := visible)
      ensures !old(initialized) && !platformMobile ==>
                State() == old(State()).(initialized := true, mobile := false, visible := visible)
    {
      if !initialized {
        SetUp();
      }
      if hideOnStart {
        SetVisibility(false);
      }
    }

    /** `m_inputFieldBase?.X()`: a call on the attached field, if any. */
    method Invoke(c: Call)
      modifies this`trace
      ensures trace == old(trace) + Notify(target, c)
    {
      if target.Some? {
        trace := trace + [Called(target.value, c)];
      }
    }

    /** The audio cue of a key stroke. */
    method ShotAudio()
      modifies this`trace
      ensures trace == old(trace) + [KeyStroke]
    {
      trace := trace + [KeyStroke];
    }

    /** The per-frame step. */
    method Update(input: TickInput)
      requires Valid()
      modifies this
      ensures Valid()
      ensures !old(initialized) ==> State() == old(State()) && trace == old(trace)
      ensures old(initialized) && old(mobile) ==>
                var e := MobileTick(old(Layout()), old(target), keyCount, old(sKeyBuffer), old(keyBuffer));
                State() == old(State()).(shift := e.pad.shift, romajiActive := e.pad.romaji,
                                         symbolActive := e.pad.symbol, keyBuffer := [], sKeyBuffer := [])
                && trace == old(trace) + e.events
      ensures old(initialized) && !old(mobile) ==>
                var e := DesktopTick(old(inertia), old(target), input);
                State() == old(State()).(inertia := e.inertia) && trace == old(trace) + e.events
    {
      if !initialized {
        return;
      }
      if mobile {
        DrainSpecialBuffer();
        DrainKeyBuffer();
        sKeyBuffer := [];
        keyBuffer := [];
      } else {
        PollDesktop(input);
      }
    }

    /** The mobile tick's first loop: every buffered special code through the
        switch, front to back, each followed by its audio cue. */
    method DrainSpecialBuffer()
      requires Valid() && initialized && mobile
      modifies this`shift, this`romajiActive, this`symbolActive, this`trace
      ensures Valid()
      ensures var e := DrainSpecials(old(Layout()), target, keyCount, sKeyBuffer);
              Layout() == e.pad && trace == old(trace) + e.events
    {
      ghost var start := Layout();
      var i := 0;
      while i < |sKeyBuffer|
        invariant 0 <= i <= |sKeyBuffer|
        invariant Valid()
        invariant var e := DrainSpecials(start, target, keyCount, sKeyBuffer[..i]);
                  Layout() == e.pad && trace == old(trace) + e.events
      {
        assert sKeyBuffer[..i + 1][..i] == sKeyBuffer[..i];
        DispatchSpecial(sKeyBuffer[i]);
        i := i + 1;
      }
      assert sKeyBuffer[..i] == sKeyBuffer;
    }

    /** One buffered special code through the switch, then its audio cue. */
    method DispatchSpecial(code: SKeyCode)
      requires Valid() && initialized && mobile
      modifies this`shift, this`romajiActive, this`symbolActive, this`trace
      ensures Valid()
      ensures var e := SpecialStep(old(Layout()), target, keyCount, code);
              Layout() == e.pad && trace == old(trace) + e.events
    {
      match code {
        case BACKSPACE =>
          Invoke(OnBackSpacePressed);
        case RETURN =>
          Invoke(OnEnterPressed);
        case SHIFT =>
          shift := !shift;
          trace := trace + Broadcast(keyCount);
          Invoke(OnShiftPressed);
        case SPACE =>
          Invoke(OnSpacePressed);
        case TAB =>
          Invoke(OnTabPressed);
        case SYMBOL =>
          var active := romajiActive;
          romajiActive := !active;
          symbolActive := active;
          Invoke(OnSymbolPressed);
        case UP =>
        case DOWN =>
        case LEFT =>
        case RIGHT =>
      }
      ShotAudio();
    }

    /** The mobile tick's second loop: every buffered character to the field,
        front to back, each followed by its audio cue. */
    method DrainKeyBuffer()
      modifies this`trace
      ensures trace == old(trace) + DrainKeys(target, keyBuffer)
    {
      var i := 0;
      while i < |keyBuffer|
        invariant 0 <= i <= |keyBuffer|
        invariant trace == old(trace) + DrainKeys(target, keyBuffer[..i])
      {
        assert keyBuffer[..i + 1][..i] == keyBuffer[..i];
        Invoke(OnKeyPressed(keyBuffer[i]));
        ShotAudio();
        i := i + 1;
      }
      assert keyBuffer[..i] == keyBuffer;
    }

    /** The desktop tick: advance the backspace timer, then at most one call by
        first match. */
    method PollDesktop(input: TickInput)
      modifies this`inertia, this`trace
      ensures var e := DesktopTick(old(inertia), target, input);
              inertia == e.inertia && trace == old(trace) + e.events
    {
      inertia := inertia + input.delta;
      if input.anyKey {
        if input.returnDown {
          Invoke(OnEnterPressed);
        } else if input.tabDown {
          Invoke(OnTabPressed);
        } else if input.spaceDown {
          Invoke(OnSpacePressed);
        } else if input.backspaceHeld && inertia > INERTIA {
          Invoke(OnBackSpacePressed);
          inertia := 0;
        } else if input.inputString != "" {
          Invoke(OnKeyPressed(input.inputString));
        } else if input.rightMouseDown {
          Invoke(OnKeyPressed(input.clipboard));
        }
      }
    }
  }
}
