/** What one step of the keyboard controller does, as values: the observable
    events it issues and the state it leaves. The class in keyboard.dfy is
    proved to behave as these functions say; the lemmas about them are in
    mobile_props.dfy and desktop_props.dfy. */
module Dispatch {
  import opened Options
  import opened SKeyCodes

  /** An input field the keyboard types into; only its identity matters here. */
  datatype InputField = InputField(id: nat)

  /** The calls the controller makes on an input field. */
  datatype Call =
    | OnBackSpacePressed
    | OnEnterPressed
    | OnShiftPressed
    | OnSpacePressed
    | OnTabPressed
    | OnSymbolPressed
    | OnKeyPressed(key: string)

  /** Everything the controller does that is seen outside its own fields. */
  datatype Event =
    | Called(field: InputField, call: Call)  // a call on the attached input field
    | VisibilityChanged(visible: bool)       // the visibility-changed callback
    | KeyStroke                              // the key-stroke audio cue, played at once
    | KeyShifted(index: nat)                 // OnShift on the index-th key under the key box
    | KeyBound(index: nat)                   // the index-th key under the key box bound to the controller
    | AlreadyInitialised                     // the error logged by a repeated setup

  /** The backspace repeat interval in milliseconds (0.1 s). */
  const INERTIA: nat := 100

  /** A call through the nullable field reference: nothing happens without a field. */
  function Notify(target: Option<InputField>, c: Call): seq<Event>
  {
    match target
    case None => []
    case Some(f) => [Called(f, c)]
  }

  /** OnShift sent to each of the `keyCount` keys under the key box, in order. */
  function Broadcast(keyCount: nat): seq<Event>
  {
    seq(keyCount, i requires 0 <= i => KeyShifted(i))
  }

  /** Each of the `keyCount` keys under the key box bound to the controller, in order. */
  function Bindings(keyCount: nat): seq<Event>
  {
    seq(keyCount, i requires 0 <= i => KeyBound(i))
  }

  // ---------------------------------------------------------------------
  // Visibility

  /** The key box's visibility after a request, and the notifications sent. */
  datatype Shown = Shown(visible: bool, events: seq<Event>)

  /** A request to make the key box `active` when it is `visible` now. */
  function VisibilityAfter(visible: bool, active: bool): Shown
  {
    if active == visible then Shown(visible, [])
    else Shown(active, [VisibilityChanged(active)])
  }

  // ---------------------------------------------------------------------
  // Mobile mode: draining the two buffers

  /** The controller state a mobile tick changes: the shift state and which of
      the romaji and symbol boxes is active. */
  datatype Pad = Pad(shift: bool, romaji: bool, symbol: bool)

  /** A pad and the events issued while reaching it. */
  datatype Effect = Effect(pad: Pad, events: seq<Event>)

  /** One entry of the special buffer through the switch, then its audio cue. */
  function SpecialStep(p: Pad, target: Option<InputField>, keyCount: nat, code: SKeyCode): Effect
  {
    match code
    case BACKSPACE => Effect(p, Notify(target, OnBackSpacePressed) + [KeyStroke])
    case RETURN => Effect(p, Notify(target, OnEnterPressed) + [KeyStroke])
    case SHIFT =>
      Effect(p.(shift := !p.shift), Broadcast(keyCount) + Notify(target, OnShiftPressed) + [KeyStroke])
    case SPACE => Effect(p, Notify(target, OnSpacePressed) + [KeyStroke])
    case TAB => Effect(p, Notify(target, OnTabPressed) + [KeyStroke])
    case SYMBOL =>
      Effect(p.(romaji := !p.romaji, symbol := p.romaji), Notify(target, OnSymbolPressed) + [KeyStroke])
    case UP | DOWN | LEFT | RIGHT => Effect(p, [KeyStroke])
  }

  /** The special buffer drained front to back, starting from pad `p`. */
  function DrainSpecials(p: Pad, target: Option<InputField>, keyCount: nat, codes: seq<SKeyCode>): Effect
    decreases |codes|
  {
    if codes == [] then Effect(p, [])
    else
      var before := DrainSpecials(p, target, keyCount, codes[..|codes| - 1]);
      var step := SpecialStep(before.pad, target, keyCount, codes[|codes| - 1]);
      Effect(step.pad, before.events + step.events)
  }

  /** The character buffer drained front to back: each entry goes to the field,
      then its audio cue plays. */
  function DrainKeys(target: Option<InputField>, keys: seq<string>): seq<Event>
    decreases |keys|
  {
    if keys == [] then []
    else DrainKeys(target, keys[..|keys| - 1]) + Notify(target, OnKeyPressed(keys[|keys| - 1])) + [KeyStroke]
  }

  /** A whole mobile tick: the special buffer, then the character buffer. */
  function MobileTick(p: Pad, target: Option<InputField>, keyCount: nat,
                      codes: seq<SKeyCode>, keys: seq<string>): Effect
  {
    var specials := DrainSpecials(p, target, keyCount, codes);
    Effect(specials.pad, specials.events + DrainKeys(target, keys))
  }

  // ---------------------------------------------------------------------
  // Desktop mode: polling, one event per tick

  /** The host's input state for one desktop tick: whether any key is down,
      the keys pressed this tick, whether backspace is held, the text typed
      this tick, the right mouse button, the system clipboard's contents and
      the time since the previous tick in milliseconds. */
  datatype TickInput = TickInput(
    anyKey: bool,
    returnDown: bool,
    tabDown: bool,
    spaceDown: bool,
    backspaceHeld: bool,
    inputString: string,
    rightMouseDown: bool,
    clipboard: string,
    delta: nat)

  /** The call a desktop tick makes, by first match, given the backspace
      timer after this tick's time has been added to it. */
  function DesktopChoice(input: TickInput, inertia: nat): Option<Call>
  {
    if !input.anyKey then None
    else if input.returnDown then Some(OnEnterPressed)
    else if input.tabDown then Some(OnTabPressed)
    else if input.spaceDown then Some(OnSpacePressed)
    else if input.backspaceHeld && inertia > INERTIA then Some(OnBackSpacePressed)
    else if input.inputString != "" then Some(OnKeyPressed(input.inputString))
    else if input.rightMouseDown then Some(OnKeyPressed(input.clipboard))
    else None
  }

  /** The backspace timer after a desktop tick and the events it issued. */
  datatype DesktopEffect = DesktopEffect(inertia: nat, events: seq<Event>)

  /** A desktop tick: the timer accumulates the tick's time, at most one call
      is made, and a backspace dispatch restarts the timer. */
  function DesktopTick(inertia: nat, target: Option<InputField>, input: TickInput): DesktopEffect
  {
    var elapsed := inertia + input.delta;
    match DesktopChoice(input, elapsed)
    case None => DesktopEffect(elapsed, [])
    case Some(c) => DesktopEffect(if c == OnBackSpacePressed then 0 else elapsed, Notify(target, c))
  }
}
