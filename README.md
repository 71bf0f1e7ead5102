# TLabVKeyborad: the keyboard controller's buffering and dispatch, in Dafny

This project models the core of the TLabVKeyborad virtual keyboard for Unity:
the controller component `TLabVKeyborad` and its special keys (`SKey`).

On a mobile platform, the on-screen keys report presses to the controller.
Character keys append their text to a character buffer. Special keys append
their `SKeyCode` to a special buffer. Once per frame, `Update` first drains
the special buffer through a switch table:
- BACKSPACE, RETURN, SPACE and TAB each call the attached input field.
- SHIFT flips the shift state, sends `OnShift` to every key, then calls the field.
- SYMBOL swaps the romaji and symbol boxes, then calls the field.
- the arrow keys call nothing.

`Update` then drains the character buffer into the field. Every entry plays
one key-stroke sound. At the end both buffers are cleared.

On a desktop platform, `Update` does not use the buffers. It polls the keyboard
and mouse and makes at most one call per frame, by a fixed priority. A backspace
repeat timer limits how fast held backspace deletes. The controller also has a
one-time `SetUp`, and shows or hides its key box with a change notification.

Files:
- `options.dfy`: `Option`.
- `skey_code.dfy` (module `SKeyCodes`): the `SKeyCode` enum, and the name-to-code
  switch of `SKey.Setup` as pure functions, with its round trip.
- `dispatch.dfy` (module `Dispatch`): one controller step as values.
  - The observable `Event`s: field calls, visibility notifications, audio cues,
    `OnShift` broadcasts, key bindings and the repeated-setup error.
  - The mobile drain (`SpecialStep`, `DrainSpecials`, `DrainKeys`, `MobileTick`).
  - The desktop poll (`DesktopChoice`, `DesktopTick`).
  - A visibility request (`VisibilityAfter`).
- `keyboard.dfy` (module `VKeyboard`): class `Keyboard`, the controller. Its
  fields are updated in place, and a ghost `trace` records every event in order.
  Its methods are proved to change the state and the trace exactly as the
  `Dispatch` functions say. `Valid()` is the layout invariant.
- `skey.dfy` (module `SKeys`): class `SKey` (press, shift reaction, setup) and
  class `Display` (a label object).
- `mobile_props.dfy`, `desktop_props.dfy`, `visibility_props.dfy`: lemmas about
  the `Dispatch` functions.

Behaviour of the code worth knowing:
- **Backspace repeat.** Backspace repeats only when the timer is strictly
  greater than `INERTIA` (`m_inertia > INERTIA`). So backspace held for 250 ms
  in 50 ms frames deletes once, at 150 ms, and not at 100 ms or 200 ms
  (`DesktopProps.HeldBackspaceFor250`).
- **Order within one frame.** Within one frame all specials drain before all
  characters. So presses 'a', 'b', SHIFT, 'C' in one frame reach the field as
  shift, 'a', 'b', 'C', not in press order
  (`MobileProps.SameFrameShiftComesFirst`).
- **Layout exclusivity.** Romaji XOR symbol holds only once a mobile setup has
  run (`Keyboard.Valid`). Before that, the box flags are whatever the scene
  was loaded with, and a desktop setup never touches them.
- **Fixed mode.** The `mobile` property asks the platform again on every read,
  and stores the answer. The platform's answer is fixed for a host
  (`platformMobile`), so after setup this never changes the mode.

Units: time is in whole milliseconds. `INERTIA` is 100, standing for the
source's 0.1 s.

## Model

The functions of module `Dispatch` (`SpecialStep`, `DrainSpecials`,
`DrainKeys`, `MobileTick`, `DesktopChoice`, `DesktopTick`, `VisibilityAfter`)
are the reference definitions of Runtime/TLabVKeyborad.cs:90-98 and 160-238.
They carry no contract of their own: the `Keyboard` methods are proved equal
to them, and the lemmas below state what they mean.

| member | source | states |
|---|---|---|
| SKeyCodes.Ordinal | Runtime/Key/SKey.cs:5-17 | each code's enum value is its position in the declaration, and `AllCodes` holds that code at that position |
| SKeyCodes.AllCodesDistinct | Runtime/Key/SKey.cs:5-17 | the enum has exactly ten values, pairwise distinct, the i-th having value i |
| SKeyCodes.FromName | Runtime/Key/SKey.cs:40-72 | the name switch returns a code only for that code's enum name; for a name that is none of the ten it returns nothing |
| SKeyCodes.NameRoundTrip | Runtime/Key/SKey.cs:40-72 | a key named after code c gets code c from the switch |
| SKeyCodes.NameInjective | Runtime/Key/SKey.cs:40-72 | no two codes share a name, so the mapping is injective |
| SKeyCodes.SetupKnownName | Runtime/Key/SKey.cs:40-72 | setup on a key named after c sets its code to c, whatever it held |
| SKeyCodes.SetupUnknownName | Runtime/Key/SKey.cs:40-72 | setup on any other name leaves the code unchanged (no default branch) |
| SKeys.SKey.OnPress | Runtime/Key/SKey.cs:23-26 | a press appends exactly this key's code to the controller's special buffer and changes nothing else |
| SKeys.SKey.OnShift | Runtime/Key/SKey.cs:28-32 | both labels end active, whatever the shift state, so repeating it changes nothing |
| SKeys.SKey.Setup | Runtime/Key/SKey.cs:35-76 | the code becomes the named one or stays, and both labels become the same first child |
| VKeyboard.Keyboard.constructor | Runtime/TLabVKeyborad.cs:41-50 | a loaded controller is not set up, not shifted, has timer 0 and empty buffers, and keeps the scene's box flags |
| VKeyboard.Keyboard.QueryMobile | Runtime/TLabVKeyborad.cs:55-62 | reading `mobile` stores and returns the platform's answer, keeping the invariant |
| VKeyboard.Keyboard.SwitchInputField | Runtime/TLabVKeyborad.cs:74 | the attached field, or none, is replaced and nothing else changes |
| VKeyboard.Keyboard.OnKeyPress | Runtime/TLabVKeyborad.cs:76 | appends exactly the text to the end of the character buffer; nothing else changes, the special buffer included |
| VKeyboard.Keyboard.OnSKeyPress | Runtime/TLabVKeyborad.cs:78 | appends exactly the code to the end of the special buffer; nothing else changes, the character buffer included |
| VKeyboard.Keyboard.SetVisibility | Runtime/TLabVKeyborad.cs:90-98 | asking for the current visibility changes nothing and notifies no one; otherwise the visibility becomes the request and one notification carries it |
| VKeyboard.Keyboard.SwitchVisibility | Runtime/TLabVKeyborad.cs:100 | flips the visibility and notifies once with the new value |
| VKeyboard.Keyboard.Hide | Runtime/TLabVKeyborad.cs:102 | behaves as a visibility request for the negated argument |
| VKeyboard.Keyboard.Show | Runtime/TLabVKeyborad.cs:104 | behaves as a visibility request for the argument |
| VKeyboard.Keyboard.SetUp | Runtime/TLabVKeyborad.cs:106-140 | a repeated setup leaves every field as it was and only logs the error. A first mobile setup binds every key and ends with operator and romaji active and symbol inactive. A first desktop setup hides the key box, notifying only if it was shown. Either way `initialized` ends true and the invariant holds |
| VKeyboard.Keyboard.Start | Runtime/TLabVKeyborad.cs:142-149 | ends set up in the platform's mode; the events are those of a setup (if not done yet) followed by those of a hide (if so configured). A first mobile run ends with operator and romaji active and symbol inactive; apart from that and the visibility, buffers, shift, timer and field stay as they were |
| VKeyboard.Keyboard.Invoke | Runtime/TLabVKeyborad.cs:165-197 | a call through the nullable field reference reaches the attached field once, and does nothing when no field is attached |
| VKeyboard.Keyboard.ShotAudio | Runtime/TLabVKeyborad.cs:192 | the key-stroke cue plays once, immediately |
| VKeyboard.Keyboard.Update | Runtime/TLabVKeyborad.cs:151-240 | before setup nothing changes and nothing is issued. In mobile mode the pad and trace follow `MobileTick` on the old buffers, and both buffers end empty. In desktop mode only the timer and trace change, as `DesktopTick` says |
| VKeyboard.Keyboard.DrainSpecialBuffer | Runtime/TLabVKeyborad.cs:160-193 | the loop over the special buffer leaves the pad and trace as `DrainSpecials` on the buffer, keeping the invariant |
| VKeyboard.Keyboard.DispatchSpecial | Runtime/TLabVKeyborad.cs:162-192 | one code through the switch and its audio cue, as `SpecialStep` |
| VKeyboard.Keyboard.DrainKeyBuffer | Runtime/TLabVKeyborad.cs:195-200 | the loop over the character buffer issues `DrainKeys` of the buffer |
| VKeyboard.Keyboard.PollDesktop | Runtime/TLabVKeyborad.cs:207-238 | the desktop branch leaves the timer and trace as `DesktopTick` |
| MobileProps.StepCalls | Runtime/TLabVKeyborad.cs:162-190 | each special code makes exactly the one call its table entry names, and the arrow keys make none |
| MobileProps.SpecialCallsInOrder | Runtime/TLabVKeyborad.cs:160-193 | the special buffer makes the table's calls in buffer (FIFO) order |
| MobileProps.KeyCallsInOrder | Runtime/TLabVKeyborad.cs:195-200 | the character buffer is typed into the field in buffer (FIFO) order, one call per entry |
| MobileProps.MobileCallsInOrder | Runtime/TLabVKeyborad.cs:158-203 | with a field attached, the calls of a mobile tick are all the specials' calls in order, then all the characters in order |
| MobileProps.SameFrameShiftComesFirst | Runtime/TLabVKeyborad.cs:158-203 | 'a', 'b', SHIFT, 'C' in one frame reach the field as shift, 'a', 'b', 'C' |
| MobileProps.NoFieldNoCalls | Runtime/TLabVKeyborad.cs:165-197 | with no field attached, a mobile tick makes no call at all |
| MobileProps.OneCuePerEntry | Runtime/TLabVKeyborad.cs:160-200 | a mobile tick plays exactly one audio cue per buffered entry, arrow keys included |
| MobileProps.PadAfterSpecials | Runtime/TLabVKeyborad.cs:170-189 | shift is flipped once per SHIFT and romaji once per SYMBOL; romaji and symbol end exclusive if they were, or if any SYMBOL was pressed |
| MobileProps.ShiftTwiceRestores | Runtime/TLabVKeyborad.cs:170-171 | two more SHIFT presses leave the pad as it was without them |
| MobileProps.EveryKeyShifted | Runtime/TLabVKeyborad.cs:170-177 | every key under the key box gets `OnShift` exactly once per SHIFT press |
| DesktopProps.FirstMatch | Runtime/TLabVKeyborad.cs:213-237 | first match over a priority list: nothing exactly when no rule holds, else the call of a holding rule with none holding before it |
| DesktopProps.DesktopChoiceIsFirstMatch | Runtime/TLabVKeyborad.cs:209-237 | the desktop call is the first match over Return, Tab, Space, backspace held past `INERTIA` (strictly), typed text, right mouse with the clipboard, and only while some key is down |
| DesktopProps.AtMostOneCall | Runtime/TLabVKeyborad.cs:207-238 | a desktop tick makes at most one call, on the attached field, plays no audio cue, and with no key down only advances the timer |
| DesktopProps.ReturnWins | Runtime/TLabVKeyborad.cs:213-216 | with Return pressed, only the enter call fires, whatever else is pressed or typed |
| DesktopProps.TimerRule | Runtime/TLabVKeyborad.cs:207-229 | the timer grows by the frame's time every tick; only a backspace dispatch, which needs it strictly past `INERTIA`, resets it to 0 |
| DesktopProps.BackspaceRepeatRate | Runtime/TLabVKeyborad.cs:207-229 | over any run of frames, backspace dispatches times `INERTIA + 1`, plus the final timer, is at most the initial timer plus the run's time |
| DesktopProps.HeldBackspaceFor250 | Runtime/TLabVKeyborad.cs:207-229 | backspace held for 250 ms in 50 ms frames from timer 0 deletes exactly once |
| VisibilityProps.NotifiesOnlyOnChange | Runtime/TLabVKeyborad.cs:90-98 | a request ends at the requested visibility; it notifies once, carrying it, on a change and never otherwise |
| VisibilityProps.RepeatIsSilent | Runtime/TLabVKeyborad.cs:90-98 | repeating a request changes nothing and notifies no one |
| VisibilityProps.SwitchTwiceRestores | Runtime/TLabVKeyborad.cs:100 | switching twice restores the visibility, with one notification each way |

## Left out

- `SetTransform` (placing the keyboard in space) is not modelled: it does not touch dispatch.
- The editor-only tools `Attach`, `SetUpKey` and `SetUpKeyVisual` are not modelled.
- `SKey.Setup` calls `base.Setup` and looks up the first child with `transform.GetChild(0)`. Neither is modelled; the child is passed in as a parameter.
- Audio playback is modelled only as a `KeyStroke` event in the trace. Finding the `AudioSource` component in `SetUp` is not modelled.
- The platform query is a constant of the controller (`platformMobile`), set when it is built.
- Unity's `Input`, `Time.deltaTime` and the system clipboard are replaced by a `TickInput` record for each desktop frame.
- Times are whole milliseconds, not floats. The strict `>` comparison with `INERTIA` is kept.
- The keys under the key box are a count, `keyCount`. Walking the key tree becomes the events `KeyBound(i)` (binding in `SetUp`) and `KeyShifted(i)` (the SHIFT broadcast).
- What a character key does on `OnShift` is not modelled. `KeyBase` and the character key class are not part of this model.
- Active flags of game objects and the `UnityEvent` callback are booleans and trace events.
- `SetUp` first activates the symbol box and then deactivates it again. Nothing in the model can observe that moment, so only the final flags are kept.
- The printable-text test `inputString != "" && inputString != ""` repeats the same comparison. It is modelled as a test for non-empty text.
- SKeys.SKey.OnPress: requires the key to be bound to a controller. An unbound key would dereference null in the source.
