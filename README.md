# Zomdroid input handling: a Dafny model

This project models the input layer of the Zomdroid Android launcher for a PC
game and proves properties of it. It covers three parts:

- **Gamepad normalisation and hotplug** (`gamepad_manager.dfy`, module
  `GamepadManager`). This is `com.zomdroid.input.GamepadManager`:
  - the source-bitmask test that classifies a device or an event as a gamepad;
  - the table from Android key codes to GLFW gamepad button numbers;
  - the d-pad state built from the two hat axes;
  - the key and motion handlers that drive a `GamepadListener`;
  - the start-up scan and the device-added and device-removed callbacks.

  The manager keeps no state. Each handler returns the listener calls it makes,
  in order. `SessionLog` concatenates them over a sequence of callbacks.
- **The game activity** (`game_activity.dfy`, module `Activity`). This is
  `com.zomdroid.GameActivity`:
  - the class `GameActivity` holds the `isGamepadConnected` flag and the
    visibility of the on-screen controls;
  - its constructor is the input part of `onCreate`;
  - it has its own copy of the hotplug callbacks and of the key and motion
    dispatch, which calls `InputNativeInterface` directly;
  - the class `TouchListener` is the game surface's touch listener. Its field
    `pointerId` names the one finger that acts as a mouse.
  Native calls are returned as a list, in call order.
- **Steam Workshop links** (`workshop.dfy`, module `Workshop`). This is
  `com.zomdroid.fragments.WorkshopFragment`:
  - the file-ID extraction, a `find()` of the regular expression
    `[?&]id=(\d+)`;
  - Java's `String.trim`;
  - the download button's outcome: a toast for an empty link, the invalid-link
    message, or a preview of the SteamCMD command.

`wrappers.dfy` holds `Option`, which stands for Java's `null` here.

Android values used, as defined by the platform:

- Source masks (`bv32`, a Java `int`):
  - `SOURCE_GAMEPAD` = 0x401;
  - `SOURCE_JOYSTICK` = 0x01000010;
  - `SOURCE_KEYBOARD` = 0x101;
  - `SOURCE_DPAD` = 0x201.
- Key codes `KEYCODE_BUTTON_*`: A 96, B 97, X 99, Y 100, L1 102, R1 103,
  THUMBL 106, THUMBR 107, START 108, SELECT 109, MODE 110.
- Touch actions: DOWN 0, UP 1, MOVE 2, POINTER_DOWN 5, and POINTER_UP 6, which the listener does not handle.
- Axes: X 0, Y 1, Z 11, RZ 14, HAT_X 15, HAT_Y 16, LTRIGGER 17, RTRIGGER 18.
- GLFW's left mouse button is 0.

The d-pad state is a `bv16`, a Java `char`. Axis readings are `real`.

Two behaviours of the code that the proofs make explicit:

- `GamepadManager` keeps no connected state. Every added gamepad emits a
  connect, and a removal that leaves no gamepad emits a disconnect even when
  none was connected. See `RepeatedAddsRepeatConnects` and `HotplugScenario`.
- `GameActivity.onCreate` clears `isGamepadConnected` at its end, after the
  start-up scan may have set it. So right after creation, the controls can be
  hidden while the flag says "not connected". See `CreatedStateFacts`. The flag
  is never read, and the next transition brings the two back into agreement.
  See `TransitionRestoresAgreement`.

## Model

| member | source | states |
|---|---|---|
| GamepadManager.GamepadMaskBits | app/src/main/java/com/zomdroid/input/GamepadManager.java:56-60 | the gamepad mask has exactly bits 0 and 10 set; the joystick mask has exactly bits 4 and 24 set |
| GamepadManager.GamepadSourceIsEveryBit | app/src/main/java/com/zomdroid/input/GamepadManager.java:56-60 | a source counts as a gamepad exactly when it has every bit of the gamepad mask or every bit of the joystick mask; stated both against a bit-by-bit reference predicate and as four named bits |
| GamepadManager.SharedBitIsNotEnough | app/src/main/java/com/zomdroid/input/GamepadManager.java:92-96 | a keyboard, a d-pad and a bare joystick class share a bit with a mask but are not gamepads; the two masks themselves are |
| GamepadManager.GamepadSourceUpwardClosed | app/src/main/java/com/zomdroid/input/GamepadManager.java:98-103 | adding capability bits to a gamepad source keeps it a gamepad |
| GamepadManager.MapKeyCodeToButton | app/src/main/java/com/zomdroid/input/GamepadManager.java:148-163 | the result is -1 exactly for key codes outside the eleven-entry table; otherwise it is the button index whose table entry is that key code |
| GamepadManager.MapKeyCodeOnto | app/src/main/java/com/zomdroid/input/GamepadManager.java:150-160 | every button number 0..10 is produced, by its own key code |
| GamepadManager.MapKeyCodeInjective | app/src/main/java/com/zomdroid/input/GamepadManager.java:149-161 | two key codes that map to the same button are equal |
| GamepadManager.DpadMask | app/src/main/java/com/zomdroid/input/GamepadManager.java:136-143 | each of the up, down, left and right bits is set exactly when its hat axis is beyond its strict 0.5 threshold; no other bit is set |
| GamepadManager.DpadMaskProperties | app/src/main/java/com/zomdroid/input/GamepadManager.java:138-142 | the state is at most 15; up and down are never both set, nor left and right; hats within [-0.5, 0.5] give 0 |
| GamepadManager.DpadMaskExamples | app/src/main/java/com/zomdroid/input/GamepadManager.java:139-142 | hat values -1, 1 and the exact threshold values give the expected bits |
| GamepadManager.ComputeDpadState | app/src/main/java/com/zomdroid/input/GamepadManager.java:138-142 | the successive `|=` updates produce the d-pad mask of the hat values |
| GamepadManager.HandleKeyEvent | app/src/main/java/com/zomdroid/input/GamepadManager.java:106-116 | handled exactly when the source is a gamepad and the key is in the table; then it emits one button event with the mapped button, pressed exactly when the action is key-down; otherwise it emits nothing |
| GamepadManager.HandleMotionEvent | app/src/main/java/com/zomdroid/input/GamepadManager.java:119-145 | handled exactly when the source is a gamepad; then it emits axes 0..5 with the X, Y, Z, RZ, LTRIGGER and RTRIGGER readings (0 when absent), in order, then the d-pad mask on pad 0; otherwise it emits nothing |
| GamepadManager.ScanForGamepad | app/src/main/java/com/zomdroid/input/GamepadManager.java:72-80 | the early-exit loop returns true exactly when some present device is a gamepad |
| GamepadManager.Register | app/src/main/java/com/zomdroid/input/GamepadManager.java:37-48 | the start-up scan emits what `CallEmits` specifies for it: exactly one connect when a gamepad is attached, and nothing otherwise |
| GamepadManager.OnInputDeviceAdded | app/src/main/java/com/zomdroid/input/GamepadManager.java:62-68 | emits what `CallEmits` specifies for an addition: one connect when the looked-up device is present and a gamepad, nothing otherwise |
| GamepadManager.OnInputDeviceRemoved | app/src/main/java/com/zomdroid/input/GamepadManager.java:70-84 | emits what `CallEmits` specifies for a removal: one disconnect when no remaining device is a gamepad, nothing otherwise |
| GamepadManager.SessionLogAppend | app/src/main/java/com/zomdroid/input/GamepadManager.java:37-84 | the log of a session extended by one callback is the old log followed by that callback's events |
| GamepadManager.RepeatedAddsRepeatConnects | app/src/main/java/com/zomdroid/input/GamepadManager.java:62-68 | n gamepad additions in a row emit exactly n connects; nothing is de-duplicated |
| GamepadManager.HotplugScenario | app/src/main/java/com/zomdroid/input/GamepadManager.java:37-84 | register with a gamepad, add a second, remove one, remove the last: connect, connect, disconnect; a keyboard-only session gives a single disconnect |
| Activity.CreatedStateFacts | app/src/main/java/com/zomdroid/GameActivity.java:54-63 | after creation the flag is false; the controls are hidden exactly when the layout has them and the scan found a gamepad; visible controls then end up out of step with the flag |
| Activity.TransitionsIdempotent | app/src/main/java/com/zomdroid/GameActivity.java:350-362 | connecting twice is connecting once, and likewise for disconnecting; each transition leaves the flag and the controls in agreement |
| Activity.CallbackTransitions | app/src/main/java/com/zomdroid/GameActivity.java:236-256 | an added gamepad connects and any other addition changes nothing; a removal disconnects exactly when no remaining device is a gamepad, and otherwise changes nothing |
| Activity.CallbacksKeepAgreement | app/src/main/java/com/zomdroid/GameActivity.java:236-256 | once the controls agree with the flag, no sequence of hotplug callbacks separates them |
| Activity.TransitionRestoresAgreement | app/src/main/java/com/zomdroid/GameActivity.java:236-256 | after any callback that changes the state, the controls agree with the flag from then on |
| Activity.CallbacksFrom | app/src/main/java/com/zomdroid/GameActivity.java:236-256 | agreement reached after a prefix of the callbacks holds after all of them |
| Activity.ActivityMatchesManager | app/src/main/java/com/zomdroid/GameActivity.java:236-256 | the activity's inline callbacks change its state exactly as `GamepadManager`'s listener events would |
| Activity.FindPointerIndex | app/src/main/java/com/zomdroid/GameActivity.java:199-200 | the first index carrying the id, or -1 exactly when no index carries it |
| Activity.TouchDown | app/src/main/java/com/zomdroid/GameActivity.java:188-196 | DOWN and POINTER_DOWN track the action's pointer, replacing any tracked one, move the cursor to that pointer, press the left button and consume the event |
| Activity.TouchMove | app/src/main/java/com/zomdroid/GameActivity.java:197-208 | MOVE is never consumed; with no tracked pointer it does nothing; a tracked pointer that has gone is forgotten; otherwise one cursor move to the tracked pointer's index |
| Activity.TouchUpAndOthers | app/src/main/java/com/zomdroid/GameActivity.java:209-216 | UP of the tracked pointer releases the left button, clears the tracking and consumes the event; UP of another pointer and every other action do nothing and are not consumed |
| Activity.CountButtonAppend | app/src/main/java/com/zomdroid/GameActivity.java:194-212 | press and release counts add up over concatenated call lists |
| Activity.TouchRunBalance | app/src/main/java/com/zomdroid/GameActivity.java:179-218 | over any run of touch events the tracked value stays "none" or a pointer id; releases never outnumber presses, and while a pointer is tracked one press is still unmatched |
| Activity.SecondFingerLeavesButtonPressed | app/src/main/java/com/zomdroid/GameActivity.java:187-216 | first finger down, second finger down, second finger up (POINTER_UP, not handled), first finger up: two presses, no release, the second finger still tracked |
| Activity.TouchListener.constructor | app/src/main/java/com/zomdroid/GameActivity.java:181 | no pointer is tracked at first |
| Activity.TouchListener.OnTouch | app/src/main/java/com/zomdroid/GameActivity.java:183-217 | the returned consumption, the native calls and the new tracked pointer are those of one touch step from the old tracked pointer |
| Activity.GameActivity.constructor | app/src/main/java/com/zomdroid/GameActivity.java:54-63 | the flag and controls after the start-up scan and the flag reset at the end of `onCreate` are the creation state; the touch listener is new and tracks nothing |
| Activity.GameActivity.OnGamepadConnected | app/src/main/java/com/zomdroid/GameActivity.java:350-355 | the flag is set and the controls, when present, are hidden; nothing else changes |
| Activity.GameActivity.OnGamepadDisconnected | app/src/main/java/com/zomdroid/GameActivity.java:357-362 | the flag is cleared and the controls, when present, are shown; nothing else changes |
| Activity.GameActivity.OnInputDeviceAdded | app/src/main/java/com/zomdroid/GameActivity.java:236-242 | the new state is the added-device transition of the old one |
| Activity.GameActivity.OnInputDeviceRemoved | app/src/main/java/com/zomdroid/GameActivity.java:244-256 | the new state is the removed-device transition of the old one, after the early-exit scan of the remaining devices |
| Activity.GameActivity.HandleGamepadKeyEvent | app/src/main/java/com/zomdroid/GameActivity.java:295-302 | a key in the table sends one joystick button call with the mapped button, pressed exactly on key-down; any other key sends nothing |
| Activity.GameActivity.DispatchKeyEvent | app/src/main/java/com/zomdroid/GameActivity.java:266-272 | consumed exactly when the source is a gamepad, mapped key or not; only a mapped gamepad key sends a call |
| Activity.GameActivity.HandleGamepadMotionEvent | app/src/main/java/com/zomdroid/GameActivity.java:304-330 | sends joystick axes 0..5 from the stick and trigger readings, in order, then the d-pad mask on pad 0 |
| Activity.GameActivity.DispatchGenericMotionEvent | app/src/main/java/com/zomdroid/GameActivity.java:274-281 | consumed exactly when the source is a gamepad, with the seven calls above; otherwise passed to the superclass with no call |
| Workshop.DigitRunEnd | app/src/main/java/com/zomdroid/fragments/WorkshopFragment.java:65 | the greedy `\d+`: every character up to the end is a digit, and the end is the text's end or a non-digit |
| Workshop.FindMatch | app/src/main/java/com/zomdroid/fragments/WorkshopFragment.java:68 | the reported start matches `[?&]id=\d`, and no earlier start from the scan position matches |
| Workshop.ExtractWorkshopFileId | app/src/main/java/com/zomdroid/fragments/WorkshopFragment.java:64-72 | `null` exactly when no position matches; otherwise all the digits after the leftmost match |
| Workshop.DigitRunEndUnique | app/src/main/java/com/zomdroid/fragments/WorkshopFragment.java:65 | a maximal run of digits has only one end |
| Workshop.FindMatchLeftmost | app/src/main/java/com/zomdroid/fragments/WorkshopFragment.java:68 | the leftmost match is the one `find()` reports |
| Workshop.IdAtUnique | app/src/main/java/com/zomdroid/fragments/WorkshopFragment.java:69 | a match position determines group 1 |
| Workshop.ExtractCharacterised | app/src/main/java/com/zomdroid/fragments/WorkshopFragment.java:64-72 | any leftmost match with its full digit run is exactly what the extraction returns |
| Workshop.MatchesAtInfix | app/src/main/java/com/zomdroid/fragments/WorkshopFragment.java:65 | a match inside part of a text is a match of the whole text, and back |
| Workshop.SkipPrefix | app/src/main/java/com/zomdroid/fragments/WorkshopFragment.java:68 | a prefix with neither '?' nor '&' only shifts where the scan finds a match |
| Workshop.DigitRunInInfix | app/src/main/java/com/zomdroid/fragments/WorkshopFragment.java:65 | a digit run inside part of a text that is followed by a non-digit ends at the same place in the whole text |
| Workshop.ExtractAfterPrefix | app/src/main/java/com/zomdroid/fragments/WorkshopFragment.java:64-72 | a prefix with neither '?' nor '&' never changes the extracted ID |
| Workshop.ExtractAfterPrefixes | app/src/main/java/com/zomdroid/fragments/WorkshopFragment.java:64-72 | neither do two such prefixes |
| Workshop.ExampleQuery | app/src/main/java/com/zomdroid/fragments/WorkshopFragment.java:62 | `?id=123456789` gives `123456789` |
| Workshop.ExampleSplit | app/src/main/java/com/zomdroid/fragments/WorkshopFragment.java:62 | the documented URL is its host, its path and its query, joined |
| Workshop.ExamplePrefixes | app/src/main/java/com/zomdroid/fragments/WorkshopFragment.java:62 | the documented URL's host and path hold neither '?' nor '&' |
| Workshop.DocumentedExample | app/src/main/java/com/zomdroid/fragments/WorkshopFragment.java:60-63 | the URL of the method's documentation gives `123456789` |
| Workshop.MatchEdgeCases | app/src/main/java/com/zomdroid/fragments/WorkshopFragment.java:65-71 | `id=` without `?` or `&` gives `null`, as does `?id=` without a digit; a later match counts when an earlier `id=` has no digit; the digit run stops at the first non-digit |
| Workshop.TrimStart | app/src/main/java/com/zomdroid/fragments/WorkshopFragment.java:33 | the first character from the start that is above U+0020, or the end |
| Workshop.TrimEnd | app/src/main/java/com/zomdroid/fragments/WorkshopFragment.java:33 | the end moved back past characters at or below U+0020, not below the start |
| Workshop.JavaTrim | app/src/main/java/com/zomdroid/fragments/WorkshopFragment.java:33 | the result is part of the input with only characters at or below U+0020 around it; it is empty or starts and ends with a character above U+0020 |
| Workshop.TrimEmptyIffBlank | app/src/main/java/com/zomdroid/fragments/WorkshopFragment.java:33-34 | the trimmed link is empty exactly when every character is at or below U+0020 |
| Workshop.TrimIdempotent | app/src/main/java/com/zomdroid/fragments/WorkshopFragment.java:33 | trimming twice is trimming once |
| Workshop.DigitNotTrimmed | app/src/main/java/com/zomdroid/fragments/WorkshopFragment.java:33 | a digit is never removed by the trim |
| Workshop.MatchInsideBorders | app/src/main/java/com/zomdroid/fragments/WorkshopFragment.java:33-39 | every match of the untrimmed text lies inside the trimmed part and is a match there |
| Workshop.DigitRunInsideBorders | app/src/main/java/com/zomdroid/fragments/WorkshopFragment.java:33-39 | the digit run of a match ends inside the trimmed part, at the same place |
| Workshop.ExtractInsideBorders | app/src/main/java/com/zomdroid/fragments/WorkshopFragment.java:33-39 | surrounding a text with characters at or below U+0020 never changes the extracted ID |
| Workshop.ExtractIgnoresTrim | app/src/main/java/com/zomdroid/fragments/WorkshopFragment.java:33-39 | the handler's trim never changes the extracted ID |
| Workshop.OccursInMiddle | app/src/main/java/com/zomdroid/fragments/WorkshopFragment.java:47-55 | a joined text holds its middle part right after its head |
| Workshop.PreviewTextFacts | app/src/main/java/com/zomdroid/fragments/WorkshopFragment.java:45-55 | the preview starts with the ID line and contains the `+workshop_download_item 108600 <id> +quit` arguments for that ID |
| Workshop.OnDownloadClicked | app/src/main/java/com/zomdroid/fragments/WorkshopFragment.java:32-56 | a toast with the empty-link message exactly when the trimmed input is empty; the invalid-link text when no ID is found; otherwise a preview that starts with the ID line and contains the download arguments for the ID of the untrimmed input |

## Left out

- Android lifecycle and UI plumbing: `onCreate` beyond its input part, `onDestroy`, window insets, the surface callbacks, native and FMOD library loading, content views and layout inflation. The layout's controls view is a parameter of `GameActivity.constructor`.
- Listener registration with `InputManager`, `GamepadManager.unregister` and the two empty `onInputDeviceChanged` methods: they call the platform and compute nothing.
- `InputManager` and `InputDevice` lookups: the device list and the looked-up device are parameters (`Option<bv32>`, `None` for `null`).
- The bodies of the native calls (`InputNativeInterface`, JNI): handlers return the calls they make, in order.
- Touch coordinates and the render scale: `Activity.TouchListener.OnTouch` records which pointer index a cursor position comes from, not the float coordinates multiplied by `renderScale`. Float rounding is not modelled, and axis readings are exact `real` values.
- `GLFWBinding` is not part of this model. Its left-mouse-button code is taken as GLFW's 0.
- Touch actions other than DOWN, POINTER_DOWN, MOVE and UP, including POINTER_UP and CANCEL, fall through to `false` as in the code. `Activity.SecondFingerLeavesButtonPressed` shows the consequence.
- `Activity.TouchListener.OnTouch` requires the action index to name a pointer and all pointer ids to be non-negative, as Android guarantees, instead of modelling `getPointerId`'s exception.
- The Workshop fragment's widgets: the input text is a parameter of `OnDownloadClicked`. So is the download directory from `Environment`. The toast and the output view are the two cases of the returned outcome.
- `Workshop.OnDownloadClicked`: states that the preview starts with the ID line and contains the download arguments. It does not spell out the whole text; that is `PreviewText`.
- `Workshop.ExtractWorkshopFileId`: `\d` is read as the ASCII digits, as in Java without the Unicode character-class flag.
