/**
 * Gamepad input normalisation and hotplug detection, as done by
 * `com.zomdroid.input.GamepadManager`.
 *
 * The manager keeps no state of its own: it reads the platform's device list
 * and the delivered event, and calls a `GamepadListener`. Here every handler
 * returns the listener calls it makes, in order; what the listener sees over a
 * session is the concatenation of those lists (`SessionLog`).
 *
 * A device as returned by `InputManager.getInputDevice` is an
 * `Option<bv32>`: `None` for `null`, otherwise the device's source bitmask.
 */
module GamepadManager {
  import opened Wrappers

  // ---------------------------------------------------------------------------
  // Android constants (android.view.InputDevice, KeyEvent, MotionEvent)
  // ---------------------------------------------------------------------------

  const SOURCE_CLASS_BUTTON: bv32 := 0x0000_0001
  const SOURCE_CLASS_JOYSTICK: bv32 := 0x0000_0010
  const SOURCE_KEYBOARD: bv32 := 0x0000_0100 | SOURCE_CLASS_BUTTON
  const SOURCE_DPAD: bv32 := 0x0000_0200 | SOURCE_CLASS_BUTTON
  const SOURCE_GAMEPAD: bv32 := 0x0000_0400 | SOURCE_CLASS_BUTTON
  const SOURCE_JOYSTICK: bv32 := 0x0100_0000 | SOURCE_CLASS_JOYSTICK

  const KEYCODE_BUTTON_A: int := 96
  const KEYCODE_BUTTON_B: int := 97
  const KEYCODE_BUTTON_X: int := 99
  const KEYCODE_BUTTON_Y: int := 100
  const KEYCODE_BUTTON_L1: int := 102
  const KEYCODE_BUTTON_R1: int := 103
  const KEYCODE_BUTTON_THUMBL: int := 106
  const KEYCODE_BUTTON_THUMBR: int := 107
  const KEYCODE_BUTTON_START: int := 108
  const KEYCODE_BUTTON_SELECT: int := 109
  const KEYCODE_BUTTON_MODE: int := 110

  /** `KeyEvent.ACTION_DOWN`. */
  const KEY_ACTION_DOWN: int := 0

  const AXIS_X: int := 0
  const AXIS_Y: int := 1
  const AXIS_Z: int := 11
  const AXIS_RZ: int := 14
  const AXIS_HAT_X: int := 15
  const AXIS_HAT_Y: int := 16
  const AXIS_LTRIGGER: int := 17
  const AXIS_RTRIGGER: int := 18

  /** D-pad bits of the reported state. */
  const DPAD_UP: bv16 := 0x01
  const DPAD_RIGHT: bv16 := 0x02
  const DPAD_DOWN: bv16 := 0x04
  const DPAD_LEFT: bv16 := 0x08

  /**
   * Button index `b` (GLFW gamepad numbering) is produced by key code
   * `BUTTON_KEYCODES[b]`: A, B, X, Y, LB, RB, SELECT, START, GUIDE, LSTICK, RSTICK.
   */
  const BUTTON_KEYCODES: seq<int> := [
    KEYCODE_BUTTON_A, KEYCODE_BUTTON_B, KEYCODE_BUTTON_X, KEYCODE_BUTTON_Y,
    KEYCODE_BUTTON_L1, KEYCODE_BUTTON_R1, KEYCODE_BUTTON_SELECT, KEYCODE_BUTTON_START,
    KEYCODE_BUTTON_MODE, KEYCODE_BUTTON_THUMBL, KEYCODE_BUTTON_THUMBR]

  /** Axis index `i` reports the platform axis `STICK_TRIGGER_AXES[i]`. */
  const STICK_TRIGGER_AXES: seq<int> :=
    [AXIS_X, AXIS_Y, AXIS_Z, AXIS_RZ, AXIS_LTRIGGER, AXIS_RTRIGGER]

  // ---------------------------------------------------------------------------
  // Events
  // ---------------------------------------------------------------------------

  datatype KeyEvent = KeyEvent(source: bv32, keyCode: int, action: int)

  /** A motion event: its source mask and the axis readings it carries. */
  datatype MotionEvent = MotionEvent(source: bv32, axes: map<int, real>)

  /** `MotionEvent.getAxisValue`: an axis the event does not carry reads 0. */
  function AxisValue(e: MotionEvent, axis: int): real
  {
    if axis in e.axes then e.axes[axis] else 0.0
  }

  /** Calls on `GamepadManager.GamepadListener`. */
  datatype GamepadEvent =
    | Connected
    | Disconnected
    | Button(button: int, pressed: bool)
    | Axis(axis: int, value: real)
    | Dpad(dpad: int, state: bv16)

  // ---------------------------------------------------------------------------
  // Source filter
  // ---------------------------------------------------------------------------

  /**
   * The classification shared by `isGamepadDevice`, `isGamepadEvent` and
   * `isGamepadMotionEvent`: every bit of the gamepad mask, or every bit of the
   * joystick mask.
   */
  predicate IsGamepadSource(s: bv32)
  {
    (s & SOURCE_GAMEPAD) == SOURCE_GAMEPAD || (s & SOURCE_JOYSTICK) == SOURCE_JOYSTICK
  }

  /** A looked-up device that is present and a gamepad. */
  predicate IsGamepadDevice(dev: Option<bv32>)
  {
    dev.Some? && IsGamepadSource(dev.value)
  }

  /** Some present device of the list is a gamepad. */
  predicate AnyGamepad(devices: seq<Option<bv32>>)
  {
    exists i :: 0 <= i < |devices| && IsGamepadDevice(devices[i])
  }

  predicate BitSet(s: bv32, k: nat)
    requires k < 32
  {
    ((s >> k) & 1) == 1
  }

  /** Reference reading of "contains the mask": each bit of `m` is a bit of `s`. */
  ghost predicate HasEveryBitOf(s: bv32, m: bv32)
  {
    forall k: nat :: k < 32 && BitSet(m, k) ==> BitSet(s, k)
  }

  lemma GamepadMaskBits()
    ensures forall k: nat :: k < 32 ==> (BitSet(SOURCE_GAMEPAD, k) <==> k == 0 || k == 10)
    ensures forall k: nat :: k < 32 ==> (BitSet(SOURCE_JOYSTICK, k) <==> k == 4 || k == 24)
  {
    forall k: nat | k < 32
      ensures BitSet(SOURCE_GAMEPAD, k) <==> k == 0 || k == 10
      ensures BitSet(SOURCE_JOYSTICK, k) <==> k == 4 || k == 24
    {
      var b := k as bv32;
      assert (SOURCE_GAMEPAD >> k) == (SOURCE_GAMEPAD >> b);
      assert (SOURCE_JOYSTICK >> k) == (SOURCE_JOYSTICK >> b);
    }
  }

  /**
   * The filter is the "every bit" test, not the "any bit" test: a source is a
   * gamepad exactly when it has all bits of `SOURCE_GAMEPAD` or all bits of
   * `SOURCE_JOYSTICK`.
   */
  lemma GamepadSourceIsEveryBit(s: bv32)
    ensures IsGamepadSource(s) <==>
              HasEveryBitOf(s, SOURCE_GAMEPAD) || HasEveryBitOf(s, SOURCE_JOYSTICK)
    ensures IsGamepadSource(s) <==>
              (BitSet(s, 0) && BitSet(s, 10)) || (BitSet(s, 4) && BitSet(s, 24))
  {
    GamepadMaskBits();
    assert ((s & SOURCE_GAMEPAD) == SOURCE_GAMEPAD) <==> BitSet(s, 0) && BitSet(s, 10);
    assert ((s & SOURCE_JOYSTICK) == SOURCE_JOYSTICK) <==> BitSet(s, 4) && BitSet(s, 24);
  }

  /** Sharing a bit with a mask is not enough: keyboards and d-pads share the button class bit. */
  lemma SharedBitIsNotEnough()
    ensures (SOURCE_KEYBOARD & SOURCE_GAMEPAD) != 0 && !IsGamepadSource(SOURCE_KEYBOARD)
    ensures (SOURCE_DPAD & SOURCE_GAMEPAD) != 0 && !IsGamepadSource(SOURCE_DPAD)
    ensures (SOURCE_CLASS_JOYSTICK & SOURCE_JOYSTICK) != 0 && !IsGamepadSource(SOURCE_CLASS_JOYSTICK)
    ensures IsGamepadSource(SOURCE_GAMEPAD) && IsGamepadSource(SOURCE_JOYSTICK)
  {
  }

  /** Extra capability bits never turn a gamepad into a non-gamepad. */
  lemma GamepadSourceUpwardClosed(s: bv32, t: bv32)
    requires IsGamepadSource(s)
    ensures IsGamepadSource(s | t)
  {
  }

  // ---------------------------------------------------------------------------
  // Button mapping
  // ---------------------------------------------------------------------------

  /** `mapKeyCodeToGLFWButton`: -1 for a code outside the table. */
  function MapKeyCodeToButton(keyCode: int): (button: int)
    ensures -1 <= button < |BUTTON_KEYCODES|
    ensures button >= 0 ==> BUTTON_KEYCODES[button] == keyCode
    ensures button == -1 <==> keyCode !in BUTTON_KEYCODES
  {
    if keyCode == KEYCODE_BUTTON_A then 0
    else if keyCode == KEYCODE_BUTTON_B then 1
    else if keyCode == KEYCODE_BUTTON_X then 2
    else if keyCode == KEYCODE_BUTTON_Y then 3
    else if keyCode == KEYCODE_BUTTON_L1 then 4
    else if keyCode == KEYCODE_BUTTON_R1 then 5
    else if keyCode == KEYCODE_BUTTON_SELECT then 6
    else if keyCode == KEYCODE_BUTTON_START then 7
    else if keyCode == KEYCODE_BUTTON_THUMBL then 9
    else if keyCode == KEYCODE_BUTTON_THUMBR then 10
    else if keyCode == KEYCODE_BUTTON_MODE then 8
    else -1
  }

  /** Every button index 0..10 is reached, by its own key code: the range is exactly 0..10. */
  lemma MapKeyCodeOnto(b: int)
    requires 0 <= b < |BUTTON_KEYCODES|
    ensures MapKeyCodeToButton(BUTTON_KEYCODES[b]) == b
  {
  }

  /** Two key codes that map to the same button are the same code. */
  lemma MapKeyCodeInjective(k1: int, k2: int)
    requires MapKeyCodeToButton(k1) >= 0
    requires MapKeyCodeToButton(k1) == MapKeyCodeToButton(k2)
    ensures k1 == k2
  {
  }

  // ---------------------------------------------------------------------------
  // D-pad mask
  // ---------------------------------------------------------------------------

  /** The d-pad state derived from the two hat axes, thresholds strict at 0.5. */
  function DpadMask(hatX: real, hatY: real): (m: bv16)
    ensures ((m & DPAD_UP) != 0) <==> hatY < -0.5
    ensures ((m & DPAD_DOWN) != 0) <==> hatY > 0.5
    ensures ((m & DPAD_LEFT) != 0) <==> hatX < -0.5
    ensures ((m & DPAD_RIGHT) != 0) <==> hatX > 0.5
    ensures (m & 0xFFF0) == 0
  {
    (if hatY < -0.5 then DPAD_UP else 0)
    | (if hatY > 0.5 then DPAD_DOWN else 0)
    | (if hatX < -0.5 then DPAD_LEFT else 0)
    | (if hatX > 0.5 then DPAD_RIGHT else 0)
  }

  /** Consequences: at most four bits, opposite directions exclusive, a dead band of [-0.5, 0.5]. */
  lemma DpadMaskProperties(hatX: real, hatY: real)
    ensures DpadMask(hatX, hatY) as int <= 15
    ensures !((DpadMask(hatX, hatY) & DPAD_UP) != 0 && (DpadMask(hatX, hatY) & DPAD_DOWN) != 0)
    ensures !((DpadMask(hatX, hatY) & DPAD_LEFT) != 0 && (DpadMask(hatX, hatY) & DPAD_RIGHT) != 0)
    ensures -0.5 <= hatX <= 0.5 && -0.5 <= hatY <= 0.5 ==> DpadMask(hatX, hatY) == 0
  {
    var m := DpadMask(hatX, hatY);
    assert (m & 0xFFF0) == 0;
  }

  lemma DpadMaskExamples()
    ensures DpadMask(0.0, -1.0) == DPAD_UP
    ensures DpadMask(1.0, 1.0) == DPAD_DOWN | DPAD_RIGHT
    ensures DpadMask(0.3, -0.3) == 0
    ensures DpadMask(-0.5, 0.5) == 0
  {
  }

  /** The `dpadState |= ...` sequence of `handleMotionEvent`. */
  method ComputeDpadState(hatX: real, hatY: real) returns (state: bv16)
    ensures state == DpadMask(hatX, hatY)
  {
    state := 0;
    if hatY < -0.5 { state := state | DPAD_UP; }
    if hatY > 0.5 { state := state | DPAD_DOWN; }
    if hatX < -0.5 { state := state | DPAD_LEFT; }
    if hatX > 0.5 { state := state | DPAD_RIGHT; }
  }

  // ---------------------------------------------------------------------------
  // Event handlers
  // ---------------------------------------------------------------------------

  /** `handleKeyEvent`. */
  method HandleKeyEvent(e: KeyEvent) returns (handled: bool, emitted: seq<GamepadEvent>)
    ensures handled <==> IsGamepadSource(e.source) && e.keyCode in BUTTON_KEYCODES
    ensures !handled ==> emitted == []
    ensures handled ==>
              emitted == [Button(MapKeyCodeToButton(e.keyCode), e.action == KEY_ACTION_DOWN)]
  {
    emitted := [];
    if !IsGamepadSource(e.source) {
      return false, emitted;
    }
    var isPressed := e.action == KEY_ACTION_DOWN;
    var button := MapKeyCodeToButton(e.keyCode);
    if button >= 0 {
      emitted := emitted + [Button(button, isPressed)];
      return true, emitted;
    }
    return false, emitted;
  }

  /** `handleMotionEvent`: six axes in order, then one d-pad state on pad 0. */
  method HandleMotionEvent(e: MotionEvent) returns (handled: bool, emitted: seq<GamepadEvent>)
    ensures handled == IsGamepadSource(e.source)
    ensures !handled ==> emitted == []
    ensures handled ==> |emitted| == |STICK_TRIGGER_AXES| + 1
    ensures handled ==> forall i :: 0 <= i < |STICK_TRIGGER_AXES| ==>
                          emitted[i] == Axis(i, AxisValue(e, STICK_TRIGGER_AXES[i]))
    ensures handled ==>
              emitted[|STICK_TRIGGER_AXES|]
              == Dpad(0, DpadMask(AxisValue(e, AXIS_HAT_X), AxisValue(e, AXIS_HAT_Y)))
  {
    emitted := [];
    if !IsGamepadSource(e.source) {
      return false, emitted;
    }
    var lx := AxisValue(e, AXIS_X);
    var ly := AxisValue(e, AXIS_Y);
    var rx := AxisValue(e, AXIS_Z);
    var ry := AxisValue(e, AXIS_RZ);
    emitted := emitted + [Axis(0, lx)];
    emitted := emitted + [Axis(1, ly)];
    emitted := emitted + [Axis(2, rx)];
    emitted := emitted + [Axis(3, ry)];
    var lt := AxisValue(e, AXIS_LTRIGGER);
    var rt := AxisValue(e, AXIS_RTRIGGER);
    emitted := emitted + [Axis(4, lt)];
    emitted := emitted + [Axis(5, rt)];
    var hatX := AxisValue(e, AXIS_HAT_X);
    var hatY := AxisValue(e, AXIS_HAT_Y);
    var dpadState := ComputeDpadState(hatX, hatY);
    emitted := emitted + [Dpad(0, dpadState)];
    return true, emitted;
  }

  // ---------------------------------------------------------------------------
  // Hotplug
  // ---------------------------------------------------------------------------

  /**
   * The scan of `onInputDeviceRemoved`: `anyGamepad` becomes true at the first
   * present gamepad, and the loop stops there.
   */
  method ScanForGamepad(devices: seq<Option<bv32>>) returns (anyGamepad: bool)
    ensures anyGamepad == AnyGamepad(devices)
  {
    anyGamepad := false;
    var i := 0;
    while i < |devices|
      invariant 0 <= i <= |devices|
      invariant !anyGamepad
      invariant forall j :: 0 <= j < i ==> !IsGamepadDevice(devices[j])
    {
      var dev := devices[i];
      if dev.Some? && IsGamepadSource(dev.value) {
        anyGamepad := true;
        break;
      }
      i := i + 1;
    }
  }

  /** `register`: the start-up scan emits `Connected` inside the loop, then breaks. */
  method Register(attached: seq<Option<bv32>>) returns (emitted: seq<GamepadEvent>)
    ensures emitted == CallEmits(Registered(attached))
  {
    emitted := [];
    var i := 0;
    while i < |attached|
      invariant 0 <= i <= |attached|
      invariant emitted == []
      invariant forall j :: 0 <= j < i ==> !IsGamepadDevice(attached[j])
    {
      var dev := attached[i];
      if dev.Some? && IsGamepadSource(dev.value) {
        emitted := emitted + [Connected];
        break;
      }
      i := i + 1;
    }
  }

  /** `onInputDeviceAdded`: `dev` is what the platform returns for the new id. */
  method OnInputDeviceAdded(dev: Option<bv32>) returns (emitted: seq<GamepadEvent>)
    ensures emitted == CallEmits(DeviceAdded(dev))
  {
    emitted := [];
    if dev.Some? && IsGamepadSource(dev.value) {
      emitted := emitted + [Connected];
    }
  }

  /** `onInputDeviceRemoved`: `remaining` is the device list after the removal. */
  method OnInputDeviceRemoved(remaining: seq<Option<bv32>>) returns (emitted: seq<GamepadEvent>)
    ensures emitted == CallEmits(DeviceRemoved(remaining))
  {
    emitted := [];
    var anyGamepad := ScanForGamepad(remaining);
    if !anyGamepad {
      emitted := emitted + [Disconnected];
    }
  }

  // ---------------------------------------------------------------------------
  // Sessions of hotplug callbacks
  // ---------------------------------------------------------------------------

  datatype HotplugCall =
    | Registered(attached: seq<Option<bv32>>)
    | DeviceAdded(device: Option<bv32>)
    | DeviceRemoved(remaining: seq<Option<bv32>>)

  /** What one callback emits: the specification of `Register`, `OnInputDeviceAdded` and `OnInputDeviceRemoved`. */
  function CallEmits(c: HotplugCall): seq<GamepadEvent>
  {
    match c
    case Registered(attached) => if AnyGamepad(attached) then [Connected] else []
    case DeviceAdded(device) => if IsGamepadDevice(device) then [Connected] else []
    case DeviceRemoved(remaining) => if AnyGamepad(remaining) then [] else [Disconnected]
  }

  /** The listener's view of a session: each callback's calls, in callback order. */
  function SessionLog(calls: seq<HotplugCall>): seq<GamepadEvent>
  {
    if calls == [] then [] else CallEmits(calls[0]) + SessionLog(calls[1..])
  }

  /**
   * The calls a callback makes do not depend on what came before it: the
   * manager consults no earlier state.
   */
  lemma {:induction false} SessionLogAppend(calls: seq<HotplugCall>, c: HotplugCall)
    ensures SessionLog(calls + [c]) == SessionLog(calls) + CallEmits(c)
  {
    if calls == [] {
      assert [] + [c] == [c];
    } else {
      assert (calls + [c])[1..] == calls[1..] + [c];
      SessionLogAppend(calls[1..], c);
    }
  }

  /** No de-duplication: n gamepad additions emit n connects. */
  lemma {:induction false} RepeatedAddsRepeatConnects(calls: seq<HotplugCall>)
    requires forall i :: 0 <= i < |calls| ==> calls[i].DeviceAdded? && IsGamepadDevice(calls[i].device)
    ensures SessionLog(calls) == seq(|calls|, _ => Connected)
  {
    if calls != [] {
      RepeatedAddsRepeatConnects(calls[1..]);
      assert SessionLog(calls) == [Connected] + seq(|calls| - 1, _ => Connected);
    }
  }

  /**
   * Register with one gamepad attached, add a second one, remove one, remove
   * the last: the listener sees two connects (one per gamepad event) and one
   * disconnect.
   */
  lemma HotplugScenario()
    ensures SessionLog([Registered([Some(SOURCE_GAMEPAD)]), DeviceAdded(Some(SOURCE_GAMEPAD)),
                        DeviceRemoved([Some(SOURCE_GAMEPAD)]), DeviceRemoved([])])
            == [Connected, Connected, Disconnected]
    ensures SessionLog([Registered([None, Some(SOURCE_KEYBOARD)]), DeviceRemoved([Some(SOURCE_KEYBOARD)])])
            == [Disconnected]
  {
    assert AnyGamepad([Some(SOURCE_GAMEPAD)]) by {
      assert IsGamepadDevice([Some(SOURCE_GAMEPAD)][0]);
    }
    assert !AnyGamepad([None, Some(SOURCE_KEYBOARD)]) by {
      var d: seq<Option<bv32>> := [None, Some(SOURCE_KEYBOARD)];
      assert forall i :: 0 <= i < |d| ==> d[i] == None || d[i] == Some(SOURCE_KEYBOARD);
    }
    assert !AnyGamepad([Some(SOURCE_KEYBOARD)]) by {
      var d: seq<Option<bv32>> := [Some(SOURCE_KEYBOARD)];
      assert forall i :: 0 <= i < |d| ==> d[i] == Some(SOURCE_KEYBOARD);
    }
    assert !AnyGamepad([]);
    var s1 := [Registered([Some(SOURCE_GAMEPAD)]), DeviceAdded(Some(SOURCE_GAMEPAD)),
               DeviceRemoved([Some(SOURCE_GAMEPAD)]), DeviceRemoved([])];
    assert SessionLog(s1[3..]) == [Disconnected];
    assert SessionLog(s1[2..]) == [Disconnected] by { assert s1[2..][1..] == s1[3..]; }
    assert SessionLog(s1[1..]) == [Connected, Disconnected] by { assert s1[1..][1..] == s1[2..]; }
    var s2 := [Registered([None, Some(SOURCE_KEYBOARD)]), DeviceRemoved([Some(SOURCE_KEYBOARD)])];
    assert SessionLog(s2[1..]) == [Disconnected];
  }
}
