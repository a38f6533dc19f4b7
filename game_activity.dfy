/**
 * The input handling of `com.zomdroid.GameActivity`: the start-up gamepad
 * scan, the hotplug callbacks with the `isGamepadConnected` flag and the
 * on-screen controls' visibility, the dispatch of gamepad key and motion
 * events to the native side, and the touch listener that turns one tracked
 * finger into a mouse.
 *
 * Native calls (`InputNativeInterface.*`) are returned by each handler as the
 * list of calls it makes, in order.
 */
module Activity {
  import opened Wrappers
  import opened GamepadManager

  /** `MotionEvent` touch actions (masked). */
  const TOUCH_ACTION_DOWN: int := 0
  const TOUCH_ACTION_UP: int := 1
  const TOUCH_ACTION_MOVE: int := 2
  const TOUCH_ACTION_POINTER_DOWN: int := 5
  /** Not handled by the listener. */
  const TOUCH_ACTION_POINTER_UP: int := 6

  /** GLFW's code of the left mouse button. */
  const MOUSE_BUTTON_LEFT: int := 0

  /** The touch listener's "no pointer tracked". */
  const NO_POINTER: int := -1

  datatype Visibility = Visible | Gone

  /** Calls on `InputNativeInterface`; a cursor position is named by the pointer index whose coordinates it carries. */
  datatype NativeCall =
    | JoystickButton(button: int, pressed: bool)
    | JoystickAxis(axis: int, value: real)
    | JoystickDpad(dpad: int, state: bv16)
    | CursorPos(pointerIndex: nat)
    | MouseButton(button: int, pressed: bool)

  /** What a `dispatch...Event` override returns: true, or whatever `super` decides. */
  datatype Dispatch = Consumed | PassedToSuper

  // ---------------------------------------------------------------------------
  // Hotplug state: the flag and the on-screen controls
  // ---------------------------------------------------------------------------

  /** `controls` is `None` when the inflated layout has no `inputControlsV`. */
  datatype UiState = UiState(gamepadConnected: bool, controls: Option<Visibility>)

  /** `onGamepadConnected`: flag set, controls hidden. */
  function AfterConnected(u: UiState): UiState
  {
    UiState(true, if u.controls.Some? then Some(Gone) else None)
  }

  /** `onGamepadDisconnected`: flag cleared, controls shown. */
  function AfterDisconnected(u: UiState): UiState
  {
    UiState(false, if u.controls.Some? then Some(Visible) else None)
  }

  datatype DeviceCallback = Added(device: Option<bv32>) | Removed(remaining: seq<Option<bv32>>)

  /** `onInputDeviceAdded` / `onInputDeviceRemoved`. */
  function AfterCallback(u: UiState, c: DeviceCallback): UiState
  {
    match c
    case Added(device) => if IsGamepadDevice(device) then AfterConnected(u) else u
    case Removed(remaining) => if AnyGamepad(remaining) then u else AfterDisconnected(u)
  }

  /** The state after `onCreate`: the scan may hide the controls, then the end of `onCreate` clears the flag. */
  function CreatedState(attached: seq<Option<bv32>>, inflated: Option<Visibility>): UiState
  {
    var u := UiState(false, inflated);
    var scanned := if AnyGamepad(attached) then AfterConnected(u) else u;
    scanned.(gamepadConnected := false)
  }

  /** The flag and the controls agree: hidden exactly while a gamepad counts as connected. */
  ghost predicate ControlsAgree(u: UiState)
  {
    u.controls.Some? ==> (u.controls.value == Gone <==> u.gamepadConnected)
  }

  /** The state after a sequence of hotplug callbacks. */
  function AfterCallbacks(u: UiState, calls: seq<DeviceCallback>): UiState
  {
    if calls == [] then u else AfterCallback(AfterCallbacks(u, calls[..|calls| - 1]), calls[|calls| - 1])
  }

  lemma TransitionsIdempotent(u: UiState)
    ensures AfterConnected(AfterConnected(u)) == AfterConnected(u)
    ensures AfterDisconnected(AfterDisconnected(u)) == AfterDisconnected(u)
    ensures ControlsAgree(AfterConnected(u)) && ControlsAgree(AfterDisconnected(u))
  {
  }

  /**
   * After creation the flag is always false, while the controls are hidden
   * exactly when the scan found a gamepad (and the layout has them).
   */
  lemma CreatedStateFacts(attached: seq<Option<bv32>>, inflated: Option<Visibility>)
    ensures !CreatedState(attached, inflated).gamepadConnected
    ensures CreatedState(attached, inflated).controls
            == if inflated.Some? && AnyGamepad(attached) then Some(Gone) else inflated
    ensures inflated == Some(Visible) && AnyGamepad(attached) ==>
              !ControlsAgree(CreatedState(attached, inflated))
  {
  }

  /**
   * A removal changes the state exactly when no remaining device is a gamepad,
   * and then to "disconnected"; an addition of a gamepad always connects.
   */
  lemma CallbackTransitions(u: UiState, c: DeviceCallback)
    ensures c.Removed? && AnyGamepad(c.remaining) ==> AfterCallback(u, c) == u
    ensures c.Removed? && !AnyGamepad(c.remaining) ==> AfterCallback(u, c) == AfterDisconnected(u)
    ensures c.Added? ==>
              AfterCallback(u, c) == (if IsGamepadDevice(c.device) then AfterConnected(u) else u)
  {
  }

  /** Once the flag and the controls agree, no sequence of hotplug callbacks separates them. */
  lemma {:induction false} CallbacksKeepAgreement(u: UiState, calls: seq<DeviceCallback>)
    requires ControlsAgree(u)
    ensures ControlsAgree(AfterCallbacks(u, calls))
  {
    if calls != [] {
      CallbacksKeepAgreement(u, calls[..|calls| - 1]);
    }
  }

  /** Any transition re-establishes the agreement that creation may break. */
  lemma {:induction false} TransitionRestoresAgreement(u: UiState, calls: seq<DeviceCallback>, k: nat)
    requires k < |calls|
    requires AfterCallbacks(u, calls[..k + 1]) != AfterCallbacks(u, calls[..k])
    ensures ControlsAgree(AfterCallbacks(u, calls))
  {
    var v := AfterCallbacks(u, calls[..k]);
    assert calls[..k + 1][..k] == calls[..k];
    assert AfterCallbacks(u, calls[..k + 1]) == AfterCallback(v, calls[k]);
    assert ControlsAgree(AfterCallbacks(u, calls[..k + 1]));
    CallbacksFrom(u, calls, k + 1);
  }

  /** Callbacks after position k act on the state reached at k. */
  lemma {:induction false} CallbacksFrom(u: UiState, calls: seq<DeviceCallback>, k: nat)
    requires k <= |calls|
    requires ControlsAgree(AfterCallbacks(u, calls[..k]))
    ensures ControlsAgree(AfterCallbacks(u, calls))
    decreases |calls| - k
  {
    if k < |calls| {
      var w := AfterCallbacks(u, calls[..k]);
      assert calls[..k + 1][..k] == calls[..k];
      assert AfterCallbacks(u, calls[..k + 1]) == AfterCallback(w, calls[k]);
      CallbacksFrom(u, calls, k + 1);
    } else {
      assert calls[..k] == calls;
    }
  }

  /** The listener reaction that `GameActivity` has inline: connect or disconnect per event. */
  function ApplyListenerEvents(u: UiState, events: seq<GamepadEvent>): UiState
    decreases |events|
  {
    if events == [] then u
    else
      var v := match events[0]
        case Connected => AfterConnected(u)
        case Disconnected => AfterDisconnected(u)
        case _ => u;
      ApplyListenerEvents(v, events[1..])
  }

  function AsHotplugCall(c: DeviceCallback): HotplugCall
  {
    match c
    case Added(device) => DeviceAdded(device)
    case Removed(remaining) => DeviceRemoved(remaining)
  }

  /**
   * The two copies of the hotplug logic agree: the activity's callbacks change
   * its state as `GamepadManager`'s listener events would.
   */
  lemma ActivityMatchesManager(u: UiState, c: DeviceCallback)
    ensures AfterCallback(u, c) == ApplyListenerEvents(u, CallEmits(AsHotplugCall(c)))
  {
    var events := CallEmits(AsHotplugCall(c));
    if events != [] {
      assert events[1..] == [];
    }
  }

  // ---------------------------------------------------------------------------
  // Touch-to-mouse tracking
  // ---------------------------------------------------------------------------

  /**
   * A touch event: the masked action, the action's pointer index and the ids
   * of the pointers it carries, by index.
   */
  datatype TouchEvent = TouchEvent(action: int, actionIndex: nat, pointerIds: seq<int>)

  /** What Android delivers: the action index names a pointer, and pointer ids are non-negative. */
  predicate WellFormedTouch(e: TouchEvent)
  {
    e.actionIndex < |e.pointerIds| && forall i :: 0 <= i < |e.pointerIds| ==> e.pointerIds[i] >= 0
  }

  /** `MotionEvent.findPointerIndex`: the first index carrying `id`, or -1. */
  function FindPointerIndex(ids: seq<int>, id: int): (k: int)
    ensures -1 <= k < |ids|
    ensures k == -1 <==> id !in ids
    ensures k >= 0 ==> ids[k] == id && id !in ids[..k]
  {
    if ids == [] then -1
    else if ids[0] == id then 0
    else
      var k := FindPointerIndex(ids[1..], id);
      assert k >= 0 ==> ids[..k + 1] == [ids[0]] + ids[1..][..k];
      if k < 0 then -1 else k + 1
  }

  datatype TouchResult = TouchResult(tracked: int, sent: seq<NativeCall>, consumed: bool)

  /** One `onTouch` call, from the tracked pointer id before it. */
  function TouchStep(tracked: int, e: TouchEvent): TouchResult
    requires WellFormedTouch(e)
  {
    var id := e.pointerIds[e.actionIndex];
    if e.action == TOUCH_ACTION_DOWN || e.action == TOUCH_ACTION_POINTER_DOWN then
      TouchResult(id, [CursorPos(e.actionIndex), MouseButton(MOUSE_BUTTON_LEFT, true)], true)
    else if e.action == TOUCH_ACTION_MOVE then
      if tracked < 0 then TouchResult(tracked, [], false)
      else
        var k := FindPointerIndex(e.pointerIds, tracked);
        if k < 0 then TouchResult(NO_POINTER, [], false)
        else TouchResult(tracked, [CursorPos(k)], false)
    else if e.action == TOUCH_ACTION_UP then
      if id != tracked then TouchResult(tracked, [], false)
      else TouchResult(NO_POINTER, [MouseButton(MOUSE_BUTTON_LEFT, false)], true)
    else
      TouchResult(tracked, [], false)
  }

  /** DOWN and POINTER_DOWN track the action's pointer, replacing any other, and press the button there. */
  lemma TouchDown(tracked: int, e: TouchEvent)
    requires WellFormedTouch(e)
    requires e.action == TOUCH_ACTION_DOWN || e.action == TOUCH_ACTION_POINTER_DOWN
    ensures TouchStep(tracked, e)
            == TouchResult(e.pointerIds[e.actionIndex],
                           [CursorPos(e.actionIndex), MouseButton(MOUSE_BUTTON_LEFT, true)], true)
  {
  }

  /** MOVE never consumes; it moves the cursor to the tracked pointer, or forgets a pointer that is gone. */
  lemma TouchMove(tracked: int, e: TouchEvent)
    requires WellFormedTouch(e) && e.action == TOUCH_ACTION_MOVE
    ensures !TouchStep(tracked, e).consumed
    ensures tracked == NO_POINTER ==> TouchStep(tracked, e) == TouchResult(NO_POINTER, [], false)
    ensures tracked >= 0 && tracked !in e.pointerIds ==>
              TouchStep(tracked, e) == TouchResult(NO_POINTER, [], false)
    ensures tracked >= 0 && tracked in e.pointerIds ==>
              var r := TouchStep(tracked, e);
              r.tracked == tracked && |r.sent| == 1 && r.sent[0].CursorPos? &&
              e.pointerIds[r.sent[0].pointerIndex] == tracked
  {
  }

  /** UP releases the button only when its pointer is the tracked one; other actions do nothing. */
  lemma TouchUpAndOthers(tracked: int, e: TouchEvent)
    requires WellFormedTouch(e)
    ensures e.action == TOUCH_ACTION_UP && e.pointerIds[e.actionIndex] == tracked ==>
              TouchStep(tracked, e) == TouchResult(NO_POINTER, [MouseButton(MOUSE_BUTTON_LEFT, false)], true)
    ensures e.action == TOUCH_ACTION_UP && e.pointerIds[e.actionIndex] != tracked ==>
              TouchStep(tracked, e) == TouchResult(tracked, [], false)
    ensures e.action !in {TOUCH_ACTION_DOWN, TOUCH_ACTION_POINTER_DOWN, TOUCH_ACTION_MOVE, TOUCH_ACTION_UP} ==>
              TouchStep(tracked, e) == TouchResult(tracked, [], false)
  {
  }

  /** The tracked value is always "none" or a pointer id. */
  predicate TrackedOk(tracked: int)
  {
    tracked == NO_POINTER || tracked >= 0
  }

  /** The outcome of a run of `onTouch` calls: the final tracked pointer and all native calls, in order. */
  datatype TouchTrace = TouchTrace(tracked: int, sent: seq<NativeCall>)

  /** A run of `onTouch` calls, starting from the tracked pointer `tracked`. */
  function TouchRun(tracked: int, es: seq<TouchEvent>): TouchTrace
    requires forall i :: 0 <= i < |es| ==> WellFormedTouch(es[i])
    decreases |es|
  {
    if es == [] then TouchTrace(tracked, [])
    else
      var step := TouchStep(tracked, es[0]);
      var rest := TouchRun(step.tracked, es[1..]);
      TouchTrace(rest.tracked, step.sent + rest.sent)
  }

  function CountButton(calls: seq<NativeCall>, pressed: bool): nat
  {
    if calls == [] then 0
    else (if calls[0] == MouseButton(MOUSE_BUTTON_LEFT, pressed) then 1 else 0)
         + CountButton(calls[1..], pressed)
  }

  lemma {:induction false} CountButtonAppend(a: seq<NativeCall>, b: seq<NativeCall>, pressed: bool)
    ensures CountButton(a + b, pressed) == CountButton(a, pressed) + CountButton(b, pressed)
  {
    if a == [] {
      assert a + b == b;
    } else {
      assert (a + b)[1..] == a[1..] + b;
      CountButtonAppend(a[1..], b, pressed);
    }
  }

  /**
   * The listener never releases more often than it pressed, and while a
   * pointer is tracked there is a press still unmatched.
   */
  lemma {:induction false} TouchRunBalance(tracked: int, es: seq<TouchEvent>)
    requires TrackedOk(tracked)
    requires forall i :: 0 <= i < |es| ==> WellFormedTouch(es[i])
    ensures TrackedOk(TouchRun(tracked, es).tracked)
    ensures CountButton(TouchRun(tracked, es).sent, false) + (if TouchRun(tracked, es).tracked >= 0 then 1 else 0)
            <= CountButton(TouchRun(tracked, es).sent, true) + (if tracked >= 0 then 1 else 0)
    decreases |es|
  {
    if es != [] {
      var step := TouchStep(tracked, es[0]);
      TouchRunBalance(step.tracked, es[1..]);
      var rest := TouchRun(step.tracked, es[1..]);
      CountButtonAppend(step.sent, rest.sent, true);
      CountButtonAppend(step.sent, rest.sent, false);
    }
  }

  /**
   * POINTER_UP is not handled: a second finger that is lifted first leaves
   * the button pressed, and the first finger's UP no longer matches.
   */
  lemma SecondFingerLeavesButtonPressed()
    ensures var r := TouchRun(NO_POINTER, [
              TouchEvent(TOUCH_ACTION_DOWN, 0, [0]),
              TouchEvent(TOUCH_ACTION_POINTER_DOWN, 1, [0, 1]),
              TouchEvent(TOUCH_ACTION_POINTER_UP, 1, [0, 1]),
              TouchEvent(TOUCH_ACTION_UP, 0, [0])]);
            r.tracked == 1 && CountButton(r.sent, true) == 2 && CountButton(r.sent, false) == 0
  {
    var es := [TouchEvent(TOUCH_ACTION_DOWN, 0, [0]), TouchEvent(TOUCH_ACTION_POINTER_DOWN, 1, [0, 1]),
               TouchEvent(TOUCH_ACTION_POINTER_UP, 1, [0, 1]), TouchEvent(TOUCH_ACTION_UP, 0, [0])];
    assert TouchRun(1, es[3..]) == TouchTrace(1, []);
    assert TouchRun(1, es[2..]) == TouchTrace(1, []) by { assert es[2..][1..] == es[3..]; }
    assert TouchRun(0, es[1..]) == TouchTrace(1, [CursorPos(1), MouseButton(MOUSE_BUTTON_LEFT, true)])
    by { assert es[1..][1..] == es[2..]; }
    var all := [CursorPos(0), MouseButton(MOUSE_BUTTON_LEFT, true), CursorPos(1), MouseButton(MOUSE_BUTTON_LEFT, true)];
    assert TouchRun(NO_POINTER, es).sent == all;
    assert CountButton(all[3..], true) == 1;
    assert CountButton(all[2..], true) == 1 by { assert all[2..][1..] == all[3..]; }
    assert CountButton(all[1..], true) == 2 by { assert all[1..][1..] == all[2..]; }
    assert CountButton(all[3..], false) == 0;
    assert CountButton(all[2..], false) == 0 by { assert all[2..][1..] == all[3..]; }
    assert CountButton(all[1..], false) == 0 by { assert all[1..][1..] == all[2..]; }
  }

  /** The anonymous `View.OnTouchListener` of the game surface. */
  class TouchListener {
    var pointerId: int

    constructor ()
      ensures pointerId == NO_POINTER
    {
      pointerId := NO_POINTER;
    }

    /** `onTouch`: returns whether the event was consumed and the native calls made. */
    method OnTouch(e: TouchEvent) returns (consumed: bool, sent: seq<NativeCall>)
      requires WellFormedTouch(e)
      modifies this
      ensures TouchResult(pointerId, sent, consumed) == TouchStep(old(pointerId), e)
    {
      sent := [];
      var action := e.action;
      var actionIndex := e.actionIndex;
      var id := e.pointerIds[actionIndex];
      if action == TOUCH_ACTION_DOWN || action == TOUCH_ACTION_POINTER_DOWN {
        pointerId := id;
        sent := sent + [CursorPos(actionIndex)];
        sent := sent + [MouseButton(MOUSE_BUTTON_LEFT, true)];
        return true, sent;
      } else if action == TOUCH_ACTION_MOVE {
        if pointerId < 0 {
          return false, sent;
        }
        var pointerIndex := FindPointerIndex(e.pointerIds, pointerId);
        if pointerIndex < 0 {
          pointerId := NO_POINTER;
          return false, sent;
        }
        sent := sent + [CursorPos(pointerIndex)];
        return false, sent;
      } else if action == TOUCH_ACTION_UP {
        if id != pointerId {
          return false, sent;
        }
        pointerId := NO_POINTER;
        sent := sent + [MouseButton(MOUSE_BUTTON_LEFT, false)];
        return true, sent;
      }
      return false, sent;
    }
  }

  // ---------------------------------------------------------------------------
  // The activity
  // ---------------------------------------------------------------------------

  class GameActivity {
    var isGamepadConnected: bool
    var controls: Option<Visibility>
    const touchListener: TouchListener

    function Ui(): UiState
      reads this
    {
      UiState(isGamepadConnected, controls)
    }

    /**
     * The input part of `onCreate`: `attached` is the platform's device list,
     * `inflated` the controls view as the layout creates it.
     */
    constructor (attached: seq<Option<bv32>>, inflated: Option<Visibility>)
      ensures Ui() == CreatedState(attached, inflated)
      ensures fresh(touchListener) && touchListener.pointerId == NO_POINTER
    {
      isGamepadConnected := false;
      controls := inflated;
      touchListener := new TouchListener();
      new;
      var gamepadFound := ScanForGamepad(attached);
      if gamepadFound {
        OnGamepadConnected();
      }
      isGamepadConnected := false;
    }

    method OnGamepadConnected()
      modifies this
      ensures Ui() == AfterConnected(old(Ui()))
    {
      isGamepadConnected := true;
      if controls.Some? {
        controls := Some(Gone);
      }
    }

    method OnGamepadDisconnected()
      modifies this
      ensures Ui() == AfterDisconnected(old(Ui()))
    {
      isGamepadConnected := false;
      if controls.Some? {
        controls := Some(Visible);
      }
    }

    /** `onInputDeviceAdded`: `dev` is what the platform returns for the new id. */
    method OnInputDeviceAdded(dev: Option<bv32>)
      modifies this
      ensures Ui() == AfterCallback(old(Ui()), Added(dev))
    {
      if dev.Some? && IsGamepadSource(dev.value) {
        OnGamepadConnected();
      }
    }

    /** `onInputDeviceRemoved`: `remaining` is the device list after the removal. */
    method OnInputDeviceRemoved(remaining: seq<Option<bv32>>)
      modifies this
      ensures Ui() == AfterCallback(old(Ui()), Removed(remaining))
    {
      var anyGamepad := ScanForGamepad(remaining);
      if !anyGamepad {
        OnGamepadDisconnected();
      }
    }

    /** `handleGamepadKeyEvent`: an unmapped key sends nothing. */
    method HandleGamepadKeyEvent(e: KeyEvent) returns (sent: seq<NativeCall>)
      ensures e.keyCode !in BUTTON_KEYCODES ==> sent == []
      ensures e.keyCode in BUTTON_KEYCODES ==>
                sent == [JoystickButton(MapKeyCodeToButton(e.keyCode), e.action == KEY_ACTION_DOWN)]
    {
      sent := [];
      var isPressed := e.action == KEY_ACTION_DOWN;
      var button := MapKeyCodeToButton(e.keyCode);
      if button >= 0 {
        sent := sent + [JoystickButton(button, isPressed)];
      }
    }

    /** `dispatchKeyEvent`: every gamepad-source key is consumed, mapped or not. */
    method DispatchKeyEvent(e: KeyEvent) returns (d: Dispatch, sent: seq<NativeCall>)
      ensures d == Consumed <==> IsGamepadSource(e.source)
      ensures sent == if IsGamepadSource(e.source) && e.keyCode in BUTTON_KEYCODES
                      then [JoystickButton(MapKeyCodeToButton(e.keyCode), e.action == KEY_ACTION_DOWN)]
                      else []
    {
      if IsGamepadSource(e.source) {
        sent := HandleGamepadKeyEvent(e);
        return Consumed, sent;
      }
      return PassedToSuper, [];
    }

    /** `handleGamepadMotionEvent`: six axes in order, then the d-pad state on pad 0. */
    method HandleGamepadMotionEvent(e: MotionEvent) returns (sent: seq<NativeCall>)
      ensures |sent| == |STICK_TRIGGER_AXES| + 1
      ensures forall i :: 0 <= i < |STICK_TRIGGER_AXES| ==>
                sent[i] == JoystickAxis(i, AxisValue(e, STICK_TRIGGER_AXES[i]))
      ensures sent[|STICK_TRIGGER_AXES|]
              == JoystickDpad(0, DpadMask(AxisValue(e, AXIS_HAT_X), AxisValue(e, AXIS_HAT_Y)))
    {
      sent := [];
      var lx := AxisValue(e, AXIS_X);
      var ly := AxisValue(e, AXIS_Y);
      var rx := AxisValue(e, AXIS_Z);
      var ry := AxisValue(e, AXIS_RZ);
      sent := sent + [JoystickAxis(0, lx)];
      sent := sent + [JoystickAxis(1, ly)];
      sent := sent + [JoystickAxis(2, rx)];
      sent := sent + [JoystickAxis(3, ry)];
      var lt := AxisValue(e, AXIS_LTRIGGER);
      var rt := AxisValue(e, AXIS_RTRIGGER);
      sent := sent + [JoystickAxis(4, lt)];
      sent := sent + [JoystickAxis(5, rt)];
      var hatX := AxisValue(e, AXIS_HAT_X);
      var hatY := AxisValue(e, AXIS_HAT_Y);
      var dpadState := ComputeDpadState(hatX, hatY);
      sent := sent + [JoystickDpad(0, dpadState)];
    }

    /** `dispatchGenericMotionEvent`: gamepad-source motion is consumed, anything else goes to `super`. */
    method DispatchGenericMotionEvent(e: MotionEvent) returns (d: Dispatch, sent: seq<NativeCall>)
      ensures d == Consumed <==> IsGamepadSource(e.source)
      ensures d == PassedToSuper ==> sent == []
      ensures d == Consumed ==> |sent| == |STICK_TRIGGER_AXES| + 1
      ensures d == Consumed ==> forall i :: 0 <= i < |STICK_TRIGGER_AXES| ==>
                                  sent[i] == JoystickAxis(i, AxisValue(e, STICK_TRIGGER_AXES[i]))
      ensures d == Consumed ==>
                sent[|STICK_TRIGGER_AXES|]
                == JoystickDpad(0, DpadMask(AxisValue(e, AXIS_HAT_X), AxisValue(e, AXIS_HAT_Y)))
    {
      if IsGamepadSource(e.source) {
        sent := HandleGamepadMotionEvent(e);
        return Consumed, sent;
      }
      return PassedToSuper, [];
    }
  }
}
