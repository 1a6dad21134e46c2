/** The daemon's device wrapper, updated in place. */
module DeviceWrappers {
  import opened Basics
  import opened Events
  import opened Touchpad
  import opened Daemon

  const KEY_LEFTCTRL: nat := 29
  const KEY_RIGHTCTRL: nat := 97
  const KEY_LEFTALT: nat := 56
  const KEY_RIGHTALT: nat := 100

  datatype InputConfig = InputConfig(tapToClick: bool, naturalScrolling: bool,
                                     pointerAcceleration: real, disableWhileTyping: bool)

  /** The uinput device: what has been written to it. Writes are taken to succeed. */
  class VirtualDevice {
    var written: seq<UEvent>

    constructor ()
      ensures written == []
    {
      written := [];
    }

    method EmitRaw(e: UEvent)
      modifies this
      ensures written == old(written) + [e]
    {
      written := written + [e];
    }
  }

  function TypingActive(config: InputConfig, lastTyping: Option<Time>, now: Time): bool {
    config.disableWhileTyping && lastTyping.Some? && Elapsed(now, lastTyping.value) < DWT_WINDOW
  }

  function TickOf(ev: RawEvent, now: Time, config: InputConfig, lastTyping: Option<Time>): Tick {
    Tick(ev, now, TypingActive(config, lastTyping, now), config.tapToClick, config.naturalScrolling,
         config.pointerAcceleration)
  }

  class DeviceWrapper {
    const path: string
    const isAbsolute: bool
    const isKeyboard: bool

    var touchActive: bool
    var touchFingers: nat
    var lastX: Option<I32>
    var lastY: Option<I32>
    var currentDx: I32
    var currentDy: I32
    var remainderX: real
    var remainderY: real
    var touchStartTime: Option<Time>
    var tapEmitted: bool
    var lastTypingTime: Option<Time>
    var ctrlPressed: bool
    var altPressed: bool
    var lastMovementTime: Option<Time>
    var activeClickButton: Option<nat>

    /** The touchpad state as a value. */
    ghost function State(): Wrapper
      reads this
    {
      Wrapper(Axis.Axis(lastX, currentDx, remainderX), Axis.Axis(lastY, currentDy, remainderY),
              lastMovementTime, Contact(touchActive, touchFingers, tapEmitted, touchStartTime), activeClickButton)
    }

    constructor (path: string, isAbsolute: bool, isKeyboard: bool)
      ensures State() == FRESH && this.path == path
      ensures this.isAbsolute == isAbsolute && this.isKeyboard == isKeyboard
      ensures lastTypingTime == None && !ctrlPressed && !altPressed
    {
      this.path, this.isAbsolute, this.isKeyboard := path, isAbsolute, isKeyboard;
      touchActive, touchFingers := false, 0;
      lastX, lastY := None, None;
      currentDx, currentDy := 0, 0;
      remainderX, remainderY := 0.0, 0.0;
      touchStartTime, tapEmitted := None, false;
      lastTypingTime, ctrlPressed, altPressed := None, false, false;
      lastMovementTime, activeClickButton := None, None;
    }

    method ProcessEvent(ev: RawEvent, now: Time, out: VirtualDevice, config: InputConfig, lastTyping: Option<Time>)
      modifies this, out
      ensures lastTypingTime == if isKeyboard && ev.eventType == KEY && ev.value != 0
                                then Some(now) else old(lastTypingTime)
      ensures ctrlPressed == if ev.eventType == KEY && ev.code in {KEY_LEFTCTRL, KEY_RIGHTCTRL}
                             then ev.value != 0 else old(ctrlPressed)
      ensures altPressed == if ev.eventType == KEY && ev.code in {KEY_LEFTALT, KEY_RIGHTALT}
                            then ev.value != 0 else old(altPressed)
      ensures !isAbsolute ==> State() == old(State()) && out.written == old(out.written) + [Forward(ev)]
      ensures isAbsolute ==>
        var t := TickOf(ev, now, config, lastTyping);
        && State() == After(old(State()), t)
        && out.written == old(out.written) + Writes(old(State()), t)
    {
      TrackModifiers(ev, now);
      if !isAbsolute {
        out.EmitRaw(Forward(ev));
        return;
      }
      var dwtActive := false;
      if config.disableWhileTyping {
        if lastTyping.Some? {
          if Elapsed(now, lastTyping.value) < DWT_WINDOW {
            dwtActive := true;
          }
        }
      }
      ProcessTouchpad(
        Tick(ev, now, dwtActive, config.tapToClick, config.naturalScrolling, config.pointerAcceleration), out);
    }

    method ProcessTouchpad(t: Tick, out: VirtualDevice)
      modifies this, out
      ensures State() == After(old(State()), t) && unchanged(`lastTypingTime, `ctrlPressed, `altPressed)
      ensures out.written == old(out.written) + Writes(old(State()), t)
    {
      if t.dwt {
        tapEmitted := true;
      }
      match t.ev.eventType {
        case KEY => ProcessKey(t, out);
        case ABSOLUTE => ProcessCoordinate(t);
        case SYNCHRONIZATION =>
          if t.ev.code == SYN_REPORT {
            ProcessReport(t, out);
          } else {
            out.EmitRaw(Forward(t.ev));
          }
        case RELATIVE =>
        case OTHER =>
      }
    }

    method TrackModifiers(ev: RawEvent, now: Time)
      modifies this`ctrlPressed, this`altPressed, this`lastTypingTime
      ensures lastTypingTime == if isKeyboard && ev.eventType == KEY && ev.value != 0
                                then Some(now) else old(lastTypingTime)
      ensures ctrlPressed == if ev.eventType == KEY && ev.code in {KEY_LEFTCTRL, KEY_RIGHTCTRL}
                             then ev.value != 0 else old(ctrlPressed)
      ensures altPressed == if ev.eventType == KEY && ev.code in {KEY_LEFTALT, KEY_RIGHTALT}
                            then ev.value != 0 else old(altPressed)
    {
      if ev.eventType == KEY {
        if ev.code == KEY_LEFTCTRL || ev.code == KEY_RIGHTCTRL {
          ctrlPressed := ev.value != 0;
        }
        if ev.code == KEY_LEFTALT || ev.code == KEY_RIGHTALT {
          altPressed := ev.value != 0;
        }
        if isKeyboard && ev.value != 0 {
          lastTypingTime := Some(now);
        }
      }
    }

    method ProcessKey(t: Tick, out: VirtualDevice)
      requires t.ev.eventType == KEY
      modifies this`touchActive, this`touchFingers, this`tapEmitted, this`touchStartTime,
               this`lastX, this`lastY, this`currentDx, this`currentDy, this`activeClickButton, out
      ensures State() == AfterInput(old(State()), Sees(t.ev), t)
      ensures out.written == old(out.written) + WritesInput(old(State()), Sees(t.ev), t)
    {
      if t.ev.code == BTN_TOUCH {
        touchActive := t.ev.value != 0;
        if touchActive {
          StartContact(t.now);
        } else {
          EmitTap(t, out);
          ResetContact();
        }
      } else if t.ev.code == BTN_TOOL_DOUBLETAP {
        touchFingers := if t.ev.value != 0 then 2 else 1;
      } else if t.ev.code == BTN_TOOL_TRIPLETAP {
        touchFingers := if t.ev.value != 0 then 3 else 2;
      }
      ProcessButton(t, out);
    }

    method StartContact(now: Time)
      modifies this`touchStartTime, this`tapEmitted, this`touchFingers, this`lastX, this`lastY
      ensures touchStartTime == Some(now) && !tapEmitted && touchFingers == 1 && lastX == None && lastY == None
    {
      touchStartTime := Some(now);
      tapEmitted := false;
      touchFingers := 1;
      lastX := None;
      lastY := None;
    }

    method EmitTap(t: Tick, out: VirtualDevice)
      modifies out
      ensures out.written == old(out.written) + TapWrites(State().contact, t)
    {
      if t.tap && !tapEmitted && !t.dwt {
        if touchStartTime.Some? {
          if Elapsed(t.now, touchStartTime.value) < TAP_TIMEOUT {
            out.EmitRaw(UEvent(KEY, BTN_LEFT, 1));
            out.EmitRaw(SYN);
            out.EmitRaw(UEvent(KEY, BTN_LEFT, 0));
          }
        }
      }
    }

    method ResetContact()
      modifies this`lastX, this`lastY, this`currentDx, this`currentDy, this`touchStartTime, this`touchFingers
      ensures lastX == None && lastY == None && currentDx == 0 && currentDy == 0
      ensures touchStartTime == None && touchFingers == 0
    {
      lastX := None;
      lastY := None;
      currentDx := 0;
      currentDy := 0;
      touchStartTime := None;
      touchFingers := 0;
    }

    method ProcessButton(t: Tick, out: VirtualDevice)
      modifies this`activeClickButton, out
      ensures activeClickButton == HeldAfter(touchFingers, old(activeClickButton), t.ev.code, t.ev.value)
      ensures out.written == old(out.written)
                + ButtonWrites(ButtonFor(touchFingers, old(activeClickButton), t.ev.code, t.ev.value), t.ev.value)
    {
      var code := t.ev.code;
      if code == BTN_LEFT {
        if t.ev.value != 0 {
          if touchFingers == 2 {
            code := BTN_RIGHT;
          } else if touchFingers == 3 {
            code := BTN_MIDDLE;
          }
          activeClickButton := Some(code);
        } else {
          if activeClickButton.Some? {
            code := activeClickButton.value;
          }
          activeClickButton := None;
        }
      }
      if code == BTN_LEFT || code == BTN_RIGHT || code == BTN_MIDDLE {
        out.EmitRaw(UEvent(KEY, code, t.ev.value));
      }
    }

    method ProcessCoordinate(t: Tick)
      requires t.ev.eventType == ABSOLUTE
      modifies this`lastX, this`lastY, this`currentDx, this`currentDy, this`lastMovementTime
      ensures State() == AfterInput(old(State()), Sees(t.ev), t)
    {
      if t.ev.code == ABS_X || t.ev.code == ABS_Y {
        if lastMovementTime.Some? {
          if Elapsed(t.now, lastMovementTime.value) > STALL {
            lastX := None;
            lastY := None;
          }
        }
        lastMovementTime := Some(t.now);
      }
      var val := t.ev.value;
      if t.ev.code == ABS_X {
        if lastX.Some? {
          currentDx := Wrap32(currentDx + Wrap32(val - lastX.value));
        }
        lastX := Some(val);
      } else if t.ev.code == ABS_Y {
        if lastY.Some? {
          currentDy := Wrap32(currentDy + Wrap32(val - lastY.value));
        }
        lastY := Some(val);
      }
    }

    method ProcessReport(t: Tick, out: VirtualDevice)
      modifies this`currentDx, this`currentDy, this`remainderX, this`remainderY, this`tapEmitted, out
      ensures State() == ReportAfter(old(State()), t)
      ensures out.written == old(out.written) + ReportWrites(old(State()), t)
    {
      var hasMovement := currentDx != 0 || currentDy != 0;
      if t.dwt {
        currentDx := 0;
        currentDy := 0;
        remainderX := 0.0;
        remainderY := 0.0;
        tapEmitted := true;
      } else if hasMovement {
        ProcessFrame(t, out);
      }
      if hasMovement || !t.dwt {
        out.EmitRaw(Forward(t.ev));
      }
    }

    method ProcessFrame(t: Tick, out: VirtualDevice)
      requires !t.dwt && State().Moved()
      modifies this`currentDx, this`currentDy, this`remainderX, this`remainderY, this`tapEmitted, out
      ensures State() == ReportAfter(old(State()), t)
      ensures out.written == old(out.written) + FrameWrites(old(State()), t)
    {
      tapEmitted := true;
      if touchFingers <= 1 {
        EmitMotion(t, out);
      } else if touchFingers == 2 {
        EmitWheel(t, out);
        remainderX := 0.0;
      }
      currentDx := 0;
      currentDy := 0;
    }

    method EmitMotion(t: Tick, out: VirtualDevice)
      modifies this`remainderX, this`remainderY, out
      ensures remainderX == Consume(old(State().x), HW_SCALE, t.accel).rem
      ensures remainderY == Consume(old(State().y), HW_SCALE, t.accel).rem
      ensures out.written == old(out.written)
                             + (Rel(REL_X, Units(old(State().x), HW_SCALE, t.accel))
                                + Rel(REL_Y, Units(old(State().y), HW_SCALE, t.accel)))
    {
      var totalX := (currentDx as real * HW_SCALE) * t.accel + remainderX;
      var totalY := (currentDy as real * HW_SCALE) * t.accel + remainderY;
      assert totalX == Total(State().x, HW_SCALE, t.accel);
      assert totalY == Total(State().y, HW_SCALE, t.accel);
      var emitX := Saturate32(Round(totalX));
      var emitY := Saturate32(Round(totalY));
      remainderX := totalX - emitX as real;
      remainderY := totalY - emitY as real;
      if emitX != 0 {
        out.EmitRaw(UEvent(RELATIVE, REL_X, emitX));
      }
      if emitY != 0 {
        out.EmitRaw(UEvent(RELATIVE, REL_Y, emitY));
      }
    }

    method EmitWheel(t: Tick, out: VirtualDevice)
      modifies this`remainderY, out
      ensures remainderY == Consume(old(State().y), SCROLL_SCALE, 1.0).rem
      ensures out.written == old(out.written)
                             + (var v := Units(old(State().y), SCROLL_SCALE, 1.0);
                                Rel(REL_WHEEL, if t.natural then -v else v))
    {
      var totalY := currentDy as real * SCROLL_SCALE + remainderY;
      var emitWheel: int := Saturate32(Round(totalY));
      remainderY := totalY - emitWheel as real;
      if emitWheel != 0 {
        var finalWheel := emitWheel;
        if t.natural {
          finalWheel := -finalWheel;
        }
        out.EmitRaw(UEvent(RELATIVE, REL_WHEEL, finalWheel));
      }
    }
  }
}
