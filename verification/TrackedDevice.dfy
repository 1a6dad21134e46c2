/** An open device and the handlers that update it in place. */
module TrackedDevices {
  import opened Basics
  import opened Events
  import opened Touchpad
  import opened Keyboard
  import opened Devices

  class TrackedDevice {
    const libDevice: nat
    const path: string
    const isAbsolute: bool
    const isKeyboard: bool
    const isPointer: bool

    var remainderX: real
    var remainderY: real
    var touchActive: bool
    var touchFingers: nat
    var lastX: Option<I32>
    var lastY: Option<I32>
    var currentDx: I32
    var currentDy: I32
    var tapEmitted: bool
    var touchStartTime: Option<Time>
    var lastMovementTime: Option<Time>
    var activeClickButton: Option<nat>

    const mtSlots: array<MtSlot>
    var currentSlot: nat
    var pinchActive: bool
    var pinchBaseDistSq: int
    var pinchBaseAngle: Angle
    var pinchFingers: nat

    var heldKeys: seq<HeldKey>
    var lastTypingTime: Option<Time>

    /** The settings that the client chose for the device. */
    var settings: Settings

    ghost predicate Valid()
      reads this
    {
      && mtSlots.Length == SLOTS
      && currentSlot < SLOTS
    }

    /** The touchpad state as a value. */
    ghost function Pad(): Pad
      reads this, mtSlots
    {
      Touchpad.Pad.Pad(Axis.Axis(lastX, currentDx, remainderX), Axis.Axis(lastY, currentDy, remainderY),
                       lastMovementTime, Contact(touchActive, touchFingers, tapEmitted, touchStartTime),
                       activeClickButton, SlotTable(mtSlots[..], currentSlot),
                       Pinch(pinchActive, pinchBaseDistSq, pinchBaseAngle, pinchFingers))
    }

    ghost function Value(): Device
      reads this, mtSlots
    {
      Device(libDevice, path, isAbsolute, isKeyboard, isPointer, settings, Pad(), heldKeys, lastTypingTime)
    }

    constructor (libDevice: nat, path: string, isAbsolute: bool, isKeyboard: bool, isPointer: bool)
      ensures Valid() && fresh(mtSlots)
      ensures Value() == Device(libDevice, path, isAbsolute, isKeyboard, isPointer, DEFAULTS, INITIAL, [], None)
    {
      this.libDevice, this.path := libDevice, path;
      this.isAbsolute, this.isKeyboard, this.isPointer := isAbsolute, isKeyboard, isPointer;
      settings, heldKeys, lastTypingTime := DEFAULTS, [], None;
      remainderX, remainderY := 0.0, 0.0;
      touchActive, touchFingers := false, 0;
      lastX, lastY := None, None;
      currentDx, currentDy := 0, 0;
      tapEmitted := false;
      touchStartTime, lastMovementTime, activeClickButton := None, None, None;
      mtSlots := new MtSlot[SLOTS](i => IDLE_SLOT);
      currentSlot := 0;
      pinchActive, pinchBaseDistSq, pinchBaseAngle, pinchFingers := false, 0, Flat, 0;
    }

    method ProcessAbsoluteEvent(t: Tick, out: EventQueue)
      requires Valid()
      modifies this, mtSlots, out
      ensures Valid()
      ensures unchanged(`settings, `heldKeys, `lastTypingTime)
      ensures Pad() == Next(old(Pad()), t)
      ensures out.events == old(out.events) + Tag(libDevice, Emits(old(Pad()), t))
    {
      hide Tag, ActiveSlots, PrimaryDistSq, ReportNext, ReportEvents, MoveAxis, Track;
      if t.dwt {
        tapEmitted := true;
      }
      match t.ev.eventType {
        case KEY =>
          ProcessTouchpadKey(t, out);
        case ABSOLUTE =>
          if t.ev.code == ABS_X || t.ev.code == ABS_Y {
            TrackCoordinate(t);
          } else {
            TrackSlot(t);
          }
        case SYNCHRONIZATION =>
          if t.ev.code == SYN_REPORT {
            ProcessReport(t, out);
          }
        case RELATIVE =>
        case OTHER =>
      }
    }

    method ProcessTouchpadKey(t: Tick, out: EventQueue)
      requires Valid() && t.ev.eventType == KEY
      modifies this, out
      ensures Valid()
      ensures unchanged(`settings, `heldKeys, `lastTypingTime)
      ensures Pad() == NextInput(old(Pad()), Decode(t.ev), t)
      ensures out.events == old(out.events) + Tag(libDevice, EmitsInput(old(Pad()), Decode(t.ev), t))
    {
      if t.ev.code == BTN_TOUCH {
        touchActive := t.ev.value != 0;
        if touchActive {
          LandFingers(t, out);
        } else {
          LiftFingers(t, out);
        }
      } else if t.ev.code == BTN_TOOL_DOUBLETAP {
        touchFingers := if t.ev.value != 0 then 2 else 1;
      } else if t.ev.code == BTN_TOOL_TRIPLETAP {
        touchFingers := if t.ev.value != 0 then 3 else 2;
      } else if t.ev.code == BTN_TOOL_QUADTAP {
        touchFingers := if t.ev.value != 0 then 4 else 3;
      } else {
        ProcessClick(t, out);
      }
    }

    method LandFingers(t: Tick, out: EventQueue)
      requires Valid() && touchActive
      modifies this, out
      ensures Valid()
      ensures unchanged(`settings, `heldKeys, `lastTypingTime)
      ensures Pad() == TouchDown(old(Pad()), t.now)
      ensures out.events == old(out.events) + Tag(libDevice, TouchDownEvents(old(Pad()), t.ev.timeUsec))
    {
      hide Tag, ActiveSlots;
      StartContact(t.now);
      if touchFingers >= 2 && !pinchActive {
        BeginPinch(t.ev.timeUsec, out);
      }
    }

    method StartContact(now: Time)
      modifies this`touchStartTime, this`tapEmitted, this`touchFingers, this`lastX, this`lastY
      ensures touchStartTime == Some(now) && !tapEmitted && touchFingers == LandedFingers(mtSlots[..])
      ensures lastX == None && lastY == None
    {
      touchStartTime := Some(now);
      tapEmitted := false;
      touchFingers := Max(ActiveCount(mtSlots[..]), 1);
      lastX := None;
      lastY := None;
    }

    method BeginPinch(ts: nat, out: EventQueue)
      requires !pinchActive
      modifies this`pinchActive, this`pinchBaseDistSq, this`pinchBaseAngle, this`pinchFingers, out
      ensures var dist := PrimaryDistSq(mtSlots[..]);
              if dist.Some? then
                && pinchActive && pinchBaseDistSq == dist.value
                && pinchBaseAngle == PrimaryAngle(mtSlots[..]) && pinchFingers == touchFingers
                && out.events == old(out.events) + Tag(libDevice,
                     [PinchBegin(Gesture(ts, touchFingers, 0.0, 0.0, 1.0, Flat, Flat, false))])
              else
                && !pinchActive && unchanged(`pinchBaseDistSq, `pinchBaseAngle, `pinchFingers)
                && out.events == old(out.events) + Tag(libDevice, [])
    {
      var dist := PrimaryDistSq(mtSlots[..]);
      if dist.Some? {
        pinchActive := true;
        pinchBaseDistSq := dist.value;
        pinchBaseAngle := PrimaryAngle(mtSlots[..]);
        pinchFingers := touchFingers;
        out.PushBack(libDevice, PinchBegin(Gesture(ts, pinchFingers, 0.0, 0.0, 1.0, Flat, Flat, false)));
      }
    }

    method LiftFingers(t: Tick, out: EventQueue)
      requires Valid() && !touchActive
      modifies this, out
      ensures Valid()
      ensures unchanged(`settings, `heldKeys, `lastTypingTime)
      ensures Pad() == Lift(old(Pad()))
      ensures out.events == old(out.events) + Tag(libDevice, LiftEvents(old(Pad()), t))
    {
      ghost var s, ts := Pad(), t.ev.timeUsec;
      EndPinch(t.ev.timeUsec, out);
      EmitTap(t, out);
      TagConcat(libDevice, EndEvents(s, ts), TapEvents(s.contact, t));
      ResetContact();
    }

    method ResetContact()
      modifies this`lastX, this`lastY, this`currentDx, this`currentDy, this`touchStartTime, this`touchFingers
      ensures lastX == None && lastY == None && currentDx == 0 && currentDy == 0
      ensures touchStartTime == None && touchFingers == 0
    {
      lastX := None;
      lastY := None;
      currentDx := 0;
      currentDy := 0;
      touchStartTime := None;
      touchFingers := 0;
    }

    method EndPinch(ts: nat, out: EventQueue)
      modifies this`pinchActive, out
      ensures !pinchActive
      ensures out.events == old(out.events) + Tag(libDevice, EndEvents(old(Pad()), ts))
    {
      if pinchActive {
        pinchActive := false;
        out.PushBack(libDevice, PinchEnd(Gesture(ts, pinchFingers, 0.0, 0.0,
          ScaleSq(PrimaryDistSq(mtSlots[..]), pinchBaseDistSq), PrimaryAngle(mtSlots[..]), pinchBaseAngle, false)));
      }
    }

    method EmitTap(t: Tick, out: EventQueue)
      modifies out
      ensures out.events == old(out.events) + Tag(libDevice, TapEvents(Pad().contact, t))
    {
      if t.tap && !tapEmitted && !t.dwt {
        if touchStartTime.Some? {
          if Elapsed(t.now, touchStartTime.value) < TAP_TIMEOUT && touchFingers <= 1 {
            out.PushBack(libDevice, PointerButton(t.ev.timeUsec, BTN_LEFT, 1));
            out.PushBack(libDevice, PointerButton(t.ev.timeUsec, BTN_LEFT, 0));
          }
        }
      }
    }

    method ProcessClick(t: Tick, out: EventQueue)
      requires Valid()
      modifies this, out
      ensures Valid()
      ensures unchanged(`settings, `heldKeys, `lastTypingTime)
      ensures Pad() == old(Pad()).(click := ClickAfter(touchFingers, old(activeClickButton), t.ev.code, t.ev.value))
      ensures out.events == old(out.events)
                            + Tag(libDevice, ButtonEvents(
          MappedButton(touchFingers, old(activeClickButton), t.ev.code, t.ev.value), t.ev.value, t.ev.timeUsec))
    {
      var mapped := t.ev.code;
      if t.ev.code == BTN_LEFT {
        if t.ev.value != 0 {
          if touchFingers == 2 {
            mapped := BTN_RIGHT;
          } else if touchFingers >= 3 {
            mapped := BTN_MIDDLE;
          }
          activeClickButton := Some(mapped);
        } else if activeClickButton.Some? {
          mapped := activeClickButton.value;
          activeClickButton := None;
        }
      }
      if mapped == BTN_LEFT || mapped == BTN_RIGHT || mapped == BTN_MIDDLE {
        out.PushBack(libDevice, PointerButton(t.ev.timeUsec, mapped, AsU32(t.ev.value)));
      }
    }

    method TrackSlot(t: Tick)
      requires Valid()
      requires t.ev.eventType == ABSOLUTE && t.ev.code != ABS_X && t.ev.code != ABS_Y
      modifies this`currentSlot, mtSlots
      ensures Valid()
      ensures Pad() == NextInput(old(Pad()), Decode(t.ev), t)
    {
      if t.ev.code == ABS_MT_SLOT {
        // a negative i32 becomes a huge usize and fails the bound
        if 0 <= t.ev.value < mtSlots.Length {
          currentSlot := t.ev.value;
        }
      } else if currentSlot < mtSlots.Length {
        var m := mtSlots[currentSlot];
        if t.ev.code == ABS_MT_TRACKING_ID {
          mtSlots[currentSlot] := m.(active := t.ev.value >= 0, trackingId := t.ev.value);
        } else if t.ev.code == ABS_MT_POSITION_X {
          mtSlots[currentSlot] := m.(x := t.ev.value);
        } else if t.ev.code == ABS_MT_POSITION_Y {
          mtSlots[currentSlot] := m.(y := t.ev.value);
        } else if t.ev.code == ABS_MT_DISTANCE {
          mtSlots[currentSlot] := m.(distance := t.ev.value);
        }
      }
    }

    method TrackCoordinate(t: Tick)
      requires Valid()
      requires t.ev.eventType == ABSOLUTE && (t.ev.code == ABS_X || t.ev.code == ABS_Y)
      modifies this
      ensures Valid()
      ensures unchanged(`settings, `heldKeys, `lastTypingTime)
      ensures Pad() == MoveAxis(old(Pad()), if t.ev.code == ABS_X then X else Y, t.ev.value, t.now)
    {
      hide Wrap32;
      var val := t.ev.value;
      var stalled := lastMovementTime.Some? && Elapsed(t.now, lastMovementTime.value) > STALL;
      lastMovementTime := Some(t.now);
      if t.ev.code == ABS_X {
        if stalled {
          lastX := None;
        }
        if lastX.Some? {
          currentDx := Wrap32(currentDx + Wrap32(val - lastX.value));
        }
        lastX := Some(val);
      } else {
        if stalled {
          lastY := None;
        }
        if lastY.Some? {
          currentDy := Wrap32(currentDy + Wrap32(val - lastY.value));
        }
        lastY := Some(val);
      }
    }

    method ProcessReport(t: Tick, out: EventQueue)
      requires Valid()
      modifies this, out
      ensures Valid()
      ensures unchanged(`settings, `heldKeys, `lastTypingTime)
      ensures Pad() == ReportNext(old(Pad()), t)
      ensures out.events == old(out.events) + Tag(libDevice, ReportEvents(old(Pad()), t))
    {
      hide Tag, Consume, Units, ActiveSlots, MotionEvents, ScrollEvents, ScaleSq, PrimaryDistSq, PrimaryAngle;
      if pinchActive && !t.dwt {
        if PrimaryDistSq(mtSlots[..]).Some? {
          out.PushBack(libDevice, PinchUpdate(Gesture(t.ev.timeUsec, pinchFingers, 0.0, 0.0,
            ScaleSq(PrimaryDistSq(mtSlots[..]), pinchBaseDistSq), PrimaryAngle(mtSlots[..]), pinchBaseAngle, false)));
        }
        ClearFrame();
        return;
      }

      var hasMovement := currentDx != 0 || currentDy != 0;
      if t.dwt {
        ClearFrame();
        remainderX := 0.0;
        remainderY := 0.0;
        tapEmitted := true;
        return;
      }
      if hasMovement {
        ProcessFrame(t, out);
      }
    }

    method ProcessFrame(t: Tick, out: EventQueue)
      requires Valid()
      requires Kind(Pad(), t.dwt) in {MotionFrame, ScrollFrame, SwipeFrame}
      modifies this, out
      ensures Valid()
      ensures unchanged(`settings, `heldKeys, `lastTypingTime)
      ensures Pad() == ReportNext(old(Pad()), t)
      ensures out.events == old(out.events) + Tag(libDevice, ReportEvents(old(Pad()), t))
    {
      hide Tag, Total, Units, Consume, ActiveSlots, MotionEvents, ScrollEvents, PrimaryDistSq, PrimaryAngle;
      ghost var k := Kind(Pad(), t.dwt);
      tapEmitted := true;
      var nFingers := Max(ActiveCount(mtSlots[..]), touchFingers);
      if nFingers <= 1 {
        EmitMotion(t, out);
      } else if nFingers == 2 {
        EmitScroll(t, out);
      } else {
        out.PushBack(libDevice, SwipeUpdate(Gesture(t.ev.timeUsec, nFingers,
          currentDx as real * HW_SCALE, currentDy as real * HW_SCALE, 1.0, Flat, Flat, false)));
      }
      assert k == if nFingers <= 1 then MotionFrame else if nFingers == 2 then ScrollFrame else SwipeFrame;
      ClearFrame();
    }

    method ClearFrame()
      modifies this`currentDx, this`currentDy
      ensures currentDx == 0 && currentDy == 0
    {
      currentDx := 0;
      currentDy := 0;
    }

    method EmitMotion(t: Tick, out: EventQueue)
      modifies this`remainderX, this`remainderY, out
      ensures remainderX == Consume(old(Pad().x), HW_SCALE, t.accel).rem
      ensures remainderY == Consume(old(Pad().y), HW_SCALE, t.accel).rem
      ensures out.events == old(out.events)
                            + Tag(libDevice, MotionEvents(old(Pad().x), old(Pad().y), t.accel, t.ev.timeUsec))
    {
      var totalX := (currentDx as real * HW_SCALE) * t.accel + remainderX;
      var totalY := (currentDy as real * HW_SCALE) * t.accel + remainderY;
      assert totalX == Total(Pad().x, HW_SCALE, t.accel);
      assert totalY == Total(Pad().y, HW_SCALE, t.accel);
      var emitX := Saturate32(Round(totalX));
      var emitY := Saturate32(Round(totalY));
      remainderX := totalX - emitX as real;
      remainderY := totalY - emitY as real;
      if emitX != 0 || emitY != 0 {
        out.PushBack(libDevice, PointerMotion(t.ev.timeUsec, emitX, emitY,
          currentDx as real * HW_SCALE, currentDy as real * HW_SCALE));
      }
    }

    method EmitScroll(t: Tick, out: EventQueue)
      modifies this`remainderX, this`remainderY, out
      ensures remainderX == Consume(old(Pad().x), SCROLL_SCALE, 1.0).rem
      ensures remainderY == Consume(old(Pad().y), SCROLL_SCALE, 1.0).rem
      ensures out.events == old(out.events) + Tag(libDevice,
        ScrollEvents(0, Units(old(Pad().y), SCROLL_SCALE, 1.0), t.natural, t.ev.timeUsec)
        + ScrollEvents(1, Units(old(Pad().x), SCROLL_SCALE, 1.0), t.natural, t.ev.timeUsec))
    {
      var totalY := currentDy as real * SCROLL_SCALE + remainderY;
      var totalX := currentDx as real * SCROLL_SCALE + remainderX;
      var emitY := Saturate32(Round(totalY));
      var emitX := Saturate32(Round(totalX));
      remainderY := totalY - emitY as real;
      remainderX := totalX - emitX as real;
      PushScroll(0, emitY, t, out);
      PushScroll(1, emitX, t, out);
      TagConcat(libDevice, ScrollEvents(0, emitY, t.natural, t.ev.timeUsec),
                           ScrollEvents(1, emitX, t.natural, t.ev.timeUsec));
    }

    method PushScroll(axis: nat, emit: int, t: Tick, out: EventQueue)
      modifies out
      ensures out.events == old(out.events) + Tag(libDevice, ScrollEvents(axis, emit, t.natural, t.ev.timeUsec))
    {
      if emit != 0 {
        var v := if t.natural then -emit else emit;
        out.PushBack(libDevice, ScrollFinger(t.ev.timeUsec, axis, v * 15, v));
      }
    }

    // ---- keyboard ----

    /** The repeat phase of a drain, for this device. */
    method EmitKeyRepeats(now: Time, out: EventQueue)
      modifies this`heldKeys, out
      ensures Value() == old(Value()).(held := Polled(old(heldKeys), now))
      ensures out.events == old(out.events) + Tag(libDevice, PollEvents(old(heldKeys), now))
    {
      hide Fire, FireEvents;
      ghost var before := heldKeys;
      assert before[..0] == [];
      for i := 0 to |heldKeys|
        invariant |heldKeys| == |before|
        invariant forall j :: 0 <= j < |before| ==> heldKeys[j] == if j < i then Fire(before[j], now) else before[j]
        invariant out.events == old(out.events) + Tag(libDevice, PollEvents(before[..i], now))
      {
        var hk := heldKeys[i];
        var delay := if hk.initialFired then REPEAT_INTERVAL else REPEAT_DELAY;
        assert before[..i + 1][..i] == before[..i];
        TagConcat(libDevice, PollEvents(before[..i], now), FireEvents(hk, now));
        assert Due(hk, now) <==> Elapsed(now, hk.lastFire) >= delay;
        FireIfDue(hk, now);
        if Elapsed(now, hk.lastFire) >= delay {
          out.PushBack(libDevice, KeyboardKey(hk.timeUsec, hk.code, REPEATED));
          heldKeys := heldKeys[i := hk.(lastFire := now, initialFired := true)];
        }
      }
      assert before[..|before|] == before;
    }

    /** `typing` is the backend's time of the last key press. */
    method ProcessKeyboardEvent(ev: RawEvent, now: Time, out: EventQueue, typing: Option<Time>)
      returns (newTyping: Option<Time>)
      modifies this`heldKeys, this`lastTypingTime, out
      ensures heldKeys == KeyNext(old(heldKeys), ev, now)
      ensures lastTypingTime == if IsPress(ev) then Some(now) else old(lastTypingTime)
      ensures newTyping == if IsPress(ev) then Some(now) else typing
      ensures out.events == old(out.events) + Tag(libDevice, KeyEvents(ev))
    {
      newTyping := typing;
      if ev.eventType != KEY {
        return;
      }
      if ev.value == 1 {
        newTyping := Some(now);
        lastTypingTime := Some(now);
        heldKeys := heldKeys + [HeldKey(ev.code, ev.timeUsec, now, false)];
        out.PushBack(libDevice, KeyboardKey(ev.timeUsec, ev.code, PRESSED));
      } else if ev.value == 0 {
        heldKeys := Retain(heldKeys, ev.code);
        out.PushBack(libDevice, KeyboardKey(ev.timeUsec, ev.code, RELEASED));
      }
    }

    // ---- mouse and trackpoint ----

    method ProcessRelativeEvent(ev: RawEvent, out: EventQueue)
      modifies out
      ensures out.events == old(out.events) + Tag(libDevice, RelativeEvents(ev))
    {
      var v, ts := ev.value as int, ev.timeUsec;
      match ev.eventType {
        case RELATIVE =>
          if ev.code == REL_X {
            out.PushBack(libDevice, PointerMotion(ts, v, 0, v as real, 0.0));
          } else if ev.code == REL_Y {
            out.PushBack(libDevice, PointerMotion(ts, 0, v, 0.0, v as real));
          } else if ev.code == REL_WHEEL {
            out.PushBack(libDevice, ScrollWheel(ts, 0, v * 15, v));
          } else if ev.code == REL_HWHEEL {
            out.PushBack(libDevice, ScrollWheel(ts, 1, v * 15, v));
          }
        case KEY =>
          if ev.code in {BTN_LEFT, BTN_RIGHT, BTN_MIDDLE, BTN_SIDE, BTN_EXTRA} {
            out.PushBack(libDevice, PointerButton(ts, ev.code, AsU32(v)));
          }
        case ABSOLUTE =>
        case SYNCHRONIZATION =>
        case OTHER =>
      }
    }

    // ---- settings ----

    method Configure(s: Settings)
      modifies this`settings
      ensures Value() == old(Value()).(settings := s)
    {
      settings := s;
    }

    method AccelSetSpeed(speed: real)
      modifies this`settings
      ensures settings == old(settings).(speed := settings.speed)
      ensures -1.0 <= speed <= 1.0 ==> settings.speed == speed
      ensures forall c: Speed :: c != settings.speed ==> Apart(settings.speed, speed) < Apart(c, speed)
    {
      settings := settings.(speed := if speed < -1.0 then -1.0 else if speed > 1.0 then 1.0 else speed);
    }
  }
}
