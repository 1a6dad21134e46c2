/** What one kernel event does to a touchpad: the next state and the events it emits. */
module Touchpad {
  import opened Basics
  import opened Events

  const SLOTS: nat := 10
  const STALL: int := 50 * MS
  const TAP_TIMEOUT: int := 250 * MS
  const HW_SCALE: real := 0.18
  const SCROLL_SCALE: real := 0.02

  // ---- state ----

  datatype MtSlot = MtSlot(active: bool, trackingId: I32, x: I32, y: I32, distance: I32)

  datatype SlotTable = SlotTable(slots: seq<MtSlot>, current: nat)

  datatype AxisId = X | Y

  /** One axis: the anchor the next coordinate is compared with, the counts gathered
      in this frame, and the part of the last output that was rounded away. */
  datatype Axis = Axis(last: Option<I32>, acc: I32, rem: real)

  datatype Contact = Contact(active: bool, fingers: nat, tapEmitted: bool, start: Option<Time>)

  /** `distSq` and `angle` are the geometry recorded when the pinch began. */
  datatype Pinch = Pinch(active: bool, distSq: int, angle: Angle, fingers: nat)

  datatype Pad = Pad(x: Axis, y: Axis, lastMove: Option<Time>, contact: Contact,
                     click: Option<nat>, mt: SlotTable, pinch: Pinch)
  {
    function At(a: AxisId): Axis {
      if a == X then x else y
    }

    predicate Moved() {
      x.acc != 0 || y.acc != 0
    }
  }

  const IDLE_SLOT: MtSlot := MtSlot(false, 0, 0, 0, 0)

  function IdleSlots(): (slots: seq<MtSlot>)
    ensures |slots| == SLOTS && forall i :: 0 <= i < SLOTS ==> slots[i] == IDLE_SLOT
  {
    seq(SLOTS, i => IDLE_SLOT)
  }

  const INITIAL: Pad := Pad(Axis(None, 0, 0.0), Axis(None, 0, 0.0), None, Contact(false, 0, false, None),
                            None, SlotTable(IdleSlots(), 0), Pinch(false, 0, Flat, 0))

  // ---- input ----

  /** One event with everything the handler looks at: the clock, the DWT verdict and the
      settings of the device. The factor for motion is speed + 1 in the library, with the
      speed clamped to [-1, 1]; in the daemon it is whatever the configuration file says. */
  datatype Tick = Tick(ev: RawEvent, now: Time, dwt: bool, tap: bool, natural: bool, accel: real)

  /** Factors with which no motion total leaves i32, the library's among them. */
  predicate Tame(t: Tick) {
    -5.0 <= t.accel <= 5.0
  }

  datatype Input =
    | Touch(down: bool)
    | Tool(fingers: nat)
    | Button(code: nat, value: I32)
    | Slot(field: SlotInput)
    | Move(axis: AxisId, value: I32)
    | Report
    | Ignored

  datatype SlotInput =
    | Select(value: I32)
    | Tracking(value: I32)
    | PositionX(value: I32)
    | PositionY(value: I32)
    | Distance(value: I32)

  function Decode(ev: RawEvent): Input {
    match ev.eventType
    case KEY => DecodeKey(ev.code, ev.value)
    case ABSOLUTE => DecodeAbsolute(ev.code, ev.value)
    case SYNCHRONIZATION => if ev.code == SYN_REPORT then Report else Ignored
    case RELATIVE => Ignored
    case OTHER => Ignored
  }

  function DecodeKey(code: nat, value: I32): Input {
    var on := value != 0;
    if code == BTN_TOUCH then Touch(on)
    else if code == BTN_TOOL_DOUBLETAP then Tool(if on then 2 else 1)
    else if code == BTN_TOOL_TRIPLETAP then Tool(if on then 3 else 2)
    else if code == BTN_TOOL_QUADTAP then Tool(if on then 4 else 3)
    else Button(code, value)
  }

  function DecodeAbsolute(code: nat, value: I32): Input {
    if code == ABS_MT_SLOT then Slot(Select(value))
    else if code == ABS_MT_TRACKING_ID then Slot(Tracking(value))
    else if code == ABS_MT_POSITION_X then Slot(PositionX(value))
    else if code == ABS_MT_POSITION_Y then Slot(PositionY(value))
    else if code == ABS_MT_DISTANCE then Slot(Distance(value))
    else if code == ABS_X then Move(X, value)
    else if code == ABS_Y then Move(Y, value)
    else Ignored
  }

  // ---- multi-touch slots ----

  function ActiveSlots(slots: seq<MtSlot>): (active: seq<MtSlot>)
    ensures |active| <= |slots|
  {
    if slots == [] then []
    else if slots[0].active then [slots[0]] + ActiveSlots(slots[1..])
    else ActiveSlots(slots[1..])
  }

  function ActiveCount(slots: seq<MtSlot>): nat {
    |ActiveSlots(slots)|
  }

  /** The square of the distance between the first two active slots. */
  function PrimaryDistSq(slots: seq<MtSlot>): Option<int> {
    var active := ActiveSlots(slots);
    if |active| < 2 then None
    else
      var dx, dy := active[0].x - active[1].x, active[0].y - active[1].y;
      Some(dx * dx + dy * dy)
  }

  function PrimaryAngle(slots: seq<MtSlot>): Angle {
    var active := ActiveSlots(slots);
    if |active| < 2 then Flat
    else Atan2(active[1].y - active[0].y, active[1].x - active[0].x)
  }

  /** The squared scale against a recorded baseline. */
  function ScaleSq(distSq: Option<int>, base: int): real {
    if distSq.Some? && base > 0 then distSq.value as real / base as real else 1.0
  }

  function Track(m: SlotTable, i: SlotInput): SlotTable {
    if i.Select? then
      // a negative value becomes a huge usize and fails the bound
      if 0 <= i.value < |m.slots| then m.(current := i.value) else m
    else if m.current < |m.slots| then
      m.(slots := m.slots[m.current := Write(m.slots[m.current], i)])
    else m
  }

  function Write(s: MtSlot, i: SlotInput): MtSlot {
    match i
    case Tracking(v) => s.(active := v >= 0, trackingId := v)
    case PositionX(v) => s.(x := v)
    case PositionY(v) => s.(y := v)
    case Distance(v) => s.(distance := v)
    case Select(_) => s
  }

  // ---- touch down and lift ----

  function LandedFingers(slots: seq<MtSlot>): nat {
    Max(ActiveCount(slots), 1)
  }

  predicate BeginsPinch(s: Pad) {
    LandedFingers(s.mt.slots) >= 2 && !s.pinch.active && PrimaryDistSq(s.mt.slots).Some?
  }

  function TouchDown(s: Pad, now: Time): Pad {
    var n := LandedFingers(s.mt.slots);
    Pad(s.x.(last := None), s.y.(last := None), s.lastMove, Contact(true, n, false, Some(now)), s.click, s.mt,
        if BeginsPinch(s) then
          Pinch(true, PrimaryDistSq(s.mt.slots).value, PrimaryAngle(s.mt.slots), n)
        else s.pinch)
  }

  function TouchDownEvents(s: Pad, ts: nat): seq<LibEvent> {
    if BeginsPinch(s) then
      [PinchBegin(Gesture(ts, LandedFingers(s.mt.slots), 0.0, 0.0, 1.0, Flat, Flat, false))]
    else []
  }

  function Lift(s: Pad): Pad {
    Pad(Axis(None, 0, s.x.rem), Axis(None, 0, s.y.rem), s.lastMove,
        Contact(false, 0, s.contact.tapEmitted, None), s.click, s.mt, s.pinch.(active := false))
  }

  function PinchGesture(s: Pad, ts: nat): Gesture {
    Gesture(ts, s.pinch.fingers, 0.0, 0.0, ScaleSq(PrimaryDistSq(s.mt.slots), s.pinch.distSq),
            PrimaryAngle(s.mt.slots), s.pinch.angle, false)
  }

  predicate Taps(c: Contact, t: Tick) {
    && t.tap && !c.tapEmitted && !t.dwt
    && c.start.Some? && Elapsed(t.now, c.start.value) < TAP_TIMEOUT
    && c.fingers <= 1
  }

  function TapClick(ts: nat): seq<LibEvent> {
    [PointerButton(ts, BTN_LEFT, 1), PointerButton(ts, BTN_LEFT, 0)]
  }

  function EndEvents(s: Pad, ts: nat): seq<LibEvent> {
    if s.pinch.active then [PinchEnd(PinchGesture(s, ts))] else []
  }

  function TapEvents(c: Contact, t: Tick): seq<LibEvent> {
    if Taps(c, t) then TapClick(t.ev.timeUsec) else []
  }

  function LiftEvents(s: Pad, t: Tick): seq<LibEvent> {
    EndEvents(s, t.ev.timeUsec) + TapEvents(s.contact, t)
  }

  // ---- physical buttons ----

  /** The button a hardware button event stands for. */
  function MappedButton(fingers: nat, click: Option<nat>, code: nat, value: I32): nat {
    if code != BTN_LEFT then code
    else if value != 0 then
      if fingers == 2 then BTN_RIGHT else if fingers >= 3 then BTN_MIDDLE else BTN_LEFT
    else if click.Some? then click.value
    else code
  }

  function ClickAfter(fingers: nat, click: Option<nat>, code: nat, value: I32): Option<nat> {
    if code != BTN_LEFT then click
    else if value != 0 then Some(MappedButton(fingers, click, code, value))
    else None
  }

  predicate IsPointerButton(code: nat) {
    code == BTN_LEFT || code == BTN_RIGHT || code == BTN_MIDDLE
  }

  function ButtonEvents(mapped: nat, value: I32, ts: nat): seq<LibEvent> {
    if IsPointerButton(mapped) then [PointerButton(ts, mapped, AsU32(value))] else []
  }

  // ---- coordinates ----

  predicate Stalled(lastMove: Option<Time>, now: Time) {
    lastMove.Some? && Elapsed(now, lastMove.value) > STALL
  }

  function Advance(axis: Axis, stalled: bool, v: I32): Axis {
    if stalled || axis.last.None? then axis.(last := Some(v))
    else Axis(Some(v), Wrap32(axis.acc + Wrap32(v - axis.last.value)), axis.rem)
  }

  /** A stall drops the anchor of the arriving axis only. */
  function MoveAxis(s: Pad, a: AxisId, v: I32, now: Time): Pad {
    var moved := Advance(s.At(a), Stalled(s.lastMove, now), v);
    if a == X then s.(x := moved, lastMove := Some(now)) else s.(y := moved, lastMove := Some(now))
  }

  // ---- reports ----

  datatype FrameKind = PinchFrame | DwtFrame | StillFrame | MotionFrame | ScrollFrame | SwipeFrame

  function FrameFingers(s: Pad): nat {
    Max(ActiveCount(s.mt.slots), s.contact.fingers)
  }

  function Kind(s: Pad, dwt: bool): FrameKind {
    if s.pinch.active && !dwt then PinchFrame
    else if dwt then DwtFrame
    else if !s.Moved() then StillFrame
    else if FrameFingers(s) <= 1 then MotionFrame
    else if FrameFingers(s) == 2 then ScrollFrame
    else SwipeFrame
  }

  function Total(a: Axis, scale: real, accel: real): real {
    (a.acc as real * scale) * accel + a.rem
  }

  /** The whole units a frame emits on an axis. */
  function Units(a: Axis, scale: real, accel: real): int {
    Saturate32(Round(Total(a, scale, accel)))
  }

  function Consume(a: Axis, scale: real, accel: real): (r: Axis)
    ensures r.last == a.last && r.acc == 0
  {
    Axis(a.last, 0, Total(a, scale, accel) - Units(a, scale, accel) as real)
  }

  function Discard(a: Axis): Axis {
    a.(acc := 0)
  }

  /** What a report makes of an axis. */
  function AxisAfter(a: Axis, k: FrameKind, accel: real): Axis {
    match k
    case PinchFrame => Discard(a)
    case DwtFrame => Axis(a.last, 0, 0.0)
    case StillFrame => a
    case MotionFrame => Consume(a, HW_SCALE, accel)
    case ScrollFrame => Consume(a, SCROLL_SCALE, 1.0)
    case SwipeFrame => Discard(a)
  }

  predicate SpendsTap(k: FrameKind) {
    !k.PinchFrame? && !k.StillFrame?
  }

  function ReportNext(s: Pad, t: Tick): Pad {
    var k := Kind(s, t.dwt);
    s.(x := AxisAfter(s.x, k, t.accel), y := AxisAfter(s.y, k, t.accel),
       contact := if SpendsTap(k) then s.contact.(tapEmitted := true) else s.contact)
  }

  function MotionEvents(x: Axis, y: Axis, accel: real, ts: nat): seq<LibEvent> {
    var ux, uy := Units(x, HW_SCALE, accel), Units(y, HW_SCALE, accel);
    if ux != 0 || uy != 0 then
      [PointerMotion(ts, ux, uy, x.acc as real * HW_SCALE, y.acc as real * HW_SCALE)]
    else []
  }

  function ScrollEvents(axis: nat, units: int, natural: bool, ts: nat): seq<LibEvent> {
    var v := if natural then -units else units;
    if units != 0 then [ScrollFinger(ts, axis, v * 15, v)] else []
  }

  function ReportEvents(s: Pad, t: Tick): seq<LibEvent> {
    var ts := t.ev.timeUsec;
    match Kind(s, t.dwt)
    case PinchFrame => if PrimaryDistSq(s.mt.slots).Some? then [PinchUpdate(PinchGesture(s, ts))] else []
    case DwtFrame => []
    case StillFrame => []
    case MotionFrame => MotionEvents(s.x, s.y, t.accel, ts)
    case ScrollFrame =>
      ScrollEvents(0, Units(s.y, SCROLL_SCALE, 1.0), t.natural, ts)
      + ScrollEvents(1, Units(s.x, SCROLL_SCALE, 1.0), t.natural, ts)
    case SwipeFrame =>
      [SwipeUpdate(Gesture(ts, FrameFingers(s), s.x.acc as real * HW_SCALE, s.y.acc as real * HW_SCALE,
                           1.0, Flat, Flat, false))]
  }

  // ---- one event ----

  /** DWT marks the tap as spent before anything else happens. */
  function Guard(s: Pad, dwt: bool): Pad {
    if dwt then s.(contact := s.contact.(tapEmitted := true)) else s
  }

  function Next(s: Pad, t: Tick): Pad {
    NextInput(Guard(s, t.dwt), Decode(t.ev), t)
  }

  function NextInput(s: Pad, i: Input, t: Tick): Pad {
    match i
    case Touch(down) => if down then TouchDown(s, t.now) else Lift(s)
    case Tool(n) => s.(contact := s.contact.(fingers := n))
    case Button(code, value) => s.(click := ClickAfter(s.contact.fingers, s.click, code, value))
    case Slot(f) => s.(mt := Track(s.mt, f))
    case Move(a, v) => MoveAxis(s, a, v, t.now)
    case Report => ReportNext(s, t)
    case Ignored => s
  }

  function Emits(s: Pad, t: Tick): seq<LibEvent> {
    EmitsInput(Guard(s, t.dwt), Decode(t.ev), t)
  }

  function EmitsInput(s: Pad, i: Input, t: Tick): seq<LibEvent> {
    match i
    case Touch(down) => if down then TouchDownEvents(s, t.ev.timeUsec) else LiftEvents(s, t)
    case Button(code, value) =>
      ButtonEvents(MappedButton(s.contact.fingers, s.click, code, value), value, t.ev.timeUsec)
    case Report => ReportEvents(s, t)
    case _ => []
  }

  // ---- runs ----

  function Final(s: Pad, ts: seq<Tick>): Pad {
    if ts == [] then s else Next(Final(s, ts[..|ts| - 1]), ts[|ts| - 1])
  }

  function Outputs(s: Pad, ts: seq<Tick>): seq<LibEvent> {
    if ts == [] then []
    else Outputs(s, ts[..|ts| - 1]) + Emits(Final(s, ts[..|ts| - 1]), ts[|ts| - 1])
  }
}
