/** The standalone daemon's touchpad: next state and the uinput events it writes. */
module Daemon {
  import opened Basics
  import opened Events
  import opened Touchpad

  const DWT_WINDOW: int := 500 * MS

  /** An event written to the virtual device. */
  datatype UEvent = UEvent(eventType: EventType, code: nat, value: int)

  const SYN: UEvent := UEvent(SYNCHRONIZATION, SYN_REPORT, 0)

  datatype Wrapper = Wrapper(x: Axis, y: Axis, lastMove: Option<Time>, contact: Contact, click: Option<nat>)
  {
    function At(a: AxisId): Axis {
      if a == X then x else y
    }

    predicate Moved() {
      x.acc != 0 || y.acc != 0
    }
  }

  const FRESH: Wrapper := Wrapper(Axis(None, 0, 0.0), Axis(None, 0, 0.0), None, Contact(false, 0, false, None), None)

  /** The daemon has no case for four fingers and none for slots. */
  function Sees(ev: RawEvent): Input {
    match Decode(ev)
    case Tool(n) => if ev.code == BTN_TOOL_QUADTAP then Ignored else Tool(n)
    case Slot(_) => Ignored
    case i => i
  }

  function Forward(ev: RawEvent): UEvent {
    UEvent(ev.eventType, ev.code, ev.value)
  }

  function Land(d: Wrapper, now: Time): Wrapper {
    d.(x := d.x.(last := None), y := d.y.(last := None), contact := Contact(true, 1, false, Some(now)))
  }

  function Raise(d: Wrapper): Wrapper {
    d.(x := Axis(None, 0, d.x.rem), y := Axis(None, 0, d.y.rem),
       contact := Contact(false, 0, d.contact.tapEmitted, None))
  }

  predicate TapsNow(c: Contact, t: Tick) {
    && t.tap && !c.tapEmitted && !t.dwt
    && c.start.Some? && Elapsed(t.now, c.start.value) < TAP_TIMEOUT
  }

  function TapWrites(c: Contact, t: Tick): seq<UEvent> {
    if TapsNow(c, t) then [UEvent(KEY, BTN_LEFT, 1), SYN, UEvent(KEY, BTN_LEFT, 0)] else []
  }

  /** Exactly three fingers give the middle button here. */
  function ButtonFor(fingers: nat, click: Option<nat>, code: nat, value: I32): nat {
    if code != BTN_LEFT then code
    else if value != 0 then
      if fingers == 2 then BTN_RIGHT else if fingers == 3 then BTN_MIDDLE else BTN_LEFT
    else if click.Some? then click.value
    else code
  }

  function HeldAfter(fingers: nat, click: Option<nat>, code: nat, value: I32): Option<nat> {
    if code != BTN_LEFT then click
    else if value != 0 then Some(ButtonFor(fingers, click, code, value))
    else None
  }

  function ButtonWrites(mapped: nat, value: I32): seq<UEvent> {
    if IsPointerButton(mapped) then [UEvent(KEY, mapped, value)] else []
  }

  /** A stall drops the anchors of both axes. */
  function TrackMove(d: Wrapper, a: AxisId, v: I32, now: Time): Wrapper {
    var s := Stalled(d.lastMove, now);
    var x := if s then d.x.(last := None) else d.x;
    var y := if s then d.y.(last := None) else d.y;
    if a == X then d.(x := Advance(x, false, v), y := y, lastMove := Some(now))
    else d.(x := x, y := Advance(y, false, v), lastMove := Some(now))
  }

  function ReportAfter(d: Wrapper, t: Tick): Wrapper {
    if t.dwt then
      d.(x := Axis(d.x.last, 0, 0.0), y := Axis(d.y.last, 0, 0.0),
         contact := d.contact.(tapEmitted := true))
    else if !d.Moved() then d
    else
      var c := d.contact.(tapEmitted := true);
      if d.contact.fingers <= 1 then
        d.(x := Consume(d.x, HW_SCALE, t.accel), y := Consume(d.y, HW_SCALE, t.accel), contact := c)
      else if d.contact.fingers == 2 then
        d.(x := Axis(d.x.last, 0, 0.0), y := Consume(d.y, SCROLL_SCALE, 1.0), contact := c)
      else d.(x := Discard(d.x), y := Discard(d.y), contact := c)
  }

  function Rel(code: nat, units: int): seq<UEvent> {
    if units != 0 then [UEvent(RELATIVE, code, units)] else []
  }

  function FrameWrites(d: Wrapper, t: Tick): seq<UEvent> {
    if t.dwt || !d.Moved() then []
    else if d.contact.fingers <= 1 then
      Rel(REL_X, Units(d.x, HW_SCALE, t.accel)) + Rel(REL_Y, Units(d.y, HW_SCALE, t.accel))
    else if d.contact.fingers == 2 then
      var v := Units(d.y, SCROLL_SCALE, 1.0);
      Rel(REL_WHEEL, if t.natural then -v else v)
    else []
  }

  function ReportWrites(d: Wrapper, t: Tick): seq<UEvent> {
    FrameWrites(d, t) + if d.Moved() || !t.dwt then [Forward(t.ev)] else []
  }

  function Watch(d: Wrapper, dwt: bool): Wrapper {
    if dwt then d.(contact := d.contact.(tapEmitted := true)) else d
  }

  function After(d: Wrapper, t: Tick): Wrapper {
    AfterInput(Watch(d, t.dwt), Sees(t.ev), t)
  }

  function AfterInput(d: Wrapper, i: Input, t: Tick): Wrapper {
    match i
    case Touch(down) => if down then Land(d, t.now) else Raise(d)
    case Tool(n) => d.(contact := d.contact.(fingers := n))
    case Button(code, value) => d.(click := HeldAfter(d.contact.fingers, d.click, code, value))
    case Move(a, v) => TrackMove(d, a, v, t.now)
    case Report => ReportAfter(d, t)
    case _ => d
  }

  function Writes(d: Wrapper, t: Tick): seq<UEvent> {
    WritesInput(Watch(d, t.dwt), Sees(t.ev), t)
  }

  function WritesInput(d: Wrapper, i: Input, t: Tick): seq<UEvent> {
    match i
    case Touch(down) => if down then [] else TapWrites(d.contact, t)
    case Button(code, value) => ButtonWrites(ButtonFor(d.contact.fingers, d.click, code, value), value)
    case Report => ReportWrites(d, t)
    case Ignored => if t.ev.eventType == SYNCHRONIZATION then [Forward(t.ev)] else []
    case _ => []
  }

  function Ends(d: Wrapper, ts: seq<Tick>): Wrapper {
    if ts == [] then d else After(Ends(d, ts[..|ts| - 1]), ts[|ts| - 1])
  }
}
