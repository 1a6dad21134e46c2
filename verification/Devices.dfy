/** An open device as a value, and what one batch of kernel events does to it. */
module Devices {
  import opened Basics
  import opened Events
  import opened Touchpad
  import opened Keyboard

  type Fd = int

  const DWT_WINDOW: int := 500 * MS

  /** A configured speed, as the setter leaves it. */
  type Speed = s: real | -1.0 <= s <= 1.0

  /** The settings of a device that the handlers look at. */
  datatype Settings = Settings(tap: bool, natural: bool, dwt: bool, speed: Speed)

  const DEFAULTS: Settings := Settings(true, true, true, 0.0)

  function Apart(a: real, b: real): real {
    if a < b then b - a else a - b
  }

  /** `id` is the device's place in the context's list of devices. */
  datatype Device = Device(id: nat, path: string, isAbsolute: bool, isKeyboard: bool, isPointer: bool,
                           settings: Settings, pad: Pad, held: seq<HeldKey>, typed: Option<Time>)

  /** A kernel event and the clock reading it is handled at. */
  datatype Reading = Reading(ev: RawEvent, now: Time)

  /** What reading a device's file descriptor gives. */
  datatype Fetch = Batch(readings: seq<Reading>) | WouldBlock | Vanished | Failed

  // ---- mouse and trackpoint ----

  function RelativeEvents(ev: RawEvent): seq<LibEvent> {
    var v, ts := ev.value as int, ev.timeUsec;
    match ev.eventType
    case RELATIVE =>
      if ev.code == REL_X then [PointerMotion(ts, v, 0, v as real, 0.0)]
      else if ev.code == REL_Y then [PointerMotion(ts, 0, v, 0.0, v as real)]
      else if ev.code == REL_WHEEL then [ScrollWheel(ts, 0, v * 15, v)]
      else if ev.code == REL_HWHEEL then [ScrollWheel(ts, 1, v * 15, v)]
      else []
    case KEY =>
      if ev.code in {BTN_LEFT, BTN_RIGHT, BTN_MIDDLE, BTN_SIDE, BTN_EXTRA} then
        [PointerButton(ts, ev.code, AsU32(v))]
      else []
    case _ => []
  }

  // ---- one event, routed by the kind of device ----

  predicate Types(d: Device) {
    d.isKeyboard && !d.isAbsolute
  }

  function TypingActive(s: Settings, typing: Option<Time>, now: Time): bool {
    s.dwt && typing.Some? && Elapsed(now, typing.value) < DWT_WINDOW
  }

  /** `typing` is the time of the last key press when the batch was fetched. */
  function TickFor(s: Settings, typing: Option<Time>, r: Reading): Tick {
    Tick(r.ev, r.now, TypingActive(s, typing, r.now), s.tap, s.natural, s.speed + 1.0)
  }

  function HandleNext(d: Device, typing: Option<Time>, r: Reading): Device {
    if Types(d) then
      d.(held := KeyNext(d.held, r.ev, r.now), typed := if IsPress(r.ev) then Some(r.now) else d.typed)
    else if d.isAbsolute then d.(pad := Next(d.pad, TickFor(d.settings, typing, r)))
    else d
  }

  function HandleEvents(d: Device, typing: Option<Time>, r: Reading): seq<LibEvent> {
    if Types(d) then KeyEvents(r.ev)
    else if !d.isAbsolute && d.isPointer then RelativeEvents(r.ev)
    else if d.isAbsolute then Emits(d.pad, TickFor(d.settings, typing, r))
    else []
  }

  /** The time of the last key press, after an event. */
  function HandleTyping(d: Device, typing: Option<Time>, r: Reading): Option<Time> {
    if Types(d) && IsPress(r.ev) then Some(r.now) else typing
  }

  // ---- a batch; every event of it is judged by the same snapshot ----

  function BatchNext(d: Device, snapshot: Option<Time>, rs: seq<Reading>): Device {
    if rs == [] then d
    else HandleNext(BatchNext(d, snapshot, rs[..|rs| - 1]), snapshot, rs[|rs| - 1])
  }

  function BatchEvents(d: Device, snapshot: Option<Time>, rs: seq<Reading>): seq<LibEvent> {
    if rs == [] then []
    else
      BatchEvents(d, snapshot, rs[..|rs| - 1])
      + HandleEvents(BatchNext(d, snapshot, rs[..|rs| - 1]), snapshot, rs[|rs| - 1])
  }

  function BatchTyping(d: Device, typing: Option<Time>, rs: seq<Reading>): Option<Time> {
    if rs == [] then typing
    else HandleTyping(d, BatchTyping(d, typing, rs[..|rs| - 1]), rs[|rs| - 1])
  }

  // ---- one device in one drain ----

  function PollNext(d: Device, now: Time): Device {
    if d.isKeyboard then d.(held := Polled(d.held, now)) else d
  }

  function PollOut(d: Device, now: Time): seq<LibEvent> {
    if d.isKeyboard then PollEvents(d.held, now) else []
  }

  function FetchNext(d: Device, typing: Option<Time>, f: Fetch): Device {
    if f.Batch? then BatchNext(d, typing, f.readings) else d
  }

  function FetchOut(d: Device, typing: Option<Time>, f: Fetch): seq<LibEvent> {
    if f.Batch? then BatchEvents(d, typing, f.readings) else []
  }

  function FetchTyping(d: Device, typing: Option<Time>, f: Fetch): Option<Time> {
    if f.Batch? then BatchTyping(d, typing, f.readings) else typing
  }

  /** What never changes about a device. */
  predicate SameDevice(d: Device, e: Device) {
    && d.id == e.id && d.path == e.path && d.settings == e.settings
    && d.isAbsolute == e.isAbsolute && d.isKeyboard == e.isKeyboard && d.isPointer == e.isPointer
  }

  lemma {:induction false} BatchSame(d: Device, snapshot: Option<Time>, rs: seq<Reading>)
    ensures SameDevice(d, BatchNext(d, snapshot, rs))
  {
    if rs != [] { BatchSame(d, snapshot, rs[..|rs| - 1]); }
  }

  /** A device that is not absolute looks neither at the typing snapshot nor at its settings. */
  lemma {:induction false} SnapshotUnused(d: Device, s: Option<Time>, t: Option<Time>, c: Settings, rs: seq<Reading>)
    requires !d.isAbsolute
    ensures BatchNext(d.(settings := c), s, rs) == BatchNext(d, t, rs).(settings := c)
    ensures BatchEvents(d.(settings := c), s, rs) == BatchEvents(d, t, rs)
  {
    hide KeyNext, KeyEvents, RelativeEvents, Next, Emits;
    if rs != [] {
      SnapshotUnused(d, s, t, c, rs[..|rs| - 1]);
      BatchSame(d, t, rs[..|rs| - 1]);
    }
  }
}
