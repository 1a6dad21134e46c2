/** Kernel events read from a device, and the libinput events made from them. */
module Events {
  import opened Basics

  datatype EventType = KEY | RELATIVE | ABSOLUTE | SYNCHRONIZATION | OTHER

  datatype RawEvent = RawEvent(eventType: EventType, code: nat, value: I32, timeUsec: nat)

  const SYN_REPORT: nat := 0

  const BTN_LEFT: nat := 0x110
  const BTN_RIGHT: nat := 0x111
  const BTN_MIDDLE: nat := 0x112
  const BTN_SIDE: nat := 0x113
  const BTN_EXTRA: nat := 0x114
  const BTN_TOUCH: nat := 0x14a
  const BTN_TOOL_DOUBLETAP: nat := 0x14d
  const BTN_TOOL_TRIPLETAP: nat := 0x14e
  const BTN_TOOL_QUADTAP: nat := 0x14f

  const REL_X: nat := 0x00
  const REL_Y: nat := 0x01
  const REL_HWHEEL: nat := 0x06
  const REL_WHEEL: nat := 0x08

  const ABS_X: nat := 0x00
  const ABS_Y: nat := 0x01
  const ABS_MT_SLOT: nat := 0x2f
  const ABS_MT_POSITION_X: nat := 0x35
  const ABS_MT_POSITION_Y: nat := 0x36
  const ABS_MT_TRACKING_ID: nat := 0x39
  const ABS_MT_DISTANCE: nat := 0x3b

  /** The direction of the vector between two fingers; `Flat` is the constant
      0 degrees that stands in when there are not two. `atan2` stays symbolic. */
  datatype Angle = Flat | Atan2(dy: int, dx: int)

  /** The gesture record of the C interface. `scaleSq` is the square of the
      reported scale, and the reported angle is `now - base`. */
  datatype Gesture = Gesture(timeUsec: nat, fingers: nat, dx: real, dy: real,
                             scaleSq: real, now: Angle, base: Angle, cancelled: bool)

  datatype LibEvent =
    | DeviceAdded
    | DeviceRemoved
    | KeyboardKey(timeUsec: nat, key: nat, state: nat)
    | PointerMotion(timeUsec: nat, dx: int, dy: int, dxUnaccel: real, dyUnaccel: real)
    | PointerButton(timeUsec: nat, button: nat, state: nat)
    | ScrollWheel(timeUsec: nat, axis: nat, value: int, discrete: int)
    | ScrollFinger(timeUsec: nat, axis: nat, value: int, discrete: int)
    | SwipeUpdate(gesture: Gesture)
    | PinchBegin(gesture: Gesture)
    | PinchUpdate(gesture: Gesture)
    | PinchEnd(gesture: Gesture)

  /** An event as it stands in the context's queue. */
  datatype Queued = Queued(device: nat, event: LibEvent)

  function Tag(device: nat, events: seq<LibEvent>): (tagged: seq<Queued>)
    ensures |tagged| == |events|
  {
    seq(|events|, i requires 0 <= i < |events| => Queued(device, events[i]))
  }

  lemma TagConcat(device: nat, a: seq<LibEvent>, b: seq<LibEvent>)
    ensures Tag(device, a + b) == Tag(device, a) + Tag(device, b)
  {}

  class EventQueue {
    var events: seq<Queued>

    constructor ()
      ensures events == []
    {
      events := [];
    }

    method PushBack(device: nat, event: LibEvent)
      modifies this
      ensures events == old(events) + Tag(device, [event])
    {
      events := events + [Queued(device, event)];
    }
  }
}
