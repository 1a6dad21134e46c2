/** The kernel's event codes, by number. */
module Kernel {
  import opened Basics
  import opened Events
  import opened Touchpad
  import opened Daemon

  /** Which key events mean what to a touchpad: BTN_TOUCH is 0x14a, the finger counters
      are 0x14d to 0x14f, and everything else is a button. */
  lemma KeyCodes(ev: RawEvent)
    requires ev.eventType == KEY
    ensures match Decode(ev)
            case Touch(down) => ev.code == 0x14a && (down <==> ev.value != 0)
            case Tool(n) => 0x14d <= ev.code <= 0x14f && n == ev.code - 0x14c + if ev.value != 0 then 1 else 0
            case Button(code, v) =>
              code == ev.code && v == ev.value && ev.code != 0x14a && !(0x14d <= ev.code <= 0x14f)
            case _ => false
  {}

  /** Which absolute events do: ABS_X and ABS_Y are 0 and 1, and the multi-touch codes
      are 0x2f (slot), 0x35 and 0x36 (position), 0x39 (tracking id) and 0x3b (distance). */
  lemma AbsoluteCodes(ev: RawEvent)
    requires ev.eventType == ABSOLUTE
    ensures match Decode(ev)
            case Move(a, v) => v == ev.value && ev.code == if a == X then 0 else 1
            case Slot(Select(v)) => ev.code == 0x2f && v == ev.value
            case Slot(PositionX(v)) => ev.code == 0x35 && v == ev.value
            case Slot(PositionY(v)) => ev.code == 0x36 && v == ev.value
            case Slot(Tracking(v)) => ev.code == 0x39 && v == ev.value
            case Slot(Distance(v)) => ev.code == 0x3b && v == ev.value
            case Ignored => ev.code !in {0, 1, 0x2f, 0x35, 0x36, 0x39, 0x3b}
            case _ => false
  {}

  /** Only SYN_REPORT, which is 0, ends a frame; relative and other events mean nothing. */
  lemma OtherCodes(ev: RawEvent)
    requires ev.eventType != KEY && ev.eventType != ABSOLUTE
    ensures Decode(ev) == if ev.eventType == SYNCHRONIZATION && ev.code == 0 then Report else Ignored
  {}

  /** The daemon takes the same events but for the fourth finger, 0x14f, and the slots. */
  lemma DaemonCodes(ev: RawEvent)
    ensures Sees(ev) == if ev.eventType == KEY && ev.code == 0x14f then Ignored
                        else if ev.eventType == ABSOLUTE && ev.code !in {0, 1} then Ignored
                        else Decode(ev)
  {}

  /** BTN_LEFT, BTN_RIGHT and BTN_MIDDLE are 0x110 to 0x112, the side buttons of a mouse
      0x113 and 0x114, REL_X and REL_Y 0 and 1, the wheels 8 and 6. */
  lemma ButtonCodes()
    ensures BTN_LEFT == 0x110 && BTN_RIGHT == 0x111 && BTN_MIDDLE == 0x112 && BTN_SIDE == 0x113 && BTN_EXTRA == 0x114
    ensures REL_X == 0 && REL_Y == 1 && REL_WHEEL == 8 && REL_HWHEEL == 6
  {}

  /** Clock readings count nanoseconds. */
  lemma Millisecond()
    ensures MS == 1_000_000
  {}
}
