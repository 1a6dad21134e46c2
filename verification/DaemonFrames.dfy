/** What a report of the daemon's touchpad writes, by the number of fingers it counts. */
module DaemonFrames {
  import opened Basics
  import opened Events
  import opened Touchpad
  import opened Ledger
  import opened Daemon
  import opened Buttons
  import opened Frames

  function Write(code: nat, units: int): seq<UEvent> {
    if units == 0 then [] else [UEvent(RELATIVE, code, units)]
  }

  /** Pointer motion on codes 0 and 1. */
  ghost predicate Moves(d: Wrapper, t: Tick, after: Wrapper, us: seq<UEvent>, h: int, v: int) {
    && Whole(Ideal(d.x.acc, t.accel) + d.x.rem, h)
    && Whole(Ideal(d.y.acc, t.accel) + d.y.rem, v)
    && us == Write(0, h) + Write(1, v)
    && after.x == Axis(d.x.last, 0, Ideal(d.x.acc, t.accel) + d.x.rem - h as real)
    && after.y == Axis(d.y.last, 0, Ideal(d.y.acc, t.accel) + d.y.rem - v as real)
  }

  /** Wheel steps on code 8, from the vertical axis alone; the horizontal one starts over. */
  ghost predicate Scrolls(d: Wrapper, t: Tick, after: Wrapper, us: seq<UEvent>, v: int) {
    && Whole(d.y.acc as real * 0.02 + d.y.rem, v)
    && us == Write(8, if t.natural then -v else v)
    && after.x == Axis(d.x.last, 0, 0.0)
    && after.y == Axis(d.y.last, 0, d.y.acc as real * 0.02 + d.y.rem - v as real)
  }

  lemma MotionWrites(d: Wrapper, t: Tick)
    requires !t.dwt && d.Moved() && d.contact.fingers <= 1
    ensures Moves(d, t, ReportAfter(d, t), FrameWrites(d, t),
                  Units(d.x, HW_SCALE, t.accel), Units(d.y, HW_SCALE, t.accel))
  {
    hide Units, Total, Ideal, Whole;
    WholeTotal(d.x, t.accel);
    WholeTotal(d.y, t.accel);
  }

  lemma ScrollWrites(d: Wrapper, t: Tick)
    requires !t.dwt && d.Moved() && d.contact.fingers == 2
    ensures Scrolls(d, t, ReportAfter(d, t), FrameWrites(d, t), Units(d.y, SCROLL_SCALE, 1.0))
  {
    hide Whole, Round, Saturate32;
    WholeIs(Total(d.y, SCROLL_SCALE, 1.0));
  }

  /** With nobody typing, a report that finds movement moves the pointer with up to one
      finger, turns the wheel with two, and writes nothing with three; the report itself is
      passed on. Under DWT the movement is dropped with what earlier reports left over, and
      the report is passed on exactly when it found movement. */
  lemma FrameByFingers(d: Wrapper, t: Tick) returns (h: int, v: int)
    requires Decode(t.ev).Report?
    ensures var n, after, us := d.contact.fingers, After(d, t), Writes(d, t);
            var moved := d.x.acc != 0 || d.y.acc != 0;
            var sync := [UEvent(SYNCHRONIZATION, 0, t.ev.value)];
            if t.dwt then
              && us == (if moved then sync else [])
              && after.x == Axis(d.x.last, 0, 0.0) && after.y == Axis(d.y.last, 0, 0.0)
              && after.contact == d.contact.(tapEmitted := true)
            else if !moved then us == sync && after == d
            else
              && after.contact == d.contact.(tapEmitted := true)
              && us != [] && us[|us| - 1] == sync[0]
              && if n <= 1 then Moves(d, t, after, us[..|us| - 1], h, v)
                 else if n == 2 then Scrolls(d, t, after, us[..|us| - 1], v)
                 else us == sync && after.x == Axis(d.x.last, 0, d.x.rem) && after.y == Axis(d.y.last, 0, d.y.rem)
  {
    hide Moves, Scrolls, Units, Rel;
    h, v := 0, 0;
    if !t.dwt && d.Moved() {
      var frame := FrameWrites(d, t);
      assert Writes(d, t) == frame + [Forward(t.ev)] && (frame + [Forward(t.ev)])[..|frame|] == frame;
      if d.contact.fingers <= 1 {
        MotionWrites(d, t);
        h, v := Units(d.x, HW_SCALE, t.accel), Units(d.y, HW_SCALE, t.accel);
      } else if d.contact.fingers == 2 {
        ScrollWrites(d, t);
        v := Units(d.y, SCROLL_SCALE, 1.0);
      }
    }
  }

  /** The fingers are those that the history tells of: one for a touch-down, two or three
      when the kernel says so. */
  lemma FrameOfHistory(ts: seq<Tick>, t: Tick) returns (h: int, v: int)
    requires Decode(t.ev).Report? && !t.dwt
    ensures var d, after, us := Ends(FRESH, ts), Ends(FRESH, ts + [t]), Writes(Ends(FRESH, ts), t);
            d.x.acc != 0 || d.y.acc != 0 ==>
              && us != [] && us[|us| - 1] == UEvent(SYNCHRONIZATION, 0, t.ev.value)
              && if DaemonCount(ts) <= 1 then Moves(d, t, after, us[..|us| - 1], h, v)
                 else if DaemonCount(ts) == 2 then Scrolls(d, t, after, us[..|us| - 1], v)
                 else |us| == 1
  {
    hide Moves, Scrolls, After, Writes, DaemonCount;
    CountsAreFingers(ts);
    DaemonSnoc(ts, t);
    h, v := FrameByFingers(Ends(FRESH, ts), t);
  }

  /** Other synchronization events are passed on as they are. */
  lemma OtherSync(d: Wrapper, t: Tick)
    requires t.ev.eventType == SYNCHRONIZATION && t.ev.code != 0
    ensures Writes(d, t) == [UEvent(SYNCHRONIZATION, t.ev.code, t.ev.value)]
    ensures After(d, t) == if t.dwt then d.(contact := d.contact.(tapEmitted := true)) else d
  {}
}
