/** What a report emits, by the number of fingers on the pad. */
module Frames {
  import opened Basics
  import opened Events
  import opened Touchpad
  import opened Geometry
  import opened Buttons
  import opened Ledger
  import Scenarios
  import Pinch = PinchProtocol

  const LOWEST: int := -0x8000_0000
  const HIGHEST: int := 0x7FFF_FFFF

  /** `units` is the whole number nearest to `total`, away from zero on a tie, and the
      nearer end of the i32 range when `total` is outside it. */
  predicate Whole(total: real, units: int) {
    var off := total - units as real;
    && LOWEST <= units <= HIGHEST
    && (-0.5 <= off <= 0.5 || (units == LOWEST && off < 0.0) || (units == HIGHEST && off > 0.0))
    && (off == 0.5 ==> total < 0.0 || units == HIGHEST)
    && (off == -0.5 ==> total > 0.0 || units == LOWEST)
  }

  lemma WholeIs(total: real)
    ensures Whole(total, Saturate32(Round(total)))
  {
    RoundNear(total);
  }

  /** Nothing is emitted exactly when less than half a unit has gathered. */
  lemma WholeZero(total: real, units: int)
    requires Whole(total, units)
    ensures units == 0 <==> -0.5 < total < 0.5
  {}

  lemma WholeUnique(total: real, m: int, n: int)
    requires Whole(total, m) && Whole(total, n)
    ensures m == n
  {}

  // ---- what one report emits ----

  function Motion(s: Pad, ts: nat, dx: int, dy: int): seq<LibEvent> {
    if dx == 0 && dy == 0 then []
    else [PointerMotion(ts, dx, dy, s.x.acc as real * 0.18, s.y.acc as real * 0.18)]
  }

  function Step(ts: nat, axis: nat, steps: int): seq<LibEvent> {
    if steps == 0 then [] else [ScrollFinger(ts, axis, 15 * steps, steps)]
  }

  ghost predicate Moves(s: Pad, t: Tick, after: Pad, es: seq<LibEvent>, h: int, v: int) {
    && Whole(Ideal(s.x.acc, t.accel) + s.x.rem, h)
    && Whole(Ideal(s.y.acc, t.accel) + s.y.rem, v)
    && es == Motion(s, t.ev.timeUsec, h, v)
    && after.x == Axis(s.x.last, 0, Ideal(s.x.acc, t.accel) + s.x.rem - h as real)
    && after.y == Axis(s.y.last, 0, Ideal(s.y.acc, t.accel) + s.y.rem - v as real)
  }

  ghost predicate Scrolls(s: Pad, t: Tick, after: Pad, es: seq<LibEvent>, h: int, v: int) {
    var sign := if t.natural then -1 else 1;
    && Whole(s.x.acc as real * 0.02 + s.x.rem, h)
    && Whole(s.y.acc as real * 0.02 + s.y.rem, v)
    && es == Step(t.ev.timeUsec, 0, sign * v) + Step(t.ev.timeUsec, 1, sign * h)
    && after.x == Axis(s.x.last, 0, s.x.acc as real * 0.02 + s.x.rem - h as real)
    && after.y == Axis(s.y.last, 0, s.y.acc as real * 0.02 + s.y.rem - v as real)
  }

  ghost predicate Swipes(s: Pad, t: Tick, after: Pad, es: seq<LibEvent>, n: nat) {
    && es == [SwipeUpdate(Gesture(t.ev.timeUsec, n, s.x.acc as real * 0.18, s.y.acc as real * 0.18,
                                  1.0, Flat, Flat, false))]
    && after.x == Axis(s.x.last, 0, s.x.rem) && after.y == Axis(s.y.last, 0, s.y.rem)
  }

  lemma MotionFrame(s: Pad, t: Tick)
    requires Kind(s, t.dwt) == FrameKind.MotionFrame
    ensures Moves(s, t, ReportNext(s, t), ReportEvents(s, t),
                  Units(s.x, HW_SCALE, t.accel), Units(s.y, HW_SCALE, t.accel))
  {
    hide Units, Total, Ideal, Whole, Kind;
    WholeTotal(s.x, t.accel);
    WholeTotal(s.y, t.accel);
  }

  lemma WholeTotal(a: Axis, accel: real)
    ensures var total := Ideal(a.acc, accel) + a.rem;
            Total(a, HW_SCALE, accel) == total && Whole(total, Units(a, HW_SCALE, accel))
  {
    hide Whole, Round, Saturate32;
    WholeIs(Total(a, HW_SCALE, accel));
  }

  lemma ScrollFrame(s: Pad, t: Tick)
    requires Kind(s, t.dwt) == FrameKind.ScrollFrame
    ensures Scrolls(s, t, ReportNext(s, t), ReportEvents(s, t),
                    Units(s.x, SCROLL_SCALE, 1.0), Units(s.y, SCROLL_SCALE, 1.0))
  {
    hide Round, Saturate32, Whole, Kind;
    WholeIs(Total(s.x, SCROLL_SCALE, 1.0));
    WholeIs(Total(s.y, SCROLL_SCALE, 1.0));
  }

  lemma SwipeFrame(s: Pad, t: Tick)
    requires Kind(s, t.dwt) == FrameKind.SwipeFrame
    ensures Swipes(s, t, ReportNext(s, t), ReportEvents(s, t), FrameFingers(s))
  {
    hide Kind, FrameFingers;
  }

  /** Outside a pinch and with nobody typing, a report that finds movement moves the pointer
      with up to one finger on the pad, scrolls with two and swipes with three or more. The
      fingers are the slots in use or those announced, whichever are more; `h` and `v` are
      the whole units of the two axes, and what they leave over is kept. */
  lemma FrameByFingers(s: Pad, t: Tick) returns (h: int, v: int)
    requires Decode(t.ev).Report? && !t.dwt && !s.pinch.active
    ensures var n, after, es := Max(|InUse(s.mt.slots)|, s.contact.fingers), Next(s, t), Emits(s, t);
            if s.x.acc == 0 && s.y.acc == 0 then es == [] && after == s
            else
              && after.contact == s.contact.(tapEmitted := true)
              && if n <= 1 then Moves(s, t, after, es, h, v)
                 else if n == 2 then Scrolls(s, t, after, es, h, v)
                 else Swipes(s, t, after, es, n)
  {
    hide ActiveSlots, InUse, Moves, Scrolls, Swipes, Units;
    CountsInUse(s.mt.slots);
    h, v := 0, 0;
    match Kind(s, false)
    case MotionFrame =>
      MotionFrame(s, t);
      h, v := Units(s.x, HW_SCALE, t.accel), Units(s.y, HW_SCALE, t.accel);
    case ScrollFrame =>
      ScrollFrame(s, t);
      h, v := Units(s.x, SCROLL_SCALE, 1.0), Units(s.y, SCROLL_SCALE, 1.0);
    case SwipeFrame => SwipeFrame(s, t);
    case _ =>
  }

  /** Under DWT or in a pinch whatever has gathered is dropped; under DWT so is what earlier
      reports left over. */
  lemma FrameDropped(s: Pad, t: Tick)
    requires Decode(t.ev).Report? && (t.dwt || s.pinch.active)
    ensures var after := Next(s, t);
            && after.x == Axis(s.x.last, 0, if t.dwt then 0.0 else s.x.rem)
            && after.y == Axis(s.y.last, 0, if t.dwt then 0.0 else s.y.rem)
            && after.contact == s.contact.(tapEmitted := s.contact.tapEmitted || t.dwt)
            && forall e :: e in Emits(s, t) ==> e.PinchUpdate? && !t.dwt
  {
    hide ActiveSlots, Units;
  }

  /** From the kernel's events alone: with no gesture open in what was emitted so far, what
      a report does is decided by the fingers that the history tells of. */
  lemma FrameOfHistory(ts: seq<Tick>, t: Tick) returns (h: int, v: int)
    requires Decode(t.ev).Report? && !t.dwt
    requires Pinch.WatchAll(Pinch.Idle, Outputs(INITIAL, ts)) == Pinch.Idle
    ensures var n := Max(|InUse(LoggedSlots(ts))|, LibraryCount(ts));
            var s, after, es := Final(INITIAL, ts), Final(INITIAL, ts + [t]), Emits(Final(INITIAL, ts), t);
            if s.x.acc == 0 && s.y.acc == 0 then es == []
            else if n <= 1 then Moves(s, t, after, es, h, v)
            else if n == 2 then Scrolls(s, t, after, es, h, v)
            else Swipes(s, t, after, es, n)
  {
    hide Final, Outputs, LibraryCount, LoggedSlots, InUse, Moves, Scrolls, Swipes, Next, Emits, Pinch.WatchAll;
    Pinch.Protocol(ts);
    CountsAreFingers(ts);
    LogIsTable(ts);
    Scenarios.Snoc(INITIAL, ts, t);
    h, v := FrameByFingers(Final(INITIAL, ts), t);
  }
}
