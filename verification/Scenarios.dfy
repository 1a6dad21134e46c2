/** Concrete runs on which the code departs from what its documentation says. */
module Scenarios {
  import opened Basics
  import opened Events
  import opened Touchpad
  import opened PinchProtocol
  import opened SlotLog

  /** A kernel event handled at time 0 with default settings. */
  function At(eventType: EventType, code: nat, v: I32, dwt: bool): Tick {
    Tick(RawEvent(eventType, code, v, 0), 0, dwt, true, true, 1.0)
  }

  const TOUCH: Tick := At(KEY, BTN_TOUCH, 1, false)
  const REPORT: Tick := At(SYNCHRONIZATION, SYN_REPORT, 0, false)

  function Contact(id: I32): Tick {
    At(ABSOLUTE, ABS_MT_TRACKING_ID, id, false)
  }

  function ToSlot(k: I32): Tick {
    At(ABSOLUTE, ABS_MT_SLOT, k, false)
  }

  // ---- counting the fingers of a concrete table ----

  lemma {:induction false} NoneActive(slots: seq<MtSlot>)
    requires forall i :: 0 <= i < |slots| ==> !slots[i].active
    ensures ActiveSlots(slots) == []
  {
    if slots != [] { NoneActive(slots[1..]); }
  }

  /** Only the first two slots may be in use. */
  lemma FirstTwo(slots: seq<MtSlot>)
    requires |slots| == SLOTS && forall i :: 2 <= i < |slots| ==> !slots[i].active
    ensures ActiveCount(slots) == (if slots[0].active then 1 else 0) + (if slots[1].active then 1 else 0)
  {
    NoneActive(slots[2..]);
    assert slots[1..][1..] == slots[2..];
    assert |ActiveSlots(slots[1..])| == if slots[1].active then 1 else 0;
  }

  lemma Snoc(s: Pad, ts: seq<Tick>, t: Tick)
    ensures Final(s, ts + [t]) == Next(Final(s, ts), t)
    ensures Outputs(s, ts + [t]) == Outputs(s, ts) + Emits(Final(s, ts), t)
  {
    assert (ts + [t])[..|ts|] == ts;
  }

  lemma OneEvent(s: Pad, t: Tick)
    ensures Final(s, [t]) == Next(s, t) && Outputs(s, [t]) == Emits(s, t)
  {
    assert [] + [t] == [t];
    Snoc(s, [], t);
  }

  /** The slots after some events: at most two fingers, in the first two slots. */
  ghost predicate Fingers(s: Pad, first: bool, second: bool, current: nat) {
    && |s.mt.slots| == SLOTS && s.mt.current == current
    && s.mt.slots[0].active == first && s.mt.slots[1].active == second
    && forall i :: 2 <= i < SLOTS ==> !s.mt.slots[i].active
  }

  lemma SlotStep(s: Pad, t: Tick, first: bool, second: bool, current: nat)
    requires Fingers(s, first, second, current) && current <= 1 && !t.dwt
    requires (exists id :: t == Contact(id)) || (exists k :: 0 <= k <= 1 && t == ToSlot(k))
    ensures var v := t.ev.value;
            if t.ev.code == ABS_MT_SLOT then Fingers(Next(s, t), first, second, v)
            else Fingers(Next(s, t), if current == 0 then v >= 0 else first,
                         if current == 1 then v >= 0 else second, current)
    ensures Emits(s, t) == [] && Next(s, t) == s.(mt := Next(s, t).mt)
  {
    hide ActiveSlots;
  }

  lemma LandStep(s: Pad, dwt: bool)
    ensures var t := At(KEY, BTN_TOUCH, 1, dwt);
            && Next(s, t).mt == s.mt && Next(s, t).x == s.x.(last := None) && Next(s, t).y == s.y.(last := None)
            && Next(s, t).contact.fingers == Max(ActiveCount(s.mt.slots), 1) && Next(s, t).lastMove == s.lastMove
            && (ActiveCount(s.mt.slots) < 2 ==> Emits(s, t) == [] && Next(s, t).pinch == s.pinch)
            && (ActiveCount(s.mt.slots) >= 2 && !s.pinch.active ==>
                  |Emits(s, t)| == 1 && Emits(s, t)[0].PinchBegin? && Next(s, t).pinch.active)
  {
    hide ActiveSlots, PrimaryDistSq, PrimaryAngle;
    TwoActive(s.mt.slots);
  }

  lemma StillReport(s: Pad)
    requires !s.Moved() && (s.pinch.active ==> ActiveCount(s.mt.slots) < 2)
    ensures Emits(s, REPORT) == [] && Next(s, REPORT).mt == s.mt
    ensures !s.pinch.active ==> Next(s, REPORT) == s
  {
    hide ActiveSlots, PrimaryDistSq, PrimaryAngle;
    TwoActive(s.mt.slots);
  }

  // ---- fingers that land one after the other ----

  const LATE_FINGER: seq<Tick> := [Contact(1)] + [TOUCH] + [ToSlot(1)] + [Contact(2)] + [REPORT]

  /** A finger is down and has not moved. */
  ghost predicate Landed(s: Pad) {
    !s.pinch.active && s.x == s.y == Axis(None, 0, 0.0) && s.lastMove == None && s.contact.fingers == 1
  }

  /** The second finger lands after the touch-down: two fingers are on the pad and no
      gesture has begun. */
  lemma LateFingerRun()
    ensures ActiveCount(Final(INITIAL, LATE_FINGER).mt.slots) == 2
    ensures Outputs(INITIAL, LATE_FINGER) == []
    ensures Landed(Final(INITIAL, LATE_FINGER))
  {
    hide ActiveSlots, Final, Outputs, Next, Emits;
    var ts := [Contact(1)];
    OneEvent(INITIAL, Contact(1));
    Snoc(INITIAL, ts, TOUCH);
    Snoc(INITIAL, ts + [TOUCH], ToSlot(1));
    Snoc(INITIAL, ts + [TOUCH] + [ToSlot(1)], Contact(2));
    Snoc(INITIAL, ts + [TOUCH] + [ToSlot(1)] + [Contact(2)], REPORT);
    var one := Next(INITIAL, Contact(1));
    SlotStep(INITIAL, Contact(1), false, false, 0);
    FirstTwo(one.mt.slots);
    LandStep(one, false);
    var down := Next(one, TOUCH);
    SlotStep(down, ToSlot(1), true, false, 0);
    var moved := Next(down, ToSlot(1));
    SlotStep(moved, Contact(2), true, false, 1);
    var both := Next(moved, Contact(2));
    FirstTwo(both.mt.slots);
    StillReport(both);
  }

  function MoveTo(code: nat, v: I32): Tick {
    At(ABSOLUTE, code, v, false)
  }

  lemma MoveDown(s: Pad)
    requires Landed(s)
    ensures var a, b := MoveTo(ABS_Y, 0), MoveTo(ABS_Y, 100);
            && Emits(s, a) == [] && Emits(Next(s, a), b) == []
            && Next(Next(s, a), b) == s.(y := Axis(Some(100), 100, 0.0), lastMove := Some(0))
  {
    hide ActiveSlots, ReportEvents, ReportNext, LiftEvents, TouchDownEvents, TouchDown, Lift, Track;
  }

  lemma ScrollReport(s: Pad)
    requires !s.pinch.active && ActiveCount(s.mt.slots) == 2 && s.contact.fingers == 1
    requires s.x == Axis(None, 0, 0.0) && s.y == Axis(Some(100), 100, 0.0)
    ensures Emits(s, REPORT) == [ScrollFinger(0, 0, -30, -2)]
  {
    hide ActiveSlots;
  }

  /** These two fingers then moving down by 100 scroll two steps, and not the pointer. */
  lemma LateFingerScrolls()
    ensures var ts := LATE_FINGER + [MoveTo(ABS_Y, 0)] + [MoveTo(ABS_Y, 100)] + [REPORT];
            Outputs(INITIAL, ts) == [ScrollFinger(0, 0, -30, -2)]
  {
    hide ActiveSlots, Final, Outputs, Next, Emits, INITIAL;
    LateFingerRun();
    var ts := LATE_FINGER + [MoveTo(ABS_Y, 0)];
    Snoc(INITIAL, LATE_FINGER, MoveTo(ABS_Y, 0));
    Snoc(INITIAL, ts, MoveTo(ABS_Y, 100));
    Snoc(INITIAL, ts + [MoveTo(ABS_Y, 100)], REPORT);
    MoveDown(Final(INITIAL, LATE_FINGER));
    ScrollReport(Final(INITIAL, ts + [MoveTo(ABS_Y, 100)]));
  }

  // ---- fingers that land together ----

  const TWO_FINGERS: seq<Tick> := [Contact(1)] + [ToSlot(1)] + [Contact(2)]

  lemma TwoFingers()
    ensures var s := Final(INITIAL, TWO_FINGERS);
            && Fingers(s, true, true, 1) && ActiveCount(s.mt.slots) == 2
            && !s.pinch.active && !s.Moved() && Outputs(INITIAL, TWO_FINGERS) == []
  {
    hide ActiveSlots, Final, Outputs, Next, Emits;
    OneEvent(INITIAL, Contact(1));
    Snoc(INITIAL, [Contact(1)], ToSlot(1));
    Snoc(INITIAL, [Contact(1)] + [ToSlot(1)], Contact(2));
    var one := Next(INITIAL, Contact(1));
    SlotStep(INITIAL, Contact(1), false, false, 0);
    SlotStep(one, ToSlot(1), true, false, 0);
    SlotStep(Next(one, ToSlot(1)), Contact(2), true, false, 1);
    FirstTwo(Final(INITIAL, TWO_FINGERS).mt.slots);
  }

  /** Typing does not suppress all touchpad input: a pinch begins under DWT. */
  lemma PinchBeginsWhileTyping()
    ensures var s, t := Final(INITIAL, TWO_FINGERS), At(KEY, BTN_TOUCH, 1, true);
            t.dwt && |Emits(s, t)| == 1 && Emits(s, t)[0].PinchBegin?
  {
    hide ActiveSlots, Final, Outputs, Next, Emits;
    TwoFingers();
    LandStep(Final(INITIAL, TWO_FINGERS), true);
  }

  /** Nor does it suppress a click. */
  lemma ClickWhileTyping()
    ensures Emits(INITIAL, At(KEY, BTN_LEFT, 1, true)) == [PointerButton(0, BTN_LEFT, 1)]
  {}

  const LIFTED_FINGER: seq<Tick> := TWO_FINGERS + [TOUCH] + [Contact(-1)]

  /** A report inside a pinch that emits no UPDATE: one of the two fingers has left, the
      kernel has not reported a lift, and the gesture goes on. */
  lemma ReportWithoutUpdate()
    ensures Final(INITIAL, LIFTED_FINGER).pinch.active
    ensures Emits(Final(INITIAL, LIFTED_FINGER), REPORT) == []
  {
    hide ActiveSlots, Final, Outputs, Next, Emits;
    TwoFingers();
    Snoc(INITIAL, TWO_FINGERS, TOUCH);
    Snoc(INITIAL, TWO_FINGERS + [TOUCH], Contact(-1));
    var both := Final(INITIAL, TWO_FINGERS);
    LandStep(both, false);
    SlotStep(Next(both, TOUCH), Contact(-1), true, true, 1);
    var left := Final(INITIAL, LIFTED_FINGER);
    FirstTwo(left.mt.slots);
    StillReport(left);
  }

  // ---- a pinch that is lifted finger by finger ----

  function ToX(x: I32): Tick {
    At(ABSOLUTE, ABS_MT_POSITION_X, x, false)
  }

  const LIFT: Tick := At(KEY, BTN_TOUCH, 0, false)

  /** Two fingers, 100 units apart, moved to 200 units apart. */
  const SPREAD: seq<Tick> := TWO_FINGERS + [ToX(100)] + [TOUCH] + [ToX(200)]

  /** The report, and then both fingers leave before the kernel reports the lift. */
  const BOTH_LEFT: seq<Tick> := SPREAD + [REPORT] + [Contact(-1)] + [ToSlot(0)] + [Contact(-1)]

  /** The two fingers are `d` apart. */
  ghost predicate Apart(s: Pad, d: I32) {
    && Fingers(s, true, true, 1)
    && s.mt.slots[0].x == 0 && s.mt.slots[1].x == d && s.mt.slots[0].y == 0 == s.mt.slots[1].y
  }

  lemma DistanceApart(s: Pad, d: I32)
    requires Apart(s, d)
    ensures PrimaryDistSq(s.mt.slots) == Some(d * d)
  {
    var slots := s.mt.slots;
    NoneActive(slots[2..]);
    assert slots[1..][1..] == slots[2..];
    assert ActiveSlots(slots[1..]) == [slots[1]];
    assert ActiveSlots(slots) == [slots[0], slots[1]];
  }

  lemma ToXStep(s: Pad, x: I32)
    requires Fingers(s, true, true, 1) && s.mt.slots[0].x == 0 && s.mt.slots[0].y == 0 == s.mt.slots[1].y
    ensures Apart(Next(s, ToX(x)), x) && Next(s, ToX(x)) == s.(mt := Next(s, ToX(x)).mt) && Emits(s, ToX(x)) == []
  {
    hide ActiveSlots;
  }

  lemma PinchStarts(s: Pad, d: I32)
    requires Apart(s, d) && !s.pinch.active
    ensures Apart(Next(s, TOUCH), d) && Next(s, TOUCH).pinch.active && Next(s, TOUCH).pinch.distSq == d * d
  {
    DistanceApart(s, d);
    hide ActiveSlots, PrimaryDistSq, PrimaryAngle;
    TwoActive(s.mt.slots);
  }

  /** A field that no event writes keeps its initial value in every slot. */
  lemma {:induction false} NeverLogged(ts: seq<Tick>, k: nat, f: Field)
    requires forall t :: t in ts ==> !Carries(Decode(t.ev), f)
    ensures Logged(ts, k, f) == None
  {
    hide Carries, Addressed;
    if ts != [] { NeverLogged(ts[..|ts| - 1], k, f); }
  }

  lemma TwoFingersTogether()
    ensures Fingers(Final(INITIAL, TWO_FINGERS), true, true, 1) && !Final(INITIAL, TWO_FINGERS).pinch.active
    ensures var slots := Final(INITIAL, TWO_FINGERS).mt.slots;
            slots[0].x == 0 && slots[0].y == 0 == slots[1].y
  {
    hide Final, Logged;
    TwoFingers();
    TableRefinesLog(TWO_FINGERS);
    NeverLogged(TWO_FINGERS, 0, PosX);
    NeverLogged(TWO_FINGERS, 0, PosY);
    NeverLogged(TWO_FINGERS, 1, PosY);
  }

  /** The UPDATE reports twice the distance; the END, documented to carry the
      final scale, reports the distance of the BEGIN. */
  lemma EndForgetsScale()
    ensures var es := Emits(Final(INITIAL, SPREAD), REPORT);
            |es| == 1 && es[0].PinchUpdate? && es[0].gesture.scaleSq == 4.0
    ensures var es := Emits(Final(INITIAL, BOTH_LEFT), LIFT);
            es != [] && es[0].PinchEnd? && es[0].gesture.scaleSq == 1.0
  {
    hide ActiveSlots, Final, Outputs, Next, Emits, LastUpdate;
    var together := Final(INITIAL, TWO_FINGERS);
    TwoFingersTogether();
    Snoc(INITIAL, TWO_FINGERS, ToX(100));
    Snoc(INITIAL, TWO_FINGERS + [ToX(100)], TOUCH);
    Snoc(INITIAL, TWO_FINGERS + [ToX(100)] + [TOUCH], ToX(200));
    ToXStep(together, 100);
    PinchStarts(Next(together, ToX(100)), 100);
    ToXStep(Next(Next(together, ToX(100)), TOUCH), 200);
    var spread := Final(INITIAL, SPREAD);
    SpreadReport(spread);
    Snoc(INITIAL, SPREAD, REPORT);
    Snoc(INITIAL, SPREAD + [REPORT], Contact(-1));
    Snoc(INITIAL, SPREAD + [REPORT] + [Contact(-1)], ToSlot(0));
    Snoc(INITIAL, SPREAD + [REPORT] + [Contact(-1)] + [ToSlot(0)], Contact(-1));
    var reported := Next(spread, REPORT);
    SlotStep(reported, Contact(-1), true, true, 1);
    var one := Next(reported, Contact(-1));
    SlotStep(one, ToSlot(0), true, false, 1);
    SlotStep(Next(one, ToSlot(0)), Contact(-1), true, false, 0);
    FirstTwo(Final(INITIAL, BOTH_LEFT).mt.slots);
    FinalScale(BOTH_LEFT, LIFT);
  }

  lemma SpreadReport(s: Pad)
    requires Apart(s, 200) && s.pinch.active && s.pinch.distSq == 10_000
    ensures |Emits(s, REPORT)| == 1 && Emits(s, REPORT)[0].PinchUpdate?
    ensures Emits(s, REPORT)[0].gesture.scaleSq == 4.0
    ensures Fingers(Next(s, REPORT), true, true, 1) && Next(s, REPORT).pinch == s.pinch
  {
    DistanceApart(s, 200);
    hide ActiveSlots, PrimaryDistSq, PrimaryAngle;
  }
}
