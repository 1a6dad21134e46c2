/** Reflecting the coordinates of a run reflects its output and changes nothing else. */
module Mirror {
  import opened Basics
  import opened Events
  import opened Touchpad
  import opened Ledger
  import Bounds
  import opened Paths
  import PathIndependence

  /** Which axes are reflected. */
  datatype Flip = Flip(x: bool, y: bool) {
    predicate On(a: AxisId) { if a == X then x else y }
  }

  const MIN: I32 := -0x8000_0000

  function Neg(b: bool, n: I32): I32
    requires n != MIN
  {
    if b then -n else n
  }

  function NegReal(b: bool, r: real): real {
    if b then -r else r
  }

  // ---- what can be reflected: values that have a negation in i32 ----

  predicate MirrorableEvent(e: RawEvent) {
    match Decode(e)
    case Move(_, v) => v != MIN
    case Slot(PositionX(v)) => v != MIN
    case Slot(PositionY(v)) => v != MIN
    case _ => true
  }

  ghost predicate MirrorableAxis(a: Axis) {
    && a.acc != MIN
    && (a.last.Some? ==> a.last.value != MIN)
    && SmallRemainder(a)
  }

  predicate MirrorableSlot(s: MtSlot) {
    s.x != MIN && s.y != MIN
  }

  predicate MirrorableSlots(slots: seq<MtSlot>) {
    forall i :: 0 <= i < |slots| ==> MirrorableSlot(slots[i])
  }

  ghost predicate Mirrorable(s: Pad) {
    MirrorableAxis(s.x) && MirrorableAxis(s.y) && MirrorableSlots(s.mt.slots)
  }

  // ---- reflections ----

  function MirrorEvent(f: Flip, e: RawEvent): RawEvent
    requires MirrorableEvent(e)
  {
    match Decode(e)
    case Move(a, v) => e.(value := Neg(f.On(a), v))
    case Slot(PositionX(v)) => e.(value := Neg(f.x, v))
    case Slot(PositionY(v)) => e.(value := Neg(f.y, v))
    case _ => e
  }

  function MirrorTick(f: Flip, t: Tick): Tick
    requires MirrorableEvent(t.ev)
  {
    t.(ev := MirrorEvent(f, t.ev))
  }

  function MirrorRun(f: Flip, ts: seq<Tick>): (r: seq<Tick>)
    requires forall i :: 0 <= i < |ts| ==> MirrorableEvent(ts[i].ev)
  {
    seq(|ts|, i requires 0 <= i < |ts| => MirrorTick(f, ts[i]))
  }

  function MirrorAxis(b: bool, a: Axis): Axis
    requires MirrorableAxis(a)
  {
    Axis(if a.last.Some? then Some(Neg(b, a.last.value)) else None, Neg(b, a.acc), NegReal(b, a.rem))
  }

  function MirrorSlot(f: Flip, s: MtSlot): MtSlot
    requires MirrorableSlot(s)
  {
    s.(x := Neg(f.x, s.x), y := Neg(f.y, s.y))
  }

  function MirrorSlots(f: Flip, slots: seq<MtSlot>): (r: seq<MtSlot>)
    requires MirrorableSlots(slots)
  {
    seq(|slots|, i requires 0 <= i < |slots| => MirrorSlot(f, slots[i]))
  }

  function MirrorAngle(f: Flip, a: Angle): Angle {
    match a
    case Flat => Flat
    case Atan2(dy, dx) => Atan2(if f.y then -dy else dy, if f.x then -dx else dx)
  }

  ghost function MirrorPad(f: Flip, s: Pad): Pad
    requires Mirrorable(s)
  {
    s.(x := MirrorAxis(f.x, s.x), y := MirrorAxis(f.y, s.y),
       mt := s.mt.(slots := MirrorSlots(f, s.mt.slots)),
       pinch := s.pinch.(angle := MirrorAngle(f, s.pinch.angle)))
  }

  function MirrorGesture(f: Flip, g: Gesture): Gesture {
    g.(dx := NegReal(f.x, g.dx), dy := NegReal(f.y, g.dy),
       now := MirrorAngle(f, g.now), base := MirrorAngle(f, g.base))
  }

  /** Motion, scroll and swipe turn round; buttons and the scale of a pinch do not. */
  function MirrorOutput(f: Flip, e: LibEvent): LibEvent {
    match e
    case PointerMotion(ts, dx, dy, ux, uy) =>
      PointerMotion(ts, if f.x then -dx else dx, if f.y then -dy else dy, NegReal(f.x, ux), NegReal(f.y, uy))
    case ScrollFinger(ts, axis, v, n) =>
      if (axis == 1 && f.x) || (axis == 0 && f.y) then ScrollFinger(ts, axis, -v, -n) else e
    case SwipeUpdate(g) => SwipeUpdate(MirrorGesture(f, g))
    case PinchBegin(g) => PinchBegin(MirrorGesture(f, g))
    case PinchUpdate(g) => PinchUpdate(MirrorGesture(f, g))
    case PinchEnd(g) => PinchEnd(MirrorGesture(f, g))
    case _ => e
  }

  function MirrorOutputs(f: Flip, es: seq<LibEvent>): seq<LibEvent> {
    seq(|es|, i requires 0 <= i < |es| => MirrorOutput(f, es[i]))
  }

  lemma MirrorOutputsConcat(f: Flip, a: seq<LibEvent>, b: seq<LibEvent>)
    ensures MirrorOutputs(f, a + b) == MirrorOutputs(f, a) + MirrorOutputs(f, b)
  {}

  // ---- slots ----

  lemma {:induction false} ActiveMirror(f: Flip, slots: seq<MtSlot>)
    requires MirrorableSlots(slots)
    ensures MirrorableSlots(ActiveSlots(slots))
    ensures ActiveSlots(MirrorSlots(f, slots)) == MirrorSlots(f, ActiveSlots(slots))
  {
    if slots != [] {
      ActiveMirror(f, slots[1..]);
      assert MirrorSlots(f, slots)[1..] == MirrorSlots(f, slots[1..]);
      assert MirrorSlots(f, slots)[0] == MirrorSlot(f, slots[0]);
    }
  }

  /** Distances survive a reflection; directions are reflected. */
  lemma GeometryMirror(f: Flip, slots: seq<MtSlot>)
    requires MirrorableSlots(slots)
    ensures ActiveCount(MirrorSlots(f, slots)) == ActiveCount(slots)
    ensures PrimaryDistSq(MirrorSlots(f, slots)) == PrimaryDistSq(slots)
    ensures PrimaryAngle(MirrorSlots(f, slots)) == MirrorAngle(f, PrimaryAngle(slots))
  {
    ActiveMirror(f, slots);
    var active := ActiveSlots(slots);
    if |active| >= 2 {
      var dx, dy := active[0].x - active[1].x, active[0].y - active[1].y;
      assert (-dx) * (-dx) == dx * dx && (-dy) * (-dy) == dy * dy;
    }
  }

  lemma TrackMirror(f: Flip, m: SlotTable, i: SlotInput, j: SlotInput)
    requires MirrorableSlots(m.slots)
    requires match i
             case PositionX(v) => v != MIN && j == PositionX(Neg(f.x, v))
             case PositionY(v) => v != MIN && j == PositionY(Neg(f.y, v))
             case _ => j == i
    ensures MirrorableSlots(Track(m, i).slots)
    ensures Track(m.(slots := MirrorSlots(f, m.slots)), j)
            == Track(m, i).(slots := MirrorSlots(f, Track(m, i).slots))
  {
    var n := m.(slots := MirrorSlots(f, m.slots));
    assert Track(n, j).slots == MirrorSlots(f, Track(m, i).slots);
  }

  // ---- axes ----

  lemma AdvanceMirror(b: bool, a: Axis, stalled: bool, v: I32)
    requires MirrorableAxis(a) && v != MIN
    requires Advance(a, stalled, v).acc != MIN
    ensures Advance(MirrorAxis(b, a), stalled, Neg(b, v)) == MirrorAxis(b, Advance(a, stalled, v))
  {
    if b && !stalled && a.last.Some? {
      var p := a.last.value;
      WrapNested(a.acc, v - p);
      WrapNested(-a.acc, -v + p);
      WrapOdd(a.acc + (v - p));
      assert -(a.acc + (v - p)) == -a.acc + (-v + p);
    }
  }

  lemma UnitsMirror(b: bool, a: Axis, scale: real, accel: real)
    requires MirrorableAxis(a)
    requires 0.0 <= scale <= 0.18 && -5.0 <= accel <= 5.0
    ensures Units(MirrorAxis(b, a), scale, accel) == (if b then -Units(a, scale, accel) else Units(a, scale, accel))
    ensures MirrorableAxis(Consume(a, scale, accel))
    ensures Consume(MirrorAxis(b, a), scale, accel) == MirrorAxis(b, Consume(a, scale, accel))
  {
    CastExact(a, scale, accel);
    if b {
      var m := MirrorAxis(b, a);
      CastExact(m, scale, accel);
      assert m.acc as real == -(a.acc as real);
      NegProduct(a.acc as real, scale, accel);
      assert Total(m, scale, accel) == -Total(a, scale, accel);
      RoundOdd(Total(a, scale, accel));
    }
  }

  lemma NegProduct(n: real, c: real, d: real)
    ensures ((-n) * c) * d == -((n * c) * d)
  {
    assert (-n) * c == -(n * c);
  }

  lemma AxisAfterMirror(b: bool, a: Axis, k: FrameKind, accel: real)
    requires MirrorableAxis(a) && -5.0 <= accel <= 5.0
    ensures MirrorableAxis(AxisAfter(a, k, accel))
    ensures AxisAfter(MirrorAxis(b, a), k, accel) == MirrorAxis(b, AxisAfter(a, k, accel))
  {
    hide Units, Total;
    UnitsMirror(b, a, HW_SCALE, accel);
    UnitsMirror(b, a, SCROLL_SCALE, 1.0);
  }

  // ---- reports ----

  lemma KindMirror(f: Flip, s: Pad, dwt: bool)
    requires Mirrorable(s)
    ensures Kind(MirrorPad(f, s), dwt) == Kind(s, dwt)
    ensures FrameFingers(MirrorPad(f, s)) == FrameFingers(s)
  {
    GeometryMirror(f, s.mt.slots);
  }

  lemma MotionEventsMirror(f: Flip, x: Axis, y: Axis, accel: real, ts: nat)
    requires MirrorableAxis(x) && MirrorableAxis(y) && -5.0 <= accel <= 5.0
    ensures MotionEvents(MirrorAxis(f.x, x), MirrorAxis(f.y, y), accel, ts)
            == MirrorOutputs(f, MotionEvents(x, y, accel, ts))
  {
    hide Units;
    UnitsMirror(f.x, x, HW_SCALE, accel);
    UnitsMirror(f.y, y, HW_SCALE, accel);
  }

  lemma ScrollEventsMirror(f: Flip, axis: nat, units: int, natural: bool, ts: nat)
    requires axis <= 1
    ensures ScrollEvents(axis, if (if axis == 1 then f.x else f.y) then -units else units, natural, ts)
            == MirrorOutputs(f, ScrollEvents(axis, units, natural, ts))
  {}

  lemma ReportEventsMirror(f: Flip, s: Pad, t: Tick)
    requires Mirrorable(s) && Tame(t)
    ensures ReportEvents(MirrorPad(f, s), t) == MirrorOutputs(f, ReportEvents(s, t))
  {
    hide Units, ActiveSlots, MotionEvents, ScrollEvents;
    KindMirror(f, s, t.dwt);
    GeometryMirror(f, s.mt.slots);
    MotionEventsMirror(f, s.x, s.y, t.accel, t.ev.timeUsec);
    if Kind(s, t.dwt).ScrollFrame? {
      var ts := t.ev.timeUsec;
      var ux, uy := Units(s.x, SCROLL_SCALE, 1.0), Units(s.y, SCROLL_SCALE, 1.0);
      UnitsMirror(f.x, s.x, SCROLL_SCALE, 1.0);
      UnitsMirror(f.y, s.y, SCROLL_SCALE, 1.0);
      ScrollEventsMirror(f, 0, uy, t.natural, ts);
      ScrollEventsMirror(f, 1, ux, t.natural, ts);
      MirrorOutputsConcat(f, ScrollEvents(0, uy, t.natural, ts), ScrollEvents(1, ux, t.natural, ts));
    }
  }

  lemma ReportNextMirror(f: Flip, s: Pad, t: Tick)
    requires Mirrorable(s) && Tame(t)
    ensures Mirrorable(ReportNext(s, t))
    ensures ReportNext(MirrorPad(f, s), t) == MirrorPad(f, ReportNext(s, t))
  {
    hide AxisAfter, Kind;
    KindMirror(f, s, t.dwt);
    AxisAfterMirror(f.x, s.x, Kind(s, t.dwt), t.accel);
    AxisAfterMirror(f.y, s.y, Kind(s, t.dwt), t.accel);
  }

  // ---- one event ----

  lemma TouchMirror(f: Flip, s: Pad, t: Tick)
    requires Mirrorable(s)
    ensures Mirrorable(TouchDown(s, t.now)) && Mirrorable(Lift(s))
    ensures TouchDown(MirrorPad(f, s), t.now) == MirrorPad(f, TouchDown(s, t.now))
    ensures Lift(MirrorPad(f, s)) == MirrorPad(f, Lift(s))
    ensures TouchDownEvents(MirrorPad(f, s), t.ev.timeUsec) == MirrorOutputs(f, TouchDownEvents(s, t.ev.timeUsec))
    ensures LiftEvents(MirrorPad(f, s), t) == MirrorOutputs(f, LiftEvents(s, t))
  {
    hide ActiveSlots;
    GeometryMirror(f, s.mt.slots);
  }

  lemma MoveMirror(f: Flip, s: Pad, a: AxisId, v: I32, now: Time)
    requires Mirrorable(s) && v != MIN
    requires MoveAxis(s, a, v, now).At(a).acc != MIN
    ensures Mirrorable(MoveAxis(s, a, v, now))
    ensures MoveAxis(MirrorPad(f, s), a, Neg(f.On(a), v), now) == MirrorPad(f, MoveAxis(s, a, v, now))
  {
    hide Wrap32;
    AdvanceMirror(f.On(a), s.At(a), Stalled(s.lastMove, now), v);
  }

  lemma StepMirror(f: Flip, s: Pad, t: Tick)
    requires Mirrorable(s) && MirrorableEvent(t.ev) && Tame(t)
    requires Next(s, t).x.acc != MIN && Next(s, t).y.acc != MIN
    ensures Mirrorable(Next(s, t))
    ensures Next(MirrorPad(f, s), MirrorTick(f, t)) == MirrorPad(f, Next(s, t))
    ensures Emits(MirrorPad(f, s), MirrorTick(f, t)) == MirrorOutputs(f, Emits(s, t))
  {
    hide TouchDown, Lift, TouchDownEvents, LiftEvents, MoveAxis, ReportNext, ReportEvents, Track;
    var g, u := Guard(s, t.dwt), MirrorTick(f, t);
    assert Guard(MirrorPad(f, s), t.dwt) == MirrorPad(f, g);
    match Decode(t.ev)
    case Touch(_) => TouchMirror(f, g, t);
    case Slot(i) =>
      assert Decode(u.ev).Slot?;
      TrackMirror(f, g.mt, i, Decode(u.ev).field);
    case Move(a, v) =>
      assert Decode(u.ev) == Move(a, Neg(f.On(a), v));
      MoveMirror(f, g, a, v, t.now);
    case Report =>
      ReportNextMirror(f, g, t);
      ReportEventsMirror(f, g, t);
    case _ =>
  }

  // ---- runs ----

  /** The factors are ones the library can have, and no accumulator of the run sits at the
      one value without a negation. */
  ghost predicate MirrorableRun(s: Pad, ts: seq<Tick>) {
    && (forall i :: 0 <= i < |ts| ==> MirrorableEvent(ts[i].ev) && Tame(ts[i]))
    && (forall i :: 0 <= i <= |ts| ==> Final(s, ts[..i]).x.acc != MIN && Final(s, ts[..i]).y.acc != MIN)
  }

  /** Mirror symmetry of whole runs, for either axis or both. */
  lemma {:induction false} RunMirror(f: Flip, s: Pad, ts: seq<Tick>)
    requires Mirrorable(s) && MirrorableRun(s, ts)
    ensures Mirrorable(Final(s, ts))
    ensures Final(MirrorPad(f, s), MirrorRun(f, ts)) == MirrorPad(f, Final(s, ts))
    ensures Outputs(MirrorPad(f, s), MirrorRun(f, ts)) == MirrorOutputs(f, Outputs(s, ts))
  {
    if ts != [] {
      var n := |ts| - 1;
      var before := ts[..n];
      assert forall i :: 0 <= i <= n ==> before[..i] == ts[..i];
      assert ts[..|ts|] == ts;
      RunMirror(f, s, before);
      assert MirrorRun(f, ts)[..n] == MirrorRun(f, before);
      StepMirror(f, Final(s, before), ts[n]);
      MirrorOutputsConcat(f, Outputs(s, before), Emits(Final(s, before), ts[n]));
    }
  }

  /** For a device that has just been opened the two runs start in the same state. */
  lemma FreshRunMirror(f: Flip, ts: seq<Tick>)
    requires MirrorableRun(INITIAL, ts)
    ensures Outputs(INITIAL, MirrorRun(f, ts)) == MirrorOutputs(f, Outputs(INITIAL, ts))
  {
    assert MirrorSlots(f, INITIAL.mt.slots) == INITIAL.mt.slots;
    assert MirrorPad(f, INITIAL) == INITIAL;
    RunMirror(f, INITIAL, ts);
  }

  /** An accumulator fed within range never reaches the value without a negation. */
  lemma InRangeMirrorable(ts: seq<Tick>, n: nat, a: AxisId, lo: I32, hi: I32)
    requires n <= |ts| && InRange(ts, a, false, lo, hi)
    ensures Final(INITIAL, ts[..n]).At(a).acc != MIN
  {
    hide Final, FrameStretches, InRange, Bounds.Stretches, Bounds.RawCounts, Books, Segments, Travel;
    InRangeUpTo(ts, n, a, false, lo, hi);
    PathIndependence.ContactInflow(INITIAL, ts[..n], a, lo, hi);
  }

  /** Mirror symmetry of a fresh device from conditions on its input alone. */
  lemma InRangeMirror(f: Flip, ts: seq<Tick>, left: I32, right: I32, top: I32, bottom: I32)
    requires forall i :: 0 <= i < |ts| ==> MirrorableEvent(ts[i].ev) && Tame(ts[i])
    requires InRange(ts, X, false, left, right) && InRange(ts, Y, false, top, bottom)
    ensures Outputs(INITIAL, MirrorRun(f, ts)) == MirrorOutputs(f, Outputs(INITIAL, ts))
  {
    hide Final, Outputs, InRange;
    forall n | 0 <= n <= |ts|
      ensures Final(INITIAL, ts[..n]).x.acc != MIN && Final(INITIAL, ts[..n]).y.acc != MIN
    {
      InRangeMirrorable(ts, n, X, left, right);
      InRangeMirrorable(ts, n, Y, top, bottom);
    }
    FreshRunMirror(f, ts);
  }
}
