/** How large an accumulator can grow, and when i32 arithmetic is exact. */
module Bounds {
  import opened Basics
  import opened Touchpad
  import opened Ledger

  /** The coordinate the current stretch of an axis started from, and the number of
      stretches this frame has been fed from. A new stretch starts where a coordinate
      arrives without an anchor. */
  datatype Stretch = Stretch(first: int, count: nat)

  function Begin(a: Axis): Stretch {
    if a.last.Some? then Stretch(a.last.value, 1) else Stretch(0, 0)
  }

  function Extend(f: Stretch, s: Pad, t: Tick, a: AxisId): Stretch {
    match Decode(t.ev)
    case Move(b, v) =>
      if a == b && (Stalled(s.lastMove, t.now) || s.At(a).last.None?) then Stretch(v, f.count + 1) else f
    case Touch(down) => if down then f else Stretch(0, 0)
    case Report => Begin(s.At(a))
    case _ => f
  }

  function Stretches(s: Pad, ts: seq<Tick>, a: AxisId): Stretch {
    if ts == [] then Begin(s.At(a))
    else
      var before := ts[..|ts| - 1];
      Extend(Stretches(s, before, a), Final(s, before), ts[|ts| - 1], a)
  }

  /** The true sum of coordinate differences taken in, with no wrap-around. */
  function RawCounts(s: Pad, ts: seq<Tick>, a: AxisId): int {
    if ts == [] then 0
    else
      var before := ts[..|ts| - 1];
      RawCounts(s, before, a) + Difference(Final(s, before), ts[|ts| - 1], a)
  }

  function Difference(s: Pad, t: Tick, a: AxisId): int {
    match Decode(t.ev)
    case Move(b, v) =>
      if a == b && !Stalled(s.lastMove, t.now) && s.At(a).last.Some? then v - s.At(a).last.value else 0
    case _ => 0
  }

  predicate Coordinate(t: Tick, a: AxisId, lo: I32, hi: I32) {
    Decode(t.ev).Move? && Decode(t.ev).axis == a ==> lo <= Decode(t.ev).value <= hi
  }

  predicate Near(n: int, room: int) {
    -room <= n <= room
  }

  /** `room` is the number of stretches times the span of the coordinates. */
  ghost predicate WithinRoom(x: Axis, first: int, room: int, lo: I32, hi: I32) {
    && Near(x.acc, room)
    && (x.last.Some? ==>
          && lo <= x.last.value <= hi && lo <= first <= hi
          && Near(x.acc - (x.last.value - first), room - (hi - lo)))
  }

  ghost predicate Within(x: Axis, f: Stretch, lo: I32, hi: I32) {
    WithinRoom(x, f.first, f.count * (hi - lo), lo, hi)
  }

  lemma MoveWithin(x: Axis, first: int, room: int, stalled: bool, v: I32, lo: I32, hi: I32)
    requires lo <= v <= hi && WithinRoom(x, first, room, lo, hi) && room <= 0x7FFF_FFFF
    requires stalled || x.last.None? ==> room + (hi - lo) <= 0x7FFF_FFFF
    ensures if stalled || x.last.None?
            then WithinRoom(Advance(x, stalled, v), v, room + (hi - lo), lo, hi)
            else WithinRoom(Advance(x, stalled, v), first, room, lo, hi)
                 && Advance(x, stalled, v).acc == x.acc + (v - x.last.value)
  {
    if !stalled && x.last.Some? {
      WrapNested(x.acc, v - x.last.value);
      WrapInRange(x.acc + (v - x.last.value));
    }
  }

  /** Whether the counts of a frame fed from so many stretches are sure to fit i32. */
  predicate Roomy(f: Stretch, lo: I32, hi: I32) {
    f.count * (hi - lo) <= 0x7FFF_FFFF
  }

  /** The accumulator is within the stretches that fed the frame; while those fit i32 it is
      also what their coordinates say. */
  ghost predicate Bounded(x: Axis, f: Stretch, lo: I32, hi: I32) {
    && (x.last.Some? ==> lo <= x.last.value <= hi)
    && Near(x.acc, f.count * (hi - lo))
    && (Roomy(f, lo, hi) ==> Within(x, f, lo, hi))
  }

  lemma MoveBounded(x: Axis, f: Stretch, stalled: bool, v: I32, lo: I32, hi: I32)
    requires lo <= v <= hi && Bounded(x, f, lo, hi)
    ensures var g := if stalled || x.last.None? then Stretch(v, f.count + 1) else f;
            && Bounded(Advance(x, stalled, v), g, lo, hi)
            && (Roomy(g, lo, hi) ==>
                  Advance(x, stalled, v).acc == x.acc + if stalled || x.last.None? then 0 else v - x.last.value)
  {
    hide Wrap32, Advance, WithinRoom;
    var d, y := hi - lo, Advance(x, stalled, v);
    var g := if stalled || x.last.None? then Stretch(v, f.count + 1) else f;
    assert (f.count + 1) * d == f.count * d + d && f.count * d >= 0;
    AdvanceLast(x, stalled, v);
    if Roomy(g, lo, hi) {
      MoveWithin(x, f.first, f.count * d, stalled, v, lo, hi);
      WithinIsNear(y, g.first, g.count * d, lo, hi);
    }
  }

  lemma AdvanceLast(x: Axis, stalled: bool, v: I32)
    ensures Advance(x, stalled, v).last == Some(v)
    ensures stalled || x.last.None? ==> Advance(x, stalled, v).acc == x.acc
  {
    hide Wrap32;
  }

  lemma WithinIsNear(x: Axis, first: int, room: int, lo: I32, hi: I32)
    requires WithinRoom(x, first, room, lo, hi)
    ensures Near(x.acc, room)
  {}

  /** What one event does to an axis. */
  lemma NextAxis(s: Pad, t: Tick, a: AxisId)
    ensures var x, y := s.At(a), Next(s, t).At(a);
            match Decode(t.ev)
            case Move(b, v) => y == (if a == b then Advance(x, Stalled(s.lastMove, t.now), v) else x)
            case Touch(down) => (y.last == None && y.acc == if down then x.acc else 0)
            case Report => (y.last == x.last && y.acc == 0)
            case _ => y == x
  {
    hide Wrap32, Units, ActiveSlots;
  }

  lemma {:induction false} InflowIs(s: Pad, t: Tick, a: AxisId)
    ensures Inflow(s, t, a) == (if Decode(t.ev).Move? && Decode(t.ev).axis == a
                                then Next(s, t).At(a).acc - s.At(a).acc else 0)
  {
    hide Wrap32, Kind, Units;
  }

  lemma StepBounded(f: Stretch, s: Pad, t: Tick, a: AxisId, lo: I32, hi: I32)
    requires lo <= hi && Coordinate(t, a, lo, hi) && Bounded(s.At(a), f, lo, hi)
    ensures Bounded(Next(s, t).At(a), Extend(f, s, t, a), lo, hi)
    ensures Roomy(Extend(f, s, t, a), lo, hi) ==> Inflow(s, t, a) == Difference(s, t, a)
  {
    hide Next, Advance, Inflow, Stalled;
    NextAxis(s, t, a);
    InflowIs(s, t, a);
    match Decode(t.ev)
    case Move(b, v) =>
      if a == b {
        hide Bounded;
        MoveBounded(s.At(a), f, Stalled(s.lastMove, t.now), v, lo, hi);
      }
    case Touch(_) => DropBounded(s.At(a), Next(s, t).At(a), f, lo, hi);
    case Report => FrameBounded(s.At(a), Next(s, t).At(a), lo, hi);
    case _ =>
  }

  lemma DropBounded(x: Axis, y: Axis, f: Stretch, lo: I32, hi: I32)
    requires Bounded(x, f, lo, hi) && y.last == None
    ensures y.acc == x.acc ==> Bounded(y, f, lo, hi)
    ensures y.acc == 0 ==> Bounded(y, Stretch(0, 0), lo, hi)
  {
    assert 0 * (hi - lo) == 0;
  }

  lemma FrameBounded(x: Axis, y: Axis, lo: I32, hi: I32)
    requires lo <= hi && (x.last.Some? ==> lo <= x.last.value <= hi) && y.last == x.last && y.acc == 0
    ensures Bounded(y, Begin(x), lo, hi)
  {
    assert 0 * (hi - lo) == 0 && 1 * (hi - lo) == hi - lo;
  }

  /** While coordinates stay in [lo, hi], after every event the accumulator is within the
      span times the number of stretches that fed this frame, whatever happened in earlier
      frames. If no frame is fed from too many, i32 arithmetic never wraps and the counts
      the books take in are the true coordinate differences. */
  lemma {:induction false} AccumulatorBound(s: Pad, ts: seq<Tick>, a: AxisId, lo: I32, hi: I32)
    requires lo <= hi && s.At(a).acc == 0
    requires s.At(a).last.Some? ==> lo <= s.At(a).last.value <= hi
    requires forall i :: 0 <= i < |ts| ==> Coordinate(ts[i], a, lo, hi)
    ensures Bounded(Final(s, ts).At(a), Stretches(s, ts, a), lo, hi)
    ensures Near(Final(s, ts).At(a).acc, Stretches(s, ts, a).count * (hi - lo))
    ensures (forall i :: 0 <= i <= |ts| ==> Roomy(Stretches(s, ts[..i], a), lo, hi)) ==>
              Books(s, ts, a).inflow == RawCounts(s, ts, a)
  {
    hide Next, Extend, Entry, Bounded, Inflow, Difference, Roomy;
    if ts == [] {
      FrameBounded(s.At(a), s.At(a), lo, hi);
    } else {
      var n := |ts| - 1;
      var before := ts[..n];
      assert forall i :: 0 <= i <= n ==> before[..i] == ts[..i];
      assert ts[..|ts|] == ts;
      AccumulatorBound(s, before, a, lo, hi);
      StepBounded(Stretches(s, before, a), Final(s, before), ts[n], a, lo, hi);
      InflowBooked(Books(s, before, a), Final(s, before), ts[n], a);
    }
    BoundedIsNear(Final(s, ts).At(a), Stretches(s, ts, a), lo, hi);
  }

  lemma BoundedIsNear(x: Axis, f: Stretch, lo: I32, hi: I32)
    requires Bounded(x, f, lo, hi)
    ensures Near(x.acc, f.count * (hi - lo))
  {}

  lemma InflowBooked(b: Account, s: Pad, t: Tick, a: AxisId)
    ensures Entry(b, s, t, a).inflow == b.inflow + Inflow(s, t, a)
  {
    hide Wrap32, Kind;
  }
}
