/** Where every raw count of a touchpad run ends up, axis by axis. */
module Ledger {
  import opened Basics
  import opened Events
  import opened Touchpad

  /** The books of one axis over a run: counts taken in, counts by the fate the frame
      or lift gave them, and the real-valued sides of the output equation. */
  datatype Account = Account(
    inflow: int,
    motion: int, scroll: int, swipe: int,
    pinchDropped: int, dwtDropped: int, liftDropped: int,
    weighted: real, remDropped: real)

  const EMPTY: Account := Account(0, 0, 0, 0, 0, 0, 0, 0.0, 0.0)

  /** Pointer units a displacement is worth, before rounding. */
  function Ideal(counts: int, accel: real): real {
    (counts as real * 0.18) * accel
  }

  /** The change a coordinate makes to the accumulator. */
  function Inflow(s: Pad, t: Tick, a: AxisId): int {
    match Decode(t.ev)
    case Move(b, v) =>
      if a == b && !Stalled(s.lastMove, t.now) && s.At(a).last.Some? then
        Wrap32(s.At(a).acc + Wrap32(v - s.At(a).last.value)) - s.At(a).acc
      else 0
    case _ => 0
  }

  function Entry(b: Account, s: Pad, t: Tick, a: AxisId): Account {
    var n := s.At(a).acc;
    match Decode(t.ev)
    case Move(_, _) => b.(inflow := b.inflow + Inflow(s, t, a))
    case Touch(down) => if down then b else b.(liftDropped := b.liftDropped + n)
    case Report =>
      (match Kind(s, t.dwt)
       case PinchFrame => b.(pinchDropped := b.pinchDropped + n)
       case DwtFrame => b.(dwtDropped := b.dwtDropped + n, remDropped := b.remDropped + s.At(a).rem)
       case StillFrame => b
       case MotionFrame => b.(motion := b.motion + n,
                              weighted := b.weighted + Ideal(n, t.accel))
       case ScrollFrame => b.(scroll := b.scroll + n)
       case SwipeFrame => b.(swipe := b.swipe + n))
    case _ => b
  }

  function Books(s: Pad, ts: seq<Tick>, a: AxisId): Account {
    if ts == [] then EMPTY
    else
      var before := ts[..|ts| - 1];
      Entry(Books(s, before, a), Final(s, before), ts[|ts| - 1], a)
  }

  /** Scroll axis numbers of the C interface. */
  function ScrollAxis(a: AxisId): nat {
    if a == X then 1 else 0
  }

  /** Units of pointer motion, and of scroll with the natural-direction sign undone. */
  function UnitsOf(e: LibEvent, a: AxisId, natural: bool): int {
    match e
    case PointerMotion(_, dx, dy, _, _) => if a == X then dx else dy
    case ScrollFinger(_, axis, _, n) =>
      if axis != ScrollAxis(a) then 0 else if natural then -n else n
    case _ => 0
  }

  function SwipeOf(e: LibEvent, a: AxisId): real {
    if e.SwipeUpdate? then (if a == X then e.gesture.dx else e.gesture.dy) else 0.0
  }

  function UnitSum(es: seq<LibEvent>, a: AxisId, natural: bool): int {
    if es == [] then 0 else UnitsOf(es[0], a, natural) + UnitSum(es[1..], a, natural)
  }

  function SwipeSum(es: seq<LibEvent>, a: AxisId): real {
    if es == [] then 0.0 else SwipeOf(es[0], a) + SwipeSum(es[1..], a)
  }

  /** Units emitted over a run; each event is read with the setting it was emitted under. */
  function Emitted(s: Pad, ts: seq<Tick>, a: AxisId): int {
    if ts == [] then 0
    else
      var before, t := ts[..|ts| - 1], ts[|ts| - 1];
      Emitted(s, before, a) + UnitSum(Emits(Final(s, before), t), a, t.natural)
  }

  function Swiped(s: Pad, ts: seq<Tick>, a: AxisId): real {
    if ts == [] then 0.0
    else
      var before, t := ts[..|ts| - 1], ts[|ts| - 1];
      Swiped(s, before, a) + SwipeSum(Emits(Final(s, before), t), a)
  }

  ghost predicate SmallRemainder(a: Axis) {
    -0.5 <= a.rem <= 0.5
  }

  /** The total is within half a unit of the i32 range. */
  predicate FitsI32(total: real) {
    -0x8000_0000 as real - 0.5 <= total <= 0x7FFF_FFFF as real + 0.5
  }

  /** What is left over is at most half a unit exactly when the total fits i32; otherwise
      the cast saturates and the rest piles up. */
  lemma SmallIffFits(a: Axis, scale: real, accel: real)
    ensures SmallRemainder(Consume(a, scale, accel)) <==> FitsI32(Total(a, scale, accel))
  {
    RoundNear(Total(a, scale, accel));
  }

  /** The clamp on the speed keeps a rounded total inside i32, so the cast is exact
      and what is left over is at most half a unit. */
  lemma CastExact(a: Axis, scale: real, accel: real)
    requires SmallRemainder(a)
    requires 0.0 <= scale <= 0.18 && -5.0 <= accel <= 5.0
    ensures Units(a, scale, accel) == Round(Total(a, scale, accel))
    ensures -0x8000_0000 < Units(a, scale, accel) < 0x7FFF_FFFF
    ensures SmallRemainder(Consume(a, scale, accel))
  {
    var p := a.acc as real * scale;
    ScaledBound(a.acc as real, scale, 2147483648.0, 0.18);
    ScaledBound(p, accel, 386547056.64, 5.0);
    RoundNear(Total(a, scale, accel));
  }

  lemma ScaledBound(x: real, c: real, m: real, g: real)
    requires -m <= x <= m && -g <= c <= g
    ensures -m * g <= x * c <= m * g
  {
    assert 0.0 <= (m - x) * (g + c) && 0.0 <= (m + x) * (g - c);
    assert 0.0 <= (m - x) * (g - c) && 0.0 <= (m + x) * (g + c);
    assert (m - x) * (g + c) == m * g + m * c - x * g - x * c;
    assert (m + x) * (g - c) == m * g - m * c + x * g - x * c;
    assert (m - x) * (g - c) == m * g - m * c - x * g + x * c;
    assert (m + x) * (g + c) == m * g + m * c + x * g + x * c;
  }

  function Spent(b: Account): int {
    b.motion + b.scroll + b.swipe + b.pinchDropped + b.dwtDropped + b.liftDropped
  }

  /** A step from `b` to `c` balances: what an axis took in is spent or kept, and the
      units and swipe distance emitted are what was booked for them. */
  ghost predicate Balances(b: Account, c: Account, from: Axis, to: Axis, units: int, swiped: real) {
    && from.acc + c.inflow - b.inflow == Spent(c) - Spent(b) + to.acc
    && units as real + to.rem
       == from.rem + c.weighted - b.weighted + 0.02 * (c.scroll - b.scroll) as real
          - (c.remDropped - b.remDropped)
    && swiped == 0.18 * (c.swipe - b.swipe) as real
  }

  /** What a report emits on an axis, by the kind of its frame. */
  function FrameUnits(s: Pad, t: Tick, a: AxisId): int {
    match Kind(s, t.dwt)
    case MotionFrame => Units(s.At(a), HW_SCALE, t.accel)
    case ScrollFrame => Units(s.At(a), SCROLL_SCALE, 1.0)
    case _ => 0
  }

  lemma {:induction false} UnitSumConcat(es: seq<LibEvent>, fs: seq<LibEvent>, a: AxisId, natural: bool)
    ensures UnitSum(es + fs, a, natural) == UnitSum(es, a, natural) + UnitSum(fs, a, natural)
    ensures SwipeSum(es + fs, a) == SwipeSum(es, a) + SwipeSum(fs, a)
  {
    if es == [] {
      assert es + fs == fs;
    } else {
      assert (es + fs)[1..] == es[1..] + fs;
      UnitSumConcat(es[1..], fs, a, natural);
    }
  }

  lemma ReportUnits(s: Pad, t: Tick, a: AxisId)
    ensures UnitSum(ReportEvents(s, t), a, t.natural) == FrameUnits(s, t, a)
    ensures SwipeSum(ReportEvents(s, t), a)
            == if Kind(s, t.dwt).SwipeFrame? then s.At(a).acc as real * HW_SCALE else 0.0
  {
    if Kind(s, t.dwt).ScrollFrame? {
      var v := ScrollEvents(0, Units(s.y, SCROLL_SCALE, 1.0), t.natural, t.ev.timeUsec);
      var h := ScrollEvents(1, Units(s.x, SCROLL_SCALE, 1.0), t.natural, t.ev.timeUsec);
      UnitSumConcat(v, h, a, t.natural);
    }
  }

  lemma QuietUnits(s: Pad, t: Tick, a: AxisId)
    requires !Decode(t.ev).Report?
    ensures UnitSum(Emits(s, t), a, t.natural) == 0 && SwipeSum(Emits(s, t), a) == 0.0
  {
    var ts := t.ev.timeUsec;
    var g := Guard(s, t.dwt);
    if Decode(t.ev) == Touch(false) {
      UnitSumConcat(EndEvents(g, ts), TapEvents(g.contact, t), a, t.natural);
      UnitSumConcat([PointerButton(ts, BTN_LEFT, 1)], [PointerButton(ts, BTN_LEFT, 0)], a, t.natural);
      assert TapClick(ts) == [PointerButton(ts, BTN_LEFT, 1)] + [PointerButton(ts, BTN_LEFT, 0)];
    }
  }

  lemma ReportBalances(b: Account, s: Pad, t: Tick, a: AxisId)
    requires Decode(t.ev).Report?
    ensures Balances(b, Entry(b, s, t, a), s.At(a), ReportNext(s, t).At(a), FrameUnits(s, t, a),
                     if Kind(s, t.dwt).SwipeFrame? then s.At(a).acc as real * HW_SCALE else 0.0)
  {
    hide Units, FrameFingers;
  }

  lemma MoveBalances(b: Account, s: Pad, t: Tick, a: AxisId)
    requires !Decode(t.ev).Report?
    ensures Balances(b, Entry(b, s, t, a), s.At(a), Next(s, t).At(a), 0, 0.0)
  {
    hide Wrap32;
  }

  /** One event keeps the books of an axis balanced. */
  lemma EntryBalances(b: Account, s: Pad, t: Tick, a: AxisId)
    ensures Balances(b, Entry(b, s, t, a), s.At(a), Next(s, t).At(a),
                     UnitSum(Emits(s, t), a, t.natural), SwipeSum(Emits(s, t), a))
  {
    if Decode(t.ev).Report? {
      var g := Guard(s, t.dwt);
      ReportBalances(b, g, t, a);
      ReportUnits(g, t, a);
      hide Balances, ReportEvents, ReportNext;
      assert Entry(b, s, t, a) == Entry(b, g, t, a);
    } else {
      QuietUnits(s, t, a);
      MoveBalances(b, s, t, a);
    }
  }

  /** Over any run, with any factor: every count taken in was spent exactly once or is
      still pending, and what was emitted plus what is left over is what came in, scaled,
      less the remainders dropped while typing. */
  lemma {:induction false} Conservation(s: Pad, ts: seq<Tick>, a: AxisId)
    ensures Balances(EMPTY, Books(s, ts, a), s.At(a), Final(s, ts).At(a), Emitted(s, ts, a), Swiped(s, ts, a))
  {
    if ts != [] {
      var before, t := ts[..|ts| - 1], ts[|ts| - 1];
      Conservation(s, before, a);
      EntryBalances(Books(s, before, a), Final(s, before), t, a);
    }
  }

  /** With one factor throughout, the weighted counts are the counts times the factor. */
  lemma {:induction false} OneFactor(s: Pad, ts: seq<Tick>, a: AxisId, factor: real)
    requires forall t :: t in ts ==> t.accel == factor
    ensures Books(s, ts, a).weighted == Ideal(Books(s, ts, a).motion, factor)
  {
    hide Final, Kind, Inflow, Ideal;
    NoWeight(factor);
    if ts != [] {
      var before := ts[..|ts| - 1];
      var b, n := Books(s, before, a), Final(s, before).At(a).acc;
      OneFactor(s, before, a, factor);
      IdealAdd(b.motion, n, factor);
    }
  }

  lemma NoWeight(factor: real)
    ensures Ideal(0, factor) == 0.0
  {}

  lemma IdealAdd(m: int, n: int, factor: real)
    ensures Ideal(m + n, factor) == Ideal(m, factor) + Ideal(n, factor)
  {}

  // ---- the half unit ----

  /** A report whose total, if it emits one on this axis, fits i32. */
  predicate Fits(s: Pad, t: Tick, a: AxisId) {
    Decode(t.ev).Report? ==>
      match Kind(s, t.dwt)
      case MotionFrame => FitsI32(Total(s.At(a), HW_SCALE, t.accel))
      case ScrollFrame => FitsI32(Total(s.At(a), SCROLL_SCALE, 1.0))
      case _ => true
  }

  lemma StepSmall(s: Pad, t: Tick, a: AxisId)
    requires SmallRemainder(s.At(a))
    ensures SmallRemainder(Next(s, t).At(a)) <==> Fits(s, t, a)
    ensures Tame(t) ==> Fits(s, t, a)
  {
    hide Wrap32, Total, Consume, Units, FitsI32, ActiveSlots;
    SmallIffFits(s.At(a), HW_SCALE, t.accel);
    SmallIffFits(s.At(a), SCROLL_SCALE, 1.0);
    if Tame(t) { CastExact(s.At(a), HW_SCALE, t.accel); }
    CastExact(s.At(a), SCROLL_SCALE, 1.0);
  }

  ghost predicate AllSmall(s: Pad, ts: seq<Tick>, a: AxisId) {
    forall i :: 0 <= i <= |ts| ==> SmallRemainder(Final(s, ts[..i]).At(a))
  }

  ghost predicate AllFit(s: Pad, ts: seq<Tick>, a: AxisId) {
    forall i :: 0 <= i < |ts| ==> Fits(Final(s, ts[..i]), ts[i], a)
  }

  ghost predicate AllTame(ts: seq<Tick>) {
    forall i :: 0 <= i < |ts| ==> Tame(ts[i])
  }

  lemma LastOfAll(s: Pad, ts: seq<Tick>, a: AxisId)
    requires ts != []
    ensures var before, t := ts[..|ts| - 1], ts[|ts| - 1];
            && (AllSmall(s, ts, a) <==> (AllSmall(s, before, a) && SmallRemainder(Final(s, ts).At(a))))
            && (AllFit(s, ts, a) <==> (AllFit(s, before, a) && Fits(Final(s, before), t, a)))
            && (AllTame(ts) <==> (AllTame(before) && Tame(t)))
            && (AllSmall(s, before, a) ==> SmallRemainder(Final(s, before).At(a)))
  {
    hide Final, Fits, SmallRemainder, Tame;
    var n := |ts| - 1;
    assert forall i :: 0 <= i <= n ==> ts[..n][..i] == ts[..i];
    assert forall i :: 0 <= i < n ==> ts[..n][i] == ts[i];
    assert ts[..|ts|] == ts && ts[..n][..n] == ts[..n];
  }

  /** The remainder stays within half a unit over a run exactly when every total fits i32,
      as it always does with the factors the library can have. */
  lemma {:induction false} RemaindersSmall(s: Pad, ts: seq<Tick>, a: AxisId)
    requires SmallRemainder(s.At(a))
    ensures AllSmall(s, ts, a) <==> AllFit(s, ts, a)
    ensures AllTame(ts) ==> AllSmall(s, ts, a) && SmallRemainder(Final(s, ts).At(a))
  {
    hide Next, Fits, Tame, AllSmall, AllFit, AllTame, SmallRemainder;
    if ts == [] {
      NothingLeft(s, a);
    } else {
      var before, t := ts[..|ts| - 1], ts[|ts| - 1];
      RemaindersSmall(s, before, a);
      LastOfAll(s, ts, a);
      if AllSmall(s, before, a) { StepSmall(Final(s, before), t, a); }
    }
  }

  lemma NothingLeft(s: Pad, a: AxisId)
    requires SmallRemainder(s.At(a))
    ensures AllSmall(s, [], a) && AllFit(s, [], a) && SmallRemainder(Final(s, []).At(a))
  {}

  /** No counts are carried past a report. */
  lemma ReportClears(s: Pad, t: Tick)
    requires Decode(t.ev).Report?
    ensures !Next(s, t).Moved()
  {}
}
