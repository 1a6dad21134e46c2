/** The daemon moves the pointer by the travel over stall-free stretches that both axes
    share. */
module DaemonPaths {
  import opened Basics
  import opened Events
  import opened Touchpad
  import opened Ledger
  import opened Bounds
  import opened Paths
  import opened Daemon

  function RelOf(u: UEvent, a: AxisId): int {
    if u.eventType == RELATIVE && u.code == (if a == X then REL_X else REL_Y) then u.value else 0
  }

  function RelSum(us: seq<UEvent>, a: AxisId): int {
    if us == [] then 0 else RelOf(us[0], a) + RelSum(us[1..], a)
  }

  /** Pointer units written on an axis over a run. */
  function Written(d: Wrapper, ts: seq<Tick>, a: AxisId): int {
    if ts == [] then 0
    else Written(d, ts[..|ts| - 1], a) + RelSum(Writes(Ends(d, ts[..|ts| - 1]), ts[|ts| - 1]), a)
  }

  /** Counts thrown away when the finger lifts in the middle of a frame. */
  function LiftLost(d: Wrapper, ts: seq<Tick>, a: AxisId): int {
    if ts == [] then 0
    else
      LiftLost(d, ts[..|ts| - 1], a)
      + if Decode(ts[|ts| - 1].ev) == Touch(false) then Ends(d, ts[..|ts| - 1]).At(a).acc else 0
  }

  /** One finger at most, and nobody types. */
  ghost predicate PlainRun(ts: seq<Tick>, accel: real) {
    forall i :: 0 <= i < |ts| ==> !ts[i].dwt && ts[i].accel == accel && !Sees(ts[i].ev).Tool?
  }

  // ---- one event ----

  lemma {:induction false} RelSumConcat(us: seq<UEvent>, vs: seq<UEvent>, a: AxisId)
    ensures RelSum(us + vs, a) == RelSum(us, a) + RelSum(vs, a)
  {
    if us == [] {
      assert us + vs == vs;
    } else {
      assert (us + vs)[1..] == us[1..] + vs;
      RelSumConcat(us[1..], vs, a);
    }
  }

  lemma RelValue(code: nat, n: int, a: AxisId)
    requires code == REL_X || code == REL_Y
    ensures RelSum(Rel(code, n), a) == if (code == REL_X) == (a == X) then n else 0
  {}

  lemma {:induction false} NoRel(us: seq<UEvent>, a: AxisId)
    requires forall u :: u in us ==> u.eventType != RELATIVE
    ensures RelSum(us, a) == 0
  {
    if us != [] { NoRel(us[1..], a); }
  }

  lemma ReportUnits(d: Wrapper, t: Tick, a: AxisId)
    requires !t.dwt && d.contact.fingers <= 1 && Decode(t.ev).Report?
    ensures RelSum(ReportWrites(d, t), a) == if d.Moved() then Units(d.At(a), HW_SCALE, t.accel) else 0
  {
    hide Units, Rel, RelSum;
    var ux, uy := Units(d.x, HW_SCALE, t.accel), Units(d.y, HW_SCALE, t.accel);
    RelValue(REL_X, ux, a);
    RelValue(REL_Y, uy, a);
    RelSumConcat(Rel(REL_X, ux), Rel(REL_Y, uy), a);
    NoRel([], a);
    NoRel([Forward(t.ev)], a);
    RelSumConcat(FrameWrites(d, t), [Forward(t.ev)], a);
  }

  /** What an event writes on an axis: its units, if it is a report that finds movement. */
  lemma WrittenUnits(d: Wrapper, t: Tick, a: AxisId)
    requires !t.dwt && d.contact.fingers <= 1
    ensures RelSum(Writes(d, t), a)
            == if Decode(t.ev).Report? && d.Moved() then Units(d.At(a), HW_SCALE, t.accel) else 0
  {
    hide Units, ReportWrites, RelSum;
    if Decode(t.ev).Report? {
      ReportUnits(d, t, a);
    } else {
      NoRel(Writes(d, t), a);
    }
  }

  lemma AfterAxis(d: Wrapper, t: Tick, a: AxisId)
    requires !t.dwt && d.contact.fingers <= 1 && !Sees(t.ev).Tool?
    ensures var x, y := d.At(a), After(d, t).At(a);
            var stalled := Stalled(d.lastMove, t.now);
            && After(d, t).contact.fingers <= 1
            && After(d, t).lastMove == (if Decode(t.ev).Move? then Some(t.now) else d.lastMove)
            && match Decode(t.ev)
               case Move(b, v) =>
                 if a == b then y == Advance(x, stalled, v)
                 else y == if stalled then x.(last := None) else x
               case Touch(down) => y == if down then x.(last := None) else Axis(None, 0, x.rem)
               case Report => y == if d.Moved() then Consume(x, HW_SCALE, t.accel) else x
               case _ => y == x
  {
    hide Wrap32, Units;
  }

  // ---- invariant of a run ----

  /** The state of an axis against the history: anchor, pending counts and books. */
  ghost predicate Accounts(x: Axis, moved: bool, tip: Option<I32>, first: int, room: int, lo: I32, hi: I32,
                           start: real, written: int, counts: int, accel: real)
  {
    && x.last == tip
    && (x.acc != 0 ==> moved)
    && WithinRoom(x, first, room, lo, hi)
    && written as real + x.rem == start + Ideal(counts - x.acc, accel)
  }

  /** What the history says about an axis. */
  datatype History = History(lastMove: Option<Time>, tip: Option<I32>, stretches: nat, counts: int, written: int)

  function HistoryOf(d0: Wrapper, ts: seq<Tick>, a: AxisId): History {
    var segs := Segments(ts, a, true);
    History(if LastMoveAt(ts).Some? then LastMoveAt(ts) else d0.lastMove,
            if Held(ts, a, true) then Some(Tip(segs[|segs| - 1])) else None,
            FrameStretches(ts, a, true), Travel(segs) - LiftLost(d0, ts, a), Written(d0, ts, a))
  }

  /** How one event changes it; `units` is what the event writes, `lost` the counts it drops. */
  function HistoryNext(h: History, t: Tick, a: AxisId, units: int, lost: int): History {
    var g := h.(written := h.written + units);
    match Decode(t.ev)
    case Move(b, v) =>
      var stalled := Stalled(h.lastMove, t.now);
      if a != b then g.(lastMove := Some(t.now), tip := if stalled then None else h.tip)
      else if stalled || h.tip.None? then
        g.(lastMove := Some(t.now), tip := Some(v), stretches := h.stretches + 1)
      else g.(lastMove := Some(t.now), tip := Some(v), counts := h.counts + v - h.tip.value)
    case Touch(down) => if down then g.(tip := None) else g.(tip := None, stretches := 0, counts := h.counts - lost)
    case Report => g.(stretches := if h.tip.Some? then 1 else 0)
    case _ => g
  }

  lemma {:induction false} HeldMoved(ts: seq<Tick>, a: AxisId)
    ensures Held(ts, a, true) ==> LastMoveAt(ts).Some? && |Segments(ts, a, true)| >= 1
  {
    if ts != [] { HeldMoved(ts[..|ts| - 1], a); }
  }

  lemma HistoryStep(d0: Wrapper, ts: seq<Tick>, a: AxisId)
    requires ts != []
    ensures var before, t := ts[..|ts| - 1], ts[|ts| - 1];
            var d := Ends(d0, before);
            HistoryOf(d0, ts, a)
            == HistoryNext(HistoryOf(d0, before, a), t, a, RelSum(Writes(d, t), a), d.At(a).acc)
    ensures Ends(d0, ts) == After(Ends(d0, ts[..|ts| - 1]), ts[|ts| - 1])
  {
    var before, t := ts[..|ts| - 1], ts[|ts| - 1];
    hide Ends, After, Written, LiftLost, Segments, Held, LastMoveAt, Travel, AddCoordinate, Writes, RelSum, Decode,
      FrameStretches;
    LastEvent(d0, ts, a);
    HeldMoved(before, a);
    var d, h := Ends(d0, before), HistoryOf(d0, before, a);
    assert h.tip.Some? ==> Gap(before, t.now) == Stalled(h.lastMove, t.now);
    if Decode(t.ev).Move? && Decode(t.ev).axis == a {
      TravelAdd(Segments(before, a, true), Held(before, a, true) && !Gap(before, t.now), Decode(t.ev).value);
    }
    HistoryLinks(d0, ts, a, d, h, RelSum(Writes(d, t), a));
  }

  lemma HistoryLinks(d0: Wrapper, ts: seq<Tick>, a: AxisId, d: Wrapper, h: History, units: int)
    requires ts != []
    requires var before := ts[..|ts| - 1];
             && d == Ends(d0, before) && h == HistoryOf(d0, before, a)
             && (h.tip.Some? ==> Gap(before, ts[|ts| - 1].now) == Stalled(h.lastMove, ts[|ts| - 1].now))
             && Written(d0, ts, a) == h.written + units
             && LiftLost(d0, ts, a) == LiftLost(d0, before, a)
                                       + if Decode(ts[|ts| - 1].ev) == Touch(false) then d.At(a).acc else 0
    requires var before, t := ts[..|ts| - 1], ts[|ts| - 1];
             var segs, joins := Segments(before, a, true), Held(before, a, true) && !Gap(before, t.now);
             Decode(t.ev).Move? && Decode(t.ev).axis == a ==>
               var r := AddCoordinate(segs, joins, Decode(t.ev).value);
               Tip(r[|r| - 1]) == Decode(t.ev).value
               && Travel(r) == Travel(segs) + if joins then Decode(t.ev).value - Tip(segs[|segs| - 1]) else 0
    ensures HistoryOf(d0, ts, a) == HistoryNext(h, ts[|ts| - 1], a, units, d.At(a).acc)
  {
    Unfold(ts, a, true);
    UnfoldFrame(ts, a, true);
    hide Ends, Written, LiftLost, Segments, Held, LastMoveAt, Travel, Stalled, Gap, Decode, FrameStretches;
  }

  ghost predicate Invariant(d: Wrapper, h: History, a: AxisId, first: int, accel: real, lo: I32, hi: I32,
                            start: real)
  {
    && d.contact.fingers <= 1
    && d.lastMove == h.lastMove
    && (h.tip.Some? ==> h.stretches >= 1)
    && Accounts(d.At(a), d.Moved(), h.tip, first, h.stretches * (hi - lo), lo, hi, start, h.written, h.counts, accel)
  }

  /** The frame's first coordinate after an event: a new stretch or report restarts it. */
  function FirstAfter(first: int, h: History, t: Tick, a: AxisId): int {
    match Decode(t.ev)
    case Move(b, v) => if a == b && (Stalled(h.lastMove, t.now) || h.tip.None?) then v else first
    case Report => if h.tip.Some? then h.tip.value else first
    case _ => first
  }

  lemma MoveAccounts(x: Axis, moved: bool, first: int, room: int, lo: I32, hi: I32, start: real, written: int,
                     counts: int, accel: real, stalled: bool, v: I32)
    requires Accounts(x, moved, x.last, first, room, lo, hi, start, written, counts, accel)
    requires lo <= v <= hi && 0 <= room
    requires (if stalled || x.last.None? then room + (hi - lo) else room) <= 0x7FFF_FFFF
    ensures var y := Advance(x, stalled, v);
            if stalled || x.last.None?
            then Accounts(y, y.acc != 0, Some(v), v, room + (hi - lo), lo, hi, start, written, counts, accel)
            else Accounts(y, y.acc != 0, Some(v), first, room, lo, hi, start, written,
                          counts + v - x.last.value, accel)
  {
    hide Ideal;
    MoveWithin(x, first, room, stalled, v, lo, hi);
    if !(stalled || x.last.None?) {
      assert counts + v - x.last.value - Advance(x, stalled, v).acc == counts - x.acc;
    }
  }

  lemma ReportAccounts(x: Axis, first: int, room: int, lo: I32, hi: I32, start: real, written: int,
                       counts: int, accel: real)
    requires Accounts(x, true, x.last, first, room, lo, hi, start, written, counts, accel) && lo <= hi
    ensures Accounts(Consume(x, HW_SCALE, accel), false, x.last, if x.last.Some? then x.last.value else first,
                     if x.last.Some? then hi - lo else 0, lo, hi, start,
                     written + Units(x, HW_SCALE, accel), counts, accel)
  {
    IdealAdd(counts - x.acc, x.acc, accel);
  }

  /** Losing the anchor keeps the books. */
  lemma DropAccounts(x: Axis, moved: bool, first: int, room: int, lo: I32, hi: I32, start: real, written: int,
                     counts: int, accel: real)
    requires Accounts(x, moved, x.last, first, room, lo, hi, start, written, counts, accel)
    ensures Accounts(x.(last := None), moved, None, first, room, lo, hi, start, written, counts, accel)
    ensures Accounts(Axis(None, 0, x.rem), false, None, first, 0, lo, hi, start, written, counts - x.acc, accel)
  {
    hide Ideal;
    assert counts - x.acc - 0 == counts - x.acc;
  }

  lemma StillAccounts(x: Axis, first: int, room: int, lo: I32, hi: I32, start: real, written: int,
                      counts: int, accel: real)
    requires Accounts(x, false, x.last, first, room, lo, hi, start, written, counts, accel)
    requires lo <= hi
    ensures Accounts(x, false, x.last, if x.last.Some? then x.last.value else first,
                     if x.last.Some? then hi - lo else 0, lo, hi, start, written, counts, accel)
  {}

  /** The books of a run split off its last event. */
  lemma LastEvent(d0: Wrapper, ts: seq<Tick>, a: AxisId)
    requires ts != []
    ensures var before, t := ts[..|ts| - 1], ts[|ts| - 1];
            && Ends(d0, ts) == After(Ends(d0, before), t)
            && Written(d0, ts, a) == Written(d0, before, a) + RelSum(Writes(Ends(d0, before), t), a)
            && LiftLost(d0, ts, a) == LiftLost(d0, before, a)
                                      + if Decode(t.ev) == Touch(false) then Ends(d0, before).At(a).acc else 0
  {}

  lemma MoveInvariant(d: Wrapper, h: History, t: Tick, a: AxisId, first: int, accel: real, lo: I32, hi: I32,
                      start: real)
    requires !t.dwt && Coordinate(t, a, lo, hi) && lo <= hi && Decode(t.ev).Move?
    requires Invariant(d, h, a, first, accel, lo, hi, start)
    requires HistoryNext(h, t, a, 0, 0).stretches * (hi - lo) <= 0x7FFF_FFFF
    ensures Invariant(After(d, t), HistoryNext(h, t, a, 0, 0), a, FirstAfter(first, h, t, a), accel, lo, hi, start)
  {
    var x, stalled, room := d.At(a), Stalled(d.lastMove, t.now), h.stretches * (hi - lo);
    AfterAxis(d, t, a);
    RoomForMore(h.stretches, hi - lo);
    hide After, Advance, WithinRoom, Ideal, Stalled, Decode;
    if Decode(t.ev).axis == a {
      MoveAccounts(x, d.Moved(), first, room, lo, hi, start, h.written, h.counts, accel, stalled, Decode(t.ev).value);
    } else {
      DropAccounts(x, d.Moved(), first, room, lo, hi, start, h.written, h.counts, accel);
    }
  }

  lemma OtherInvariant(d: Wrapper, h: History, t: Tick, a: AxisId, first: int, accel: real, lo: I32, hi: I32,
                       start: real, units: int)
    requires !t.dwt && t.accel == accel && lo <= hi && !Decode(t.ev).Move? && !Sees(t.ev).Tool?
    requires Invariant(d, h, a, first, accel, lo, hi, start)
    requires units == if Decode(t.ev).Report? && d.Moved() then Units(d.At(a), HW_SCALE, accel) else 0
    ensures Invariant(After(d, t), HistoryNext(h, t, a, units, d.At(a).acc), a, FirstAfter(first, h, t, a),
                      accel, lo, hi, start)
  {
    var x, room := d.At(a), h.stretches * (hi - lo);
    AfterAxis(d, t, a);
    assert 0 * (hi - lo) == 0 && 1 * (hi - lo) == hi - lo;
    hide After, Consume, WithinRoom, Ideal;
    match Decode(t.ev)
    case Touch(_) => DropAccounts(x, d.Moved(), first, room, lo, hi, start, h.written, h.counts, accel);
    case Report =>
      if d.Moved() {
        ReportAccounts(x, first, room, lo, hi, start, h.written, h.counts, accel);
      } else {
        StillAccounts(x, first, room, lo, hi, start, h.written, h.counts, accel);
      }
    case _ =>
  }

  lemma RoomForMore(n: nat, d: nat)
    ensures n * d >= 0 && (n + 1) * d == n * d + d
  {}

  lemma {:induction false} RunInvariant(d0: Wrapper, ts: seq<Tick>, a: AxisId, accel: real, lo: I32, hi: I32)
    returns (first: int)
    requires PlainRun(ts, accel) && InRange(ts, a, true, lo, hi)
    requires d0.contact.fingers <= 1
    requires d0.At(a).last == None && d0.At(a).acc == 0
    ensures Invariant(Ends(d0, ts), HistoryOf(d0, ts, a), a, first, accel, lo, hi, d0.At(a).rem)
  {
    if ts == [] {
      first := 0;
    } else {
      var n := |ts| - 1;
      InRangeUpTo(ts, n, a, true, lo, hi);
      InRangeUpTo(ts, |ts|, a, true, lo, hi);
      assert ts[..|ts|] == ts;
      var f := RunInvariant(d0, ts[..n], a, accel, lo, hi);
      var d, h, t := Ends(d0, ts[..n]), HistoryOf(d0, ts[..n], a), ts[n];
      HistoryStep(d0, ts, a);
      WrittenUnits(d, t, a);
      first := FirstAfter(f, h, t, a);
      assert HistoryOf(d0, ts, a).stretches == FrameStretches(ts, a, true);
      assert Coordinate(t, a, lo, hi);
      hide Ends, After, HistoryOf, Invariant, Segments, PlainRun, InRange, FrameStretches;
      if Decode(t.ev).Move? {
        assert HistoryNext(h, t, a, 0, d.At(a).acc) == HistoryNext(h, t, a, 0, 0);
        MoveInvariant(d, h, t, a, f, accel, lo, hi, d0.At(a).rem);
      } else {
        OtherInvariant(d, h, t, a, f, accel, lo, hi, d0.At(a).rem, RelSum(Writes(d, t), a));
      }
    }
  }

  // ---- the half unit ----

  /** A report whose total, if it makes one of this axis, fits i32. */
  predicate Fits(d: Wrapper, t: Tick, a: AxisId) {
    Decode(t.ev).Report? && !t.dwt && d.Moved() ==>
      if d.contact.fingers <= 1 then FitsI32(Total(d.At(a), HW_SCALE, t.accel))
      else if d.contact.fingers == 2 && a == Y then FitsI32(Total(d.At(a), SCROLL_SCALE, 1.0))
      else true
  }

  lemma StepSmall(d: Wrapper, t: Tick, a: AxisId)
    requires SmallRemainder(d.At(a))
    ensures SmallRemainder(After(d, t).At(a)) <==> Fits(d, t, a)
    ensures Tame(t) ==> Fits(d, t, a)
  {
    hide Wrap32, Total, Consume, Units, FitsI32;
    SmallIffFits(d.At(a), HW_SCALE, t.accel);
    SmallIffFits(d.At(a), SCROLL_SCALE, 1.0);
    if Tame(t) { CastExact(d.At(a), HW_SCALE, t.accel); }
    CastExact(d.At(a), SCROLL_SCALE, 1.0);
  }

  ghost predicate AllSmall(d: Wrapper, ts: seq<Tick>, a: AxisId) {
    forall i :: 0 <= i <= |ts| ==> SmallRemainder(Ends(d, ts[..i]).At(a))
  }

  ghost predicate AllFit(d: Wrapper, ts: seq<Tick>, a: AxisId) {
    forall i :: 0 <= i < |ts| ==> Fits(Ends(d, ts[..i]), ts[i], a)
  }

  lemma LastOfAll(d: Wrapper, ts: seq<Tick>, a: AxisId)
    requires ts != []
    ensures var before, t := ts[..|ts| - 1], ts[|ts| - 1];
            && (AllSmall(d, ts, a) <==> (AllSmall(d, before, a) && SmallRemainder(Ends(d, ts).At(a))))
            && (AllFit(d, ts, a) <==> (AllFit(d, before, a) && Fits(Ends(d, before), t, a)))
            && (AllTame(ts) <==> (AllTame(before) && Tame(t)))
            && (AllSmall(d, before, a) ==> SmallRemainder(Ends(d, before).At(a)))
  {
    hide Ends, Fits, SmallRemainder, Tame;
    var n := |ts| - 1;
    assert forall i :: 0 <= i <= n ==> ts[..n][..i] == ts[..i];
    assert forall i :: 0 <= i < n ==> ts[..n][i] == ts[i];
    assert ts[..|ts|] == ts && ts[..n][..n] == ts[..n];
  }

  /** Whatever factor is configured: the remainder stays within half a unit over a run
      exactly when every total fits i32. */
  lemma {:induction false} RemaindersSmall(d: Wrapper, ts: seq<Tick>, a: AxisId)
    requires SmallRemainder(d.At(a))
    ensures AllSmall(d, ts, a) <==> AllFit(d, ts, a)
    ensures AllTame(ts) ==> AllSmall(d, ts, a) && SmallRemainder(Ends(d, ts).At(a))
  {
    hide After, Fits, Tame, AllSmall, AllFit, AllTame, SmallRemainder;
    if ts == [] {
      NothingLeft(d, a);
    } else {
      var before, t := ts[..|ts| - 1], ts[|ts| - 1];
      RemaindersSmall(d, before, a);
      LastOfAll(d, ts, a);
      if AllSmall(d, before, a) { StepSmall(Ends(d, before), t, a); }
    }
  }

  lemma NothingLeft(d: Wrapper, a: AxisId)
    requires SmallRemainder(d.At(a))
    ensures AllSmall(d, [], a) && AllFit(d, [], a) && SmallRemainder(Ends(d, []).At(a))
  {}

  /** With a factor of a hundred million, a frame of 1000 counts leaves more behind than it
      writes. */
  lemma LargeFactor()
    ensures var left := Consume(Axis(None, 1000, 0.0), HW_SCALE, 100_000_000.0);
            !SmallRemainder(left) && left.rem > Units(Axis(None, 1000, 0.0), HW_SCALE, 100_000_000.0) as real
  {}

  /** Over any run of one-finger contacts, with any factor: what the daemon writes plus what is left over
      is the travel over the shared stretches, scaled, less the counts lost at lifts and
      those still in the frame. */
  lemma SharedSegmentTotals(d0: Wrapper, ts: seq<Tick>, a: AxisId, accel: real, lo: I32, hi: I32)
    requires PlainRun(ts, accel) && InRange(ts, a, true, lo, hi)
    requires d0.contact.fingers <= 1
    requires d0.At(a).last == None && d0.At(a).acc == 0
    ensures Written(d0, ts, a) as real + Ends(d0, ts).At(a).rem
            == d0.At(a).rem + Ideal(
                 Travel(Segments(ts, a, true)) - LiftLost(d0, ts, a) - Ends(d0, ts).At(a).acc, accel)
    ensures SmallRemainder(d0.At(a)) && -5.0 <= accel <= 5.0 ==> SmallRemainder(Ends(d0, ts).At(a))
  {
    hide Ideal, Ends, Written, LiftLost, Segments, Travel, WithinRoom, FrameStretches;
    var first := RunInvariant(d0, ts, a, accel, lo, hi);
    if SmallRemainder(d0.At(a)) && -5.0 <= accel <= 5.0 {
      assert AllTame(ts);
      RemaindersSmall(d0, ts, a);
    }
  }
}
