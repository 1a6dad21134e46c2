/** A one-finger contact moves the pointer by where the finger went, however the
    motion was split into frames. */
module PathIndependence {
  import opened Basics
  import opened Touchpad
  import opened Ledger
  import opened Bounds
  import opened Paths

  /** A run in which at most one finger is ever down and nobody types. */
  ghost predicate OneFinger(s: Pad, ts: seq<Tick>, accel: real) {
    && !s.pinch.active && s.contact.fingers <= 1
    && (forall i :: 0 <= i < |ts| ==>
          !ts[i].dwt && ts[i].accel == accel && !Decode(ts[i].ev).Tool?)
    && (forall i :: 0 <= i < |ts| ==> ActiveCount(Final(s, ts[..i]).mt.slots) <= 1)
  }

  lemma OneFingerPrefix(s: Pad, ts: seq<Tick>, accel: real)
    requires ts != [] && OneFinger(s, ts, accel)
    ensures OneFinger(s, ts[..|ts| - 1], accel)
    ensures ActiveCount(Final(s, ts[..|ts| - 1]).mt.slots) <= 1
  {
    var before := ts[..|ts| - 1];
    assert forall i :: 0 <= i < |before| ==> before[..i] == ts[..i];
  }

  /** Every frame of such a run is a motion frame: counts move the pointer or are lost at a lift. */
  ghost predicate MotionOnly(b: Account, accel: real) {
    && b.scroll == 0 && b.swipe == 0 && b.pinchDropped == 0 && b.dwtDropped == 0
    && b.remDropped == 0.0
    && b.weighted == Ideal(b.motion, accel)
  }

  lemma {:induction false} OnlyMotion(s: Pad, ts: seq<Tick>, a: AxisId, accel: real)
    requires OneFinger(s, ts, accel)
    ensures MotionOnly(Books(s, ts, a), accel)
    ensures !Final(s, ts).pinch.active && Final(s, ts).contact.fingers <= 1
  {
    if ts != [] {
      OneFingerPrefix(s, ts, accel);
      var before := ts[..|ts| - 1];
      OnlyMotion(s, before, a, accel);
      MotionEntry(Books(s, before, a), Final(s, before), ts[|ts| - 1], a, accel);
    }
  }

  lemma MotionEntry(b: Account, s: Pad, t: Tick, a: AxisId, accel: real)
    requires MotionOnly(b, accel)
    requires !s.pinch.active && s.contact.fingers <= 1 && ActiveCount(s.mt.slots) <= 1
    requires !t.dwt && t.accel == accel && !Decode(t.ev).Tool?
    ensures MotionOnly(Entry(b, s, t, a), accel)
    ensures !Next(s, t).pinch.active && Next(s, t).contact.fingers <= 1
  {
    hide Wrap32, ActiveSlots, Consume, Ideal;
    IdealAdd(b.motion, s.At(a).acc, accel);
  }

  /** The tracking state of an axis, read off the history. */
  ghost predicate TracksHistory(s: Pad, from: Option<Time>, ts: seq<Tick>, a: AxisId) {
    var segs := Segments(ts, a, false);
    && s.lastMove == (if LastMoveAt(ts).Some? then LastMoveAt(ts) else from)
    && s.At(a).last == if Held(ts, a, false) then Some(Tip(segs[|segs| - 1])) else None
  }

  lemma TracksStep(s: Pad, from: Option<Time>, ts: seq<Tick>, a: AxisId)
    requires ts != []
    requires TracksHistory(s, from, ts[..|ts| - 1], a)
    ensures TracksHistory(Next(s, ts[|ts| - 1]), from, ts, a)
    ensures Travel(Segments(ts, a, false))
            == Travel(Segments(ts[..|ts| - 1], a, false)) + Difference(s, ts[|ts| - 1], a)
  {
    hide Segments, Held, LastMoveAt, Next, Travel, AddCoordinate, Decode;
    var before, t := ts[..|ts| - 1], ts[|ts| - 1];
    NextAnchors(s, t, a);
    HeldMoved(before, a);
    Unfold(ts, a, false);
    if Decode(t.ev).Move? && Decode(t.ev).axis == a {
      TravelAdd(Segments(before, a, false), Held(before, a, false) && !Gap(before, t.now), Decode(t.ev).value);
    }
  }

  lemma NextAnchors(s: Pad, t: Tick, a: AxisId)
    ensures Next(s, t).lastMove == if Decode(t.ev).Move? then Some(t.now) else s.lastMove
    ensures Next(s, t).At(a).last
            == match Decode(t.ev)
               case Move(b, v) => (if a == b then Some(v) else s.At(a).last)
               case Touch(_) => None
               case _ => s.At(a).last
  {
    hide Wrap32, Kind;
  }

  lemma {:induction false} HeldMoved(ts: seq<Tick>, a: AxisId)
    ensures Held(ts, a, false) ==> LastMoveAt(ts).Some?
  {
    if ts != [] { HeldMoved(ts[..|ts| - 1], a); }
  }

  lemma {:induction false} Tracks(s: Pad, ts: seq<Tick>, a: AxisId)
    requires s.At(a).last == None
    ensures TracksHistory(Final(s, ts), s.lastMove, ts, a)
    ensures RawCounts(s, ts, a) == Travel(Segments(ts, a, false))
  {
    if ts != [] {
      var before := ts[..|ts| - 1];
      Tracks(s, before, a);
      TracksStep(Final(s, before), s.lastMove, ts, a);
    }
  }

  /** The stretches of the current frame, from the state and from the history. */
  lemma {:induction false} StretchCount(s: Pad, ts: seq<Tick>, a: AxisId)
    requires s.At(a).last == None
    ensures Stretches(s, ts, a).count == FrameStretches(ts, a, false)
  {
    if ts != [] {
      var before, t := ts[..|ts| - 1], ts[|ts| - 1];
      StretchCount(s, before, a);
      Tracks(s, before, a);
      HeldMoved(before, a);
      StretchStep(Stretches(s, before, a), Final(s, before), s.lastMove, ts, a);
    }
  }

  lemma StretchStep(f: Stretch, s: Pad, from: Option<Time>, ts: seq<Tick>, a: AxisId)
    requires ts != []
    requires TracksHistory(s, from, ts[..|ts| - 1], a)
    requires Held(ts[..|ts| - 1], a, false) ==> LastMoveAt(ts[..|ts| - 1]).Some?
    requires f.count == FrameStretches(ts[..|ts| - 1], a, false)
    ensures Extend(f, s, ts[|ts| - 1], a).count == FrameStretches(ts, a, false)
  {
    UnfoldFrame(ts, a, false);
    hide Segments, Held, LastMoveAt, FrameStretches;
  }

  /** The counts taken in are the travel. */
  lemma ContactInflow(s: Pad, ts: seq<Tick>, a: AxisId, lo: I32, hi: I32)
    requires s.At(a).last == None && s.At(a).acc == 0
    requires InRange(ts, a, false, lo, hi)
    ensures Books(s, ts, a).inflow == Travel(Segments(ts, a, false))
    ensures Within(Final(s, ts).At(a), Stretches(s, ts, a), lo, hi)
    ensures Stretches(s, ts, a).count * (hi - lo) <= 0x7FFF_FFFF
  {
    hide Segments, Travel, Books, Final, RawCounts, Stretches, Within, FrameStretches;
    forall i | 0 <= i <= |ts|
      ensures Roomy(Stretches(s, ts[..i], a), lo, hi)
    {
      StretchCount(s, ts[..i], a);
    }
    assert ts[..|ts|] == ts;
    AccumulatorBound(s, ts, a, lo, hi);
    Tracks(s, ts, a);
  }

  lemma MotionTotal(b: Account, from: Axis, to: Axis, units: int, swiped: real, accel: real)
    requires Balances(EMPTY, b, from, to, units, swiped) && MotionOnly(b, accel) && from.acc == 0
    ensures units as real + to.rem == from.rem + Ideal(b.inflow - b.liftDropped - to.acc, accel)
  {}

  /** With stalls and any number of contacts: what is emitted plus what is left over is
      the travel over the stall-free stretches of this axis, scaled, less the counts
      dropped at lifts and those still in the frame. */
  lemma SegmentTotals(s: Pad, ts: seq<Tick>, a: AxisId, accel: real, lo: I32, hi: I32)
    requires OneFinger(s, ts, accel)
    requires s.At(a).last == None && s.At(a).acc == 0
    requires InRange(ts, a, false, lo, hi)
    ensures Emitted(s, ts, a) as real + Final(s, ts).At(a).rem
            == s.At(a).rem
               + Ideal(Travel(Segments(ts, a, false)) - Books(s, ts, a).liftDropped - Final(s, ts).At(a).acc, accel)
  {
    hide Segments, Travel, Books, Emitted, Swiped, Final, Balances, MotionOnly, Ideal;
    ContactInflow(s, ts, a, lo, hi);
    OnlyMotion(s, ts, a, accel);
    Conservation(s, ts, a);
    MotionTotal(Books(s, ts, a), s.At(a), Final(s, ts).At(a), Emitted(s, ts, a), Swiped(s, ts, a), accel);
  }

  lemma {:induction false} NoLifts(s: Pad, ts: seq<Tick>, a: AxisId)
    requires NoTouches(ts)
    ensures Books(s, ts, a).liftDropped == 0
  {
    if ts != [] { NoLifts(s, ts[..|ts| - 1], a); }
  }

  lemma RunReportClears(s: Pad, ts: seq<Tick>)
    requires ts != [] && Decode(ts[|ts| - 1].ev).Report?
    ensures !Final(s, ts).Moved()
  {
    ReportClears(Final(s, ts[..|ts| - 1]), ts[|ts| - 1]);
  }

  /** Within one contact and without stalls: only the first and the last coordinate matter. At a report nothing
      is pending, and the total is within one unit of the ideal displacement. */
  lemma PathIndependence(s: Pad, ts: seq<Tick>, a: AxisId, accel: real, lo: I32, hi: I32)
    requires OneFinger(s, ts, accel) && NoGaps(ts) && NoTouches(ts)
    requires s.At(a).last == None && s.At(a).acc == 0
    requires lo <= hi && hi - lo <= 0x7FFF_FFFF
    requires forall i :: 0 <= i < |ts| ==> Coordinate(ts[i], a, lo, hi)
    ensures var path := Coordinates(ts, a);
            var travelled := if path == [] then 0 else Span(path);
            var pending := Final(s, ts).At(a).acc;
            && Emitted(s, ts, a) as real + Final(s, ts).At(a).rem
               == s.At(a).rem + Ideal(travelled - pending, accel)
            && (ts != [] && Decode(ts[|ts| - 1].ev).Report? ==>
                  && pending == 0
                  && (SmallRemainder(s.At(a)) && -5.0 <= accel <= 5.0 ==>
                        -1.0 <= Emitted(s, ts, a) as real - Ideal(travelled, accel) <= 1.0))
  {
    hide Emitted, Swiped, Final, OneFinger, Books, Segments, Coordinates, Ideal, NoGaps, NoTouches, FrameStretches;
    OneStretch(ts, a, false);
    OneContactInRange(ts, a, lo, hi);
    var path := Coordinates(ts, a);
    SegmentTotals(s, ts, a, accel, lo, hi);
    NoLifts(s, ts, a);
    if path != [] { TravelOne(path); }
    if SmallRemainder(s.At(a)) && -5.0 <= accel <= 5.0 { TameRemainder(s, ts, a, accel); }
    if ts != [] && Decode(ts[|ts| - 1].ev).Report? {
      RunReportClears(s, ts);
    }
  }

  lemma TameRemainder(s: Pad, ts: seq<Tick>, a: AxisId, accel: real)
    requires OneFinger(s, ts, accel) && SmallRemainder(s.At(a)) && -5.0 <= accel <= 5.0
    ensures SmallRemainder(Final(s, ts).At(a))
  {
    hide Final;
    assert AllTame(ts);
    RemaindersSmall(s, ts, a);
  }

  lemma OneContactInRange(ts: seq<Tick>, a: AxisId, lo: I32, hi: I32)
    requires NoGaps(ts) && NoTouches(ts)
    requires lo <= hi && hi - lo <= 0x7FFF_FFFF
    requires forall i :: 0 <= i < |ts| ==> Coordinate(ts[i], a, lo, hi)
    ensures InRange(ts, a, false, lo, hi)
  {
    hide FrameStretches, Coordinates;
    forall i | 0 <= i <= |ts|
      ensures FrameStretches(ts[..i], a, false) * (hi - lo) <= 0x7FFF_FFFF
    {
      var before := ts[..i];
      assert forall j :: 0 <= j < i ==> before[j] == ts[j] && before[..j] == ts[..j];
      OneStretch(before, a, false);
      MulLe(FrameStretches(before, a, false), 1, hi - lo);
    }
  }

  lemma MulLe(m: nat, n: nat, d: nat)
    requires m <= n
    ensures m * d <= n * d
  {}

  lemma TravelOne(path: seq<I32>)
    requires path != []
    ensures Travel([path]) == Span(path)
  {
    assert [path][..0] == [];
  }

  /** Two contacts that start and end at the same coordinate move the pointer by the
      same total, up to the one unit that rounding can still hold back. */
  lemma SameEndpointsSameTotal(s: Pad, ts: seq<Tick>, us: seq<Tick>, a: AxisId,
                                                  accel: real, lo: I32, hi: I32)
    requires OneFinger(s, ts, accel) && NoGaps(ts) && NoTouches(ts)
    requires OneFinger(s, us, accel) && NoGaps(us) && NoTouches(us)
    requires s.At(a).last == None && s.At(a).acc == 0
    requires lo <= hi && hi - lo <= 0x7FFF_FFFF
    requires forall i :: 0 <= i < |ts| ==> Coordinate(ts[i], a, lo, hi)
    requires forall i :: 0 <= i < |us| ==> Coordinate(us[i], a, lo, hi)
    requires ts != [] && Decode(ts[|ts| - 1].ev).Report? && us != [] && Decode(us[|us| - 1].ev).Report?
    requires var p, q := Coordinates(ts, a), Coordinates(us, a);
             p != [] && q != [] && p[0] == q[0] && Tip(p) == Tip(q)
    ensures Emitted(s, ts, a) as real + Final(s, ts).At(a).rem == Emitted(s, us, a) as real + Final(s, us).At(a).rem
    ensures SmallRemainder(s.At(a)) && -5.0 <= accel <= 5.0 ==> -1 <= Emitted(s, ts, a) - Emitted(s, us, a) <= 1
  {
    hide Emitted, Final, OneFinger, Coordinates, Ideal, Books, Swiped;
    PathIndependence(s, ts, a, accel, lo, hi);
    PathIndependence(s, us, a, accel, lo, hi);
    if SmallRemainder(s.At(a)) && -5.0 <= accel <= 5.0 {
      TameRemainder(s, ts, a, accel);
      TameRemainder(s, us, a, accel);
    }
  }
}
