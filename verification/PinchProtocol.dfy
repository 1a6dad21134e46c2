/** The pinch gestures of a run follow the begin/update/end protocol. */
module PinchProtocol {
  import opened Basics
  import opened Events
  import opened Touchpad
  import opened Geometry

  /** An observer of the event stream of one touchpad. */
  datatype Phase = Idle | Gesturing(fingers: nat) | Broken

  function Watch(p: Phase, e: LibEvent): Phase {
    match p
    case Idle =>
      (match e
       case PinchBegin(g) => if 2 <= g.fingers <= 10 then Gesturing(g.fingers) else Broken
       case PinchUpdate(_) => Broken
       case PinchEnd(_) => Broken
       case _ => Idle)
    case Gesturing(n) =>
      (match e
       case PinchUpdate(g) => if g.fingers == n then p else Broken
       case PinchEnd(g) => if g.fingers == n then Idle else Broken
       case PinchBegin(_) => Broken
       case PointerMotion(_, _, _, _, _) => Broken
       case ScrollFinger(_, _, _, _) => Broken
       case SwipeUpdate(_) => Broken
       case _ => p)
    case Broken => Broken
  }

  function WatchAll(p: Phase, es: seq<LibEvent>): Phase {
    if es == [] then p else Watch(WatchAll(p, es[..|es| - 1]), es[|es| - 1])
  }

  lemma {:induction false} WatchConcat(p: Phase, a: seq<LibEvent>, b: seq<LibEvent>)
    ensures WatchAll(p, a + b) == WatchAll(WatchAll(p, a), b)
  {
    if b == [] {
      assert a + b == a;
    } else {
      var n := |b| - 1;
      assert (a + b)[..|a| + n] == a + b[..n];
      WatchConcat(p, a, b[..n]);
    }
  }

  lemma WatchOne(p: Phase, e: LibEvent)
    ensures WatchAll(p, [e]) == Watch(p, e)
  {
    assert [e][..0] == [];
  }

  function PhaseOf(s: Pad): Phase {
    if s.pinch.active then Gesturing(s.pinch.fingers) else Idle
  }

  ghost predicate TenSlots(s: Pad) {
    |s.mt.slots| == SLOTS && (s.pinch.active ==> 2 <= s.pinch.fingers <= 10)
  }

  lemma WatchLift(s: Pad, t: Tick)
    ensures WatchAll(PhaseOf(s), LiftEvents(s, t)) == Idle
  {
    var ts := t.ev.timeUsec;
    WatchConcat(PhaseOf(s), EndEvents(s, ts), TapEvents(s.contact, t));
    WatchConcat(Idle, [PointerButton(ts, BTN_LEFT, 1)], [PointerButton(ts, BTN_LEFT, 0)]);
    assert TapClick(ts) == [PointerButton(ts, BTN_LEFT, 1)] + [PointerButton(ts, BTN_LEFT, 0)];
    WatchOne(Idle, PointerButton(ts, BTN_LEFT, 1));
    WatchOne(Idle, PointerButton(ts, BTN_LEFT, 0));
    if s.pinch.active { WatchOne(PhaseOf(s), PinchEnd(PinchGesture(s, ts))); }
  }

  lemma {:induction false} WatchCalm(p: Phase, es: seq<LibEvent>)
    requires forall e :: e in es ==> Watch(p, e) == p
    ensures WatchAll(p, es) == p
  {
    if es != [] { WatchCalm(p, es[..|es| - 1]); }
  }

  /** Reports neither begin nor end a gesture, and stay silent about motion inside one. */
  lemma WatchReport(s: Pad, t: Tick)
    ensures WatchAll(PhaseOf(s), ReportEvents(s, t)) == PhaseOf(s)
  {
    hide ActiveSlots, Units;
    WatchCalm(PhaseOf(s), ReportEvents(s, t));
  }

  lemma WatchStep(s: Pad, t: Tick)
    requires TenSlots(s)
    ensures TenSlots(Next(s, t))
    ensures WatchAll(PhaseOf(s), Emits(s, t)) == PhaseOf(Next(s, t))
  {
    hide WatchAll, LiftEvents, ReportEvents, AxisAfter, Kind, Wrap32, PrimaryDistSq, PrimaryAngle;
    var g := Guard(s, t.dwt);
    match Decode(t.ev)
    case Touch(down) =>
      if down {
        if BeginsPinch(g) {
          WatchOne(Idle, TouchDownEvents(g, t.ev.timeUsec)[0]);
        } else {
          WatchCalm(PhaseOf(g), []);
        }
      } else {
        WatchLift(g, t);
      }
    case Report => WatchReport(g, t);
    case _ => WatchCalm(PhaseOf(g), Emits(s, t));
  }

  /** On every run the pinch events form (BEGIN UPDATE* END)*, possibly cut short; the
      finger count stays the one announced, between 2 and 10; and inside a gesture there
      is no motion, scroll or swipe. */
  lemma {:induction false} Protocol(ts: seq<Tick>)
    ensures TenSlots(Final(INITIAL, ts))
    ensures WatchAll(Idle, Outputs(INITIAL, ts)) == PhaseOf(Final(INITIAL, ts))
    ensures WatchAll(Idle, Outputs(INITIAL, ts)) != Broken
  {
    if ts != [] {
      var before, t := ts[..|ts| - 1], ts[|ts| - 1];
      Protocol(before);
      WatchStep(Final(INITIAL, before), t);
      WatchConcat(Idle, Outputs(INITIAL, before), Emits(Final(INITIAL, before), t));
    }
  }

  // ---- what a gesture reports ----

  predicate Announces(es: seq<LibEvent>) {
    exists i :: 0 <= i < |es| && es[i].PinchBegin?
  }

  /** The slots as they were when the last BEGIN of the run went out. */
  function SlotsAtBegin(s: Pad, ts: seq<Tick>): Option<seq<MtSlot>> {
    if ts == [] then None
    else
      var before := ts[..|ts| - 1];
      if Announces(Emits(Final(s, before), ts[|ts| - 1])) then Some(Final(s, before).mt.slots)
      else SlotsAtBegin(s, before)
  }

  ghost predicate Baseline(s: Pad, origin: Option<seq<MtSlot>>) {
    s.pinch.active ==>
      && origin.Some?
      && PrimaryDistSq(origin.value) == Some(s.pinch.distSq)
      && s.pinch.fingers == ActiveCount(origin.value)
      && s.pinch.angle == PrimaryAngle(origin.value)
  }

  lemma BaselineStep(s: Pad, t: Tick, origin: Option<seq<MtSlot>>)
    requires Baseline(s, origin)
    ensures Baseline(Next(s, t), if Announces(Emits(s, t)) then Some(s.mt.slots) else origin)
    ensures Announces(Emits(s, t)) ==> !s.pinch.active && Next(s, t).pinch.active
  {
    hide PrimaryDistSq, PrimaryAngle, Units, AxisAfter, Wrap32, ActiveSlots, ScaleSq;
    var g := Guard(s, t.dwt);
    if Decode(t.ev) == Touch(true) && BeginsPinch(g) {
      assert Emits(s, t)[0].PinchBegin?;
    }
  }

  lemma {:induction false} BaselineRun(ts: seq<Tick>)
    ensures Baseline(Final(INITIAL, ts), SlotsAtBegin(INITIAL, ts))
  {
    if ts != [] {
      var before := ts[..|ts| - 1];
      BaselineRun(before);
      BaselineStep(Final(INITIAL, before), ts[|ts| - 1], SlotsAtBegin(INITIAL, before));
    }
  }

  lemma GestureIsCurrent(s: Pad, t: Tick)
    ensures forall e :: e in Emits(s, t) && (e.PinchUpdate? || e.PinchEnd?) ==>
              && s.pinch.active && e.gesture == PinchGesture(s, t.ev.timeUsec)
              && (e.PinchUpdate? ==> PrimaryDistSq(s.mt.slots).Some?)
  {
    hide PrimaryDistSq, PrimaryAngle, Units, ScaleSq, ActiveSlots;
  }

  /** Scale and angle of every UPDATE and END compare the first two fingers now with the
      first two at the BEGIN, on slots `p` and `q`. Without two fingers the scale is 1 and the
      angle now counts as 0, so that the change reported is 0 less the angle at the BEGIN;
      only an END can report that. The fingers are those at the BEGIN. */
  lemma GestureGeometry(ts: seq<Tick>, t: Tick, i: nat) returns (p: nat, q: nat)
    requires var es := Emits(Final(INITIAL, ts), t);
             i < |es| && (es[i].PinchUpdate? || es[i].PinchEnd?)
    ensures var e, origin, now := Emits(Final(INITIAL, ts), t)[i], SlotsAtBegin(INITIAL, ts),
                                  Final(INITIAL, ts).mt.slots;
            && origin.Some? && FirstPair(origin.value, p, q)
            && e.gesture.fingers == |InUse(origin.value)|
            && e.gesture.base == Direction(origin.value[p], origin.value[q])
            && (forall j: nat, k: nat :: FirstPair(now, j, k) ==>
                  && e.gesture.now == Direction(now[j], now[k])
                  && var base := Between(origin.value[p], origin.value[q]);
                     if base == 0 then e.gesture.scaleSq == 1.0
                     else e.gesture.scaleSq * base as real == Between(now[j], now[k]) as real)
            && ((forall j: nat, k: nat :: !FirstPair(now, j, k)) ==>
                  e.PinchEnd? && e.gesture.now == Flat && e.gesture.scaleSq == 1.0)
  {
    hide PrimaryDistSq, PrimaryAngle, ScaleSq, Emits, Final, SlotsAtBegin, Between, Direction, ActiveSlots, InUse;
    var s, now := Final(INITIAL, ts), Final(INITIAL, ts).mt.slots;
    BaselineRun(ts);
    GestureIsCurrent(s, t);
    assert Emits(s, t)[i] in Emits(s, t);
    var origin := SlotsAtBegin(INITIAL, ts).value;
    MeasuredIff(origin);
    p, q :| FirstPair(origin, p, q);
    PairMeasures(origin, p, q);
    CountsInUse(origin);
    var base := Between(origin[p], origin[q]);
    forall j: nat, k: nat | FirstPair(now, j, k)
      ensures PrimaryAngle(now) == Direction(now[j], now[k])
      ensures var scaleSq := ScaleSq(PrimaryDistSq(now), base);
              if base == 0 then scaleSq == 1.0 else scaleSq * base as real == Between(now[j], now[k]) as real
    {
      PairMeasures(now, j, k);
      ScaleLaw(Between(now[j], now[k]), base);
    }
    MeasuredIff(now);
    NoScale(base);
  }

  lemma PairMeasures(slots: seq<MtSlot>, i: nat, j: nat)
    requires FirstPair(slots, i, j)
    ensures PrimaryDistSq(slots) == Some(Between(slots[i], slots[j])) && Between(slots[i], slots[j]) >= 0
    ensures PrimaryAngle(slots) == Direction(slots[i], slots[j])
  {
    hide PrimaryDistSq, PrimaryAngle;
    PairGeometry(slots, i, j);
    BetweenNotNegative(slots[i], slots[j]);
  }

  lemma NoScale(base: int)
    ensures ScaleSq(None, base) == 1.0
  {}

  // ---- the last word of a gesture ----

  lemma TwoActive(slots: seq<MtSlot>)
    ensures PrimaryDistSq(slots).Some? <==> ActiveCount(slots) >= 2
  {
    hide ActiveSlots;
  }

  /** What the last UPDATE of the current gesture reported, and the slots it was made from. */
  datatype Shown = Shown(gesture: Gesture, slots: seq<MtSlot>)

  function LastUpdate(s: Pad, ts: seq<Tick>): Option<Shown> {
    if ts == [] then None
    else
      var before := ts[..|ts| - 1];
      var es := Emits(Final(s, before), ts[|ts| - 1]);
      if es == [] then LastUpdate(s, before)
      else if es[0].PinchBegin? then None
      else if es[0].PinchUpdate? then Some(Shown(es[0].gesture, Final(s, before).mt.slots))
      else LastUpdate(s, before)
  }

  /** The last UPDATE was made from two fingers, against the baseline still in force. */
  ghost predicate ShownHolds(s: Pad, shown: Option<Shown>) {
    s.pinch.active && shown.Some? ==>
      && PrimaryDistSq(shown.value.slots).Some?
      && shown.value.gesture.scaleSq == ScaleSq(PrimaryDistSq(shown.value.slots), s.pinch.distSq)
  }

  lemma ShownStep(s: Pad, t: Tick, shown: Option<Shown>)
    requires ShownHolds(s, shown)
    ensures var es := Emits(s, t);
            ShownHolds(Next(s, t),
                       if es == [] then shown
                       else if es[0].PinchBegin? then None
                       else if es[0].PinchUpdate? then Some(Shown(es[0].gesture, s.mt.slots))
                       else shown)
  {
    hide PrimaryDistSq, PrimaryAngle, Units, AxisAfter, Wrap32, ActiveSlots, ScaleSq;
  }

  lemma {:induction false} ShownRun(ts: seq<Tick>)
    ensures ShownHolds(Final(INITIAL, ts), LastUpdate(INITIAL, ts))
  {
    hide Next, Emits, ShownHolds, PrimaryDistSq, ScaleSq;
    if ts == [] {
      NothingShown();
    } else {
      var before := ts[..|ts| - 1];
      ShownRun(before);
      ShownStep(Final(INITIAL, before), ts[|ts| - 1], LastUpdate(INITIAL, before));
    }
  }

  lemma NothingShown()
    ensures ShownHolds(INITIAL, None)
  {}

  /** The distance a scale is made from: without two fingers, that of the BEGIN. */
  function ScaledDist(slots: seq<MtSlot>, base: int): int {
    if PrimaryDistSq(slots).Some? then PrimaryDistSq(slots).value else base
  }


  lemma ScaleOf(slots: seq<MtSlot>, base: int)
    requires base > 0
    ensures ScaleSq(PrimaryDistSq(slots), base) == ScaledDist(slots, base) as real / base as real
  {
    hide PrimaryDistSq;
  }

  lemma QuotientEqual(m: int, n: int, base: int)
    requires base > 0
    ensures m as real / base as real == n as real / base as real <==> m == n
  {
    assert m as real == (m as real / base as real) * base as real;
    assert n as real == (n as real / base as real) * base as real;
  }

  /** The END of a gesture compares fingers that are on the pad exactly when two still are
      at the lift; otherwise its scale is 1. So it repeats the scale of the last UPDATE
      exactly when the distance is still that of that UPDATE or, with fewer than two fingers
      left, when that UPDATE showed the distance of the BEGIN. */
  lemma FinalScale(ts: seq<Tick>, t: Tick)
    requires Decode(t.ev) == Touch(false) && Final(INITIAL, ts).pinch.active
    ensures var s := Final(INITIAL, ts);
            var es := Emits(s, t);
            && es != [] && es[0].PinchEnd?
            && (PrimaryDistSq(s.mt.slots).Some? <==> ActiveCount(s.mt.slots) >= 2)
            && (ActiveCount(s.mt.slots) < 2 ==> es[0].gesture.scaleSq == 1.0 && es[0].gesture.now == Flat)
            && (LastUpdate(INITIAL, ts).Some? ==>
                  var shown := LastUpdate(INITIAL, ts).value;
                  (es[0].gesture.scaleSq == shown.gesture.scaleSq
                   <==> s.pinch.distSq <= 0
                        || ScaledDist(s.mt.slots, s.pinch.distSq) == ScaledDist(shown.slots, s.pinch.distSq)))
  {
    hide Final, LastUpdate, PrimaryDistSq, ScaleSq, ScaledDist, ActiveSlots;
    var s := Final(INITIAL, ts);
    ShownRun(ts);
    TwoActive(s.mt.slots);
    EndIs(s, t);
    if ActiveCount(s.mt.slots) < 2 { FewerThanTwo(s.mt.slots, s.pinch.distSq); }
    if LastUpdate(INITIAL, ts).Some? {
      var slots, base := LastUpdate(INITIAL, ts).value.slots, s.pinch.distSq;
      if base > 0 {
        ScaleOf(s.mt.slots, base);
        ScaleOf(slots, base);
        QuotientEqual(ScaledDist(s.mt.slots, base), ScaledDist(slots, base), base);
      } else {
        FlatScale(s.mt.slots, base);
        FlatScale(slots, base);
      }
    }
  }

  lemma EndIs(s: Pad, t: Tick)
    requires Decode(t.ev) == Touch(false) && s.pinch.active
    ensures Emits(s, t) != [] && Emits(s, t)[0] == PinchEnd(PinchGesture(s, t.ev.timeUsec))
  {
    hide ActiveSlots, PrimaryDistSq, PrimaryAngle, ScaleSq;
  }

  lemma FewerThanTwo(slots: seq<MtSlot>, base: int)
    requires ActiveCount(slots) < 2
    ensures ScaleSq(PrimaryDistSq(slots), base) == 1.0 && PrimaryAngle(slots) == Flat
  {}

  lemma FlatScale(slots: seq<MtSlot>, base: int)
    requires base <= 0
    ensures ScaleSq(PrimaryDistSq(slots), base) == 1.0
  {}

  // ---- when the gesture events come ----

  /** BEGIN needs a touch-down that finds two fingers on the pad already, UPDATE a report
      that still does, and END a lift; typing silences UPDATE alone. */
  lemma GestureTimes(s: Pad, t: Tick)
    ensures (exists e :: e in Emits(s, t) && e.PinchBegin?)
            <==> Decode(t.ev) == Touch(true) && ActiveCount(s.mt.slots) >= 2 && !s.pinch.active
    ensures forall e :: e in Emits(s, t) && e.PinchBegin? ==> e.gesture.fingers == ActiveCount(s.mt.slots)
    ensures (exists e :: e in Emits(s, t) && e.PinchUpdate?)
            <==> Decode(t.ev).Report? && s.pinch.active && !t.dwt && ActiveCount(s.mt.slots) >= 2
    ensures (exists e :: e in Emits(s, t) && e.PinchEnd?) <==> Decode(t.ev) == Touch(false) && s.pinch.active
  {
    hide ActiveSlots, PrimaryDistSq, PrimaryAngle, Units, ScaleSq;
    TwoActive(s.mt.slots);
    var es := Emits(s, t);
    if es != [] { assert es[0] in es; }
  }

  /** However many fingers join one that is already down, no gesture begins until the
      kernel reports another touch-down. */
  lemma {:induction false} LateFingersDoNotPinch(s: Pad, ts: seq<Tick>)
    requires forall i :: 0 <= i < |ts| ==> Decode(ts[i].ev) != Touch(true)
    ensures forall e :: e in Outputs(s, ts) ==> !e.PinchBegin?
  {
    if ts != [] {
      hide Emits;
      var n := |ts| - 1;
      LateFingersDoNotPinch(s, ts[..n]);
      GestureTimes(Final(s, ts[..n]), ts[n]);
    }
  }
}
