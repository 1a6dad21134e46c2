/** What every single event of a touchpad looks like, whatever the run. */
module OutputShapes {
  import opened Basics
  import opened Events
  import opened Touchpad

  function Stamp(e: LibEvent): Option<nat> {
    match e
    case DeviceAdded => None
    case DeviceRemoved => None
    case KeyboardKey(ts, _, _) => Some(ts)
    case PointerMotion(ts, _, _, _, _) => Some(ts)
    case PointerButton(ts, _, _) => Some(ts)
    case ScrollWheel(ts, _, _, _) => Some(ts)
    case ScrollFinger(ts, _, _, _) => Some(ts)
    case SwipeUpdate(g) => Some(g.timeUsec)
    case PinchBegin(g) => Some(g.timeUsec)
    case PinchUpdate(g) => Some(g.timeUsec)
    case PinchEnd(g) => Some(g.timeUsec)
  }

  /** Nothing empty is emitted; scroll values are 15 per step; a swipe has three fingers
      or more; a gesture is never marked cancelled. */
  predicate Shaped(e: LibEvent) {
    match e
    case PointerMotion(_, dx, dy, _, _) => dx != 0 || dy != 0
    case ScrollFinger(_, axis, v, n) => axis <= 1 && n != 0 && v == 15 * n
    case PointerButton(_, b, _) => b == BTN_LEFT || b == BTN_RIGHT || b == BTN_MIDDLE
    case SwipeUpdate(g) =>
      && g.fingers >= 3 && (g.dx != 0.0 || g.dy != 0.0) && g.scaleSq == 1.0
      && g.now == g.base == Flat && !g.cancelled
    case PinchBegin(g) =>
      g.fingers >= 2 && g.dx == g.dy == 0.0 && g.scaleSq == 1.0 && g.now == g.base == Flat && !g.cancelled
    case PinchUpdate(g) => g.dx == 0.0 && g.dy == 0.0 && g.scaleSq >= 0.0 && !g.cancelled
    case PinchEnd(g) => g.dx == 0.0 && g.dy == 0.0 && g.scaleSq >= 0.0 && !g.cancelled
    case _ => false
  }

  lemma SquareNotNegative(n: int)
    ensures n * n >= 0
  {}

  lemma ScaleNotNegative(slots: seq<MtSlot>, base: int)
    ensures ScaleSq(PrimaryDistSq(slots), base) >= 0.0
  {
    hide ActiveSlots;
    var active := ActiveSlots(slots);
    if |active| >= 2 {
      SquareNotNegative(active[0].x - active[1].x);
      SquareNotNegative(active[0].y - active[1].y);
    }
  }

  lemma StepShaped(s: Pad, t: Tick)
    ensures forall e :: e in Emits(s, t) ==> Shaped(e) && Stamp(e) == Some(t.ev.timeUsec)
  {
    hide ActiveSlots, Units, ScaleSq, PrimaryDistSq, PrimaryAngle;
    ScaleNotNegative(s.mt.slots, s.pinch.distSq);
  }

  /** Every event a run emits is well shaped and carries the kernel's time stamp of the
      event that caused it. */
  lemma {:induction false} RunShaped(s: Pad, ts: seq<Tick>)
    ensures forall e :: e in Outputs(s, ts) ==>
              Shaped(e) && exists i :: 0 <= i < |ts| && Stamp(e) == Some(ts[i].ev.timeUsec)
  {
    if ts != [] {
      hide Shaped, Stamp, Emits;
      var n := |ts| - 1;
      RunShaped(s, ts[..n]);
      StepShaped(Final(s, ts[..n]), ts[n]);
      forall e | e in Outputs(s, ts)
        ensures Shaped(e) && exists i :: 0 <= i < |ts| && Stamp(e) == Some(ts[i].ev.timeUsec)
      {
        if e in Outputs(s, ts[..n]) {
          var i :| 0 <= i < n && Stamp(e) == Some(ts[..n][i].ev.timeUsec);
          assert Stamp(e) == Some(ts[i].ev.timeUsec);
        }
      }
    }
  }
}
