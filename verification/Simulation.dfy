/** For one finger, the daemon and the library are the same machine. */
module Simulation {
  import opened Basics
  import opened Events
  import opened Touchpad
  import opened Daemon
  import opened Paths
  import PathIndependence

  // ---- what a client sees, once REL_X/REL_Y are folded and SYN is dropped ----

  datatype Act = Motion(dx: int, dy: int) | Click(button: nat, state: nat) | Other

  function LibActs(es: seq<LibEvent>): seq<Act> {
    if es == [] then []
    else LibActs(es[..|es| - 1]) + [LibAct(es[|es| - 1])]
  }

  function LibAct(e: LibEvent): Act {
    match e
    case PointerMotion(_, dx, dy, _, _) => Motion(dx, dy)
    case PointerButton(_, b, v) => Click(b, v)
    case _ => Other
  }

  predicate IsRel(u: UEvent, code: nat) {
    u.eventType == RELATIVE && u.code == code
  }

  /** Folds what one event made the daemon write. */
  function Fold(us: seq<UEvent>): seq<Act> {
    if us == [] then []
    else if us[0].eventType == SYNCHRONIZATION then Fold(us[1..])
    else if us[0].eventType == KEY then [Click(us[0].code, AsU32(us[0].value))] + Fold(us[1..])
    else if IsRel(us[0], REL_X) then
      if |us| > 1 && IsRel(us[1], REL_Y) then [Motion(us[0].value, us[1].value)] + Fold(us[2..])
      else [Motion(us[0].value, 0)] + Fold(us[1..])
    else if IsRel(us[0], REL_Y) then [Motion(0, us[0].value)] + Fold(us[1..])
    else [Other] + Fold(us[1..])
  }

  function DaemonActs(d: Wrapper, ts: seq<Tick>): seq<Act> {
    if ts == [] then []
    else DaemonActs(d, ts[..|ts| - 1]) + Fold(Writes(Ends(d, ts[..|ts| - 1]), ts[|ts| - 1]))
  }

  lemma {:induction false} LibActsConcat(a: seq<LibEvent>, b: seq<LibEvent>)
    ensures LibActs(a + b) == LibActs(a) + LibActs(b)
  {
    if b == [] {
      assert a + b == a;
    } else {
      var n := |b| - 1;
      assert (a + b)[..|a| + n] == a + b[..n];
      LibActsConcat(a, b[..n]);
    }
  }

  // ---- the relation ----

  /** The two machines track the same finger. */
  predicate Agree(s: Pad, d: Wrapper) {
    && s.x == d.x && s.y == d.y && s.lastMove == d.lastMove && s.contact == d.contact && s.click == d.click
    && !s.pinch.active && s.contact.fingers <= 1
  }

  function Opposite(a: AxisId): AxisId {
    if a == X then Y else X
  }

  /** Coordinates are handled alike, except that after a stall the daemon also drops the
      other axis's anchor: the machines stay together exactly when there is none. */
  lemma MoveAgrees(s: Pad, d: Wrapper, a: AxisId, v: I32, now: Time)
    requires Agree(s, d)
    ensures Agree(MoveAxis(s, a, v, now), TrackMove(d, a, v, now))
            <==> !(Stalled(s.lastMove, now) && s.At(Opposite(a)).last.Some?)
  {
    hide Wrap32;
  }

  lemma ReportAgrees(s: Pad, d: Wrapper, t: Tick)
    requires Agree(s, d) && ActiveCount(s.mt.slots) <= 1
    ensures Agree(ReportNext(s, t), ReportAfter(d, t))
    ensures LibActs(ReportEvents(s, t)) == Fold(FrameWrites(d, t))
  {
    hide ActiveSlots, Units, Consume;
    var ux, uy := Units(s.x, HW_SCALE, t.accel), Units(s.y, HW_SCALE, t.accel);
    if Kind(s, t.dwt).MotionFrame? {
      FoldMotion(ux, uy);
      if ux != 0 || uy != 0 { LibActsOne(ReportEvents(s, t)[0]); }
    }
  }

  lemma LibActsOne(e: LibEvent)
    ensures LibActs([e]) == [LibAct(e)]
  {
    assert [e][..0] == [];
  }

  lemma FoldMotion(ux: int, uy: int)
    ensures Fold(Rel(REL_X, ux) + Rel(REL_Y, uy)) == if ux != 0 || uy != 0 then [Motion(ux, uy)] else []
  {
    var us := Rel(REL_X, ux) + Rel(REL_Y, uy);
    if ux != 0 && uy != 0 {
      assert us[2..] == [];
    } else if ux != 0 || uy != 0 {
      assert us[1..] == [];
    }
  }

  /** A trailing SYN does not change what a frame folds to. */
  lemma {:induction false} FoldSyn(us: seq<UEvent>, u: UEvent)
    requires u.eventType == SYNCHRONIZATION
    ensures Fold(us + [u]) == Fold(us)
  {
    if us == [] {
      assert us + [u] == [u];
    } else {
      assert (us + [u])[1..] == us[1..] + [u];
      FoldSyn(us[1..], u);
      if |us| > 1 {
        assert (us + [u])[2..] == us[2..] + [u];
        FoldSyn(us[2..], u);
      }
    }
  }

  lemma FoldTap(us: seq<UEvent>)
    requires us == [UEvent(KEY, BTN_LEFT, 1), SYN, UEvent(KEY, BTN_LEFT, 0)]
    ensures Fold(us) == [Click(BTN_LEFT, 1), Click(BTN_LEFT, 0)]
  {
    assert us[1..] == [SYN, us[2]] && [SYN, us[2]][1..] == [us[2]] && [us[2]][1..] == [];
    assert Fold([us[2]]) == [Click(BTN_LEFT, 0)];
    assert Fold([SYN, us[2]]) == Fold([us[2]]);
  }

  lemma LiftAgrees(s: Pad, d: Wrapper, t: Tick)
    requires Agree(s, d)
    ensures LibActs(LiftEvents(s, t)) == Fold(TapWrites(d.contact, t))
  {
    if Taps(s.contact, t) {
      var p, r := PointerButton(t.ev.timeUsec, BTN_LEFT, 1), PointerButton(t.ev.timeUsec, BTN_LEFT, 0);
      assert LiftEvents(s, t) == [p] + [r];
      LibActsConcat([p], [r]);
      LibActsOne(p);
      LibActsOne(r);
      FoldTap(TapWrites(d.contact, t));
    } else {
      assert LiftEvents(s, t) == [];
    }
  }

  /** A stall that finds the other axis anchored. */
  predicate StallSplits(s: Pad, t: Tick) {
    && Decode(t.ev).Move? && Stalled(s.lastMove, t.now)
    && s.At(Opposite(Decode(t.ev).axis)).last.Some?
  }

  /** One event that a single finger can cause: the machines do the same, and stay together
      unless a stall splits them. */
  lemma StepAgrees(s: Pad, d: Wrapper, t: Tick)
    requires Agree(s, d) && !Decode(t.ev).Tool? && ActiveCount(s.mt.slots) <= 1
    ensures Agree(Next(s, t), After(d, t)) <==> !StallSplits(s, t)
    ensures LibActs(Emits(s, t)) == Fold(Writes(d, t))
  {
    hide ActiveSlots, PrimaryDistSq, MoveAxis, TrackMove, ReportNext, ReportAfter, ReportEvents,
      FrameWrites, LiftEvents, TapWrites;
    var g, h := Guard(s, t.dwt), Daemon.Watch(d, t.dwt);
    assert Agree(g, h);
    match Decode(t.ev)
    case Touch(down) => if !down { LiftAgrees(g, h, t); }
    case Move(a, v) => MoveAgrees(g, h, a, v, t.now);
    case Button(code, v) =>
      var m := MappedButton(s.contact.fingers, s.click, code, v);
      LibActsOne(PointerButton(t.ev.timeUsec, m, AsU32(v)));
      assert IsPointerButton(m) ==> ButtonWrites(m, v)[1..] == [];
    case Report =>
      ReportAgrees(g, h, t);
      FoldSyn(FrameWrites(h, t), Forward(t.ev));
      assert FrameWrites(h, t) + [] == FrameWrites(h, t);
    case Ignored =>
      if t.ev.eventType == SYNCHRONIZATION {
        FoldSyn([], Forward(t.ev));
        assert [] + [Forward(t.ev)] == [Forward(t.ev)];
      }
    case _ =>
  }

  // ---- runs ----

  /** A finger came down or lifted after the last coordinate. */
  predicate TouchedSinceMove(ts: seq<Tick>) {
    if ts == [] then true
    else
      match Decode(ts[|ts| - 1].ev)
      case Touch(_) => true
      case Move(_, _) => false
      case _ => TouchedSinceMove(ts[..|ts| - 1])
  }

  /** One finger at most, and every pause of more than 50 ms between coordinates has a
      touch-down or lift in it. */
  ghost predicate OneFingerStream(s: Pad, ts: seq<Tick>) {
    && (forall i :: 0 <= i < |ts| ==> !Decode(ts[i].ev).Tool?)
    && (forall i :: 0 <= i < |ts| ==> ActiveCount(Final(s, ts[..i]).mt.slots) <= 1)
    && (forall i :: 0 <= i < |ts| && Decode(ts[i].ev).Move? && Gap(ts[..i], ts[i].now) ==> TouchedSinceMove(ts[..i]))
  }

  // ---- exactly when they stay together ----

  /** One finger at most. */
  ghost predicate SingleFinger(ts: seq<Tick>) {
    && (forall i :: 0 <= i < |ts| ==> !Decode(ts[i].ev).Tool?)
    && (forall i :: 0 <= i < |ts| ==> ActiveCount(Final(INITIAL, ts[..i]).mt.slots) <= 1)
  }

  /** A coordinate that comes more than 50 ms after the last one while the other axis still
      has a coordinate to be compared with. */
  predicate Splits(before: seq<Tick>, t: Tick) {
    && Decode(t.ev).Move? && Gap(before, t.now)
    && Held(before, Opposite(Decode(t.ev).axis), false)
  }

  ghost predicate NeverSplits(ts: seq<Tick>) {
    forall i :: 0 <= i < |ts| ==> !Splits(ts[..i], ts[i])
  }

  ghost predicate AgreeThroughout(ts: seq<Tick>) {
    forall i :: 0 <= i <= |ts| ==> Agree(Final(INITIAL, ts[..i]), Ends(FRESH, ts[..i]))
  }

  lemma SingleFingerLast(ts: seq<Tick>)
    requires ts != [] && SingleFinger(ts)
    ensures var before, t := ts[..|ts| - 1], ts[|ts| - 1];
            SingleFinger(before) && !Decode(t.ev).Tool? && ActiveCount(Final(INITIAL, before).mt.slots) <= 1
  {
    hide Final, ActiveCount, Decode;
    var n := |ts| - 1;
    assert forall i :: 0 <= i < n ==> ts[..n][..i] == ts[..i] && ts[..n][i] == ts[i];
  }

  lemma NeverSplitsLast(ts: seq<Tick>)
    requires ts != []
    ensures NeverSplits(ts) <==> NeverSplits(ts[..|ts| - 1]) && !Splits(ts[..|ts| - 1], ts[|ts| - 1])
  {
    hide Splits;
    var n := |ts| - 1;
    assert forall i :: 0 <= i < n ==> ts[..n][..i] == ts[..i] && ts[..n][i] == ts[i];
  }

  lemma AgreeThroughoutLast(ts: seq<Tick>)
    requires ts != []
    ensures AgreeThroughout(ts) <==> AgreeThroughout(ts[..|ts| - 1]) && Agree(Final(INITIAL, ts), Ends(FRESH, ts))
  {
    hide Agree, Final, Ends;
    var n := |ts| - 1;
    assert forall i :: 0 <= i <= n ==> ts[..n][..i] == ts[..i];
    assert ts[..|ts|] == ts;
  }

  /** A split as the library's state shows it. */
  lemma SplitIsStall(ts: seq<Tick>, t: Tick)
    ensures Splits(ts, t) <==> StallSplits(Final(INITIAL, ts), t)
  {
    hide Final, Held, LastMoveAt, Segments;
    if Decode(t.ev).Move? { PathIndependence.Tracks(INITIAL, ts, Opposite(Decode(t.ev).axis)); }
  }

  /** For one finger: the two machines agree after every event exactly when no coordinate
      splits them, and then they do the same motions, taps and clicks, in the same order. */
  lemma {:induction false} TogetherIff(ts: seq<Tick>)
    requires SingleFinger(ts)
    ensures AgreeThroughout(ts) <==> NeverSplits(ts)
    ensures NeverSplits(ts) ==> LibActs(Outputs(INITIAL, ts)) == DaemonActs(FRESH, ts)
  {
    hide Next, Emits, After, Writes, SingleFinger, NeverSplits, AgreeThroughout, Agree, Splits, StallSplits,
      ActiveCount, Fold;
    if ts == [] {
      TogetherAtStart();
    } else {
      var before, t := ts[..|ts| - 1], ts[|ts| - 1];
      var s, d := Final(INITIAL, before), Ends(FRESH, before);
      SingleFingerLast(ts);
      TogetherIff(before);
      NeverSplitsLast(ts);
      AgreeThroughoutLast(ts);
      LastAgrees(before);
      SplitIsStall(before, t);
      if AgreeThroughout(before) { StepAgrees(s, d, t); }
      LibActsConcat(Outputs(INITIAL, before), Emits(s, t));
    }
  }

  lemma TogetherAtStart()
    ensures AgreeThroughout([]) && NeverSplits([])
  {}

  lemma LastAgrees(ts: seq<Tick>)
    ensures AgreeThroughout(ts) ==> Agree(Final(INITIAL, ts), Ends(FRESH, ts))
  {
    hide Final, Ends, Agree;
    assert ts[..|ts|] == ts;
  }

  /** In particular when every pause of more than 50 ms between coordinates has a
      touch-down or lift in it. */
  lemma DaemonSimulatesLibrary(ts: seq<Tick>)
    requires OneFingerStream(INITIAL, ts)
    ensures Agree(Final(INITIAL, ts), Ends(FRESH, ts))
    ensures LibActs(Outputs(INITIAL, ts)) == DaemonActs(FRESH, ts)
  {
    hide Final, Ends, Agree, Held, TouchedSinceMove, ActiveCount, LibActs, DaemonActs, Outputs;
    forall i | 0 <= i < |ts| ensures !Splits(ts[..i], ts[i]) {
      if Decode(ts[i].ev).Move? && Gap(ts[..i], ts[i].now) {
        TouchedNotHeld(ts[..i], Opposite(Decode(ts[i].ev).axis));
      }
    }
    TogetherIff(ts);
    LastAgrees(ts);
  }

  lemma {:induction false} TouchedNotHeld(ts: seq<Tick>, a: AxisId)
    requires TouchedSinceMove(ts)
    ensures !Held(ts, a, false)
  {
    if ts != [] && !Decode(ts[|ts| - 1].ev).Touch? { TouchedNotHeld(ts[..|ts| - 1], a); }
  }

  lemma Snoc(ts: seq<Tick>, t: Tick)
    ensures Final(INITIAL, ts + [t]) == Next(Final(INITIAL, ts), t)
    ensures Ends(FRESH, ts + [t]) == After(Ends(FRESH, ts), t)
  {
    assert (ts + [t])[..|ts|] == ts;
  }

  /** A coordinate event with default settings; `ms` is its time in milliseconds. */
  function Coordinate(code: nat, v: I32, ms: int): Tick {
    Tick(RawEvent(ABSOLUTE, code, v, 0), ms * MS, false, true, true, 1.0)
  }

  /** A pause in the middle of a contact separates them: X and Y anchored, 60 ms of
      rest, then one coordinate of each axis. The library still counts the Y movement
      over the pause; the daemon has dropped the Y anchor. */
  lemma PauseSeparates()
    ensures var ts := [Coordinate(ABS_X, 0, 0)] + [Coordinate(ABS_Y, 0, 1)]
                      + [Coordinate(ABS_X, 100, 61)] + [Coordinate(ABS_Y, 100, 62)];
            Final(INITIAL, ts).y.acc == 100 && Ends(FRESH, ts).y.acc == 0
  {
    hide Final, Ends, Next, After, Wrap32;
    var a, b := Coordinate(ABS_X, 0, 0), Coordinate(ABS_Y, 0, 1);
    var c, d := Coordinate(ABS_X, 100, 61), Coordinate(ABS_Y, 100, 62);
    assert [] + [a] == [a];
    Snoc([], a);
    Snoc([a], b);
    Snoc([a] + [b], c);
    Snoc([a] + [b] + [c], d);
    StartOfRun();
    BothAnchored(INITIAL, FRESH);
    AfterPause(Final(INITIAL, [a] + [b]), Ends(FRESH, [a] + [b]));
  }

  lemma StartOfRun()
    ensures Final(INITIAL, []) == INITIAL && Ends(FRESH, []) == FRESH
  {}

  lemma CoordinateStep(s: Pad, d: Wrapper, code: nat, v: I32, ms: int)
    requires code == ABS_X || code == ABS_Y
    ensures var a := if code == ABS_X then X else Y;
            && Next(s, Coordinate(code, v, ms)) == MoveAxis(s, a, v, ms * MS)
            && After(d, Coordinate(code, v, ms)) == TrackMove(d, a, v, ms * MS)
  {
    hide MoveAxis, TrackMove;
  }

  /** A coordinate of each axis, 1 ms apart. */
  lemma BothAnchored(s: Pad, d: Wrapper)
    requires s.lastMove == d.lastMove == None && s.y == d.y == Axis(None, 0, 0.0)
    ensures var a, b := Coordinate(ABS_X, 0, 0), Coordinate(ABS_Y, 0, 1);
            && Next(Next(s, a), b).y == After(After(d, a), b).y == Axis(Some(0), 0, 0.0)
            && Next(Next(s, a), b).lastMove == After(After(d, a), b).lastMove == Some(MS)
  {
    hide Next, After, Wrap32;
    var a := Coordinate(ABS_X, 0, 0);
    CoordinateStep(s, d, ABS_X, 0, 0);
    CoordinateStep(Next(s, a), After(d, a), ABS_Y, 0, 1);
  }

  /** The same 60 ms later. */
  lemma AfterPause(s: Pad, d: Wrapper)
    requires s.lastMove == d.lastMove == Some(MS) && s.y == d.y == Axis(Some(0), 0, 0.0)
    ensures var a, b := Coordinate(ABS_X, 100, 61), Coordinate(ABS_Y, 100, 62);
            Next(Next(s, a), b).y.acc == 100 && After(After(d, a), b).y.acc == 0
  {
    hide Next, After, Wrap32;
    var a := Coordinate(ABS_X, 100, 61);
    CoordinateStep(s, d, ABS_X, 100, 61);
    CoordinateStep(Next(s, a), After(d, a), ABS_Y, 100, 62);
    WrapInRange(100);
  }
}
