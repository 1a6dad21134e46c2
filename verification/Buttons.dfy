/** When the two programs report a physical click as the same button. */
module Buttons {
  import opened Basics
  import opened Events
  import opened Touchpad
  import opened Daemon
  import opened Simulation
  import opened SlotLog
  import opened Scenarios

  // ---- the fingers each program counts, read off the history ----

  /** The slot table that the history leaves. */
  function LoggedSlots(ts: seq<Tick>): seq<MtSlot> {
    seq(SLOTS, k requires 0 <= k < SLOTS => SlotFromLog(ts, k))
  }

  /** The library counts slots at a touch-down and knows of four fingers. */
  function LibraryCount(ts: seq<Tick>): nat {
    if ts == [] then 0
    else
      var before := ts[..|ts| - 1];
      match Decode(ts[|ts| - 1].ev)
      case Touch(down) => if down then Max(ActiveCount(LoggedSlots(before)), 1) else 0
      case Tool(n) => n
      case _ => LibraryCount(before)
  }

  /** The daemon takes a touch-down for one finger and does not know of four. */
  function DaemonCount(ts: seq<Tick>): nat {
    if ts == [] then 0
    else
      var before, t := ts[..|ts| - 1], ts[|ts| - 1];
      match Decode(t.ev)
      case Touch(down) => if down then 1 else 0
      case Tool(n) => if t.ev.code == BTN_TOOL_QUADTAP then DaemonCount(before) else n
      case _ => DaemonCount(before)
  }

  lemma LogIsTable(ts: seq<Tick>)
    ensures LoggedSlots(ts) == Final(INITIAL, ts).mt.slots
  {
    hide Final, SlotFromLog;
    TableRefinesLog(ts);
  }

  lemma NextCounts(s: Pad, d: Wrapper, t: Tick)
    ensures Next(s, t).contact.fingers
            == match Decode(t.ev)
               case Touch(down) => (if down then LandedFingers(s.mt.slots) else 0)
               case Tool(n) => n
               case _ => s.contact.fingers
    ensures After(d, t).contact.fingers
            == match Decode(t.ev)
               case Touch(down) => (if down then 1 else 0)
               case Tool(n) => (if t.ev.code == BTN_TOOL_QUADTAP then d.contact.fingers else n)
               case _ => d.contact.fingers
  {
    hide Wrap32, ActiveSlots, AxisAfter, Kind, Units, Consume;
  }

  /** The counts are those the two programs keep; the daemon's never exceeds three. */
  lemma {:induction false} CountsAreFingers(ts: seq<Tick>)
    ensures Final(INITIAL, ts).contact.fingers == LibraryCount(ts)
    ensures Ends(FRESH, ts).contact.fingers == DaemonCount(ts) <= 3
  {
    hide Next, After, ActiveSlots, LoggedSlots;
    if ts != [] {
      var before, t := ts[..|ts| - 1], ts[|ts| - 1];
      CountsAreFingers(before);
      LogIsTable(before);
      NextCounts(Final(INITIAL, before), Ends(FRESH, before), t);
    }
  }

  // ---- the button a press stands for ----

  predicate SameChoice(library: nat, daemon: nat) {
    (library == 2 <==> daemon == 2) && (library >= 3 <==> daemon == 3)
  }

  predicate IsPress(i: Input) {
    i.Button? && i.code == BTN_LEFT && i.value != 0
  }

  /** A press for which the two programs count fingers to the same effect. */
  predicate CountsAlike(before: seq<Tick>, t: Tick) {
    IsPress(Decode(t.ev)) ==> SameChoice(LibraryCount(before), DaemonCount(before))
  }

  /** A hardware button event comes out as the same button with the same state. */
  predicate ReportsAlike(before: seq<Tick>, t: Tick) {
    Decode(t.ev).Button? ==>
      LibActs(Emits(Final(INITIAL, before), t)) == Fold(Writes(Ends(FRESH, before), t))
  }

  ghost predicate AllCountAlike(ts: seq<Tick>) {
    forall i :: 0 <= i < |ts| ==> CountsAlike(ts[..i], ts[i])
  }

  ghost predicate AllReportAlike(ts: seq<Tick>) {
    forall i :: 0 <= i < |ts| ==> ReportsAlike(ts[..i], ts[i])
  }

  /** The programs hold the same click after every event. */
  ghost predicate ClicksThroughout(ts: seq<Tick>) {
    forall i :: 0 <= i <= |ts| ==> Final(INITIAL, ts[..i]).click == Ends(FRESH, ts[..i]).click
  }

  lemma LastOfRun(ts: seq<Tick>)
    requires ts != []
    ensures var before, t := ts[..|ts| - 1], ts[|ts| - 1];
            && (AllCountAlike(ts) <==> (AllCountAlike(before) && CountsAlike(before, t)))
            && (AllReportAlike(ts) <==> (AllReportAlike(before) && ReportsAlike(before, t)))
            && (ClicksThroughout(ts) <==>
                (ClicksThroughout(before) && Final(INITIAL, ts).click == Ends(FRESH, ts).click))
            && (ClicksThroughout(before) ==> Final(INITIAL, before).click == Ends(FRESH, before).click)
  {
    hide Final, Ends, CountsAlike, ReportsAlike;
    var n := |ts| - 1;
    assert forall i :: 0 <= i <= n ==> ts[..n][..i] == ts[..i];
    assert forall i :: 0 <= i < n ==> ts[..n][i] == ts[i];
    assert ts[..|ts|] == ts && ts[..n][..n] == ts[..n];
  }

  /** One event from states that hold the same click. */
  lemma StepButton(s: Pad, d: Wrapper, t: Tick)
    requires s.click == d.click && d.contact.fingers <= 3
    ensures var alike := IsPress(Decode(t.ev)) ==> SameChoice(s.contact.fingers, d.contact.fingers);
            && (Next(s, t).click == After(d, t).click <==> alike)
            && (Decode(t.ev).Button? ==> (LibActs(Emits(s, t)) == Fold(Writes(d, t)) <==> alike))
  {
    hide Wrap32, ActiveSlots, AxisAfter, Kind, Units, Consume, PrimaryDistSq;
    match Decode(t.ev)
    case Button(code, v) =>
      var m, n := MappedButton(s.contact.fingers, s.click, code, v), ButtonFor(d.contact.fingers, d.click, code, v);
      ButtonActs(m, n, v, t.ev.timeUsec);
    case _ =>
  }

  lemma ButtonActs(m: nat, n: nat, v: I32, ts: nat)
    ensures LibActs(ButtonEvents(m, v, ts)) == if IsPointerButton(m) then [Click(m, AsU32(v))] else []
    ensures Fold(ButtonWrites(n, v)) == if IsPointerButton(n) then [Click(n, AsU32(v))] else []
  {
    LibActsOne(PointerButton(ts, m, AsU32(v)));
    if IsPointerButton(n) { assert ButtonWrites(n, v)[1..] == []; }
  }

  /** For any stream: the programs hold the same click throughout exactly when they report
      every hardware button event alike, and exactly when at every BTN_LEFT press both
      count two fingers or neither does, and both count three or more or neither does. */
  lemma {:induction false} SameButtons(ts: seq<Tick>)
    ensures ClicksThroughout(ts) <==> AllCountAlike(ts)
    ensures AllReportAlike(ts) <==> AllCountAlike(ts)
  {
    hide Next, After, Emits, Writes, LibActs, Fold, LibraryCount, DaemonCount, AllCountAlike, AllReportAlike,
      ClicksThroughout, Final, Ends;
    if ts == [] {
      SameAtStart();
    } else {
      var before, t := ts[..|ts| - 1], ts[|ts| - 1];
      SameButtons(before);
      LastOfRun(ts);
      LastStates(ts);
      CountsAreFingers(before);
      if ClicksThroughout(before) { StepButton(Final(INITIAL, before), Ends(FRESH, before), t); }
    }
  }

  lemma LastStates(ts: seq<Tick>)
    requires ts != []
    ensures Final(INITIAL, ts) == Next(Final(INITIAL, ts[..|ts| - 1]), ts[|ts| - 1])
    ensures Ends(FRESH, ts) == After(Ends(FRESH, ts[..|ts| - 1]), ts[|ts| - 1])
  {}

  lemma SameAtStart()
    ensures ClicksThroughout([]) && AllCountAlike([]) && AllReportAlike([])
  {}

  /** BTN_LEFT stands for the button that the fingers choose: two the right one, three the
      middle one, and in the library so do more. BTN_RIGHT and BTN_MIDDLE stand for
      themselves, and other buttons for nothing. */
  lemma ButtonOfHistory(ts: seq<Tick>, t: Tick)
    requires Decode(t.ev).Button?
    ensures var library, daemon := LibraryCount(ts), DaemonCount(ts);
            var es, us := Emits(Final(INITIAL, ts), t), Writes(Ends(FRESH, ts), t);
            var code, v, at := t.ev.code, t.ev.value, t.ev.timeUsec;
            if code == 0x110 && v != 0 then
              && es == [PointerButton(at, if library == 2 then 0x111 else if library >= 3 then 0x112 else 0x110,
                                      AsU32(v))]
              && us == [UEvent(KEY, if daemon == 2 then 0x111 else if daemon == 3 then 0x112 else 0x110, v)]
            else if code == 0x111 || code == 0x112 then
              es == [PointerButton(at, code, AsU32(v))] && us == [UEvent(KEY, code, v)]
            else code != 0x110 ==> es == [] && us == []
  {
    hide Final, Ends, LibraryCount, DaemonCount, Wrap32, ActiveSlots;
    CountsAreFingers(ts);
  }

  // ---- two streams on which they differ ----

  const PRESS: Tick := At(KEY, BTN_LEFT, 1, false)

  lemma DaemonSnoc(ts: seq<Tick>, t: Tick)
    ensures Ends(FRESH, ts + [t]) == After(Ends(FRESH, ts), t)
  {
    assert (ts + [t])[..|ts|] == ts;
  }

  /** Two fingers that land together: the library sees both, the daemon one. */
  lemma TwoFingerClick()
    ensures var ts := TWO_FINGERS + [TOUCH];
            && Emits(Final(INITIAL, ts), PRESS) == [PointerButton(0, BTN_RIGHT, 1)]
            && Writes(Ends(FRESH, ts), PRESS) == [UEvent(KEY, BTN_LEFT, 1)]
  {
    hide ActiveSlots, Final, Ends;
    var ts := TWO_FINGERS + [TOUCH];
    TwoFingers();
    Scenarios.Snoc(INITIAL, TWO_FINGERS, TOUCH);
    DaemonSnoc(TWO_FINGERS, TOUCH);
    NextCounts(Final(INITIAL, TWO_FINGERS), Ends(FRESH, TWO_FINGERS), TOUCH);
    PressButton(Final(INITIAL, ts), Ends(FRESH, ts));
  }

  /** A fourth finger: the kernel takes back TRIPLETAP and reports QUADTAP. */
  lemma FourFingerClick()
    ensures var ts := [TOUCH] + [At(KEY, BTN_TOOL_TRIPLETAP, 1, false)] + [At(KEY, BTN_TOOL_TRIPLETAP, 0, false)]
                      + [At(KEY, BTN_TOOL_QUADTAP, 1, false)];
            && Emits(Final(INITIAL, ts), PRESS) == [PointerButton(0, BTN_MIDDLE, 1)]
            && Writes(Ends(FRESH, ts), PRESS) == [UEvent(KEY, BTN_RIGHT, 1)]
  {
    hide ActiveSlots, Final, Ends;
    var a, b, c := At(KEY, BTN_TOOL_TRIPLETAP, 1, false), At(KEY, BTN_TOOL_TRIPLETAP, 0, false),
                   At(KEY, BTN_TOOL_QUADTAP, 1, false);
    var ts := [TOUCH] + [a] + [b];
    Scenarios.Snoc(INITIAL, ts, c);
    DaemonSnoc([TOUCH] + [a], b);
    DaemonSnoc(ts, c);
    NextCounts(Final(INITIAL, ts), Ends(FRESH, ts), c);
    NextCounts(Final(INITIAL, [TOUCH] + [a]), Ends(FRESH, [TOUCH] + [a]), b);
    PressButton(Final(INITIAL, ts + [c]), Ends(FRESH, ts + [c]));
  }

  lemma PressButton(s: Pad, d: Wrapper)
    ensures Emits(s, PRESS) == [PointerButton(0, if s.contact.fingers == 2 then BTN_RIGHT
                                                 else if s.contact.fingers >= 3 then BTN_MIDDLE else BTN_LEFT, 1)]
    ensures Writes(d, PRESS) == [UEvent(KEY, if d.contact.fingers == 2 then BTN_RIGHT
                                             else if d.contact.fingers == 3 then BTN_MIDDLE else BTN_LEFT, 1)]
  {}
}
