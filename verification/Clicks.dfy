/** Physical clicks pair up even when the finger count changes in between. */
module Clicks {
  import opened Basics
  import opened Events
  import opened Touchpad
  import D = Daemon

  /** The last value the hardware reported for a button. */
  function LastOf(ts: seq<Tick>, b: nat): I32 {
    if ts == [] then 0 else ValueAfter(LastOf(ts[..|ts| - 1], b), ts[|ts| - 1], b)
  }

  function ValueAfter(last: I32, t: Tick, b: nat): I32 {
    match Decode(t.ev)
    case Button(code, v) => if code == b then v else last
    case _ => last
  }

  /** Whether a button event comes in turn: down after up, up after down. */
  predicate InTurn(t: Tick, b: nat, last: I32) {
    match Decode(t.ev)
    case Button(code, v) => code == b ==> v == 1 - last
    case _ => true
  }

  predicate AllInTurn(ts: seq<Tick>, t: Tick) {
    && InTurn(t, BTN_LEFT, LastOf(ts, BTN_LEFT))
    && InTurn(t, BTN_RIGHT, LastOf(ts, BTN_RIGHT))
    && InTurn(t, BTN_MIDDLE, LastOf(ts, BTN_MIDDLE))
  }

  /** Every hardware button goes down and up in turn. */
  ghost predicate ClickPad(ts: seq<Tick>) {
    forall i :: 0 <= i < |ts| ==> AllInTurn(ts[..i], ts[i])
  }

  lemma ClickPadPrefix(ts: seq<Tick>)
    requires ts != [] && ClickPad(ts)
    ensures ClickPad(ts[..|ts| - 1]) && AllInTurn(ts[..|ts| - 1], ts[|ts| - 1])
  {
    hide AllInTurn;
    var n := |ts| - 1;
    assert forall i :: 0 <= i < n ==> ts[..n][..i] == ts[..i];
  }

  /** A right or middle button that the hardware itself holds down. */
  function Hardware(b: nat, last: I32): int {
    if b == BTN_RIGHT || b == BTN_MIDDLE then last else 0
  }

  function Press(e: LibEvent, b: nat): int {
    if e.PointerButton? && e.button == b then if e.state == 0 then -1 else 1 else 0
  }

  /** Presses minus releases of a button. */
  function Net(es: seq<LibEvent>, b: nat): int {
    if es == [] then 0 else Net(es[..|es| - 1], b) + Press(es[|es| - 1], b)
  }

  lemma {:induction false} NetConcat(x: seq<LibEvent>, y: seq<LibEvent>, b: nat)
    ensures Net(x + y, b) == Net(x, b) + Net(y, b)
  {
    if y == [] {
      assert x + y == x;
    } else {
      var n := |y| - 1;
      assert (x + y)[..|x| + n] == x + y[..n];
      NetConcat(x, y[..n], b);
    }
  }

  lemma {:induction false} NetQuiet(es: seq<LibEvent>, b: nat)
    requires forall e :: e in es ==> !e.PointerButton?
    ensures Net(es, b) == 0
  {
    if es != [] { NetQuiet(es[..|es| - 1], b); }
  }

  lemma NetOne(e: LibEvent, b: nat)
    ensures Net([e], b) == Press(e, b)
  {
    assert [e][..0] == [];
  }

  /** A tap is a press and a release: it leaves every balance alone. */
  lemma NetLift(s: Pad, t: Tick, b: nat)
    ensures Net(LiftEvents(s, t), b) == 0
  {
    var ts := t.ev.timeUsec;
    NetConcat(EndEvents(s, ts), TapEvents(s.contact, t), b);
    NetQuiet(EndEvents(s, ts), b);
    NetConcat([PointerButton(ts, BTN_LEFT, 1)], [PointerButton(ts, BTN_LEFT, 0)], b);
    NetOne(PointerButton(ts, BTN_LEFT, 1), b);
    NetOne(PointerButton(ts, BTN_LEFT, 0), b);
    assert TapClick(ts) == [PointerButton(ts, BTN_LEFT, 1)] + [PointerButton(ts, BTN_LEFT, 0)];
  }

  function Holding(click: Option<nat>, b: nat): int {
    if click == Some(b) then 1 else 0
  }

  /** The click that is held, if any, is held on a pointer button. */
  ghost predicate ClickState(s: Pad, left: I32) {
    if left == 0 then s.click == None
    else left == 1 && s.click.Some? && IsPointerButton(s.click.value)
  }

  /** A hardware button event, by the button it is reported as. */
  lemma ButtonBalance(fingers: nat, click: Option<nat>, code: nat, v: I32, left: I32, b: nat, last: I32, ts: nat)
    requires if left == 0 then click == None else left == 1 && click.Some? && IsPointerButton(click.value)
    requires code == BTN_LEFT ==> v == 1 - left
    requires (b == BTN_RIGHT || b == BTN_MIDDLE) ==> 0 <= last <= 1 && (code == b ==> v == 1 - last)
    ensures var after := ClickAfter(fingers, click, code, v);
            && (var l := if code == BTN_LEFT then v else left;
                if l == 0 then after == None else l == 1 && after.Some? && IsPointerButton(after.value))
            && Holding(click, b) + Hardware(b, last)
               + Net(ButtonEvents(MappedButton(fingers, click, code, v), v, ts), b)
               == Holding(after, b) + Hardware(b, if code == b then v else last)
  {
    hide Net;
    var m := MappedButton(fingers, click, code, v);
    NetOne(PointerButton(ts, m, AsU32(v)), b);
    NetQuiet([], b);
  }

  lemma ClickStep(s: Pad, t: Tick, left: I32, b: nat, last: I32)
    requires ClickState(s, left) && InTurn(t, BTN_LEFT, left)
    requires (b == BTN_RIGHT || b == BTN_MIDDLE) ==> 0 <= last <= 1 && InTurn(t, b, last)
    ensures ClickState(Next(s, t), ValueAfter(left, t, BTN_LEFT))
    ensures Holding(s.click, b) + Hardware(b, last) + Net(Emits(s, t), b)
            == Holding(Next(s, t).click, b) + Hardware(b, ValueAfter(last, t, b))
  {
    hide Wrap32, AxisAfter, ActiveSlots, PrimaryDistSq, Units, LiftEvents, Kind, Net, MappedButton, ClickAfter,
      ButtonEvents, Holding, Hardware;
    var g := Guard(s, t.dwt);
    match Decode(t.ev)
    case Touch(down) =>
      if down { NetQuiet(TouchDownEvents(g, t.ev.timeUsec), b); } else { NetLift(g, t, b); }
    case Button(code, v) => ButtonBalance(s.contact.fingers, s.click, code, v, left, b, last, t.ev.timeUsec);
    case Report => NetQuiet(ReportEvents(g, t), b);
    case _ => NetQuiet([], b);
  }

  lemma {:induction false} LastIsBit(ts: seq<Tick>, b: nat)
    requires ClickPad(ts) && IsPointerButton(b)
    ensures 0 <= LastOf(ts, b) <= 1
  {
    if ts != [] {
      ClickPadPrefix(ts);
      LastIsBit(ts[..|ts| - 1], b);
    }
  }

  /** After every event, presses minus releases of a button is 1 if the device holds that
      button for a click, plus 1 if the hardware holds that very button. So it is the
      click alone, 0 or 1, exactly while no hardware right or middle button is down. */
  lemma {:induction false} ClickBalance(ts: seq<Tick>, b: nat)
    requires ClickPad(ts)
    ensures ClickState(Final(INITIAL, ts), LastOf(ts, BTN_LEFT))
    ensures Net(Outputs(INITIAL, ts), b) == Holding(Final(INITIAL, ts).click, b) + Hardware(b, LastOf(ts, b))
  {
    hide ClickPad, Next, Emits, InTurn, ValueAfter, ClickState;
    if ts == [] {
      FreshClick();
    } else {
      var before, t := ts[..|ts| - 1], ts[|ts| - 1];
      ClickPadPrefix(ts);
      ClickBalance(before, b);
      if IsPointerButton(b) { LastIsBit(before, b); }
      ClickStep(Final(INITIAL, before), t, LastOf(before, BTN_LEFT), b, LastOf(before, b));
      NetConcat(Outputs(INITIAL, before), Emits(Final(INITIAL, before), t), b);
    }
  }

  lemma FreshClick()
    ensures ClickState(INITIAL, 0)
  {}

  /** The button that the last BTN_LEFT press of a run was reported as. */
  function LastPressed(s: Pad, ts: seq<Tick>): Option<nat> {
    if ts == [] then None
    else
      var before, t := ts[..|ts| - 1], ts[|ts| - 1];
      match Decode(t.ev)
      case Button(code, v) =>
        var es := Emits(Final(s, before), t);
        if code == BTN_LEFT && v == 1 && |es| == 1 && es[0].PointerButton? then Some(es[0].button)
        else LastPressed(s, before)
      case _ => LastPressed(s, before)
  }

  lemma {:induction false} HeldIsPressed(ts: seq<Tick>)
    requires ClickPad(ts)
    ensures LastOf(ts, BTN_LEFT) == 1 ==> Final(INITIAL, ts).click == LastPressed(INITIAL, ts)
  {
    if ts != [] {
      hide ClickPad, Next, Emits;
      var before := ts[..|ts| - 1];
      ClickPadPrefix(ts);
      HeldIsPressed(before);
      LastIsBit(before, BTN_LEFT);
      PressStep(Final(INITIAL, before), ts[|ts| - 1]);
    }
  }

  lemma PressStep(s: Pad, t: Tick)
    ensures match Decode(t.ev)
            case Button(code, v) =>
              code == BTN_LEFT && v == 1 ==>
                Next(s, t).click.Some?
                && Emits(s, t) == [PointerButton(t.ev.timeUsec, Next(s, t).click.value, 1)]
            case _ => Next(s, t).click == s.click
    ensures Decode(t.ev).Button? && Decode(t.ev).code != BTN_LEFT ==> Next(s, t).click == s.click
  {
    hide Wrap32, AxisAfter, ActiveSlots, PrimaryDistSq, Units, Kind;
  }

  /** Every release names the button of its press. */
  lemma ReleaseNamesPress(ts: seq<Tick>, t: Tick)
    requires ClickPad(ts + [t]) && Decode(t.ev) == Button(BTN_LEFT, 0)
    ensures LastPressed(INITIAL, ts).Some?
    ensures Emits(Final(INITIAL, ts), t)
            == [PointerButton(t.ev.timeUsec, LastPressed(INITIAL, ts).value, 0)]
  {
    hide Final, LastPressed, Kind, ClickPad;
    assert (ts + [t])[..|ts|] == ts && (ts + [t])[|ts|] == t;
    ClickPadPrefix(ts + [t]);
    HeldIsPressed(ts);
    ClickBalance(ts, BTN_LEFT);
  }

  // ---- the daemon ----

  function Written(u: D.UEvent, b: nat): int {
    if u.eventType == KEY && u.code == b then if u.value == 0 then -1 else 1 else 0
  }

  function NetWritten(us: seq<D.UEvent>, b: nat): int {
    if us == [] then 0 else Written(us[0], b) + NetWritten(us[1..], b)
  }

  function RunWritten(d: D.Wrapper, ts: seq<Tick>, b: nat): int {
    if ts == [] then 0
    else
      var before := ts[..|ts| - 1];
      RunWritten(d, before, b) + NetWritten(D.Writes(D.Ends(d, before), ts[|ts| - 1]), b)
  }

  lemma {:induction false} NoKeys(us: seq<D.UEvent>, b: nat)
    requires forall u :: u in us ==> u.eventType != KEY
    ensures NetWritten(us, b) == 0
  {
    if us != [] { NoKeys(us[1..], b); }
  }

  lemma TapWritten(c: Contact, t: Tick, b: nat)
    ensures NetWritten(D.TapWrites(c, t), b) == 0
  {
    if D.TapsNow(c, t) {
      var us := D.TapWrites(c, t);
      assert us == [us[0]] + ([us[1]] + [us[2]]) && us[1..] == [us[1]] + [us[2]] && us[1..][1..] == [us[2]];
      assert NetWritten([us[2]], b) == Written(us[2], b);
      assert NetWritten(us[1..], b) == Written(us[1], b) + NetWritten([us[2]], b);
    }
  }

  ghost predicate HeldState(d: D.Wrapper, left: I32) {
    if left == 0 then d.click == None
    else left == 1 && d.click.Some? && IsPointerButton(d.click.value)
  }

  lemma WriteStep(d: D.Wrapper, t: Tick, left: I32, b: nat, last: I32)
    requires HeldState(d, left) && InTurn(t, BTN_LEFT, left)
    requires (b == BTN_RIGHT || b == BTN_MIDDLE) ==> 0 <= last <= 1 && InTurn(t, b, last)
    ensures HeldState(D.After(d, t), ValueAfter(left, t, BTN_LEFT))
    ensures Holding(d.click, b) + Hardware(b, last) + NetWritten(D.Writes(d, t), b)
            == Holding(D.After(d, t).click, b) + Hardware(b, ValueAfter(last, t, b))
  {
    hide Wrap32, Units;
    match D.Sees(t.ev)
    case Touch(down) => if !down { TapWritten(D.Watch(d, t.dwt).contact, t, b); }
    case Button(code, v) =>
      var m := D.ButtonFor(d.contact.fingers, d.click, code, v);
      if IsPointerButton(m) { assert D.ButtonWrites(m, v)[1..] == []; }
    case _ => NoKeys(D.Writes(d, t), b);
  }

  /** The daemon's clicks balance in the same way. */
  lemma {:induction false} DaemonClickBalance(ts: seq<Tick>, b: nat)
    requires ClickPad(ts)
    ensures HeldState(D.Ends(D.FRESH, ts), LastOf(ts, BTN_LEFT))
    ensures RunWritten(D.FRESH, ts, b) == Holding(D.Ends(D.FRESH, ts).click, b) + Hardware(b, LastOf(ts, b))
  {
    hide ClickPad, D.After, D.Writes, InTurn, ValueAfter;
    if ts != [] {
      var before, t := ts[..|ts| - 1], ts[|ts| - 1];
      ClickPadPrefix(ts);
      DaemonClickBalance(before, b);
      if IsPointerButton(b) { LastIsBit(before, b); }
      WriteStep(D.Ends(D.FRESH, before), t, LastOf(before, BTN_LEFT), b, LastOf(before, b));
    }
  }

  /** The button that the last BTN_LEFT press of a run was written as. */
  function LastWritten(d: D.Wrapper, ts: seq<Tick>): Option<nat> {
    if ts == [] then None
    else
      var before, t := ts[..|ts| - 1], ts[|ts| - 1];
      match Decode(t.ev)
      case Button(code, v) =>
        var us := D.Writes(D.Ends(d, before), t);
        if code == BTN_LEFT && v == 1 && |us| == 1 && us[0].eventType == KEY then Some(us[0].code)
        else LastWritten(d, before)
      case _ => LastWritten(d, before)
  }

  lemma WrittenPress(d: D.Wrapper, t: Tick)
    ensures match Decode(t.ev)
            case Button(code, v) =>
              code == BTN_LEFT && v == 1 ==>
                D.After(d, t).click.Some?
                && D.Writes(d, t) == [D.UEvent.UEvent(KEY, D.After(d, t).click.value, 1)]
            case _ => D.After(d, t).click == d.click
    ensures Decode(t.ev).Button? && Decode(t.ev).code != BTN_LEFT ==> D.After(d, t).click == d.click
  {
    hide Wrap32, Units;
  }

  lemma {:induction false} HeldIsWritten(ts: seq<Tick>)
    requires ClickPad(ts)
    ensures LastOf(ts, BTN_LEFT) == 1 ==> D.Ends(D.FRESH, ts).click == LastWritten(D.FRESH, ts)
  {
    hide ClickPad, D.After, D.Writes;
    if ts != [] {
      var before := ts[..|ts| - 1];
      ClickPadPrefix(ts);
      HeldIsWritten(before);
      LastIsBit(before, BTN_LEFT);
      WrittenPress(D.Ends(D.FRESH, before), ts[|ts| - 1]);
    }
  }

  /** In the daemon too a release names the button of its press. */
  lemma DaemonReleaseNamesPress(ts: seq<Tick>, t: Tick)
    requires ClickPad(ts + [t]) && Decode(t.ev) == Button(BTN_LEFT, 0)
    ensures LastWritten(D.FRESH, ts).Some?
    ensures D.Writes(D.Ends(D.FRESH, ts), t) == [D.UEvent.UEvent(KEY, LastWritten(D.FRESH, ts).value, 0)]
  {
    hide D.Ends, LastWritten, ClickPad;
    assert (ts + [t])[..|ts|] == ts && (ts + [t])[|ts|] == t;
    ClickPadPrefix(ts + [t]);
    HeldIsWritten(ts);
    DaemonClickBalance(ts, BTN_LEFT);
  }
}
