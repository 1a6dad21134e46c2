/** When the daemon's touchpad clicks for a tap, read off the history. */
module DaemonTaps {
  import opened Basics
  import opened Events
  import opened Touchpad
  import opened Daemon
  import opened TapHistory

  /** Handling this event gives a pending tap away: it runs under DWT, or it is a report
      that finds movement. */
  predicate Spoils(d: Wrapper, t: Tick) {
    t.dwt || (Decode(t.ev).Report? && (d.x.acc != 0 || d.y.acc != 0))
  }

  ghost predicate Unspoilt(ts: seq<Tick>, k: nat) {
    forall j :: k < j < |ts| ==> !Spoils(Ends(FRESH, ts[..j]), ts[j])
  }

  /** The latest touch event is a touch-down under 250 ms ago, and nothing has given the tap
      away since. Here the fingers are not counted. */
  ghost predicate ClickDue(ts: seq<Tick>, t: Tick) {
    && t.tap && !t.dwt
    && exists k: nat :: DownAt(ts, k) && t.now - ts[k].now < 250 * MS && Unspoilt(ts, k)
  }

  ghost predicate Recalls(ts: seq<Tick>) {
    var c := Ends(FRESH, ts).contact;
    && (c.active <==> c.start.Some?)
    && (c.start.Some? <==> exists k: nat :: DownAt(ts, k))
    && (forall k: nat :: DownAt(ts, k) ==> c.start == Some(ts[k].now) && (c.tapEmitted <==> !Unspoilt(ts, k)))
  }

  lemma AfterContact(d: Wrapper, t: Tick)
    ensures var c, e := d.contact, After(d, t).contact;
            match Decode(t.ev)
            case Touch(down) =>
              e.active == down && if down then e.start == Some(t.now) && !e.tapEmitted else e.start == None
            case _ => e.active == c.active && e.start == c.start && (e.tapEmitted <==> c.tapEmitted || Spoils(d, t))
  {
    hide Wrap32, Consume;
  }

  lemma RecallsTouch(ts: seq<Tick>)
    requires ts != [] && Decode(ts[|ts| - 1].ev).Touch?
    ensures Recalls(ts)
  {
    var n := |ts| - 1;
    AfterContact(Ends(FRESH, ts[..n]), ts[n]);
    if Decode(ts[n].ev) == Touch(true) { assert DownAt(ts, n); }
    assert forall k: nat :: DownAt(ts, k) ==> k == n;
  }

  lemma DownEarlier(ts: seq<Tick>, k: nat)
    requires ts != [] && !Decode(ts[|ts| - 1].ev).Touch?
    ensures var before, t := ts[..|ts| - 1], ts[|ts| - 1];
            && (DownAt(ts, k) <==> DownAt(before, k))
            && (DownAt(ts, k) ==> (Unspoilt(ts, k) <==> Unspoilt(before, k) && !Spoils(Ends(FRESH, before), t)))
  {
    hide Ends, Spoils;
    var n := |ts| - 1;
    assert forall j :: 0 <= j < n ==> ts[..n][..j] == ts[..j] && ts[..n][j] == ts[j];
  }

  lemma {:induction false} AlwaysRecalls(ts: seq<Tick>)
    ensures Recalls(ts)
  {
    if ts == [] {
    } else if Decode(ts[|ts| - 1].ev).Touch? {
      RecallsTouch(ts);
    } else {
      AlwaysRecalls(ts[..|ts| - 1]);
      RecallsOther(ts);
    }
  }

  lemma RecallsOther(ts: seq<Tick>)
    requires ts != [] && !Decode(ts[|ts| - 1].ev).Touch? && Recalls(ts[..|ts| - 1])
    ensures Recalls(ts)
  {
    var before, t := ts[..|ts| - 1], ts[|ts| - 1];
    AfterContact(Ends(FRESH, before), t);
    assert Ends(FRESH, ts) == After(Ends(FRESH, before), t);
    hide Ends, After, Unspoilt;
    forall k: nat
      ensures DownAt(ts, k) <==> DownAt(before, k)
      ensures DownAt(ts, k) ==> (Unspoilt(ts, k) <==> Unspoilt(before, k) && !Spoils(Ends(FRESH, before), t))
    {
      DownEarlier(ts, k);
    }
  }

  /** A lift writes the left button down and up, with a report between, exactly when the
      history calls for a tap; otherwise it writes nothing. */
  lemma ClickIffDue(ts: seq<Tick>, t: Tick)
    requires Decode(t.ev) == Touch(false)
    ensures Writes(Ends(FRESH, ts), t)
            == if ClickDue(ts, t)
               then [UEvent(KEY, BTN_LEFT, 1), UEvent(SYNCHRONIZATION, SYN_REPORT, 0), UEvent(KEY, BTN_LEFT, 0)]
               else []
  {
    hide Ends;
    AlwaysRecalls(ts);
    var c := Ends(FRESH, ts).contact;
    assert ClickDue(ts, t) <==> TapsNow(Watch(Ends(FRESH, ts), t.dwt).contact, t);
  }
}
