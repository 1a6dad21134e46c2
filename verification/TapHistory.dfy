/** The tap flag summarises what happened since the finger came down. */
module TapHistory {
  import opened Basics
  import opened Events
  import opened Touchpad

  // ---- the history a tap depends on ----

  /** Event `k` is the latest touch event and it is a touch-down. */
  ghost predicate DownAt(ts: seq<Tick>, k: nat) {
    && k < |ts| && Decode(ts[k].ev) == Touch(true)
    && forall j :: k < j < |ts| ==> !Decode(ts[j].ev).Touch?
  }

  /** Handling this event gives a pending tap away: it runs under DWT, or it is a report
      outside a pinch that finds movement. */
  predicate Disturbs(s: Pad, t: Tick) {
    t.dwt || (Decode(t.ev).Report? && !s.pinch.active && s.Moved())
  }

  ghost predicate Undisturbed(s: Pad, ts: seq<Tick>, k: nat) {
    forall j :: k < j < |ts| ==> !Disturbs(Final(s, ts[..j]), ts[j])
  }

  /** A lift handled after `ts` clicks. */
  ghost predicate TapDue(s: Pad, ts: seq<Tick>, t: Tick) {
    && t.tap && !t.dwt
    && Final(s, ts).contact.fingers <= 1
    && exists k: nat :: DownAt(ts, k) && t.now - ts[k].now < 250 * MS && Undisturbed(s, ts, k)
  }

  // ---- the state that summarises it ----

  ghost predicate Summary(s: Pad, ts: seq<Tick>) {
    var c := Final(s, ts).contact;
    && (c.start.Some? <==> exists k: nat :: DownAt(ts, k))
    && (forall k: nat :: DownAt(ts, k) ==>
          c.start == Some(ts[k].now) && (c.tapEmitted <==> !Undisturbed(s, ts, k)))
  }

  lemma NextContact(s: Pad, t: Tick)
    ensures var c, d := s.contact, Next(s, t).contact;
            match Decode(t.ev)
            case Touch(down) =>
              d.active == down && if down then d.start == Some(t.now) && !d.tapEmitted else d.start == None
            case _ => d.active == c.active && d.start == c.start && (d.tapEmitted <==> c.tapEmitted || Disturbs(s, t))
  {
    hide Wrap32, AxisAfter, ActiveSlots;
  }

  lemma SummaryTouch(s: Pad, ts: seq<Tick>)
    requires ts != [] && Decode(ts[|ts| - 1].ev).Touch?
    ensures Summary(s, ts)
  {
    var n := |ts| - 1;
    NextContact(Final(s, ts[..n]), ts[n]);
    if Decode(ts[n].ev) == Touch(true) {
      assert DownAt(ts, n);
    }
    assert forall k: nat :: DownAt(ts, k) ==> k == n;
  }

  lemma DownBefore(s: Pad, ts: seq<Tick>, k: nat)
    requires ts != [] && !Decode(ts[|ts| - 1].ev).Touch?
    ensures DownAt(ts, k) <==> DownAt(ts[..|ts| - 1], k)
    ensures k < |ts| - 1 ==>
      (Undisturbed(s, ts, k) <==>
        Undisturbed(s, ts[..|ts| - 1], k) && !Disturbs(Final(s, ts[..|ts| - 1]), ts[|ts| - 1]))
  {
    hide Final, Disturbs;
    var n := |ts| - 1;
    assert forall j :: 0 <= j < n ==> ts[..n][..j] == ts[..j];
    assert forall j :: 0 <= j < n ==> ts[..n][j] == ts[j];
  }

  lemma SummaryOther(s: Pad, ts: seq<Tick>)
    requires ts != [] && !Decode(ts[|ts| - 1].ev).Touch?
    requires Summary(s, ts[..|ts| - 1])
    ensures Summary(s, ts)
  {
    var before, t := ts[..|ts| - 1], ts[|ts| - 1];
    NextContact(Final(s, before), t);
    assert Final(s, ts) == Next(Final(s, before), t);
    hide Final, Next, Undisturbed;
    forall k: nat
      ensures DownAt(ts, k) <==> DownAt(before, k)
      ensures DownAt(ts, k) ==>
        (Undisturbed(s, ts, k) <==> Undisturbed(s, before, k) && !Disturbs(Final(s, before), t))
    {
      DownBefore(s, ts, k);
    }
  }

  lemma {:induction false} SummaryRun(s: Pad, ts: seq<Tick>)
    requires s.contact.start == None
    ensures Summary(s, ts)
  {
    if ts != [] {
      if Decode(ts[|ts| - 1].ev).Touch? {
        SummaryTouch(s, ts);
      } else {
        SummaryRun(s, ts[..|ts| - 1]);
        SummaryOther(s, ts);
      }
    }
  }

  /** The contact is marked active exactly while the latest touch event is a touch-down. */
  lemma ActiveWhileDown(ts: seq<Tick>)
    ensures Final(INITIAL, ts).contact.active <==> exists k: nat :: DownAt(ts, k)
  {
    hide Next;
    SummaryRun(INITIAL, ts);
    ActiveIsStarted(ts);
  }

  lemma {:induction false} ActiveIsStarted(ts: seq<Tick>)
    ensures Final(INITIAL, ts).contact.active <==> Final(INITIAL, ts).contact.start.Some?
  {
    if ts != [] {
      var before := ts[..|ts| - 1];
      ActiveIsStarted(before);
      NextContact(Final(INITIAL, before), ts[|ts| - 1]);
    }
  }

  /** A lift emits the click exactly when the history calls for a tap. */
  lemma TapIffDue(s: Pad, ts: seq<Tick>, t: Tick)
    requires s.contact.start == None
    requires Decode(t.ev) == Touch(false)
    ensures Emits(Final(s, ts), t)
            == EndEvents(Final(s, ts), t.ev.timeUsec)
               + if TapDue(s, ts, t)
                 then [PointerButton(t.ev.timeUsec, BTN_LEFT, 1), PointerButton(t.ev.timeUsec, BTN_LEFT, 0)] else []
  {
    hide Final;
    SummaryRun(s, ts);
    var c := Final(s, ts).contact;
    assert TapDue(s, ts, t) <==> Taps(Guard(Final(s, ts), t.dwt).contact, t);
  }

  // ---- one tap per touch-down ----

  /** A lift that puts the click pair out, after the end of a pinch if there is one. */
  predicate IsTap(s: Pad, t: Tick) {
    Decode(t.ev) == Touch(false) && Emits(s, t) == EndEvents(s, t.ev.timeUsec) + TapClick(t.ev.timeUsec)
  }

  lemma TapGuard(s: Pad, t: Tick)
    requires Decode(t.ev) == Touch(false)
    ensures IsTap(s, t) <==> Taps(Guard(s, t.dwt).contact, t)
  {
    hide PrimaryDistSq, PrimaryAngle, ScaleSq;
  }

  function TapCount(s: Pad, ts: seq<Tick>): nat {
    if ts == [] then 0
    else TapCount(s, ts[..|ts| - 1]) + if IsTap(Final(s, ts[..|ts| - 1]), ts[|ts| - 1]) then 1 else 0
  }

  function Pending(s: Pad): nat {
    if s.contact.start.Some? then 1 else 0
  }

  /** Without a new touch-down there is at most one tap, and only if a touch-down was still
      pending: so each touch-down gives at most one tap, whatever lifts follow it. */
  lemma {:induction false} TapsSinceDown(s: Pad, ts: seq<Tick>)
    requires forall t :: t in ts ==> Decode(t.ev) != Touch(true)
    ensures TapCount(s, ts) + Pending(Final(s, ts)) <= Pending(s)
  {
    hide Next, IsTap;
    if ts != [] {
      var before, t := ts[..|ts| - 1], ts[|ts| - 1];
      TapsSinceDown(s, before);
      TapStep(Final(s, before), t);
    }
  }

  lemma TapStep(s: Pad, t: Tick)
    ensures var tap := if IsTap(s, t) then 1 else 0;
            if Decode(t.ev) == Touch(true) then tap == 0 && Pending(Next(s, t)) == 1
            else tap + Pending(Next(s, t)) <= Pending(s)
  {
    hide Next;
    NextContact(s, t);
    if Decode(t.ev) == Touch(false) { TapGuard(s, t); }
  }

  function DownCount(ts: seq<Tick>): nat {
    if ts == [] then 0
    else DownCount(ts[..|ts| - 1]) + if Decode(ts[|ts| - 1].ev) == Touch(true) then 1 else 0
  }

  /** Over a run there are never more taps than touch-downs, one still pending not counted. */
  lemma {:induction false} TapsPerDown(s: Pad, ts: seq<Tick>)
    ensures TapCount(s, ts) + Pending(Final(s, ts)) <= DownCount(ts) + Pending(s)
  {
    hide Next, IsTap;
    if ts != [] {
      TapsPerDown(s, ts[..|ts| - 1]);
      TapStep(Final(s, ts[..|ts| - 1]), ts[|ts| - 1]);
    }
  }
}
