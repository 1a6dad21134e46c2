/** Disable-while-typing: what it silences, and that nothing suppressed comes back. */
module Typing {
  import opened Basics
  import opened Events
  import opened Touchpad
  import opened PinchProtocol

  /** The events that are not silenced: a touch-down that begins a pinch, a lift that ends
      one, and a button event that stands for a pointer button. */
  predicate Passes(s: Pad, i: Input) {
    match i
    case Touch(down) => if down then ActiveCount(s.mt.slots) >= 2 && !s.pinch.active else s.pinch.active
    case Button(code, v) => IsPointerButton(MappedButton(s.contact.fingers, s.click, code, v))
    case _ => false
  }

  /** What comes out while typing when an event passes. */
  predicate Audible(e: LibEvent, i: Input) {
    match i
    case Touch(down) => if down then e.PinchBegin? else e.PinchEnd?
    case Button(_, v) => e.PointerButton? && e.state == AsU32(v)
    case _ => false
  }

  /** While typing an event is silenced exactly when it meets none of the three guards;
      otherwise it emits one event, of the kind that belongs to the guard. */
  lemma Silenced(s: Pad, t: Tick)
    requires t.dwt
    ensures Emits(s, t) == [] <==> !Passes(s, Decode(t.ev))
    ensures Passes(s, Decode(t.ev)) ==> |Emits(s, t)| == 1 && Audible(Emits(s, t)[0], Decode(t.ev))
  {
    hide ActiveSlots, PrimaryDistSq, PrimaryAngle, ScaleSq;
    TwoActive(s.mt.slots);
  }

  ghost predicate AllTyping(ts: seq<Tick>) {
    forall i :: 0 <= i < |ts| ==> ts[i].dwt
  }

  ghost predicate NonePasses(s: Pad, ts: seq<Tick>) {
    forall i :: 0 <= i < |ts| ==> !Passes(Final(s, ts[..i]), Decode(ts[i].ev))
  }

  lemma NonePassesLast(s: Pad, ts: seq<Tick>)
    requires ts != []
    ensures var before, t := ts[..|ts| - 1], ts[|ts| - 1];
            NonePasses(s, ts) <==> NonePasses(s, before) && !Passes(Final(s, before), Decode(t.ev))
  {
    hide Final, Passes, Decode;
    var n := |ts| - 1;
    assert forall i :: 0 <= i < n ==> ts[..n][..i] == ts[..i] && ts[..n][i] == ts[i];
  }

  /** A stretch of typing emits nothing exactly when no event of it meets a guard: then,
      and only then, touchpad input is suppressed altogether. */
  lemma {:induction false} SilencedRun(s: Pad, ts: seq<Tick>)
    requires AllTyping(ts)
    ensures Outputs(s, ts) == [] <==> NonePasses(s, ts)
  {
    hide Emits, Final, Passes, Decode, NonePasses;
    if ts == [] {
      NothingPasses(s);
    } else {
      var before := ts[..|ts| - 1];
      SilencedRun(s, before);
      NonePassesLast(s, ts);
      Silenced(Final(s, before), ts[|ts| - 1]);
    }
  }

  lemma NothingPasses(s: Pad)
    ensures NonePasses(s, [])
  {}

  /** What gets through is what would have been emitted without typing, less the tap. */
  lemma StillAudible(s: Pad, t: Tick)
    requires !Decode(t.ev).Report?
    ensures Emits(s, t.(dwt := true))
            == if Decode(t.ev) == Touch(false) then EndEvents(s, t.ev.timeUsec) else Emits(s, t.(dwt := false))
  {
    hide ActiveSlots, PrimaryDistSq, PrimaryAngle, ScaleSq;
  }

  /** Equal but for the counts and remainders that motion has left behind. */
  predicate SameButMotion(s: Pad, u: Pad) {
    s == u.(x := u.x.(acc := s.x.acc, rem := s.x.rem), y := u.y.(acc := s.y.acc, rem := s.y.rem))
  }

  lemma QuietStep(s: Pad, u: Pad, t: Tick)
    requires SameButMotion(s, u) && !Decode(t.ev).Report?
    ensures SameButMotion(Next(s, t), Next(u, t))
    ensures Emits(s, t) == Emits(u, t)
  {
    hide Wrap32, ActiveSlots, PrimaryDistSq, PrimaryAngle;
  }

  lemma {:induction false} QuietRun(s: Pad, u: Pad, ts: seq<Tick>)
    requires SameButMotion(s, u)
    requires forall i :: 0 <= i < |ts| ==> !Decode(ts[i].ev).Report?
    ensures SameButMotion(Final(s, ts), Final(u, ts))
    ensures Outputs(s, ts) == Outputs(u, ts)
  {
    if ts != [] {
      var before := ts[..|ts| - 1];
      QuietRun(s, u, before);
      QuietStep(Final(s, before), Final(u, before), ts[|ts| - 1]);
    }
  }

  lemma SuppressedReport(s: Pad, u: Pad, t: Tick)
    requires SameButMotion(s, u) && Decode(t.ev).Report? && t.dwt
    ensures Next(s, t) == Next(u, t) && Emits(s, t) == [] && Emits(u, t) == []
  {}

  /** A frame that ends in a suppressed report forgets all motion before it: two runs
      that differ only in that motion emit the same during the frame and, whatever
      follows, ever after. */
  lemma NoLeak(s: Pad, u: Pad, frame: seq<Tick>, later: seq<Tick>)
    requires SameButMotion(s, u)
    requires frame != []
    requires forall i :: 0 <= i < |frame| - 1 ==> !Decode(frame[i].ev).Report?
    requires Decode(frame[|frame| - 1].ev).Report? && frame[|frame| - 1].dwt
    ensures Outputs(s, frame) == Outputs(u, frame)
    ensures Final(s, frame) == Final(u, frame)
    ensures Outputs(Final(s, frame), later) == Outputs(Final(u, frame), later)
  {
    var before := frame[..|frame| - 1];
    QuietRun(s, u, before);
    SuppressedReport(Final(s, before), Final(u, before), frame[|frame| - 1]);
  }
}
