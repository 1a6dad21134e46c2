/** The path a finger traces, read off the event history alone. */
module Paths {
  import opened Basics
  import opened Touchpad

  /** When the last coordinate of either axis arrived. */
  function LastMoveAt(ts: seq<Tick>): Option<Time> {
    if ts == [] then None
    else
      var t := ts[|ts| - 1];
      if Decode(t.ev).Move? then Some(t.now) else LastMoveAt(ts[..|ts| - 1])
  }

  /** More than 50 ms passed since the last coordinate of either axis. */
  predicate Gap(before: seq<Tick>, now: Time) {
    LastMoveAt(before).Some? && now - LastMoveAt(before).value > 50 * MS
  }

  /** Whether the next coordinate of `a` can still be compared with the previous one:
      no finger came down or lifted since. With `shared` stalls, a gap before a
      coordinate of either axis breaks both. */
  predicate Held(ts: seq<Tick>, a: AxisId, shared: bool) {
    if ts == [] then false
    else
      var before, t := ts[..|ts| - 1], ts[|ts| - 1];
      match Decode(t.ev)
      case Move(b, _) => b == a || (Held(before, a, shared) && !(shared && Gap(before, t.now)))
      case Touch(_) => false
      case _ => Held(before, a, shared)
  }

  /** The coordinates of `a`, cut into stall-free stretches. */
  function Segments(ts: seq<Tick>, a: AxisId, shared: bool): (r: seq<seq<I32>>)
    ensures forall i :: 0 <= i < |r| ==> r[i] != []
    ensures Held(ts, a, shared) ==> r != []
  {
    if ts == [] then []
    else
      var before, t := ts[..|ts| - 1], ts[|ts| - 1];
      var segs := Segments(before, a, shared);
      match Decode(t.ev)
      case Move(b, v) =>
        if b != a then segs
        else AddCoordinate(segs, Held(before, a, shared) && !Gap(before, t.now), v)
      case _ => segs
  }

  function Span(seg: seq<I32>): int
    requires seg != []
  {
    Tip(seg) as int - seg[0]
  }

  function Tip(seg: seq<I32>): I32
    requires seg != []
  {
    seg[|seg| - 1]
  }

  /** A coordinate joins the current stretch or starts a new one. */
  function AddCoordinate(segs: seq<seq<I32>>, joins: bool, v: I32): (r: seq<seq<I32>>)
    requires joins ==> segs != []
    requires forall i :: 0 <= i < |segs| ==> segs[i] != []
    ensures r != [] && forall i :: 0 <= i < |r| ==> r[i] != []
  {
    if joins then segs[..|segs| - 1] + [segs[|segs| - 1] + [v]] else segs + [[v]]
  }

  /** The displacement along an axis: last minus first, summed over the stretches. */
  function Travel(segs: seq<seq<I32>>): int
    requires forall i :: 0 <= i < |segs| ==> segs[i] != []
  {
    if segs == [] then 0 else Travel(segs[..|segs| - 1]) + Span(segs[|segs| - 1])
  }

  /** How many stretches of `a` have fed the current frame. */
  function FrameStretches(ts: seq<Tick>, a: AxisId, shared: bool): nat {
    if ts == [] then 0
    else
      var before, t := ts[..|ts| - 1], ts[|ts| - 1];
      var n, held := FrameStretches(before, a, shared), Held(before, a, shared);
      match Decode(t.ev)
      case Move(b, _) => if b == a && !(held && !Gap(before, t.now)) then n + 1 else n
      case Touch(down) => if down then n else 0
      case Report => if held then 1 else 0
      case _ => n
  }

  /** Coordinates lie in [lo, hi], and no frame is fed from so many stretches that its
      counts could leave i32. */
  ghost predicate InRange(ts: seq<Tick>, a: AxisId, shared: bool, lo: I32, hi: I32) {
    && lo <= hi
    && (forall i :: 0 <= i < |ts| && Decode(ts[i].ev).Move? && Decode(ts[i].ev).axis == a ==>
          lo <= Decode(ts[i].ev).value <= hi)
    && (forall i :: 0 <= i <= |ts| ==> FrameStretches(ts[..i], a, shared) * (hi - lo) <= 0x7FFF_FFFF)
  }

  lemma InRangeUpTo(ts: seq<Tick>, n: nat, a: AxisId, shared: bool, lo: I32, hi: I32)
    requires n <= |ts| && InRange(ts, a, shared, lo, hi)
    ensures InRange(ts[..n], a, shared, lo, hi)
    ensures FrameStretches(ts[..n], a, shared) * (hi - lo) <= 0x7FFF_FFFF
  {
    hide FrameStretches, Decode;
    assert forall i :: 0 <= i <= n ==> ts[..n][..i] == ts[..i];
  }

  /** The last event of a history, one definition at a time. */
  lemma Unfold(ts: seq<Tick>, a: AxisId, shared: bool)
    requires ts != []
    ensures var before, t := ts[..|ts| - 1], ts[|ts| - 1];
            var m := Decode(t.ev);
            && LastMoveAt(ts) == (if m.Move? then Some(t.now) else LastMoveAt(before))
            && Held(ts, a, shared)
               == (if m.Move? then m.axis == a || (Held(before, a, shared) && !(shared && Gap(before, t.now)))
                   else !m.Touch? && Held(before, a, shared))
            && Segments(ts, a, shared)
               == if m.Move? && m.axis == a
                  then AddCoordinate(Segments(before, a, shared), Held(before, a, shared) && !Gap(before, t.now),
                                     m.value)
                  else Segments(before, a, shared)
  {}

  lemma UnfoldFrame(ts: seq<Tick>, a: AxisId, shared: bool)
    requires ts != []
    ensures var before, t := ts[..|ts| - 1], ts[|ts| - 1];
            var n, held := FrameStretches(before, a, shared), Held(before, a, shared);
            FrameStretches(ts, a, shared)
            == match Decode(t.ev)
               case Move(b, _) => (if b == a && !(held && !Gap(before, t.now)) then n + 1 else n)
               case Touch(down) => (if down then n else 0)
               case Report => (if held then 1 else 0)
               case _ => n
  {}

  lemma TravelAdd(segs: seq<seq<I32>>, joins: bool, v: I32)
    requires joins ==> segs != []
    requires forall i :: 0 <= i < |segs| ==> segs[i] != []
    ensures var r := AddCoordinate(segs, joins, v);
            && Tip(r[|r| - 1]) == v
            && Travel(r) == Travel(segs) + if joins then v - Tip(segs[|segs| - 1]) else 0
  {
    var r := AddCoordinate(segs, joins, v);
    assert r[..|r| - 1] == if joins then segs[..|segs| - 1] else segs;
  }

  /** All coordinates of an axis in order. */
  function Coordinates(ts: seq<Tick>, a: AxisId): seq<I32> {
    if ts == [] then []
    else
      var before, t := ts[..|ts| - 1], ts[|ts| - 1];
      match Decode(t.ev)
      case Move(b, v) => if b == a then Coordinates(before, a) + [v] else Coordinates(before, a)
      case _ => Coordinates(before, a)
  }

  /** No coordinate arrives more than 50 ms after the one before it. */
  ghost predicate NoGaps(ts: seq<Tick>) {
    forall i :: 0 <= i < |ts| && Decode(ts[i].ev).Move? ==> !Gap(ts[..i], ts[i].now)
  }

  ghost predicate NoTouches(ts: seq<Tick>) {
    forall i :: 0 <= i < |ts| ==> !Decode(ts[i].ev).Touch?
  }

  /** Within one contact and without gaps everything is one stretch, and travel is last minus first. */
  lemma {:induction false} OneStretch(ts: seq<Tick>, a: AxisId, shared: bool)
    requires NoGaps(ts) && NoTouches(ts)
    ensures Segments(ts, a, shared) == if Coordinates(ts, a) == [] then [] else [Coordinates(ts, a)]
    ensures Held(ts, a, shared) <==> Coordinates(ts, a) != []
    ensures FrameStretches(ts, a, shared) <= if Coordinates(ts, a) == [] then 0 else 1
  {
    hide NoGaps, NoTouches, Decode, Gap;
    if ts != [] {
      var n := |ts| - 1;
      var before := ts[..n];
      GaplessPrefix(ts);
      OneStretch(before, a, shared);
      if Decode(ts[n].ev).Move? {
        AddToOne(Coordinates(before, a), Decode(ts[n].ev).value);
      }
    }
  }

  lemma GaplessPrefix(ts: seq<Tick>)
    requires ts != [] && NoGaps(ts) && NoTouches(ts)
    ensures var before, t := ts[..|ts| - 1], ts[|ts| - 1];
            && NoGaps(before) && NoTouches(before)
            && !Decode(t.ev).Touch? && (Decode(t.ev).Move? ==> !Gap(before, t.now))
  {
    hide Gap, Decode;
    var n := |ts| - 1;
    assert forall i :: 0 <= i < n ==> ts[..n][..i] == ts[..i] && ts[..n][i] == ts[i];
  }

  lemma AddToOne(path: seq<I32>, v: I32)
    ensures path != [] ==> AddCoordinate([path], true, v) == [path + [v]]
    ensures path == [] ==> AddCoordinate([], false, v) == [path + [v]]
  {
    assert path == [] ==> path + [v] == [v];
    assert [] + [[v]] == [[v]];
  }
}
