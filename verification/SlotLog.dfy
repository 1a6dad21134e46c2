/** The multi-touch slot table is determined by the log of events addressed to it. */
module SlotLog {
  import opened Basics
  import opened Touchpad

  /** The slot that multi-touch data is addressed to: the last valid selection. */
  function Addressed(ts: seq<Tick>): nat {
    if ts == [] then 0
    else
      var before := ts[..|ts| - 1];
      match Decode(ts[|ts| - 1].ev)
      case Slot(Select(v)) => if 0 <= v < 10 then v else Addressed(before)
      case _ => Addressed(before)
  }

  /** Addressing as the kernel's multi-touch protocol B defines it: the last selection. */
  function Selected(ts: seq<Tick>): int {
    if ts == [] then 0
    else
      match Decode(ts[|ts| - 1].ev)
      case Slot(Select(v)) => v
      case _ => Selected(ts[..|ts| - 1])
  }

  datatype Field = Id | PosX | PosY | Dist

  predicate Carries(i: Input, f: Field) {
    match i
    case Slot(Tracking(_)) => f == Id
    case Slot(PositionX(_)) => f == PosX
    case Slot(PositionY(_)) => f == PosY
    case Slot(Distance(_)) => f == Dist
    case _ => false
  }

  /** The last value of a field addressed to slot `k`. */
  function Logged(ts: seq<Tick>, k: nat, f: Field): Option<I32> {
    if ts == [] then None
    else
      var before, i := ts[..|ts| - 1], Decode(ts[|ts| - 1].ev);
      if Carries(i, f) && Addressed(before) == k then Some(i.field.value) else Logged(before, k, f)
  }

  function Value(v: Option<I32>): I32 {
    if v.Some? then v.value else 0
  }

  function SlotFromLog(ts: seq<Tick>, k: nat): MtSlot {
    var id := Logged(ts, k, Id);
    MtSlot(id.Some? && id.value >= 0, Value(id), Value(Logged(ts, k, PosX)), Value(Logged(ts, k, PosY)),
           Value(Logged(ts, k, Dist)))
  }

  ghost predicate TableFromLog(m: SlotTable, ts: seq<Tick>) {
    && |m.slots| == 10
    && m.current == Addressed(ts) < 10
    && forall k :: 0 <= k < 10 ==> m.slots[k] == SlotFromLog(ts, k)
  }

  lemma NextTable(s: Pad, t: Tick)
    ensures Next(s, t).mt == if Decode(t.ev).Slot? then Track(s.mt, Decode(t.ev).field) else s.mt
  {
    hide Wrap32, Kind, AxisAfter, ActiveSlots;
  }

  lemma SlotChange(ts: seq<Tick>, k: nat)
    requires ts != []
    ensures var before, i := ts[..|ts| - 1], Decode(ts[|ts| - 1].ev);
            SlotFromLog(ts, k) == if i.Slot? && !i.field.Select? && Addressed(before) == k
                                  then Write(SlotFromLog(before, k), i.field) else SlotFromLog(before, k)
  {}

  /** For every stream, after every event: the current slot is the last valid selection,
      and each slot holds the last values addressed to it. */
  lemma {:induction false} TableRefinesLog(ts: seq<Tick>)
    ensures TableFromLog(Final(INITIAL, ts).mt, ts)
  {
    if ts != [] {
      var before, t := ts[..|ts| - 1], ts[|ts| - 1];
      TableRefinesLog(before);
      var m := Final(INITIAL, before).mt;
      NextTable(Final(INITIAL, before), t);
      forall k | 0 <= k < 10
        ensures SlotFromLog(ts, k) == Final(INITIAL, ts).mt.slots[k]
      {
        SlotChange(ts, k);
      }
    }
  }

  /** Whether every selection names one of the ten slots. */
  ghost predicate InRange(ts: seq<Tick>) {
    forall i :: 0 <= i < |ts| ==>
      match Decode(ts[i].ev) case Slot(Select(v)) => 0 <= v < 10 case _ => true
  }

  /** On such streams the table is addressed as protocol B says. */
  lemma {:induction false} InRangeAddressing(ts: seq<Tick>)
    requires InRange(ts)
    ensures Addressed(ts) == Selected(ts)
  {
    if ts != [] { InRangeAddressing(ts[..|ts| - 1]); }
  }

  /** After any event whose selection is out of range the addressing differs from
      protocol B until the next selection: later data lands in the slot used before. */
  lemma {:induction false} OutOfRangeAddressing(ts: seq<Tick>, v: I32)
    requires ts != [] && Decode(ts[|ts| - 1].ev) == Slot(Select(v))
    ensures Final(INITIAL, ts).mt.current == Selected(ts) <==> 0 <= v < 10
  {
    TableRefinesLog(ts);
    TableRefinesLog(ts[..|ts| - 1]);
  }

  /** An active slot always carries a tracking id that is not negative. */
  lemma ActiveHasId(ts: seq<Tick>, k: nat)
    requires k < 10
    ensures |Final(INITIAL, ts).mt.slots| == 10
    ensures Final(INITIAL, ts).mt.slots[k].active ==> Final(INITIAL, ts).mt.slots[k].trackingId >= 0
  {
    TableRefinesLog(ts);
  }
}
