/** What a mouse or trackpoint reports over a run of kernel events. */
module Mouse {
  import opened Basics
  import opened Events
  import opened Devices
  import opened OutputShapes

  function MouseOutput(evs: seq<RawEvent>): seq<LibEvent> {
    if evs == [] then [] else MouseOutput(evs[..|evs| - 1]) + RelativeEvents(evs[|evs| - 1])
  }

  // ---- what comes in ----

  datatype Quantity = DX | DY | WHEEL | HWHEEL

  function CodeOf(q: Quantity): nat {
    match q
    case DX => REL_X
    case DY => REL_Y
    case WHEEL => REL_WHEEL
    case HWHEEL => REL_HWHEEL
  }

  function Counts(evs: seq<RawEvent>, q: Quantity): int {
    if evs == [] then 0
    else
      var ev := evs[|evs| - 1];
      Counts(evs[..|evs| - 1], q) + if ev.eventType == RELATIVE && ev.code == CodeOf(q) then ev.value else 0
  }

  predicate IsMouseButton(b: nat) {
    b in {BTN_LEFT, BTN_RIGHT, BTN_MIDDLE, BTN_SIDE, BTN_EXTRA}
  }

  /** The values the kernel reports for a button, in order. */
  function ButtonValues(evs: seq<RawEvent>, b: nat): seq<nat> {
    if evs == [] then []
    else
      var ev := evs[|evs| - 1];
      ButtonValues(evs[..|evs| - 1], b) + if ev.eventType == KEY && ev.code == b then [AsU32(ev.value)] else []
  }

  // ---- what goes out ----

  function Amount(e: LibEvent, q: Quantity): int {
    match e
    case PointerMotion(_, dx, dy, _, _) => if q == DX then dx else if q == DY then dy else 0
    case ScrollWheel(_, axis, _, n) => if (q == WHEEL && axis == 0) || (q == HWHEEL && axis == 1) then n else 0
    case _ => 0
  }

  function Sum(es: seq<LibEvent>, q: Quantity): int {
    if es == [] then 0 else Sum(es[..|es| - 1], q) + Amount(es[|es| - 1], q)
  }

  function ButtonStates(es: seq<LibEvent>, b: nat): seq<nat> {
    if es == [] then []
    else
      var e := es[|es| - 1];
      ButtonStates(es[..|es| - 1], b) + if e.PointerButton? && e.button == b then [e.state] else []
  }

  /** Mouse motion is not accelerated, and a wheel step is worth 15. */
  predicate Plain(e: LibEvent) {
    match e
    case PointerMotion(_, dx, dy, ux, uy) => ux == dx as real && uy == dy as real && (dx == 0 || dy == 0)
    case ScrollWheel(_, axis, v, n) => axis <= 1 && v == 15 * n
    case PointerButton(_, b, _) => IsMouseButton(b)
    case _ => false
  }

  /** One kernel event makes at most one event, worth exactly what came in and with its time stamp. */
  lemma OneToOne(ev: RawEvent, q: Quantity, b: nat)
    requires IsMouseButton(b)
    ensures |RelativeEvents(ev)| <= 1
    ensures Sum(RelativeEvents(ev), q) == Counts([ev], q)
    ensures ButtonStates(RelativeEvents(ev), b) == ButtonValues([ev], b)
    ensures forall e :: e in RelativeEvents(ev) ==> Plain(e) && Stamp(e) == Some(ev.timeUsec)
  {
    var es := RelativeEvents(ev);
    assert [ev][..0] == [];
    if es != [] { assert es[..0] == []; }
  }

  lemma {:induction false} SumConcat(x: seq<LibEvent>, y: seq<LibEvent>, q: Quantity, b: nat)
    ensures Sum(x + y, q) == Sum(x, q) + Sum(y, q)
    ensures ButtonStates(x + y, b) == ButtonStates(x, b) + ButtonStates(y, b)
  {
    if y == [] {
      assert x + y == x;
    } else {
      var n := |y| - 1;
      assert (x + y)[..|x| + n] == x + y[..n];
      SumConcat(x, y[..n], q, b);
    }
  }

  /** Over any run: motion and wheel totals are the sums of the kernel's counts, every
      button goes through the values the kernel gives it, and there are never more events
      than kernel events. */
  lemma {:induction false} MouseTotals(evs: seq<RawEvent>, q: Quantity, b: nat)
    requires IsMouseButton(b)
    ensures Sum(MouseOutput(evs), q) == Counts(evs, q)
    ensures ButtonStates(MouseOutput(evs), b) == ButtonValues(evs, b)
    ensures |MouseOutput(evs)| <= |evs|
    ensures forall e :: e in MouseOutput(evs) ==> Plain(e)
  {
    hide RelativeEvents, Plain, IsMouseButton;
    if evs != [] {
      var before, ev := evs[..|evs| - 1], evs[|evs| - 1];
      MouseTotals(before, q, b);
      OneToOne(ev, q, b);
      SumConcat(MouseOutput(before), RelativeEvents(ev), q, b);
      assert [ev][..0] == [];
    }
  }
}
