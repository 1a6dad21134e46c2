/** Keys held on a keyboard, and the repeats made for them. */
module Keyboard {
  import opened Basics
  import opened Events

  const REPEAT_DELAY: int := 200 * MS
  const REPEAT_INTERVAL: int := 25 * MS

  const RELEASED: nat := 0
  const PRESSED: nat := 1
  const REPEATED: nat := 2

  datatype HeldKey = HeldKey(code: nat, timeUsec: nat, lastFire: Time, initialFired: bool)

  function Delay(k: HeldKey): int {
    if k.initialFired then REPEAT_INTERVAL else REPEAT_DELAY
  }

  predicate Due(k: HeldKey, now: Time) {
    Elapsed(now, k.lastFire) >= Delay(k)
  }

  function Fire(k: HeldKey, now: Time): HeldKey {
    if Due(k, now) then k.(lastFire := now, initialFired := true) else k
  }

  function FireEvents(k: HeldKey, now: Time): seq<LibEvent> {
    if Due(k, now) then [KeyboardKey(k.timeUsec, k.code, REPEATED)] else []
  }

  lemma FireIfDue(k: HeldKey, now: Time)
    ensures Fire(k, now) == if Due(k, now) then k.(lastFire := now, initialFired := true) else k
    ensures FireEvents(k, now) == if Due(k, now) then [KeyboardKey(k.timeUsec, k.code, REPEATED)] else []
  {}

  // ---- one repeat phase ----

  function Polled(ks: seq<HeldKey>, now: Time): (r: seq<HeldKey>)
    ensures |r| == |ks| && forall i :: 0 <= i < |ks| ==> r[i] == Fire(ks[i], now)
  {
    seq(|ks|, i requires 0 <= i < |ks| => Fire(ks[i], now))
  }

  function PollEvents(ks: seq<HeldKey>, now: Time): seq<LibEvent> {
    if ks == [] then [] else PollEvents(ks[..|ks| - 1], now) + FireEvents(ks[|ks| - 1], now)
  }

  // ---- one key event ----

  function Retain(ks: seq<HeldKey>, code: nat): (r: seq<HeldKey>)
    ensures |r| <= |ks|
    ensures forall k :: k in r <==> k in ks && k.code != code
  {
    if ks == [] then []
    else
      var rest := Retain(ks[..|ks| - 1], code);
      if ks[|ks| - 1].code == code then rest else rest + [ks[|ks| - 1]]
  }

  /** What is kept is kept as often as it was there. */
  lemma {:induction false} RetainCounts(ks: seq<HeldKey>, code: nat, k: HeldKey)
    ensures multiset(Retain(ks, code))[k] == if k.code == code then 0 else multiset(ks)[k]
  {
    if ks != [] {
      var before := ks[..|ks| - 1];
      RetainCounts(before, code, k);
      assert ks == before + [ks[|ks| - 1]];
    }
  }

  /** What is kept stays in order: filtering commutes with concatenation. */
  lemma {:induction false} RetainConcat(a: seq<HeldKey>, b: seq<HeldKey>, code: nat)
    ensures Retain(a + b, code) == Retain(a, code) + Retain(b, code)
  {
    hide Retain;
    RetainLast(b, [], code);
    if b == [] {
      assert a + b == a;
    } else {
      var n := |b| - 1;
      RetainConcat(a, b[..n], code);
      assert a + b == a + b[..n] + [b[n]] && b == b[..n] + [b[n]];
      RetainLast(a + b[..n], [b[n]], code);
      RetainLast(b[..n], [b[n]], code);
    }
  }

  lemma RetainLast(ks: seq<HeldKey>, last: seq<HeldKey>, code: nat)
    requires |last| <= 1
    ensures Retain([], code) == []
    ensures Retain(ks + last, code) == Retain(ks, code) + if last != [] && last[0].code != code then last else []
  {
    if last == [] {
      assert ks + last == ks;
    } else {
      assert (ks + last)[..|ks|] == ks;
    }
  }

  function KeyNext(ks: seq<HeldKey>, ev: RawEvent, now: Time): seq<HeldKey> {
    if ev.eventType != KEY then ks
    else if ev.value == 1 then ks + [HeldKey(ev.code, ev.timeUsec, now, false)]
    else if ev.value == 0 then Retain(ks, ev.code)
    else ks
  }

  /** The kernel's own repeats (value 2) produce nothing. */
  function KeyEvents(ev: RawEvent): seq<LibEvent> {
    if ev.eventType != KEY then []
    else if ev.value == 1 then [KeyboardKey(ev.timeUsec, ev.code, PRESSED)]
    else if ev.value == 0 then [KeyboardKey(ev.timeUsec, ev.code, RELEASED)]
    else []
  }

  predicate IsPress(ev: RawEvent) {
    ev.eventType == KEY && ev.value == 1
  }
}
