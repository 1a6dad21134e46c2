/** The two slots a pinch is measured by, and how many are in use. */
module Geometry {
  import opened Basics
  import opened Events
  import opened Touchpad

  /** `i` and `j` are the first two slots in use. */
  ghost predicate FirstPair(slots: seq<MtSlot>, i: nat, j: nat) {
    && i < j < |slots| && slots[i].active && slots[j].active
    && forall k :: 0 <= k < j && k != i ==> !slots[k].active
  }

  ghost predicate OneInUse(slots: seq<MtSlot>, i: nat) {
    i < |slots| && slots[i].active && forall k :: 0 <= k < i ==> !slots[k].active
  }

  lemma {:induction false} FirstActive(slots: seq<MtSlot>, i: nat)
    requires OneInUse(slots, i)
    ensures ActiveSlots(slots) == [slots[i]] + ActiveSlots(slots[i + 1..])
  {
    if i > 0 { FirstActive(slots[1..], i - 1); }
  }

  lemma {:induction false} SomeInUse(slots: seq<MtSlot>) returns (i: nat)
    requires ActiveSlots(slots) != []
    ensures OneInUse(slots, i)
  {
    if slots[0].active {
      i := 0;
    } else {
      var k := SomeInUse(slots[1..]);
      i := k + 1;
      assert forall n :: 1 <= n < i ==> slots[n] == slots[1..][n - 1];
    }
  }

  lemma PairIsFirst(slots: seq<MtSlot>, i: nat, j: nat)
    requires FirstPair(slots, i, j)
    ensures |ActiveSlots(slots)| >= 2 && ActiveSlots(slots)[0] == slots[i] && ActiveSlots(slots)[1] == slots[j]
  {
    hide ActiveSlots;
    FirstActive(slots, i);
    FirstActive(slots[i + 1..], j - i - 1);
  }

  lemma PairExists(slots: seq<MtSlot>) returns (i: nat, j: nat)
    requires |ActiveSlots(slots)| >= 2
    ensures FirstPair(slots, i, j)
  {
    hide ActiveSlots;
    i := SomeInUse(slots);
    FirstActive(slots, i);
    var k := SomeInUse(slots[i + 1..]);
    j := i + 1 + k;
    assert forall n :: i < n < j ==> slots[n] == slots[i + 1..][n - i - 1];
  }

  /** The measured distance and direction are those between the first two slots in use. */
  lemma PairGeometry(slots: seq<MtSlot>, i: nat, j: nat)
    requires FirstPair(slots, i, j)
    ensures PrimaryDistSq(slots) == Some((slots[i].x - slots[j].x) * (slots[i].x - slots[j].x)
                                         + (slots[i].y - slots[j].y) * (slots[i].y - slots[j].y))
    ensures PrimaryAngle(slots) == Atan2(slots[j].y - slots[i].y, slots[j].x - slots[i].x)
  {
    hide ActiveSlots;
    PairIsFirst(slots, i, j);
  }

  /** There is a distance exactly when two slots are in use, and without one the direction
      counts as 0. */
  lemma MeasuredIff(slots: seq<MtSlot>)
    ensures PrimaryDistSq(slots).Some? <==> exists i: nat, j: nat :: FirstPair(slots, i, j)
    ensures PrimaryDistSq(slots).None? ==> PrimaryAngle(slots) == Flat
  {
    hide ActiveSlots;
    if |ActiveSlots(slots)| >= 2 { var i, j := PairExists(slots); }
    if i: nat, j: nat :| FirstPair(slots, i, j) { PairIsFirst(slots, i, j); }
  }

  /** The square of the distance between two fingers. */
  function Between(a: MtSlot, b: MtSlot): int {
    (a.x - b.x) * (a.x - b.x) + (a.y - b.y) * (a.y - b.y)
  }

  function Direction(a: MtSlot, b: MtSlot): Angle {
    Atan2(b.y - a.y, b.x - a.x)
  }

  /** A squared scale times the squared distance at the start is the squared distance now;
      without a distance at the start it is 1. */
  lemma ScaleLaw(now: int, base: int)
    requires base >= 0
    ensures var scaleSq := ScaleSq(Some(now), base);
            if base == 0 then scaleSq == 1.0 else scaleSq * base as real == now as real
  {}

  lemma BetweenNotNegative(a: MtSlot, b: MtSlot)
    ensures Between(a, b) >= 0
  {
    NotNegative(a.x - b.x);
    NotNegative(a.y - b.y);
  }

  lemma NotNegative(n: int)
    ensures n * n >= 0
  {}

  // ---- counting ----

  function InUse(slots: seq<MtSlot>): set<nat> {
    set i: nat | i < |slots| && slots[i].active
  }

  lemma {:induction false} ActiveConcat(a: seq<MtSlot>, b: seq<MtSlot>)
    ensures ActiveSlots(a + b) == ActiveSlots(a) + ActiveSlots(b)
  {
    if a == [] {
      assert a + b == b;
    } else {
      assert (a + b)[1..] == a[1..] + b;
      ActiveConcat(a[1..], b);
    }
  }

  /** Every slot in use is counted once. */
  lemma {:induction false} CountsInUse(slots: seq<MtSlot>)
    ensures ActiveCount(slots) == |InUse(slots)|
  {
    hide ActiveSlots, InUse;
    if slots == [] {
      NothingInUse();
    } else {
      var n := |slots| - 1;
      CountsInUse(slots[..n]);
      LastInUse(slots);
    }
  }

  lemma NothingInUse()
    ensures ActiveCount([]) == 0 && InUse([]) == {}
  {}

  lemma LastInUse(slots: seq<MtSlot>)
    requires slots != []
    ensures var n := |slots| - 1;
            && ActiveCount(slots) == ActiveCount(slots[..n]) + (if slots[n].active then 1 else 0)
            && n !in InUse(slots[..n])
            && InUse(slots) == InUse(slots[..n]) + if slots[n].active then {n} else {}
  {
    var n := |slots| - 1;
    assert slots[..n] + [slots[n]] == slots && [slots[n]][1..] == [];
    ActiveConcat(slots[..n], [slots[n]]);
  }
}
