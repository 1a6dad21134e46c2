/** Whole runs of a keyboard: the grammar of each key and the rate of its repeats. */
module KeyboardRuns {
  import opened Basics
  import opened Events
  import opened Keyboard

  /** A drain polls the held keys once and then handles the key events it reads. */
  datatype Op = Poll(now: Time) | Input(ev: RawEvent, now: Time)

  function Step(ks: seq<HeldKey>, op: Op): seq<HeldKey> {
    match op
    case Poll(now) => Polled(ks, now)
    case Input(ev, now) => KeyNext(ks, ev, now)
  }

  function StepEvents(ks: seq<HeldKey>, op: Op): seq<LibEvent> {
    match op
    case Poll(now) => PollEvents(ks, now)
    case Input(ev, _) => KeyEvents(ev)
  }

  function Held(ops: seq<Op>): seq<HeldKey> {
    if ops == [] then [] else Step(Held(ops[..|ops| - 1]), ops[|ops| - 1])
  }

  function Output(ops: seq<Op>): seq<LibEvent> {
    if ops == [] then []
    else Output(ops[..|ops| - 1]) + StepEvents(Held(ops[..|ops| - 1]), ops[|ops| - 1])
  }

  // ---- the history of one key ----

  predicate Presses(op: Op, c: nat) {
    op.Input? && IsPress(op.ev) && op.ev.code == c
  }

  predicate Releases(op: Op, c: nat) {
    op.Input? && op.ev.eventType == KEY && op.ev.value == 0 && op.ev.code == c
  }

  /** When a press was handled, and the kernel's time stamp on it. */
  datatype Stamp = Stamp(at: Time, timeUsec: nat)

  /** The press that the key is still down from. */
  function Press(ops: seq<Op>, c: nat): Option<Stamp> {
    if ops == [] then None
    else
      var op := ops[|ops| - 1];
      if Presses(op, c) then Some(Stamp(op.now, op.ev.timeUsec))
      else if Releases(op, c) then None
      else Press(ops[..|ops| - 1], c)
  }

  /** Keys go down and up in turn; the kernel may add repeats of its own. */
  ghost predicate WellFormed(ops: seq<Op>) {
    forall i, c :: 0 <= i < |ops| ==>
      && (Presses(ops[i], c) ==> Press(ops[..i], c).None?)
      && (Releases(ops[i], c) ==> Press(ops[..i], c).Some?)
  }

  predicate IsRepeat(e: LibEvent, c: nat) {
    e.KeyboardKey? && e.key == c && e.state == REPEATED
  }

  function RepeatCount(es: seq<LibEvent>, c: nat): nat {
    if es == [] then 0
    else RepeatCount(es[..|es| - 1], c) + if IsRepeat(es[|es| - 1], c) then 1 else 0
  }

  /** Repeats of the key since it was pressed, counted in the output. */
  function Repeats(ops: seq<Op>, c: nat): nat {
    if ops == [] then 0
    else
      var before, op := ops[..|ops| - 1], ops[|ops| - 1];
      if Presses(op, c) then 0 else Repeats(before, c) + RepeatCount(StepEvents(Held(before), op), c)
  }

  // ---- the held-key list ----

  ghost predicate Distinct(ks: seq<HeldKey>) {
    forall i, j :: 0 <= i < j < |ks| ==> ks[i].code != ks[j].code
  }

  predicate Has(ks: seq<HeldKey>, c: nat) {
    exists k :: k in ks && k.code == c
  }

  lemma {:induction false} RetainDistinct(ks: seq<HeldKey>, c: nat)
    requires Distinct(ks)
    ensures Distinct(Retain(ks, c))
  {
    if ks != [] {
      var before := ks[..|ks| - 1];
      RetainDistinct(before, c);
      var rest := Retain(before, c);
      forall i | 0 <= i < |rest| ensures rest[i] in before {
        assert rest[i] in rest;
      }
    }
  }

  lemma RetainHas(ks: seq<HeldKey>, c: nat, d: nat)
    ensures Has(Retain(ks, c), d) <==> Has(ks, d) && d != c
  {}

  lemma PolledHas(ks: seq<HeldKey>, now: Time, d: nat)
    ensures Has(Polled(ks, now), d) <==> Has(ks, d)
    ensures Distinct(ks) ==> Distinct(Polled(ks, now))
  {
    hide Due;
    if Has(ks, d) {
      var i :| 0 <= i < |ks| && ks[i].code == d;
      assert Polled(ks, now)[i] in Polled(ks, now);
    }
    if Has(Polled(ks, now), d) {
      var i :| 0 <= i < |ks| && Polled(ks, now)[i].code == d;
      assert ks[i] in ks;
    }
  }

  lemma RepeatCountConcat(a: seq<LibEvent>, b: seq<LibEvent>, c: nat)
    requires |b| <= 1
    ensures RepeatCount(a + b, c) == RepeatCount(a, c) + RepeatCount(b, c)
  {
    if b == [] {
      assert a + b == a;
    } else {
      assert (a + b)[..|a|] == a && b[..0] == [];
    }
  }

  predicate DueFor(ks: seq<HeldKey>, now: Time, c: nat) {
    exists k :: k in ks && k.code == c && Due(k, now)
  }

  /** A poll repeats a key once if it is due. */
  lemma {:induction false} PollCount(ks: seq<HeldKey>, now: Time, c: nat)
    requires Distinct(ks)
    ensures RepeatCount(PollEvents(ks, now), c) == if DueFor(ks, now, c) then 1 else 0
  {
    if ks != [] {
      var before, k := ks[..|ks| - 1], ks[|ks| - 1];
      PollCount(before, now, c);
      RepeatCountConcat(PollEvents(before, now), FireEvents(k, now), c);
      assert FireEvents(k, now) != [] ==> FireEvents(k, now)[..0] == [];
      assert ks == before + [k];
      assert k.code == c ==> !DueFor(before, now, c);
    }
  }

  // ---- what the list says about the history ----

  /** An entry against the press it stands for and the repeats made since. */
  ghost predicate Entry(k: HeldKey, p: Stamp, n: nat) {
    && k.timeUsec == p.timeUsec
    && (k.initialFired <==> n > 0)
    && (n == 0 ==> k.lastFire == p.at)
    && (n > 0 ==> p.at + REPEAT_DELAY + REPEAT_INTERVAL * (n - 1) <= k.lastFire)
  }

  /** The list has no duplicates and holds exactly the keys that are down. */
  ghost predicate HoldsDown(ks: seq<HeldKey>, ops: seq<Op>) {
    && Distinct(ks)
    && (forall c :: Has(ks, c) <==> Press(ops, c).Some?)
    && (forall k :: k in ks ==> Press(ops, k.code).Some? && Entry(k, Press(ops, k.code).value, Repeats(ops, k.code)))
  }

  lemma LastOp(ops: seq<Op>, c: nat)
    requires ops != []
    ensures var before, op := ops[..|ops| - 1], ops[|ops| - 1];
            && Press(ops, c) == (if Presses(op, c) then Some(Stamp(op.now, op.ev.timeUsec))
                                 else if Releases(op, c) then None else Press(before, c))
            && Repeats(ops, c) == (if Presses(op, c) then 0
                                   else Repeats(before, c) + RepeatCount(StepEvents(Held(before), op), c))
            && Held(ops) == Step(Held(before), op)
  {}

  lemma NoRepeats(ev: RawEvent, c: nat)
    ensures RepeatCount(KeyEvents(ev), c) == 0
  {
    if KeyEvents(ev) != [] { assert KeyEvents(ev)[..0] == []; }
  }

  lemma PollHolds(ops: seq<Op>)
    requires ops != [] && ops[|ops| - 1].Poll? && HoldsDown(Held(ops[..|ops| - 1]), ops[..|ops| - 1])
    ensures HoldsDown(Held(ops), ops)
  {
    hide Held, Press, Repeats, Due, Has, RepeatCount;
    var before, now := ops[..|ops| - 1], ops[|ops| - 1].now;
    var ks := Held(before);
    LastOp(ops, 0);
    PolledHas(ks, now, 0);
    assert Held(ops) == Polled(ks, now);
    forall c ensures Has(Polled(ks, now), c) <==> Press(ops, c).Some? {
      LastOp(ops, c);
      PolledHas(ks, now, c);
    }
    forall k | k in Polled(ks, now)
      ensures Press(ops, k.code).Some? && Entry(k, Press(ops, k.code).value, Repeats(ops, k.code))
    {
      var i :| 0 <= i < |ks| && Polled(ks, now)[i] == k;
      PolledEntry(ops, ks, now, i);
    }
  }

  lemma {:induction false} PolledEntry(ops: seq<Op>, ks: seq<HeldKey>, now: Time, i: nat)
    requires ops != [] && ops[|ops| - 1] == Poll(now) && ks == Held(ops[..|ops| - 1]) && i < |ks|
    requires HoldsDown(ks, ops[..|ops| - 1])
    ensures var k := Fire(ks[i], now);
            Press(ops, k.code).Some? && Entry(k, Press(ops, k.code).value, Repeats(ops, k.code))
  {
    hide Held, Press, Repeats, Has, Due, Distinct, DueFor, PollEvents, Entry;
    var before, c := ops[..|ops| - 1], ks[i].code;
    assert ks[i] in ks;
    LastOp(ops, c);
    PollCount(ks, now, c);
    DueAlone(ks, now, i);
    assert Press(ops, c) == Press(before, c);
    assert Repeats(ops, c) == Repeats(before, c) + RepeatCount(PollEvents(ks, now), c);
    PollEntry(ks[i], Press(before, c).value, Repeats(before, c), now);
  }

  lemma DueAlone(ks: seq<HeldKey>, now: Time, i: nat)
    requires i < |ks| && Distinct(ks)
    ensures DueFor(ks, now, ks[i].code) <==> Due(ks[i], now)
  {
    hide Due;
    assert ks[i] in ks;
  }

  lemma PollEntry(k: HeldKey, p: Stamp, n: nat, now: Time)
    requires Entry(k, p, n)
    ensures Entry(Fire(k, now), p, if Due(k, now) then n + 1 else n)
  {
    if n > 0 {
      assert REPEAT_INTERVAL * n == REPEAT_INTERVAL * (n - 1) + REPEAT_INTERVAL;
    }
  }

  lemma PressedKey(ops: seq<Op>, c: nat)
    requires ops != [] && ops[|ops| - 1].Input? && IsPress(ops[|ops| - 1].ev)
    ensures var before, op := ops[..|ops| - 1], ops[|ops| - 1];
            && (c == op.ev.code ==> Press(ops, c) == Some(Stamp(op.now, op.ev.timeUsec)) && Repeats(ops, c) == 0)
            && (c != op.ev.code ==> Press(ops, c) == Press(before, c) && Repeats(ops, c) == Repeats(before, c))
            && Held(ops) == Held(before) + [HeldKey(op.ev.code, op.ev.timeUsec, op.now, false)]
  {
    hide RepeatCount;
    LastOp(ops, c);
    NoRepeats(ops[|ops| - 1].ev, c);
  }

  lemma HasAppend(ks: seq<HeldKey>, k: HeldKey, c: nat)
    ensures Has(ks + [k], c) <==> Has(ks, c) || k.code == c
  {
    if Has(ks, c) {
      var l :| l in ks && l.code == c;
      assert l in ks + [k];
    }
    assert k in ks + [k];
  }

  lemma PressHolds(ops: seq<Op>)
    requires ops != [] && ops[|ops| - 1].Input? && IsPress(ops[|ops| - 1].ev)
    requires HoldsDown(Held(ops[..|ops| - 1]), ops[..|ops| - 1])
    requires Press(ops[..|ops| - 1], ops[|ops| - 1].ev.code).None?
    ensures HoldsDown(Held(ops), ops)
  {
    hide Held, Press, Repeats, IsPress, Has;
    var before, op := ops[..|ops| - 1], ops[|ops| - 1];
    var ks, k := Held(before), HeldKey(op.ev.code, op.ev.timeUsec, op.now, false);
    PressedKey(ops, k.code);
    AppendDistinct(ks, k);
    forall c ensures Has(ks + [k], c) <==> Press(ops, c).Some? {
      PressedKey(ops, c);
      HasAppend(ks, k, c);
    }
    forall l | l in ks
      ensures Press(ops, l.code).Some? && Entry(l, Press(ops, l.code).value, Repeats(ops, l.code))
    {
      PressedKey(ops, l.code);
    }
  }

  lemma AppendDistinct(ks: seq<HeldKey>, k: HeldKey)
    requires Distinct(ks) && !Has(ks, k.code)
    ensures Distinct(ks + [k])
  {
    forall i | 0 <= i < |ks| ensures ks[i].code != k.code {
      assert ks[i] in ks;
    }
  }

  lemma ReleaseHolds(ops: seq<Op>)
    requires ops != [] && ops[|ops| - 1].Input? && !IsPress(ops[|ops| - 1].ev)
    requires HoldsDown(Held(ops[..|ops| - 1]), ops[..|ops| - 1])
    ensures HoldsDown(Held(ops), ops)
  {
    hide Held, Press, Repeats, IsPress, Has, Retain, Entry;
    var before, c0 := ops[..|ops| - 1], ops[|ops| - 1].ev.code;
    ReleasedKey(ops, c0);
    RetainDistinct(Held(before), c0);
    forall c ensures Has(Held(ops), c) <==> Press(ops, c).Some? { ReleasedHas(ops, c); }
    forall k | k in Held(ops)
      ensures Press(ops, k.code).Some? && Entry(k, Press(ops, k.code).value, Repeats(ops, k.code))
    {
      ReleasedEntry(ops, k);
    }
  }

  lemma ReleasedHas(ops: seq<Op>, c: nat)
    requires ops != [] && ops[|ops| - 1].Input? && !IsPress(ops[|ops| - 1].ev)
    requires HoldsDown(Held(ops[..|ops| - 1]), ops[..|ops| - 1])
    ensures Has(Held(ops), c) <==> Press(ops, c).Some?
  {
    hide Held, Press, Repeats, IsPress, Has, Retain, Entry, Distinct;
    ReleasedKey(ops, c);
    RetainHas(Held(ops[..|ops| - 1]), ops[|ops| - 1].ev.code, c);
  }

  lemma ReleasedEntry(ops: seq<Op>, k: HeldKey)
    requires ops != [] && ops[|ops| - 1].Input? && !IsPress(ops[|ops| - 1].ev)
    requires HoldsDown(Held(ops[..|ops| - 1]), ops[..|ops| - 1]) && k in Held(ops)
    ensures Press(ops, k.code).Some? && Entry(k, Press(ops, k.code).value, Repeats(ops, k.code))
  {
    hide Held, Press, Repeats, IsPress, Has, Retain, Entry, Distinct;
    ReleasedKey(ops, k.code);
    assert k in Held(ops[..|ops| - 1]);
  }

  lemma ReleasedKey(ops: seq<Op>, c: nat)
    requires ops != [] && ops[|ops| - 1].Input? && !IsPress(ops[|ops| - 1].ev)
    ensures var before, ev := ops[..|ops| - 1], ops[|ops| - 1].ev;
            var released := ev.eventType == KEY && ev.value == 0;
            && Held(ops) == (if released then Retain(Held(before), ev.code) else Held(before))
            && if released && ev.code == c then Press(ops, c) == None
               else Press(ops, c) == Press(before, c) && Repeats(ops, c) == Repeats(before, c)
  {
    hide RepeatCount, Retain;
    LastOp(ops, c);
    NoRepeats(ops[|ops| - 1].ev, c);
  }

  /** After every operation of a well-formed run. */
  lemma {:induction false} HeldKeysAreDown(ops: seq<Op>)
    requires WellFormed(ops)
    ensures HoldsDown(Held(ops), ops)
  {
    if ops != [] {
      var n := |ops| - 1;
      var before := ops[..n];
      assert forall i :: 0 <= i < n ==> before[..i] == ops[..i];
      HeldKeysAreDown(before);
      if ops[n].Poll? {
        PollHolds(ops);
      } else if IsPress(ops[n].ev) {
        assert Presses(ops[n], ops[n].ev.code);
        PressHolds(ops);
      } else {
        ReleaseHolds(ops);
      }
    }
  }

  // ---- the grammar of one key ----

  datatype Phase = Up | Down(timeUsec: nat) | Broken

  /** Follows one key through the output; repeats must carry the time stamp of the press. */
  function Watch(p: Phase, e: LibEvent, c: nat): Phase {
    if !e.KeyboardKey? || e.key != c then p
    else
      match p
      case Up => if e.state == 1 then Down(e.timeUsec) else Broken
      case Down(ts) =>
        if e.state == 2 && e.timeUsec == ts then p
        else if e.state == 0 then Up
        else Broken
      case Broken => Broken
  }

  function WatchAll(p: Phase, es: seq<LibEvent>, c: nat): Phase {
    if es == [] then p else Watch(WatchAll(p, es[..|es| - 1], c), es[|es| - 1], c)
  }

  lemma {:induction false} WatchConcat(p: Phase, a: seq<LibEvent>, b: seq<LibEvent>, c: nat)
    ensures WatchAll(p, a + b, c) == WatchAll(WatchAll(p, a, c), b, c)
  {
    if b == [] {
      assert a + b == a;
    } else {
      var n := |b| - 1;
      assert (a + b)[..|a| + n] == a + b[..n];
      WatchConcat(p, a, b[..n], c);
    }
  }

  lemma {:induction false} WatchPoll(ks: seq<HeldKey>, now: Time, p: Phase, c: nat)
    requires forall k :: k in ks && k.code == c ==> p == Down(k.timeUsec)
    ensures WatchAll(p, PollEvents(ks, now), c) == p
  {
    if ks != [] {
      var before, k := ks[..|ks| - 1], ks[|ks| - 1];
      WatchPoll(before, now, p, c);
      WatchConcat(p, PollEvents(before, now), FireEvents(k, now), c);
      if FireEvents(k, now) != [] { assert FireEvents(k, now)[..0] == []; }
    }
  }

  function PhaseOf(p: Option<Stamp>): Phase {
    if p.Some? then Down(p.value.timeUsec) else Up
  }

  lemma WatchKeyEvents(p: Phase, ev: RawEvent, c: nat)
    ensures WatchAll(p, KeyEvents(ev), c) == if KeyEvents(ev) == [] then p else Watch(p, KeyEvents(ev)[0], c)
  {
    if KeyEvents(ev) != [] { assert KeyEvents(ev)[..0] == []; }
  }

  lemma WellFormedPrefix(ops: seq<Op>)
    requires ops != [] && WellFormed(ops)
    ensures var before, op := ops[..|ops| - 1], ops[|ops| - 1];
            && WellFormed(before)
            && forall c :: (Presses(op, c) ==> Press(before, c).None?) && (Releases(op, c) ==> Press(before, c).Some?)
  {
    hide Press, Presses, Releases;
    var n := |ops| - 1;
    assert forall i :: 0 <= i < n ==> ops[..n][..i] == ops[..i] && ops[..n][i] == ops[i];
  }

  lemma HeldPhase(ops: seq<Op>, c: nat)
    requires WellFormed(ops)
    ensures forall k :: k in Held(ops) && k.code == c ==> PhaseOf(Press(ops, c)) == Down(k.timeUsec)
  {
    HeldKeysAreDown(ops);
  }

  /** On every well-formed run the output of each key is a prefix of
      (PRESS REPEAT* RELEASE)*, with every repeat stamped like its press. */
  lemma {:induction false} KeyGrammar(ops: seq<Op>, c: nat)
    requires WellFormed(ops)
    ensures WatchAll(Up, Output(ops), c) == PhaseOf(Press(ops, c))
  {
    hide Held, WellFormed, Repeats, KeyEvents, RepeatCount;
    if ops != [] {
      var before, op := ops[..|ops| - 1], ops[|ops| - 1];
      WellFormedPrefix(ops);
      KeyGrammar(before, c);
      HeldPhase(before, c);
      GrammarStep(Held(before), Press(before, c), op, c);
      WatchConcat(Up, Output(before), StepEvents(Held(before), op), c);
    }
  }

  lemma GrammarStep(ks: seq<HeldKey>, p: Option<Stamp>, op: Op, c: nat)
    requires forall k :: k in ks && k.code == c ==> PhaseOf(p) == Down(k.timeUsec)
    requires (Presses(op, c) ==> p.None?) && (Releases(op, c) ==> p.Some?)
    ensures WatchAll(PhaseOf(p), StepEvents(ks, op), c)
            == PhaseOf(if Presses(op, c) then Some(Stamp(op.now, op.ev.timeUsec))
                       else if Releases(op, c) then None else p)
  {
    hide WatchAll;
    match op
    case Poll(now) => WatchPoll(ks, now, PhaseOf(p), c);
    case Input(ev, _) => WatchKeyEvents(PhaseOf(p), ev, c);
  }

  lemma {:induction false} BrokenStays(es: seq<LibEvent>, c: nat)
    ensures WatchAll(Broken, es, c) == Broken
  {
    if es != [] { BrokenStays(es[..|es| - 1], c); }
  }

  /** The grammar asks exactly for well-formed input: a key pressed while down, or
      released while up, breaks it. */
  lemma {:induction false} GrammarNeedsWellFormed(ops: seq<Op>)
    ensures (forall c :: WatchAll(Up, Output(ops), c) != Broken) <==> WellFormed(ops)
    decreases |ops|, 1
  {
    if WellFormed(ops) {
      forall c ensures WatchAll(Up, Output(ops), c) != Broken { KeyGrammar(ops, c); }
    } else {
      var i, c :| 0 <= i < |ops| && Clashes(Press(ops[..i], c), ops[i], c);
      FirstBreak(ops, i, c);
    }
  }

  predicate Clashes(p: Option<Stamp>, op: Op, c: nat) {
    (Presses(op, c) && p.Some?) || (Releases(op, c) && p.None?)
  }

  lemma ClashBreaks(p: Option<Stamp>, op: Op, c: nat, ks: seq<HeldKey>)
    requires Clashes(p, op, c)
    ensures WatchAll(PhaseOf(p), StepEvents(ks, op), c) == Broken
  {
    WatchKeyEvents(PhaseOf(p), op.ev, c);
  }

  /** Some key breaks at the first operation that is not well formed. */
  lemma {:induction false} FirstBreak(ops: seq<Op>, i: nat, c: nat)
    requires i < |ops| && Clashes(Press(ops[..i], c), ops[i], c)
    ensures exists b :: WatchAll(Up, Output(ops), b) == Broken
    decreases |ops|, 0
  {
    hide StepEvents, Watch, PhaseOf, Presses, Releases;
    var n := |ops| - 1;
    var before, op := ops[..n], ops[n];
    assert i < n ==> before[i] == ops[i] && before[..i] == ops[..i];
    var b := c;
    if !WellFormed(before) {
      GrammarNeedsWellFormed(before);
      b :| WatchAll(Up, Output(before), b) == Broken;
      BrokenStays(StepEvents(Held(before), op), b);
    } else {
      assert i == n;
      KeyGrammar(before, c);
      ClashBreaks(Press(before, c), op, c, Held(before));
    }
    WatchConcat(Up, Output(before), StepEvents(Held(before), op), b);
    assert WatchAll(Up, Output(ops), b) == Broken;
  }

  /** Kernel repeats never appear: what is reported as a repeat comes from a poll. */
  lemma RepeatsArePolled(ks: seq<HeldKey>, op: Op, e: LibEvent)
    requires e in StepEvents(ks, op) && e.KeyboardKey? && e.state == REPEATED
    ensures op.Poll?
  {}

  /** Repeats of a key that the output shows since its last press. */
  function RepeatsSince(es: seq<LibEvent>, c: nat): nat {
    if es == [] then 0
    else
      var e := es[|es| - 1];
      if e.KeyboardKey? && e.key == c && e.state == PRESSED then 0
      else RepeatsSince(es[..|es| - 1], c) + if IsRepeat(e, c) then 1 else 0
  }

  lemma {:induction false} RepeatsSinceAppend(a: seq<LibEvent>, b: seq<LibEvent>, c: nat)
    requires forall e :: e in b ==> !(e.KeyboardKey? && e.key == c && e.state == PRESSED)
    ensures RepeatsSince(a + b, c) == RepeatsSince(a, c) + RepeatCount(b, c)
  {
    if b == [] {
      assert a + b == a;
    } else {
      var n := |b| - 1;
      assert (a + b)[..|a| + n] == a + b[..n];
      RepeatsSinceAppend(a, b[..n], c);
    }
  }

  lemma {:induction false} PollsRepeat(ks: seq<HeldKey>, now: Time)
    ensures forall e :: e in PollEvents(ks, now) ==> e.KeyboardKey? && e.state == REPEATED
  {
    if ks != [] { PollsRepeat(ks[..|ks| - 1], now); }
  }

  /** The presses and releases of an output. */
  function Strokes(es: seq<LibEvent>): seq<LibEvent> {
    if es == [] then []
    else
      var e := es[|es| - 1];
      Strokes(es[..|es| - 1]) + if e.KeyboardKey? && e.state != 2 then [e] else []
  }

  /** Those of the kernel: value 1 is a press, value 0 a release. */
  function KernelStrokes(ops: seq<Op>): seq<LibEvent> {
    if ops == [] then [] else KernelStrokes(ops[..|ops| - 1]) + Stroke(ops[|ops| - 1])
  }

  function Stroke(op: Op): seq<LibEvent> {
    if op.Input? && op.ev.eventType == KEY && (op.ev.value == 0 || op.ev.value == 1) then
      [KeyboardKey(op.ev.timeUsec, op.ev.code, op.ev.value)]
    else []
  }

  lemma {:induction false} StrokesConcat(a: seq<LibEvent>, b: seq<LibEvent>)
    ensures Strokes(a + b) == Strokes(a) + Strokes(b)
  {
    if b == [] {
      assert a + b == a;
    } else {
      var n := |b| - 1;
      assert (a + b)[..|a| + n] == a + b[..n];
      StrokesConcat(a, b[..n]);
    }
  }

  lemma {:induction false} NoStrokes(es: seq<LibEvent>)
    requires forall e :: e in es ==> e.KeyboardKey? && e.state == 2
    ensures Strokes(es) == []
  {
    if es != [] { NoStrokes(es[..|es| - 1]); }
  }

  /** Every press and release goes through once, in order, with its own key, state and time
      stamp; repeats come on top. */
  lemma {:induction false} StrokesGoThrough(ops: seq<Op>)
    ensures Strokes(Output(ops)) == KernelStrokes(ops)
  {
    hide Held, StepEvents, Stroke;
    if ops != [] {
      var before, op := ops[..|ops| - 1], ops[|ops| - 1];
      StrokesGoThrough(before);
      StrokesConcat(Output(before), StepEvents(Held(before), op));
      StepStrokes(Held(before), op);
    }
  }

  lemma StepStrokes(ks: seq<HeldKey>, op: Op)
    ensures Strokes(StepEvents(ks, op)) == Stroke(op)
  {
    match op
    case Poll(now) =>
      PollsRepeat(ks, now);
      NoStrokes(PollEvents(ks, now));
    case Input(ev, _) => if KeyEvents(ev) != [] { assert KeyEvents(ev)[..0] == []; }
  }

  /** The repeats counted from the operations are those the output shows. */
  lemma {:induction false} RepeatsAreVisible(ops: seq<Op>, c: nat)
    ensures RepeatsSince(Output(ops), c) == Repeats(ops, c)
  {
    hide Held, RepeatCount;
    if ops != [] {
      var before, op := ops[..|ops| - 1], ops[|ops| - 1];
      RepeatsAreVisible(before, c);
      var es := StepEvents(Held(before), op);
      if op.Poll? { PollsRepeat(Held(before), op.now); }
      if Presses(op, c) {
        assert Output(ops)[|Output(ops)| - 1] == es[0];
      } else {
        RepeatsSinceAppend(Output(before), es, c);
      }
    }
  }

  // ---- the rate of repeats ----

  ghost predicate Monotone(ops: seq<Op>) {
    forall i, j :: 0 <= i < j < |ops| ==> ops[i].now <= ops[j].now
  }

  lemma {:induction false} FiredBefore(ops: seq<Op>, k: HeldKey)
    requires ops != [] && Monotone(ops) && k in Held(ops)
    ensures k.lastFire <= ops[|ops| - 1].now
  {
    var before, op := ops[..|ops| - 1], ops[|ops| - 1];
    var ks := Held(before);
    if op.Poll? {
      var i :| 0 <= i < |ks| && Polled(ks, op.now)[i] == k;
      if k == ks[i] { FiredBefore(before, ks[i]); }
    } else if k in ks {
      FiredBefore(before, k);
    }
  }

  /** The n-th repeat comes no sooner than 200 ms + (n - 1) * 25 ms after the press,
      however often the keys are polled. */
  lemma {:induction false} NotTooSoon(ops: seq<Op>, c: nat)
    requires WellFormed(ops) && Monotone(ops) && Press(ops, c).Some? && Repeats(ops, c) >= 1
    ensures ops[|ops| - 1].now >= Press(ops, c).value.at + 200 * MS + 25 * MS * (Repeats(ops, c) - 1)
  {
    HeldKeysAreDown(ops);
    assert Has(Held(ops), c);
    var k :| k in Held(ops) && k.code == c;
    FiredBefore(ops, k);
  }

  /** When the held keys were last polled. */
  function LastPoll(ops: seq<Op>): Option<Time> {
    if ops == [] then None
    else if ops[|ops| - 1].Poll? then Some(ops[|ops| - 1].now)
    else LastPoll(ops[..|ops| - 1])
  }

  /** Every drain starts with a poll, and consecutive polls are at most `gap` apart. */
  ghost predicate Paced(ops: seq<Op>, gap: nat) {
    forall i :: 0 <= i < |ops| ==>
      match ops[i]
      case Poll(now) => LastPoll(ops[..i]).Some? ==> now - LastPoll(ops[..i]).value <= gap
      case Input(_, now) => LastPoll(ops[..i]).Some? && LastPoll(ops[..i]).value <= now
  }

  /** How late an entry can be: its last repeat, and what the last poll saw. */
  ghost predicate InTime(k: HeldKey, p: Stamp, n: nat, polled: Time, gap: nat) {
    && Entry(k, p, n)
    && (n > 0 ==> k.lastFire < p.at + REPEAT_DELAY + gap + (REPEAT_INTERVAL + gap) * (n - 1))
    && !Due(k, polled)
  }

  lemma PollInTime(k: HeldKey, p: Stamp, n: nat, polled: Time, gap: nat, now: Time)
    requires InTime(k, p, n, polled, gap) && now - polled <= gap
    ensures InTime(Fire(k, now), p, if Due(k, now) then n + 1 else n, now, gap)
  {
    PollEntry(k, p, n, now);
    if n > 0 {
      Distribute(REPEAT_INTERVAL + gap, n);
    }
  }

  lemma Distribute(g: int, n: int)
    ensures g * n == g * (n - 1) + g
  {}

  ghost predicate AllInTime(ops: seq<Op>, gap: nat) {
    forall k :: k in Held(ops) ==>
      && LastPoll(ops).Some? && Press(ops, k.code).Some?
      && InTime(k, Press(ops, k.code).value, Repeats(ops, k.code), LastPoll(ops).value, gap)
  }

  lemma PollStepInTime(ops: seq<Op>, gap: nat, i: nat)
    requires ops != [] && ops[|ops| - 1].Poll? && Distinct(Held(ops[..|ops| - 1]))
    requires i < |Held(ops[..|ops| - 1])|
    requires var before, k := ops[..|ops| - 1], Held(ops[..|ops| - 1])[i];
             && LastPoll(before).Some? && Press(before, k.code).Some?
             && InTime(k, Press(before, k.code).value, Repeats(before, k.code), LastPoll(before).value, gap)
             && ops[|ops| - 1].now - LastPoll(before).value <= gap
    ensures var k := Fire(Held(ops[..|ops| - 1])[i], ops[|ops| - 1].now);
            && Press(ops, k.code).Some?
            && InTime(k, Press(ops, k.code).value, Repeats(ops, k.code), ops[|ops| - 1].now, gap)
  {
    hide Held, Press, Repeats, Due, Distinct, DueFor, PollEvents, InTime, LastPoll;
    var before, now := ops[..|ops| - 1], ops[|ops| - 1].now;
    var ks := Held(before);
    var c := ks[i].code;
    LastOp(ops, c);
    PollCount(ks, now, c);
    DueAlone(ks, now, i);
    assert Press(ops, c) == Press(before, c);
    assert Repeats(ops, c) == Repeats(before, c) + RepeatCount(PollEvents(ks, now), c);
    PollInTime(ks[i], Press(before, c).value, Repeats(before, c), LastPoll(before).value, gap, now);
  }

  /** A key event leaves the entries of other keys alone. */
  lemma InputKeeps(ops: seq<Op>, k: HeldKey)
    requires ops != [] && ops[|ops| - 1].Input? && HoldsDown(Held(ops[..|ops| - 1]), ops[..|ops| - 1])
    requires IsPress(ops[|ops| - 1].ev) ==> Press(ops[..|ops| - 1], ops[|ops| - 1].ev.code).None?
    requires k in Held(ops[..|ops| - 1]) && k in Held(ops)
    ensures Press(ops, k.code) == Press(ops[..|ops| - 1], k.code)
    ensures Repeats(ops, k.code) == Repeats(ops[..|ops| - 1], k.code)
  {
    var before, op := ops[..|ops| - 1], ops[|ops| - 1];
    LastOp(ops, k.code);
    NoRepeats(op.ev, k.code);
    assert Press(before, k.code).Some?;
  }

  lemma InputAdds(ops: seq<Op>, k: HeldKey)
    requires ops != [] && ops[|ops| - 1].Input? && k !in Held(ops[..|ops| - 1]) && k in Held(ops)
    ensures var op := ops[|ops| - 1];
            k == HeldKey(op.ev.code, op.ev.timeUsec, op.now, false) && Presses(op, k.code)
  {}

  lemma InputStepInTime(ops: seq<Op>, gap: nat, k: HeldKey)
    requires ops != [] && ops[|ops| - 1].Input? && HoldsDown(Held(ops[..|ops| - 1]), ops[..|ops| - 1])
    requires AllInTime(ops[..|ops| - 1], gap)
    requires LastPoll(ops[..|ops| - 1]).Some? && LastPoll(ops[..|ops| - 1]).value <= ops[|ops| - 1].now
    requires IsPress(ops[|ops| - 1].ev) ==> Press(ops[..|ops| - 1], ops[|ops| - 1].ev.code).None?
    requires k in Held(ops)
    ensures Press(ops, k.code).Some?
    ensures InTime(k, Press(ops, k.code).value, Repeats(ops, k.code), LastPoll(ops[..|ops| - 1]).value, gap)
  {
    if k in Held(ops[..|ops| - 1]) {
      InputKeeps(ops, k);
    } else {
      InputAdds(ops, k);
      LastOp(ops, k.code);
    }
    hide Held, HoldsDown, Repeats, Press, LastPoll;
  }

  lemma {:induction false} RunInTime(ops: seq<Op>, gap: nat)
    requires WellFormed(ops) && Paced(ops, gap)
    ensures AllInTime(ops, gap)
  {
    if ops != [] {
      var n := |ops| - 1;
      var before, op := ops[..n], ops[n];
      assert forall i :: 0 <= i < n ==> before[..i] == ops[..i];
      RunInTime(before, gap);
      HeldKeysAreDown(before);
      if op.Input? && IsPress(op.ev) { assert Presses(op, op.ev.code); }
      forall k | k in Held(ops)
        ensures LastPoll(ops).Some? && Press(ops, k.code).Some?
        ensures InTime(k, Press(ops, k.code).value, Repeats(ops, k.code), LastPoll(ops).value, gap)
      {
        if op.Poll? {
          var ks := Held(before);
          var i :| 0 <= i < |ks| && Polled(ks, op.now)[i] == k;
          assert ks[i] in ks;
          PollStepInTime(ops, gap, i);
        } else {
          InputStepInTime(ops, gap, k);
        }
      }
    }
  }

  /** With drains at most `gap` apart, right after a poll the n-th repeat has not been
      outstanding for long: less than 200 ms + n * (25 ms + gap) have passed. */
  lemma NotTooLate(ops: seq<Op>, gap: nat, c: nat)
    requires WellFormed(ops) && Paced(ops, gap)
    requires ops != [] && ops[|ops| - 1].Poll? && Press(ops, c).Some?
    ensures ops[|ops| - 1].now - Press(ops, c).value.at
            < 200 * MS + Repeats(ops, c) * (25 * MS + gap)
  {
    RunInTime(ops, gap);
    HeldKeysAreDown(ops);
    assert Has(Held(ops), c);
    var k :| k in Held(ops) && k.code == c;
    Age(k, Press(ops, c).value, Repeats(ops, c), ops[|ops| - 1].now, gap);
  }

  lemma Age(k: HeldKey, p: Stamp, n: nat, t: Time, gap: nat)
    requires InTime(k, p, n, t, gap)
    ensures t - p.at < REPEAT_DELAY + n * (REPEAT_INTERVAL + gap)
  {
    Distribute(REPEAT_INTERVAL + gap, n);
  }
}
