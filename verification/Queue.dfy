/** What the client reads from the queue about each device, whatever calls it makes. */
module Queue {
  import opened Basics
  import opened Events
  import opened Touchpad
  import opened Keyboard
  import K = KeyboardRuns
  import opened Devices
  import opened Drain
  import opened NonInterference
  import opened Composition
  import opened Context
  import opened Lifecycle
  import opened Mouse
  import opened EndToEnd
  import Pinch = PinchProtocol
  import Clicks
  import TapHistory
  import Typing
  import Ledger
  import T = TypingTime

  /** The events of a device, over a run of calls on a new context. */
  function Heard(inotify: Option<Fd>, calls: seq<Call>, id: nat): seq<LibEvent> {
    Proj(Enqueued(Start(inotify), calls), id)
  }

  ghost function TurnsOf(inotify: Option<Fd>, calls: seq<Call>, id: nat): seq<Turn> {
    Turns(Start(inotify), calls, id)
  }

  /** What a device says between its announcement and its removal, by kind of device: the
      touchpad, keyboard or mouse machine on the device's own kernel events. */
  function Said(turns: seq<Turn>, f: Fd): seq<LibEvent> {
    if turns == [] || f !in turns[0].backend.devices then []
    else
      var d := turns[0].backend.devices[f];
      if d.isAbsolute then Outputs(INITIAL, RunTicks(turns, f))
      else if d.isKeyboard then K.Output(KeyOps(OwnTurns(turns, f)))
      else MouseOutput(OwnEvents(OwnTurns(turns, f)))
  }

  /** `f` is the descriptor on which the device `id` lives, in all its turns. */
  ghost predicate LivesOn(turns: seq<Turn>, f: Fd, id: nat) {
    forall i :: 0 <= i < |turns| ==> f in turns[i].backend.devices && turns[i].backend.devices[f].id == id
  }

  lemma {:induction false} Settled(turns: seq<Turn>, f: Fd, id: nat)
    requires Carries(turns, f) && Starts(turns, f, id)
    ensures LivesOn(turns, f, id)
  {
    hide DrainNext, DrainOut, ProperRound, DistinctIds;
    if |turns| > 1 {
      var n := |turns| - 1;
      CarriesPrefix(turns, f);
      Settled(turns[..n], f, id);
      assert ProperTurn(turns[n - 1], f) && Linked(turns[n - 1], turns[n], f);
      DrainKeys(turns[n - 1].backend, turns[n - 1].round);
    }
  }

  lemma SaidIs(turns: seq<Turn>, f: Fd, id: nat)
    requires Carries(turns, f) && Starts(turns, f, id)
    ensures Proj(RunOut(turns), id) == Said(turns, f) + Farewell(turns, f)
  {
    hide Carries, Proj, RunOut, RunTicks, OwnTurns, KeyOps, OwnEvents, Outputs, K.Output, MouseOutput;
    if turns == [] {
      NothingRan(id);
    } else {
      var d := turns[0].backend.devices[f];
      if d.isAbsolute {
        TouchpadInTheLoop(turns, f, d);
      } else if d.isKeyboard {
        KeyboardInTheLoop(turns, f, d);
      } else {
        MouseInTheLoop(turns, f, d);
      }
    }
  }

  lemma NothingRan(id: nat)
    ensures Proj(RunOut([]), id) == []
  {}

  /** From the client's calls alone: nothing at all is heard of a device, or its
      announcement, then what its own machine says about its own kernel events in the
      dispatches that found it, then its removal if the last of them found it gone. */
  lemma QueueOfADevice(inotify: Option<Fd>, calls: seq<Call>, id: nat) returns (f: Fd)
    requires ProperRun(Start(inotify), calls, inotify)
    ensures var turns, es := TurnsOf(inotify, calls, id), Heard(inotify, calls, id);
            && LivesOn(turns, f, id)
            && if es == [] then turns == [] && !Tracked(RunCalls(Start(inotify), calls).backend.devices, id)
               else es == [DeviceAdded] + Said(turns, f) + Farewell(turns, f)
  {
    hide Turns, RunCalls, Enqueued, ProperRun, Carries, Proj, RunOut, Said, Farewell, Tracked, LeavesBehind;
    f := Story(inotify, calls, id);
    if Heard(inotify, calls, id) != [] {
      Settled(TurnsOf(inotify, calls, id), f, id);
      SaidIs(TurnsOf(inotify, calls, id), f, id);
    }
  }

  /** What has been delivered is the beginning of what was enqueued, device by device. */
  lemma DeliveredFirst(inotify: Option<Fd>, calls: seq<Call>, id: nat)
    ensures Proj(Delivered(Start(inotify), calls), id) <= Heard(inotify, calls, id)
  {
    hide Delivered, RunCalls, Enqueued, Proj;
    FirstInFirstOut(Start(inotify), calls);
    ProjConcat(Delivered(Start(inotify), calls), RunCalls(Start(inotify), calls).queue, id);
  }

  // ---- pinches ----

  lemma {:induction false} KeysOnly(ops: seq<K.Op>)
    ensures forall e :: e in K.Output(ops) ==> e.KeyboardKey?
  {
    if ops != [] {
      hide K.Held;
      var before, op := ops[..|ops| - 1], ops[|ops| - 1];
      KeysOnly(before);
      if op.Poll? { K.PollsRepeat(K.Held(before), op.now); }
    }
  }

  /** Keyboards and mice say nothing about gestures. */
  lemma SaidPinches(turns: seq<Turn>, f: Fd)
    ensures Pinch.WatchAll(Pinch.Idle, Said(turns, f)) != Pinch.Broken
  {
    hide RunTicks, OwnTurns, KeyOps, OwnEvents, Outputs, K.Output, MouseOutput, Pinch.WatchAll;
    if turns == [] || f !in turns[0].backend.devices {
      Pinch.WatchCalm(Pinch.Idle, []);
    } else if turns[0].backend.devices[f].isAbsolute {
      Pinch.Protocol(RunTicks(turns, f));
    } else if turns[0].backend.devices[f].isKeyboard {
      KeysOnly(KeyOps(OwnTurns(turns, f)));
      Pinch.WatchCalm(Pinch.Idle, Said(turns, f));
    } else {
      MouseTotals(OwnEvents(OwnTurns(turns, f)), DX, BTN_LEFT);
      Pinch.WatchCalm(Pinch.Idle, Said(turns, f));
    }
  }

  lemma {:induction false} PinchBroken(es: seq<LibEvent>)
    ensures Pinch.WatchAll(Pinch.Broken, es) == Pinch.Broken
  {
    if es != [] { PinchBroken(es[..|es| - 1]); }
  }

  lemma PinchFramed(said: seq<LibEvent>, last: seq<LibEvent>)
    requires Pinch.WatchAll(Pinch.Idle, said) != Pinch.Broken && (last == [] || last == [DeviceRemoved])
    ensures Pinch.WatchAll(Pinch.Idle, [DeviceAdded] + said + last) != Pinch.Broken
  {
    Pinch.WatchConcat(Pinch.Idle, [DeviceAdded] + said, last);
    Pinch.WatchConcat(Pinch.Idle, [DeviceAdded], said);
    Pinch.WatchOne(Pinch.Idle, DeviceAdded);
    Pinch.WatchOne(Pinch.WatchAll(Pinch.Idle, said), DeviceRemoved);
  }

  /** Whatever the client does, the gestures it is told of, and those it has read so far,
      follow the protocol for every device. */
  lemma PinchesInTheQueue(inotify: Option<Fd>, calls: seq<Call>, id: nat)
    requires ProperRun(Start(inotify), calls, inotify)
    ensures Pinch.WatchAll(Pinch.Idle, Heard(inotify, calls, id)) != Pinch.Broken
    ensures Pinch.WatchAll(Pinch.Idle, Proj(Delivered(Start(inotify), calls), id)) != Pinch.Broken
  {
    hide ProperRun, TurnsOf, Heard, Said, Pinch.WatchAll, Delivered, Proj, RunCalls, Tracked;
    var es, read := Heard(inotify, calls, id), Proj(Delivered(Start(inotify), calls), id);
    var f := QueueOfADevice(inotify, calls, id);
    var turns := TurnsOf(inotify, calls, id);
    if es == [] {
      Pinch.WatchCalm(Pinch.Idle, es);
    } else {
      SaidPinches(turns, f);
      PinchFramed(Said(turns, f), Farewell(turns, f));
    }
    DeliveredFirst(inotify, calls, id);
    assert es == read + es[|read|..];
    Pinch.WatchConcat(Pinch.Idle, read, es[|read|..]);
    PinchBroken(es[|read|..]);
  }

  // ---- a touchpad ----

  /** The device lives on `f` and is a touchpad. */
  ghost predicate IsTouchpad(turns: seq<Turn>, f: Fd) {
    turns != [] && f in turns[0].backend.devices && turns[0].backend.devices[f].isAbsolute
  }

  /** In the queue presses and releases of a touchpad's buttons balance. */
  lemma ClicksInTheQueue(inotify: Option<Fd>, calls: seq<Call>, id: nat, b: nat) returns (f: Fd)
    requires ProperRun(Start(inotify), calls, inotify)
    ensures var turns := TurnsOf(inotify, calls, id);
            var ticks := RunTicks(turns, f);
            && LivesOn(turns, f, id)
            && (IsTouchpad(turns, f) && Clicks.ClickPad(ticks) ==>
                  Clicks.Net(Heard(inotify, calls, id), b)
                  == Clicks.Holding(Final(INITIAL, ticks).click, b) + Clicks.Hardware(b, Clicks.LastOf(ticks, b)))
  {
    hide ProperRun, TurnsOf, Heard, RunTicks, Clicks.ClickPad, Clicks.Net, Clicks.LastOf, Final, Outputs, RunCalls,
      Tracked;
    f := QueueOfADevice(inotify, calls, id);
    var turns, es := TurnsOf(inotify, calls, id), Heard(inotify, calls, id);
    if IsTouchpad(turns, f) && Clicks.ClickPad(RunTicks(turns, f)) {
      var said, last := Outputs(INITIAL, RunTicks(turns, f)), Farewell(turns, f);
      Clicks.ClickBalance(RunTicks(turns, f), b);
      Clicks.NetConcat([DeviceAdded] + said, last, b);
      Clicks.NetConcat([DeviceAdded], said, b);
      Clicks.NetQuiet([DeviceAdded], b);
      Clicks.NetQuiet(last, b);
    }
  }

  lemma {:induction false} OutputBefore(s: Pad, ts: seq<Tick>, k: nat)
    requires k <= |ts|
    ensures Outputs(s, ts[..k]) <= Outputs(s, ts)
  {
    hide Emits, Final;
    if k < |ts| {
      var before := ts[..|ts| - 1];
      assert before[..k] == ts[..k];
      OutputBefore(s, before, k);
    } else {
      assert ts[..k] == ts;
    }
  }

  lemma Before(a: seq<LibEvent>, b: seq<LibEvent>, all: seq<LibEvent>, d: seq<LibEvent>)
    requires b <= all
    ensures a + b <= a + all + d
  {}

  lemma TickLast(s: Pad, ts: seq<Tick>, k: nat)
    requires k < |ts|
    ensures Final(s, ts[..k + 1]) == Next(Final(s, ts[..k]), ts[k])
    ensures Outputs(s, ts[..k + 1]) == Outputs(s, ts[..k]) + Emits(Final(s, ts[..k]), ts[k])
  {
    hide Next, Emits;
    assert ts[..k + 1][..k] == ts[..k];
  }

  /** In the queue a touchpad's kernel events have their outputs in order, one after the
      other, behind its announcement. */
  lemma TicksInTheQueue(inotify: Option<Fd>, calls: seq<Call>, id: nat, k: nat) returns (f: Fd)
    requires ProperRun(Start(inotify), calls, inotify)
    ensures var turns, es := TurnsOf(inotify, calls, id), Heard(inotify, calls, id);
            var ticks := RunTicks(turns, f);
            && LivesOn(turns, f, id)
            && (IsTouchpad(turns, f) ==> es == [DeviceAdded] + Outputs(INITIAL, ticks) + Farewell(turns, f))
            && (IsTouchpad(turns, f) && k <= |ticks| ==> [DeviceAdded] + Outputs(INITIAL, ticks[..k]) <= es)
  {
    hide ProperRun, TurnsOf, Heard, RunTicks, Outputs, RunCalls, Tracked;
    f := QueueOfADevice(inotify, calls, id);
    var turns := TurnsOf(inotify, calls, id);
    var ticks := RunTicks(turns, f);
    if IsTouchpad(turns, f) && k <= |ticks| {
      OutputBefore(INITIAL, ticks, k);
      Before([DeviceAdded], Outputs(INITIAL, ticks[..k]), Outputs(INITIAL, ticks), Farewell(turns, f));
    }
  }

  /** In the queue a lift stands for a tap exactly when the touchpad's history calls for one. */
  lemma TapsInTheQueue(inotify: Option<Fd>, calls: seq<Call>, id: nat, k: nat) returns (f: Fd)
    requires ProperRun(Start(inotify), calls, inotify)
    ensures var turns, es := TurnsOf(inotify, calls, id), Heard(inotify, calls, id);
            var ticks := RunTicks(turns, f);
            && LivesOn(turns, f, id)
            && (IsTouchpad(turns, f) && k < |ticks| && Decode(ticks[k].ev) == Touch(false) ==>
                  var s, ts := Final(INITIAL, ticks[..k]), ticks[k].ev.timeUsec;
                  [DeviceAdded] + (Outputs(INITIAL, ticks[..k]) + (EndEvents(s, ts)
                  + if TapHistory.TapDue(INITIAL, ticks[..k], ticks[k]) then TapClick(ts) else []))
                  <= es)
  {
    hide ProperRun, TurnsOf, Heard, RunTicks, TapHistory.TapDue, Final, Outputs, Emits, EndEvents, RunCalls, Tracked;
    f := TicksInTheQueue(inotify, calls, id, k + 1);
    var turns := TurnsOf(inotify, calls, id);
    var ticks := RunTicks(turns, f);
    if IsTouchpad(turns, f) && k < |ticks| && Decode(ticks[k].ev) == Touch(false) {
      TapHistory.TapIffDue(INITIAL, ticks[..k], ticks[k]);
      TickLast(INITIAL, ticks, k);
    }
  }

  /** In the queue a stretch of typing leaves no trace exactly when no event of it meets one
      of the guards that let a pinch begin or end or a button through. */
  lemma SilenceInTheQueue(inotify: Option<Fd>, calls: seq<Call>, id: nat, i: nat, j: nat) returns (f: Fd)
    requires ProperRun(Start(inotify), calls, inotify)
    ensures var turns, es := TurnsOf(inotify, calls, id), Heard(inotify, calls, id);
            var ticks := RunTicks(turns, f);
            && LivesOn(turns, f, id)
            && (IsTouchpad(turns, f) && i <= j <= |ticks| && Typing.AllTyping(ticks[i..j]) ==>
                  && [DeviceAdded] + Outputs(INITIAL, ticks[..i]) <= [DeviceAdded] + Outputs(INITIAL, ticks[..j]) <= es
                  && (Outputs(INITIAL, ticks[..i]) == Outputs(INITIAL, ticks[..j])
                      <==> Typing.NonePasses(Final(INITIAL, ticks[..i]), ticks[i..j])))
  {
    hide ProperRun, TurnsOf, Heard, RunTicks, Typing.AllTyping, Typing.NonePasses, Final, Outputs, RunCalls, Tracked;
    f := TicksInTheQueue(inotify, calls, id, j);
    var turns := TurnsOf(inotify, calls, id);
    var ticks := RunTicks(turns, f);
    if IsTouchpad(turns, f) && i <= j <= |ticks| && Typing.AllTyping(ticks[i..j]) {
      assert ticks[..i] + ticks[i..j] == ticks[..j];
      RunsConcat(INITIAL, ticks[..i], ticks[i..j]);
      Typing.SilencedRun(Final(INITIAL, ticks[..i]), ticks[i..j]);
    }
  }

  lemma {:induction false} BatchTame(s: Settings, typing: Option<Time>, rs: seq<Reading>)
    ensures Ledger.AllTame(Ticks(s, typing, rs))
  {
    if rs != [] { BatchTame(s, typing, rs[..|rs| - 1]); }
  }

  /** The factors of the library are tame: the speed is clamped where it is set. */
  lemma {:induction false} TicksAreTame(turns: seq<Turn>, f: Fd)
    ensures Ledger.AllTame(RunTicks(turns, f))
  {
    hide Ticks, Tame, Snapshot;
    if turns != [] {
      var t := turns[|turns| - 1];
      TicksAreTame(turns[..|turns| - 1], f);
      if f in t.backend.devices && t.round.Fetch(f).Batch? {
        BatchTame(t.backend.devices[f].settings, Snapshot(t.backend, t.round, f), t.round.Fetch(f).readings);
      }
    }
  }

  lemma {:induction false} EmittedShown(s: Pad, ts: seq<Tick>, a: AxisId, natural: bool)
    requires forall t :: t in ts ==> t.natural == natural
    ensures Ledger.Emitted(s, ts, a) == Ledger.UnitSum(Outputs(s, ts), a, natural)
    ensures Ledger.Swiped(s, ts, a) == Ledger.SwipeSum(Outputs(s, ts), a)
  {
    hide Emits, Final;
    if ts != [] {
      var before, t := ts[..|ts| - 1], ts[|ts| - 1];
      EmittedShown(s, before, a, natural);
      Ledger.UnitSumConcat(Outputs(s, before), Emits(Final(s, before), t), a, natural);
    }
  }

  /** The ledger of a touchpad, with the units and swipes counted in the queue, as long as
      the scroll direction is not changed on the way; the remainder is at most half a unit. */
  lemma LedgerInTheQueue(inotify: Option<Fd>, calls: seq<Call>, id: nat, a: AxisId, natural: bool) returns (f: Fd)
    requires ProperRun(Start(inotify), calls, inotify)
    ensures var turns, es := TurnsOf(inotify, calls, id), Heard(inotify, calls, id);
            var ticks := RunTicks(turns, f);
            && LivesOn(turns, f, id)
            && (IsTouchpad(turns, f) ==> Ledger.SmallRemainder(Final(INITIAL, ticks).At(a)))
            && (IsTouchpad(turns, f) && (forall t :: t in ticks ==> t.natural == natural) ==>
                  Ledger.Balances(Ledger.EMPTY, Ledger.Books(INITIAL, ticks, a), INITIAL.At(a),
                                  Final(INITIAL, ticks).At(a),
                                  Ledger.UnitSum(es, a, natural), Ledger.SwipeSum(es, a)))
  {
    hide ProperRun, TurnsOf, Heard, RunTicks, Final, Outputs, RunCalls, Tracked, Ledger.Books, Ledger.Balances,
      Ledger.AllTame, Ledger.AllSmall;
    f := TicksInTheQueue(inotify, calls, id, 0);
    var turns := TurnsOf(inotify, calls, id);
    var ticks := RunTicks(turns, f);
    TicksAreTame(turns, f);
    Ledger.RemaindersSmall(INITIAL, ticks, a);
    if IsTouchpad(turns, f) && forall t :: t in ticks ==> t.natural == natural {
      Ledger.Conservation(INITIAL, ticks, a);
      EmittedShown(INITIAL, ticks, a, natural);
      FramedSums(Outputs(INITIAL, ticks), Farewell(turns, f), a, natural);
    }
  }

  lemma FramedSums(said: seq<LibEvent>, last: seq<LibEvent>, a: AxisId, natural: bool)
    requires last == [] || last == [DeviceRemoved]
    ensures Ledger.UnitSum([DeviceAdded] + said + last, a, natural) == Ledger.UnitSum(said, a, natural)
    ensures Ledger.SwipeSum([DeviceAdded] + said + last, a) == Ledger.SwipeSum(said, a)
  {
    Ledger.UnitSumConcat([DeviceAdded] + said, last, a, natural);
    Ledger.UnitSumConcat([DeviceAdded], said, a, natural);
    assert [DeviceAdded][1..] == [] && [DeviceRemoved][1..] == [];
  }

  // ---- the typing verdict ----

  /** All dispatches of a run of calls, each with the devices it drains. */
  function Dispatches(c: Ctx, calls: seq<Call>): seq<T.Turn> {
    if calls == [] then []
    else
      var before, call := calls[..|calls| - 1], calls[|calls| - 1];
      Dispatches(c, before)
      + if call.Dispatch? then [T.Turn.Turn(AfterOpening(RunCalls(c, before), call).backend.devices, call.round)]
        else []
  }

  lemma {:induction false} OpeningKeepsTyping(c: Ctx, ns: seq<Node>)
    ensures OpenAll(c, ns).backend.typing == c.backend.typing
  {
    if ns != [] { OpeningKeepsTyping(c, ns[..|ns| - 1]); }
  }

  /** The backend's typing time is that of the dispatches so far. */
  lemma {:induction false} TypingOfCalls(c: Ctx, calls: seq<Call>)
    requires c.backend.typing == None
    ensures RunCalls(c, calls).backend.typing == T.TypingAfter(Dispatches(c, calls))
  {
    hide CallNext, AfterOpening, DrainNext;
    if calls != [] {
      var before, call := calls[..|calls| - 1], calls[|calls| - 1];
      var d := RunCalls(c, before);
      TypingOfCalls(c, before);
      OpensThenDrains(d, call);
      OpeningIs(d, call);
      assert Dispatches(c, before) + [] == Dispatches(c, before);
      if call.Dispatch? {
        var turn := T.Turn.Turn(AfterOpening(d, call).backend.devices, call.round);
        assert Dispatches(c, calls)[..|Dispatches(c, before)|] == Dispatches(c, before);
        assert AfterOpening(d, call).backend == Backend(turn.devices, T.TypingAfter(Dispatches(c, before)));
      }
    }
  }

  lemma OpeningIs(c: Ctx, call: Call)
    ensures AfterOpening(c, call).backend.typing == c.backend.typing
    ensures call.Configure? ==> CallNext(c, call).backend.typing == c.backend.typing
  {
    OpeningKeepsTyping(c, NodesOf(c, call));
  }

  /** The snapshot a device is judged by is the typing time when its turn comes. */
  lemma {:induction false} SnapshotIs(b: Backend, order: seq<Fd>, r: Round, n: nat)
    requires n < |order| && NoRepeat(order)
    ensures SnapshotAt(b, order, r, order[n]) == ReadAll(b, order[..n], r).typing
  {
    hide ReadAll;
    if n < |order| - 1 {
      var before := order[..|order| - 1];
      assert before[..n] == order[..n];
      SnapshotIs(b, before, r, n);
    }
  }

  /** The key presses processed in a run of calls, and in one more dispatch before the n-th
      device of it has its turn. */
  function PressesBefore(c: Ctx, calls: seq<Call>, call: Call, n: nat): seq<Time>
    requires call.Dispatch? && n <= |call.round.order|
  {
    T.RunPresses(Dispatches(c, calls))
    + T.ReadPresses(AfterPoll(AfterOpening(RunCalls(c, calls), call).backend, call.round),
                    call.round.order[..n], call.round)
  }

  /** From the calls alone: with a clock that does not run backwards, a touchpad event runs
      under DWT exactly when DWT is on for the device and some key press processed before
      the device's turn is under 500 ms old. */
  lemma VerdictOfCalls(inotify: Option<Fd>, calls: seq<Call>, call: Call, n: nat, r: Reading)
    requires ProperRun(Start(inotify), calls + [call], inotify)
    requires call.Dispatch? && n < |call.round.order|
    requires var presses := PressesBefore(Start(inotify), calls, call, n);
             T.InOrder(presses) && (presses != [] ==> presses[|presses| - 1] <= r.now)
    ensures var b := AfterOpening(RunCalls(Start(inotify), calls), call).backend;
            var presses, f := PressesBefore(Start(inotify), calls, call, n), call.round.order[n];
            && f in b.devices
            && (TickFor(b.devices[f].settings, Snapshot(b, call.round, f), r).dwt
                <==> b.devices[f].settings.dwt
                     && exists i :: 0 <= i < |presses| && r.now - presses[i] < 500 * MS)
  {
    hide ProperRun, RunCalls, T.RunPresses, T.ReadPresses, ReadAll, OpenAll, Untracked;
    var c0 := Start(inotify);
    var b, q := AfterOpening(RunCalls(c0, calls), call).backend, call.round;
    LastIsProper(inotify, calls, call);
    TypingOfCalls(c0, calls);
    OpeningIs(RunCalls(c0, calls), call);
    assert b == Backend(b.devices, T.TypingAfter(Dispatches(c0, calls)));
    SnapshotIs(AfterPoll(b, q), q.order, q, n);
    T.DwtVerdict(Dispatches(c0, calls), b.devices, q, n, b.devices[q.order[n]].settings, r.now);
  }

  lemma LastIsProper(inotify: Option<Fd>, calls: seq<Call>, call: Call)
    requires ProperRun(Start(inotify), calls + [call], inotify)
    ensures Proper(RunCalls(Start(inotify), calls), call, inotify)
  {
    assert (calls + [call])[..|calls|] == calls;
  }

  // ---- a keyboard ----

  ghost predicate IsKeyboard(turns: seq<Turn>, f: Fd) {
    turns != [] && f in turns[0].backend.devices && Types(turns[0].backend.devices[f])
  }

  lemma KeyFramed(said: seq<LibEvent>, last: seq<LibEvent>, c: nat)
    requires last == [] || last == [DeviceRemoved]
    ensures K.WatchAll(K.Up, [DeviceAdded] + said + last, c) == K.WatchAll(K.Up, said, c)
    ensures K.RepeatsSince([DeviceAdded] + said + last, c) == K.RepeatsSince(said, c)
  {
    K.WatchConcat(K.Up, [DeviceAdded] + said, last, c);
    K.WatchConcat(K.Up, [DeviceAdded], said, c);
    assert [DeviceAdded][..0] == [] && [DeviceRemoved][..0] == [];
    K.RepeatsSinceAppend([DeviceAdded] + said, last, c);
    AfterAdded(said, c);
  }

  lemma GrammarFramed(said: seq<LibEvent>, last: seq<LibEvent>)
    requires last == [] || last == [DeviceRemoved]
    ensures (forall c :: K.WatchAll(K.Up, [DeviceAdded] + said + last, c) != K.Broken)
            <==> (forall c :: K.WatchAll(K.Up, said, c) != K.Broken)
  {
    hide K.WatchAll;
    if c :| K.WatchAll(K.Up, [DeviceAdded] + said + last, c) == K.Broken { KeyFramed(said, last, c); }
    if c :| K.WatchAll(K.Up, said, c) == K.Broken { KeyFramed(said, last, c); }
  }

  lemma {:induction false} AfterAdded(said: seq<LibEvent>, c: nat)
    ensures K.RepeatsSince([DeviceAdded] + said, c) == K.RepeatsSince(said, c)
  {
    if said == [] {
      assert [DeviceAdded] + said == [DeviceAdded] && [DeviceAdded][..0] == [];
    } else {
      var n := |said| - 1;
      assert ([DeviceAdded] + said)[..n + 1] == [DeviceAdded] + said[..n];
      AfterAdded(said[..n], c);
    }
  }

  /** In the queue every key of a keyboard follows the grammar exactly when its kernel
      events are well formed. */
  lemma KeysInTheQueue(inotify: Option<Fd>, calls: seq<Call>, id: nat) returns (f: Fd)
    requires ProperRun(Start(inotify), calls, inotify)
    ensures var turns := TurnsOf(inotify, calls, id);
            && LivesOn(turns, f, id)
            && (IsKeyboard(turns, f) ==>
                  ((forall c :: K.WatchAll(K.Up, Heard(inotify, calls, id), c) != K.Broken)
                   <==> K.WellFormed(KeyOps(OwnTurns(turns, f)))))
  {
    hide ProperRun, TurnsOf, Heard, OwnTurns, KeyOps, K.Output, K.WellFormed, RunCalls, Tracked;
    f := QueueOfADevice(inotify, calls, id);
    var turns, es := TurnsOf(inotify, calls, id), Heard(inotify, calls, id);
    if IsKeyboard(turns, f) {
      var ops := KeyOps(OwnTurns(turns, f));
      GrammarFramed(K.Output(ops), Farewell(turns, f));
      K.GrammarNeedsWellFormed(ops);
      assert es == [DeviceAdded] + K.Output(ops) + Farewell(turns, f);
    }
  }

  /** In the queue the presses and releases of a keyboard are the kernel's, in order. */
  lemma StrokesInTheQueue(inotify: Option<Fd>, calls: seq<Call>, id: nat) returns (f: Fd)
    requires ProperRun(Start(inotify), calls, inotify)
    ensures var turns := TurnsOf(inotify, calls, id);
            && LivesOn(turns, f, id)
            && (IsKeyboard(turns, f) ==>
                  K.Strokes(Heard(inotify, calls, id)) == K.KernelStrokes(KeyOps(OwnTurns(turns, f))))
  {
    hide ProperRun, TurnsOf, Heard, OwnTurns, KeyOps, K.Output, K.KernelStrokes, RunCalls, Tracked;
    f := QueueOfADevice(inotify, calls, id);
    var turns := TurnsOf(inotify, calls, id);
    if IsKeyboard(turns, f) {
      var said, last := K.Output(KeyOps(OwnTurns(turns, f))), Farewell(turns, f);
      K.StrokesGoThrough(KeyOps(OwnTurns(turns, f)));
      K.StrokesConcat([DeviceAdded] + said, last);
      K.StrokesConcat([DeviceAdded], said);
      assert [DeviceAdded][..0] == [] && [DeviceRemoved][..0] == [];
    }
  }

  /** In the queue the repeats of a key that is down come neither too soon nor too late:
      `last` is the time of the keyboard's last operation. */
  lemma RepeatsInTheQueue(inotify: Option<Fd>, calls: seq<Call>, id: nat, c: nat, gap: nat)
    returns (f: Fd)
    requires ProperRun(Start(inotify), calls, inotify)
    ensures var turns := TurnsOf(inotify, calls, id);
            var ops, n := KeyOps(OwnTurns(turns, f)), K.RepeatsSince(Heard(inotify, calls, id), c);
            && LivesOn(turns, f, id)
            && (IsKeyboard(turns, f) && K.WellFormed(ops) && ops != [] && K.Press(ops, c).Some? ==>
                  var last, pressed := ops[|ops| - 1], K.Press(ops, c).value.at;
                  && (K.Monotone(ops) && n >= 1 ==>
                        last.now >= pressed + 200 * MS + 25 * MS * (n - 1))
                  && (K.Paced(ops, gap) && last.Poll? ==>
                        last.now - pressed < 200 * MS + n * (25 * MS + gap)))
  {
    hide ProperRun, TurnsOf, Heard, OwnTurns, KeyOps, K.Output, K.WellFormed, K.Press, K.Monotone, K.Paced,
      K.RepeatsSince, K.Repeats, RunCalls, Tracked;
    f := QueueOfADevice(inotify, calls, id);
    var turns, es := TurnsOf(inotify, calls, id), Heard(inotify, calls, id);
    var ops := KeyOps(OwnTurns(turns, f));
    if IsKeyboard(turns, f) && K.WellFormed(ops) && ops != [] && K.Press(ops, c).Some? {
      KeyFramed(K.Output(ops), Farewell(turns, f), c);
      K.RepeatsAreVisible(ops, c);
      if K.Monotone(ops) && K.Repeats(ops, c) >= 1 { K.NotTooSoon(ops, c); }
      if K.Paced(ops, gap) && ops[|ops| - 1].Poll? { K.NotTooLate(ops, gap, c); }
    }
  }

  // ---- a mouse ----

  ghost predicate IsMouseOn(turns: seq<Turn>, f: Fd) {
    turns != [] && f in turns[0].backend.devices
    && !turns[0].backend.devices[f].isAbsolute && !turns[0].backend.devices[f].isKeyboard
  }

  /** In the queue a mouse's motion and wheel totals are the kernel's, and its buttons go
      through the kernel's values. */
  lemma MouseInTheQueue(inotify: Option<Fd>, calls: seq<Call>, id: nat, q: Quantity, b: nat)
    returns (f: Fd)
    requires ProperRun(Start(inotify), calls, inotify) && IsMouseButton(b)
    ensures var turns, es := TurnsOf(inotify, calls, id), Heard(inotify, calls, id);
            var evs := OwnEvents(OwnTurns(turns, f));
            && LivesOn(turns, f, id)
            && (IsMouseOn(turns, f) ==> Sum(es, q) == Counts(evs, q) && ButtonStates(es, b) == ButtonValues(evs, b))
  {
    hide ProperRun, TurnsOf, Heard, OwnTurns, OwnEvents, MouseOutput, Counts, ButtonValues, RunCalls, Tracked;
    f := QueueOfADevice(inotify, calls, id);
    var turns := TurnsOf(inotify, calls, id);
    if IsMouseOn(turns, f) {
      var said, last := MouseOutput(OwnEvents(OwnTurns(turns, f))), Farewell(turns, f);
      MouseTotals(OwnEvents(OwnTurns(turns, f)), q, b);
      SumConcat([DeviceAdded] + said, last, q, b);
      SumConcat([DeviceAdded], said, q, b);
      assert [DeviceAdded][..0] == [] && [DeviceRemoved][..0] == [];
    }
  }
}
