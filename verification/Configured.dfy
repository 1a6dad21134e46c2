/** What the client's settings do to a touchpad's events: each event runs with the settings
    given last, and the speed scales the motion. */
module Configured {
  import opened Basics
  import opened Events
  import opened Touchpad
  import opened Devices
  import opened Drain
  import opened NonInterference
  import opened Composition
  import opened Context
  import opened Lifecycle
  import opened EndToEnd
  import opened Queue
  import Ledger
  import Paths
  import P = PathIndependence
  import T = TypingTime

  /** The settings last given to a device while it was tracked; before that tap, natural
      scrolling and DWT are on and the speed is 0. */
  function LastConfigured(c: Ctx, calls: seq<Call>, id: nat): Settings {
    if calls == [] then Settings(true, true, true, 0.0)
    else
      var before := calls[..|calls| - 1];
      var m := RunCalls(c, before).backend.devices;
      match calls[|calls| - 1]
      case Configure(fd, s) => if fd in m && m[fd].id == id then s else LastConfigured(c, before, id)
      case _ => LastConfigured(c, before, id)
  }

  /** Every tracked device has the settings that the history says. */
  ghost predicate AsConfigured(d: Ctx, c: Ctx, calls: seq<Call>) {
    && (forall f :: f in d.backend.devices ==>
          d.backend.devices[f].settings == LastConfigured(c, calls, d.backend.devices[f].id))
    && forall id: nat :: id >= d.count ==> LastConfigured(c, calls, id) == Settings(true, true, true, 0.0)
  }

  lemma OpenConfigured(d: Ctx, n: Node, c: Ctx, calls: seq<Call>)
    requires AsConfigured(d, c, calls)
    ensures AsConfigured(OpenNext(d, n), c, calls)
  {
    hide LastConfigured, IdleSlots;
  }

  lemma {:induction false} OpenAllConfigured(d: Ctx, ns: seq<Node>, c: Ctx, calls: seq<Call>)
    requires AsConfigured(d, c, calls)
    ensures AsConfigured(OpenAll(d, ns), c, calls)
  {
    hide OpenNext, AsConfigured;
    if ns != [] {
      OpenAllConfigured(d, ns[..|ns| - 1], c, calls);
      OpenConfigured(OpenAll(d, ns[..|ns| - 1]), ns[|ns| - 1], c, calls);
    }
  }

  lemma DrainConfigured(h: Ctx, next: Ctx, r: Round, c: Ctx, calls: seq<Call>)
    requires AsConfigured(h, c, calls) && next.count == h.count && next.backend == DrainNext(h.backend, r)
    requires ProperRound(h.backend, r) && DistinctIds(h.backend.devices)
    ensures AsConfigured(next, c, calls)
  {
    hide LastConfigured, DrainNext, ProperRound, DistinctIds;
    DrainKeys(h.backend, r);
    assert forall f :: f in next.backend.devices ==> f in next.backend.devices.Keys;
  }

  lemma ConfigureConfigured(d: Ctx, fd: Fd, s: Settings, c: Ctx, calls: seq<Call>)
    requires d == RunCalls(c, calls) && AsConfigured(d, c, calls) && DistinctIds(d.backend.devices)
    requires forall f :: f in d.backend.devices ==> d.backend.devices[f].id < d.count
    ensures AsConfigured(CallNext(d, Configure(fd, s)), c, calls + [Configure(fd, s)])
  {
    hide RunCalls;
    var all := calls + [Configure(fd, s)];
    var m := d.backend.devices;
    assert all[..|calls|] == calls;
    assert forall id :: LastConfigured(c, all, id)
                        == if fd in m && m[fd].id == id then s else LastConfigured(c, calls, id);
  }

  /** Opening and draining change no settings; configuring changes those of one device. */
  lemma {:induction false} SettingsAreLast(inotify: Option<Fd>, calls: seq<Call>)
    requires ProperRun(Start(inotify), calls, inotify)
    ensures AsConfigured(RunCalls(Start(inotify), calls), Start(inotify), calls)
  {
    hide AsConfigured, CallNext, AfterOpening, Coherent, Proper, ProperRun, RunCalls, LastConfigured;
    var c0 := Start(inotify);
    if calls == [] {
      NothingConfigured(inotify);
    } else {
      var before, call := calls[..|calls| - 1], calls[|calls| - 1];
      LastCall(inotify, calls);
      SettingsAreLast(inotify, before);
      LifeOfADevice(inotify, before, 0);
      CallConfigured(RunCalls(c0, before), call, inotify, c0, before);
      assert before + [call] == calls;
    }
  }

  lemma LastCall(inotify: Option<Fd>, calls: seq<Call>)
    requires calls != [] && ProperRun(Start(inotify), calls, inotify)
    ensures var c, before, call := Start(inotify), calls[..|calls| - 1], calls[|calls| - 1];
            && ProperRun(c, before, inotify) && Proper(RunCalls(c, before), call, inotify)
            && RunCalls(c, calls) == CallNext(RunCalls(c, before), call)
  {
    hide CallNext, Proper;
  }

  lemma NothingConfigured(inotify: Option<Fd>)
    ensures AsConfigured(RunCalls(Start(inotify), []), Start(inotify), [])
  {}

  lemma CallConfigured(d: Ctx, call: Call, inotify: Option<Fd>, c: Ctx, calls: seq<Call>)
    requires d == RunCalls(c, calls) && AsConfigured(d, c, calls)
    requires Coherent(d, inotify) && Proper(d, call, inotify)
    ensures AsConfigured(AfterOpening(d, call), c, calls)
    ensures AsConfigured(CallNext(d, call), c, calls + [call])
  {
    hide AsConfigured, RunCalls, CallNext, OpenAll, DrainNext, ProperRound, DistinctIds, OpenAllOut;
    var h, next := AfterOpening(d, call), CallNext(d, call);
    OpenAllConfigured(d, NodesOf(d, call), c, calls);
    OpensThenDrains(d, call);
    match call
    case Dispatch(notices, r) =>
      OpenedCoherent(d, notices, inotify);
      DrainConfigured(h, next, r, c, calls);
      SameHistory(next, c, calls, call);
    case Configure(fd, s) => ConfigureConfigured(d, fd, s, c, calls);
    case _ =>
      SameDevices(h, next, c, calls);
      SameHistory(next, c, calls, call);
  }

  lemma SameDevices(h: Ctx, next: Ctx, c: Ctx, calls: seq<Call>)
    requires AsConfigured(h, c, calls) && next.backend == h.backend && next.count == h.count
    ensures AsConfigured(next, c, calls)
  {
    hide LastConfigured;
  }

  lemma SameHistory(d: Ctx, c: Ctx, calls: seq<Call>, call: Call)
    requires AsConfigured(d, c, calls) && !call.Configure?
    ensures AsConfigured(d, c, calls + [call])
  {
    hide RunCalls;
    assert (calls + [call])[..|calls|] == calls;
    assert forall id :: LastConfigured(c, calls + [call], id) == LastConfigured(c, calls, id);
  }

  // ---- the events of a touchpad ----

  lemma {:induction false} TicksAt(s: Settings, typing: Option<Time>, rs: seq<Reading>, k: nat)
    requires k < |rs|
    ensures |Ticks(s, typing, rs)| == |rs| && Ticks(s, typing, rs)[k] == TickFor(s, typing, rs[k])
  {
    hide TickFor;
    TicksLength(s, typing, rs);
    if k < |rs| - 1 {
      TicksAt(s, typing, rs[..|rs| - 1], k);
    } else {
      TicksLength(s, typing, rs[..|rs| - 1]);
    }
  }

  lemma {:induction false} TicksLength(s: Settings, typing: Option<Time>, rs: seq<Reading>)
    ensures |Ticks(s, typing, rs)| == |rs|
  {
    if rs != [] { TicksLength(s, typing, rs[..|rs| - 1]); }
  }

  /** A dispatch handles each kernel event of a device with the settings last given to it:
      the factor is 1 plus the speed, and DWT rules as the presses so far decide. */
  lemma TicksOfDispatch(inotify: Option<Fd>, calls: seq<Call>, call: Call, n: nat, k: nat)
    requires ProperRun(Start(inotify), calls + [call], inotify)
    requires call.Dispatch? && n < |call.round.order|
    requires var fetch := call.round.Fetch(call.round.order[n]);
             fetch.Batch? && k < |fetch.readings|
    requires var presses := PressesBefore(Start(inotify), calls, call, n);
             T.InOrder(presses)
             && (presses != [] ==>
                   presses[|presses| - 1] <= call.round.Fetch(call.round.order[n]).readings[k].now)
    ensures var b, f := AfterOpening(RunCalls(Start(inotify), calls), call).backend, call.round.order[n];
            var rs, presses := call.round.Fetch(f).readings, PressesBefore(Start(inotify), calls, call, n);
            && f in b.devices
            && var s := LastConfigured(Start(inotify), calls, b.devices[f].id);
               var ticks := TurnTicks(Turn(b, call.round), f);
               && |ticks| == |rs|
               && ticks[k] == Tick(rs[k].ev, rs[k].now,
                                   s.dwt && exists i :: 0 <= i < |presses| && rs[k].now - presses[i] < 500 * MS,
                                   s.tap, s.natural, 1.0 + s.speed)
  {
    hide ProperRun, RunCalls, PressesBefore, AfterOpening, LastConfigured, Snapshot, Ticks;
    var c0 := Start(inotify);
    var f := call.round.order[n];
    var rs := call.round.Fetch(f).readings;
    VerdictOfCalls(inotify, calls, call, n, rs[k]);
    var b := AfterOpening(RunCalls(c0, calls), call).backend;
    OpenedConfigured(inotify, calls, call);
    TicksAt(b.devices[f].settings, Snapshot(b, call.round, f), rs, k);
  }

  lemma OpenedConfigured(inotify: Option<Fd>, calls: seq<Call>, call: Call)
    requires ProperRun(Start(inotify), calls + [call], inotify)
    ensures ProperRun(Start(inotify), calls, inotify)
    ensures AsConfigured(AfterOpening(RunCalls(Start(inotify), calls), call), Start(inotify), calls)
  {
    hide AsConfigured, RunCalls, AfterOpening, Proper, Coherent;
    var c0 := Start(inotify);
    assert (calls + [call])[..|calls|] == calls;
    SettingsAreLast(inotify, calls);
    LifeOfADevice(inotify, calls, 0);
    CallConfigured(RunCalls(c0, calls), call, inotify, c0, calls);
  }

  /** The event comes from a dispatch, and runs with the settings last given before it. */
  ghost predicate RunsAsConfigured(c: Ctx, calls: seq<Call>, id: nat, f: Fd, t: Tick, i: nat) {
    && i < |calls| && calls[i].Dispatch?
    && calls[i].round.Fetch(f).Batch? && Reading(t.ev, t.now) in calls[i].round.Fetch(f).readings
    && var s := LastConfigured(c, calls[..i], id);
       t.tap == s.tap && t.natural == s.natural && t.accel == 1.0 + s.speed
  }

  lemma TurnConfigured(t: Turn, f: Fd, c: Ctx, calls: seq<Call>, tick: Tick)
    requires f in t.backend.devices && tick in TurnTicks(t, f)
    requires t.backend.devices[f].settings == LastConfigured(c, calls, t.backend.devices[f].id)
    ensures t.round.Fetch(f).Batch? && Reading(tick.ev, tick.now) in t.round.Fetch(f).readings
    ensures var s := LastConfigured(c, calls, t.backend.devices[f].id);
            tick.tap == s.tap && tick.natural == s.natural && tick.accel == 1.0 + s.speed
  {
    hide Ticks, Snapshot, LastConfigured, TypingActive;
    var s, typing, rs := t.backend.devices[f].settings, Snapshot(t.backend, t.round, f), t.round.Fetch(f).readings;
    TicksLength(s, typing, rs);
    var k :| 0 <= k < |rs| && Ticks(s, typing, rs)[k] == tick;
    TicksAt(s, typing, rs, k);
    assert Reading(tick.ev, tick.now) == rs[k];
  }

  /** Every event of a touchpad over a whole run of calls. */
  lemma {:induction false} TicksAsConfigured(inotify: Option<Fd>, calls: seq<Call>, id: nat, f: Fd, t: Tick)
    returns (i: nat)
    requires ProperRun(Start(inotify), calls, inotify) && LivesOn(TurnsOf(inotify, calls, id), f, id)
    requires t in RunTicks(TurnsOf(inotify, calls, id), f)
    ensures RunsAsConfigured(Start(inotify), calls, id, f, t, i)
  {
    hide AsConfigured, AfterOpening, TurnTicks, LastConfigured, Tracked, RunCalls, ProperRun, Turns, RunTicks, LivesOn;
    var c0 := Start(inotify);
    if calls == [] {
      NoTicks(inotify, id, f);
    } else {
      var before, call := calls[..|calls| - 1], calls[|calls| - 1];
      var h := AfterOpening(RunCalls(c0, before), call);
      assert before + [call] == calls;
      OpenedConfigured(inotify, before, call);
      LastTurn(inotify, calls, id, f);
      if call.Dispatch? && Tracked(h.backend.devices, id) && t in TurnTicks(Turn(h.backend, call.round), f) {
        HasSettings(h, c0, before, f);
        TurnConfigured(Turn(h.backend, call.round), f, c0, before, t);
        i := |calls| - 1;
      } else {
        i := TicksAsConfigured(inotify, before, id, f, t);
        assert before[..i] == calls[..i];
      }
    }
  }

  lemma NoTicks(inotify: Option<Fd>, id: nat, f: Fd)
    ensures RunTicks(TurnsOf(inotify, [], id), f) == []
  {}

  /** The last call adds the events of its own turn, if it is one. */
  lemma LastTurn(inotify: Option<Fd>, calls: seq<Call>, id: nat, f: Fd)
    requires calls != [] && LivesOn(TurnsOf(inotify, calls, id), f, id)
    ensures var before, call := calls[..|calls| - 1], calls[|calls| - 1];
            var h := AfterOpening(RunCalls(Start(inotify), before), call);
            var ticks := RunTicks(TurnsOf(inotify, before, id), f);
            && LivesOn(TurnsOf(inotify, before, id), f, id)
            && if call.Dispatch? && Tracked(h.backend.devices, id) then
                 && f in h.backend.devices && h.backend.devices[f].id == id
                 && RunTicks(TurnsOf(inotify, calls, id), f) == ticks + TurnTicks(Turn(h.backend, call.round), f)
               else RunTicks(TurnsOf(inotify, calls, id), f) == ticks
  {
    hide AfterOpening, RunCalls, TurnTicks, Tracked;
    var before, call := calls[..|calls| - 1], calls[|calls| - 1];
    var h := AfterOpening(RunCalls(Start(inotify), before), call);
    var turns, all := TurnsOf(inotify, before, id), TurnsOf(inotify, calls, id);
    if call.Dispatch? && Tracked(h.backend.devices, id) {
      assert all == turns + [Turn(h.backend, call.round)] && all[..|turns|] == turns;
      assert all[|turns|] == Turn(h.backend, call.round);
    } else {
      assert all == turns;
    }
    assert forall i :: 0 <= i < |turns| ==> all[i] == turns[i];
  }

  lemma HasSettings(h: Ctx, c: Ctx, calls: seq<Call>, f: Fd)
    requires AsConfigured(h, c, calls) && f in h.backend.devices
    ensures h.backend.devices[f].settings == LastConfigured(c, calls, h.backend.devices[f].id)
  {}

  // ---- motion ----

  /** Every dispatch finds the device set to speed `v` and to this scroll direction. */
  ghost predicate StaysSet(c: Ctx, calls: seq<Call>, id: nat, v: real, natural: bool) {
    forall i :: 0 <= i < |calls| && calls[i].Dispatch? ==>
      LastConfigured(c, calls[..i], id).speed == v && LastConfigured(c, calls[..i], id).natural == natural
  }

  lemma TicksStaySet(inotify: Option<Fd>, calls: seq<Call>, id: nat, f: Fd, v: real, natural: bool)
    requires ProperRun(Start(inotify), calls, inotify) && LivesOn(TurnsOf(inotify, calls, id), f, id)
    requires StaysSet(Start(inotify), calls, id, v, natural)
    ensures forall t :: t in RunTicks(TurnsOf(inotify, calls, id), f) ==> t.accel == 1.0 + v && t.natural == natural
  {
    hide LastConfigured, TurnsOf, LivesOn, RunTicks, ProperRun;
    forall t | t in RunTicks(TurnsOf(inotify, calls, id), f)
      ensures t.accel == 1.0 + v && t.natural == natural
    {
      var i := TicksAsConfigured(inotify, calls, id, f, t);
    }
  }

  /** With the speed left alone, the units in the queue are the counts of the motion frames
      times 0.18 times 1 plus the speed and those of the scroll frames times 0.02. */
  lemma SpeedInTheQueue(inotify: Option<Fd>, calls: seq<Call>, id: nat, a: AxisId, v: real, natural: bool)
    returns (f: Fd)
    requires ProperRun(Start(inotify), calls, inotify) && StaysSet(Start(inotify), calls, id, v, natural)
    ensures var turns, es := TurnsOf(inotify, calls, id), Heard(inotify, calls, id);
            var ticks := RunTicks(turns, f);
            && LivesOn(turns, f, id)
            && (forall t :: t in ticks ==> t.accel == 1.0 + v && t.natural == natural)
            && (IsTouchpad(turns, f) ==>
                  var b := Ledger.Books(INITIAL, ticks, a);
                  Ledger.UnitSum(es, a, natural) as real + Final(INITIAL, ticks).At(a).rem
                  == Ledger.Ideal(b.motion, 1.0 + v) + 0.02 * b.scroll as real - b.remDropped)
  {
    hide ProperRun, TurnsOf, Heard, RunTicks, Final, StaysSet, LivesOn, Ledger.Books, Ledger.Ideal;
    f := LedgerInTheQueue(inotify, calls, id, a, natural);
    TicksStaySet(inotify, calls, id, f, v, natural);
    Ledger.OneFactor(INITIAL, RunTicks(TurnsOf(inotify, calls, id), f), a, 1.0 + v);
  }

  /** With one finger at a time and the speed left alone, the pointer units in the queue are
      the travel times 0.18 times 1 plus the speed, but for what lifts drop, what the frame
      still holds and the remainder. */
  lemma DisplacementInTheQueue(inotify: Option<Fd>, calls: seq<Call>, id: nat, a: AxisId, v: real, natural: bool,
                               lo: I32, hi: I32) returns (f: Fd)
    requires ProperRun(Start(inotify), calls, inotify) && StaysSet(Start(inotify), calls, id, v, natural)
    ensures var turns, es := TurnsOf(inotify, calls, id), Heard(inotify, calls, id);
            var ticks := RunTicks(turns, f);
            && LivesOn(turns, f, id)
            && (IsTouchpad(turns, f) && P.OneFinger(INITIAL, ticks, 1.0 + v)
                && Paths.InRange(ticks, a, false, lo, hi) ==>
                  var s := Final(INITIAL, ticks).At(a);
                  Ledger.UnitSum(es, a, natural) as real + s.rem
                  == Ledger.Ideal(Paths.Travel(Paths.Segments(ticks, a, false))
                                  - Ledger.Books(INITIAL, ticks, a).liftDropped - s.acc, 1.0 + v))
  {
    hide ProperRun, TurnsOf, Heard, RunTicks, Final, StaysSet, LivesOn, IsTouchpad, Ledger.Books, Ledger.Ideal,
      Ledger.Balances, P.MotionOnly, P.OneFinger, Paths.InRange, Paths.Segments, Paths.Travel;
    f := LedgerInTheQueue(inotify, calls, id, a, natural);
    TicksStaySet(inotify, calls, id, f, v, natural);
    var ticks, es := RunTicks(TurnsOf(inotify, calls, id), f), Heard(inotify, calls, id);
    if IsTouchpad(TurnsOf(inotify, calls, id), f) && P.OneFinger(INITIAL, ticks, 1.0 + v)
       && Paths.InRange(ticks, a, false, lo, hi) {
      P.ContactInflow(INITIAL, ticks, a, lo, hi);
      P.OnlyMotion(INITIAL, ticks, a, 1.0 + v);
      P.MotionTotal(Ledger.Books(INITIAL, ticks, a), INITIAL.At(a), Final(INITIAL, ticks).At(a),
                    Ledger.UnitSum(es, a, natural), Ledger.SwipeSum(es, a), 1.0 + v);
    }
  }
}
