/** The touchpad and keyboard machines as they run inside the drain loop. */
module Composition {
  import opened Basics
  import opened Events
  import opened Touchpad
  import opened Keyboard
  import K = KeyboardRuns
  import opened Devices
  import opened Drain
  import opened NonInterference
  import opened Mouse

  /** What ends a device's events: its removal, in the turn that finds it gone. */
  function Farewell(turns: seq<Turn>, f: Fd): seq<LibEvent> {
    if turns != [] && turns[|turns| - 1].round.Fetch(f).Vanished? then [DeviceRemoved] else []
  }

  lemma OnlyLastVanishes(turns: seq<Turn>, f: Fd, i: nat)
    requires Carries(turns, f) && i < |turns| - 1
    ensures !turns[i].round.Fetch(f).Vanished?
  {
    assert ProperTurn(turns[i], f) && Linked(turns[i], turns[i + 1], f);
    hide DrainNext, DrainOut, Carries;
    DrainAlone(turns[i].backend, turns[i].round, f);
  }

  // ---- a keyboard ----

  function Inputs(rs: seq<Reading>): seq<K.Op> {
    if rs == [] then [] else Inputs(rs[..|rs| - 1]) + [K.Input(rs[|rs| - 1].ev, rs[|rs| - 1].now)]
  }

  /** The operations a keyboard goes through: a poll and a batch of input for each drain. */
  function KeyOps(own: seq<Own>): seq<K.Op> {
    if own == [] then []
    else
      var o := own[|own| - 1];
      KeyOps(own[..|own| - 1]) + [K.Poll(o.now)] + if o.fetch.Batch? then Inputs(o.fetch.readings) else []
  }

  lemma KeySnoc(ops: seq<K.Op>, op: K.Op)
    ensures K.Held(ops + [op]) == K.Step(K.Held(ops), op)
    ensures K.Output(ops + [op]) == K.Output(ops) + K.StepEvents(K.Held(ops), op)
  {
    assert (ops + [op])[..|ops|] == ops;
  }

  lemma HandleOps(d: Device, s: Option<Time>, r: Reading, ops: seq<K.Op>)
    requires Types(d) && d.held == K.Held(ops)
    ensures HandleNext(d, s, r).held == K.Held(ops + [K.Input(r.ev, r.now)])
    ensures K.Output(ops) + HandleEvents(d, s, r) == K.Output(ops + [K.Input(r.ev, r.now)])
  {
    hide KeyNext, KeyEvents;
    KeySnoc(ops, K.Input(r.ev, r.now));
  }

  lemma {:induction false} BatchOps(d: Device, s: Option<Time>, rs: seq<Reading>, ops: seq<K.Op>)
    requires Types(d) && d.held == K.Held(ops)
    ensures BatchNext(d, s, rs).held == K.Held(ops + Inputs(rs))
    ensures K.Output(ops) + BatchEvents(d, s, rs) == K.Output(ops + Inputs(rs))
  {
    hide HandleNext, HandleEvents, K.Held, K.Output;
    if rs == [] {
      assert ops + [] == ops;
    } else {
      var before, r := rs[..|rs| - 1], rs[|rs| - 1];
      BatchOps(d, s, before, ops);
      BatchSame(d, s, before);
      assert ops + Inputs(rs) == ops + Inputs(before) + [K.Input(r.ev, r.now)];
      HandleOps(BatchNext(d, s, before), s, r, ops + Inputs(before));
    }
  }

  lemma DrainOps(d: Device, o: Own, ops: seq<K.Op>)
    requires Types(d) && d.held == K.Held(ops)
    ensures var after := ops + [K.Poll(o.now)] + if o.fetch.Batch? then Inputs(o.fetch.readings) else [];
            && AloneNext(d, o.now, None, o.fetch).held == K.Held(after)
            && K.Output(ops) + AloneOut(d, o.now, None, o.fetch)
               == K.Output(after) + if o.fetch.Vanished? then [DeviceRemoved] else []
  {
    hide BatchNext, BatchEvents, K.Held, K.Output, Polled, PollEvents;
    var polled := ops + [K.Poll(o.now)];
    KeySnoc(ops, K.Poll(o.now));
    if o.fetch.Batch? {
      BatchOps(PollNext(d, o.now), None, o.fetch.readings, polled);
    } else {
      assert polled + [] == polled;
    }
  }

  lemma {:induction false} AloneOps(d: Device, own: seq<Own>)
    requires Types(d) && d.held == []
    requires forall i :: 0 <= i < |own| - 1 ==> !own[i].fetch.Vanished?
    ensures SameDevice(d, AloneRun(d, own)) && AloneRun(d, own).held == K.Held(KeyOps(own))
    ensures AloneRunOut(d, own)
            == K.Output(KeyOps(own)) + if own != [] && own[|own| - 1].fetch.Vanished? then [DeviceRemoved] else []
  {
    if own != [] {
      var before, o := own[..|own| - 1], own[|own| - 1];
      AloneOps(d, before);
      hide AloneNext, AloneOut;
      DrainOps(AloneRun(d, before), o, KeyOps(before));
      NextSame(AloneRun(d, before), o);
      assert AloneRunOut(d, before) == K.Output(KeyOps(before));
    }
  }

  lemma NextSame(d: Device, o: Own)
    ensures SameDevice(d, AloneNext(d, o.now, None, o.fetch))
  {
    FetchSame(PollNext(d, o.now), None, o.fetch);
  }

  /** In the whole loop, whatever else is plugged in, a keyboard's events are those of the
      keyboard machine on the keyboard's own input, and then its removal. */
  lemma KeyboardInTheLoop(turns: seq<Turn>, f: Fd, d: Device)
    requires Carries(turns, f) && Types(d) && d.held == []
    requires turns != [] ==> turns[0].backend.devices[f] == d
    ensures Proj(RunOut(turns), d.id) == K.Output(KeyOps(OwnTurns(turns, f))) + Farewell(turns, f)
  {
    hide Carries, K.Output, KeyOps, Proj, RunOut, AloneRunOut;
    RunAlone(turns, f, d);
    var own := OwnTurns(turns, f);
    forall i | 0 <= i < |own| - 1 ensures !own[i].fetch.Vanished? { OnlyLastVanishes(turns, f, i); }
    AloneOps(d, own);
  }

  /** So the client sees every key of every keyboard follow the grammar. */
  lemma KeyGrammarInTheLoop(turns: seq<Turn>, f: Fd, d: Device, c: nat)
    requires Carries(turns, f) && Types(d) && d.held == []
    requires turns != [] ==> turns[0].backend.devices[f] == d
    requires K.WellFormed(KeyOps(OwnTurns(turns, f)))
    ensures K.WatchAll(K.Up, Proj(RunOut(turns), d.id), c)
            == K.PhaseOf(K.Press(KeyOps(OwnTurns(turns, f)), c))
  {
    hide Carries, K.Output, KeyOps, Proj, RunOut;
    KeyboardInTheLoop(turns, f, d);
    var es := K.Output(KeyOps(OwnTurns(turns, f)));
    K.KeyGrammar(KeyOps(OwnTurns(turns, f)), c);
    K.WatchConcat(K.Up, es, Farewell(turns, f), c);
    assert [DeviceRemoved][..0] == [];
  }

  // ---- a mouse ----

  function EventsOf(rs: seq<Reading>): seq<RawEvent> {
    if rs == [] then [] else EventsOf(rs[..|rs| - 1]) + [rs[|rs| - 1].ev]
  }

  /** All kernel events of a device, in order. */
  function OwnEvents(own: seq<Own>): seq<RawEvent> {
    if own == [] then []
    else
      var o := own[|own| - 1];
      OwnEvents(own[..|own| - 1]) + if o.fetch.Batch? then EventsOf(o.fetch.readings) else []
  }

  predicate IsMouse(d: Device) {
    !d.isAbsolute && !d.isKeyboard && d.isPointer
  }

  lemma {:induction false} MouseConcat(a: seq<RawEvent>, b: seq<RawEvent>)
    ensures MouseOutput(a + b) == MouseOutput(a) + MouseOutput(b)
  {
    hide RelativeEvents;
    if b == [] {
      assert a + b == a;
    } else {
      var n := |b| - 1;
      assert (a + b)[..|a| + n] == a + b[..n];
      MouseConcat(a, b[..n]);
    }
  }

  lemma {:induction false} BatchMouse(d: Device, s: Option<Time>, rs: seq<Reading>)
    requires IsMouse(d)
    ensures BatchNext(d, s, rs) == d
    ensures BatchEvents(d, s, rs) == MouseOutput(EventsOf(rs))
  {
    hide RelativeEvents, Emits, Next, KeyNext, KeyEvents;
    if rs != [] {
      var before := rs[..|rs| - 1];
      BatchMouse(d, s, before);
      assert EventsOf(rs)[..|EventsOf(before)|] == EventsOf(before);
    }
  }

  lemma AloneMouse(d: Device, o: Own)
    requires IsMouse(d)
    ensures AloneNext(d, o.now, None, o.fetch) == d
    ensures AloneOut(d, o.now, None, o.fetch)
            == (if o.fetch.Batch? then MouseOutput(EventsOf(o.fetch.readings)) else [])
               + if o.fetch.Vanished? then [DeviceRemoved] else []
  {
    hide BatchNext, BatchEvents, MouseOutput;
    if o.fetch.Batch? { BatchMouse(d, None, o.fetch.readings); }
  }

  lemma NothingMoved()
    ensures MouseOutput([]) == []
  {}

  lemma {:induction false} AloneMouseRun(d: Device, own: seq<Own>)
    requires IsMouse(d)
    requires forall i :: 0 <= i < |own| - 1 ==> !own[i].fetch.Vanished?
    ensures AloneRun(d, own) == d
    ensures AloneRunOut(d, own)
            == MouseOutput(OwnEvents(own)) + if own != [] && own[|own| - 1].fetch.Vanished? then [DeviceRemoved] else []
  {
    hide AloneNext, AloneOut, MouseOutput, IsMouse;
    NothingMoved();
    if own != [] {
      var before, o := own[..|own| - 1], own[|own| - 1];
      var more := if o.fetch.Batch? then EventsOf(o.fetch.readings) else [];
      AloneMouseRun(d, before);
      AloneMouse(d, o);
      assert AloneRunOut(d, before) == MouseOutput(OwnEvents(before));
      MouseConcat(OwnEvents(before), more);
      assert AloneOut(d, o.now, None, o.fetch)
             == MouseOutput(more) + if o.fetch.Vanished? then [DeviceRemoved] else [];
    }
  }

  /** In the whole loop a mouse's events are those of the mouse on its own kernel events,
      and then its removal. */
  lemma MouseInTheLoop(turns: seq<Turn>, f: Fd, d: Device)
    requires Carries(turns, f) && IsMouse(d)
    requires turns != [] ==> turns[0].backend.devices[f] == d
    ensures Proj(RunOut(turns), d.id) == MouseOutput(OwnEvents(OwnTurns(turns, f))) + Farewell(turns, f)
  {
    hide Carries, MouseOutput, OwnEvents, Proj, RunOut, AloneRunOut;
    RunAlone(turns, f, d);
    var own := OwnTurns(turns, f);
    forall i | 0 <= i < |own| - 1 ensures !own[i].fetch.Vanished? { OnlyLastVanishes(turns, f, i); }
    AloneMouseRun(d, own);
  }

  // ---- a touchpad ----

  function Ticks(s: Settings, typing: Option<Time>, rs: seq<Reading>): seq<Tick> {
    if rs == [] then [] else Ticks(s, typing, rs[..|rs| - 1]) + [TickFor(s, typing, rs[|rs| - 1])]
  }

  lemma {:induction false} BatchTicks(d: Device, s: Option<Time>, rs: seq<Reading>)
    requires d.isAbsolute
    ensures BatchNext(d, s, rs) == d.(pad := Final(d.pad, Ticks(d.settings, s, rs)))
    ensures BatchEvents(d, s, rs) == Outputs(d.pad, Ticks(d.settings, s, rs))
  {
    if rs != [] {
      hide Next, Emits, TickFor;
      var before := Ticks(d.settings, s, rs[..|rs| - 1]);
      BatchTicks(d, s, rs[..|rs| - 1]);
      assert Ticks(d.settings, s, rs)[..|before|] == before;
    }
  }

  lemma {:induction false} RunsConcat(s: Pad, a: seq<Tick>, b: seq<Tick>)
    ensures Final(s, a + b) == Final(Final(s, a), b)
    ensures Outputs(s, a + b) == Outputs(s, a) + Outputs(Final(s, a), b)
  {
    hide Next, Emits;
    if b == [] {
      assert a + b == a;
    } else {
      var n := |b| - 1;
      assert (a + b)[..|a| + n] == a + b[..n];
      RunsConcat(s, a, b[..n]);
    }
  }

  /** A touchpad's own events, each with the settings of the turn and the DWT verdict that
      the rest of the backend decides: the only thing in a turn that other devices contribute. */
  function TurnTicks(t: Turn, f: Fd): seq<Tick> {
    if f in t.backend.devices && t.round.Fetch(f).Batch? then
      Ticks(t.backend.devices[f].settings, Snapshot(t.backend, t.round, f), t.round.Fetch(f).readings)
    else []
  }

  function RunTicks(turns: seq<Turn>, f: Fd): seq<Tick> {
    if turns == [] then []
    else RunTicks(turns[..|turns| - 1], f) + TurnTicks(turns[|turns| - 1], f)
  }

  lemma TurnPad(t: Turn, f: Fd, d: Device)
    requires ProperTurn(t, f) && t.backend.devices[f] == d && d.isAbsolute && d.held == []
    ensures Proj(DrainOut(t.backend, t.round), d.id) == Outputs(d.pad, TurnTicks(t, f)) + Farewell([t], f)
    ensures f in DrainNext(t.backend, t.round).devices ==>
              DrainNext(t.backend, t.round).devices[f] == d.(pad := Final(d.pad, TurnTicks(t, f)))
  {
    hide DrainOut, DrainNext, Snapshot, Ticks, BatchNext, BatchEvents, DistinctIds, ProperRound;
    var s, x := Snapshot(t.backend, t.round, f), t.round.Fetch(f);
    DrainAlone(t.backend, t.round, f);
    assert Polled([], t.round.now) == [];
    assert PollNext(d, t.round.now) == d && PollOut(d, t.round.now) == [];
    if x.Batch? { BatchTicks(d, s, x.readings); }
  }

  /** The touchpad as the last turn of a run finds it. */
  lemma {:induction false} CarriedPad(turns: seq<Turn>, f: Fd, d: Device)
    requires Carries(turns, f) && turns != [] && turns[0].backend.devices[f] == d
    requires d.isAbsolute && d.held == []
    ensures var e := turns[|turns| - 1].backend.devices[f];
            e == d.(pad := Final(d.pad, RunTicks(turns[..|turns| - 1], f)), settings := e.settings)
  {
    var n := |turns| - 1;
    if n > 0 {
      var before := turns[..n];
      CarriesPrefix(turns, f);
      CarriedPad(before, f, d);
      assert ProperTurn(turns[n - 1], f) && Linked(turns[n - 1], turns[n], f);
      hide Carries, DrainNext, DrainOut;
      TurnPad(turns[n - 1], f, turns[n - 1].backend.devices[f]);
      RunsConcat(d.pad, RunTicks(before[..n - 1], f), TurnTicks(turns[n - 1], f));
    }
  }

  lemma NothingRun(d: Device)
    ensures Proj([], d.id) == [] && Outputs(d.pad, []) == []
  {}

  lemma TouchpadStep(before: seq<Turn>, t: Turn, f: Fd, d: Device)
    requires ProperTurn(t, f) && d.isAbsolute && d.held == []
    requires var e := t.backend.devices[f];
             e == d.(pad := Final(d.pad, RunTicks(before, f)), settings := e.settings)
    requires Proj(RunOut(before), d.id) == Outputs(d.pad, RunTicks(before, f))
    ensures Proj(RunOut(before) + DrainOut(t.backend, t.round), d.id)
            == Outputs(d.pad, RunTicks(before, f) + TurnTicks(t, f)) + Farewell([t], f)
  {
    hide DistinctIds, ProperRound, DrainNext, DrainOut, Final, Outputs, TurnTicks, RunTicks, Proj, RunOut;
    TurnPad(t, f, t.backend.devices[f]);
    ProjConcat(RunOut(before), DrainOut(t.backend, t.round), d.id);
    RunsConcat(d.pad, RunTicks(before, f), TurnTicks(t, f));
  }

  /** In the whole loop, and whatever is configured in between, a touchpad's events are
      those of the touchpad machine on its own kernel events, with the settings of each
      turn and the DWT verdicts of the snapshots, and then its removal. */
  lemma {:induction false} TouchpadInTheLoop(turns: seq<Turn>, f: Fd, d: Device)
    requires Carries(turns, f) && d.isAbsolute && d.held == []
    requires turns != [] ==> turns[0].backend.devices[f] == d
    ensures Proj(RunOut(turns), d.id) == Outputs(d.pad, RunTicks(turns, f)) + Farewell(turns, f)
  {
    hide Carries, ProperTurn, DrainNext, DrainOut, Final, Outputs, TurnTicks, Proj;
    NothingRun(d);
    if turns != [] {
      var n := |turns| - 1;
      var before, t := turns[..n], turns[n];
      CarriesPrefix(turns, f);
      if n > 0 { OnlyLastVanishes(turns, f, n - 1); }
      TouchpadInTheLoop(before, f, d);
      CarriedPad(turns, f, d);
      assert before != [] ==> before[|before| - 1] == turns[n - 1];
      TouchpadStep(before, t, f, d);
    }
  }

  // ---- no reading is lost on the way ----

  lemma {:induction false} InputsAre(rs: seq<Reading>)
    ensures Inputs(rs) == seq(|rs|, i requires 0 <= i < |rs| => K.Input(rs[i].ev, rs[i].now))
    ensures EventsOf(rs) == seq(|rs|, i requires 0 <= i < |rs| => rs[i].ev)
  {
    if rs != [] { InputsAre(rs[..|rs| - 1]); }
  }

  /** Each drain gives a keyboard one poll and then every reading of the batch, in order,
      and a mouse every kernel event of it. */
  lemma EveryReadingCounts(own: seq<Own>, o: Own)
    ensures KeyOps(own + [o])
            == KeyOps(own) + [K.Poll(o.now)]
               + if o.fetch.Batch? then
                   var rs := o.fetch.readings;
                   seq(|rs|, i requires 0 <= i < |rs| => K.Input(rs[i].ev, rs[i].now))
                 else []
    ensures OwnEvents(own + [o])
            == OwnEvents(own)
               + if o.fetch.Batch? then
                   var rs := o.fetch.readings;
                   seq(|rs|, i requires 0 <= i < |rs| => rs[i].ev)
                 else []
  {
    assert (own + [o])[..|own|] == own;
    if o.fetch.Batch? { InputsAre(o.fetch.readings); }
  }
}
