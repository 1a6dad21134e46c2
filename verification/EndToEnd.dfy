/** From the client's calls to what each device puts in the queue. */
module EndToEnd {
  import opened Basics
  import opened Events
  import opened Touchpad
  import opened Devices
  import opened Drain
  import opened NonInterference
  import opened Context
  import opened Lifecycle

  // ---- the drains a device takes part in ----

  /** The dispatches that find the device tracked, each with the backend they drain. */
  ghost function Turns(c: Ctx, calls: seq<Call>, id: nat): seq<Turn> {
    if calls == [] then []
    else
      var before, call := calls[..|calls| - 1], calls[|calls| - 1];
      var h := AfterOpening(RunCalls(c, before), call);
      Turns(c, before, id)
      + if call.Dispatch? && Tracked(h.backend.devices, id) then [Turn(h.backend, call.round)] else []
  }

  /** A device as opening leaves it, up to its settings. */
  predicate Newborn(d: Device) {
    d.pad == INITIAL && d.held == [] && (d.isAbsolute || d.isKeyboard || d.isPointer)
  }

  /** The device that a run of turns leaves behind on `f`. */
  ghost predicate LeavesBehind(turns: seq<Turn>, f: Fd, e: Device) {
    if turns == [] then Newborn(e)
    else
      var after := DrainNext(turns[|turns| - 1].backend, turns[|turns| - 1].round).devices;
      f in after && e == after[f].(settings := e.settings)
  }

  /** What the queue has been told about a device so far, and where that leaves it. */
  ghost predicate Tale(c: Ctx, id: nat, turns: seq<Turn>, es: seq<LibEvent>, f: Fd) {
    var m := c.backend.devices;
    if es == [] then turns == [] && !Tracked(m, id)
    else
      && id < c.count && es == [DeviceAdded] + Proj(RunOut(turns), id)
      && Carries(turns, f) && Starts(turns, f, id)
      && (if Tracked(m, id) then f in m && m[f].id == id && LeavesBehind(turns, f, m[f])
          else turns != [] && f !in DrainNext(turns[|turns| - 1].backend, turns[|turns| - 1].round).devices)
  }

  ghost predicate Starts(turns: seq<Turn>, f: Fd, id: nat) {
    turns != [] ==>
      f in turns[0].backend.devices && turns[0].backend.devices[f].id == id && Newborn(turns[0].backend.devices[f])
  }

  // ---- opening ----

  lemma OpenNextBirth(c: Ctx, n: Node)
    requires forall f :: f in c.backend.devices ==> c.backend.devices[f].id < c.count
    ensures var m, after := c.backend.devices, OpenNext(c, n).backend.devices;
            && (forall f :: f in m ==> f in after && after[f] == m[f])
            && (forall f :: f in after && f !in m ==> Newborn(after[f]) && after[f].id == c.count)
            && (forall f :: f in after ==> after[f].id < OpenNext(c, n).count)
            && c.count <= OpenNext(c, n).count
  {
    hide IdleSlots;
  }

  lemma {:induction false} OpenAllBirth(c: Ctx, ns: seq<Node>, id: nat)
    requires forall f :: f in c.backend.devices ==> c.backend.devices[f].id < c.count
    ensures var m, after := c.backend.devices, OpenAll(c, ns).backend.devices;
            && (forall f :: f in m ==> f in after && after[f] == m[f])
            && (forall f :: f in after && f !in m ==> Newborn(after[f]) && c.count <= after[f].id)
            && (forall f :: f in after ==> after[f].id < OpenAll(c, ns).count)
            && c.count <= OpenAll(c, ns).count
    ensures Proj(OpenAllOut(c, ns), id)
            == if Tracked(OpenAll(c, ns).backend.devices, id) && !Tracked(c.backend.devices, id)
               then [DeviceAdded] else []
  {
    hide OpenNext, OpenOut, Newborn, Proj, Tracked;
    NothingSeen(id);
    if ns != [] {
      var before, n := ns[..|ns| - 1], ns[|ns| - 1];
      OpenAllBirth(c, before, id);
      var d := OpenAll(c, before);
      OpenNextBirth(d, n);
      OpenLife(d, n, id);
      TrackedStays(c.backend.devices, d.backend.devices, id);
      IdsBelow(d, id);
      ProjConcat(OpenAllOut(c, before), OpenOut(d, n), id);
    }
  }

  lemma TrackedStays(m: map<Fd, Device>, after: map<Fd, Device>, id: nat)
    requires forall f :: f in m ==> f in after && after[f] == m[f]
    ensures Tracked(m, id) ==> Tracked(after, id)
  {
    if f :| f in m && m[f].id == id { assert after[f].id == id; }
  }

  lemma IdsBelow(c: Ctx, id: nat)
    requires forall f :: f in c.backend.devices ==> c.backend.devices[f].id < c.count
    ensures Tracked(c.backend.devices, id) ==> id < c.count
  {}

  /** Opening keeps the tale of every device, and begins that of a new one. */
  lemma OpeningTale(c: Ctx, ns: seq<Node>, id: nat, turns: seq<Turn>, es: seq<LibEvent>, f: Fd)
    returns (g: Fd)
    requires forall f :: f in c.backend.devices ==> c.backend.devices[f].id < c.count
    requires Tale(c, id, turns, es, f)
    ensures Tale(OpenAll(c, ns), id, turns, es + Proj(OpenAllOut(c, ns), id), g)
  {
    hide OpenAll, OpenAllOut, Carries, LeavesBehind, Proj, RunOut, Newborn;
    var h := OpenAll(c, ns);
    var m, after := c.backend.devices, h.backend.devices;
    g := f;
    OpenAllBirth(c, ns, id);
    TrackedStays(m, after, id);
    assert es + [] == es;
    if es == [] && Tracked(after, id) {
      g :| g in after && after[g].id == id;
      assert g !in m;
      FirstWords(id, g, after[g]);
    }
  }

  lemma FirstWords(id: nat, f: Fd, e: Device)
    requires Newborn(e)
    ensures [DeviceAdded] + Proj(RunOut([]), id) == [DeviceAdded] && Carries([], f) && LeavesBehind([], f, e)
  {}

  // ---- draining ----

  lemma TurnsAppend(turns: seq<Turn>, t: Turn, f: Fd, id: nat)
    requires Carries(turns, f) && Starts(turns, f, id) && ProperTurn(t, f)
    requires t.backend.devices[f].id == id && LeavesBehind(turns, f, t.backend.devices[f])
    ensures Carries(turns + [t], f) && Starts(turns + [t], f, id)
    ensures RunOut(turns + [t]) == RunOut(turns) + DrainOut(t.backend, t.round)
  {
    hide DrainNext, DrainOut, ProperRound, DistinctIds, Newborn;
    assert (turns + [t])[..|turns|] == turns;
  }

  /** A drain adds a turn to the tale of a tracked device and nothing to any other. */
  lemma DrainTale(c: Ctx, r: Round, next: Ctx, id: nat, turns: seq<Turn>, es: seq<LibEvent>, f: Fd)
    requires ProperRound(c.backend, r) && DistinctIds(c.backend.devices)
    requires next.backend == DrainNext(c.backend, r) && next.count == c.count
    requires Tale(c, id, turns, es, f)
    ensures var more := if Tracked(c.backend.devices, id) then [Turn(c.backend, r)] else [];
            Tale(next, id, turns + more, es + Proj(DrainOut(c.backend, r), id), f)
  {
    hide DrainNext, DrainOut, Carries, Starts, RunOut, Proj, ProperRound, DistinctIds;
    var m, after := c.backend.devices, DrainNext(c.backend, r).devices;
    var out := Proj(DrainOut(c.backend, r), id);
    if Tracked(m, id) {
      var t := Turn(c.backend, r);
      TurnTale(c.backend, r, f, id);
      TurnsAppend(turns, t, f, id);
      ProjConcat(RunOut(turns), DrainOut(c.backend, r), id);
      assert es + out == [DeviceAdded] + (Proj(RunOut(turns), id) + out);
    } else {
      DrainSilent(c.backend, r, id);
      assert es + [] == es && turns + [] == turns;
    }
  }

  /** A tracked device is still where it was after a drain, or nowhere. */
  lemma TurnTale(b: Backend, r: Round, f: Fd, id: nat)
    requires ProperRound(b, r) && DistinctIds(b.devices) && f in b.devices && b.devices[f].id == id
    ensures ProperTurn(Turn(b, r), f)
    ensures var after := DrainNext(b, r).devices;
            && (Tracked(after, id) <==> f in after)
            && (f in after ==> after[f].id == id && after[f] == after[f].(settings := after[f].settings))
  {
    hide DrainNext, DrainOut;
    DrainKeys(b, r);
    var after := DrainNext(b, r).devices;
    if g :| g in after && after[g].id == id { assert g == f; }
  }

  // ---- configuring ----

  lemma ConfigureTale(c: Ctx, next: Ctx, fd: Fd, s: Settings, id: nat, turns: seq<Turn>, es: seq<LibEvent>, f: Fd)
    requires Tale(c, id, turns, es, f) && next.count == c.count
    requires var m := c.backend.devices;
             next.backend.devices == if fd in m then m[fd := m[fd].(settings := s)] else m
    ensures Tale(next, id, turns, es, f)
  {
    hide DrainNext, Carries, Starts, RunOut, Proj;
    var m, n := c.backend.devices, next.backend.devices;
    assert Tracked(n, id) <==> Tracked(m, id) by {
      if g :| g in m && m[g].id == id { assert n[g].id == id; }
      if g :| g in n && n[g].id == id { assert m[g].id == id; }
    }
  }

  // ---- any run of calls ----

  lemma {:induction false} Story(inotify: Option<Fd>, calls: seq<Call>, id: nat) returns (f: Fd)
    requires ProperRun(Start(inotify), calls, inotify)
    ensures var c0 := Start(inotify);
            Tale(RunCalls(c0, calls), id, Turns(c0, calls, id), Proj(Enqueued(c0, calls), id), f)
  {
    hide Tale, CallNext, CallOut, Proper, AfterOpening, NodesOf, DrainNext, DrainOut, OpenAllOut, Tracked, Proj;
    var c0 := Start(inotify);
    if calls == [] {
      f := 0;
      NothingTold(inotify, id);
    } else {
      var before, call := calls[..|calls| - 1], calls[|calls| - 1];
      var c := RunCalls(c0, before);
      var g := Story(inotify, before, id);
      LifeOfADevice(inotify, before, id);
      f := CallTale(c, call, inotify, id, Turns(c0, before, id), Proj(Enqueued(c0, before), id), g);
      ProjConcat(Enqueued(c0, before), CallOut(c, call), id);
    }
  }

  lemma NothingTold(inotify: Option<Fd>, id: nat)
    ensures Tale(Start(inotify), id, [], Proj([], id), 0)
  {}

  lemma CallTale(c: Ctx, call: Call, inotify: Option<Fd>, id: nat, turns: seq<Turn>,
                                    es: seq<LibEvent>, g: Fd) returns (f: Fd)
    requires Coherent(c, inotify) && Proper(c, call, inotify) && Tale(c, id, turns, es, g)
    ensures var h := AfterOpening(c, call);
            var more := if call.Dispatch? && Tracked(h.backend.devices, id) then [Turn(h.backend, call.round)] else [];
            Tale(CallNext(c, call), id, turns + more, es + Proj(CallOut(c, call), id), f)
  {
    hide Tale, CallNext, CallOut, OpenAll, OpenAllOut, DrainNext, DrainOut, Tracked, Proj, DistinctIds, ProperRound;
    var ns, h, next := NodesOf(c, call), AfterOpening(c, call), CallNext(c, call);
    OpensThenDrains(c, call);
    f := OpeningTale(c, ns, id, turns, es, g);
    var told := es + Proj(OpenAllOut(c, ns), id);
    assert turns + [] == turns;
    match call
    case Dispatch(notices, r) =>
      OpenedCoherent(c, notices, inotify);
      DrainTale(h, r, next, id, turns, told, f);
      ProjConcat(OpenAllOut(c, ns), DrainOut(h.backend, r), id);
      assert told + Proj(DrainOut(h.backend, r), id)
             == es + (Proj(OpenAllOut(c, ns), id) + Proj(DrainOut(h.backend, r), id));
    case Configure(fd, s) =>
      ConfigureNext(c, fd, s);
      ConfigureTale(h, next, fd, s, id, turns, told, f);
    case _ =>
      SameTale(h, next, id, turns, told, f);
  }

  lemma ConfigureNext(c: Ctx, fd: Fd, s: Settings)
    ensures var m := c.backend.devices;
            CallNext(c, Configure(fd, s)).backend.devices == if fd in m then m[fd := m[fd].(settings := s)] else m
    ensures AfterOpening(c, Configure(fd, s)) == c
  {}

  lemma SameTale(c: Ctx, next: Ctx, id: nat, turns: seq<Turn>, es: seq<LibEvent>, f: Fd)
    requires Tale(c, id, turns, es, f) && next.backend == c.backend && next.count == c.count
    ensures Tale(next, id, turns, es, f)
  {}
}
