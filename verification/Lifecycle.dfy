/** The life of every device as the client sees it through the queue. */
module Lifecycle {
  import opened Basics
  import opened Events
  import opened Touchpad
  import opened Keyboard
  import opened Devices
  import opened Drain
  import opened NonInterference
  import opened Context

  // ---- delivery ----

  lemma Regroup(a: seq<Queued>, b: seq<Queued>, c: seq<Queued>, d: seq<Queued>)
    ensures a + b + (c + d) == a + (b + c) + d
  {}

  lemma QueueAfter(c: Ctx, call: Call)
    ensures CallTaken(c, call) <= c.queue
    ensures CallNext(c, call).queue == c.queue[|CallTaken(c, call)|..] + CallOut(c, call)
  {
    hide CallOut, OpenAll, OpenNext, DispatchNext;
  }

  /** Events are delivered in the order they were enqueued, none lost, none twice. */
  lemma {:induction false} FirstInFirstOut(c: Ctx, calls: seq<Call>)
    requires c.queue == []
    ensures Delivered(c, calls) + RunCalls(c, calls).queue == Enqueued(c, calls)
  {
    hide CallNext, CallOut, CallTaken;
    if calls != [] {
      var before, call := calls[..|calls| - 1], calls[|calls| - 1];
      FirstInFirstOut(c, before);
      var d := RunCalls(c, before);
      var taken := CallTaken(d, call);
      QueueAfter(d, call);
      Regroup(Delivered(c, before), taken, d.queue[|taken|..], CallOut(d, call));
    }
  }

  /** How many of the client's requests found an event that had been enqueued and not yet
      been handed out. */
  function Served(c: Ctx, calls: seq<Call>): nat {
    if calls == [] then 0
    else
      var before := calls[..|calls| - 1];
      var n := Served(c, before);
      if calls[|calls| - 1].GetEvent? && n < |Enqueued(c, before)| then n + 1 else n
  }

  /** Every such request is answered, with the next event in line. */
  lemma {:induction false} EveryRequestServed(c: Ctx, calls: seq<Call>)
    requires c.queue == []
    ensures Served(c, calls) <= |Enqueued(c, calls)|
    ensures Delivered(c, calls) == Enqueued(c, calls)[..Served(c, calls)]
  {
    hide CallNext, CallOut;
    FirstInFirstOut(c, calls);
    if calls != [] {
      var before := calls[..|calls| - 1];
      EveryRequestServed(c, before);
      FirstInFirstOut(c, before);
    }
  }

  // ---- the life of one device ----

  datatype Life = Unborn | Live | Gone | Broken

  function Watch(l: Life, e: LibEvent): Life {
    match l
    case Unborn => if e.DeviceAdded? then Live else Broken
    case Live => if e.DeviceAdded? then Broken else if e.DeviceRemoved? then Gone else Live
    case Gone => Broken
    case Broken => Broken
  }

  function WatchAll(l: Life, es: seq<LibEvent>): Life {
    if es == [] then l else Watch(WatchAll(l, es[..|es| - 1]), es[|es| - 1])
  }

  lemma {:induction false} WatchConcat(l: Life, a: seq<LibEvent>, b: seq<LibEvent>)
    ensures WatchAll(l, a + b) == WatchAll(WatchAll(l, a), b)
  {
    if b == [] {
      assert a + b == a;
    } else {
      var n := |b| - 1;
      assert (a + b)[..|a| + n] == a + b[..n];
      WatchConcat(l, a, b[..n]);
    }
  }

  predicate Quiet(es: seq<LibEvent>) {
    forall e :: e in es ==> !e.DeviceAdded? && !e.DeviceRemoved?
  }

  lemma {:induction false} WatchQuiet(es: seq<LibEvent>)
    requires Quiet(es)
    ensures WatchAll(Live, es) == Live
  {
    if es != [] { WatchQuiet(es[..|es| - 1]); }
  }

  lemma {:induction false} PollQuiet(ks: seq<HeldKey>, now: Time)
    ensures Quiet(PollEvents(ks, now))
  {
    if ks != [] { PollQuiet(ks[..|ks| - 1], now); }
  }

  lemma PadQuiet(s: Pad, t: Tick)
    ensures Quiet(Emits(s, t))
  {
    hide ActiveSlots, PrimaryDistSq, PrimaryAngle, ScaleSq, Units;
  }

  lemma KeyQuiet(ev: RawEvent)
    ensures Quiet(KeyEvents(ev))
  {}

  lemma RelativeQuiet(ev: RawEvent)
    ensures Quiet(RelativeEvents(ev))
  {}

  lemma HandleQuiet(d: Device, s: Option<Time>, r: Reading)
    ensures Quiet(HandleEvents(d, s, r))
  {
    hide Emits, KeyEvents, RelativeEvents;
    PadQuiet(d.pad, TickFor(d.settings, s, r));
    KeyQuiet(r.ev);
    RelativeQuiet(r.ev);
  }

  lemma {:induction false} BatchQuiet(d: Device, s: Option<Time>, rs: seq<Reading>)
    ensures Quiet(BatchEvents(d, s, rs))
  {
    if rs != [] {
      BatchQuiet(d, s, rs[..|rs| - 1]);
      HandleQuiet(BatchNext(d, s, rs[..|rs| - 1]), s, rs[|rs| - 1]);
    }
  }

  lemma OwnQuiet(d: Device, now: Time, s: Option<Time>, f: Fetch)
    ensures Quiet(PollOut(d, now) + FetchOut(PollNext(d, now), s, f))
  {
    hide PollEvents, BatchEvents, PollNext;
    PollQuiet(d.held, now);
    if f.Batch? { BatchQuiet(PollNext(d, now), s, f.readings); }
  }

  /** A drain leaves a tracked device live, or takes it out with a last event. */
  lemma AloneLife(d: Device, now: Time, s: Option<Time>, f: Fetch)
    ensures WatchAll(Live, AloneOut(d, now, s, f)) == if f.Vanished? then Gone else Live
  {
    hide Quiet, PollOut, FetchOut, PollNext;
    var es := PollOut(d, now) + FetchOut(PollNext(d, now), s, f);
    OwnQuiet(d, now, s, f);
    WatchQuiet(es);
    WatchConcat(Live, es, if f.Vanished? then [DeviceRemoved] else []);
    assert [DeviceRemoved][..0] == [];
  }

  // ---- devices that are not tracked stay silent ----

  predicate Tracked(m: map<Fd, Device>, id: nat) {
    exists f :: f in m && m[f].id == id
  }

  lemma {:induction false} PollAllSilent(m: map<Fd, Device>, order: seq<Fd>, now: Time, id: nat)
    requires !Tracked(m, id)
    ensures !Tracked(PollAll(m, order, now), id)
    ensures Proj(PollAllOut(m, order, now), id) == []
  {
    if order != [] {
      var n := |order| - 1;
      PollAllSilent(m, order[..n], now, id);
      var before, g := PollAll(m, order[..n], now), order[n];
      if g in before {
        assert before[g].id != id;
        ProjTag(PollOut(before[g], now), before[g].id, id);
        ProjConcat(PollAllOut(m, order[..n], now), Tag(before[g].id, PollOut(before[g], now)), id);
      } else {
        ProjConcat(PollAllOut(m, order[..n], now), [], id);
      }
    }
  }

  lemma {:induction false} ReadAllSilent(b: Backend, order: seq<Fd>, r: Round, id: nat)
    requires !Tracked(b.devices, id)
    ensures !Tracked(ReadAll(b, order, r).devices, id)
    ensures Proj(ReadAllOut(b, order, r), id) == []
  {
    if order != [] {
      var n := |order| - 1;
      ReadAllSilent(b, order[..n], r, id);
      var before, g := ReadAll(b, order[..n], r), order[n];
      if g in before.devices {
        var d := before.devices[g];
        assert d.id != id;
        FetchSame(d, before.typing, r.Fetch(g));
        var out := FetchOut(d, before.typing, r.Fetch(g));
        ProjTag(out, d.id, id);
        ProjConcat(ReadAllOut(b, order[..n], r), Tag(d.id, out), id);
      } else {
        ProjConcat(ReadAllOut(b, order[..n], r), [], id);
      }
    }
  }

  lemma {:induction false} RemoveAllSilent(m: map<Fd, Device>, dead: seq<Fd>, id: nat)
    requires !Tracked(m, id)
    ensures !Tracked(RemoveAll(m, dead), id)
    ensures Proj(RemoveAllOut(m, dead), id) == []
  {
    if dead != [] {
      var n := |dead| - 1;
      RemoveAllSilent(m, dead[..n], id);
      var before, g := RemoveAll(m, dead[..n]), dead[n];
      if g in before {
        assert before[g].id != id;
        assert [Queued(before[g].id, DeviceRemoved)] == Tag(before[g].id, [DeviceRemoved]);
        ProjTag([DeviceRemoved], before[g].id, id);
        ProjConcat(RemoveAllOut(m, dead[..n]), [Queued(before[g].id, DeviceRemoved)], id);
      } else {
        ProjConcat(RemoveAllOut(m, dead[..n]), [], id);
      }
    }
  }

  lemma DrainSilent(b: Backend, r: Round, id: nat)
    requires !Tracked(b.devices, id)
    ensures !Tracked(DrainNext(b, r).devices, id)
    ensures Proj(DrainOut(b, r), id) == []
  {
    var p := AfterPoll(b, r);
    var read, dead := ReadAll(p, r.order, r), Dead(b.devices, r.order, r);
    PollAllSilent(b.devices, r.pollOrder, r.now, id);
    ReadAllSilent(p, r.order, r, id);
    RemoveAllSilent(read.devices, dead, id);
    var polled, fetched := PollAllOut(b.devices, r.pollOrder, r.now), ReadAllOut(p, r.order, r);
    ProjConcat(polled + fetched, RemoveAllOut(read.devices, dead), id);
    ProjConcat(polled, fetched, id);
  }

  // ---- opening ----

  /** A device is announced when, and only when, it becomes tracked. */
  lemma OpenLife(c: Ctx, n: Node, id: nat)
    requires forall f :: f in c.backend.devices ==> c.backend.devices[f].id < c.count
    ensures var born := id == c.count && Accepts(n.open) && n.open.fd !in c.backend.devices;
            && Proj(OpenOut(c, n), id) == (if born then [DeviceAdded] else [])
            && (Tracked(OpenNext(c, n).backend.devices, id) <==> born || Tracked(c.backend.devices, id))
  {
    var m, after := c.backend.devices, OpenNext(c, n).backend.devices;
    if Accepts(n.open) && n.open.fd !in m {
      assert [Queued(c.count, DeviceAdded)] == Tag(c.count, [DeviceAdded]);
      ProjTag([DeviceAdded], c.count, id);
      assert after[n.open.fd].id == c.count;
      if f :| f in m && m[f].id == id { assert after[f].id == id; }
      if f :| f in after && after[f].id == id { assert f == n.open.fd || m[f].id == id; }
    }
  }

  // ---- the invariant of a context ----

  ghost predicate Coherent(c: Ctx, inotify: Option<Fd>) {
    && DistinctIds(c.backend.devices)
    && (forall f :: f in c.backend.devices ==> c.backend.devices[f].id < c.count)
    && (inotify.Some? ==> inotify.value !in c.backend.devices)
    && c.registered == c.backend.devices.Keys + Watched(inotify)
  }

  /** What the client has been told about a device fits its state. */
  ghost predicate Fits(c: Ctx, id: nat, l: Life) {
    && l != Broken
    && (l == Live <==> Tracked(c.backend.devices, id))
    && (id >= c.count ==> l == Unborn)
  }

  /** A descriptor that was just opened is not the inotify descriptor. */
  ghost predicate Opens(ns: seq<Node>, inotify: Option<Fd>) {
    forall n :: n in ns && n.open.Opened? ==> n.open.fd !in Watched(inotify)
  }

  lemma OpenKeeps(c: Ctx, n: Node, inotify: Option<Fd>)
    requires Coherent(c, inotify) && Opens([n], inotify)
    ensures Coherent(OpenNext(c, n), inotify)
  {
    hide IdleSlots;
    assert n in [n];
  }

  lemma {:induction false} OpenAllKeeps(c: Ctx, ns: seq<Node>, inotify: Option<Fd>, id: nat, l: Life)
    requires Coherent(c, inotify) && Opens(ns, inotify) && Fits(c, id, l)
    ensures Coherent(OpenAll(c, ns), inotify)
    ensures Fits(OpenAll(c, ns), id, WatchAll(l, Proj(OpenAllOut(c, ns), id)))
  {
    hide OpenNext, OpenOut;
    if ns != [] {
      var before, n := ns[..|ns| - 1], ns[|ns| - 1];
      OpenAllKeeps(c, before, inotify, id, l);
      var d, soFar := OpenAll(c, before), WatchAll(l, Proj(OpenAllOut(c, before), id));
      OpenKeeps(d, n, inotify);
      OpenFits(d, n, id, soFar);
      ProjConcat(OpenAllOut(c, before), OpenOut(d, n), id);
      WatchConcat(l, Proj(OpenAllOut(c, before), id), Proj(OpenOut(d, n), id));
    }
  }

  lemma OpenFits(c: Ctx, n: Node, id: nat, l: Life)
    requires forall f :: f in c.backend.devices ==> c.backend.devices[f].id < c.count
    requires Fits(c, id, l)
    ensures Fits(OpenNext(c, n), id, WatchAll(l, Proj(OpenOut(c, n), id)))
  {
    OpenLife(c, n, id);
    assert [DeviceAdded][..0] == [];
  }

  // ---- draining ----

  lemma DrainKeys(b: Backend, r: Round)
    requires ProperRound(b, r) && DistinctIds(b.devices)
    ensures DrainNext(b, r).devices.Keys == b.devices.Keys - AsSet(Dead(b.devices, r.order, r))
    ensures forall f :: f in DrainNext(b, r).devices ==> SameDevice(b.devices[f], DrainNext(b, r).devices[f])
  {
    hide DrainNext, Dead;
    forall f ensures f in DrainNext(b, r).devices
                     <==> f in b.devices && f !in Dead(b.devices, r.order, r)
    {
      DeadAt(b.devices, r.order, r, f);
      if f in b.devices { DrainAlone(b, r, f); } else { DrainSubset(b, r); }
    }
    forall f | f in DrainNext(b, r).devices
      ensures SameDevice(b.devices[f], DrainNext(b, r).devices[f])
    {
      DrainAlone(b, r, f);
      FetchSame(PollNext(b.devices[f], r.now), Snapshot(b, r, f), r.Fetch(f));
    }
  }

  lemma DrainSubset(b: Backend, r: Round)
    requires ProperRound(b, r) && DistinctIds(b.devices)
    ensures DrainNext(b, r).devices.Keys <= b.devices.Keys
  {
    PollAllDistinct(b.devices, r.pollOrder, r.now);
    ReadAllDistinct(AfterPoll(b, r), r.order, r);
    RemoveSubset(ReadAll(AfterPoll(b, r), r.order, r).devices, Dead(b.devices, r.order, r));
  }

  /** After a drain a device is live if it still can be read, and gone if it cannot. */
  lemma DrainFits(b: Backend, r: Round, id: nat, l: Life)
    requires ProperRound(b, r) && DistinctIds(b.devices)
    requires l == Live <==> Tracked(b.devices, id)
    ensures var after := WatchAll(l, Proj(DrainOut(b, r), id));
            && (after == Live <==> Tracked(DrainNext(b, r).devices, id))
            && after == if l == Live && !Tracked(DrainNext(b, r).devices, id) then Gone else l
  {
    hide DrainNext, DrainOut;
    var m := b.devices;
    if f :| f in m && m[f].id == id {
      DrainKeys(b, r);
      DrainAlone(b, r, f);
      AloneLife(m[f], r.now, Snapshot(b, r, f), r.Fetch(f));
      var after := DrainNext(b, r).devices;
      if g :| g in after && after[g].id == id { assert g == f; }
      assert f in after ==> after[f].id == id;
    } else {
      DrainSilent(b, r, id);
    }
  }

  // ---- runs of calls ----

  ghost predicate Proper(c: Ctx, call: Call, inotify: Option<Fd>) {
    match call
    case AssignSeat(found) => Opens(found, inotify)
    case AddDevice(n) => Opens([n], inotify)
    case Dispatch(notices, r) => Opens(notices, inotify) && ProperRound(Hotplugged(c, notices).backend, r)
    case _ => true
  }

  ghost predicate ProperRun(c: Ctx, calls: seq<Call>, inotify: Option<Fd>) {
    calls == [] ||
    (ProperRun(c, calls[..|calls| - 1], inotify)
     && Proper(RunCalls(c, calls[..|calls| - 1]), calls[|calls| - 1], inotify))
  }

  lemma {:induction false} UntrackedOpens(m: map<Fd, Device>, ns: seq<Node>, inotify: Option<Fd>)
    requires Opens(ns, inotify)
    ensures Opens(Untracked(m, ns), inotify)
  {
    if ns != [] { UntrackedOpens(m, ns[..|ns| - 1], inotify); }
  }

  lemma OpenedCoherent(c: Ctx, notices: seq<Node>, inotify: Option<Fd>)
    requires Coherent(c, inotify) && Opens(notices, inotify)
    ensures DistinctIds(Hotplugged(c, notices).backend.devices)
  {
    hide OpenAll, Untracked;
    UntrackedOpens(c.backend.devices, notices, inotify);
    AllCoherent(c, Untracked(c.backend.devices, notices), inotify);
  }

  lemma {:induction false} AllCoherent(c: Ctx, ns: seq<Node>, inotify: Option<Fd>)
    requires Coherent(c, inotify) && Opens(ns, inotify)
    ensures Coherent(OpenAll(c, ns), inotify)
  {
    hide OpenNext, Coherent;
    if ns != [] {
      AllCoherent(c, ns[..|ns| - 1], inotify);
      OpenKeeps(OpenAll(c, ns[..|ns| - 1]), ns[|ns| - 1], inotify);
    }
  }

  lemma DispatchKeeps(c: Ctx, notices: seq<Node>, r: Round, inotify: Option<Fd>, id: nat, l: Life)
    requires Coherent(c, inotify) && Fits(c, id, l) && Proper(c, Dispatch(notices, r), inotify)
    ensures Coherent(DispatchNext(c, notices, r), inotify)
    ensures Fits(DispatchNext(c, notices, r), id, WatchAll(l, Proj(DispatchOut(c, notices, r), id)))
  {
    hide OpenAll, OpenAllOut, Untracked, DrainNext, DrainOut, Dead;
    var h, ns := Hotplugged(c, notices), Untracked(c.backend.devices, notices);
    UntrackedOpens(c.backend.devices, notices, inotify);
    OpenAllKeeps(c, ns, inotify, id, l);
    var soFar := WatchAll(l, Proj(OpenAllOut(c, ns), id));
    DrainKeys(h.backend, r);
    forall f ensures f in Dead(h.backend.devices, r.order, r) ==> f in h.backend.devices {
      DeadAt(h.backend.devices, r.order, r, f);
    }
    DrainFits(h.backend, r, id, soFar);
    ProjConcat(OpenAllOut(c, ns), DrainOut(h.backend, r), id);
    WatchConcat(l, Proj(OpenAllOut(c, ns), id), Proj(DrainOut(h.backend, r), id));
  }

  lemma CallKeeps(c: Ctx, call: Call, inotify: Option<Fd>, id: nat, l: Life)
    requires Coherent(c, inotify) && Fits(c, id, l) && Proper(c, call, inotify)
    ensures Coherent(CallNext(c, call), inotify)
    ensures Fits(CallNext(c, call), id, WatchAll(l, Proj(CallOut(c, call), id)))
  {
    hide OpenAll, OpenAllOut, OpenNext, OpenOut, DispatchNext, DispatchOut, CallTaken;
    match call
    case AssignSeat(found) => OpenAllKeeps(c, found, inotify, id, l);
    case AddDevice(n) =>
      OpenKeeps(c, n, inotify);
      OpenFits(c, n, id, l);
    case Dispatch(notices, r) => DispatchKeeps(c, notices, r, inotify, id, l);
    case GetEvent =>
    case Configure(fd, s) =>
      var m, after := c.backend.devices, CallNext(c, call).backend.devices;
      assert forall f :: f in m ==> f in after && after[f].id == m[f].id;
  }

  /** However the calls interleave, and whatever is opened, read and unplugged: the
      descriptors polled are the tracked devices' and the inotify one, and for every
      device the client is told ADDED, then anything, then at most one REMOVED and
      nothing more; between the two exactly while the device is tracked. */
  lemma {:induction false} LifeOfADevice(inotify: Option<Fd>, calls: seq<Call>, id: nat)
    requires ProperRun(Start(inotify), calls, inotify)
    ensures var c := RunCalls(Start(inotify), calls);
            && Coherent(c, inotify)
            && Fits(c, id, WatchAll(Unborn, Proj(Enqueued(Start(inotify), calls), id)))
  {
    hide CallNext, CallOut, Proper;
    if calls != [] {
      var before, call := calls[..|calls| - 1], calls[|calls| - 1];
      var c := RunCalls(Start(inotify), before);
      LifeOfADevice(inotify, before, id);
      var so := Proj(Enqueued(Start(inotify), before), id);
      CallKeeps(c, call, inotify, id, WatchAll(Unborn, so));
      ProjConcat(Enqueued(Start(inotify), before), CallOut(c, call), id);
      WatchConcat(Unborn, so, Proj(CallOut(c, call), id));
    }
  }
}
