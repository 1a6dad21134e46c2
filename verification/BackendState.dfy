/** The backend and the library context, updated in place. */
module BackendStates {
  import opened Basics
  import opened Events
  import opened Touchpad
  import opened Keyboard
  import opened Devices
  import opened Drain
  import opened Context
  import opened Hotplug
  import opened TrackedDevices

  class BackendState {
    var devices: map<Fd, TrackedDevice>
    var globalTypingTime: Option<Time>

    /** The slot tables of the devices. */
    ghost function Tables(): set<array<MtSlot>>
      reads this
    {
      set fd | fd in devices :: devices[fd].mtSlots
    }

    ghost predicate Valid()
      reads this, devices.Values, Tables()
    {
      && (forall fd :: fd in devices ==> devices[fd].Valid())
      && (forall f, g :: f in devices && g in devices && f != g ==>
            devices[f] != devices[g] && devices[f].mtSlots != devices[g].mtSlots)
    }

    /** Whatever joined the backend is new. */
    twostate predicate Grown()
      reads this
    {
      fresh(devices.Values - old(devices.Values)) && fresh(Tables() - old(Tables()))
    }

    ghost function Tracked(): map<Fd, Device>
      reads this, devices.Values, Tables()
    {
      map fd | fd in devices :: devices[fd].Value()
    }

    ghost function Value(): Backend
      reads this, devices.Values, Tables()
    {
      Backend(Tracked(), globalTypingTime)
    }

    constructor ()
      ensures Valid() && devices == map[] && Value() == Backend(map[], None)
    {
      devices, globalTypingTime := map[], None;
    }

    // ---- repeats ----

    method EmitKeyRepeats(order: seq<Fd>, now: Time, out: EventQueue)
      requires Valid() && forall fd :: fd in order ==> fd in devices
      modifies devices.Values, Tables(), out
      ensures Valid()
      ensures Tracked() == PollAll(old(Tracked()), order, now)
      ensures out.events == old(out.events) + PollAllOut(old(Tracked()), order, now)
    {
      hide PollOne, PollOneOut;
      ghost var before := Tracked();
      for i := 0 to |order|
        invariant Valid()
        invariant Tracked() == PollAll(before, order[..i], now)
        invariant out.events == old(out.events) + PollAllOut(before, order[..i], now)
      {
        assert order[..i + 1][..i] == order[..i];
        RepeatKeys(order[i], now, out);
      }
      assert order[..|order|] == order;
    }

    method RepeatKeys(fd: Fd, now: Time, out: EventQueue)
      requires Valid() && fd in devices
      modifies devices.Values, Tables(), out
      ensures Valid()
      ensures Tracked() == PollOne(old(Tracked()), fd, now)
      ensures out.events == old(out.events) + PollOneOut(old(Tracked()), fd, now)
    {
      hide Polled, PollEvents, Tag, TrackedDevice.Pad;
      var td := devices[fd];
      if td.isKeyboard {
        td.EmitKeyRepeats(now, out);
      }
      assert forall g :: g in devices && g != fd ==> devices[g].Value() == old(devices[g].Value());
    }

    // ---- reading ----

    /** Handles one event of a device according to the kind of device. */
    method Handle(td: TrackedDevice, snapshot: Option<Time>, r: Reading, out: EventQueue)
      requires td.Valid()
      modifies td, td.mtSlots, out, this`globalTypingTime
      ensures td.Valid()
      ensures td.Value() == HandleNext(old(td.Value()), snapshot, r)
      ensures globalTypingTime == HandleTyping(old(td.Value()), old(globalTypingTime), r)
      ensures out.events == old(out.events) + Tag(td.libDevice, HandleEvents(old(td.Value()), snapshot, r))
    {
      hide Next, Emits, KeyNext, KeyEvents, RelativeEvents, Tag;
      if td.isKeyboard && !td.isAbsolute {
        var typing := td.ProcessKeyboardEvent(r.ev, r.now, out, globalTypingTime);
        globalTypingTime := typing;
      } else if !td.isAbsolute && td.isPointer {
        td.ProcessRelativeEvent(r.ev, out);
      } else if td.isAbsolute {
        var dwtActive := td.settings.dwt && snapshot.Some? && Elapsed(r.now, snapshot.value) < DWT_WINDOW;
        td.ProcessAbsoluteEvent(
          Tick(r.ev, r.now, dwtActive, td.settings.tap, td.settings.natural, td.settings.speed + 1.0), out);
      }
    }

    method HandleBatch(td: TrackedDevice, rs: seq<Reading>, out: EventQueue)
      requires td.Valid()
      modifies td, td.mtSlots, out, this`globalTypingTime
      ensures td.Valid()
      ensures td.Value() == BatchNext(old(td.Value()), old(globalTypingTime), rs)
      ensures globalTypingTime == BatchTyping(old(td.Value()), old(globalTypingTime), rs)
      ensures out.events == old(out.events)
                            + Tag(old(td.Value()).id, BatchEvents(old(td.Value()), old(globalTypingTime), rs))
    {
      hide HandleNext, HandleEvents, HandleTyping, Tag;
      ghost var d := td.Value();
      var globalTyping := globalTypingTime;
      for i := 0 to |rs|
        invariant td.Valid()
        invariant td.Value() == BatchNext(d, globalTyping, rs[..i])
        invariant globalTypingTime == BatchTyping(d, globalTyping, rs[..i])
        invariant out.events == old(out.events) + Tag(td.libDevice, BatchEvents(d, globalTyping, rs[..i]))
      {
        assert rs[..i + 1][..i] == rs[..i];
        BatchSame(d, globalTyping, rs[..i]);
        SameTyping(d, td.Value(), globalTypingTime, rs[i]);
        TagConcat(td.libDevice, BatchEvents(d, globalTyping, rs[..i]), HandleEvents(td.Value(), globalTyping, rs[i]));
        Handle(td, globalTyping, rs[i], out);
      }
      assert rs[..|rs|] == rs;
    }

    lemma SameTyping(d: Device, e: Device, typing: Option<Time>, r: Reading)
      requires SameDevice(d, e)
      ensures HandleTyping(d, typing, r) == HandleTyping(e, typing, r)
    {}

    /** Reads one device; `gone` says that it has vanished. */
    method ReadDevice(fd: Fd, f: Fetch, out: EventQueue) returns (gone: bool)
      requires Valid()
      modifies this`globalTypingTime, devices.Values, Tables(), out
      ensures Valid()
      ensures Value() == ReadOne(old(Value()), fd, f)
      ensures out.events == old(out.events) + ReadOneOut(old(Value()), fd, f)
      ensures gone == (fd in old(Value()).devices && f.Vanished?)
    {
      hide BatchNext, BatchEvents, BatchTyping, TrackedDevice.Value, Tag;
      gone := false;
      if fd !in devices {
        return;
      }
      match f {
        case Batch(readings) =>
          HandleBatch(devices[fd], readings, out);
        case Vanished =>
          gone := true;
        case WouldBlock =>
        case Failed =>
      }
      assert forall g :: g in devices && g != fd ==> devices[g].Value() == old(devices[g].Value());
    }

    method ReadDevices(r: Round, out: EventQueue) returns (deadFds: seq<Fd>)
      requires Valid()
      modifies this`globalTypingTime, devices.Values, Tables(), out
      ensures Valid()
      ensures Value() == ReadAll(old(Value()), r.order, r)
      ensures out.events == old(out.events) + ReadAllOut(old(Value()), r.order, r)
      ensures deadFds == Dead(old(Value()).devices, r.order, r)
    {
      hide ReadOne, ReadOneOut, Valid, Value;
      ghost var before := Value();
      deadFds := [];
      for i := 0 to |r.order|
        invariant Valid()
        invariant Value() == ReadAll(before, r.order[..i], r)
        invariant out.events == old(out.events) + ReadAllOut(before, r.order[..i], r)
        invariant deadFds == Dead(before.devices, r.order[..i], r)
      {
        assert r.order[..i + 1][..i] == r.order[..i];
        ReadAllKeys(before, r.order[..i], r);
        var gone := ReadDevice(r.order[i], r.Fetch(r.order[i]), out);
        if gone {
          deadFds := deadFds + [r.order[i]];
        }
      }
      assert r.order[..|r.order|] == r.order;
    }

    // ---- removing what has vanished ----

    method RemoveDevices(ctx: LibinputContext, deadFds: seq<Fd>, out: EventQueue)
      requires Valid() && forall fd :: fd in deadFds ==> fd in devices
      modifies this`devices, ctx`registered, out
      ensures Valid() && devices == old(devices) - AsSet(deadFds)
      ensures Tracked() == RemoveAll(old(Tracked()), deadFds)
      ensures ctx.registered == old(ctx.registered) - AsSet(deadFds)
      ensures out.events == old(out.events) + RemoveAllOut(old(Tracked()), deadFds)
    {
      hide Valid, Tracked, RemoveOneOut;
      ghost var before := Tracked();
      for i := 0 to |deadFds|
        invariant Valid() && devices == old(devices) - AsSet(deadFds[..i])
        invariant Tracked() == RemoveAll(before, deadFds[..i])
        invariant ctx.registered == old(ctx.registered) - AsSet(deadFds[..i])
        invariant out.events == old(out.events) + RemoveAllOut(before, deadFds[..i])
      {
        assert deadFds[..i + 1] == deadFds[..i] + [deadFds[i]];
        assert AsSet(deadFds[..i + 1]) == AsSet(deadFds[..i]) + {deadFds[i]};
        RemoveDevice(ctx, deadFds[i], out);
      }
      assert deadFds[..|deadFds|] == deadFds;
    }

    method RemoveDevice(ctx: LibinputContext, fd: Fd, out: EventQueue)
      requires Valid()
      modifies this`devices, ctx`registered, out
      ensures Valid() && devices == old(devices) - {fd}
      ensures Tracked() == old(Tracked()) - {fd}
      ensures ctx.registered == if fd in old(devices) then old(ctx.registered) - {fd} else old(ctx.registered)
      ensures out.events == old(out.events) + RemoveOneOut(old(Tracked()), fd)
    {
      hide TrackedDevice.Pad, TrackedDevice.Valid, Tables;
      if fd in devices {
        var td := devices[fd];
        devices := devices - {fd};
        ctx.UnregisterFd(fd);
        out.PushBack(td.libDevice, DeviceRemoved);
      }
    }

    // ---- opening ----

    method TryOpen(ctx: LibinputContext, n: Node, out: EventQueue)
      requires Valid() && ctx.backend == this
      modifies this`devices, ctx`registered, ctx`deviceCount, out
      ensures Valid() && Grown()
      ensures ctx.Value() == OpenNext(old(ctx.Value()), n)
      ensures out.events == old(out.events) + OpenOut(old(ctx.Value()), n)
    {
      hide NewDevice, TrackedDevice.Value, TrackedDevice.Valid;
      if !n.open.Opened? || n.open.ours {
        return;
      }
      var isPointer := n.open.pointerProp || n.open.relative;
      if !isPointer && !n.open.keyA {
        return;
      }
      var libDev := ctx.AppendDevice();
      if n.open.fd in devices {
        return;
      }
      Adopt(ctx, libDev, n, out);
    }

    method Adopt(ctx: LibinputContext, libDev: nat, n: Node, out: EventQueue)
      requires Valid() && ctx.backend == this && n.open.Opened?
      modifies this`devices, ctx`registered, out
      ensures Valid() && Grown()
      ensures Tracked() == old(Tracked())[n.open.fd := NewDevice(libDev, n.path, n.open)]
      ensures ctx.registered == old(ctx.registered) + {n.open.fd}
      ensures out.events == old(out.events) + [Queued(libDev, DeviceAdded)]
    {
      hide NewDevice, TrackedDevice.Value, TrackedDevice.Valid;
      ctx.RegisterFd(n.open.fd);
      Track(libDev, n);
      out.PushBack(libDev, DeviceAdded);
    }

    method Track(libDev: nat, n: Node)
      requires Valid() && n.open.Opened?
      modifies this`devices
      ensures Valid() && Grown()
      ensures Tracked() == old(Tracked())[n.open.fd := NewDevice(libDev, n.path, n.open)]
    {
      hide IdleSlots, TrackedDevice.Value, TrackedDevice.Valid;
      var td := new TrackedDevice(libDev, n.path, n.open.absolute, n.open.keyA,
                                  n.open.pointerProp || (!n.open.keyA && n.open.relative));
      devices := devices[n.open.fd := td];
    }

    method OpenNodes(ctx: LibinputContext, ns: seq<Node>, out: EventQueue)
      requires Valid() && ctx.backend == this
      modifies this`devices, ctx`registered, ctx`deviceCount, out
      ensures Valid() && Grown()
      ensures ctx.Value() == OpenAll(old(ctx.Value()), ns)
      ensures out.events == old(out.events) + OpenAllOut(old(ctx.Value()), ns)
    {
      hide OpenNext, OpenOut;
      ghost var before := ctx.Value();
      for i := 0 to |ns|
        invariant Valid() && Grown()
        invariant ctx.Value() == OpenAll(before, ns[..i])
        invariant out.events == old(out.events) + OpenAllOut(before, ns[..i])
      {
        assert ns[..i + 1][..i] == ns[..i];
        TryOpen(ctx, ns[i], out);
      }
      assert ns[..|ns|] == ns;
    }

    lemma KnownPath(path: string)
      ensures PathTracked(Tracked(), path) <==> exists fd :: fd in devices && devices[fd].path == path
    {
      if fd :| fd in devices && devices[fd].path == path { assert Tracked()[fd].path == path; }
      if fd :| fd in Tracked() && Tracked()[fd].path == path { assert devices[fd].path == path; }
    }

    /** All notices of a batch are filtered before any of them is opened. */
    method NewPaths(notices: seq<Node>) returns (newPaths: seq<Node>)
      ensures newPaths == Untracked(Tracked(), notices)
    {
      newPaths := [];
      for i := 0 to |notices|
        invariant newPaths == Untracked(Tracked(), notices[..i])
      {
        assert notices[..i + 1][..i] == notices[..i];
        var known := exists fd :: fd in devices && devices[fd].path == notices[i].path;
        KnownPath(notices[i].path);
        if !known {
          newPaths := newPaths + [notices[i]];
        }
      }
      assert notices[..|notices|] == notices;
    }

    method HandleHotplug(ctx: LibinputContext, notices: seq<Node>, out: EventQueue)
      requires Valid() && ctx.backend == this
      modifies this`devices, ctx`registered, ctx`deviceCount, out
      ensures Valid() && Grown()
      ensures ctx.Value() == Hotplugged(old(ctx.Value()), notices)
      ensures out.events == old(out.events) + OpenAllOut(old(ctx.Value()), Untracked(old(Tracked()), notices))
    {
      var newPaths := NewPaths(notices);
      OpenNodes(ctx, newPaths, out);
    }

    // ---- a whole drain ----

    method DrainIntoQueue(ctx: LibinputContext, notices: seq<Node>, r: Round, out: EventQueue)
      requires Valid() && ctx.backend == this
      requires forall fd :: fd in r.pollOrder ==> fd in Hotplugged(ctx.Value(), notices).backend.devices
      modifies this, devices.Values, Tables(), ctx`registered, ctx`deviceCount, out
      ensures Valid() && Grown()
      ensures ctx.Value() == DispatchNext(old(ctx.Value()), notices, r)
      ensures out.events == old(out.events) + DispatchOut(old(ctx.Value()), notices, r)
    {
      hide Hotplugged, OpenAllOut, Untracked, PollAll, PollAllOut, ReadAll, ReadAllOut, RemoveAll, RemoveAllOut, Dead,
        TrackedDevice.Value, TrackedDevice.Valid;
      HandleHotplug(ctx, notices, out);
      ghost var h := Value();
      EmitKeyRepeats(r.pollOrder, r.now, out);
      ghost var polled := Tracked();
      var deadFds := ReadDevices(r, out);
      DeadTracked(h.devices, polled, r.order, r);
      RemoveDevices(ctx, deadFds, out);
    }
  }

  class LibinputContext {
    const backend: BackendState
    var eventQueue: seq<Queued>
    var deviceCount: nat
    var registered: set<Fd>

    ghost function Value(): Ctx
      reads this, backend, backend.devices.Values, backend.Tables()
    {
      Ctx(backend.Value(), deviceCount, registered, eventQueue)
    }

    ghost predicate Valid()
      reads this, backend, backend.devices.Values, backend.Tables()
    {
      backend.Valid()
    }

    constructor (inotifyFd: Option<Fd>)
      ensures Valid() && fresh(backend) && Value() == Start(inotifyFd)
    {
      backend := new BackendState();
      eventQueue, deviceCount := [], 0;
      registered := {};
      new;
      if inotifyFd.Some? {
        RegisterFd(inotifyFd.value);
      }
    }

    /** Lists a device; its place in the list names it. */
    method AppendDevice() returns (place: nat)
      modifies this`deviceCount
      ensures place == old(deviceCount) && deviceCount == old(deviceCount) + 1
    {
      place := deviceCount;
      deviceCount := deviceCount + 1;
    }

    method RegisterFd(fd: Fd)
      modifies this`registered
      ensures registered == old(registered) + {fd}
    {
      registered := registered + {fd};
    }

    method UnregisterFd(fd: Fd)
      modifies this`registered
      ensures registered == old(registered) - {fd}
    {
      registered := registered - {fd};
    }

    // ---- the client's calls ----

    method AssignSeat(found: seq<Node>)
      requires Valid()
      modifies this, backend`devices
      ensures Valid() && backend.Grown()
      ensures Value() == CallNext(old(Value()), Call.AssignSeat(found))
    {
      hide OpenAll, OpenAllOut, OpenNext, OpenOut, DispatchNext, DispatchOut, TrackedDevice.Value, TrackedDevice.Valid;
      var tmp := new EventQueue();
      backend.OpenNodes(this, found, tmp);
      eventQueue := eventQueue + tmp.events;
    }

    /** Returns the place of the last listed device, which is not always the one asked for. */
    method PathAddDevice(n: Node) returns (listed: Option<nat>)
      requires Valid()
      modifies this, backend`devices
      ensures Valid() && backend.Grown()
      ensures Value() == CallNext(old(Value()), AddDevice(n))
      ensures listed == Returned(Value())
    {
      hide OpenAll, OpenAllOut, OpenNext, OpenOut, DispatchNext, DispatchOut, TrackedDevice.Value, TrackedDevice.Valid;
      var tmp := new EventQueue();
      backend.TryOpen(this, n, tmp);
      eventQueue := eventQueue + tmp.events;
      listed := if deviceCount == 0 then None else Some(deviceCount - 1);
    }

    /** `notices` and `r` are what the kernel answers during the call. */
    method Dispatch(notices: seq<Node>, r: Round)
      requires Valid()
      requires forall fd :: fd in r.pollOrder ==> fd in Hotplugged(Value(), notices).backend.devices
      modifies this, backend, backend.devices.Values, backend.Tables()
      ensures Valid() && backend.Grown()
      ensures Value() == CallNext(old(Value()), Call.Dispatch(notices, r))
    {
      hide OpenAll, OpenAllOut, OpenNext, OpenOut, DispatchNext, DispatchOut, TrackedDevice.Value, TrackedDevice.Valid,
        BackendState.Tracked;
      var tmp := new EventQueue();
      backend.DrainIntoQueue(this, notices, r, tmp);
      eventQueue := eventQueue + tmp.events;
    }

    /** The settings of a tracked device; those of any other are not looked at. */
    method Configure(fd: Fd, settings: Settings)
      requires Valid()
      modifies backend.devices.Values, backend.Tables()
      ensures Valid() && Value() == CallNext(old(Value()), Call.Configure(fd, settings))
    {
      hide TrackedDevice.Value;
      if fd in backend.devices {
        backend.devices[fd].Configure(settings);
      }
      assert forall g :: g in backend.devices && g != fd ==>
          backend.devices[g].Value() == old(backend.devices[g].Value());
    }

    method GetEvent() returns (event: Option<Queued>)
      requires Valid()
      modifies this`eventQueue
      ensures Valid() && Value() == CallNext(old(Value()), Call.GetEvent)
      ensures event == if old(eventQueue) == [] then None else Some(old(eventQueue)[0])
      ensures old(eventQueue) == (if event.Some? then [event.value] else []) + eventQueue
      ensures CallTaken(old(Value()), Call.GetEvent) == if event.Some? then [event.value] else []
    {
      if eventQueue == [] {
        event := None;
      } else {
        event := Some(eventQueue[0]);
        eventQueue := eventQueue[1..];
      }
    }

    /** Looks at the event that `GetEvent` would return, if it would return one. */
    method NextEventType() returns (next: Option<LibEvent>)
      ensures next == if eventQueue == [] then None else Some(eventQueue[0].event)
      ensures var taken := CallTaken(Value(), Call.GetEvent);
              if next.Some? then |taken| == 1 && taken[0].event == next.value else taken == []
    {
      next := if eventQueue == [] then None else Some(eventQueue[0].event);
    }
  }
}
