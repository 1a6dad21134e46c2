/** Where the tracked devices come from, and that what is offered is taken. */
module Origins {
  import opened Basics
  import opened Events
  import opened Touchpad
  import opened Devices
  import opened Drain
  import opened Context
  import opened Lifecycle
  import opened Hotplug
  import opened EndToEnd
  import Configured

  /** The node opens as an input device that is not the daemon's own. */
  predicate IsInputDevice(o: OpenResult) {
    o.Opened? && !o.ours && (o.pointerProp || o.relative || o.keyA)
  }

  /** The device on `f` is what opening the node gives: absolute axes make it a touchpad, a
      key A a keyboard, and pointer properties, or relative axes without a key A, a pointer. */
  predicate OpenedFrom(d: Device, f: Fd, n: Node) {
    && IsInputDevice(n.open) && f == n.open.fd && d.path == n.path
    && d.isAbsolute == n.open.absolute && d.isKeyboard == n.open.keyA
    && (d.isPointer <==> n.open.pointerProp || (n.open.relative && !n.open.keyA))
  }

  /** The nodes a call brings up. */
  function Offered(call: Call): seq<Node> {
    match call
    case AssignSeat(found) => found
    case AddDevice(n) => [n]
    case Dispatch(notices, _) => notices
    case _ => []
  }

  // ---- every tracked device was offered ----

  lemma OpenOrigin(c: Ctx, n: Node, f: Fd)
    requires f in OpenNext(c, n).backend.devices
    ensures var d := OpenNext(c, n).backend.devices[f];
            (f in c.backend.devices && d == c.backend.devices[f]) || OpenedFrom(d, f, n)
  {
    hide IdleSlots;
  }

  lemma {:induction false} OpenAllOrigin(c: Ctx, ns: seq<Node>, f: Fd)
    requires f in OpenAll(c, ns).backend.devices
    ensures var d := OpenAll(c, ns).backend.devices[f];
            (f in c.backend.devices && d == c.backend.devices[f]) || exists n :: n in ns && OpenedFrom(d, f, n)
  {
    hide OpenNext, OpenedFrom;
    if ns != [] {
      var before, n := ns[..|ns| - 1], ns[|ns| - 1];
      OpenOrigin(OpenAll(c, before), n, f);
      if f in OpenAll(c, before).backend.devices { OpenAllOrigin(c, before, f); }
    }
  }

  lemma SameOrigin(d: Device, e: Device, f: Fd, n: Node)
    requires d.path == e.path && d.isAbsolute == e.isAbsolute && d.isKeyboard == e.isKeyboard
    requires d.isPointer == e.isPointer && OpenedFrom(d, f, n)
    ensures OpenedFrom(e, f, n)
  {}

  /** What a call leaves tracked was tracked before it or opened by it, up to its state. */
  lemma CallOrigin(c: Ctx, call: Call, inotify: Option<Fd>, f: Fd)
    requires Coherent(c, inotify) && Proper(c, call, inotify) && f in CallNext(c, call).backend.devices
    ensures var h, d := AfterOpening(c, call).backend.devices, CallNext(c, call).backend.devices[f];
            && f in h && h[f].path == d.path && h[f].isAbsolute == d.isAbsolute && h[f].isKeyboard == d.isKeyboard
            && h[f].isPointer == d.isPointer
  {
    hide OpenAll, OpenAllOut, DrainNext, DrainOut, ProperRound, DistinctIds, Untracked;
    OpensThenDrains(c, call);
    if call.Dispatch? {
      OpenedCoherent(c, call.notices, inotify);
      DrainKeys(AfterOpening(c, call).backend, call.round);
      assert f in DrainNext(AfterOpening(c, call).backend, call.round).devices.Keys;
    } else if call.Configure? {
      ConfigureNext(c, call.fd, call.settings);
    }
  }

  /** Over any run of calls: every tracked device is an input device that some call brought
      up, with the path, the descriptor and the kind that opening its node gave. */
  lemma {:induction false} EveryDeviceOffered(inotify: Option<Fd>, calls: seq<Call>, f: Fd)
    returns (i: nat, n: Node)
    requires ProperRun(Start(inotify), calls, inotify)
    requires f in RunCalls(Start(inotify), calls).backend.devices
    ensures i < |calls| && n in Offered(calls[i])
    ensures OpenedFrom(RunCalls(Start(inotify), calls).backend.devices[f], f, n)
  {
    hide CallNext, AfterOpening, Proper, ProperRun, RunCalls, Coherent, OpenedFrom;
    var c0 := Start(inotify);
    if calls == [] {
      NothingTracked(inotify);
    } else {
      var before, call := calls[..|calls| - 1], calls[|calls| - 1];
      var c, m := RunCalls(c0, before), RunCalls(c0, calls).backend.devices;
      Configured.LastCall(inotify, calls);
      LifeOfADevice(inotify, before, 0);
      CallOrigin(c, call, inotify, f);
      OpenedOrigin(c, call, f);
      var h := AfterOpening(c, call).backend.devices;
      if k :| k in Offered(call) && OpenedFrom(h[f], f, k) {
        i, n := |calls| - 1, k;
        SameOrigin(h[f], m[f], f, n);
      } else {
        i, n := EveryDeviceOffered(inotify, before, f);
        SameOrigin(h[f], m[f], f, n);
      }
    }
  }

  lemma NothingTracked(inotify: Option<Fd>)
    ensures RunCalls(Start(inotify), []).backend.devices == map[]
  {}

  lemma OpenedOrigin(c: Ctx, call: Call, f: Fd)
    requires f in AfterOpening(c, call).backend.devices
    ensures var d := AfterOpening(c, call).backend.devices[f];
            (f in c.backend.devices && d == c.backend.devices[f])
            || exists n :: n in Offered(call) && OpenedFrom(d, f, n)
  {
    hide OpenAll, Untracked, OpenedFrom, PathTracked;
    OpenAllOrigin(c, NodesOf(c, call), f);
    if call.Dispatch? { UntrackedPaths(c.backend.devices, call.notices); }
  }

  // ---- and what is offered is tracked ----

  /** The kernel gives every node of a list a free descriptor of its own. */
  ghost predicate OwnDescriptors(m: map<Fd, Device>, ns: seq<Node>) {
    && (forall i :: 0 <= i < |ns| && IsInputDevice(ns[i].open) ==> ns[i].open.fd !in m)
    && forall i, j :: 0 <= i < j < |ns| && IsInputDevice(ns[i].open) && IsInputDevice(ns[j].open) ==>
         ns[i].open.fd != ns[j].open.fd
  }

  /** Every input device of a list is tracked, as opening gave it, and announced. */
  lemma {:induction false} OfferTaken(c: Ctx, ns: seq<Node>, i: nat)
    requires OwnDescriptors(c.backend.devices, ns) && i < |ns| && IsInputDevice(ns[i].open)
    ensures var after, f := OpenAll(c, ns).backend.devices, ns[i].open.fd;
            && f in after && OpenedFrom(after[f], f, ns[i])
            && Queued(after[f].id, DeviceAdded) in OpenAllOut(c, ns)
  {
    hide OpenNext, OpenOut, OpenedFrom;
    var k := |ns| - 1;
    var before, n := ns[..k], ns[k];
    assert OwnDescriptors(c.backend.devices, before);
    var d := OpenAll(c, before);
    if i < k {
      OfferTaken(c, before, i);
      OpenKeepsOthers(d, n, ns[i].open.fd);
    } else {
      FreeSoFar(c, before, n);
      OpenTaken(d, n);
    }
  }

  lemma FreeSoFar(c: Ctx, ns: seq<Node>, n: Node)
    requires OwnDescriptors(c.backend.devices, ns + [n]) && IsInputDevice(n.open)
    ensures n.open.fd !in OpenAll(c, ns).backend.devices
  {
    hide OpenAll;
    var all := ns + [n];
    assert all[|ns|] == n;
    forall k | k in ns && IsInputDevice(k.open) ensures k.open.fd != n.open.fd {
      var i :| 0 <= i < |ns| && ns[i] == k;
      assert all[i] == k;
    }
    if n.open.fd in OpenAll(c, ns).backend.devices { OpenAllOrigin(c, ns, n.open.fd); }
  }

  lemma OpenTaken(c: Ctx, n: Node)
    requires IsInputDevice(n.open) && n.open.fd !in c.backend.devices
    ensures var after, f := OpenNext(c, n).backend.devices, n.open.fd;
            && f in after && OpenedFrom(after[f], f, n) && Queued(after[f].id, DeviceAdded) in OpenOut(c, n)
  {
    hide IdleSlots;
  }

  lemma OpenKeepsOthers(c: Ctx, n: Node, f: Fd)
    requires f in c.backend.devices
    ensures f in OpenNext(c, n).backend.devices && OpenNext(c, n).backend.devices[f] == c.backend.devices[f]
  {}

  /** A notice of an input device whose path is not tracked is taken by the dispatch that
      gets it. */
  lemma NoticeTaken(c: Ctx, notices: seq<Node>, n: Node)
    requires n in notices && IsInputDevice(n.open) && !PathTracked(c.backend.devices, n.path)
    requires OwnDescriptors(c.backend.devices, Untracked(c.backend.devices, notices))
    ensures var after, f := Hotplugged(c, notices).backend.devices, n.open.fd;
            && f in after && OpenedFrom(after[f], f, n)
            && forall r :: Queued(after[f].id, DeviceAdded) in DispatchOut(c, notices, r)
  {
    hide OpenAll, OpenAllOut, Untracked, OpenedFrom, OwnDescriptors, PathTracked, IsInputDevice, DrainOut;
    var ns := Untracked(c.backend.devices, notices);
    UntrackedPaths(c.backend.devices, notices);
    var i :| 0 <= i < |ns| && ns[i] == n;
    OfferTaken(c, ns, i);
  }
}
