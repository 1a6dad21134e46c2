/** Which device a caller gets for a path, and when one path is opened twice. */
module Hotplug {
  import opened Basics
  import opened Events
  import opened Touchpad
  import opened Devices
  import opened Context

  // ---- adding a path ----

  /** What `libinput_path_add_device` hands back: the end of the context's list. */
  function Returned(c: Ctx): Option<nat> {
    if c.count == 0 then None else Some(c.count - 1)
  }

  /** The caller gets the device that was opened for it exactly when the node is an input
      device on a free descriptor, and it starts with the default settings. On a descriptor
      that is taken the caller gets a device that is never tracked nor announced. For a node
      that cannot be opened or is not an input device it gets whatever was listed last, and
      null only if nothing ever was. */
  lemma AddReturns(c: Ctx, n: Node)
    requires forall f :: f in c.backend.devices ==> c.backend.devices[f].id < c.count
    ensures var after, o := OpenNext(c, n), n.open;
            var m, accepted := c.backend.devices,
                               o.Opened? && !o.ours && (o.pointerProp || o.relative || o.keyA);
            && ((exists f :: f in after.backend.devices && f !in m
                  && Returned(after) == Some(after.backend.devices[f].id)
                  && OpenOut(c, n) == [Queued(after.backend.devices[f].id, DeviceAdded)])
                <==> accepted && o.fd !in m)
            && (accepted && o.fd !in m ==>
                  after.backend.devices == m[o.fd := Device(c.count, n.path, o.absolute, o.keyA,
                                                            o.pointerProp || (o.relative && !o.keyA),
                                                            Settings(true, true, true, 0.0), INITIAL, [], None)])
            && (accepted && o.fd in m ==>
                  after.backend == c.backend && Returned(after) == Some(c.count) && OpenOut(c, n) == []
                  && forall f :: f in m ==> m[f].id != c.count)
            && (!accepted ==>
                  after.backend == c.backend && Returned(after) == Returned(c) && OpenOut(c, n) == [])
  {
    hide IdleSlots;
    var after := OpenNext(c, n);
    if Accepts(n.open) && n.open.fd !in c.backend.devices {
      assert n.open.fd in after.backend.devices && n.open.fd !in c.backend.devices;
    }
  }

  /** With one device open, asking for a node that cannot be opened returns that device. */
  lemma RefusedAddReturnsAnother(path: string, other: string, fd: Fd)
    ensures var c := OpenNext(Start(None), Node(path, Opened(fd, false, true, false, false, true)));
            var after := OpenNext(c, Node(other, OpenFailed));
            && fd in c.backend.devices && c.backend.devices[fd].path == path
            && Returned(after) == Some(c.backend.devices[fd].id)
  {}

  // ---- one path, two devices ----

  ghost predicate DistinctPaths(m: map<Fd, Device>) {
    forall f, g :: f in m && g in m && f != g ==> m[f].path != m[g].path
  }

  /** The kernel gives every open descriptor a number of its own. */
  ghost predicate FreshFds(m: map<Fd, Device>, ns: seq<Node>) {
    && (forall i :: 0 <= i < |ns| && Accepts(ns[i].open) ==> ns[i].open.fd !in m)
    && (forall i, j :: 0 <= i < j < |ns| && Accepts(ns[i].open) && Accepts(ns[j].open) ==>
          ns[i].open.fd != ns[j].open.fd)
  }

  /** Some two notices of a batch name the same path and both open. */
  ghost predicate NamesTwice(ns: seq<Node>) {
    exists i, j :: 0 <= i < j < |ns| && Accepts(ns[i].open) && Accepts(ns[j].open) && ns[i].path == ns[j].path
  }

  /** Whether one of the nodes is opened on descriptor `f`. */
  ghost predicate OpensOn(ns: seq<Node>, f: Fd) {
    exists i :: 0 <= i < |ns| && Accepts(ns[i].open) && ns[i].open.fd == f
  }

  lemma OpensOnLast(ns: seq<Node>, f: Fd)
    requires ns != []
    ensures var n := ns[|ns| - 1];
            OpensOn(ns, f) <==> OpensOn(ns[..|ns| - 1], f) || (Accepts(n.open) && n.open.fd == f)
  {
    var before := ns[..|ns| - 1];
    if OpensOn(before, f) {
      var i :| 0 <= i < |before| && Accepts(before[i].open) && before[i].open.fd == f;
      assert ns[i] == before[i];
    }
    if OpensOn(ns, f) {
      var i :| 0 <= i < |ns| && Accepts(ns[i].open) && ns[i].open.fd == f;
      assert i < |before| ==> before[i] == ns[i];
    }
  }

  /** Opening a batch leaves what is tracked alone and adds only what it accepts. */
  lemma {:induction false} OpenAllKeys(c: Ctx, ns: seq<Node>)
    ensures var m, after := c.backend.devices, OpenAll(c, ns).backend.devices;
            && (forall f :: f in m ==> f in after && after[f] == m[f])
            && (forall f :: f in after && f !in m ==> OpensOn(ns, f))
  {
    hide OpensOn, NewDevice;
    if ns != [] {
      var before := ns[..|ns| - 1];
      OpenAllKeys(c, before);
      forall f
        ensures var n := ns[|ns| - 1];
                OpensOn(ns, f) <==> OpensOn(before, f) || (Accepts(n.open) && n.open.fd == f)
      {
        OpensOnLast(ns, f);
      }
    }
  }

  /** On fresh descriptors every accepted node is added, under its path. */
  lemma {:induction false} OpenAllAt(c: Ctx, ns: seq<Node>, i: nat)
    requires FreshFds(c.backend.devices, ns) && i < |ns| && Accepts(ns[i].open)
    ensures var after := OpenAll(c, ns).backend.devices;
            ns[i].open.fd in after && after[ns[i].open.fd].path == ns[i].path
  {
    hide Accepts, OpensOn, FreshFds;
    var k := |ns| - 1;
    var before := ns[..k];
    FreshBefore(c.backend.devices, ns);
    if i < k {
      OpenAllAt(c, before, i);
    } else {
      OpenAllKeys(c, before);
    }
  }

  lemma FreshBefore(m: map<Fd, Device>, ns: seq<Node>)
    requires ns != [] && FreshFds(m, ns)
    ensures var before, n := ns[..|ns| - 1], ns[|ns| - 1];
            && FreshFds(m, before)
            && (Accepts(n.open) ==> n.open.fd !in m && !OpensOn(before, n.open.fd))
            && forall i :: 0 <= i < |before| && Accepts(ns[i].open) && Accepts(n.open) ==> ns[i].open.fd != n.open.fd
  {
    hide Accepts;
  }

  lemma {:induction false} UntrackedPaths(m: map<Fd, Device>, ns: seq<Node>)
    ensures forall n :: n in Untracked(m, ns) <==> n in ns && !PathTracked(m, n.path)
  {
    hide PathTracked;
    if ns != [] { UntrackedPaths(m, ns[..|ns| - 1]); }
  }

  /** Every notice of a path that is not tracked passes, as often as it came. */
  lemma {:induction false} UntrackedCounts(m: map<Fd, Device>, ns: seq<Node>, n: Node)
    ensures multiset(Untracked(m, ns))[n] == if PathTracked(m, n.path) then 0 else multiset(ns)[n]
  {
    hide PathTracked;
    if ns != [] {
      var before := ns[..|ns| - 1];
      UntrackedCounts(m, before, n);
      assert ns == before + [ns[|ns| - 1]];
    }
  }

  /** Notices pass in order: filtering commutes with concatenation. */
  lemma {:induction false} UntrackedConcat(m: map<Fd, Device>, a: seq<Node>, b: seq<Node>)
    ensures Untracked(m, a + b) == Untracked(m, a) + Untracked(m, b)
  {
    hide PathTracked;
    if b == [] {
      assert a + b == a;
    } else {
      var n := |b| - 1;
      assert (a + b)[..|a| + n] == a + b[..n];
      UntrackedConcat(m, a, b[..n]);
    }
  }

  /** The notices of one batch are compared with the tracked paths before any of them is
      opened. So a batch keeps paths apart exactly when the notices that pass name no
      path twice among those that open. */
  lemma HotplugKeepsPathsApart(c: Ctx, notices: seq<Node>)
    requires DistinctPaths(c.backend.devices)
    requires FreshFds(c.backend.devices, Untracked(c.backend.devices, notices))
    ensures DistinctPaths(Hotplugged(c, notices).backend.devices)
            <==> !NamesTwice(Untracked(c.backend.devices, notices))
  {
    hide OpenAll, Untracked;
    var m, ns := c.backend.devices, Untracked(c.backend.devices, notices);
    var after := OpenAll(c, ns).backend.devices;
    OpenAllKeys(c, ns);
    forall i | 0 <= i < |ns| && Accepts(ns[i].open)
      ensures ns[i].open.fd in after && after[ns[i].open.fd].path == ns[i].path
    {
      OpenAllAt(c, ns, i);
    }
    UntrackedPaths(m, notices);
    if NamesTwice(ns) {
      var i, j :| 0 <= i < j < |ns| && Accepts(ns[i].open) && Accepts(ns[j].open) && ns[i].path == ns[j].path;
      assert after[ns[i].open.fd].path == after[ns[j].open.fd].path;
    } else {
      forall f, g | f in after && g in after && f != g ensures after[f].path != after[g].path {
        if f !in m && g !in m {
          var i :| 0 <= i < |ns| && Accepts(ns[i].open) && ns[i].open.fd == f;
          var j :| 0 <= j < |ns| && Accepts(ns[j].open) && ns[j].open.fd == g;
          assert i < j || j < i;
        } else if f !in m {
          var i :| 0 <= i < |ns| && Accepts(ns[i].open) && ns[i].open.fd == f;
          assert ns[i] in ns;
        } else if g !in m {
          var j :| 0 <= j < |ns| && Accepts(ns[j].open) && ns[j].open.fd == g;
          assert ns[j] in ns;
        }
      }
    }
  }

  /** Creating a node and then changing its attributes gives two notices of one path. */
  lemma TwoNoticesOpenTwice(path: string, fd: Fd)
    ensures var c, n, o := Start(None), Node(path, Opened(fd, false, true, false, false, true)),
                           Node(path, Opened(fd + 1, false, true, false, false, true));
            && DistinctPaths(c.backend.devices)
            && !DistinctPaths(Hotplugged(c, [n, o]).backend.devices)
  {
    var c, n, o := Start(None), Node(path, Opened(fd, false, true, false, false, true)),
                   Node(path, Opened(fd + 1, false, true, false, false, true));
    assert [n, o][..1] == [n] && [n][..0] == [];
    var ns := Untracked(map[], [n, o]);
    assert Untracked(map[], [n]) == [n];
    assert ns == [n, o];
    assert Accepts(ns[0].open) && Accepts(ns[1].open);
    HotplugKeepsPathsApart(c, [n, o]);
  }
}
