/** When two tracked devices come to share a path, over any run of the client's calls. */
module TrackedPaths {
  import opened Basics
  import opened Devices
  import opened Drain
  import opened Context
  import opened Lifecycle
  import opened Hotplug

  /** Opening looks at the descriptor alone: nothing keeps it from a path that is tracked. */
  predicate Clashes(c: Ctx, n: Node) {
    Accepts(n.open) && n.open.fd !in c.backend.devices && PathTracked(c.backend.devices, n.path)
  }

  lemma OpenApart(c: Ctx, n: Node)
    requires DistinctPaths(c.backend.devices)
    ensures DistinctPaths(OpenNext(c, n).backend.devices) <==> !Clashes(c, n)
  {
    var m, after := c.backend.devices, OpenNext(c, n).backend.devices;
    if Clashes(c, n) {
      var f :| f in m && m[f].path == n.path;
      assert after[f].path == after[n.open.fd].path;
    }
  }

  /** Some node of a list clashes when its turn comes. */
  ghost predicate ClashesIn(c: Ctx, ns: seq<Node>) {
    exists j :: 0 <= j < |ns| && Clashes(OpenAll(c, ns[..j]), ns[j])
  }

  lemma ClashesInLast(c: Ctx, ns: seq<Node>)
    requires ns != []
    ensures var before, n := ns[..|ns| - 1], ns[|ns| - 1];
            ClashesIn(c, ns) <==> ClashesIn(c, before) || Clashes(OpenAll(c, before), n)
  {
    hide Clashes, OpenAll;
    var k := |ns| - 1;
    assert forall j :: 0 <= j < k ==> ns[..k][..j] == ns[..j] && ns[..k][j] == ns[j];
    if ClashesIn(c, ns[..k]) {
      var j :| 0 <= j < k && Clashes(OpenAll(c, ns[..k][..j]), ns[..k][j]);
      assert Clashes(OpenAll(c, ns[..j]), ns[j]);
    }
  }

  lemma {:induction false} OpenAllApart(c: Ctx, ns: seq<Node>)
    requires DistinctPaths(c.backend.devices)
    ensures DistinctPaths(OpenAll(c, ns).backend.devices) <==> !ClashesIn(c, ns)
  {
    hide OpenNext, Clashes, ClashesIn, DistinctPaths;
    if ns == [] {
      NothingClashes(c);
    } else {
      var before, n := ns[..|ns| - 1], ns[|ns| - 1];
      var d := OpenAll(c, before);
      OpenAllApart(c, before);
      ClashesInLast(c, ns);
      if DistinctPaths(d.backend.devices) { OpenApart(d, n); } else { StaysShared(d, n); }
    }
  }

  lemma NothingClashes(c: Ctx)
    ensures !ClashesIn(c, [])
  {}

  lemma StaysShared(c: Ctx, n: Node)
    requires !DistinctPaths(c.backend.devices)
    ensures !DistinctPaths(OpenNext(c, n).backend.devices)
  {
    var m, after := c.backend.devices, OpenNext(c, n).backend.devices;
    var f, g :| f in m && g in m && f != g && m[f].path == m[g].path;
    assert after[f].path == after[g].path;
  }

  lemma DrainApart(b: Backend, r: Round)
    requires ProperRound(b, r) && DistinctIds(b.devices) && DistinctPaths(b.devices)
    ensures DistinctPaths(DrainNext(b, r).devices)
  {
    hide DrainNext, ProperRound, DistinctIds, Dead;
    DrainKeys(b, r);
    var after := DrainNext(b, r).devices;
    forall f ensures f in after ==> f in b.devices && after[f].path == b.devices[f].path {
      assert f in after ==> f in after.Keys;
    }
  }

  // ---- runs ----

  /** In the middle of every call, when it has opened its nodes, all tracked paths differ. */
  ghost predicate ApartThroughout(c: Ctx, calls: seq<Call>) {
    forall i :: 0 <= i < |calls| ==> DistinctPaths(AfterOpening(RunCalls(c, calls[..i]), calls[i]).backend.devices)
  }

  ghost predicate CallClashes(c: Ctx, call: Call) {
    ClashesIn(c, NodesOf(c, call))
  }

  ghost predicate NeverClashes(c: Ctx, calls: seq<Call>) {
    forall i :: 0 <= i < |calls| ==> !CallClashes(RunCalls(c, calls[..i]), calls[i])
  }

  lemma ThroughoutLast(c: Ctx, calls: seq<Call>)
    requires calls != []
    ensures var before, call := calls[..|calls| - 1], calls[|calls| - 1];
            && (ApartThroughout(c, calls)
                <==> (ApartThroughout(c, before)
                      && DistinctPaths(AfterOpening(RunCalls(c, before), call).backend.devices)))
            && (NeverClashes(c, calls) <==> (NeverClashes(c, before) && !CallClashes(RunCalls(c, before), call)))
  {
    hide RunCalls, AfterOpening, DistinctPaths, CallClashes;
    var k := |calls| - 1;
    assert forall i :: 0 <= i < k ==> calls[..k][..i] == calls[..i] && calls[..k][i] == calls[i];
  }

  lemma CallApart(c: Ctx, call: Call, inotify: Option<Fd>)
    requires Coherent(c, inotify) && Proper(c, call, inotify) && DistinctPaths(c.backend.devices)
    ensures DistinctPaths(AfterOpening(c, call).backend.devices) <==> !CallClashes(c, call)
    ensures !CallClashes(c, call) ==> DistinctPaths(CallNext(c, call).backend.devices)
  {
    hide OpenAll, ClashesIn, DrainNext, ProperRound, DistinctIds, DistinctPaths;
    OpenAllApart(c, NodesOf(c, call));
    OpensThenDrains(c, call);
    match call
    case Dispatch(notices, r) =>
      OpenedCoherent(c, notices, inotify);
      if !CallClashes(c, call) { DrainApart(AfterOpening(c, call).backend, r); }
    case Configure(fd, s) => ConfigureApart(c, fd, s);
    case _ =>
  }

  lemma ConfigureApart(c: Ctx, fd: Fd, s: Settings)
    requires DistinctPaths(c.backend.devices)
    ensures DistinctPaths(CallNext(c, Configure(fd, s)).backend.devices)
  {}

  /** No two tracked devices ever share a path exactly when no call opens, on a free
      descriptor, a node whose path is tracked by then. */
  lemma {:induction false} PathsApart(inotify: Option<Fd>, calls: seq<Call>)
    requires ProperRun(Start(inotify), calls, inotify)
    ensures var c0 := Start(inotify);
            && (ApartThroughout(c0, calls) <==> NeverClashes(c0, calls))
            && (NeverClashes(c0, calls) ==> DistinctPaths(RunCalls(c0, calls).backend.devices))
  {
    hide ApartThroughout, NeverClashes, CallClashes, CallNext, AfterOpening, DistinctPaths, Coherent, Proper;
    var c0 := Start(inotify);
    if calls == [] {
      NothingTracked(inotify);
    } else {
      var before, call := calls[..|calls| - 1], calls[|calls| - 1];
      PathsApart(inotify, before);
      ThroughoutLast(c0, calls);
      LifeOfADevice(inotify, before, 0);
      if NeverClashes(c0, before) { CallApart(RunCalls(c0, before), call, inotify); }
    }
  }

  lemma NothingTracked(inotify: Option<Fd>)
    ensures DistinctPaths(Start(inotify).backend.devices)
    ensures ApartThroughout(Start(inotify), []) && NeverClashes(Start(inotify), [])
  {}

  /** Adding one path twice tracks it twice. */
  lemma AddedTwice(path: string, fd: Fd)
    ensures var n, o := Node(path, Opened(fd, false, true, false, false, true)),
                        Node(path, Opened(fd + 1, false, true, false, false, true));
            var m := RunCalls(Start(None), [AddDevice(n)] + [AddDevice(o)]).backend.devices;
            fd in m && fd + 1 in m && m[fd].path == m[fd + 1].path
  {
    var n, o := Node(path, Opened(fd, false, true, false, false, true)),
                Node(path, Opened(fd + 1, false, true, false, false, true));
    var calls := [AddDevice(n)] + [AddDevice(o)];
    assert calls[..1] == [AddDevice(n)] && [AddDevice(n)][..0] == [];
    assert RunCalls(Start(None), [AddDevice(n)]).backend == OpenNext(Start(None), n).backend;
  }
}
