/** The library context: opening devices, dispatching, and the event queue. */
module Context {
  import opened Basics
  import opened Events
  import opened Touchpad
  import opened Devices
  import opened Drain

  /** What opening a device node gives: an error, or a descriptor and what the device
      says about itself. `ours` marks the daemon's own virtual device. */
  datatype OpenResult =
    | OpenFailed
    | Opened(fd: Fd, ours: bool, pointerProp: bool, relative: bool, keyA: bool, absolute: bool)

  predicate Accepts(o: OpenResult) {
    o.Opened? && !o.ours && (o.pointerProp || o.relative || o.keyA)
  }

  function NewDevice(id: nat, path: string, o: OpenResult): Device
    requires o.Opened?
  {
    Device(id, path, o.absolute, o.keyA, o.pointerProp || (!o.keyA && o.relative), DEFAULTS, INITIAL, [], None)
  }

  /** A device node together with what opening it would give. */
  datatype Node = Node(path: string, open: OpenResult)

  /** `count` is the length of the context's list of devices; entries are never removed. */
  datatype Ctx = Ctx(backend: Backend, count: nat, registered: set<Fd>, queue: seq<Queued>)

  function Watched(inotify: Option<Fd>): set<Fd> {
    if inotify.Some? then {inotify.value} else {}
  }

  function Start(inotify: Option<Fd>): Ctx {
    Ctx(Backend(map[], None), 0, Watched(inotify), [])
  }

  // ---- opening ----

  /** A device whose descriptor is already tracked is listed but neither tracked nor
      announced. */
  function OpenNext(c: Ctx, n: Node): Ctx {
    if !Accepts(n.open) then c
    else if n.open.fd in c.backend.devices then c.(count := c.count + 1)
    else
      c.(count := c.count + 1, registered := c.registered + {n.open.fd},
         backend := c.backend.(devices := c.backend.devices[n.open.fd := NewDevice(c.count, n.path, n.open)]))
  }

  function OpenOut(c: Ctx, n: Node): seq<Queued> {
    if Accepts(n.open) && n.open.fd !in c.backend.devices then [Queued(c.count, DeviceAdded)] else []
  }

  function OpenAll(c: Ctx, ns: seq<Node>): Ctx {
    if ns == [] then c else OpenNext(OpenAll(c, ns[..|ns| - 1]), ns[|ns| - 1])
  }

  function OpenAllOut(c: Ctx, ns: seq<Node>): seq<Queued> {
    if ns == [] then []
    else OpenAllOut(c, ns[..|ns| - 1]) + OpenOut(OpenAll(c, ns[..|ns| - 1]), ns[|ns| - 1])
  }

  predicate PathTracked(m: map<Fd, Device>, path: string) {
    exists fd :: fd in m && m[fd].path == path
  }

  /** The hotplug notices that get as far as opening: all are filtered before any is opened. */
  function Untracked(m: map<Fd, Device>, ns: seq<Node>): seq<Node> {
    if ns == [] then []
    else
      Untracked(m, ns[..|ns| - 1]) + if PathTracked(m, ns[|ns| - 1].path) then [] else [ns[|ns| - 1]]
  }

  // ---- calls ----

  datatype Call =
    | AssignSeat(found: seq<Node>)
    | AddDevice(node: Node)
    | Dispatch(notices: seq<Node>, round: Round)
    | GetEvent
    | Configure(fd: Fd, settings: Settings)

  function Hotplugged(c: Ctx, notices: seq<Node>): Ctx {
    OpenAll(c, Untracked(c.backend.devices, notices))
  }

  function DispatchNext(c: Ctx, notices: seq<Node>, r: Round): Ctx {
    var h := Hotplugged(c, notices);
    h.(backend := DrainNext(h.backend, r),
       registered := h.registered - AsSet(Dead(h.backend.devices, r.order, r)))
  }

  function DispatchOut(c: Ctx, notices: seq<Node>, r: Round): seq<Queued> {
    OpenAllOut(c, Untracked(c.backend.devices, notices)) + DrainOut(Hotplugged(c, notices).backend, r)
  }

  /** What a call puts in the queue. */
  function CallOut(c: Ctx, call: Call): seq<Queued> {
    match call
    case AssignSeat(found) => OpenAllOut(c, found)
    case AddDevice(n) => OpenOut(c, n)
    case Dispatch(notices, r) => DispatchOut(c, notices, r)
    case GetEvent => []
    case Configure(_, _) => []
  }

  /** What a call takes out of it. */
  function CallTaken(c: Ctx, call: Call): seq<Queued> {
    if call.GetEvent? && c.queue != [] then c.queue[..1] else []
  }

  function CallNext(c: Ctx, call: Call): Ctx {
    var d := match call
      case AssignSeat(found) => OpenAll(c, found)
      case AddDevice(n) => OpenNext(c, n)
      case Dispatch(notices, r) => DispatchNext(c, notices, r)
      case GetEvent => c
      case Configure(fd, s) =>
        if fd in c.backend.devices then
          c.(backend := c.backend.(devices := c.backend.devices[fd := c.backend.devices[fd].(settings := s)]))
        else c;
    d.(queue := c.queue[|CallTaken(c, call)|..] + CallOut(c, call))
  }

  /** The nodes a call tries to open, in order. */
  function NodesOf(c: Ctx, call: Call): seq<Node> {
    match call
    case AssignSeat(found) => found
    case AddDevice(n) => [n]
    case Dispatch(notices, _) => Untracked(c.backend.devices, notices)
    case _ => []
  }

  /** The context in the middle of a call, when everything is opened and nothing read yet. */
  function AfterOpening(c: Ctx, call: Call): Ctx {
    OpenAll(c, NodesOf(c, call))
  }

  /** Every call opens its nodes first; a dispatch then drains. */
  lemma OpensThenDrains(c: Ctx, call: Call)
    ensures var h, next := AfterOpening(c, call), CallNext(c, call);
            if call.Dispatch? then
              && next.backend == DrainNext(h.backend, call.round)
              && CallOut(c, call) == OpenAllOut(c, NodesOf(c, call)) + DrainOut(h.backend, call.round)
            else
              && CallOut(c, call) == OpenAllOut(c, NodesOf(c, call))
              && (!call.Configure? ==> next.backend == h.backend)
    ensures CallNext(c, call).count == AfterOpening(c, call).count
  {
    hide DrainNext, DrainOut, OpenNext, OpenOut;
    if call.AddDevice? { assert [call.node][..0] == []; }
  }

  function RunCalls(c: Ctx, calls: seq<Call>): Ctx {
    if calls == [] then c else CallNext(RunCalls(c, calls[..|calls| - 1]), calls[|calls| - 1])
  }

  function Enqueued(c: Ctx, calls: seq<Call>): seq<Queued> {
    if calls == [] then []
    else Enqueued(c, calls[..|calls| - 1]) + CallOut(RunCalls(c, calls[..|calls| - 1]), calls[|calls| - 1])
  }

  function Delivered(c: Ctx, calls: seq<Call>): seq<Queued> {
    if calls == [] then []
    else Delivered(c, calls[..|calls| - 1]) + CallTaken(RunCalls(c, calls[..|calls| - 1]), calls[|calls| - 1])
  }
}
