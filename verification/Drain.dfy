/** One drain of every open device, in whatever order the device map is visited. */
module Drain {
  import opened Basics
  import opened Events
  import opened Devices

  datatype Backend = Backend(devices: map<Fd, Device>, typing: Option<Time>)

  /** Everything a drain depends on besides the backend: the orders in which the map is
      visited for repeats and for reading, the clock, and what reading gives. */
  datatype Round = Round(pollOrder: seq<Fd>, order: seq<Fd>, now: Time, fetches: map<Fd, Fetch>) {
    function Fetch(fd: Fd): Fetch {
      if fd in fetches then fetches[fd] else WouldBlock
    }
  }

  // ---- the repeat phase ----

  function PollOne(m: map<Fd, Device>, fd: Fd, now: Time): map<Fd, Device> {
    if fd in m then m[fd := PollNext(m[fd], now)] else m
  }

  function PollOneOut(m: map<Fd, Device>, fd: Fd, now: Time): seq<Queued> {
    if fd in m then Tag(m[fd].id, PollOut(m[fd], now)) else []
  }

  function PollAll(m: map<Fd, Device>, order: seq<Fd>, now: Time): map<Fd, Device> {
    if order == [] then m else PollOne(PollAll(m, order[..|order| - 1], now), order[|order| - 1], now)
  }

  function PollAllOut(m: map<Fd, Device>, order: seq<Fd>, now: Time): seq<Queued> {
    if order == [] then []
    else
      PollAllOut(m, order[..|order| - 1], now)
      + PollOneOut(PollAll(m, order[..|order| - 1], now), order[|order| - 1], now)
  }

  // ---- the reading phase ----

  function ReadOne(b: Backend, fd: Fd, f: Fetch): Backend {
    if fd !in b.devices then b
    else
      Backend(b.devices[fd := FetchNext(b.devices[fd], b.typing, f)], FetchTyping(b.devices[fd], b.typing, f))
  }

  function ReadOneOut(b: Backend, fd: Fd, f: Fetch): seq<Queued> {
    if fd !in b.devices then [] else Tag(b.devices[fd].id, FetchOut(b.devices[fd], b.typing, f))
  }

  function ReadAll(b: Backend, order: seq<Fd>, r: Round): Backend {
    if order == [] then b
    else ReadOne(ReadAll(b, order[..|order| - 1], r), order[|order| - 1], r.Fetch(order[|order| - 1]))
  }

  function ReadAllOut(b: Backend, order: seq<Fd>, r: Round): seq<Queued> {
    if order == [] then []
    else
      ReadAllOut(b, order[..|order| - 1], r)
      + ReadOneOut(ReadAll(b, order[..|order| - 1], r), order[|order| - 1], r.Fetch(order[|order| - 1]))
  }

  lemma {:induction false} ReadAllKeys(b: Backend, order: seq<Fd>, r: Round)
    ensures ReadAll(b, order, r).devices.Keys == b.devices.Keys
  {
    if order != [] { ReadAllKeys(b, order[..|order| - 1], r); }
  }

  // ---- removing what has vanished ----

  function Dead(m: map<Fd, Device>, order: seq<Fd>, r: Round): seq<Fd> {
    if order == [] then []
    else
      var fd := order[|order| - 1];
      Dead(m, order[..|order| - 1], r) + if fd in m && r.Fetch(fd).Vanished? then [fd] else []
  }

  function AsSet(fds: seq<Fd>): (all: set<Fd>)
    ensures forall fd :: fd in all <==> fd in fds
  {
    set fd | fd in fds
  }

  function RemoveAll(m: map<Fd, Device>, dead: seq<Fd>): map<Fd, Device> {
    if dead == [] then m else RemoveAll(m, dead[..|dead| - 1]) - {dead[|dead| - 1]}
  }

  function RemoveOneOut(m: map<Fd, Device>, fd: Fd): seq<Queued> {
    if fd in m then [Queued(m[fd].id, DeviceRemoved)] else []
  }

  function RemoveAllOut(m: map<Fd, Device>, dead: seq<Fd>): seq<Queued> {
    if dead == [] then []
    else
      RemoveAllOut(m, dead[..|dead| - 1])
      + RemoveOneOut(RemoveAll(m, dead[..|dead| - 1]), dead[|dead| - 1])
  }

  // ---- a whole drain ----

  function AfterPoll(b: Backend, r: Round): Backend {
    b.(devices := PollAll(b.devices, r.pollOrder, r.now))
  }

  function DrainNext(b: Backend, r: Round): Backend {
    var read := ReadAll(AfterPoll(b, r), r.order, r);
    read.(devices := RemoveAll(read.devices, Dead(b.devices, r.order, r)))
  }

  function DrainOut(b: Backend, r: Round): seq<Queued> {
    var read := ReadAll(AfterPoll(b, r), r.order, r);
    PollAllOut(b.devices, r.pollOrder, r.now)
    + ReadAllOut(AfterPoll(b, r), r.order, r)
    + RemoveAllOut(read.devices, Dead(b.devices, r.order, r))
  }

  /** A visiting order names every device once. */
  ghost predicate Visits(order: seq<Fd>, m: map<Fd, Device>) {
    && (forall i, j :: 0 <= i < j < |order| ==> order[i] != order[j])
    && (forall fd :: fd in order <==> fd in m)
  }

  ghost predicate ProperRound(b: Backend, r: Round) {
    Visits(r.pollOrder, b.devices) && Visits(r.order, b.devices)
  }

  ghost predicate DistinctIds(m: map<Fd, Device>) {
    forall f, g :: f in m && g in m && f != g ==> m[f].id != m[g].id
  }

  /** What is dead was tracked, and does not depend on the state of what is tracked. */
  lemma {:induction false} DeadTracked(m: map<Fd, Device>, n: map<Fd, Device>, order: seq<Fd>, r: Round)
    requires m.Keys == n.Keys
    ensures Dead(m, order, r) == Dead(n, order, r)
    ensures forall fd :: fd in Dead(m, order, r) ==> fd in m
  {
    if order != [] { DeadTracked(m, n, order[..|order| - 1], r); }
  }
}
