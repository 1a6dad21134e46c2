/** What a drain does to one device, seen from that device alone. */
module NonInterference {
  import opened Basics
  import opened Events
  import opened Keyboard
  import opened Devices
  import opened Drain

  /** The events of one device. */
  function Proj(qs: seq<Queued>, id: nat): seq<LibEvent> {
    if qs == [] then []
    else Proj(qs[..|qs| - 1], id) + if qs[|qs| - 1].device == id then [qs[|qs| - 1].event] else []
  }

  lemma {:induction false} ProjConcat(a: seq<Queued>, b: seq<Queued>, id: nat)
    ensures Proj(a + b, id) == Proj(a, id) + Proj(b, id)
  {
    if b == [] {
      assert a + b == a;
    } else {
      var n := |b| - 1;
      assert (a + b)[..|a| + n] == a + b[..n];
      ProjConcat(a, b[..n], id);
    }
  }

  lemma {:induction false} ProjTag(es: seq<LibEvent>, device: nat, id: nat)
    ensures Proj(Tag(device, es), id) == if device == id then es else []
  {
    if es != [] {
      var n := |es| - 1;
      assert Tag(device, es)[..n] == Tag(device, es[..n]);
      ProjTag(es[..n], device, id);
    }
  }

  lemma NothingSeen(id: nat)
    ensures Proj([], id) == []
  {}

  ghost predicate NoRepeat(order: seq<Fd>) {
    forall i, j :: 0 <= i < j < |order| ==> order[i] != order[j]
  }

  // ---- repeats ----

  lemma PollOneAt(m: map<Fd, Device>, g: Fd, now: Time, f: Fd)
    requires f in m && (g in m && f != g ==> m[g].id != m[f].id)
    ensures PollOne(m, g, now).Keys == m.Keys
    ensures PollOne(m, g, now)[f] == if f == g then PollNext(m[f], now) else m[f]
    ensures Proj(PollOneOut(m, g, now), m[f].id) == if f == g then PollOut(m[f], now) else []
  {
    hide PollNext, PollOut;
    if g in m {
      ProjTag(PollOut(m[g], now), m[g].id, m[f].id);
    }
  }

  lemma {:induction false} PollAllAt(m: map<Fd, Device>, order: seq<Fd>, now: Time, f: Fd)
    requires NoRepeat(order) && DistinctIds(m) && f in m
    ensures PollAll(m, order, now).Keys == m.Keys
    ensures PollAll(m, order, now)[f] == if f in order then PollNext(m[f], now) else m[f]
    ensures Proj(PollAllOut(m, order, now), m[f].id) == if f in order then PollOut(m[f], now) else []
  {
    hide PollOne, PollOneOut, PollOut, Proj;
    NothingSeen(m[f].id);
    if order != [] {
      var n := |order| - 1;
      var prefix, g := order[..n], order[n];
      var before := PollAll(m, prefix, now);
      assert g !in prefix;
      PollAllAt(m, prefix, now, f);
      if g in m { PollAllAt(m, prefix, now, g); }
      PollOneAt(before, g, now, f);
      ProjConcat(PollAllOut(m, prefix, now), PollOneOut(before, g, now), m[f].id);
    }
  }

  // ---- reading ----

  /** The time of the last key press when a device's turn comes. */
  function SnapshotAt(b: Backend, order: seq<Fd>, r: Round, f: Fd): Option<Time> {
    if order == [] then b.typing
    else if order[|order| - 1] == f then ReadAll(b, order[..|order| - 1], r).typing
    else SnapshotAt(b, order[..|order| - 1], r, f)
  }

  lemma FetchSame(d: Device, s: Option<Time>, f: Fetch)
    ensures SameDevice(d, FetchNext(d, s, f))
  {
    if f.Batch? { BatchSame(d, s, f.readings); }
  }

  lemma ReadOneAt(b: Backend, g: Fd, x: Fetch, f: Fd)
    requires f in b.devices && (g in b.devices && f != g ==> b.devices[g].id != b.devices[f].id)
    ensures ReadOne(b, g, x).devices.Keys == b.devices.Keys
    ensures var d := b.devices[f];
            && ReadOne(b, g, x).devices[f] == (if f == g then FetchNext(d, b.typing, x) else d)
            && Proj(ReadOneOut(b, g, x), d.id) == if f == g then FetchOut(d, b.typing, x) else []
  {
    hide FetchNext, FetchOut, FetchTyping;
    if g in b.devices {
      ProjTag(FetchOut(b.devices[g], b.typing, x), b.devices[g].id, b.devices[f].id);
    }
  }

  lemma {:induction false} ReadAllAt(b: Backend, order: seq<Fd>, r: Round, f: Fd)
    requires NoRepeat(order) && DistinctIds(b.devices) && f in b.devices
    ensures ReadAll(b, order, r).devices.Keys == b.devices.Keys
    ensures var d, s := b.devices[f], SnapshotAt(b, order, r, f);
            && ReadAll(b, order, r).devices[f] == (if f in order then FetchNext(d, s, r.Fetch(f)) else d)
            && Proj(ReadAllOut(b, order, r), d.id) == if f in order then FetchOut(d, s, r.Fetch(f)) else []
  {
    hide ReadOne, ReadOneOut, FetchNext, FetchOut, Proj;
    NothingSeen(b.devices[f].id);
    if order != [] {
      var n := |order| - 1;
      var prefix, g := order[..n], order[n];
      var before := ReadAll(b, prefix, r);
      assert g !in prefix;
      ReadAllAt(b, prefix, r, f);
      if g in b.devices { ReadAllAt(b, prefix, r, g); }
      FetchSame(b.devices[f], SnapshotAt(b, prefix, r, f), r.Fetch(f));
      ReadOneAt(before, g, r.Fetch(g), f);
      ProjConcat(ReadAllOut(b, prefix, r), ReadOneOut(before, g, r.Fetch(g)), b.devices[f].id);
    }
  }

  // ---- removal ----

  lemma {:induction false} DeadAt(m: map<Fd, Device>, order: seq<Fd>, r: Round, f: Fd)
    requires NoRepeat(order)
    ensures f in Dead(m, order, r) <==> f in order && f in m && r.Fetch(f).Vanished?
    ensures NoRepeat(Dead(m, order, r))
  {
    if order != [] {
      var n := |order| - 1;
      var g := order[n];
      DeadAt(m, order[..n], r, f);
      DeadAt(m, order[..n], r, g);
      assert g !in order[..n];
    }
  }

  lemma {:induction false} RemoveAllAt(m: map<Fd, Device>, dead: seq<Fd>, f: Fd)
    requires NoRepeat(dead) && DistinctIds(m) && f in m
    ensures f in RemoveAll(m, dead) <==> f !in dead
    ensures f !in dead ==> RemoveAll(m, dead)[f] == m[f]
    ensures Proj(RemoveAllOut(m, dead), m[f].id) == if f in dead then [DeviceRemoved] else []
  {
    if dead != [] {
      var n := |dead| - 1;
      var prefix, g := dead[..n], dead[n];
      RemoveAllAt(m, prefix, f);
      assert g !in prefix;
      var before := RemoveAll(m, prefix);
      if g in m {
        RemoveAllAt(m, prefix, g);
        assert [Queued(m[g].id, DeviceRemoved)] == Tag(m[g].id, [DeviceRemoved]);
        ProjTag([DeviceRemoved], m[g].id, m[f].id);
        ProjConcat(RemoveAllOut(m, prefix), [Queued(m[g].id, DeviceRemoved)], m[f].id);
        assert f != g ==> m[f].id != m[g].id;
      } else {
        RemoveSubset(m, prefix);
        ProjConcat(RemoveAllOut(m, prefix), [], m[f].id);
      }
    }
  }

  lemma {:induction false} RemoveSubset(m: map<Fd, Device>, dead: seq<Fd>)
    ensures RemoveAll(m, dead).Keys <= m.Keys
  {
    if dead != [] { RemoveSubset(m, dead[..|dead| - 1]); }
  }

  // ---- a whole drain ----

  /** What a drain makes of a device that is alone with its own input. */
  function AloneNext(d: Device, now: Time, snapshot: Option<Time>, f: Fetch): Device {
    FetchNext(PollNext(d, now), snapshot, f)
  }

  function AloneOut(d: Device, now: Time, snapshot: Option<Time>, f: Fetch): seq<LibEvent> {
    PollOut(d, now) + FetchOut(PollNext(d, now), snapshot, f) + if f.Vanished? then [DeviceRemoved] else []
  }

  function Snapshot(b: Backend, r: Round, f: Fd): Option<Time> {
    SnapshotAt(AfterPoll(b, r), r.order, r, f)
  }

  lemma {:induction false} PollAllDistinct(m: map<Fd, Device>, order: seq<Fd>, now: Time)
    requires NoRepeat(order) && DistinctIds(m)
    ensures PollAll(m, order, now).Keys == m.Keys && DistinctIds(PollAll(m, order, now))
  {
    var p := PollAll(m, order, now);
    if order != [] { PollAllDistinct(m, order[..|order| - 1], now); }
    forall f, g | f in p && g in p && f != g ensures p[f].id != p[g].id {
      PollAllAt(m, order, now, f);
      PollAllAt(m, order, now, g);
    }
  }

  lemma {:induction false} ReadAllDistinct(b: Backend, order: seq<Fd>, r: Round)
    requires NoRepeat(order) && DistinctIds(b.devices)
    ensures ReadAll(b, order, r).devices.Keys == b.devices.Keys && DistinctIds(ReadAll(b, order, r).devices)
  {
    var m := ReadAll(b, order, r).devices;
    if order != [] { ReadAllDistinct(b, order[..|order| - 1], r); }
    forall f, g | f in m && g in m && f != g ensures m[f].id != m[g].id {
      ReadAllAt(b, order, r, f);
      ReadAllAt(b, order, r, g);
      FetchSame(b.devices[f], SnapshotAt(b, order, r, f), r.Fetch(f));
      FetchSame(b.devices[g], SnapshotAt(b, order, r, g), r.Fetch(g));
    }
  }

  /** Whatever order the map is visited in, each device's own output and next state are
      those of the device alone: its own events, the time of the drain, and the last
      key press as it stood when the device's turn came. */
  lemma DrainAlone(b: Backend, r: Round, f: Fd)
    requires ProperRound(b, r) && DistinctIds(b.devices) && f in b.devices
    ensures var d, s := b.devices[f], Snapshot(b, r, f);
            && Proj(DrainOut(b, r), d.id) == AloneOut(d, r.now, s, r.Fetch(f))
            && (f in DrainNext(b, r).devices <==> !r.Fetch(f).Vanished?)
            && (f in DrainNext(b, r).devices ==>
                  DrainNext(b, r).devices[f] == AloneNext(d, r.now, s, r.Fetch(f)))
  {
    var d, p := b.devices[f], AfterPoll(b, r);
    var read, dead := ReadAll(p, r.order, r), Dead(b.devices, r.order, r);
    PollAllAt(b.devices, r.pollOrder, r.now, f);
    PollAllDistinct(b.devices, r.pollOrder, r.now);
    ReadAllAt(p, r.order, r, f);
    ReadAllDistinct(p, r.order, r);
    FetchSame(p.devices[f], Snapshot(b, r, f), r.Fetch(f));
    DeadAt(b.devices, r.order, r, f);
    RemoveAllAt(read.devices, dead, f);
    var polled, fetched, gone := PollAllOut(b.devices, r.pollOrder, r.now), ReadAllOut(p, r.order, r),
                              RemoveAllOut(read.devices, dead);
    ProjConcat(polled + fetched, gone, d.id);
    ProjConcat(polled, fetched, d.id);
  }

  lemma AloneUnused(d: Device, now: Time, s: Option<Time>, t: Option<Time>, c: Settings, f: Fetch)
    requires !d.isAbsolute
    ensures AloneNext(d.(settings := c), now, s, f) == AloneNext(d, now, t, f).(settings := c)
    ensures AloneOut(d.(settings := c), now, s, f) == AloneOut(d, now, t, f)
    ensures AloneNext(d, now, t, f).settings == d.settings
  {
    hide BatchNext, BatchEvents, Polled, PollEvents;
    FetchSame(PollNext(d, now), t, f);
    if f.Batch? { SnapshotUnused(PollNext(d, now), s, t, c, f.readings); }
  }

  /** For a device that is not absolute even the key presses of others are invisible:
      two drains of two unrelated backends agree on it. */
  lemma NotAbsoluteAlone(b: Backend, r: Round, c: Backend, q: Round, f: Fd)
    requires ProperRound(b, r) && DistinctIds(b.devices) && f in b.devices
    requires ProperRound(c, q) && DistinctIds(c.devices) && f in c.devices
    requires b.devices[f] == c.devices[f] && !b.devices[f].isAbsolute
    requires r.now == q.now && r.Fetch(f) == q.Fetch(f)
    ensures Proj(DrainOut(b, r), b.devices[f].id) == Proj(DrainOut(c, q), c.devices[f].id)
    ensures f in DrainNext(b, r).devices <==> f in DrainNext(c, q).devices
    ensures f in DrainNext(b, r).devices ==> DrainNext(b, r).devices[f] == DrainNext(c, q).devices[f]
  {
    hide DrainOut, DrainNext, AloneNext, AloneOut, ProperRound, DistinctIds, Snapshot, Proj;
    DrainAlone(b, r, f);
    DrainAlone(c, q, f);
    var d := b.devices[f];
    AloneUnused(d, r.now, Snapshot(b, r, f), Snapshot(c, q, f), d.settings, r.Fetch(f));
    assert d.(settings := d.settings) == d;
  }

  // ---- runs of drains ----

  /** A drain of some backend; between drains the rest of the backend may change freely. */
  datatype Turn = Turn(backend: Backend, round: Round)

  ghost predicate ProperTurn(t: Turn, f: Fd) {
    ProperRound(t.backend, t.round) && DistinctIds(t.backend.devices) && f in t.backend.devices
  }

  /** The device enters the next turn as it left this one, but for its settings. */
  ghost predicate Linked(t: Turn, u: Turn, f: Fd) {
    var after := DrainNext(t.backend, t.round).devices;
    && f in after && f in u.backend.devices
    && u.backend.devices[f] == after[f].(settings := u.backend.devices[f].settings)
  }

  ghost predicate Carries(turns: seq<Turn>, f: Fd) {
    && (forall i :: 0 <= i < |turns| ==> ProperTurn(turns[i], f))
    && (forall i :: 1 <= i < |turns| ==> Linked(turns[i - 1], turns[i], f))
  }

  function RunOut(turns: seq<Turn>): seq<Queued> {
    if turns == [] then []
    else RunOut(turns[..|turns| - 1]) + DrainOut(turns[|turns| - 1].backend, turns[|turns| - 1].round)
  }

  /** The device's own share of a turn. */
  datatype Own = Own(now: Time, fetch: Fetch)

  function OwnTurns(turns: seq<Turn>, f: Fd): seq<Own> {
    seq(|turns|, i requires 0 <= i < |turns| => Own(turns[i].round.now, turns[i].round.Fetch(f)))
  }

  function AloneRun(d: Device, own: seq<Own>): Device {
    if own == [] then d
    else AloneNext(AloneRun(d, own[..|own| - 1]), own[|own| - 1].now, None, own[|own| - 1].fetch)
  }

  function AloneRunOut(d: Device, own: seq<Own>): seq<LibEvent> {
    if own == [] then []
    else
      var o := own[|own| - 1];
      AloneRunOut(d, own[..|own| - 1]) + AloneOut(AloneRun(d, own[..|own| - 1]), o.now, None, o.fetch)
  }

  lemma TurnAlone(t: Turn, f: Fd)
    requires ProperTurn(t, f) && !t.backend.devices[f].isAbsolute
    ensures var e, o := t.backend.devices[f], Own(t.round.now, t.round.Fetch(f));
            && Proj(DrainOut(t.backend, t.round), e.id) == AloneOut(e, o.now, None, o.fetch)
            && SameDevice(e, AloneNext(e, o.now, None, o.fetch))
            && (f in DrainNext(t.backend, t.round).devices ==>
                  DrainNext(t.backend, t.round).devices[f] == AloneNext(e, o.now, None, o.fetch))
  {
    var e := t.backend.devices[f];
    DrainAlone(t.backend, t.round, f);
    FetchSame(PollNext(e, t.round.now), None, t.round.Fetch(f));
    AloneUnused(e, t.round.now, Snapshot(t.backend, t.round, f), None, e.settings, t.round.Fetch(f));
  }

  /** The device as a turn finds it is what its own history makes of it, with the
      settings it has by then. */
  lemma {:induction false} CarriedAlone(turns: seq<Turn>, f: Fd, n: nat)
    requires Carries(turns, f) && n < |turns| && !turns[0].backend.devices[f].isAbsolute
    ensures var e, d := turns[n].backend.devices[f], AloneRun(turns[0].backend.devices[f], OwnTurns(turns, f)[..n]);
            e == d.(settings := e.settings) && !d.isAbsolute && d.id == turns[0].backend.devices[f].id
  {
    hide DrainNext, DrainOut, ProperRound, DistinctIds, AloneNext, AloneOut;
    if n > 0 {
      CarriedAlone(turns, f, n - 1);
      var own := OwnTurns(turns, f)[..n];
      assert own[..n - 1] == OwnTurns(turns, f)[..n - 1];
      assert Linked(turns[n - 1], turns[n], f);
      var o, e := own[n - 1], turns[n - 1].backend.devices[f];
      var d := AloneRun(turns[0].backend.devices[f], own[..n - 1]);
      TurnAlone(turns[n - 1], f);
      AloneUnused(d, o.now, None, None, e.settings, o.fetch);
    }
  }

  /** Over any number of drains, and whatever is configured in between, the output of a
      device that is not absolute is a function of its own events and the drain times. */
  lemma {:induction false} RunAlone(turns: seq<Turn>, f: Fd, d: Device)
    requires Carries(turns, f) && !d.isAbsolute
    requires turns != [] ==> turns[0].backend.devices[f] == d
    ensures Proj(RunOut(turns), d.id) == AloneRunOut(d, OwnTurns(turns, f))
  {
    hide DrainNext, DrainOut, AloneNext, AloneOut, AloneRun, Carries, ProperTurn, Proj;
    NothingSeen(d.id);
    if turns != [] {
      var n := |turns| - 1;
      var before, t := turns[..n], turns[n];
      CarriesPrefix(turns, f);
      RunAlone(before, f, d);
      var own := OwnTurns(turns, f);
      assert own[..n] == OwnTurns(before, f);
      CarriedAlone(turns, f, n);
      TurnAlone(t, f);
      AloneUnused(AloneRun(d, own[..n]), own[n].now, None, None, t.backend.devices[f].settings, own[n].fetch);
      ProjConcat(RunOut(before), DrainOut(t.backend, t.round), d.id);
    }
  }

  lemma CarriesPrefix(turns: seq<Turn>, f: Fd)
    requires Carries(turns, f) && turns != []
    ensures Carries(turns[..|turns| - 1], f)
    ensures ProperTurn(turns[|turns| - 1], f) && f in turns[|turns| - 1].backend.devices
  {
    hide Linked, ProperRound, DistinctIds;
  }
}
