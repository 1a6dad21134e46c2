/** The daemon's table of devices under hotplug and disconnection, and its typing time. */
module Registry {
  import opened Basics
  import opened Events
  import opened Daemon
  import opened DeviceWrappers
  import opened Devices

  const USIZE_MAX: nat := 0xFFFF_FFFF_FFFF_FFFF
  const INOTIFY_TOKEN: nat := USIZE_MAX

  /** A device wrapper as a value. */
  datatype Wrapped = Wrapped(path: string, isAbsolute: bool, isKeyboard: bool, pad: Wrapper, typed: Option<Time>)

  datatype Loop = Loop(wrappers: map<nat, Wrapped>, nextToken: nat, typing: Option<Time>)

  const IDLE: Loop := Loop(map[], 0, None)

  /** What trying a path gives; `registers` says whether the poller accepts it. */
  datatype Opening = Refused | Opened(isAbsolute: bool, isKeyboard: bool, registers: bool)

  function NewWrapped(path: string, o: Opening): Wrapped
    requires o.Opened?
  {
    Wrapped(path, o.isAbsolute, o.isKeyboard, FRESH, None)
  }

  /** `usize` addition of one. */
  function Bump(token: nat): nat {
    (token + 1) % (USIZE_MAX + 1)
  }

  predicate Known(m: map<nat, Wrapped>, path: string) {
    exists t :: t in m && m[t].path == path
  }

  /** The token is spent even when the poller refuses the device. */
  function Adopt(l: Loop, path: string, o: Opening): Loop
    requires o.Opened?
  {
    Loop(if o.registers then l.wrappers[l.nextToken := NewWrapped(path, o)] else l.wrappers,
         Bump(l.nextToken), l.typing)
  }

  predicate Opens(l: Loop, path: string, o: Opening) {
    !Known(l.wrappers, path) && o.Opened?
  }

  function NoticeNext(l: Loop, path: string, o: Opening): Loop {
    if Opens(l, path, o) then Adopt(l, path, o) else l
  }

  // ---- events ----

  function TypedAfter(w: Wrapped, r: Reading): Option<Time> {
    if w.isKeyboard && r.ev.eventType == KEY && r.ev.value != 0 then Some(r.now) else w.typed
  }

  function WrappedAfter(w: Wrapped, typing: Option<Time>, r: Reading, config: InputConfig): Wrapped {
    w.(pad := if w.isAbsolute then After(w.pad, TickOf(r.ev, r.now, config, typing)) else w.pad,
       typed := TypedAfter(w, r))
  }

  function WrappedWrites(w: Wrapped, typing: Option<Time>, r: Reading, config: InputConfig): seq<UEvent> {
    if w.isAbsolute then Writes(w.pad, TickOf(r.ev, r.now, config, typing)) else [Forward(r.ev)]
  }

  /** After every event of a keyboard its own typing time becomes the global one. */
  function EventNext(l: Loop, token: nat, r: Reading, config: InputConfig): Loop
    requires token in l.wrappers
  {
    var v := WrappedAfter(l.wrappers[token], l.typing, r, config);
    Loop(l.wrappers[token := v], l.nextToken, if v.isKeyboard && v.typed.Some? then v.typed else l.typing)
  }

  function FeedNext(l: Loop, token: nat, rs: seq<Reading>, config: InputConfig): (after: Loop)
    requires token in l.wrappers
    ensures after.wrappers.Keys == l.wrappers.Keys && after.nextToken == l.nextToken
    ensures forall t :: t in l.wrappers ==> after.wrappers[t].path == l.wrappers[t].path
  {
    if rs == [] then l else EventNext(FeedNext(l, token, rs[..|rs| - 1], config), token, rs[|rs| - 1], config)
  }

  function FeedWrites(l: Loop, token: nat, rs: seq<Reading>, config: InputConfig): seq<UEvent>
    requires token in l.wrappers
  {
    if rs == [] then []
    else
      FeedWrites(l, token, rs[..|rs| - 1], config)
      + WrappedWrites(FeedNext(l, token, rs[..|rs| - 1], config).wrappers[token],
                      FeedNext(l, token, rs[..|rs| - 1], config).typing, rs[|rs| - 1], config)
  }

  function ReadyNext(l: Loop, token: nat, f: Fetch, config: InputConfig): Loop {
    if token !in l.wrappers then l
    else
      match f
      case Batch(rs) => FeedNext(l, token, rs, config)
      case Vanished => l.(wrappers := l.wrappers - {token})
      case _ => l
  }

  // ---- runs ----

  datatype LoopOp = Notice(path: string, opening: Opening) | Ready(token: nat, fetch: Fetch)

  function LoopNext(l: Loop, op: LoopOp, config: InputConfig): Loop {
    match op
    case Notice(path, o) => NoticeNext(l, path, o)
    case Ready(token, f) => ReadyNext(l, token, f, config)
  }

  function LoopRun(l: Loop, ops: seq<LoopOp>, config: InputConfig): Loop {
    if ops == [] then l else LoopNext(LoopRun(l, ops[..|ops| - 1], config), ops[|ops| - 1], config)
  }

  /** The devices found at the start; a device that cannot be registered ends the program. */
  function Initial(paths: seq<string>, found: seq<Opening>): Loop
    requires |paths| == |found| && forall o :: o in found ==> o.Opened? && o.registers
  {
    if found == [] then IDLE
    else
      var n := |found| - 1;
      Adopt(Initial(paths[..n], found[..n]), paths[n], found[n])
  }

  function Openings(ops: seq<LoopOp>): nat {
    if ops == [] then 0
    else
      var op := ops[|ops| - 1];
      Openings(ops[..|ops| - 1]) + if op.Notice? && op.opening.Opened? then 1 else 0
  }

  // ---- no device twice, no token twice ----

  ghost predicate Safe(l: Loop) {
    && l.nextToken <= USIZE_MAX
    && (forall t :: t in l.wrappers ==> t < l.nextToken && t != INOTIFY_TOKEN)
    && (forall t, u :: t in l.wrappers && u in l.wrappers && t != u ==> l.wrappers[t].path != l.wrappers[u].path)
  }

  /** A hotplug keeps the table safe except at the one token count where the next token
      is the inotify one. */
  lemma NoticeSafe(l: Loop, path: string, o: Opening)
    requires Safe(l)
    ensures Safe(NoticeNext(l, path, o))
            <==> !(Opens(l, path, o) && l.nextToken == USIZE_MAX && (o.registers || l.wrappers != map[]))
    ensures l.nextToken < USIZE_MAX ==> NoticeNext(l, path, o).nextToken <= l.nextToken + 1
  {
    var after := NoticeNext(l, path, o);
    if Opens(l, path, o) && l.nextToken == USIZE_MAX {
      if o.registers {
        assert INOTIFY_TOKEN in after.wrappers;
      } else if l.wrappers != map[] {
        assert exists t :: t in l.wrappers;
      }
    }
  }

  lemma ReadySafe(l: Loop, token: nat, f: Fetch, config: InputConfig)
    requires Safe(l)
    ensures Safe(ReadyNext(l, token, f, config)) && ReadyNext(l, token, f, config).nextToken == l.nextToken
  {}

  /** At the start the n-th device has token n. */
  lemma {:induction false} InitialTokens(paths: seq<string>, found: seq<Opening>)
    requires |paths| == |found| <= USIZE_MAX && forall o :: o in found ==> o.Opened? && o.registers
    ensures var l := Initial(paths, found);
            && l.nextToken == |found|
            && forall t :: t in l.wrappers ==> t < |found| && l.wrappers[t].path == paths[t]
  {
    if found != [] {
      var n := |found| - 1;
      var before, o := found[..n], found[n];
      InitialTokens(paths[..n], before);
      assert Initial(paths, found) == Adopt(Initial(paths[..n], before), paths[n], o);
    }
  }

  /** Through every interleaving of hotplug, disconnection and events. */
  lemma {:induction false} RegistrySafe(paths: seq<string>, found: seq<Opening>, ops: seq<LoopOp>, config: InputConfig)
    requires |paths| == |found| && forall o :: o in found ==> o.Opened? && o.registers
    requires forall i, j :: 0 <= i < j < |paths| ==> paths[i] != paths[j]
    requires |found| + Openings(ops) <= USIZE_MAX
    ensures var l := LoopRun(Initial(paths, found), ops, config);
            Safe(l) && l.nextToken <= |found| + Openings(ops)
  {
    if ops == [] {
      InitialTokens(paths, found);
    } else {
      var before, op := ops[..|ops| - 1], ops[|ops| - 1];
      RegistrySafe(paths, found, before, config);
      var l := LoopRun(Initial(paths, found), before, config);
      match op
      case Notice(path, o) => NoticeSafe(l, path, o);
      case Ready(token, f) => ReadySafe(l, token, f, config);
    }
  }

  // ---- the typing time ----

  /** The time of the last press in a batch. */
  function LastPress(rs: seq<Reading>): Option<Time> {
    if rs == [] then None
    else
      var r := rs[|rs| - 1];
      if r.ev.eventType == KEY && r.ev.value != 0 then Some(r.now) else LastPress(rs[..|rs| - 1])
  }

  /** A keyboard remembers its last press. After any events of it the global typing time is
      that press, of this batch or an earlier one; other devices do not touch it. */
  lemma {:induction false} BatchTypes(l: Loop, token: nat, rs: seq<Reading>, config: InputConfig)
    requires token in l.wrappers
    ensures var w, after := l.wrappers[token], FeedNext(l, token, rs, config);
            var last := if LastPress(rs).Some? then LastPress(rs) else w.typed;
            && after.wrappers[token].isKeyboard == w.isKeyboard && after.wrappers[token].isAbsolute == w.isAbsolute
            && after.wrappers[token].typed == (if w.isKeyboard then last else w.typed)
            && after.typing == if w.isKeyboard && rs != [] && last.Some? then last else l.typing
  {
    hide After, TickOf;
    if rs != [] { BatchTypes(l, token, rs[..|rs| - 1], config); }
  }

  // ---- it can move backwards ----

  predicate Before(a: Option<Time>, b: Option<Time>) {
    b.Some? && (a.None? || a.value < b.value)
  }

  /** With clock readings that do not run backwards, the typing time moves back exactly
      when a keyboard whose own last press is older than the global one reports anything
      but a press, such as the release of a key. */
  lemma TypingMovesBack(l: Loop, token: nat, r: Reading, config: InputConfig)
    requires token in l.wrappers && (l.typing.Some? ==> l.typing.value <= r.now)
    ensures var w := l.wrappers[token];
            Before(EventNext(l, token, r, config).typing, l.typing)
            <==> && w.isKeyboard && w.typed.Some? && Before(w.typed, l.typing)
                 && !(r.ev.eventType == KEY && r.ev.value != 0)
  {}

  /** Two keyboards: one pressed at 0 ms, the other at 400 ms, and the first released at
      450 ms. At 600 ms the daemon takes the typing to be over. */
  lemma ReleaseEndsTyping(config: InputConfig)
    requires config.disableWhileTyping
    ensures var key, up := RawEvent(KEY, 30, 1, 0), RawEvent(KEY, 30, 0, 0);
            var l := Loop(map[0 := Wrapped("a", false, true, FRESH, None), 1 := Wrapped("b", false, true, FRESH, None)],
                          2, None);
            var m := EventNext(EventNext(l, 0, Reading(key, 0), config), 1, Reading(key, 400 * MS), config);
            && DeviceWrappers.TypingActive(config, m.typing, 600 * MS)
            && !DeviceWrappers.TypingActive(config, EventNext(m, 0, Reading(up, 450 * MS), config).typing, 600 * MS)
  {
    var key, up := RawEvent(KEY, 30, 1, 0), RawEvent(KEY, 30, 0, 0);
    var l := Loop(map[0 := Wrapped("a", false, true, FRESH, None), 1 := Wrapped("b", false, true, FRESH, None)],
                  2, None);
    var k := EventNext(l, 0, Reading(key, 0), config);
    var m := EventNext(k, 1, Reading(key, 400 * MS), config);
    assert k.wrappers[0].typed == Some(0) && k.wrappers[1].isKeyboard;
    assert m.wrappers[0].typed == Some(0) && m.typing == Some(400 * MS);
    assert EventNext(m, 0, Reading(up, 450 * MS), config).typing == Some(0);
  }
}
