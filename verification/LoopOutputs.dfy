/** What the daemon writes for a batch of a device's events. */
module LoopOutputs {
  import opened Basics
  import opened Touchpad
  import opened Daemon
  import opened DeviceWrappers
  import opened Devices
  import opened Registry

  // ---- keyboards and mice ----

  function AsWritten(rs: seq<Reading>): seq<UEvent> {
    seq(|rs|, i requires 0 <= i < |rs| => UEvent(rs[i].ev.eventType, rs[i].ev.code, rs[i].ev.value))
  }

  /** What is not a touchpad goes through untouched, event by event. */
  lemma {:induction false} Forwarded(l: Loop, token: nat, rs: seq<Reading>, config: InputConfig)
    requires token in l.wrappers && !l.wrappers[token].isAbsolute
    ensures FeedWrites(l, token, rs, config) == AsWritten(rs)
  {
    hide After, Writes, FeedNext;
    if rs != [] {
      var n := |rs| - 1;
      Forwarded(l, token, rs[..n], config);
      BatchTypes(l, token, rs[..n], config);
      assert AsWritten(rs) == AsWritten(rs[..n]) + [UEvent(rs[n].ev.eventType, rs[n].ev.code, rs[n].ev.value)];
    }
  }

  // ---- touchpads ----

  /** The typing time that a batch's next event finds: the device's own presses count if it
      is a keyboard as well. */
  function TypingSoFar(l: Loop, token: nat, rs: seq<Reading>): Option<Time>
    requires token in l.wrappers
  {
    var w := l.wrappers[token];
    var last := if LastPress(rs).Some? then LastPress(rs) else w.typed;
    if w.isKeyboard && rs != [] && last.Some? then last else l.typing
  }

  /** Each event with its clock reading and the configuration; DWT rules for 500 ms after the
      last press, if it is switched on. */
  function BatchTicks(l: Loop, token: nat, rs: seq<Reading>, config: InputConfig): seq<Tick>
    requires token in l.wrappers
  {
    if rs == [] then []
    else
      var before, r := rs[..|rs| - 1], rs[|rs| - 1];
      BatchTicks(l, token, before, config) + [TickAt(TypingSoFar(l, token, before), r, config)]
  }

  function TickAt(typing: Option<Time>, r: Reading, config: InputConfig): Tick {
    Tick(r.ev, r.now,
         config.disableWhileTyping && typing.Some? && (r.now < typing.value || r.now - typing.value < 500 * MS),
         config.tapToClick, config.naturalScrolling, config.pointerAcceleration)
  }

  function AllWrites(d: Wrapper, ts: seq<Tick>): seq<UEvent> {
    if ts == [] then []
    else AllWrites(d, ts[..|ts| - 1]) + Writes(Ends(d, ts[..|ts| - 1]), ts[|ts| - 1])
  }

  lemma AllSnoc(d: Wrapper, ts: seq<Tick>, t: Tick)
    ensures Ends(d, ts + [t]) == After(Ends(d, ts), t)
    ensures AllWrites(d, ts + [t]) == AllWrites(d, ts) + Writes(Ends(d, ts), t)
  {
    assert (ts + [t])[..|ts|] == ts;
  }

  /** A touchpad's batch goes through the touchpad machine with the configuration. */
  lemma {:induction false} BatchRuns(l: Loop, token: nat, rs: seq<Reading>, config: InputConfig)
    requires token in l.wrappers && l.wrappers[token].isAbsolute
    ensures var ts, d := BatchTicks(l, token, rs, config), l.wrappers[token].pad;
            && FeedNext(l, token, rs, config).wrappers[token].pad == Ends(d, ts)
            && FeedWrites(l, token, rs, config) == AllWrites(d, ts)
  {
    hide After, Writes, TypingSoFar, TickAt, TickOf, EventNext, WrappedWrites;
    if rs != [] {
      var n := |rs| - 1;
      BatchRuns(l, token, rs[..n], config);
      TypingIs(l, token, rs[..n], config);
      var ts, m := BatchTicks(l, token, rs[..n], config), FeedNext(l, token, rs[..n], config);
      TickIs(m.typing, rs[n], config);
      AllSnoc(l.wrappers[token].pad, ts, TickAt(m.typing, rs[n], config));
      EventIs(m, token, rs[n], config);
    }
  }

  lemma TypingIs(l: Loop, token: nat, rs: seq<Reading>, config: InputConfig)
    requires token in l.wrappers
    ensures var m := FeedNext(l, token, rs, config);
            m.typing == TypingSoFar(l, token, rs) && m.wrappers[token].isAbsolute == l.wrappers[token].isAbsolute
  {
    hide FeedNext, LastPress;
    BatchTypes(l, token, rs, config);
  }

  lemma TickIs(typing: Option<Time>, r: Reading, config: InputConfig)
    ensures TickAt(typing, r, config) == TickOf(r.ev, r.now, config, typing)
  {}

  lemma EventIs(l: Loop, token: nat, r: Reading, config: InputConfig)
    requires token in l.wrappers && l.wrappers[token].isAbsolute
    ensures var w, t := l.wrappers[token], TickOf(r.ev, r.now, config, l.typing);
            && EventNext(l, token, r, config).wrappers[token].pad == After(w.pad, t)
            && WrappedWrites(w, l.typing, r, config) == Writes(w.pad, t)
  {
    hide After, Writes, TickOf;
  }
}
