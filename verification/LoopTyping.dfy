/** The daemon's typing time, read off the history of a run. */
module LoopTyping {
  import opened Basics
  import opened DeviceWrappers
  import opened Devices
  import opened Registry
  import Holders

  /** The last press read from the device under a token, over all its batches. */
  function PressOn(l: Loop, ops: seq<LoopOp>, token: nat, config: InputConfig): Option<Time> {
    if ops == [] then None
    else
      var before := ops[..|ops| - 1];
      match ops[|ops| - 1]
      case Ready(t, Batch(rs)) =>
        if t == token && t in LoopRun(l, before, config).wrappers && LastPress(rs).Some? then LastPress(rs)
        else PressOn(l, before, token, config)
      case _ => PressOn(l, before, token, config)
  }

  /** The last press of the keyboard that reported last, whatever it reported. */
  function LastReported(l: Loop, ops: seq<LoopOp>, config: InputConfig): Option<Time> {
    if ops == [] then None
    else
      var before := ops[..|ops| - 1];
      var m := LoopRun(l, before, config).wrappers;
      match ops[|ops| - 1]
      case Ready(t, Batch(rs)) =>
        if t in m && m[t].isKeyboard && rs != [] && PressOn(l, ops, t, config).Some? then PressOn(l, ops, t, config)
        else LastReported(l, before, config)
      case _ => LastReported(l, before, config)
  }

  /** Each keyboard remembers its own presses, and a token not handed out yet has none. */
  ghost predicate Remembers(m: Loop, l: Loop, ops: seq<LoopOp>, config: InputConfig) {
    && (forall t :: t in m.wrappers && m.wrappers[t].isKeyboard ==> m.wrappers[t].typed == PressOn(l, ops, t, config))
    && (forall t: nat :: t >= m.nextToken ==> PressOn(l, ops, t, config) == None)
    && (forall t :: t in m.wrappers && !m.wrappers[t].isKeyboard ==> m.wrappers[t].typed == None)
    && m.typing == LastReported(l, ops, config)
  }

  lemma {:induction false} RemembersAtStart(paths: seq<string>, found: seq<Opening>, config: InputConfig)
    requires |paths| == |found| && forall o :: o in found ==> o.Opened? && o.registers
    ensures Remembers(Initial(paths, found), Initial(paths, found), [], config)
  {
    if found != [] {
      var n := |found| - 1;
      RemembersAtStart(paths[..n], found[..n], config);
      assert Initial(paths, found) == Adopt(Initial(paths[..n], found[..n]), paths[n], found[n]);
    }
  }

  lemma NoticePresses(l: Loop, ops: seq<LoopOp>, path: string, o: Opening, config: InputConfig, t: nat)
    ensures var all := ops + [Notice(path, o)];
            && PressOn(l, all, t, config) == PressOn(l, ops, t, config)
            && LastReported(l, all, config) == LastReported(l, ops, config)
  {
    assert (ops + [Notice(path, o)])[..|ops|] == ops;
  }

  lemma NoticeRemembers(l: Loop, ops: seq<LoopOp>, path: string, o: Opening, config: InputConfig)
    requires var m := LoopRun(l, ops, config); Remembers(m, l, ops, config) && Safe(m) && m.nextToken < USIZE_MAX
    ensures Remembers(NoticeNext(LoopRun(l, ops, config), path, o), l, ops + [Notice(path, o)], config)
  {
    hide LoopRun, PressOn, LastReported;
    forall t: nat
      ensures PressOn(l, ops + [Notice(path, o)], t, config) == PressOn(l, ops, t, config)
      ensures LastReported(l, ops + [Notice(path, o)], config) == LastReported(l, ops, config)
    {
      NoticePresses(l, ops, path, o, config, t);
    }
    NoticePresses(l, ops, path, o, config, 0);
  }

  /** What a fetch adds to the presses. */
  lemma ReadyPresses(l: Loop, ops: seq<LoopOp>, token: nat, f: Fetch, config: InputConfig, t: nat)
    ensures var all, m := ops + [Ready(token, f)], LoopRun(l, ops, config).wrappers;
            && PressOn(l, all, t, config)
               == (if f.Batch? && t == token && t in m && LastPress(f.readings).Some? then LastPress(f.readings)
                   else PressOn(l, ops, t, config))
            && LastReported(l, all, config)
               == if f.Batch? && token in m && m[token].isKeyboard && f.readings != []
                     && PressOn(l, all, token, config).Some?
                  then PressOn(l, all, token, config) else LastReported(l, ops, config)
  {
    hide LoopRun;
    assert (ops + [Ready(token, f)])[..|ops|] == ops;
  }

  lemma ReadyRemembers(l: Loop, ops: seq<LoopOp>, token: nat, f: Fetch, config: InputConfig)
    requires var m := LoopRun(l, ops, config); Remembers(m, l, ops, config) && Safe(m)
    ensures Remembers(ReadyNext(LoopRun(l, ops, config), token, f, config), l, ops + [Ready(token, f)], config)
  {
    hide LoopRun, PressOn, LastReported, LastPress, FeedNext;
    var m := LoopRun(l, ops, config);
    forall t: nat
      ensures PressOn(l, ops + [Ready(token, f)], t, config)
              == if f.Batch? && t == token && t in m.wrappers && LastPress(f.readings).Some? then LastPress(f.readings)
                 else PressOn(l, ops, t, config)
    {
      ReadyPresses(l, ops, token, f, config, t);
    }
    ReadyPresses(l, ops, token, f, config, token);
    if f.Batch? && token in m.wrappers {
      BatchTypes(m, token, f.readings, config);
      Holders.FedAlone(m, token, f.readings, config);
    }
  }

  /** Through every interleaving of hotplug, removal and events: the typing time is the last
      press of the keyboard that reported last. Plugging devices in and out leaves it alone. */
  lemma {:induction false} TypingIsHistory(paths: seq<string>, found: seq<Opening>, ops: seq<LoopOp>,
                                           config: InputConfig)
    requires |paths| == |found| && forall o :: o in found ==> o.Opened? && o.registers
    requires forall i, j :: 0 <= i < j < |paths| ==> paths[i] != paths[j]
    requires |found| + Openings(ops) <= USIZE_MAX
    ensures var l := Initial(paths, found);
            && Remembers(LoopRun(l, ops, config), l, ops, config)
            && LoopRun(l, ops, config).typing == LastReported(l, ops, config)
  {
    hide NoticeNext, ReadyNext, Safe, PressOn, LastReported, Initial;
    var l := Initial(paths, found);
    if ops == [] {
      RemembersAtStart(paths, found, config);
    } else {
      var before, op := ops[..|ops| - 1], ops[|ops| - 1];
      TypingIsHistory(paths, found, before, config);
      RegistrySafe(paths, found, before, config);
      assert before + [op] == ops;
      match op
      case Notice(path, o) =>
        if o.Opened? {
          NoticeRemembers(l, before, path, o, config);
        } else {
          RefusedRemembers(l, before, path, o, config);
        }
      case Ready(token, f) => ReadyRemembers(l, before, token, f, config);
    }
  }

  lemma RefusedRemembers(l: Loop, ops: seq<LoopOp>, path: string, o: Opening, config: InputConfig)
    requires Remembers(LoopRun(l, ops, config), l, ops, config) && !o.Opened?
    ensures Remembers(NoticeNext(LoopRun(l, ops, config), path, o), l, ops + [Notice(path, o)], config)
  {
    hide LoopRun, PressOn, LastReported;
    forall t: nat
      ensures PressOn(l, ops + [Notice(path, o)], t, config) == PressOn(l, ops, t, config)
    {
      NoticePresses(l, ops, path, o, config, t);
    }
    NoticePresses(l, ops, path, o, config, 0);
  }
}
