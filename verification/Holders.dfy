/** Which paths the daemon's table knows, read off the history of hotplug and removal. */
module Holders {
  import opened Basics
  import opened Daemon
  import opened DeviceWrappers
  import opened Devices
  import opened Registry

  // ---- one call ----

  /** A vanished device leaves the table and nothing else changes. */
  lemma VanishedLeaves(l: Loop, token: nat, config: InputConfig)
    ensures var after := ReadyNext(l, token, Vanished, config);
            && token !in after.wrappers
            && (forall t :: t != token && t in l.wrappers ==> t in after.wrappers && after.wrappers[t] == l.wrappers[t])
            && (forall t :: t in after.wrappers ==> t in l.wrappers)
            && after.nextToken == l.nextToken && after.typing == l.typing
  {}

  /** Whatever else reading a device gives, the table keeps its entries, and those of the
      other devices do not change. */
  lemma {:induction false} OthersKept(l: Loop, token: nat, f: Fetch, config: InputConfig)
    requires !f.Vanished?
    ensures var after := ReadyNext(l, token, f, config);
            && after.wrappers.Keys == l.wrappers.Keys
            && (forall t :: t in l.wrappers && t != token ==> after.wrappers[t] == l.wrappers[t])
            && (forall t :: t in l.wrappers ==> after.wrappers[t].path == l.wrappers[t].path)
  {
    if f.Batch? && token in l.wrappers { FedAlone(l, token, f.readings, config); }
  }

  lemma {:induction false} FedAlone(l: Loop, token: nat, rs: seq<Reading>, config: InputConfig)
    requires token in l.wrappers
    ensures forall t :: t in l.wrappers && t != token ==>
              FeedNext(l, token, rs, config).wrappers[t] == l.wrappers[t]
  {
    if rs != [] { FedAlone(l, token, rs[..|rs| - 1], config); }
  }

  /** A device that vanished and is noticed again is opened again, as new. */
  lemma VanishedReopens(l: Loop, token: nat, o: Opening, config: InputConfig)
    requires Safe(l) && l.nextToken < USIZE_MAX && token in l.wrappers && o.Opened? && o.registers
    ensures var path := l.wrappers[token].path;
            var gone := ReadyNext(l, token, Vanished, config);
            var after := NoticeNext(gone, path, o);
            && NoticeNext(l, path, o) == l
            && !Known(gone.wrappers, path)
            && after.wrappers == gone.wrappers[l.nextToken := Wrapped(path, o.isAbsolute, o.isKeyboard, FRESH, None)]
            && l.nextToken !in gone.wrappers
  {}

  // ---- runs ----

  /** The place of a path among those found at the start. */
  function Found(paths: seq<string>, path: string): Option<nat> {
    if paths == [] then None
    else if paths[|paths| - 1] == path then Some(|paths| - 1)
    else Found(paths[..|paths| - 1], path)
  }

  /** The token under which a path was registered last, unless that device has vanished since. */
  function Holder(paths: seq<string>, ops: seq<LoopOp>, path: string): Option<nat>
    decreases |ops|, 1
  {
    if ops == [] then Found(paths, path)
    else
      var before := ops[..|ops| - 1];
      var held := Holder(paths, before, path);
      match ops[|ops| - 1]
      case Notice(p, o) =>
        if p == path && held == None && o.Opened? && o.registers then Some(Tokens(paths, before)) else held
      case Ready(token, f) => if f.Vanished? && held == Some(token) then None else held
  }

  /** The tokens spent: one for each device at the start, and one for each opening of a path
      that had no device. */
  function Tokens(paths: seq<string>, ops: seq<LoopOp>): nat
    decreases |ops|, 0
  {
    if ops == [] then |paths|
    else
      var before := ops[..|ops| - 1];
      match ops[|ops| - 1]
      case Notice(p, o) => Tokens(paths, before) + if o.Opened? && Holder(paths, before, p) == None then 1 else 0
      case Ready(_, _) => Tokens(paths, before)
  }

  /** The table holds a path under the token that the history says, and no other path. */
  ghost predicate AsHeld(l: Loop, paths: seq<string>, ops: seq<LoopOp>) {
    && l.nextToken == Tokens(paths, ops)
    && (forall t :: t in l.wrappers ==> Holder(paths, ops, l.wrappers[t].path) == Some(t))
    && forall path :: Holder(paths, ops, path).Some? ==>
         var t := Holder(paths, ops, path).value; t in l.wrappers && l.wrappers[t].path == path
  }

  lemma KnownIff(l: Loop, paths: seq<string>, ops: seq<LoopOp>, path: string)
    requires AsHeld(l, paths, ops)
    ensures Known(l.wrappers, path) <==> Holder(paths, ops, path).Some?
  {
    hide Holder, Tokens;
  }

  lemma {:induction false} FoundAt(paths: seq<string>, i: nat)
    requires i < |paths| && forall i, j :: 0 <= i < j < |paths| ==> paths[i] != paths[j]
    ensures Found(paths, paths[i]) == Some(i)
  {
    if i < |paths| - 1 { FoundAt(paths[..|paths| - 1], i); }
  }

  lemma {:induction false} FoundThere(paths: seq<string>, path: string)
    requires Found(paths, path).Some?
    ensures var i := Found(paths, path).value; i < |paths| && paths[i] == path
  {
    if paths[|paths| - 1] != path { FoundThere(paths[..|paths| - 1], path); }
  }

  lemma {:induction false} AllFound(paths: seq<string>, found: seq<Opening>)
    requires |paths| == |found| <= USIZE_MAX && forall o :: o in found ==> o.Opened? && o.registers
    ensures Initial(paths, found).nextToken == |found|
    ensures var m := Initial(paths, found).wrappers;
            && (forall t: nat :: t in m <==> t < |found|)
            && forall t :: t in m ==> m[t].path == paths[t]
  {
    hide NewWrapped;
    InitialTokens(paths, found);
    if found != [] {
      var n := |found| - 1;
      AllFound(paths[..n], found[..n]);
      var m := Initial(paths[..n], found[..n]);
      assert found[n] in found && Initial(paths, found) == Adopt(m, paths[n], found[n]);
      assert forall t: nat :: t in Initial(paths, found).wrappers <==> t in m.wrappers || t == n;
    }
  }

  lemma HeldAtStart(paths: seq<string>, found: seq<Opening>)
    requires |paths| == |found| <= USIZE_MAX && forall o :: o in found ==> o.Opened? && o.registers
    requires forall i, j :: 0 <= i < j < |paths| ==> paths[i] != paths[j]
    ensures AsHeld(Initial(paths, found), paths, [])
  {
    hide Found, Initial;
    AllFound(paths, found);
    var l := Initial(paths, found);
    forall t | t in l.wrappers ensures Holder(paths, [], l.wrappers[t].path) == Some(t) { FoundAt(paths, t); }
    forall path | Holder(paths, [], path).Some?
      ensures var t := Holder(paths, [], path).value; t in l.wrappers && l.wrappers[t].path == path
    {
      FoundThere(paths, path);
    }
  }

  lemma NoticeHeld(l: Loop, path: string, o: Opening, paths: seq<string>, ops: seq<LoopOp>)
    requires AsHeld(l, paths, ops) && Safe(l) && l.nextToken < USIZE_MAX
    ensures AsHeld(NoticeNext(l, path, o), paths, ops + [Notice(path, o)])
  {
    hide Holder, Tokens;
    var all := ops + [Notice(path, o)];
    LastNotice(paths, ops, path, o);
    KnownIff(l, paths, ops, path);
    var after := NoticeNext(l, path, o);
    forall p
      ensures Holder(paths, all, p)
              == if p == path && Holder(paths, ops, path) == None && o.Opened? && o.registers
                 then Some(l.nextToken) else Holder(paths, ops, p)
    {
      LastNoticeHolder(paths, ops, path, o, p);
    }
  }

  lemma LastNotice(paths: seq<string>, ops: seq<LoopOp>, path: string, o: Opening)
    ensures Tokens(paths, ops + [Notice(path, o)])
            == Tokens(paths, ops) + if o.Opened? && Holder(paths, ops, path) == None then 1 else 0
  {
    assert (ops + [Notice(path, o)])[..|ops|] == ops;
  }

  lemma LastNoticeHolder(paths: seq<string>, ops: seq<LoopOp>, path: string, o: Opening, p: string)
    ensures Holder(paths, ops + [Notice(path, o)], p)
            == if p == path && Holder(paths, ops, p) == None && o.Opened? && o.registers
               then Some(Tokens(paths, ops)) else Holder(paths, ops, p)
  {
    assert (ops + [Notice(path, o)])[..|ops|] == ops;
  }

  lemma LastReady(paths: seq<string>, ops: seq<LoopOp>, token: nat, f: Fetch, p: string)
    ensures var all := ops + [Ready(token, f)];
            && Tokens(paths, all) == Tokens(paths, ops)
            && Holder(paths, all, p)
               == if f.Vanished? && Holder(paths, ops, p) == Some(token) then None else Holder(paths, ops, p)
  {
    assert (ops + [Ready(token, f)])[..|ops|] == ops;
  }

  lemma ReadyHeld(l: Loop, token: nat, f: Fetch, config: InputConfig, paths: seq<string>, ops: seq<LoopOp>)
    requires AsHeld(l, paths, ops)
    ensures AsHeld(ReadyNext(l, token, f, config), paths, ops + [Ready(token, f)])
  {
    hide Holder, Tokens, ReadyNext;
    var after, all := ReadyNext(l, token, f, config), ops + [Ready(token, f)];
    ReadyToken(l, token, f, config);
    LastReady(paths, ops, token, f, "");
    forall p ensures Holder(paths, all, p)
                     == if f.Vanished? && Holder(paths, ops, p) == Some(token) then None else Holder(paths, ops, p)
    {
      LastReady(paths, ops, token, f, p);
    }
    if f.Vanished? { VanishedLeaves(l, token, config); } else { OthersKept(l, token, f, config); }
  }

  lemma ReadyToken(l: Loop, token: nat, f: Fetch, config: InputConfig)
    ensures ReadyNext(l, token, f, config).nextToken == l.nextToken
  {}

  /** Through every interleaving: a path is in the table exactly when its last registered
      opening has not been followed by that device's disappearance, and then under the
      token of that opening. */
  lemma {:induction false} TableIsHistory(paths: seq<string>, found: seq<Opening>, ops: seq<LoopOp>,
                                          config: InputConfig)
    requires |paths| == |found| && forall o :: o in found ==> o.Opened? && o.registers
    requires forall i, j :: 0 <= i < j < |paths| ==> paths[i] != paths[j]
    requires |found| + Openings(ops) <= USIZE_MAX
    ensures var l := LoopRun(Initial(paths, found), ops, config);
            && AsHeld(l, paths, ops)
            && forall path :: Known(l.wrappers, path) <==> Holder(paths, ops, path).Some?
  {
    hide NoticeNext, ReadyNext, AsHeld, Known, Holder, Safe;
    var l := LoopRun(Initial(paths, found), ops, config);
    if ops == [] {
      HeldAtStart(paths, found);
    } else {
      var before, op := ops[..|ops| - 1], ops[|ops| - 1];
      TableIsHistory(paths, found, before, config);
      RegistrySafe(paths, found, before, config);
      var m := LoopRun(Initial(paths, found), before, config);
      assert before + [op] == ops;
      match op
      case Notice(path, o) =>
        if o.Opened? { NoticeHeld(m, path, o, paths, before); } else { RefusedHeld(m, path, o, paths, before); }
      case Ready(token, f) => ReadyHeld(m, token, f, config, paths, before);
    }
    forall path ensures Known(l.wrappers, path) <==> Holder(paths, ops, path).Some? { KnownIff(l, paths, ops, path); }
  }

  lemma RefusedHeld(l: Loop, path: string, o: Opening, paths: seq<string>, ops: seq<LoopOp>)
    requires AsHeld(l, paths, ops) && !o.Opened?
    ensures AsHeld(NoticeNext(l, path, o), paths, ops + [Notice(path, o)])
  {
    hide Holder, Tokens;
    LastNotice(paths, ops, path, o);
    forall p ensures Holder(paths, ops + [Notice(path, o)], p) == Holder(paths, ops, p) {
      LastNoticeHolder(paths, ops, path, o, p);
    }
  }
}
