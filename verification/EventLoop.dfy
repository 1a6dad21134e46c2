/** The daemon's event loop, updated in place. */
module EventLoops {
  import opened Basics
  import opened Daemon
  import opened DeviceWrappers
  import opened Devices
  import opened Registry

  class EventLoop {
    const config: InputConfig
    const vDevice: VirtualDevice
    var devicesMap: map<nat, DeviceWrapper>
    var nextToken: nat
    var lastGlobalTypingTime: Option<Time>

    ghost predicate Valid()
      reads this
    {
      forall t, u :: t in devicesMap && u in devicesMap && t != u ==> devicesMap[t] != devicesMap[u]
    }

    ghost function ValueOf(w: DeviceWrapper): Wrapped
      reads w
    {
      Wrapped(w.path, w.isAbsolute, w.isKeyboard, w.State(), w.lastTypingTime)
    }

    ghost function Wrappers(): map<nat, Wrapped>
      reads this, devicesMap.Values
    {
      map t | t in devicesMap :: ValueOf(devicesMap[t])
    }

    ghost function Value(): Loop
      reads this, devicesMap.Values
    {
      Loop(Wrappers(), nextToken, lastGlobalTypingTime)
    }

    /** Starts with the devices found; all of them register. */
    constructor (config: InputConfig, vDevice: VirtualDevice, paths: seq<string>, found: seq<Opening>)
      requires |paths| == |found| && forall o :: o in found ==> o.Opened? && o.registers
      ensures Valid() && fresh(devicesMap.Values)
      ensures this.config == config && this.vDevice == vDevice && Value() == Initial(paths, found)
    {
      this.config, this.vDevice := config, vDevice;
      devicesMap, nextToken, lastGlobalTypingTime := map[], 0, None;
      new;
      for i := 0 to |found|
        invariant Valid() && fresh(devicesMap.Values)
        invariant Value() == Initial(paths[..i], found[..i])
      {
        assert paths[..i + 1][..i] == paths[..i] && found[..i + 1][..i] == found[..i];
        Register(paths[i], found[i]);
      }
      assert paths[..|found|] == paths && found[..|found|] == found;
    }

    method NewWrapper(path: string, o: Opening) returns (wrapper: DeviceWrapper)
      requires o.Opened?
      ensures fresh(wrapper) && ValueOf(wrapper) == NewWrapped(path, o)
    {
      wrapper := new DeviceWrapper(path, o.isAbsolute, o.isKeyboard);
    }

    method Register(path: string, o: Opening)
      requires Valid() && o.Opened?
      modifies this
      ensures Valid() && fresh(devicesMap.Values - old(devicesMap.Values))
      ensures Value() == Adopt(old(Value()), path, o)
    {
      hide ValueOf, NewWrapped;
      var wrapper := NewWrapper(path, o);
      var token := nextToken;
      nextToken := (nextToken + 1) % (USIZE_MAX + 1);
      if o.registers {
        devicesMap := devicesMap[token := wrapper];
        assert Wrappers() == old(Wrappers())[token := NewWrapped(path, o)];
      } else {
        assert Wrappers() == old(Wrappers());
      }
    }

    lemma KnownPath(path: string)
      ensures Known(Wrappers(), path) <==> exists t :: t in devicesMap && devicesMap[t].path == path
    {
      if t :| t in devicesMap && devicesMap[t].path == path { assert Wrappers()[t].path == path; }
      if t :| t in Wrappers() && Wrappers()[t].path == path { assert devicesMap[t].path == path; }
    }

    /** Each notice is compared with the table just before its device is opened. */
    method HandleNotice(path: string, o: Opening)
      requires Valid()
      modifies this
      ensures Valid() && fresh(devicesMap.Values - old(devicesMap.Values))
      ensures Value() == LoopNext(old(Value()), Notice(path, o), config)
    {
      hide ValueOf;
      var alreadyTracked := exists t :: t in devicesMap && devicesMap[t].path == path;
      KnownPath(path);
      if !alreadyTracked && o.Opened? {
        Register(path, o);
      }
    }

    method HandleReady(token: nat, f: Fetch)
      requires Valid()
      modifies this`devicesMap, this`lastGlobalTypingTime, devicesMap.Values, vDevice
      ensures Valid() && devicesMap.Values <= old(devicesMap.Values)
      ensures Value() == LoopNext(old(Value()), Ready(token, f), config)
      ensures devicesMap == if f.Vanished? then old(devicesMap) - {token} else old(devicesMap)
      ensures vDevice.written == old(vDevice.written)
                                 + if token in old(devicesMap) && f.Batch?
                                   then FeedWrites(old(Value()), token, f.readings, config) else []
    {
      hide ValueOf, FeedNext, FeedWrites;
      if token in devicesMap {
        match f {
          case Batch(readings) => HandleBatch(token, readings);
          case Vanished => devicesMap := devicesMap - {token};
          case WouldBlock =>
          case Failed =>
        }
      }
    }

    method HandleBatch(token: nat, rs: seq<Reading>)
      requires Valid() && token in Value().wrappers
      modifies this`lastGlobalTypingTime, devicesMap.Values, vDevice
      ensures Valid() && devicesMap == old(devicesMap) && Value() == FeedNext(old(Value()), token, rs, config)
      ensures vDevice.written == old(vDevice.written) + FeedWrites(old(Value()), token, rs, config)
    {
      hide ValueOf, Wrappers, EventNext, WrappedWrites;
      ghost var before := Value();
      for i := 0 to |rs|
        invariant Valid() && Value() == FeedNext(before, token, rs[..i], config)
        invariant vDevice.written == old(vDevice.written) + FeedWrites(before, token, rs[..i], config)
      {
        assert rs[..i + 1][..i] == rs[..i];
        HandleEvent(token, rs[i]);
      }
      assert rs[..|rs|] == rs;
    }

    method HandleEvent(token: nat, r: Reading)
      requires Valid() && token in Value().wrappers
      modifies this`lastGlobalTypingTime, devicesMap.Values, vDevice
      ensures Valid() && Value() == EventNext(old(Value()), token, r, config)
      ensures vDevice.written == old(vDevice.written)
                                 + WrappedWrites(old(Value()).wrappers[token], old(Value()).typing, r, config)
    {
      hide ValueOf, WrappedAfter, WrappedWrites;
      var wrapper := devicesMap[token];
      var typed := Feed(wrapper, r);
      if typed.Some? {
        lastGlobalTypingTime := typed;
      }
      assert forall t :: t in devicesMap && t != token ==> ValueOf(devicesMap[t]) == old(ValueOf(devicesMap[t]));
    }

    /** Gives a wrapper one event; returns the typing time it makes known. */
    method Feed(wrapper: DeviceWrapper, r: Reading) returns (typed: Option<Time>)
      modifies wrapper, vDevice
      ensures ValueOf(wrapper) == WrappedAfter(old(ValueOf(wrapper)), lastGlobalTypingTime, r, config)
      ensures vDevice.written == old(vDevice.written)
                                 + WrappedWrites(old(ValueOf(wrapper)), lastGlobalTypingTime, r, config)
      ensures typed == if ValueOf(wrapper).isKeyboard then ValueOf(wrapper).typed else None
    {
      hide DeviceWrapper.State, After, Writes, TickOf;
      wrapper.ProcessEvent(r.ev, r.now, vDevice, config, lastGlobalTypingTime);
      typed := if wrapper.isKeyboard then wrapper.lastTypingTime else None;
    }
  }
}
