/** The backend's typing time is the last key press it has processed. */
module TypingTime {
  import opened Basics
  import opened Events
  import opened Touchpad
  import opened Keyboard
  import opened Devices
  import opened Drain

  // ---- the log of key presses, in the order they are processed ----

  function BatchPresses(d: Device, rs: seq<Reading>): seq<Time> {
    if rs == [] then []
    else
      BatchPresses(d, rs[..|rs| - 1])
      + if d.isKeyboard && !d.isAbsolute && rs[|rs| - 1].ev.eventType == KEY && rs[|rs| - 1].ev.value == 1
        then [rs[|rs| - 1].now] else []
  }

  function FetchPresses(d: Device, f: Fetch): seq<Time> {
    if f.Batch? then BatchPresses(d, f.readings) else []
  }

  function ReadPresses(b: Backend, order: seq<Fd>, r: Round): seq<Time> {
    if order == [] then []
    else
      var before, fd := ReadAll(b, order[..|order| - 1], r), order[|order| - 1];
      ReadPresses(b, order[..|order| - 1], r)
      + if fd in before.devices then FetchPresses(before.devices[fd], r.Fetch(fd)) else []
  }

  function DrainPresses(b: Backend, r: Round): seq<Time> {
    ReadPresses(AfterPoll(b, r), r.order, r)
  }

  /** The typing time that a log of presses leaves behind. */
  function Newest(typing: Option<Time>, presses: seq<Time>): Option<Time> {
    if presses == [] then typing else Some(presses[|presses| - 1])
  }

  lemma {:induction false} BatchNewest(d: Device, typing: Option<Time>, rs: seq<Reading>)
    ensures BatchTyping(d, typing, rs) == Newest(typing, BatchPresses(d, rs))
  {
    if rs != [] { BatchNewest(d, typing, rs[..|rs| - 1]); }
  }

  /** A device remembers its own last press. */
  lemma {:induction false} BatchTyped(d: Device, snapshot: Option<Time>, rs: seq<Reading>)
    ensures BatchNext(d, snapshot, rs).typed == Newest(d.typed, BatchPresses(d, rs))
  {
    hide Next, KeyNext, TickFor;
    if rs != [] {
      BatchTyped(d, snapshot, rs[..|rs| - 1]);
      BatchSame(d, snapshot, rs[..|rs| - 1]);
    }
  }

  lemma {:induction false} ReadNewest(b: Backend, order: seq<Fd>, r: Round)
    ensures ReadAll(b, order, r).typing == Newest(b.typing, ReadPresses(b, order, r))
  {
    if order != [] {
      var before, fd := ReadAll(b, order[..|order| - 1], r), order[|order| - 1];
      ReadNewest(b, order[..|order| - 1], r);
      if fd in before.devices && r.Fetch(fd).Batch? {
        BatchNewest(before.devices[fd], before.typing, r.Fetch(fd).readings);
      }
    }
  }

  // ---- runs of drains ----

  /** Drains one after the other; in between devices may come, go and be configured. */
  datatype Turn = Turn(devices: map<Fd, Device>, round: Round)

  function TypingAfter(turns: seq<Turn>): Option<Time> {
    if turns == [] then None
    else
      var t := turns[|turns| - 1];
      DrainNext(Backend(t.devices, TypingAfter(turns[..|turns| - 1])), t.round).typing
  }

  function RunPresses(turns: seq<Turn>): seq<Time> {
    if turns == [] then []
    else
      var t := turns[|turns| - 1];
      RunPresses(turns[..|turns| - 1])
      + DrainPresses(Backend(t.devices, TypingAfter(turns[..|turns| - 1])), t.round)
  }

  /** After any run the typing time is the last press processed on a keyboard. */
  lemma {:induction false} TypingIsLastPress(turns: seq<Turn>)
    ensures TypingAfter(turns) == Newest(None, RunPresses(turns))
  {
    if turns != [] {
      var before, t := turns[..|turns| - 1], turns[|turns| - 1];
      TypingIsLastPress(before);
      var b := Backend(t.devices, TypingAfter(before));
      ReadNewest(AfterPoll(b, t.round), t.round.order, t.round);
    }
  }

  lemma PollKeepsTyping(b: Backend, r: Round)
    ensures AfterPoll(b, r).typing == b.typing
  {}

  ghost predicate InOrder(presses: seq<Time>) {
    forall i, j :: 0 <= i < j < |presses| ==> presses[i] <= presses[j]
  }

  /** With a clock that does not run backwards: a touchpad event at `now` in the n-th
      place of a drain runs under DWT exactly when DWT is on and some press processed
      before the touchpad's batch is under 500 ms old. */
  lemma DwtVerdict(turns: seq<Turn>, devices: map<Fd, Device>, r: Round, n: nat,
                                      settings: Settings, now: Time)
    requires n <= |r.order|
    requires var b := AfterPoll(Backend(devices, TypingAfter(turns)), r);
             var presses := RunPresses(turns) + ReadPresses(b, r.order[..n], r);
             InOrder(presses) && (presses != [] ==> presses[|presses| - 1] <= now)
    ensures var b := AfterPoll(Backend(devices, TypingAfter(turns)), r);
            var presses := RunPresses(turns) + ReadPresses(b, r.order[..n], r);
            TypingActive(settings, ReadAll(b, r.order[..n], r).typing, now)
            <==> settings.dwt && exists i :: 0 <= i < |presses| && now - presses[i] < 500 * MS
  {
    hide AfterPoll, ReadAll, ReadPresses, RunPresses, TypingAfter;
    var b := AfterPoll(Backend(devices, TypingAfter(turns)), r);
    var presses := RunPresses(turns) + ReadPresses(b, r.order[..n], r);
    PollKeepsTyping(Backend(devices, TypingAfter(turns)), r);
    TypingIsLastPress(turns);
    ReadNewest(b, r.order[..n], r);
    assert ReadAll(b, r.order[..n], r).typing == Newest(None, presses);
    if presses != [] {
      var last := presses[|presses| - 1];
      assert forall i :: 0 <= i < |presses| ==> presses[i] <= last;
    }
  }
}
