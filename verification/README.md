# A verified model of libinput-rs

libinput-rs replaces libinput.so: it opens evdev devices, turns their kernel events into
libinput events, and hands those to the client through a queue. A second program, the
daemon, runs a simpler version of the same touchpad pipeline and writes to uinput.

This project models the event pipeline of both and proves what their runs guarantee.

## How the model is laid out

Each machine appears twice: as a class whose methods update the source's fields in place,
and as functions on values that say what one event does. Every method is proved to do
exactly what the functions say, and the theorems about runs are proved about the functions.

| file | what it models |
|---|---|
| `Basics`, `Events`, `Kernel` | i32 wrap-around and saturation, rounding, elapsed time; kernel and libinput events; event codes by number |
| `Touchpad`, `TrackedDevice` | the touchpad machine of src/backend.rs, as values and as a class |
| `Ledger`, `Bounds`, `Paths`, `PathIndependence` | where every count goes; size of the accumulators; displacement |
| `Frames`, `Geometry` | what a report emits by the number of fingers; the two slots a pinch is measured by |
| `Mirror`, `PinchProtocol`, `TapHistory`, `Clicks`, `Typing`, `SlotLog`, `OutputShapes` | symmetry, gestures, taps, clicks, disable-while-typing (DWT), slots |
| `Scenarios` | concrete runs on which the code departs from its documentation |
| `Keyboard`, `KeyboardRuns`, `Mouse` | held keys and synthetic repeats; mouse and trackpoint |
| `Devices`, `Drain`, `NonInterference`, `TypingTime`, `Composition` | routing, one drain of all devices, and what devices see of each other |
| `Context`, `Lifecycle`, `Hotplug`, `Origins`, `TrackedPaths`, `BackendState` | opening, hotplug, the client's calls and the queue; the classes for the backend and the context |
| `EndToEnd`, `Queue`, `Configured` | from the client's calls and settings to what the queue says about each device |
| `Daemon`, `DeviceWrapper`, `Simulation`, `DaemonPaths`, `DaemonFrames`, `DaemonTaps`, `Buttons` | the daemon's touchpad machine and its relation to the library's |
| `Registry`, `Holders`, `LoopTyping`, `LoopOutputs`, `EventLoop` | the daemon's token table, typing time and writes |

A run is a sequence of events, each with its clock reading, DWT verdict and settings; a run
is quantified over without bounds. What the kernel decides (batches, would-block, a vanished
device, what opening a node gives, notices, the order in which a hash map is visited) is
input to the model, and the theorems hold for all of it.

## Where the code and its documentation differ

The model follows the code.

- The repository's README.md, line 142, says a pinch begins when two fingers contact the surface. The code begins one
  only at a BTN_TOUCH that finds two active slots (`PinchProtocol.GestureTimes`,
  `PinchProtocol.LateFingersDoNotPinch`); `Scenarios.LateFingerRun` is a run where two
  fingers are down and none has begun.
- Line 143 says UPDATE is emitted on every SYN_REPORT. It is left out under DWT and while
  fewer than two slots are active (`PinchProtocol.GestureTimes`, `Scenarios.ReportWithoutUpdate`).
- Line 146 says END carries the final scale. It does while two fingers are on the pad at the
  lift, and otherwise reports 1 (`PinchProtocol.FinalScale`); `Scenarios.EndForgetsScale` is a
  pinch that ends so.
- Line 123 says DWT suppresses touchpad input. It does exactly while no event begins or ends
  a pinch or stands for a button (`Typing.Silenced`, `Typing.SilencedRun`); a pinch and a
  click that pass are `Scenarios.PinchBeginsWhileTyping` and `Scenarios.ClickWhileTyping`.
- Line 122 gives 0.0 as the default of `pointer_acceleration`; src/config.rs:17 has 1.0.
- libinput_path_add_device returns the last listed device even when it opened none
  (`Hotplug.AddReturns`, `Hotplug.RefusedAddReturnsAnother`).
- The library can track one path twice, through hotplug (`Hotplug.HotplugKeepsPathsApart`) or
  through repeated calls (`TrackedPaths.PathsApart`, `TrackedPaths.AddedTwice`); the daemon
  cannot (`Registry.RegistrySafe`).
- The daemon's typing time can move backwards (`Registry.TypingMovesBack`,
  `LoopTyping.TypingIsHistory`); the library's is always the last press
  (`TypingTime.TypingIsLastPress`).

## Model

| member | source | states |
|---|---|---|
| `Ledger.Conservation` | src/backend.rs:849-1003 | On every run from any state and with any factors, for each axis: counts taken in equal counts spent (motion, scroll, swipe, or dropped by a pinch, DWT or lift) plus those pending; emitted motion plus un-negated scroll plus the final remainder equals the first remainder plus 0.18·accel·motion counts plus 0.02·scroll counts minus remainders dropped under DWT; swipe distance is 0.18·swipe counts |
| `Ledger.EntryBalances` | src/backend.rs:655-1007 | One event of any kind keeps that balance |
| `Frames.FrameByFingers` | src/backend.rs:921-1003 | A report outside a pinch and DWT, with n the larger of the slots in use and the announced fingers: without movement it changes and emits nothing; with movement it emits, for n <= 1, one motion of the two totals 0.18·counts·factor + remainder rounded to whole units (none if both round to 0), with the unaccelerated 0.18·counts beside them; for n = 2, a vertical and then a horizontal scroll of 0.02·counts + remainder rounded, each unless 0; for n >= 3, exactly one swipe with n fingers; and what rounding leaves is kept |
| `Frames.FrameOfHistory` | src/backend.rs:921-1003 | The same with n read off the kernel's events, on every run whose output has no gesture open |
| `Frames.FrameDropped` | src/backend.rs:880-916 | A report in a pinch or under DWT drops the counts, under DWT the remainders too, and emits nothing but a pinch UPDATE |
| `Frames.WholeZero` | src/backend.rs:926-945 | A total rounds to no unit, and so emits nothing, if and only if it is strictly between minus and plus half a unit |
| `Frames.WholeUnique` | src/backend.rs:926-931 | Rounding to the nearest unit, ties away from zero and saturating, has one result |
| `Scenarios.LateFingerScrolls` | src/backend.rs:946-983 | A second finger after the touch-down, and both move down by 100: one scroll event on axis 0, two steps up |
| `Geometry.CountsInUse` | src/backend.rs:142-144 | The finger count is the number of slots in use |
| `Ledger.ReportClears` | src/backend.rs:874-1003 | After every SYN_REPORT both accumulators are 0 |
| `Ledger.CastExact` | src/backend.rs:926-931 | For any i32 accumulator, a remainder within half a unit and a factor in [-5, 5] the rounded total fits strictly inside i32, so the saturating cast is exact and leaves at most half a unit |
| `Ledger.RemaindersSmall` | src/backend.rs:926-953 | From a remainder within half a unit it stays within half a unit over a run if and only if every motion and scroll total is within half a unit of the i32 range, as all are with factors in [-5, 5], the library's among them |
| `Ledger.OneFactor` | src/backend.rs:926-931 | With one factor throughout, the weighted counts of the ledger are the motion counts times 0.18 times that factor |
| `Bounds.AccumulatorBound` | src/backend.rs:849-870 | With coordinates in [lo, hi], after every event the accumulator is within (number of stretches that fed this frame)·(hi - lo), whatever earlier frames did; if for every frame that product fits i32 no operation wraps and the counts booked are the true coordinate differences |
| `PathIndependence.SegmentTotals` | src/backend.rs:849-871 | One finger, any number of contacts and stalls: emitted plus remainder equals the first remainder plus 0.18·accel times the travel over the stretches without a stall on that axis, less counts dropped at lifts and those pending; stretches are cut from the event history alone |
| `PathIndependence.PathIndependence` | src/backend.rs:921-945 | One contact without stalls, any factor: emitted plus remainder is 0.18·accel·(last - first) for what has been reported, however the motion is cut into frames; at every SYN_REPORT nothing is pending and, with a factor in [-5, 5], the total is within one unit of that |
| `PathIndependence.SameEndpointsSameTotal` | src/backend.rs:921-945 | Two contacts with the same first and last coordinate end with the same emitted total plus remainder, and with a factor in [-5, 5] emit totals that differ by at most one unit |
| `Mirror.RunMirror` | src/backend.rs:832-1001 | Reflecting the coordinates of a run, on either axis or both, reflects state and output: motion, scroll and swipe change sign on that axis, pinch scale, buttons and everything else stay the same |
| `Mirror.InRangeMirror` | src/backend.rs:832-1001 | The same for a freshly opened device, from conditions on its input alone |
| `Mirror.UnitsMirror` | src/backend.rs:926-931 | Rounding and carrying the remainder is odd |
| `Mirror.GeometryMirror` | src/backend.rs:146-167 | A reflection keeps slot distances and reflects slot angles |
| `PinchProtocol.Protocol` | src/backend.rs:685-735 | On every run the pinch events form a prefix of (BEGIN UPDATE* END)*, with one finger count between 2 and 10 in each gesture and no motion, scroll or swipe between BEGIN and END |
| `Geometry.PairGeometry` | src/backend.rs:146-167 | When slots i < j are in use and no other below j is, the squared distance is (xi - xj)² + (yi - yj)² and the angle that of (yj - yi, xj - xi) |
| `Geometry.MeasuredIff` | src/backend.rs:146-167 | There is a distance if and only if two slots are in use; without one the angle is 0 |
| `PinchProtocol.GestureGeometry` | src/backend.rs:880-901 | For every UPDATE and END, with p and q the first two slots in use at the BEGIN: the angle at the start is that from p to q, the finger count is the number of slots in use then, and if j and k are the first two in use now, the angle is that from j to k and the squared scale times the squared distance p-q is the squared distance j-k (the scale is 1 if p and q coincide); if fewer are in use the event is an END with scale 1 and angle 0 |
| `PinchProtocol.FinalScale` | src/backend.rs:708-734 | The END of a pinch compares fingers on the pad if and only if two are active at the lift, and otherwise has scale 1 and no direction; it repeats the scale of the last UPDATE if and only if the distance it is made from (that of the BEGIN, with fewer than two fingers) is that of the UPDATE, or the baseline was 0 |
| `Scenarios.EndForgetsScale` | src/backend.rs:708-734 | A pinch whose UPDATE reports twice the distance and whose END, after the fingers left one by one, reports scale 1 |
| `PinchProtocol.GestureTimes` | src/backend.rs:676-906 | BEGIN, UPDATE and END are each emitted exactly under a condition on the event, the active slots, the pinch and DWT |
| `PinchProtocol.LateFingersDoNotPinch` | src/backend.rs:684-687 | Without a new BTN_TOUCH no gesture begins, however many fingers land: the documented BEGIN when two fingers contact the surface does not come |
| `Scenarios.LateFingerRun` | src/backend.rs:676-707 | One finger, a touch-down, then a second finger and a report: two slots are active and the run has emitted nothing |
| `Scenarios.ReportWithoutUpdate` | src/backend.rs:880-906 | A SYN_REPORT inside a pinch, after one of two fingers has left, that emits no UPDATE |
| `TapHistory.TapIffDue` | src/backend.rs:667-767 | A lift emits the click pair exactly when tapping is on, DWT is off, at most one finger is counted, and the latest touch event is a touch-down under 250 ms old since which no event ran under DWT and no non-pinch report found movement |
| `TapHistory.ActiveWhileDown` | src/backend.rs:674-677 | The contact is active if and only if the latest touch event is a touch-down |
| `TapHistory.TapsSinceDown` | src/backend.rs:678-772 | From any state, over events without a touch-down at most one lift emits the click pair, and only if a touch-down was pending that then no longer is: each single touch-down gives at most one tap |
| `TapHistory.TapsPerDown` | src/backend.rs:678-772 | Over any run the emitted taps, and the touch-down still pending, are no more than the touch-downs |
| `Clicks.ClickBalance` | src/backend.rs:743-813 | For hardware buttons that go down and up in turn: after every event presses minus releases of each button, taps included, is 1 if the device holds that button for a click and 0 otherwise, plus 1 while the hardware itself holds that right or middle button; so without such hardware it is 1 or 0 as the device says |
| `Clicks.ReleaseNamesPress` | src/backend.rs:782-796 | On such runs a release reports the very button its press was reported as, whatever the finger count has become |
| `Typing.Silenced` | src/backend.rs:667-812 | While typing an event emits nothing if and only if it is not a touch-down that finds two fingers and no pinch, not a lift that ends a pinch, and not a button event that stands for a pointer button; otherwise it emits exactly the one BEGIN, END or button event of that branch |
| `Typing.SilencedRun` | src/backend.rs:667-916 | A stretch of events under DWT emits nothing at all if and only if no event of it meets one of those guards |
| `Scenarios.PinchBeginsWhileTyping` | src/backend.rs:684-706 | Two fingers on the pad and a touch-down under DWT: a BEGIN is emitted |
| `Scenarios.ClickWhileTyping` | src/backend.rs:781-812 | A BTN_LEFT press under DWT is reported |
| `Typing.StillAudible` | src/backend.rs:667-669 | Outside reports DWT takes away the tap and nothing else |
| `Typing.NoLeak` | src/backend.rs:909-916 | Two runs that differ only in the counts and remainders before a suppressed SYN_REPORT emit the same during that frame, end it in the same state, and emit the same ever after |
| `SlotLog.TableRefinesLog` | src/backend.rs:821-847 | After every event each slot holds the last values addressed to it in the history, and its active flag follows the last tracking id |
| `SlotLog.InRangeAddressing` | src/backend.rs:821-825 | While selections stay in 0..9 the addressed slot is the last one selected, as multi-touch protocol B says |
| `SlotLog.OutOfRangeAddressing` | src/backend.rs:821-825 | After a selection the addressed slot is the selected one if and only if the selection is in 0..9 |
| `SlotLog.ActiveHasId` | src/backend.rs:826-831 | On every run there are ten slots and an active one has a tracking id that is not negative |
| `OutputShapes.RunShaped` | src/backend.rs:888-1000 | Every event of a run carries the kernel time stamp of an event of the run, no motion or scroll is zero, scroll values are 15 per step, swipes have three fingers or more, no gesture is cancelled |
| `Kernel.KeyCodes` | src/backend.rs:673-814 | Which key codes are touch, finger count and button, by number |
| `Kernel.AbsoluteCodes` | src/backend.rs:818-872 | Which absolute codes are coordinates and slot data, by number |
| `Kernel.OtherCodes` | src/backend.rs:672-1006 | Of all other events only SYN_REPORT means anything |
| `Basics.WrapTurns` | src/backend.rs:849-870 | The accumulator's wrap-around is off by whole turns of 2^32 |
| `Basics.UnsignedTurn` | src/backend.rs:799-812 | A button value as a u32 is the value itself or, if negative, one turn of 2^32 above it |
| `TrackedDevices.TrackedDevice.constructor` | src/backend.rs:95-137 | A new device has ten idle slots, no contact, no held keys and the default settings |
| `TrackedDevices.TrackedDevice.ProcessAbsoluteEvent` | src/backend.rs:655-1007 | For every event, clock reading, DWT verdict and settings: the fields afterwards and the events appended are those of the specification, and nothing else of the device changes |
| `TrackedDevices.TrackedDevice.ProcessTouchpadKey` | src/backend.rs:672-814 | Same, for key events |
| `TrackedDevices.TrackedDevice.LandFingers` | src/backend.rs:678-707 | Touch-down: restarts the contact, counts fingers from the slots, drops both anchors, begins a pinch |
| `TrackedDevices.TrackedDevice.LiftFingers` | src/backend.rs:708-774 | Lift: ends the pinch, then taps, then resets the contact |
| `TrackedDevices.TrackedDevice.ProcessClick` | src/backend.rs:781-813 | Physical click with the button chosen by finger count |
| `TrackedDevices.TrackedDevice.TrackSlot` | src/backend.rs:820-847 | Slot table update; an out-of-range slot number is ignored |
| `TrackedDevices.TrackedDevice.TrackCoordinate` | src/backend.rs:848-871 | Coordinate update; a stall drops the anchor of the arriving axis only; i32 arithmetic wraps |
| `TrackedDevices.TrackedDevice.ProcessReport` | src/backend.rs:874-1004 | Report under a pinch, under DWT, without movement, and with movement |
| `TrackedDevices.TrackedDevice.ProcessFrame` | src/backend.rs:921-1003 | State and output of a moving report are those of the specification, which `Frames.FrameByFingers` says by the number of fingers |
| `TrackedDevices.TrackedDevice.EmitMotion` | src/backend.rs:926-945 | Pointer motion and remainders |
| `TrackedDevices.TrackedDevice.EmitScroll` | src/backend.rs:947-983 | Vertical then horizontal scroll and remainders |
| `TrackedDevices.TrackedDevice.AccelSetSpeed` | src/lib.rs:1238-1247 | A speed within [-1, 1] is kept, any other becomes the nearest speed in that range, and nothing else of the settings changes |
| `Mouse.OneToOne` | src/backend.rs:559-648 | One kernel event makes at most one event, worth exactly its count or button value and with its time stamp; motion is not accelerated and a wheel step is worth 15 |
| `Mouse.MouseTotals` | src/backend.rs:559-648 | Over any run the sums of dx, dy and both wheels are the sums of the kernel's counts, each of the five buttons goes through the kernel's values in order, and there are no more events than kernel events |
| `KeyboardRuns.KeyGrammar` | src/backend.rs:467-552 | On every well-formed run each key's output is a prefix of (PRESS REPEAT* RELEASE)*, down exactly while the key is, with every repeat carrying its press's time stamp |
| `KeyboardRuns.GrammarNeedsWellFormed` | src/backend.rs:517-549 | The output of every key follows the grammar if and only if no key is pressed while down or released while up |
| `KeyboardRuns.HeldKeysAreDown` | src/backend.rs:521-536 | On every well-formed run the held list has no duplicates, names exactly the keys whose latest event is a press, and its entries agree with the press and the repeats so far |
| `KeyboardRuns.RepeatsArePolled` | src/backend.rs:550-551 | Whatever is reported as a repeat comes from a poll, never from the kernel's repeats |
| `KeyboardRuns.StrokesGoThrough` | src/backend.rs:495-553 | Whatever the polls: the presses and releases in the output are the kernel's, in order, each with its own key, state and time stamp |
| `KeyboardRuns.NotTooSoon` | src/backend.rs:461-487 | For any polling schedule the n-th repeat comes no sooner than 200 ms + 25 ms·(n - 1) after the press |
| `KeyboardRuns.NotTooLate` | src/backend.rs:461-487 | With polls at most D apart, right after a poll n repeats mean less than 200 ms + n·(25 ms + D) since the press |
| `Keyboard.RetainCounts` | src/backend.rs:538 | Every entry of another key is kept as often as it was in the list, and no entry of the released key is |
| `Keyboard.RetainConcat` | src/backend.rs:538 | What is kept keeps its order: the filter commutes with concatenation |
| `KeyboardRuns.RepeatsAreVisible` | src/backend.rs:461-487 | The number of repeats the rate bounds speak of is the number of REPEAT events of the key in the output since its last PRESS |
| `TrackedDevices.TrackedDevice.EmitKeyRepeats` | src/backend.rs:456-489 | The in-place loop fires exactly the keys that are due, in list order |
| `TrackedDevices.TrackedDevice.ProcessKeyboardEvent` | src/backend.rs:495-553 | Held list, typing times and output for one key event |
| `NonInterference.DrainAlone` | src/backend.rs:334-418 | Whatever orders the map is visited in for repeats and for reading: what a drain emits for a device, whether the device stays, and its next state are those of the device alone with its own input, the drain time and the typing time when its turn came |
| `NonInterference.NotAbsoluteAlone` | src/backend.rs:334-400 | For a device that is not absolute two drains of unrelated backends agree |
| `NonInterference.RunAlone` | src/backend.rs:334-418 | Over any number of drains, whatever is configured in between, the output of such a device is a function of its own events and the drain times |
| `Composition.KeyboardInTheLoop` | src/backend.rs:334-382 | In the whole loop a keyboard's events are those of the keyboard machine on its own input, then its removal |
| `Composition.KeyGrammarInTheLoop` | src/backend.rs:334-382 | So the grammar holds for every key of every keyboard in the loop |
| `Composition.MouseInTheLoop` | src/backend.rs:384-388 | In the whole loop a mouse's events are those of its own kernel events, then its removal |
| `Composition.TouchpadInTheLoop` | src/backend.rs:390-398 | In the whole loop, whatever is configured in between, a touchpad's events are those of the touchpad machine on its own kernel events, other devices entering only through the DWT verdicts of the snapshots, then its removal |
| `Composition.EveryReadingCounts` | src/backend.rs:334-382 | Each drain gives a keyboard's machine one poll and then every event of the batch in order, and a mouse's every event of it |
| `TypingTime.TypingIsLastPress` | src/backend.rs:517-520 | After any run of drains the global typing time is the last key press processed on any non-absolute keyboard |
| `TypingTime.DwtVerdict` | src/backend.rs:365-394 | A touchpad event runs under DWT if and only if DWT is on and some press processed before its batch is under 500 ms old |
| `TypingTime.BatchTyped` | src/backend.rs:517-520 | A keyboard's own typing time is its last press |
| `BackendStates.BackendState.EmitKeyRepeats` | src/backend.rs:456-489 | Repeat phase over the device map in the order visited |
| `BackendStates.BackendState.Handle` | src/backend.rs:367-398 | Routes one event by kind of device; `Configured.TicksOfDispatch` says with which settings, factor and DWT verdict a touchpad's event runs |
| `BackendStates.BackendState.HandleBatch` | src/backend.rs:365-399 | A batch is judged by one snapshot of the typing time while presses move the global one |
| `BackendStates.BackendState.ReadDevice` | src/backend.rs:339-353 | Would-block and other errors leave the device alone; a vanished one is reported |
| `BackendStates.BackendState.ReadDevices` | src/backend.rs:334-400 | Reading phase, with the list of vanished descriptors |
| `BackendStates.BackendState.RemoveDevices` | src/backend.rs:402-418 | Vanished devices are dropped, unregistered and announced |
| `BackendStates.BackendState.TryOpen` | src/backend.rs:227-316 | Which nodes are refused, listed, tracked, registered and announced |
| `BackendStates.BackendState.HandleHotplug` | src/backend.rs:425-450 | All notices of a batch are filtered first and opened afterwards |
| `BackendStates.BackendState.DrainIntoQueue` | src/backend.rs:322-419 | Hotplug, repeats, reading, removal, in that order |
| `Lifecycle.LifeOfADevice` | src/backend.rs:301-315 | On every interleaving of seat assignment, path add, dispatch, get_event and configuration: the descriptors polled are those of the tracked devices and inotify; each device's events form a prefix of ADDED other* REMOVED, and it is between the two exactly while it is tracked |
| `Lifecycle.FirstInFirstOut` | src/lib.rs:32-42 | Delivered events followed by the queue are the events enqueued, in order, none lost and none twice |
| `Lifecycle.EveryRequestServed` | src/lib.rs:178-186 | What has been delivered is the first n events enqueued, n being the number of GetEvent calls that found more enqueued than handed out: no request is left unanswered while there is an event |
| `Lifecycle.DrainFits` | src/backend.rs:402-418 | A drain leaves a live device live if it stays tracked and gone if not, and says nothing about the others |
| `EndToEnd.Story` | src/lib.rs:97-176 | On every run of calls: what has been enqueued for a device is its announcement followed by its share of the dispatches that found it tracked, which form one unbroken history from a newly opened device to the present one |
| `Queue.QueueOfADevice` | src/lib.rs:32-42 | From the calls alone: for every device the queue has been told nothing, or ADDED, then exactly what its own touchpad, keyboard or mouse machine says about its own kernel events, then REMOVED if the last dispatch found it gone |
| `Queue.PinchesInTheQueue` | src/backend.rs:685-735 | Whatever the calls, the gestures enqueued for a device, and those delivered so far, follow the pinch protocol |
| `Queue.TicksInTheQueue` | src/lib.rs:32-42 | The outputs of a touchpad's kernel events lie in the queue in order, one after the other, behind its announcement |
| `Queue.LedgerInTheQueue` | src/backend.rs:849-1003 | The ledger of a touchpad with the units and swipes counted in the queue, while the scroll direction is not changed; the remainder is within half a unit |
| `Queue.SilenceInTheQueue` | src/backend.rs:667-916 | A stretch of a touchpad's events under DWT leaves nothing in the queue if and only if none of them meets a guard that lets a pinch begin or end or a button through |
| `Queue.VerdictOfCalls` | src/backend.rs:365-394 | From the calls alone: a touchpad event of a dispatch runs under DWT if and only if DWT is on for the device and some key press processed before the device's turn, in this dispatch or an earlier one, is under 500 ms old |
| `Configured.SettingsAreLast` | src/lib.rs:1164-1331 | After any run of calls every tracked device has the settings last given to it, and tap, natural scrolling and DWT on and speed 0 if there were none |
| `Configured.TicksOfDispatch` | src/backend.rs:355-398 | Each kernel event of a device in a dispatch runs with its own clock reading, the tap and natural settings last given, the factor 1 + the speed last given, and DWT by the presses so far |
| `Configured.TicksAsConfigured` | src/backend.rs:355-398 | Over a whole run of calls every event of a touchpad comes from some dispatch and runs with the settings last given before it |
| `Configured.SpeedInTheQueue` | src/backend.rs:926-953 | While speed v and scroll direction are left alone, the units of a touchpad in the queue plus the remainder are 0.18·(1 + v)·motion counts plus 0.02·scroll counts less remainders dropped under DWT |
| `Configured.DisplacementInTheQueue` | src/backend.rs:849-945 | With one finger at a time and speed v left alone, they are 0.18·(1 + v) times the travel, less counts dropped at lifts and those pending |
| `Queue.ClicksInTheQueue` | src/backend.rs:743-813 | In the queue presses minus releases of a touchpad's buttons balance as the device and the hardware hold them |
| `Queue.TapsInTheQueue` | src/backend.rs:737-767 | For every lift of a touchpad the queue holds, at that place, the pinch end if any and the click pair if and only if the history calls for a tap |
| `Queue.KeysInTheQueue` | src/backend.rs:467-552 | In the queue every key of a keyboard follows the grammar if and only if the keyboard's kernel events are well formed |
| `Queue.StrokesInTheQueue` | src/backend.rs:495-553 | In the queue the presses and releases of a keyboard are the kernel's, in order, with their time stamps |
| `Queue.RepeatsInTheQueue` | src/backend.rs:461-487 | Both rate bounds, for the repeats counted in the queue |
| `Queue.MouseInTheQueue` | src/backend.rs:559-648 | The mouse totals, for the events in the queue |
| `Hotplug.AddReturns` | src/lib.rs:133-139 | libinput_path_add_device returns the device it opened if and only if the node is an input device on a free descriptor, and that device starts with the default settings and an idle touchpad; on a taken descriptor it returns a device that is neither tracked nor announced; for a refused node, the device listed last |
| `Hotplug.RefusedAddReturnsAnother` | src/lib.rs:133-139 | With one device open, adding a node that cannot be opened returns that device |
| `Hotplug.HotplugKeepsPathsApart` | src/backend.rs:434-446 | A batch of notices keeps tracked paths distinct if and only if no two notices that pass the filter and open name one path |
| `Hotplug.TwoNoticesOpenTwice` | src/backend.rs:434-446 | A batch that opens one path twice |
| `Hotplug.UntrackedPaths` | src/backend.rs:434-442 | A notice passes the filter if and only if its path is not tracked |
| `Hotplug.UntrackedCounts` | src/backend.rs:434-442 | It passes as often as it came |
| `Hotplug.UntrackedConcat` | src/backend.rs:434-442 | Notices pass in order: the filter commutes with concatenation |
| `Origins.EveryDeviceOffered` | src/backend.rs:265-316 | Over any run of calls every tracked device was brought up by some call as a node with pointer properties, relative axes or a key A that is not the daemon's, and its path, descriptor and kind are those of that node |
| `Origins.OfferTaken` | src/backend.rs:265-316 | Every such node of a list, on descriptors of their own, ends up tracked and announced |
| `Origins.NoticeTaken` | src/backend.rs:425-450 | So does every hotplug notice of such a node whose path is not tracked |
| `TrackedPaths.PathsApart` | src/backend.rs:296-305 | Over any run of calls no two tracked devices ever share a path if and only if no call opens, on a free descriptor, a node whose path is tracked when its turn comes |
| `TrackedPaths.OpenApart` | src/backend.rs:296-305 | One opening keeps paths distinct if and only if the node is refused, its descriptor is taken or its path is not tracked |
| `TrackedPaths.AddedTwice` | src/lib.rs:127-129 | Adding one path twice tracks it twice |
| `BackendStates.LibinputContext.constructor` | src/ffi_types.rs:280-306 | A new context tracks nothing and polls the inotify descriptor |
| `BackendStates.LibinputContext.AssignSeat` | src/lib.rs:108-114 | The new state is that of the specification |
| `BackendStates.LibinputContext.PathAddDevice` | src/lib.rs:127-139 | Same, with the device returned |
| `BackendStates.LibinputContext.Dispatch` | src/lib.rs:168-176 | Same, for a drain appended to the queue |
| `BackendStates.LibinputContext.GetEvent` | src/lib.rs:178-186 | Returns the first event of the queue, or nothing if the queue is empty, and takes exactly that event out |
| `BackendStates.LibinputContext.NextEventType` | src/lib.rs:189-198 | Answers with the first event of the queue, nothing exactly when it is empty, and takes nothing |
| `BackendStates.LibinputContext.Configure` | src/lib.rs:1322-1331 | The settings of a tracked device change and nothing else does |
| `Simulation.TogetherIff` | src/device.rs:119-321 | For any stream of at most one finger, with equal settings and DWT verdicts: the daemon and the library agree on their tracking state after every event if and only if no coordinate comes after a pause of more than 50 ms while the other axis has an earlier coordinate of the same contact; and then they perform the same motions, taps and clicks in the same order |
| `Simulation.DaemonSimulatesLibrary` | src/device.rs:119-321 | They agree and do the same in particular when every such pause has a touch event in it |
| `Simulation.MoveAgrees` | src/device.rs:205-232 | On a coordinate the two stay together if and only if there is no stall with the other axis anchored |
| `Simulation.PauseSeparates` | src/device.rs:209-218 | A stream on which they differ: after a pause the library counts Y movement that the daemon drops |
| `Buttons.SameButtons` | src/device.rs:178-203 | For any stream the two programs hold the same click throughout, and report every hardware button event alike, if and only if at each BTN_LEFT press the library and the daemon both count two fingers or neither does, and the library counts three or more exactly when the daemon counts three |
| `Buttons.CountsAreFingers` | src/device.rs:122-176 | Both counts are read off the events: a touch-down gives the active slots, at least 1, in the library and 1 in the daemon, a lift 0, DOUBLETAP and TRIPLETAP the same in both, QUADTAP counts in the library only; the daemon's count never exceeds 3 |
| `Buttons.TwoFingerClick` | src/device.rs:124-127 | Two fingers that land together and click: the library reports BTN_RIGHT, the daemon BTN_LEFT |
| `Buttons.FourFingerClick` | src/device.rs:170-187 | A fourth finger and a click: the library reports BTN_MIDDLE, the daemon BTN_RIGHT |
| `Buttons.ButtonOfHistory` | src/device.rs:178-203 | A BTN_LEFT press is reported as BTN_RIGHT when two fingers are counted off the history, as BTN_MIDDLE when three or more are (exactly three in the daemon) and otherwise as itself; BTN_RIGHT and BTN_MIDDLE are reported as themselves, other buttons not at all |
| `DaemonFrames.FrameByFingers` | src/device.rs:234-314 | A report of the daemon: under DWT the movement and the remainders are dropped and the report is passed on if and only if it found movement; otherwise it is passed on, behind rounded pointer motion with up to one finger, a rounded wheel step in the natural direction with two (the horizontal remainder starts over), and nothing with three |
| `DaemonFrames.FrameOfHistory` | src/device.rs:234-314 | The same with the fingers read off the kernel's events |
| `DaemonFrames.OtherSync` | src/device.rs:310-316 | Synchronization events other than SYN_REPORT are passed on and change nothing but the tap under DWT |
| `Kernel.DaemonCodes` | src/device.rs:119-321 | The daemon takes the library's event codes but for the fourth finger and the slots |
| `DaemonTaps.ClickIffDue` | src/device.rs:128-165 | A lift writes press, report and release of the left button if and only if tapping is on, DWT is off and the latest touch event is a touch-down under 250 ms old since which no event ran under DWT and no report found movement; fingers are not counted |
| `LoopOutputs.Forwarded` | src/device.rs:99-103 | For a device that is not absolute a batch is written as it was read, event by event |
| `LoopOutputs.BatchRuns` | src/event_loop.rs:112-135 | For an absolute device a batch goes through the touchpad machine with the configured tap, natural scrolling and factor, each event under DWT if that is on and the last press was under 500 ms ago |
| `DaemonPaths.SharedSegmentTotals` | src/device.rs:205-280 | Over any run of one-finger frames without DWT, with any configured factor: REL units written plus the remainder equal the first remainder plus 0.18·accel times the travel over the stretches that a stall on either axis ends, less counts lost at lifts and those pending |
| `DaemonPaths.RemaindersSmall` | src/device.rs:254-287 | Over any run of the daemon a remainder within half a unit stays so if and only if every total it rounds is within half a unit of the i32 range |
| `DaemonPaths.LargeFactor` | src/device.rs:254-265 | A factor and a frame with which the remainder exceeds what is written |
| `Clicks.DaemonClickBalance` | src/device.rs:178-203 | The same balance for the daemon |
| `Clicks.DaemonReleaseNamesPress` | src/device.rs:178-203 | In the daemon too a release is written as the button its press was written as |
| `Registry.RegistrySafe` | src/event_loop.rs:26-33 | From distinct initial paths, while fewer than usize::MAX tokens have been handed out, through every interleaving of hotplug, disconnection and events: no two wrappers share a path, every token is below the next one, none is the inotify token |
| `Registry.NoticeSafe` | src/event_loop.rs:53-86 | A hotplug notice keeps that if and only if it does not open a device at the last token (or the table is empty and registration fails) |
| `Holders.TableIsHistory` | src/event_loop.rs:53-165 | Through every interleaving a path is in the table if and only if its last registered opening has not been followed by that device's disappearance, and then under the token of that opening |
| `Holders.VanishedLeaves` | src/event_loop.rs:163-165 | When a device has vanished its token leaves the table and every other entry stays as it is |
| `Holders.OthersKept` | src/event_loop.rs:93-165 | Anything else that reading a device gives leaves the entries of the others as they are and drops none |
| `Holders.VanishedReopens` | src/event_loop.rs:53-86 | A notice of a path that vanished opens the device again, as new, where before it would have been ignored |
| `Registry.BatchTypes` | src/event_loop.rs:130-134 | After a batch of a keyboard its own typing time and the global one are its last press, in this batch or before; a batch of another device changes neither |
| `LoopTyping.TypingIsHistory` | src/event_loop.rs:130-134 | Through every interleaving of hotplug, disconnection and events the daemon's typing time is the last press of the keyboard that reported last |
| `Registry.TypingMovesBack` | src/event_loop.rs:130-134 | The daemon's typing time moves back if and only if a keyboard whose own last press is older reports anything but a press or a kernel repeat |
| `Registry.ReleaseEndsTyping` | src/event_loop.rs:130-134 | Two keyboards on which a key release ends DWT early |
| `DeviceWrappers.DeviceWrapper.ProcessEvent` | src/device.rs:74-324 | Fields and writes of one event are those of the specification; typing time and modifiers follow the key events |
| `DeviceWrappers.DeviceWrapper.ProcessTouchpad` | src/device.rs:119-321 | Same, for an absolute device |
| `DeviceWrappers.DeviceWrapper.ProcessCoordinate` | src/device.rs:205-233 | A stall drops both anchors |
| `DeviceWrappers.DeviceWrapper.ProcessReport` | src/device.rs:234-314 | Report under DWT, without and with movement; when SYN is forwarded |
| `EventLoops.EventLoop.constructor` | src/event_loop.rs:26-33 | The devices found get tokens in order |
| `EventLoops.EventLoop.HandleNotice` | src/event_loop.rs:53-86 | Each notice is compared with the table just before its device is opened; the token is spent even if registration fails |
| `EventLoops.EventLoop.HandleReady` | src/event_loop.rs:93-165 | A batch is handled event by event; a vanished device, and only that, leaves the table |
| `EventLoops.EventLoop.HandleEvent` | src/event_loop.rs:125-135 | After each event of a keyboard its own typing time becomes the global one |

## Left out

- Floating point: f32 and f64 are reals, so rounding error, NaN and infinities are not modelled; `round` is half away from zero and the cast to i32 saturates.
- `sqrt` and `atan2`: a distance is kept as its square, the pinch scale as the square of the scale, and an angle as the pair of differences it is computed from.
- Debug builds: `current_dx += val - px` panics there on overflow; the model wraps, as a release build does.
- The clock: one reading per event and one per repeat phase, where the code reads it up to three times within one event.
- Loading the configuration file of the daemon: its values are inputs; src/config.rs is not part of this model.
- Failing uinput writes: `DeviceWrappers.VirtualDevice` takes every write to succeed, so the early returns of `emit_raw` are not modelled.
- evdev, uinput, inotify, epoll and mio calls, `open_restricted` and `close_restricted`: their results are inputs; registering a descriptor with epoll succeeds.
- Raw pointers, reference counts, ref, unref and drop order; a device is named by its place in the context's list. The settings that src/ffi_types.rs keeps in `LibinputDevice` are fields of the tracked device.
- Null arguments of the C functions, and the return codes 0 and -1.
- The C accessors, the other configuration getters and setters, and the tablet, switch and plugin stubs of src/lib.rs: constants and single reads. The setters of tapping, natural scrolling, DWT and speed are one call that sets all four, besides the speed clamp.
- The Mutex around the backend: the context is single-threaded here.
- Ctrl+Alt+R reset, thread spawning, autosuspend, logging, service files and the symbol map. The daemon's modifier flags are updated but nothing reads them.
- `try_open` and `try_open_device` of the daemon choose devices by name and capabilities; for the daemon the verdict is an input, for the library the names that are skipped are.
- Mirror.RunMirror: leaves out coordinates and accumulators equal to -2^31, which i32 cannot negate, and factors outside [-5, 5], which the library cannot have (`Queue.TicksAreTame`); `Mirror.InRangeMirror` rules them out by the range of the input.
- PathIndependence.SegmentTotals: speaks of runs with one acceleration, in which no frame's counts can leave i32 (beyond that the accumulator wraps and displacement is lost); `Ledger.Conservation` has no such restriction.
