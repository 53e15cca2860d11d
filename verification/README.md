# Libera Link: a verified model of its streaming core

Libera Link receives laser points over network protocols and hands them to laser hardware. This project models the
parts of it where a mistake would show on the wall, and proves what they promise:

- **Point buffer of a target** (`Points`, `LiveLimit`, `AutoLatency`, `BoundaryDrop`, `TargetState`, `LiberaTarget`,
  `TargetPromises`).
  A bounded queue that protocol threads fill and a hardware callback empties, with a boundary-seeking drop policy,
  a buffering hold, dark padding on underrun and automatic latency. `LiberaTarget.LiberaTarget` is the class, method
  by method. `TargetSteps`, `TargetInvariants` and `TargetMachine` cut the same operations into the steps other
  threads can come between and prove invariants of every interleaving of any number of threads. `TargetSolo` proves
  that the two forms agree.
- **Virtual Ether Dream DAC** (`EtherDream`, `EtherDreamPlayback`, `EtherDreamPacing`, `EtherDreamRates`,
  `EtherDreamDevice`). The state machine of
  commands, connections and timer ticks, as a function and as a class that drives a `LiberaTarget`. `EStopSafety`
  composes it with the interleaved target: the emergency stop, end to end.
- **Libera-protocol endpoint** (`LiberaSession`, `LiberaStreaming`, `SessionExclusivity`, `PortAllocator`). Record handling and
  counted-frame assembly, the owner flag that session threads compete for, and the least-free-port allocator.
- **Live reconfiguration of the link** (`HostGroups`, `HostKeys`, `Reconcile`, `ReconcileGoal`, `LinkRuns`, `LinkRuntime`).
  Selected controllers are grouped by host, instance and options, and the running hosts are reconciled with the
  groups. Every host instance ever launched stays in a ledger, so one left running by mistake would be visible.
  A start of a link that is not running groups and starts in the same way, beside whatever hosts are left.
- **AVB settings file** (`AvbSettings`, `AvbRoundTrip`, `AvbLines`). The printer and the parser, character by character.

Where a class and a specification function stand side by side, the method's `ensures` equates the new state with the
function, and the properties are proved about the function. What such a function computes is in turn stated without
naming it: as an only possible outcome, or in terms of time, points, records, commands and routes.

## Conventions

- Float channels are reals. Durations and rates are integers: rounding to the nearest integer is `(x + 500) / 1000`
  and the like, and the fraction of a point that a tick leaves over is an integer count of millionths.
- Clocks are integers that do not run backwards, in nanoseconds. The Ether Dream device truncates each gap between
  ticks to whole microseconds, as the code does.
- What the environment decides (hardware rate, downstream buffer level, whether a socket, a port or a host answers)
  is a parameter, and every property holds for all its values.

Preconditions, all of which the code relies on: a controller declares a maximum point rate of 0 or of at least 1000;
the callback's output vector is empty on entry; a default point has no red, green or blue; the selected controller
ids are distinct (they are a set in the code).

Results about what the code does *not* promise are stated as such:

- The boundary drop can remove far more than the excess (`BoundaryDrop.DropMayExceedExcess`); exactly when it does,
  and when what is left covers the buffering target, is `BoundaryDrop.DropIsExcess` and `DropCoversTarget`.
- The counter of dropped points leaves out points superseded by a frame, cut off an over-long frame, or cleared;
  `TargetMachine.PointsAreConserved` is exact because it counts those separately.
- Playback of the Ether Dream device drifts behind real time when the gaps between its ticks are not whole
  microseconds: `EtherDreamPacing.PacingDrifts` is an input, `EtherDreamPacing.PacingLag` the exact condition.
- A new session clears an emergency stop: `EStopSafety.EmergencyStopHolds` names it beside the clear command.
- A start that succeeds after a failed update terminates the process unless the link was stopped in between, because
  the monitor thread of the first start was never joined (`LinkRuns.StartOutcome`, `LinkRuns.FailedUpdateThenStart`).
- Ids containing a newline do not survive the settings file, and one such id makes the whole file unreadable;
  `AvbRoundTrip.RoundTrip` is the exact condition.

## Model

| member | source | states |
|---|---|---|
| `LiveLimit.LiveLimitExact` | src/LinkRuntime.cpp:1101-1116 | the division-guarded limit is exactly min(maxQueue, max(target × multiplier, minimum)), so never below the buffering target |
| `LiveLimit.WindowExact` | src/LinkRuntime.cpp:1110-1113 | the guard by division never changes the outcome: the window is min(target × multiplier, maxQueue) once capped |
| `LiveLimit.TargetIsLatency` | src/LinkRuntime.cpp:1080-1091 | the buffering target is the whole number of points nearest to rate × latency, between 1000 and one less than the queue holds, and nothing else is |
| `LiveLimit.TargetIsNear` | src/LinkRuntime.cpp:1080-1091 | inside its bounds the target is within half a point of rate × latency / 1000, and outside them it is the nearer bound |
| `TargetState.ContinuousLimitInTime` | src/LinkRuntime.cpp:1093-1116 | streams are kept to twice the buffering target or a tenth of a second, whichever is more, within the queue |
| `TargetState.ReplacementLimitInTime` | src/LinkRuntime.cpp:1097-1116 | frames are kept to the buffering target or a twentieth of a second |
| `TargetState.InferredRateIsNearest` | src/LinkRuntime.cpp:1066-1078 | the inferred rate is the nearest whole number of points per second for the points and the duration, narrowed to 32 bits |
| `AutoLatency.LatencyBounds` | src/LinkRuntime.cpp:1281-1324 | over any run of shortfalls the latency stays between its start and the cap, with at most ceil((cap − start)/10) raises |
| `AutoLatency.LatencyNeverDecreases` | src/LinkRuntime.cpp:1308-1318 | the latency after more shortfalls is never lower |
| `AutoLatency.RaisesAreSpaced` | src/LinkRuntime.cpp:1296-1298 | consecutive raises are at least 3000 ms apart |
| `AutoLatency.RaiseNeedsThreshold` | src/LinkRuntime.cpp:1289-1305 | a raise needs one uninterrupted burst of shortfalls, each within 2000 ms of the one before, that adds up to the threshold |
| `AutoLatency.OnlyRightAfter` | src/LinkRuntime.cpp:1281-1324 | a shortfall raises the latency if and only if three seconds have passed since the last raise, the carried and missing points reach the threshold, and the cap is not reached; by a tenth, at least 10 ms, up to the cap; what it leaves of the sum and the two clocks is the only outcome allowed |
| `AutoLatency.RaiseExactly` | src/LinkRuntime.cpp:1306-1317 | the raised latency is the lower of the cap and the latency plus a tenth of it, at least 10 ms |
| `BoundaryDrop.OnlyTheDropIsCut` | src/LinkRuntime.cpp:567-595 | the drop is the one cut that leaves a nonempty suffix within the limit, made at the least boundary that frees enough room, or exactly at the excess when there is none |
| `BoundaryDrop.DropIsExcess` | src/LinkRuntime.cpp:567-595 | no more than the excess is dropped exactly when no boundary follows it or one stands right at it |
| `BoundaryDrop.DropCoversTarget` | src/LinkRuntime.cpp:567-595 | what is left still covers a target within the limit exactly when no boundary follows the excess or some boundary leaves that much |
| `BoundaryDrop.DropMayExceedExcess` | src/LinkRuntime.cpp:571-595 | one point over the limit can cost all but one point |
| `LiberaTarget.LiberaTarget.constructor` | src/LinkRuntime.cpp:496-524 | starts empty and buffering, with a queue bound of at least 1000 and a latency cap not below the initial latency |
| `LiberaTarget.LiberaTarget.SubmitContinuous` | src/LinkRuntime.cpp:536-615 | the new state and the result are those of the specified admission followed by the drop; an empty submission is refused |
| `LiberaTarget.LiberaTarget.FindDrop` | src/LinkRuntime.cpp:567-590 | the search loop with its backward count of blanks finds exactly the specified cut |
| `LiberaTarget.LiberaTarget.ReplaceFrame` | src/LinkRuntime.cpp:617-708 | the frame, truncated to the live limit, takes the place of the queue and is trimmed from the front to fit beside the downstream buffer |
| `LiberaTarget.LiberaTarget.SubmitFrame` | src/LinkRuntime.cpp:710-786 | the queue is cleared and the whole frame goes to the controller, counted as dropped when refused |
| `LiberaTarget.LiberaTarget.Reset` | src/LinkRuntime.cpp:803-827 | queue, last point and input time are forgotten and buffering restarts |
| `LiberaTarget.LiberaTarget.MaybeIncreaseLatencyOnUnderrun` | src/LinkRuntime.cpp:1281-1324 | the branchy update leaves the one latency state that the shortfall may lead to, stated without the computation |
| `TargetState.RateUpdateIsNearest` | src/LinkRuntime.cpp:1371-1386 | a commanded rate is replaced by the nearest one the controller can do and becomes the output rate, except that an AVB device's output rate is what its hardware reports; a command of zero is ignored and nothing else changes |
| `LiberaTarget.LiberaTarget.FillFromQueue` | src/LinkRuntime.cpp:1164-1279 | the state left and the points handed out are those of the specified callback, which the next row states in full |
| `TargetPromises.FillExactly` | src/LinkRuntime.cpp:1164-1279 | with the buffering target in points of rate × latency: a callback pads if and only if it buffers, is in no frame, may not come up short, and queue plus downstream are below that target; otherwise it takes what the request allows and pads the rest; the buffering flag, the latency and every counter follow |
| `TargetPromises.ContinuousExactly` | src/LinkRuntime.cpp:536-615 | every field after a continuous submission, with the cut at twice the latency's points or a tenth of a second at the new rate |
| `TargetPromises.ReplaceExactly` | src/LinkRuntime.cpp:617-708 | every field after a frame replacement: the first points of the frame up to the latency's points or a twentieth of a second, the fewest possible dropped from the front to fit beside the downstream buffer |
| `TargetPromises.FrameExactly` | src/LinkRuntime.cpp:710-786 | every field after a whole frame |
| `TargetPromises.ResetExactly` | src/LinkRuntime.cpp:803-827 | input and output are forgotten and buffering restarts; rate, latency and counters stay |
| `LiberaTarget.ContinuousKeepsSuffix` | src/LinkRuntime.cpp:536-600 | after a continuous submission the queue is the right cut of old queue plus new points, the limit covers the target, and exactly the missing points were counted as dropped |
| `LiberaTarget.FullQueueEndsHold` | src/LinkRuntime.cpp:1101-1116 | a queue at its live limit always ends the buffering hold: the callback emits |
| `LiberaTarget.FillContract` | src/LinkRuntime.cpp:1164-1279 | a callback returns between minimum and maximum points unless a short read is allowed; real points come off the front in order, the rest is dark at the last position; the counters and the buffering flag say the same |
| `TargetSolo.ContinuousAlone` | src/LinkRuntime.cpp:536-615 | the interleavable steps of a continuous submission, run alone, amount to the whole method |
| `TargetSolo.ReplaceAlone` | src/LinkRuntime.cpp:617-708 | the same for a frame replacement |
| `TargetSolo.FrameAlone` | src/LinkRuntime.cpp:710-786 | the same for a whole frame |
| `TargetSolo.ResetAlone` | src/LinkRuntime.cpp:803-827 | the same for a reset |
| `TargetSolo.FillAlone` | src/LinkRuntime.cpp:1164-1279 | the same for a callback, with the points it hands out |
| `TargetMachine.PointsAreConserved` | src/LinkRuntime.cpp:536-827 | at every point of every interleaving, received = emitted + dropped + queued + superseded + truncated + cleared + handed on + in flight |
| `TargetMachine.QueueStaysBounded` | src/LinkRuntime.cpp:561-683 | whoever can take the lock finds at most maxQueuedPoints points, however rate and latency moved |
| `TargetMachine.OutputFollowsInput` | src/LinkRuntime.cpp:1208-1279 | the real points handed out are an order-preserving, duplicate-free subsequence of those queued, all of them submitted; padding is dark and holds the last real position since a reset; emitted, blank-fill and underrun counters count exactly what went out |
| `TargetMachine.CallbacksHonourRequests` | src/LinkRuntime.cpp:1164-1246 | in every interleaving a callback about to return holds no more than it was asked for, and enough unless a short read was allowed |
| `TargetMachine.RatesStayInRange` | src/LinkRuntime.cpp:1371-1386 | in every interleaving, the output rate and the commanded rate of a target that is not AVB lie between 1000 and the controller's maximum |
| `TargetMachine.LatencyOverRuns` | src/LinkRuntime.cpp:507-509 | in every interleaving latency never decreases, never passes the cap, and is raised a bounded number of times |
| `EtherDream.ReachableStates` | src/virtual_controller/EtherDreamVirtualControllerHost.cpp:978-1197 | in every reachable state: emergency stop implies idle; idle implies an empty buffer and no fraction; the flags match the states; buffer, rate queue and rate are within bounds |
| `EtherDream.NeverPlaysFromIdle` | src/virtual_controller/EtherDreamVirtualControllerHost.cpp:978-998 | no event, the update command included, takes a reachable device from idle to playing |
| `EtherDreamPlayback.PlaybackIsLossless` | src/virtual_controller/EtherDreamVirtualControllerHost.cpp:1299-1363 | since the last prepare: sent + buffer = accepted data; after a stop what was sent is a prefix, after an underflow the whole; the point counter counts what was sent mod 2^32 |
| `EtherDreamPlayback.FlowControlIsSound` | src/virtual_controller/EtherDreamVirtualControllerHost.cpp:1067-1082 | reported fullness plus points accepted since plus n within capacity means never refused for space, whatever came in between; a refusal changes nothing |
| `EtherDreamRates.RatesTakenInOrder` | src/virtual_controller/EtherDreamVirtualControllerHost.cpp:1327-1341 | over runs since the last prepare, the rates taken followed by those queued are the accepted ones in order, one taken per marked point sent while any was queued; the rate in force is the last one taken or that of a later begin or update |
| `EtherDreamRates.SinkIsToldTheRate` | src/virtual_controller/EtherDreamVirtualControllerHost.cpp:1333-1354 | the sink is told the rate in force after the points sent, and taking a rate restarts the clock and the fraction |
| `EtherDreamRates.DrainTakesInOrder` | src/virtual_controller/EtherDreamVirtualControllerHost.cpp:1330-1342 | a drain takes rates off the front, as many as it passes marked points, and the last one is in force |
| `EtherDreamRates.AnswersExactly` | src/virtual_controller/EtherDreamVirtualControllerHost.cpp:978-1173 | on every reachable device, each command is acknowledged, refused for room or refused as invalid exactly when the state says so, and a refused one changes nothing |
| `EtherDreamRates.AcceptedExactly` | src/virtual_controller/EtherDreamVirtualControllerHost.cpp:978-1173 | what each accepted command leaves, on every reachable device |
| `EtherDreamRates.StatusTellsState` | src/virtual_controller/EtherDreamVirtualControllerHost.cpp:1233-1245 | every status response agrees with the device, and its rate with the account of accepted rates |
| `EtherDreamPlayback.PacedByCountedTime` | src/virtual_controller/EtherDreamVirtualControllerHost.cpp:1299-1351 | however ticks are spaced, the total sent at a constant rate is the floor of initial fraction + rate × the whole microseconds of every gap, and underflow comes exactly at the first tick where that exceeds what was given |
| `EtherDreamPacing.PacingLag` | src/virtual_controller/EtherDreamVirtualControllerHost.cpp:1316-1325 | the code forgets the part of each gap below a microsecond: playback never runs ahead of real time, lags by the forgotten time at the current rate, less than ticks × rate millionths of a point, and has sent the floor of initial fraction + rate × elapsed exactly when the fraction reached covers that lag |
| `EtherDreamPacing.WholeGapsDoNotDrift` | src/virtual_controller/EtherDreamVirtualControllerHost.cpp:1316-1325 | when every gap is a whole number of microseconds, what was sent is exactly the floor of initial fraction + rate × elapsed |
| `EtherDreamPacing.PacingDrifts` | src/virtual_controller/EtherDreamVirtualControllerHost.cpp:1316-1325 | an input that drifts: at 100000 points per second and a tick every 10999 ns, n ticks send n points where 1.0999 n are due |
| `EtherDreamPacing.DriftIsReachable` | src/virtual_controller/EtherDreamVirtualControllerHost.cpp:1299-1314 | that device is reached from a new session by prepare, data, begin and a first tick |
| `EtherDreamDevice.VirtualEtherDreamDevice.ReadBegin` | src/virtual_controller/EtherDreamVirtualControllerHost.cpp:978-998 | begin and update act exactly when rate, light engine, playback state and buffer allow it |
| `EtherDreamDevice.VirtualEtherDreamDevice.ReadRateChange` | src/virtual_controller/EtherDreamVirtualControllerHost.cpp:1000-1018 | a rate is queued exactly when it is valid, playback is not idle and the queue has room |
| `EtherDreamDevice.VirtualEtherDreamDevice.ReadDataPayload` | src/virtual_controller/EtherDreamVirtualControllerHost.cpp:1027-1085 | data is appended whole or refused whole, with the answer that says why |
| `EtherDreamDevice.VirtualEtherDreamDevice.HandlePrepare` | src/virtual_controller/EtherDreamVirtualControllerHost.cpp:1104-1123 | the device is prepared and the sink reset exactly when it is ready and idle |
| `EtherDreamDevice.VirtualEtherDreamDevice.HandleStop` | src/virtual_controller/EtherDreamVirtualControllerHost.cpp:1125-1139 | playback stops and the sink is reset exactly when it was not idle |
| `EtherDreamDevice.VirtualEtherDreamDevice.HandleClear` | src/virtual_controller/EtherDreamVirtualControllerHost.cpp:1141-1159 | the light engine is ready again; the buffer and the sink are cleared only when idle |
| `EtherDreamDevice.VirtualEtherDreamDevice.HandleEmergencyStop` | src/virtual_controller/EtherDreamVirtualControllerHost.cpp:1161-1173 | the stop latches and the sink is reset, in every state |
| `EtherDreamDevice.VirtualEtherDreamDevice.ClearSession` | src/virtual_controller/EtherDreamVirtualControllerHost.cpp:1184-1197 | losing the session stops playback and resets the sink |
| `EtherDreamDevice.VirtualEtherDreamDevice.PlaybackTick` | src/virtual_controller/EtherDreamVirtualControllerHost.cpp:1299-1363 | the drain loop does what the tick specification says, with the order of rates, the pacing and the order of points proved about that, and hands the points to the sink |
| `EStopSafety.EmergencyStopHolds` | src/virtual_controller/EtherDreamVirtualControllerHost.cpp:1161-1197 | after an emergency stop has returned, callbacks interleaved at any step hand out only dark points until a clear or new session, a prepare, data and a begin were accepted in that order |
| `EStopSafety.SystemRunIsSafe` | src/virtual_controller/EtherDreamVirtualControllerHost.cpp:1299-1377 | the invariant behind it holds along every run of device, io thread and target threads |
| `LiberaSession.EffectiveLimits` | src/virtual_controller/LiberaProtocolVirtualControllerHost.cpp:421-431 | with a positive configured minimum, which the option parser ensures, the effective rate bounds are positive and ordered, and the minimum is never above the configured one |
| `LiberaSession.RunKeepsInv` | src/virtual_controller/LiberaProtocolVirtualControllerHost.cpp:748-924 | over any records a pending frame is in counted mode and short of its count, and the rate stays within bounds |
| `LiberaSession.PendingSinceMarker` | src/virtual_controller/LiberaProtocolVirtualControllerHost.cpp:815-891 | the frame being assembled holds exactly the points received since its marker |
| `LiberaSession.FrameOrigin` | src/virtual_controller/LiberaProtocolVirtualControllerHost.cpp:851-924 | every delivered frame has its marker's count and is the concatenation of the points since that marker, with no reconfiguration in between |
| `LiberaSession.CountedFrameArrives` | src/virtual_controller/LiberaProtocolVirtualControllerHost.cpp:815-924 | for every split over records, the frame is delivered exactly when some record completes its count, and then once and whole |
| `LiberaSession.SessionState.HandleRecord` | src/virtual_controller/LiberaProtocolVirtualControllerHost.cpp:748-772 | each record has exactly the specified effect on the session and the sink, or ends the session without one |
| `LiberaSession.SessionState.HandlePointsRecord` | src/virtual_controller/LiberaProtocolVirtualControllerHost.cpp:851-891 | points extend, complete or overfill the pending frame, or are streamed, as the record function whose whole-session laws follow |
| `LiberaStreaming.RawStreamArrives` | src/virtual_controller/LiberaProtocolVirtualControllerHost.cpp:866-902 | in a raw stream, the calls to the sink are one per nonempty points record, with its points, at the rate then in force, and one per scanner setting, in order |
| `LiberaStreaming.SessionLosesNothing` | src/virtual_controller/LiberaProtocolVirtualControllerHost.cpp:748-924 | over a whole session in any modes, the points handed to the sink followed by those of the frame under assembly are the points received, unless a configuration cut a frame short |
| `LiberaStreaming.RateIsLastRequest` | src/virtual_controller/LiberaProtocolVirtualControllerHost.cpp:774-849 | the session's rate is the last nonzero one that a configuration or a marker asked for, within the limits, or the opening rate |
| `LiberaStreaming.SubmissionsCarryRateInForce` | src/virtual_controller/LiberaProtocolVirtualControllerHost.cpp:893-924 | whatever is submitted, streamed or as a frame, carries the rate in force |
| `LiberaStreaming.ScannerSettingsArrive` | src/virtual_controller/LiberaProtocolVirtualControllerHost.cpp:800-813 | scanner settings reach the sink in every mode, unchanged and in order |
| `LiberaStreaming.EndsAtFirstRefusal` | src/virtual_controller/LiberaProtocolVirtualControllerHost.cpp:720-891 | a session ends at the first record it cannot honour, stated record by record, and that one changes nothing |
| `LiberaStreaming.OpeningExactly` | src/virtual_controller/LiberaProtocolVirtualControllerHost.cpp:686-720 | mode, channels and rate that a session opens with |
| `LiberaStreaming.LimitsExactly` | src/virtual_controller/LiberaProtocolVirtualControllerHost.cpp:421-431 | the limits are the configured ones, both capped by what the target can do |
| `SessionExclusivity.OneOwner` | src/virtual_controller/LiberaProtocolVirtualControllerHost.cpp:433-443 | in every interleaving at most one session thread is between acquire and release, the flag says whether there is one, and the socket limit holds |
| `SessionExclusivity.SinkCallsByOwner` | src/virtual_controller/LiberaProtocolVirtualControllerHost.cpp:648-746 | every sink call is made by the thread holding the endpoint, which reset the sink first |
| `SessionExclusivity.ReleasedExactlyOnce` | src/virtual_controller/LiberaProtocolVirtualControllerHost.cpp:648-746 | every exit after acquiring releases exactly once |
| `SessionExclusivity.ReleaseFollowsReset` | src/virtual_controller/LiberaProtocolVirtualControllerHost.cpp:648-746 | each release comes straight after a reset of the sink by the same thread |
| `SessionExclusivity.FreeMeansReset` | src/virtual_controller/LiberaProtocolVirtualControllerHost.cpp:648-746 | whenever the endpoint is free the sink has been reset since its last input |
| `PortAllocator.AddPromises` | src/virtual_controller/LiberaProtocolVirtualControllerHost.cpp:1080-1109 | a new server gets the least free port; a present target or a failure changes nothing; running out of ports implies a server for every port |
| `PortAllocator.RemovePromises` | src/virtual_controller/LiberaProtocolVirtualControllerHost.cpp:1111-1131 | removing a target removes its server and no other |
| `PortAllocator.NoPortsMeansFull` | src/virtual_controller/LiberaProtocolVirtualControllerHost.cpp:1062-1078 | pigeonhole: no free port takes at least 65536 − base active servers |
| `PortAllocator.AlwaysAllocated` | src/virtual_controller/LiberaProtocolVirtualControllerHost.cpp:1062-1131 | over any adds and removes, targets and ports stay distinct and ports in range |
| `PortAllocator.ServerSet.NextServerIndex` | src/virtual_controller/LiberaProtocolVirtualControllerHost.cpp:1062-1078 | the double loop finds the least port that no server uses, or none |
| `PortAllocator.ServerSet.AddServer` | src/virtual_controller/LiberaProtocolVirtualControllerHost.cpp:1080-1109 | the list and the answer are those of the specified addition |
| `PortAllocator.ServerSet.RemoveServer` | src/virtual_controller/LiberaProtocolVirtualControllerHost.cpp:1111-1131 | succeeds exactly when the target is served, and takes out its server |
| `HostGroups.GroupingPartitions` | src/LinkRuntime.cpp:2094-2159 | groups have distinct keys and partition the linked controllers by key; grouping fails exactly when some controller's host is not registered |
| `HostGroups.GroupTargets` | src/LinkRuntime.cpp:2094-2159 | the loop with its early return computes the grouping that the following rows describe |
| `HostKeys.SameGroupExactly` | src/LinkRuntime.cpp:2117-2148 | two controllers share a host instance if and only if host, options and instance key agree, the key being the route's, or the controller's own id on a host with an instance each, or the host's id |
| `HostKeys.GroupFollowsRoute` | src/LinkRuntime.cpp:2113-2140 | a group runs on the host its members' routes name, or else the link's or the preferred one, with the route's options and instance key before the defaults |
| `HostKeys.SharedHostIsShared` | src/LinkRuntime.cpp:2133-2138 | without an instance key in their routes, controllers of one shared host under equal options share its instance |
| `HostKeys.SeparateHostsStayApart` | src/LinkRuntime.cpp:2133-2138 | without an instance key in their routes, two controllers of hosts with an instance each never share one |
| `HostKeys.GroupingFailsExactly` | src/LinkRuntime.cpp:2117-2131 | grouping fails exactly when some controller's route, link and preference lead to no registered host |
| `HostKeys.OnlyLastRoute` | src/LinkRuntime.cpp:2094-2100 | a controller's route is the last one that names it, and no other |
| `HostKeys.GroupsKeepOrder` | src/LinkRuntime.cpp:2142-2159 | each group lists all controllers of its key in the order of selection |
| `HostGroups.RoutesByController` | src/LinkRuntime.cpp:2094-2100 | the last route naming a controller wins; routes without an id are ignored |
| `ReconcileGoal.RetargetSucceeds` | src/LinkRuntime.cpp:2219-2247 | a running host is updated in place exactly when it supports that and refuses none of the removals and additions needed |
| `ReconcileGoal.ReconciliationReachesGoal` | src/LinkRuntime.cpp:2167-2303 | after an update exactly the desired groups are served, each by one running host with its key and targets, and nothing else runs, unless a host that must be started or restarted does not come up; then, and only then, everything is stopped and both lists are empty |
| `ReconcileGoal.UnchangedHostsAreLeftAlone` | src/LinkRuntime.cpp:2191-2218 | a host whose key and target set did not change keeps its entry and its instance untouched; a host no group asks for no longer runs |
| `ReconcileGoal.RetargetedHostsGoOn` | src/LinkRuntime.cpp:2219-2270 | a host whose targets had to change goes on with the same instance exactly when it let itself be changed while running; otherwise that instance is stopped |
| `LinkRuns.EachTargetServedOnce` | src/LinkRuntime.cpp:2146-2159 | when the groups are answered, each linked controller is served by exactly one running host |
| `LinkRuns.NoHostIsOrphaned` | src/LinkRuntime.cpp:1971-2728 | along every run of starts, updates, scans and stops, a start over hosts left by a failed update included, whatever hosts answer: between requests no instance runs unlisted, every linked controller is served exactly once, and a link that lists hosts has a monitor thread not yet joined |
| `LinkRuns.StartReachesGoal` | src/LinkRuntime.cpp:2555-2651 | a start whose hosts all come up leaves exactly its own groups served, and the hosts listed before are stopped |
| `LinkRuns.FailedStartUndone` | src/LinkRuntime.cpp:2544-2605 | a start that fails or is cancelled among its hosts stops those and leaves everything listed before as it was |
| `LinkRuns.BothGenerationsRun` | src/LinkRuntime.cpp:2555-2651 | while such a start is under way, a controller linked before and started again is served by two running hosts |
| `LinkRuns.StartOutcome` | src/LinkRuntime.cpp:2306-2678 | a start on any reachable link that is not running replaces the lists exactly when all its hosts come up; it then terminates the process exactly when an earlier monitor thread was never joined, as is always so when hosts were left over |
| `LinkRuns.FailedUpdateThenStart` | src/LinkRuntime.cpp:2086-2092 | the sequence that shows it: a start, an update naming an unknown host, a second start |
| `LinkRuns.UpdateWithoutGroups` | src/LinkRuntime.cpp:2078-2165 | an unknown host only sets the failed state and leaves the hosts running; nothing left to link stops everything |
| `LinkRuntime.LinkRuntime.Update` | src/LinkRuntime.cpp:2078-2303 | the update of the running link in place is the specified transformation and keeps every listed host owning its instance |
| `LinkRuntime.LinkRuntime.ApplyGroups` | src/LinkRuntime.cpp:2167-2303 | the two passes over hosts and groups, with their early exits, compute the specified reconciliation |
| `LinkRuntime.LinkRuntime.StartLink` | src/LinkRuntime.cpp:2306-2678 | the start of a link that is not running is the specified transformation, over whatever hosts are left |
| `LinkRuntime.LinkRuntime.StopLink` | src/LinkRuntime.cpp:2694-2728 | every listed host is stopped, both lists are empty and the monitor thread is joined |
| `AvbRoundTrip.RoundTrip` | src/AvbSettings.cpp:18-100 | loading a saved file gives back both lists in order if and only if every id is nonempty and free of newlines and every rate is in 1..2^32-1; otherwise the file is refused |
| `AvbRoundTrip.OneBadLineRefusesAll` | src/AvbSettings.cpp:60-66 | one malformed line anywhere refuses the whole text |
| `AvbLines.FirstBadLineIsReported` | src/AvbSettings.cpp:40-67 | a refusal names the first malformed line |
| `AvbLines.SkippedExactly` | src/AvbSettings.cpp:42-46 | blank lines and comment lines are skipped, and only those |
| `AvbLines.HalfXYLineExactly` | src/AvbSettings.cpp:49-66 | after the id of a half-XY line nothing but blanks may follow |
| `AvbLines.DeviceAsWritten` | src/AvbSettings.cpp:86-90 | the exact text of a device record, with a quote in its id |
| `AvbRoundTrip.QuotedReadsBack` | src/AvbSettings.cpp:86-93 | a quoted text reads back as itself, with quotes, backslashes and spaces, whatever follows it |
| `AvbSettings.AvbManager.Load` | src/AvbSettings.cpp:18-78 | both lists are replaced by what the text says, or left alone with the number of the first bad line |
| `AvbSettings.AvbManager.Save` | src/AvbSettings.cpp:80-100 | the text written is the specified print of both lists |

## Left out

- Sockets, asio, UDP discovery and announcements, alias commands and interface enumeration: operating-system calls. Records, commands and ticks arrive decoded.
- The IDN host, the point codec, the AVB backend and the controller library: not part of this model. The controller's own frame queue is an accept-or-refuse parameter.
- User interface, packaging, logging, tracing, statistics snapshots and what the monitor thread reports.
- Discovery and connection of controllers in a start (src/LinkRuntime.cpp:2349-2455): the ids that could be connected are a parameter.
- `requestStop` without the stop that follows it: it marks the link and ends the loop of the monitor thread. A start cancelled by it is modelled.
- Restarting the link because controller options changed (src/LinkRuntime.cpp:2014-2027): it is a stop followed by a start, both of which are modelled.
- `LinkRuntime.LinkRuntime.Update`: does not model the sharing of target objects between lists; targets are their ids, host instances are entries of a ledger, and endpoints and display names are not kept.
- `LiberaTarget.LiberaTarget.SubmitContinuous`: does not model the status snapshot in the result; the buffer query it makes afterwards is a `Status` step in the interleaved form, where it can come at any point.
- `LiberaTarget.LiberaTarget.Reset`: does not model clearing the controller's own queues and reinstalling the callback, which are calls into the controller.
- Counters do not wrap at 64 bits.
- `TargetMachine.PointsAreConserved`: takes the two loads inside the target-level computation, the rate update, and the trailing stores of reset as single steps; the counter additions of one announcement are one step too.
- `TargetMachine.CallbacksHonourRequests`: states the request bounds at the point of return; the request of the hardware is a parameter without a model of the hardware.
- `EtherDreamDevice.VirtualEtherDreamDevice.PlaybackTick`: does not model the duration field of the submission, since the rate is given explicitly.
- Version and broadcast packets of the Ether Dream device: fixed formatting without state.
- `SessionExclusivity.OneOwner`: does not model the stop path that closes all sockets and joins the workers.
- `AvbSettings.AvbManager.Load`: works on characters, treats every text as readable, and leaves out the failure of a number too large for 64 bits to be read, which the range check refuses anyway.
