# BuranBrew, modelled and proved in Dafny

BuranBrew keeps a fermenting beer at its setpoint. This project models its three stateful parts
and proves what they promise.

**The fermentation controller** (`host/models/control.py`) filters two temperatures, turns them into
an effort between full cooling and full heating with a PI controller, and turns the effort into pulses
on a heating and a cooling plug whose commands may fail, or take effect and report failure.

| file | content |
|---|---|
| `Settings.dfy` | the configuration and its checks |
| `Ema.dfy`, `PiControl.dfy` | the filter and the PI controller with anti-windup |
| `Actuator.dfy` | windows, plans, lockout, the two-phase plug switch; the plugs and all calls on them |
| `Interlock.dfy` | never both plugs; when the recorded action covers the plugs |
| `Reversal.dfy` | the reversal lockout, for the record and for the plugs |
| `Window.dfy`, `Duty.dfy` | the output window and duty fidelity |
| `Planning.dfy` | the plan as a function of the history of calls |
| `ControlLoop.dfy`, `Program.dfy` | the loop, and what the whole program guarantees |

**The archiver** (`host/telemetry/consumer/main.go`) moves entries of two Redis streams into two
TimescaleDB tables through a consumer group. `Numerals.dfy` and `Telemetry.dfy` hold its parsing, rows
and keys; `Archiver.dfy` is the state machine, one external operation per step, with failures that may
or may not have taken effect and crashes at any point; `ArchiverSafety.dfy`, `ArchiverRows.dfy`,
`ArchiverReplay.dfy` and `ArchiverDrain.dfy` prove its promises; `ArchiverProgram.dfy` is the program,
proved to make the run of the machine that its environment determines.

**The BLE burst observer** (`applications/amnin_sensors/src/ble_observer/observer.c`, gated by
`app_task.cpp`) scans in short bursts between phases of advertising. `Observer.dfy` interleaves API
callers, the Bluetooth receive thread, the timer and the work queue thread in small atomic steps;
`ObserverSafety.dfy`, `ObserverBurst.dfy`, `ObserverReport.dfy` and `ObserverHandoff.dfy` hold the proofs;
`ObserverDevice.dfy` has the functions as written, each proved to be its small steps run without
interruption, and what the calls achieve.

Where the source changes state the model has a class whose methods are proved equal to a function from
the old state to the new one; the theorems are about runs of those functions.

## The environment

- Times, temperatures and efforts are exact reals. The clock is a parameter of every call; theorems that
  need it say that it does not go back.
- A plug command returns, or raises without an effect, or raises with its effect; a command that returns
  took effect, and no effect arrives later. Commands to one plug do not touch the other: the two node
  numbers differ where a theorem says so, which the configuration check does not enforce.
- Streams hand out increasing 64-bit IDs and are not trimmed; there is one consumer name. A group read
  that returns no error has delivered one batch of up to 100 entries for each stream.
- Stopping a scan succeeds. Submitting a queued work item does nothing, a running one is queued again,
  scheduling an already scheduled timeout does nothing, and cancelling it also dequeues it. Advertisements
  may be parsed at any time, even after the scan has stopped; any number of callers may be inside the API.

## Where code and documentation differ

- The comment on the gate policy says that scanning is disabled while advertising is active. A
  commissioning-complete event, or the initial gate of a commissioned device, opens the gate without
  looking at advertising (`PolicyBroken`); `PolicyKeptIff` gives the exact condition.
- "Database conflict handling makes replays idempotent" holds exactly for entries whose timestamp does
  not fall back to the current time (`ReplayIdempotentIff`, `ExactlyOnceIffStable`).
- The recorded action covers the plugs exactly as long as no ON command takes effect and reports failure
  (`RecordCoversIff`); one that does also defeats the lockout at the plugs (`StrandedReversal`), though
  never the interlock. The plugs keep the lockout in runs without such an ON (`PlugLockout`), and in all
  runs only if no idle time is configured (`PlugLockoutIff`).

## Model

| member | source | states |
|---|---|---|
| Settings.Check | host/models/utils.py:48-82 | loading succeeds exactly for the valid configurations, and an error names a condition that is violated |
| Settings.ValidIff | host/models/utils.py:48-82 | a configuration is valid exactly if it violates none of the checked conditions |
| PiControl.PIController.Update | host/models/control.py:42-88 | one update moves the state and returns the decision of the specification |
| PiControl.AlwaysBounded | host/models/control.py:62-88 | over any readings the integral stays within its limit and the effort within [-1, 1] |
| PiControl.IntegralLaw | host/models/control.py:55-81 | in the readings' own times and temperatures: unless a limit is reached or a freeze applies, the integral is its start plus ki/3600 times the sum of error times duration, and the effort is the cut-off sum of the three terms; a gap counts at least zero and at most the maximum, the first reading one period |
| PiControl.ConstantErrorRamps | host/models/control.py:55-71 | however often the readings are taken, a constant error moves the integral in proportion to the elapsed time |
| PiControl.SaturationFreezes | host/models/control.py:73-79 | over any number of updates whose output is saturated in the direction of the error the integral does not move |
| PiControl.WindupRecovery | host/models/control.py:62-81 | from any bounded integral, n too-warm readings with n·ki·eps·d at least 7200·limit reach the lower limit or a low-saturation freeze |
| PiControl.WindupRecoveryCold | host/models/control.py:62-81 | the same for too-cold readings and the upper limit |
| PiControl.MirrorStep | host/models/control.py:62-88 | reflecting both temperatures in the setpoint negates integral and effort |
| Ema.ClosedForm | host/models/control.py:316-320 | the recursive filter is the weighted sum of all of its samples |
| Ema.WeightsAreAverage | host/models/control.py:316-320 | the weights are nonnegative and sum to one |
| Ema.HullAbove | host/models/control.py:316-320 | the filtered value is never below a bound of all samples |
| Ema.HullBelow | host/models/control.py:316-320 | the filtered value is never above a bound of all samples |
| Ema.Contraction | host/models/control.py:316-320 | two filters fed the same n samples differ by (1-alpha)^n times their initial difference |
| Actuator.ChipTool.SetPlug | host/models/utils.py:230-231 | a plug command has the effect its outcome says, and says so except when unconfirmed |
| Actuator.TimeProportionalActuator.Initialize | host/models/control.py:129-137 | startup turns both plugs off or fails, and starts the first window |
| Actuator.TimeProportionalActuator.SetEffortCommand | host/models/control.py:139-150 | clamps and stamps the effort; a stale command restarts the window |
| Actuator.TimeProportionalActuator.AdvanceTo | host/models/control.py:152-159 | moves the window start on by whole windows |
| Actuator.TimeProportionalActuator.MakePlan | host/models/control.py:161-223 | the plan for the advanced window, in all of its branches |
| Actuator.TimeProportionalActuator.TickAt | host/models/control.py:225-242 | switches to the planned action and returns it with its plan; a failed switch leaves the record alone |
| Actuator.TimeProportionalActuator.ForceIdleAt | host/models/control.py:244-263 | switches to IDLE unless IDLE is recorded, and returns the shutdown plan |
| Actuator.TimeProportionalActuator.Switch | host/models/control.py:265-293 | every OFF first, then the ON if every OFF was confirmed, with every command's effect |
| Interlock.SwitchFacts | host/models/control.py:265-293 | whatever the outcomes, a switch keeps the plugs apart and turns on nothing but the wanted one; if it succeeds, exactly the wanted one is on |
| Interlock.SwitchCommands | host/models/control.py:265-293 | the exact commands of a switch for every outcome: both OFFs towards IDLE even if the first fails, an ON only after a confirmed OFF; it succeeds exactly if all are confirmed |
| Interlock.SwitchTellsOthersOff | host/models/control.py:273-285 | whatever fails, every other plug is told to turn off, and is off afterwards unless that command was rejected |
| Interlock.TickTellsOthersOff | host/models/control.py:225-263 | the same for ticks that change the action and for shutdowns |
| Interlock.Interlocked | host/models/control.py:129-293 | over every run and all outcomes: never both plugs on, not even between two commands, and recorded HEAT (COOL) means the cooler (heater) is off |
| Interlock.InterlockIffDistinctNodes | host/models/control.py:265-293 | the interlock holds in all runs exactly if the two configured nodes differ |
| Interlock.TickCoveredIff | host/models/control.py:225-242 | a tick breaks the record exactly by an ON that took effect and reported failure |
| Interlock.RecordCoversIff | host/models/control.py:225-293 | over every run: the record covers all plugs that are on, at all times, exactly if no such ON occurred |
| Interlock.StrandedHeater | host/models/control.py:225-233 | after such an ON, IDLE is recorded with the heater on, and a later tick that plans IDLE leaves it on |
| Interlock.ShutdownLeavesOff | host/models/control.py:244-263 | a shutdown that reports a transition, or finds IDLE recorded over covered plugs, leaves both plugs off |
| Reversal.ReversalLockout | host/models/control.py:201-263 | over every run and all outcomes: completed transitions walk HEAT-IDLE-COOL without repeats, and a reversal completes no sooner than the idle time after the preceding IDLE |
| Reversal.PlugLockout | host/models/control.py:201-293 | over every run without a stranding ON: no plug is on within the idle time of the other having been on, in all commands of the run |
| Reversal.StrandedReversal | host/models/control.py:201-242 | one stranding ON lets the cooler start at the instant at which the heater was on |
| Reversal.PlugLockoutIff | host/models/control.py:201-293 | whatever the plug commands do, the plugs themselves keep the lockout in all runs exactly if the configured idle time is zero |
| Window.AdvancePathIndependent | host/models/control.py:152-159 | advancing to t1 and then t2 is advancing to t2 |
| Window.AdvanceWhole | host/models/control.py:152-159 | the start moves by whole windows and ends less than a window before the clock |
| Window.WindowOfRun | host/models/control.py:139-159 | for every schedule of calls, the start is a single advance from the last anchor to the last plan |
| Window.CommandStamped | host/models/control.py:139-150 | in every run the actuator knows the time of its last command |
| Planning.CommandOfRun | host/models/control.py:139-150 | in every run the commanded effort is that of the last command, cut off at full effort |
| Planning.PlanOfRun | host/models/control.py:139-223 | at any time after any calls and outcomes the plan is the one that the history calls for: stale exactly from the timeout after the last command on, then deadband, minimum pulse, window phase since the last fresh start, and lockout by the completed transitions |
| Duty.OneWindow | host/models/control.py:182-199 | inside one window the on-time of a pulsed plug sampled every delta is within delta of the pulse |
| Duty.HeldTick | host/models/control.py:161-242 | under a held command each tick sets the plug by the phase of its window alone |
| Duty.DutyFidelity | host/models/control.py:152-242 | in every run of calls that holds an effort, over any m windows the requested plug is on for m·effort·window up to m·delta |
| Duty.HeldAfterStart | host/models/control.py:129-150 | the first eligible command after startup meets the premises of duty fidelity |
| ControlLoop.Controller.Update | host/models/control.py:368-420 | one control update, from the readings to both ticks and the plan that the heartbeat reports |
| ControlLoop.Controller.Observe | host/models/control.py:391-402 | filter both readings and let the controller decide on them |
| ControlLoop.Controller.Iterate | host/models/control.py:461-470 | one pass of the loop: tick, and update if it is due |
| ControlLoop.Controller.Run | host/models/control.py:455-476 | startup, any number of passes and the final shutdown |
| ControlLoop.LoopIsRun | host/models/control.py:455-476 | everything the loop does to the actuator is a run of calls, so theorems on runs hold of the program |
| ControlLoop.UpdatesSpaced | host/models/control.py:467-470 | an update starts at least one period after the previous one ended |
| ControlLoop.ScheduleKept | host/models/control.py:457-470 | in every run the next update is due at the start, and then a period after the end of the last due one: every due update happens |
| Program.ProgramSafe | host/models/control.py:455-476 | interlock, walk and lockout after every pass of every run of the program |
| Program.ProgramPlugLockout | host/models/control.py:455-476 | the plugs' own lockout for the program on a clock that does not go back |
| Program.ProgramShutdown | host/models/control.py:473-476 | the final shutdown leaves both plugs off if its OFFs are confirmed and no ON was stranded |
| Program.RecoveryPass | host/models/control.py:139-150 | the first update of the program after an outage starts a window at its own instant, and an eligible effort is planned at once unless locked out |
| Program.LoopFeedsController | host/models/control.py:391-411 | filters and integral are the filter and controller runs over the calibrated readings that the schedule calls for, and the command in force is the decision on the last of them, given at its time |
| Program.Watchdog | host/models/control.py:165-173 | no plug is on later than the last reading plus the stale timeout plus the tick spacing |
| Program.IdleReportMeansOff | host/models/control.py:403-420 | when the heartbeat of an update reports IDLE after a confirmed tick, both plugs are off |
| Program.BeyondEffort | host/models/control.py:62-88 | temperatures far enough beyond the setpoint never give an effort in the wrong direction |
| Program.NeverTheWrongDirection | host/models/control.py:368-420 | if all readings are that far beyond the setpoint, no plan, record or plug command of the run goes in the wrong direction |
| Numerals.ParseDigits | host/telemetry/consumer/main.go:58-65 | parsing a printed number gives it back exactly if it fits 64 signed bits |
| Numerals.ParseIntIff | host/telemetry/consumer/main.go:58-65 | parsing succeeds exactly on signed decimal numerals of numbers that fit 64 bits, and gives their place value |
| Telemetry.RenderParses | host/telemetry/consumer/main.go:62-66 | the milliseconds of an entry ID are read back exactly if they fit 64 signed bits |
| Telemetry.RenderInjective | host/telemetry/sql/schema.sql:11-12 | distinct entry IDs give distinct event IDs |
| Telemetry.TimestampStableIff | host/telemetry/consumer/main.go:56-69 | the timestamp is the same at every processing exactly if the producer's parses or the ID's milliseconds fit |
| Telemetry.ReplayIdempotentIff | host/telemetry/consumer/main.go:76-111 | inserting a well-formed entry again, at whatever time, changes nothing exactly if it is stable |
| ArchiverSafety.RowsExact | host/telemetry/consumer/main.go:80-111 | the table of a list of entries has exactly one row for each well-formed one, and no other |
| ArchiverSafety.StoreRows | host/telemetry/consumer/main.go:80-111 | storing the oldest unacknowledged entry, for the first time or again, keeps a row for each well-formed stored entry and no other rows |
| ArchiverSafety.StepKeeps | host/telemetry/consumer/main.go:117-144 | every operation, with every outcome, and a crash at any point keep the invariant |
| ArchiverSafety.ExactlyOnce | host/telemetry/consumer/main.go:56-144 | at every point of every run entries are acknowledged in order and only once stored; each well-formed stored entry has a row, exactly one if it is stable, and there are no other rows |
| ArchiverRows.RowsCarryEntries | host/telemetry/consumer/main.go:56-111 | in every run each stored control entry has a row exactly if its action is not empty, each stored sensor entry exactly if its value parses; every row carries its entry's time, ID and fields, the producer's time before the ID's |
| ArchiverSafety.PrefixNeverShrinks | host/telemetry/consumer/main.go:117-144 | over any run the stored prefix and the acknowledgements only grow, and rows stay as they are |
| ArchiverSafety.CursorSound | host/telemetry/consumer/main.go:196-208 | whenever the loop follows new entries, nothing is pending in either stream |
| ArchiverReplay.UnstableStoredTwice | host/telemetry/consumer/main.go:67-69 | any unstable well-formed entry, anywhere in its stream, can end up with two rows after one lost reply |
| ArchiverReplay.ExactlyOnceIffStable | host/telemetry/consumer/main.go:56-111 | for every content of a stream, one row per well-formed stored entry holds in all of its runs exactly if all of its well-formed entries are stable |
| ArchiverDrain.CleanReplay | host/telemetry/consumer/main.go:117-144 | in every run, a replay step without errors acknowledges up to 100 entries of each stream and ends the replay exactly if there were none |
| ArchiverDrain.FollowReads | host/telemetry/consumer/main.go:117-144 | in every run a successful read of a following loop hands over the next 100 undelivered entries of each stream |
| ArchiverDrain.DrainsExactly | host/telemetry/consumer/main.go:196-208 | in every run without errors, with entries arriving and the clock moving, the loop follows from exactly one step per batch of the longer backlog plus one on; the backlog is then acknowledged once, in order, and stored |
| ArchiverProgram.Archive.InsertEntry | host/telemetry/consumer/main.go:80-111 | the insert is the machine's insert step; it fails exactly if a well-formed entry's insert fails |
| ArchiverProgram.Archive.Step | host/telemetry/consumer/main.go:117-144 | one read batch makes the run that its environment determines, up to the first failure; it returns an error exactly if an operation failed, and the number of acknowledged messages |
| ArchiverProgram.BatchFailsIff | host/telemetry/consumer/main.go:131-143 | a batch fails exactly if the insert of one of its well-formed messages or one of its acknowledgements fails |
| ArchiverProgram.BatchClocked | host/telemetry/consumer/main.go:56-69 | every insert of a batch is made at the clock of one of its messages |
| ArchiverProgram.Archive.Loop | host/telemetry/consumer/main.go:196-214 | the main loop makes the run of the machine that its environment determines, and ends with that run's cursor and state |
| ArchiverProgram.LoopRuns | host/telemetry/consumer/main.go:196-214 | that run is one of the machine, from loop head to loop head |
| ArchiverProgram.LoopDrains | host/telemetry/consumer/main.go:196-208 | when nothing fails, the program's loop follows new entries exactly after as many iterations as its backlog needs, with entries arriving meanwhile |
| ObserverSafety.GateUnderInterleaving | applications/amnin_sensors/src/ble_observer/observer.c:60-123 | under every interleaving, with the gate closed and a scan on or about to start, a stop is queued, running or about to be submitted; drained, the radio is off |
| ObserverSafety.TimeoutOwnership | applications/amnin_sensors/src/ble_observer/observer.c:60-130 | between handlers a burst is active exactly if its own timeout is scheduled or queued; a timeout handler finds its own burst active and its time over |
| ObserverBurst.TimeoutBringsEnd | applications/amnin_sensors/src/ble_observer/observer.c:60-130 | whenever a scan is on and armed, its end is on its way or its own timeout is scheduled, and expiring when due brings the end |
| ObserverBurst.BurstEnds | applications/amnin_sensors/src/ble_observer/observer.c:60-130 | once a stop or a timeout is queued or running, 13 steps of the work queue end the burst, gate open or closed, under every interleaving |
| ObserverSafety.LogAlternates | applications/amnin_sensors/src/ble_observer/observer.c:60-117 | scan starts and stops alternate; each burst calls back at most once, after its stop, for a sample no older than its recorded start |
| ObserverSafety.AlternationCounts | applications/amnin_sensors/src/ble_observer/observer.c:60-117 | in every prefix of such a log starts lead stops by one exactly while scanning, and callbacks never outnumber stops |
| ObserverReport.TeardownReports | applications/amnin_sensors/src/ble_observer/observer.c:60-85 | in every run, whatever is interleaved, the teardown of an active burst ends its log with its callback exactly if the last decoded sample is no older than its recorded start |
| ObserverReport.History | applications/amnin_sensors/src/ble_observer/observer.c:87-153 | the recorded start and the time of the sample are the times at which the run recorded and decoded them |
| ObserverReport.TimeoutWithinFiveSeconds | applications/amnin_sensors/src/ble_observer/observer.c:108-117 | a scheduled timeout lies five seconds or more after its burst's start and at most five seconds ahead |
| ObserverReport.ClosedGateStopsTriggers | applications/amnin_sensors/src/ble_observer/observer.c:187-193 | no run with a closed gate ever queues a start |
| ObserverSafety.StepKeeps | applications/amnin_sensors/src/ble_observer/observer.c:60-193 | every atomic step of every thread keeps the invariant behind the above |
| ObserverHandoff.QuietStays | applications/amnin_sensors/src/ble_observer/observer.c:87-98 | a closed and silent observer stays silent through triggers, adverts and timeouts |
| ObserverHandoff.SilentWithin18 | applications/amnin_sensors/src/ble_observer/observer.c:60-193 | with the gate closed, 18 steps of the work queue silence the radio whatever the other threads do short of opening it |
| ObserverHandoff.AdvertisingHandoff | applications/amnin_sensors/src/app_task.cpp:81-108 | from the start of advertising to the next opening event: the radio falls silent within 18 work queue steps and stays so |
| ObserverHandoff.GateOfRun | applications/amnin_sensors/src/app_task.cpp:81-108 | in every run the device's gate is what the events handled so far make of it |
| ObserverHandoff.GateOpenIff | applications/amnin_sensors/src/app_task.cpp:81-108 | in every run the gate is open exactly if commissioning, an end of advertising when commissioned, or the initial gate when commissioned has opened it and no event has closed it since |
| ObserverHandoff.PolicyKeptIff | applications/amnin_sensors/src/app_task.cpp:73-108 | in every run with advertising active the device's gate is closed exactly while no event has reopened it blindly, and then the radio falls silent within 18 work queue steps |
| ObserverHandoff.PolicyBroken | applications/amnin_sensors/src/app_task.cpp:84-86 | a run from boot that ends with the radio scanning while advertising is active |
| ObserverDevice.TiltObserver.BurstStop | applications/amnin_sensors/src/ble_observer/observer.c:60-85 | the teardown is its small steps in order |
| ObserverDevice.TiltObserver.StartWorkHandler | applications/amnin_sensors/src/ble_observer/observer.c:87-117 | the start handler is its small steps, on every exit |
| ObserverDevice.TiltObserver.StopWorkHandler | applications/amnin_sensors/src/ble_observer/observer.c:119-123 | the stop handler is a teardown |
| ObserverDevice.TiltObserver.TimeoutWorkHandler | applications/amnin_sensors/src/ble_observer/observer.c:125-130 | the timeout handler is a teardown |
| ObserverDevice.TiltObserver.AdParse | applications/amnin_sensors/src/ble_observer/observer.c:133-153 | a decoded sample is stored and a stop submitted |
| ObserverDevice.TiltObserver.Enable | applications/amnin_sensors/src/ble_observer/observer.c:177-185 | sets the gate; closing it submits a stop |
| ObserverDevice.TiltObserver.Trigger | applications/amnin_sensors/src/ble_observer/observer.c:187-193 | submits a start only through an open gate |
| ObserverDevice.TiltObserver.GetTilt | applications/amnin_sensors/src/ble_observer/observer.c:195-206 | the stored sample exactly if it is at most ten minutes old |
| ObserverDevice.SampleIsLatest | applications/amnin_sensors/src/ble_observer/observer.c:133-153 | over every run the stored sample is the last one decoded, at its time |
| ObserverDevice.DisableSilences | applications/amnin_sensors/src/ble_observer/observer.c:177-185 | 18 work queue steps after a disable call in any reachable state the radio is silent |
| ObserverDevice.SampleEndsBurst | applications/amnin_sensors/src/ble_observer/observer.c:133-153 | a decoded sample is stored with its time and its burst is over 13 work queue steps later |
| ObserverDevice.TriggerStartsBurst | applications/amnin_sensors/src/ble_observer/observer.c:87-117 | a trigger through an open gate on an idle observer starts a burst with a timeout five seconds ahead |

## Left out

- ArchiverProgram.Archive.Loop: entries arrive before the read of each iteration; in the state machine, about which the promises are proved, they arrive between any two operations.
- Duty.DutyFidelity: measures the plug on the tick clock; how long a command takes is not modelled.
- Program.Watchdog: needs the OFF commands of the last tick to be confirmed; a plug that cannot be reached cannot be promised off.
- ObserverHandoff.SilentWithin18: counts steps of the work queue thread, as ObserverBurst.BurstEnds does; how long the scheduler lets it or the timer wait is not modelled.
- Interrupts: the program is stopped between passes; an interrupt in the middle of a switch, or an exception that the loop does not catch, is not modelled.
- Rounding of floating-point numbers, and wrap-around of the 64-bit uptime.
- The telemetry the controller emits, its gravity reading beyond the time it takes, and its logging.
- Command-line calls to the plugs and sensors, parsing of their output, and loading of configuration files.
- The float grammar of the "value" field: an entry carries the result of that parse.
- A database that rejects a value for its column for ever: it is a sequence of failures here, and replay without errors is what drains.
- Retries inside client libraries, creation of streams and consumer groups, trimming by maximum length, several consumer names.
- The lock around the sample: storing and reading it are single steps.
- Decoding of the Tilt advertisement and conversion of the ambient sensor, finite arithmetic on 16-bit values.
- Writing the sample to the Matter attributes, the ambient report and the report timer: a trigger may come at any time.
- Generated Matter code, dashboards, alert rules, the simulator and the deployment scripts.
