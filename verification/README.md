# GPS tracker firmware: a verified model of the control plane

The firmware is one main thread that wakes, registers with the network, gets a fix, reports it and
sleeps; interrupts, a work queue and a timer that produce events for it; and a hardware watchdog
that resets the board when nobody feeds it. This project models that control plane in Dafny and
proves what it guarantees over whole runs and over all interleavings.

Three kinds of model are used.

* **The program.** `Tracker.Tracker` is `main.c` as a class: its static variables, and the objects
  for the modules it works with (`Watchdog.Watchdog`, `Receivers.Gnss`, `CloudLink.Cloud`,
  `Assistance.Agnss`, `Motion.Accelerometer`). Every method is proved equal to a function from the
  state before to the state after (`MainLoop`, `Receivers`, `CloudLink`, `Assistance`). Whatever the
  environment decides - answers of libraries and drivers, how long they take, jolts, external
  power - is in the *script* of a cycle, so a statement about all scripts is a statement about all
  runs.
* **Runs.** `MainTiming`, `MainStretches`, `MainSilence`, `MainReceivers`, `MainSettle`,
  `MainFrequent`, `MainNetwork`, `MainAssistance`, `MainCloud` and `MainSearch` prove properties of
  these functions for any number of cycles and any configuration. `Tracker.BootAndRun` carries the
  watchdog theorem back to the class.
* **Interleavings.** `Wake`, `Motion` and `FixHandoff` take every atomic load, store, give, reset
  and take as a step of its own and quantify over all traces. `Breadcrumb` does the same for the
  stores that a reset may cut between, and `StatusLed` for the calls and the work handler.

`Format`, `Telemetry` and `TelemetryLimits` model the report's text: a printer, a parser that undoes
it, and exact length bounds. `JsonGrammar` is the grammar of RFC 8259, `JsonPayload` decides for
which reports the text keeps to it, and `JsonEnvelope` is the message around it. `Battery` is the
discharge curve.

Configuration values are symbolic (`TrackerConfig.Config`); the Kconfig defaults appear only in
`TrackerConfig.DEFAULTS` and the lemmas that discharge the conditions for them. Calls without a
configured timeout (boot, drivers, a mode change of the modem, one message) get a symbolic bound
(`TrackerConfig.Bounds`) that only the timing results use.

## Where the code and its prose differ

The model follows the code.

* `motion.c:77-81` says a torn read can only make a surge look shorter. Across a 2^32 ms boundary
  it can lie above the true stamp: `Motion.TornBounds`, `Motion.BoundaryReadIsLate`.
* `wake.h:38-39` says TIMER means the full time elapsed. A signal half raised when the wait begins
  can return TIMER at once: `Wake.StraddleBreaks`, and exactly then:
  `Wake.PromiseExactlyWhenNoneHalfRaised`.
* `gnss_modem.c:46-52` stores invalid frames too, so the modem path can return one
  (`FixHandoff.OnlyTheModemReturnsInvalid`): exactly when, between the newest give and the copy,
  frames were stored and the last of them is invalid (`FixHandoff.ReturnedFix`).
* The Kconfig text calls the battery full "at or above" the threshold; `main.c:161` is a strict `>`.
  It shows for a battery right at the threshold, and only then: `StatusLed.StrictnessShowsExactly`,
  `StatusLed.DefaultThresholdWindow`.
* `main.c:408-413` says a wake by power restarts the settle count even if power has gone away again.
  A jolt stored after power's signal takes its place as the reason, and the count is not restarted:
  `MainSettle.WakeByPowerRestartsExactly`, `MainSettle.JoltHidesPower`.
* `main.c:230-242` speaks of re-establishing a stale session, but `cloud_resume()` does nothing while
  the link is connected, so the payload is simply posted again: `MainCloud.RetryFromConnected`. A
  report makes a new session exactly when its first answer is stale, the credentials are there, and
  the link is neither connected nor a paused one that resumes: `MainCloud.SendOutcome`.
* The silence check runs only at the top of a cycle, so the frequent loop can be silent for any
  length of time: `MainSilence.PoweredSilenceGrows`.
* `wake_uptime_ms` is cut to 32 bits while uptime has 64, so the awake time is wrong in cycles that
  start more than 2^32 ms after boot: `TelemetryLimits.AwakeFieldExactlyRight`.
* `watchdog.c:28-33` takes the magic for a sign of a retained phase. A reset between the two stores
  of a cold boot, or a loss of power the magic survives, makes a boot report an arbitrary word as
  the phase: `Breadcrumb.UnwipedBootReportsRubbish`, and exactly then:
  `Breadcrumb.ReportedValueExactly`.
* `telemetry.c:71-76` prints that word into 16 bytes, which hold six characters of it and the
  separator. From seven on the separator is cut, from eight on the payload is no JSON:
  `Telemetry.WdtUntruncatedExactly`, `JsonPayload.PayloadIsJson`, `JsonPayload.SomeReportIsNoJson`.
  This is for an enum as wide as an int (`Breadcrumb.AsInt`). A compiler that packs the enum into a
  byte keeps the low byte of the word, and then no payload breaks:
  `Breadcrumb.ByteValueExactly`, `JsonPayload.ByteEnumIsHarmless`.
* `app/README.md` and the Kconfig give different defaults for the battery flash; the flash times are
  symbolic here.

## Model

| member | source | states |
|---|---|---|
| MainTiming.NeverReset | app/src/main.c:404-596 | in every run whose calls keep to their timeouts, budgets and bounds, the time since the last feed never reaches the watchdog timeout, if the configuration is covered |
| MainTiming.CoveredMeansShorter | app/src/watchdog.c:17-18 | the condition on the configuration (margin against everything awake and unfed before a sleep, timeout against everything else) holds exactly when the longest unfed stretch is below the timeout |
| MainTiming.DefaultsCovered | app/src/watchdog.c:17-18 | the Kconfig defaults meet it: 685 s against 840 s |
| MainTiming.StaysWithinLongest | app/src/main.c:404-596 | for every configuration, no timely run goes longer without a feed than the longest stretch |
| MainStretches.CoveredExactly | app/src/watchdog.c:17-18 | with everything compiled in, no timely run lets the watchdog time out exactly when the configuration is covered, so the condition is also necessary |
| MainStretches.LongestIsExact | app/src/main.c:404-596 | the longest stretch is the maximum: a duration without a feed is reached by some timely run exactly when it is at most that |
| MainStretches.NoNetworkStretchIsMet | app/src/main.c:274-307 | the stretch without a network is reached by a timely cycle that restarts the modem and is not registered in time, from every state that calls for the restart |
| MainStretches.NoNetworkIsReached | app/src/main.c:425-433 | and some timely run from boot comes to such a cycle |
| MainStretches.NoReceiverIsReached | app/src/main.c:449-458 | a timely first cycle whose receivers both fail reaches the stretch with the warm-up, a pause and a sleep |
| MainStretches.SearchesAreReached | app/src/main.c:461-511 | a timely first cycle without a fix reaches both windows, the wait between them and the unguarded stop before the last download; and the window after that download |
| MainStretches.FirstReportIsReached | app/src/main.c:513-531 | a timely first report reaches settling, message and location, or settling and two driver times |
| MainStretches.PassIsReached | app/src/main.c:545-573 | two passes of the frequent loop reach the fix wait, the interval and the driver times between two feeds |
| MainStretches.PassReportIsReached | app/src/main.c:545-573 | one pass reaches the fix wait, a message and the location |
| MainStretches.LeaveIsReached | app/src/main.c:587-595 | leaving the loop reaches the fix wait, a pause and a sleep |
| MainStretches.DefaultsMeetTheBound | app/src/watchdog.c:17-18 | with the defaults 685 s is reached and not a millisecond more |
| MainTiming.AcquireTiming | app/src/main.c:461-511 | a whole fix attempt, with its fallback and downloads, and the receiver's stop before each download's guard, keeps the bound |
| MainTiming.ReportTiming | app/src/main.c:195-259 | a report whose payload fits ends fed, one whose payload does not adds only driver time, and its retry stays covered |
| MainTiming.LoopTiming | app/src/main.c:545-573 | the frequent loop keeps the bound for any number of passes, and leaves with at most one fix wait unfed |
| Tracker.BootAndRun | app/src/main.c:349-599 | the same for the imperative program: boot and any number of cycles never let the watchdog time out |
| MainSilence.OneRestartPerSilence | app/src/main.c:274-307 | between any two modem restarts of a run lies an accepted report, and a restart comes only between the recovery and the reboot time of a silence |
| MainSilence.ChecksExactly | app/src/main.c:274-307 | each cycle restarts the modem exactly in the first check of a silence between the recovery and the reboot time, reboots exactly when both have passed, and remembers the restart exactly as long as the silence lasts |
| MainSilence.RebootFollowsRestart | app/src/main.c:283-306 | if boot and every cycle are shorter than the recovery time and than the reboot-minus-recovery gap, every reboot follows a modem restart in the same silence |
| MainSilence.SilenceIsBounded | app/src/main.c:276-292 | at every moment the silence is below the reboot time plus the longest cycle |
| MainSilence.PoweredSilenceGrows | app/src/main.c:545-573 | without a bound on cycles there is none on silence: powered and without a fix, it grows by the interval a pass with no restart and no reboot |
| MainSilence.CycleGrows | app/src/main.c:244-248 | apart from the check at its top, a cycle only ever appends accepted reports, in order, and last_send_uptime is the latest of them |
| MainReceivers.SleepsInSilence | app/src/main.c:587-595 | over whole runs: at every step the UART is active only while the module is powered and only the active receiver runs, and at all three battery sleeps none runs, exactly when in no cycle an ignored fault hits a call that mattered; and with POWER_CYCLE, whatever else fails, the module is off in every one exactly when no switch failed that was to take it off |
| MainReceivers.CycleExactlyQuiet | app/src/main.c:404-596 | one cycle from a tidy start is safe at every step and silent at its sleep exactly unless a suspend fails that takes back a UART resume, a suspend fails in a fallback that happens, or the final stop fails on the receiver that runs |
| MainReceivers.CycleExactlyUnpowered | app/src/gnss_ext.c:140-197 | with POWER_CYCLE, whatever else fails, the module is on at the sleep exactly when the switch failed that was to take it off - undoing the start, in the fallback, or at the end - or it was on before and nothing was to |
| MainReceivers.CycleRecords | app/src/main.c:427-432 | every cycle that goes on ends in exactly one battery sleep, which shows the hardware as the cycle leaves it |
| MainReceivers.CalmRunsKeep | app/src/gnss_ext.c:172-193 | a run without any failing suspend or modem stop meets the first condition; one that starts with the module off and has no failing switch meets the second, whatever its suspends and stops return |
| MainReceivers.ParkExactlyQuiet | app/src/gnss.c:88-98 | at the end of a cycle the receivers are silent exactly when the stop of the one that ran took effect |
| Receivers.ExtStopExactlySafe | app/src/gnss_ext.c:183-197 | stopping the external module is safe at every step exactly unless a UART suspend fails and the supply is then cut |
| Receivers.StartExactlySafe | app/src/gnss.c:66-86 | starting from silence is safe at every step exactly unless it has to take back a UART resume and that suspend fails |
| Receivers.StartOutcome | app/src/gnss_ext.c:140-181 | unless a suspend fails that takes back a UART resume, success means the active receiver runs alone and failure that nothing runs and the modem was tried last |
| Receivers.StartSupply | app/src/gnss_ext.c:140-181 | whatever fails, `powered` tells the supply, the external module is active after a start exactly when it came up, and one that had to be undone is on exactly when the switch failed |
| Receivers.StopSupply | app/src/gnss_ext.c:183-197 | whatever the suspend returned, a stop cuts exactly the supply of an active external module, with POWER_CYCLE and a switch that works |
| Receivers.FallbackSupply | app/src/gnss.c:133-157 | a fallback always cuts it, unless the switch fails, and leaves the modem active |
| Receivers.StopExactlyQuiet | app/src/gnss.c:88-98 | a stop is safe at every step and leaves nothing running exactly when it takes effect on the receiver that runs |
| Receivers.FallbackExactlySafe | app/src/gnss.c:133-157 | falling back is safe at every step exactly when the UART suspend takes effect; it then leaves the modem running or nothing |
| Receivers.BounceSafe | app/src/agnss.c:203-238 | stopping and restarting the modem's receiver around a download stays safe whatever fails |
| Receivers.BootIsQuiet | app/src/gnss.c:39-64 | everything off, and the external module in charge exactly when it came up |
| Receivers.Gnss.constructor | app/src/gnss.c:39-64 | boot leaves nothing powered, the external module active exactly when usable |
| Receivers.Gnss.SetPower | app/src/gnss_ext.c:91-101 | `powered` follows the supply only when the GPIO call succeeds |
| Receivers.Gnss.StartExternal | app/src/gnss_ext.c:140-181 | supply, warm-up, UART, pipe in that order, each failure undone |
| Receivers.Gnss.StopExternal | app/src/gnss_ext.c:183-197 | UART first, then the supply |
| Receivers.Gnss.StartReceiver | app/src/gnss.c:66-86 | the arbiter's start refines `Receivers.Start`, hardware history included, and says whether it paid the warm-up |
| Receivers.Gnss.StopReceiver | app/src/gnss.c:88-98 | the arbiter's stop refines `Receivers.Stop` |
| Receivers.Gnss.FallBack | app/src/gnss.c:133-157 | the arbiter's fallback refines `Receivers.Fallback`: power down always, then the modem |
| Receivers.Gnss.SetModem | app/src/gnss_modem.c:99-152 | the modem's receiver starts or stops unless the call fails |
| MainSettle.ThresholdSleepsAreUnarmed | app/src/main.c:314-347 | battery_sleeps is the smaller of the threshold and the sleeps since power was last seen; after each sighting exactly the threshold's number of sleeps are unarmed, and from boot none |
| MainSettle.CycleDecidesExactly | app/src/main.c:314-347 | the sleep that ends a cycle watches for jolts exactly when the count before the cycle, or 0 if power woke the tracker or a pass of the loop it entered found it, has reached the threshold; otherwise it is counted; it is armed accordingly unless the accelerometer cannot be set, and then as the passes that found power left it |
| MainSettle.FirstSleepArmsExactly | app/src/main.c:309-330 | the first sleep after boot is armed exactly when the accelerometer is there and takes the call, wake-on-motion is compiled in, and the loop found no power, or no cycle has to settle |
| MainSettle.LoopObservesExactly | app/src/main.c:548-558 | the loop restarts the count exactly when one of the passes it makes finds power |
| MainSettle.PassObservesExactly | app/src/main.c:548-558 | such a pass disarms the interrupt, unless the trigger call fails, and every other one leaves count and interrupt alone |
| MainSettle.ArmedAsDecided | app/src/motion.c:164-180 | when the trigger call of each sleep succeeds, every sleep is armed as decided, whatever happened in between |
| MainSettle.SleepObeysExactly | app/src/main.c:329-330 | one sleep is armed as decided exactly when it already was or the accelerometer takes the change |
| MainSettle.WakeByPowerRestartsExactly | app/src/main.c:408-413 | composed with the wait: the settle count restarts at the top of a cycle exactly when the sleep was ended by a signal and the last one stored since it began is power's |
| MainSettle.JoltHidesPower | app/src/main.c:408-413 | the interleaving in which power is signalled in time and the count is not restarted |
| MainFrequent.LoopEnds | app/src/main.c:545-573 | once power stays away and jolts stop, at most ceil(SURGE / INTERVAL) more passes start and the loop is left |
| MainFrequent.WindowRunsOut | app/src/main.c:109-119 | the measure: n passes fit only into what is left of the surge window |
| MainFrequent.LeavesOnlyWhenOver | app/src/main.c:540-573 | the loop is left only at a check with power absent and no motion cycle, no jolt on record, or the last one at least SURGE old |
| MainFrequent.GoesOnExactly | app/src/main.c:545-545 | each further pass happens exactly when its check finds power or an open surge window |
| MainFrequent.EntersExactly | app/src/main.c:540-595 | a cycle that comes so far enters the loop exactly when power is present, or it was woken by motion and the last jolt is younger than SURGE; entered, it parks when the loop is left or the run ends in it, and otherwise it parks at once |
| MainFrequent.PassesExactly | app/src/main.c:540-558 | with a first check that still calls for it, the cycle then makes at least one pass, an interval long, and otherwise only takes the time of the stop, the pause and the sleep |
| MainNetwork.RegistersExactly | app/src/main.c:76-101 | a cycle that does not reboot starts a receiver exactly when the modem is registered or registers within the timeout; refused, late or never, it ends after exactly the wait in one sleep, with receivers, session and assistance as they were |
| MainNetwork.StartsAfterTheWait | app/src/main.c:427-457 | and a registration in time delays the receiver by no more than it took |
| MainAssistance.EveryCycleIsRationed | app/src/main.c:469-510 | every cycle of every run makes at most two fetch calls, and at most one injects if its fix attempt is shorter than MIN_INTERVAL, even when the restart after an injection fails |
| MainAssistance.AssistanceIsRationed | app/src/agnss.c:109-125 | over whole runs, at most floor(W / MIN_INTERVAL) + 1 injections in any window W, and in all at most twice as many fetch calls as cycles |
| MainAssistance.AtMostOneInjects | app/src/main.c:469-510 | the same of one fix attempt, from any state whose stamps are spaced |
| Assistance.FetchKeepsSpacing | app/src/agnss.c:203-238 | stamps of successive injections stay MIN_INTERVAL apart; success means exactly one new stamp, made at the end of the download |
| Assistance.StampKeepsSpacing | app/src/agnss.c:197-197 | only successes are stamped, and a call that was not rate-limited may stamp |
| Assistance.InjectsExactly | app/src/agnss.c:109-238 | a call stamps exactly when nothing was fetched yet or the last injection is MIN_INTERVAL old, the receiver asked or the full request is the fallback, and the injection works; it succeeds exactly when the receiver also restarts; not due, it leaves clock, receiver and stamps alone |
| Assistance.WindowBound | app/src/agnss.c:109-125 | any window W holds at most floor(W / MIN_INTERVAL) + 1 stamps |
| Assistance.Agnss.Download | app/src/agnss.c:130-201 | fetch and inject under the guard, stamped on success |
| Assistance.Agnss.FetchNow | app/src/agnss.c:203-238 | the whole bracket refines `FetchAndInject`: rate limit, stop, guarded fetch, restart; it succeeds exactly when the call is due, injects and restarts the receiver |
| MainSearch.GivesUpOnlyAfterFullWindows | app/src/main.c:476-510 | a cycle without a fix took all the windows it was entitled to, and made a last call for assistance if it could |
| MainSearch.FindsExactly | app/src/main.c:461-511 | a fix attempt has a fix exactly when one arrives in the first receiver's window, in the onboard window after a fallback, or in the window after a last call that injected and restarted the receiver; with the exact number of fetch calls and the exact time, for every script |
| MainSearch.ReportedExactlyWhenDue | app/src/main.c:513-530 | the first report reaches the wire exactly when payload and envelope fit and there is a fix, or the build reports without one |
| MainSearch.PassReportsExactly | app/src/main.c:558-572 | likewise each pass of the frequent loop |
| MainSearch.FirstReportTakes | app/src/main.c:513-531 | the fix settles only if there is one, and no longer than a better one takes to come; then the report takes its time if it is due |
| MainSearch.PassTakes | app/src/main.c:557-572 | a pass takes the interval, the wait for its fix, and its report if it is due |
| MainSearch.CycleReportsExactly | app/src/main.c:404-531 | and a whole cycle that does not enter the loop: it posts nothing without a network or a receiver |
| MainCloud.SendOutcome | app/src/main.c:228-242 | a report sends once, and twice exactly when the first answer was stale and the link could be had; each sending is a posting unless its envelope is too large, it succeeds exactly when a posting was taken, and it makes a handshake exactly when its first answer was stale, credentials are there and the link is neither connected nor a paused one that resumes |
| MainCloud.RetryFromConnected | app/src/cloud_nrf.c:168-170 | from a connected link the retry posts again with no handshake |
| MainCloud.OnlyAcceptanceCounts | app/src/main.c:244-248 | last_send_uptime moves exactly when the payload fits and is taken |
| MainCloud.AcceptsExactly | app/src/main.c:228-248 | in every build, Hologram and the bench ones included, it moves exactly when the first answer is 0, or is -EACCES or -ENOTCONN and the link can be had again and the second answer is 0; and to that moment, before the location is sent |
| MainCloud.ReportTakes | app/src/main.c:219-258 | a report takes exactly its sendings, the resume between them, and the location, which is sent exactly for an accepted report with a fix; it ends fed exactly when its payload fits |
| MainCloud.CycleEndsPaused | app/src/main.c:587-595 | a cycle that tracks with a connected session makes no handshake and ends paused exactly when the session can be kept open and the pause is answered with 0, and connected otherwise |
| MainCloud.SessionSurvives | app/src/cloud_nrf.c:150-224 | so a session outlives any number of cycles without a handshake if every pause works and every resume is answered with 0, connected whenever a cycle tracks and paused whenever it sleeps |
| MainCloud.HandshakesAreEarned | app/src/cloud_nrf.c:150-224 | over whole runs, a handshake after a successful one needs a successful pause and then a failed resume |
| CloudLink.ResumeOutcome | app/src/cloud_nrf.c:150-199 | cloud_resume() returns 0 exactly when it leaves the link connected, with no handshake if it was connected or resumed and one otherwise |
| CloudLink.ConnectedIsLeftByPauseOnly | app/src/cloud_nrf.c:201-224 | resuming and sending keep a connected link; only a pause that succeeded leaves it |
| CloudLink.PausesExactly | app/src/cloud_nrf.c:201-224 | online, cloud_pause() pauses exactly a connected session that can be kept open and whose pause is answered with 0, and changes nothing otherwise |
| CloudLink.SendsExactly | app/src/cloud_nrf.c:231-274 | a payload is posted exactly when its envelope fits and the build is not offline; online the answer is never positive, a CoAP response code becoming -EIO |
| CloudLink.PausedResumesExactly | app/src/cloud_nrf.c:172-198 | a paused session is connected again with no handshake exactly when its resume is answered with 0; otherwise exactly one handshake follows and decides |
| CloudLink.ClockIsAwaitedOnce | app/src/cloud_nrf.c:68-90 | the modem's clock is waited for exactly before a handshake, within the configured time, and once known stays known |
| CloudLink.OtherBuilds | app/src/cloud_nrf.c:150-163 | over every run of the other builds: offline nothing reaches the wire, with Hologram only postings do, and without LTE every resume is refused |
| CloudLink.HistoryIsLawful | app/src/cloud_nrf.c:150-224 | over every sequence of calls the wire history keeps to the protocol and determines the link |
| CloudLink.NewHandshakeNeedsFailedResume | app/src/cloud_nrf.c:172-181 | the same conclusion for every sequence of calls, whatever the caller |
| CloudLink.ModemTimeWait | app/src/cloud_nrf.c:68-89 | polls every three seconds, a feed each, until the clock answers or the wait is over; what it took |
| CloudLink.Cloud.ResumeLink | app/src/cloud_nrf.c:150-199 | cloud_resume() changes state and wire history as `CloudLink.Resume` says |
| CloudLink.Cloud.PauseLink | app/src/cloud_nrf.c:201-224 | cloud_pause() changes them as `CloudLink.Pause` says; online it pauses exactly a connected session that can be kept open and whose pause works |
| CloudLink.Cloud.SendTelemetry | app/src/cloud_nrf.c:261-274 | -ENOMEM and nothing on the wire if the envelope is too large, else a posting and its normalized answer |
| Watchdog.GuardCoversBudget | app/src/watchdog.c:51-60 | a call that returns within its budget never sees a gap above 30 s |
| Watchdog.GuardRunsOut | app/src/watchdog.c:132-143 | a call that outlives the guard is reset at least the budget and less than budget + 30 s, each plus the timeout, after arming; a budget of 0 included |
| Watchdog.GuardResetsExactly | app/src/watchdog.c:132-143 | a guarded call is reset exactly when it outlasts its budget, in whole periods of 30 s, by the timeout |
| MainTiming.ResumeResetsExactly | app/src/main.c:443-445 | so is a reconnect that hangs, in the loop's own guard |
| MainTiming.DownloadResetsExactly | app/src/agnss.c:226-231 | and a download that hangs, in its guard |
| MainStretches.HangingCycleIsReset | app/src/main.c:443-445 | and whatever comes later in the cycle does not undo it |
| Watchdog.Watchdog.GuardExpiry | app/src/watchdog.c:51-60 | one expiry: feed while the budget lasts, else stop |
| Watchdog.Watchdog.GuardStart | app/src/watchdog.c:132-137 | arms for DIV_ROUND_UP(budget, 30) feeds and feeds once; every caller proves no guard is running |
| Watchdog.Watchdog.GuardStop | app/src/watchdog.c:139-143 | stops the timer and feeds; no expiry can follow |
| Watchdog.Watchdog.Blocked | app/src/watchdog.c:51-62 | the feeds of the running timer are exactly those of the closed form, at 30 s, 60 s, ..., whether or not the call outlives the budget |
| Watchdog.Watchdog.GuardedCall | app/src/main.c:443-445 | a guarded call feeds once at its start, by the timer, and once at its end |
| Breadcrumb.BootReportsLastMark | app/src/watchdog.c:67-87 | after a reset with RAM retained the next boot reports the last phase stored, after losing the magic none |
| Breadcrumb.ReportedValueExactly | app/src/watchdog.c:67-87 | over any sequence of boots and resets cut at any store, the reported value is one of 0..14 exactly unless this is the first boot to finish since power came up, the magic was there nevertheless (it survived, or an earlier boot was cut between its two stores), and the word found is above 14; that word is then reported |
| Breadcrumb.ReportIsSticky | app/src/watchdog.c:145-153 | marks do not change what this boot reports |
| Breadcrumb.CodesNumberPhases | app/src/watchdog.h:24-41 | each phase is sent as its own number |
| Breadcrumb.UnwipedBootReportsRubbish | app/src/watchdog.c:81-86 | both runs that report an arbitrary word: the cut, and the magic that survives a loss of power |
| Breadcrumb.Marker.PhaseInit | app/src/watchdog.c:67-87 | the two steps of the trace model, one after the other |
| Breadcrumb.Marker.SetPhase | app/src/watchdog.c:145-148 | one mark of the trace model |
| Wake.WaitOutcome | app/src/wake.c:24-37 | over all interleavings: by timeout, the full time elapsed and nobody gave; otherwise the reason is the last one stored since the wait began, TIMER only after a signal half raised at that point |
| Wake.NoSignalLost | app/src/wake.c:18-22 | a signal stored and given in time always ends the wait with a reason other than TIMER |
| Wake.WaitEndsExactly | app/src/wake.c:24-37 | taking, a wait goes through exactly when somebody gave since its reset; waiting, the next give ends it at once and the timeout can from its deadline on; and then it can return |
| Wake.PromiseExactlyWhenNoneHalfRaised | app/src/wake.h:38-39 | TIMER means the full time in all continuations exactly when no signaller is between its store and its give |
| Wake.StraddleBreaks | app/src/wake.c:24-37 | the run that breaks it otherwise |
| Wake.StaleSignalsDoNotMatter | app/src/wake.c:26-29 | signals completed before a wait never change its outcome |
| Motion.ReadIsTorn | app/src/motion.c:182-188 | over all interleavings a read is the high word of one stamp over the low word of it or an earlier one |
| Motion.TornBounds | app/src/motion.c:75-83 | it is never below the older stamp, equals it exactly when the high words agree, and when it lies above the newer one |
| Motion.SurgeDecision | app/src/main.c:109-119 | the surge decision is one that either stamp alone would give whenever the newer is inside the window, and at every moment exactly when the high words agree or the older low word is not above the newer |
| Motion.BoundaryReadIsLate | app/src/motion.c:75-83 | the run across the 2^32 ms boundary that reads too late a stamp |
| Motion.Accelerometer.SetArmed | app/src/motion.c:164-180 | `armed` always says what the sensor was last told |
| FixHandoff.ReturnedFix | app/src/gnss_modem.c:35-53 | over all interleavings a returned fix is one whole frame: the one that gave last, or the last one stored after that; so it is invalid exactly when a frame was stored after the newest give and before the copy and the last such frame is invalid; never on the external path |
| FixHandoff.TimedOutSawNone | app/src/gnss_ext.c:199-211 | a wait that timed out saw no handler give since its reset |
| FixHandoff.TakesExactly | app/src/gnss_ext.c:199-205 | taking, a wait goes through exactly when a handler gave since its reset |
| FixHandoff.DeliversValidFrames | app/src/gnss_modem.c:35-53 | on either path, whoever waits is handed the next valid frame, whole |
| FixHandoff.PassesOverInvalidFrames | app/src/gnss_ext.c:51-57 | an invalid one leaves the wait going, and the external path does not store it |
| FixHandoff.NextFrameSpoils | app/src/gnss_modem.c:167-181 | after any run in which a valid frame has given, whether the waiter has taken yet or not, one more invalid frame followed by the copy makes the modem's fix invalid |
| FixHandoff.SpoiledBeforeTheTake | app/src/gnss_modem.c:167-181 | the shortest such run, with nothing between the take and the copy |
| FixHandoff.OnlyTheModemReturnsInvalid | app/src/gnss_modem.c:35-53 | an invalid fix can be returned exactly on the modem's path |
| StatusLed.LitForeverExactlyWhenSolid | app/src/main.c:180-188 | after every status report the LED is lit, and for ever exactly when the pattern is SOLID |
| StatusLed.DarkThroughSleep | app/src/status_led.c:176-181 | blanked before a sleep, the LED stays dark for all of it |
| StatusLed.SleepDarkensExactly | app/src/status_led.c:176-181 | a shining LED goes dark for a sleep exactly when the build does not keep it on |
| StatusLed.BlinkDuty | app/src/status_led.c:44-96 | k full periods are lit exactly k times BLINK with the charging pattern, and k times FLASH_ON with the battery pattern |
| StatusLed.ReportBlinks | app/src/main.c:180-188 | every status report with a blinking pattern starts such a period, whatever came before and however late the handler was |
| StatusLed.ColoursExactly | app/src/status_led.c:71-85 | after a status report, until the next call, the LED is green exactly while it shines and the modem is registered, and red exactly while it shines and the modem is not or there is no fix |
| StatusLed.SolidMeansFull | app/src/main.c:142-188 | after a status report the LED stays lit for ever exactly with external power and a readable battery that is reported complete or above the threshold, and flashes exactly on battery |
| StatusLed.Exec | app/src/status_led.c:98-181 | over every sequence of calls, time passing and handler runs, however late, `blinking` holds exactly when blink work with a finite delay is pending, and then the pattern is not SOLID |
| StatusLed.ElapseIsPunctual | app/src/status_led.c:87-93 | undisturbed time is the sequence in which the handler is never late |
| StatusLed.StrictnessShowsExactly | app/src/main.c:142-166 | the strict test and the documented "at or above" give different patterns exactly for a powered, readable battery that is not reported complete and right at the threshold |
| StatusLed.DefaultThresholdWindow | app/Kconfig:521-523 | at the default threshold that is from 4125 to 4139 mV |
| StatusLed.FullIsMonotone | app/src/main.c:142-166 | more voltage never turns SOLID back |
| StatusLed.Led.SetStatus | app/src/status_led.c:122-141 | refines `StatusLed.Set`, no-op when the driver is missing |
| StatusLed.Led.SetPattern | app/src/status_led.c:143-174 | refines `StatusLed.Show`, including the early return when nothing would change |
| StatusLed.Led.BlankForSleep | app/src/status_led.c:176-181 | refines `StatusLed.Sleep`, the call `StatusLed.DarkThroughSleep` is about |
| StatusLed.Led.BlinkHandler | app/src/status_led.c:87-93 | refines `StatusLed.Fire` |
| Telemetry.ParseUndoesText | app/src/telemetry.c:64-98 | parsing the printed payload recovers every field exactly when the code has at most seven characters, and fails otherwise; `wdt` is absent exactly when the code is 0 |
| Telemetry.TextDeterminesReport | app/src/telemetry.c:64-98 | two reports print alike exactly when they are equal, but for two codes both longer than seven characters and alike in their first eight |
| Telemetry.CodeIsLostExactly | app/src/telemetry.c:71-76 | the text tells a 32-bit code from every other exactly when it has at most seven characters |
| Telemetry.WdtUntruncatedExactly | app/src/telemetry.c:71-76 | the fragment fits its 16 bytes exactly for codes from -99999 to 999999, so for every phase |
| Format.ScanUndoesRender | app/src/telemetry.c:82-91 | scanning undoes printing for every format in which a literal delimits each value |
| TelemetryLimits.PayloadFitsExactly | app/src/main.c:219-226 | every report in range with every 32-bit code fits 256 bytes exactly when the hardware string has at most 43 characters; with the code of a phase, 47 |
| TelemetryLimits.EnvelopeFitsExactly | app/src/cloud_nrf.c:231-264 | the envelope around every payload fits 384 bytes exactly when the application id has at most 61 characters |
| TelemetryLimits.AwakeFieldExactlyRight | app/src/main.c:202-202 | the awake time is right exactly when the high word of the wake instant is a multiple of 1000 |
| JsonPayload.PayloadIsJson | app/README.md:370-401 | the payload is a JSON text of RFC 8259 exactly when its code has at most seven characters, and is then the printed form of its tree |
| JsonPayload.ReportIsJsonExactly | app/src/watchdog.c:67-87 | over any sequence of boots, a report is JSON exactly unless the reported word is one left by the loss of power and prints as more than seven characters |
| JsonPayload.SomeReportIsNoJson | app/src/telemetry.c:71-76 | the boot and the report for which it fails, with an int-sized enum |
| JsonPayload.ByteEnumIsHarmless | app/src/telemetry.c:71-76 | with a byte-sized enum every report of every sequence of boots is JSON, and parsing it recovers every field |
| Breadcrumb.ByteValueExactly | app/src/watchdog.c:67-87 | its code is then no phase exactly when the word was never wiped and its low byte is above 14 |
| JsonEnvelope.EnvelopeIsJson | app/src/cloud_nrf.c:231-264 | around a payload that is JSON the device message is JSON too, with application id, message type, the time exactly when it is known, and the payload as its data |
| JsonGrammar.NoStringBehindDigit | app/README.md:370-401 | in no JSON text does a string begin right behind a digit |
| JsonPayload.MembersListed | app/README.md:370-401 | its members are the documented ones in the documented order, each with its own value and the documented codes and names, `wdt` only with a code other than 0 |
| Battery.LevelPptt | app/src/telemetry.c:34-57 | the loop terminates inside the table, no unsigned operation wraps, and it computes the level |
| Battery.InterpolationRoundsDown | app/src/telemetry.c:54-56 | at most the exact interpolation and less than one unit below |
| Battery.LevelOnSegment | app/src/telemetry.c:42-56 | between two knots it is their interpolation, at a knot the knot's own level |
| Battery.LevelMonotone | app/src/telemetry.c:34-57 | more voltage never means less charge, for every curve |
| Battery.Percent | app/src/telemetry.c:59-62 | for the shipped curve the percentage is in 0..100 |
| Battery.PercentAtKnots | app/src/telemetry.c:19-32 | 100, 90, 75, 50, 25, 10 and 0 percent at the curve's knots |
| Battery.PercentMonotone | app/src/telemetry.c:59-62 | and monotone |
| Tracker.Tracker.constructor | app/src/main.c:349-402 | boot establishes `MainLoop.Boot`, with no guard armed |
| Tracker.Tracker.BeginCycle | app/src/main.c:405-416 | the whole state changes as `MainLoop.Top` says |
| Tracker.Tracker.RecoverIfSilent | app/src/main.c:274-307 | recover_if_silent() changes the whole state as `MainLoop.Recover` says, the function the silence theorems are about |
| Tracker.Tracker.LteEnsureConnected | app/src/main.c:76-101 | succeeds exactly when registered already or within the timeout, after exactly the wait for it |
| Tracker.Tracker.ResumeCloud | app/src/main.c:443-445 | cloud_resume() under the guard refines `MainLoop.ResumeLink`; the guard is never armed on entry nor left armed |
| Tracker.Tracker.SleepOnBattery | app/src/main.c:322-347 | battery_sleep() refines `MainLoop.BatterySleep`, the function the settle theorems are about |
| Tracker.Tracker.AcquireFix | app/src/main.c:461-510 | the attempt with its fallback and downloads refines `MainLoop.Acquire`, and has a fix exactly when one arrives in a window it is entitled to |
| Tracker.Tracker.FetchAssistance | app/src/agnss.c:203-238 | one fetch call refines `MainLoop.Fetch`, guards included |
| Tracker.Tracker.ReportFix | app/src/main.c:195-259 | report_fix() refines `MainLoop.Report`: send, retry, acceptance, location, feed |
| Tracker.Tracker.ReportFirst | app/src/main.c:513-531 | refines `MainLoop.FirstReport` |
| Tracker.Tracker.LoopFrequently | app/src/main.c:545-573 | the while loop refines the recursive `MainLoop.Loop` for any script of checks |
| Tracker.Tracker.ReportFrequently | app/src/main.c:540-581 | the loop and its guard refine `MainLoop.Frequent`: entered exactly with external power, or in a motion cycle with the last jolt younger than SURGE |
| Tracker.Tracker.EndCycle | app/src/main.c:587-595 | stop, pause and sleep refine `MainLoop.Park` |
| Tracker.Tracker.OneCycle | app/src/main.c:404-596 | one turn of the main loop refines `MainLoop.Cycle` |
| Tracker.Tracker.RunCycles | app/src/main.c:404-596 | any number of turns refine `MainLoop.Run`, which all theorems about runs quantify over |

## Left out

- Wake, Motion.ReadIsTorn, FixHandoff: the atomics, semaphores and spinlocks are modelled on values and not as class fields, since each step must be able to interleave with the others; the memory model is sequentially consistent.
- MainTiming.NeverReset: the feeds cloud_resume() makes while it waits for the modem's clock are not counted, and all driver calls between two blocking ones together take at most one assumed bound; a call that never returns is outside this theorem and belongs to Watchdog.GuardResetsExactly and MainTiming.ResumeResetsExactly.
- MainSilence.SilenceIsBounded: the time a reboot itself takes (200 ms to drain the log) is not part of the bound.
- MainSettle.ArmedAsDecided: the accelerometer came up at boot and wake-on-motion is compiled in; otherwise nothing is ever armed.
- MainCloud.HandshakesAreEarned: the online nRF Cloud build; the Hologram and offline builds have no session.
- StatusLed.BlinkDuty: the handler is on time; how late handlers change the duty is not modelled, only that they keep what StatusLed.Exec states.
- MainAssistance.EveryCycleIsRationed: boot takes at least a millisecond, since the program reads a stamp of 0 as none.
- Telemetry.CodeIsLostExactly, JsonPayload.ReportIsJsonExactly, JsonPayload.SomeReportIsNoJson: the enum is as wide as a 32-bit int; for a byte see JsonPayload.ByteEnumIsHarmless.
- MainStretches.CoveredExactly: a build with every feature that takes time, a guard budget of at least 30 s, a sleep of at least 1 s and a recovery time below the reboot time; for the others MainTiming.NeverReset gives the condition as sufficient.
- Telemetry.ParseUndoesText: coordinates and hdop are already rounded (micro-degrees, hundredths); the rounding of %f and the conversions from NMEA and PVT units are not modelled, and text is a value and not a buffer filled in place.
- Which phase is current at each moment of the main loop: the marks are modelled in Breadcrumb for any sequence of them.
- The times of the status LED inside the main loop, and the PMIC reading behind it, are part of the driver time.
- The request frame of A-GNSS, the serving cell, the assistance request latch of gnss_modem.c and its satellite count: a request either arrives in time or not.
- Sockets, DNS, CoAP, DTLS, AT commands, the modem and nRF Cloud libraries: their answers and times are in the scripts.
- app/src/hologram.c and the text of app/src/cloud_hologram.c: cJSON is not part of this model.
- Sensor, PMIC, GPIO, UART and LED drivers, app/src/startup.c, credential checks, logging, name tables, provisioning.
