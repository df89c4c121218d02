/** The watchdog over whole runs of the report loop: if every blocking call keeps to its timeout
    or its stated bound, how long can the loop go without a feed? */
module MainTiming {
  import opened TrackerConfig
  import opened Watchdog
  import opened MainLoop
  import Assistance
  import CloudLink
  import Receivers
  import Wake

  // ---------------------------------------------------------------- timely scripts

  predicate TimelyReport(c: Config, e: ReportScript) {
    && e.driverMs <= c.bounds.driverMs
    && e.sendMs <= c.bounds.sendMs && e.resendMs <= c.bounds.sendMs
    && e.locationMs <= c.bounds.locationMs
    && e.resume.ms <= c.connectBudgetS * 1000
  }

  predicate TimelyAcquire(c: Config, e: AcquireScript) {
    && e.fetch.ms <= c.assist.budgetS * 1000 && e.fetch2.ms <= c.assist.budgetS * 1000
    && e.fetch3.ms <= c.assist.budgetS * 1000
    && e.fetch.stopMs <= c.bounds.driverMs && e.fetch2.stopMs <= c.bounds.driverMs
    && e.fetch3.stopMs <= c.bounds.driverMs
    && e.fetchMs <= c.bounds.driverMs && e.fetchMs2 <= c.bounds.driverMs
    && e.fetchMs3 <= c.bounds.driverMs && e.fallbackMs <= c.bounds.driverMs
  }

  predicate TimelyPass(c: Config, p: Pass) {
    p.sleepMs <= c.bounds.driverMs && p.driverMs <= c.bounds.driverMs && TimelyReport(c, p.report)
  }

  predicate TimelySleep(c: Config, e: SleepScript) {
    e.driverMs <= c.bounds.driverMs && e.ms <= SleepMs(c)
  }

  /** Every call in the cycle returns within its timeout, budget or bound. */
  ghost predicate Timely(c: Config, e: CycleScript) {
    && e.recover.offlineMs <= c.bounds.modeMs && e.recover.normalMs <= c.bounds.modeMs
    && e.lteDriverMs <= c.bounds.driverMs
    && e.resume.ms <= c.connectBudgetS * 1000 && e.resumeDriverMs <= c.bounds.driverMs
    && e.startMs <= c.bounds.driverMs
    && TimelyAcquire(c, e.acquire)
    && TimelyReport(c, e.first.report) && e.first.driverMs <= c.bounds.driverMs
    && (forall i :: 0 <= i < |e.passes| ==> TimelyPass(c, e.passes[i]))
    && e.stopMs <= c.bounds.driverMs && e.pause.ms <= c.bounds.pauseMs
    && TimelySleep(c, e.sleep)
  }

  ghost predicate AllTimely(c: Config, es: seq<CycleScript>) {
    forall i :: 0 <= i < |es| ==> Timely(c, es[i])
  }

  // ---------------------------------------------------------------- the unfed stretches

  /** No network: a modem restart, the wait for registration, and a sleep. */
  function NoNetworkStretch(c: Config): nat {
    2 * c.bounds.modeMs + 1000 + LteMs(c) + 2 * c.bounds.driverMs + SleepMs(c)
  }

  /** No receiver: the warm-up, a pause, and a sleep. */
  function NoReceiverStretch(c: Config): nat {
    c.warmupMs + c.bounds.pauseMs + 3 * c.bounds.driverMs + SleepMs(c)
  }

  /** A whole fix attempt that finds nothing: both windows and the wait in between, and the
      receiver's stop before the last download is guarded. */
  function SearchStretch(c: Config): nat {
    c.warmupMs + (c.externalFixS + c.proactiveS + c.onboardFixS) * 1000 + 4 * c.bounds.driverMs
  }

  /** The last fix window, after an assistance download. */
  function AssistedStretch(c: Config): nat {
    c.assistedFixS * 1000 + c.bounds.driverMs
  }

  function SettleMs(c: Config): nat {
    if c.extraFixS > 0 then (c.extraFixS + 5) * 1000 else 0
  }

  /** Settling, and then one message and the location, or a payload that does not fit. */
  function FirstReportStretch(c: Config): nat {
    SettleMs(c) + c.bounds.driverMs + Max(c.bounds.sendMs + c.bounds.locationMs, c.bounds.driverMs)
  }

  /** Between two feeds of the frequent loop: a fix that does not come, and the interval. */
  function PassStretch(c: Config): nat {
    10_000 + IntervalMs(c) + 3 * c.bounds.driverMs
  }

  function PassReportStretch(c: Config): nat {
    10_000 + c.bounds.sendMs + c.bounds.locationMs + c.bounds.driverMs
  }

  /** Leaving the frequent loop: the same fix, a pause, and a sleep. */
  function LeaveStretch(c: Config): nat {
    10_000 + c.bounds.pauseMs + 4 * c.bounds.driverMs + SleepMs(c)
  }

  /** The longest of them all: how long a timely run can go without a feed. */
  function LongestStretch(c: Config): nat {
    Max(c.bounds.bootMs, Max(GUARD_PERIOD,
    Max(NoNetworkStretch(c), Max(NoReceiverStretch(c), Max(SearchStretch(c), Max(AssistedStretch(c),
    Max(FirstReportStretch(c), Max(PassStretch(c), Max(PassReportStretch(c), LeaveStretch(c))))))))))
  }

  /** No stretch is longer than `bound`. */
  predicate Enough(c: Config, bound: nat) {
    && c.bounds.bootMs <= bound && GUARD_PERIOD <= bound
    && NoNetworkStretch(c) <= bound && NoReceiverStretch(c) <= bound
    && SearchStretch(c) <= bound && AssistedStretch(c) <= bound
    && FirstReportStretch(c) <= bound && PassStretch(c) <= bound
    && PassReportStretch(c) <= bound && LeaveStretch(c) <= bound
  }

  lemma LongestIsEnough(c: Config)
    ensures Enough(c, LongestStretch(c))
  {
  }

  /** What the configuration must satisfy: the margin covers everything that is awake and unfed
      before a sleep, and the whole timeout covers everything else. */
  predicate Covered(c: Config) {
    var margin := c.marginS * 1000;
    && 2 * c.bounds.modeMs + 1000 + LteMs(c) + 2 * c.bounds.driverMs < margin
    && c.warmupMs + c.bounds.pauseMs + 3 * c.bounds.driverMs < margin
    && 10_000 + c.bounds.pauseMs + 4 * c.bounds.driverMs < margin
    && c.bounds.bootMs < WatchdogMs(c) && GUARD_PERIOD < WatchdogMs(c)
    && SearchStretch(c) < WatchdogMs(c) && AssistedStretch(c) < WatchdogMs(c)
    && FirstReportStretch(c) < WatchdogMs(c)
    && PassStretch(c) < WatchdogMs(c) && PassReportStretch(c) < WatchdogMs(c)
  }

  lemma CoveredMeansShorter(c: Config)
    ensures Covered(c) <==> LongestStretch(c) < WatchdogMs(c)
  {
  }

  lemma DefaultsCovered()
    ensures Covered(DEFAULTS) && LongestStretch(DEFAULTS) == NoNetworkStretch(DEFAULTS) == 685_000 && WatchdogMs(DEFAULTS) == 840_000
  {
  }

  // ---------------------------------------------------------------- stage by stage

  /** No stretch so far was longer than `bound`, and the current one is at most `gap`. */
  ghost predicate Within(c: Clock, bound: nat, gap: nat) {
    Sound(c) && c.worst <= bound && c.now - c.fed <= gap
  }

  lemma Spends(c: Clock, bound: nat, gap: nat, ms: nat)
    requires Within(c, bound, gap) && gap + ms <= bound
    ensures Within(Spend(c, ms), bound, gap + ms)
  {
  }

  lemma Guards(c: Clock, bound: nat, budgetS: nat, ms: nat)
    requires c.worst <= bound && ms <= budgetS * 1000 && GUARD_PERIOD <= bound
    ensures Within(Guarded(c, budgetS, ms), bound, 0)
  {
    GuardCoversBudget(budgetS, ms);
  }

  lemma WaitIsBounded(timeoutS: nat, a: Arrival)
    ensures WaitMs(timeoutS, a) <= timeoutS * 1000
  {
  }

  /** The restart of a silent modem. */
  lemma RecoverTiming(c: Config, w: World, e: RecoverScript, bound: nat)
    requires Within(w.clock, bound, 0) && w.life == Alive
    requires e.offlineMs <= c.bounds.modeMs && e.normalMs <= c.bounds.modeMs
    requires 2 * c.bounds.modeMs + 1000 <= bound
    ensures Within(Recover(c, w, e).clock, bound, 2 * c.bounds.modeMs + 1000)
  {
  }

  lemma SleepTiming(c: Config, w: World, e: SleepScript, bound: nat, gap: nat)
    requires Within(w.clock, bound, gap) && TimelySleep(c, e)
    requires gap + c.bounds.driverMs + SleepMs(c) <= bound
    ensures Sound(BatterySleep(c, w, e).clock) && BatterySleep(c, w, e).clock.worst <= bound
  {
  }

  /** A download ends fed, but for the restart of the receiver; a declined one changes nothing. */
  lemma FetchTiming(c: Config, w: World, f: Assistance.Fetch, ms: nat, bound: nat, gap: nat)
    requires Within(w.clock, bound, gap) && Enough(c, bound)
    requires f.ms <= c.assist.budgetS * 1000 && ms <= c.bounds.driverMs
    requires f.stopMs <= c.bounds.driverMs && gap + c.bounds.driverMs <= bound
    ensures Within(Fetch(c, w, f, ms).0.clock, bound, Max(gap, c.bounds.driverMs))
    ensures Fetch(c, w, f, ms).1 ==> Within(Fetch(c, w, f, ms).0.clock, bound, c.bounds.driverMs)
    ensures Fetch(c, w, f, ms).0.rx.active == w.rx.active
  {
    if !Assistance.RateLimited(c.assist, w.assist, w.clock.now) {
      var s := if c.assist.stopDuringFetch then Spend(w.clock, f.stopMs) else w.clock;
      Spends(w.clock, bound, gap, f.stopMs);
      Guards(s, bound, c.assist.budgetS, f.ms);
      Spends(Guarded(s, c.assist.budgetS, f.ms), bound, 0, ms);
    }
  }

  lemma ProactiveTiming(c: Config, w: World, request: Arrival, f: Assistance.Fetch, ms: nat, bound: nat, gap: nat)
    requires Within(w.clock, bound, gap) && Enough(c, bound)
    requires f.ms <= c.assist.budgetS * 1000 && f.stopMs <= c.bounds.driverMs && ms <= c.bounds.driverMs
    requires gap + c.proactiveS * 1000 + c.bounds.driverMs <= bound && c.bounds.driverMs <= gap
    ensures var r := Proactive(c, w, request, f, ms).0;
            && r.rx.active == w.rx.active
            && Within(r.clock, bound,
                      if w.rx.active == Receivers.Modem then gap + c.proactiveS * 1000 else gap)
  {
    if AgnssWanted(c, w) {
      WaitIsBounded(c.proactiveS, request);
      var t := Spent(w, WaitMs(c.proactiveS, request));
      Spends(w.clock, bound, gap, WaitMs(c.proactiveS, request));
      if Arrives(c.proactiveS, request) {
        FetchTiming(c, t, f, ms, bound, gap + c.proactiveS * 1000);
      }
    }
  }

  /** The gap after the first try, by the receiver that made it. */
  function FirstTryGap(c: Config, active: Receivers.Source): nat {
    c.warmupMs + 2 * c.bounds.driverMs
    + (if active == Receivers.External then c.externalFixS else c.proactiveS + c.onboardFixS) * 1000
  }

  lemma FirstTryTiming(c: Config, w: World, e: AcquireScript, bound: nat)
    requires Within(w.clock, bound, c.warmupMs + 2 * c.bounds.driverMs)
    requires Enough(c, bound) && TimelyAcquire(c, e)
    ensures var a := FirstTry(c, w, e);
            a.w.rx.active == w.rx.active && Within(a.w.clock, bound, FirstTryGap(c, a.w.rx.active))
  {
    var gap := c.warmupMs + 2 * c.bounds.driverMs;
    ProactiveTiming(c, w, e.request, e.fetch, e.fetchMs, bound, gap);
    var p := Proactive(c, w, e.request, e.fetch, e.fetchMs).0;
    var g := if w.rx.active == Receivers.Modem then gap + c.proactiveS * 1000 else gap;
    WaitIsBounded(FixTimeoutS(c, p.rx), e.fix);
    Spends(p.clock, bound, g, WaitMs(FixTimeoutS(c, p.rx), e.fix));
  }

  /** The gap after both tries. */
  function SearchGap(c: Config): nat {
    FirstTryGap(c, Receivers.External) + c.bounds.driverMs + (c.proactiveS + c.onboardFixS) * 1000
  }

  lemma FallBackTiming(c: Config, a: Acquired, e: AcquireScript, bound: nat)
    requires Within(a.w.clock, bound, FirstTryGap(c, a.w.rx.active))
    requires Enough(c, bound) && TimelyAcquire(c, e)
    ensures Within(FallBack(c, a, e).w.clock, bound, SearchGap(c))
  {
    if !a.haveFix && FallbackAvailable(c, a.w.rx) {
      var rx := Receivers.Fallback(a.w.rx, e.stop, e.startFault).0;
      var b := Spent(a.w.(rx := rx), e.fallbackMs);
      var gap := FirstTryGap(c, a.w.rx.active) + c.bounds.driverMs;
      Spends(a.w.clock, bound, FirstTryGap(c, a.w.rx.active), e.fallbackMs);
      ProactiveTiming(c, b, e.request2, e.fetch2, e.fetchMs2, bound, gap);
      var p := Proactive(c, b, e.request2, e.fetch2, e.fetchMs2).0;
      assert p.rx.active == Receivers.Modem;
      WaitIsBounded(c.onboardFixS, e.fix2);
      Spends(p.clock, bound, gap + c.proactiveS * 1000, WaitMs(c.onboardFixS, e.fix2));
    }
  }

  lemma LastChanceTiming(c: Config, a: Acquired, e: AcquireScript, bound: nat)
    requires Within(a.w.clock, bound, SearchGap(c))
    requires Enough(c, bound) && TimelyAcquire(c, e)
    ensures Within(LastChance(c, a, e).w.clock, bound, bound)
  {
    if !a.haveFix && !a.assisted && AgnssWanted(c, a.w) {
      FetchTiming(c, a.w, e.fetch3, e.fetchMs3, bound, SearchGap(c));
      var (p, ok) := Fetch(c, a.w, e.fetch3, e.fetchMs3);
      if ok {
        WaitIsBounded(c.assistedFixS, e.fix3);
        Spends(p.clock, bound, c.bounds.driverMs, WaitMs(c.assistedFixS, e.fix3));
      }
    }
  }

  lemma AcquireTiming(c: Config, w: World, e: AcquireScript, bound: nat)
    requires Within(w.clock, bound, c.warmupMs + 2 * c.bounds.driverMs)
    requires Enough(c, bound) && TimelyAcquire(c, e)
    ensures Within(Acquire(c, w, e).w.clock, bound, bound)
  {
    FirstTryTiming(c, w, e, bound);
    FallBackTiming(c, FirstTry(c, w, e), e, bound);
    LastChanceTiming(c, FallBack(c, FirstTry(c, w, e), e), e, bound);
  }

  lemma SendTiming(c: Config, w: World, e: ReportScript, bound: nat, gap: nat)
    requires Within(w.clock, bound, gap) && TimelyReport(c, e)
    requires gap + c.bounds.sendMs <= bound && GUARD_PERIOD <= bound
    ensures Within(SendReport(c, w, e).0.clock, bound, gap + c.bounds.sendMs)
  {
    var (p, err) := Post(c, w, e.send, e.sendMs);
    Spends(w.clock, bound, gap, e.sendMs);
    if Stale(err) {
      Guards(p.clock, bound, c.connectBudgetS, e.resume.ms);
      var (r, resumed) := ResumeLink(c, p, e.resume);
      Spends(r.clock, bound, 0, e.resendMs);
    }
  }

  /** A report ends fed, unless the payload did not fit. */
  lemma ReportTiming(c: Config, w: World, e: ReportScript, withFix: bool, bound: nat, gap: nat)
    requires Within(w.clock, bound, gap) && TimelyReport(c, e)
    requires gap + c.bounds.driverMs + c.bounds.sendMs + c.bounds.locationMs <= bound
    requires GUARD_PERIOD <= bound
    ensures Within(Report(c, w, e, withFix).clock, bound, gap + c.bounds.driverMs)
    ensures e.fits ==> Within(Report(c, w, e, withFix).clock, bound, 0)
  {
    var b := Spent(w, e.driverMs);
    Spends(w.clock, bound, gap, e.driverMs);
    if e.fits {
      SendTiming(c, b, e, bound, gap + c.bounds.driverMs);
      var (s, err) := SendReport(c, b, e);
      Spends(s.clock, bound, gap + c.bounds.driverMs + c.bounds.sendMs, e.locationMs);
    }
  }

  lemma ReportIfAnyTiming(c: Config, w: World, haveFix: bool, e: ReportScript, bound: nat, gap: nat)
    requires Within(w.clock, bound, gap) && TimelyReport(c, e)
    requires gap + c.bounds.driverMs + c.bounds.sendMs + c.bounds.locationMs <= bound
    requires GUARD_PERIOD <= bound
    ensures Within(ReportIfAny(c, w, haveFix, e).clock, bound, gap + c.bounds.driverMs)
  {
    ReportTiming(c, w, e, haveFix, bound, gap);
  }

  lemma SettleFixTiming(c: Config, w: World, better: Arrival, bound: nat)
    requires Within(w.clock, bound, 0) && SettleMs(c) <= bound
    ensures Within(SettleFix(c, w, better).clock, bound, SettleMs(c))
  {
    if c.extraFixS > 0 {
      Spends(w.clock, bound, 0, c.extraFixS * 1000);
      WaitIsBounded(5, better);
      Spends(Spend(w.clock, c.extraFixS * 1000), bound, c.extraFixS * 1000, WaitMs(5, better));
    }
  }

  lemma FirstReportTiming(c: Config, w: World, haveFix: bool, e: FirstScript, bound: nat)
    requires Within(w.clock, bound, 0) && Enough(c, bound)
    requires TimelyReport(c, e.report) && e.driverMs <= c.bounds.driverMs
    ensures Within(FirstReport(c, w, haveFix, e).clock, bound, 0)
  {
    var gap := SettleMs(c);
    SettleFixTiming(c, w, e.better, bound);
    var s := if haveFix then SettleFix(c, w, e.better) else w;
    ReportIfAnyTiming(c, s, haveFix, e.report, bound, gap);
    Spends(ReportIfAny(c, s, haveFix, e.report).clock, bound, gap + c.bounds.driverMs, e.driverMs);
  }

  // ---------------------------------------------------------------- the frequent loop

  /** The gap carried from one check of the loop to the next. */
  function CarriedGap(c: Config): nat {
    10_000 + 2 * c.bounds.driverMs
  }

  lemma PassTiming(c: Config, w: World, p: Pass, bound: nat)
    requires Within(w.clock, bound, CarriedGap(c)) && Enough(c, bound) && TimelyPass(c, p)
    ensures Within(PassBody(c, w, p).clock, bound, CarriedGap(c))
  {
    Spends(w.clock, bound, CarriedGap(c), IntervalMs(c) + p.sleepMs);
    var t := PassSleep(c, w, p);
    assert Within(t.clock, bound, 0);
    WaitIsBounded(10, p.fix);
    Spends(t.clock, bound, 0, WaitMs(10, p.fix));
    var (f, have) := WaitFix(t, 10, p.fix);
    ReportIfAnyTiming(c, f, have, p.report, bound, 10_000);
    Spends(ReportIfAny(c, f, have, p.report).clock, bound, 10_000 + c.bounds.driverMs, p.driverMs);
  }

  lemma {:induction false} LoopTiming(c: Config, w: World, motionCycle: bool, ps: seq<Pass>, bound: nat)
    requires Within(w.clock, bound, CarriedGap(c)) && Enough(c, bound)
    requires forall i :: 0 <= i < |ps| ==> TimelyPass(c, ps[i])
    ensures Within(Loop(c, w, motionCycle, ps).w.clock, bound, CarriedGap(c))
    decreases |ps|
  {
    if ps != [] && Goes(c, w, motionCycle, ps[0].check) {
      PassTiming(c, w, ps[0], bound);
      LoopTiming(c, PassBody(c, w, ps[0]), motionCycle, ps[1..], bound);
    }
  }

  // ---------------------------------------------------------------- a cycle

  lemma ParkTiming(c: Config, w: World, e: CycleScript, bound: nat)
    requires Within(w.clock, bound, CarriedGap(c)) && Enough(c, bound) && Timely(c, e)
    ensures var r := Park(c, w, e).clock; Sound(r) && r.worst <= bound
  {
    var s := Spent(w.(rx := Receivers.Stop(w.rx, c.powerCycle, e.stop)), e.stopMs);
    Spends(w.clock, bound, CarriedGap(c), e.stopMs);
    var gap := CarriedGap(c) + c.bounds.driverMs;
    Spends(s.clock, bound, gap, e.pause.ms);
    SleepTiming(c, PauseLink(c, s, e.pause), e.sleep, bound, gap + c.bounds.pauseMs);
  }

  lemma TrackedTiming(c: Config, w: World, motionCycle: bool, e: CycleScript, bound: nat)
    requires Within(w.clock, bound, c.warmupMs + 2 * c.bounds.driverMs)
    requires Enough(c, bound) && Timely(c, e)
    ensures var r := Tracked(c, w, motionCycle, e).clock; Sound(r) && r.worst <= bound
  {
    AcquireTiming(c, w, e.acquire, bound);
    var a := Acquire(c, w, e.acquire);
    FirstReportTiming(c, Fed(a.w), a.haveFix, e.first, bound);
    var r := FirstReport(c, Fed(a.w), a.haveFix, e.first);
    LoopTiming(c, r, motionCycle, e.passes, bound);
    var f := Frequent(c, r, motionCycle, e.entry, e.passes);
    if f.life == Alive {
      ParkTiming(c, f, e, bound);
    }
  }

  lemma StartTiming(c: Config, w: World, f: Receivers.StartFaults, ms: nat, bound: nat)
    requires Within(w.clock, bound, c.bounds.driverMs) && ms <= c.bounds.driverMs
    requires c.warmupMs + 2 * c.bounds.driverMs <= bound
    ensures Within(StartReceiver(c, w, f, ms).0.clock, bound, c.warmupMs + 2 * c.bounds.driverMs)
  {
    var warmup := if Receivers.Warms(w.rx, f) then c.warmupMs else 0;
    Spends(w.clock, bound, c.bounds.driverMs, ms + warmup);
  }

  lemma OnlineTiming(c: Config, w: World, motionCycle: bool, e: CycleScript, bound: nat)
    requires Sound(w.clock) && w.clock.worst <= bound
    requires Enough(c, bound) && Timely(c, e)
    ensures var r := Online(c, w, motionCycle, e).clock; Sound(r) && r.worst <= bound
  {
    Guards(w.clock, bound, c.connectBudgetS, e.resume.ms);
    var l := ResumeLink(c, w, e.resume).0;
    Spends(l.clock, bound, 0, e.resumeDriverMs);
    var r := Spent(l, e.resumeDriverMs);
    StartTiming(c, r, e.start, e.startMs, bound);
    var (s, ok) := StartReceiver(c, r, e.start, e.startMs);
    if ok {
      TrackedTiming(c, s, motionCycle, e, bound);
    } else {
      var gap := c.warmupMs + 2 * c.bounds.driverMs;
      Spends(s.clock, bound, gap, e.pause.ms);
      SleepTiming(c, PauseLink(c, s, e.pause), e.sleep, bound, gap + c.bounds.pauseMs);
    }
  }

  lemma AttachTiming(c: Config, w: World, a: LteAnswer, ms: nat, bound: nat, gap: nat)
    requires Within(w.clock, bound, gap) && ms <= c.bounds.driverMs
    requires gap + LteMs(c) + c.bounds.driverMs <= bound
    ensures Within(Attach(c, w, a, ms).clock, bound, gap + LteMs(c) + c.bounds.driverMs)
  {
    Spends(w.clock, bound, gap, LteWaitMs(c, a) + ms);
  }

  lemma AttachedTiming(c: Config, w: World, motionCycle: bool, e: CycleScript, bound: nat)
    requires Within(w.clock, bound, 2 * c.bounds.modeMs + 1000 + LteMs(c) + c.bounds.driverMs)
    requires Enough(c, bound) && Timely(c, e)
    ensures var r := Attached(c, w, motionCycle, e).clock; Sound(r) && r.worst <= bound
  {
    if LteUp(c, e.lte) {
      OnlineTiming(c, w, motionCycle, e, bound);
    } else {
      SleepTiming(c, w, e.sleep, bound, 2 * c.bounds.modeMs + 1000 + LteMs(c) + c.bounds.driverMs);
    }
  }

  lemma ConnectTiming(c: Config, w: World, motionCycle: bool, e: CycleScript, bound: nat)
    requires Within(w.clock, bound, 0) && w.life == Alive && Enough(c, bound) && Timely(c, e)
    ensures var r := Connect(c, w, motionCycle, e).clock; Sound(r) && r.worst <= bound
  {
    RecoverTiming(c, w, e.recover, bound);
    var r := Recover(c, w, e.recover);
    if r.life == Alive {
      AttachTiming(c, r, e.lte, e.lteDriverMs, bound, 2 * c.bounds.modeMs + 1000);
      AttachedTiming(c, Attach(c, r, e.lte, e.lteDriverMs), motionCycle, e, bound);
    }
  }

  lemma CycleTiming(c: Config, w: World, e: CycleScript, bound: nat)
    requires Sound(w.clock) && w.clock.worst <= bound && w.life == Alive
    requires Enough(c, bound) && Timely(c, e)
    ensures var r := Cycle(c, w, e).clock; Sound(r) && r.worst <= bound
  {
    var t, motionCycle := Top(w), w.wake == Wake.Motion;
    assert Within(t.clock, bound, 0);
    if c.build.skipLte {
      OnlineTiming(c, t, motionCycle, e, bound);
    } else {
      ConnectTiming(c, t, motionCycle, e, bound);
    }
  }

  lemma {:induction false} RunTiming(c: Config, w: World, es: seq<CycleScript>, bound: nat)
    requires Sound(w.clock) && w.clock.worst <= bound
    requires Enough(c, bound) && AllTimely(c, es)
    ensures Run(c, w, es).clock.worst <= bound
    decreases |es|
  {
    if es != [] && w.life == Alive {
      CycleTiming(c, w, es[0], bound);
      RunTiming(c, Cycle(c, w, es[0]), es[1..], bound);
    }
  }

  // ---------------------------------------------------------------- calls that hang

  /** A reconnect that hangs is not hidden by its guard: as long as nothing else was reset before,
      it is exactly when it outlasts its budget, in whole guard periods, by the timeout. */
  lemma ResumeResetsExactly(c: Config, w: World, e: ResumeScript)
    requires w.clock.worst < WatchdogMs(c) && 30_000 < WatchdogMs(c)
    ensures WatchdogMs(c) <= ResumeLink(c, w, e).0.clock.worst
            <==> 30_000 * ((c.connectBudgetS + 29) / 30) + WatchdogMs(c) <= e.ms
  {
    GuardResetsExactly(c.connectBudgetS, e.ms, WatchdogMs(c));
  }

  /** A download likewise, once the receiver's stop is over. */
  lemma DownloadResetsExactly(c: Config, w: World, f: Assistance.Fetch)
    requires Spend(w.clock, f.stopMs).worst < WatchdogMs(c) && w.clock.worst < WatchdogMs(c)
    requires 30_000 < WatchdogMs(c)
    ensures WatchdogMs(c) <= Assistance.Downloaded(c.assist, w.clock, f).worst
            <==> 30_000 * ((c.assist.budgetS + 29) / 30) + WatchdogMs(c) <= f.ms
  {
    GuardResetsExactly(c.assist.budgetS, f.ms, WatchdogMs(c));
  }

  // ---------------------------------------------------------------- whole runs

  /** In every timely run, over any number of cycles and at every moment of them, the time since
      the last feed is at most the longest stretch. */
  lemma StaysWithinLongest(c: Config, bootMs: nat, external: bool, accelerometer: bool, credentials: bool,
                           es: seq<CycleScript>)
    requires bootMs <= c.bounds.bootMs && AllTimely(c, es)
    ensures Run(c, Boot(c, bootMs, external, accelerometer, credentials), es).clock.worst <= LongestStretch(c)
  {
    LongestIsEnough(c);
    RunTiming(c, Boot(c, bootMs, external, accelerometer, credentials), es, LongestStretch(c));
  }

  /** So it stays below the watchdog's timeout, provided the configuration is covered. */
  lemma NeverReset(c: Config, bootMs: nat, external: bool, accelerometer: bool, credentials: bool, es: seq<CycleScript>)
    requires Covered(c) && bootMs <= c.bounds.bootMs && AllTimely(c, es)
    ensures Run(c, Boot(c, bootMs, external, accelerometer, credentials), es).clock.worst
            <= LongestStretch(c) < WatchdogMs(c)
  {
    CoveredMeansShorter(c);
    StaysWithinLongest(c, bootMs, external, accelerometer, credentials, es);
  }
}
