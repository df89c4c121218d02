/** The stretches of MainTiming are exact: with everything compiled in, each of them is reached by
    a run whose calls all keep to their timeouts, so the condition that rules a reset out is also
    necessary. */
module MainStretches {
  import opened TrackerConfig
  import opened Watchdog
  import opened MainLoop
  import opened MainTiming
  import Assistance
  import CloudLink
  import MainFrequent
  import Receivers
  import Wake

  // ---------------------------------------------------------------- what is to be shown

  /** An online build with every feature that takes time, a guard budget of at least one period,
      a sleep that takes time, and a recovery that comes before the reboot. */
  predicate Full(c: Config) {
    && CloudLink.Online(c.build) && c.agnss && c.external && c.modemFallback && c.assist.stopDuringFetch
    && GUARD_PERIOD_S <= c.connectBudgetS && 0 < c.sleepS && c.recoveryMin < c.rebootMin
  }

  function First(c: Config, bootMs: nat): World {
    Boot(c, bootMs, true, false, true)
  }

  /** Some timely run goes without a feed for that long. */
  ghost predicate Reached(c: Config, ms: nat) {
    exists bootMs: nat, es: seq<CycleScript> ::
      bootMs <= c.bounds.bootMs && AllTimely(c, es) && Run(c, First(c, bootMs), es).clock.worst >= ms
  }

  /** No timely run goes without a feed for that long. */
  ghost predicate Excluded(c: Config, ms: nat) {
    forall bootMs: nat, external, accelerometer, credentials, es: seq<CycleScript> ::
      bootMs <= c.bounds.bootMs && AllTimely(c, es)
      ==> Run(c, Boot(c, bootMs, external, accelerometer, credentials), es).clock.worst < ms
  }

  // ---------------------------------------------------------------- clocks and worlds

  predicate Unfed(k: Clock, gap: nat) {
    k.fed + gap <= k.now
  }

  lemma SpendShows(k: Clock, gap: nat, ms: nat)
    requires Unfed(k, gap)
    ensures Unfed(Spend(k, ms), gap + ms) && Spend(k, ms).worst >= gap + ms
  {
  }

  predicate Later(w: World, r: World) {
    w.clock.worst <= r.clock.worst
  }

  lemma ParkLater(c: Config, w: World, e: CycleScript)
    ensures Later(w, Park(c, w, e))
  {
  }

  lemma ReportLater(c: Config, w: World, haveFix: bool, e: ReportScript)
    ensures Later(w, ReportIfAny(c, w, haveFix, e))
  {
  }

  lemma PassLater(c: Config, w: World, p: Pass)
    ensures Later(w, PassBody(c, w, p))
  {
    ReportLater(c, WaitFix(PassSleep(c, w, p), 10, p.fix).0, WaitFix(PassSleep(c, w, p), 10, p.fix).1, p.report);
  }

  lemma {:induction false} LoopLater(c: Config, w: World, motionCycle: bool, ps: seq<Pass>)
    ensures Later(w, Loop(c, w, motionCycle, ps).w)
    decreases |ps|
  {
    if ps != [] && Goes(c, w, motionCycle, ps[0].check) {
      PassLater(c, w, ps[0]);
      LoopLater(c, PassBody(c, w, ps[0]), motionCycle, ps[1..]);
    }
  }

  lemma FirstReportLater(c: Config, w: World, haveFix: bool, e: FirstScript)
    ensures Later(w, FirstReport(c, w, haveFix, e))
  {
    ReportLater(c, if haveFix then SettleFix(c, w, e.better) else w, haveFix, e.report);
  }

  lemma TrackedLater(c: Config, w: World, motionCycle: bool, e: CycleScript)
    ensures var a := Acquire(c, w, e.acquire);
            var r := FirstReport(c, Fed(a.w), a.haveFix, e.first);
            var t := Tracked(c, w, motionCycle, e);
            && Later(a.w, t) && Later(r, t)
            && Later(Frequent(c, r, motionCycle, e.entry, e.passes), t)
            && (Goes(c, r, motionCycle, e.entry) ==> Later(Loop(c, r, motionCycle, e.passes).w, t))
  {
    var a := Acquire(c, w, e.acquire);
    var r := FirstReport(c, Fed(a.w), a.haveFix, e.first);
    FirstReportLater(c, Fed(a.w), a.haveFix, e.first);
    LoopLater(c, r, motionCycle, e.passes);
    ParkLater(c, Frequent(c, r, motionCycle, e.entry, e.passes), e);
  }

  // ---------------------------------------------------------------- the first cycle

  const NO_RESUME := ResumeScript(CloudLink.Answers(0, 0, 0), 0)
  const NO_FETCH := Assistance.Fetch(false, false, 0, 0, false, false)
  const NO_FAULTS := Receivers.StopFaults(false, false, false)
  const STARTS := Receivers.StartFaults(false, false, false, false, false, false)

  /** A payload that does not fit, after some driver time. */
  function Unfit(ms: nat): ReportScript {
    ReportScript(ms, false, CloudLink.TooLarge, 0, NO_RESUME, CloudLink.TooLarge, 0, 0)
  }

  /** One that is taken, as slowly as the bounds allow. */
  function Slow(c: Config): ReportScript {
    ReportScript(c.bounds.driverMs, true, CloudLink.Answered(0), c.bounds.sendMs, NO_RESUME, CloudLink.TooLarge, 0,
                 c.bounds.locationMs)
  }

  function Search(fix: Arrival): AcquireScript {
    AcquireScript(Never, NO_FETCH, 0, fix, NO_FAULTS, false, 0, Never, NO_FETCH, 0, Never, NO_FETCH, 0, Never)
  }

  /** A cycle that takes no time but for its waits, and gets its fix at once. */
  const PLAIN := CycleScript(
    RecoverScript(0, 0), AlreadyRegistered, 0, NO_RESUME, 0, STARTS, 0, Search(At(0)),
    FirstScript(Never, Unfit(0), 0), Check(false, 0), [], NO_FAULTS, 0,
    PauseScript(false, 0, 0), SleepScript(0, false, Wake.Timer, 0))

  lemma FirstResume(c: Config, e: CycleScript)
    requires Full(c) && e.lte == AlreadyRegistered && e.resume.answers == NO_RESUME.answers
    ensures var w := First(c, 0);
            var m := ResumeLink(c, Attach(c, Recover(c, Top(w), e.recover), e.lte, e.lteDriverMs), e.resume).0;
            && Reaches(c, w, e) && m.life == Alive && Unfed(m.clock, 0)
            && m.clock.worst >= GuardedGap(c.connectBudgetS, e.resume.ms)
            && m.rx == w.rx && m.assist == Assistance.NEVER && m.cloud.link == CloudLink.Connected
  {
    var w := First(c, 0);
    var r := Recover(c, Top(w), e.recover);
    assert r.life == Alive && r.cloud == w.cloud && r.rx == w.rx && r.assist == w.assist;
  }

  /** The start after it: everything from the feed after the resume to the end of the warm-up is
      unfed. */
  lemma FirstStart(c: Config, e: CycleScript)
    requires Full(c) && e.lte == AlreadyRegistered && e.resume.answers == NO_RESUME.answers && !e.start.power
    ensures var (s, ok) := Started(c, First(c, 0), e);
            && s.life == Alive && Unfed(s.clock, e.resumeDriverMs + e.startMs + c.warmupMs)
            && s.clock.worst >= GuardedGap(c.connectBudgetS, e.resume.ms)
            && (s.rx, ok) == Receivers.Start(Receivers.Boot(true), e.start)
            && s.assist == Assistance.NEVER && s.cloud.link == CloudLink.Connected
  {
    FirstResume(c, e);
    var m := ResumeLink(c, Attach(c, Recover(c, Top(First(c, 0)), e.recover), e.lte, e.lteDriverMs), e.resume).0;
    var r := Spent(m, e.resumeDriverMs);
    SpendShows(m.clock, 0, e.resumeDriverMs);
    SpendShows(r.clock, e.resumeDriverMs, e.startMs + c.warmupMs);
    assert Receivers.Warms(r.rx, e.start);
    assert Started(c, First(c, 0), e) == StartReceiver(c, r, e.start, e.startMs);
  }

  /** A run of that one cycle. */
  lemma FirstCycle(c: Config, e: CycleScript)
    requires Full(c) && e.lte == AlreadyRegistered && e.resume.answers == NO_RESUME.answers && !e.start.power
    ensures var (s, ok) := Started(c, First(c, 0), e);
            Run(c, First(c, 0), [e]) == if ok then Tracked(c, s, false, e)
                                        else BatterySleep(c, PauseLink(c, s, e.pause), e.sleep)
  {
    FirstResume(c, e);
    CycleStages(c, First(c, 0), e);
    RunFirst(c, First(c, 0), e, []);
    assert [e] == [e] + [];
  }

  lemma RunFirst(c: Config, w: World, e: CycleScript, rest: seq<CycleScript>)
    requires w.life == Alive
    ensures Run(c, w, [e] + rest) == Run(c, Cycle(c, w, e), rest)
  {
    assert ([e] + rest)[1..] == rest;
  }

  lemma OneCycleReaches(c: Config, e: CycleScript, ms: nat)
    requires Timely(c, e) && Run(c, First(c, 0), [e]).clock.worst >= ms
    ensures Reached(c, ms)
  {
    assert AllTimely(c, [e]);
  }

  // ---------------------------------------------------------------- no receiver

  /** The external module powers up, its UART does not resume, and the modem's receiver fails. */
  function Deaf(c: Config): CycleScript {
    PLAIN.(resumeDriverMs := c.bounds.driverMs, startMs := c.bounds.driverMs,
           start := Receivers.StartFaults(false, true, false, false, false, true),
           pause := PauseScript(false, 0, c.bounds.pauseMs),
           sleep := SleepScript(c.bounds.driverMs, false, Wake.Timer, SleepMs(c)))
  }

  lemma NoReceiverIsReached(c: Config)
    requires Full(c)
    ensures Reached(c, NoReceiverStretch(c))
  {
    var e := Deaf(c);
    FirstStart(c, e);
    FirstCycle(c, e);
    var (s, ok) := Started(c, First(c, 0), e);
    var gap := 2 * c.bounds.driverMs + c.warmupMs;
    SpendShows(s.clock, gap, c.bounds.pauseMs);
    SpendShows(PauseLink(c, s, e.pause).clock, gap + c.bounds.pauseMs, c.bounds.driverMs + SleepMs(c));
    OneCycleReaches(c, e, NoReceiverStretch(c));
  }

  // ---------------------------------------------------------------- no fix

  /** Neither receiver finds a fix in its window, and a download that succeeds does not help. */
  function Lost(c: Config): CycleScript {
    var d := c.bounds.driverMs;
    PLAIN.(resumeDriverMs := d, startMs := d,
           acquire := AcquireScript(
             Never, NO_FETCH, 0, Never, NO_FAULTS, false, d, Never, NO_FETCH, 0, Never,
             Assistance.Fetch(true, true, d, 0, false, false), d, Never))
  }

  lemma LostSearch(c: Config, w: World, e: AcquireScript)
    requires Full(c) && e == Lost(c).acquire
    requires w.rx.active == Receivers.External && w.cloud.link == CloudLink.Connected
    requires w.assist == Assistance.NEVER && Unfed(w.clock, 2 * c.bounds.driverMs + c.warmupMs)
    ensures Acquire(c, w, e).w.clock.worst >= SearchStretch(c)
    ensures Acquire(c, w, e).w.clock.worst >= AssistedStretch(c)
  {
    var d := c.bounds.driverMs;
    var f := FirstTry(c, w, e);
    SpendShows(w.clock, 2 * d + c.warmupMs, c.externalFixS * 1000);
    assert f == Acquired(Spent(w, c.externalFixS * 1000), false, false);
    var b := FallBack(c, f, e);
    LostFallBack(c, f, e, 2 * d + c.warmupMs + c.externalFixS * 1000);
    LostLastChance(c, b, e, SearchStretch(c) - d);
  }

  lemma LostFallBack(c: Config, a: Acquired, e: AcquireScript, gap: nat)
    requires Full(c) && e == Lost(c).acquire && !a.haveFix && !a.assisted
    requires a.w.rx.active == Receivers.External && a.w.cloud.link == CloudLink.Connected
    requires a.w.assist == Assistance.NEVER && Unfed(a.w.clock, gap)
    ensures var b := FallBack(c, a, e);
            && !b.haveFix && !b.assisted && b.w.rx.active == Receivers.Modem
            && b.w.cloud == a.w.cloud && b.w.assist == a.w.assist
            && Unfed(b.w.clock, gap + c.bounds.driverMs + (c.proactiveS + c.onboardFixS) * 1000)
  {
    var d := c.bounds.driverMs;
    var b := Spent(a.w.(rx := Receivers.Fallback(a.w.rx, e.stop, e.startFault).0), d);
    SpendShows(a.w.clock, gap, d);
    var p := Proactive(c, b, e.request2, e.fetch2, e.fetchMs2);
    assert p == (Spent(b, c.proactiveS * 1000), false);
    SpendShows(b.clock, gap + d, c.proactiveS * 1000);
    SpendShows(p.0.clock, gap + d + c.proactiveS * 1000, c.onboardFixS * 1000);
  }

  lemma LostLastChance(c: Config, b: Acquired, e: AcquireScript, gap: nat)
    requires Full(c) && e == Lost(c).acquire && !b.haveFix && !b.assisted
    requires b.w.rx.active == Receivers.Modem && b.w.cloud.link == CloudLink.Connected
    requires b.w.assist == Assistance.NEVER && Unfed(b.w.clock, gap)
    ensures var r := LastChance(c, b, e).w.clock;
            r.worst >= gap + c.bounds.driverMs && r.worst >= AssistedStretch(c)
  {
    var d := c.bounds.driverMs;
    SpendShows(b.w.clock, gap, d);
    var g := Guarded(Spend(b.w.clock, d), c.assist.budgetS, 0);
    var (p, ok) := Fetch(c, b.w, e.fetch3, e.fetchMs3);
    assert ok && p.clock == Spend(g, d);
    SpendShows(g, 0, d);
    SpendShows(p.clock, d, c.assistedFixS * 1000);
  }

  lemma SearchesAreReached(c: Config)
    requires Full(c)
    ensures Reached(c, SearchStretch(c)) && Reached(c, AssistedStretch(c))
  {
    var e := Lost(c);
    FirstStart(c, e);
    FirstCycle(c, e);
    var s := Started(c, First(c, 0), e).0;
    LostSearch(c, s, e.acquire);
    TrackedLater(c, s, false, e);
    OneCycleReaches(c, e, SearchStretch(c));
    OneCycleReaches(c, e, AssistedStretch(c));
  }

  // ---------------------------------------------------------------- reports

  /** Where the first report of the first cycle begins. */
  function ReportStart(c: Config, e: CycleScript): World {
    Fed(Acquire(c, Started(c, First(c, 0), e).0, e.acquire).w)
  }

  /** A cycle with a fix at once comes there freshly fed. */
  lemma FixAtOnce(c: Config, e: CycleScript)
    requires Full(c) && e == PLAIN.(first := e.first, entry := e.entry, passes := e.passes, stopMs := e.stopMs,
                                    pause := e.pause, sleep := e.sleep)
    ensures var s := Started(c, First(c, 0), e).0;
            && Run(c, First(c, 0), [e]) == Tracked(c, s, false, e)
            && Acquire(c, s, e.acquire).haveFix
            && ReportStart(c, e).life == Alive && Unfed(ReportStart(c, e).clock, 0)
  {
    FirstStart(c, e);
    FirstCycle(c, e);
  }

  /** What a report adds to a gap: nothing that lasts if it is taken, driver time if not. */
  lemma ReportShows(c: Config, w: World, e: ReportScript, gap: nat)
    requires Full(c) && Unfed(w.clock, gap)
    ensures e == Slow(c) ==>
              Report(c, w, e, true).clock.worst >= gap + c.bounds.driverMs + c.bounds.sendMs + c.bounds.locationMs
    ensures e == Unfit(c.bounds.driverMs) ==> Unfed(Report(c, w, e, true).clock, gap + c.bounds.driverMs)
  {
    var d := c.bounds.driverMs;
    SpendShows(w.clock, gap, d);
    if e == Slow(c) {
      var b := Spend(w.clock, d);
      SpendShows(b, gap + d, c.bounds.sendMs);
      SpendShows(Spend(b, c.bounds.sendMs), gap + d + c.bounds.sendMs, c.bounds.locationMs);
    }
  }

  lemma FirstReportRuns(c: Config, first: FirstScript)
    requires Full(c) && TimelyReport(c, first.report) && first.driverMs <= c.bounds.driverMs
    ensures var e := PLAIN.(first := first);
            && Timely(c, e) && Unfed(ReportStart(c, e).clock, 0)
            && Later(FirstReport(c, ReportStart(c, e), true, first), Run(c, First(c, 0), [e]))
  {
    var e := PLAIN.(first := first);
    FixAtOnce(c, e);
    TrackedLater(c, Started(c, First(c, 0), e).0, false, e);
  }

  lemma FirstReportShows(c: Config, w: World, first: FirstScript)
    requires Full(c) && Unfed(w.clock, 0) && first.better == Never
    ensures first.report == Slow(c) ==>
              FirstReport(c, w, true, first).clock.worst
              >= SettleMs(c) + c.bounds.driverMs + c.bounds.sendMs + c.bounds.locationMs
    ensures first.report == Unfit(c.bounds.driverMs) && first.driverMs == c.bounds.driverMs ==>
              FirstReport(c, w, true, first).clock.worst >= SettleMs(c) + 2 * c.bounds.driverMs
  {
    var f := SettleFix(c, w, Never);
    assert Unfed(f.clock, SettleMs(c));
    ReportShows(c, f, first.report, SettleMs(c));
    var r := Report(c, f, first.report, true);
    assert Spend(r.clock, first.driverMs).worst >= r.clock.worst;
    if first.report == Unfit(c.bounds.driverMs) {
      SpendShows(r.clock, SettleMs(c) + c.bounds.driverMs, first.driverMs);
    }
  }

  lemma FirstReportIsReached(c: Config)
    requires Full(c)
    ensures Reached(c, FirstReportStretch(c))
  {
    var long := c.bounds.sendMs + c.bounds.locationMs >= c.bounds.driverMs;
    var first := if long then FirstScript(Never, Slow(c), 0)
                 else FirstScript(Never, Unfit(c.bounds.driverMs), c.bounds.driverMs);
    var e := PLAIN.(first := first);
    FirstReportRuns(c, first);
    FirstReportShows(c, ReportStart(c, e), first);
    OneCycleReaches(c, e, FirstReportStretch(c));
  }

  // ---------------------------------------------------------------- the frequent loop

  /** A powered pass that finds its fix at the last moment. */
  function LatePass(c: Config, report: ReportScript): Pass {
    Pass(Check(true, 0), false, false, c.bounds.driverMs, At(10_000), report, c.bounds.driverMs)
  }

  lemma LatePassShows(c: Config, w: World, report: ReportScript, gap: nat)
    requires Full(c) && Unfed(w.clock, gap)
    ensures var r := PassBody(c, w, LatePass(c, report)).clock;
            && r.worst >= gap + IntervalMs(c) + c.bounds.driverMs
            && (report == Slow(c) ==> r.worst >= PassReportStretch(c))
            && (report == Unfit(c.bounds.driverMs) ==> Unfed(r, CarriedGap(c)))
  {
    var p, d := LatePass(c, report), c.bounds.driverMs;
    SpendShows(w.clock, gap, IntervalMs(c) + d);
    var t := PassSleep(c, w, p);
    SpendShows(t.clock, 0, 10_000);
    var (f, have) := WaitFix(t, 10, p.fix);
    ReportShows(c, f, report, 10_000);
    ReportLater(c, f, have, report);
    if report == Unfit(d) {
      SpendShows(Report(c, f, report, true).clock, 10_000 + d, d);
    }
  }

  /** A cycle that goes straight to the loop. */
  function Driving(c: Config, ps: seq<Pass>): CycleScript {
    PLAIN.(entry := Check(true, 0), passes := ps, stopMs := c.bounds.driverMs,
           pause := PauseScript(false, 0, c.bounds.pauseMs),
           sleep := SleepScript(c.bounds.driverMs, false, Wake.Timer, SleepMs(c)))
  }

  /** Where its loop begins. */
  function LoopStart(c: Config, e: CycleScript): World {
    FirstReport(c, ReportStart(c, e), true, e.first)
  }

  lemma DrivingRuns(c: Config, ps: seq<Pass>)
    requires Full(c) && forall i :: 0 <= i < |ps| ==> TimelyPass(c, ps[i])
    ensures var e, w := Driving(c, ps), LoopStart(c, Driving(c, ps));
            var r := Run(c, First(c, 0), [e]);
            var l := Loop(c, w, false, ps);
            && Timely(c, e) && Unfed(w.clock, 0) && w.life == Alive
            && Later(l.w, r) && (l.left ==> r == Park(c, l.w, e))
  {
    var e := Driving(c, ps);
    FixAtOnce(c, e);
    TrackedLater(c, Started(c, First(c, 0), e).0, false, e);
  }

  lemma OnePass(c: Config, w: World, p: Pass)
    requires p.check.vbus
    ensures Loop(c, w, false, [p]).w == PassBody(c, w, p)
  {
    MainFrequent.LoopStep(c, w, false, [p]);
    assert [p][1..] == [];
  }

  lemma PassAnd(c: Config, w: World, p: Pass, q: Pass)
    requires p.check.vbus
    ensures var l, r := Loop(c, w, false, [p, q]), Loop(c, PassBody(c, w, p), false, [q]);
            l.w == r.w && l.left == r.left
  {
    MainFrequent.LoopStep(c, w, false, [p, q]);
    assert [p, q][1..] == [q];
  }

  lemma PassReportIsReached(c: Config)
    requires Full(c)
    ensures Reached(c, PassReportStretch(c))
  {
    var p := LatePass(c, Slow(c));
    var e := Driving(c, [p]);
    DrivingRuns(c, [p]);
    var w := LoopStart(c, e);
    LatePassShows(c, w, Slow(c), 0);
    OnePass(c, w, p);
    OneCycleReaches(c, e, PassReportStretch(c));
  }

  lemma PassIsReached(c: Config)
    requires Full(c)
    ensures Reached(c, PassStretch(c))
  {
    var p := LatePass(c, Unfit(c.bounds.driverMs));
    var e := Driving(c, [p, p]);
    DrivingRuns(c, [p, p]);
    var w := LoopStart(c, e);
    var v := PassBody(c, w, p);
    LatePassShows(c, w, p.report, 0);
    LatePassShows(c, v, p.report, CarriedGap(c));
    PassAnd(c, w, p, p);
    OnePass(c, v, p);
    OneCycleReaches(c, e, PassStretch(c));
  }

  lemma LeaveIsReached(c: Config)
    requires Full(c)
    ensures Reached(c, LeaveStretch(c))
  {
    var d := c.bounds.driverMs;
    var p := LatePass(c, Unfit(d));
    var q := p.(check := Check(false, 0));
    var e := Driving(c, [p, q]);
    DrivingRuns(c, [p, q]);
    var w := LoopStart(c, e);
    var v := PassBody(c, w, p);
    LatePassShows(c, w, p.report, 0);
    PassAnd(c, w, p, q);
    assert Loop(c, v, false, [q]) == Looped(v, true, 0);
    var s := Spent(v.(rx := Receivers.Stop(v.rx, c.powerCycle, e.stop)), d);
    SpendShows(v.clock, CarriedGap(c), d);
    SpendShows(s.clock, CarriedGap(c) + d, c.bounds.pauseMs);
    SpendShows(PauseLink(c, s, e.pause).clock, CarriedGap(c) + d + c.bounds.pauseMs, d + SleepMs(c));
    OneCycleReaches(c, e, LeaveStretch(c));
  }

  // ---------------------------------------------------------------- boot and guard

  lemma BootIsReached(c: Config)
    ensures Reached(c, c.bounds.bootMs)
  {
    assert Run(c, First(c, c.bounds.bootMs), []).clock.worst >= c.bounds.bootMs && AllTimely(c, []);
  }

  lemma GuardIsReached(c: Config)
    requires Full(c)
    ensures Reached(c, GUARD_PERIOD)
  {
    var e := PLAIN.(resume := ResumeScript(NO_RESUME.answers, GUARD_PERIOD));
    FirstStart(c, e);
    FirstCycle(c, e);
    var s := Started(c, First(c, 0), e).0;
    assert GuardedGap(c.connectBudgetS, GUARD_PERIOD) == GUARD_PERIOD;
    TrackedLater(c, s, false, e);
    AcquireLater(c, s, e.acquire);
    OneCycleReaches(c, e, GUARD_PERIOD);
  }

  // ---------------------------------------------------------------- a call that hangs

  lemma StartedLater(c: Config, w: World, e: CycleScript)
    ensures Started(c, w, e).0.clock.worst >= GuardedGap(c.connectBudgetS, e.resume.ms)
  {
  }

  lemma ProactiveLater(c: Config, w: World, a: Arrival, f: Assistance.Fetch, ms: nat)
    ensures Later(w, Proactive(c, w, a, f, ms).0)
  {
  }

  lemma LastChanceLater(c: Config, a: Acquired, e: AcquireScript)
    ensures Later(a.w, LastChance(c, a, e).w)
  {
  }

  lemma FallBackLater(c: Config, a: Acquired, e: AcquireScript)
    ensures Later(a.w, FallBack(c, a, e).w)
  {
    var rx := Receivers.Fallback(a.w.rx, e.stop, e.startFault).0;
    ProactiveLater(c, Spent(a.w.(rx := rx), e.fallbackMs), e.request2, e.fetch2, e.fetchMs2);
  }

  lemma AcquireLater(c: Config, w: World, e: AcquireScript)
    ensures Later(w, Acquire(c, w, e).w)
  {
    ProactiveLater(c, w, e.request, e.fetch, e.fetchMs);
    FallBackLater(c, FirstTry(c, w, e), e);
    LastChanceLater(c, FallBack(c, FirstTry(c, w, e), e), e);
  }

  lemma SleepLater(c: Config, w: World, e: CycleScript)
    ensures Later(w, BatterySleep(c, PauseLink(c, w, e.pause), e.sleep))
  {
  }

  lemma CycleLater(c: Config, w: World, e: CycleScript)
    requires w.life == Alive && Reaches(c, w, e)
    ensures Later(Started(c, w, e).0, Cycle(c, w, e))
  {
    CycleStages(c, w, e);
    var (s, ok) := Started(c, w, e);
    if ok {
      TrackedLater(c, s, w.wake == Wake.Motion, e);
      AcquireLater(c, s, e.acquire);
    } else {
      SleepLater(c, s, e);
    }
  }

  /** And the reset of a hanging reconnect is not undone by what would have come after it: a cycle
      whose cloud_resume() outlasts its guard by the timeout is reset. */
  lemma HangingCycleIsReset(c: Config, w: World, e: CycleScript)
    requires w.life == Alive && Reaches(c, w, e) && 30_000 < WatchdogMs(c)
    requires 30_000 * ((c.connectBudgetS + 29) / 30) + WatchdogMs(c) <= e.resume.ms
    ensures Cycle(c, w, e).clock.worst >= WatchdogMs(c)
  {
    GuardResetsExactly(c.connectBudgetS, e.resume.ms, WatchdogMs(c));
    StartedLater(c, w, e);
    CycleLater(c, w, e);
  }

  // ---------------------------------------------------------------- no network

  /** The slowest cycle without a network that still keeps every bound. */
  function Dead(c: Config): CycleScript {
    PLAIN.(recover := RecoverScript(c.bounds.modeMs, c.bounds.modeMs), lte := Awaited(Never),
           lteDriverMs := c.bounds.driverMs,
           sleep := SleepScript(c.bounds.driverMs, false, Wake.Timer, SleepMs(c)))
  }

  function QuietMin(w: World): int {
    (w.clock.now as int - w.silence.lastSend as int) / MINUTE
  }

  /** At a cycle that has to restart the modem and then finds no network, the bound is met: an
      unfed stretch of that length happens though every call keeps to its timeout. */
  lemma NoNetworkStretchIsMet(c: Config, w: World)
    requires !c.build.skipLte && w.life == Alive
    requires !w.silence.bounced && c.recoveryMin <= QuietMin(w) < c.rebootMin
    ensures Timely(c, Dead(c))
    ensures Cycle(c, w, Dead(c)).clock.worst >= NoNetworkStretch(c)
  {
    var e := Dead(c);
    var r := Recover(c, Top(w), e.recover);
    var l := Attach(c, r, e.lte, e.lteDriverMs);
    SpendShows(Top(w).clock, 0, 2 * c.bounds.modeMs + 1000);
    SpendShows(r.clock, 2 * c.bounds.modeMs + 1000, LteMs(c) + c.bounds.driverMs);
    SpendShows(l.clock, 2 * c.bounds.modeMs + 1000 + LteMs(c) + c.bounds.driverMs, c.bounds.driverMs + SleepMs(c));
    assert Cycle(c, w, e) == BatterySleep(c, l, e.sleep);
  }

  /** A cycle without a network that only sleeps. */
  function Nap(ms: nat): CycleScript {
    PLAIN.(lte := ConnectRefused, sleep := SleepScript(0, false, Wake.Timer, ms))
  }

  lemma NapTakes(c: Config, w: World, ms: nat)
    requires !c.build.skipLte && w.life == Alive && QuietMin(w) < c.recoveryMin
    ensures var r := Cycle(c, w, Nap(ms));
            && r.clock.now == w.clock.now + ms && r.life == Alive
            && r.silence == w.silence.(bounced := false)
  {
    var e := Nap(ms);
    var l := Attach(c, Recover(c, Top(w), e.recover), e.lte, e.lteDriverMs);
    assert Cycle(c, w, e) == BatterySleep(c, l, e.sleep);
  }

  /** Sleeping until the silence is just long enough for a restart, and then that cycle. */
  lemma {:induction false} NapsUntilRestart(c: Config, w: World) returns (es: seq<CycleScript>)
    requires Full(c) && w.life == Alive && w.silence == Silence(0, false, []) && w.clock.now <= RecoveryMs(c)
    ensures AllTimely(c, es) && Run(c, w, es).clock.worst >= NoNetworkStretch(c)
    decreases RecoveryMs(c) - w.clock.now
  {
    if w.clock.now == RecoveryMs(c) {
      es := [Dead(c)];
      NoNetworkStretchIsMet(c, w);
      RunFirst(c, w, Dead(c), []);
      assert es == [Dead(c)] + [];
    } else {
      var ms := Min(SleepMs(c), RecoveryMs(c) - w.clock.now);
      NapTakes(c, w, ms);
      var rest := NapsUntilRestart(c, Cycle(c, w, Nap(ms)));
      RunFirst(c, w, Nap(ms), rest);
      assert Timely(c, Nap(ms));
      es := [Nap(ms)] + rest;
    }
  }

  lemma NoNetworkIsReached(c: Config)
    requires Full(c)
    ensures Reached(c, NoNetworkStretch(c))
  {
    var es := NapsUntilRestart(c, First(c, 0));
    assert 0 <= c.bounds.bootMs;
  }

  // ---------------------------------------------------------------- the bound is exact

  lemma LongestIsOne(c: Config)
    ensures || LongestStretch(c) == c.bounds.bootMs || LongestStretch(c) == GUARD_PERIOD
            || LongestStretch(c) == NoNetworkStretch(c) || LongestStretch(c) == NoReceiverStretch(c)
            || LongestStretch(c) == SearchStretch(c) || LongestStretch(c) == AssistedStretch(c)
            || LongestStretch(c) == FirstReportStretch(c) || LongestStretch(c) == PassStretch(c)
            || LongestStretch(c) == PassReportStretch(c) || LongestStretch(c) == LeaveStretch(c)
  {
  }

  lemma LongestIsReached(c: Config)
    requires Full(c)
    ensures Reached(c, LongestStretch(c))
  {
    LongestIsOne(c);
    var longest := LongestStretch(c);
    if longest == c.bounds.bootMs {
      BootIsReached(c);
    } else if longest == GUARD_PERIOD {
      GuardIsReached(c);
    } else if longest == NoNetworkStretch(c) {
      NoNetworkIsReached(c);
    } else if longest == NoReceiverStretch(c) {
      NoReceiverIsReached(c);
    } else if longest == SearchStretch(c) || longest == AssistedStretch(c) {
      SearchesAreReached(c);
    } else if longest == FirstReportStretch(c) {
      FirstReportIsReached(c);
    } else if longest == PassStretch(c) {
      PassIsReached(c);
    } else if longest == PassReportStretch(c) {
      PassReportIsReached(c);
    } else {
      LeaveIsReached(c);
    }
  }

  lemma LongerIsExcluded(c: Config, ms: nat)
    requires LongestStretch(c) < ms
    ensures Excluded(c, ms)
  {
    forall bootMs: nat, external, accelerometer, credentials, es: seq<CycleScript> |
      bootMs <= c.bounds.bootMs && AllTimely(c, es)
      ensures Run(c, Boot(c, bootMs, external, accelerometer, credentials), es).clock.worst < ms
    {
      StaysWithinLongest(c, bootMs, external, accelerometer, credentials, es);
    }
  }

  lemma ReachedIsNotExcluded(c: Config, ms: nat, less: nat)
    requires Reached(c, ms) && less <= ms
    ensures Reached(c, less) && !Excluded(c, less)
  {
    var bootMs: nat, es :| bootMs <= c.bounds.bootMs && AllTimely(c, es)
                           && Run(c, First(c, bootMs), es).clock.worst >= ms;
    assert First(c, bootMs) == Boot(c, bootMs, true, false, true);
  }

  /** The longest stretch is the longest time without a feed over all timely runs: a duration is
      reached by one of them exactly when it is at most that, and excluded otherwise. */
  lemma LongestIsExact(c: Config, ms: nat)
    requires Full(c)
    ensures Reached(c, ms) <==> ms <= LongestStretch(c)
    ensures Excluded(c, ms) <==> LongestStretch(c) < ms
  {
    if LongestStretch(c) < ms {
      LongerIsExcluded(c, ms);
      if Reached(c, ms) {
        ReachedIsNotExcluded(c, ms, ms);
      }
    } else {
      LongestIsReached(c);
      ReachedIsNotExcluded(c, LongestStretch(c), ms);
    }
  }

  /** So timely runs never let the watchdog time out exactly when the configuration is covered. */
  lemma CoveredExactly(c: Config)
    requires Full(c)
    ensures Excluded(c, WatchdogMs(c)) <==> Covered(c)
  {
    CoveredMeansShorter(c);
    LongestIsExact(c, WatchdogMs(c));
  }

  /** With the defaults that is 685 s, of 840 s. */
  lemma DefaultsMeetTheBound()
    ensures Full(DEFAULTS) && Reached(DEFAULTS, 685_000)
    ensures Excluded(DEFAULTS, 685_001) && Excluded(DEFAULTS, 840_000)
  {
    DefaultsCovered();
    LongestIsExact(DEFAULTS, 685_000);
    LongestIsExact(DEFAULTS, 685_001);
    LongestIsExact(DEFAULTS, 840_000);
  }
}
