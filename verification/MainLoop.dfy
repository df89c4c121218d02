/** main.c: the report loop as a function of what each call answers and how long it takes.

    A cycle is a chain of stages, each a function from the state of the whole tracker to the
    next. Whatever the environment decides - answers of libraries and drivers, times, jolts,
    external power - is in the cycle's script, so a statement about every script is a statement
    about every run. Times are uptime in milliseconds. */
module MainLoop {
  import opened TrackerConfig
  import opened Watchdog
  import Assistance
  import CloudLink
  import Motion
  import Receivers
  import Wake

  // ---------------------------------------------------------------- state

  datatype SilenceEvent = Accepted(at: nat) | Restarted(at: nat) | Rebooted(at: nat)

  /** last_send_uptime and modem_bounced, with the history of what moved them. */
  datatype Silence = Silence(lastSend: nat, bounced: bool, log: seq<SilenceEvent>)

  /** A look at external power, or a battery sleep: what was decided, whether the interrupt was
      armed throughout it, and what the receivers were doing. */
  datatype NightEvent = PowerSeen | Slept(decided: bool, armed: bool, active: Receivers.Source, hw: Receivers.Hardware)

  /** battery_sleeps, and motion.c's two flags. */
  datatype Settle = Settle(count: nat, usable: bool, armed: bool, log: seq<NightEvent>)

  /** Whether the run goes on, ended in a reboot, or is cut short inside the frequent loop. */
  datatype Life = Alive | Rebooting | InLoop

  datatype World = World(
    clock: Clock, silence: Silence, settle: Settle, rx: Receivers.State, cloud: CloudLink.State,
    assist: Assistance.State, fetches: nat, wake: Wake.Reason, life: Life)

  /** Boot, up to the first cycle. The watchdog starts at time 0. */
  function Boot(c: Config, bootMs: nat, external: bool, accelerometer: bool, credentials: bool): World {
    World(Spend(Clock(0, 0, 0), bootMs), Silence(0, false, []),
          Settle(c.settleCycles, accelerometer, false, []), Receivers.Boot(external),
          CloudLink.Boot(credentials), Assistance.NEVER, 0, Wake.Boot, Alive)
  }

  // ---------------------------------------------------------------- scripts

  /** Something awaited arrives after some time, or never. */
  datatype Arrival = At(ms: nat) | Never

  /** lte_ensure_connected(): registered already, the connect call refused, or the outcome of
      waiting for registration. */
  datatype LteAnswer = AlreadyRegistered | ConnectRefused | Awaited(a: Arrival)

  datatype RecoverScript = RecoverScript(offlineMs: nat, normalMs: nat)

  datatype ResumeScript = ResumeScript(answers: CloudLink.Answers, ms: nat)

  datatype ReportScript = ReportScript(
    driverMs: nat, fits: bool, send: CloudLink.Delivery, sendMs: nat, resume: ResumeScript,
    resend: CloudLink.Delivery, resendMs: nat, locationMs: nat)

  datatype AcquireScript = AcquireScript(
    request: Arrival, fetch: Assistance.Fetch, fetchMs: nat, fix: Arrival,
    stop: Receivers.StopFaults, startFault: bool, fallbackMs: nat,
    request2: Arrival, fetch2: Assistance.Fetch, fetchMs2: nat, fix2: Arrival,
    fetch3: Assistance.Fetch, fetchMs3: nat, fix3: Arrival)

  datatype FirstScript = FirstScript(better: Arrival, report: ReportScript, driverMs: nat)

  /** One evaluation of the frequent loop's condition: external power, and the jolt stamp as
      read. */
  datatype Check = Check(vbus: bool, jolt: nat)

  datatype Pass = Pass(
    check: Check, powered: bool, triggerFault: bool, sleepMs: nat, fix: Arrival,
    report: ReportScript, driverMs: nat)

  datatype PauseScript = PauseScript(keepOpen: bool, answer: int, ms: nat)

  datatype SleepScript = SleepScript(driverMs: nat, triggerFault: bool, reason: Wake.Reason, ms: nat)

  datatype CycleScript = CycleScript(
    recover: RecoverScript, lte: LteAnswer, lteDriverMs: nat,
    resume: ResumeScript, resumeDriverMs: nat,
    start: Receivers.StartFaults, startMs: nat,
    acquire: AcquireScript, first: FirstScript,
    entry: Check, passes: seq<Pass>,
    stop: Receivers.StopFaults, stopMs: nat, pause: PauseScript, sleep: SleepScript)

  // ---------------------------------------------------------------- pieces

  function Spent(w: World, ms: nat): World {
    w.(clock := Spend(w.clock, ms))
  }

  function Fed(w: World): World {
    w.(clock := Feed(w.clock))
  }

  predicate Arrives(timeoutS: nat, a: Arrival) {
    a.At? && a.ms <= timeoutS * 1000
  }

  /** The time a bounded wait takes. */
  function WaitMs(timeoutS: nat, a: Arrival): nat {
    if Arrives(timeoutS, a) then a.ms else timeoutS * 1000
  }

  function ObservePower(s: Settle): Settle {
    s.(count := 0, log := s.log + [PowerSeen])
  }

  function Arm(c: Config, s: Settle, arm: bool, fault: bool): Settle {
    if c.motionWake then s.(armed := Motion.NextArmed(s.usable, s.armed, arm, fault)) else s
  }

  /** surge_active() */
  predicate SurgeActive(c: Config, motionCycle: bool, now: nat, jolt: nat) {
    motionCycle && c.motionWake && Motion.InSurge(SurgeMs(c), now, jolt)
  }

  /** agnss_wanted() */
  predicate AgnssWanted(c: Config, w: World) {
    c.agnss && !c.build.skipLte && w.rx.active == Receivers.Modem
    && CloudLink.SupportsAgnss(c.build) && CloudLink.Ready(c.build, w.cloud)
  }

  function FixTimeoutS(c: Config, rx: Receivers.State): nat {
    if rx.active == Receivers.External then c.externalFixS else c.onboardFixS
  }

  predicate FallbackAvailable(c: Config, rx: Receivers.State) {
    c.external && rx.active == Receivers.External && c.modemFallback
  }

  // ---------------------------------------------------------------- stages

  /** The top of a cycle: a wake by power restarts the settle count, and the watchdog is fed. */
  function Top(w: World): World {
    var s := if w.wake == Wake.Vbus then ObservePower(w.settle) else w.settle;
    Fed(w.(settle := s))
  }

  /** recover_if_silent() */
  function Recover(c: Config, w: World, e: RecoverScript): (r: World)
    ensures r.clock.now >= w.clock.now
    ensures r.settle == w.settle && r.rx == w.rx && r.cloud == w.cloud && r.assist == w.assist && r.wake == w.wake && r.fetches == w.fetches
  {
    var now, s := w.clock.now, w.silence;
    var quietMin := (now as int - s.lastSend as int) / MINUTE;
    if quietMin < c.recoveryMin then w.(silence := s.(bounced := false))
    else if quietMin >= c.rebootMin then
      Spent(w.(silence := s.(log := s.log + [Rebooted(now)]), life := Rebooting), 200)
    else if s.bounced then w
    else
      Spent(w.(silence := s.(bounced := true, log := s.log + [Restarted(now)])),
            e.offlineMs + 1000 + e.normalMs)
  }

  predicate LteUp(c: Config, a: LteAnswer) {
    a == AlreadyRegistered || (a.Awaited? && Arrives(c.lteS, a.a))
  }

  function LteWaitMs(c: Config, a: LteAnswer): nat {
    if a.Awaited? then WaitMs(c.lteS, a.a) else 0
  }

  /** A guarded cloud_resume(). */
  function ResumeLink(c: Config, w: World, e: ResumeScript): (r: (World, int))
    ensures r.0.clock.now >= w.clock.now
    ensures r.0 == w.(clock := r.0.clock, cloud := r.0.cloud)
  {
    var (cloud, err) := CloudLink.Resume(c.build, c.modemTimeS, w.cloud, e.answers);
    (w.(clock := Guarded(w.clock, c.connectBudgetS, e.ms), cloud := cloud), err)
  }

  function PauseLink(c: Config, w: World, e: PauseScript): (r: World)
    ensures r.clock.now >= w.clock.now
    ensures r == w.(clock := r.clock, cloud := r.cloud)
  {
    Spent(w.(cloud := CloudLink.Pause(c.build, w.cloud, e.keepOpen, e.answer)), e.ms)
  }

  /** battery_sleep() */
  function BatterySleep(c: Config, w: World, e: SleepScript): (r: World)
    ensures r.clock.now >= w.clock.now && w.settle.log <= r.settle.log
    ensures r == w.(clock := r.clock, settle := r.settle, wake := e.reason)
  {
    var arm := w.settle.count >= c.settleCycles;
    var s := Arm(c, w.settle, arm, e.triggerFault);
    var t := s.(count := if arm then s.count else s.count + 1,
                log := s.log + [Slept(arm, s.armed, w.rx.active, w.rx.hw)]);
    Spent(w.(settle := t, wake := e.reason), e.driverMs + e.ms)
  }

  /** gnss_start(), after the LED has been refreshed. */
  function StartReceiver(c: Config, w: World, f: Receivers.StartFaults, ms: nat): (r: (World, bool))
    ensures r.0.clock.now >= w.clock.now && w.rx.seen <= r.0.rx.seen
    ensures r.0 == w.(clock := r.0.clock, rx := r.0.rx)
  {
    var (rx, ok) := Receivers.Start(w.rx, f);
    var warmup := if Receivers.Warms(w.rx, f) then c.warmupMs else 0;
    (Spent(w.(rx := rx), ms + warmup), ok)
  }

  function Fetch(c: Config, w: World, f: Assistance.Fetch, ms: nat): (t: (World, bool))
    ensures t.0.clock.now >= w.clock.now && w.rx.seen <= t.0.rx.seen
    ensures t.0 == w.(clock := t.0.clock, rx := t.0.rx, assist := t.0.assist, fetches := w.fetches + 1)
  {
    var r := Assistance.FetchAndInject(c.assist, w.clock, w.rx, w.assist, f);
    var restart := if Assistance.RateLimited(c.assist, w.assist, w.clock.now) then 0 else ms;
    (Spent(w.(clock := r.clock, rx := r.rx, assist := r.state, fetches := w.fetches + 1), restart), r.ok)
  }

  /** Fetch up front if the receiver asks for assistance soon after its start. */
  function Proactive(c: Config, w: World, request: Arrival, f: Assistance.Fetch, ms: nat): (r: (World, bool))
    ensures r.0.clock.now >= w.clock.now && w.rx.seen <= r.0.rx.seen
    ensures r.0 == w.(clock := r.0.clock, rx := r.0.rx, assist := r.0.assist, fetches := r.0.fetches)
  {
    if !AgnssWanted(c, w) then (w, false)
    else
      var t := Spent(w, WaitMs(c.proactiveS, request));
      if Arrives(c.proactiveS, request) then Fetch(c, t, f, ms) else (t, false)
  }

  function WaitFix(w: World, timeoutS: nat, a: Arrival): (World, bool) {
    (Spent(w, WaitMs(timeoutS, a)), Arrives(timeoutS, a))
  }

  /** What a fix attempt may change. */
  predicate OnlySearched(w: World, r: World) {
    r.clock.now >= w.clock.now && w.rx.seen <= r.rx.seen
    && r == w.(clock := r.clock, rx := r.rx, assist := r.assist, fetches := r.fetches)
  }

  /** What a report may change. */
  predicate OnlyReported(w: World, r: World) {
    r.clock.now >= w.clock.now
    && r == w.(clock := r.clock, silence := r.silence, cloud := r.cloud)
  }

  /** What the frequent loop may change. */
  predicate OnlyLooped(w: World, r: World) {
    r.clock.now >= w.clock.now && w.settle.log <= r.settle.log
    && r == w.(clock := r.clock, silence := r.silence, cloud := r.cloud, settle := r.settle)
  }

  datatype Acquired = Acquired(w: World, haveFix: bool, assisted: bool)

  function FirstTry(c: Config, w: World, e: AcquireScript): (r: Acquired)
    ensures OnlySearched(w, r.w)
  {
    var (p, assisted) := Proactive(c, w, e.request, e.fetch, e.fetchMs);
    var (f, have) := WaitFix(p, FixTimeoutS(c, p.rx), e.fix);
    Acquired(f, have, assisted)
  }

  function FallBack(c: Config, a: Acquired, e: AcquireScript): (r: Acquired)
    ensures OnlySearched(a.w, r.w)
  {
    if a.haveFix || !FallbackAvailable(c, a.w.rx) then a
    else
      var (rx, ok) := Receivers.Fallback(a.w.rx, e.stop, e.startFault);
      var b := Spent(a.w.(rx := rx), e.fallbackMs);
      if !ok then a.(w := b)
      else
        var (p, assisted) := Proactive(c, b, e.request2, e.fetch2, e.fetchMs2);
        var (f, have) := WaitFix(p, FixTimeoutS(c, p.rx), e.fix2);
        Acquired(f, have, a.assisted || assisted)
  }

  function LastChance(c: Config, a: Acquired, e: AcquireScript): (r: Acquired)
    ensures OnlySearched(a.w, r.w)
  {
    if a.haveFix || a.assisted || !AgnssWanted(c, a.w) then a
    else
      var (p, ok) := Fetch(c, a.w, e.fetch3, e.fetchMs3);
      if !ok then a.(w := p)
      else
        var (f, have) := WaitFix(p, c.assistedFixS, e.fix3);
        Acquired(f, have, a.assisted)
  }

  function Acquire(c: Config, w: World, e: AcquireScript): (r: Acquired)
    ensures OnlySearched(w, r.w)
  {
    LastChance(c, FallBack(c, FirstTry(c, w, e), e), e)
  }

  /** Whether the answer makes report_fix() reconnect and send again. */
  predicate Stale(err: int) {
    err == CloudLink.EACCES || err == CloudLink.ENOTCONN
  }

  function Post(c: Config, w: World, d: CloudLink.Delivery, ms: nat): (r: (World, int))
    ensures r.0.clock.now >= w.clock.now
    ensures r.0 == w.(clock := r.0.clock, cloud := r.0.cloud)
  {
    var (cloud, err) := CloudLink.Send(c.build, w.cloud, d);
    (Spent(w.(cloud := cloud), ms), err)
  }

  /** The sending half of report_fix(): once, and once more after a reconnect if the link was
      stale. */
  function SendReport(c: Config, w: World, e: ReportScript): (r: (World, int))
    ensures r.0.clock.now >= w.clock.now
    ensures r.0 == w.(clock := r.0.clock, cloud := r.0.cloud)
  {
    var (p, err) := Post(c, w, e.send, e.sendMs);
    if !Stale(err) then (p, err)
    else
      var (r, resumed) := ResumeLink(c, p, e.resume);
      if resumed != CloudLink.OK then (r, resumed) else Post(c, r, e.resend, e.resendMs)
  }

  function Accept(w: World): World {
    var now := w.clock.now;
    w.(silence := w.silence.(lastSend := now, log := w.silence.log + [Accepted(now)]))
  }

  /** report_fix(): a payload that does not fit returns before the watchdog is fed. */
  function Report(c: Config, w: World, e: ReportScript, withFix: bool): (r: World)
    ensures OnlyReported(w, r)
  {
    var b := Spent(w, e.driverMs);
    if !e.fits then b
    else
      var (s, err) := SendReport(c, b, e);
      if err != CloudLink.OK then Fed(s)
      else if withFix then Fed(Spent(Accept(s), e.locationMs))
      else Fed(Accept(s))
  }

  /** A report if there is a fix, or without one if the build publishes those too. */
  function ReportIfAny(c: Config, w: World, haveFix: bool, e: ReportScript): (t: World)
    ensures OnlyReported(w, t)
  {
    if haveFix then Report(c, w, e, true)
    else if c.publishWithoutFix then Report(c, w, e, false)
    else w
  }

  /** Let the first fix settle and try for a better one. */
  function SettleFix(c: Config, w: World, better: Arrival): World {
    if c.extraFixS > 0 then WaitFix(Spent(w, c.extraFixS * 1000), 5, better).0 else w
  }

  /** The first report of a cycle, the LED and a feed. */
  function FirstReport(c: Config, w: World, haveFix: bool, e: FirstScript): (t: World)
    ensures OnlyReported(w, t)
  {
    var s := if haveFix then SettleFix(c, w, e.better) else w;
    Fed(Spent(ReportIfAny(c, s, haveFix, e.report), e.driverMs))
  }

  predicate Goes(c: Config, w: World, motionCycle: bool, k: Check) {
    k.vbus || SurgeActive(c, motionCycle, w.clock.now, k.jolt)
  }

  /** The start of a pass: disarm and restart the settle count if powered, sleep, feed. */
  function PassSleep(c: Config, w: World, p: Pass): World {
    var s := if p.powered then ObservePower(Arm(c, w.settle, false, p.triggerFault)) else w.settle;
    Fed(Spent(w.(settle := s), IntervalMs(c) + p.sleepMs))
  }

  /** One pass of the frequent loop. */
  function PassBody(c: Config, w: World, p: Pass): (t: World)
    ensures OnlyLooped(w, t)
  {
    var (f, have) := WaitFix(PassSleep(c, w, p), 10, p.fix);
    Spent(ReportIfAny(c, f, have, p.report), p.driverMs)
  }

  datatype Looped = Looped(w: World, left: bool, passes: nat)

  /** The frequent loop, as far as the script of checks reaches. */
  function Loop(c: Config, w: World, motionCycle: bool, ps: seq<Pass>): (r: Looped)
    ensures OnlyLooped(w, r.w)
    decreases |ps|
  {
    if ps == [] then Looped(w, false, 0)
    else if !Goes(c, w, motionCycle, ps[0].check) then Looped(w, true, 0)
    else
      var l := Loop(c, PassBody(c, w, ps[0]), motionCycle, ps[1..]);
      l.(passes := l.passes + 1)
  }

  function Frequent(c: Config, w: World, motionCycle: bool, entry: Check, ps: seq<Pass>): (r: World)
    ensures OnlyLooped(w, r.(life := w.life))
    ensures r.life == w.life || r.life == InLoop
  {
    if !Goes(c, w, motionCycle, entry) then w
    else
      var l := Loop(c, w, motionCycle, ps);
      if l.left then l.w else l.w.(life := InLoop)
  }

  /** On battery again: stop the receiver, pause the link, sleep. */
  function Park(c: Config, w: World, e: CycleScript): World {
    var rx := Receivers.Stop(w.rx, c.powerCycle, e.stop);
    BatterySleep(c, PauseLink(c, Spent(w.(rx := rx), e.stopMs), e.pause), e.sleep)
  }

  /** Everything from a fix attempt on. */
  function Tracked(c: Config, w: World, motionCycle: bool, e: CycleScript): World {
    var a := Acquire(c, w, e.acquire);
    var r := FirstReport(c, Fed(a.w), a.haveFix, e.first);
    var f := Frequent(c, r, motionCycle, e.entry, e.passes);
    if f.life != Alive then f else Park(c, f, e)
  }

  /** Everything from a registered modem on. */
  function Online(c: Config, w: World, motionCycle: bool, e: CycleScript): World {
    var r := Spent(ResumeLink(c, w, e.resume).0, e.resumeDriverMs);
    var (s, ok) := StartReceiver(c, r, e.start, e.startMs);
    if !ok then BatterySleep(c, PauseLink(c, s, e.pause), e.sleep)
    else Tracked(c, s, motionCycle, e)
  }

  /** lte_ensure_connected(), whose answer is in the script. */
  function Attach(c: Config, w: World, a: LteAnswer, ms: nat): (r: World)
    ensures r.clock.now >= w.clock.now
    ensures r == w.(clock := r.clock)
  {
    Spent(w, LteWaitMs(c, a) + ms)
  }

  /** The cycle a registered modem allows; without one, sleep and retry. */
  function Attached(c: Config, w: World, motionCycle: bool, e: CycleScript): World {
    if LteUp(c, e.lte) then Online(c, w, motionCycle, e) else BatterySleep(c, w, e.sleep)
  }

  /** With a network to bring up first: recover if silent, then register. */
  function Connect(c: Config, w: World, motionCycle: bool, e: CycleScript): World {
    var r := Recover(c, w, e.recover);
    if r.life != Alive then r else Attached(c, Attach(c, r, e.lte, e.lteDriverMs), motionCycle, e)
  }

  function Cycle(c: Config, w: World, e: CycleScript): World {
    var motionCycle := w.wake == Wake.Motion;
    if c.build.skipLte then Online(c, Top(w), motionCycle, e) else Connect(c, Top(w), motionCycle, e)
  }

  /** Whether a cycle gets as far as starting a receiver. */
  predicate Reaches(c: Config, w: World, e: CycleScript) {
    c.build.skipLte || (Recover(c, Top(w), e.recover).life == Alive && LteUp(c, e.lte))
  }

  /** What the start of the receiver then makes of the tracker, and whether it succeeds. */
  function Started(c: Config, w: World, e: CycleScript): (World, bool) {
    var t := Top(w);
    var l := if c.build.skipLte then t else Attach(c, Recover(c, t, e.recover), e.lte, e.lteDriverMs);
    StartReceiver(c, Spent(ResumeLink(c, l, e.resume).0, e.resumeDriverMs), e.start, e.startMs)
  }

  /** The four ways a cycle can go: reboot, no network, no receiver, and a fix attempt. */
  lemma CycleStages(c: Config, w: World, e: CycleScript)
    ensures var (s, ok) := Started(c, w, e);
            var r := Recover(c, Top(w), e.recover);
            Cycle(c, w, e) ==
            if Reaches(c, w, e) then
              if ok then Tracked(c, s, w.wake == Wake.Motion, e)
              else BatterySleep(c, PauseLink(c, s, e.pause), e.sleep)
            else if r.life != Alive then r
            else BatterySleep(c, Attach(c, r, e.lte, e.lteDriverMs), e.sleep)
    ensures w.life == Alive && Reaches(c, w, e) ==> Started(c, w, e).0.life == Alive
    ensures (Started(c, w, e).0.rx, Started(c, w, e).1) == Receivers.Start(w.rx, e.start)
    ensures Started(c, w, e).0.clock.now >= w.clock.now
    ensures Started(c, w, e).0.assist == w.assist && Started(c, w, e).0.fetches == w.fetches
    ensures w.settle.log <= Started(c, w, e).0.settle.log
  {
  }

  /** Any number of cycles; a reboot or a cut inside the frequent loop ends the run. */
  function Run(c: Config, w: World, es: seq<CycleScript>): World
    decreases |es|
  {
    if es == [] || w.life != Alive then w else Run(c, Cycle(c, w, es[0]), es[1..])
  }
}
