/** main.c as it runs: the static variables and the modules they work with, changed step by step.
    Every method is proved against the function that says what its stage does, so what is proved
    of those functions over whole runs holds of this program. */
module Tracker {
  import opened TrackerConfig
  import opened MainLoop
  import Assistance
  import CloudLink
  import MainFrequent
  import MainNetwork
  import MainSearch
  import MainTiming
  import Motion
  import Receivers
  import Wake
  import Watchdog

  class Tracker {
    const c: Config
    const wd: Watchdog.Watchdog
    const rx: Receivers.Gnss
    const cloud: CloudLink.Cloud
    const assist: Assistance.Agnss
    const motion: Motion.Accelerometer

    var lastSendUptime: nat
    var modemBounced: bool
    var batterySleeps: nat
    var wakeReason: Wake.Reason
    var life: Life

    ghost var silenceLog: seq<SilenceEvent>
    ghost var nightLog: seq<NightEvent>
    ghost var fetches: nat

    ghost function Model(): World
      reads this, wd, rx, cloud, assist, motion
    {
      World(wd.Model(), Silence(lastSendUptime, modemBounced, silenceLog),
            Settle(batterySleeps, motion.usable, motion.armed, nightLog), rx.Model(), cloud.Model(),
            assist.Model(), fetches, wakeReason, life)
    }

    /** Between calls no guard is armed, the interrupt is what the firmware takes it to be, and no
        stamp lies in the future. */
    ghost predicate Valid()
      reads this, wd, motion, assist
    {
      && wd.Valid() && !wd.timerRunning && motion.armed == motion.listening
      && lastSendUptime <= wd.now && assist.lastFetchUptime <= wd.now
    }

    /** Boot, up to the first cycle. */
    constructor (config: Config, bootMs: nat, external: bool, accelerometer: bool, credentials: bool)
      ensures Valid() && c == config
      ensures Model() == MainLoop.Boot(config, bootMs, external, accelerometer, credentials)
      ensures fresh(wd) && fresh(rx) && fresh(cloud) && fresh(assist) && fresh(motion)
    {
      c := config;
      wd := new Watchdog.Watchdog();
      rx := new Receivers.Gnss(external);
      cloud := new CloudLink.Cloud(credentials);
      assist := new Assistance.Agnss();
      motion := new Motion.Accelerometer(accelerometer);
      lastSendUptime, modemBounced, batterySleeps := 0, false, config.settleCycles;
      wakeReason, life := Wake.Boot, Alive;
      silenceLog, nightLog, fetches := [], [], 0;
      new;
      wd.Busy(bootMs);
    }

    /** Time passing in calls that are not modelled. */
    method Elapse(ms: nat)
      requires Valid()
      modifies wd
      ensures Valid() && Model() == Spent(old(Model()), ms)
    {
      wd.Busy(ms);
    }

    method FeedWatchdog()
      requires Valid()
      modifies wd
      ensures Valid() && Model() == Fed(old(Model()))
    {
      wd.FeedNow();
    }

    method SetArmed(arm: bool, fault: bool)
      requires Valid()
      modifies motion
      ensures Valid() && Model() == old(Model()).(settle := Arm(c, old(Model()).settle, arm, fault))
    {
      if c.motionWake {
        motion.SetArmed(arm, fault);
      }
    }

    method RestartSettling()
      requires Valid()
      modifies this`batterySleeps, this`nightLog
      ensures Valid() && Model() == old(Model()).(settle := ObservePower(old(Model()).settle))
    {
      batterySleeps := 0;
      nightLog := nightLog + [PowerSeen];
    }

    // ---------------------------------------------------------------- the top of a cycle

    method BeginCycle()
      requires Valid()
      modifies this`batterySleeps, this`nightLog, wd
      ensures Valid() && Model() == Top(old(Model()))
    {
      if wakeReason == Wake.Vbus {
        RestartSettling();
      }
      FeedWatchdog();
    }

    /** recover_if_silent() */
    method RecoverIfSilent(e: RecoverScript)
      requires Valid()
      modifies this, wd
      ensures Valid() && Model() == Recover(c, old(Model()), e)
    {
      var quietMin := (wd.now - lastSendUptime) / MINUTE;
      if quietMin < c.recoveryMin {
        modemBounced := false;
        return;
      }
      if quietMin >= c.rebootMin {
        silenceLog := silenceLog + [Rebooted(wd.now)];
        life := Rebooting;
        wd.Busy(200);
        return;
      }
      if modemBounced {
        return;
      }
      modemBounced := true;
      silenceLog := silenceLog + [Restarted(wd.now)];
      wd.Busy(e.offlineMs + 1000 + e.normalMs);
    }

    /** lte_ensure_connected() */
    method LteEnsureConnected(a: LteAnswer, ms: nat) returns (ok: bool)
      requires Valid()
      modifies wd
      ensures Valid() && Model() == Attach(c, old(Model()), a, ms) && ok == LteUp(c, a)
      ensures ok == MainNetwork.Registers(c, a) && wd.now == old(wd.now) + MainNetwork.RegistrationMs(c, a) + ms
    {
      wd.Busy(LteWaitMs(c, a) + ms);
      ok := LteUp(c, a);
    }

    /** A guarded cloud_resume(), at both places that have one. */
    method ResumeCloud(e: ResumeScript) returns (err: int)
      requires Valid()
      modifies wd, cloud
      ensures Valid() && (Model(), err) == ResumeLink(c, old(Model()), e)
    {
      wd.GuardStart(c.connectBudgetS);
      err := cloud.ResumeLink(c.build, c.modemTimeS, e.answers);
      wd.Blocked(c.connectBudgetS, e.ms);
      wd.GuardStop();
    }

    method PauseCloud(e: PauseScript)
      requires Valid()
      modifies wd, cloud
      ensures Valid() && Model() == PauseLink(c, old(Model()), e)
    {
      cloud.PauseLink(c.build, e.keepOpen, e.answer);
      wd.Busy(e.ms);
    }

    /** battery_sleep() */
    method SleepOnBattery(e: SleepScript)
      requires Valid()
      modifies this`batterySleeps, this`nightLog, this`wakeReason, wd, motion
      ensures Valid() && Model() == BatterySleep(c, old(Model()), e)
    {
      var arm := batterySleeps >= c.settleCycles;
      SetArmed(arm, e.triggerFault);
      if !arm {
        batterySleeps := batterySleeps + 1;
      }
      nightLog := nightLog + [Slept(arm, motion.armed, rx.active, rx.hw)];
      wakeReason := e.reason;
      Elapse(e.driverMs + e.ms);
    }

    // ---------------------------------------------------------------- getting a fix

    method StartGnss(f: Receivers.StartFaults, ms: nat) returns (ok: bool)
      requires Valid()
      modifies wd, rx
      ensures Valid() && (Model(), ok) == StartReceiver(c, old(Model()), f, ms)
    {
      var warmed;
      ok, warmed := rx.StartReceiver(f);
      wd.Busy(ms + if warmed then c.warmupMs else 0);
    }

    /** agnss_fetch_and_inject() */
    method FetchAssistance(f: Assistance.Fetch, ms: nat) returns (ok: bool)
      requires Valid()
      modifies this`fetches, wd, rx, assist
      ensures Valid() && (Model(), ok) == Fetch(c, old(Model()), f, ms)
    {
      var skipped := assist.lastFetchUptime != 0
                     && (wd.now - assist.lastFetchUptime) / 1000 < c.assist.minIntervalS;
      assert skipped == Assistance.RateLimited(c.assist, assist.Model(), wd.now);
      ok := assist.FetchNow(c.assist, wd, rx, f);
      fetches := fetches + 1;
      wd.Busy(if skipped then 0 else ms);
    }

    /** agnss_wanted() */
    predicate WantsAssistance()
      reads rx, cloud
    {
      c.agnss && !c.build.skipLte && rx.active == Receivers.Modem
      && CloudLink.SupportsAgnss(c.build) && (c.build.hologram || cloud.link == CloudLink.Connected)
    }

    method FetchUpFront(request: Arrival, f: Assistance.Fetch, ms: nat) returns (assisted: bool)
      requires Valid()
      modifies this`fetches, wd, rx, assist
      ensures Valid() && (Model(), assisted) == Proactive(c, old(Model()), request, f, ms)
    {
      assisted := false;
      if WantsAssistance() {
        wd.Busy(WaitMs(c.proactiveS, request));
        if Arrives(c.proactiveS, request) {
          assisted := FetchAssistance(f, ms);
        }
      }
    }

    /** gnss_wait_fix() */
    method AwaitFix(timeoutS: nat, a: Arrival) returns (have: bool)
      requires Valid()
      modifies wd
      ensures Valid() && (Model(), have) == WaitFix(old(Model()), timeoutS, a)
    {
      wd.Busy(WaitMs(timeoutS, a));
      have := Arrives(timeoutS, a);
    }

    method TryFirst(e: AcquireScript) returns (haveFix: bool, assisted: bool)
      requires Valid()
      modifies this`fetches, wd, rx, assist
      ensures Valid() && Acquired(Model(), haveFix, assisted) == FirstTry(c, old(Model()), e)
    {
      assisted := FetchUpFront(e.request, e.fetch, e.fetchMs);
      haveFix := AwaitFix(if rx.active == Receivers.External then c.externalFixS else c.onboardFixS, e.fix);
    }

    /** gnss_fallback() */
    method SwitchReceiver(stop: Receivers.StopFaults, startFault: bool, ms: nat) returns (ok: bool)
      requires Valid()
      modifies wd, rx
      ensures Valid()
      ensures var (r, up) := Receivers.Fallback(old(Model()).rx, stop, startFault);
              ok == up && Model() == Spent(old(Model()).(rx := r), ms)
    {
      ok := rx.FallBack(stop, startFault);
      Elapse(ms);
    }

    method TryFallback(haveFix: bool, assisted: bool, e: AcquireScript) returns (have: bool, helped: bool)
      requires Valid()
      modifies this`fetches, wd, rx, assist
      ensures Valid()
      ensures Acquired(Model(), have, helped) == FallBack(c, Acquired(old(Model()), haveFix, assisted), e)
    {
      have, helped := haveFix, assisted;
      if !haveFix && c.external && rx.active == Receivers.External && c.modemFallback {
        var ok := SwitchReceiver(e.stop, e.startFault, e.fallbackMs);
        if ok {
          var now := FetchUpFront(e.request2, e.fetch2, e.fetchMs2);
          helped := assisted || now;
          have := AwaitFix(if rx.active == Receivers.External then c.externalFixS else c.onboardFixS, e.fix2);
        }
      }
    }

    method TryAssisted(haveFix: bool, assisted: bool, e: AcquireScript) returns (have: bool)
      requires Valid()
      modifies this`fetches, wd, rx, assist
      ensures Valid()
      ensures Acquired(Model(), have, assisted) == LastChance(c, Acquired(old(Model()), haveFix, assisted), e)
    {
      have := haveFix;
      if !haveFix && !assisted && WantsAssistance() {
        var ok := FetchAssistance(e.fetch3, e.fetchMs3);
        if ok {
          have := AwaitFix(c.assistedFixS, e.fix3);
        }
      }
    }

    /** The fix attempt of a cycle, from the receiver's start to the feed after it. */
    method AcquireFix(e: AcquireScript) returns (haveFix: bool, assisted: bool)
      requires Valid()
      modifies this`fetches, wd, rx, assist
      ensures Valid() && Acquired(Model(), haveFix, assisted) == Acquire(c, old(Model()), e)
      ensures haveFix == MainSearch.Finds(c, old(Model()), e)
    {
      haveFix, assisted := TryFirst(e);
      haveFix, assisted := TryFallback(haveFix, assisted, e);
      haveFix := TryAssisted(haveFix, assisted, e);
      MainSearch.FindsExactly(c, old(Model()), e);
    }

    // ---------------------------------------------------------------- reporting

    /** cloud_send_telemetry() */
    method SendOnce(d: CloudLink.Delivery, ms: nat) returns (err: int)
      requires Valid()
      modifies wd, cloud
      ensures Valid() && (Model(), err) == Post(c, old(Model()), d, ms)
    {
      err := cloud.SendTelemetry(c.build, d);
      wd.Busy(ms);
    }

    method SendWithRetry(e: ReportScript) returns (err: int)
      requires Valid()
      modifies wd, cloud
      ensures Valid() && (Model(), err) == SendReport(c, old(Model()), e)
    {
      err := SendOnce(e.send, e.sendMs);
      if err == CloudLink.EACCES || err == CloudLink.ENOTCONN {
        err := ResumeCloud(e.resume);
        if err == CloudLink.OK {
          err := SendOnce(e.resend, e.resendMs);
        }
      }
    }

    method RecordAcceptance()
      requires Valid()
      modifies this`lastSendUptime, this`silenceLog
      ensures Valid() && Model() == Accept(old(Model()))
    {
      lastSendUptime := wd.now;
      silenceLog := silenceLog + [Accepted(wd.now)];
    }

    /** report_fix() */
    method ReportFix(e: ReportScript, withFix: bool)
      requires Valid()
      modifies this`lastSendUptime, this`silenceLog, wd, cloud
      ensures Valid() && Model() == Report(c, old(Model()), e, withFix)
    {
      Elapse(e.driverMs);
      if !e.fits {
        return;
      }
      var err := SendWithRetry(e);
      if err == CloudLink.OK {
        RecordAcceptance();
        if withFix {
          Elapse(e.locationMs);
        }
      }
      FeedWatchdog();
    }

    method ReportIfThereIs(haveFix: bool, e: ReportScript)
      requires Valid()
      modifies this`lastSendUptime, this`silenceLog, wd, cloud
      ensures Valid() && Model() == ReportIfAny(c, old(Model()), haveFix, e)
    {
      if haveFix {
        ReportFix(e, true);
      } else if c.publishWithoutFix {
        ReportFix(e, false);
      }
    }

    method ReportFirst(haveFix: bool, e: FirstScript)
      requires Valid()
      modifies this`lastSendUptime, this`silenceLog, wd, cloud
      ensures Valid() && Model() == FirstReport(c, old(Model()), haveFix, e)
    {
      if haveFix && c.extraFixS > 0 {
        Elapse(c.extraFixS * 1000);
        var _ := AwaitFix(5, e.better);
      }
      ReportIfThereIs(haveFix, e.report);
      Elapse(e.driverMs);
      FeedWatchdog();
    }

    // ---------------------------------------------------------------- the frequent loop

    /** The loop's condition: power_vbus_present() || surge_active(). */
    predicate StaysFrequent(motionCycle: bool, k: Check)
      reads wd
    {
      k.vbus || (motionCycle && c.motionWake && k.jolt != 0 && (wd.now as int) - (k.jolt as int) < c.surgeS * 1000)
    }

    method SleepForPass(p: Pass)
      requires Valid()
      modifies this`batterySleeps, this`nightLog, wd, motion
      ensures Valid() && Model() == PassSleep(c, old(Model()), p)
    {
      if p.powered {
        SetArmed(false, p.triggerFault);
        RestartSettling();
      }
      Elapse(c.intervalS * 1000 + p.sleepMs);
      FeedWatchdog();
    }

    method OnePass(p: Pass)
      requires Valid()
      modifies this`lastSendUptime, this`silenceLog, this`batterySleeps, this`nightLog, wd, cloud, motion
      ensures Valid() && Model() == PassBody(c, old(Model()), p)
    {
      SleepForPass(p);
      var have := AwaitFix(10, p.fix);
      ReportIfThereIs(have, p.report);
      Elapse(p.driverMs);
    }

    /** The frequent loop. `left` is false if the script runs out of checks inside it. */
    method LoopFrequently(motionCycle: bool, ps: seq<Pass>) returns (left: bool)
      requires Valid()
      modifies this`lastSendUptime, this`silenceLog, this`batterySleeps, this`nightLog, wd, cloud, motion
      ensures Valid()
      ensures var l := Loop(c, old(Model()), motionCycle, ps); Model() == l.w && left == l.left
    {
      ghost var start := Model();
      var i := 0;
      while i < |ps| && StaysFrequent(motionCycle, ps[i].check)
        invariant Valid() && i <= |ps|
        invariant Meets(c, start, motionCycle, ps, Model(), i)
        decreases |ps| - i
      {
        MeetsNext(c, start, motionCycle, ps, Model(), i);
        OnePass(ps[i]);
        i := i + 1;
      }
      left := i < |ps|;
    }

    /** The frequent loop and its guard; a run that does not leave it is cut short there. */
    method ReportFrequently(motionCycle: bool, entry: Check, ps: seq<Pass>)
      requires Valid()
      modifies this`lastSendUptime, this`silenceLog, this`batterySleeps, this`nightLog, this`life, wd, cloud, motion
      ensures Valid() && Model() == Frequent(c, old(Model()), motionCycle, entry, ps)
      ensures var l := Loop(c, old(Model()), motionCycle, ps);
              Model() == if !MainFrequent.Called(c, motionCycle, entry, old(wd.now)) then old(Model())
                         else if l.left then l.w else l.w.(life := InLoop)
    {
      if StaysFrequent(motionCycle, entry) {
        var left := LoopFrequently(motionCycle, ps);
        if !left {
          life := InLoop;
        }
      }
    }

    // ---------------------------------------------------------------- a cycle

    /** The end of a cycle: stop the receiver, pause the link, sleep. */
    method EndCycle(e: CycleScript)
      requires Valid()
      modifies this`batterySleeps, this`nightLog, this`wakeReason, wd, rx, cloud, motion
      ensures Valid() && Model() == Park(c, old(Model()), e)
    {
      rx.StopReceiver(c.powerCycle, e.stop);
      Elapse(e.stopMs);
      PauseCloud(e.pause);
      SleepOnBattery(e.sleep);
    }

    method TrackAndReport(motionCycle: bool, e: CycleScript)
      requires Valid() && life == Alive
      modifies this, wd, rx, cloud, assist, motion
      ensures Valid() && Model() == Tracked(c, old(Model()), motionCycle, e)
    {
      var haveFix, _ := AcquireFix(e.acquire);
      FeedWatchdog();
      ReportFirst(haveFix, e.first);
      ReportFrequently(motionCycle, e.entry, e.passes);
      if life == Alive {
        EndCycle(e);
      }
    }

    method GoOnline(motionCycle: bool, e: CycleScript)
      requires Valid() && life == Alive
      modifies this, wd, rx, cloud, assist, motion
      ensures Valid() && Model() == Online(c, old(Model()), motionCycle, e)
    {
      var _ := ResumeCloud(e.resume);
      Elapse(e.resumeDriverMs);
      var ok := StartGnss(e.start, e.startMs);
      if !ok {
        PauseCloud(e.pause);
        SleepOnBattery(e.sleep);
        return;
      }
      TrackAndReport(motionCycle, e);
    }

    /** recover_if_silent(), lte_ensure_connected(), and the sleep if there is no network. */
    method ConnectAndGo(motionCycle: bool, e: CycleScript)
      requires Valid() && life == Alive
      modifies this, wd, rx, cloud, assist, motion
      ensures Valid() && Model() == Connect(c, old(Model()), motionCycle, e)
    {
      RecoverIfSilent(e.recover);
      if life != Alive {
        return;
      }
      var up := LteEnsureConnected(e.lte, e.lteDriverMs);
      if up {
        GoOnline(motionCycle, e);
      } else {
        SleepOnBattery(e.sleep);
      }
    }

    /** One turn of main()'s loop. */
    method OneCycle(e: CycleScript)
      requires Valid() && life == Alive
      modifies this, wd, rx, cloud, assist, motion
      ensures Valid() && Model() == Cycle(c, old(Model()), e)
    {
      var motionCycle := wakeReason == Wake.Motion;
      BeginCycle();
      if c.build.skipLte {
        GoOnline(motionCycle, e);
      } else {
        ConnectAndGo(motionCycle, e);
      }
    }

    /** main()'s loop, for as many cycles as are scripted. */
    method RunCycles(es: seq<CycleScript>)
      requires Valid()
      modifies this, wd, rx, cloud, assist, motion
      ensures Valid() && Model() == Run(c, old(Model()), es)
    {
      ghost var start := Model();
      var i := 0;
      while i < |es| && life == Alive
        invariant Valid() && i <= |es|
        invariant Run(c, start, es) == Run(c, Model(), es[i..])
        decreases |es| - i
      {
        assert es[i..][0] == es[i] && es[i..][1..] == es[i + 1..];
        OneCycle(es[i]);
        i := i + 1;
      }
    }
  }

  /** Boot and any number of cycles. If every call keeps to its timeout or bound and the
      configuration is covered, the hardware watchdog never saw its timeout elapse. */
  method BootAndRun(c: Config, bootMs: nat, external: bool, accelerometer: bool, credentials: bool,
                    es: seq<CycleScript>) returns (t: Tracker)
    requires MainTiming.Covered(c) && bootMs <= c.bounds.bootMs && MainTiming.AllTimely(c, es)
    ensures t.Model() == Run(c, MainLoop.Boot(c, bootMs, external, accelerometer, credentials), es)
    ensures t.wd.worst <= MainTiming.LongestStretch(c) < WatchdogMs(c)
  {
    t := new Tracker(c, bootMs, external, accelerometer, credentials);
    t.RunCycles(es);
    MainTiming.NeverReset(c, bootMs, external, accelerometer, credentials, es);
  }

  /** After i passes the program is where the loop's function is with i checks gone. */
  ghost predicate Meets(c: Config, start: World, motionCycle: bool, ps: seq<Pass>, w: World, i: nat)
    requires i <= |ps|
  {
    var l, r := Loop(c, start, motionCycle, ps), Loop(c, w, motionCycle, ps[i..]);
    l.w == r.w && l.left == r.left
  }

  lemma MeetsNext(c: Config, start: World, motionCycle: bool, ps: seq<Pass>, w: World, i: nat)
    requires i < |ps| && Meets(c, start, motionCycle, ps, w, i)
    requires Goes(c, w, motionCycle, ps[i].check)
    ensures Meets(c, start, motionCycle, ps, PassBody(c, w, ps[i]), i + 1)
  {
    assert ps[i..][0] == ps[i] && ps[i..][1..] == ps[i + 1..];
  }
}
