/** The fix attempt of a cycle: it never gives up early, and what it finds is reported. */
module MainSearch {
  import opened TrackerConfig
  import opened MainLoop
  import Assistance
  import CloudLink
  import MainCloud
  import MainFrequent
  import Receivers
  import Wake

  lemma ProactiveKeepsSource(c: Config, w: World, request: Arrival, f: Assistance.Fetch, ms: nat)
    ensures Proactive(c, w, request, f, ms).0.rx.active == w.rx.active
  {
  }

  /** The full windows the receivers are entitled to: the active one's, and the onboard one's too
      if the external module's cycle falls back to it. */
  function WindowsMs(c: Config, w: World, e: AcquireScript): nat {
    if w.rx.active == Receivers.Modem then c.onboardFixS * 1000
    else c.externalFixS * 1000
         + if c.external && c.modemFallback && !e.startFault then c.onboardFixS * 1000 else 0
  }

  lemma FirstTryWindow(c: Config, w: World, e: AcquireScript)
    ensures var a := FirstTry(c, w, e);
            && a.w.rx.active == w.rx.active
            && (!a.haveFix ==> a.w.clock.now >= w.clock.now + FixTimeoutS(c, w.rx) * 1000)
            && (a.haveFix ==> Arrives(FixTimeoutS(c, w.rx), e.fix))
  {
    ProactiveKeepsSource(c, w, e.request, e.fetch, e.fetchMs);
  }

  lemma FallBackWindow(c: Config, a: Acquired, e: AcquireScript)
    requires !a.haveFix
    ensures var b := FallBack(c, a, e);
            && (FallbackAvailable(c, a.w.rx) ==> b.w.rx.active == Receivers.Modem)
            && (!b.haveFix && FallbackAvailable(c, a.w.rx) && !e.startFault
                ==> b.w.clock.now >= a.w.clock.now + c.onboardFixS * 1000)
            && (b.haveFix ==> FallbackAvailable(c, a.w.rx) && !e.startFault && Arrives(c.onboardFixS, e.fix2))
  {
    if FallbackAvailable(c, a.w.rx) && !e.startFault {
      var rx := Receivers.Fallback(a.w.rx, e.stop, e.startFault).0;
      ProactiveKeepsSource(c, Spent(a.w.(rx := rx), e.fallbackMs), e.request2, e.fetch2, e.fetchMs2);
    }
  }

  /** A cycle that ends without a fix took at least all the windows it was entitled to; with the
      onboard receiver at the end, a ready link and no assistance yet, it also made one last
      call for assistance. */
  lemma GivesUpOnlyAfterFullWindows(c: Config, w: World, e: AcquireScript)
    requires !Acquire(c, w, e).haveFix
    ensures var r := Acquire(c, w, e);
            && r.w.clock.now >= w.clock.now + WindowsMs(c, w, e)
            && (AgnssWanted(c, r.w) && !r.assisted ==> r.w.fetches > w.fetches)
  {
    var a := FirstTry(c, w, e);
    FirstTryWindow(c, w, e);
    var b := FallBack(c, a, e);
    if !a.haveFix {
      FallBackWindow(c, a, e);
    }
    assert b.w.fetches >= w.fetches by {
      FetchesGrow(c, w, e);
    }
    LastCall(c, b, e);
  }

  lemma FetchesGrow(c: Config, w: World, e: AcquireScript)
    ensures FallBack(c, FirstTry(c, w, e), e).w.fetches >= FirstTry(c, w, e).w.fetches >= w.fetches
  {
  }

  lemma LastCall(c: Config, b: Acquired, e: AcquireScript)
    requires !LastChance(c, b, e).haveFix
    ensures var r := LastChance(c, b, e);
            && !b.haveFix && r.assisted == b.assisted && r.w.clock.now >= b.w.clock.now
            && r.w.fetches >= b.w.fetches
            && (AgnssWanted(c, r.w) && !r.assisted ==> r.w.fetches == b.w.fetches + 1)
  {
  }

  // ---------------------------------------------------------------- what an attempt finds, exactly

  /** Assistance can be had: the build fetches it, and the session that serves it is connected. */
  predicate Served(c: Config, s: CloudLink.State) {
    c.agnss && !c.build.skipLte && !c.build.hologram && s.link == CloudLink.Connected
  }

  predicate InTime(timeoutS: nat, a: Arrival) {
    a.At? && a.ms <= timeoutS * 1000
  }

  /** A fetch call at `now`, the last injection at `last`, injects, and leaves the receiver
      running. */
  predicate Injected(c: Config, last: nat, now: nat, f: Assistance.Fetch) {
    Assistance.Due(c.assist, last, now) && (f.requested || c.assist.fullRequestFallback) && f.injected
  }

  predicate Granted(c: Config, last: nat, now: nat, f: Assistance.Fetch) {
    Injected(c, last, now, f) && (c.assist.stopDuringFetch ==> !f.startFault)
  }

  /** How long a fetch call takes, and the last injection after it. */
  function CallMs(c: Config, last: nat, now: nat, f: Assistance.Fetch, restartMs: nat): nat {
    if Assistance.Due(c.assist, last, now)
    then (if c.assist.stopDuringFetch then f.stopMs else 0) + f.ms + restartMs else 0
  }

  function LastAfter(c: Config, last: nat, now: nat, f: Assistance.Fetch): nat {
    if Injected(c, last, now, f) then now + (if c.assist.stopDuringFetch then f.stopMs else 0) + f.ms else last
  }

  /** How long the wait for the receiver's request and the fetch it asks for take together, and the
      last injection after them. */
  function AskMs(c: Config, last: nat, now: nat, a: Arrival, f: Assistance.Fetch, restartMs: nat): nat {
    if InTime(c.proactiveS, a) then a.ms + CallMs(c, last, now + a.ms, f, restartMs) else c.proactiveS * 1000
  }

  function LastAsked(c: Config, last: nat, now: nat, a: Arrival, f: Assistance.Fetch): nat {
    if InTime(c.proactiveS, a) then LastAfter(c, last, now + a.ms, f) else last
  }

  /** The receiver asks in time, and its fetch succeeds. */
  predicate Helped(c: Config, last: nat, now: nat, a: Arrival, f: Assistance.Fetch) {
    InTime(c.proactiveS, a) && Granted(c, last, now + a.ms, f)
  }

  lemma FetchExactly(c: Config, w: World, f: Assistance.Fetch, ms: nat)
    ensures var (r, ok) := Fetch(c, w, f, ms);
            && (ok <==> Granted(c, w.assist.lastFetch, w.clock.now, f))
            && r.clock.now == w.clock.now + CallMs(c, w.assist.lastFetch, w.clock.now, f, ms)
            && r.assist.lastFetch == LastAfter(c, w.assist.lastFetch, w.clock.now, f)
            && r.fetches == w.fetches + 1 && r.rx.active == w.rx.active
  {
    Assistance.InjectsExactly(c.assist, w.clock, w.rx, w.assist, f);
    var age := (w.clock.now as int) - (w.assist.lastFetch as int);
    assert age / 1000 < c.assist.minIntervalS <==> age < c.assist.minIntervalS * 1000;
  }

  lemma ProactiveExactly(c: Config, w: World, a: Arrival, f: Assistance.Fetch, ms: nat)
    ensures var (r, ok) := Proactive(c, w, a, f, ms);
            var wanted := Served(c, w.cloud) && w.rx.active == Receivers.Modem;
            var last, now := w.assist.lastFetch, w.clock.now;
            && (ok <==> wanted && Helped(c, last, now, a, f))
            && r.clock.now == now + (if wanted then AskMs(c, last, now, a, f, ms) else 0)
            && r.assist.lastFetch == (if wanted then LastAsked(c, last, now, a, f) else last)
            && r.fetches == w.fetches + (if wanted && InTime(c.proactiveS, a) then 1 else 0)
            && r.rx.active == w.rx.active
  {
    if AgnssWanted(c, w) && InTime(c.proactiveS, a) {
      FetchExactly(c, Spent(w, a.ms), f, ms);
    }
  }

  /** The time a bounded wait takes. */
  function Waits(timeoutS: nat, a: Arrival): nat {
    if InTime(timeoutS, a) then a.ms else timeoutS * 1000
  }

  /** Where an attempt stands before its last call. */
  datatype Standing = Standing(found: bool, helped: bool, onboard: bool, now: nat, last: nat, calls: nat)

  /** After the first window: the onboard receiver asks for assistance first, the external one does
      not. */
  function FirstWindow(c: Config, w: World, e: AcquireScript): Standing {
    var last, now := w.assist.lastFetch, w.clock.now;
    if w.rx.active == Receivers.External then
      Standing(InTime(c.externalFixS, e.fix), false, false, now + Waits(c.externalFixS, e.fix), last, 0)
    else if Served(c, w.cloud) then
      Standing(InTime(c.onboardFixS, e.fix), Helped(c, last, now, e.request, e.fetch), true,
               now + AskMs(c, last, now, e.request, e.fetch, e.fetchMs) + Waits(c.onboardFixS, e.fix),
               LastAsked(c, last, now, e.request, e.fetch), if InTime(c.proactiveS, e.request) then 1 else 0)
    else Standing(InTime(c.onboardFixS, e.fix), false, true, now + Waits(c.onboardFixS, e.fix), last, 0)
  }

  /** After the fallback: without a fix from the external module the onboard receiver takes over,
      asks, and gets its own window, unless it does not start. */
  function SecondWindow(c: Config, w: World, e: AcquireScript): Standing {
    var s := FirstWindow(c, w, e);
    var now := s.now + e.fallbackMs;
    if s.found || s.onboard || !c.external || !c.modemFallback then s
    else if e.startFault then s.(onboard := true, now := now)
    else if Served(c, w.cloud) then
      Standing(InTime(c.onboardFixS, e.fix2), Helped(c, s.last, now, e.request2, e.fetch2), true,
               now + AskMs(c, s.last, now, e.request2, e.fetch2, e.fetchMs2) + Waits(c.onboardFixS, e.fix2),
               LastAsked(c, s.last, now, e.request2, e.fetch2), if InTime(c.proactiveS, e.request2) then 1 else 0)
    else Standing(InTime(c.onboardFixS, e.fix2), false, true, now + Waits(c.onboardFixS, e.fix2), s.last, 0)
  }

  /** The last call is made when there is no fix and no assistance yet, and assistance to be had. */
  predicate CallsLast(c: Config, w: World, s: Standing) {
    !s.found && !s.helped && s.onboard && Served(c, w.cloud)
  }

  predicate Stands(w: World, a: Acquired, s: Standing) {
    && a.haveFix == s.found && a.assisted == s.helped && (a.w.rx.active == Receivers.Modem <==> s.onboard)
    && a.w.clock.now == s.now && a.w.assist.lastFetch == s.last && a.w.fetches == w.fetches + s.calls
    && a.w.cloud == w.cloud
  }

  lemma FirstWindowExactly(c: Config, w: World, e: AcquireScript)
    ensures Stands(w, FirstTry(c, w, e), FirstWindow(c, w, e))
  {
    ProactiveExactly(c, w, e.request, e.fetch, e.fetchMs);
  }

  lemma SecondWindowExactly(c: Config, w: World, e: AcquireScript)
    ensures Stands(w, FallBack(c, FirstTry(c, w, e), e), SecondWindow(c, w, e))
  {
    FirstWindowExactly(c, w, e);
    var a := FirstTry(c, w, e);
    if !a.haveFix && FallbackAvailable(c, a.w.rx) && !e.startFault {
      var rx := Receivers.Fallback(a.w.rx, e.stop, e.startFault).0;
      ProactiveExactly(c, Spent(a.w.(rx := rx), e.fallbackMs), e.request2, e.fetch2, e.fetchMs2);
    }
  }

  /** What an attempt needs for a fix: one in the first window, or in the onboard window after a
      fallback, or in the window after a last call that helps. */
  predicate Finds(c: Config, w: World, e: AcquireScript) {
    var s := SecondWindow(c, w, e);
    || InTime(if w.rx.active == Receivers.External then c.externalFixS else c.onboardFixS, e.fix)
    || (w.rx.active == Receivers.External && c.external && c.modemFallback && !e.startFault
        && InTime(c.onboardFixS, e.fix2))
    || (CallsLast(c, w, s) && Granted(c, s.last, s.now, e.fetch3) && InTime(c.assistedFixS, e.fix3))
  }

  /** A whole fix attempt has a fix exactly when one arrives in the first window; or in the onboard
      window after a fallback; or the last call is made, injects, restarts the receiver, and one
      arrives in the window after it. It makes exactly the fetch calls that are asked for in time,
      and the last one; and no wait outlasts what it waits for. */
  lemma FindsExactly(c: Config, w: World, e: AcquireScript)
    ensures var r, s := Acquire(c, w, e), SecondWindow(c, w, e);
            var helped := CallsLast(c, w, s) && Granted(c, s.last, s.now, e.fetch3);
            && (r.haveFix <==> Finds(c, w, e))
            && r.w.fetches == w.fetches + s.calls + (if CallsLast(c, w, s) then 1 else 0)
            && r.w.clock.now == s.now + (if CallsLast(c, w, s) then CallMs(c, s.last, s.now, e.fetch3, e.fetchMs3) else 0)
                                      + (if helped then Waits(c.assistedFixS, e.fix3) else 0)
  {
    SecondWindowExactly(c, w, e);
    var b := FallBack(c, FirstTry(c, w, e), e);
    if CallsLast(c, w, SecondWindow(c, w, e)) {
      FetchExactly(c, b.w, e.fetch3, e.fetchMs3);
    }
  }

  // ---------------------------------------------------------------- what is reported

  /** The first report of a cycle reaches the wire exactly when its payload and its envelope fit
      and there is a fix, or the build reports without one. */
  lemma ReportedExactlyWhenDue(c: Config, w: World, haveFix: bool, e: FirstScript)
    requires CloudLink.Online(c.build) && CloudLink.Invariant(w.cloud)
    ensures var n := CloudLink.Posts(FirstReport(c, w, haveFix, e).cloud.wire) - CloudLink.Posts(w.cloud.wire);
            if (haveFix || c.publishWithoutFix) && e.report.fits && e.report.send.Answered? then 1 <= n <= 2 else n == 0
  {
    var s := if haveFix then SettleFix(c, w, e.better) else w;
    assert s.cloud == w.cloud;
    if haveFix || c.publishWithoutFix {
      ReportPosts(c, s, e.report, haveFix);
    }
  }

  /** Each pass of the frequent loop likewise. */
  lemma PassReportsExactly(c: Config, w: World, p: Pass)
    requires CloudLink.Online(c.build) && CloudLink.Invariant(w.cloud)
    ensures var n := CloudLink.Posts(PassBody(c, w, p).cloud.wire) - CloudLink.Posts(w.cloud.wire);
            if (InTime(10, p.fix) || c.publishWithoutFix) && p.report.fits && p.report.send.Answered?
            then 1 <= n <= 2 else n == 0
  {
    var (f, have) := WaitFix(PassSleep(c, w, p), 10, p.fix);
    if have || c.publishWithoutFix {
      ReportPosts(c, f, p.report, have);
    }
  }

  /** How long it takes to get the first report done: settling only with a fix, and no longer than a
      better one takes to come; the report if it is due. */
  lemma FirstReportTakes(c: Config, w: World, haveFix: bool, e: FirstScript)
    requires CloudLink.Online(c.build) && CloudLink.Invariant(w.cloud)
    ensures FirstReport(c, w, haveFix, e).clock.now
            == w.clock.now + e.driverMs
               + (if haveFix && c.extraFixS > 0 then c.extraFixS * 1000 + Waits(5, e.better) else 0)
               + (if haveFix || c.publishWithoutFix then MainCloud.ReportMs(c, w, e.report, haveFix) else 0)
  {
    var s := if haveFix then SettleFix(c, w, e.better) else w;
    MainCloud.ReportTakes(c, s, e.report, haveFix);
    assert s.cloud == w.cloud;
  }

  /** And how long a pass takes. */
  lemma PassTakes(c: Config, w: World, p: Pass)
    requires CloudLink.Online(c.build) && CloudLink.Invariant(w.cloud)
    ensures PassBody(c, w, p).clock.now
            == w.clock.now + c.intervalS * 1000 + p.sleepMs + Waits(10, p.fix) + p.driverMs
               + (if InTime(10, p.fix) || c.publishWithoutFix
                  then MainCloud.ReportMs(c, w, p.report, InTime(10, p.fix)) else 0)
  {
    var (f, have) := WaitFix(PassSleep(c, w, p), 10, p.fix);
    MainCloud.ReportTakes(c, f, p.report, have);
    assert f.cloud == w.cloud;
  }

  /** So a whole cycle without the frequent loop posts exactly when it tracked, found a fix or need
      not have one, and its payload and envelope fit. */
  lemma CycleReportsExactly(c: Config, w: World, e: CycleScript)
    requires CloudLink.Online(c.build) && CloudLink.Invariant(w.cloud) && w.life == Alive
    requires !MainFrequent.Called(c, w.wake == Wake.Motion, e.entry, MainFrequent.Reported(c, w, e).clock.now)
    ensures var n := CloudLink.Posts(Cycle(c, w, e).cloud.wire) - CloudLink.Posts(w.cloud.wire);
            var (s, ok) := Started(c, w, e);
            if Reaches(c, w, e) && ok && (Acquire(c, s, e.acquire).haveFix || c.publishWithoutFix)
               && e.first.report.fits && e.first.report.send.Answered?
            then 1 <= n <= 2 else n == 0
  {
    CycleStages(c, w, e);
    var (s, ok) := Started(c, w, e);
    if Reaches(c, w, e) {
      CloudLink.ResumeOutcome(c.build, c.modemTimeS, w.cloud, e.resume.answers);
      if ok {
        var a := Acquire(c, s, e.acquire);
        ReportedExactlyWhenDue(c, Fed(a.w), a.haveFix, e.first);
        MainFrequent.EntersExactly(c, w, e);
        PausePosts(c, MainFrequent.Reported(c, w, e).cloud, e.pause);
      } else {
        PausePosts(c, s.cloud, e.pause);
      }
    }
  }

  lemma PausePosts(c: Config, s: CloudLink.State, e: PauseScript)
    ensures CloudLink.Posts(CloudLink.Pause(c.build, s, e.keepOpen, e.answer).wire) == CloudLink.Posts(s.wire)
  {
    CloudLink.CountSnoc(s.wire, CloudLink.PauseOk);
  }

  lemma ReportPosts(c: Config, w: World, e: ReportScript, withFix: bool)
    requires CloudLink.Online(c.build) && CloudLink.Invariant(w.cloud)
    ensures var n := CloudLink.Posts(Report(c, w, e, withFix).cloud.wire) - CloudLink.Posts(w.cloud.wire);
            if e.fits && e.send.Answered? then 1 <= n <= 2 else n == 0
  {
    MainCloud.SendOutcome(c, Spent(w, e.driverMs), e);
  }
}
