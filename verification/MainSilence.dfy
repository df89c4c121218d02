/** Silence over whole runs of the report loop: what the escalation of recover_if_silent()
    guarantees about modem restarts, reboots and accepted reports. */
module MainSilence {
  import opened TrackerConfig
  import opened Watchdog
  import opened MainLoop
  import Arithmetic
  import Wake

  // ---------------------------------------------------------------- reading the history

  /** When the last report was accepted; 0 is boot. */
  function LastAccept(log: seq<SilenceEvent>): nat {
    if log == [] then 0
    else
      var e := log[|log| - 1];
      if e.Accepted? then e.at else LastAccept(log[..|log| - 1])
  }

  /** Whether the modem has been restarted since then. */
  predicate RestartedSince(log: seq<SilenceEvent>) {
    if log == [] then false
    else
      var e := log[|log| - 1];
      !e.Accepted? && (e.Restarted? || RestartedSince(log[..|log| - 1]))
  }

  lemma ReadSnoc(log: seq<SilenceEvent>, e: SilenceEvent)
    ensures LastAccept(log + [e]) == if e.Accepted? then e.at else LastAccept(log)
    ensures RestartedSince(log + [e]) == (!e.Accepted? && (e.Restarted? || RestartedSince(log)))
  {
    assert (log + [e])[..|log|] == log;
  }

  /** An event that may follow a history: a restart is the first of its silence, which is long
      enough for it but not for a reboot; a reboot needs the longer silence. */
  predicate Lawful(c: Config, before: seq<SilenceEvent>, e: SilenceEvent) {
    var quiet := e.at - LastAccept(before);
    match e
    case Accepted(_) => 0 <= quiet
    case Restarted(_) => !RestartedSince(before) && RecoveryMs(c) <= quiet < RebootMs(c)
    case Rebooted(_) => RebootMs(c) <= quiet
  }

  predicate Below(bound: nat, before: seq<SilenceEvent>, e: SilenceEvent) {
    e.at - LastAccept(before) < bound
  }

  predicate Preceded(before: seq<SilenceEvent>, e: SilenceEvent) {
    e.Rebooted? ==> RestartedSince(before)
  }

  ghost predicate AllLawful(c: Config, log: seq<SilenceEvent>) {
    forall j :: 0 <= j < |log| ==> Lawful(c, log[..j], log[j])
  }

  ghost predicate AllBelow(bound: nat, log: seq<SilenceEvent>) {
    forall j :: 0 <= j < |log| ==> Below(bound, log[..j], log[j])
  }

  ghost predicate AllPreceded(log: seq<SilenceEvent>) {
    forall j :: 0 <= j < |log| ==> Preceded(log[..j], log[j])
  }

  lemma AllSnoc(c: Config, bound: nat, log: seq<SilenceEvent>, e: SilenceEvent)
    ensures AllLawful(c, log) && Lawful(c, log, e) ==> AllLawful(c, log + [e])
    ensures AllBelow(bound, log) && Below(bound, log, e) ==> AllBelow(bound, log + [e])
    ensures AllPreceded(log) && Preceded(log, e) ==> AllPreceded(log + [e])
  {
    var n := log + [e];
    assert n[..|log|] == log;
    assert forall j :: 0 <= j < |log| ==> n[..j] == log[..j];
  }

  // ---------------------------------------------------------------- within a cycle

  /** From one state to a later one, reports were accepted and nothing else happened to the
      silence. */
  ghost predicate Grew(w: World, r: World) {
    var a, b := w.silence.log, r.silence.log;
    && w.clock.now <= r.clock.now && a <= b
    && r.silence.bounced == w.silence.bounced
    && (forall k :: |a| <= k < |b| ==> b[k].Accepted? && w.clock.now <= b[k].at <= r.clock.now)
    && (forall k, m :: |a| <= k < m < |b| ==> b[k].at <= b[m].at)
    && r.silence.lastSend == if |b| == |a| then w.silence.lastSend else b[|b| - 1].at
  }

  lemma GrewOn(u: World, v: World, w: World)
    requires Grew(u, v) && Grew(v, w)
    ensures Grew(u, w)
  {
    var a, b, d := u.silence.log, v.silence.log, w.silence.log;
    forall k | |a| <= k < |d|
      ensures d[k].Accepted? && u.clock.now <= d[k].at <= w.clock.now
    {
      if k < |b| {
        assert d[k] == b[k];
      }
    }
    forall k, m | |a| <= k < m < |d|
      ensures d[k].at <= d[m].at
    {
      if k < |b| {
        assert d[k] == b[k];
      }
      if m < |b| {
        assert d[m] == b[m];
      }
    }
  }

  lemma ReportGrows(c: Config, w: World, e: ReportScript, withFix: bool)
    ensures Grew(w, Report(c, w, e, withFix))
  {
  }

  lemma ReportIfAnyGrows(c: Config, w: World, haveFix: bool, e: ReportScript)
    ensures Grew(w, ReportIfAny(c, w, haveFix, e))
  {
    ReportGrows(c, w, e, haveFix);
  }

  lemma FirstReportGrows(c: Config, w: World, haveFix: bool, e: FirstScript)
    ensures Grew(w, FirstReport(c, w, haveFix, e))
  {
    var s := if haveFix then SettleFix(c, w, e.better) else w;
    ReportIfAnyGrows(c, s, haveFix, e.report);
    GrewOn(w, s, ReportIfAny(c, s, haveFix, e.report));
  }

  lemma PassGrows(c: Config, w: World, p: Pass)
    ensures Grew(w, PassBody(c, w, p))
  {
    var (f, have) := WaitFix(PassSleep(c, w, p), 10, p.fix);
    ReportIfAnyGrows(c, f, have, p.report);
    GrewOn(w, f, ReportIfAny(c, f, have, p.report));
  }

  lemma {:induction false} LoopGrows(c: Config, w: World, motionCycle: bool, ps: seq<Pass>)
    ensures Grew(w, Loop(c, w, motionCycle, ps).w)
    decreases |ps|
  {
    if ps != [] && Goes(c, w, motionCycle, ps[0].check) {
      var n := PassBody(c, w, ps[0]);
      PassGrows(c, w, ps[0]);
      LoopGrows(c, n, motionCycle, ps[1..]);
      GrewOn(w, n, Loop(c, n, motionCycle, ps[1..]).w);
    }
  }

  lemma FrequentGrows(c: Config, w: World, motionCycle: bool, entry: Check, ps: seq<Pass>)
    ensures Grew(w, Frequent(c, w, motionCycle, entry, ps))
  {
    LoopGrows(c, w, motionCycle, ps);
  }

  lemma TrackedGrows(c: Config, w: World, motionCycle: bool, e: CycleScript)
    ensures Grew(w, Tracked(c, w, motionCycle, e))
  {
    var a := Acquire(c, w, e.acquire);
    assert Grew(w, Fed(a.w));
    var r := FirstReport(c, Fed(a.w), a.haveFix, e.first);
    FirstReportGrows(c, Fed(a.w), a.haveFix, e.first);
    GrewOn(w, Fed(a.w), r);
    var f := Frequent(c, r, motionCycle, e.entry, e.passes);
    FrequentGrows(c, r, motionCycle, e.entry, e.passes);
    GrewOn(w, r, f);
    if f.life == Alive {
      assert Grew(f, Park(c, f, e));
      GrewOn(w, f, Park(c, f, e));
    }
  }

  lemma OnlineGrows(c: Config, w: World, motionCycle: bool, e: CycleScript)
    ensures Grew(w, Online(c, w, motionCycle, e))
  {
    var r := Spent(ResumeLink(c, w, e.resume).0, e.resumeDriverMs);
    var (s, ok) := StartReceiver(c, r, e.start, e.startMs);
    assert Grew(w, s);
    if ok {
      TrackedGrows(c, s, motionCycle, e);
      GrewOn(w, s, Tracked(c, s, motionCycle, e));
    }
  }

  lemma AttachedGrows(c: Config, w: World, motionCycle: bool, e: CycleScript)
    ensures Grew(w, Attached(c, w, motionCycle, e))
  {
    if LteUp(c, e.lte) {
      OnlineGrows(c, w, motionCycle, e);
    }
  }

  /** What the check at the top of a cycle leaves: the world as it is when the check is over. */
  function Checked(c: Config, w: World, e: CycleScript): World {
    if c.build.skipLte then Top(w) else Recover(c, Top(w), e.recover)
  }

  /** After the check, a cycle only accepts reports. */
  lemma CycleGrows(c: Config, w: World, e: CycleScript)
    requires w.life == Alive
    ensures Grew(Checked(c, w, e), Cycle(c, w, e))
    ensures Checked(c, w, e).life != Alive ==> Cycle(c, w, e) == Checked(c, w, e)
  {
    var r, motionCycle := Checked(c, w, e), w.wake == Wake.Motion;
    if c.build.skipLte {
      OnlineGrows(c, r, motionCycle, e);
    } else if r.life == Alive {
      var l := Attach(c, r, e.lte, e.lteDriverMs);
      AttachedGrows(c, l, motionCycle, e);
      GrewOn(r, l, Attached(c, l, motionCycle, e));
    }
  }

  /** The check restarts the modem exactly in the first cycle of a silence that has lasted the
      recovery time but not the reboot time, reboots exactly when it has lasted both, and remembers
      the restart exactly as long as the silence lasts. */
  lemma ChecksExactly(c: Config, w: World, e: CycleScript)
    requires w.life == Alive && !c.build.skipLte
    ensures var silent := (w.clock.now as int) - (w.silence.lastSend as int);
            var r, log := Cycle(c, w, e), w.silence.log;
            var recovery, reboot := c.recoveryMin * 60_000, c.rebootMin * 60_000;
            var reboots := silent >= recovery && silent >= reboot;
            var restarts := recovery <= silent < reboot && !w.silence.bounced;
            var after := if reboots then log + [Rebooted(w.clock.now)]
                         else if restarts then log + [Restarted(w.clock.now)] else log;
            && (r.life == Rebooting <==> reboots)
            && after <= r.silence.log && (forall k :: |after| <= k < |r.silence.log| ==> r.silence.log[k].Accepted?)
            && (reboots ==> r.silence.log == after && r.clock.now == w.clock.now + 200)
            && (!reboots ==> (r.silence.bounced <==> silent >= recovery))
  {
    var silent := (w.clock.now as int) - (w.silence.lastSend as int);
    assert silent / MINUTE < c.recoveryMin <==> silent < RecoveryMs(c);
    assert silent / MINUTE >= c.rebootMin <==> silent >= RebootMs(c);
    CycleGrows(c, w, e);
    RebootsOnlyAtTheCheck(c, w, e);
  }

  lemma RebootsOnlyAtTheCheck(c: Config, w: World, e: CycleScript)
    requires w.life == Alive && !c.build.skipLte
    ensures Cycle(c, w, e).life == Rebooting <==> Recover(c, Top(w), e.recover).life == Rebooting
  {
    CycleStages(c, w, e);
  }

  // ---------------------------------------------------------------- one restart per silence

  /** What the program remembers is what happened: the last accepted report, and whether the
      modem was restarted since. */
  ghost predicate Honest(c: Config, w: World) {
    var s := w.silence;
    && s.lastSend == LastAccept(s.log) <= w.clock.now
    && (RestartedSince(s.log) ==> s.bounced && RecoveryMs(c) <= w.clock.now - s.lastSend)
    && AllLawful(c, s.log)
  }

  /** The histories a cycle passes through while it accepts reports. */
  lemma GrewReads(w: World, r: World, k: nat)
    requires Grew(w, r) && |w.silence.log| <= k <= |r.silence.log|
    ensures k == |w.silence.log| ==> r.silence.log[..k] == w.silence.log
    ensures k > |w.silence.log| ==>
              LastAccept(r.silence.log[..k]) == r.silence.log[k - 1].at && !RestartedSince(r.silence.log[..k])
  {
    var b := r.silence.log;
    if k > |w.silence.log| {
      assert b[..k] == b[..k - 1] + [b[k - 1]];
      ReadSnoc(b[..k - 1], b[k - 1]);
    }
  }

  lemma GrewLawfully(c: Config, w: World, r: World, j: nat)
    requires Grew(w, r) && |w.silence.log| <= j < |r.silence.log|
    requires LastAccept(w.silence.log) <= w.clock.now
    ensures r.silence.log[j].Accepted? && Lawful(c, r.silence.log[..j], r.silence.log[j])
    ensures LastAccept(w.silence.log) <= LastAccept(r.silence.log[..j])
  {
    GrewReads(w, r, j);
  }

  lemma GrewLawfulAt(c: Config, w: World, r: World, j: nat)
    requires Grew(w, r) && j < |r.silence.log|
    requires LastAccept(w.silence.log) <= w.clock.now && AllLawful(c, w.silence.log)
    ensures Lawful(c, r.silence.log[..j], r.silence.log[j])
  {
    var a, b := w.silence.log, r.silence.log;
    if j < |a| {
      assert b[..j] == a[..j] && b[j] == a[j];
    } else {
      GrewLawfully(c, w, r, j);
    }
  }

  lemma GrewAllLawful(c: Config, w: World, r: World)
    requires Grew(w, r)
    requires LastAccept(w.silence.log) <= w.clock.now && AllLawful(c, w.silence.log)
    ensures AllLawful(c, r.silence.log)
  {
    forall j | 0 <= j < |r.silence.log|
      ensures Lawful(c, r.silence.log[..j], r.silence.log[j])
    {
      GrewLawfulAt(c, w, r, j);
    }
  }

  lemma GrewStaysHonest(c: Config, w: World, r: World)
    requires Honest(c, w) && Grew(w, r)
    ensures Honest(c, r)
  {
    GrewAllLawful(c, w, r);
    GrewReads(w, r, |r.silence.log|);
    assert r.silence.log[..|r.silence.log|] == r.silence.log;
  }

  lemma CheckStaysHonest(c: Config, w: World, e: CycleScript)
    requires Honest(c, w) && w.life == Alive
    ensures Honest(c, Checked(c, w, e))
  {
    var now, s := w.clock.now, w.silence;
    ReadSnoc(s.log, Restarted(now));
    ReadSnoc(s.log, Rebooted(now));
    AllSnoc(c, 0, s.log, Restarted(now));
    AllSnoc(c, 0, s.log, Rebooted(now));
  }

  lemma {:induction false} RunStaysHonest(c: Config, w: World, es: seq<CycleScript>)
    requires Honest(c, w)
    ensures Honest(c, Run(c, w, es))
    decreases |es|
  {
    if es != [] && w.life == Alive {
      CheckStaysHonest(c, w, es[0]);
      CycleGrows(c, w, es[0]);
      GrewStaysHonest(c, Checked(c, w, es[0]), Cycle(c, w, es[0]));
      RunStaysHonest(c, Cycle(c, w, es[0]), es[1..]);
    }
  }

  /** A history that says the modem was not restarted says why: a later report was accepted. */
  lemma {:induction false} AcceptedBetween(log: seq<SilenceEvent>, i: nat)
    requires i < |log| && log[i].Restarted? && !RestartedSince(log)
    ensures exists k :: i < k < |log| && log[k].Accepted?
    decreases |log|
  {
    var n := |log| - 1;
    if log[n].Accepted? {
      assert i < n;
    } else {
      AcceptedBetween(log[..n], i);
      var k :| i < k < n && log[..n][k].Accepted?;
      assert log[k].Accepted?;
    }
  }

  /** In every run, an accepted report lies between any two restarts of the modem, and a restart
      comes only after the recovery time without one and before the reboot time. */
  lemma OneRestartPerSilence(c: Config, bootMs: nat, external: bool, accelerometer: bool, credentials: bool,
                             es: seq<CycleScript>, i: nat, j: nat)
    requires var log := Run(c, Boot(c, bootMs, external, accelerometer, credentials), es).silence.log;
             j < |log| && log[j].Restarted?
    ensures var log := Run(c, Boot(c, bootMs, external, accelerometer, credentials), es).silence.log;
            && RecoveryMs(c) <= log[j].at - LastAccept(log[..j]) < RebootMs(c)
            && (i < j && log[i].Restarted? ==> exists k :: i < k < j && log[k].Accepted?)
  {
    var r := Run(c, Boot(c, bootMs, external, accelerometer, credentials), es);
    RunStaysHonest(c, Boot(c, bootMs, external, accelerometer, credentials), es);
    var log := r.silence.log;
    assert Lawful(c, log[..j], log[j]);
    if i < j && log[i].Restarted? {
      AcceptedBetween(log[..j], i);
      var k :| i < k < j && log[..j][k].Accepted?;
      assert log[k].Accepted?;
    }
  }

  // ---------------------------------------------------------------- a restart before a reboot

  /** Every cycle of the run takes less than `limit`. */
  ghost predicate Shorter(c: Config, w: World, es: seq<CycleScript>, limit: nat)
    decreases |es|
  {
    es != [] && w.life == Alive ==>
      Cycle(c, w, es[0]).clock.now - w.clock.now < limit && Shorter(c, Cycle(c, w, es[0]), es[1..], limit)
  }

  /** Nothing was accepted since the last check, at `top`, and then a silence long enough for a
      restart has had one; or something was. */
  ghost predicate Ready(c: Config, w: World, top: nat) {
    var s := w.silence;
    || top <= s.lastSend
    || ((s.bounced || RecoveryMs(c) <= top - s.lastSend) ==> RestartedSince(s.log))
  }

  lemma CheckStaysReady(c: Config, w: World, e: CycleScript, top: nat)
    requires Honest(c, w) && w.life == Alive && Ready(c, w, top) && AllPreceded(w.silence.log)
    requires top <= w.clock.now && !c.build.skipLte
    requires w.clock.now - top < RecoveryMs(c) && w.clock.now - top + RecoveryMs(c) < RebootMs(c)
    ensures AllPreceded(Checked(c, w, e).silence.log)
    ensures Checked(c, w, e).life == Alive ==> Ready(c, Checked(c, w, e), w.clock.now)
  {
    var now, s := w.clock.now, w.silence;
    ReadSnoc(s.log, Restarted(now));
    AllSnoc(c, 0, s.log, Restarted(now));
    AllSnoc(c, 0, s.log, Rebooted(now));
  }

  lemma GrewPreceded(w: World, r: World)
    requires Grew(w, r) && AllPreceded(w.silence.log)
    ensures AllPreceded(r.silence.log)
  {
    var a, b := w.silence.log, r.silence.log;
    forall j | 0 <= j < |b|
      ensures Preceded(b[..j], b[j])
    {
      if j < |a| {
        assert b[..j] == a[..j] && b[j] == a[j];
      }
    }
  }

  lemma {:induction false} RunStaysReady(c: Config, w: World, es: seq<CycleScript>, limit: nat, top: nat)
    requires Honest(c, w) && Ready(c, w, top) && AllPreceded(w.silence.log) && !c.build.skipLte
    requires top <= w.clock.now < top + limit && Shorter(c, w, es, limit)
    requires limit <= RecoveryMs(c) && limit + RecoveryMs(c) <= RebootMs(c)
    ensures AllPreceded(Run(c, w, es).silence.log)
    decreases |es|
  {
    if es != [] && w.life == Alive {
      var k, n := Checked(c, w, es[0]), Cycle(c, w, es[0]);
      CheckStaysReady(c, w, es[0], top);
      CheckStaysHonest(c, w, es[0]);
      CycleGrows(c, w, es[0]);
      if k.life == Alive {
        ReadyThrough(c, w, k, n);
        RunStaysReady(c, n, es[1..], limit, w.clock.now);
      }
    }
  }

  lemma ReadyThrough(c: Config, w: World, k: World, n: World)
    requires Honest(c, k) && Grew(k, n) && Ready(c, k, w.clock.now) && AllPreceded(k.silence.log)
    requires w.clock.now <= k.clock.now && k.silence.lastSend <= w.clock.now
    ensures Honest(c, n) && Ready(c, n, w.clock.now) && AllPreceded(n.silence.log)
  {
    GrewStaysHonest(c, k, n);
    GrewPreceded(k, n);
  }

  /** If every cycle, and boot, takes less than the recovery time and than what lies between it
      and the reboot time, then every reboot was preceded by a restart of the modem in the same
      silence. */
  lemma RebootFollowsRestart(c: Config, bootMs: nat, external: bool, accelerometer: bool, credentials: bool,
                             es: seq<CycleScript>, limit: nat, j: nat)
    requires !c.build.skipLte && bootMs < limit
    requires Shorter(c, Boot(c, bootMs, external, accelerometer, credentials), es, limit)
    requires limit <= RecoveryMs(c) && limit + RecoveryMs(c) <= RebootMs(c)
    requires var log := Run(c, Boot(c, bootMs, external, accelerometer, credentials), es).silence.log;
             j < |log| && log[j].Rebooted?
    ensures var log := Run(c, Boot(c, bootMs, external, accelerometer, credentials), es).silence.log;
            exists i :: 0 <= i < j && log[i].Restarted? && (forall k :: i < k < j ==> !log[k].Accepted?)
  {
    var r := Run(c, Boot(c, bootMs, external, accelerometer, credentials), es);
    RunStaysReady(c, Boot(c, bootMs, external, accelerometer, credentials), es, limit, 0);
    var log := r.silence.log;
    assert Preceded(log[..j], log[j]);
    RestartFound(log[..j]);
    var i :| 0 <= i < j && log[..j][i].Restarted? && (forall k :: i < k < j ==> !log[..j][k].Accepted?);
    assert log[i].Restarted?;
    forall k | i < k < j
      ensures !log[k].Accepted?
    {
      assert log[k] == log[..j][k];
    }
  }

  lemma {:induction false} RestartFound(log: seq<SilenceEvent>)
    requires RestartedSince(log)
    ensures exists i :: 0 <= i < |log| && log[i].Restarted? && (forall k :: i < k < |log| ==> !log[k].Accepted?)
    decreases |log|
  {
    var n := |log| - 1;
    if log[n].Restarted? {
      assert 0 <= n < |log| && log[n].Restarted?;
    } else {
      RestartFound(log[..n]);
      var i :| 0 <= i < n && log[..n][i].Restarted? && (forall k :: i < k < n ==> !log[..n][k].Accepted?);
      assert log[i].Restarted?;
      forall k | i < k < |log|
        ensures !log[k].Accepted?
      {
        if k < n {
          assert log[k] == log[..n][k];
        }
      }
    }
  }

  // ---------------------------------------------------------------- a bound on silence

  /** A check lets a silence of less than this pass: the reboot time, unless the recovery time
      is configured to be even longer. */
  function PatienceMs(c: Config): nat {
    Max(RecoveryMs(c), RebootMs(c))
  }

  /** Silent for less than `bound`, now and before every event so far. */
  ghost predicate Heard(c: Config, w: World, bound: nat) {
    Honest(c, w) && w.clock.now - w.silence.lastSend < bound && AllBelow(bound, w.silence.log)
  }

  lemma GrewStaysHeard(c: Config, w: World, r: World, bound: nat)
    requires Honest(c, w) && Grew(w, r) && AllBelow(bound, w.silence.log)
    requires r.clock.now - w.silence.lastSend < bound
    ensures Heard(c, r, bound)
  {
    var a, b := w.silence.log, r.silence.log;
    forall j | 0 <= j < |b|
      ensures Below(bound, b[..j], b[j])
    {
      if j < |a| {
        assert b[..j] == a[..j] && b[j] == a[j];
      } else {
        GrewLawfully(c, w, r, j);
      }
    }
    GrewStaysHonest(c, w, r);
  }

  /** A check that does not end in a reboot finds a silence it can let pass. */
  lemma CheckHears(c: Config, w: World, e: CycleScript, bound: nat)
    requires Heard(c, w, bound) && w.life == Alive && !c.build.skipLte
    ensures var k := Checked(c, w, e);
            && AllBelow(bound, k.silence.log) && k.silence.lastSend == w.silence.lastSend
            && (k.life == Alive ==> w.clock.now - w.silence.lastSend < PatienceMs(c))
            && (k.life != Alive ==> k.clock.now == w.clock.now + 200)
  {
    var now, s := w.clock.now, w.silence;
    AllSnoc(c, bound, s.log, Restarted(now));
    AllSnoc(c, bound, s.log, Rebooted(now));
  }

  lemma {:induction false} RunIsHeard(c: Config, w: World, es: seq<CycleScript>, longest: nat)
    requires Heard(c, w, PatienceMs(c) + longest) && Shorter(c, w, es, longest + 1) && !c.build.skipLte
    ensures var r := Run(c, w, es);
            && AllBelow(PatienceMs(c) + longest, r.silence.log)
            && (r.life != Rebooting ==> r.clock.now - r.silence.lastSend < PatienceMs(c) + longest)
    decreases |es|
  {
    if es != [] && w.life == Alive {
      var bound := PatienceMs(c) + longest;
      var k, n := Checked(c, w, es[0]), Cycle(c, w, es[0]);
      CheckHears(c, w, es[0], bound);
      CheckStaysHonest(c, w, es[0]);
      CycleGrows(c, w, es[0]);
      if k.life == Alive {
        GrewStaysHeard(c, k, n, bound);
        RunIsHeard(c, n, es[1..], longest);
      }
    }
  }

  /** At every moment of every run the silence is shorter than that plus the longest
      cycle: before every accepted report, every restart and every reboot, and at the end. */
  lemma SilenceIsBounded(c: Config, bootMs: nat, external: bool, accelerometer: bool, credentials: bool,
                         es: seq<CycleScript>, longest: nat)
    requires !c.build.skipLte && bootMs < PatienceMs(c) + longest
    requires Shorter(c, Boot(c, bootMs, external, accelerometer, credentials), es, longest + 1)
    ensures var r := Run(c, Boot(c, bootMs, external, accelerometer, credentials), es);
            && (forall j :: 0 <= j < |r.silence.log| ==>
                  r.silence.log[j].at - LastAccept(r.silence.log[..j]) < PatienceMs(c) + longest)
            && (r.life != Rebooting ==> r.clock.now - LastAccept(r.silence.log) < PatienceMs(c) + longest)
  {
    var w := Boot(c, bootMs, external, accelerometer, credentials);
    RunIsHeard(c, w, es, longest);
    RunStaysHonest(c, w, es);
    var log := Run(c, w, es).silence.log;
    assert forall j :: 0 <= j < |log| ==> Below(PatienceMs(c) + longest, log[..j], log[j]);
  }

  // ---------------------------------------------------------------- no bound on the cycle

  function Repeat(p: Pass, n: nat): (ps: seq<Pass>)
    ensures |ps| == n
  {
    if n == 0 then [] else [p] + Repeat(p, n - 1)
  }

  lemma PassIsSilent(c: Config, w: World, p: Pass)
    requires p.fix == Never && !c.publishWithoutFix
    ensures var t := PassBody(c, w, p);
            t.silence == w.silence && t.clock.now >= w.clock.now + IntervalMs(c)
  {
  }

  /** The bound on a cycle cannot be dropped: while external power stays and no fix comes, the
      silence grows by at least the interval a pass, and nothing is restarted or rebooted. */
  lemma {:induction false} PoweredSilenceGrows(c: Config, w: World, motionCycle: bool, p: Pass, n: nat)
    requires p.check.vbus && p.fix == Never && !c.publishWithoutFix
    ensures var l := Loop(c, w, motionCycle, Repeat(p, n));
            && l.w.silence == w.silence && l.passes == n
            && l.w.clock.now >= w.clock.now + n * IntervalMs(c)
    decreases n
  {
    if n > 0 {
      assert Repeat(p, n)[0] == p && Repeat(p, n)[1..] == Repeat(p, n - 1);
      PassIsSilent(c, w, p);
      var t := PassBody(c, w, p);
      PoweredSilenceGrows(c, t, motionCycle, p, n - 1);
      Arithmetic.NextMultiple(n - 1, IntervalMs(c));
      assert Loop(c, w, motionCycle, Repeat(p, n)).w == Loop(c, t, motionCycle, Repeat(p, n - 1)).w;
    }
  }
}
