/** The session with nRF Cloud over whole runs of the report loop, and what one report does. */
module MainCloud {
  import opened TrackerConfig
  import opened MainLoop
  import CloudLink
  import Receivers
  import Wake

  // ---------------------------------------------------------------- one report

  const TAKEN := CloudLink.Answered(CloudLink.OK)

  /** The first answer says that the session is gone: -EACCES or -ENOTCONN. */
  predicate Expired(d: CloudLink.Delivery) {
    d == CloudLink.Answered(-13) || d == CloudLink.Answered(-128)
  }

  /** Whether report_fix() sends a second time: the first answer was stale and the link could be
      had. */
  predicate SendsAgain(c: Config, w: World, e: ReportScript) {
    Expired(e.send)
    && CloudLink.Resume(c.build, c.modemTimeS, CloudLink.Note(w.cloud, CloudLink.Post),
                        e.resume.answers).1 == CloudLink.OK
  }

  /** Whether the cloud takes a report: at the first sending, or at the second. */
  predicate Taken(c: Config, w: World, e: ReportScript) {
    e.send == TAKEN || (SendsAgain(c, w, e) && e.resend == TAKEN)
  }

  /** Whether report_fix() makes a new session: the first answer was stale, and the link is neither
      connected nor a paused one that resumes. */
  predicate ShakesAgain(w: World, e: ReportScript) {
    Expired(e.send) && w.cloud.credsOk && w.cloud.link != CloudLink.Connected
    && !(w.cloud.link == CloudLink.Paused && e.resume.answers.resume == CloudLink.OK)
  }

  function PostsOf(d: CloudLink.Delivery): nat {
    if d.TooLarge? then 0 else 1
  }

  lemma PostOutcome(c: Config, w: World, d: CloudLink.Delivery, ms: nat)
    requires CloudLink.Online(c.build)
    ensures var (r, err) := Post(c, w, d, ms);
            && err == CloudLink.Returned(d) && r.cloud.link == w.cloud.link && r.cloud.credsOk == w.cloud.credsOk
            && CloudLink.Posts(r.cloud.wire) == CloudLink.Posts(w.cloud.wire) + PostsOf(d)
            && CloudLink.Handshakes(r.cloud.wire) == CloudLink.Handshakes(w.cloud.wire)
            && (d.Answered? ==> r.cloud == CloudLink.Note(w.cloud, CloudLink.Post))
  {
    CloudLink.CountSnoc(w.cloud.wire, CloudLink.Post);
  }

  lemma StaleExactly(d: CloudLink.Delivery)
    ensures Stale(CloudLink.Returned(d)) <==> Expired(d)
  {
  }

  /** Online, a report sends its payload once, and once more exactly when the first answer was
      stale and the link could be had; each sending is a posting unless the envelope is too
      large, and it succeeds exactly when one of the two was taken. A handshake is made exactly
      when the retry needs a new session. */
  lemma SendOutcome(c: Config, w: World, e: ReportScript)
    requires CloudLink.Online(c.build) && CloudLink.Invariant(w.cloud)
    ensures var (r, err) := SendReport(c, w, e);
            && (err == CloudLink.OK <==> Taken(c, w, e))
            && CloudLink.Posts(r.cloud.wire) == CloudLink.Posts(w.cloud.wire) + PostsOf(e.send)
                                                  + (if SendsAgain(c, w, e) then PostsOf(e.resend) else 0)
            && CloudLink.Handshakes(r.cloud.wire)
               == CloudLink.Handshakes(w.cloud.wire) + (if ShakesAgain(w, e) then 1 else 0)
  {
    PostOutcome(c, w, e.send, e.sendMs);
    StaleExactly(e.send);
    var p := Post(c, w, e.send, e.sendMs).0;
    if Expired(e.send) {
      CloudLink.ResumeOutcome(c.build, c.modemTimeS, p.cloud, e.resume.answers);
      PostOutcome(c, ResumeLink(c, p, e.resume).0, e.resend, e.resendMs);
    }
  }

  function Wired(d: CloudLink.Delivery): seq<CloudLink.Event> {
    if d.TooLarge? then [] else [CloudLink.Post]
  }

  /** From a connected link the reconnect changes nothing: the payload is simply posted again,
      with no handshake in between, and the link stays connected. */
  lemma RetryFromConnected(c: Config, w: World, e: ReportScript)
    requires CloudLink.Online(c.build) && CloudLink.Invariant(w.cloud) && w.cloud.link == CloudLink.Connected
    ensures SendReport(c, w, e).0.cloud.wire
            == w.cloud.wire + Wired(e.send) + if Expired(e.send) then Wired(e.resend) else []
    ensures SendReport(c, w, e).0.cloud.link == CloudLink.Connected
    ensures SendReport(c, w, e).1
            == CloudLink.Returned(if Expired(e.send) then e.resend else e.send)
  {
  }

  /** last_send_uptime moves exactly when the payload fits and the cloud takes it, and then to a
      moment within the report; nothing else is recorded. */
  lemma OnlyAcceptanceCounts(c: Config, w: World, e: ReportScript, withFix: bool)
    requires CloudLink.Online(c.build) && CloudLink.Invariant(w.cloud)
    ensures var r := Report(c, w, e, withFix);
            if e.fits && Taken(c, w, e)
            then w.clock.now <= r.silence.lastSend <= r.clock.now
                 && r.silence.log == w.silence.log + [Accepted(r.silence.lastSend)]
            else r.silence == w.silence
    ensures !e.fits ==> Report(c, w, e, withFix).cloud == w.cloud
  {
    SendOutcome(c, Spent(w, e.driverMs), e);
  }

  /** What the sending half of a report sees as the answer, in any build. */
  function AnswerOf(b: CloudLink.Build, d: CloudLink.Delivery): int {
    if d.TooLarge? then -12 else if b.offline then 0 else if d.err <= 0 || b.hologram then d.err else -5
  }

  /** In every build, then: last_send_uptime moves exactly when the payload fits and its first
      answer is 0, or says that the session is gone, it can be had again, and the second is 0. It
      moves to that moment, before the location is sent. */
  lemma AcceptsExactly(c: Config, w: World, e: ReportScript, withFix: bool)
    ensures var r := Report(c, w, e, withFix);
            var first := AnswerOf(c.build, e.send);
            var cloud := CloudLink.Send(c.build, w.cloud, e.send).0;
            var again := (first == -13 || first == -128)
                         && CloudLink.Resume(c.build, c.modemTimeS, cloud, e.resume.answers).1 == 0;
            if e.fits && (first == 0 || (again && AnswerOf(c.build, e.resend) == 0))
            then r.silence.lastSend + (if withFix then e.locationMs else 0) == r.clock.now
                 && r.silence.log == w.silence.log + [Accepted(r.silence.lastSend)]
            else r.silence == w.silence
  {
    CloudLink.SendsExactly(c.build, w.cloud, e.send);
    var b := Spent(w, e.driverMs);
    var p := Post(c, b, e.send, e.sendMs).0;
    var r := ResumeLink(c, p, e.resume).0;
    CloudLink.SendsExactly(c.build, r.cloud, e.resend);
  }

  /** How long a report takes: the driver time, its sendings with the resume between them, and the
      location, which is sent exactly when a report with a fix was accepted. */
  function ReportMs(c: Config, w: World, e: ReportScript, withFix: bool): nat {
    e.driverMs
    + if !e.fits then 0
      else e.sendMs + (if Expired(e.send) then e.resume.ms else 0)
           + (if SendsAgain(c, w, e) then e.resendMs else 0)
           + (if Taken(c, w, e) && withFix then e.locationMs else 0)
  }

  lemma ReportTakes(c: Config, w: World, e: ReportScript, withFix: bool)
    requires CloudLink.Online(c.build) && CloudLink.Invariant(w.cloud)
    ensures Report(c, w, e, withFix).clock.now == w.clock.now + ReportMs(c, w, e, withFix)
    ensures Report(c, w, e, withFix).clock.fed
            == if e.fits then Report(c, w, e, withFix).clock.now else w.clock.fed
  {
    SendOutcome(c, Spent(w, e.driverMs), e);
    StaleExactly(e.send);
  }

  // ---------------------------------------------------------------- the session from cycle to cycle

  /** A connected session stays connected, and makes no handshake, through everything up to the end
      of a cycle. */
  predicate SameSession(a: CloudLink.State, b: CloudLink.State) {
    a.link == CloudLink.Connected && b.link == CloudLink.Connected && a.credsOk == b.credsOk
    && CloudLink.Handshakes(b.wire) == CloudLink.Handshakes(a.wire)
  }

  lemma ReportKeepsSession(c: Config, w: World, haveFix: bool, e: ReportScript)
    requires CloudLink.Online(c.build) && CloudLink.Invariant(w.cloud) && w.cloud.link == CloudLink.Connected
    ensures SameSession(w.cloud, ReportIfAny(c, w, haveFix, e).cloud)
  {
    SendKeepsSession(c, Spent(w, e.driverMs), e);
    ReportOnlySends(c, w, haveFix, e);
  }

  lemma ReportOnlySends(c: Config, w: World, haveFix: bool, e: ReportScript)
    ensures ReportIfAny(c, w, haveFix, e).cloud
            == if (haveFix || c.publishWithoutFix) && e.fits then SendReport(c, Spent(w, e.driverMs), e).0.cloud else w.cloud
  {
  }

  lemma SendKeepsSession(c: Config, w: World, e: ReportScript)
    requires CloudLink.Online(c.build) && CloudLink.Invariant(w.cloud) && w.cloud.link == CloudLink.Connected
    ensures SameSession(w.cloud, SendReport(c, w, e).0.cloud)
  {
    PostOutcome(c, w, e.send, e.sendMs);
    var p := Post(c, w, e.send, e.sendMs).0;
    if Stale(CloudLink.Returned(e.send)) {
      assert ResumeLink(c, p, e.resume).0.cloud == p.cloud;
      PostOutcome(c, ResumeLink(c, p, e.resume).0, e.resend, e.resendMs);
    }
  }

  lemma {:induction false} LoopKeepsSession(c: Config, w: World, motionCycle: bool, ps: seq<Pass>)
    requires CloudLink.Online(c.build) && CloudLink.Invariant(w.cloud) && w.cloud.link == CloudLink.Connected
    ensures SameSession(w.cloud, Loop(c, w, motionCycle, ps).w.cloud)
    decreases |ps|
  {
    if ps != [] && Goes(c, w, motionCycle, ps[0].check) {
      var (f, have) := WaitFix(PassSleep(c, w, ps[0]), 10, ps[0].fix);
      ReportKeepsSession(c, f, have, ps[0].report);
      LoopKeepsSession(c, PassBody(c, w, ps[0]), motionCycle, ps[1..]);
    }
  }

  lemma FirstReportKeepsSession(c: Config, w: World, haveFix: bool, e: FirstScript)
    requires CloudLink.Online(c.build) && CloudLink.Invariant(w.cloud) && w.cloud.link == CloudLink.Connected
    ensures SameSession(w.cloud, FirstReport(c, w, haveFix, e).cloud)
  {
    ReportKeepsSession(c, if haveFix then SettleFix(c, w, e.better) else w, haveFix, e.report);
  }

  /** The end of a cycle pauses a connected session exactly when it can be kept open and the pause
      is answered with 0. */
  predicate Pauses(e: PauseScript) {
    e.keepOpen && e.answer == 0
  }

  lemma TrackedEndsPaused(c: Config, w: World, motionCycle: bool, e: CycleScript)
    requires CloudLink.Online(c.build) && CloudLink.Invariant(w.cloud) && w.cloud.link == CloudLink.Connected
    requires w.life == Alive
    ensures var r := Tracked(c, w, motionCycle, e);
            && CloudLink.Handshakes(r.cloud.wire) == CloudLink.Handshakes(w.cloud.wire)
            && r.cloud.credsOk
            && r.cloud.link == (if r.life == Alive && Pauses(e.pause) then CloudLink.Paused else CloudLink.Connected)
  {
    var a := Acquire(c, w, e.acquire);
    FirstReportKeepsSession(c, Fed(a.w), a.haveFix, e.first);
    var r := FirstReport(c, Fed(a.w), a.haveFix, e.first);
    LoopKeepsSession(c, r, motionCycle, e.passes);
    var f := Frequent(c, r, motionCycle, e.entry, e.passes);
    assert SameSession(w.cloud, f.cloud);
    CloudLink.PausesExactly(c.build, f.cloud, e.pause.keepOpen, e.pause.answer);
    CloudLink.CountSnoc(f.cloud.wire, CloudLink.PauseOk);
  }

  /** A cycle that starts its tracking connected ends paused exactly when the pause works, and
      connected otherwise. */
  lemma CycleEndsPaused(c: Config, w: World, e: CycleScript)
    requires CloudLink.Online(c.build) && CloudLink.Invariant(w.cloud) && w.life == Alive && Reaches(c, w, e)
    requires Started(c, w, e).0.cloud.link == CloudLink.Connected
    ensures var r, s := Cycle(c, w, e), Started(c, w, e).0;
            && CloudLink.Handshakes(r.cloud.wire) == CloudLink.Handshakes(s.cloud.wire)
            && r.cloud.credsOk
            && r.cloud.link == (if r.life == Alive && Pauses(e.pause) then CloudLink.Paused else CloudLink.Connected)
  {
    CycleStages(c, w, e);
    var (s, ok) := Started(c, w, e);
    StartedSession(c, w, e);
    if ok {
      TrackedEndsPaused(c, s, w.wake == Wake.Motion, e);
    } else {
      CloudLink.PausesExactly(c.build, s.cloud, e.pause.keepOpen, e.pause.answer);
      CloudLink.CountSnoc(s.cloud.wire, CloudLink.PauseOk);
    }
  }

  lemma StartedSession(c: Config, w: World, e: CycleScript)
    requires CloudLink.Online(c.build) && Reaches(c, w, e) && CloudLink.Invariant(w.cloud)
    ensures Started(c, w, e).0.cloud == CloudLink.Resume(c.build, c.modemTimeS, w.cloud, e.resume.answers).0
    ensures CloudLink.Invariant(Started(c, w, e).0.cloud)
  {
    CloudLink.ResumeOutcome(c.build, c.modemTimeS, w.cloud, e.resume.answers);
  }

  /** Such a session outlives any number of cycles: if every pause works and every resume is
      answered with 0, a run that begins paused or connected makes no handshake at all, and every
      cycle that looks for a fix has the session connected. */
  lemma {:induction false} SessionSurvives(c: Config, w: World, es: seq<CycleScript>)
    requires CloudLink.Online(c.build) && CloudLink.Invariant(w.cloud) && w.cloud.link != CloudLink.Disconnected
    requires forall i :: 0 <= i < |es| ==> Pauses(es[i].pause) && es[i].resume.answers.resume == 0
    ensures CloudLink.Handshakes(Run(c, w, es).cloud.wire) == CloudLink.Handshakes(w.cloud.wire)
    ensures Run(c, w, es).cloud.link != CloudLink.Disconnected
    ensures es != [] && w.life == Alive && Reaches(c, w, es[0]) ==>
              Started(c, w, es[0]).0.cloud.link == CloudLink.Connected
              && (Cycle(c, w, es[0]).life == Alive ==> Cycle(c, w, es[0]).cloud.link == CloudLink.Paused)
    decreases |es|
  {
    if es != [] && w.life == Alive {
      CycleSurvives(c, w, es[0]);
      SessionSurvives(c, Cycle(c, w, es[0]), es[1..]);
    }
  }

  lemma CycleSurvives(c: Config, w: World, e: CycleScript)
    requires CloudLink.Online(c.build) && CloudLink.Invariant(w.cloud) && w.cloud.link != CloudLink.Disconnected
    requires w.life == Alive && Pauses(e.pause) && e.resume.answers.resume == 0
    ensures var r := Cycle(c, w, e);
            && CloudLink.Handshakes(r.cloud.wire) == CloudLink.Handshakes(w.cloud.wire)
            && CloudLink.Invariant(r.cloud) && r.cloud.link != CloudLink.Disconnected
            && (Reaches(c, w, e) ==> Started(c, w, e).0.cloud.link == CloudLink.Connected
                                     && (r.life == Alive ==> r.cloud.link == CloudLink.Paused))
  {
    if Reaches(c, w, e) {
      StartedSession(c, w, e);
      CloudLink.ResumeOutcome(c.build, c.modemTimeS, w.cloud, e.resume.answers);
      CycleEndsPaused(c, w, e);
    } else {
      CycleStages(c, w, e);
    }
  }

  // ---------------------------------------------------------------- whole runs

  /** The wire tells the link, and a link was only ever made with credentials. */
  ghost predicate Told(w: World) {
    CloudLink.Tells(w.cloud) && CloudLink.Invariant(w.cloud)
  }

  lemma ResumeLinkTold(c: Config, w: World, e: ResumeScript)
    requires CloudLink.Online(c.build) && Told(w)
    ensures Told(ResumeLink(c, w, e).0)
  {
    CloudLink.ResumeTells(c.build, c.modemTimeS, w.cloud, e.answers);
    CloudLink.ResumeOutcome(c.build, c.modemTimeS, w.cloud, e.answers);
  }

  lemma PauseLinkTold(c: Config, w: World, e: PauseScript)
    requires CloudLink.Online(c.build) && Told(w)
    ensures Told(PauseLink(c, w, e))
  {
    if w.cloud.link == CloudLink.Connected {
      CloudLink.NoteTells(w.cloud, CloudLink.PauseOk);
    }
  }

  lemma PostTold(c: Config, w: World, d: CloudLink.Delivery, ms: nat)
    requires CloudLink.Online(c.build) && Told(w)
    ensures Told(Post(c, w, d, ms).0)
  {
    CloudLink.NoteTells(w.cloud, CloudLink.Post);
  }

  lemma SendTold(c: Config, w: World, e: ReportScript)
    requires CloudLink.Online(c.build) && Told(w)
    ensures Told(SendReport(c, w, e).0)
  {
    PostTold(c, w, e.send, e.sendMs);
    var (p, err) := Post(c, w, e.send, e.sendMs);
    if Stale(err) {
      ResumeLinkTold(c, p, e.resume);
      PostTold(c, ResumeLink(c, p, e.resume).0, e.resend, e.resendMs);
    }
  }

  lemma ReportTold(c: Config, w: World, e: ReportScript, withFix: bool)
    requires CloudLink.Online(c.build) && Told(w)
    ensures Told(Report(c, w, e, withFix))
  {
    SendTold(c, Spent(w, e.driverMs), e);
  }

  lemma ReportIfAnyTold(c: Config, w: World, haveFix: bool, e: ReportScript)
    requires CloudLink.Online(c.build) && Told(w)
    ensures Told(ReportIfAny(c, w, haveFix, e))
  {
    ReportTold(c, w, e, haveFix);
  }

  lemma {:induction false} LoopTold(c: Config, w: World, motionCycle: bool, ps: seq<Pass>)
    requires CloudLink.Online(c.build) && Told(w)
    ensures Told(Loop(c, w, motionCycle, ps).w)
    decreases |ps|
  {
    if ps != [] && Goes(c, w, motionCycle, ps[0].check) {
      var (f, have) := WaitFix(PassSleep(c, w, ps[0]), 10, ps[0].fix);
      ReportIfAnyTold(c, f, have, ps[0].report);
      LoopTold(c, PassBody(c, w, ps[0]), motionCycle, ps[1..]);
    }
  }

  lemma TrackedTold(c: Config, w: World, motionCycle: bool, e: CycleScript)
    requires CloudLink.Online(c.build) && Told(w)
    ensures Told(Tracked(c, w, motionCycle, e))
  {
    var a := Acquire(c, w, e.acquire);
    var s := if a.haveFix then SettleFix(c, Fed(a.w), e.first.better) else Fed(a.w);
    ReportIfAnyTold(c, s, a.haveFix, e.first.report);
    var r := FirstReport(c, Fed(a.w), a.haveFix, e.first);
    assert r.cloud == ReportIfAny(c, s, a.haveFix, e.first.report).cloud;
    LoopTold(c, r, motionCycle, e.passes);
    var f := Frequent(c, r, motionCycle, e.entry, e.passes);
    if f.life == Alive {
      var p := Spent(f.(rx := Receivers.Stop(f.rx, c.powerCycle, e.stop)), e.stopMs);
      PauseLinkTold(c, p, e.pause);
    }
  }

  lemma OnlineTold(c: Config, w: World, motionCycle: bool, e: CycleScript)
    requires CloudLink.Online(c.build) && Told(w)
    ensures Told(Online(c, w, motionCycle, e))
  {
    ResumeLinkTold(c, w, e.resume);
    var r := Spent(ResumeLink(c, w, e.resume).0, e.resumeDriverMs);
    var (s, ok) := StartReceiver(c, r, e.start, e.startMs);
    if ok {
      TrackedTold(c, s, motionCycle, e);
    } else {
      PauseLinkTold(c, s, e.pause);
    }
  }

  lemma CycleTold(c: Config, w: World, e: CycleScript)
    requires CloudLink.Online(c.build) && Told(w)
    ensures Told(Cycle(c, w, e))
  {
    var r := Recover(c, Top(w), e.recover);
    var l := Attach(c, r, e.lte, e.lteDriverMs);
    assert l.cloud == w.cloud;
    if LteUp(c, e.lte) {
      OnlineTold(c, l, w.wake == Wake.Motion, e);
    }
  }

  lemma {:induction false} RunTold(c: Config, w: World, es: seq<CycleScript>)
    requires CloudLink.Online(c.build) && Told(w)
    ensures Told(Run(c, w, es))
    decreases |es|
  {
    if es != [] && w.life == Alive {
      CycleTold(c, w, es[0]);
      RunTold(c, Cycle(c, w, es[0]), es[1..]);
    }
  }

  /** In every run of the online build, the handshake after a successful one comes only after a
      pause that succeeded and a resume, later, that failed. */
  lemma HandshakesAreEarned(c: Config, bootMs: nat, external: bool, accelerometer: bool, credentials: bool,
                            es: seq<CycleScript>, i: nat, j: nat)
    requires CloudLink.Online(c.build)
    requires var wire := Run(c, Boot(c, bootMs, external, accelerometer, credentials), es).cloud.wire;
             i < j < |wire| && wire[i] == CloudLink.Handshake(true) && wire[j].Handshake?
    ensures var wire := Run(c, Boot(c, bootMs, external, accelerometer, credentials), es).cloud.wire;
            exists p, r :: i < p < r < j && wire[p] == CloudLink.PauseOk && wire[r] == CloudLink.ResumeFailed
  {
    RunTold(c, Boot(c, bootMs, external, accelerometer, credentials), es);
    var wire := Run(c, Boot(c, bootMs, external, accelerometer, credentials), es).cloud.wire;
    assert CloudLink.Allowed(CloudLink.LinkOf(wire[..j]), wire[j]);
    CloudLink.FindResumeFailure(wire, i, j);
  }
}
