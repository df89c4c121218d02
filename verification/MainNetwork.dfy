/** Registration: which cycles go on to a receiver, and what the others leave untouched. */
module MainNetwork {
  import opened TrackerConfig
  import opened MainLoop
  import CloudLink
  import MainReceivers
  import Receivers
  import Wake

  /** The silence is long enough for a reboot at the top of the cycle. */
  predicate RebootDue(c: Config, w: World) {
    var silent := (w.clock.now as int) - (w.silence.lastSend as int);
    silent >= RecoveryMs(c) && silent >= RebootMs(c)
  }

  /** The modem is registered already, or becomes so within the timeout. */
  predicate Registers(c: Config, a: LteAnswer) {
    match a
    case AlreadyRegistered => true
    case ConnectRefused => false
    case Awaited(At(ms)) => ms <= c.lteS * 1000
    case Awaited(Never) => false
  }

  /** How long it takes to know. */
  function RegistrationMs(c: Config, a: LteAnswer): nat {
    match a
    case Awaited(At(ms)) => if ms <= c.lteS * 1000 then ms else c.lteS * 1000
    case Awaited(Never) => c.lteS * 1000
    case _ => 0
  }

  lemma NoReboot(c: Config, w: World, e: RecoverScript)
    requires w.life == Alive
    ensures Recover(c, Top(w), e).life == Alive <==> !RebootDue(c, w)
  {
    var silent := (w.clock.now as int) - (w.silence.lastSend as int);
    assert silent / MINUTE >= c.rebootMin <==> silent >= RebootMs(c);
    assert silent / MINUTE < c.recoveryMin <==> silent < RecoveryMs(c);
  }

  lemma StartTouches(s: Receivers.State, f: Receivers.StartFaults)
    requires !f.modem
    ensures |Receivers.Start(s, f).0.seen| > |s.seen|
  {
  }

  lemma Unregistered(c: Config, w: World, e: CycleScript)
    requires w.life == Alive && !c.build.skipLte && !RebootDue(c, w) && !Registers(c, e.lte)
    ensures var r, t := Cycle(c, w, e), Recover(c, Top(w), e.recover);
            && r.life == Alive && r.rx == w.rx && r.cloud == w.cloud && r.assist == w.assist && r.fetches == w.fetches
            && r.clock.now == t.clock.now + RegistrationMs(c, e.lte) + e.lteDriverMs + e.sleep.driverMs + e.sleep.ms
            && |r.settle.log| == |t.settle.log| + 1 && r.settle.log[|t.settle.log|].Slept? && r.wake == e.sleep.reason
  {
    NoReboot(c, w, e.recover);
  }

  lemma Registered(c: Config, w: World, e: CycleScript)
    requires w.life == Alive && !c.build.skipLte && !RebootDue(c, w) && Registers(c, e.lte)
    ensures var r, s := Cycle(c, w, e), Receivers.Start(w.rx, e.start).0;
            && s.seen <= r.rx.seen
            && (!e.start.modem ==> |r.rx.seen| > |w.rx.seen|)
  {
    NoReboot(c, w, e.recover);
    CycleStages(c, w, e);
    var (s, ok) := Started(c, w, e);
    if ok {
      MainReceivers.TrackedRecords(c, s, w.wake == Wake.Motion, e);
    }
    if !e.start.modem {
      StartTouches(w.rx, e.start);
    }
  }

  /** A cycle that does not reboot gets as far as starting a receiver exactly when the modem is
      registered, or registers before its timeout. Otherwise it ends, after exactly the wait, in
      one sleep, with receivers, session and assistance as they were. */
  lemma RegistersExactly(c: Config, w: World, e: CycleScript)
    requires w.life == Alive && !c.build.skipLte && !RebootDue(c, w)
    ensures var r, t := Cycle(c, w, e), Recover(c, Top(w), e.recover);
            && (!e.start.modem ==> (|r.rx.seen| > |w.rx.seen| <==> Registers(c, e.lte)))
            && (if Registers(c, e.lte) then Receivers.Start(w.rx, e.start).0.seen <= r.rx.seen
                else && r.life == Alive && r.wake == e.sleep.reason
                     && r.rx == w.rx && r.cloud == w.cloud && r.assist == w.assist && r.fetches == w.fetches
                     && r.clock.now == t.clock.now + RegistrationMs(c, e.lte) + e.lteDriverMs
                                       + e.sleep.driverMs + e.sleep.ms
                     && |r.settle.log| == |t.settle.log| + 1 && r.settle.log[|t.settle.log|].Slept?)
  {
    if Registers(c, e.lte) {
      Registered(c, w, e);
    } else {
      Unregistered(c, w, e);
    }
  }

  /** When its receiver has been started: after exactly the wait for registration, the resume, and
      the warm-up of a module that had to be switched on. */
  lemma StartsAfterTheWait(c: Config, w: World, e: CycleScript)
    requires w.life == Alive && !c.build.skipLte && !RebootDue(c, w) && Registers(c, e.lte)
    ensures var s, t := Started(c, w, e).0, Recover(c, Top(w), e.recover);
            s.clock.now == t.clock.now + RegistrationMs(c, e.lte) + e.lteDriverMs + e.resume.ms + e.resumeDriverMs
                           + e.startMs
                           + (if w.rx.usable && !w.rx.powered && !e.start.power then c.warmupMs else 0)
  {
    NoReboot(c, w, e.recover);
  }
}
