/** The settle counter over whole runs of the report loop: which battery sleeps watch for jolts. */
module MainSettle {
  import opened TrackerConfig
  import opened Watchdog
  import opened MainLoop
  import MainFrequent
  import Receivers
  import Wake

  // ---------------------------------------------------------------- reading the history

  /** Battery sleeps entered since external power was last observed. Boot counts as enough of
      them to arm. */
  function SleepsSince(c: Config, log: seq<NightEvent>): nat {
    if log == [] then c.settleCycles
    else if log[|log| - 1] == PowerSeen then 0
    else SleepsSince(c, log[..|log| - 1]) + 1
  }

  /** A sleep decides to watch exactly when enough of them came before it. */
  predicate Decides(c: Config, before: seq<NightEvent>, v: NightEvent) {
    v.Slept? ==> v.decided == (SleepsSince(c, before) >= c.settleCycles)
  }

  predicate Obeys(v: NightEvent) {
    v.Slept? ==> v.armed == v.decided
  }

  ghost predicate AllDecide(c: Config, log: seq<NightEvent>) {
    forall j :: 0 <= j < |log| ==> Decides(c, log[..j], log[j])
  }

  lemma ReadSnoc(c: Config, log: seq<NightEvent>, v: NightEvent)
    ensures SleepsSince(c, log + [v]) == if v == PowerSeen then 0 else SleepsSince(c, log) + 1
    ensures AllDecide(c, log) && Decides(c, log, v) ==> AllDecide(c, log + [v])
  {
    var n := log + [v];
    assert n[..|log|] == log;
    assert forall j :: 0 <= j < |log| ==> n[..j] == log[..j];
  }

  // ---------------------------------------------------------------- the invariant

  /** The counter saturates at the threshold. */
  ghost predicate Counts(c: Config, s: Settle) {
    s.count == Min(c.settleCycles, SleepsSince(c, s.log)) && AllDecide(c, s.log)
  }

  lemma ObserveCounts(c: Config, s: Settle)
    requires Counts(c, s)
    ensures Counts(c, ObservePower(s))
  {
    ReadSnoc(c, s.log, PowerSeen);
  }

  lemma SleepCounts(c: Config, w: World, e: SleepScript)
    requires Counts(c, w.settle)
    ensures Counts(c, BatterySleep(c, w, e).settle)
  {
    var s := w.settle;
    var arm := s.count >= c.settleCycles;
    ReadSnoc(c, s.log, Slept(arm, Arm(c, s, arm, e.triggerFault).armed, w.rx.active, w.rx.hw));
  }

  lemma {:induction false} LoopCounts(c: Config, w: World, motionCycle: bool, ps: seq<Pass>)
    requires Counts(c, w.settle)
    ensures Counts(c, Loop(c, w, motionCycle, ps).w.settle)
    decreases |ps|
  {
    if ps != [] && Goes(c, w, motionCycle, ps[0].check) {
      var t := PassBody(c, w, ps[0]);
      assert Counts(c, t.settle) by {
        ObserveCounts(c, Arm(c, w.settle, false, ps[0].triggerFault));
        assert t.settle == PassSleep(c, w, ps[0]).settle;
      }
      LoopCounts(c, t, motionCycle, ps[1..]);
    }
  }

  lemma TrackedCounts(c: Config, w: World, motionCycle: bool, e: CycleScript)
    requires Counts(c, w.settle)
    ensures Counts(c, Tracked(c, w, motionCycle, e).settle)
  {
    var a := Acquire(c, w, e.acquire);
    var r := FirstReport(c, Fed(a.w), a.haveFix, e.first);
    LoopCounts(c, r, motionCycle, e.passes);
    var f := Frequent(c, r, motionCycle, e.entry, e.passes);
    if f.life == Alive {
      var s := Spent(f.(rx := Receivers.Stop(f.rx, c.powerCycle, e.stop)), e.stopMs);
      SleepCounts(c, PauseLink(c, s, e.pause), e.sleep);
    }
  }

  lemma OnlineCounts(c: Config, w: World, motionCycle: bool, e: CycleScript)
    requires Counts(c, w.settle)
    ensures Counts(c, Online(c, w, motionCycle, e).settle)
  {
    var r := Spent(ResumeLink(c, w, e.resume).0, e.resumeDriverMs);
    var (s, ok) := StartReceiver(c, r, e.start, e.startMs);
    if ok {
      TrackedCounts(c, s, motionCycle, e);
    } else {
      SleepCounts(c, PauseLink(c, s, e.pause), e.sleep);
    }
  }

  lemma ConnectCounts(c: Config, w: World, motionCycle: bool, e: CycleScript)
    requires Counts(c, w.settle)
    ensures Counts(c, Connect(c, w, motionCycle, e).settle)
  {
    var r := Recover(c, w, e.recover);
    var l := Attach(c, r, e.lte, e.lteDriverMs);
    if LteUp(c, e.lte) {
      OnlineCounts(c, l, motionCycle, e);
    } else {
      SleepCounts(c, l, e.sleep);
    }
  }

  lemma CycleCounts(c: Config, w: World, e: CycleScript)
    requires Counts(c, w.settle)
    ensures Counts(c, Cycle(c, w, e).settle)
  {
    ObserveCounts(c, w.settle);
    if c.build.skipLte {
      OnlineCounts(c, Top(w), w.wake == Wake.Motion, e);
    } else {
      ConnectCounts(c, Top(w), w.wake == Wake.Motion, e);
    }
  }

  lemma {:induction false} RunCounts(c: Config, w: World, es: seq<CycleScript>)
    requires Counts(c, w.settle)
    ensures Counts(c, Run(c, w, es).settle)
    decreases |es|
  {
    if es != [] && w.life == Alive {
      CycleCounts(c, w, es[0]);
      RunCounts(c, Cycle(c, w, es[0]), es[1..]);
    }
  }

  // ---------------------------------------------------------------- what it means

  /** k sleeps after an observation of power, with none in between. */
  lemma {:induction false} SleepsCounted(c: Config, log: seq<NightEvent>, i: nat)
    requires i < |log| && log[i] == PowerSeen && (forall k :: i < k < |log| ==> log[k].Slept?)
    ensures SleepsSince(c, log) == |log| - 1 - i
    decreases |log|
  {
    var n := |log| - 1;
    if i < n {
      assert log[..n][i] == PowerSeen;
      assert forall k :: i < k < n ==> log[..n][k] == log[k];
      SleepsCounted(c, log[..n], i);
    }
  }

  lemma {:induction false} SleepsFromBoot(c: Config, log: seq<NightEvent>)
    requires forall k :: 0 <= k < |log| ==> log[k].Slept?
    ensures SleepsSince(c, log) == c.settleCycles + |log|
    decreases |log|
  {
    if log != [] {
      assert forall k :: 0 <= k < |log| - 1 ==> log[..|log| - 1][k] == log[k];
      SleepsFromBoot(c, log[..|log| - 1]);
    }
  }

  /** In every run, the counter is the smaller of the threshold and the sleeps entered since
      power was last observed. So after each observation exactly the threshold's number of
      sleeps decide against watching and every later one decides for it; and before the first
      observation, every sleep decides for it. */
  lemma ThresholdSleepsAreUnarmed(c: Config, bootMs: nat, external: bool, accelerometer: bool, credentials: bool,
                                  es: seq<CycleScript>, i: nat, j: nat)
    requires var log := Run(c, Boot(c, bootMs, external, accelerometer, credentials), es).settle.log;
             j < |log| && log[j].Slept?
    ensures var s := Run(c, Boot(c, bootMs, external, accelerometer, credentials), es).settle;
            && s.count == Min(c.settleCycles, SleepsSince(c, s.log))
            && (i < j && s.log[i] == PowerSeen && (forall k :: i < k < j ==> s.log[k].Slept?)
                ==> s.log[j].decided == (j - i - 1 >= c.settleCycles))
            && ((forall k :: 0 <= k < j ==> s.log[k].Slept?) ==> s.log[j].decided)
  {
    RunCounts(c, Boot(c, bootMs, external, accelerometer, credentials), es);
    var log := Run(c, Boot(c, bootMs, external, accelerometer, credentials), es).settle.log;
    assert Decides(c, log[..j], log[j]);
    if i < j && log[i] == PowerSeen && (forall k :: i < k < j ==> log[k].Slept?) {
      assert forall k :: i < k < j ==> log[..j][k] == log[k];
      SleepsCounted(c, log[..j], i);
    }
    if forall k :: 0 <= k < j ==> log[k].Slept? {
      assert forall k :: 0 <= k < j ==> log[..j][k] == log[k];
      SleepsFromBoot(c, log[..j]);
    }
  }

  // ---------------------------------------------------------------- power seen in a cycle

  /** One of the first n passes found external power. */
  predicate SawPower(ps: seq<Pass>, n: nat)
    decreases |ps|
  {
    n > 0 && ps != [] && (ps[0].powered || SawPower(ps[1..], n - 1))
  }

  /** A pass that finds power restarts the count and disarms the interrupt; any other leaves both
      alone. */
  lemma PassObservesExactly(c: Config, w: World, p: Pass)
    ensures var r := PassBody(c, w, p).settle;
            && r.usable == w.settle.usable
            && (if p.powered
                then r.count == 0 && r.log == w.settle.log + [PowerSeen]
                     && (r.armed <==> w.settle.armed && (p.triggerFault || !c.motionWake || !w.settle.usable))
                else r == w.settle)
  {
    assert PassBody(c, w, p).settle == PassSleep(c, w, p).settle;
  }

  /** Whether the interrupt is still armed after the first n passes. */
  predicate StaysArmed(c: Config, s: Settle, ps: seq<Pass>, n: nat)
    decreases |ps|
  {
    s.armed && (n > 0 && ps != [] ==>
                  !(ps[0].powered && !ps[0].triggerFault && c.motionWake && s.usable) && StaysArmed(c, s, ps[1..], n - 1))
  }

  /** Over the whole loop the count restarts exactly when one of the passes it made found power, and
      nothing arms the interrupt. */
  lemma {:induction false} LoopObservesExactly(c: Config, w: World, motionCycle: bool, ps: seq<Pass>)
    ensures var l := Loop(c, w, motionCycle, ps);
            && l.w.settle.count == (if SawPower(ps, l.passes) then 0 else w.settle.count)
            && (l.w.settle.armed <==> StaysArmed(c, w.settle, ps, l.passes))
            && l.w.settle.usable == w.settle.usable
    decreases |ps|
  {
    if ps != [] && Goes(c, w, motionCycle, ps[0].check) {
      var t := PassBody(c, w, ps[0]);
      MainFrequent.LoopStep(c, w, motionCycle, ps);
      PassObservesExactly(c, w, ps[0]);
      LoopObservesExactly(c, t, motionCycle, ps[1..]);
      var n := Loop(c, t, motionCycle, ps[1..]).passes;
      if t.settle.armed {
        ArmedAlike(c, w.settle, t.settle, ps[1..], n);
      }
      assert SawPower(ps, n + 1) <==> ps[0].powered || SawPower(ps[1..], n);
    }
  }

  lemma {:induction false} ArmedAlike(c: Config, s: Settle, t: Settle, ps: seq<Pass>, n: nat)
    requires s.armed == t.armed && s.usable == t.usable
    ensures StaysArmed(c, s, ps, n) == StaysArmed(c, t, ps, n)
    decreases |ps|
  {
    if n > 0 && ps != [] {
      ArmedAlike(c, s, t, ps[1..], n - 1);
    }
  }

  /** What a sleep makes of the count and the interrupt before it: it watches for jolts exactly when
      the count has reached the threshold, and is counted otherwise; and the interrupt is set to
      that unless it cannot be. */
  predicate DecidedFrom(c: Config, count: nat, armed: bool, r: Settle, fault: bool) {
    && r.log != [] && r.log[|r.log| - 1].Slept?
    && r.log[|r.log| - 1].decided == (count >= c.settleCycles)
    && r.log[|r.log| - 1].armed == r.armed
    && r.armed == (if c.motionWake && r.usable && !fault then count >= c.settleCycles else armed)
    && r.count == count + (if count >= c.settleCycles then 0 else 1)
  }

  lemma SleepDecides(c: Config, w: World, e: SleepScript)
    ensures DecidedFrom(c, w.settle.count, w.settle.armed, BatterySleep(c, w, e).settle, e.triggerFault)
    ensures BatterySleep(c, w, e).settle.usable == w.settle.usable
  {
  }

  lemma ParkDecides(c: Config, w: World, e: CycleScript)
    ensures DecidedFrom(c, w.settle.count, w.settle.armed, Park(c, w, e).settle, e.sleep.triggerFault)
    ensures Park(c, w, e).settle.usable == w.settle.usable
  {
    var s := Spent(w.(rx := Receivers.Stop(w.rx, c.powerCycle, e.stop)), e.stopMs);
    SleepDecides(c, PauseLink(c, s, e.pause), e.sleep);
  }

  /** The cycle comes to its frequent loop and enters it. */
  predicate Enters(c: Config, w: World, e: CycleScript) {
    Reaches(c, w, e) && Started(c, w, e).1
    && MainFrequent.Called(c, w.wake == Wake.Motion, e.entry, MainFrequent.Reported(c, w, e).clock.now)
  }

  /** The count and the interrupt at the end of a cycle, before its sleep. */
  function CountInCycle(c: Config, w: World, e: CycleScript): nat {
    if w.wake == Wake.Vbus || (Enters(c, w, e) && SawPower(e.passes, MainFrequent.InTheLoop(c, w, e).passes)) then 0
    else w.settle.count
  }

  predicate ArmedInCycle(c: Config, w: World, e: CycleScript) {
    if Enters(c, w, e) then StaysArmed(c, w.settle, e.passes, MainFrequent.InTheLoop(c, w, e).passes)
    else w.settle.armed
  }

  lemma TrackedDecides(c: Config, w: World, e: CycleScript)
    requires w.life == Alive && Cycle(c, w, e).life == Alive && Reaches(c, w, e) && Started(c, w, e).1
    ensures var r := Cycle(c, w, e).settle;
            DecidedFrom(c, CountInCycle(c, w, e), ArmedInCycle(c, w, e), r, e.sleep.triggerFault)
            && r.usable == w.settle.usable
  {
    var f, l := MainFrequent.Reported(c, w, e), MainFrequent.InTheLoop(c, w, e);
    assert f.settle == Top(w).settle;
    MainFrequent.EntersExactly(c, w, e);
    if Enters(c, w, e) {
      LoopObservesExactly(c, f, w.wake == Wake.Motion, e.passes);
      ArmedAlike(c, w.settle, f.settle, e.passes, l.passes);
      ParkDecides(c, l.w, e);
    } else {
      ParkDecides(c, f, e);
    }
  }

  lemma UntrackedDecides(c: Config, w: World, e: CycleScript)
    requires w.life == Alive && Cycle(c, w, e).life == Alive && !(Reaches(c, w, e) && Started(c, w, e).1)
    ensures var r := Cycle(c, w, e).settle;
            DecidedFrom(c, CountInCycle(c, w, e), ArmedInCycle(c, w, e), r, e.sleep.triggerFault)
            && r.usable == w.settle.usable
  {
    CycleStages(c, w, e);
    if Reaches(c, w, e) {
      SleepDecides(c, PauseLink(c, Started(c, w, e).0, e.pause), e.sleep);
    } else {
      SleepDecides(c, Attach(c, Recover(c, Top(w), e.recover), e.lte, e.lteDriverMs), e.sleep);
    }
  }

  /** The sleep that ends a cycle decides to watch for jolts exactly when the count before the
      cycle, or 0 if the cycle observed power, has reached the threshold, and counts itself
      otherwise. It is armed as decided unless the accelerometer cannot be set; then it is armed
      exactly if it was before the cycle and no pass that found power disarmed it. */
  lemma CycleDecidesExactly(c: Config, w: World, e: CycleScript)
    requires w.life == Alive && Cycle(c, w, e).life == Alive
    ensures var r := Cycle(c, w, e).settle;
            DecidedFrom(c, CountInCycle(c, w, e), ArmedInCycle(c, w, e), r, e.sleep.triggerFault)
            && r.usable == w.settle.usable
  {
    if Reaches(c, w, e) && Started(c, w, e).1 {
      TrackedDecides(c, w, e);
    } else {
      UntrackedDecides(c, w, e);
    }
  }

  /** So the very first sleep is armed exactly when the accelerometer is there and takes the call,
      wake-on-motion is compiled in, and no power was found - or none has to be waited out. */
  lemma FirstSleepArmsExactly(c: Config, bootMs: nat, external: bool, accelerometer: bool, credentials: bool,
                              e: CycleScript)
    requires Cycle(c, Boot(c, bootMs, external, accelerometer, credentials), e).life == Alive
    ensures var w := Boot(c, bootMs, external, accelerometer, credentials);
            var log := Cycle(c, w, e).settle.log;
            && log != [] && log[|log| - 1].Slept?
            && (log[|log| - 1].armed <==>
                  && c.motionWake && accelerometer && !e.sleep.triggerFault
                  && (c.settleCycles == 0 || !Enters(c, w, e)
                      || !SawPower(e.passes, MainFrequent.InTheLoop(c, w, e).passes)))
  {
    CycleDecidesExactly(c, Boot(c, bootMs, external, accelerometer, credentials), e);
  }

  // ---------------------------------------------------------------- armed as decided

  /** One sleep is armed as decided exactly when the interrupt already was, or the accelerometer
      can be programmed. */
  lemma SleepObeysExactly(c: Config, w: World, e: SleepScript)
    ensures var arm := w.settle.count >= c.settleCycles;
            && |BatterySleep(c, w, e).settle.log| == |w.settle.log| + 1
            && (Obeys(BatterySleep(c, w, e).settle.log[|w.settle.log|])
                <==> w.settle.armed == arm || (c.motionWake && w.settle.usable && !e.triggerFault))
  {
  }

  ghost predicate Obedient(s: Settle) {
    s.usable && (forall v :: v in s.log ==> Obeys(v))
  }

  lemma {:induction false} LoopObeys(c: Config, w: World, motionCycle: bool, ps: seq<Pass>)
    requires Obedient(w.settle)
    ensures Obedient(Loop(c, w, motionCycle, ps).w.settle)
    decreases |ps|
  {
    if ps != [] && Goes(c, w, motionCycle, ps[0].check) {
      var t := PassBody(c, w, ps[0]);
      assert t.settle == PassSleep(c, w, ps[0]).settle;
      LoopObeys(c, t, motionCycle, ps[1..]);
    }
  }

  lemma SleepObeys(c: Config, w: World, e: SleepScript)
    requires Obedient(w.settle) && c.motionWake && !e.triggerFault
    ensures Obedient(BatterySleep(c, w, e).settle)
  {
  }

  lemma TrackedObeys(c: Config, w: World, motionCycle: bool, e: CycleScript)
    requires Obedient(w.settle) && c.motionWake && !e.sleep.triggerFault
    ensures Obedient(Tracked(c, w, motionCycle, e).settle)
  {
    var a := Acquire(c, w, e.acquire);
    var r := FirstReport(c, Fed(a.w), a.haveFix, e.first);
    LoopObeys(c, r, motionCycle, e.passes);
    var f := Frequent(c, r, motionCycle, e.entry, e.passes);
    if f.life == Alive {
      var s := Spent(f.(rx := Receivers.Stop(f.rx, c.powerCycle, e.stop)), e.stopMs);
      SleepObeys(c, PauseLink(c, s, e.pause), e.sleep);
    }
  }

  lemma OnlineObeys(c: Config, w: World, motionCycle: bool, e: CycleScript)
    requires Obedient(w.settle) && c.motionWake && !e.sleep.triggerFault
    ensures Obedient(Online(c, w, motionCycle, e).settle)
  {
    var r := Spent(ResumeLink(c, w, e.resume).0, e.resumeDriverMs);
    var (s, ok) := StartReceiver(c, r, e.start, e.startMs);
    if ok {
      TrackedObeys(c, s, motionCycle, e);
    } else {
      SleepObeys(c, PauseLink(c, s, e.pause), e.sleep);
    }
  }

  lemma ConnectObeys(c: Config, w: World, motionCycle: bool, e: CycleScript)
    requires Obedient(w.settle) && c.motionWake && !e.sleep.triggerFault
    ensures Obedient(Connect(c, w, motionCycle, e).settle)
  {
    var r := Recover(c, w, e.recover);
    var l := Attach(c, r, e.lte, e.lteDriverMs);
    if LteUp(c, e.lte) {
      OnlineObeys(c, l, motionCycle, e);
    } else {
      SleepObeys(c, l, e.sleep);
    }
  }

  lemma {:induction false} RunObeys(c: Config, w: World, es: seq<CycleScript>)
    requires Obedient(w.settle) && c.motionWake && (forall k :: 0 <= k < |es| ==> !es[k].sleep.triggerFault)
    ensures Obedient(Run(c, w, es).settle)
    decreases |es|
  {
    if es != [] && w.life == Alive {
      if c.build.skipLte {
        OnlineObeys(c, Top(w), w.wake == Wake.Motion, es[0]);
      } else {
        ConnectObeys(c, Top(w), w.wake == Wake.Motion, es[0]);
      }
      RunObeys(c, Cycle(c, w, es[0]), es[1..]);
    }
  }

  /** When the trigger call of every battery sleep succeeds, each of them is armed as decided,
      whatever happened to the trigger in between. */
  lemma ArmedAsDecided(c: Config, bootMs: nat, external: bool, credentials: bool, es: seq<CycleScript>)
    requires c.motionWake && (forall k :: 0 <= k < |es| ==> !es[k].sleep.triggerFault)
    ensures forall v :: v in Run(c, Boot(c, bootMs, external, true, credentials), es).settle.log && v.Slept?
              ==> v.armed == v.decided
  {
    RunObeys(c, Boot(c, bootMs, external, true, credentials), es);
    assert forall v :: v in Run(c, Boot(c, bootMs, external, true, credentials), es).settle.log ==> Obeys(v);
  }

  // ---------------------------------------------------------------- power seen through a wake-up

  /** The settle count restarts at the top of the cycle after a battery sleep exactly when the
      sleep was ended by a signal and the last one stored since it began is external power's. So
      power that came and went again is missed when nobody gave in time, or when a jolt was
      stored after it. */
  lemma WakeByPowerRestartsExactly(c: Config, w: World, e: SleepScript,
                                   s: Wake.State, a: Wake.Action, t: seq<Wake.Action>)
    requires Wake.Reachable(s, t) && Wake.Enabled(s, a) && (a == Wake.Expire || a == Wake.Load)
    requires e.reason == Wake.Step(s, a).result
    ensures var v := BatterySleep(c, w, e);
            && (Top(v).settle == ObservePower(v.settle)
                <==> a == Wake.Load && s.stored != [] && s.stored[|s.stored| - 1].reason == Wake.Vbus)
            && (Top(v).settle != ObservePower(v.settle) ==> Top(v).settle == v.settle)
  {
    Wake.WaitOutcome(s, a, t);
    var v := BatterySleep(c, w, e);
    assert |ObservePower(v.settle).log| == |v.settle.log| + 1;
  }

  /** Such a sleep: a jolt between power's signal and the waiter's reading of the reason. */
  lemma JoltHidesPower(c: Config, w: World, e: SleepScript)
    requires e.reason == Wake.Motion
    ensures var t := Wake.JoltAfterPower(SleepMs(c));
            var s := Wake.Exec(Wake.START, t);
            && Wake.Reachable(s, t) && Wake.Enabled(s, Wake.Load) && e.reason == Wake.Step(s, Wake.Load).result
            && s.stored == [Wake.Signal(0, Wake.Vbus), Wake.Signal(1, Wake.Motion)]
            && Top(BatterySleep(c, w, e)).settle == BatterySleep(c, w, e).settle
  {
    Wake.JoltHidesPower(SleepMs(c));
  }
}
