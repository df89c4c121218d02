/** The receivers over whole runs of the report loop: at every step at most the active one runs,
    and none runs while the tracker sleeps on battery - exactly when no fault the program ignores
    hits a call that mattered. And whatever else fails, the external module is off in every sleep
    exactly when the switch of its supply worked whenever it was to take it off. */
module MainReceivers {
  import opened TrackerConfig
  import opened MainLoop
  import Assistance
  import Receivers
  import Wake

  // ---------------------------------------------------------------- the faults that matter

  /** The external module's window passes without a fix and the modem takes over. */
  predicate FallsBack(c: Config, rx: Receivers.State, e: AcquireScript) {
    FallbackAvailable(c, rx) && !Arrives(c.externalFixS, e.fix)
  }

  /** The frequent loop, if it was entered, is left, so the cycle comes to its stop. */
  predicate Parks(c: Config, w: World, motionCycle: bool, e: CycleScript) {
    var a := Acquire(c, w, e.acquire);
    Frequent(c, FirstReport(c, Fed(a.w), a.haveFix, e.first), motionCycle, e.entry, e.passes).life == Alive
  }

  /** From a started receiver on: the UART's suspend fails in a fallback that happens, or the stop
      at the end does not take effect on the receiver that runs. */
  predicate TrackedBreaks(c: Config, w: World, motionCycle: bool, e: CycleScript) {
    || (FallsBack(c, w.rx, e.acquire) && e.acquire.stop.suspend)
    || (Parks(c, w, motionCycle, e) && Receivers.StopBreaks(Acquire(c, w, e.acquire).w.rx, e.stop))
  }

  /** One of those happens, or a suspend fails that has to take back a UART resume. */
  predicate CycleBreaks(c: Config, w: World, e: CycleScript) {
    Reaches(c, w, e)
    && (|| Receivers.StartBreaks(w.rx, e.start)
        || (Started(c, w, e).1 && TrackedBreaks(c, Started(c, w, e).0, w.wake == Wake.Motion, e)))
  }

  /** The module is on in the sleep that ends the cycle: it came on, and the switch failed that was
      to take it off - when the start was undone, in the fallback, or at the end - or it never came
      to a start and was on before. */
  predicate LeavesPowered(c: Config, w: World, e: CycleScript) {
    Cycle(c, w, e).life == Alive
    && if !Reaches(c, w, e) || !Receivers.ComesOn(w.rx, e.start) then w.rx.hw.pin
       else if e.start.resume || e.start.attach then e.start.powerOff
       else if FallsBack(c, Started(c, w, e).0.rx, e.acquire) then e.acquire.stop.power
       else e.stop.power
  }

  // ---------------------------------------------------------------- what is kept

  ghost predicate Fit(s: Receivers.State) {
    Receivers.AllSafe(s) && Receivers.Now(s)
  }

  ghost predicate Tidy(s: Receivers.State) {
    Fit(s) && Receivers.Silent(s)
  }

  /** A cycle ended well: safe at every step, and silent if it ended in a sleep. */
  ghost predicate EndsQuiet(r: World) {
    Fit(r.rx) && (r.life == Alive ==> Receivers.Silent(r.rx))
  }

  // ---------------------------------------------------------------- stage by stage

  lemma FetchFits(c: Config, w: World, f: Assistance.Fetch, ms: nat)
    requires w.rx.active == Receivers.Modem
    ensures Fit(w.rx) ==> Fit(Fetch(c, w, f, ms).0.rx)
  {
    if Fit(w.rx) {
      Receivers.BounceSafe(w.rx, f.stopFault, f.startFault);
    }
  }

  lemma FetchStaysDoomed(c: Config, w: World, f: Assistance.Fetch, ms: nat)
    requires w.rx.active == Receivers.Modem
    ensures Receivers.Doomed(w.rx) ==> Receivers.Doomed(Fetch(c, w, f, ms).0.rx)
  {
    if Receivers.Doomed(w.rx) {
      Receivers.DoomedStays(w.rx, f.stopFault, f.startFault, false, Receivers.StopFaults(false, false, false));
    }
  }

  lemma ProactiveFits(c: Config, w: World, request: Arrival, f: Assistance.Fetch, ms: nat)
    ensures var r := Proactive(c, w, request, f, ms).0.rx;
            && (Fit(w.rx) ==> Fit(r)) && (Receivers.Doomed(w.rx) ==> Receivers.Doomed(r))
            && (w.rx.active == Receivers.External ==> r == w.rx)
  {
    if AgnssWanted(c, w) {
      FetchFits(c, Spent(w, WaitMs(c.proactiveS, request)), f, ms);
      FetchStaysDoomed(c, Spent(w, WaitMs(c.proactiveS, request)), f, ms);
    }
  }

  lemma LastChanceFits(c: Config, a: Acquired, e: AcquireScript)
    ensures var r := LastChance(c, a, e).w.rx;
            (Fit(a.w.rx) ==> Fit(r)) && (Receivers.Doomed(a.w.rx) ==> Receivers.Doomed(r))
  {
    if !a.haveFix && !a.assisted && AgnssWanted(c, a.w) {
      FetchFits(c, a.w, e.fetch3, e.fetchMs3);
      FetchStaysDoomed(c, a.w, e.fetch3, e.fetchMs3);
    }
  }

  /** A whole fix attempt breaks exactly when it falls back with a suspend that fails. */
  lemma AcquireFits(c: Config, w: World, e: AcquireScript)
    requires Fit(w.rx) && Receivers.Running(w.rx)
    ensures var r := Acquire(c, w, e).w.rx;
            && (!(FallsBack(c, w.rx, e) && e.stop.suspend) ==> Fit(r))
            && (FallsBack(c, w.rx, e) && e.stop.suspend ==> Receivers.Doomed(r))
  {
    ProactiveFits(c, w, e.request, e.fetch, e.fetchMs);
    var a := FirstTry(c, w, e);
    if FallsBack(c, w.rx, e) {
      Receivers.FallbackExactlySafe(a.w.rx, e.stop, e.startFault);
      var rx := Receivers.Fallback(a.w.rx, e.stop, e.startFault).0;
      ProactiveFits(c, Spent(a.w.(rx := rx), e.fallbackMs), e.request2, e.fetch2, e.fetchMs2);
    }
    LastChanceFits(c, FallBack(c, a, e), e);
  }

  /** At the sleep a receiver that ran is silent exactly when its own stop took effect. */
  lemma ParkExactlyQuiet(c: Config, w: World, e: CycleScript)
    requires Fit(w.rx)
    ensures var r := Park(c, w, e);
            && (Fit(r.rx) && Receivers.Silent(r.rx) <==> !Receivers.StopBreaks(w.rx, e.stop))
            && (Receivers.Silent(r.rx) <==> !Receivers.StopBreaks(w.rx, e.stop))
  {
    Receivers.StopExactlyQuiet(w.rx, c.powerCycle, e.stop);
    assert Park(c, w, e).rx == Receivers.Stop(w.rx, c.powerCycle, e.stop);
  }

  lemma TrackedExactlyQuiet(c: Config, w: World, motionCycle: bool, e: CycleScript)
    requires Fit(w.rx) && Receivers.Running(w.rx) && w.life == Alive
    ensures var r := Tracked(c, w, motionCycle, e);
            && (!TrackedBreaks(c, w, motionCycle, e) ==> EndsQuiet(r))
            && (TrackedBreaks(c, w, motionCycle, e) ==>
                  Receivers.Doomed(r.rx) || (r.life == Alive && !Receivers.Silent(r.rx)))
  {
    AcquireFits(c, w, e.acquire);
    var a := Acquire(c, w, e.acquire);
    var f := Frequent(c, FirstReport(c, Fed(a.w), a.haveFix, e.first), motionCycle, e.entry, e.passes);
    assert f.rx == a.w.rx;
    if f.life == Alive {
      assert Park(c, f, e).rx == Receivers.Stop(f.rx, c.powerCycle, e.stop);
      if Fit(f.rx) {
        ParkExactlyQuiet(c, f, e);
      }
      if Receivers.Doomed(f.rx) {
        Receivers.DoomedStays(f.rx, false, false, c.powerCycle, e.stop);
      }
    }
  }

  // ---------------------------------------------------------------- a cycle

  /** From a tidy start, a cycle in which no such fault happens ends quiet; one in which one
      happens has taken an unsafe step, sleeps with a receiver running, or is cut short with the
      UART active under the modem. */
  lemma CycleOutcome(c: Config, w: World, e: CycleScript)
    requires Tidy(w.rx) && w.life == Alive
    ensures var r := Cycle(c, w, e);
            && (!CycleBreaks(c, w, e) ==> EndsQuiet(r))
            && (CycleBreaks(c, w, e) ==>
                  Receivers.Doomed(r.rx) || (r.life == Alive && !Receivers.Silent(r.rx)))
  {
    CycleStages(c, w, e);
    Receivers.StartOutcome(w.rx, e.start);
    var (s, ok) := Started(c, w, e);
    if Reaches(c, w, e) {
      if Receivers.StartBreaks(w.rx, e.start) {
        Receivers.StartDooms(w.rx, e.start);
        if ok {
          TrackedStaysDoomed(c, s, w.wake == Wake.Motion, e);
        }
      } else if ok {
        TrackedExactlyQuiet(c, s, w.wake == Wake.Motion, e);
      }
    }
  }

  lemma TrackedStaysDoomed(c: Config, w: World, motionCycle: bool, e: CycleScript)
    requires Receivers.Doomed(w.rx)
    ensures Receivers.Doomed(Tracked(c, w, motionCycle, e).rx)
  {
    AcquireStaysDoomed(c, w, e.acquire);
    var a := Acquire(c, w, e.acquire);
    var f := Frequent(c, FirstReport(c, Fed(a.w), a.haveFix, e.first), motionCycle, e.entry, e.passes);
    assert f.rx == a.w.rx;
    if f.life == Alive {
      assert Park(c, f, e).rx == Receivers.Stop(f.rx, c.powerCycle, e.stop);
      Receivers.DoomedStays(f.rx, false, false, c.powerCycle, e.stop);
    }
  }

  lemma AcquireStaysDoomed(c: Config, w: World, e: AcquireScript)
    requires Receivers.Doomed(w.rx)
    ensures Receivers.Doomed(Acquire(c, w, e).w.rx)
  {
    var r := Acquire(c, w, e).w.rx;
    if v :| v in w.rx.seen && !Receivers.Safe(v) {
      assert v in r.seen;
    } else {
      ProactiveFits(c, w, e.request, e.fetch, e.fetchMs);
      LastChanceFits(c, FallBack(c, FirstTry(c, w, e), e), e);
    }
  }

  /** So from a tidy start a cycle is safe at every step and silent at its sleep exactly when no
      fault of the kind happens. */
  lemma CycleExactlyQuiet(c: Config, w: World, e: CycleScript)
    requires Tidy(w.rx) && w.life == Alive
    ensures EndsQuiet(Cycle(c, w, e)) <==> !CycleBreaks(c, w, e)
  {
    CycleOutcome(c, w, e);
  }

  // ---------------------------------------------------------------- the supply

  lemma ProactiveSupply(c: Config, w: World, request: Arrival, f: Assistance.Fetch, ms: nat)
    ensures Receivers.SameSupply(w.rx, Proactive(c, w, request, f, ms).0.rx)
  {
  }

  lemma LastChanceSupply(c: Config, a: Acquired, e: AcquireScript)
    ensures Receivers.SameSupply(a.w.rx, LastChance(c, a, e).w.rx)
  {
  }

  lemma FallBackSupply(c: Config, a: Acquired, e: AcquireScript)
    requires a.w.rx.powered == a.w.rx.hw.pin
    ensures var r := FallBack(c, a, e).w.rx;
            if a.haveFix || !FallbackAvailable(c, a.w.rx) then r == a.w.rx
            else r.powered == r.hw.pin && r.active == Receivers.Modem
                 && (r.hw.pin <==> a.w.rx.hw.pin && e.stop.power)
  {
    if !a.haveFix && FallbackAvailable(c, a.w.rx) {
      Receivers.FallbackSupply(a.w.rx, e.stop, e.startFault);
      var rx := Receivers.Fallback(a.w.rx, e.stop, e.startFault).0;
      ProactiveSupply(c, Spent(a.w.(rx := rx), e.fallbackMs), e.request2, e.fetch2, e.fetchMs2);
    }
  }

  /** A whole fix attempt switches the module off exactly when it falls back with a switch that
      works. */
  lemma AcquireSupply(c: Config, w: World, e: AcquireScript)
    requires w.rx.powered == w.rx.hw.pin
    ensures var r := Acquire(c, w, e).w.rx;
            && r.powered == r.hw.pin
            && r.active == (if FallsBack(c, w.rx, e) then Receivers.Modem else w.rx.active)
            && (r.hw.pin <==> w.rx.hw.pin && (FallsBack(c, w.rx, e) ==> e.stop.power))
  {
    ProactiveSupply(c, w, e.request, e.fetch, e.fetchMs);
    var a := FirstTry(c, w, e);
    assert Receivers.SameSupply(w.rx, a.w.rx);
    FallBackSupply(c, a, e);
    LastChanceSupply(c, FallBack(c, a, e), e);
  }

  lemma TrackedSupply(c: Config, w: World, motionCycle: bool, e: CycleScript)
    requires w.rx.powered == w.rx.hw.pin && w.life == Alive && c.powerCycle
    ensures var r := Tracked(c, w, motionCycle, e);
            && r.rx.powered == r.rx.hw.pin
            && (r.life == Alive ==> (r.rx.hw.pin <==>
                  && w.rx.hw.pin
                  && (w.rx.active == Receivers.External ==>
                        if FallsBack(c, w.rx, e.acquire) then e.acquire.stop.power else e.stop.power)))
  {
    AcquireSupply(c, w, e.acquire);
    var a := Acquire(c, w, e.acquire);
    var f := Frequent(c, FirstReport(c, Fed(a.w), a.haveFix, e.first), motionCycle, e.entry, e.passes);
    assert f.rx == a.w.rx;
    if f.life == Alive {
      Receivers.StopSupply(f.rx, c.powerCycle, e.stop);
      assert Park(c, f, e).rx == Receivers.Stop(f.rx, c.powerCycle, e.stop);
    }
  }

  /** With POWER_CYCLE, whatever else fails, the module is on at a cycle's sleep exactly when the
      switch failed that was to take it off, or nothing was to. */
  lemma CycleExactlyUnpowered(c: Config, w: World, e: CycleScript)
    requires w.rx.powered == w.rx.hw.pin && w.life == Alive && c.powerCycle
    ensures var r := Cycle(c, w, e);
            r.rx.powered == r.rx.hw.pin && (r.life == Alive ==> (r.rx.hw.pin <==> LeavesPowered(c, w, e)))
  {
    CycleStages(c, w, e);
    Receivers.StartSupply(w.rx, e.start);
    var (s, ok) := Started(c, w, e);
    if Reaches(c, w, e) && ok {
      TrackedSupply(c, s, w.wake == Wake.Motion, e);
    }
  }

  // ---------------------------------------------------------------- what a cycle leaves behind

  /** Nothing but looks at external power was added to the history. */
  ghost predicate OnlyLooks(a: seq<NightEvent>, b: seq<NightEvent>) {
    a <= b && forall k :: |a| <= k < |b| ==> b[k] == PowerSeen
  }

  /** Those, and then one sleep with the hardware as given. */
  ghost predicate EndsAsleep(a: seq<NightEvent>, b: seq<NightEvent>, hw: Receivers.Hardware) {
    b != [] && OnlyLooks(a, b[..|b| - 1]) && b[|b| - 1].Slept? && b[|b| - 1].hw == hw
  }

  /** What a stage or a cycle adds: steps, looks at external power, and - if the run goes on - the
      one sleep it ends in, which shows the hardware as it is left. */
  ghost predicate Recorded(w: World, r: World) {
    && w.rx.seen <= r.rx.seen
    && if r.life == Alive then EndsAsleep(w.settle.log, r.settle.log, r.rx.hw)
       else OnlyLooks(w.settle.log, r.settle.log)
  }

  lemma {:induction false} LoopOnlyLooks(c: Config, w: World, motionCycle: bool, ps: seq<Pass>)
    ensures OnlyLooks(w.settle.log, Loop(c, w, motionCycle, ps).w.settle.log)
    decreases |ps|
  {
    if ps != [] && Goes(c, w, motionCycle, ps[0].check) {
      var b := PassBody(c, w, ps[0]);
      assert b.settle == PassSleep(c, w, ps[0]).settle;
      LoopOnlyLooks(c, b, motionCycle, ps[1..]);
      var x, y, z := w.settle.log, b.settle.log, Loop(c, b, motionCycle, ps[1..]).w.settle.log;
      assert OnlyLooks(x, y);
      assert forall k :: 0 <= k < |y| ==> z[k] == y[k];
    }
  }

  lemma SleepRecords(c: Config, w: World, e: SleepScript)
    ensures var b := BatterySleep(c, w, e).settle.log;
            |b| == |w.settle.log| + 1 && b[..|b| - 1] == w.settle.log
            && b[|b| - 1].Slept? && b[|b| - 1].hw == w.rx.hw
  {
  }

  lemma TrackedRecords(c: Config, w: World, motionCycle: bool, e: CycleScript)
    requires w.life == Alive
    ensures Recorded(w, Tracked(c, w, motionCycle, e))
  {
    var a := Acquire(c, w, e.acquire);
    var p := FirstReport(c, Fed(a.w), a.haveFix, e.first);
    LoopOnlyLooks(c, p, motionCycle, e.passes);
    var f := Frequent(c, p, motionCycle, e.entry, e.passes);
    if f.life == Alive {
      SleepRecords(c, PauseLink(c, Spent(f.(rx := Receivers.Stop(f.rx, c.powerCycle, e.stop)), e.stopMs), e.pause),
                   e.sleep);
    }
  }

  lemma LooksOn(a: seq<NightEvent>, b: seq<NightEvent>, d: seq<NightEvent>)
    requires OnlyLooks(a, b)
    ensures OnlyLooks(b, d) ==> OnlyLooks(a, d)
    ensures forall hw :: EndsAsleep(b, d, hw) ==> EndsAsleep(a, d, hw)
  {
    assert b <= d ==> forall k :: 0 <= k < |b| ==> d[k] == b[k];
    if d != [] {
      var i := d[..|d| - 1];
      assert b <= i ==> forall k :: 0 <= k < |b| ==> i[k] == b[k];
    }
  }

  lemma AsleepFrom(a: seq<NightEvent>, b: seq<NightEvent>, d: seq<NightEvent>, hw: Receivers.Hardware)
    requires OnlyLooks(a, b) && |d| == |b| + 1 && d[..|d| - 1] == b && d[|d| - 1].Slept? && d[|d| - 1].hw == hw
    ensures EndsAsleep(a, d, hw)
  {
  }

  lemma UnstartedRecords(c: Config, w: World, e: CycleScript)
    requires w.life == Alive && !Reaches(c, w, e)
    ensures Recorded(w, Cycle(c, w, e))
  {
    var r := Recover(c, Top(w), e.recover);
    if r.life == Alive {
      var l := Attach(c, r, e.lte, e.lteDriverMs);
      SleepRecords(c, l, e.sleep);
      assert OnlyLooks(w.settle.log, l.settle.log);
      AsleepFrom(w.settle.log, l.settle.log, BatterySleep(c, l, e.sleep).settle.log, w.rx.hw);
    }
  }

  lemma StartedRecords(c: Config, w: World, e: CycleScript)
    requires w.life == Alive && Reaches(c, w, e)
    ensures var s := Started(c, w, e).0;
            OnlyLooks(w.settle.log, s.settle.log) && w.rx.seen <= s.rx.seen && s.life == Alive
  {
    CycleStages(c, w, e);
    assert Top(w).settle.log == w.settle.log || Top(w).settle.log == w.settle.log + [PowerSeen];
  }

  lemma CycleRecords(c: Config, w: World, e: CycleScript)
    requires w.life == Alive
    ensures Recorded(w, Cycle(c, w, e))
  {
    if !Reaches(c, w, e) {
      UnstartedRecords(c, w, e);
    } else {
      CycleStages(c, w, e);
      StartedRecords(c, w, e);
      var (s, ok) := Started(c, w, e);
      if ok {
        TrackedRecords(c, s, w.wake == Wake.Motion, e);
        LooksOn(w.settle.log, s.settle.log, Cycle(c, w, e).settle.log);
      } else {
        var p := PauseLink(c, s, e.pause);
        SleepRecords(c, p, e.sleep);
        AsleepFrom(w.settle.log, p.settle.log, BatterySleep(c, p, e.sleep).settle.log, s.rx.hw);
      }
    }
  }

  /** Which sleeps that adds. */
  lemma RecordedSleeps(w: World, r: World)
    requires Recorded(w, r)
    ensures w.settle.log <= r.settle.log
    ensures forall v :: v in r.settle.log && v.Slept? ==> v in w.settle.log || (r.life == Alive && v.hw == r.rx.hw)
    ensures forall v :: v in w.settle.log ==> v in r.settle.log
    ensures r.life == Alive ==> exists v :: v in r.settle.log && v.Slept? && v.hw == r.rx.hw
  {
    var a, b := w.settle.log, r.settle.log;
    if r.life == Alive {
      var i := b[..|b| - 1];
      assert b == i + [b[|b| - 1]];
      assert b[|b| - 1] in b;
      OldOrLook(a, i);
    } else {
      OldOrLook(a, b);
    }
  }

  lemma OldOrLook(a: seq<NightEvent>, b: seq<NightEvent>)
    requires OnlyLooks(a, b)
    ensures forall v :: v in b ==> v in a || v == PowerSeen
    ensures forall v :: v in a ==> v in b
  {
    forall v | v in b
      ensures v in a || v == PowerSeen
    {
      var k :| 0 <= k < |b| && b[k] == v;
      if k < |a| {
        assert a[k] == v;
      }
    }
  }

  // ---------------------------------------------------------------- whole runs

  /** No cycle of the run breaks. */
  ghost predicate NoneBreaks(c: Config, w: World, es: seq<CycleScript>)
    decreases |es|
  {
    es == [] || w.life != Alive || (!CycleBreaks(c, w, es[0]) && NoneBreaks(c, Cycle(c, w, es[0]), es[1..]))
  }

  /** No cycle of the run leaves the module powered. */
  ghost predicate NoneLeavesPowered(c: Config, w: World, es: seq<CycleScript>)
    decreases |es|
  {
    es == [] || w.life != Alive
    || (!LeavesPowered(c, w, es[0]) && NoneLeavesPowered(c, Cycle(c, w, es[0]), es[1..]))
  }

  ghost predicate StepsSafe(w: World) {
    (forall v :: v in w.rx.seen ==> Receivers.Safe(v)) && Receivers.Now(w.rx)
  }

  ghost predicate SleepsSilent(w: World) {
    forall v :: v in w.settle.log && v.Slept? ==> !v.hw.uart && !v.hw.modem
  }

  ghost predicate SleepsUnpowered(w: World) {
    forall v :: v in w.settle.log && v.Slept? ==> !v.hw.pin
  }

  lemma {:induction false} RunRecords(c: Config, w: World, es: seq<CycleScript>)
    ensures w.rx.seen <= Run(c, w, es).rx.seen && w.settle.log <= Run(c, w, es).settle.log
    decreases |es|
  {
    if es != [] && w.life == Alive {
      CycleRecords(c, w, es[0]);
      RecordedSleeps(w, Cycle(c, w, es[0]));
      RunRecords(c, Cycle(c, w, es[0]), es[1..]);
    }
  }

  lemma {:induction false} RunIsQuiet(c: Config, w: World, es: seq<CycleScript>)
    requires w.life == Alive ==> Receivers.Silent(w.rx)
    requires Fit(w.rx) && SleepsSilent(w) && NoneBreaks(c, w, es)
    ensures StepsSafe(Run(c, w, es)) && SleepsSilent(Run(c, w, es))
    decreases |es|
  {
    if es != [] && w.life == Alive {
      var r := Cycle(c, w, es[0]);
      CycleOutcome(c, w, es[0]);
      CycleRecords(c, w, es[0]);
      RecordedSleeps(w, r);
      assert SleepsSilent(r);
      RunIsQuiet(c, r, es[1..]);
    }
  }

  lemma {:induction false} BrokenRunShows(c: Config, w: World, es: seq<CycleScript>)
    requires w.life == Alive ==> Receivers.Silent(w.rx)
    requires Fit(w.rx) && !NoneBreaks(c, w, es)
    ensures !(StepsSafe(Run(c, w, es)) && SleepsSilent(Run(c, w, es)))
    decreases |es|
  {
    var r := Cycle(c, w, es[0]);
    CycleOutcome(c, w, es[0]);
    if CycleBreaks(c, w, es[0]) {
      CycleRecords(c, w, es[0]);
      RecordedSleeps(w, r);
      RunRecords(c, r, es[1..]);
      var z := Run(c, r, es[1..]);
      if v :| v in r.rx.seen && !Receivers.Safe(v) {
        assert v in z.rx.seen;
      } else if r.life == Alive {
        var v :| v in r.settle.log && v.Slept? && v.hw == r.rx.hw;
        assert v in z.settle.log;
      } else {
        assert z == r;
      }
    } else {
      BrokenRunShows(c, r, es[1..]);
    }
  }

  lemma {:induction false} RunExactlyUnpowered(c: Config, w: World, es: seq<CycleScript>)
    requires w.life == Alive ==> w.rx.powered == w.rx.hw.pin
    requires SleepsUnpowered(w) && c.powerCycle
    ensures SleepsUnpowered(Run(c, w, es)) <==> NoneLeavesPowered(c, w, es)
    decreases |es|
  {
    if es != [] && w.life == Alive {
      var r := Cycle(c, w, es[0]);
      CycleExactlyUnpowered(c, w, es[0]);
      CycleRecords(c, w, es[0]);
      RecordedSleeps(w, r);
      if LeavesPowered(c, w, es[0]) {
        RunRecords(c, r, es[1..]);
        var v :| v in r.settle.log && v.Slept? && v.hw == r.rx.hw;
        assert v in Run(c, r, es[1..]).settle.log;
      } else {
        assert SleepsUnpowered(r);
        RunExactlyUnpowered(c, r, es[1..]);
      }
    }
  }

  /** Over whole runs, whatever else fails: at every step the UART is active only while the module
      is powered and only the active receiver runs, and no receiver runs during any battery sleep,
      exactly when in no cycle one of the ignored faults hits a call that mattered. With POWER_CYCLE
      the module is off in every sleep exactly when no switch failed that was to take it off. */
  lemma SleepsInSilence(c: Config, bootMs: nat, external: bool, accelerometer: bool, credentials: bool,
                        es: seq<CycleScript>)
    ensures var b := Boot(c, bootMs, external, accelerometer, credentials);
            var r := Run(c, b, es);
            && (StepsSafe(r) && SleepsSilent(r) <==> NoneBreaks(c, b, es))
            && (c.powerCycle ==> (SleepsUnpowered(r) <==> NoneLeavesPowered(c, b, es)))
  {
    var b := Boot(c, bootMs, external, accelerometer, credentials);
    if NoneBreaks(c, b, es) {
      RunIsQuiet(c, b, es);
    } else {
      BrokenRunShows(c, b, es);
    }
    if c.powerCycle {
      RunExactlyUnpowered(c, b, es);
    }
  }

  /** In particular: silent without any failing suspend of the UART or stop of the modem's
      receiver; the module off in every sleep without any failing switch of the supply. */
  lemma {:induction false} CalmRunsKeep(c: Config, w: World, es: seq<CycleScript>)
    ensures (forall i :: 0 <= i < |es| ==>
               !es[i].start.suspend && !es[i].acquire.stop.suspend && !es[i].stop.suspend && !es[i].stop.modem)
            ==> NoneBreaks(c, w, es)
    ensures (w.life == Alive ==> !w.rx.hw.pin && w.rx.powered == w.rx.hw.pin) && c.powerCycle
            && (forall i :: 0 <= i < |es| ==>
                  !es[i].start.powerOff && !es[i].acquire.stop.power && !es[i].stop.power)
            ==> NoneLeavesPowered(c, w, es)
    decreases |es|
  {
    if es != [] && w.life == Alive {
      assert forall i :: 0 <= i < |es[1..]| ==> es[1..][i] == es[i + 1];
      if w.rx.powered == w.rx.hw.pin && c.powerCycle {
        CycleExactlyUnpowered(c, w, es[0]);
      }
      CalmRunsKeep(c, Cycle(c, w, es[0]), es[1..]);
    }
  }
}
