/** Assistance over whole runs of the report loop: how often a cycle asks for it, and how often
    it is injected. */
module MainAssistance {
  import opened TrackerConfig
  import opened MainLoop
  import Assistance
  import Receivers
  import Wake

  // ---------------------------------------------------------------- what a stage may add

  /** The history is spaced and no stamp lies in the future. */
  ghost predicate Kept(c: Config, w: World) {
    Assistance.Spaced(c.assist, w.assist) && w.assist.lastFetch <= w.clock.now
  }

  /** From one state to a later one, stamps of the time in between were added. */
  ghost predicate Stamped(w: World, r: World) {
    var a, b := w.assist.stamps, r.assist.stamps;
    && w.clock.now <= r.clock.now && a <= b
    && (forall k :: |a| <= k < |b| ==> w.clock.now <= b[k] <= r.clock.now)
  }

  lemma StampedOn(u: World, v: World, w: World)
    requires Stamped(u, v) && Stamped(v, w)
    ensures Stamped(u, w)
  {
    var b, d := v.assist.stamps, w.assist.stamps;
    assert forall k :: 0 <= k < |b| ==> d[k] == b[k];
  }

  lemma FetchStamps(c: Config, w: World, f: Assistance.Fetch, ms: nat)
    requires Kept(c, w)
    ensures Kept(c, Fetch(c, w, f, ms).0) && Stamped(w, Fetch(c, w, f, ms).0)
    ensures Fetch(c, w, f, ms).0.rx.active == w.rx.active
  {
    Assistance.FetchKeepsSpacing(c.assist, w.clock, w.rx, w.assist, f);
  }

  /** A proactive fetch happens only with the onboard receiver, and then at most once. */
  lemma ProactiveStamps(c: Config, w: World, request: Arrival, f: Assistance.Fetch, ms: nat)
    requires Kept(c, w)
    ensures var r := Proactive(c, w, request, f, ms).0;
            && Kept(c, r) && Stamped(w, r) && r.rx.active == w.rx.active
            && r.fetches <= w.fetches + (if w.rx.active == Receivers.Modem then 1 else 0)
  {
    if AgnssWanted(c, w) && Arrives(c.proactiveS, request) {
      var t := Spent(w, WaitMs(c.proactiveS, request));
      FetchStamps(c, t, f, ms);
      StampedOn(w, t, Fetch(c, t, f, ms).0);
    }
  }

  lemma FirstTryStamps(c: Config, w: World, e: AcquireScript)
    requires Kept(c, w)
    ensures var r := FirstTry(c, w, e).w;
            && Kept(c, r) && Stamped(w, r) && r.rx.active == w.rx.active
            && r.fetches <= w.fetches + (if w.rx.active == Receivers.Modem then 1 else 0)
  {
    ProactiveStamps(c, w, e.request, e.fetch, e.fetchMs);
  }

  lemma FallBackStamps(c: Config, a: Acquired, e: AcquireScript)
    requires Kept(c, a.w)
    ensures var r := FallBack(c, a, e).w;
            && Kept(c, r) && Stamped(a.w, r)
            && r.fetches <= a.w.fetches + (if a.w.rx.active == Receivers.External then 1 else 0)
  {
    if !a.haveFix && FallbackAvailable(c, a.w.rx) {
      var b := Spent(a.w.(rx := Receivers.Fallback(a.w.rx, e.stop, e.startFault).0), e.fallbackMs);
      ProactiveStamps(c, b, e.request2, e.fetch2, e.fetchMs2);
      assert Stamped(a.w, b);
      StampedOn(a.w, b, Proactive(c, b, e.request2, e.fetch2, e.fetchMs2).0);
    }
  }

  lemma LastChanceStamps(c: Config, a: Acquired, e: AcquireScript)
    requires Kept(c, a.w)
    ensures var r := LastChance(c, a, e).w;
            Kept(c, r) && Stamped(a.w, r) && r.fetches <= a.w.fetches + 1
  {
    if !a.haveFix && !a.assisted && AgnssWanted(c, a.w) {
      FetchStamps(c, a.w, e.fetch3, e.fetchMs3);
    }
  }

  lemma AcquireStamps(c: Config, w: World, e: AcquireScript)
    requires Kept(c, w)
    ensures var r := Acquire(c, w, e).w;
            Kept(c, r) && Stamped(w, r) && r.fetches <= w.fetches + 2
  {
    var f := FirstTry(c, w, e);
    FirstTryStamps(c, w, e);
    var b := FallBack(c, f, e);
    FallBackStamps(c, f, e);
    LastChanceStamps(c, b, e);
    StampedOn(w, f.w, b.w);
    StampedOn(w, b.w, LastChance(c, b, e).w);
  }

  /** Two new stamps take the minimum interval. */
  lemma TwoStampsTakeTime(c: Config, w: World, r: World)
    requires Kept(c, r) && Stamped(w, r) && 0 < w.clock.now
    requires |r.assist.stamps| > |w.assist.stamps| + 1
    ensures r.clock.now - w.clock.now >= c.assist.minIntervalS * 1000
  {
    var n := |w.assist.stamps|;
    assert Assistance.Apart(c.assist, r.assist.stamps[n], r.assist.stamps[n + 1]);
  }

  // ---------------------------------------------------------------- a cycle

  /** A fix attempt of one cycle: at most two fetch calls, and at most one of them injects if
      the attempt is shorter than the minimum interval - even when a failed restart of the
      receiver makes the call that injected look like a failure. */
  lemma AtMostOneInjects(c: Config, w: World, e: AcquireScript)
    requires Kept(c, w) && 0 < w.clock.now
    ensures var r := Acquire(c, w, e).w;
            && r.fetches <= w.fetches + 2
            && (r.clock.now - w.clock.now < c.assist.minIntervalS * 1000
                ==> |r.assist.stamps| <= |w.assist.stamps| + 1)
  {
    AcquireStamps(c, w, e);
    if |Acquire(c, w, e).w.assist.stamps| > |w.assist.stamps| + 1 {
      TwoStampsTakeTime(c, w, Acquire(c, w, e).w);
    }
  }

  /** Outside the fix attempt nothing is fetched. */
  ghost predicate Same(w: World, r: World) {
    r.assist == w.assist && r.fetches == w.fetches && w.clock.now <= r.clock.now
  }

  /** How long a cycle's fix attempt takes. */
  function SearchMs(c: Config, w: World, e: CycleScript): nat {
    var (s, ok) := Started(c, w, e);
    if Reaches(c, w, e) && ok then Acquire(c, s, e.acquire).w.clock.now - s.clock.now else 0
  }

  lemma TrackedStamps(c: Config, w: World, motionCycle: bool, e: CycleScript)
    requires Kept(c, w)
    ensures var a, r := Acquire(c, w, e.acquire).w, Tracked(c, w, motionCycle, e);
            Kept(c, r) && Same(a, r) && r.fetches <= w.fetches + 2
  {
    AcquireStamps(c, w, e.acquire);
    var a := Acquire(c, w, e.acquire);
    var r := FirstReport(c, Fed(a.w), a.haveFix, e.first);
    var f := Frequent(c, r, motionCycle, e.entry, e.passes);
    assert Same(a.w, f);
    if f.life == Alive {
      assert Same(f, Park(c, f, e));
    }
  }

  /** A cycle makes at most two fetch calls, and at most one of them injects if its fix attempt is
      shorter than the minimum interval. */
  lemma CycleStamps(c: Config, w: World, e: CycleScript)
    requires Kept(c, w)
    ensures var r := Cycle(c, w, e);
            && Kept(c, r) && w.clock.now <= r.clock.now && r.fetches <= w.fetches + 2
            && (0 < w.clock.now && SearchMs(c, w, e) < c.assist.minIntervalS * 1000
                ==> |r.assist.stamps| <= |w.assist.stamps| + 1)
  {
    CycleStages(c, w, e);
    var (s, ok) := Started(c, w, e);
    if Reaches(c, w, e) && ok {
      TrackedStamps(c, s, w.wake == Wake.Motion, e);
      if 0 < w.clock.now {
        AtMostOneInjects(c, s, e.acquire);
      }
    }
  }

  lemma {:induction false} RunStamps(c: Config, w: World, es: seq<CycleScript>)
    requires Kept(c, w)
    ensures Kept(c, Run(c, w, es))
    ensures w.clock.now <= Run(c, w, es).clock.now
    ensures Run(c, w, es).fetches <= w.fetches + 2 * |es|
    decreases |es|
  {
    if es != [] && w.life == Alive {
      CycleStamps(c, w, es[0]);
      RunStamps(c, Cycle(c, w, es[0]), es[1..]);
    }
  }

  /** In every run: two fetch calls a cycle at most, and in any window of W milliseconds at most
      floor(W / interval) + 1 successful injections. */
  lemma AssistanceIsRationed(c: Config, bootMs: nat, external: bool, accelerometer: bool, credentials: bool,
                             es: seq<CycleScript>, i: nat, j: nat, window: nat)
    requires 0 < c.assist.minIntervalS
    ensures var r := Run(c, Boot(c, bootMs, external, accelerometer, credentials), es);
            var s := r.assist.stamps;
            && r.fetches <= 2 * |es|
            && (i <= j < |s| && s[i] != 0 && s[j] - s[i] <= window
                ==> j - i + 1 <= window / (c.assist.minIntervalS * 1000) + 1)
  {
    var r := Run(c, Boot(c, bootMs, external, accelerometer, credentials), es);
    RunStamps(c, Boot(c, bootMs, external, accelerometer, credentials), es);
    var s := r.assist.stamps;
    if i <= j < |s| && s[i] != 0 && s[j] - s[i] <= window {
      Assistance.WindowBound(c.assist, r.assist, i, j, window);
    }
  }

  lemma RunCons(c: Config, w: World, es: seq<CycleScript>, i: nat)
    requires 0 < i <= |es|
    ensures Run(c, w, es[..i]) == if w.life == Alive then Run(c, Cycle(c, w, es[0]), es[1..][..i - 1]) else w
  {
    assert es[..i][0] == es[0] && es[..i][1..] == es[1..][..i - 1];
  }

  lemma {:induction false} RunSnoc(c: Config, w: World, es: seq<CycleScript>, i: nat)
    requires i < |es|
    ensures var b := Run(c, w, es[..i]);
            Run(c, w, es[..i + 1]) == if b.life == Alive then Cycle(c, b, es[i]) else b
    decreases i
  {
    if 0 < i {
      RunCons(c, w, es, i);
      RunCons(c, w, es, i + 1);
      if w.life == Alive {
        RunSnoc(c, Cycle(c, w, es[0]), es[1..], i - 1);
      }
    } else {
      RunCons(c, w, es, 1);
    }
  }

  /** Of every cycle of every run: at most two fetch calls, and at most one injection if its fix
      attempt is shorter than the minimum interval - even when a failed restart of the receiver
      makes the call that injected look like a failure. */
  lemma EveryCycleIsRationed(c: Config, bootMs: nat, external: bool, accelerometer: bool, credentials: bool,
                             es: seq<CycleScript>, i: nat)
    requires i < |es| && 0 < bootMs
    ensures var b := Boot(c, bootMs, external, accelerometer, credentials);
            var w, r := Run(c, b, es[..i]), Run(c, b, es[..i + 1]);
            && r.fetches <= w.fetches + 2
            && (SearchMs(c, w, es[i]) < c.assist.minIntervalS * 1000
                ==> |r.assist.stamps| <= |w.assist.stamps| + 1)
  {
    var b := Boot(c, bootMs, external, accelerometer, credentials);
    RunStamps(c, b, es[..i]);
    RunSnoc(c, b, es, i);
    CycleStamps(c, Run(c, b, es[..i]), es[i]);
  }
}
