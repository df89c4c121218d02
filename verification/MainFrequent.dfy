/** The frequent loop: what keeps it going, what ends it, and how soon. */
module MainFrequent {
  import opened TrackerConfig
  import opened Watchdog
  import opened MainLoop
  import Arithmetic
  import Wake

  // ---------------------------------------------------------------- exactly when it is entered

  /** Power is present, or the cycle was woken by motion, that is watched, and the last jolt is
      younger than the surge. */
  predicate Called(c: Config, motionCycle: bool, k: Check, now: nat) {
    k.vbus || (motionCycle && c.motionWake && k.jolt != 0 && (now as int) - (k.jolt as int) < c.surgeS * 1000)
  }

  /** A cycle as it comes to the frequent loop: its first report done, or skipped. */
  function Reported(c: Config, w: World, e: CycleScript): World {
    var a := Acquire(c, Started(c, w, e).0, e.acquire);
    FirstReport(c, Fed(a.w), a.haveFix, e.first)
  }

  /** What the loop then makes of the cycle. */
  function InTheLoop(c: Config, w: World, e: CycleScript): Looped {
    Loop(c, Reported(c, w, e), w.wake == Wake.Motion, e.passes)
  }

  /** Every cycle that gets that far enters the loop exactly when it is called for, and parks at
      once otherwise. Entered, it is left for the park or the run ends inside it. */
  lemma EntersExactly(c: Config, w: World, e: CycleScript)
    requires w.life == Alive && Reaches(c, w, e) && Started(c, w, e).1
    ensures var f, l := Reported(c, w, e), InTheLoop(c, w, e);
            && f.life == Alive
            && Cycle(c, w, e) == (if !Called(c, w.wake == Wake.Motion, e.entry, f.clock.now) then Park(c, f, e)
                                  else if l.left then Park(c, l.w, e)
                                  else l.w.(life := InLoop))
    ensures e.passes == [] ==>
              (Cycle(c, w, e).life == InLoop <==> Called(c, w.wake == Wake.Motion, e.entry, Reported(c, w, e).clock.now))
  {
    CycleStages(c, w, e);
  }

  lemma ParkTakes(c: Config, w: World, e: CycleScript)
    ensures Park(c, w, e).clock.now == w.clock.now + e.stopMs + e.pause.ms + e.sleep.driverMs + e.sleep.ms
  {
  }

  /** So a script whose first pass finds the loop called for makes at least one pass, an interval
      long, exactly when the loop is called for at its entry; otherwise the cycle only parks. */
  lemma PassesExactly(c: Config, w: World, e: CycleScript)
    requires w.life == Alive && Reaches(c, w, e) && Started(c, w, e).1
    requires e.passes != [] && Called(c, w.wake == Wake.Motion, e.passes[0].check, Reported(c, w, e).clock.now)
    ensures InTheLoop(c, w, e).passes >= 1
    ensures var f, r := Reported(c, w, e), Cycle(c, w, e);
            if Called(c, w.wake == Wake.Motion, e.entry, f.clock.now)
            then r.clock.now >= f.clock.now + c.intervalS * 1000
            else r.life == Alive
                 && r.clock.now == f.clock.now + e.stopMs + e.pause.ms + e.sleep.driverMs + e.sleep.ms
  {
    var f, l := Reported(c, w, e), InTheLoop(c, w, e);
    EntersExactly(c, w, e);
    LoopStep(c, f, w.wake == Wake.Motion, e.passes);
    PassTakesInterval(c, f, e.passes[0]);
    ParkTakes(c, f, e);
    ParkTakes(c, l.w, e);
  }

  // ---------------------------------------------------------------- exactly when it goes on

  lemma LoopStep(c: Config, w: World, motionCycle: bool, ps: seq<Pass>)
    requires ps != [] && Goes(c, w, motionCycle, ps[0].check)
    ensures var l := Loop(c, PassBody(c, w, ps[0]), motionCycle, ps[1..]);
            Loop(c, w, motionCycle, ps) == l.(passes := l.passes + 1)
  {
  }

  /** After its first k passes the loop makes another exactly when external power is present at
      that check, or the cycle is a motion cycle with a jolt inside the surge window. Otherwise
      it leaves right there, with nothing more done. */
  lemma {:induction false} GoesOnExactly(c: Config, w: World, motionCycle: bool, ps: seq<Pass>, k: nat)
    requires k < |ps| && !Loop(c, w, motionCycle, ps[..k]).left
    ensures var b, r := Loop(c, w, motionCycle, ps[..k]), Loop(c, w, motionCycle, ps);
            && b.passes == k
            && (r.passes > k <==> Called(c, motionCycle, ps[k].check, b.w.clock.now))
            && (!Called(c, motionCycle, ps[k].check, b.w.clock.now) ==> r == b.(left := true))
    decreases k
  {
    if k == 0 {
      assert ps[..k] == [];
    } else {
      var rest := ps[1..];
      assert ps[..k][0] == ps[0] && ps[..k][1..] == rest[..k - 1] && rest[k - 1] == ps[k];
      assert Goes(c, w, motionCycle, ps[0].check);
      LoopStep(c, w, motionCycle, ps[..k]);
      LoopStep(c, w, motionCycle, ps);
      GoesOnExactly(c, PassBody(c, w, ps[0]), motionCycle, rest, k - 1);
    }
  }

  /** The loop is left only at a check that finds external power absent, and either the cycle is
      no motion cycle (or motion is not watched), or no jolt is on record, or the last one is at
      least the surge window old. */
  lemma {:induction false} LeavesOnlyWhenOver(c: Config, w: World, motionCycle: bool, ps: seq<Pass>)
    ensures var r := Loop(c, w, motionCycle, ps);
            if r.left
            then r.passes < |ps|
                 && var k := ps[r.passes].check;
                    && !k.vbus
                    && (!motionCycle || !c.motionWake || k.jolt == 0 || r.w.clock.now - k.jolt >= SurgeMs(c))
            else r.passes == |ps|
    decreases |ps|
  {
    if ps != [] && Goes(c, w, motionCycle, ps[0].check) {
      LeavesOnlyWhenOver(c, PassBody(c, w, ps[0]), motionCycle, ps[1..]);
    }
  }

  // ---------------------------------------------------------------- how soon it ends

  /** From here on external power is absent at every check, and no jolt comes after `last`. */
  ghost predicate Calm(ps: seq<Pass>, last: nat) {
    forall i :: 0 <= i < |ps| ==> !ps[i].check.vbus && ps[i].check.jolt <= last
  }

  lemma PassTakesInterval(c: Config, w: World, p: Pass)
    ensures PassBody(c, w, p).clock.now >= w.clock.now + IntervalMs(c)
  {
  }

  lemma OneIntervalLess(n: nat, interval: nat, surge: nat, now: nat, later: nat, last: nat)
    requires later >= now + interval
    requires n * interval < surge - (later as int - last as int)
    ensures (n + 1) * interval < surge - (now as int - last as int)
  {
    Arithmetic.NextMultiple(n, interval);
  }

  lemma GoesInWindow(c: Config, w: World, motionCycle: bool, k: Check, last: nat)
    requires Goes(c, w, motionCycle, k) && !k.vbus && k.jolt <= last
    ensures 0 < SurgeMs(c) - (w.clock.now as int - last as int)
  {
  }

  /** The measure: what is left of the surge window at this check, in intervals. */
  lemma {:induction false} WindowRunsOut(c: Config, w: World, motionCycle: bool, ps: seq<Pass>, last: nat)
    requires Calm(ps, last)
    ensures var n := Loop(c, w, motionCycle, ps).passes;
            n == 0 || (n - 1) * IntervalMs(c) < SurgeMs(c) - (w.clock.now - last)
    decreases |ps|
  {
    if ps != [] && Goes(c, w, motionCycle, ps[0].check) {
      var t := PassBody(c, w, ps[0]);
      PassTakesInterval(c, w, ps[0]);
      WindowRunsOut(c, t, motionCycle, ps[1..], last);
      LoopStep(c, w, motionCycle, ps);
      GoesInWindow(c, w, motionCycle, ps[0].check, last);
      var n := Loop(c, t, motionCycle, ps[1..]).passes;
      if n > 0 {
        OneIntervalLess(n - 1, IntervalMs(c), SurgeMs(c), w.clock.now, t.clock.now, last);
      } else {
        assert n * IntervalMs(c) == 0;
      }
    }
  }

  /** Once external power stays away and jolts have stopped, at most ceil(SURGE / INTERVAL) more
      passes start; given that many checks and one more, the loop is left. */
  lemma LoopEnds(c: Config, w: World, motionCycle: bool, ps: seq<Pass>, last: nat)
    requires c.intervalS > 0 && last <= w.clock.now && Calm(ps, last)
    ensures var r := Loop(c, w, motionCycle, ps);
            && r.passes <= DivRoundUp(c.surgeS, c.intervalS)
            && (|ps| > DivRoundUp(c.surgeS, c.intervalS) ==> r.left)
  {
    WindowRunsOut(c, w, motionCycle, ps, last);
    LeavesOnlyWhenOver(c, w, motionCycle, ps);
    var n := Loop(c, w, motionCycle, ps).passes;
    if n > 0 {
      assert (n - 1) * (c.intervalS * 1000) < c.surgeS * 1000;
      InSeconds(n - 1, c.intervalS, c.surgeS);
      RoundsUp(n - 1, c.intervalS, c.surgeS);
    }
  }

  lemma InSeconds(k: nat, interval: nat, surge: nat)
    requires k * (interval * 1000) < surge * 1000
    ensures k * interval < surge
  {
    assert k * (interval * 1000) == (k * interval) * 1000;
  }

  lemma RoundsUp(k: nat, d: nat, n: nat)
    requires 0 < d && k * d < n
    ensures k + 1 <= DivRoundUp(n, d)
  {
    Arithmetic.NextMultiple(k, d);
    Arithmetic.QuotientAtLeast(k + 1, d, n + d - 1);
  }
}
