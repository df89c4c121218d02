/** agnss.c: downloading assistance data and injecting it into the modem's receiver. */
module Assistance {
  import opened Arithmetic
  import opened Watchdog
  import Receivers

  datatype Settings = Settings(minIntervalS: nat, budgetS: nat, stopDuringFetch: bool, fullRequestFallback: bool)

  /** The uptime of the last successful fetch (0 if none), and the history of all of them. */
  datatype State = State(lastFetch: nat, stamps: seq<nat>)

  const NEVER := State(0, [])

  /** What one call meets: whether the modem has asked for anything, whether download and
      injection went through, how long the receiver's stop and then the two of them took, and what
      the receiver did. */
  datatype Fetch = Fetch(requested: bool, injected: bool, stopMs: nat, ms: nat, stopFault: bool, startFault: bool)

  datatype Result = Result(clock: Clock, rx: Receivers.State, state: State, ok: bool)

  predicate RateLimited(g: Settings, s: State, now: nat) {
    s.lastFetch != 0 && ((now as int) - (s.lastFetch as int)) / 1000 < g.minIntervalS
  }

  function Stamp(s: State, now: nat): State {
    State(now, s.stamps + [now])
  }

  predicate Injects(g: Settings, f: Fetch) {
    (f.requested || g.fullRequestFallback) && f.injected
  }

  /** The time when the download is over: the receiver's stop is not guarded. */
  function Downloaded(g: Settings, c: Clock, f: Fetch): Clock {
    Guarded(if g.stopDuringFetch then Spend(c, f.stopMs) else c, g.budgetS, f.ms)
  }

  /** agnss_fetch_and_inject(): decline if rate-limited; else stop the receiver, fetch under the
      guard, and start it again. A failed restart fails the call even if it injected. */
  function FetchAndInject(g: Settings, c: Clock, rx: Receivers.State, s: State, f: Fetch): Result {
    if RateLimited(g, s, c.now) then Result(c, rx, s, false)
    else
      var d := Downloaded(g, c, f);
      var t := if Injects(g, f) then Stamp(s, d.now) else s;
      if g.stopDuringFetch then
        var (r, up) := Receivers.Bounce(rx, f.stopFault, f.startFault);
        Result(d, r, t, up && Injects(g, f))
      else Result(d, rx, t, Injects(g, f))
  }

  // ---------------------------------------------------------------- the rate limit

  /** `b` may follow `a` as the next stamp. A stamp of 0 would read as "never", hence the
      exception. */
  predicate Apart(g: Settings, a: nat, b: nat) {
    a <= b && (a == 0 || a + g.minIntervalS * 1000 <= b)
  }

  /** The last stamp is remembered, and neighbours are at least the minimum interval apart. */
  ghost predicate Spaced(g: Settings, s: State) {
    && (s.lastFetch == if s.stamps == [] then 0 else s.stamps[|s.stamps| - 1])
    && (forall i, j :: 0 <= i < j < |s.stamps| && j == i + 1 ==> Apart(g, s.stamps[i], s.stamps[j]))
  }

  lemma StampKeepsSpacing(g: Settings, s: State, called: nat, now: nat)
    requires Spaced(g, s) && s.lastFetch <= called <= now && !RateLimited(g, s, called)
    ensures Spaced(g, Stamp(s, now))
  {
    var n := Stamp(s, now);
    assert Apart(g, s.lastFetch, now);
    forall i, j | 0 <= i < j < |n.stamps| && j == i + 1
      ensures Apart(g, n.stamps[i], n.stamps[j])
    {
      if j < |s.stamps| {
        assert Apart(g, s.stamps[i], s.stamps[j]);
      }
    }
  }

  lemma FetchKeepsSpacing(g: Settings, c: Clock, rx: Receivers.State, s: State, f: Fetch)
    requires Spaced(g, s) && s.lastFetch <= c.now
    ensures var r := FetchAndInject(g, c, rx, s, f);
            && Spaced(g, r.state) && r.state.lastFetch <= r.clock.now
            && s.stamps <= r.state.stamps && |r.state.stamps| <= |s.stamps| + 1
            && (r.ok ==> |r.state.stamps| == |s.stamps| + 1)
            && (r.state.stamps != s.stamps ==> r.state.stamps == s.stamps + [r.clock.now])
  {
    if !RateLimited(g, s, c.now) {
      StampKeepsSpacing(g, s, c.now, Downloaded(g, c, f).now);
    }
  }

  /** The rate limit as agnss.h promises it: a call may go ahead when nothing was fetched yet, or
      the last fetch lies the whole interval back. */
  predicate Due(g: Settings, last: nat, now: nat) {
    last == 0 || (now as int) - (last as int) >= g.minIntervalS * 1000
  }

  /** Exactly a call that is due downloads; it stamps the end of its download exactly when it
      injects, and succeeds exactly when the receiver is running again too. One that is not due
      changes nothing. */
  lemma InjectsExactly(g: Settings, c: Clock, rx: Receivers.State, s: State, f: Fetch)
    ensures var r := FetchAndInject(g, c, rx, s, f);
            var end := c.now + (if g.stopDuringFetch then f.stopMs else 0) + f.ms;
            var injects := Due(g, s.lastFetch, c.now) && (f.requested || g.fullRequestFallback) && f.injected;
            && r.state == (if injects then State(end, s.stamps + [end]) else s)
            && (r.ok <==> injects && (g.stopDuringFetch ==> !f.startFault))
            && (if Due(g, s.lastFetch, c.now) then r.clock.now == r.clock.fed == end
                else r == Result(c, rx, s, false))
            && (g.stopDuringFetch && Due(g, s.lastFetch, c.now) ==>
                  (r.rx.hw.modem <==> !f.startFault || (f.stopFault && rx.hw.modem)))
            && (!g.stopDuringFetch ==> r.rx == rx)
  {
    var age := (c.now as int) - (s.lastFetch as int);
    assert age / 1000 < g.minIntervalS <==> age < g.minIntervalS * 1000;
  }

  /** k intervals after a nonzero stamp come k minimum intervals later. */
  lemma {:induction false} Span(g: Settings, s: State, i: nat, j: nat)
    requires Spaced(g, s) && i <= j < |s.stamps| && s.stamps[i] != 0
    ensures s.stamps[i] + (j - i) * (g.minIntervalS * 1000) <= s.stamps[j]
    decreases j - i
  {
    if i < j {
      Span(g, s, i, j - 1);
      NextMultiple(j - 1 - i, g.minIntervalS * 1000);
      assert Apart(g, s.stamps[j - 1], s.stamps[j]);
    }
  }

  /** Any window of W milliseconds holds at most floor(W / interval) + 1 successful fetches. */
  lemma WindowBound(g: Settings, s: State, i: nat, j: nat, window: nat)
    requires Spaced(g, s) && i <= j < |s.stamps| && s.stamps[i] != 0
    requires s.stamps[j] - s.stamps[i] <= window && 0 < g.minIntervalS
    ensures j - i + 1 <= window / (g.minIntervalS * 1000) + 1
  {
    Span(g, s, i, j);
    var d := g.minIntervalS * 1000;
    assert (j - i) * d <= window;
    QuotientAtLeast(j - i, d, window);
  }

  // ---------------------------------------------------------------- the program

  class Agnss {
    var lastFetchUptime: nat
    ghost var stamps: seq<nat>

    ghost function Model(): State
      reads this
    {
      State(lastFetchUptime, stamps)
    }

    constructor ()
      ensures Model() == NEVER
    {
      lastFetchUptime, stamps := 0, [];
    }

    /** fetch_and_inject() under the guard: a success is stamped before the guard is stopped. */
    method Download(g: Settings, wd: Watchdog, f: Fetch) returns (ok: bool)
      requires wd.Valid() && !wd.timerRunning
      modifies this, wd
      ensures wd.Valid() && !wd.timerRunning
      ensures wd.Model() == Guarded(old(wd.Model()), g.budgetS, f.ms)
      ensures ok == Injects(g, f)
      ensures Model() == if ok then Stamp(old(Model()), wd.now) else old(Model())
    {
      wd.GuardStart(g.budgetS);
      wd.Blocked(g.budgetS, f.ms);
      ok := (f.requested || g.fullRequestFallback) && f.injected;
      if ok {
        lastFetchUptime := wd.now;
        stamps := stamps + [wd.now];
      }
      wd.GuardStop();
    }

    method FetchNow(g: Settings, wd: Watchdog, rx: Receivers.Gnss, f: Fetch) returns (ok: bool)
      requires wd.Valid() && !wd.timerRunning
      modifies this, wd, rx
      ensures wd.Valid() && !wd.timerRunning
      ensures Result(wd.Model(), rx.Model(), Model(), ok) ==
              FetchAndInject(g, old(wd.Model()), old(rx.Model()), old(Model()), f)
      ensures old(lastFetchUptime <= wd.now) ==> lastFetchUptime <= wd.now
      ensures ok <==> Due(g, old(lastFetchUptime), old(wd.now)) && (f.requested || g.fullRequestFallback)
                      && f.injected && (g.stopDuringFetch ==> !f.startFault)
    {
      InjectsExactly(g, wd.Model(), rx.Model(), Model(), f);
      if lastFetchUptime != 0 && (wd.now - lastFetchUptime) / 1000 < g.minIntervalS {
        return false;
      }
      if g.stopDuringFetch {
        rx.SetModem(false, f.stopFault);
        wd.Busy(f.stopMs);
      }
      ok := Download(g, wd, f);
      if g.stopDuringFetch {
        rx.SetModem(true, f.startFault);
        if f.startFault {
          return false;
        }
      }
    }
  }
}
