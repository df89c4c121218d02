/** watchdog.c: feeding, and the guard timer that feeds on behalf of a blocked main thread.
    Times are uptime in milliseconds. */
module Watchdog {

  const GUARD_PERIOD_S := 30
  const GUARD_PERIOD := 30_000

  function Max(a: nat, b: nat): nat {
    if a < b then b else a
  }

  function Min(a: nat, b: nat): nat {
    if a < b then a else b
  }

  function DivRoundUp(a: nat, b: nat): nat
    requires 0 < b
  {
    (a + b - 1) / b
  }

  /** The time, the last feed, and the longest time so far without one. The hardware resets the
      moment that longest time reaches its timeout. */
  datatype Clock = Clock(now: nat, fed: nat, worst: nat)

  ghost predicate Sound(c: Clock) {
    c.fed <= c.now && c.now - c.fed <= c.worst
  }

  function Spend(c: Clock, ms: nat): (r: Clock)
    ensures c.fed <= c.now ==> r.fed == c.fed && r.now == c.now + ms
    ensures Sound(c) ==> Sound(r)
  {
    Clock(c.now + ms, c.fed, if c.fed <= c.now + ms then Max(c.worst, c.now + ms - c.fed) else c.worst)
  }

  function Feed(c: Clock): Clock {
    c.(fed := c.now)
  }

  // ---------------------------------------------------------------- the guard, in closed form

  /** How many feeds a guard armed with a budget can make. */
  function GuardFeeds(budgetS: nat): nat {
    DivRoundUp(budgetS, GUARD_PERIOD_S)
  }

  /** How many of them have happened `ms` after it was armed. */
  function FeedsBy(budgetS: nat, ms: nat): nat {
    Min(GuardFeeds(budgetS), ms / GUARD_PERIOD)
  }

  /** When those feeds came. */
  function FeedTimes(from: nat, count: nat): (times: seq<nat>)
    ensures |times| == count
  {
    seq(count, i => from + GUARD_PERIOD * (i + 1))
  }

  /** The longest unfed stretch inside a guarded call of `ms`. */
  function GuardedGap(budgetS: nat, ms: nat): (gap: nat) {
    var m := FeedsBy(budgetS, ms);
    if m == 0 then ms else Max(GUARD_PERIOD, ms - GUARD_PERIOD * m)
  }

  /** The clock after guard_start, a call of `ms`, guard_stop. */
  function Guarded(c: Clock, budgetS: nat, ms: nat): Clock {
    Clock(c.now + ms, c.now + ms, Max(c.worst, GuardedGap(budgetS, ms)))
  }

  /** A call that returns within its budget never sees a gap above the guard period. */
  lemma GuardCoversBudget(budgetS: nat, ms: nat)
    requires ms <= budgetS * 1000
    ensures GuardedGap(budgetS, ms) <= GUARD_PERIOD == 30_000
  {
    assert ms / GUARD_PERIOD <= GuardFeeds(budgetS);
  }

  /** A call that outlives the guard gets one feed from guard_start and GuardFeeds more, then
      none: with nothing else feeding, the reset comes at least the budget and less than the
      budget plus one period, each plus the timeout, after arming. */
  lemma GuardRunsOut(budgetS: nat, ms: nat, timeoutMs: nat)
    requires 30_000 * GuardFeeds(budgetS) <= ms
    ensures FeedsBy(budgetS, ms) == GuardFeeds(budgetS)
    ensures budgetS * 1000 <= 30_000 * GuardFeeds(budgetS) < budgetS * 1000 + 30_000
    ensures 30_000 < timeoutMs ==>
              (timeoutMs <= GuardedGap(budgetS, ms)
               <==> 30_000 * GuardFeeds(budgetS) + timeoutMs <= ms)
  {
  }

  /** So for every call: it is reset under the guard exactly when it outlasts the budget, rounded up
      to whole periods of 30 s, by the timeout. */
  lemma GuardResetsExactly(budgetS: nat, ms: nat, timeoutMs: nat)
    requires 30_000 < timeoutMs
    ensures timeoutMs <= GuardedGap(budgetS, ms) <==> 30_000 * ((budgetS + 29) / 30) + timeoutMs <= ms
  {
    if GUARD_PERIOD * GuardFeeds(budgetS) <= ms {
      GuardRunsOut(budgetS, ms, timeoutMs);
    }
  }

  // ---------------------------------------------------------------- the guard, as it runs

  /** The state watchdog.c keeps, with the timer's next expiry and the hardware's view of time.
      `feeds` is the history of every feed. */
  class Watchdog {
    var guardFeedsLeft: nat
    var timerRunning: bool
    var nextExpiry: nat
    var now: nat
    var fed: nat
    var worst: nat
    ghost var feeds: seq<nat>

    function Model(): Clock
      reads this
    {
      Clock(now, fed, worst)
    }

    ghost predicate Valid()
      reads this
    {
      && Sound(Model())
      && (timerRunning ==> now < nextExpiry)
    }

    constructor ()
      ensures Valid() && !timerRunning && Model() == Clock(0, 0, 0) && feeds == []
    {
      guardFeedsLeft, timerRunning, nextExpiry := 0, false, 0;
      now, fed, worst, feeds := 0, 0, 0, [];
    }

    /** watchdog_feed() */
    method FeedNow()
      modifies this`fed, this`feeds
      ensures Model() == Feed(old(Model())) && feeds == old(feeds) + [now]
    {
      fed := now;
      feeds := feeds + [now];
    }

    /** Time passing while the main thread is busy and the guard timer is not running. */
    method Busy(ms: nat)
      requires Valid() && !timerRunning
      modifies this`now, this`worst
      ensures Valid()
      ensures Model() == Spend(old(Model()), ms)
    {
      now := now + ms;
      worst := Max(worst, now - fed);
    }

    /** guard_expiry(): feed while the budget lasts, then stop the timer. */
    method GuardExpiry()
      requires Valid() && timerRunning
      modifies this`guardFeedsLeft, this`timerRunning, this`nextExpiry, this`now, this`fed,
               this`worst, this`feeds
      ensures Valid() && now == old(nextExpiry)
      ensures worst == Max(old(worst), now - old(fed))
      ensures if old(guardFeedsLeft) == 0
              then !timerRunning && guardFeedsLeft == 0 && fed == old(fed) && feeds == old(feeds)
              else timerRunning && guardFeedsLeft == old(guardFeedsLeft) - 1
                   && fed == now && feeds == old(feeds) + [now] && nextExpiry == now + GUARD_PERIOD
    {
      now := nextExpiry;
      worst := Max(worst, now - fed);
      if guardFeedsLeft == 0 {
        timerRunning := false;
        return;
      }
      guardFeedsLeft := guardFeedsLeft - 1;
      FeedNow();
      nextExpiry := nextExpiry + GUARD_PERIOD;
    }

    /** watchdog_guard_start(): not nestable. */
    method GuardStart(budgetS: nat)
      requires Valid() && !timerRunning
      modifies this`guardFeedsLeft, this`timerRunning, this`nextExpiry, this`fed, this`feeds
      ensures Valid() && timerRunning
      ensures guardFeedsLeft == GuardFeeds(budgetS) && nextExpiry == now + GUARD_PERIOD
      ensures Model() == Feed(old(Model())) && feeds == old(feeds) + [now]
    {
      guardFeedsLeft := DivRoundUp(budgetS, GUARD_PERIOD_S);
      FeedNow();
      timerRunning := true;
      nextExpiry := now + GUARD_PERIOD;
    }

    /** watchdog_guard_stop() */
    method GuardStop()
      requires Valid()
      modifies this`timerRunning, this`fed, this`feeds
      ensures Valid() && !timerRunning
      ensures Model() == Feed(old(Model())) && feeds == old(feeds) + [now]
    {
      timerRunning := false;
      FeedNow();
    }

    /** Time passing inside a guarded call: the timer interrupts as often as it falls due. The
        feeds are exactly the closed form's, whether or not the call outlives the budget. */
    method Blocked(budgetS: nat, ms: nat)
      requires Valid() && timerRunning && fed == now
      requires guardFeedsLeft == GuardFeeds(budgetS) && nextExpiry == now + GUARD_PERIOD
      modifies this`guardFeedsLeft, this`timerRunning, this`nextExpiry, this`now, this`fed,
               this`worst, this`feeds
      ensures Valid() && now == old(now) + ms
      ensures feeds == old(feeds) + FeedTimes(old(now), FeedsBy(budgetS, ms))
      ensures fed == old(now) + GUARD_PERIOD * FeedsBy(budgetS, ms)
      ensures worst == Max(old(worst), GuardedGap(budgetS, ms))
    {
      ghost var start, n := now, GuardFeeds(budgetS);
      var end := now + ms;
      ghost var k := 0;
      while timerRunning && nextExpiry <= end
        invariant Valid() && now <= end && k <= n
        invariant timerRunning ==>
                    && now == start + GUARD_PERIOD * k && guardFeedsLeft == n - k && fed == now
                    && nextExpiry == now + GUARD_PERIOD
        invariant !timerRunning ==> k == n && now == start + GUARD_PERIOD * (n + 1)
        invariant fed == start + GUARD_PERIOD * k
        invariant feeds == old(feeds) + FeedTimes(start, k)
        invariant worst == Max(old(worst), if k == 0 && timerRunning then 0 else GUARD_PERIOD)
        decreases timerRunning, n - k
      {
        var fires := guardFeedsLeft != 0;
        GuardExpiry();
        if fires {
          assert FeedTimes(start, k) + [now] == FeedTimes(start, k + 1);
          k := k + 1;
        }
      }
      now := end;
      worst := Max(worst, now - fed);
      CountFeeds(budgetS, ms, k, timerRunning);
    }

    /** A network call wrapped in the guard, as main.c and agnss.c write it. */
    method GuardedCall(budgetS: nat, ms: nat)
      requires Valid() && !timerRunning
      modifies this
      ensures Valid() && !timerRunning
      ensures Model() == Guarded(old(Model()), budgetS, ms)
      ensures feeds == old(feeds) + [old(now)] + FeedTimes(old(now), FeedsBy(budgetS, ms)) + [now]
    {
      GuardStart(budgetS);
      Blocked(budgetS, ms);
      GuardStop();
    }
  }

  /** k expiries fed by `ms`, and either the next one lies beyond it or the budget was spent. */
  lemma CountFeeds(budgetS: nat, ms: nat, k: nat, running: bool)
    requires k <= GuardFeeds(budgetS)
    requires running ==> GUARD_PERIOD * k <= ms < GUARD_PERIOD * (k + 1)
    requires !running ==> k == GuardFeeds(budgetS) && GUARD_PERIOD * (k + 1) <= ms
    ensures FeedsBy(budgetS, ms) == k
  {
  }
}
