/** wake.c: the interruptible battery sleep.

    Any number of signallers (the PMIC callback, the accelerometer handler) and one waiter
    share an atomic word `pending` and a binary semaphore. Every atomic store, load, give,
    reset and take is a step of its own; a run is the sequence of steps in the order the
    scheduler chose, so a statement about every valid run is a statement about every
    interleaving. */
module Wake {

  /** Why a report cycle started. */
  datatype Reason = Boot | Timer | Vbus | Motion

  datatype Action =
    | Store(id: nat, reason: Reason)  // wake_signal: pending := reason
    | Give(id: nat)                   // wake_signal: give the semaphore
    | Clear                           // wake_wait: pending := Timer
    | Reset                           // wake_wait: reset the semaphore
    | Take(ms: nat)                   // wake_wait: start waiting for at most ms
    | Expire                          // the wait times out and wake_wait returns Timer
    | Load                            // the wait was given; wake_wait returns pending
    | Tick(ms: nat)                   // time passes

  datatype Pc = Idle | Cleared | Armed | Waiting | Woken

  datatype Signal = Signal(id: nat, reason: Reason)

  /** `pending`, `count`, `pc`, `result` and the clock are the program's state. The rest records
      history for the statements below: the signals half raised (stored, not yet given) now and
      when the current wait cleared `pending`, the signals stored since that clear in order,
      and the signals given since the wait reset the semaphore. */
  datatype State = State(
    pending: Reason, count: nat, pc: Pc, result: Reason,
    now: nat, began: nat, period: nat, deadline: nat,
    open: set<nat>, used: set<nat>, half: set<nat>, stored: seq<Signal>, given: set<nat>)

  const START := State(Timer, 0, Idle, Boot, 0, 0, 0, 0, {}, {}, {}, [], {})

  /** What the scheduler may run next. A signaller stores once and then gives once, and never
      stores Timer: wake_signal is called with Vbus and Motion only. */
  predicate Enabled(s: State, a: Action) {
    match a
    case Store(id, reason) => id !in s.used && reason != Timer
    case Give(id) => id in s.open
    case Clear => s.pc == Idle
    case Reset => s.pc == Cleared
    case Take(_) => s.pc == Armed
    case Expire => s.pc == Waiting && s.deadline <= s.now
    case Load => s.pc == Woken
    case Tick(_) => true
  }

  /** The effect of one step. Giving a semaphore somebody is blocked on hands it straight to
      that thread; otherwise the count saturates at one. */
  function Step(s: State, a: Action): State {
    match a
    case Store(id, reason) =>
      s.(pending := reason, open := s.open + {id}, used := s.used + {id},
         stored := s.stored + [Signal(id, reason)])
    case Give(id) =>
      var t := s.(open := s.open - {id}, given := s.given + {id});
      if s.pc == Waiting then t.(pc := Woken) else t.(count := 1)
    case Clear => s.(pending := Timer, pc := Cleared, began := s.now, half := s.open, stored := [])
    case Reset => s.(count := 0, pc := Armed, given := {})
    case Take(ms) =>
      var t := s.(period := ms, deadline := s.now + ms);
      if s.count > 0 then t.(count := 0, pc := Woken) else t.(pc := Waiting)
    case Expire => s.(pc := Idle, result := Timer)
    case Load => s.(pc := Idle, result := s.pending)
    case Tick(ms) => s.(now := s.now + ms)
  }

  function Exec(s: State, t: seq<Action>): State {
    if t == [] then s else Step(Exec(s, t[..|t| - 1]), t[|t| - 1])
  }

  predicate Valid(s: State, t: seq<Action>) {
    t == [] || (Valid(s, t[..|t| - 1]) && Enabled(Exec(s, t[..|t| - 1]), t[|t| - 1]))
  }

  predicate Reachable(s: State, t: seq<Action>) {
    Valid(START, t) && s == Exec(START, t)
  }

  function Ids(signals: seq<Signal>): set<nat> {
    set x | x in signals :: x.id
  }

  function Latest(signals: seq<Signal>): Reason {
    if signals == [] then Timer else signals[|signals| - 1].reason
  }

  ghost predicate Invariant(s: State) {
    && s.open <= s.used && s.half <= s.used
    && (forall x :: x in s.stored ==> x.reason != Timer)
    && s.began <= s.now
    && (s.pc != Idle ==> s.pending == Latest(s.stored) && s.open <= s.half + Ids(s.stored))
    && (s.pc in {Armed, Waiting, Woken} ==> s.given <= s.half + Ids(s.stored))
    && (s.pc in {Armed, Waiting} ==> (s.count == 0 <==> s.given == {}))
    && (s.pc == Waiting ==> s.count == 0 && s.began + s.period <= s.deadline)
    && (s.pc == Woken ==> s.given != {})
  }

  lemma IdsGrow(signals: seq<Signal>, x: Signal)
    ensures Ids(signals + [x]) == Ids(signals) + {x.id}
  {
    assert forall y :: y in signals + [x] <==> y in signals || y == x;
    assert x in signals + [x];
  }

  lemma InvariantStep(s: State, a: Action)
    requires Invariant(s) && Enabled(s, a)
    ensures Invariant(Step(s, a))
  {
    if a.Store? {
      IdsGrow(s.stored, Signal(a.id, a.reason));
    }
  }

  lemma {:induction false} InvariantHolds(t: seq<Action>)
    requires Valid(START, t)
    ensures Invariant(Exec(START, t))
  {
    if t != [] {
      InvariantHolds(t[..|t| - 1]);
      InvariantStep(Exec(START, t[..|t| - 1]), t[|t| - 1]);
    }
  }

  /** What a return from wake_wait means, over every interleaving.
      Coming back by timeout, the full period has elapsed and no signaller gave since the reset,
      so no wake-up was lost. Coming back otherwise, the reason is the one stored last since
      the clear, and it is Timer exactly when nothing was stored since then - which takes a
      signal that was half raised at the clear and gave after the reset. */
  lemma WaitOutcome(s: State, a: Action, t: seq<Action>)
    requires Reachable(s, t) && Enabled(s, a) && (a == Expire || a == Load)
    ensures a == Expire ==>
              && Step(s, a).result == Timer
              && s.began + s.period <= s.now
              && s.given == {}
    ensures a == Load ==>
              && Step(s, a).result == Latest(s.stored)
              && (Step(s, a).result == Timer <==> s.stored == [])
              && (Step(s, a).result != Timer ==> s.stored[|s.stored| - 1].reason == Step(s, a).result)
              && (Step(s, a).result == Timer ==> exists id :: id in s.given && id in s.half)
  {
    InvariantHolds(t);
    if a == Load {
      if s.stored != [] {
        assert s.stored[|s.stored| - 1] in s.stored;
      } else {
        var id :| id in s.given;
        assert id in s.half;
      }
    }
  }

  /** A wait never hangs and never ends for nothing: taking, it goes through exactly when somebody
      gave since the reset; waiting, the next give ends it and the timeout does so exactly from its
      deadline on; and once it is over nothing keeps it from returning. */
  lemma WaitEndsExactly(s: State, t: seq<Action>, id: nat, ms: nat)
    requires Reachable(s, t)
    ensures s.pc == Armed ==>
              Step(s, Take(ms)).pc == (if s.given != {} then Woken else Waiting)
              && Step(s, Take(ms)).deadline == s.now + ms
    ensures s.pc == Waiting && id in s.open ==> Enabled(s, Give(id)) && Step(s, Give(id)).pc == Woken
    ensures s.pc == Waiting ==> (Enabled(Step(s, Tick(ms)), Expire) <==> s.deadline <= s.now + ms)
    ensures s.pc == Woken ==> Enabled(s, Load)
  {
    InvariantHolds(t);
  }

  /** A signal stored since the clear and given since the reset always ends the wait with a
      reason other than Timer. */
  lemma NoSignalLost(s: State, a: Action, t: seq<Action>, id: nat)
    requires Reachable(s, t) && Enabled(s, a) && (a == Expire || a == Load)
    requires id in Ids(s.stored) && id in s.given
    ensures a == Load && Step(s, a).result != Timer
  {
    WaitOutcome(s, a, t);
  }

  // ---------------------------------------------------------------- the documented promise

  /** wake.h promises that Timer means the full time elapsed. `Kept` says a return honours it. */
  predicate Kept(s: State, a: Action) {
    Step(s, a).result == Timer ==> s.began + s.period <= s.now
  }

  /** Every return a wait entered from `s` can make, over every continuation, honours it. */
  ghost predicate PromiseFrom(s: State) {
    forall c, a ::
      Valid(s, c) && c != [] && c[0] == Clear && (forall i :: 0 < i < |c| ==> c[i] != Clear)
      && (a == Expire || a == Load) && Enabled(Exec(s, c), a)
      ==> Kept(Exec(s, c), a)
  }

  lemma {:induction false} HalfIsFrozen(s: State, c: seq<Action>)
    requires Valid(s, c) && c != [] && c[0] == Clear && forall i :: 0 < i < |c| ==> c[i] != Clear
    ensures Exec(s, c).half == s.open
  {
    var p := c[..|c| - 1];
    if p == [] {
      assert Exec(s, p) == s;
    } else {
      assert forall i :: 0 <= i < |p| ==> p[i] == c[i];
      HalfIsFrozen(s, p);
      assert c[|c| - 1] != Clear;
    }
  }

  lemma {:induction false} ExecConcat(s: State, t: seq<Action>, c: seq<Action>)
    ensures Exec(s, t + c) == Exec(Exec(s, t), c)
    ensures Valid(s, t) && Valid(Exec(s, t), c) ==> Valid(s, t + c)
  {
    if c == [] {
      assert t + c == t;
    } else {
      var p := c[..|c| - 1];
      ExecConcat(s, t, p);
      assert (t + c)[..|t + c| - 1] == t + p;
      assert (t + c)[|t + c| - 1] == c[|c| - 1];
    }
  }

  lemma ExecSnoc(s: State, t: seq<Action>, a: Action)
    ensures Exec(s, t + [a]) == Step(Exec(s, t), a)
    ensures Valid(s, t) && Enabled(Exec(s, t), a) ==> Valid(s, t + [a])
  {
    assert (t + [a])[..|t|] == t;
  }

  /** The run that breaks the promise: the half-raised signal `id` stored before the clear and
      gives after the reset, so the wait ends at once and finds Timer in `pending`. */
  function Straddle(id: nat, ms: nat): seq<Action> {
    [Clear, Reset, Give(id), Take(ms)]
  }

  lemma StraddleBreaks(s: State, id: nat, ms: nat)
    requires s.pc == Idle && id in s.open && 0 < ms
    ensures Valid(s, Straddle(id, ms)) && Enabled(Exec(s, Straddle(id, ms)), Load)
    ensures !Kept(Exec(s, Straddle(id, ms)), Load)
  {
    var c := Straddle(id, ms);
    var c1, c2, c3 := c[..1], c[..2], c[..3];
    assert c1 == [] + [Clear] && c2 == c1 + [Reset] && c3 == c2 + [Give(id)] && c == c3 + [Take(ms)];
    ExecSnoc(s, [], Clear);
    ExecSnoc(s, c1, Reset);
    var s2 := Step(Step(s, Clear), Reset);
    assert Valid(s, c2) && Exec(s, c2) == s2;
    ExecSnoc(s, c2, Give(id));
    var s3 := Step(s2, Give(id));
    assert Valid(s, c3) && Exec(s, c3) == s3 && s3.count == 1 && s3.pending == Timer;
    ExecSnoc(s, c3, Take(ms));
    assert Step(s3, Take(ms)).pc == Woken;
  }

  /** The promise is kept by every continuation exactly when no signaller is between its store
      and its give at the moment the wait clears `pending`. */
  lemma PromiseExactlyWhenNoneHalfRaised(s: State, t: seq<Action>)
    requires Reachable(s, t) && s.pc == Idle
    ensures PromiseFrom(s) <==> s.open == {}
  {
    if s.open == {} {
      forall c, a |
        Valid(s, c) && c != [] && c[0] == Clear && (forall i :: 0 < i < |c| ==> c[i] != Clear)
        && (a == Expire || a == Load) && Enabled(Exec(s, c), a)
        ensures Kept(Exec(s, c), a)
      {
        ExecConcat(START, t, c);
        WaitOutcome(Exec(s, c), a, t + c);
        HalfIsFrozen(s, c);
      }
    } else {
      var id :| id in s.open;
      StraddleBreaks(s, id, 1);
      var c := Straddle(id, 1);
      assert c[0] == Clear;
      assert !Kept(Exec(s, c), Load);
    }
  }

  // ---------------------------------------------------------------- one signal hides another

  /** External power is signalled, and before the woken waiter reads the reason a jolt is. */
  function JoltAfterPower(ms: nat): seq<Action> {
    [Clear, Reset, Take(ms), Store(0, Vbus), Give(0), Store(1, Motion)]
  }

  lemma WaitBegins(ms: nat)
    ensures Valid(START, [Clear, Reset, Take(ms)])
    ensures Exec(START, [Clear, Reset, Take(ms)]) == START.(pc := Waiting, period := ms, deadline := ms)
  {
    var t := [Clear, Reset, Take(ms)];
    assert [Clear] == [] + [Clear] && [Clear, Reset] == [Clear] + [Reset] && t == [Clear, Reset] + [Take(ms)];
    ExecSnoc(START, [], Clear);
    ExecSnoc(START, [Clear], Reset);
    ExecSnoc(START, [Clear, Reset], Take(ms));
  }

  lemma JoltHidesPower(ms: nat)
    ensures var t := JoltAfterPower(ms);
            && Reachable(Exec(START, t), t) && Enabled(Exec(START, t), Load)
            && Exec(START, t).stored == [Signal(0, Vbus), Signal(1, Motion)]
            && Step(Exec(START, t), Load).result == Motion
  {
    var t := [Clear, Reset, Take(ms)];
    var t1, t2 := t + [Store(0, Vbus)], t + [Store(0, Vbus)] + [Give(0)];
    WaitBegins(ms);
    ExecSnoc(START, t, Store(0, Vbus));
    ExecSnoc(START, t1, Give(0));
    assert Exec(START, t2).pc == Woken && Exec(START, t2).stored == [Signal(0, Vbus)];
    ExecSnoc(START, t2, Store(1, Motion));
    assert JoltAfterPower(ms) == t2 + [Store(1, Motion)];
  }

  // ---------------------------------------------------------------- stale signals

  /** Two states a waiter cannot tell apart: they may differ in `pending` until the wait clears
      it and in the semaphore count until the wait resets it. */
  predicate Alike(s: State, r: State) {
    && s.pc == r.pc && s.now == r.now && s.open == r.open && s.used == r.used
    && (s.pc != Idle ==> s.pending == r.pending && s.began == r.began)
    && (s.pc in {Armed, Waiting, Woken} ==> s.count == r.count)
    && (s.pc in {Waiting, Woken} ==> s.deadline == r.deadline)
  }

  lemma AlikeStep(s: State, r: State, a: Action)
    requires Alike(s, r)
    ensures Enabled(s, a) <==> Enabled(r, a)
    ensures Enabled(s, a) ==> Alike(Step(s, a), Step(r, a))
    ensures Enabled(s, a) && (a == Expire || a == Load) ==> Step(s, a).result == Step(r, a).result
  {
  }

  /** Signals completed before a wait never affect it. From two idle states that differ only in
      what those signals left behind, the same continuations are possible and, once a wait has
      been entered, every return gives the same reason. */
  lemma {:induction false} StaleSignalsDoNotMatter(s: State, r: State, c: seq<Action>)
    requires Alike(s, r)
    ensures Valid(s, c) <==> Valid(r, c)
    ensures Valid(s, c) ==> Alike(Exec(s, c), Exec(r, c))
    ensures Valid(s, c) && c != [] && (c[|c| - 1] == Expire || c[|c| - 1] == Load) ==>
              Exec(s, c).result == Exec(r, c).result
  {
    if c != [] {
      var p := c[..|c| - 1];
      StaleSignalsDoNotMatter(s, r, p);
      if Valid(s, p) {
        AlikeStep(Exec(s, p), Exec(r, p), c[|c| - 1]);
      }
    }
  }
}
