/** The hand-off of a fix from a receiver's handler to the report loop, as gnss_ext.c and
    gnss_modem.c both do it: a frame behind a spinlock and a semaphore the waiter resets.

    Frames are numbered in the order they arrive, 0 being the zeroed frame at boot, and
    `frames[k]` says whether frame k holds a valid fix. A frame is two words, so that a copy
    made of two different frames is possible in principle. The two files differ in one thing:
    the modem's handler stores every frame and gives for valid ones, the external module's
    handler drops invalid frames before storing. */
module FixHandoff {

  datatype Receiver = StoresEveryFrame | StoresValidFrames

  datatype Action =
    // the handler
    | Arrive(valid: bool)
    | HandlerLock
    | StoreFirst
    | StoreSecond
    | HandlerUnlock
    | Finish  // give the semaphore if the frame is valid, and end the run
    // the waiter
    | Reset
    | Take
    | Expire
    | WaiterLock
    | CopyFirst
    | CopySecond
    | WaiterUnlock  // the wait returns the copy

  datatype Handler = Quiet | Holding | Locked | Half | Stored | Unlocked

  datatype Waiter = Idle | Armed | Waiting | Woken | Copying | HalfCopied | Copied

  /** `frames` lists the frames that have arrived, `stored` is the newest one stored, and
      `gave` is the set of frames whose handler gave since the waiter's reset. */
  datatype State = State(
    handler: Handler, waiter: Waiter, count: nat,
    first: nat, second: nat, copyFirst: nat, copySecond: nat,
    frames: seq<bool>, stored: nat, gave: set<nat>)

  const START := State(Quiet, Idle, 0, 0, 0, 0, 0, [false], 0, {})

  function Newest(s: State): nat
    requires s.frames != []
  {
    |s.frames| - 1
  }

  predicate HandlerHolds(s: State) {
    s.handler in {Locked, Half, Stored}
  }

  predicate WaiterHolds(s: State) {
    s.waiter in {Copying, HalfCopied, Copied}
  }

  predicate Enabled(s: State, a: Action) {
    match a
    case Arrive(_) => s.handler == Quiet
    case HandlerLock => s.handler == Holding && !WaiterHolds(s)
    case StoreFirst => s.handler == Locked
    case StoreSecond => s.handler == Half
    case HandlerUnlock => s.handler == Stored
    case Finish => s.handler == Unlocked
    case Reset => s.waiter == Idle
    case Take => s.waiter == Armed
    case Expire => s.waiter == Waiting
    case WaiterLock => s.waiter == Woken && !HandlerHolds(s)
    case CopyFirst => s.waiter == Copying
    case CopySecond => s.waiter == HalfCopied
    case WaiterUnlock => s.waiter == Copied
  }

  function Step(r: Receiver, s: State, a: Action): State
    requires Enabled(s, a) && s.frames != []
  {
    match a
    case Arrive(valid) =>
      var t := s.(frames := s.frames + [valid]);
      if r == StoresValidFrames && !valid then t else t.(handler := Holding)
    case HandlerLock => s.(handler := Locked)
    case StoreFirst => s.(handler := Half, first := Newest(s))
    case StoreSecond => s.(handler := Stored, second := Newest(s), stored := Newest(s))
    case HandlerUnlock => s.(handler := Unlocked)
    case Finish =>
      var t := s.(handler := Quiet);
      if !s.frames[Newest(s)] then t
      else if s.waiter == Waiting then t.(waiter := Woken, gave := s.gave + {Newest(s)})
      else t.(count := 1, gave := s.gave + {Newest(s)})
    case Reset => s.(waiter := Armed, count := 0, gave := {})
    case Take => if s.count > 0 then s.(waiter := Woken, count := 0) else s.(waiter := Waiting)
    case Expire => s.(waiter := Idle)
    case WaiterLock => s.(waiter := Copying)
    case CopyFirst => s.(waiter := HalfCopied, copyFirst := s.first)
    case CopySecond => s.(waiter := Copied, copySecond := s.second)
    case WaiterUnlock => s.(waiter := Idle)
  }

  /** The state after a run of steps, or the state where the first impossible one stopped it. */
  function Exec(r: Receiver, t: seq<Action>): (s: State)
    ensures s.frames != []
  {
    if t == [] then START
    else
      var s := Exec(r, t[..|t| - 1]);
      if Enabled(s, t[|t| - 1]) then Step(r, s, t[|t| - 1]) else s
  }

  ghost predicate Invariant(r: Receiver, s: State) {
    && s.frames != []
    && s.stored <= Newest(s)
    && !(HandlerHolds(s) && WaiterHolds(s))
    && (s.handler in {Stored, Unlocked} ==> s.stored == Newest(s))
    && (s.handler != Quiet ==> 0 < Newest(s))
    && s.first == (if s.handler == Half then Newest(s) else s.stored)
    && s.second == s.stored
    && (r == StoresValidFrames ==>
          && (s.stored != 0 ==> s.frames[s.stored])
          && (s.handler != Quiet ==> s.frames[Newest(s)]))
    && (forall k :: k in s.gave ==> 0 < k <= s.stored && s.frames[k])
    && (s.waiter in {Woken, Copying, HalfCopied, Copied} ==> s.gave != {})
    && (s.waiter == Armed && s.count > 0 ==> s.gave != {})
    && (s.waiter in {HalfCopied, Copied} ==> s.copyFirst == s.stored)
    && (s.waiter == Copied ==> s.copySecond == s.stored)
  }

  lemma InvariantStep(r: Receiver, s: State, a: Action)
    requires Invariant(r, s) && Enabled(s, a)
    ensures Invariant(r, Step(r, s, a))
  {
  }

  lemma {:induction false} InvariantHolds(r: Receiver, t: seq<Action>)
    ensures Invariant(r, Exec(r, t))
  {
    if t != [] {
      InvariantHolds(r, t[..|t| - 1]);
      var s := Exec(r, t[..|t| - 1]);
      if Enabled(s, t[|t| - 1]) {
        InvariantStep(r, s, t[|t| - 1]);
      }
    }
  }

  // ---------------------------------------------------------------- what a wait returns

  /** What a run leaves behind: the stores, the gives and the resets that took effect, in order,
      with the frame each store or give was about. */
  datatype Mark = Wrote(frame: nat) | Gave(frame: nat) | WasReset

  function Log(r: Receiver, t: seq<Action>): seq<Mark> {
    if t == [] then []
    else
      var p := t[..|t| - 1];
      Log(r, p) + Marks(Exec(r, p), t[|t| - 1])
  }

  /** The mark one step leaves. */
  function Marks(s: State, a: Action): seq<Mark>
    requires s.frames != []
  {
    if !Enabled(s, a) then []
    else if a == StoreSecond then [Wrote(Newest(s))]
    else if a == Finish && s.frames[Newest(s)] then [Gave(Newest(s))]
    else if a == Reset then [WasReset]
    else []
  }

  /** The frame of the newest store or give; none is frame 0. */
  function LatestFrame(log: seq<Mark>): nat {
    if log == [] then 0
    else if log[|log| - 1] == WasReset then LatestFrame(log[..|log| - 1])
    else log[|log| - 1].frame
  }

  /** Whether anybody gave since the newest reset. */
  predicate GaveSinceReset(log: seq<Mark>) {
    log != [] && log[|log| - 1] != WasReset
    && (log[|log| - 1].Gave? || GaveSinceReset(log[..|log| - 1]))
  }

  ghost predicate LogTells(s: State, log: seq<Mark>) {
    && LatestFrame(log) == s.stored
    && (GaveSinceReset(log) <==> s.gave != {})
    && (forall i :: 0 <= i < |log| && log[i].Gave? ==> log[i].frame < |s.frames| && s.frames[log[i].frame])
    && (forall i :: 0 <= i < |log| && log[i].Wrote? ==> log[i].frame < |s.frames|)
  }

  lemma LogTellsStep(r: Receiver, s: State, a: Action, log: seq<Mark>)
    requires Invariant(r, s) && Enabled(s, a) && LogTells(s, log)
    ensures LogTells(Step(r, s, a), log + Marks(s, a))
  {
    var n := log + Marks(s, a);
    if Marks(s, a) == [] {
      assert n == log;
    } else {
      assert n[..|n| - 1] == log;
      assert forall i :: 0 <= i < |log| ==> n[i] == log[i];
    }
  }

  lemma {:induction false} LogTellsRun(r: Receiver, t: seq<Action>)
    ensures LogTells(Exec(r, t), Log(r, t))
  {
    if t != [] {
      var p := t[..|t| - 1];
      LogTellsRun(r, p);
      InvariantHolds(r, p);
      if Enabled(Exec(r, p), t[|t| - 1]) {
        LogTellsStep(r, Exec(r, p), t[|t| - 1], Log(r, p));
      } else {
        assert Log(r, p) + [] == Log(r, p);
      }
    }
  }

  /** Position `g` is the newest give, and after it frames were only stored. */
  predicate NewestGive(log: seq<Mark>, g: nat) {
    g < |log| && log[g].Gave? && (forall i :: g < i < |log| ==> log[i].Wrote?)
  }

  lemma {:induction false} FindNewestGive(log: seq<Mark>) returns (g: nat)
    requires GaveSinceReset(log)
    ensures NewestGive(log, g)
  {
    var n := |log| - 1;
    if log[n].Gave? {
      g := n;
    } else {
      g := FindNewestGive(log[..n]);
      assert forall i :: 0 <= i < n ==> log[..n][i] == log[i];
    }
  }

  lemma LatestAfterGive(log: seq<Mark>, g: nat)
    requires NewestGive(log, g)
    ensures log[|log| - 1] == if g == |log| - 1 then log[g] else log[g + 1..][|log| - g - 2]
    ensures LatestFrame(log) == log[|log| - 1].frame
  {
  }

  /** Over every interleaving: a returned fix is one whole frame, not a mixture. Look at the
      newest give of the run, which is one of this wait, and the frames stored after it. If there
      are none, the fix is the valid frame that gave; otherwise it is the last of them. So it is
      invalid exactly when a frame was stored after the newest give and before the copy and the
      last such frame is invalid - which the external path never stores. */
  lemma ReturnedFix(r: Receiver, t: seq<Action>, s: State) returns (g: nat, after: seq<Mark>)
    requires s == Exec(r, t) && Enabled(s, WaiterUnlock)
    ensures NewestGive(Log(r, t), g) && after == Log(r, t)[g + 1..]
    ensures forall x :: x in after ==> x.Wrote? && x.frame < |s.frames|
    ensures s.copyFirst == s.copySecond < |s.frames|
    ensures after == [] ==> s.copyFirst == Log(r, t)[g].frame && s.frames[s.copyFirst]
    ensures !s.frames[s.copyFirst] <==> after != [] && !s.frames[after[|after| - 1].frame]
    ensures after != [] ==> s.copyFirst == after[|after| - 1].frame
    ensures r == StoresValidFrames ==> s.frames[s.copyFirst]
  {
    InvariantHolds(r, t);
    LogTellsRun(r, t);
    var log := Log(r, t);
    g := FindNewestGive(log);
    after := log[g + 1..];
    LatestAfterGive(log, g);
    assert s.copyFirst == s.copySecond == s.stored == log[|log| - 1].frame;
    if after == [] {
      assert log[|log| - 1] == log[g];
    } else {
      assert log[|log| - 1] == after[|after| - 1];
    }
  }

  /** A wait that timed out saw no handler give since its reset. */
  lemma TimedOutSawNone(r: Receiver, t: seq<Action>, s: State)
    requires s == Exec(r, t) && Enabled(s, Expire)
    ensures s.gave == {}
  {
    NoneWhileWaiting(r, t);
  }

  lemma {:induction false} NoneWhileWaiting(r: Receiver, t: seq<Action>)
    ensures var s := Exec(r, t);
            s.waiter == Waiting || (s.waiter == Armed && s.count == 0) ==> s.gave == {}
  {
    if t != [] {
      NoneWhileWaiting(r, t[..|t| - 1]);
    }
  }

  /** Taking, a wait goes through exactly when a handler gave since its reset. */
  lemma {:induction false} TakesExactly(r: Receiver, t: seq<Action>)
    ensures var s := Exec(r, t);
            s.waiter == Armed ==> Enabled(s, Take) && (Step(r, s, Take).waiter == Woken <==> s.gave != {})
                                  && (s.gave == {} ==> Step(r, s, Take).waiter == Waiting)
  {
    if t != [] {
      TakesExactly(r, t[..|t| - 1]);
    }
  }

  // ---------------------------------------------------------------- the modem's exception

  /** One more step of a run. */
  lemma Then(r: Receiver, t: seq<Action>, a: Action) returns (u: seq<Action>)
    requires Enabled(Exec(r, t), a)
    ensures u == t + [a] && Exec(r, u) == Step(r, Exec(r, t), a)
  {
    u := t + [a];
    assert u[..|t|] == t;
  }

  /** A frame that arrives is taken under the lock. */
  lemma FrameLocked(r: Receiver, t: seq<Action>, valid: bool) returns (u: seq<Action>)
    requires var s := Exec(r, t); s.handler == Quiet && !WaiterHolds(s)
    requires valid || r == StoresEveryFrame
    ensures u == t + [Arrive(valid), HandlerLock]
    ensures var s := Exec(r, t);
            Exec(r, u) == s.(handler := Locked, frames := s.frames + [valid])
  {
    u := Then(r, t, Arrive(valid));
    u := Then(r, u, HandlerLock);
  }

  lemma FrameWritten(r: Receiver, t: seq<Action>) returns (u: seq<Action>)
    requires Exec(r, t).handler == Locked
    ensures u == t + [StoreFirst, StoreSecond, HandlerUnlock]
    ensures var s := Exec(r, t);
            var k := Newest(s);
            Exec(r, u) == s.(handler := Unlocked, first := k, second := k, stored := k)
  {
    u := Then(r, t, StoreFirst);
    u := Then(r, u, StoreSecond);
    u := Then(r, u, HandlerUnlock);
  }

  /** One handler run, uninterrupted, stores the frame and gives if it is valid. */
  lemma FrameStored(t: seq<Action>, valid: bool) returns (u: seq<Action>)
    requires var s := Exec(StoresEveryFrame, t); s.handler == Quiet && !WaiterHolds(s) && s.waiter != Waiting
    ensures u == t + HandlerRun(valid)
    ensures var s := Exec(StoresEveryFrame, t);
            var k := |s.frames|;
            Exec(StoresEveryFrame, u) ==
            s.(frames := s.frames + [valid], first := k, second := k, stored := k,
               count := if valid then 1 else s.count, gave := if valid then s.gave + {k} else s.gave)
  {
    u := FrameLocked(StoresEveryFrame, t, valid);
    u := FrameWritten(StoresEveryFrame, u);
    u := Then(StoresEveryFrame, u, Finish);
  }

  lemma FrameCopied(r: Receiver, t: seq<Action>) returns (u: seq<Action>)
    requires var s := Exec(r, t); s.waiter == Woken && !HandlerHolds(s)
    ensures u == t + COPY
    ensures var s := Exec(r, t);
            Exec(r, u) == s.(waiter := Copied, copyFirst := s.first, copySecond := s.second)
  {
    u := Then(r, t, WaiterLock);
    u := Then(r, u, CopyFirst);
    u := Then(r, u, CopySecond);
  }

  /** The wait is about to return a frame that is no valid fix. */
  predicate ReturnsInvalid(s: State) {
    Enabled(s, WaiterUnlock) && s.copyFirst < |s.frames| && !s.frames[s.copyFirst]
  }

  // the handler and the waiter without interruption
  function HandlerRun(valid: bool): seq<Action> {
    [Arrive(valid), HandlerLock, StoreFirst, StoreSecond, HandlerUnlock, Finish]
  }

  const COPY := [WaiterLock, CopyFirst, CopySecond]

  /** Whoever waits while the handler is idle is handed the next valid frame, whole, on either
      path. */
  lemma DeliversValidFrames(r: Receiver, t: seq<Action>)
    requires Exec(r, t).handler == Quiet && Exec(r, t).waiter == Waiting
    ensures var s, d := Exec(r, t), Exec(r, t + HandlerRun(true) + COPY);
            Enabled(d, WaiterUnlock) && d.copyFirst == d.copySecond == |s.frames| == Newest(d) && d.frames[d.copyFirst]
  {
    var u := FrameWakes(r, t);
    u := FrameCopied(r, u);
  }

  lemma FrameWakes(r: Receiver, t: seq<Action>) returns (u: seq<Action>)
    requires Exec(r, t).handler == Quiet && Exec(r, t).waiter == Waiting
    ensures u == t + HandlerRun(true)
    ensures var s := Exec(r, t);
            var k := |s.frames|;
            Exec(r, u) == s.(frames := s.frames + [true], first := k, second := k, stored := k,
                             waiter := Woken, gave := s.gave + {k})
  {
    u := FrameLocked(r, t, true);
    u := FrameWritten(r, u);
    u := Then(r, u, Finish);
    assert t + [Arrive(true), HandlerLock] + [StoreFirst, StoreSecond, HandlerUnlock] + [Finish] == t + HandlerRun(true);
  }

  /** An invalid one leaves the wait going; the external path does not even store it. */
  lemma PassesOverInvalidFrames(r: Receiver, t: seq<Action>)
    requires Exec(r, t).handler == Quiet && Exec(r, t).waiter == Waiting
    ensures var s, d := Exec(r, t), Exec(r, t + HandlerRun(false));
            && d.waiter == Waiting && d.handler == Quiet && d.gave == s.gave
            && d.stored == (if r == StoresValidFrames then s.stored else |s.frames|)
  {
    if r == StoresEveryFrame {
      var u := FrameLocked(r, t, false);
      u := FrameWritten(r, u);
      u := Then(r, u, Finish);
      assert u == t + HandlerRun(false);
    } else {
      FrameDropped(r, t);
    }
  }

  /** What is left of a handler run once its frame has been dropped. */
  const REST := [HandlerLock, StoreFirst, StoreSecond, HandlerUnlock, Finish]

  lemma FrameDropped(r: Receiver, t: seq<Action>)
    requires r == StoresValidFrames && Exec(r, t).handler == Quiet
    ensures var s := Exec(r, t);
            Exec(r, t + HandlerRun(false)) == s.(frames := s.frames + [false])
  {
    var u := Then(r, t, Arrive(false));
    QuietIdles(r, u, 5);
    assert REST[..5] == REST && t + HandlerRun(false) == u + REST;
  }

  lemma Idles(r: Receiver, t: seq<Action>, a: Action)
    requires !Enabled(Exec(r, t), a)
    ensures Exec(r, t + [a]) == Exec(r, t)
  {
    assert (t + [a])[..|t|] == t;
  }

  lemma QuietDisables(s: State, k: nat)
    requires s.handler == Quiet && k < |REST|
    ensures !Enabled(s, REST[k])
  {
  }

  lemma {:induction false} QuietIdles(r: Receiver, t: seq<Action>, n: nat)
    requires Exec(r, t).handler == Quiet && n <= |REST|
    ensures Exec(r, t + REST[..n]) == Exec(r, t)
  {
    if n == 0 {
      assert t + REST[..0] == t;
    } else {
      var c := t + REST[..n - 1];
      QuietIdles(r, t, n - 1);
      QuietDisables(Exec(r, t), n - 1);
      Idles(r, c, REST[n - 1]);
      assert t + REST[..n] == c + [REST[n - 1]];
    }
  }

  /** From every state in which a valid frame has given - whether it has woken the waiter
      already or the waiter has yet to take - one more invalid frame before the copy makes the
      modem's wait return an invalid fix. */
  lemma NextFrameSpoils(t: seq<Action>)
    requires Exec(StoresEveryFrame, t).handler == Quiet
    ensures Exec(StoresEveryFrame, t).waiter == Woken ==>
              ReturnsInvalid(Exec(StoresEveryFrame, t + HandlerRun(false) + COPY))
    ensures Exec(StoresEveryFrame, t).waiter == Armed && Exec(StoresEveryFrame, t).count > 0 ==>
              ReturnsInvalid(Exec(StoresEveryFrame, t + HandlerRun(false) + [Take] + COPY))
  {
    var s := Exec(StoresEveryFrame, t);
    if s.waiter == Woken {
      var u := FrameStored(t, false);
      u := FrameCopied(StoresEveryFrame, u);
    } else if s.waiter == Armed && s.count > 0 {
      var u := FrameStored(t, false);
      u := Then(StoresEveryFrame, u, Take);
      u := FrameCopied(StoresEveryFrame, u);
    }
  }

  /** The shortest such run, with nothing between the take and the copy. */
  lemma SpoiledBeforeTheTake() returns (t: seq<Action>)
    ensures t == [Reset] + HandlerRun(true) + HandlerRun(false) + [Take] + COPY
    ensures ReturnsInvalid(Exec(StoresEveryFrame, t))
  {
    var u := Then(StoresEveryFrame, [], Reset);
    assert [] + [Reset] == [Reset];
    assert Exec(StoresEveryFrame, u).waiter == Armed;
    u := FrameStored(u, true);
    NextFrameSpoils(u);
    t := u + HandlerRun(false) + [Take] + COPY;
  }

  predicate EndsInvalid(r: Receiver, t: seq<Action>) {
    ReturnsInvalid(Exec(r, t))
  }

  /** Such runs exist, so gnss_modem_wait_fix() can return an invalid fix; the external path
      cannot. */
  lemma OnlyTheModemReturnsInvalid(r: Receiver)
    ensures (exists t :: EndsInvalid(r, t)) <==> r == StoresEveryFrame
  {
    if r == StoresEveryFrame {
      var t := SpoiledBeforeTheTake();
      assert EndsInvalid(r, t);
    } else {
      forall t
        ensures !EndsInvalid(r, t)
      {
        if Enabled(Exec(r, t), WaiterUnlock) {
          var _, _ := ReturnedFix(r, t, Exec(r, t));
        }
      }
    }
  }
}
