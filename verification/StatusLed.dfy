/** status_led.c: a colour for connectivity, and a pattern for the power source blinked by a
    delayable work item. The handler is one atomic step: it is cancelled synchronously before
    the main thread takes over. Times are in milliseconds. */
module StatusLed {
  import Arithmetic
  import Battery

  datatype Status = Off | NoLte | LteNoFix | LteFix

  datatype Pattern = Solid | Charging | OnBattery

  datatype Delay = Forever | After(ms: nat)

  /** The Kconfig timings (all at least 20 ms) and whether the flash goes on through a sleep. */
  datatype Timing = Timing(blinkMs: nat, flashOnMs: nat, flashOffMs: nat, onInSleep: bool)

  predicate Sane(g: Timing) {
    0 < g.blinkMs && 0 < g.flashOnMs && 0 < g.flashOffMs
  }

  /** status_led.c's variables, when the blink work next runs, the time, and for how long the
      LED has been seen lit in all. */
  datatype State = State(
    available: bool, status: Status, pattern: Pattern, blinking: bool, lit: bool,
    due: Delay, now: nat, glow: nat)

  /** phase_delay() */
  function PhaseDelay(g: Timing, p: Pattern, nowLit: bool): Delay {
    match p
    case Charging => After(g.blinkMs)
    case OnBattery => After(if nowLit then g.flashOnMs else g.flashOffMs)
    case Solid => Forever
  }

  /** Rescheduling makes the work pending with a finite delay, or never. */
  function Reschedule(s: State, d: Delay): State {
    s.(due := if d == Forever then Forever else After(s.now + d.ms))
  }

  /** What an observer sees: apply(false) and the OFF status both drive every channel off. */
  predicate Shines(s: State) {
    s.lit && s.status != Off
  }

  function StopBlink(s: State): State {
    s.(blinking := false, due := Forever)
  }

  /** status_led_set() */
  function Set(g: Timing, s: State, status: Status): State {
    if !s.available then s
    else
      var t := if status == Off then StopBlink(s.(status := status)) else s.(status := status);
      var u := t.(lit := true);
      if u.blinking then Reschedule(u, PhaseDelay(g, u.pattern, true)) else u
  }

  /** status_led_pattern() */
  function Show(g: Timing, s: State, p: Pattern): State {
    if !s.available || (p == s.pattern && (p != Solid) == s.blinking) then s
    else if p == Solid then StopBlink(s.(pattern := p)).(lit := true)
    else Reschedule(s.(pattern := p, blinking := true, lit := true), PhaseDelay(g, p, true))
  }

  /** status_led_sleep() */
  function Sleep(g: Timing, s: State): State {
    if g.onInSleep then s else Set(g, s, Off)
  }

  /** status_led_report(): set the colour, then the pattern. */
  function Report(g: Timing, s: State, status: Status, p: Pattern): State {
    Show(g, Set(g, s, status), p)
  }

  /** blink_work_handler() */
  function Fire(g: Timing, s: State): State {
    Reschedule(s.(lit := !s.lit), PhaseDelay(g, s.pattern, !s.lit))
  }

  function Pass(s: State, ms: nat): State {
    s.(now := s.now + ms, glow := s.glow + if Shines(s) then ms else 0)
  }

  /** The work is pending with a finite delay exactly while blinking, and then the pattern is
      not SOLID. */
  ghost predicate Valid(s: State) {
    && (s.blinking <==> s.due != Forever)
    && (s.blinking ==> s.pattern != Solid)
    && (!s.blinking && s.available && s.pattern == Solid && s.status != Off ==> s.lit)
  }

  /** The handler is not late. */
  ghost predicate OnTime(s: State) {
    Valid(s) && (s.blinking ==> s.now < s.due.ms)
  }

  /** Time passing without calls: the handler runs whenever it falls due. */
  function Elapse(g: Timing, s: State, ms: nat): (r: State)
    requires Sane(g) && OnTime(s)
    ensures OnTime(r) && r.now == s.now + ms
    ensures r.pattern == s.pattern && r.status == s.status && r.blinking == s.blinking
    ensures r.available == s.available
    decreases ms
  {
    if s.due == Forever || s.now + ms < s.due.ms then Pass(s, ms)
    else
      var step := s.due.ms - s.now;
      Elapse(g, Fire(g, Pass(s, step)), ms - step)
  }

  // ---------------------------------------------------------------- every call sequence

  /** Calls from the main thread, time passing, and the handler getting its turn: at or after
      the time it is due, however late. */
  datatype Call = DoSet(status: Status) | DoShow(p: Pattern) | DoSleep | Tick(ms: nat) | Handler

  function Apply(g: Timing, s: State, c: Call): (r: State)
    requires Sane(g) && Valid(s)
    ensures Valid(r) && r.available == s.available
  {
    match c
    case DoSet(status) => Set(g, s, status)
    case DoShow(p) => Show(g, s, p)
    case DoSleep => Sleep(g, s)
    case Tick(ms) => Pass(s, ms)
    case Handler => if s.due != Forever && s.due.ms <= s.now then Fire(g, s) else s
  }

  /** status_led_init() leaves the colour OFF and the pattern SOLID. */
  function Boot(available: bool): State {
    State(available, Off, Solid, false, available, Forever, 0, 0)
  }

  /** A sequence of them, in any order. */
  function Play(g: Timing, s: State, calls: seq<Call>): (r: State)
    requires Sane(g) && Valid(s)
    ensures Valid(r) && r.available == s.available
    decreases |calls|
  {
    if calls == [] then s else Play(g, Apply(g, s, calls[0]), calls[1..])
  }

  function Exec(g: Timing, available: bool, calls: seq<Call>): (r: State)
    requires Sane(g)
    ensures Valid(r) && r.available == available
  {
    Play(g, Boot(available), calls)
  }

  /** The sequence in which the handler is never late is the one `Elapse` plays. */
  function Punctual(g: Timing, s: State, ms: nat): seq<Call>
    requires Sane(g) && OnTime(s)
    decreases ms
  {
    if s.due == Forever || s.now + ms < s.due.ms then [Tick(ms)]
    else
      var step := s.due.ms - s.now;
      [Tick(step), Handler] + Punctual(g, Fire(g, Pass(s, step)), ms - step)
  }

  lemma {:induction false} ElapseIsPunctual(g: Timing, s: State, ms: nat)
    requires Sane(g) && OnTime(s)
    ensures Play(g, s, Punctual(g, s, ms)) == Elapse(g, s, ms)
    decreases ms
  {
    if s.due == Forever || s.now + ms < s.due.ms {
      assert Play(g, s, [Tick(ms)]) == Play(g, Pass(s, ms), []);
    } else {
      var step := s.due.ms - s.now;
      var at := Pass(s, step);
      var rest := Punctual(g, Fire(g, at), ms - step);
      ElapseIsPunctual(g, Fire(g, at), ms - step);
      var calls := [Tick(step), Handler] + rest;
      assert calls[1..] == [Handler] + rest && calls[1..][1..] == rest;
      assert Play(g, s, calls) == Play(g, at, [Handler] + rest);
      assert ([Handler] + rest)[1..] == rest;
      assert Play(g, at, [Handler] + rest) == Play(g, Fire(g, at), rest);
    }
  }

  // ---------------------------------------------------------------- what is seen

  /** While nothing blinks, what is seen does not change. */
  lemma StillWithoutBlink(g: Timing, s: State, ms: nat)
    requires Sane(g) && OnTime(s) && !s.blinking
    ensures Shines(Elapse(g, s, ms)) == Shines(s)
    ensures Elapse(g, s, ms).glow == s.glow + if Shines(s) then ms else 0
  {
  }

  /** A blinking LED that shines goes dark when the handler falls due. */
  lemma BlinkGoesDark(g: Timing, s: State)
    requires Sane(g) && OnTime(s) && s.blinking && s.lit
    ensures !Shines(Elapse(g, s, s.due.ms - s.now))
  {
    var ms := s.due.ms - s.now;
    var f := Fire(g, Pass(s, ms));
    assert OnTime(f) && !f.lit;
    assert Elapse(g, s, ms) == Elapse(g, f, 0) == Pass(f, 0);
  }

  lemma ReportOutcome(g: Timing, s: State, status: Status, p: Pattern)
    requires Sane(g) && Valid(s) && s.available && status != Off
    ensures var r := Report(g, s, status, p);
            OnTime(r) && r.lit && Shines(r) && (r.blinking <==> p != Solid)
  {
  }

  /** After every status report the LED is lit at once, and stays lit for ever exactly when the
      pattern is SOLID. */
  lemma LitForeverExactlyWhenSolid(g: Timing, s: State, status: Status, p: Pattern)
    requires Sane(g) && Valid(s) && s.available && status != Off
    ensures var r := Report(g, s, status, p);
            OnTime(r) && Shines(r) && ((forall ms :: Shines(Elapse(g, r, ms))) <==> p == Solid)
  {
    var r := Report(g, s, status, p);
    ReportOutcome(g, s, status, p);
    if p == Solid {
      forall ms
        ensures Shines(Elapse(g, r, ms))
      {
        StillWithoutBlink(g, r, ms);
      }
    } else {
      BlinkGoesDark(g, r);
    }
  }

  /** Blanked before a sleep, the LED stays dark for the whole sleep, whatever came before. */
  lemma DarkThroughSleep(g: Timing, s: State, ms: nat)
    requires Sane(g) && Valid(s) && s.available && !g.onInSleep
    ensures var r := Sleep(g, s);
            OnTime(r) && !Shines(Elapse(g, r, ms)) && Elapse(g, r, ms).glow == s.glow
  {
    StillWithoutBlink(g, Sleep(g, s), ms);
  }

  /** A shining LED goes dark for a sleep exactly when the build does not keep it on; otherwise the
      sleep changes nothing of what is seen. */
  lemma SleepDarkensExactly(g: Timing, s: State, ms: nat)
    requires Sane(g) && OnTime(s) && s.available && Shines(s)
    ensures OnTime(Sleep(g, s)) && (Shines(Sleep(g, s)) <==> g.onInSleep)
    ensures g.onInSleep ==> Elapse(g, Sleep(g, s), ms) == Elapse(g, s, ms)
  {
  }

  // ---------------------------------------------------------------- the blinking patterns

  /** How long a blinking pattern is lit and dark in turn: charging blinks evenly, the battery
      pattern flashes. */
  function LitMs(g: Timing, p: Pattern): nat {
    if p == Charging then g.blinkMs else g.flashOnMs
  }

  function DarkMs(g: Timing, p: Pattern): nat {
    if p == Charging then g.blinkMs else g.flashOffMs
  }

  /** The start of a period of one. */
  predicate PeriodStarts(g: Timing, s: State, p: Pattern) {
    && s.available && s.status != Off && s.pattern == p && s.blinking && s.lit
    && s.due == After(s.now + LitMs(g, p))
  }

  /** One period later. */
  function NextPeriod(g: Timing, s: State, p: Pattern): State {
    var on, off := LitMs(g, p), DarkMs(g, p);
    s.(now := s.now + on + off, glow := s.glow + on, due := After(s.now + on + off + on))
  }

  lemma OnePeriod(g: Timing, s: State, p: Pattern, ms: nat)
    requires Sane(g) && OnTime(s) && PeriodStarts(g, s, p)
    ensures var t := NextPeriod(g, s, p);
            && OnTime(t) && PeriodStarts(g, t, p)
            && Elapse(g, s, LitMs(g, p) + DarkMs(g, p) + ms) == Elapse(g, t, ms)
  {
    var on, off := LitMs(g, p), DarkMs(g, p);
    var dark := Fire(g, Pass(s, on));
    assert dark.due == After(s.now + on + off) && !Shines(dark);
    assert OnTime(dark);
    assert Elapse(g, s, on + off + ms) == Elapse(g, dark, off + ms);
    var t := Fire(g, Pass(dark, off));
    assert Elapse(g, dark, off + ms) == Elapse(g, t, ms);
  }

  lemma {:induction false} PeriodsFollow(g: Timing, s: State, p: Pattern, k: nat)
    requires Sane(g) && OnTime(s) && PeriodStarts(g, s, p)
    ensures var r := Elapse(g, s, Arithmetic.Multiple(k, LitMs(g, p) + DarkMs(g, p)));
            PeriodStarts(g, r, p) && r.glow == s.glow + Arithmetic.Multiple(k, LitMs(g, p))
    decreases k
  {
    if k == 0 {
      assert Elapse(g, s, 0) == Pass(s, 0);
    } else {
      OnePeriod(g, s, p, Arithmetic.Multiple(k - 1, LitMs(g, p) + DarkMs(g, p)));
      PeriodsFollow(g, NextPeriod(g, s, p), p, k - 1);
    }
  }

  /** k full periods are lit for exactly k times the lit time. */
  lemma BlinkDuty(g: Timing, s: State, p: Pattern, k: nat)
    requires Sane(g) && OnTime(s) && PeriodStarts(g, s, p)
    ensures var r := Elapse(g, s, k * (LitMs(g, p) + DarkMs(g, p)));
            PeriodStarts(g, r, p) && r.glow == s.glow + k * LitMs(g, p)
  {
    PeriodsFollow(g, s, p, k);
    Arithmetic.MultipleIsProduct(k, LitMs(g, p) + DarkMs(g, p));
    Arithmetic.MultipleIsProduct(k, LitMs(g, p));
  }

  /** Every status report with a blinking pattern starts a period, so from then on, undisturbed,
      k periods are lit k times: half the time when charging, for k flashes on battery. */
  lemma ReportBlinks(g: Timing, s: State, status: Status, p: Pattern, k: nat)
    requires Sane(g) && Valid(s) && s.available && status != Off && p != Solid
    ensures var r := Report(g, s, status, p);
            && OnTime(r) && PeriodStarts(g, r, p)
            && Elapse(g, r, k * (LitMs(g, p) + DarkMs(g, p))).glow == s.glow + k * LitMs(g, p)
  {
    BlinkDuty(g, Report(g, s, status, p), p, k);
  }

  // ---------------------------------------------------------------- the colour

  /** status_led_report(): the status for the network and the fix. */
  function StatusFor(registered: bool, haveFix: bool): Status {
    if !registered then NoLte else if haveFix then LteFix else LteNoFix
  }

  /** apply(): which channels are driven. Yellow is both. */
  predicate Red(s: State) {
    s.lit && (s.status == NoLte || s.status == LteNoFix)
  }

  predicate Green(s: State) {
    s.lit && (s.status == LteFix || s.status == LteNoFix)
  }

  lemma ReportShowsStatus(g: Timing, s: State, status: Status, p: Pattern)
    requires Sane(g) && Valid(s) && s.available
    ensures Report(g, s, status, p).status == status && Report(g, s, status, p).pattern == p
  {
  }

  /** After a status report, until the next call: while the LED shines it is green exactly when the
      modem is registered, and red exactly when it is not or there is no fix; in between neither
      channel is driven. */
  lemma ColoursExactly(g: Timing, s: State, registered: bool, haveFix: bool, p: Pattern, ms: nat)
    requires Sane(g) && Valid(s) && s.available
    ensures OnTime(Report(g, s, StatusFor(registered, haveFix), p))
    ensures var r := Elapse(g, Report(g, s, StatusFor(registered, haveFix), p), ms);
            && (Green(r) <==> Shines(r) && registered)
            && (Red(r) <==> Shines(r) && !(registered && haveFix))
  {
    ReportOutcome(g, s, StatusFor(registered, haveFix), p);
    ReportShowsStatus(g, s, StatusFor(registered, haveFix), p);
  }

  // ---------------------------------------------------------------- led_pattern()

  datatype Reading = Unreadable | Reading(battMv: nat, complete: bool)

  /** main.c: the pattern for a supply and a charger reading. */
  function PatternFor(vbus: bool, r: Reading, fullPercent: nat): Pattern {
    if !vbus then OnBattery
    else if r == Unreadable then Charging
    else if r.complete || Battery.Percent(r.battMv) > fullPercent then Solid
    else Charging
  }

  /** So after a status report the LED stays lit for ever exactly when the tracker is externally
      powered and its battery readable and full; and on battery it flashes. */
  lemma SolidMeansFull(g: Timing, s: State, status: Status, vbus: bool, r: Reading, fullPercent: nat)
    requires Sane(g) && Valid(s) && s.available && status != Off
    ensures var t := Report(g, s, status, PatternFor(vbus, r, fullPercent));
            && OnTime(t)
            && ((forall ms :: Shines(Elapse(g, t, ms)))
                <==> vbus && r.Reading? && (r.complete || Battery.Percent(r.battMv) > fullPercent))
            && (!vbus <==> PeriodStarts(g, t, OnBattery))
  {
    var p := PatternFor(vbus, r, fullPercent);
    LitForeverExactlyWhenSolid(g, s, status, p);
    ReportShowsStatus(g, s, status, p);
    if !vbus {
      ReportBlinks(g, s, status, p, 0);
    }
  }

  /** The same with "full" as the Kconfig text has it: at or above the threshold. */
  function PatternAtOrAbove(vbus: bool, r: Reading, fullPercent: nat): Pattern {
    if !vbus then OnBattery
    else if r == Unreadable then Charging
    else if r.complete || Battery.Percent(r.battMv) >= fullPercent then Solid
    else Charging
  }

  /** The two agree exactly unless a powered battery, not reported complete, is right at the
      threshold. */
  lemma StrictnessShowsExactly(vbus: bool, r: Reading, fullPercent: nat)
    ensures PatternFor(vbus, r, fullPercent) == PatternAtOrAbove(vbus, r, fullPercent)
            <==> !vbus || r == Unreadable || r.complete || Battery.Percent(r.battMv) != fullPercent
  {
  }

  const FULL_PERCENT_DEFAULT := 95

  lemma KnownPercents()
    ensures Battery.Percent(4124) == 94 && Battery.Percent(4125) == 95
    ensures Battery.Percent(4139) == 95 && Battery.Percent(4140) == 96
  {
    Battery.PercentNearFull(4124);
    Battery.PercentNearFull(4125);
    Battery.PercentNearFull(4139);
    Battery.PercentNearFull(4140);
  }

  /** At the default threshold those are the batteries from 4125 to 4139 mV. */
  lemma DefaultThresholdWindow(mV: nat)
    ensures PatternFor(true, Reading(mV, false), FULL_PERCENT_DEFAULT)
            != PatternAtOrAbove(true, Reading(mV, false), FULL_PERCENT_DEFAULT)
            <==> 4125 <= mV <= 4139
  {
    KnownPercents();
    if mV <= 4124 {
      Battery.PercentMonotone(mV, 4124);
    } else if mV <= 4139 {
      Battery.PercentMonotone(4125, mV);
      Battery.PercentMonotone(mV, 4139);
    } else {
      Battery.PercentMonotone(4140, mV);
    }
  }

  /** A higher voltage never turns SOLID back into blinking. */
  lemma FullIsMonotone(low: nat, high: nat, fullPercent: nat)
    requires low <= high
    ensures PatternFor(true, Reading(low, false), fullPercent) == Solid ==>
              PatternFor(true, Reading(high, false), fullPercent) == Solid
  {
    Battery.PercentMonotone(low, high);
  }

  // ---------------------------------------------------------------- the program

  class Led {
    var available: bool
    var currentStatus: Status
    var currentPattern: Pattern
    var blinking: bool
    var lit: bool
    var due: Delay
    var now: nat
    ghost var glow: nat

    ghost function Model(): State
      reads this
    {
      State(available, currentStatus, currentPattern, blinking, lit, due, now, glow)
    }

    constructor (ready: bool)
      ensures Model() == Boot(ready)
    {
      available, currentStatus, currentPattern := ready, Off, Solid;
      blinking, lit, due, now, glow := false, ready, Forever, 0, 0;
    }

    method RescheduleWork(g: Timing, nowLit: bool)
      modifies this`due
      ensures Model() == Reschedule(old(Model()), PhaseDelay(g, currentPattern, nowLit))
    {
      match PhaseDelay(g, currentPattern, nowLit)
      case Forever => due := Forever;
      case After(ms) => due := After(now + ms);
    }

    method SetStatus(g: Timing, status: Status)
      modifies this
      ensures Model() == Set(g, old(Model()), status)
    {
      if !available {
        return;
      }
      currentStatus := status;
      if status == Off {
        blinking, due := false, Forever;
      }
      lit := true;
      if blinking {
        RescheduleWork(g, true);
      }
    }

    method SetPattern(g: Timing, pattern: Pattern)
      modifies this
      ensures Model() == Show(g, old(Model()), pattern)
    {
      if !available {
        return;
      }
      var wantBlink := pattern != Solid;
      if pattern == currentPattern && wantBlink == blinking {
        return;
      }
      currentPattern := pattern;
      if pattern == Solid {
        blinking, due := false, Forever;
        lit := true;
        return;
      }
      blinking := true;
      lit := true;
      RescheduleWork(g, true);
    }

    method BlankForSleep(g: Timing)
      modifies this
      ensures Model() == Sleep(g, old(Model()))
    {
      if !g.onInSleep {
        SetStatus(g, Off);
      }
    }

    method BlinkHandler(g: Timing)
      modifies this
      ensures Model() == Fire(g, old(Model()))
    {
      lit := !lit;
      RescheduleWork(g, lit);
    }
  }
}
