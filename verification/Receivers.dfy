/** gnss.c, gnss_ext.c and the start and stop of gnss_modem.c: which receiver owns a cycle, and
    what the hardware is really doing while that is decided.

    Every hardware call that takes effect appends what it left behind to `seen`, so a property
    of `seen` is a property of every intermediate step. A fault makes one call fail and leaves
    the hardware as it was; the C code ignores the result of suspending the UART and of
    stopping the modem's receiver. */
module Receivers {

  datatype Source = Modem | External

  /** The module's supply, its UART, the NMEA driver's pipe, and the modem's own receiver. */
  datatype Hardware = Hardware(pin: bool, uart: bool, pipe: bool, modem: bool)

  datatype View = View(active: Source, hw: Hardware)

  /** `active`, `usable` and `powered` are the program's variables. */
  datatype State = State(active: Source, usable: bool, powered: bool, hw: Hardware, seen: seq<View>)

  /** What boot leaves: nothing powered, nothing running. */
  function Boot(usable: bool): State {
    State(if usable then External else Modem, usable, false, Hardware(false, false, false, false), [])
  }

  /** Which of the calls made while starting a receiver fail. */
  datatype StartFaults = StartFaults(
    power: bool, resume: bool, attach: bool, suspend: bool, powerOff: bool, modem: bool)

  /** Which of the calls made while stopping one fail. */
  datatype StopFaults = StopFaults(suspend: bool, power: bool, modem: bool)

  // ---------------------------------------------------------------- what must hold

  /** The UART is active only while the module is powered, and a receiver that runs is the
      active one - so at most one runs. The UART is what gates the external receiver. */
  predicate Safe(v: View) {
    && (v.hw.uart ==> v.hw.pin && v.active == External)
    && (v.hw.modem ==> v.active == Modem)
  }

  predicate Now(s: State) {
    Safe(View(s.active, s.hw))
  }

  predicate Silent(s: State) {
    !s.hw.uart && !s.hw.modem
  }

  /** The receiver the program takes to be running is the only one that is. */
  predicate Running(s: State) {
    if s.active == External then s.hw.pin && s.hw.uart && s.hw.pipe && !s.hw.modem else s.hw.modem && !s.hw.uart
  }

  ghost predicate AllSafe(s: State) {
    && (forall v :: v in s.seen ==> Safe(v))
    && s.powered == s.hw.pin
    && (s.active == External ==> s.usable)
    && (!s.usable ==> !s.hw.pin)
  }

  // ---------------------------------------------------------------- hardware calls

  function Touch(s: State, hw: Hardware): (t: State)
    ensures s.seen <= t.seen
  {
    s.(hw := hw, seen := s.seen + [View(s.active, hw)])
  }

  function PowerSet(s: State, on: bool, fault: bool): (t: State)
    ensures s.seen <= t.seen
  {
    if fault then s else Touch(s.(powered := on), s.hw.(pin := on))
  }

  function UartSet(s: State, on: bool, fault: bool): (t: State)
    ensures s.seen <= t.seen
  {
    if fault then s else Touch(s, s.hw.(uart := on))
  }

  function ModemSet(s: State, on: bool, fault: bool): (t: State)
    ensures s.seen <= t.seen
  {
    if fault then s else Touch(s, s.hw.(modem := on))
  }

  // ---------------------------------------------------------------- the operations

  /** gnss_ext_start(): supply, warm-up, UART, driver pipe. */
  function ExtStart(s: State, f: StartFaults): (r: (State, bool))
    ensures s.seen <= r.0.seen
  {
    var p := if s.powered then s else PowerSet(s, true, f.power);
    if !p.powered then (p, false)
    else if f.resume then (PowerSet(p, false, f.powerOff), false)
    else
      var u := UartSet(p, true, false);
      if f.attach then (PowerSet(UartSet(u, false, f.suspend), false, f.powerOff), false)
      else (Touch(u, u.hw.(pipe := true)), true)
  }

  /** Whether that start paid the warm-up. */
  function Warms(s: State, f: StartFaults): bool {
    s.usable && !s.powered && !f.power
  }

  function ExtStop(s: State, powerOff: bool, f: StopFaults): (t: State)
    ensures s.seen <= t.seen
  {
    var u := UartSet(s, false, f.suspend);
    if powerOff then PowerSet(u, false, f.power) else u
  }

  /** gnss_start(): the external module when it is usable, else or on failure the modem. */
  function Start(s: State, f: StartFaults): (r: (State, bool))
    ensures s.seen <= r.0.seen
  {
    var (e, ok) := if s.usable then ExtStart(s.(active := External), f) else (s, false);
    if ok then (e, true) else (ModemSet(e.(active := Modem), true, f.modem), !f.modem)
  }

  function Stop(s: State, powerCycle: bool, f: StopFaults): (t: State)
    ensures s.seen <= t.seen
  {
    if s.active == External then ExtStop(s, powerCycle, f) else ModemSet(s, false, f.modem)
  }

  /** gnss_fallback(), once gnss_fallback_available() has said yes. */
  function Fallback(s: State, stop: StopFaults, startFault: bool): (r: (State, bool))
    ensures s.seen <= r.0.seen
  {
    (ModemSet(ExtStop(s, true, stop).(active := Modem), true, startFault), !startFault)
  }

  /** agnss.c around its download: stop the modem's receiver, and start it again afterwards. */
  function Bounce(s: State, stopFault: bool, startFault: bool): (r: (State, bool))
    ensures s.seen <= r.0.seen
  {
    (ModemSet(ModemSet(s, false, stopFault), true, startFault), !startFault)
  }

  /** Boot leaves everything off, and the external module in charge exactly when it came up. */
  lemma BootIsQuiet(usable: bool)
    ensures var s := Boot(usable);
            && AllSafe(s) && Now(s) && Silent(s) && !s.hw.pin
            && (s.active == External <==> usable) && s.usable == usable
  {
  }

  // ---------------------------------------------------------------- one operation

  /** Stopping and powering down is safe at every step exactly when the UART was idle, its
      suspend took effect, or the supply stayed on. */
  lemma ExtStopExactlySafe(s: State, powerOff: bool, f: StopFaults)
    requires AllSafe(s) && Now(s)
    ensures AllSafe(ExtStop(s, powerOff, f)) && Now(ExtStop(s, powerOff, f))
            <==> !(s.hw.uart && f.suspend && powerOff && !f.power)
    ensures ExtStop(s, powerOff, f).hw.uart == (s.hw.uart && f.suspend)
  {
    var u := UartSet(s, false, f.suspend);
    assert View(u.active, u.hw.(pin := false)) in (u.seen + [View(u.active, u.hw.(pin := false))]);
  }

  /** Starting has to take back a UART resume, and that suspend fails. */
  predicate StartBreaks(s: State, f: StartFaults) {
    s.usable && (s.powered || !f.power) && !f.resume && f.attach && f.suspend
  }

  lemma ExtStartExactlySafe(s: State, f: StartFaults)
    requires AllSafe(s) && Now(s) && Silent(s) && s.usable && s.active == External
    ensures var (t, ok) := ExtStart(s, f);
            && (!StartBreaks(s, f) ==> AllSafe(t) && Now(t) && !t.hw.modem && (!ok ==> Silent(t)))
            && (StartBreaks(s, f) ==> t.hw.uart && !ok)
  {
  }

  /** Starting from silence is safe at every step exactly when that does not happen. */
  lemma StartExactlySafe(s: State, f: StartFaults)
    requires AllSafe(s) && Now(s) && Silent(s)
    ensures AllSafe(Start(s, f).0) && Now(Start(s, f).0) <==> !StartBreaks(s, f)
  {
    if s.usable {
      ExtStartExactlySafe(s.(active := External), f);
    }
  }

  /** If it succeeds the active receiver is the one that runs. If it fails nothing runs and the
      modem was tried last. */
  lemma StartOutcome(s: State, f: StartFaults)
    requires AllSafe(s) && Now(s) && Silent(s)
    ensures var (t, ok) := Start(s, f);
            && (!StartBreaks(s, f) ==>
                  AllSafe(t) && Now(t) && (ok ==> Running(t)) && (!ok ==> Silent(t) && t.active == Modem))
  {
    StartExactlySafe(s, f);
  }

  /** The stop of a receiver that runs does not take effect. */
  predicate StopBreaks(s: State, f: StopFaults) {
    (s.hw.uart && f.suspend) || (s.hw.modem && f.modem)
  }

  /** A stop is safe at every step and leaves nothing running exactly when that does not happen. */
  lemma StopExactlyQuiet(s: State, powerCycle: bool, f: StopFaults)
    requires AllSafe(s) && Now(s)
    ensures var t := Stop(s, powerCycle, f);
            && (AllSafe(t) && Now(t) && Silent(t) <==> !StopBreaks(s, f))
            && (Silent(t) <==> !StopBreaks(s, f))
            && t.active == s.active && t.usable == s.usable
  {
  }

  /** Falling back is safe at every step exactly when the UART's suspend takes effect; it then
      leaves the modem running, or nothing. */
  lemma FallbackExactlySafe(s: State, f: StopFaults, startFault: bool)
    requires AllSafe(s) && Now(s) && Running(s) && s.active == External
    ensures var (t, ok) := Fallback(s, f, startFault);
            && (AllSafe(t) && Now(t) <==> !f.suspend)
            && (!f.suspend ==> (ok <==> Running(t)) && (!ok ==> Silent(t)))
            && t.active == Modem && t.usable == s.usable
            && (f.suspend ==> Doomed(t))
  {
    if f.suspend {
      var t := Fallback(s, f, startFault).0;
      if !f.power {
        assert View(External, s.hw.(pin := false)) in t.seen;
      } else if !startFault {
        assert View(Modem, s.hw.(modem := true)) in t.seen;
      }
    }
  }

  lemma BounceSafe(s: State, stopFault: bool, startFault: bool)
    requires AllSafe(s) && Now(s) && s.active == Modem
    ensures var (t, ok) := Bounce(s, stopFault, startFault);
            && AllSafe(t) && Now(t) && (ok ==> Running(t))
            && t.active == Modem && t.usable == s.usable
  {
  }

  // ---------------------------------------------------------------- the supply, whatever fails

  /** The start gets as far as a powered module. */
  predicate ComesOn(s: State, f: StartFaults) {
    s.usable && (s.hw.pin || !f.power)
  }

  lemma ExtStartSupply(s: State, f: StartFaults)
    requires s.powered == s.hw.pin
    ensures var (t, ok) := ExtStart(s, f);
            var on := s.hw.pin || !f.power;
            && t.powered == t.hw.pin && t.usable == s.usable
            && (ok <==> on && !f.resume && !f.attach)
            && (t.hw.pin <==> on && (f.resume || f.attach ==> f.powerOff))
  {
    var p := if s.powered then s else PowerSet(s, true, f.power);
    assert p.powered == p.hw.pin == (s.hw.pin || !f.power);
  }

  /** `powered` keeps telling the supply. The external module is active after a start exactly when
      it came up, and is then on; one that came on and had to be undone is on exactly when the
      switch failed. */
  lemma StartSupply(s: State, f: StartFaults)
    requires s.powered == s.hw.pin
    ensures var (t, ok) := Start(s, f);
            && t.powered == t.hw.pin && t.usable == s.usable
            && (t.active == External <==> ComesOn(s, f) && !f.resume && !f.attach)
            && (t.active == External ==> ok)
            && (t.hw.pin <==> if ComesOn(s, f) then (f.resume || f.attach ==> f.powerOff) else s.hw.pin)
  {
    if s.usable {
      ExtStartSupply(s.(active := External), f);
    }
  }

  /** A stop cuts the supply only of an active external module, only with POWER_CYCLE, and then
      exactly when the switch works - whatever the UART's suspend returned. */
  lemma StopSupply(s: State, powerCycle: bool, f: StopFaults)
    requires s.powered == s.hw.pin
    ensures var t := Stop(s, powerCycle, f);
            && t.powered == t.hw.pin && t.active == s.active && t.usable == s.usable
            && (t.hw.pin <==> s.hw.pin && (s.active == External && powerCycle ==> f.power))
  {
  }

  /** A fallback always cuts it, and the modem is active from then on. */
  lemma FallbackSupply(s: State, f: StopFaults, startFault: bool)
    requires s.powered == s.hw.pin
    ensures var (t, ok) := Fallback(s, f, startFault);
            && t.powered == t.hw.pin && t.active == Modem && t.usable == s.usable
            && (t.hw.pin <==> s.hw.pin && f.power)
  {
  }

  /** A download leaves it alone. */
  predicate SameSupply(s: State, t: State) {
    t.active == s.active && t.usable == s.usable && t.powered == s.powered && t.hw.pin == s.hw.pin
  }

  // ---------------------------------------------------------------- what cannot be mended

  /** An unsafe step has been taken, or the UART is active although the modem owns the cycle. */
  ghost predicate Doomed(s: State) {
    (exists v :: v in s.seen && !Safe(v)) || (s.hw.uart && s.active == Modem)
  }

  lemma StartDooms(s: State, f: StartFaults)
    requires AllSafe(s) && Now(s) && Silent(s) && StartBreaks(s, f)
    ensures Doomed(Start(s, f).0)
  {
    var e := s.(active := External);
    var p := if e.powered then e else PowerSet(e, true, f.power);
    var u := UartSet(p, true, false);
    var t := Start(s, f).0;
    if !f.powerOff {
      assert View(External, u.hw.(pin := false)) in t.seen;
    } else if !f.modem {
      assert View(Modem, u.hw.(modem := true)) in t.seen;
    }
  }

  /** Within a cycle nothing takes that back. */
  lemma DoomedStays(s: State, stopFault: bool, startFault: bool, powerCycle: bool, f: StopFaults)
    requires Doomed(s)
    ensures s.active == Modem ==> Doomed(Bounce(s, stopFault, startFault).0)
    ensures Doomed(Stop(s, powerCycle, f))
    ensures s.active == External ==> exists v :: v in s.seen && !Safe(v)
  {
    if v :| v in s.seen && !Safe(v) {
      assert v in Bounce(s, stopFault, startFault).0.seen && v in Stop(s, powerCycle, f).seen;
    }
  }

  // ---------------------------------------------------------------- the program

  /** gnss.c's two variables, gnss_ext.c's one, and the hardware they stand for. */
  class Gnss {
    var active: Source
    var externalUsable: bool
    var powered: bool
    var hw: Hardware
    ghost var seen: seq<View>

    ghost function Model(): State
      reads this
    {
      State(active, externalUsable, powered, hw, seen)
    }

    /** gnss_init(): the modem's handler must register unless the external module comes up. */
    constructor (usable: bool)
      ensures Model() == Boot(usable)
    {
      active := if usable then External else Modem;
      externalUsable, powered := usable, false;
      hw := Hardware(false, false, false, false);
      seen := [];
    }

    method Drive(next: Hardware)
      modifies this`hw, this`seen
      ensures Model() == Touch(old(Model()), next)
    {
      hw := next;
      seen := seen + [View(active, hw)];
    }

    method SetPower(on: bool, fault: bool)
      modifies this`powered, this`hw, this`seen
      ensures Model() == PowerSet(old(Model()), on, fault)
    {
      if fault {
        return;
      }
      powered := on;
      Drive(hw.(pin := on));
    }

    method SetUart(on: bool, fault: bool)
      modifies this`hw, this`seen
      ensures Model() == UartSet(old(Model()), on, fault)
    {
      if !fault {
        Drive(hw.(uart := on));
      }
    }

    method SetModem(on: bool, fault: bool)
      modifies this`hw, this`seen
      ensures Model() == ModemSet(old(Model()), on, fault)
    {
      if !fault {
        Drive(hw.(modem := on));
      }
    }

    method StartExternal(f: StartFaults) returns (ok: bool, warmed: bool)
      modifies this`powered, this`hw, this`seen
      ensures (Model(), ok) == ExtStart(old(Model()), f)
      ensures warmed == (!old(powered) && !f.power)
    {
      warmed := false;
      if !powered {
        SetPower(true, f.power);
        if !powered {
          return false, false;
        }
        warmed := true;
      }
      if f.resume {
        SetPower(false, f.powerOff);
        return false, warmed;
      }
      SetUart(true, false);
      if f.attach {
        SetUart(false, f.suspend);
        SetPower(false, f.powerOff);
        return false, warmed;
      }
      Drive(hw.(pipe := true));
      ok := true;
    }

    method StopExternal(powerOff: bool, f: StopFaults)
      modifies this`powered, this`hw, this`seen
      ensures Model() == ExtStop(old(Model()), powerOff, f)
    {
      SetUart(false, f.suspend);
      if powerOff {
        SetPower(false, f.power);
      }
    }

    method StartReceiver(f: StartFaults) returns (ok: bool, warmed: bool)
      modifies this
      ensures (Model(), ok) == Start(old(Model()), f)
      ensures warmed == Warms(old(Model()), f)
    {
      warmed := false;
      if externalUsable {
        active := External;
        ok, warmed := StartExternal(f);
        if ok {
          return;
        }
      }
      active := Modem;
      SetModem(true, f.modem);
      ok := !f.modem;
    }

    method StopReceiver(powerCycle: bool, f: StopFaults)
      modifies this
      ensures Model() == Stop(old(Model()), powerCycle, f)
    {
      if active == External {
        StopExternal(powerCycle, f);
        return;
      }
      SetModem(false, f.modem);
    }

    /** gnss_fallback(): powers the module down whatever the power-cycle setting says. */
    method FallBack(f: StopFaults, startFault: bool) returns (ok: bool)
      modifies this
      ensures (Model(), ok) == Fallback(old(Model()), f, startFault)
    {
      StopExternal(true, f);
      active := Modem;
      SetModem(true, startFault);
      ok := !startFault;
    }
  }
}
