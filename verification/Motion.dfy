/** motion.c: the jolt stamp, a 64-bit uptime kept as two 32-bit atomic words, and the arming of
    the accelerometer interrupt.

    The handler stores the high word and then the low word; the report loop loads the low word
    and then the high word. Any number of handler runs may fall between the two loads. */
module Motion {

  const WORD := 0x1_0000_0000
  const INT64 := 0x8000_0000_0000_0000

  // ---------------------------------------------------------------- the split stamp

  datatype Action =
    | StoreHigh(stamp: nat)  // motion_handler reads the uptime and stores its high word
    | StoreLow               // motion_handler stores the low word of the same stamp
    | LoadLow                // motion_last_event_uptime loads the low word
    | LoadHigh               // ... then the high word, and returns the two joined

  /** `high`, `low` and the reader's register `reg` are the memory. `stamps` is the series of
      stamps so far (the first, 0, is "none yet"); `lowOf` and `regOf` say which stamp the low
      word and the register came from, and `value` is what the last read returned. */
  datatype State = State(
    high: nat, low: nat, writing: bool,
    reg: nat, reading: bool, value: nat,
    stamps: seq<nat>, lowOf: nat, regOf: nat)

  const START := State(0, 0, false, 0, false, 0, [0], 0, 0)

  function Last(stamps: seq<nat>): nat
    requires stamps != []
  {
    stamps[|stamps| - 1]
  }

  /** One handler at a time, on a clock that never goes back and fits an int64. */
  predicate Enabled(s: State, a: Action) {
    match a
    case StoreHigh(stamp) => !s.writing && s.stamps != [] && Last(s.stamps) <= stamp < INT64
    case StoreLow => s.writing && s.stamps != []
    case LoadLow => !s.reading
    case LoadHigh => s.reading
  }

  function Join(high: nat, low: nat): nat {
    high * WORD + low
  }

  function Step(s: State, a: Action): State
    requires Enabled(s, a)
  {
    match a
    case StoreHigh(stamp) =>
      s.(high := stamp / WORD, writing := true, stamps := s.stamps + [stamp])
    case StoreLow =>
      s.(low := Last(s.stamps) % WORD, writing := false, lowOf := |s.stamps| - 1)
    case LoadLow => s.(reg := s.low, reading := true, regOf := s.lowOf)
    case LoadHigh => s.(value := Join(s.high, s.reg), reading := false)
  }

  /** The state after a run of steps, or the state where the first impossible one stopped it. */
  function Exec(t: seq<Action>): State {
    if t == [] then START
    else
      var s := Exec(t[..|t| - 1]);
      if Enabled(s, t[|t| - 1]) then Step(s, t[|t| - 1]) else s
  }

  ghost predicate Invariant(s: State) {
    && s.stamps != [] && s.stamps[0] == 0
    && (forall i, j :: 0 <= i <= j < |s.stamps| ==> s.stamps[i] <= s.stamps[j])
    && (forall i :: 0 <= i < |s.stamps| ==> s.stamps[i] < INT64)
    && s.lowOf < |s.stamps| && s.regOf < |s.stamps|
    && (!s.writing ==> s.lowOf == |s.stamps| - 1)
    && s.high == Last(s.stamps) / WORD
    && s.low == s.stamps[s.lowOf] % WORD
    && (s.reading ==> s.reg == s.stamps[s.regOf] % WORD && s.regOf <= s.lowOf)
  }

  lemma {:induction false} InvariantHolds(t: seq<Action>)
    ensures Invariant(Exec(t))
  {
    if t != [] {
      InvariantHolds(t[..|t| - 1]);
      var s := Exec(t[..|t| - 1]);
      var a := t[|t| - 1];
      if Enabled(s, a) && a.StoreHigh? {
        assert forall i :: 0 <= i < |s.stamps| ==> s.stamps[i] <= Last(s.stamps);
      }
    }
  }

  /** The value a read mixes out of the stamp `older` behind its low word and the stamp `newer`
      behind its high word. */
  function Torn(older: nat, newer: nat): nat {
    Join(newer / WORD, older % WORD)
  }

  /** What the report loop reads, over every interleaving: the low word of one stamp under the
      high word of the newest, which is that stamp or a later one. */
  lemma ReadIsTorn(t: seq<Action>, s: State)
    requires s == Exec(t) && Enabled(s, LoadHigh)
    ensures 0 <= s.regOf < |s.stamps|
    ensures s.stamps[s.regOf] <= Last(s.stamps) < INT64
    ensures Step(s, LoadHigh).value == Torn(s.stamps[s.regOf], Last(s.stamps)) < INT64
  {
    InvariantHolds(t);
  }

  /** A torn read is never below the older stamp, is that stamp exactly when the high words
      agree, and - against the comment that it can only make a surge look shorter - lies above
      the newer stamp exactly when the high word moved on and the older low word is larger. */
  lemma TornBounds(older: nat, newer: nat)
    requires older <= newer
    ensures older <= Torn(older, newer)
    ensures Torn(older, newer) == older <==> older / WORD == newer / WORD
    ensures Torn(older, newer) > newer <==> older / WORD < newer / WORD && older % WORD > newer % WORD
  {
  }

  // ---------------------------------------------------------------- the surge decision

  /** The window test of surge_active(): signed, so a stamp ahead of the clock counts as young. */
  predicate InSurge(surgeMs: nat, now: nat, last: nat) {
    last != 0 && (now as int) - (last as int) < surgeMs
  }

  /** The decision taken from a torn read is one of those the two stamps behind it would give. */
  predicate Justified(surgeMs: nat, now: nat, older: nat, newer: nat) {
    InSurge(surgeMs, now, Torn(older, newer)) in {InSurge(surgeMs, now, older), InSurge(surgeMs, now, newer)}
  }

  /** It is justified whenever the newer stamp is inside the window, and at every moment exactly
      when the two stamps share their high word or the older low word is not above the newer. */
  lemma SurgeDecision(surgeMs: nat, older: nat, newer: nat)
    requires older <= newer
    ensures forall now :: newer <= now && InSurge(surgeMs, now, newer) ==> Justified(surgeMs, now, older, newer)
    ensures (forall now :: newer <= now ==> Justified(surgeMs, now, older, newer))
            <==> older / WORD == newer / WORD || older % WORD <= newer % WORD
  {
    TornBounds(older, newer);
    if older / WORD < newer / WORD && older % WORD > newer % WORD {
      assert !Justified(surgeMs, newer + surgeMs, older, newer);
    }
  }

  /** The run behind the wrong decision: a jolt just before the 2^32 ms boundary, one just after
      it stores its high word, and the reader's two loads around that store. */
  function BoundaryRun(): seq<Action> {
    [StoreHigh(WORD - 1), StoreLow, LoadLow, StoreHigh(WORD), StoreLow]
  }

  lemma ExecSnoc(t: seq<Action>, a: Action)
    ensures Exec(t + [a]) == if Enabled(Exec(t), a) then Step(Exec(t), a) else Exec(t)
  {
    assert (t + [a])[..|t|] == t;
  }

  lemma BoundaryReadIsLate()
    ensures Enabled(Exec(BoundaryRun()), LoadHigh)
    ensures Step(Exec(BoundaryRun()), LoadHigh).value == 2 * WORD - 1 > WORD
    ensures Exec(BoundaryRun()).stamps == [0, WORD - 1, WORD]
    ensures !InSurge(600_000, WORD + 600_000, WORD) && InSurge(600_000, WORD + 600_000, 2 * WORD - 1)
  {
    var t, x := BoundaryRun(), WORD - 1;
    assert t[..1] == [] + [t[0]] && t[..2] == t[..1] + [t[1]] && t[..3] == t[..2] + [t[2]];
    assert t[..4] == t[..3] + [t[3]] && t == t[..4] + [t[4]];
    ExecSnoc([], t[0]);
    assert Exec(t[..1]) == State(0, 0, true, 0, false, 0, [0, x], 0, 0);
    ExecSnoc(t[..1], t[1]);
    assert Exec(t[..2]) == State(0, x, false, 0, false, 0, [0, x], 1, 0);
    ExecSnoc(t[..2], t[2]);
    assert Exec(t[..3]) == State(0, x, false, x, true, 0, [0, x], 1, 1);
    ExecSnoc(t[..3], t[3]);
    assert Exec(t[..4]) == State(1, x, true, x, true, 0, [0, x, WORD], 1, 1);
    ExecSnoc(t[..4], t[4]);
    assert Exec(t) == State(1, 0, false, x, true, 0, [0, x, WORD], 2, 1);
  }

  // ---------------------------------------------------------------- arming

  /** The accelerometer interrupt: whether the sensor came up at boot, what the firmware thinks,
      and what the sensor was last told. */
  class Accelerometer {
    var usable: bool
    var armed: bool
    ghost var listening: bool

    constructor (ready: bool)
      ensures usable == ready && !armed && !listening
    {
      usable, armed, listening := ready, false, false;
    }

    /** motion_set_armed(): a change reaches the sensor once and is recorded only if the sensor
        took it, so `armed` always says what the sensor is doing. */
    method SetArmed(arm: bool, fault: bool)
      requires armed == listening
      modifies this`armed, this`listening
      ensures armed == listening
      ensures armed == NextArmed(usable, old(armed), arm, fault)
    {
      if !usable || arm == armed {
        return;
      }
      if fault {
        return;
      }
      listening := arm;
      armed := arm;
    }
  }

  function NextArmed(usable: bool, armed: bool, arm: bool, fault: bool): bool {
    if !usable || arm == armed || fault then armed else arm
  }
}
