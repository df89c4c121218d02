/** watchdog.c: the phase marker that survives a reset.

    Two words of RAM are left alone by the C startup: a magic number and the current phase.
    Boot latches the phase when the magic is there, writes the magic when it is not, and then
    wipes the phase; each store is a step, so that a reset may fall between any two of them. */
module Breadcrumb {

  /** Where the report loop is. The numbers are sent verbatim in telemetry. */
  datatype Phase =
    | NoPhase | WakeUp | Lte | CloudResume | GnssStart | Agnss | Fix | Report | Frequent
    | GnssStop | CloudPause | LedSleep | MotionArm | Sleep | NoNetwork
  {
    function Code(): (n: nat)
      ensures n <= 14
      ensures n == 0 <==> this == NoPhase
    {
      match this
      case NoPhase => 0
      case WakeUp => 1
      case Lte => 2
      case CloudResume => 3
      case GnssStart => 4
      case Agnss => 5
      case Fix => 6
      case Report => 7
      case Frequent => 8
      case GnssStop => 9
      case CloudPause => 10
      case LedSleep => 11
      case MotionArm => 12
      case Sleep => 13
      case NoNetwork => 14
    }
  }

  /** The phases by the number they are sent as. */
  const PHASES: seq<Phase> :=
    [NoPhase, WakeUp, Lte, CloudResume, GnssStart, Agnss, Fix, Report, Frequent,
     GnssStop, CloudPause, LedSleep, MotionArm, Sleep, NoNetwork]

  lemma CodesNumberPhases(p: Phase)
    ensures |PHASES| == PHASE_MAX + 1 && PHASES[p.Code()] == p
  {
  }

  const PHASE_MAGIC := 0x57445431
  const PHASE_MAX := 14
  const WORD := 0x1_0000_0000

  datatype Event =
    | PowerUp(magic: nat, rubbish: nat)  // RAM comes up with arbitrary contents
    | Reset                            // watchdog or software reset: RAM is retained
    | Latch                            // phase_init(): the magic decides what is latched
    | Wipe                             // phase_init(): the phase is cleared
    | Mark(phase: Phase)               // watchdog_phase()

  datatype Stage = Off | Latching | Wiping | Running

  /** How the RAM found at this boot came about: contents without the magic, contents a
      finished boot left behind with `last` as its newest mark, or contents in which the magic
      is present although no boot ever wiped the phase. */
  datatype Origin = NoMagic | Finished(last: nat) | Unwiped

  datatype State = State(stage: Stage, magic: nat, phase: nat, atReset: nat, origin: Origin, marked: nat)

  const START := State(Off, 0, 0, 0, NoMagic, 0)

  predicate Enabled(s: State, e: Event) {
    match e
    case PowerUp(magic, rubbish) => magic < WORD && rubbish < WORD
    case Reset => s.stage != Off
    case Latch => s.stage == Latching
    case Wipe => s.stage == Wiping
    case Mark(_) => s.stage == Running
  }

  function Step(s: State, e: Event): State {
    match e
    case PowerUp(magic, rubbish) =>
      State(Latching, magic, rubbish, s.atReset, if magic == PHASE_MAGIC then Unwiped else NoMagic, 0)
    case Reset =>
      s.(stage := Latching,
         origin := if s.stage == Running then Finished(s.marked)
                   else if s.stage == Wiping && s.origin == NoMagic then Unwiped
                   else s.origin)
    case Latch =>
      if s.magic == PHASE_MAGIC then s.(stage := Wiping, atReset := s.phase)
      else s.(stage := Wiping, atReset := 0, magic := PHASE_MAGIC)
    case Wipe => s.(stage := Running, phase := 0, marked := 0)
    case Mark(p) => s.(phase := p.Code(), marked := p.Code())
  }

  function Exec(t: seq<Event>): State {
    if t == [] then START
    else
      var s := Exec(t[..|t| - 1]);
      if Enabled(s, t[|t| - 1]) then Step(s, t[|t| - 1]) else s
  }

  // ---------------------------------------------------------------- what the RAM went through

  /** What happened since power last came up: what the two words held then, whether a reset fell
      between the two stores of phase_init() before any boot had finished it, and how many boots
      have finished it. */
  datatype Past = Past(magic: nat, rubbish: nat, cut: bool, finished: nat)

  function PastOf(t: seq<Event>): Past {
    if t == [] then Past(0, 0, false, 0)
    else
      var p, s, e := PastOf(t[..|t| - 1]), Exec(t[..|t| - 1]), t[|t| - 1];
      if !Enabled(s, e) then p
      else match e
        case PowerUp(magic, rubbish) => Past(magic, rubbish, false, 0)
        case Reset => p.(cut := p.cut || (s.stage == Wiping && p.finished == 0))
        case Wipe => p.(finished := p.finished + 1)
        case _ => p
  }

  /** This boot is the first to finish since power came up, and it found the magic: because the
      words survived the loss of power, or because a boot that wrote it was cut short before it
      could wipe the phase. */
  predicate NeverWiped(p: Past) {
    p.finished == 1 && (p.magic == PHASE_MAGIC || p.cut)
  }

  /** What a boot with this past reports, once it has latched. */
  ghost predicate ReportsPast(s: State, p: Past) {
    match s.origin
    case NoMagic => s.atReset == 0
    case Finished(last) => s.atReset == last <= PHASE_MAX
    case Unwiped => s.atReset == p.rubbish
  }

  /** Which pasts lead to which origins, `before` boots having finished since power came up. */
  ghost predicate Explained(s: State, p: Past, before: nat) {
    match s.origin
    case NoMagic => before == 0 && p.magic != PHASE_MAGIC && !p.cut
    case Finished(_) => 0 < before
    case Unwiped => before == 0 && (p.magic == PHASE_MAGIC || p.cut)
  }

  ghost predicate Invariant(s: State, p: Past) {
    && s.phase < WORD && s.atReset < WORD && p.rubbish < WORD
    && (s.stage == Latching ==>
          Explained(s, p, p.finished) &&
          match s.origin
          case NoMagic => s.magic != PHASE_MAGIC
          case Finished(last) => s.magic == PHASE_MAGIC && s.phase == last <= PHASE_MAX
          case Unwiped => s.magic == PHASE_MAGIC && s.phase == p.rubbish)
    && (s.stage == Wiping ==>
          && Explained(s, p, p.finished) && s.magic == PHASE_MAGIC
          && (if s.origin.Finished? then s.phase == s.origin.last <= PHASE_MAX else s.phase == p.rubbish))
    && (s.stage == Running ==>
          && 0 < p.finished && Explained(s, p, p.finished - 1)
          && s.magic == PHASE_MAGIC && s.phase == s.marked <= PHASE_MAX)
    && (s.stage in {Wiping, Running} ==> ReportsPast(s, p))
    && (s.stage == Latching && s.origin == NoMagic ==> s.phase == p.rubbish)
  }

  lemma {:induction false} Invariants(t: seq<Event>)
    ensures Invariant(Exec(t), PastOf(t))
  {
    if t != [] {
      Invariants(t[..|t| - 1]);
    }
  }

  /** Over any sequence of boots, marks and resets cut at any store: the boot that is running
      reports no phase at all exactly when it is the first to finish since power came up, it
      found the magic nevertheless, and the word that came up with the power is above 14; it
      then reports that word. */
  lemma ReportedValueExactly(t: seq<Event>, s: State)
    requires s == Exec(t) && s.stage == Running
    ensures s.origin == Unwiped <==> NeverWiped(PastOf(t))
    ensures s.atReset <= PHASE_MAX <==> !(NeverWiped(PastOf(t)) && PastOf(t).rubbish > PHASE_MAX)
    ensures NeverWiped(PastOf(t)) ==> s.atReset == PastOf(t).rubbish < WORD
  {
    Invariants(t);
  }

  /** A boot reports the newest mark of the boot before it whenever that boot had finished
      phase_init and RAM was retained, and none when the magic was lost. */
  lemma BootReportsLastMark(t: seq<Event>, s: State)
    requires s == Exec(t) && s.stage == Running
    ensures Exec(t + [Reset] + [Latch]).atReset == s.marked <= PHASE_MAX
    ensures forall magic: nat, phase: nat :: magic != PHASE_MAGIC && magic < WORD && phase < WORD ==>
              Exec(t + [PowerUp(magic, phase)] + [Latch]).atReset == 0
  {
    Invariants(t);
    ExecSnoc(t, Reset);
    ExecSnoc(t + [Reset], Latch);
    forall magic: nat, phase: nat | magic != PHASE_MAGIC && magic < WORD && phase < WORD
      ensures Exec(t + [PowerUp(magic, phase)] + [Latch]).atReset == 0
    {
      ExecSnoc(t, PowerUp(magic, phase));
      ExecSnoc(t + [PowerUp(magic, phase)], Latch);
    }
  }

  /** The reported value does not change between two boots. */
  lemma {:induction false} ReportIsSticky(t: seq<Event>, c: seq<Event>)
    requires Exec(t).stage == Running
    requires forall e :: e in c ==> e.Mark?
    ensures Exec(t + c).stage == Running && Exec(t + c).atReset == Exec(t).atReset
    ensures c != [] ==> Exec(t + c).marked == c[|c| - 1].phase.Code()
  {
    if c == [] {
      assert t + c == t;
    } else {
      ReportIsSticky(t, c[..|c| - 1]);
      ExecSnoc(t + c[..|c| - 1], c[|c| - 1]);
      assert t + c == t + c[..|c| - 1] + [c[|c| - 1]];
      assert c[|c| - 1] in c;
    }
  }

  lemma ExecSnoc(t: seq<Event>, e: Event)
    ensures Exec(t + [e]) == if Enabled(Exec(t), e) then Step(Exec(t), e) else Exec(t)
  {
    assert (t + [e])[..|t|] == t;
  }

  /** Both ways to report an arbitrary word: a reset between the two stores of a cold boot, and a
      loss of power the magic survived. */
  lemma UnwipedBootReportsRubbish(phase: nat)
    requires phase < WORD
    ensures Exec([PowerUp(0, phase)] + [Latch] + [Reset] + [Latch]).atReset == phase
    ensures Exec([PowerUp(PHASE_MAGIC, phase)] + [Latch]).atReset == phase
  {
    ExecSnoc([], PowerUp(0, phase));
    assert [] + [PowerUp(0, phase)] == [PowerUp(0, phase)];
    ExecSnoc([PowerUp(0, phase)], Latch);
    ExecSnoc([PowerUp(0, phase)] + [Latch], Reset);
    ExecSnoc([PowerUp(0, phase)] + [Latch] + [Reset], Latch);
    ExecSnoc([], PowerUp(PHASE_MAGIC, phase));
    assert [] + [PowerUp(PHASE_MAGIC, phase)] == [PowerUp(PHASE_MAGIC, phase)];
    ExecSnoc([PowerUp(PHASE_MAGIC, phase)], Latch);
  }

  // ---------------------------------------------------------------- the code telemetry prints

  /** The retained word as the int that %d is given. */
  function AsInt(word: nat): (code: int)
    requires word < WORD
    ensures -0x8000_0000 <= code < 0x8000_0000
    ensures code == 0 <==> word == 0
    ensures (code - word) % WORD == 0
  {
    if word < WORD / 2 then word else word - WORD
  }

  /** What the running boot reports as its phase code. */
  ghost function ReportedCode(t: seq<Event>): (code: int)
    requires Exec(t).stage == Running
    ensures -0x8000_0000 <= code < 0x8000_0000
  {
    Invariants(t);
    AsInt(Exec(t).atReset)
  }

  /** Where the compiler packs the enum into a byte, phase_init() keeps only the low byte of the
      word it latches. */
  function ByteCode(t: seq<Event>): (code: nat)
    ensures code < 256
  {
    Exec(t).atReset % 256
  }

  /** That is no phase exactly when the word was never wiped and its low byte is above 14. */
  lemma ByteValueExactly(t: seq<Event>, s: State)
    requires s == Exec(t) && s.stage == Running
    ensures ByteCode(t) <= PHASE_MAX <==> !(NeverWiped(PastOf(t)) && PastOf(t).rubbish % 256 > PHASE_MAX)
  {
    ReportedValueExactly(t, s);
    if NeverWiped(PastOf(t)) {
      assert ByteCode(t) == PastOf(t).rubbish % 256;
    } else {
      SmallStays(s.atReset);
    }
  }

  lemma SmallStays(n: nat)
    requires n <= PHASE_MAX
    ensures n % 256 == n
  {
  }

  /** A boot that finds the magic although power was lost. */
  function SurvivingBoot(word: nat): seq<Event> {
    [PowerUp(PHASE_MAGIC, word), Latch, Wipe]
  }

  lemma SurvivingBootReports(word: nat)
    requires word < WORD
    ensures Exec(SurvivingBoot(word)).stage == Running && ReportedCode(SurvivingBoot(word)) == AsInt(word)
  {
    var up := PowerUp(PHASE_MAGIC, word);
    ExecSnoc([], up);
    ExecSnoc([up], Latch);
    ExecSnoc([up, Latch], Wipe);
    assert [] + [up] == [up] && [up] + [Latch] == [up, Latch] && [up, Latch] + [Wipe] == SurvivingBoot(word);
  }

  /** The retained words as watchdog.c keeps them. */
  class Marker {
    var phaseMagic: nat
    var phaseCurrent: nat
    var phaseAtReset: nat

    /** A boot begins with whatever the RAM holds. */
    constructor (magic: nat, phase: nat)
      ensures phaseMagic == magic && phaseCurrent == phase && phaseAtReset == 0
    {
      phaseMagic, phaseCurrent, phaseAtReset := magic, phase, 0;
    }

    ghost function Model(stage: Stage, origin: Origin): State
      reads this
    {
      State(stage, phaseMagic, phaseCurrent, phaseAtReset, origin, phaseCurrent)
    }

    /** phase_init() is its two steps, one after the other. */
    method PhaseInit(ghost origin: Origin)
      modifies this
      ensures Model(Running, origin) == Step(Step(old(Model(Latching, origin)), Latch), Wipe)
    {
      if phaseMagic == PHASE_MAGIC {
        phaseAtReset := phaseCurrent;
      } else {
        phaseMagic := PHASE_MAGIC;
        phaseAtReset := 0;
      }
      phaseCurrent := 0;
    }

    /** watchdog_phase() */
    method SetPhase(phase: Phase)
      modifies this`phaseCurrent
      ensures forall origin ::
                Model(Running, origin) == Step(old(Model(Running, origin)), Mark(phase))
    {
      phaseCurrent := phase.Code();
    }
  }
}
