/** cloud_nrf.c: the session with nRF Cloud, and cloud_hologram.c's constant answers. */
module CloudLink {

  datatype Link = Disconnected | Connected | Paused

  // Error codes, as Zephyr numbers them. Positive codes are CoAP responses.
  const OK := 0
  const EIO := -5
  const ENOMEM := -12
  const EACCES := -13
  const ENOTCONN := -128

  /** The build: provider, and the two bench switches. */
  datatype Build = Build(hologram: bool, skipLte: bool, offline: bool)

  predicate Online(b: Build) {
    !b.hologram && !b.skipLte && !b.offline
  }

  /** What happened on the wire, in order. */
  datatype Event = Handshake(ok: bool) | ResumeOk | ResumeFailed | PauseOk | Post

  /** `link`, `credsOk` and `timeReady` are cloud_nrf.c's variables. */
  datatype State = State(link: Link, credsOk: bool, timeReady: bool, wire: seq<Event>)

  function Boot(credsOk: bool): State {
    State(Disconnected, credsOk, false, [])
  }

  /** What the libraries answer: nrf_cloud_coap_resume(), how many polls the modem's clock takes
      to be ready, and nrf_cloud_coap_connect(). */
  datatype Answers = Answers(resume: int, polls: nat, connect: int)

  const MODEM_TIME_POLL_S := 3

  /** How many polls modem_time_wait() makes before giving up. */
  function PollLimit(waitS: nat): nat {
    (waitS + MODEM_TIME_POLL_S - 1) / MODEM_TIME_POLL_S
  }

  /** What each event does to the link. */
  function After(l: Link, e: Event): Link {
    match e
    case Handshake(ok) => if ok then Connected else Disconnected
    case ResumeOk => Connected
    case ResumeFailed => Disconnected
    case PauseOk => Paused
    case Post => l
  }

  function Note(s: State, e: Event): State {
    s.(wire := s.wire + [e], link := After(s.link, e))
  }

  /** cloud_resume(): the new state and the error it returns. */
  function Resume(b: Build, waitS: nat, s: State, a: Answers): (State, int) {
    if b.hologram then (s, OK)
    else if b.skipLte then (s, ENOTCONN)
    else if b.offline then (s.(link := Connected), OK)
    else if !s.credsOk then (s, EACCES)
    else if s.link == Connected then (s, OK)
    else if s.link == Paused && a.resume == OK then (Note(s, ResumeOk), OK)
    else
      var d := if s.link == Paused then Note(s, ResumeFailed) else s;
      var t := d.(timeReady := d.timeReady || a.polls < PollLimit(waitS));
      if a.connect != OK then (Note(t, Handshake(false)), a.connect)
      else (Note(t, Handshake(true)), OK)
  }

  /** cloud_pause() */
  function Pause(b: Build, s: State, keepOpen: bool, err: int): State {
    if b.hologram || s.link != Connected || b.offline || !keepOpen || err != OK then s
    else Note(s, PauseOk)
  }

  /** cloud_is_ready() */
  predicate Ready(b: Build, s: State) {
    b.hologram || s.link == Connected
  }

  predicate SupportsAgnss(b: Build) {
    !b.hologram
  }

  function Normalize(err: int): int {
    if err > 0 then EIO else err
  }

  /** What becomes of a payload: its envelope is too large for the buffer, or the library or the
      server answers. */
  datatype Delivery = TooLarge | Answered(err: int)

  /** cloud_send_telemetry() */
  function Send(b: Build, s: State, d: Delivery): (State, int) {
    if d.TooLarge? then (s, ENOMEM)
    else if b.offline then (s, OK)
    else (Note(s, Post), if b.hologram then d.err else Normalize(d.err))
  }

  /** What it returns online. */
  function Returned(d: Delivery): int {
    if d.TooLarge? then ENOMEM else Normalize(d.err)
  }

  // ---------------------------------------------------------------- one call

  ghost predicate Invariant(s: State) {
    s.link != Disconnected ==> s.credsOk
  }

  /** How many handshakes a piece of wire history holds. */
  function Handshakes(w: seq<Event>): nat {
    if w == [] then 0
    else Handshakes(w[..|w| - 1]) + if w[|w| - 1].Handshake? then 1 else 0
  }

  function Posts(w: seq<Event>): nat {
    if w == [] then 0
    else Posts(w[..|w| - 1]) + if w[|w| - 1] == Post then 1 else 0
  }

  lemma CountSnoc(w: seq<Event>, e: Event)
    ensures Handshakes(w + [e]) == Handshakes(w) + if e.Handshake? then 1 else 0
    ensures Posts(w + [e]) == Posts(w) + if e == Post then 1 else 0
  {
    assert (w + [e])[..|w|] == w;
  }

  /** Online, cloud_resume() returns 0 exactly when it leaves the link connected. It performs
      no handshake when the link was connected or resumes, and one otherwise - provided the
      credentials check passed at boot. */
  lemma ResumeOutcome(b: Build, waitS: nat, s: State, a: Answers)
    requires Online(b) && Invariant(s)
    ensures var (t, err) := Resume(b, waitS, s, a);
            && Invariant(t)
            && (err == OK <==> t.link == Connected)
            && Posts(t.wire) == Posts(s.wire)
            && Handshakes(t.wire) == Handshakes(s.wire)
                 + if s.credsOk && s.link != Connected && !(s.link == Paused && a.resume == OK) then 1 else 0
  {
    CountSnoc(s.wire, ResumeOk);
    CountSnoc(s.wire, ResumeFailed);
    CountSnoc(s.wire, Handshake(true));
    CountSnoc(s.wire, Handshake(false));
    CountSnoc(s.wire + [ResumeFailed], Handshake(true));
    CountSnoc(s.wire + [ResumeFailed], Handshake(false));
  }

  /** The connected state is left only through a pause that succeeded. */
  lemma ConnectedIsLeftByPauseOnly(b: Build, waitS: nat, s: State, a: Answers, keepOpen: bool, err: int, d: Delivery)
    requires s.link == Connected
    ensures Resume(b, waitS, s, a).0.link == Connected
    ensures Send(b, s, d).0.link == Connected
    ensures Pause(b, s, keepOpen, err).link != Connected
            <==> Pause(b, s, keepOpen, err) == s.(link := Paused, wire := s.wire + [PauseOk])
  {
  }

  /** Online, cloud_pause() pauses exactly a connected session that can be kept open and whose
      pause is answered with 0, and changes nothing otherwise. */
  lemma PausesExactly(b: Build, s: State, keepOpen: bool, err: int)
    requires Online(b)
    ensures var t := Pause(b, s, keepOpen, err);
            if s.link == Connected && keepOpen && err == 0
            then t.link == Paused && t.wire == s.wire + [PauseOk] && t.credsOk == s.credsOk && t.timeReady == s.timeReady
            else t == s
  {
  }

  /** A payload is posted exactly when its envelope fits and the build is not offline. Online the
      answer is never positive: a CoAP response code becomes -5, and everything else is passed
      on. */
  lemma SendsExactly(b: Build, s: State, d: Delivery)
    ensures var (t, err) := Send(b, s, d);
            && t == (if d.Answered? && !b.offline then s.(wire := s.wire + [Post]) else s)
            && (d.TooLarge? ==> err == -12)
            && (d.Answered? && b.offline ==> err == 0)
            && (d.Answered? && !b.offline ==> err == if d.err <= 0 || b.hologram then d.err else -5)
            && (Online(b) ==> err <= 0 && err == Returned(d))
  {
  }

  /** And the resume after such a pause connects it again, with no handshake, exactly when it is
      answered with 0. */
  lemma PausedResumesExactly(b: Build, waitS: nat, s: State, a: Answers)
    requires Online(b) && Invariant(s) && s.link == Paused
    ensures var (t, err) := Resume(b, waitS, s, a);
            if a.resume == 0 then err == 0 && t.link == Connected && t.wire == s.wire + [ResumeOk]
            else t.wire == s.wire + [ResumeFailed, Handshake(a.connect == 0)] && err == a.connect
                 && t.link == (if a.connect == 0 then Connected else Disconnected)
  {
    if a.resume != 0 {
      assert s.wire + [ResumeFailed] + [Handshake(a.connect == 0)] == s.wire + [ResumeFailed, Handshake(a.connect == 0)];
    }
  }

  /** The modem's clock is waited for exactly before a handshake, and once known it stays known. */
  lemma ClockIsAwaitedOnce(b: Build, waitS: nat, s: State, a: Answers)
    requires Online(b) && Invariant(s)
    ensures var t := Resume(b, waitS, s, a).0;
            t.timeReady <==> s.timeReady || (Handshakes(t.wire) > Handshakes(s.wire)
                                             && a.polls * 3 < waitS)
  {
    ResumeOutcome(b, waitS, s, a);
    assert a.polls < PollLimit(waitS) <==> a.polls * 3 < waitS;
  }

  // ---------------------------------------------------------------- whole runs

  datatype Op = DoResume(a: Answers) | DoPause(keepOpen: bool, err: int) | DoSend(d: Delivery)

  function Apply(b: Build, waitS: nat, s: State, op: Op): State {
    match op
    case DoResume(a) => Resume(b, waitS, s, a).0
    case DoPause(keepOpen, err) => Pause(b, s, keepOpen, err)
    case DoSend(d) => Send(b, s, d).0
  }

  function Exec(b: Build, waitS: nat, s: State, ops: seq<Op>): State {
    if ops == [] then s else Apply(b, waitS, Exec(b, waitS, s, ops[..|ops| - 1]), ops[|ops| - 1])
  }

  /** The protocol of the session: a handshake only while disconnected, a resume only while
      paused, a pause only while connected. */
  predicate Allowed(l: Link, e: Event) {
    match e
    case Handshake(_) => l == Disconnected
    case ResumeOk => l == Paused
    case ResumeFailed => l == Paused
    case PauseOk => l == Connected
    case Post => true
  }

  /** The link as the wire history alone tells it. */
  function LinkOf(w: seq<Event>): Link {
    if w == [] then Disconnected else After(LinkOf(w[..|w| - 1]), w[|w| - 1])
  }

  ghost predicate Lawful(w: seq<Event>) {
    forall i :: 0 <= i < |w| ==> Allowed(LinkOf(w[..i]), w[i])
  }

  lemma LawfulSnoc(w: seq<Event>, e: Event)
    requires Lawful(w) && Allowed(LinkOf(w), e)
    ensures Lawful(w + [e]) && LinkOf(w + [e]) == After(LinkOf(w), e)
  {
    var n := w + [e];
    assert n[..|w|] == w;
    forall i | 0 <= i < |n|
      ensures Allowed(LinkOf(n[..i]), n[i])
    {
      if i < |w| {
        assert n[..i] == w[..i];
      }
    }
  }

  ghost predicate Tells(s: State) {
    Lawful(s.wire) && s.link == LinkOf(s.wire)
  }

  lemma NoteTells(s: State, e: Event)
    requires Tells(s) && Allowed(s.link, e)
    ensures Tells(Note(s, e))
  {
    LawfulSnoc(s.wire, e);
  }

  lemma ResumeTells(b: Build, waitS: nat, s: State, a: Answers)
    requires Online(b) && Tells(s)
    ensures Tells(Resume(b, waitS, s, a).0)
  {
    if s.credsOk && s.link != Connected {
      if s.link == Paused && a.resume == OK {
        NoteTells(s, ResumeOk);
      } else {
        if s.link == Paused {
          NoteTells(s, ResumeFailed);
        }
        var d := if s.link == Paused then Note(s, ResumeFailed) else s;
        var t := d.(timeReady := d.timeReady || a.polls < PollLimit(waitS));
        NoteTells(t, Handshake(a.connect == OK));
      }
    }
  }

  lemma ApplyTells(b: Build, waitS: nat, s: State, op: Op)
    requires Online(b) && Tells(s)
    ensures Tells(Apply(b, waitS, s, op))
  {
    match op
    case DoResume(a) => ResumeTells(b, waitS, s, a);
    case DoPause(_, _) => if s.link == Connected { NoteTells(s, PauseOk); }
    case DoSend(_) => NoteTells(s, Post);
  }

  /** Over every run of the online build the wire history keeps to the protocol and tells the
      link. */
  lemma {:induction false} HistoryIsLawful(b: Build, waitS: nat, credsOk: bool, ops: seq<Op>)
    requires Online(b)
    ensures Tells(Exec(b, waitS, Boot(credsOk), ops))
  {
    if ops != [] {
      var p := ops[..|ops| - 1];
      HistoryIsLawful(b, waitS, credsOk, p);
      ApplyTells(b, waitS, Exec(b, waitS, Boot(credsOk), p), ops[|ops| - 1]);
    }
  }

  /** The builds without a session: offline nothing reaches the wire and the link counts as up;
      with Hologram only postings do, each with its own connection; without LTE every resume is
      refused. */
  lemma {:induction false} OtherBuilds(b: Build, waitS: nat, credsOk: bool, ops: seq<Op>, a: Answers)
    requires !Online(b)
    ensures var s := Exec(b, waitS, Boot(credsOk), ops);
            && (forall e :: e in s.wire ==> e == Post)
            && (b.offline ==> s.wire == [])
            && (b.hologram || b.skipLte ==> s.link == Disconnected)
            && Resume(b, waitS, s, a).1 == (if b.skipLte && !b.hologram then -128 else 0)
            && (Ready(b, Resume(b, waitS, s, a).0) <==> b.hologram || !b.skipLte)
  {
    if ops != [] {
      OtherBuilds(b, waitS, credsOk, ops[..|ops| - 1], a);
    }
  }

  /** In every run, a handshake that follows a successful one means that in between a pause
      succeeded and the resume after it failed. */
  lemma NewHandshakeNeedsFailedResume(b: Build, waitS: nat, credsOk: bool, ops: seq<Op>, i: nat, j: nat)
    requires Online(b)
    requires var w := Exec(b, waitS, Boot(credsOk), ops).wire;
             i < j < |w| && w[i] == Handshake(true) && w[j].Handshake?
    ensures var w := Exec(b, waitS, Boot(credsOk), ops).wire;
            exists p, r :: i < p < r < j && w[p] == PauseOk && w[r] == ResumeFailed
  {
    HistoryIsLawful(b, waitS, credsOk, ops);
    var w := Exec(b, waitS, Boot(credsOk), ops).wire;
    assert LinkOf(w[..j]) == Disconnected;
    FindResumeFailure(w, i, j);
  }

  /** From connected after `i` to disconnected before `j` the history passes a failed resume,
      and to reach it a pause. */
  lemma {:induction false} FindResumeFailure(w: seq<Event>, i: nat, j: nat)
    requires Lawful(w) && i < j <= |w|
    requires w[i] == Handshake(true)
    ensures LinkOf(w[..j]) == Paused ==> exists p :: i < p < j && w[p] == PauseOk
    ensures LinkOf(w[..j]) == Disconnected ==>
              exists p, r :: i < p < r < j && w[p] == PauseOk && w[r] == ResumeFailed
  {
    assert w[..j][..j - 1] == w[..j - 1];
    if i < j - 1 {
      FindResumeFailure(w, i, j - 1);
    }
  }

  // ---------------------------------------------------------------- the modem's clock

  /** modem_time_wait(): poll every three seconds until the modem's clock answers, for at most
      the configured wait. `answersAt` is the first poll it would answer. */
  method ModemTimeWait(timeReady: bool, waitS: nat, answersAt: nat)
    returns (ready: bool, polls: nat, sleptS: nat, feeds: nat)
    ensures ready == (timeReady || answersAt < PollLimit(waitS))
    ensures polls == if timeReady then 0 else if ready then answersAt + 1 else PollLimit(waitS)
    ensures sleptS == MODEM_TIME_POLL_S * feeds < waitS + MODEM_TIME_POLL_S
    ensures polls == feeds + if ready && !timeReady then 1 else 0
  {
    ready, polls, sleptS, feeds := timeReady, 0, 0, 0;
    if timeReady {
      return;
    }
    var waited := 0;
    while waited < waitS
      invariant waited == MODEM_TIME_POLL_S * polls == sleptS && feeds == polls
      invariant polls <= answersAt && polls <= PollLimit(waitS)
      invariant waited < waitS + MODEM_TIME_POLL_S
    {
      if polls == answersAt {
        ready, polls := true, polls + 1;
        return;
      }
      polls := polls + 1;
      sleptS := sleptS + MODEM_TIME_POLL_S;
      feeds := feeds + 1;
      waited := waited + MODEM_TIME_POLL_S;
    }
  }

  // ---------------------------------------------------------------- the program

  class Cloud {
    var link: Link
    var credsOk: bool
    var modemTimeReady: bool
    ghost var wire: seq<Event>

    ghost function Model(): State
      reads this
    {
      State(link, credsOk, modemTimeReady, wire)
    }

    constructor (creds: bool)
      ensures Model() == Boot(creds)
    {
      link, credsOk, modemTimeReady, wire := Disconnected, creds, false, [];
    }

    method ResumeLink(b: Build, waitS: nat, a: Answers) returns (err: int)
      modifies this
      ensures (Model(), err) == Resume(b, waitS, old(Model()), a)
    {
      if b.hologram {
        return OK;
      }
      if b.skipLte {
        return ENOTCONN;
      }
      if b.offline {
        link := Connected;
        return OK;
      }
      if !credsOk {
        return EACCES;
      }
      if link == Connected {
        return OK;
      }
      if link == Paused {
        if a.resume == OK {
          wire := wire + [ResumeOk];
          link := Connected;
          return OK;
        }
        wire := wire + [ResumeFailed];
        link := Disconnected;
      }
      var ready, _, _, _ := ModemTimeWait(modemTimeReady, waitS, a.polls);
      modemTimeReady := ready;
      wire := wire + [Handshake(a.connect == OK)];
      if a.connect != OK {
        link := Disconnected;
        return a.connect;
      }
      link := Connected;
      return OK;
    }

    method PauseLink(b: Build, keepOpen: bool, answer: int)
      modifies this
      ensures Model() == Pause(b, old(Model()), keepOpen, answer)
      ensures Online(b) ==>
                Model() == if old(link) == Connected && keepOpen && answer == 0
                           then State(Paused, credsOk, modemTimeReady, old(wire) + [PauseOk])
                           else old(Model())
    {
      if b.hologram {
        return;
      }
      if link != Connected || b.offline {
        return;
      }
      if !keepOpen {
        return;
      }
      if answer != OK {
        return;
      }
      wire := wire + [PauseOk];
      link := Paused;
    }

    method SendTelemetry(b: Build, d: Delivery) returns (err: int)
      modifies this`wire
      ensures (Model(), err) == Send(b, old(Model()), d)
    {
      if d.TooLarge? {
        return ENOMEM;
      }
      if b.offline {
        return OK;
      }
      wire := wire + [Post];
      if b.hologram {
        return d.err;
      }
      return Normalize(d.err);
    }
  }
}
