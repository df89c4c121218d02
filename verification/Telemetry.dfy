/** telemetry.c: the payload, a parser for it, and the buffers it has to fit; with the fields of
    main.c's report_fix() and the envelope of cloud_nrf.c. */
module Telemetry {
  import opened Format
  import Battery
  import Wake

  /** Charger activity as the payload carries it. */
  datatype Charge = Discharging | Charging | Full
  {
    function Code(): (n: nat)
      ensures n <= 2
    {
      match this
      case Discharging => 0
      case Charging => 1
      case Full => 2
    }
  }

  /** struct tracker_telemetry, with the coordinates already rounded to micro-degrees and hdop to
      hundredths. */
  datatype Record = Record(
    longitude: Fixed, latitude: Fixed, hdop: Fixed, battMv: nat, charge: Charge,
    signalDbm: int, awakeS: nat, wake: Wake.Reason)

  /** Which build sends it: the stamp cmake puts in and the board's Kconfig string. */
  datatype Identity = Identity(fw: string, hw: string)

  /** wake_reason_name() */
  function WakeName(r: Wake.Reason): string {
    match r
    case Boot => "boot"
    case Timer => "timer"
    case Vbus => "vbus"
    case Motion => "motion"
  }

  // ---------------------------------------------------------------- printing

  function Position(t: Record): seq<Piece> {
    [Lit("{\"coords\": ["), Decimal(t.longitude, 6), Lit(", "), Decimal(t.latitude, 6),
     Lit("], \"hdop\": "), Decimal(t.hdop, 2)]
  }

  function Supply(t: Record): seq<Piece> {
    [Lit(", \"batt\": "), Unsigned(Battery.Percent(t.battMv)), Lit(", \"volt\": "), Unsigned(t.battMv),
     Lit(", \"charge\": "), Signed(t.charge.Code())]
  }

  function Circumstance(t: Record): seq<Piece> {
    [Lit(", \"signal\": "), Signed(t.signalDbm), Lit(", \"awake\": "), Unsigned(t.awakeS),
     Lit(", \"wake\": \""), Str(WakeName(t.wake))]
  }

  /** The members every report has. */
  function Fields(t: Record): seq<Piece> {
    Position(t) + Supply(t) + Circumstance(t) + [Lit("\", ")]
  }

  function WdtPieces(code: int): seq<Piece> {
    [Lit("\"wdt\": "), Signed(code), Lit(", ")]
  }

  function Tail(id: Identity): seq<Piece> {
    [Lit("\"fw\": \""), Str(id.fw), Lit("\", \"hw\": \""), Str(id.hw), Lit("\"}")]
  }

  /** What snprintf() leaves in a buffer of the given size. */
  function Truncated(text: string, size: nat): string
    requires 0 < size
  {
    if |text| < size then text else text[..size - 1]
  }

  const WDT_SIZE := 16
  const PAYLOAD_SIZE := 256
  const ENVELOPE_SIZE := 384

  /** The optional fragment, rendered on its own into a small buffer. The code is the retained
      word as an int: usually a phase's, but nothing keeps it to those. */
  function WdtFragment(code: int): string {
    if code == 0 then "" else Truncated(Render(WdtPieces(code)), WDT_SIZE)
  }

  function Text(t: Record, code: int, id: Identity): string {
    Render(Fields(t) + [Str(WdtFragment(code))] + Tail(id))
  }

  /** telemetry_build_json(): the text, or nothing when the buffer is too small. */
  function BuildJson(t: Record, code: int, id: Identity, size: nat): Option<string> {
    var text := Text(t, code, id);
    if |text| >= size then None else Some(text)
  }

  // ---------------------------------------------------------------- parsing

  datatype Parsed = Parsed(record: Record, percent: nat, code: int, id: Identity)

  const FIELD_SHAPES :=
    [LitShape("{\"coords\": ["), DecimalShape(6), LitShape(", "), DecimalShape(6),
     LitShape("], \"hdop\": "), DecimalShape(2), LitShape(", \"batt\": "), UnsignedShape,
     LitShape(", \"volt\": "), UnsignedShape, LitShape(", \"charge\": "), SignedShape,
     LitShape(", \"signal\": "), SignedShape, LitShape(", \"awake\": "), UnsignedShape,
     LitShape(", \"wake\": \""), StrShape, LitShape("\", ")]
  const WDT_SHAPES := [LitShape("\"wdt\": "), SignedShape, LitShape(",")]
  const TAIL_SHAPES :=
    [LitShape("\"fw\": \""), StrShape, LitShape("\", \"hw\": \""), StrShape, LitShape("\"}")]

  function ChargeOf(code: int): Option<Charge> {
    if code == 0 then Some(Discharging) else if code == 1 then Some(Charging)
    else if code == 2 then Some(Full) else None
  }

  function WakeOf(name: string): Option<Wake.Reason> {
    if name == "boot" then Some(Wake.Boot) else if name == "timer" then Some(Wake.Timer)
    else if name == "vbus" then Some(Wake.Vbus) else if name == "motion" then Some(Wake.Motion)
    else None
  }

  function RecordOf(ps: seq<Piece>): Option<(Record, nat)> {
    if |ps| == 19 && ps[1].Decimal? && ps[3].Decimal? && ps[5].Decimal? && ps[7].Unsigned?
       && ps[9].Unsigned? && ps[11].Signed? && ps[13].Signed? && ps[15].Unsigned? && ps[17].Str?
    then
      match (ChargeOf(ps[11].i), WakeOf(ps[17].text))
      case (Some(charge), Some(wake)) =>
        Some((Record(ps[1].value, ps[3].value, ps[5].value, ps[9].n, charge, ps[13].i, ps[15].n, wake),
              ps[7].n))
      case _ => None
    else None
  }

  function IdentityOf(ps: seq<Piece>): Option<Identity> {
    if |ps| == 5 && ps[1].Str? && ps[3].Str? then Some(Identity(ps[1].text, ps[3].text)) else None
  }

  function SkipSpace(s: string): string {
    if " " <= s then s[1..] else s
  }

  /** The optional member: a missing one reads as 0. The space after its comma is optional, as it
      is in JSON. */
  function ParseWdt(s: string): Option<(int, string)> {
    if "\"wdt\": " <= s then
      match Scan(WDT_SHAPES, s)
      case Some((ps, rest)) =>
        if |ps| == 3 && ps[1].Signed? then Some((ps[1].i, SkipSpace(rest))) else None
      case None => None
    else Some((0, s))
  }

  function Parse(s: string): Option<Parsed> {
    match Scan(FIELD_SHAPES, s)
    case None => None
    case Some((fields, rest)) =>
      match ParseWdt(rest)
      case None => None
      case Some((code, last)) =>
        match (RecordOf(fields), Scan(TAIL_SHAPES, last))
        case (Some((record, percent)), Some((tail, end))) =>
          (match IdentityOf(tail)
           case Some(id) => if end == "" then Some(Parsed(record, percent, code, id)) else None
           case None => None)
        case _ => None
  }

  // ---------------------------------------------------------------- round trip

  predicate Plain(id: Identity) {
    '"' !in id.fw && '"' !in id.hw
  }

  lemma RenderOne(p: Piece)
    ensures Render([p]) == Show(p)
  {
    assert [p][1..] == [];
  }

  // ---------------------------------------------------------------- the wdt fragment

  const WDT_NAME := "\"wdt\": "

  /** The code as %d prints it. */
  function CodeText(code: int): (s: string)
    ensures s != "" && IsDigit(s[|s| - 1]) && '"' !in s
  {
    var digits := Digits(if code < 0 then -code else code);
    assert IsDigit(digits[|digits| - 1]);
    assert Show(Signed(code)) == Sign(code < 0) + digits;
    Show(Signed(code))
  }

  lemma WdtWhole(code: int)
    ensures Render(WdtPieces(code)) == WDT_NAME + (CodeText(code) + ", ")
  {
    RenderThree([Lit(WDT_NAME)], Signed(code), [Lit(", ")]);
    RenderOne(Lit(WDT_NAME));
    RenderOne(Lit(", "));
    assert WdtPieces(code) == [Lit(WDT_NAME)] + [Signed(code)] + [Lit(", ")];
  }

  lemma CodeLength(code: int, k: nat)
    requires 0 < k
    ensures |CodeText(code)| <= k + 1 <==> -(Pow10(k) as int) < code < Pow10(k + 1)
  {
    DigitsLength(if code < 0 then -code else code, k);
    DigitsLength(if code < 0 then -code else code, k + 1);
  }

  /** The whole fragment fits its 16 bytes exactly when the code has at most six characters. */
  lemma WdtUntruncatedExactly(code: int)
    requires code != 0
    ensures WdtFragment(code) == Render(WdtPieces(code)) <==> -99_999 <= code <= 999_999
    ensures |CodeText(code)| <= 6 <==> -99_999 <= code <= 999_999
  {
    WdtWhole(code);
    CodeLength(code, 5);
    assert Pow10(5) == 100_000 && Pow10(6) == 1_000_000;
  }

  /** The code and the comma after it survive: at most seven characters. */
  predicate Legible(code: int) {
    -999_999 <= code <= 9_999_999
  }

  lemma LegibleLength(code: int)
    ensures |CodeText(code)| <= 7 <==> Legible(code)
  {
    CodeLength(code, 6);
    assert Pow10(5) == 100_000 && Pow10(6) == 1_000_000 && Pow10(7) == 10_000_000;
  }

  /** What is left of the separator: the space is cut off first. */
  function Gap(code: int): string {
    if -99_999 <= code <= 999_999 then " " else ""
  }

  /** What the buffer holds: the member with its comma, or the first eight characters of a code
      too long for it. */
  lemma WdtFragmentText(code: int)
    requires code != 0
    ensures Legible(code) ==> WdtFragment(code) == WDT_NAME + (CodeText(code) + "," + Gap(code))
    ensures !Legible(code) ==>
              |CodeText(code)| >= 8 && WdtFragment(code) == WDT_NAME + CodeText(code)[..8]
  {
    WdtWhole(code);
    WdtUntruncatedExactly(code);
    LegibleLength(code);
    var text := CodeText(code);
    if |text| <= 6 {
      assert text + ", " == text + "," + " ";
    } else {
      CutFragment(text);
    }
  }

  lemma CutFragment(text: string)
    requires 7 <= |text|
    ensures Truncated(WDT_NAME + (text + ", "), WDT_SIZE) ==
            WDT_NAME + if |text| == 7 then text + "," + "" else text[..8]
  {
    var whole := WDT_NAME + (text + ", ");
    assert whole[..15] == WDT_NAME + (text + ", ")[..8];
    if |text| == 7 {
      assert (text + ", ")[..8] == text + ",";
    } else {
      assert (text + ", ")[..8] == text[..8];
    }
  }

  lemma RenderTwo(ps: seq<Piece>, a: Piece, b: Piece)
    ensures Render(ps + [a, b]) == Render(ps) + Show(a) + Show(b)
  {
    RenderConcat(ps + [a], [b]);
    RenderConcat(ps, [a]);
    RenderOne(a);
    RenderOne(b);
    assert ps + [a] + [b] == ps + [a, b];
  }

  lemma RenderFour(a: Piece, b: Piece, c: Piece, d: Piece)
    ensures Render([a, b, c, d]) == Show(a) + Show(b) + Show(c) + Show(d)
  {
    RenderTwo([a], b, c);
    RenderOne(a);
    RenderConcat([a, b, c], [d]);
    RenderOne(d);
    assert [a] + [b, c] == [a, b, c] && [a, b, c] + [d] == [a, b, c, d];
  }

  lemma RenderSix(a: Piece, b: Piece, c: Piece, d: Piece, e: Piece, f: Piece)
    ensures Render([a, b, c, d, e, f]) == Show(a) + Show(b) + Show(c) + Show(d) + Show(e) + Show(f)
  {
    RenderFour(a, b, c, d);
    RenderTwo([a, b, c, d], e, f);
    assert [a, b, c, d] + [e, f] == [a, b, c, d, e, f];
  }

  lemma RenderFields(t: Record)
    ensures Render(Fields(t)) ==
            Render(Position(t)) + Render(Supply(t)) + Render(Circumstance(t)) + "\", "
  {
    RenderConcat(Position(t) + Supply(t) + Circumstance(t), [Lit("\", ")]);
    RenderConcat(Position(t) + Supply(t), Circumstance(t));
    RenderConcat(Position(t), Supply(t));
    RenderOne(Lit("\", "));
  }

  lemma RenderTail(id: Identity)
    ensures Render(Tail(id)) == "\"fw\": \"" + id.fw + "\", \"hw\": \"" + id.hw + "\"}"
  {
    var ps := Tail(id);
    RenderTwo([ps[0], ps[1], ps[2]], ps[3], ps[4]);
    RenderTwo([ps[0]], ps[1], ps[2]);
    RenderOne(ps[0]);
    assert [ps[0]] + [ps[1], ps[2]] == [ps[0], ps[1], ps[2]];
    assert ps == [ps[0], ps[1], ps[2]] + [ps[3], ps[4]];
  }

  lemma RenderThree(ps: seq<Piece>, p: Piece, qs: seq<Piece>)
    ensures Render(ps + [p] + qs) == Render(ps) + (Show(p) + Render(qs))
  {
    RenderConcat(ps + [p], qs);
    RenderConcat(ps, [p]);
    RenderOne(p);
    assert (Render(ps) + Show(p)) + Render(qs) == Render(ps) + (Show(p) + Render(qs));
  }

  /** The payload is its fields, the wdt fragment and the identity. */
  lemma TextParts(t: Record, code: int, id: Identity)
    ensures Text(t, code, id) == Render(Fields(t)) + (WdtFragment(code) + Render(Tail(id)))
  {
    var fields, fragment, tail := Fields(t), WdtFragment(code), Tail(id);
    assert Text(t, code, id) == Render(fields + [Str(fragment)] + tail);
    RenderThree(fields, Str(fragment), tail);
    assert Show(Str(fragment)) == fragment;
  }

  /** The same nineteen pieces in one row. */
  function FieldRow(t: Record): seq<Piece> {
    [Lit("{\"coords\": ["), Decimal(t.longitude, 6), Lit(", "), Decimal(t.latitude, 6),
     Lit("], \"hdop\": "), Decimal(t.hdop, 2), Lit(", \"batt\": "), Unsigned(Battery.Percent(t.battMv)),
     Lit(", \"volt\": "), Unsigned(t.battMv), Lit(", \"charge\": "), Signed(t.charge.Code()),
     Lit(", \"signal\": "), Signed(t.signalDbm), Lit(", \"awake\": "), Unsigned(t.awakeS),
     Lit(", \"wake\": \""), Str(WakeName(t.wake)), Lit("\", ")]
  }

  lemma FieldsAreRow(t: Record)
    ensures Fields(t) == FieldRow(t)
  {
  }

  lemma RowSeparable(t: Record)
    ensures Separable(FieldRow(t))
  {
  }

  lemma RowShape(t: Record)
    ensures Shapes(FieldRow(t)) == FIELD_SHAPES
  {
  }

  lemma RowRecord(t: Record)
    ensures RecordOf(FieldRow(t)) == Some((t, Battery.Percent(t.battMv)))
  {
  }

  lemma TailSeparable(id: Identity)
    requires Plain(id)
    ensures Separable(Tail(id)) && Shapes(Tail(id)) == TAIL_SHAPES
    ensures IdentityOf(Tail(id)) == Some(id)
  {
    var ps := Tail(id);
    assert ps[0] == Lit("\"fw\": \"") && ps[1] == Str(id.fw) && ps[2] == Lit("\", \"hw\": \"");
    assert ps[3] == Str(id.hw) && ps[4] == Lit("\"}");
  }

  lemma ScanOne(shape: Shape, s: string)
    ensures Scan([shape], s) ==
            match ScanPiece(shape, s)
            case None => None
            case Some(x) => Some(([x.piece], x.rest))
  {
    assert [shape][1..] == [];
    if ScanPiece(shape, s).Some? {
      var x := ScanPiece(shape, s).value;
      assert Scan([], x.rest) == Some(([], x.rest));
      assert [x.piece] + [] == [x.piece];
    }
  }

  lemma ScanMore(shape: Shape, shapes: seq<Shape>, s: string, x: Scanned)
    requires ScanPiece(shape, s) == Some(x)
    ensures Scan([shape] + shapes, s) ==
            match Scan(shapes, x.rest)
            case None => None
            case Some((ps, end)) => Some(([x.piece] + ps, end))
  {
    assert ([shape] + shapes)[1..] == shapes;
  }

  /** What follows the member's name decides. */
  lemma ParseWdtAfterName(text: string, code: int, rest: string)
    requires ScanSigned(text) == Some(Scanned(Signed(code), rest))
    ensures ParseWdt(WDT_NAME + text) == if "," <= rest then Some((code, SkipSpace(rest[1..]))) else None
  {
    var name, number, comma := LitShape(WDT_NAME), SignedShape, LitShape(",");
    var s := WDT_NAME + text;
    ScanLitOf(WDT_NAME, text);
    assert WDT_SHAPES == [name] + ([number] + [comma]);
    ScanOne(comma, rest);
    ScanMore(number, [comma], text, Scanned(Signed(code), rest));
    ScanMore(name, [number] + [comma], s, Scanned(Lit(WDT_NAME), text));
    if "," <= rest {
      assert Scan(WDT_SHAPES, s) == Some(([Lit(WDT_NAME)] + ([Signed(code)] + [Lit(",")]), rest[1..]));
    }
  }

  /** A legible code is read back, and the separator with it. */
  lemma ParseLegible(code: int, rest: string)
    requires code != 0 && Legible(code) && rest != "" && rest[0] == '"'
    ensures ParseWdt(WdtFragment(code) + rest) == Some((code, rest))
  {
    WdtFragmentText(code);
    var after := "," + (Gap(code) + rest);
    ScanSignedOf(code, after);
    ParseWdtAfterName(CodeText(code) + after, code, after);
    SkipsGap(Gap(code), rest);
    Regroup(WDT_NAME, CodeText(code), Gap(code), rest);
  }

  lemma SkipsGap(gap: string, rest: string)
    requires (gap == "" || gap == " ") && rest != "" && rest[0] == '"'
    ensures "," <= "," + (gap + rest) && SkipSpace(("," + (gap + rest))[1..]) == rest
  {
    assert ("," + (gap + rest))[1..] == gap + rest;
    if gap == " " {
      assert (gap + rest)[1..] == rest;
    } else {
      assert gap + rest == rest;
    }
  }

  lemma Regroup(name: string, text: string, gap: string, rest: string)
    ensures name + (text + "," + gap) + rest == name + (text + ("," + (gap + rest)))
  {
  }

  /** The first eight characters of a longer code: a sign, if any, and digits. */
  lemma CutCode(code: int) returns (digits: string)
    requires !Legible(code)
    ensures |CodeText(code)| >= 8 && digits != "" && AllDigits(digits)
    ensures CodeText(code)[..8] == Sign(code < 0) + digits
  {
    LegibleLength(code);
    var all := Digits(if code < 0 then -code else code);
    digits := all[..if code < 0 then 7 else 8];
    assert (Sign(code < 0) + all)[..8] == Sign(code < 0) + digits;
  }

  lemma Associative(a: string, b: string, c: string)
    ensures a + b + c == a + (b + c)
  {
  }

  /** Eight characters of a longer code are followed by a quote and not by a comma. */
  lemma ParseIllegible(code: int, rest: string)
    requires !Legible(code) && rest != "" && rest[0] == '"'
    ensures ParseWdt(WdtFragment(code) + rest) == None
  {
    WdtFragmentText(code);
    var digits := CutCode(code);
    ScanCut(code < 0, digits, rest);
    ParseWdtAfterName(CodeText(code)[..8] + rest, Negated(code < 0, Value(digits)), rest);
    Associative(WDT_NAME, CodeText(code)[..8], rest);
  }

  function Negated(neg: bool, n: nat): int {
    if neg then -(n as int) else n
  }

  lemma ScanCut(neg: bool, digits: string, rest: string)
    requires digits != "" && AllDigits(digits) && rest != "" && rest[0] == '"'
    ensures ScanSigned(Sign(neg) + digits + rest) ==
            Some(Scanned(Signed(Negated(neg, Value(digits))), rest))
  {
    var s := Sign(neg) + digits + rest;
    SignPrefix(neg, digits, rest, s);
    assert Negative(s) == neg && Signless(s) == digits + rest;
    ScanDigits(digits, rest);
    ScanSignless(s, Value(digits), rest);
  }

  lemma ScanSignless(s: string, n: nat, rest: string)
    requires ScanNat(Signless(s)) == ScannedNat(n, rest)
    ensures ScanSigned(s) == Some(Scanned(Signed(Negated(Negative(s), n)), rest))
  {
  }

  lemma ScanDigits(digits: string, rest: string)
    requires digits != "" && AllDigits(digits) && rest != "" && rest[0] == '"'
    ensures ScanNat(digits + rest) == ScannedNat(Value(digits), rest)
  {
    LeadingDigitsOf(digits, rest);
    assert (digits + rest)[..|digits|] == digits && (digits + rest)[|digits|..] == rest;
  }

  lemma TailQuoted(id: Identity)
    ensures "\"fw\": \"" <= Render(Tail(id)) && Render(Tail(id))[0] == '"'
    ensures Render(Tail(id))[1] == 'f'
  {
    RenderTail(id);
  }

  lemma FieldsScan(t: Record, rest: string)
    ensures Scan(FIELD_SHAPES, Render(Fields(t)) + rest) == Some((FieldRow(t), rest))
  {
    FieldsAreRow(t);
    RowSeparable(t);
    RowShape(t);
    ScanUndoesRender(Fields(t), rest);
  }

  lemma TailScan(id: Identity)
    requires Plain(id)
    ensures Scan(TAIL_SHAPES, Render(Tail(id))) == Some((Tail(id), ""))
    ensures IdentityOf(Tail(id)) == Some(id)
  {
    TailSeparable(id);
    ScanUndoesRender(Tail(id), "");
    assert Render(Tail(id)) + "" == Render(Tail(id));
  }

  /** What the middle of the payload reads as. */
  lemma WdtScan(code: int, id: Identity)
    ensures ParseWdt(WdtFragment(code) + Render(Tail(id))) ==
            if Legible(code) then Some((code, Render(Tail(id)))) else None
    ensures code == 0 <==> WdtFragment(code) == ""
  {
    var tail := Render(Tail(id));
    TailQuoted(id);
    if code == 0 {
      assert WdtFragment(code) + tail == tail;
    } else {
      WdtFragmentText(code);
      if Legible(code) {
        ParseLegible(code, tail);
      } else {
        ParseIllegible(code, tail);
      }
    }
  }

  /** What parsing the payload gives, for every code. Every field is recovered, exactly, when the
      code is legible; otherwise there is no reading the text. A missing wdt reads as 0, and is
      missing exactly when the code is 0. */
  lemma ParseUndoesText(t: Record, code: int, id: Identity)
    requires Plain(id)
    ensures Parse(Text(t, code, id)) ==
            if Legible(code) then Some(Parsed(t, Battery.Percent(t.battMv), code, id)) else None
    ensures code == 0 <==> WdtFragment(code) == ""
  {
    TextParts(t, code, id);
    FieldsScan(t, WdtFragment(code) + Render(Tail(id)));
    RowRecord(t);
    WdtScan(code, id);
    TailScan(id);
  }

  /** Two codes leave the same fragment exactly when they are equal, or both too long and alike in
      their first eight characters. */
  predicate SameWdt(a: int, b: int) {
    a == b || (!Legible(a) && !Legible(b) && First8(a) == First8(b))
  }

  function First8(code: int): string {
    var s := CodeText(code);
    if |s| <= 8 then s else s[..8]
  }

  lemma IllegibleFragment(code: int)
    requires !Legible(code)
    ensures WdtFragment(code) == WDT_NAME + First8(code) && |First8(code)| == 8
  {
    WdtFragmentText(code);
  }

  /** Reports print alike exactly when they are the same but for codes too long to tell apart. */
  lemma TextDeterminesReport(t: Record, a: int, id: Identity, t': Record, b: int, id': Identity)
    requires Plain(id) && Plain(id')
    ensures Text(t, a, id) == Text(t', b, id') <==> t == t' && id == id' && SameWdt(a, b)
  {
    if !Legible(a) && !Legible(b) {
      IllegibleFragment(a);
      IllegibleFragment(b);
      if Text(t, a, id) == Text(t', b, id') {
        SameFields(t, a, id, t', b, id');
        SplitAt(WdtFragment(a), Render(Tail(id)), WdtFragment(b), Render(Tail(id')));
        SplitAt(WDT_NAME, First8(a), WDT_NAME, First8(b));
        SameTail(id, id');
      } else if id == id' && t == t' {
        TextParts(t, a, id);
        TextParts(t', b, id');
      }
    } else {
      ParseUndoesText(t, a, id);
      ParseUndoesText(t', b, id');
    }
  }

  lemma SplitAt(a: string, x: string, b: string, y: string)
    requires |a| == |b| && a + x == b + y
    ensures a == b && x == y
  {
    assert (a + x)[..|a|] == a && (b + y)[..|b|] == b;
    assert (a + x)[|a|..] == x && (b + y)[|b|..] == y;
  }

  /** The fields are read off the front of the text whatever follows them. */
  lemma SameFields(t: Record, a: int, id: Identity, t': Record, b: int, id': Identity)
    requires Text(t, a, id) == Text(t', b, id')
    ensures t == t'
    ensures WdtFragment(a) + Render(Tail(id)) == WdtFragment(b) + Render(Tail(id'))
  {
    TextParts(t, a, id);
    TextParts(t', b, id');
    FieldsScan(t, WdtFragment(a) + Render(Tail(id)));
    FieldsScan(t', WdtFragment(b) + Render(Tail(id')));
    RowRecord(t);
    RowRecord(t');
  }

  lemma SameTail(id: Identity, id': Identity)
    requires Plain(id) && Plain(id') && Render(Tail(id)) == Render(Tail(id'))
    ensures id == id'
  {
    TailScan(id);
    TailScan(id');
  }

  predicate Int32(i: int) {
    -0x8000_0000 <= i <= 0x7FFF_FFFF
  }

  /** The text tells a 32-bit code from every other exactly when the code is legible. */
  lemma CodeIsLostExactly(t: Record, code: int, id: Identity)
    requires Plain(id) && Int32(code)
    ensures (forall other :: Int32(other) && Text(t, other, id) == Text(t, code, id) ==> other == code)
            <==> Legible(code)
  {
    if Legible(code) {
      forall other | Int32(other) && Text(t, other, id) == Text(t, code, id)
        ensures other == code
      {
        TextDeterminesReport(t, other, id, t, code, id);
      }
    } else {
      var other := Confused(code);
      ConfusedAlike(code);
      TextDeterminesReport(t, other, id, t, code, id);
      assert Text(t, other, id) == Text(t, code, id) && other != code;
    }
  }

  /** Another code with the same first eight characters: one digit more, or one less. */
  function Confused(code: int): int {
    if 0 < code then if code < 100_000_000 then code * 10 else code / 10
    else if -10_000_000 < code then code * 10 else -((-code) / 10)
  }

  lemma DropDigit(n: nat)
    requires 10 <= n
    ensures Digits(n / 10) == Digits(n)[..|Digits(n)| - 1]
  {
  }

  lemma ConfusedAlike(code: int)
    requires Int32(code) && !Legible(code)
    ensures var other := Confused(code);
            Int32(other) && other != code && !Legible(other) && First8(other) == First8(code)
  {
    var other := Confused(code);
    LegibleLength(code);
    LegibleLength(other);
    if (0 < code < 100_000_000) || (-10_000_000 < code < 0) {
      OneDigitMore(code, other);
    } else {
      OneDigitMore(other, code);
    }
  }

  /** Appending a digit leaves the first eight characters alone. */
  lemma OneDigitMore(short: int, long: int)
    requires short != 0 && (short < 0 <==> long < 0)
    requires (if short < 0 then -short else short) == (if long < 0 then -long else long) / 10
    requires 8 <= |CodeText(short)|
    ensures First8(short) == First8(long)
  {
    var n := if long < 0 then -long else long;
    DropDigit(n);
    assert CodeText(short) == CodeText(long)[..|CodeText(long)| - 1];
  }
}
