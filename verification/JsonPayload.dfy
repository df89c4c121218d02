/** The payload as a JSON text: for every wdt code it is decided whether it is one. */
module JsonPayload {
  import opened Format
  import opened JsonGrammar
  import opened Telemetry
  import Battery
  import Breadcrumb
  import Wake

  // ---------------------------------------------------------------- the payload's tree

  /** One space before every value and, except the first, every name. */
  function Spaced(j: Json): Padded {
    Padded(" ", j, "")
  }

  function One(name: string, j: Json): Members {
    OneMember(Name("", name, ""), Spaced(j))
  }

  function Then(front: Members, name: string, j: Json): Members {
    MoreMembers(front, Name(" ", name, ""), Spaced(j))
  }

  function Pair(a: Json, b: Json): Json {
    Array(MoreItems(OneItem(Padded("", a, "")), Spaced(b)))
  }

  function Member(name: string, value: string): string {
    "\"" + name + "\": " + value
  }

  function Num(p: Piece): Json {
    Number(Show(p))
  }

  function UpToHdop(t: Record): Members {
    var coords := One("coords", Pair(Num(Decimal(t.longitude, 6)), Num(Decimal(t.latitude, 6))));
    Then(coords, "hdop", Num(Decimal(t.hdop, 2)))
  }

  function UpToBatt(t: Record): Members {
    Then(UpToHdop(t), "batt", Num(Unsigned(Battery.Percent(t.battMv))))
  }

  function UpToVolt(t: Record): Members {
    Then(UpToBatt(t), "volt", Num(Unsigned(t.battMv)))
  }

  function UpToCharge(t: Record): Members {
    Then(UpToVolt(t), "charge", Num(Signed(t.charge.Code())))
  }

  function UpToSignal(t: Record): Members {
    Then(UpToCharge(t), "signal", Num(Signed(t.signalDbm)))
  }

  function UpToAwake(t: Record): Members {
    Then(UpToSignal(t), "awake", Num(Unsigned(t.awakeS)))
  }

  function WithWake(t: Record): Members {
    Then(UpToAwake(t), "wake", String(WakeName(t.wake)))
  }

  function WithWdt(t: Record, code: int): Members {
    if code == 0 then WithWake(t) else Then(WithWake(t), "wdt", Num(Signed(code)))
  }

  /** The space before "fw" is the one the wdt fragment may have lost. */
  function WithFw(t: Record, code: int, id: Identity): Members {
    MoreMembers(WithWdt(t, code), Name(Gap(code), "fw", ""), Spaced(String(id.fw)))
  }

  function Tree(t: Record, code: int, id: Identity): Json {
    Object(Then(WithFw(t, code, id), "hw", String(id.hw)))
  }

  // ---------------------------------------------------------------- well-formed

  lemma NumConforms(p: Piece)
    requires p.Unsigned? || p.Signed? || (p.Decimal? && 0 < p.places)
    ensures WellFormed(Num(p))
  {
    match p {
      case Unsigned(n) => assert IsNumberOf(Show(p), false, Digits(n), "", "");
      case Signed(i) => assert IsNumberOf(Show(p), i < 0, Digits(if i < 0 then -i else i), "", "");
      case Decimal(v, places) =>
        var frac := "." + PadDigits(v.scaled, places);
        assert frac[1..] == PadDigits(v.scaled, places);
        assert IsNumberOf(Show(p), v.neg, Digits(Whole(v, places)), frac, "");
    }
  }

  predicate Unescaped(s: string) {
    forall i :: 0 <= i < |s| ==> IsUnescaped(s[i])
  }

  lemma {:induction false} PlainChars(s: string)
    requires Unescaped(s)
    ensures IsChars(s)
  {
    if s != "" {
      PlainChars(s[1..]);
    }
  }

  /** A member after others, under a name without escapes. */
  lemma MoreConforms(m: Members, space: string, name: string, j: Json)
    requires !m.NoMembers? && WellFormedMembers(m) && IsSpace(space) && Unescaped(name) && WellFormed(j)
    ensures WellFormedMembers(MoreMembers(m, Name(space, name, ""), Spaced(j)))
  {
    PlainChars(name);
  }

  lemma NamesUnescaped()
    ensures Unescaped("coords") && Unescaped("hdop") && Unescaped("batt") && Unescaped("volt")
    ensures Unescaped("charge") && Unescaped("signal") && Unescaped("awake") && Unescaped("wake")
    ensures Unescaped("wdt") && Unescaped("fw") && Unescaped("hw")
  {
  }

  lemma FirstConforms(name: string, j: Json)
    requires Unescaped(name) && WellFormed(j)
    ensures WellFormedMembers(One(name, j))
  {
    PlainChars(name);
  }

  lemma PairConforms(a: Json, b: Json)
    requires WellFormed(a) && WellFormed(b)
    ensures WellFormed(Pair(a, b))
  {
    var first := OneItem(Padded("", a, ""));
    assert WellFormedItems(first);
    assert WellFormedPadded(Spaced(b));
    assert WellFormedItems(MoreItems(first, Spaced(b)));
  }

  lemma PositionConforms(t: Record)
    ensures WellFormedMembers(UpToHdop(t))
  {
    NamesUnescaped();
    NumConforms(Decimal(t.longitude, 6));
    NumConforms(Decimal(t.latitude, 6));
    NumConforms(Decimal(t.hdop, 2));
    var pair := Pair(Num(Decimal(t.longitude, 6)), Num(Decimal(t.latitude, 6)));
    PairConforms(Num(Decimal(t.longitude, 6)), Num(Decimal(t.latitude, 6)));
    FirstConforms("coords", pair);
    MoreConforms(One("coords", pair), " ", "hdop", Num(Decimal(t.hdop, 2)));
  }

  lemma ThreeConform(m: Members, a: string, x: Piece, b: string, y: Piece, c: string, z: Json)
    requires !m.NoMembers? && WellFormedMembers(m) && Unescaped(a) && Unescaped(b) && Unescaped(c)
    requires (x.Unsigned? || x.Signed?) && (y.Unsigned? || y.Signed?) && WellFormed(z)
    ensures WellFormedMembers(Then(Then(Then(m, a, Num(x)), b, Num(y)), c, z))
  {
    NumConforms(x);
    NumConforms(y);
    MoreConforms(m, " ", a, Num(x));
    MoreConforms(Then(m, a, Num(x)), " ", b, Num(y));
    MoreConforms(Then(Then(m, a, Num(x)), b, Num(y)), " ", c, z);
  }

  lemma SupplyConforms(t: Record)
    ensures WellFormedMembers(UpToCharge(t))
  {
    NamesUnescaped();
    PositionConforms(t);
    NumConforms(Signed(t.charge.Code()));
    ThreeConform(UpToHdop(t), "batt", Unsigned(Battery.Percent(t.battMv)), "volt", Unsigned(t.battMv),
                 "charge", Num(Signed(t.charge.Code())));
  }

  lemma WakeNamesUnescaped()
    ensures Unescaped("boot") && Unescaped("timer") && Unescaped("vbus") && Unescaped("motion")
  {
  }

  lemma StringConforms(chars: string)
    requires Unescaped(chars)
    ensures WellFormed(String(chars))
  {
    PlainChars(chars);
  }

  lemma WakeNameConforms(t: Record)
    ensures WellFormed(String(WakeName(t.wake)))
  {
    WakeNamesUnescaped();
    StringConforms(WakeName(t.wake));
  }

  lemma WakeConforms(t: Record)
    ensures WellFormedMembers(WithWake(t))
  {
    NamesUnescaped();
    SupplyConforms(t);
    WakeNameConforms(t);
    ThreeConform(UpToCharge(t), "signal", Signed(t.signalDbm), "awake", Unsigned(t.awakeS),
                 "wake", String(WakeName(t.wake)));
  }

  lemma WdtConforms(t: Record, code: int)
    ensures WellFormedMembers(WithWdt(t, code))
  {
    NamesUnescaped();
    WakeConforms(t);
    if code != 0 {
      NumConforms(Signed(code));
      MoreConforms(WithWake(t), " ", "wdt", Num(Signed(code)));
    }
  }

  lemma TreeConforms(t: Record, code: int, id: Identity)
    requires IsChars(id.fw) && IsChars(id.hw)
    ensures WellFormed(Tree(t, code, id))
  {
    NamesUnescaped();
    WdtConforms(t, code);
    MoreConforms(WithWdt(t, code), Gap(code), "fw", String(id.fw));
    MoreConforms(WithFw(t, code, id), " ", "hw", String(id.hw));
  }

  // ---------------------------------------------------------------- the same text

  /** An object still open after the members `m`. */
  function Open(m: Members): string {
    "{" + MembersText(m)
  }

  /** An open object with one more member. */
  function Add(open: string, name: string, value: string): string {
    open + ", " + Member(name, value)
  }

  lemma OpenThen(m: Members, name: string, j: Json)
    ensures Open(Then(m, name, j)) == Add(Open(m), name, TextOf(j))
  {
    MemberText(" ", name, j);
    assert "{" + (MembersText(m) + "," + (" " + Member(name, TextOf(j)))) ==
           "{" + MembersText(m) + ", " + Member(name, TextOf(j));
  }

  lemma MemberText(space: string, name: string, j: Json)
    ensures NameText(Name(space, name, "")) + ":" + PaddedText(Spaced(j)) ==
            space + Member(name, TextOf(j))
  {
    var text := TextOf(j);
    assert PaddedText(Spaced(j)) == " " + text + "";
    assert NameText(Name(space, name, "")) == space + ("\"" + name + "\"") + "";
    assert space + ("\"" + name + "\"") + "" + ":" + (" " + text + "") ==
           space + ("\"" + name + "\": " + text);
  }

  lemma OpenThree(m: Members, a: string, x: Json, b: string, y: Json, c: string, z: Json)
    ensures Open(Then(Then(Then(m, a, x), b, y), c, z)) ==
            Add(Add(Add(Open(m), a, TextOf(x)), b, TextOf(y)), c, TextOf(z))
  {
    OpenThen(m, a, x);
    OpenThen(Then(m, a, x), b, y);
    OpenThen(Then(Then(m, a, x), b, y), c, z);
  }

  lemma AddText(open: string, name: string, lit: string, value: string)
    requires lit == ", \"" + name + "\": "
    ensures open + lit + value == Add(open, name, value)
  {
    assert lit == ", " + ("\"" + name + "\": ");
  }

  /** The array's closing bracket is in the literal before hdop. */
  lemma CoordsText(lon: string, lat: string, hdop: string)
    ensures "{\"coords\": [" + lon + ", " + lat + "], \"hdop\": " + hdop ==
            Add("{" + Member("coords", "[" + lon + ", " + lat + "]"), "hdop", hdop)
  {
  }

  lemma PairText(a: string, b: string)
    ensures "[" + (("" + a + "") + "," + (" " + b + "")) + "]" == "[" + a + ", " + b + "]"
  {
  }

  lemma CoordsMember(lon: Piece, lat: Piece)
    ensures Open(One("coords", Pair(Num(lon), Num(lat)))) ==
            "{" + Member("coords", "[" + Show(lon) + ", " + Show(lat) + "]")
  {
    var pair := Pair(Num(lon), Num(lat));
    assert PaddedText(Padded("", Num(lon), "")) == "" + Show(lon) + "";
    assert PaddedText(Spaced(Num(lat))) == " " + Show(lat) + "";
    assert ItemsText(pair.items) == ("" + Show(lon) + "") + "," + (" " + Show(lat) + "");
    PairText(Show(lon), Show(lat));
    MemberText("", "coords", pair);
    assert "" + Member("coords", TextOf(pair)) == Member("coords", TextOf(pair));
  }

  lemma PrintsPosition(t: Record)
    ensures Render(Position(t)) == Open(UpToHdop(t))
  {
    var lon, lat, hdop := Decimal(t.longitude, 6), Decimal(t.latitude, 6), Decimal(t.hdop, 2);
    RenderSix(Lit("{\"coords\": ["), lon, Lit(", "), lat, Lit("], \"hdop\": "), hdop);
    CoordsText(Show(lon), Show(lat), Show(hdop));
    var coords := One("coords", Pair(Num(lon), Num(lat)));
    CoordsMember(lon, lat);
    OpenThen(coords, "hdop", Num(hdop));
  }

  lemma Associate(s: string, a: string, b: string, c: string, d: string, e: string, f: string)
    ensures s + (a + b + c + d + e + f) == s + a + b + c + d + e + f
  {
  }

  lemma SupplyText(open: string, batt: string, volt: string, charge: string)
    ensures open + (", \"batt\": " + batt + ", \"volt\": " + volt + ", \"charge\": " + charge) ==
            Add(Add(Add(open, "batt", batt), "volt", volt), "charge", charge)
  {
    assert ", \"batt\": " == ", \"" + "batt" + "\": ";
    AddText(open, "batt", ", \"batt\": ", batt);
    var one := Add(open, "batt", batt);
    assert ", \"volt\": " == ", \"" + "volt" + "\": ";
    AddText(one, "volt", ", \"volt\": ", volt);
    var two := Add(one, "volt", volt);
    assert ", \"charge\": " == ", \"" + "charge" + "\": ";
    AddText(two, "charge", ", \"charge\": ", charge);
    Associate(open, ", \"batt\": ", batt, ", \"volt\": ", volt, ", \"charge\": ", charge);
  }

  lemma PrintsSupply(t: Record)
    ensures Open(UpToHdop(t)) + Render(Supply(t)) == Open(UpToCharge(t))
  {
    var batt, volt, charge := Unsigned(Battery.Percent(t.battMv)), Unsigned(t.battMv), Signed(t.charge.Code());
    RenderSix(Lit(", \"batt\": "), batt, Lit(", \"volt\": "), volt, Lit(", \"charge\": "), charge);
    SupplyText(Open(UpToHdop(t)), Show(batt), Show(volt), Show(charge));
    OpenThree(UpToHdop(t), "batt", Num(batt), "volt", Num(volt), "charge", Num(charge));
  }

  /** A string member's closing quote comes with the literal after it. */
  lemma AddQuoted(open: string, name: string, lit: string, chars: string, rest: string)
    requires lit == ", \"" + name + "\": \""
    ensures open + lit + chars + ("\"" + rest) == Add(open, name, "\"" + chars + "\"") + rest
  {
    assert lit == ", " + ("\"" + name + "\": ") + "\"";
  }

  lemma CircumstanceText(open: string, signal: string, awake: string, wake: string)
    ensures open + (", \"signal\": " + signal + ", \"awake\": " + awake + ", \"wake\": \"" + wake) + "\", " ==
            Add(Add(Add(open, "signal", signal), "awake", awake), "wake", "\"" + wake + "\"") + ", "
  {
    assert ", \"signal\": " == ", \"" + "signal" + "\": ";
    AddText(open, "signal", ", \"signal\": ", signal);
    var one := Add(open, "signal", signal);
    assert ", \"awake\": " == ", \"" + "awake" + "\": ";
    AddText(one, "awake", ", \"awake\": ", awake);
    var two := Add(one, "awake", awake);
    assert ", \"wake\": \"" == ", \"" + "wake" + "\": \"";
    AddQuoted(two, "wake", ", \"wake\": \"", wake, ", ");
    assert "\", " == "\"" + ", ";
    Associate(open, ", \"signal\": ", signal, ", \"awake\": ", awake, ", \"wake\": \"", wake);
  }

  lemma PrintsCircumstance(t: Record)
    ensures Open(UpToCharge(t)) + Render(Circumstance(t)) + "\", " == Open(WithWake(t)) + ", "
  {
    var signal, awake, wake := Signed(t.signalDbm), Unsigned(t.awakeS), WakeName(t.wake);
    RenderSix(Lit(", \"signal\": "), signal, Lit(", \"awake\": "), awake, Lit(", \"wake\": \""), Str(wake));
    CircumstanceText(Open(UpToCharge(t)), Show(signal), Show(awake), wake);
    OpenThree(UpToCharge(t), "signal", Num(signal), "awake", Num(awake), "wake", String(wake));
    assert TextOf(String(wake)) == "\"" + wake + "\"";
  }

  lemma PrintsFields(t: Record)
    ensures Render(Fields(t)) == Open(WithWake(t)) + ", "
  {
    RenderFields(t);
    PrintsPosition(t);
    PrintsSupply(t);
    PrintsCircumstance(t);
  }

  /** An open object, the next comma, and the space before the next name if there is one. */
  function Ready(open: string, gap: string): string {
    open + "," + gap
  }

  lemma PrintsWdt(t: Record, code: int)
    requires Legible(code)
    ensures Open(WithWake(t)) + ", " + WdtFragment(code) == Ready(Open(WithWdt(t, code)), Gap(code))
  {
    var open := Open(WithWake(t));
    if code == 0 {
      assert open + ", " + "" == open + "," + " ";
    } else {
      WdtFragmentText(code);
      OpenThen(WithWake(t), "wdt", Num(Signed(code)));
      WdtText(open, CodeText(code), Gap(code));
    }
  }

  lemma WdtText(open: string, code: string, gap: string)
    ensures open + ", " + (WDT_NAME + (code + "," + gap)) == Ready(Add(open, "wdt", code), gap)
  {
    assert WDT_NAME == "\"" + "wdt" + "\": ";
  }

  lemma PrintsTail(t: Record, code: int, id: Identity)
    ensures Ready(Open(WithWdt(t, code)), Gap(code)) + Render(Tail(id)) == TextOf(Tree(t, code, id))
  {
    var m, fw, hw := WithWdt(t, code), String(id.fw), String(id.hw);
    RenderTail(id);
    MemberText(Gap(code), "fw", fw);
    assert MembersText(WithFw(t, code, id)) == MembersText(m) + "," + (Gap(code) + Member("fw", TextOf(fw)));
    OpenThen(WithFw(t, code, id), "hw", hw);
    TailText(MembersText(m), Gap(code), id);
    ObjectText(Then(WithFw(t, code, id), "hw", hw));
  }

  lemma TailText(members: string, gap: string, id: Identity)
    ensures Ready("{" + members, gap) + ("\"fw\": \"" + id.fw + "\", \"hw\": \"" + id.hw + "\"}") ==
            Add("{" + (members + "," + (gap + Member("fw", Quoted(id.fw)))), "hw", Quoted(id.hw)) + "}"
  {
    var open := Ready("{" + members, gap);
    assert Member("fw", Quoted(id.fw)) == "\"fw\": \"" + id.fw + "\"";
    assert "{" + (members + "," + (gap + Member("fw", Quoted(id.fw)))) == open + "\"fw\": \"" + id.fw + "\"";
    assert Member("hw", Quoted(id.hw)) == "\"hw\": \"" + id.hw + "\"";
    TailStrings(open, id.fw, id.hw);
  }

  lemma TailStrings(open: string, fw: string, hw: string)
    ensures open + ("\"fw\": \"" + fw + "\", \"hw\": \"" + hw + "\"}") ==
            (open + "\"fw\": \"" + fw + "\"") + ", " + ("\"hw\": \"" + hw + "\"") + "}"
  {
    assert "\", \"hw\": \"" == "\"" + ", " + "\"hw\": \"";
    assert "\"}" == "\"" + "}";
  }

  lemma ObjectText(m: Members)
    ensures TextOf(Object(m)) == Open(m) + "}"
  {
  }

  lemma Chain(a: string, w: string, b: string, t: string)
    requires a + w == b
    ensures a + (w + t) == b + t
  {
  }

  /** With a legible code the payload is the text of its tree. */
  lemma PrintsTree(t: Record, code: int, id: Identity)
    requires Legible(code)
    ensures Text(t, code, id) == TextOf(Tree(t, code, id))
  {
    TextParts(t, code, id);
    PrintsFields(t);
    PrintsWdt(t, code);
    PrintsTail(t, code, id);
    Chain(Open(WithWake(t)) + ", ", WdtFragment(code), Ready(Open(WithWdt(t, code)), Gap(code)),
          Render(Tail(id)));
  }

  // ---------------------------------------------------------------- the payload that is no JSON

  /** A longer code loses its comma, so the next member's name begins right behind a digit. */
  lemma IllegibleBreaks(t: Record, code: int, id: Identity)
    requires !Legible(code)
    ensures Read(Between(false), Text(t, code, id)) == Broken
  {
    var front, tail := Open(WithWake(t)) + ", ", Render(Tail(id));
    TextParts(t, code, id);
    PrintsFields(t);
    OpenReads(t);
    FragmentReads(code);
    ReadConcat(Between(false), front, WdtFragment(code) + tail);
    ReadConcat(Between(false), WdtFragment(code), tail);
    TailQuoted(id);
    ReadBroken(tail[1..]);
  }

  lemma FragmentReads(code: int)
    requires !Legible(code)
    ensures Read(Between(false), WdtFragment(code)) == Between(true)
  {
    WdtFragmentText(code);
    var digits := CutCode(code);
    var cut := CodeText(code)[..8];
    assert cut[|cut| - 1] == digits[|digits| - 1];
    NameReads();
    ReadConcat(Between(false), WDT_NAME, cut);
    ReadPlain(false, cut);
  }

  lemma OpenReads(t: Record)
    ensures Read(Between(false), Open(WithWake(t)) + ", ") == Between(false)
  {
    WakeConforms(t);
    ReadMembers(WithWake(t));
    ReadFront(MembersText(WithWake(t)));
  }

  lemma ReadFront(members: string)
    requires Read(Between(false), members).Between?
    ensures Read(Between(false), "{" + members + ", ") == Between(false)
  {
    ReadConcat(Between(false), "{", members);
    assert "{"[1..] == "";
    ReadConcat(Between(false), "{" + members, ", ");
    ReadPlain(Read(Between(false), "{" + members).digit, ", ");
  }

  lemma NameReads()
    ensures Read(Between(false), WDT_NAME) == Between(false)
  {
    PlainChars("wdt");
    ReadQuoted("wdt");
    ReadConcat(Between(false), Quoted("wdt"), ": ");
    ReadPlain(false, ": ");
    assert WDT_NAME == Quoted("wdt") + ": ";
  }

  // ---------------------------------------------------------------- results

  /** For every record, code and identity of JSON characters: the payload is a JSON text exactly
      when the code has at most seven characters, and is then one object with the members of its
      tree. */
  lemma PayloadIsJson(t: Record, code: int, id: Identity)
    requires IsChars(id.fw) && IsChars(id.hw)
    ensures IsJson(Text(t, code, id)) <==> Legible(code)
    ensures Legible(code) ==> Text(t, code, id) == TextOf(Tree(t, code, id)) && WellFormed(Tree(t, code, id))
  {
    if Legible(code) {
      PrintsTree(t, code, id);
      TreeConforms(t, code, id);
      var p := Padded("", Tree(t, code, id), "");
      assert WellFormedPadded(p) && PaddedText(p) == Text(t, code, id);
    } else {
      IllegibleBreaks(t, code, id);
      if IsJson(Text(t, code, id)) {
        NoStringBehindDigit(Text(t, code, id));
      }
    }
  }

  lemma EntriesThen(m: Members, name: string, value: Json)
    ensures Entries(Then(m, name, value)) == Entries(m) + [Entry(name, value)]
  {
  }

  /** The position, as the documentation lists it: longitude first. */
  function PositionEntries(t: Record): seq<Entry> {
    [Entry("coords", Pair(Num(Decimal(t.longitude, 6)), Num(Decimal(t.latitude, 6)))),
     Entry("hdop", Num(Decimal(t.hdop, 2)))]
  }

  /** The battery: percentage, millivolts, and 0, 1 or 2 for discharging, charging or full. */
  function SupplyEntries(t: Record): seq<Entry> {
    [Entry("batt", Num(Unsigned(Battery.Percent(t.battMv)))), Entry("volt", Num(Unsigned(t.battMv))),
     Entry("charge", Num(Signed(if t.charge == Discharging then 0 else if t.charge == Full then 2 else 1)))]
  }

  /** The signal, the seconds awake, and why the tracker woke. */
  function CircumstanceEntries(t: Record): seq<Entry> {
    [Entry("signal", Num(Signed(t.signalDbm))), Entry("awake", Num(Unsigned(t.awakeS))),
     Entry("wake", String(if t.wake == Wake.Boot then "boot" else if t.wake == Wake.Timer then "timer"
                          else if t.wake == Wake.Vbus then "vbus" else "motion"))]
  }

  lemma PositionListed(t: Record)
    ensures Entries(UpToHdop(t)) == PositionEntries(t)
  {
    var pair := Pair(Num(Decimal(t.longitude, 6)), Num(Decimal(t.latitude, 6)));
    assert Entries(One("coords", pair)) == [Entry("coords", pair)];
    EntriesThen(One("coords", pair), "hdop", Num(Decimal(t.hdop, 2)));
  }

  lemma SupplyListed(t: Record)
    ensures Entries(UpToCharge(t)) == Entries(UpToHdop(t)) + SupplyEntries(t)
  {
    EntriesThen(UpToHdop(t), "batt", Num(Unsigned(Battery.Percent(t.battMv))));
    EntriesThen(UpToBatt(t), "volt", Num(Unsigned(t.battMv)));
    EntriesThen(UpToVolt(t), "charge", Num(Signed(t.charge.Code())));
  }

  lemma CircumstanceListed(t: Record)
    ensures Entries(WithWake(t)) == Entries(UpToCharge(t)) + CircumstanceEntries(t)
  {
    EntriesThen(UpToCharge(t), "signal", Num(Signed(t.signalDbm)));
    EntriesThen(UpToSignal(t), "awake", Num(Unsigned(t.awakeS)));
    EntriesThen(UpToAwake(t), "wake", String(WakeName(t.wake)));
  }

  lemma TailListed(t: Record, code: int, id: Identity)
    ensures Entries(Tree(t, code, id).members)
            == Entries(WithWdt(t, code)) + [Entry("fw", String(id.fw)), Entry("hw", String(id.hw))]
  {
    assert Entries(WithFw(t, code, id)) == Entries(WithWdt(t, code)) + [Entry("fw", String(id.fw))];
    EntriesThen(WithFw(t, code, id), "hw", String(id.hw));
  }

  /** The documented members in the documented order, each with its own value; wdt only with a code
      other than 0. */
  lemma MembersListed(t: Record, code: int, id: Identity)
    ensures Entries(Tree(t, code, id).members) ==
            PositionEntries(t) + SupplyEntries(t) + CircumstanceEntries(t)
            + (if code == 0 then [] else [Entry("wdt", Num(Signed(code)))])
            + [Entry("fw", String(id.fw)), Entry("hw", String(id.hw))]
  {
    PositionListed(t);
    SupplyListed(t);
    CircumstanceListed(t);
    EntriesThen(WithWake(t), "wdt", Num(Signed(code)));
    TailListed(t, code, id);
  }

  /** What the boots behind a report mean for it: its payload is JSON unless this is the first
      boot to finish since power came up, the magic was found nevertheless, and the word found
      with it prints as more than seven characters. */
  lemma ReportIsJsonExactly(boots: seq<Breadcrumb.Event>, t: Record, id: Identity)
    requires Breadcrumb.Exec(boots).stage == Breadcrumb.Running
    requires IsChars(id.fw) && IsChars(id.hw)
    ensures Breadcrumb.PastOf(boots).rubbish < Breadcrumb.WORD
    ensures IsJson(Text(t, Breadcrumb.ReportedCode(boots), id))
            <==> !(Breadcrumb.NeverWiped(Breadcrumb.PastOf(boots))
                   && !Legible(Breadcrumb.AsInt(Breadcrumb.PastOf(boots).rubbish)))
  {
    Breadcrumb.Invariants(boots);
    Breadcrumb.ReportedValueExactly(boots, Breadcrumb.Exec(boots));
    PayloadIsJson(t, Breadcrumb.ReportedCode(boots), id);
  }

  lemma ByteCodeIsReadable(t: Record, code: nat, id: Identity)
    requires code < 256 && IsChars(id.fw) && IsChars(id.hw) && Plain(id)
    ensures IsJson(Text(t, code, id))
    ensures Parse(Text(t, code, id)) == Some(Parsed(t, Battery.Percent(t.battMv), code, id))
  {
    assert Legible(code);
    PayloadIsJson(t, code, id);
    ParseUndoesText(t, code, id);
  }

  /** All that is for an int-sized enum. In a byte no word makes a code that is lost or breaks the
      payload; Breadcrumb.ByteValueExactly says when it is the code of no phase. */
  lemma ByteEnumIsHarmless(boots: seq<Breadcrumb.Event>, t: Record, id: Identity)
    requires IsChars(id.fw) && IsChars(id.hw) && Plain(id)
    ensures var code := Breadcrumb.ByteCode(boots);
            IsJson(Text(t, code, id))
            && Parse(Text(t, code, id)) == Some(Parsed(t, Battery.Percent(t.battMv), code, id))
  {
    ByteCodeIsReadable(t, Breadcrumb.ByteCode(boots), id);
  }

  /** Such a report, with an int-sized enum: the word 10000000 survives a loss of power together with the magic. */
  lemma SomeReportIsNoJson(t: Record, id: Identity)
    requires IsChars(id.fw) && IsChars(id.hw)
    ensures Breadcrumb.Exec(Breadcrumb.SurvivingBoot(10_000_000)).stage == Breadcrumb.Running
    ensures Breadcrumb.ReportedCode(Breadcrumb.SurvivingBoot(10_000_000)) == 10_000_000
    ensures !IsJson(Text(t, 10_000_000, id))
  {
    Breadcrumb.SurvivingBootReports(10_000_000);
    PayloadIsJson(t, 10_000_000, id);
  }
}
