/** The grammar of RFC 8259: a JSON text is the printed form of a tree whose tokens obey it, with
    any white space it allows. And something no JSON text contains. */
module JsonGrammar {
  import opened Format

  datatype Json =
    | Word(text: string)
    | Number(text: string)
    | String(chars: string)
    | Array(items: Items)
    | Object(members: Members)

  /** A value with white space around it. */
  datatype Padded = Padded(before: string, value: Json, after: string)

  datatype Items = NoItems(space: string) | OneItem(first: Padded) | MoreItems(front: Items, next: Padded)

  /** A member's name with white space around it. */
  datatype Name = Name(before: string, chars: string, after: string)

  datatype Members =
    | NoMembers(space: string)
    | OneMember(name: Name, value: Padded)
    | MoreMembers(front: Members, name: Name, value: Padded)

  // ---------------------------------------------------------------- the grammar

  /** ws = *( %x20 / %x09 / %x0A / %x0D ) */
  predicate IsSpace(s: string) {
    forall i :: 0 <= i < |s| ==> s[i] in " \t\n\r"
  }

  /** false / null / true */
  predicate IsWord(s: string) {
    s == "false" || s == "null" || s == "true"
  }

  /** int = zero / ( digit1-9 *DIGIT ) */
  predicate IsInt(s: string) {
    s != "" && AllDigits(s) && (s[0] == '0' ==> |s| == 1)
  }

  /** [ decimal-point 1*DIGIT ] */
  predicate IsFrac(s: string) {
    s == "" || (s[0] == '.' && 1 < |s| && AllDigits(s[1..]))
  }

  /** [ e [ minus / plus ] 1*DIGIT ] */
  predicate IsExp(s: string) {
    s == "" || (s[0] in "eE" && 1 < |s| &&
                (AllDigits(s[1..]) || (s[1] in "+-" && 2 < |s| && AllDigits(s[2..]))))
  }

  /** number = [ minus ] int [ frac ] [ exp ] */
  ghost predicate IsNumber(s: string) {
    exists neg, i, f, e :: IsNumberOf(s, neg, i, f, e)
  }

  predicate IsNumberOf(s: string, neg: bool, i: string, f: string, e: string) {
    s == Sign(neg) + i + f + e && IsInt(i) && IsFrac(f) && IsExp(e)
  }

  /** unescaped = %x20-21 / %x23-5B / %x5D-10FFFF */
  predicate IsUnescaped(c: char) {
    ' ' <= c && c != '"' && c != '\\'
  }

  predicate IsHex(c: char) {
    IsDigit(c) || 'a' <= c <= 'f' || 'A' <= c <= 'F'
  }

  /** char = unescaped / escape ( one of eight characters, or u and four hex digits ): how many
      characters the first one of the text takes, 0 if it is none. */
  function CharLength(s: string): (k: nat)
    requires s != ""
    ensures k <= |s|
  {
    if IsUnescaped(s[0]) then 1
    else if s[0] == '\\' && 2 <= |s| && s[1] in "\"\\/bfnrt" then 2
    else if s[0] == '\\' && 6 <= |s| && s[1] == 'u'
            && IsHex(s[2]) && IsHex(s[3]) && IsHex(s[4]) && IsHex(s[5]) then 6
    else 0
  }

  /** *char */
  predicate IsChars(s: string) {
    s == "" || (0 < CharLength(s) && IsChars(s[CharLength(s)..]))
  }

  ghost predicate WellFormed(j: Json) {
    match j
    case Word(text) => IsWord(text)
    case Number(text) => IsNumber(text)
    case String(chars) => IsChars(chars)
    case Array(items) => WellFormedItems(items)
    case Object(members) => WellFormedMembers(members)
  }

  ghost predicate WellFormedPadded(p: Padded) {
    IsSpace(p.before) && WellFormed(p.value) && IsSpace(p.after)
  }

  ghost predicate WellFormedItems(m: Items) {
    match m
    case NoItems(space) => IsSpace(space)
    case OneItem(first) => WellFormedPadded(first)
    case MoreItems(front, next) => !front.NoItems? && WellFormedItems(front) && WellFormedPadded(next)
  }

  predicate WellFormedName(n: Name) {
    IsSpace(n.before) && IsChars(n.chars) && IsSpace(n.after)
  }

  ghost predicate WellFormedMembers(m: Members) {
    match m
    case NoMembers(space) => IsSpace(space)
    case OneMember(name, value) => WellFormedName(name) && WellFormedPadded(value)
    case MoreMembers(front, name, value) =>
      !front.NoMembers? && WellFormedMembers(front) && WellFormedName(name) && WellFormedPadded(value)
  }

  function Quoted(chars: string): string {
    "\"" + chars + "\""
  }

  function TextOf(j: Json): string {
    match j
    case Word(text) => text
    case Number(text) => text
    case String(chars) => Quoted(chars)
    case Array(items) => "[" + ItemsText(items) + "]"
    case Object(members) => "{" + MembersText(members) + "}"
  }

  function PaddedText(p: Padded): string {
    p.before + TextOf(p.value) + p.after
  }

  function ItemsText(m: Items): string {
    match m
    case NoItems(space) => space
    case OneItem(first) => PaddedText(first)
    case MoreItems(front, next) => ItemsText(front) + "," + PaddedText(next)
  }

  function NameText(n: Name): string {
    n.before + Quoted(n.chars) + n.after
  }

  function MembersText(m: Members): string {
    match m
    case NoMembers(space) => space
    case OneMember(name, value) => NameText(name) + ":" + PaddedText(value)
    case MoreMembers(front, name, value) =>
      MembersText(front) + "," + (NameText(name) + ":" + PaddedText(value))
  }

  /** JSON-text = ws value ws */
  ghost predicate IsJson(s: string) {
    exists p :: WellFormedPadded(p) && PaddedText(p) == s
  }

  datatype Entry = Entry(name: string, value: Json)

  /** The members in order, without the space around them. */
  function Entries(m: Members): seq<Entry> {
    match m
    case NoMembers(_) => []
    case OneMember(name, value) => [Entry(name.chars, value.value)]
    case MoreMembers(front, name, value) => Entries(front) + [Entry(name.chars, value.value)]
  }

  // ---------------------------------------------------------------- what no JSON text contains

  /** Reading a text from the left: between strings, having just seen a digit or not; inside a
      string; behind a backslash; or broken, once a string begins right behind a digit. */
  datatype Mode = Between(digit: bool) | Inside | Escaped | Broken

  function Next(m: Mode, c: char): Mode {
    match m
    case Between(digit) => if c == '"' then if digit then Broken else Inside else Between(IsDigit(c))
    case Inside => if c == '"' then Between(false) else if c == '\\' then Escaped else Inside
    case Escaped => Inside
    case Broken => Broken
  }

  function Read(m: Mode, s: string): Mode
    decreases s
  {
    if s == "" then m else Read(Next(m, s[0]), s[1..])
  }

  lemma {:induction false} ReadConcat(m: Mode, a: string, b: string)
    ensures Read(m, a + b) == Read(Read(m, a), b)
    decreases a
  {
    if a == "" {
      assert a + b == b;
    } else {
      assert (a + b)[1..] == a[1..] + b;
      ReadConcat(Next(m, a[0]), a[1..], b);
    }
  }

  lemma {:induction false} ReadBroken(s: string)
    ensures Read(Broken, s) == Broken
  {
    if s != "" {
      ReadBroken(s[1..]);
    }
  }

  /** Without quotes one stays between strings. */
  lemma {:induction false} ReadPlain(digit: bool, s: string)
    requires '"' !in s
    ensures Read(Between(digit), s) == Between(if s == "" then digit else IsDigit(s[|s| - 1]))
    decreases s
  {
    if s != "" {
      ReadPlain(IsDigit(s[0]), s[1..]);
    }
  }

  lemma ReadChar(m: Mode, s: string, c: char)
    ensures Read(m, s + [c]) == Next(Read(m, s), c)
  {
    ReadConcat(m, s, [c]);
    assert [c][1..] == "";
  }

  lemma ReadEscape(s: string)
    requires 2 <= |s| && s[0] == '\\'
    ensures Read(Inside, s) == Read(Inside, s[2..])
  {
    assert s[1..][1..] == s[2..];
  }

  lemma ReadHex(s: string)
    requires 4 <= |s| && IsHex(s[0]) && IsHex(s[1]) && IsHex(s[2]) && IsHex(s[3])
    ensures Read(Inside, s) == Read(Inside, s[4..])
  {
    assert Read(Inside, s) == Read(Inside, s[1..]);
    assert s[1..][1..] == s[2..];
    assert Read(Inside, s[1..]) == Read(Inside, s[2..]);
    assert s[2..][1..] == s[3..];
    assert Read(Inside, s[2..]) == Read(Inside, s[3..]);
    assert s[3..][1..] == s[4..];
  }

  lemma {:induction false} ReadChars(s: string)
    requires IsChars(s)
    ensures Read(Inside, s) == Inside
    decreases s
  {
    if s != "" {
      ReadChars(s[CharLength(s)..]);
      if CharLength(s) == 2 {
        ReadEscape(s);
      } else if CharLength(s) == 6 {
        ReadEscape(s);
        ReadHex(s[2..]);
        assert s[2..][4..] == s[6..];
      }
    }
  }

  lemma ReadQuoted(chars: string)
    requires IsChars(chars)
    ensures Read(Between(false), Quoted(chars)) == Between(false)
  {
    ReadConcat(Between(false), "\"", chars);
    assert "\""[1..] == "";
    ReadChars(chars);
    ReadChar(Between(false), "\"" + chars, '"');
  }

  lemma ReadSpace(digit: bool, s: string)
    requires IsSpace(s)
    ensures Read(Between(digit), s) == Between(s == "" && digit)
  {
    ReadPlain(digit, s);
  }

  lemma NumberUnquoted(s: string)
    requires IsNumber(s)
    ensures '"' !in s
  {
    var neg, i, f, e :| IsNumberOf(s, neg, i, f, e);
    assert '"' !in Sign(neg) && '"' !in i;
    assert f == "" || f == "." + f[1..];
    assert '"' !in f;
    if e != "" {
      assert e == [e[0]] + e[1..];
      assert e[1] in "+-" ==> e[1..] == [e[1]] + e[2..];
    }
    assert '"' !in e;
  }

  /** A value, read from between strings with no digit before it, ends between strings. */
  lemma {:induction false} ReadValue(j: Json)
    requires WellFormed(j)
    ensures Read(Between(false), TextOf(j)).Between?
    decreases j
  {
    match j
    case Word(text) => ReadPlain(false, text);
    case Number(text) => NumberUnquoted(text); ReadPlain(false, text);
    case String(chars) => ReadQuoted(chars);
    case Array(items) => ReadItems(items); ReadBracketed('[', ItemsText(items), ']');
    case Object(members) => ReadMembers(members); ReadBracketed('{', MembersText(members), '}');
  }

  lemma ReadBracketed(open: char, s: string, close: char)
    requires Read(Between(false), s).Between?
    requires !IsDigit(open) && open != '"' && close != '"'
    ensures Read(Between(false), [open] + s + [close]).Between?
  {
    ReadConcat(Between(false), [open], s);
    assert [open][1..] == "";
    ReadChar(Between(false), [open] + s, close);
  }

  lemma {:induction false} ReadPadded(p: Padded)
    requires WellFormedPadded(p)
    ensures Read(Between(false), PaddedText(p)).Between?
    decreases p
  {
    ReadSpace(false, p.before);
    ReadConcat(Between(false), p.before, TextOf(p.value));
    ReadValue(p.value);
    ReadConcat(Between(false), p.before + TextOf(p.value), p.after);
    ReadSpace(Read(Between(false), p.before + TextOf(p.value)).digit, p.after);
  }

  lemma ReadSeparated(a: string, c: char, b: string)
    requires Read(Between(false), a).Between? && c != '"' && !IsDigit(c)
    ensures Read(Between(false), a + [c] + b) == Read(Between(false), b)
  {
    ReadChar(Between(false), a, c);
    ReadConcat(Between(false), a + [c], b);
  }

  lemma {:induction false} ReadItems(m: Items)
    requires WellFormedItems(m)
    ensures Read(Between(false), ItemsText(m)).Between?
    decreases m
  {
    match m
    case NoItems(space) => ReadSpace(false, space);
    case OneItem(first) => ReadPadded(first);
    case MoreItems(front, next) =>
      ReadItems(front);
      ReadPadded(next);
      ReadSeparated(ItemsText(front), ',', PaddedText(next));
  }

  lemma ReadName(n: Name)
    requires WellFormedName(n)
    ensures Read(Between(false), NameText(n)) == Between(false)
  {
    ReadSpace(false, n.before);
    ReadConcat(Between(false), n.before, Quoted(n.chars));
    ReadQuoted(n.chars);
    ReadConcat(Between(false), n.before + Quoted(n.chars), n.after);
    ReadSpace(false, n.after);
  }

  lemma ReadMember(name: Name, value: Padded)
    requires WellFormedName(name) && Read(Between(false), PaddedText(value)).Between?
    ensures Read(Between(false), NameText(name) + ":" + PaddedText(value)).Between?
  {
    ReadName(name);
    ReadSeparated(NameText(name), ':', PaddedText(value));
  }

  lemma {:induction false} ReadMembers(m: Members)
    requires WellFormedMembers(m)
    ensures Read(Between(false), MembersText(m)).Between?
    decreases m
  {
    match m
    case NoMembers(space) => ReadSpace(false, space);
    case OneMember(name, value) => ReadPadded(value); ReadMember(name, value);
    case MoreMembers(front, name, value) =>
      ReadMembers(front);
      ReadPadded(value);
      ReadMember(name, value);
      ReadSeparated(MembersText(front), ',', NameText(name) + ":" + PaddedText(value));
  }

  /** In no JSON text does a string begin right behind a digit. */
  lemma NoStringBehindDigit(s: string)
    requires IsJson(s)
    ensures Read(Between(false), s) != Broken
  {
    var p :| WellFormedPadded(p) && PaddedText(p) == s;
    ReadPadded(p);
  }
}
