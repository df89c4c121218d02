/** The conversions snprintf() is asked for, and a scanner that undoes them. A piece of output is
    literal text, an unsigned or signed integer, a fixed-point number already rounded to its
    number of places, or a string. */
module Format {
  import opened Arithmetic

  datatype Option<T> = None | Some(value: T)

  /** A rounded fixed-point value: a sign and a count of units of the last place. The sign is
      kept apart because %f prints a rounded-away negative as -0. */
  datatype Fixed = Fixed(neg: bool, scaled: nat)

  datatype Piece =
    | Lit(text: string)                    // literal characters of the format
    | Unsigned(n: nat)                     // %u
    | Signed(i: int)                       // %d
    | Decimal(value: Fixed, places: nat)   // %.<places>f
    | Str(text: string)                    // %s

  datatype Shape =
    | LitShape(text: string) | UnsignedShape | SignedShape | DecimalShape(places: nat) | StrShape

  function ShapeOf(p: Piece): Shape {
    match p
    case Lit(text) => LitShape(text)
    case Unsigned(_) => UnsignedShape
    case Signed(_) => SignedShape
    case Decimal(_, places) => DecimalShape(places)
    case Str(_) => StrShape
  }

  function Shapes(ps: seq<Piece>): seq<Shape> {
    seq(|ps|, i requires 0 <= i < |ps| => ShapeOf(ps[i]))
  }

  // ---------------------------------------------------------------- digits

  predicate IsDigit(c: char) {
    '0' <= c <= '9'
  }

  function Digit(d: nat): (c: char)
    requires d < 10
    ensures IsDigit(c)
  {
    '0' + d as char
  }

  function DigitValue(c: char): nat
    requires IsDigit(c)
  {
    (c - '0') as nat
  }

  predicate AllDigits(s: string) {
    forall i :: 0 <= i < |s| ==> IsDigit(s[i])
  }

  /** Decimal digits without leading zeros. */
  function Digits(n: nat): (s: string)
    ensures s != "" && AllDigits(s)
    ensures n == 0 <==> s[0] == '0'
    ensures s[0] == '0' ==> s == "0"
  {
    if n < 10 then [Digit(n)] else Digits(n / 10) + [Digit(n % 10)]
  }

  /** The last k decimal digits. */
  function PadDigits(n: nat, k: nat): (s: string)
    ensures |s| == k && AllDigits(s)
  {
    if k == 0 then "" else PadDigits(n / 10, k - 1) + [Digit(n % 10)]
  }

  function Value(s: string): nat
    requires AllDigits(s)
  {
    if s == "" then 0 else 10 * Value(s[..|s| - 1]) + DigitValue(s[|s| - 1])
  }

  function Pow10(k: nat): (p: nat)
    ensures 0 < p
  {
    if k == 0 then 1 else 10 * Pow10(k - 1)
  }

  lemma {:induction false} ValueOfDigits(n: nat)
    ensures Value(Digits(n)) == n
  {
    if 10 <= n {
      ValueOfDigits(n / 10);
      assert Digits(n)[..|Digits(n)| - 1] == Digits(n / 10);
    }
  }

  lemma DivModPow(n: nat, p: nat)
    requires 0 < p
    ensures n % (10 * p) == 10 * ((n / 10) % p) + n % 10
  {
    var q, r := n / 10, n % 10;
    var a, b := q / p, q % p;
    assert q == a * p + b;
    assert n == 10 * q + r == a * (10 * p) + (10 * b + r);
    assert 0 <= 10 * b + r < 10 * p;
    ModUnique(n, 10 * p, a, 10 * b + r);
  }

  lemma ModUnique(n: nat, d: nat, q: nat, r: nat)
    requires r < d && n == q * d + r
    ensures n / d == q && n % d == r
  {
    var k, m := n / d, n % d;
    DivMod(n, d);
    if k < q {
      MulOrder(k + 1, q, d);
      assert false;
    } else if q < k {
      MulOrder(q + 1, k, d);
      assert false;
    }
  }

  lemma {:induction false} ValueOfPadDigits(n: nat, k: nat)
    ensures Value(PadDigits(n, k)) == n % Pow10(k)
  {
    if 0 < k {
      ValueOfPadDigits(n / 10, k - 1);
      var s, front := PadDigits(n, k), PadDigits(n / 10, k - 1);
      assert s[..k - 1] == front && s[k - 1] == Digit(n % 10);
      assert Value(s) == 10 * Value(front) + n % 10;
      DivModPow(n, Pow10(k - 1));
    }
  }

  lemma {:induction false} DigitsLength(n: nat, k: nat)
    requires 0 < k
    ensures |Digits(n)| <= k <==> n < Pow10(k)
  {
    if 10 <= n {
      if 1 < k {
        DigitsLength(n / 10, k - 1);
      }
    }
  }

  // ---------------------------------------------------------------- printing

  function Sign(neg: bool): string {
    if neg then "-" else ""
  }

  /** The digits before the point. */
  function Whole(v: Fixed, places: nat): nat {
    QuotientIsNat(v.scaled, Pow10(places));
    v.scaled / Pow10(places)
  }

  lemma QuotientIsNat(n: nat, d: nat)
    requires 0 < d
    ensures 0 <= n / d
  {
  }

  function ShowDecimal(v: Fixed, places: nat): (s: string)
    ensures |s| == |Sign(v.neg)| + |Digits(Whole(v, places))| + 1 + places
  {
    Sign(v.neg) + Digits(Whole(v, places)) + ("." + PadDigits(v.scaled, places))
  }

  function Show(p: Piece): string {
    match p
    case Lit(text) => text
    case Unsigned(n) => Digits(n)
    case Signed(i) => Sign(i < 0) + Digits(if i < 0 then -i else i)
    case Decimal(v, places) => ShowDecimal(v, places)
    case Str(text) => text
  }

  function Render(ps: seq<Piece>): string {
    if ps == [] then "" else Show(ps[0]) + Render(ps[1..])
  }

  lemma {:induction false} RenderConcat(ps: seq<Piece>, qs: seq<Piece>)
    ensures Render(ps + qs) == Render(ps) + Render(qs)
  {
    if ps == [] {
      assert ps + qs == qs;
    } else {
      assert (ps + qs)[1..] == ps[1..] + qs;
      RenderConcat(ps[1..], qs);
    }
  }

  // ---------------------------------------------------------------- scanning

  /** How many digits the text starts with. */
  function LeadingDigits(s: string): (k: nat)
    ensures k <= |s| && AllDigits(s[..k])
    ensures k < |s| ==> !IsDigit(s[k])
  {
    if s == "" || !IsDigit(s[0]) then 0 else 1 + LeadingDigits(s[1..])
  }

  /** How many characters come before the first double quote. */
  function BeforeQuote(s: string): (k: nat)
    ensures k <= |s| && '"' !in s[..k]
    ensures k < |s| ==> s[k] == '"'
  {
    if s == "" || s[0] == '"' then 0 else 1 + BeforeQuote(s[1..])
  }

  datatype Scanned = Scanned(piece: Piece, rest: string)

  datatype ScannedNat = NoNat | ScannedNat(n: nat, rest: string)

  function ScanNat(s: string): ScannedNat {
    var k := LeadingDigits(s);
    if k == 0 then NoNat else ScannedNat(Value(s[..k]), s[k..])
  }

  predicate Negative(s: string) {
    s != "" && s[0] == '-'
  }

  function Signless(s: string): string {
    if Negative(s) then s[1..] else s
  }

  function ScanSigned(s: string): Option<Scanned> {
    match ScanNat(Signless(s))
    case NoNat => None
    case ScannedNat(n, rest) => Some(Scanned(Signed(if Negative(s) then -(n as int) else n), rest))
  }

  function ScanDecimal(places: nat, s: string): Option<Scanned> {
    match ScanNat(Signless(s))
    case NoNat => None
    case ScannedNat(n, rest) => ScanPlaces(places, Negative(s), n, rest)
  }

  /** The point and the places after it. */
  function ScanPlaces(places: nat, neg: bool, whole: nat, s: string): Option<Scanned> {
    if places < |s| && s[0] == '.' && AllDigits(s[1..places + 1]) then
      var v := Fixed(neg, whole * Pow10(places) + Value(s[1..places + 1]));
      Some(Scanned(Decimal(v, places), s[places + 1..]))
    else None
  }

  function ScanPiece(shape: Shape, s: string): Option<Scanned> {
    match shape
    case LitShape(text) => if text <= s then Some(Scanned(Lit(text), s[|text|..])) else None
    case UnsignedShape =>
      (match ScanNat(s)
       case NoNat => None
       case ScannedNat(n, rest) => Some(Scanned(Unsigned(n), rest)))
    case SignedShape => ScanSigned(s)
    case DecimalShape(places) => ScanDecimal(places, s)
    case StrShape =>
      var k := BeforeQuote(s);
      Some(Scanned(Str(s[..k]), s[k..]))
  }

  function Scan(shapes: seq<Shape>, s: string): Option<(seq<Piece>, string)> {
    if shapes == [] then Some(([], s))
    else match ScanPiece(shapes[0], s)
      case None => None
      case Some(Scanned(p, rest)) =>
        match Scan(shapes[1..], rest)
        case None => None
        case Some((ps, end)) => Some(([p] + ps, end))
  }

  /** Every conversion is followed by literal text that ends it: a number by something that is
      not a digit, a string without quotes by a quote. */
  ghost predicate Separable(ps: seq<Piece>) {
    forall i :: 0 <= i < |ps| ==> EndedAt(ps, i)
  }

  predicate EndedAt(ps: seq<Piece>, i: nat)
    requires i < |ps|
  {
    match ps[i]
    case Lit(_) => true
    case Decimal(_, _) => true
    case Unsigned(_) => Ended(ps, i)
    case Signed(_) => Ended(ps, i)
    case Str(text) => '"' !in text && i + 1 < |ps| && ps[i + 1].Lit? && "\"" <= ps[i + 1].text
  }

  predicate Ended(ps: seq<Piece>, i: nat) {
    i + 1 < |ps| && ps[i + 1].Lit? && ps[i + 1].text != "" && !IsDigit(ps[i + 1].text[0])
  }

  lemma {:induction false} LeadingDigitsOf(d: string, rest: string)
    requires AllDigits(d) && (rest == "" || !IsDigit(rest[0]))
    ensures LeadingDigits(d + rest) == |d|
  {
    if d == "" {
      assert d + rest == rest;
    } else {
      LeadingDigitsOf(d[1..], rest);
      assert (d + rest)[1..] == d[1..] + rest;
    }
  }

  lemma {:induction false} BeforeQuoteOf(t: string, rest: string)
    requires '"' !in t && "\"" <= rest
    ensures BeforeQuote(t + rest) == |t|
  {
    if t == "" {
      assert t + rest == rest;
    } else {
      BeforeQuoteOf(t[1..], rest);
      assert (t + rest)[1..] == t[1..] + rest;
    }
  }

  lemma ScanNatOf(n: nat, rest: string)
    requires rest == "" || !IsDigit(rest[0])
    ensures ScanNat(Digits(n) + rest) == ScannedNat(n, rest)
  {
    LeadingDigitsOf(Digits(n), rest);
    ValueOfDigits(n);
    assert (Digits(n) + rest)[..|Digits(n)|] == Digits(n);
    assert (Digits(n) + rest)[|Digits(n)|..] == rest;
  }

  lemma ScanDecimalOf(v: Fixed, places: nat, rest: string)
    ensures ScanDecimal(places, ShowDecimal(v, places) + rest) ==
            Some(Scanned(Decimal(v, places), rest))
  {
    var whole, tail := Whole(v, places), PadDigits(v.scaled, places);
    var s := ShowDecimal(v, places) + rest;
    SplitDecimal(v, places, rest);
    ScanDecimalParts(places, s, v.neg, whole, tail, rest);
    Recombine(v, places);
  }

  lemma SplitDecimal(v: Fixed, places: nat, rest: string)
    ensures var s := ShowDecimal(v, places) + rest;
            Negative(s) == v.neg &&
            Signless(s) == Digits(Whole(v, places)) + ("." + PadDigits(v.scaled, places) + rest)
  {
    var whole, tail := Whole(v, places), PadDigits(v.scaled, places);
    AssociateTail(Sign(v.neg) + Digits(whole), tail, rest);
    SignPrefix(v.neg, Digits(whole), "." + tail + rest, ShowDecimal(v, places) + rest);
  }

  lemma AssociateTail(a: string, tail: string, rest: string)
    ensures a + ("." + tail) + rest == a + ("." + tail + rest)
  {
  }

  lemma Recombine(v: Fixed, places: nat)
    ensures Whole(v, places) * Pow10(places) + Value(PadDigits(v.scaled, places)) == v.scaled
  {
    ValueOfPadDigits(v.scaled, places);
    DivMod(v.scaled, Pow10(places));
  }

  lemma ScanDecimalParts(places: nat, s: string, neg: bool, whole: nat, tail: string, rest: string)
    requires Negative(s) == neg && Signless(s) == Digits(whole) + ("." + tail + rest)
    requires AllDigits(tail) && |tail| == places
    ensures ScanDecimal(places, s) ==
            Some(Scanned(Decimal(Fixed(neg, whole * Pow10(places) + Value(tail)), places), rest))
  {
    ScanNatOf(whole, "." + tail + rest);
    AfterPoint(tail, rest);
    assert ScanDecimal(places, s) == ScanPlaces(places, neg, whole, "." + tail + rest);
  }

  lemma AfterPoint(tail: string, rest: string)
    ensures var after := "." + tail + rest;
            after[0] == '.' && after[1..|tail| + 1] == tail && after[|tail| + 1..] == rest
  {
  }

  lemma DivMod(n: nat, d: nat)
    requires 0 < d
    ensures n / d * d + n % d == n
  {
  }

  lemma SignPrefix(neg: bool, digits: string, after: string, s: string)
    requires digits != "" && AllDigits(digits)
    requires s == Sign(neg) + digits + after
    ensures Negative(s) == neg && Signless(s) == digits + after
  {
    if neg {
      assert s[1..] == digits + after;
    } else {
      assert s == digits + after && IsDigit(s[0]);
    }
  }

  lemma ScanSignedOf(i: int, rest: string)
    requires rest == "" || !IsDigit(rest[0])
    ensures ScanSigned(Show(Signed(i)) + rest) == Some(Scanned(Signed(i), rest))
  {
    var n := if i < 0 then -i else i;
    ScanNatOf(n, rest);
    SignPrefix(i < 0, Digits(n), rest, Show(Signed(i)) + rest);
  }

  lemma ScanStrOf(text: string, rest: string)
    requires '"' !in text && "\"" <= rest
    ensures ScanPiece(StrShape, text + rest) == Some(Scanned(Str(text), rest))
  {
    BeforeQuoteOf(text, rest);
    assert (text + rest)[..|text|] == text && (text + rest)[|text|..] == rest;
  }

  lemma ScanLitOf(text: string, rest: string)
    ensures ScanPiece(LitShape(text), text + rest) == Some(Scanned(Lit(text), rest))
  {
    assert text <= text + rest && (text + rest)[|text|..] == rest;
  }

  lemma SeparableTail(ps: seq<Piece>)
    requires ps != [] && Separable(ps)
    ensures Separable(ps[1..])
  {
    forall i | 0 <= i < |ps[1..]|
      ensures EndedAt(ps[1..], i)
    {
      assert EndedAt(ps, i + 1);
    }
  }

  /** What follows the first piece starts with the literal after it. */
  lemma NextIsLiteral(ps: seq<Piece>, rest: string)
    requires 1 < |ps| && ps[1].Lit? && ps[1].text != ""
    ensures Render(ps[1..]) + rest != "" && (Render(ps[1..]) + rest)[0] == ps[1].text[0]
  {
    assert ps[1..][0] == ps[1];
  }

  lemma ScanPieceOf(ps: seq<Piece>, rest: string)
    requires ps != [] && EndedAt(ps, 0)
    ensures var next := Render(ps[1..]) + rest;
            ScanPiece(ShapeOf(ps[0]), Show(ps[0]) + next) == Some(Scanned(ps[0], next))
  {
    var next := Render(ps[1..]) + rest;
    match ps[0] {
      case Lit(text) => ScanLitOf(text, next);
      case Decimal(v, places) => ScanDecimalOf(v, places, next);
      case Unsigned(n) => NextIsLiteral(ps, rest); ScanNatOf(n, next);
      case Signed(i) => NextIsLiteral(ps, rest); ScanSignedOf(i, next);
      case Str(text) => NextIsLiteral(ps, rest); ScanStrOf(text, next);
    }
  }

  lemma ShapesCons(ps: seq<Piece>)
    requires ps != []
    ensures Shapes(ps) == [ShapeOf(ps[0])] + Shapes(ps[1..])
  {
  }

  lemma ScanCons(shape: Shape, shapes: seq<Shape>, s: string, p: Piece, rest: string)
    requires ScanPiece(shape, s) == Some(Scanned(p, rest)) && Scan(shapes, rest).Some?
    ensures Scan([shape] + shapes, s) ==
            Some(([p] + Scan(shapes, rest).value.0, Scan(shapes, rest).value.1))
  {
    assert ([shape] + shapes)[1..] == shapes;
  }

  /** Scanning undoes printing, for every format whose conversions are properly ended. */
  lemma {:induction false} ScanUndoesRender(ps: seq<Piece>, rest: string)
    requires Separable(ps)
    ensures Scan(Shapes(ps), Render(ps) + rest) == Some((ps, rest))
  {
    if ps == [] {
      assert Render(ps) + rest == rest;
    } else {
      var next := Render(ps[1..]) + rest;
      assert Render(ps) + rest == Show(ps[0]) + next;
      assert EndedAt(ps, 0);
      ScanPieceOf(ps, rest);
      SeparableTail(ps);
      ScanUndoesRender(ps[1..], rest);
      ShapesCons(ps);
      ScanCons(ShapeOf(ps[0]), Shapes(ps[1..]), Show(ps[0]) + next, ps[0], next);
      assert ps == [ps[0]] + ps[1..];
    }
  }
}
