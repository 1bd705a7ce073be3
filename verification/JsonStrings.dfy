/** Strings by section 7 of RFC 8259, as sequences of characters and escapes, and what parse_string
    makes of every text: the departures are named in the definitions. */
module JsonStrings {
  import opened Basics
  import opened CString
  import opened JsonText
  import opened Unicode

  // ---- Section 7 ------------------------------------------------------------------------------------

  /** Four bytes that should be hexadecimal digits. */
  datatype Hex4 = Hex4(a: byte, b: byte, c: byte, d: byte)

  /** A byte that stands for itself, an escape with a letter, a \u escape, or a surrogate pair. */
  datatype Char = Plain(c: byte) | Letter(letter: byte, meaning: byte) | Unit(u: Hex4) | Pair(high: Hex4, low: Hex4)

  datatype Chars = Nothing | Then(first: Char, others: Chars)

  // The escapes \" \\ \/ \b \f \n \r \t and the bytes they stand for.
  const LETTERS: set<(int, int)> :=
    {(34, 34), (92, 92), (47, 47), (98, 8), (102, 12), (110, 10), (114, 13), (116, 9)}

  /** The value of a hexadecimal digit, or -1. */
  function Nibble(c: byte): int {
    if 48 <= c <= 57 then c - 48 // 0 to 9
    else if 97 <= c <= 102 then 10 + (c - 97) // a to f
    else if 65 <= c <= 70 then 10 + (c - 65) // A to F
    else -1
  }

  predicate AllHex(h: Hex4) {
    Nibble(h.a) >= 0 && Nibble(h.b) >= 0 && Nibble(h.c) >= 0 && Nibble(h.d) >= 0
  }

  /** The UTF-16 code unit that four digits write. */
  function UnitValue(h: Hex4): nat
    requires AllHex(h)
  {
    Nibble(h.a) * 0x1000 + Nibble(h.b) * 0x100 + Nibble(h.c) * 0x10 + Nibble(h.d)
  }

  /** Section 3 of RFC 3629. */
  function Octets(cp: nat): seq<int> {
    if cp <= 0x7F then [cp]
    else if cp <= 0x7FF then [0xC0 + cp / 0x40, 0x80 + cp % 0x40]
    else if cp <= 0xFFFF then [0xE0 + cp / 0x1000, 0x80 + cp / 0x40 % 0x40, 0x80 + cp % 0x40]
    else [0xF0 + cp / 0x40000, 0x80 + cp / 0x1000 % 0x40, 0x80 + cp / 0x40 % 0x40, 0x80 + cp % 0x40]
  }

  /** What may stand in a string. The grammar does not allow control characters; the code takes them. It
      allows lone surrogates; the code does not. */
  predicate Good(ch: Char, strict: bool) {
    match ch
    case Plain(c) => c != 34 && c != 92 && (strict ==> c >= 0x20)
    case Letter(l, b) => (l, b) in LETTERS
    case Unit(u) => AllHex(u) && !(0xD800 <= UnitValue(u) <= 0xDFFF)
    case Pair(high, low) =>
      AllHex(high) && AllHex(low) && 0xD800 <= UnitValue(high) <= 0xDBFF && 0xDC00 <= UnitValue(low) <= 0xDFFF
  }

  predicate AllGood(chars: Chars, strict: bool) {
    chars.Then? ==> Good(chars.first, strict) && AllGood(chars.others, strict)
  }

  function UnitTextTo(h: Hex4, rest: Str): Str {
    Ch(92, Ch(117, Ch(h.a, Ch(h.b, Ch(h.c, Ch(h.d, rest))))))
  }

  /** The text of a character, in front of `rest`. */
  function CharTo(ch: Char, rest: Str): Str {
    match ch
    case Plain(c) => Ch(c, rest)
    case Letter(l, _) => Ch(92, Ch(l, rest))
    case Unit(u) => UnitTextTo(u, rest)
    case Pair(high, low) => UnitTextTo(high, UnitTextTo(low, rest))
  }

  function CharsTo(chars: Chars, rest: Str): Str {
    if chars.Nothing? then rest else CharTo(chars.first, CharsTo(chars.others, rest))
  }

  /** The bytes that a character stands for. */
  function CharBytes(ch: Char): seq<int>
    requires Good(ch, false)
  {
    match ch
    case Plain(c) => [c]
    case Letter(_, b) => [b]
    case Unit(u) => Octets(UnitValue(u))
    case Pair(high, low) => Octets(0x10000 + (UnitValue(high) - 0xD800) * 0x400 + (UnitValue(low) - 0xDC00))
  }

  function BytesOf(chars: Chars): seq<int>
    requires AllGood(chars, false)
  {
    if chars.Nothing? then [] else CharBytes(chars.first) + BytesOf(chars.others)
  }

  /** The C string in a buffer of bytes: those in front of the first NUL, or all. */
  predicate IsCString(s: Str, bytes: seq<int>) {
    && |Raw(s)| <= |bytes| && Raw(s) == bytes[..|Raw(s)|]
    && (|Raw(s)| == |bytes| || bytes[|Raw(s)|] == 0)
  }

  // ---- One character ------------------------------------------------------------------------------------

  lemma Utf8IsOctets(cp: nat)
    ensures Utf8(cp) == Octets(cp)
  {
    var a, b, c := cp / 64, cp / 64 / 64, cp / 64 / 64 / 64;
    assert ShiftRight6(cp, 0) == cp && ShiftRight6(a, 0) == a && ShiftRight6(b, 0) == b && ShiftRight6(c, 0) == c;
    assert ShiftRight6(cp, 1) == a && ShiftRight6(a, 1) == b && ShiftRight6(b, 1) == c;
    assert ShiftRight6(cp, 2) == b && ShiftRight6(a, 2) == c;
    assert ShiftRight6(cp, 3) == c;
    assert Utf8Tail(cp, 0) == [] && Utf8Tail(a, 0) == [] && Utf8Tail(b, 0) == [];
    assert Utf8Tail(cp, 1) == [0x80 + cp % 64] && Utf8Tail(a, 1) == [0x80 + a % 64] && Utf8Tail(b, 1) == [0x80 + b % 64];
    assert Utf8Tail(cp, 2) == [0x80 + a % 64, 0x80 + cp % 64] && Utf8Tail(a, 2) == [0x80 + b % 64, 0x80 + a % 64];
    assert Utf8Tail(cp, 3) == [0x80 + b % 64, 0x80 + a % 64, 0x80 + cp % 64];
    assert a == cp / 0x40 && b == cp / 0x1000 && c == cp / 0x40000;
  }

  lemma HexIsNibble(c: byte)
    ensures HexValue(c) == if Nibble(c) >= 0 then Some(Nibble(c)) else None
  {
  }

  /** How four bytes are read. */
  lemma RunOfHex(h: Hex4, rest: Str)
    ensures HexRun(Ch(h.a, Ch(h.b, Ch(h.c, Ch(h.d, rest)))), 4, 0) == if AllHex(h) then Some(UnitValue(h)) else None
  {
    var x3 := Ch(h.d, rest);
    var x2 := Ch(h.c, x3);
    var x1 := Ch(h.b, x2);
    HexIsNibble(h.a); HexIsNibble(h.b); HexIsNibble(h.c); HexIsNibble(h.d);
    if AllHex(h) {
      var a: nat, b: nat, c: nat, d: nat := Nibble(h.a), Nibble(h.b), Nibble(h.c), Nibble(h.d);
      assert HexRun(x3, 1, 256 * a + 16 * b + c) == Some(16 * (256 * a + 16 * b + c) + d);
      assert HexRun(x2, 2, 16 * a + b) == HexRun(x3, 1, 16 * (16 * a + b) + c);
      assert HexRun(x1, 3, a) == HexRun(x2, 2, 16 * a + b);
      assert HexRun(Ch(h.a, x1), 4, 0) == HexRun(x1, 3, a);
    }
  }

  lemma UnitText(h: Hex4, rest: Str)
    ensures var x := UnitTextTo(h, rest);
      && Drop(x, 2) == x.rest.rest && Drop(x, 6) == rest
      && HexRun(Drop(x, 2), 4, 0) == if AllHex(h) then Some(UnitValue(h)) else None
  {
    var x := UnitTextTo(h, rest);
    var y := x.rest.rest;
    var z := y.rest.rest;
    assert Drop(x, 2) == Drop(x.rest, 1) == y;
    assert Drop(z, 2) == Drop(z.rest, 1) == Drop(rest, 0);
    assert Drop(x, 6) == Drop(x.rest, 5) == Drop(y, 4) == Drop(y.rest, 3) == Drop(z, 2);
    RunOfHex(h, rest);
  }

  function CharLength(ch: Char): nat {
    match ch
    case Plain(_) => 1
    case Letter(_, _) => 2
    case Unit(_) => 6
    case Pair(_, _) => 12
  }

  lemma DigitsScan(h: Hex4, rest: Str)
    requires AllHex(h)
    ensures ScanEnd(UnitTextTo(h, rest)) == Further(6, ScanEnd(rest))
  {
    var x3 := Ch(h.d, rest);
    var x2 := Ch(h.c, x3);
    var x1 := Ch(h.b, x2);
    assert ScanEnd(x3) == Further(1, ScanEnd(rest));
    assert ScanEnd(x2) == Further(1, ScanEnd(x3));
    assert ScanEnd(x1) == Further(1, ScanEnd(x2));
    assert ScanEnd(Ch(h.a, x1)) == Further(1, ScanEnd(x1));
  }

  /** The first pass goes over a whole character. */
  lemma CharScan(ch: Char, rest: Str)
    requires Good(ch, false)
    ensures ScanEnd(CharTo(ch, rest)) == Further(CharLength(ch), ScanEnd(rest))
  {
    match ch
    case Plain(_) =>
    case Letter(_, _) =>
    case Unit(u) => DigitsScan(u, rest);
    case Pair(high, low) =>
      DigitsScan(high, UnitTextTo(low, rest));
      DigitsScan(low, rest);
  }

  lemma CharDrop(ch: Char, rest: Str, k: nat)
    ensures Drop(CharTo(ch, rest), CharLength(ch) + k) == Drop(rest, k)
  {
    match ch
    case Plain(_) =>
    case Letter(_, _) => assert Drop(Ch(ch.letter, rest), 1 + k) == Drop(rest, k);
    case Unit(u) => UnitDrops(u, rest, k);
    case Pair(high, low) =>
      UnitDrops(high, UnitTextTo(low, rest), 6 + k);
      UnitDrops(low, rest, k);
  }

  lemma UnitDrops(h: Hex4, rest: Str, k: nat)
    ensures Drop(UnitTextTo(h, rest), 6 + k) == Drop(rest, k)
  {
    var x3 := Ch(h.d, rest);
    var x2 := Ch(h.c, x3);
    var x1 := Ch(h.b, x2);
    var x0 := Ch(h.a, x1);
    assert Drop(x3, 1 + k) == Drop(rest, k);
    assert Drop(x2, 2 + k) == Drop(x3, 1 + k);
    assert Drop(x1, 3 + k) == Drop(x2, 2 + k);
    assert Drop(x0, 4 + k) == Drop(x1, 3 + k);
    assert Drop(Ch(117, x0), 5 + k) == Drop(x0, 4 + k);
  }

  /** What the escape stands for, by the strict reading. */
  lemma LiteralRead(ch: Char, rest: Str, n: int)
    requires (ch.Unit? || ch.Pair?) && Good(ch, false) && n >= CharLength(ch)
    ensures var r := StrictLiteral(CharTo(ch, rest), n);
      r.Some? && r.value.0 == CharLength(ch) && Utf8(r.value.1) == CharBytes(ch)
  {
    if ch.Unit? {
      UnitText(ch.u, rest);
      Utf8IsOctets(UnitValue(ch.u));
    } else {
      UnitText(ch.high, UnitTextTo(ch.low, rest));
      UnitText(ch.low, rest);
      Utf8IsOctets(0x10000 + (UnitValue(ch.high) - 0xD800) * 0x400 + (UnitValue(ch.low) - 0xDC00));
    }
  }

  /** The letters of section 7 are those that the code knows. */
  lemma LettersKnown(l: byte, b: int)
    ensures (l, b) in LETTERS <==> ShortMeaning(l) != 0 && b == ShortMeaning(l)
    ensures (l, b) in LETTERS ==> l != SMALL_U && 1 <= b < 256
  {
  }

  lemma CharDecode(ch: Char, rest: Str, n: nat)
    requires Good(ch, false)
    ensures StrictDecode(CharTo(ch, rest), CharLength(ch) + n) == Prepend(CharBytes(ch), StrictDecode(rest, n))
  {
    var x := CharTo(ch, rest);
    match ch
    case Plain(_) =>
    case Letter(l, b) =>
      LettersKnown(l, b);
      assert StrictDecode(x, 2 + n) == StrictEscape(x, 2 + n);
    case _ =>
      LiteralRead(ch, rest, CharLength(ch) + n);
      CharDrop(ch, rest, 0);
      NoLetter();
      assert StrictDecode(x, CharLength(ch) + n) == StrictEscape(x, CharLength(ch) + n);
  }

  lemma NoLetter()
    ensures ShortMeaning(SMALL_U) == 0
  {
  }

  // ---- Whole strings ----------------------------------------------------------------------------------------

  function CharsLength(chars: Chars): nat {
    if chars.Nothing? then 0 else CharLength(chars.first) + CharsLength(chars.others)
  }

  lemma {:induction false} CharsDrop(chars: Chars, rest: Str, k: nat)
    ensures Drop(CharsTo(chars, rest), CharsLength(chars) + k) == Drop(rest, k)
  {
    if chars.Then? {
      CharDrop(chars.first, CharsTo(chars.others, rest), CharsLength(chars.others) + k);
      CharsDrop(chars.others, rest, k);
    }
  }

  lemma {:induction false} CharsScan(chars: Chars, rest: Str)
    requires AllGood(chars, false)
    ensures ScanEnd(CharsTo(chars, rest)) == Further(CharsLength(chars), ScanEnd(rest))
  {
    if chars.Then? {
      CharScan(chars.first, CharsTo(chars.others, rest));
      CharsScan(chars.others, rest);
    }
  }

  lemma PrependAll(a: seq<int>, b: seq<int>, r: Option<seq<int>>)
    ensures Prepend(a, Prepend(b, r)) == Prepend(a + b, r)
  {
    if r.Some? { assert a + (b + r.value) == a + b + r.value; }
  }

  lemma DecodeThen(ch: Char, y: Str, m: nat, bytes: seq<int>, r: Option<seq<int>>)
    requires Good(ch, false) && StrictDecode(y, m) == Prepend(bytes, r)
    ensures StrictDecode(CharTo(ch, y), CharLength(ch) + m) == Prepend(CharBytes(ch) + bytes, r)
  {
    CharDecode(ch, y, m);
    PrependAll(CharBytes(ch), bytes, r);
  }

  lemma {:induction false} CharsDecode(chars: Chars, rest: Str, n: nat)
    requires AllGood(chars, false)
    ensures StrictDecode(CharsTo(chars, rest), CharsLength(chars) + n) == Prepend(BytesOf(chars), StrictDecode(rest, n))
  {
    if chars.Nothing? {
      var r := StrictDecode(rest, n);
      if r.Some? { assert [] + r.value == r.value; }
    } else {
      CharsDecode(chars.others, rest, n);
      DecodeThen(chars.first, CharsTo(chars.others, rest), CharsLength(chars.others) + n, BytesOf(chars.others), StrictDecode(rest, n));
    }
  }

  /** The strict reading takes one character. */
  predicate TakesOne(x: Str, n: nat) {
    x.Ch? && (x.c == BACKSLASH ==> x.rest.Ch? && (ShortMeaning(x.rest.c) != 0 || (x.rest.c == SMALL_U && StrictLiteral(x, n).Some?)))
  }

  /** The character that the strict reading takes next. */
  lemma FirstChar(x: Str, n: nat) returns (ch: Char, y: Str)
    requires n > 0 && ScanEnd(x) == Some(n) && TakesOne(x, n)
    ensures Good(ch, false) && x == CharTo(ch, y) && CharLength(ch) <= n
  {
    if x.c != BACKSLASH {
      ch, y := Plain(x.c), x.rest;
    } else if ShortMeaning(x.rest.c) != 0 {
      ch, y := Letter(x.rest.c, ShortMeaning(x.rest.c)), x.rest.rest;
      LettersKnown(x.rest.c, ShortMeaning(x.rest.c));
    } else {
      ch, y := FirstLiteral(x, n);
    }
  }

  /** Four hexadecimal digits, as they stand there. */
  lemma FourDigits(x: Str) returns (h: Hex4, y: Str)
    requires HexRun(x, 4, 0).Some?
    ensures x == Ch(h.a, Ch(h.b, Ch(h.c, Ch(h.d, y)))) && AllHex(h) && HexRun(x, 4, 0).value == UnitValue(h)
  {
    var a := HexValue(x.c).value;
    assert HexRun(x, 4, 0) == HexRun(x.rest, 3, a);
    var b := HexValue(x.rest.c).value;
    assert HexRun(x.rest, 3, a) == HexRun(x.rest.rest, 2, 16 * a + b);
    var c := HexValue(x.rest.rest.c).value;
    assert HexRun(x.rest.rest, 2, 16 * a + b) == HexRun(x.rest.rest.rest, 1, 16 * (16 * a + b) + c);
    h := Hex4(x.c, x.rest.c, x.rest.rest.c, x.rest.rest.rest.c);
    y := x.rest.rest.rest.rest;
    RunOfHex(h, y);
  }

  lemma FirstLiteral(x: Str, n: nat) returns (ch: Char, y: Str)
    requires BeginsUnit(x) && StrictLiteral(x, n).Some?
    ensures (ch.Unit? || ch.Pair?) && Good(ch, false) && x == CharTo(ch, y) && CharLength(ch) <= n
  {
    assert Drop(x, 2) == Drop(x.rest, 1) == x.rest.rest;
    var u, z := FourDigits(x.rest.rest);
    UnitText(u, z);
    if StrictLiteral(x, n).value.0 == 6 {
      ch, y := Unit(u), z;
    } else {
      assert Drop(z, 2) == Drop(z.rest, 1) == z.rest.rest;
      var low, w := FourDigits(z.rest.rest);
      ch, y := Pair(u, low), w;
    }
  }

  /** Whatever the strict reading accepts up to the closing quote is a sequence of such characters. */
  lemma {:induction false} AllChars(x: Str, n: nat) returns (chars: Chars)
    requires ScanEnd(x) == Some(n) && StrictDecode(x, n).Some?
    ensures AllGood(chars, false) && CharsLength(chars) == n && x == CharsTo(chars, Ch(QUOTE, Drop(x, n + 1)))
    decreases n
  {
    if n == 0 {
      chars := Nothing;
      assert Drop(x, 1) == x.rest;
    } else {
      var ch, y := FirstChar(x, n);
      CharScan(ch, y);
      CharDecode(ch, y, n - CharLength(ch));
      var others := AllChars(y, n - CharLength(ch));
      chars := Then(ch, others);
      CharDrop(ch, y, n - CharLength(ch) + 1);
    }
  }

  /** A string by section 7, in front of `rest`, with the value `s`: the C string in what it decodes to. */
  ghost predicate Spelled(x: Str, s: Str, rest: Str, strict: bool) {
    exists chars :: AllGood(chars, strict) && AllGood(chars, false) && x == Ch(34, CharsTo(chars, Ch(34, rest))) && IsCString(s, BytesOf(chars))
  }

  lemma {:induction false} CutIsCString(bytes: seq<int>, s: Str)
    requires Within(bytes)
    ensures Cut(bytes) == s <==> IsCString(s, bytes)
    decreases |bytes|
  {
    if |bytes| > 0 && bytes[0] != 0 {
      CutIsCString(bytes[1..], if s.Ch? then s.rest else End);
      if s.Ch? {
        assert Raw(s)[1..] == Raw(s.rest) && Raw(s) == [s.c] + Raw(s.rest);
        assert bytes == [bytes[0]] + bytes[1..];
        assert IsCString(s, bytes) <==> bytes[0] == s.c && IsCString(s.rest, bytes[1..]) by {
          var n := |Raw(s.rest)|;
          if n < |bytes| { assert bytes[..n + 1] == [bytes[0]] + bytes[1..][..n]; }
        }
      }
    } else if s.Ch? {
      assert Raw(s)[0] == s.c;
    }
  }

  lemma OctetsAreBytes(cp: nat)
    requires cp <= 0x10FFFF
    ensures Within(Octets(cp))
  {
  }

  predicate Within(bytes: seq<int>) {
    forall i :: 0 <= i < |bytes| ==> 0 <= bytes[i] < 256
  }

  lemma CharWithin(ch: Char)
    requires Good(ch, false)
    ensures Within(CharBytes(ch))
  {
    match ch
    case Plain(_) =>
    case Letter(l, b) => LettersKnown(l, b);
    case Unit(u) => UnitWithin(u);
    case Pair(high, low) => PairWithin(UnitValue(high), UnitValue(low));
  }

  lemma UnitWithin(u: Hex4)
    requires AllHex(u)
    ensures UnitValue(u) <= 0xFFFF && Within(Octets(UnitValue(u)))
  {
    assert Nibble(u.a) < 16 && Nibble(u.b) < 16 && Nibble(u.c) < 16 && Nibble(u.d) < 16;
    OctetsAreBytes(UnitValue(u));
  }

  lemma PairWithin(high: nat, low: nat)
    requires 0xD800 <= high <= 0xDBFF && 0xDC00 <= low <= 0xDFFF
    ensures Within(Octets(0x10000 + (high - 0xD800) * 0x400 + (low - 0xDC00)))
  {
    OctetsAreBytes(0x10000 + (high - 0xD800) * 0x400 + (low - 0xDC00));
  }

  lemma BothWithin(a: seq<int>, b: seq<int>)
    requires Within(a) && Within(b)
    ensures Within(a + b)
  {
  }

  lemma {:induction false} AllWithin(chars: Chars)
    requires AllGood(chars, false)
    ensures Within(BytesOf(chars))
  {
    if chars.Then? {
      AllWithin(chars.others);
      CharWithin(chars.first);
      BothWithin(CharBytes(chars.first), BytesOf(chars.others));
    }
  }

  /** What the code makes of a string by section 7. */
  lemma SpelledRead(chars: Chars, rest: Str)
    requires AllGood(chars, false)
    ensures StrictString(Ch(34, CharsTo(chars, Ch(34, rest)))) == Ok(Cut(BytesOf(chars)), rest)
    ensures Within(BytesOf(chars))
  {
    var y, n := Ch(34, rest), CharsLength(chars);
    CharsScan(chars, y);
    CharsDecode(chars, y, 0);
    CharsDrop(chars, y, 1);
    AllWithin(chars);
    QuoteEnds(rest);
    assert BytesOf(chars) + [] == BytesOf(chars);
    ReadsTo(CharsTo(chars, y), n, BytesOf(chars), rest);
  }

  lemma QuoteEnds(rest: Str)
    ensures var y := Ch(34, rest); ScanEnd(y) == Some(0) && StrictDecode(y, 0) == Some([]) && Drop(y, 1) == rest
  {
    assert Drop(rest, 0) == rest;
  }

  lemma ReadsTo(body: Str, n: nat, bytes: seq<int>, rest: Str)
    requires ScanEnd(body) == Some(n) && StrictDecode(body, n) == Some(bytes) && Drop(body, n + 1) == rest
    ensures StrictString(Ch(34, body)) == Ok(Cut(bytes), rest)
  {
  }

  /** The characters of a string that the strict reading accepts. */
  lemma ReadSpelled(x: Str) returns (chars: Chars)
    requires StrictString(x).Ok?
    ensures AllGood(chars, false) && x == Ch(34, CharsTo(chars, Ch(34, StrictString(x).rest)))
  {
    chars := AllChars(x.rest, ScanEnd(x.rest).value);
  }

  /** The strict reading accepts exactly these strings, with these values. */
  lemma StrictIsSpelled(x: Str, s: Str, rest: Str)
    ensures StrictString(x) == Ok(s, rest) <==> Spelled(x, s, rest, false)
  {
    if StrictString(x).Ok? {
      var chars := ReadSpelled(x);
      SpelledRead(chars, StrictString(x).rest);
      CutIsCString(BytesOf(chars), s);
    }
    if Spelled(x, s, rest, false) {
      var chars :| AllGood(chars, false) && x == Ch(34, CharsTo(chars, Ch(34, rest))) && IsCString(s, BytesOf(chars));
      SpelledRead(chars, rest);
      CutIsCString(BytesOf(chars), s);
    }
  }

  // ---- Escapes without hexadecimal digits -------------------------------------------------------------------

  /** The code does the same with a good character. */
  lemma CharDecodes(ch: Char, rest: Str, n: nat)
    requires Good(ch, false)
    ensures Decode(CharTo(ch, rest), CharLength(ch) + n) == Prepend(CharBytes(ch), Decode(rest, n))
  {
    var x := CharTo(ch, rest);
    match ch
    case Plain(_) =>
    case Letter(l, b) =>
      LettersKnown(l, b);
      assert Decode(x, 2 + n) == DecodeEscape(x, 2 + n);
    case _ =>
      LiteralRead(ch, rest, CharLength(ch) + n);
      LiteralExactly(x, CharLength(ch) + n);
      CharDrop(ch, rest, 0);
      NoLetter();
      assert Decode(x, CharLength(ch) + n) == DecodeEscape(x, CharLength(ch) + n);
  }

  lemma DecodesThen(ch: Char, y: Str, m: nat, bytes: seq<int>, r: Option<seq<int>>)
    requires Good(ch, false) && Decode(y, m) == Prepend(bytes, r)
    ensures Decode(CharTo(ch, y), CharLength(ch) + m) == Prepend(CharBytes(ch) + bytes, r)
  {
    CharDecodes(ch, y, m);
    PrependAll(CharBytes(ch), bytes, r);
  }

  lemma {:induction false} CharsDecodes(chars: Chars, rest: Str, n: nat)
    requires AllGood(chars, false)
    ensures Decode(CharsTo(chars, rest), CharsLength(chars) + n) == Prepend(BytesOf(chars), Decode(rest, n))
  {
    if chars.Nothing? {
      var r := Decode(rest, n);
      if r.Some? { assert [] + r.value == r.value; }
    } else {
      CharsDecodes(chars.others, rest, n);
      DecodesThen(chars.first, CharsTo(chars.others, rest), CharsLength(chars.others) + n, BytesOf(chars.others), Decode(rest, n));
    }
  }

  lemma CharMeets(ch: Char, rest: Str, n: nat)
    requires Good(ch, false)
    ensures MeetsNotHex(CharTo(ch, rest), CharLength(ch) + n) <==> MeetsNotHex(rest, n)
  {
    var x := CharTo(ch, rest);
    match ch
    case Plain(_) =>
    case Letter(l, b) =>
      LettersKnown(l, b);
      assert MeetsNotHex(x, 2 + n) == EscapeMeetsNotHex(x, 2 + n);
    case _ =>
      LiteralRead(ch, rest, CharLength(ch) + n);
      LiteralExactly(x, CharLength(ch) + n);
      CharDrop(ch, rest, 0);
      NoLetter();
      assert MeetsNotHex(x, CharLength(ch) + n) == EscapeMeetsNotHex(x, CharLength(ch) + n);
  }

  /** A \u escape without four hexadecimal digits. */
  lemma BadUnit(h: Hex4, y: Str, n: nat)
    requires !AllHex(h) && n >= 6
    ensures MeetsNotHex(UnitTextTo(h, y), n)
    ensures Decode(UnitTextTo(h, y), n) == Prepend([0], Decode(y, n - 6))
  {
    var x := UnitTextTo(h, y);
    UnitText(h, y);
    LiteralExactly(x, n);
    NoLetter();
    assert NotHex(x, n);
    assert MeetsNotHex(x, n) == EscapeMeetsNotHex(x, n);
    assert Decode(x, n) == DecodeEscape(x, n);
    Utf8IsOctets(0);
  }

  lemma {:induction false} CharsMeet(chars: Chars, h: Hex4, y: Str, n: nat)
    requires AllGood(chars, false) && !AllHex(h) && n >= CharsLength(chars) + 6
    ensures MeetsNotHex(CharsTo(chars, UnitTextTo(h, y)), n)
    decreases chars
  {
    if chars.Nothing? {
      BadUnit(h, y, n);
    } else {
      CharsMeet(chars.others, h, y, n - CharLength(chars.first));
      CharMeets(chars.first, CharsTo(chars.others, UnitTextTo(h, y)), n - CharLength(chars.first));
    }
  }

  /** The characters in front of the first such escape. */
  lemma {:induction false} MeetsAfter(x: Str, n: nat) returns (chars: Chars, h: Hex4, y: Str)
    requires ScanEnd(x) == Some(n) && MeetsNotHex(x, n)
    ensures AllGood(chars, false) && !AllHex(h) && x == CharsTo(chars, UnitTextTo(h, y)) && n >= CharsLength(chars) + 6
    decreases n
  {
    if BeginsUnit(x) && NotHex(x, n) {
      LongEnough(x, n);
      chars, h, y := Nothing, Hex4(x.rest.rest.c, x.rest.rest.rest.c, x.rest.rest.rest.rest.c, x.rest.rest.rest.rest.rest.c), x.rest.rest.rest.rest.rest.rest;
      UnitText(h, y);
    } else {
      assert x.c == BACKSLASH ==> MeetsNotHex(x, n) == EscapeMeetsNotHex(x, n);
      var ch, z := FirstChar(x, n);
      CharScan(ch, z);
      CharMeets(ch, z, n - CharLength(ch));
      var others;
      others, h, y := MeetsAfter(z, n - CharLength(ch));
      chars := Then(ch, others);
    }
  }

  lemma LongEnough(x: Str, n: nat)
    requires ScanEnd(x) == Some(n) && n >= 6
    ensures x.Ch? && x.rest.Ch? && x.rest.rest.Ch? && x.rest.rest.rest.Ch? && x.rest.rest.rest.rest.Ch? && x.rest.rest.rest.rest.rest.Ch?
  {
    assert Length(x) == 1 + Length(x.rest) && Length(x.rest) == 1 + Length(x.rest.rest);
    var y := x.rest.rest;
    assert Length(y) == 1 + Length(y.rest) && Length(y.rest) == 1 + Length(y.rest.rest);
    assert Length(y.rest.rest) == 1 + Length(y.rest.rest.rest) && Length(y.rest.rest.rest) > 0;
  }

  lemma {:induction false} CutAtNul(a: seq<int>, b: seq<int>)
    ensures Cut(a + ([0] + b)) == Cut(a + [0])
    decreases |a|
  {
    if |a| == 0 {
      assert a + ([0] + b) == [0] + b && a + [0] == [0];
    } else {
      assert (a + ([0] + b))[1..] == a[1..] + ([0] + b) && (a + [0])[1..] == a[1..] + [0];
      CutAtNul(a[1..], b);
    }
  }

  /** The departure: after some characters a \u escape does not have four hexadecimal digits. It counts as
      U+0000, so the value ends there; from there on the two passes may be out of step, and what follows
      only has to be escaped well. */
  ghost predicate Misspelled(x: Str, s: Str, rest: Str) {
    exists chars, h, y ::
      && AllGood(chars, false) && !AllHex(h) && x == Ch(34, CharsTo(chars, UnitTextTo(h, y)))
      && IsCString(s, BytesOf(chars) + [0]) && ClosesBehind(x.rest, CharsLength(chars) + 6, rest)
  }

  /** The closing quote is at least `n` bytes away, and `rest` lies behind it. */
  predicate ClosesBehind(x: Str, n: nat, rest: Str) {
    ScanEnd(x).Some? && ScanEnd(x).value >= n && WellEscaped(x, ScanEnd(x).value) && rest == Drop(x, ScanEnd(x).value + 1)
  }

  lemma BadDecodes(chars: Chars, h: Hex4, y: Str, m: nat)
    requires AllGood(chars, false) && !AllHex(h) && m >= 6
    ensures Decode(CharsTo(chars, UnitTextTo(h, y)), CharsLength(chars) + m) == Prepend(BytesOf(chars), Prepend([0], Decode(y, m - 6)))
  {
    CharsDecodes(chars, UnitTextTo(h, y), m);
    BadUnit(h, y, m);
  }

  lemma BadValue(chars: Chars, h: Hex4, y: Str, n: nat)
    requires AllGood(chars, false) && !AllHex(h) && n >= CharsLength(chars) + 6
    requires Decode(CharsTo(chars, UnitTextTo(h, y)), n).Some?
    ensures Cut(Decode(CharsTo(chars, UnitTextTo(h, y)), n).value) == Cut(BytesOf(chars) + [0])
  {
    var m := n - CharsLength(chars);
    BadDecodes(chars, h, y, m);
    ValueEnds(BytesOf(chars), Decode(y, m - 6), Decode(CharsTo(chars, UnitTextTo(h, y)), n));
  }

  lemma ValueEnds(a: seq<int>, r: Option<seq<int>>, all: Option<seq<int>>)
    requires all.Some? && all == Prepend(a, Prepend([0], r))
    ensures Cut(all.value) == Cut(a + [0])
  {
    CutAtNul(a, r.value);
  }

  lemma BadRead(x: Str, chars: Chars, h: Hex4, y: Str, rest: Str)
    requires AllGood(chars, false) && !AllHex(h) && x == Ch(34, CharsTo(chars, UnitTextTo(h, y)))
    requires ClosesBehind(x.rest, CharsLength(chars) + 6, rest)
    ensures ParseString(x) == Ok(Cut(BytesOf(chars) + [0]), rest)
    ensures Within(BytesOf(chars) + [0])
  {
    DecodeAccepts(x.rest, ScanEnd(x.rest).value);
    BadValue(chars, h, y, ScanEnd(x.rest).value);
    AllWithin(chars);
    BothWithin(BytesOf(chars), [0]);
  }

  lemma MisspelledRead(x: Str, s: Str, rest: Str)
    requires Misspelled(x, s, rest)
    ensures ParseString(x) == Ok(s, rest)
  {
    var chars, h, y :|
      && AllGood(chars, false) && !AllHex(h) && x == Ch(34, CharsTo(chars, UnitTextTo(h, y)))
      && IsCString(s, BytesOf(chars) + [0]) && ClosesBehind(x.rest, CharsLength(chars) + 6, rest);
    BadRead(x, chars, h, y, rest);
    CutIsCString(BytesOf(chars) + [0], s);
  }

  lemma MisspelledFound(x: Str, s: Str, rest: Str)
    requires ParseString(x) == Ok(s, rest) && StringMeetsNotHex(x)
    ensures Misspelled(x, s, rest)
  {
    DecodeAccepts(x.rest, ScanEnd(x.rest).value);
    var chars, h, y := MeetsAfter(x.rest, ScanEnd(x.rest).value);
    BadRead(x, chars, h, y, rest);
    CutIsCString(BytesOf(chars) + [0], s);
  }

  /** parse_string accepts exactly the strings by section 7, with the value that section gives them, and
      those of the departure. */
  lemma StringMeaning(x: Str, s: Str, rest: Str)
    ensures ParseString(x) == Ok(s, rest) <==> Spelled(x, s, rest, false) || Misspelled(x, s, rest)
  {
    StringExactly(x);
    StrictIsSpelled(x, s, rest);
    if Misspelled(x, s, rest) { MisspelledRead(x, s, rest); }
    if ParseString(x) == Ok(s, rest) && StringMeetsNotHex(x) { MisspelledFound(x, s, rest); }
  }

  /** "\/" is the string of one slash. */
  lemma SlashExample()
    ensures ParseString(Ch(34, Ch(92, Ch(47, Ch(34, End))))) == Ok(Ch(47, End), End)
  {
    var chars := Then(Letter(47, 47), Nothing);
    assert (47, 47) in LETTERS;
    assert AllGood(Nothing, false) && CharsTo(Nothing, Ch(34, End)) == Ch(34, End) && BytesOf(Nothing) == [];
    assert BytesOf(chars) == [47] + [];
    assert Raw(Ch(47, End)) == [47] + Raw(End) && Raw(End) == [];
    assert IsCString(Ch(47, End), BytesOf(chars));
    StringMeaning(Ch(34, CharsTo(chars, Ch(34, End))), Ch(47, End), End);
  }
}
