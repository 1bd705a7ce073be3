/** \u escapes and the bytes they stand for: utf16_literal_to_utf8 against section 7 of RFC 8259
    and section 3 of RFC 3629. */
module Unicode {
  import opened Basics
  import opened CString
  import opened JsonText

  predicate IsScalar(cp: nat) {
    cp <= 0x10FFFF && !(0xD800 <= cp <= 0xDFFF)
  }

  // ---- RFC 3629: reading UTF-8 -----------------------------------------------------------------

  /** The payload of a continuation byte 10xxxxxx. */
  function Payload(b: int): Option<nat> {
    if 0x80 <= b < 0xC0 then Some(b - 0x80) else None
  }

  /** Continuation bytes, most significant first, appended to the bits read before them. */
  function Continue(high: nat, s: seq<int>): Option<nat>
    decreases |s|
  {
    if |s| == 0 then Some(high)
    else if Payload(s[0]).None? then None
    else Continue(64 * high + Payload(s[0]).value, s[1..])
  }

  /** The character number that a sequence of octets encodes, by the table of section 3; overlong
      forms are not valid. */
  function Utf8Value(s: seq<int>): Option<nat> {
    if |s| == 1 && 0 <= s[0] < 0x80 then Some(s[0])
    else if |s| == 2 && 0xC0 <= s[0] < 0xE0 then AtLeast(0x80, Continue(s[0] - 0xC0, s[1..]))
    else if |s| == 3 && 0xE0 <= s[0] < 0xF0 then AtLeast(0x800, Continue(s[0] - 0xE0, s[1..]))
    else if |s| == 4 && 0xF0 <= s[0] < 0xF8 then AtLeast(0x10000, Continue(s[0] - 0xF0, s[1..]))
    else None
  }

  function AtLeast(low: nat, r: Option<nat>): Option<nat> {
    if r.Some? && r.value >= low then r else None
  }

  lemma {:induction false} ContinueTail(cp: nat, k: nat, more: seq<int>)
    ensures Continue(ShiftRight6(cp, k), Utf8Tail(cp, k) + more) == Continue(cp, more)
    decreases k
  {
    if k == 0 {
      assert Utf8Tail(cp, k) + more == more;
    } else {
      var last := 0x80 + cp % 64;
      assert Utf8Tail(cp, k) + more == Utf8Tail(cp / 64, k - 1) + ([last] + more);
      ContinueTail(cp / 64, k - 1, [last] + more);
      assert ([last] + more)[1..] == more;
      assert 64 * (cp / 64) + cp % 64 == cp;
    }
  }

  lemma LeadBits(cp: nat)
    requires cp <= 0x10FFFF
    ensures var k := Continuations(cp);
      ShiftRight6(cp, k) < (if k == 0 then 0x80 else if k == 1 then 0x20 else if k == 2 then 0x10 else 8)
  {
    var k := Continuations(cp);
    assert ShiftRight6(cp, 0) == cp;
    assert ShiftRight6(cp, 1) == ShiftRight6(cp / 64, 0) == cp / 64;
    assert ShiftRight6(cp, 2) == ShiftRight6(cp / 64, 1) == ShiftRight6(cp / 64 / 64, 0);
    assert ShiftRight6(cp, 3) == ShiftRight6(cp / 64, 2) == ShiftRight6(cp / 64 / 64, 1) == ShiftRight6(cp / 64 / 64 / 64, 0);
  }

  /** The bytes written for a code point are its UTF-8 encoding. */
  lemma Utf8Correct(cp: nat)
    requires cp <= 0x10FFFF
    ensures Utf8Value(Utf8(cp)) == Some(cp)
    ensures forall i :: 0 <= i < |Utf8(cp)| ==> 0 <= Utf8(cp)[i] < 256
  {
    var k := Continuations(cp);
    LeadBits(cp);
    ContinueTail(cp, k, []);
    assert Utf8Tail(cp, k) + [] == Utf8Tail(cp, k);
    assert Utf8(cp)[1..] == Utf8Tail(cp, k);
    TailBytes(cp, k);
  }

  lemma {:induction false} TailBytes(cp: nat, k: nat)
    ensures forall i :: 0 <= i < k ==> 0x80 <= Utf8Tail(cp, k)[i] < 0xC0
    decreases k
  {
    if k > 0 { TailBytes(cp / 64, k - 1); }
  }

  // ---- RFC 8259: writing \u escapes ----------------------------------------------------------

  function Digit(v: nat, upper: bool): byte
    requires v < 16
  {
    if v < 10 then 48 + v else if upper then 65 + v - 10 else 97 + v - 10
  }

  /** \uXXXX for one UTF-16 code unit, with either case of hexadecimal letters. */
  function UnitTo(u: nat, upper: bool, rest: Str): Str
    requires u < 0x10000
  {
    Ch(BACKSLASH, Ch(SMALL_U, Ch(Digit(u / 16 / 16 / 16, upper), Ch(Digit(u / 16 / 16 % 16, upper),
      Ch(Digit(u / 16 % 16, upper), Ch(Digit(u % 16, upper), rest))))))
  }

  /** A scalar value: one escape, or a surrogate pair beyond the basic multilingual plane. */
  function ScalarTo(cp: nat, upper: bool, rest: Str): Str
    requires IsScalar(cp)
  {
    if cp < 0x10000 then UnitTo(cp, upper, rest)
    else UnitTo(0xD800 + (cp - 0x10000) / 0x400, upper, UnitTo(0xDC00 + (cp - 0x10000) % 0x400, upper, rest))
  }

  lemma DigitRead(v: nat, upper: bool)
    requires v < 16
    ensures HexValue(Digit(v, upper)) == Some(v)
  {
  }

  /** Four digits are read as the number they write. */
  lemma DigitsRead(a: nat, b: nat, c: nat, d: nat, upper: bool, rest: Str)
    requires a < 16 && b < 16 && c < 16 && d < 16
    ensures ParseHex4(Ch(Digit(a, upper), Ch(Digit(b, upper), Ch(Digit(c, upper), Ch(Digit(d, upper), rest)))))
         == 16 * (16 * (16 * a + b) + c) + d
  {
    var x3 := Ch(Digit(d, upper), rest);
    var x2 := Ch(Digit(c, upper), x3);
    var x1 := Ch(Digit(b, upper), x2);
    DigitRead(a, upper); DigitRead(b, upper); DigitRead(c, upper); DigitRead(d, upper);
    assert HexRun(Ch(Digit(a, upper), x1), 4, 0) == HexRun(x1, 3, a);
    assert HexRun(x1, 3, a) == HexRun(x2, 2, 16 * a + b);
    assert HexRun(x2, 2, 16 * a + b) == HexRun(x3, 1, 16 * (16 * a + b) + c);
  }

  lemma UnitDrop(u: nat, upper: bool, rest: Str)
    requires u < 0x10000
    ensures var x := UnitTo(u, upper, rest); Drop(x, 2) == x.rest.rest && Drop(x, 6) == rest
  {
    var x := UnitTo(u, upper, rest);
    var y := x.rest.rest;
    var z := y.rest.rest;
    assert Drop(x, 2) == Drop(x.rest, 1) == y;
    assert Drop(z, 2) == Drop(z.rest, 1) == Drop(rest, 0);
    assert Drop(x, 6) == Drop(x.rest, 5) == Drop(y, 4) == Drop(y.rest, 3) == Drop(z, 2);
  }

  lemma UnitRead(u: nat, upper: bool, rest: Str)
    requires u < 0x10000
    ensures ParseHex4(Drop(UnitTo(u, upper, rest), 2)) == u && Drop(UnitTo(u, upper, rest), 6) == rest
  {
    UnitDrop(u, upper, rest);
    var v, w := u / 16, u / 16 / 16;
    DigitsRead(w / 16, w % 16, v % 16, u % 16, upper, rest);
  }

  /** Every Unicode scalar value, written as an escape or a surrogate pair, is read as itself. */
  lemma ScalarRead(cp: nat, upper: bool, rest: Str, n: int)
    requires IsScalar(cp) && n >= (if cp < 0x10000 then 6 else 12)
    ensures Utf16Literal(ScalarTo(cp, upper, rest), n) == Some((if cp < 0x10000 then 6 else 12, cp))
  {
    if cp < 0x10000 {
      UnitRead(cp, upper, rest);
    } else {
      var low := UnitTo(0xDC00 + (cp - 0x10000) % 0x400, upper, rest);
      UnitRead(0xD800 + (cp - 0x10000) / 0x400, upper, low);
      UnitRead(0xDC00 + (cp - 0x10000) % 0x400, upper, rest);
    }
  }

  /** And a lone surrogate is refused. */
  lemma LoneSurrogate(u: nat, upper: bool, rest: Str, n: int)
    requires 0xDC00 <= u <= 0xDFFF || (0xD800 <= u <= 0xDBFF && (rest.End? || rest.c != BACKSLASH))
    ensures Utf16Literal(UnitTo(u, upper, rest), n).None?
  {
    UnitRead(u, upper, rest);
  }

  // ---- Escapes that are not hexadecimal -----------------------------------------------------------

  /** A whole \u escape fits, and its four digits are not all hexadecimal. */
  predicate NotHex(x: Str, n: int) {
    n >= 6 && HexRun(Drop(x, 2), 4, 0).None?
  }

  /** The reading of an escape with four hexadecimal digits, or two of them for a surrogate pair, as
      section 7 of RFC 8259 has them. A lone surrogate is refused, as the code does, although the
      grammar in that section contains it. */
  function StrictLiteral(x: Str, n: int): (r: Option<(nat, nat)>)
    ensures r.Some? ==> (r.value.0 == 6 || r.value.0 == 12) && r.value.0 <= n
  {
    var first := HexRun(Drop(x, 2), 4, 0);
    if n < 6 || first.None? || 0xDC00 <= first.value <= 0xDFFF then None
    else if first.value < 0xD800 || first.value > 0xDBFF then Some((6, first.value))
    else
      var y := Drop(x, 6);
      if n < 12 || y.End? || y.c != BACKSLASH || y.rest.End? || y.rest.c != SMALL_U then None
      else
        var second := HexRun(Drop(y, 2), 4, 0);
        if second.None? || second.value < 0xDC00 || second.value > 0xDFFF then None
        else Some((12, 0x10000 + (first.value - 0xD800) * 0x400 + (second.value - 0xDC00)))
  }

  /** One escape is read in that way if and only if its first four digits are hexadecimal. If they are
      not, it should be refused and the code takes it for U+0000. */
  lemma LiteralExactly(x: Str, n: int)
    ensures Utf16Literal(x, n) == StrictLiteral(x, n) <==> !NotHex(x, n)
    ensures NotHex(x, n) ==> Utf16Literal(x, n) == Some((6, 0)) && StrictLiteral(x, n).None?
  {
  }

  /** The second pass of parse_string with that reading. */
  function StrictDecode(x: Str, n: int): Option<seq<int>>
    decreases Length(x), 1
  {
    if n <= 0 || x.End? then Some([])
    else if x.c == BACKSLASH then StrictEscape(x, n)
    else Prepend([x.c], StrictDecode(x.rest, n - 1))
  }

  function StrictEscape(x: Str, n: int): Option<seq<int>>
    requires x.Ch? && n > 0
    decreases Length(x), 0
  {
    if x.rest.End? then None
    else if ShortMeaning(x.rest.c) != 0 then
      assert Length(x) == 1 + Length(x.rest);
      Prepend([ShortMeaning(x.rest.c)], StrictDecode(x.rest.rest, n - 2))
    else if x.rest.c == SMALL_U && StrictLiteral(x, n).Some? then
      var u := StrictLiteral(x, n).value;
      Prepend(Utf8(u.1), StrictDecode(Drop(x, u.0), n - u.0))
    else None
  }

  /** Reading from the left, a \u escape without hexadecimal digits is the first thing that is wrong. */
  predicate MeetsNotHex(x: Str, n: int)
    decreases Length(x), 1
  {
    if n <= 0 || x.End? then false
    else if x.c == BACKSLASH then EscapeMeetsNotHex(x, n)
    else MeetsNotHex(x.rest, n - 1)
  }

  predicate EscapeMeetsNotHex(x: Str, n: int)
    requires x.Ch? && n > 0
    decreases Length(x), 0
  {
    if x.rest.End? then false
    else if ShortMeaning(x.rest.c) != 0 then
      assert Length(x) == 1 + Length(x.rest);
      MeetsNotHex(x.rest.rest, n - 2)
    else if x.rest.c != SMALL_U then false
    else
      NotHex(x, n) || (StrictLiteral(x, n).Some? && MeetsNotHex(Drop(x, StrictLiteral(x, n).value.0), n - StrictLiteral(x, n).value.0))
  }

  /** The strict reading refuses what meets such an escape, and otherwise agrees with the code. */
  lemma {:induction false} DecodeStrictly(x: Str, n: int)
    ensures StrictDecode(x, n) == if MeetsNotHex(x, n) then None else Decode(x, n)
    decreases Length(x)
  {
    if n > 0 && x.Ch? {
      if x.c != BACKSLASH {
        DecodeStrictly(x.rest, n - 1);
      } else if x.rest.Ch? {
        LiteralExactly(x, n);
        if ShortMeaning(x.rest.c) != 0 {
          DecodeStrictly(x.rest.rest, n - 2);
        } else if StrictLiteral(x, n).Some? {
          var k := StrictLiteral(x, n).value.0;
          DecodeStrictly(Drop(x, k), n - k);
        }
      }
    }
  }

  /** parse_string with the strict reading. */
  function StrictString(x: Str): Result<Str> {
    if x.End? || x.c != QUOTE || ScanEnd(x.rest).None? then Fail
    else
      var n := ScanEnd(x.rest).value;
      var s := StrictDecode(x.rest, n);
      if s.None? then Fail else Ok(Cut(s.value), Drop(x.rest, n + 1))
  }

  /** A string that has a closing quote meets such an escape. */
  predicate StringMeetsNotHex(x: Str) {
    x.Ch? && x.c == QUOTE && ScanEnd(x.rest).Some? && MeetsNotHex(x.rest, ScanEnd(x.rest).value)
  }

  // What the second pass accepts, in terms of UTF-16 code units. A unit without hexadecimal digits is 0.

  predicate IsHigh(u: nat) { 0xD800 <= u <= 0xDBFF }

  predicate IsLow(u: nat) { 0xDC00 <= u <= 0xDFFF }

  /** The unit behind the backslash and the u. */
  function UnitAt(x: Str): nat {
    ParseHex4(Drop(x, 2))
  }

  predicate BeginsUnit(x: Str) {
    x.Ch? && x.c == BACKSLASH && x.rest.Ch? && x.rest.c == SMALL_U
  }

  /** The escape is half of a surrogate pair without the other half, within the `n` bytes of the string. */
  predicate IsLone(x: Str, n: int) {
    IsLow(UnitAt(x)) || (IsHigh(UnitAt(x)) && !(n >= 12 && BeginsUnit(Drop(x, 6)) && IsLow(UnitAt(Drop(x, 6)))))
  }

  /** Escapes are refused for two reasons: the closing quote comes too soon, or half a pair is missing. */
  lemma LiteralAccepts(x: Str, n: int)
    ensures Utf16Literal(x, n).Some? <==> n >= 6 && !IsLone(x, n)
    ensures Utf16Literal(x, n).Some? ==> Utf16Literal(x, n).value.0 == if IsHigh(UnitAt(x)) then 12 else 6
  {
  }

  /** Every backslash begins one of the short escapes, or a \u escape that is not refused. */
  predicate WellEscaped(x: Str, n: int)
    decreases Length(x), 1
  {
    n <= 0 || x.End? || if x.c == BACKSLASH then WellEscapedAt(x, n) else WellEscaped(x.rest, n - 1)
  }

  predicate WellEscapedAt(x: Str, n: int)
    requires x.Ch? && n > 0
    decreases Length(x), 0
  {
    && x.rest.Ch?
    && if ShortMeaning(x.rest.c) != 0 then
         assert Length(x) == 1 + Length(x.rest);
         WellEscaped(x.rest.rest, n - 2)
       else
         && x.rest.c == SMALL_U && n >= 6 && !IsLone(x, n)
         && var k := if IsHigh(UnitAt(x)) then 12 else 6; WellEscaped(Drop(x, k), n - k)
  }

  lemma {:induction false} DecodeAccepts(x: Str, n: int)
    ensures Decode(x, n).Some? <==> WellEscaped(x, n)
    decreases Length(x)
  {
    if n > 0 && x.Ch? {
      if x.c != BACKSLASH {
        DecodeAccepts(x.rest, n - 1);
      } else if x.rest.Ch? {
        LiteralAccepts(x, n);
        assert Length(x) == 1 + Length(x.rest);
        if ShortMeaning(x.rest.c) != 0 {
          DecodeAccepts(x.rest.rest, n - 2);
        } else if Utf16Literal(x, n).Some? {
          var k := Utf16Literal(x, n).value.0;
          DecodeAccepts(Drop(x, k), n - k);
        }
      }
    }
  }

  /** A string with a closing quote, and escapes that are not refused. */
  predicate IsString(x: Str) {
    x.Ch? && x.c == QUOTE && ScanEnd(x.rest).Some? && WellEscaped(x.rest, ScanEnd(x.rest).value)
  }

  /** parse_string accepts exactly these strings, and agrees with the strict reading on all but those
      of them that meet an escape without hexadecimal digits; the strict reading refuses these. */
  lemma StringExactly(x: Str)
    ensures ParseString(x).Ok? <==> IsString(x)
    ensures ParseString(x) == StrictString(x) <==> !(StringMeetsNotHex(x) && IsString(x))
    ensures StringMeetsNotHex(x) ==> StrictString(x) == Fail
  {
    if x.Ch? && x.c == QUOTE && ScanEnd(x.rest).Some? {
      DecodeStrictly(x.rest, ScanEnd(x.rest).value);
      DecodeAccepts(x.rest, ScanEnd(x.rest).value);
    }
  }

  predicate Plain(c: byte) {
    c != QUOTE && c != BACKSLASH
  }

  /** A string that is one escape with four bytes that are not all hexadecimal digits is taken for the
      empty string. */
  lemma NotHexIsNul(a: byte, b: byte, c: byte, d: byte, rest: Str)
    requires Plain(a) && Plain(b) && Plain(c) && Plain(d)
    requires HexValue(a).None? || HexValue(b).None? || HexValue(c).None? || HexValue(d).None?
    ensures ParseString(Ch(QUOTE, Ch(BACKSLASH, Ch(SMALL_U, Ch(a, Ch(b, Ch(c, Ch(d, Ch(QUOTE, rest)))))))))
         == Ok(End, rest)
  {
    var y := Ch(QUOTE, rest);
    var x3 := Ch(d, y);
    var x2 := Ch(c, x3);
    var x1 := Ch(b, x2);
    var x0 := Ch(a, x1);
    var x := Ch(BACKSLASH, Ch(SMALL_U, x0));
    assert ScanEnd(y) == Some(0);
    assert ScanEnd(x3) == Some(1) && ScanEnd(x2) == Some(2) && ScanEnd(x1) == Some(3) && ScanEnd(x0) == Some(4);
    assert ScanEnd(x) == Some(6);
    assert Drop(x, 2) == Drop(x.rest, 1) == x0;
    assert Drop(x2, 2) == Drop(x3, 1) == y;
    assert Drop(x, 6) == Drop(x.rest, 5) == Drop(x0, 4) == Drop(x1, 3) == Drop(x2, 2);
    assert Drop(y, 1) == rest;
    assert Drop(x, 7) == Drop(x.rest, 6) == Drop(x0, 5) == Drop(x1, 4) == Drop(x2, 3) == Drop(x3, 2) == Drop(y, 1);
    RunStops(a, b, c, d, y);
    LiteralExactly(x, 6);
    assert Decode(y, 0) == Some([]);
    assert Decode(x, 6) == Prepend(Utf8(0), Decode(y, 0));
    assert Utf8(0)[0] == 0;
  }

  lemma RunStops(a: byte, b: byte, c: byte, d: byte, rest: Str)
    requires HexValue(a).None? || HexValue(b).None? || HexValue(c).None? || HexValue(d).None?
    ensures HexRun(Ch(a, Ch(b, Ch(c, Ch(d, rest)))), 4, 0).None?
  {
  }

  /** "\uZZZZ" is read as the empty string, and the RFC does not allow it. */
  lemma LettersAreNul(rest: Str)
    ensures var z: byte := 90; var x := Ch(QUOTE, Ch(BACKSLASH, Ch(SMALL_U, Ch(z, Ch(z, Ch(z, Ch(z, Ch(QUOTE, rest))))))));
      ParseString(x) == Ok(End, rest) && StrictString(x) == Fail
  {
    var z: byte := 90;
    var y := Ch(QUOTE, rest);
    var x0 := Ch(z, Ch(z, Ch(z, Ch(z, y))));
    var x := Ch(BACKSLASH, Ch(SMALL_U, x0));
    NotHexIsNul(z, z, z, z, rest);
    assert Drop(x, 2) == Drop(x.rest, 1) == x0;
    RunStops(z, z, z, z, y);
    assert NotHex(x, 6);
    assert ScanEnd(y) == Some(0);
    assert ScanEnd(Ch(z, y)) == Some(1) && ScanEnd(Ch(z, Ch(z, y))) == Some(2) && ScanEnd(Ch(z, Ch(z, Ch(z, y)))) == Some(3);
    assert ScanEnd(x0) == Some(4) && ScanEnd(x) == Some(6);
    assert MeetsNotHex(x, 6);
    StringExactly(Ch(QUOTE, x));
  }
}
