/** The text of a JSON value, and reading it back: the printing and parsing rules of
    packages/cJSON-v1.7.17/cJSON.c as functions on C strings. */
module JsonText {
  import opened Basics
  import opened CString
  import opened Json

  const NESTING_LIMIT: nat := 1000

  const TAB: byte := 9
  const NEWLINE: byte := 10
  const SPACE: byte := 32
  const QUOTE: byte := 34
  const COMMA: byte := 44
  const MINUS: byte := 45
  const ZERO: byte := 48
  const COLON: byte := 58
  const LBRACKET: byte := 91
  const BACKSLASH: byte := 92
  const RBRACKET: byte := 93
  const SMALL_U: byte := 117
  const LBRACE: byte := 123
  const RBRACE: byte := 125

  // ---- Printing: each function writes its text in front of `rest` -------------------------------

  function NullTo(rest: Str): Str { Ch(110, Ch(117, Ch(108, Ch(108, rest)))) }

  function FalseTo(rest: Str): Str { Ch(102, Ch(97, Ch(108, Ch(115, Ch(101, rest))))) }

  function TrueTo(rest: Str): Str { Ch(116, Ch(114, Ch(117, Ch(101, rest)))) }

  /** "%x" of one nibble. */
  function HexDigit(v: int): byte
    requires 0 <= v < 16
  {
    if v < 10 then 48 + v else 97 + v - 10
  }

  /** The letter of a two-character escape, or 0. */
  function ShortEscape(c: byte): int {
    if c == 92 then 92 else if c == 34 then 34 else if c == 8 then 98 else if c == 12 then 102
    else if c == 10 then 110 else if c == 13 then 114 else if c == 9 then 116 else 0
  }

  function EscapeByteTo(c: byte, rest: Str): Str {
    if c > 31 && c != QUOTE && c != BACKSLASH then Ch(c, rest)
    else if ShortEscape(c) != 0 then Ch(BACKSLASH, Ch(ShortEscape(c), rest))
    else Ch(BACKSLASH, Ch(SMALL_U, Ch(ZERO, Ch(ZERO, Ch(HexDigit(c / 16), Ch(HexDigit(c % 16), rest))))))
  }

  function EscapeTo(s: Str, rest: Str): Str {
    if s.End? then rest else EscapeByteTo(s.c, EscapeTo(s.rest, rest))
  }

  /** How many bytes print_string_ptr writes for `c`, as its first loop counts them. */
  function EscapedSize(c: byte): nat {
    if ShortEscape(c) != 0 then 2 else if c < 32 then 6 else 1
  }

  /** `output_length` of print_string_ptr. */
  function EscapedLength(s: Str): nat {
    if s.End? then 0 else EscapedSize(s.c) + EscapedLength(s.rest)
  }

  function StringTo(s: Str, rest: Str): Str {
    Ch(QUOTE, EscapeTo(s, Ch(QUOTE, rest)))
  }

  /** Decimal digits of a natural number, as "%d" and "%lu" print them. */
  function DigitsTo(n: nat, rest: Str): Str {
    if n < 10 then Ch(48 + n, rest) else DigitsTo(n / 10, Ch(48 + n % 10, rest))
  }

  function NumberTo(n: int, rest: Str): Str {
    if n < 0 then Ch(MINUS, DigitsTo(-n, rest)) else DigitsTo(n, rest)
  }

  function TabsTo(n: nat, rest: Str): Str {
    if n == 0 then rest else Ch(TAB, TabsTo(n - 1, rest))
  }

  function IndentTo(format: bool, d: nat, rest: Str): Str {
    if format then TabsTo(d, rest) else rest
  }

  /** The text of `t` at nesting depth `d`. */
  function RenderTo(t: Json, format: bool, d: nat, rest: Str): Str
    decreases t
  {
    match t
    case Null => NullTo(rest)
    case False => FalseTo(rest)
    case True => TrueTo(rest)
    case Number(n) => NumberTo(n, rest)
    case String(s) => StringTo(s, rest)
    case Array(items) => Ch(LBRACKET, ItemsTo(items, format, d + 1, Ch(RBRACKET, rest)))
    case Object(members) =>
      Ch(LBRACE, BreakTo(format, MembersTo(members, format, d + 1, IndentTo(format, d, Ch(RBRACE, rest)))))
  }

  function ItemsTo(items: Items, format: bool, d: nat, rest: Str): Str
    decreases items
  {
    match items
    case NoItems => rest
    case Item(head, tail) =>
      RenderTo(head, format, d, if tail.NoItems? then rest else ItemGapTo(format, ItemsTo(tail, format, d, rest)))
  }

  function MembersTo(members: Members, format: bool, d: nat, rest: Str): Str
    decreases members
  {
    match members
    case NoMembers => rest
    case Member(key, value, others) =>
      KeyTo(key, format, d, RenderTo(value, format, d,
        MemberGapTo(others.NoMembers?, format, MembersTo(others, format, d, rest))))
  }

  function BreakTo(format: bool, rest: Str): Str {
    if format then Ch(NEWLINE, rest) else rest
  }

  function ItemGapTo(format: bool, rest: Str): Str {
    Ch(COMMA, if format then Ch(SPACE, rest) else rest)
  }

  function KeyTo(key: Str, format: bool, d: nat, rest: Str): Str {
    IndentTo(format, d, StringTo(key, Ch(COLON, if format then Ch(TAB, rest) else rest)))
  }

  function MemberGapTo(last: bool, format: bool, rest: Str): Str {
    if last then BreakTo(format, rest) else Ch(COMMA, BreakTo(format, rest))
  }

  // ---- Parsing ------------------------------------------------------------------------------

  datatype Result<T> = Fail | OutOfModel | Ok(value: T, rest: Str)

  /** buffer_skip_whitespace. */
  function Skip(x: Str): (r: Str)
    ensures Length(r) <= Length(x)
  {
    if x.Ch? && x.c <= SPACE then Skip(x.rest) else x
  }

  // Strings. A string is measured in bytes up to its closing quote, `n`.

  function HexValue(c: byte): (r: Option<nat>)
    ensures r.Some? ==> r.value < 16
  {
    if 48 <= c <= 57 then Some(c - 48)
    else if 65 <= c <= 70 then Some(c - 65 + 10)
    else if 97 <= c <= 102 then Some(c - 97 + 10)
    else None
  }

  function HexLimit(n: nat): nat {
    if n == 0 then 0x10000 else if n == 1 then 0x1000 else if n == 2 then 0x100 else if n == 3 then 0x10 else 1
  }

  /** The last `n` of four hexadecimal digits, in front of which `high` was read. */
  function HexRun(x: Str, n: nat, high: nat): (r: Option<nat>)
    requires n <= 4 && high < HexLimit(n)
    ensures r.Some? ==> r.value < 0x10000
    decreases n
  {
    if n == 0 then Some(high)
    else if x.End? || HexValue(x.c).None? then None
    else HexRun(x.rest, n - 1, 16 * high + HexValue(x.c).value)
  }

  /** parse_hex4: 0 when one of the four bytes is not a hexadecimal digit. */
  function ParseHex4(x: Str): (h: nat)
    ensures h < 0x10000
  {
    var h := HexRun(x, 4, 0);
    if h.Some? then h.value else 0
  }

  function Drop(x: Str, k: nat): (r: Str)
    ensures Length(r) == if k <= Length(x) then Length(x) - k else 0
  {
    if k == 0 || x.End? then x else Drop(x.rest, k - 1)
  }

  /** How many continuation bytes the UTF-8 form of `cp` has. */
  function Continuations(cp: nat): nat {
    if cp < 0x80 then 0 else if cp < 0x800 then 1 else if cp < 0x10000 then 2 else 3
  }

  function Utf8Tail(cp: nat, k: nat): (r: seq<int>)
    ensures |r| == k
  {
    if k == 0 then [] else Utf8Tail(cp / 64, k - 1) + [0x80 + cp % 64]
  }

  function ShiftRight6(cp: nat, k: nat): nat {
    if k == 0 then cp else ShiftRight6(cp / 64, k - 1)
  }

  function LeadMark(k: nat): nat {
    if k == 0 then 0 else if k == 1 then 0xC0 else if k == 2 then 0xE0 else 0xF0
  }

  /** The bytes utf16_literal_to_utf8 writes for a code point: from the end, six bits at a time. */
  function Utf8(cp: nat): (r: seq<int>)
    ensures |r| == 1 + Continuations(cp)
  {
    var k := Continuations(cp);
    [LeadMark(k) + ShiftRight6(cp, k)] + Utf8Tail(cp, k)
  }

  /** What utf16_literal_to_utf8 decides: how many bytes of input are used, and the code point.
      `n` bytes are left before the closing quote. */
  function Utf16Literal(x: Str, n: int): (r: Option<(nat, nat)>)
    ensures r.Some? ==> (r.value.0 == 6 || r.value.0 == 12) && r.value.0 <= n && r.value.1 <= 0x10FFFF
    ensures r.Some? && r.value.0 == 12 ==> r.value.1 >= 0x10000
    ensures r.Some? && r.value.0 == 6 ==> r.value.1 < 0x10000
  {
    if n < 6 then None
    else
      var first := ParseHex4(Drop(x, 2));
      if 0xDC00 <= first <= 0xDFFF then None
      else if 0xD800 <= first <= 0xDBFF then
        var y := Drop(x, 6);
        if n < 12 || y.End? || y.c != BACKSLASH || y.rest.End? || y.rest.c != SMALL_U then None
        else
          var second := ParseHex4(Drop(y, 2));
          if second < 0xDC00 || second > 0xDFFF then None
          else Some((12, 0x10000 + (first - 0xD800) * 0x400 + (second - 0xDC00)))
      else Some((6, first))
  }

  /** What the letter after a backslash stands for, or 0. */
  function ShortMeaning(c: byte): int {
    if c == 98 then 8 else if c == 102 then 12 else if c == 110 then 10 else if c == 114 then 13
    else if c == 116 then 9 else if c == 34 || c == 92 || c == 47 then c else 0
  }

  /** The first pass of parse_string: how far away the closing quote is. */
  function ScanEnd(x: Str): (r: Option<nat>)
    ensures r.Some? ==> r.value < Length(x)
  {
    if x.End? then None
    else if x.c == QUOTE then Some(0)
    else if x.c == BACKSLASH then
      if x.rest.End? then None else Further(2, ScanEnd(x.rest.rest))
    else Further(1, ScanEnd(x.rest))
  }

  function Further(k: nat, r: Option<nat>): Option<nat> {
    if r.Some? then Some(k + r.value) else None
  }

  /** The second pass of parse_string over the `n` bytes before the closing quote, or one more:
      the bytes it writes. A \u0000 writes a NUL, so these are not bytes of a C string. */
  function Decode(x: Str, n: int): Option<seq<int>>
    decreases Length(x), 1
  {
    if n <= 0 || x.End? then Some([])
    else if x.c == BACKSLASH then DecodeEscape(x, n)
    else Prepend([x.c], Decode(x.rest, n - 1))
  }

  function DecodeEscape(x: Str, n: int): Option<seq<int>>
    requires x.Ch? && n > 0
    decreases Length(x), 0
  {
    if x.rest.End? then None
    else if ShortMeaning(x.rest.c) != 0 then
      assert Length(x) == 1 + Length(x.rest);
      Prepend([ShortMeaning(x.rest.c)], Decode(x.rest.rest, n - 2))
    else if x.rest.c == SMALL_U && Utf16Literal(x, n).Some? then
      var u := Utf16Literal(x, n).value;
      Prepend(Utf8(u.1), Decode(Drop(x, u.0), n - u.0))
    else None
  }

  function Prepend(x: seq<int>, r: Option<seq<int>>): Option<seq<int>> {
    if r.Some? then Some(x + r.value) else None
  }

  /** The C string in a buffer of bytes: what comes before the first NUL. */
  function Cut(s: seq<int>): Str {
    if |s| == 0 || s[0] <= 0 || s[0] >= 256 then End else Ch(s[0], Cut(s[1..]))
  }

  function ParseString(x: Str): (r: Result<Str>)
    ensures !r.OutOfModel?
    ensures r.Ok? ==> Length(r.rest) < Length(x)
  {
    if x.End? || x.c != QUOTE || ScanEnd(x.rest).None? then Fail
    else
      var n := ScanEnd(x.rest).value;
      var s := Decode(x.rest, n);
      if s.None? then Fail else Ok(Cut(s.value), Drop(x.rest, n + 1))
  }

  // Numbers

  predicate IsDigit(c: byte) {
    48 <= c <= 57
  }

  /** The bytes that parse_number copies for strtod: digits, + - e E and the decimal point. */
  predicate IsNumeral(c: byte) {
    IsDigit(c) || c == 43 || c == 45 || c == 101 || c == 69 || c == 46
  }

  datatype DigitScan = DigitScan(value: nat, count: nat, rest: Str, room: nat)

  /** Reads digits while there is room in the buffer of 63 characters. */
  function ScanDigits(x: Str, room: nat, value: nat, count: nat): (r: DigitScan)
    ensures count <= r.count && Length(r.rest) + r.count == Length(x) + count
  {
    if room == 0 || x.End? || !IsDigit(x.c) then DigitScan(value, count, x, room)
    else ScanDigits(x.rest, room - 1, 10 * value + x.c - 48, count + 1)
  }

  /** parse_number on a numeral without fraction and exponent; any other numeral, and any number
      that is not a 32-bit integer, is OutOfModel. */
  function ParseNumber(x: Str): (r: Result<int>)
    requires x.Ch?
    ensures r.Ok? ==> Length(r.rest) < Length(x)
  {
    var negative := x.c == MINUS;
    var scan := if negative then ScanDigits(x.rest, 62, 0, 0) else ScanDigits(x, 63, 0, 0);
    var n: int := if negative then -(scan.value as int) else scan.value;
    if scan.room > 0 && scan.rest.Ch?
       && (scan.rest.c == 46 || (scan.count > 0 && (scan.rest.c == 101 || scan.rest.c == 69))) then OutOfModel
    else if scan.count == 0 then Fail
    else if INT_MIN <= n <= INT_MAX then Ok(n, scan.rest)
    else OutOfModel
  }

  // Values

  /** What lies behind the keyword `w` at the beginning of `x`. */
  function Strip(x: Str, w: Str): (r: Option<Str>)
    ensures r.Some? ==> Length(r.value) + Length(w) == Length(x)
    decreases w
  {
    if w.End? then Some(x)
    else if x.Ch? && x.c == w.c then Strip(x.rest, w.rest)
    else None
  }

  function ParseValue(x: Str, depth: nat): (r: Result<Json>)
    ensures r.Ok? ==> Length(r.rest) < Length(x)
    decreases Length(x), 2
  {
    ParseKind(x, depth)
  }

  /** The kind of a value is decided by its first bytes. */
  function ParseKind(x: Str, depth: nat): (r: Result<Json>)
    ensures r.Ok? ==> Length(r.rest) < Length(x)
    decreases Length(x), 1
  {
    if Strip(x, NullTo(End)).Some? then Ok(Null, Strip(x, NullTo(End)).value)
    else if Strip(x, FalseTo(End)).Some? then Ok(False, Strip(x, FalseTo(End)).value)
    else if Strip(x, TrueTo(End)).Some? then Ok(True, Strip(x, TrueTo(End)).value)
    else if x.End? then Fail
    else if x.c == QUOTE then
      match ParseString(x)
      case Ok(s, rest) => Ok(String(s), rest)
      case Fail => Fail
      case OutOfModel => OutOfModel
    else if x.c == MINUS || IsDigit(x.c) then
      match ParseNumber(x)
      case Ok(n, rest) => Ok(Number(n), rest)
      case Fail => Fail
      case OutOfModel => OutOfModel
    else if x.c == LBRACKET then ParseArray(x, depth)
    else if x.c == LBRACE then ParseObject(x, depth)
    else Fail
  }

  function ParseArray(x: Str, depth: nat): (r: Result<Json>)
    requires x.Ch? && x.c == LBRACKET
    ensures r.Ok? ==> Length(r.rest) < Length(x)
    decreases Length(x), 0
  {
    var y := Skip(x.rest);
    if depth >= NESTING_LIMIT then Fail
    else if y.Ch? && y.c == RBRACKET then Ok(Array(NoItems), y.rest)
    else
      match ParseItems(y, depth + 1)
      case Ok(items, rest) => Ok(Array(items), rest)
      case Fail => Fail
      case OutOfModel => OutOfModel
  }

  function ParseObject(x: Str, depth: nat): (r: Result<Json>)
    requires x.Ch? && x.c == LBRACE
    ensures r.Ok? ==> Length(r.rest) < Length(x)
    decreases Length(x), 0
  {
    var y := Skip(x.rest);
    if depth >= NESTING_LIMIT then Fail
    else if y.Ch? && y.c == RBRACE then Ok(Object(NoMembers), y.rest)
    else
      match ParseMembers(y, depth + 1)
      case Ok(members, rest) => Ok(Object(members), rest)
      case Fail => Fail
      case OutOfModel => OutOfModel
  }

  /** The elements of an array, up to and including the closing bracket. */
  function ParseItems(x: Str, depth: nat): (r: Result<Items>)
    ensures r.Ok? ==> Length(r.rest) < Length(x)
    decreases Length(x), 3
  {
    match ParseValue(Skip(x), depth)
    case Fail => Fail
    case OutOfModel => OutOfModel
    case Ok(v, y) =>
      var z := Skip(y);
      if z.End? then Fail
      else if z.c == COMMA then
        match ParseItems(z.rest, depth)
        case Ok(more, rest) => Ok(Item(v, more), rest)
        case Fail => Fail
        case OutOfModel => OutOfModel
      else if z.c == RBRACKET then Ok(Item(v, NoItems), z.rest)
      else Fail
  }

  /** The members of an object, up to and including the closing brace. */
  function ParseMembers(x: Str, depth: nat): (r: Result<Members>)
    ensures r.Ok? ==> Length(r.rest) < Length(x)
    decreases Length(x), 3
  {
    match ParseString(Skip(x))
    case Fail => Fail
    case OutOfModel => OutOfModel
    case Ok(key, y) =>
      var z := Skip(y);
      if z.End? || z.c != COLON then Fail
      else
        match ParseValue(Skip(z.rest), depth)
        case Fail => Fail
        case OutOfModel => OutOfModel
        case Ok(v, u) =>
          var w := Skip(u);
          if w.End? then Fail
          else if w.c == COMMA then
            match ParseMembers(w.rest, depth)
            case Ok(others, rest) => Ok(Member(key, v, others), rest)
            case Fail => Fail
            case OutOfModel => OutOfModel
          else if w.c == RBRACE then Ok(Member(key, v, NoMembers), w.rest)
          else Fail
  }

  /** cJSON_ParseWithOpts. */
  function Parse(x: Str, requireEnd: bool): Result<Json> {
    var y := Strip(x, Ch(0xEF, Ch(0xBB, Ch(0xBF, End))));
    match ParseValue(Skip(if y.Some? && y.value.Ch? then y.value else x), 0)
    case Fail => Fail
    case OutOfModel => OutOfModel
    case Ok(t, rest) =>
      if !requireEnd then Ok(t, rest)
      else if Skip(rest).Ch? then Fail
      else Ok(t, End)
  }
}
