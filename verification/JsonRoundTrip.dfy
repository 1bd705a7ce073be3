/** Parsing what the printer wrote gives back the same value. */
module JsonRoundTrip {
  import opened Basics
  import opened CString
  import opened Json
  import opened JsonText

  /** What the printer writes as the parser reads it: 32-bit integers. */
  predicate Printable(t: Json) {
    match t
    case Number(n) => INT_MIN <= n <= INT_MAX
    case Array(items) => PrintableItems(items)
    case Object(members) => PrintableMembers(members)
    case _ => true
  }

  predicate PrintableItems(items: Items) {
    items.Item? ==> Printable(items.head) && PrintableItems(items.tail)
  }

  predicate PrintableMembers(members: Members) {
    members.Member? ==> Printable(members.value) && PrintableMembers(members.others)
  }

  /** Arrays and objects are nested at most `limit` deep in `t`. */
  predicate NestedWithin(t: Json, limit: int) {
    match t
    case Array(items) => limit > 0 && ItemsNestedWithin(items, limit - 1)
    case Object(members) => limit > 0 && MembersNestedWithin(members, limit - 1)
    case _ => true
  }

  predicate ItemsNestedWithin(items: Items, limit: int) {
    items.Item? ==> NestedWithin(items.head, limit) && ItemsNestedWithin(items.tail, limit)
  }

  predicate MembersNestedWithin(members: Members, limit: int) {
    members.Member? ==> NestedWithin(members.value, limit) && MembersNestedWithin(members.others, limit)
  }

  // ---- Strings ------------------------------------------------------------------------------

  lemma ScanByte(c: byte, rest: Str)
    ensures ScanEnd(EscapeByteTo(c, rest)) == Further(EscapedSize(c), ScanEnd(rest))
  {
    if c < 32 && ShortEscape(c) == 0 {
      var x := Ch(HexDigit(c / 16), Ch(HexDigit(c % 16), rest));
      assert ScanEnd(x.rest) == Further(1, ScanEnd(rest));
      assert ScanEnd(x) == Further(1, ScanEnd(x.rest));
      assert ScanEnd(Ch(ZERO, x)) == Further(1, ScanEnd(x));
      assert ScanEnd(Ch(ZERO, Ch(ZERO, x))) == Further(1, ScanEnd(Ch(ZERO, x)));
    }
  }

  lemma {:induction false} ScanEscaped(s: Str, rest: Str)
    ensures ScanEnd(EscapeTo(s, Ch(QUOTE, rest))) == Some(EscapedLength(s))
  {
    if s.Ch? {
      ScanEscaped(s.rest, rest);
      ScanByte(s.c, EscapeTo(s.rest, Ch(QUOTE, rest)));
    }
  }

  lemma DropByte(c: byte, rest: Str, k: nat)
    ensures Drop(EscapeByteTo(c, rest), EscapedSize(c) + k) == Drop(rest, k)
  {
    if c < 32 && ShortEscape(c) == 0 {
      var x := Ch(HexDigit(c / 16), Ch(HexDigit(c % 16), rest));
      assert Drop(x, k + 2) == Drop(x.rest, k + 1) == Drop(rest, k);
      assert Drop(Ch(ZERO, Ch(ZERO, x)), k + 4) == Drop(Ch(ZERO, x), k + 3) == Drop(x, k + 2);
    }
  }

  lemma {:induction false} DropEscaped(s: Str, rest: Str)
    ensures Drop(EscapeTo(s, Ch(QUOTE, rest)), EscapedLength(s) + 1) == rest
  {
    if s.Ch? {
      DropEscaped(s.rest, rest);
      DropByte(s.c, EscapeTo(s.rest, Ch(QUOTE, rest)), EscapedLength(s.rest) + 1);
    }
  }

  lemma HexOfByte(c: byte, rest: Str)
    ensures ParseHex4(Ch(ZERO, Ch(ZERO, Ch(HexDigit(c / 16), Ch(HexDigit(c % 16), rest))))) == c
  {
    var y := Ch(HexDigit(c / 16), Ch(HexDigit(c % 16), rest));
    assert HexRun(y.rest, 1, c / 16) == Some(16 * (c / 16) + c % 16);
    assert HexRun(y, 2, 0) == HexRun(y.rest, 1, c / 16);
    assert HexRun(Ch(ZERO, y), 3, 0) == HexRun(y, 2, 0);
    assert HexRun(Ch(ZERO, Ch(ZERO, y)), 4, 0) == HexRun(Ch(ZERO, y), 3, 0);
  }

  lemma DecodeControl(c: byte, rest: Str, n: nat)
    requires c < 32 && ShortEscape(c) == 0
    ensures DecodeEscape(EscapeByteTo(c, rest), 6 + n) == Prepend([c], Decode(rest, n))
  {
    var x := EscapeByteTo(c, rest);
    HexOfByte(c, rest);
    assert Drop(x, 2) == Drop(x.rest, 1) == x.rest.rest;
    DropByte(c, rest, 0);
    var cp: nat := c;
    assert Utf16Literal(x, 6 + n) == Some((6, cp));
    assert Utf8(c) == [c];
  }

  lemma DecodeByte(c: byte, rest: Str, n: nat)
    ensures Decode(EscapeByteTo(c, rest), EscapedSize(c) + n) == Prepend([c], Decode(rest, n))
  {
    if c < 32 && ShortEscape(c) == 0 {
      DecodeControl(c, rest, n);
    } else if ShortEscape(c) != 0 {
      assert DecodeEscape(EscapeByteTo(c, rest), 2 + n) == Prepend([c], Decode(rest, n));
    }
  }

  lemma {:induction false} CutRaw(s: Str)
    ensures Cut(Raw(s)) == s
  {
    if s.Ch? { CutRaw(s.rest); assert Raw(s)[1..] == Raw(s.rest); }
  }

  lemma {:induction false} DecodeEscaped(s: Str, rest: Str)
    ensures Decode(EscapeTo(s, Ch(QUOTE, rest)), EscapedLength(s)) == Some(Raw(s))
  {
    if s.Ch? {
      DecodeEscaped(s.rest, rest);
      DecodeByte(s.c, EscapeTo(s.rest, Ch(QUOTE, rest)), EscapedLength(s.rest));
    }
  }

  /** parse_string inverts print_string_ptr on every C string, whatever follows it. */
  lemma StringRoundTrip(s: Str, rest: Str)
    ensures ParseString(StringTo(s, rest)) == Ok(s, rest)
  {
    ScanEscaped(s, rest);
    DecodeEscaped(s, rest);
    DropEscaped(s, rest);
    CutRaw(s);
  }

  // ---- Numbers ------------------------------------------------------------------------------

  function DigitCount(n: nat): nat {
    if n < 10 then 1 else DigitCount(n / 10) + 1
  }

  lemma {:induction false} ScanPrinted(n: nat, rest: Str, room: nat)
    requires DigitCount(n) <= room
    ensures ScanDigits(DigitsTo(n, rest), room, 0, 0) == ScanDigits(rest, room - DigitCount(n), n, DigitCount(n))
    ensures DigitsTo(n, rest).Ch? && IsDigit(DigitsTo(n, rest).c)
  {
    if n >= 10 {
      ScanPrinted(n / 10, Ch(48 + n % 10, rest), room);
    }
  }

  lemma IntDigits(n: nat)
    requires n <= -INT_MIN
    ensures DigitCount(n) <= 10
  {
    var a, b := n / 1000, n / 1000000;
    assert DigitCount(n) <= 3 + DigitCount(a) by { DigitsByThree(n); }
    assert DigitCount(a) <= 3 + DigitCount(b) by { DigitsByThree(a); }
    assert DigitCount(b) <= 3 + DigitCount(b / 1000) by { DigitsByThree(b); }
    assert b / 1000 < 10;
  }

  lemma DigitsByThree(n: nat)
    ensures DigitCount(n) <= 3 + DigitCount(n / 1000)
  {
    assert DigitCount(n) <= 1 + DigitCount(n / 10);
    assert DigitCount(n / 10) <= 1 + DigitCount(n / 10 / 10);
    assert DigitCount(n / 10 / 10) <= 1 + DigitCount(n / 10 / 10 / 10);
    assert n / 10 / 10 / 10 == n / 1000;
  }

  predicate StartsNumeral(x: Str) {
    x.Ch? && IsNumeral(x.c)
  }

  lemma NumberRoundTrip(n: int, rest: Str)
    requires INT_MIN <= n <= INT_MAX && !StartsNumeral(rest)
    ensures var x := NumberTo(n, rest); x.Ch? && (x.c == MINUS || IsDigit(x.c)) && ParseNumber(x) == Ok(n, rest)
  {
    var v := if n < 0 then -n else n;
    IntDigits(v);
    ScanPrinted(v, rest, 62);
    ScanPrinted(v, rest, 63);
  }

  // ---- Values --------------------------------------------------------------------------------

  /** `x` begins with something that is not skipped and closes nothing. */
  predicate StartsValue(x: Str) {
    x.Ch? && x.c > SPACE && x.c != RBRACKET && x.c != RBRACE
  }

  lemma RenderStarts(t: Json, format: bool, d: nat, rest: Str)
    ensures StartsValue(RenderTo(t, format, d, rest))
  {
    if t.Number? {
      var v: nat := if t.n < 0 then -t.n else t.n;
      ScanPrinted(v, rest, DigitCount(v));
    }
  }

  lemma Keywords(x: Str)
    ensures Strip(x, NullTo(End)).Some? ==> x.Ch? && x.c == 110
    ensures Strip(x, FalseTo(End)).Some? ==> x.Ch? && x.c == 102
    ensures Strip(x, TrueTo(End)).Some? ==> x.Ch? && x.c == 116
  {
  }

  lemma KeywordsRead(rest: Str, depth: nat)
    ensures ParseKind(NullTo(rest), depth) == Ok(Null, rest)
    ensures ParseKind(FalseTo(rest), depth) == Ok(False, rest)
    ensures ParseKind(TrueTo(rest), depth) == Ok(True, rest)
  {
    Keywords(FalseTo(rest));
    Keywords(TrueTo(rest));
    assert Strip(NullTo(rest), NullTo(End)) == Some(rest);
    assert Strip(FalseTo(rest), FalseTo(End)) == Some(rest);
    assert Strip(TrueTo(rest), TrueTo(End)) == Some(rest);
  }

  lemma {:induction false} SkipTabs(n: nat, rest: Str)
    ensures Skip(TabsTo(n, rest)) == Skip(rest)
  {
    if n > 0 { SkipTabs(n - 1, rest); }
  }

  lemma SkipIndent(format: bool, d: nat, rest: Str)
    ensures Skip(IndentTo(format, d, rest)) == Skip(rest)
  {
    SkipTabs(d, rest);
  }

  lemma IndentIsNoNumeral(format: bool, d: nat, rest: Str)
    requires !StartsNumeral(rest)
    ensures !StartsNumeral(IndentTo(format, d, rest))
  {
  }

  lemma {:induction false} ReadValue(t: Json, format: bool, d: nat, depth: nat, rest: Str)
    requires Printable(t) && NestedWithin(t, NESTING_LIMIT - depth) && !StartsNumeral(rest)
    ensures ParseValue(RenderTo(t, format, d, rest), depth) == Ok(t, rest)
    decreases t, 1
  {
    var x := RenderTo(t, format, d, rest);
    assert ParseValue(x, depth) == ParseKind(x, depth);
    Keywords(x);
    match t
    case Null => KeywordsRead(rest, depth);
    case False => KeywordsRead(rest, depth);
    case True => KeywordsRead(rest, depth);
    case Number(n) => NumberRoundTrip(n, rest);
    case String(s) => StringRoundTrip(s, rest);
    case Array(items) => ReadArray(items, format, d + 1, depth, rest);
    case Object(members) =>
      SkipIndent(format, d, Ch(RBRACE, rest));
      IndentIsNoNumeral(format, d, Ch(RBRACE, rest));
      ReadObject(members, format, d + 1, depth, IndentTo(format, d, Ch(RBRACE, rest)), rest);
  }

  lemma ArrayOfItems(x: Str, depth: nat, items: Items, rest: Str)
    requires depth < NESTING_LIMIT && StartsValue(x) && ParseItems(x, depth + 1) == Ok(items, rest)
    ensures ParseArray(Ch(LBRACKET, x), depth) == Ok(Array(items), rest)
  {
    assert Skip(x) == x;
  }

  lemma {:induction false} ReadArray(items: Items, format: bool, d: nat, depth: nat, rest: Str)
    requires PrintableItems(items) && depth < NESTING_LIMIT && ItemsNestedWithin(items, NESTING_LIMIT - depth - 1)
    ensures ParseArray(Ch(LBRACKET, ItemsTo(items, format, d, Ch(RBRACKET, rest))), depth) == Ok(Array(items), rest)
    decreases items, 1
  {
    match items
    case NoItems =>
    case Item(_, _) =>
      ItemsStart(items, format, d, Ch(RBRACKET, rest));
      ReadItems(items, format, d, depth + 1, rest);
      ArrayOfItems(ItemsTo(items, format, d, Ch(RBRACKET, rest)), depth, items, rest);
  }

  lemma ItemsStart(items: Items, format: bool, d: nat, rest: Str)
    requires items.Item?
    ensures StartsValue(ItemsTo(items, format, d, rest))
  {
    RenderStarts(items.head, format, d, if items.tail.NoItems? then rest else ItemGapTo(format, ItemsTo(items.tail, format, d, rest)));
  }

  lemma {:induction false} ReadItems(items: Items, format: bool, d: nat, depth: nat, rest: Str)
    requires items.Item? && PrintableItems(items) && ItemsNestedWithin(items, NESTING_LIMIT - depth)
    ensures ParseItems(ItemsTo(items, format, d, Ch(RBRACKET, rest)), depth) == Ok(items, rest)
    decreases items, 0
  {
    var x := ItemsTo(items, format, d, Ch(RBRACKET, rest));
    ItemsStart(items, format, d, Ch(RBRACKET, rest));
    assert Skip(x) == x;
    if items.tail.NoItems? {
      ReadValue(items.head, format, d, depth, Ch(RBRACKET, rest));
    } else {
      var y := ItemsTo(items.tail, format, d, Ch(RBRACKET, rest));
      ReadValue(items.head, format, d, depth, ItemGapTo(format, y));
      ReadItems(items.tail, format, d, depth, rest);
      ItemsStart(items.tail, format, d, Ch(RBRACKET, rest));
      SkippedItems(ItemGapTo(format, y).rest, y, depth);
    }
  }

  lemma SkippedItems(x: Str, y: Str, depth: nat)
    requires Skip(x) == Skip(y)
    ensures ParseItems(x, depth) == ParseItems(y, depth)
  {
  }

  lemma SkippedMembers(x: Str, y: Str, depth: nat)
    requires Skip(x) == Skip(y)
    ensures ParseMembers(x, depth) == ParseMembers(y, depth)
  {
  }

  lemma ObjectOfMembers(x: Str, depth: nat, members: Members, rest: Str)
    requires depth < NESTING_LIMIT && Skip(x).Ch? && Skip(x).c == QUOTE && ParseMembers(x, depth + 1) == Ok(members, rest)
    ensures ParseObject(Ch(LBRACE, x), depth) == Ok(Object(members), rest)
  {
    SkipTwice(x);
    SkippedMembers(Skip(x), x, depth + 1);
  }

  lemma {:induction false} SkipTwice(x: Str)
    ensures Skip(Skip(x)) == Skip(x)
  {
    if x.Ch? && x.c <= SPACE { SkipTwice(x.rest); }
  }

  lemma EmptyObject(x: Str, depth: nat, rest: Str)
    requires depth < NESTING_LIMIT && Skip(x) == Ch(RBRACE, rest)
    ensures ParseObject(Ch(LBRACE, x), depth) == Ok(Object(NoMembers), rest)
  {
  }

  lemma SkipBreak(format: bool, x: Str)
    ensures Skip(BreakTo(format, x)) == Skip(x)
  {
  }

  lemma {:induction false} ReadObject(members: Members, format: bool, d: nat, depth: nat, close: Str, rest: Str)
    requires PrintableMembers(members) && depth < NESTING_LIMIT && MembersNestedWithin(members, NESTING_LIMIT - depth - 1)
    requires Skip(close) == Ch(RBRACE, rest) && !StartsNumeral(close)
    ensures ParseObject(Ch(LBRACE, BreakTo(format, MembersTo(members, format, d, close))), depth) == Ok(Object(members), rest)
    decreases members, 1
  {
    match members
    case NoMembers =>
      SkipBreak(format, close);
      EmptyObject(BreakTo(format, close), depth, rest);
    case Member(_, _, _) =>
      ReadMembers(members, format, d, depth + 1, close, rest);
      MembersStart(members, format, d, close);
      FullObject(MembersTo(members, format, d, close), format, depth, members, rest);
  }

  lemma FullObject(y: Str, format: bool, depth: nat, members: Members, rest: Str)
    requires depth < NESTING_LIMIT && Skip(y).Ch? && Skip(y).c == QUOTE && ParseMembers(y, depth + 1) == Ok(members, rest)
    ensures ParseObject(Ch(LBRACE, BreakTo(format, y)), depth) == Ok(Object(members), rest)
  {
    SkipBreak(format, y);
    SkippedMembers(BreakTo(format, y), y, depth + 1);
    ObjectOfMembers(BreakTo(format, y), depth, members, rest);
  }

  lemma MembersStart(members: Members, format: bool, d: nat, rest: Str)
    requires members.Member?
    ensures var x := Skip(MembersTo(members, format, d, rest)); StartsValue(x) && x.c == QUOTE && Skip(x) == x
  {
    var after := RenderTo(members.value, format, d, MemberGapTo(members.others.NoMembers?, format, MembersTo(members.others, format, d, rest)));
    SkipIndent(format, d, StringTo(members.key, Ch(COLON, if format then Ch(TAB, after) else after)));
  }

  /** Members, in front of `close`, which is blank up to the closing brace. */
  lemma {:induction false} ReadMembers(members: Members, format: bool, d: nat, depth: nat, close: Str, rest: Str)
    requires members.Member? && PrintableMembers(members) && MembersNestedWithin(members, NESTING_LIMIT - depth)
    requires Skip(close) == Ch(RBRACE, rest) && !StartsNumeral(close)
    ensures ParseMembers(MembersTo(members, format, d, close), depth) == Ok(members, rest)
    decreases members, 0
  {
    var more := MembersTo(members.others, format, d, close);
    var gap := MemberGapTo(members.others.NoMembers?, format, more);
    var value := RenderTo(members.value, format, d, gap);
    RenderStarts(members.value, format, d, gap);
    ReadKey(members.key, format, d, value);
    ReadValue(members.value, format, d, depth, gap);
    if members.others.Member? {
      ReadMembers(members.others, format, d, depth, close, rest);
      SkippedMembers(BreakTo(format, more), more, depth);
    }
  }

  /** Everything ParseMembers does before the value of a member. */
  lemma ReadKey(key: Str, format: bool, d: nat, value: Str)
    requires StartsValue(value)
    ensures ParseString(Skip(KeyTo(key, format, d, value))).Ok?
    ensures ParseString(Skip(KeyTo(key, format, d, value))).value == key
    ensures var z := Skip(ParseString(Skip(KeyTo(key, format, d, value))).rest);
            z.Ch? && z.c == COLON && Skip(z.rest) == value
  {
    var y := Ch(COLON, if format then Ch(TAB, value) else value);
    SkipIndent(format, d, StringTo(key, y));
    StringRoundTrip(key, y);
  }

  /** Every printable value of bounded nesting is read back from its text, formatted or not,
      with or without the check for trailing text. */
  lemma PrintParse(t: Json, format: bool, requireEnd: bool)
    requires Printable(t) && NestedWithin(t, NESTING_LIMIT)
    ensures Parse(RenderTo(t, format, 0, End), requireEnd) == Ok(t, End)
  {
    ReadValue(t, format, 0, 0, End);
    RenderStarts(t, format, 0, End);
    NoMark(t, format);
  }

  lemma NoMark(t: Json, format: bool)
    ensures var x := RenderTo(t, format, 0, End); x.Ch? && x.c != 0xEF
  {
    if t.Number? {
      var v: nat := if t.n < 0 then -t.n else t.n;
      ScanPrinted(v, End, DigitCount(v));
    }
  }
}
