/** The grammar of RFC 8259 as a relation between texts and values, and what the parser makes of every
    text. With `strict` it is the grammar of the RFC; without, the departures of the code are allowed. */
module JsonGrammar {
  import opened Basics
  import opened CString
  import opened Json
  import opened JsonText
  import opened JsonStrings
  import opened JsonRoundTrip

  // ---- White space, strings and numbers ---------------------------------------------------------------

  /** Section 2. The code takes every control character for white space. */
  predicate Blank(c: byte, strict: bool) {
    if strict then c == 0x20 || c == 0x09 || c == 0x0A || c == 0x0D else c <= 0x20
  }

  /** `y` lies behind some white space at the beginning of `x`. */
  predicate Blanks(x: Str, y: Str, strict: bool)
    decreases x
  {
    x == y || (x.Ch? && Blank(x.c, strict) && Blanks(x.rest, y, strict))
  }

  /** Section 7. The code also takes control characters, and \u escapes without hexadecimal digits. */
  ghost predicate StringIs(x: Str, s: Str, rest: Str, strict: bool) {
    Spelled(x, s, rest, strict) || (!strict && Misspelled(x, s, rest))
  }

  predicate Digits(d: Str) {
    d.Ch? ==> 48 <= d.c <= 57 && Digits(d.rest)
  }

  function Decimal(d: Str, high: nat): nat
    requires Digits(d)
  {
    if d.End? then high else Decimal(d.rest, 10 * high + (d.c - 48))
  }

  function Signed(minus: bool, n: nat): int {
    if minus then -(n as int) else n
  }

  function SignTo(minus: bool, rest: Str): Str {
    if minus then Ch(45, rest) else rest
  }

  /** The number does not go on. The code looks at 63 bytes only. */
  predicate NumberEnds(length: nat, rest: Str) {
    length <= 63 && (length < 63 && rest.Ch? ==> !(48 <= rest.c <= 57) && rest.c != 46 && rest.c != 101 && rest.c != 69)
  }

  predicate NumberSpelled(minus: bool, d: Str, x: Str, n: int, rest: Str, strict: bool) {
    && d.Ch? && Digits(d) && x == SignTo(minus, Append(d, rest)) && n == Signed(minus, Decimal(d, 0))
    && (strict && d.c == 48 ==> d.rest.End?) && NumberEnds(Length(SignTo(minus, d)), rest)
  }

  /** Section 6, for integers. The code also takes leading zeros. */
  ghost predicate NumberIs(x: Str, n: int, rest: Str, strict: bool) {
    INT_MIN <= n <= INT_MAX && exists minus, d :: NumberSpelled(minus, d, x, n, rest, strict)
  }

  // ---- Values: sections 3, 4 and 5 -----------------------------------------------------------------------

  /** `x` is a text of `t`, followed by `rest`. */
  ghost predicate ValueIs(x: Str, t: Json, rest: Str, strict: bool)
    decreases t, 0
  {
    match t
    case Null => x == Ch(110, Ch(117, Ch(108, Ch(108, rest)))) // null
    case False => x == Ch(102, Ch(97, Ch(108, Ch(115, Ch(101, rest))))) // false
    case True => x == Ch(116, Ch(114, Ch(117, Ch(101, rest)))) // true
    case Number(n) => NumberIs(x, n, rest, strict)
    case String(s) => StringIs(x, s, rest, strict)
    case Array(items) =>
      x.Ch? && x.c == 91 && if items.NoItems? then Blanks(x.rest, Ch(93, rest), strict) else ItemsAre(x.rest, items, rest, strict)
    case Object(members) =>
      x.Ch? && x.c == 123 && if members.NoMembers? then Blanks(x.rest, Ch(125, rest), strict) else MembersAre(x.rest, members, rest, strict)
  }

  /** Elements with commas between them, and the closing bracket. */
  ghost predicate ItemsAre(x: Str, items: Items, rest: Str, strict: bool)
    decreases items, 1
  {
    items.Item? && exists y, z, w ::
      && ValueBetween(x, y, z, w, items.head, strict)
      && if items.tail.NoItems? then w == Ch(93, rest) else w.Ch? && w.c == 44 && ItemsAre(w.rest, items.tail, rest, strict)
  }

  /** A value with white space on both sides. */
  ghost predicate ValueBetween(x: Str, y: Str, z: Str, w: Str, t: Json, strict: bool)
    decreases t, 1
  {
    Blanks(x, y, strict) && ValueIs(y, t, z, strict) && Blanks(z, w, strict)
  }

  /** A name with white space on both sides. */
  ghost predicate NameBetween(x: Str, y: Str, z: Str, w: Str, s: Str, strict: bool) {
    Blanks(x, y, strict) && StringIs(y, s, z, strict) && Blanks(z, w, strict)
  }

  /** Members with commas between them, and the closing brace. */
  ghost predicate MembersAre(x: Str, members: Members, rest: Str, strict: bool)
    decreases members, 1
  {
    members.Member? && exists a, b, colon, y, z, w ::
      && NameBetween(x, a, b, colon, members.key, strict) && colon.Ch? && colon.c == 58
      && ValueBetween(colon.rest, y, z, w, members.value, strict)
      && if members.others.NoMembers? then w == Ch(125, rest)
         else w.Ch? && w.c == 44 && MembersAre(w.rest, members.others, rest, strict)
  }

  // ---- White space --------------------------------------------------------------------------------------------

  lemma {:induction false} SkipIsBlanks(x: Str)
    ensures Blanks(x, Skip(x), false) && (Skip(x).Ch? ==> Skip(x).c > 0x20)
  {
    if x.Ch? && x.c <= SPACE { SkipIsBlanks(x.rest); }
  }

  lemma {:induction false} BlanksAreSkipped(x: Str, y: Str)
    requires Blanks(x, y, false) && (y.Ch? ==> y.c > 0x20)
    ensures Skip(x) == y
  {
    if x != y { BlanksAreSkipped(x.rest, y); }
  }

  // ---- Numbers --------------------------------------------------------------------------------------------------

  lemma {:induction false} ScanOver(d: Str, rest: Str, room: nat, value: nat, count: nat)
    requires Digits(d) && Length(d) <= room && (Length(d) < room && rest.Ch? ==> !(48 <= rest.c <= 57))
    ensures ScanDigits(Append(d, rest), room, value, count) == DigitScan(Decimal(d, value), count + Length(d), rest, room - Length(d))
  {
    if d.Ch? { ScanOver(d.rest, rest, room - 1, 10 * value + (d.c - 48), count + 1); }
  }

  lemma {:induction false} ScannedDigits(x: Str, room: nat, value: nat, count: nat) returns (d: Str)
    ensures var r := ScanDigits(x, room, value, count);
      && Digits(d) && x == Append(d, r.rest) && Length(d) <= room && r.room == room - Length(d) && r.count == count + Length(d)
      && r.value == Decimal(d, value) && (r.room > 0 && r.rest.Ch? ==> !(48 <= r.rest.c <= 57))
    decreases x
  {
    if room == 0 || x.End? || !IsDigit(x.c) {
      d := End;
    } else {
      var more := ScannedDigits(x.rest, room - 1, 10 * value + x.c - 48, count + 1);
      d := Ch(x.c, more);
    }
  }

  lemma NumberFound(x: Str, n: int, rest: Str)
    requires x.Ch? && ParseNumber(x) == Ok(n, rest)
    ensures NumberIs(x, n, rest, false)
  {
    var minus := x.c == MINUS;
    var d;
    if minus { d := ScannedDigits(x.rest, 62, 0, 0); } else { d := ScannedDigits(x, 63, 0, 0); }
    assert NumberSpelled(minus, d, x, n, rest, false);
  }

  lemma NumberRead(x: Str, n: int, rest: Str)
    requires NumberIs(x, n, rest, false)
    ensures x.Ch? && (x.c == MINUS || IsDigit(x.c)) && ParseNumber(x) == Ok(n, rest)
  {
    var minus, d :| NumberSpelled(minus, d, x, n, rest, false);
    if minus { ScanOver(d, rest, 62, 0, 0); } else { ScanOver(d, rest, 63, 0, 0); }
  }

  // ---- First bytes ------------------------------------------------------------------------------------------------

  /** Every value begins with a byte of its own. */
  lemma Begins(x: Str, t: Json, rest: Str, strict: bool)
    requires ValueIs(x, t, rest, strict)
    ensures x.Ch? && x.c > 0x20 && x.c != 93 && x.c != 125
    ensures match t
      case Null => x.c == 110
      case False => x.c == 102
      case True => x.c == 116
      case Number(_) => x.c == 45 || 48 <= x.c <= 57
      case String(_) => x.c == 34
      case Array(_) => x.c == 91
      case Object(_) => x.c == 123
  {
    if t.Number? {
      var minus, d :| NumberSpelled(minus, d, x, t.n, rest, strict);
    }
  }

  lemma WordIs(x: Str, rest: Str)
    ensures Strip(x, NullTo(End)) == Some(rest) <==> x == Ch(110, Ch(117, Ch(108, Ch(108, rest))))
    ensures Strip(x, FalseTo(End)) == Some(rest) <==> x == Ch(102, Ch(97, Ch(108, Ch(115, Ch(101, rest)))))
    ensures Strip(x, TrueTo(End)) == Some(rest) <==> x == Ch(116, Ch(114, Ch(117, Ch(101, rest))))
  {
  }

  // ---- Whatever is parsed is in the relation ------------------------------------------------------------------------

  /** Which rule has read a value. */
  lemma KindFound(x: Str, t: Json, rest: Str, depth: nat)
    requires ParseKind(x, depth) == Ok(t, rest)
    ensures t.Null? ==> Strip(x, NullTo(End)) == Some(rest)
    ensures t.False? ==> Strip(x, FalseTo(End)) == Some(rest)
    ensures t.True? ==> Strip(x, TrueTo(End)) == Some(rest)
    ensures t.Number? ==> x.Ch? && ParseNumber(x) == Ok(t.n, rest)
    ensures t.String? ==> ParseString(x) == Ok(t.s, rest)
    ensures t.Array? ==> x.Ch? && x.c == LBRACKET && ParseArray(x, depth) == Ok(t, rest)
    ensures t.Object? ==> x.Ch? && x.c == LBRACE && ParseObject(x, depth) == Ok(t, rest)
  {
  }

  lemma {:induction false} ValueFound(x: Str, t: Json, rest: Str, depth: nat)
    requires ParseValue(x, depth) == Ok(t, rest)
    ensures ValueIs(x, t, rest, false) && NestedWithin(t, NESTING_LIMIT - depth)
    decreases t, 2
  {
    KindFound(x, t, rest, depth);
    WordIs(x, rest);
    match t
    case Number(n) => NumberFound(x, n, rest);
    case String(s) => StringMeaning(x, s, rest);
    case Array(items) =>
      ArrayOpened(x, items, rest, depth);
      ArrayFound(x, items, rest, depth);
    case Object(members) =>
      ObjectOpened(x, members, rest, depth);
      ObjectFound(x, members, rest, depth);
    case _ =>
  }

  /** What parse_array has read. */
  lemma ArrayOpened(x: Str, items: Items, rest: Str, depth: nat)
    requires x.Ch? && x.c == LBRACKET && ParseArray(x, depth) == Ok(Array(items), rest)
    ensures depth < NESTING_LIMIT
    ensures items.NoItems? ==> Skip(x.rest) == Ch(93, rest)
    ensures items.Item? ==> ParseItems(x.rest, depth + 1) == Ok(items, rest)
  {
    SkipTwice(x.rest);
    SkippedItems(Skip(x.rest), x.rest, depth + 1);
  }

  lemma {:induction false} ArrayFound(x: Str, items: Items, rest: Str, depth: nat)
    requires x.Ch? && x.c == LBRACKET && depth < NESTING_LIMIT
    requires items.NoItems? ==> Skip(x.rest) == Ch(93, rest)
    requires items.Item? ==> ParseItems(x.rest, depth + 1) == Ok(items, rest)
    ensures ValueIs(x, Array(items), rest, false) && NestedWithin(Array(items), NESTING_LIMIT - depth)
    decreases items, 4
  {
    if items.NoItems? { SkipIsBlanks(x.rest); } else { ItemsFound(x.rest, items, rest, depth + 1); }
  }

  lemma {:induction false} ItemsFound(x: Str, items: Items, rest: Str, depth: nat)
    requires ParseItems(x, depth) == Ok(items, rest)
    ensures ItemsAre(x, items, rest, false) && ItemsNestedWithin(items, NESTING_LIMIT - depth)
    decreases items, 3
  {
    var y := Skip(x);
    var z := ParseValue(y, depth).rest;
    var w := Skip(z);
    SkipIsBlanks(x);
    SkipIsBlanks(z);
    ValueFound(y, items.head, z, depth);
    if items.tail.Item? { ItemsFound(w.rest, items.tail, rest, depth); }
    assert ValueBetween(x, y, z, w, items.head, false);
  }

  /** What parse_object has read. */
  lemma ObjectOpened(x: Str, members: Members, rest: Str, depth: nat)
    requires x.Ch? && x.c == LBRACE && ParseObject(x, depth) == Ok(Object(members), rest)
    ensures depth < NESTING_LIMIT
    ensures members.NoMembers? ==> Skip(x.rest) == Ch(125, rest)
    ensures members.Member? ==> ParseMembers(x.rest, depth + 1) == Ok(members, rest)
  {
    SkipTwice(x.rest);
    SkippedMembers(Skip(x.rest), x.rest, depth + 1);
  }

  lemma ObjectIs(x: Str, members: Members, rest: Str, limit: int)
    requires x.Ch? && x.c == 123 && limit > 0
    requires members.NoMembers? ==> Blanks(x.rest, Ch(125, rest), false)
    requires members.Member? ==> MembersAre(x.rest, members, rest, false) && MembersNestedWithin(members, limit - 1)
    ensures ValueIs(x, Object(members), rest, false) && NestedWithin(Object(members), limit)
  {
  }

  lemma {:induction false} ObjectFound(x: Str, members: Members, rest: Str, depth: nat)
    requires x.Ch? && x.c == LBRACE && depth < NESTING_LIMIT
    requires members.NoMembers? ==> Skip(x.rest) == Ch(125, rest)
    requires members.Member? ==> ParseMembers(x.rest, depth + 1) == Ok(members, rest)
    ensures ValueIs(x, Object(members), rest, false) && NestedWithin(Object(members), NESTING_LIMIT - depth)
    decreases members, 4
  {
    if members.NoMembers? { SkipIsBlanks(x.rest); } else { MembersFound(x.rest, members, rest, depth + 1); }
    ObjectIs(x, members, rest, NESTING_LIMIT - depth);
  }

  /** Where the parts of a member lie. */
  datatype Parts = Parts(a: Str, b: Str, colon: Str, y: Str, z: Str, w: Str)

  predicate PartsOf(p: Parts, members: Members, rest: Str, depth: nat) {
    && members.Member?
    && ParseString(p.a) == Ok(members.key, p.b) && Skip(p.b) == p.colon && p.colon.Ch? && p.colon.c == 58
    && Skip(p.colon.rest) == p.y && ParseValue(p.y, depth) == Ok(members.value, p.z) && Skip(p.z) == p.w
    && if members.others.NoMembers? then p.w == Ch(125, rest)
       else p.w.Ch? && p.w.c == 44 && ParseMembers(p.w.rest, depth) == Ok(members.others, rest)
  }

  /** What parse_object does with each member. */
  lemma MembersSplit(x: Str, members: Members, rest: Str, depth: nat) returns (p: Parts)
    requires ParseMembers(x, depth) == Ok(members, rest)
    ensures p.a == Skip(x) && PartsOf(p, members, rest, depth)
  {
    var a := Skip(x);
    var b := ParseString(a).rest;
    var colon := Skip(b);
    var y := Skip(colon.rest);
    var z := ParseValue(y, depth).rest;
    p := Parts(a, b, colon, y, z, Skip(z));
  }

  lemma MembersMade(x: Str, p: Parts, members: Members, rest: Str, depth: nat)
    requires p.a == Skip(x) && PartsOf(p, members, rest, depth)
    ensures ParseMembers(x, depth) == Ok(members, rest)
  {
  }

  ghost predicate MemberSpelled(x: Str, p: Parts, members: Members, strict: bool)
    requires members.Member?
  {
    && NameBetween(x, p.a, p.b, p.colon, members.key, strict) && p.colon.Ch? && p.colon.c == 58
    && ValueBetween(p.colon.rest, p.y, p.z, p.w, members.value, strict)
  }

  ghost predicate MembersGoOn(p: Parts, members: Members, rest: Str, strict: bool)
    requires members.Member?
  {
    if members.others.NoMembers? then p.w == Ch(125, rest) else p.w.Ch? && p.w.c == 44 && MembersAre(p.w.rest, members.others, rest, strict)
  }

  lemma MembersParts(x: Str, members: Members, rest: Str, strict: bool) returns (p: Parts)
    requires MembersAre(x, members, rest, strict)
    ensures MemberSpelled(x, p, members, strict) && MembersGoOn(p, members, rest, strict)
  {
    var a, b, colon, y, z, w :|
      && NameBetween(x, a, b, colon, members.key, strict) && colon.Ch? && colon.c == 58
      && ValueBetween(colon.rest, y, z, w, members.value, strict)
      && if members.others.NoMembers? then w == Ch(125, rest)
         else w.Ch? && w.c == 44 && MembersAre(w.rest, members.others, rest, strict);
    p := Parts(a, b, colon, y, z, w);
  }

  lemma MembersJoin(x: Str, p: Parts, members: Members, rest: Str, strict: bool)
    requires members.Member? && MemberSpelled(x, p, members, strict) && MembersGoOn(p, members, rest, strict)
    ensures MembersAre(x, members, rest, strict)
  {
  }

  lemma {:induction false} MembersFound(x: Str, members: Members, rest: Str, depth: nat)
    requires ParseMembers(x, depth) == Ok(members, rest)
    ensures MembersAre(x, members, rest, false) && MembersNestedWithin(members, NESTING_LIMIT - depth)
    decreases members, 3
  {
    var p := MembersSplit(x, members, rest, depth);
    SkipIsBlanks(x);
    SkipIsBlanks(p.b);
    SkipIsBlanks(p.colon.rest);
    SkipIsBlanks(p.z);
    StringMeaning(p.a, members.key, p.b);
    ValueFound(p.y, members.value, p.z, depth);
    if members.others.Member? { MembersFound(p.w.rest, members.others, rest, depth); }
    MembersJoin(x, p, members, rest, false);
  }

  // ---- Whatever is in the relation is parsed ---------------------------------------------------------------------------

  lemma {:induction false} ValueParsed(x: Str, t: Json, rest: Str, depth: nat)
    requires ValueIs(x, t, rest, false) && NestedWithin(t, NESTING_LIMIT - depth)
    ensures ParseValue(x, depth) == Ok(t, rest)
    decreases t, 2
  {
    Begins(x, t, rest, false);
    Keywords(x);
    WordIs(x, rest);
    match t
    case Number(n) => NumberRead(x, n, rest);
    case String(s) => StringMeaning(x, s, rest);
    case Array(items) => ArrayParsed(x, items, rest, depth);
    case Object(members) => ObjectParsed(x, members, rest, depth);
    case _ =>
    assert ParseKind(x, depth) == Ok(t, rest);
  }

  lemma {:induction false} ArrayParsed(x: Str, items: Items, rest: Str, depth: nat)
    requires ValueIs(x, Array(items), rest, false) && NestedWithin(Array(items), NESTING_LIMIT - depth)
    ensures ParseArray(x, depth) == Ok(Array(items), rest)
    decreases items, 4
  {
    if items.NoItems? {
      BlanksAreSkipped(x.rest, Ch(93, rest));
    } else {
      ItemsParsed(x.rest, items, rest, depth + 1);
      ItemsBegin(x.rest, items, rest);
      SkipTwice(x.rest);
      SkippedItems(Skip(x.rest), x.rest, depth + 1);
    }
  }

  lemma ItemsBegin(x: Str, items: Items, rest: Str)
    requires ItemsAre(x, items, rest, false)
    ensures Skip(x).Ch? && Skip(x).c != 93
  {
    var y, z, w :|
      && ValueBetween(x, y, z, w, items.head, false)
      && if items.tail.NoItems? then w == Ch(93, rest) else w.Ch? && w.c == 44 && ItemsAre(w.rest, items.tail, rest, false);
    Begins(y, items.head, z, false);
    BlanksAreSkipped(x, y);
  }

  lemma {:induction false} ItemsParsed(x: Str, items: Items, rest: Str, depth: nat)
    requires ItemsAre(x, items, rest, false) && ItemsNestedWithin(items, NESTING_LIMIT - depth)
    ensures ParseItems(x, depth) == Ok(items, rest)
    decreases items, 3
  {
    var y, z, w :|
      && ValueBetween(x, y, z, w, items.head, false)
      && if items.tail.NoItems? then w == Ch(93, rest) else w.Ch? && w.c == 44 && ItemsAre(w.rest, items.tail, rest, false);
    Begins(y, items.head, z, false);
    BlanksAreSkipped(x, y);
    BlanksAreSkipped(z, w);
    ValueParsed(y, items.head, z, depth);
    if items.tail.Item? { ItemsParsed(w.rest, items.tail, rest, depth); }
  }

  lemma {:induction false} ObjectParsed(x: Str, members: Members, rest: Str, depth: nat)
    requires ValueIs(x, Object(members), rest, false) && NestedWithin(Object(members), NESTING_LIMIT - depth)
    ensures ParseObject(x, depth) == Ok(Object(members), rest)
    decreases members, 4
  {
    if members.NoMembers? {
      BlanksAreSkipped(x.rest, Ch(125, rest));
      EmptyObject(x.rest, depth, rest);
    } else {
      MembersParsed(x.rest, members, rest, depth + 1);
      MembersBegin(x.rest, members, rest);
      ObjectOfMembers(x.rest, depth, members, rest);
    }
  }

  lemma MembersBegin(x: Str, members: Members, rest: Str)
    requires MembersAre(x, members, rest, false)
    ensures Skip(x).Ch? && Skip(x).c == 34
  {
    var p := MembersParts(x, members, rest, false);
    BlanksAreSkipped(x, p.a);
  }

  lemma {:induction false} MembersParsed(x: Str, members: Members, rest: Str, depth: nat)
    requires MembersAre(x, members, rest, false) && MembersNestedWithin(members, NESTING_LIMIT - depth)
    ensures ParseMembers(x, depth) == Ok(members, rest)
    decreases members, 3
  {
    var p := MembersParts(x, members, rest, false);
    Begins(p.y, members.value, p.z, false);
    BlanksAreSkipped(x, p.a);
    BlanksAreSkipped(p.b, p.colon);
    BlanksAreSkipped(p.colon.rest, p.y);
    BlanksAreSkipped(p.z, p.w);
    StringMeaning(p.a, members.key, p.b);
    ValueParsed(p.y, members.value, p.z, depth);
    if members.others.Member? { MembersParsed(p.w.rest, members.others, rest, depth); }
    MembersMade(x, p, members, rest, depth);
  }

  // ---- Whole texts -----------------------------------------------------------------------------------------------------

  /** The parser reads a value exactly where one is written, as far as it is not nested too deeply. */
  lemma ValueMeaning(x: Str, t: Json, rest: Str, depth: nat)
    ensures ParseValue(x, depth) == Ok(t, rest) <==> ValueIs(x, t, rest, false) && NestedWithin(t, NESTING_LIMIT - depth)
  {
    if ParseValue(x, depth) == Ok(t, rest) { ValueFound(x, t, rest, depth); }
    if ValueIs(x, t, rest, false) && NestedWithin(t, NESTING_LIMIT - depth) { ValueParsed(x, t, rest, depth); }
  }

  /** What lies behind a byte order mark that is not alone. */
  function Unmarked(x: Str): Str {
    if x.Ch? && x.c == 0xEF && x.rest.Ch? && x.rest.c == 0xBB && x.rest.rest.Ch? && x.rest.rest.c == 0xBF && x.rest.rest.rest.Ch?
    then x.rest.rest.rest else x
  }

  /** Section 2: a value with white space around it. The code also takes a byte order mark, and any text
      behind the value, unless it is told to refuse that. */
  ghost predicate TextIs(x: Str, t: Json, rest: Str, requireEnd: bool) {
    exists y, z :: Blanks(Unmarked(x), y, false) && ValueIs(y, t, z, false)
      && if requireEnd then Blanks(z, End, false) && rest == End else rest == z
  }

  /** Section 2 of the RFC itself. */
  ghost predicate IsJson(x: Str, t: Json) {
    exists y, z :: Blanks(x, y, true) && ValueIs(y, t, z, true) && Blanks(z, End, true)
  }

  /** What the public parser has read. */
  lemma ParseOpened(x: Str, t: Json, rest: Str, requireEnd: bool) returns (z: Str)
    requires Parse(x, requireEnd) == Ok(t, rest)
    ensures ParseValue(Skip(Unmarked(x)), 0) == Ok(t, z) && if requireEnd then Skip(z) == End && rest == End else rest == z
  {
    z := ParseValue(Skip(Unmarked(x)), 0).rest;
  }

  lemma ParseMade(x: Str, t: Json, z: Str, requireEnd: bool)
    requires ParseValue(Skip(Unmarked(x)), 0) == Ok(t, z) && (requireEnd ==> Skip(z) == End)
    ensures Parse(x, requireEnd) == Ok(t, if requireEnd then End else z)
  {
  }

  lemma TextFound(x: Str, t: Json, rest: Str, requireEnd: bool)
    requires Parse(x, requireEnd) == Ok(t, rest)
    ensures TextIs(x, t, rest, requireEnd) && NestedWithin(t, NESTING_LIMIT)
  {
    var z := ParseOpened(x, t, rest, requireEnd);
    SkipIsBlanks(Unmarked(x));
    SkipIsBlanks(z);
    ValueFound(Skip(Unmarked(x)), t, z, 0);
  }

  lemma TextParsed(x: Str, t: Json, rest: Str, requireEnd: bool)
    requires TextIs(x, t, rest, requireEnd) && NestedWithin(t, NESTING_LIMIT)
    ensures Parse(x, requireEnd) == Ok(t, rest)
  {
    var y, z :| Blanks(Unmarked(x), y, false) && ValueIs(y, t, z, false)
      && if requireEnd then Blanks(z, End, false) && rest == End else rest == z;
    Begins(y, t, z, false);
    BlanksAreSkipped(Unmarked(x), y);
    ValueParsed(y, t, z, 0);
    if requireEnd { BlanksAreSkipped(z, End); }
    ParseMade(x, t, z, requireEnd);
  }

  /** The public parser accepts exactly these texts, with these values. */
  lemma ParseMeaning(x: Str, t: Json, rest: Str, requireEnd: bool)
    ensures Parse(x, requireEnd) == Ok(t, rest) <==> TextIs(x, t, rest, requireEnd) && NestedWithin(t, 1000)
  {
    if Parse(x, requireEnd) == Ok(t, rest) { TextFound(x, t, rest, requireEnd); }
    if TextIs(x, t, rest, requireEnd) && NestedWithin(t, NESTING_LIMIT) { TextParsed(x, t, rest, requireEnd); }
  }

  // ---- Every JSON text -----------------------------------------------------------------------------------------------

  lemma {:induction false} BlanksStrict(x: Str, y: Str)
    requires Blanks(x, y, true)
    ensures Blanks(x, y, false)
  {
    if x != y { BlanksStrict(x.rest, y); }
  }

  lemma StringStrict(x: Str, s: Str, rest: Str)
    requires StringIs(x, s, rest, true)
    ensures StringIs(x, s, rest, false)
  {
    var chars :| AllGood(chars, true) && AllGood(chars, false) && x == Ch(34, CharsTo(chars, Ch(34, rest))) && IsCString(s, BytesOf(chars));
  }

  lemma NumberStrict(x: Str, n: int, rest: Str)
    requires NumberIs(x, n, rest, true)
    ensures NumberIs(x, n, rest, false)
  {
    var minus, d :| NumberSpelled(minus, d, x, n, rest, true);
    assert NumberSpelled(minus, d, x, n, rest, false);
  }

  /** What the grammar allows the code allows, too. */
  lemma {:induction false} ValueStrict(x: Str, t: Json, rest: Str)
    requires ValueIs(x, t, rest, true)
    ensures ValueIs(x, t, rest, false)
    decreases t, 0
  {
    match t
    case Number(n) => NumberStrict(x, n, rest);
    case String(s) => StringStrict(x, s, rest);
    case Array(items) =>
      if items.NoItems? { BlanksStrict(x.rest, Ch(93, rest)); } else { ItemsStrict(x.rest, items, rest); }
    case Object(members) =>
      if members.NoMembers? { BlanksStrict(x.rest, Ch(125, rest)); } else { MembersStrict(x.rest, members, rest); }
    case _ =>
  }

  lemma {:induction false} BetweenStrict(x: Str, y: Str, z: Str, w: Str, t: Json)
    requires ValueBetween(x, y, z, w, t, true)
    ensures ValueBetween(x, y, z, w, t, false)
    decreases t, 1
  {
    BlanksStrict(x, y);
    BlanksStrict(z, w);
    ValueStrict(y, t, z);
  }

  lemma {:induction false} ItemsStrict(x: Str, items: Items, rest: Str)
    requires ItemsAre(x, items, rest, true)
    ensures ItemsAre(x, items, rest, false)
    decreases items, 1
  {
    var y, z, w :|
      && ValueBetween(x, y, z, w, items.head, true)
      && if items.tail.NoItems? then w == Ch(93, rest) else w.Ch? && w.c == 44 && ItemsAre(w.rest, items.tail, rest, true);
    BetweenStrict(x, y, z, w, items.head);
    if items.tail.Item? { ItemsStrict(w.rest, items.tail, rest); }
  }

  lemma {:induction false} MembersStrict(x: Str, members: Members, rest: Str)
    requires MembersAre(x, members, rest, true)
    ensures MembersAre(x, members, rest, false)
    decreases members, 1
  {
    var p := MembersParts(x, members, rest, true);
    BlanksStrict(x, p.a);
    StringStrict(p.a, members.key, p.b);
    BlanksStrict(p.b, p.colon);
    BetweenStrict(p.colon.rest, p.y, p.z, p.w, members.value);
    if members.others.Member? { MembersStrict(p.w.rest, members.others, rest); }
    MembersJoin(x, p, members, rest, false);
  }

  lemma {:induction false} BlanksFirst(x: Str, y: Str)
    requires Blanks(x, y, true) && y.Ch? && y.c != 0xEF
    ensures x.Ch? && x.c != 0xEF
  {
  }

  /** Every text by RFC 8259, of integers of 32 bits and nested at most 1000 deep, is parsed as what it says. */
  lemma JsonIsParsed(x: Str, t: Json)
    requires IsJson(x, t) && NestedWithin(t, 1000)
    ensures Parse(x, true) == Ok(t, End)
  {
    var y, z :| Blanks(x, y, true) && ValueIs(y, t, z, true) && Blanks(z, End, true);
    Begins(y, t, z, true);
    BlanksFirst(x, y);
    BlanksStrict(x, y);
    ValueStrict(y, t, z);
    BlanksStrict(z, End);
    ParseMeaning(x, t, End, true);
  }

  // ---- Departures, by example ------------------------------------------------------------------------------------------

  /** A control character is taken for white space: 1 behind the byte 1. */
  lemma ControlIsBlank()
    ensures Parse(Ch(1, Ch(49, End)), true) == Ok(Number(1), End) && !Blanks(Ch(1, Ch(49, End)), Ch(49, End), true)
  {
    var one := Ch(49, End);
    assert Append(one, End) == Ch(49, Append(End, End)) && Decimal(one, 0) == Decimal(End, 1);
    assert Length(one) == 1 + Length(End) && Digits(End);
    assert NumberSpelled(false, one, one, 1, End, false);
    assert Blanks(Ch(1, one), one, false) by { assert Blanks(one, one, false); }
    assert ValueIs(one, Number(1), End, false) && Blanks(End, End, false);
    ParseMeaning(Ch(1, one), Number(1), End, true);
  }

  /** Leading zeros are accepted: 01 is 1. */
  lemma LeadingZero()
    ensures Parse(Ch(48, Ch(49, End)), true) == Ok(Number(1), End) && !NumberIs(Ch(48, Ch(49, End)), 1, End, true)
  {
    var d := Ch(48, Ch(49, End));
    assert Append(End, End) == End && Append(Ch(49, End), End) == Ch(49, End) && Append(d, End) == d;
    assert Decimal(End, 1) == 1 && Decimal(Ch(49, End), 0) == Decimal(End, 1) && Decimal(d, 0) == Decimal(Ch(49, End), 0);
    assert Length(Ch(49, End)) == 1 && Length(d) == 2 && Digits(End) && Digits(Ch(49, End)) && Digits(d);
    assert NumberSpelled(false, d, d, 1, End, false);
    assert Blanks(d, d, false) && ValueIs(d, Number(1), End, false) && Blanks(End, End, false);
    ParseMeaning(d, Number(1), End, true);
    if NumberIs(d, 1, End, true) {
      var minus, e :| NumberSpelled(minus, e, d, 1, End, true);
      AppendEnd(e);
    }
  }

  lemma {:induction false} AppendEnd(s: Str)
    ensures Append(s, End) == s
  {
    if s.Ch? { AppendEnd(s.rest); }
  }

  /** Without the check for it, text behind the value is ignored: 1x is 1. */
  lemma TrailingText()
    ensures Parse(Ch(49, Ch(120, End)), false) == Ok(Number(1), Ch(120, End)) && Parse(Ch(49, Ch(120, End)), true) == Fail
  {
    var rest := Ch(120, End);
    var x := Ch(49, rest);
    assert Append(Ch(49, End), rest) == Ch(49, Append(End, rest)) && Decimal(Ch(49, End), 0) == Decimal(End, 1);
    assert Length(Ch(49, End)) == 1 + Length(End) && Digits(End);
    assert NumberSpelled(false, Ch(49, End), x, 1, rest, false);
    assert Blanks(x, x, false) && ValueIs(x, Number(1), rest, false);
    ValueMeaning(x, Number(1), rest, 0);
    assert Skip(x) == x && Skip(rest) == rest;
    MarkIs(x);
  }

  lemma MarkIs(x: Str)
    ensures var y := Strip(x, Ch(0xEF, Ch(0xBB, Ch(0xBF, End))));
      (if y.Some? && y.value.Ch? then y.value else x) == Unmarked(x)
  {
  }
}
