/** What print_value writes is a JSON text by RFC 8259, and how it is laid out. */
module JsonPrinted {
  import opened Basics
  import opened CString
  import opened Json
  import opened JsonText
  import opened JsonStrings
  import opened JsonRoundTrip
  import opened JsonGrammar

  // ---- Strings ------------------------------------------------------------------------------------------

  /** The letter that is written for a byte, if there is one: all of section 7 but the slash. */
  lemma LettersWritten(c: byte, l: byte)
    ensures ShortEscape(c) != 0 ==> (ShortEscape(c), c as int) in LETTERS && c != 47 && 1 <= ShortEscape(c) < 256
    ensures ShortEscape(c) == 0 && (l as int, c as int) in LETTERS ==> c == 47
  {
  }

  /** How a byte is written: itself, a letter of section 7, or a \u escape with lower-case digits. */
  function WrittenChar(c: byte): Char {
    if ShortEscape(c) != 0 then Letter(ShortEscape(c), c)
    else if c < 32 then Unit(Hex4(48, 48, HexDigit(c / 16), HexDigit(c % 16)))
    else Plain(c)
  }

  lemma WrittenIs(c: byte, rest: Str)
    ensures Good(WrittenChar(c), true) && Good(WrittenChar(c), false)
    ensures CharTo(WrittenChar(c), rest) == EscapeByteTo(c, rest) && CharBytes(WrittenChar(c)) == [c]
  {
    LettersWritten(c, 1);
    if ShortEscape(c) == 0 && c < 32 {
      var h := Hex4(48, 48, HexDigit(c / 16), HexDigit(c % 16));
      assert Nibble(h.c) == c / 16 && Nibble(h.d) == c % 16 && UnitValue(h) == c;
    }
  }

  function Written(s: Str): Chars {
    if s.End? then Nothing else Then(WrittenChar(s.c), Written(s.rest))
  }

  lemma {:induction false} WrittenString(s: Str, rest: Str)
    ensures AllGood(Written(s), true) && AllGood(Written(s), false)
    ensures CharsTo(Written(s), rest) == EscapeTo(s, rest) && BytesOf(Written(s)) == Raw(s)
  {
    if s.Ch? {
      WrittenString(s.rest, rest);
      WrittenIs(s.c, CharsTo(Written(s.rest), rest));
    }
  }

  lemma StringIsSpelled(s: Str, rest: Str)
    ensures StringIs(StringTo(s, rest), s, rest, true)
  {
    WrittenString(s, Ch(34, rest));
    var bytes := BytesOf(Written(s));
    assert bytes[..|Raw(s)|] == Raw(s);
  }

  // ---- Numbers ------------------------------------------------------------------------------------------------

  /** The digits that are written. */
  function WrittenDigits(n: nat): Str {
    DigitsTo(n, End)
  }

  lemma {:induction false} DigitsBefore(n: nat, more: Str, rest: Str)
    ensures DigitsTo(n, Append(more, rest)) == Append(DigitsTo(n, more), rest)
  {
    if n >= 10 {
      DigitsBefore(n / 10, Ch(48 + n % 10, more), rest);
      assert Append(Ch(48 + n % 10, more), rest) == Ch(48 + n % 10, Append(more, rest));
    }
  }

  lemma {:induction false} DigitsSay(n: nat, more: Str)
    requires Digits(more)
    ensures var d := DigitsTo(n, more);
      && Digits(d) && d.Ch? && Decimal(d, 0) == Decimal(more, n) && Length(d) == DigitCount(n) + Length(more)
      && (n > 0 ==> d.c != 48) && (n == 0 ==> d == Ch(48, more))
  {
    if n >= 10 {
      var last := Ch(48 + n % 10, more);
      DigitsSay(n / 10, last);
      assert Decimal(last, n / 10) == Decimal(more, 10 * (n / 10) + n % 10);
    } else {
      assert Decimal(Ch(48 + n, more), 0) == Decimal(more, n);
    }
  }

  /** The digits stand for ones, tens and hundreds. */
  lemma DecimalExample()
    ensures NumberTo(-120, End) == Ch(45, Ch(49, Ch(50, Ch(48, End))))
  {
    assert DigitsTo(12, Ch(48, End)) == DigitsTo(1, Ch(50, Ch(48, End)));
    assert DigitsTo(120, End) == DigitsTo(12, Ch(48, End));
  }

  lemma NumberIsSpelled(n: int, rest: Str)
    requires INT_MIN <= n <= INT_MAX && !StartsNumeral(rest)
    ensures NumberIs(NumberTo(n, rest), n, rest, true)
  {
    var v := if n < 0 then -n else n;
    var d := DigitsTo(v, End);
    DigitsBefore(v, End, rest);
    DigitsSay(v, End);
    IntDigits(v);
    assert Append(End, rest) == rest && Decimal(End, v) == v;
    assert NumberSpelled(n < 0, d, NumberTo(n, rest), n, rest, true);
  }

  // ---- Values ----------------------------------------------------------------------------------------------------

  lemma {:induction false} TabsAreBlanks(n: nat, rest: Str)
    ensures Blanks(TabsTo(n, rest), rest, true)
  {
    if n > 0 { TabsAreBlanks(n - 1, rest); }
  }

  lemma OneBlank(c: byte, rest: Str)
    requires c == 9 || c == 10 || c == 32
    ensures Blanks(Ch(c, rest), rest, true)
  {
    assert Blanks(rest, rest, true);
  }

  lemma IndentBlanks(format: bool, d: nat, rest: Str)
    ensures Blanks(IndentTo(format, d, rest), rest, true) && Blanks(BreakTo(format, IndentTo(format, d, rest)), rest, true)
  {
    TabsAreBlanks(d, rest);
  }

  lemma {:induction false} StrictJoin(x: Str, y: Str, z: Str)
    requires Blanks(x, y, true) && Blanks(y, z, true)
    ensures Blanks(x, z, true)
  {
    if x != y { StrictJoin(x.rest, y, z); }
  }

  /** Every printed value is a JSON text, formatted or not. */
  lemma {:induction false} RenderIs(t: Json, format: bool, d: nat, rest: Str)
    requires Printable(t) && !StartsNumeral(rest)
    ensures ValueIs(RenderTo(t, format, d, rest), t, rest, true)
    decreases t, 2
  {
    match t
    case Number(n) => NumberIsSpelled(n, rest);
    case String(s) => StringIsSpelled(s, rest);
    case Array(items) =>
      if items.Item? { ItemsRender(items, format, d + 1, rest); }
    case Object(members) =>
      ObjectRender(members, format, d, rest);
    case _ =>
  }

  lemma {:induction false} ObjectRender(members: Members, format: bool, d: nat, rest: Str)
    requires PrintableMembers(members)
    ensures ValueIs(RenderTo(Object(members), format, d, rest), Object(members), rest, true)
    decreases members, 2
  {
    var brace := Ch(125, rest);
    var close := IndentTo(format, d, brace);
    IndentBlanks(format, d, brace);
    if members.Member? {
      assert !StartsNumeral(close);
      var inner := MembersTo(members, format, d + 1, close);
      MembersRender(members, format, d + 1, close, rest);
      BreakBefore(format, inner, members, rest);
      assert RenderTo(Object(members), format, d, rest) == Ch(123, BreakTo(format, inner));
    }
  }

  lemma BreakBefore(format: bool, x: Str, members: Members, rest: Str)
    requires MembersAre(x, members, rest, true)
    ensures MembersAre(BreakTo(format, x), members, rest, true)
  {
    var p := MembersParts(x, members, rest, true);
    OneBlank(10, x);
    if format { StrictJoin(Ch(10, x), x, p.a); }
    MembersJoin(BreakTo(format, x), p, members, rest, true);
  }

  lemma {:induction false} ItemsRender(items: Items, format: bool, d: nat, rest: Str)
    requires items.Item? && PrintableItems(items)
    ensures ItemsAre(ItemsTo(items, format, d, Ch(93, rest)), items, rest, true)
    decreases items, 1
  {
    var x := ItemsTo(items, format, d, Ch(93, rest));
    if items.tail.NoItems? {
      RenderIs(items.head, format, d, Ch(93, rest));
      assert ValueBetween(x, x, Ch(93, rest), Ch(93, rest), items.head, true);
    } else {
      var y := ItemsTo(items.tail, format, d, Ch(93, rest));
      var gap := ItemGapTo(format, y);
      RenderIs(items.head, format, d, gap);
      ItemsRender(items.tail, format, d, rest);
      GapBefore(format, y, items.tail, rest);
      assert ValueBetween(x, x, gap, gap, items.head, true);
    }
  }

  lemma GapBefore(format: bool, y: Str, items: Items, rest: Str)
    requires ItemsAre(y, items, rest, true)
    ensures ItemsAre(ItemGapTo(format, y).rest, items, rest, true)
  {
    var a, z, w :|
      && ValueBetween(y, a, z, w, items.head, true)
      && if items.tail.NoItems? then w == Ch(93, rest) else w.Ch? && w.c == 44 && ItemsAre(w.rest, items.tail, rest, true);
    var x := ItemGapTo(format, y).rest;
    OneBlank(32, y);
    if format { StrictJoin(x, y, a); }
    assert ValueBetween(x, a, z, w, items.head, true);
  }

  /** Members, in front of `close`, which is white space up to the closing brace. */
  lemma {:induction false} MembersRender(members: Members, format: bool, d: nat, close: Str, rest: Str)
    requires members.Member? && PrintableMembers(members) && !StartsNumeral(close)
    requires Blanks(close, Ch(125, rest), true)
    ensures MembersAre(MembersTo(members, format, d, close), members, rest, true)
    decreases members, 1
  {
    var more := MembersTo(members.others, format, d, close);
    var gap := MemberGapTo(members.others.NoMembers?, format, more);
    var value := RenderTo(members.value, format, d, gap);
    var colon := Ch(58, if format then Ch(9, value) else value);
    var name := StringTo(members.key, colon);
    RenderIs(members.value, format, d, gap);
    StringIsSpelled(members.key, colon);
    IndentBlanks(format, d, name);
    OneBlank(9, value);
    assert Blanks(value, value, true) && Blanks(colon, colon, true) && Blanks(gap, gap, true);
    var w := if members.others.NoMembers? then Ch(125, rest) else gap;
    if members.others.NoMembers? {
      OneBlank(10, close);
      if format { StrictJoin(gap, close, Ch(125, rest)); }
    } else {
      MembersRender(members.others, format, d, close, rest);
      BreakBefore(format, more, members.others, rest);
    }
    MembersJoin(MembersTo(members, format, d, close), Parts(name, colon, colon, value, gap, w), members, rest, true);
  }

  /** The whole printed text, without a nesting limit. */
  lemma PrintedIsJson(t: Json, format: bool)
    requires Printable(t)
    ensures IsJson(RenderTo(t, format, 0, End), t)
  {
    RenderIs(t, format, 0, End);
    var x := RenderTo(t, format, 0, End);
    assert Blanks(x, x, true) && Blanks(End, End, true);
  }

  // ---- Layout, by example --------------------------------------------------------------------------------------

  /** {"a":[1,true],"b":{}} */
  function Example(): Json {
    Object(Member(Ch(97, End), Array(Item(Number(1), Item(True, NoItems))), Member(Ch(98, End), Object(NoMembers), NoMembers)))
  }

  /** A name of one letter and the colon. */
  function Name(c: byte, rest: Str): Str {
    Ch(34, Ch(c, Ch(34, Ch(58, rest))))
  }

  function TrueWord(rest: Str): Str {
    Ch(116, Ch(114, Ch(117, Ch(101, rest))))
  }

  /** As it is printed without white space, and with it: a line and as many tabs as the depth for each
      member, a tab behind the colon, a space behind the comma of an array. */
  lemma Layout()
    ensures RenderTo(Example(), false, 0, End) ==
      Ch(123, Name(97, Ch(91, Ch(49, Ch(44, TrueWord(Ch(93, Ch(44, Name(98, Ch(123, Ch(125, Ch(125, End))))))))))))
    ensures RenderTo(Example(), true, 0, End) ==
      Ch(123, Ch(10,
        Ch(9, Name(97, Ch(9, Ch(91, Ch(49, Ch(44, Ch(32, TrueWord(Ch(93, Ch(44, Ch(10,
        Ch(9, Name(98, Ch(9, Ch(123, Ch(10,
        Ch(9, Ch(125, Ch(10,
      Ch(125, End))))))))))))))))))))))
    ensures RenderTo(Array(Item(Object(Member(Ch(97, End), True, NoMembers)), NoItems)), true, 0, End) ==
      Ch(91, Ch(123, Ch(10,
        Ch(9, Ch(9, Name(97, Ch(9, TrueWord(Ch(10,
      Ch(9, Ch(125, Ch(93, End))))))))))))
  {
  }
}
