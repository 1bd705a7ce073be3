/** parse_buffer: the parser of packages/cJSON-v1.7.17/cJSON.c as it advances `offset` and `depth`
    over the bytes of a NUL-terminated text. */
module JsonParser {
  import opened Basics
  import opened CString
  import opened Json
  import opened JsonText
  import JsonGrammar
  import opened JsonRoundTrip

  predicate Terminated(content: seq<int>) {
    && |content| > 0
    && content[|content| - 1] == 0
    && forall k :: 0 <= k < |content| - 1 ==> 0 < content[k] < 256
  }

  /** The C string that begins at position `k`. */
  function StrAt(content: seq<int>, k: nat): (x: Str)
    requires Terminated(content) && k < |content|
    ensures Length(x) == |content| - 1 - k
    decreases |content| - k
  {
    if k == |content| - 1 then End else Ch(content[k], StrAt(content, k + 1))
  }

  lemma {:induction false} DropAt(content: seq<int>, k: nat, j: nat)
    requires Terminated(content) && k + j < |content|
    ensures Drop(StrAt(content, k), j) == StrAt(content, k + j)
    decreases j
  {
    if j > 0 { DropAt(content, k + 1, j - 1); }
  }

  // ---- The two passes of parse_string ---------------------------------------------------------

  /** Whether the first pass, begun at `start`, steps over the byte at `p` as the second byte of an
      escape sequence. */
  predicate Escaped(content: seq<int>, start: nat, p: nat)
    requires start <= p <= |content|
  {
    p > start && content[p - 1] == BACKSLASH && !Escaped(content, start, p - 1)
  }

  /** How many escape sequences the first pass has counted before `p`. */
  function Escapes(content: seq<int>, start: nat, p: nat): nat
    requires start <= p <= |content|
  {
    if p == start then 0
    else Escapes(content, start, p - 1) + if Escaped(content, start, p) then 1 else 0
  }

  /** Of two neighbouring bytes at most one begins an escape sequence of the first pass, wherever
      the second pass is. */
  lemma TwoBytes(content: seq<int>, start: nat, p: nat)
    requires start <= p && p + 2 <= |content|
    ensures Escapes(content, start, p + 2) <= Escapes(content, start, p) + 1
  {
    assert Escapes(content, start, p + 2) == Escapes(content, start, p + 1) + if Escaped(content, start, p + 2) then 1 else 0;
  }

  lemma SixBytes(content: seq<int>, start: nat, p: nat)
    requires start <= p && p + 6 <= |content|
    ensures Escapes(content, start, p + 6) <= Escapes(content, start, p) + 3
  {
    TwoBytes(content, start, p);
    TwoBytes(content, start, p + 2);
    TwoBytes(content, start, p + 4);
  }

  /** The end of the string, and how many escapes there are before it; `end` is behind the text
      when there is no closing quote. */
  method ScanString(content: seq<int>, start: nat) returns (end: nat, skipped: nat)
    requires Terminated(content) && start < |content|
    ensures ScanEnd(StrAt(content, start)).None? ==> end == |content|
    ensures ScanEnd(StrAt(content, start)).Some? ==>
      && end == start + ScanEnd(StrAt(content, start)).value
      && end < |content| - 1 && content[end] == QUOTE
      && skipped == Escapes(content, start, end) && !Escaped(content, start, end)
  {
    end, skipped := start, 0;
    while end < |content| && content[end] != QUOTE
      invariant start <= end <= |content|
      invariant end == |content| ==> ScanEnd(StrAt(content, start)).None?
      invariant end < |content| ==>
        ScanEnd(StrAt(content, start)) == Further(end - start, ScanEnd(StrAt(content, end)))
      invariant skipped == Escapes(content, start, end) && !Escaped(content, start, end)
    {
      // The last byte is NUL, so a backslash is never the last byte.
      if content[end] == BACKSLASH {
        skipped := skipped + 1;
        end := end + 1;
      }
      end := end + 1;
    }
  }

  /** Encodes a code point as utf16_literal_to_utf8 does, from its last byte backwards. */
  method WriteUtf8(output: array<int>, at: nat, cp: nat) returns (len: nat)
    requires at + 1 + Continuations(cp) <= output.Length
    modifies output
    ensures len == |Utf8(cp)|
    ensures output[..at] == old(output[..at]) && output[at..at + len] == Utf8(cp)
  {
    var k := if cp < 0x80 then 0 else if cp < 0x800 then 1 else if cp < 0x10000 then 2 else 3;
    len := k + 1;
    var left: nat, i := cp, k;
    while i > 0
      invariant 0 <= i <= k
      invariant output[..at] == old(output[..at])
      invariant Utf8Tail(cp, k) == Utf8Tail(left, i) + output[at + 1 + i..at + len]
      invariant ShiftRight6(cp, k) == ShiftRight6(left, i)
    {
      ghost var before := output[at + 1 + i..at + len];
      output[at + i] := 0x80 + left % 64;
      assert output[at + i..at + len] == [0x80 + left % 64] + before;
      left := left / 64;
      i := i - 1;
    }
    output[at] := LeadMark(k) + left;
    assert output[at..at + len] == [output[at]] + output[at + 1..at + len];
  }

  function Min(a: int, b: int): int {
    if a <= b then a else b
  }

  /** The `len` bytes written for the `step` bytes of input at `p` stay within what the first pass
      set aside for them, and leave what it set aside for the rest. A last backslash that the
      first pass saw as an escaped one takes the closing quote with it. */
  ghost predicate Fits(content: seq<int>, start: nat, p: nat, end: nat, step: nat, len: nat)
    requires start <= p < end < |content|
  {
    var next := Min(p + step, end);
    && p + step <= end + 1
    && len + Escapes(content, start, next) - Escapes(content, start, p) <= next - p
    && len + Escapes(content, start, end) - Escapes(content, start, p) <= end - p
  }

  lemma StepFits(content: seq<int>, start: nat, p: nat, end: nat, step: nat, len: nat)
    requires start <= p < end < |content| && !Escaped(content, start, end)
    requires
      || (step == 1 && len == 1 && content[p] != BACKSLASH)
      || (step == 2 && len == 1 && content[p] == BACKSLASH)
      || (step == 6 && len <= 3 && p + 6 <= end)
      || (step == 12 && len <= 4 && p + 12 <= end)
    ensures Fits(content, start, p, end, step, len)
  {
    EscapesBound(content, start, Min(p + step, end), end);
    if step == 2 && p + 2 <= end {
      TwoBytes(content, start, p);
    } else if step >= 6 {
      SixBytes(content, start, p);
      if step == 12 { SixBytes(content, start, p + 6); }
    }
  }

  lemma HexStep(content: seq<int>, p: nat, n: nat, high: nat)
    requires Terminated(content) && p + 1 < |content| && 1 <= n <= 4 && high < HexLimit(n)
    ensures var digit := HexValue(content[p]);
      HexRun(StrAt(content, p), n, high) ==
        if digit.None? then None else HexRun(StrAt(content, p + 1), n - 1, 16 * high + digit.value)
  {
  }

  method ParseHex4At(content: seq<int>, p: nat) returns (h: nat)
    requires Terminated(content) && p + 4 < |content|
    ensures h == ParseHex4(StrAt(content, p))
  {
    h := 0;
    ghost var run := HexRun(StrAt(content, p), 4, 0);
    ghost var high, left: nat := 0, 4; // what has been read, and how many digits follow
    for i := 0 to 4
      invariant i + left == 4 && high < HexLimit(left) && h == if left > 0 then 16 * high else high
      invariant run == HexRun(StrAt(content, p + i), left, high)
    {
      HexStep(content, p + i, left, high);
      var digit := HexValue(content[p + i]);
      if digit.None? { return 0; }
      h := h + digit.value;
      high, left := h, left - 1;
      if i < 3 { h := h * 16; }
    }
  }

  /** utf16_literal_to_utf8 up to the code point: how many bytes of input it uses, 0 when it fails. */
  method ReadLiteral(content: seq<int>, p: nat, end: nat) returns (sequence: nat, cp: nat)
    requires Terminated(content) && p < end < |content| - 1
    ensures Utf16Literal(StrAt(content, p), end - p) == if sequence == 0 then None else Some((sequence, cp))
  {
    if end - p < 6 { return 0, 0; }
    DropAt(content, p, 2);
    var first := ParseHex4At(content, p + 2);
    if 0xDC00 <= first <= 0xDFFF { return 0, 0; }
    if first < 0xD800 || first > 0xDBFF { return 6, first; }
    if end - p < 12 { return 0, 0; }
    DropAt(content, p, 6);
    var second := ReadSecond(content, p + 6);
    if second < 0xDC00 || second > 0xDFFF { return 0, 0; }
    return 12, 0x10000 + (first - 0xD800) * 0x400 + (second - 0xDC00);
  }

  /** The second half of a surrogate pair, 0 when it does not begin like one. */
  method ReadSecond(content: seq<int>, p: nat) returns (h: nat)
    requires Terminated(content) && p + 6 < |content|
    ensures var y := StrAt(content, p);
      h == if y.c == BACKSLASH && y.rest.c == SMALL_U then ParseHex4(Drop(y, 2)) else 0
  {
    if content[p] != BACKSLASH || content[p + 1] != SMALL_U { return 0; }
    DropAt(content, p, 2);
    h := ParseHex4At(content, p + 2);
  }

  lemma PrependTwice(x: seq<int>, y: seq<int>, r: Option<seq<int>>)
    ensures Prepend(x, Prepend(y, r)) == Prepend(x + y, r)
  {
    if r.Some? { assert x + (y + r.value) == x + y + r.value; }
  }

  lemma EscapeStep(content: seq<int>, p: nat, n: int)
    requires Terminated(content) && p + 2 < |content| && n > 0 && content[p] == BACKSLASH && content[p + 1] == SMALL_U
    ensures var x := StrAt(content, p); var u := Utf16Literal(x, n);
      DecodeEscape(x, n) == if u.None? then None else Prepend(Utf8(u.value.1), Decode(Drop(x, u.value.0), n - u.value.0))
  {
  }

  /** A turn of the second pass at a \u escape. */
  method DecodeLiteral(content: seq<int>, start: nat, p: nat, end: nat, output: array<int>, used: nat)
    returns (step: nat, len: nat)
    requires Terminated(content) && start <= p < end < |content| - 1 && !Escaped(content, start, end)
    requires content[p] == BACKSLASH && content[p + 1] == SMALL_U
    requires used + end - p - (Escapes(content, start, end) - Escapes(content, start, p)) <= output.Length
    requires used <= output.Length
    modifies output
    ensures output[..used] == old(output[..used])
    ensures step == 0 ==> DecodeEscape(StrAt(content, p), end - p).None?
    ensures step > 0 ==> Fits(content, start, p, end, step, len) && used + len <= output.Length
    ensures step > 0 ==>
      DecodeEscape(StrAt(content, p), end - p)
      == Prepend(output[used..used + len], Decode(StrAt(content, p + step), end - p - step))
  {
    var cp;
    step, cp := ReadLiteral(content, p, end);
    len := 0;
    EscapeStep(content, p, end - p);
    if step > 0 {
      StepFits(content, start, p, end, step, |Utf8(cp)|);
      DropAt(content, p, step);
      len := WriteUtf8(output, used, cp);
    }
  }

  /** One turn of the second pass: `step` bytes of input, 0 when it fails, become `len` bytes. */
  method DecodeOne(content: seq<int>, start: nat, p: nat, end: nat, output: array<int>, used: nat)
    returns (step: nat, len: nat)
    requires Terminated(content) && start <= p < end < |content| - 1 && !Escaped(content, start, end)
    requires used + end - p - (Escapes(content, start, end) - Escapes(content, start, p)) <= output.Length
    requires used <= output.Length
    modifies output
    ensures output[..used] == old(output[..used])
    ensures step == 0 ==> Decode(StrAt(content, p), end - p).None?
    ensures step > 0 ==> Fits(content, start, p, end, step, len) && used + len <= output.Length
    ensures step > 0 ==>
      Decode(StrAt(content, p), end - p)
      == Prepend(output[used..used + len], Decode(StrAt(content, p + step), end - p - step))
  {
    step, len := 0, 0;
    if content[p] != BACKSLASH {
      step, len := 1, 1;
      StepFits(content, start, p, end, 1, 1);
      output[used] := content[p];
      assert output[used..used + len] == [content[p]];
    } else {
      assert Decode(StrAt(content, p), end - p) == DecodeEscape(StrAt(content, p), end - p);
      if ShortMeaning(content[p + 1]) != 0 {
        step, len := 2, 1;
        StepFits(content, start, p, end, 2, 1);
        output[used] := ShortMeaning(content[p + 1]);
        assert output[used..used + len] == [ShortMeaning(content[p + 1])];
      } else if content[p + 1] == SMALL_U {
        step, len := DecodeLiteral(content, start, p, end, output, used);
      }
    }
  }

  /** What parse_string allocates and fills: the bytes of the decoded string, which never exceed
      the bytes between the quotes less the escapes counted, for any content of the string. */
  method DecodeString(content: seq<int>, start: nat, end: nat, skipped: nat)
    returns (ok: bool, output: array<int>, used: nat)
    requires Terminated(content) && 0 < start <= end < |content| - 1 && !Escaped(content, start, end)
    requires skipped == Escapes(content, start, end)
    ensures fresh(output) && used < output.Length && used + skipped <= end - start
    ensures ok == Decode(StrAt(content, start), end - start).Some?
    ensures ok ==> Decode(StrAt(content, start), end - start) == Some(output[..used]) && output[used] == 0
  {
    EscapesBound(content, start, start, end);
    output := new int[end - (start - 1) - skipped + 1];
    var p := start;
    used := 0;
    ghost var all := Decode(StrAt(content, start), end - start);
    assert all == Prepend(output[..used], all) by { if all.Some? { assert [] + all.value == all.value; } }
    while p < end
      invariant start <= p <= end + 1
      invariant used + skipped <= end - start
      invariant used + Escapes(content, start, Min(p, end)) <= Min(p, end) - start
      invariant all == Prepend(output[..used], Decode(StrAt(content, p), end - p))
      decreases end + 1 - p
    {
      ghost var before := output[..used];
      var step, len := DecodeOne(content, start, p, end, output, used);
      if step == 0 { return false, output, used; }
      PrependTwice(before, output[used..used + len], Decode(StrAt(content, p + step), end - p - step));
      assert output[..used + len] == before + output[used..used + len];
      used, p := used + len, p + step;
    }
    output[used] := 0;
    assert all == Some(output[..used] + []);
    assert output[..used] + [] == output[..used];
    ok := true;
  }

  lemma {:induction false} EscapesBound(content: seq<int>, start: nat, p: nat, q: nat)
    requires start <= p <= q <= |content|
    ensures Escapes(content, start, q) - Escapes(content, start, p) <= q - p
  {
    if q > p { EscapesBound(content, start, p, q - 1); }
  }

  /** What Decode does in one step: `step` bytes of input become the bytes `out`. */
  lemma DecodeStep(content: seq<int>, p: nat, end: nat) returns (step: nat, out: seq<int>)
    requires Terminated(content) && p < end < |content| - 1 && Decode(StrAt(content, p), end - p).Some?
    ensures
      || (step == 1 && |out| == 1 && content[p] != BACKSLASH)
      || (step == 2 && |out| == 1 && content[p] == BACKSLASH)
      || (step == 6 && |out| <= 3 && p + 6 <= end)
      || (step == 12 && |out| <= 4 && p + 12 <= end)
    ensures p + step < |content|
    ensures Decode(StrAt(content, p), end - p) == Prepend(out, Decode(StrAt(content, p + step), end - p - step))
  {
    var x := StrAt(content, p);
    if x.c != BACKSLASH { return 1, [x.c]; }
    assert Decode(x, end - p) == DecodeEscape(x, end - p);
    if ShortMeaning(x.rest.c) != 0 { return 2, [ShortMeaning(x.rest.c)]; }
    var u := Utf16Literal(x, end - p).value;
    step, out := u.0, Utf8(u.1);
    DropAt(content, p, step);
  }

  /** For every string that has a closing quote and decodes, the decoded bytes fit. */
  lemma {:induction false} DecodedFits(content: seq<int>, start: nat, p: nat, end: nat)
    requires Terminated(content) && start <= p <= end < |content| - 1 && !Escaped(content, start, end)
    requires Decode(StrAt(content, p), end - p).Some?
    ensures |Decode(StrAt(content, p), end - p).value| + Escapes(content, start, end) - Escapes(content, start, p) <= end - p
    decreases end - p
  {
    if p < end {
      var step, out := DecodeStep(content, p, end);
      StepFits(content, start, p, end, step, |out|);
      if p + step <= end {
        DecodedFits(content, start, p + step, end);
      } else {
        assert Decode(StrAt(content, p + step), end - p - step) == Some([]);
      }
    }
  }

  // ---- Sibling lists as they are built -----------------------------------------------------------

  /** The list of `children` in front of `tail`. */
  function ItemsOf(children: seq<Json>, tail: Items): Items {
    if |children| == 0 then tail
    else ItemsOf(children[..|children| - 1], Item(children[|children| - 1], tail))
  }

  function MembersOf(children: seq<(Str, Json)>, tail: Members): Members {
    if |children| == 0 then tail
    else
      var (key, value) := children[|children| - 1];
      MembersOf(children[..|children| - 1], Member(key, value, tail))
  }

  function BehindItems(children: seq<Json>, r: Result<Items>): Result<Items> {
    match r
    case Ok(items, rest) => Ok(ItemsOf(children, items), rest)
    case Fail => Fail
    case OutOfModel => OutOfModel
  }

  function BehindMembers(children: seq<(Str, Json)>, r: Result<Members>): Result<Members> {
    match r
    case Ok(members, rest) => Ok(MembersOf(children, members), rest)
    case Fail => Fail
    case OutOfModel => OutOfModel
  }

  /** What follows the last item. */
  function CloseItems(x: Str): Result<Items> {
    if x.Ch? && x.c == RBRACKET then Ok(NoItems, x.rest) else Fail
  }

  function CloseMembers(x: Str): Result<Members> {
    if x.Ch? && x.c == RBRACE then Ok(NoMembers, x.rest) else Fail
  }

  lemma OneMoreItem(children: seq<Json>, v: Json, r: Result<Items>)
    ensures BehindItems(children, BehindItems([v], r)) == BehindItems(children + [v], r)
  {
    assert (children + [v])[..|children|] == children;
    assert r.Ok? ==> ItemsOf([v], r.value) == ItemsOf([], Item(v, r.value));
  }

  lemma OneMoreMember(children: seq<(Str, Json)>, key: Str, v: Json, r: Result<Members>)
    ensures BehindMembers(children, BehindMembers([(key, v)], r)) == BehindMembers(children + [(key, v)], r)
  {
    assert (children + [(key, v)])[..|children|] == children;
    assert r.Ok? ==> MembersOf([(key, v)], r.value) == MembersOf([], Member(key, v, r.value));
  }

  /** What one turn of the loop of parse_array makes of the rest of the array. */
  function ItemsTurn(x: Str, depth: nat, children: seq<Json>): Result<Items> {
    match ParseValue(Skip(x), depth)
    case Fail => Fail
    case OutOfModel => OutOfModel
    case Ok(v, y) => BehindItems(children + [v], MoreItems(Skip(y), depth))
  }

  function MoreItems(z: Str, depth: nat): Result<Items> {
    if z.Ch? && z.c == COMMA then ParseItems(z.rest, depth) else CloseItems(z)
  }

  lemma ItemsStep(x: Str, depth: nat, children: seq<Json>)
    ensures BehindItems(children, ParseItems(x, depth)) == ItemsTurn(x, depth, children)
  {
    match ParseValue(Skip(x), depth)
    case Fail =>
    case OutOfModel =>
    case Ok(v, y) =>
      assert forall tail :: ItemsOf([v], tail) == ItemsOf([], Item(v, tail)) == Item(v, tail);
      assert ParseItems(x, depth) == BehindItems([v], MoreItems(Skip(y), depth));
      OneMoreItem(children, v, MoreItems(Skip(y), depth));
  }

  /** A name and the colon behind it. */
  function ParseKey(x: Str): (r: Result<Str>)
    ensures !r.OutOfModel?
  {
    match ParseString(Skip(x))
    case Ok(key, y) => var z := Skip(y); if z.Ch? && z.c == COLON then Ok(key, z.rest) else Fail
    case _ => Fail
  }

  /** A name and its value, and the white space behind it. */
  function ParseMember(x: Str, depth: nat): (r: Result<(Str, Json)>) {
    match ParseKey(x)
    case Fail => Fail
    case OutOfModel => OutOfModel
    case Ok(key, k) =>
      match ParseValue(Skip(k), depth)
      case Fail => Fail
      case OutOfModel => OutOfModel
      case Ok(v, y) => Ok((key, v), Skip(y))
  }

  /** What one turn of the loop of parse_object makes of the rest of the object. */
  function MembersTurn(x: Str, depth: nat, children: seq<(Str, Json)>): Result<Members> {
    match ParseMember(x, depth)
    case Fail => Fail
    case OutOfModel => OutOfModel
    case Ok(member, z) => BehindMembers(children + [member], MoreMembers(z, depth))
  }

  function MoreMembers(z: Str, depth: nat): Result<Members> {
    if z.Ch? && z.c == COMMA then ParseMembers(z.rest, depth) else CloseMembers(z)
  }

  lemma MembersStep(x: Str, depth: nat, children: seq<(Str, Json)>)
    ensures BehindMembers(children, ParseMembers(x, depth)) == MembersTurn(x, depth, children)
  {
    var member := ParseMember(x, depth);
    if member.Ok? {
      var (key, v) := member.value;
      var r := MoreMembers(member.rest, depth);
      assert forall tail :: MembersOf([(key, v)], tail) == MembersOf([], Member(key, v, tail)) == Member(key, v, tail);
      assert ParseMembers(x, depth) == BehindMembers([(key, v)], r);
      OneMoreMember(children, key, v, r);
    }
  }

  /** A keyword decides the value; without one the next byte does. */
  lemma KeywordFirst(x: Str, depth: nat)
    ensures match Strip(x, NullTo(End))
      case Some(rest) => ParseValue(x, depth) == Ok(Null, rest)
      case None =>
        match Strip(x, FalseTo(End))
        case Some(rest) => ParseValue(x, depth) == Ok(False, rest)
        case None =>
          match Strip(x, TrueTo(End))
          case Some(rest) => ParseValue(x, depth) == Ok(True, rest)
          case None => ParseValue(x, depth) == ParseKind(x, depth)
  {
  }

  datatype Parsed<T> = Failed | Unsupported | Parsed(value: T)

  /** Whether what a method returned, and where it left the buffer, is the result `r`. */
  predicate Agrees<T(==)>(parsed: Parsed<T>, here: Str, r: Result<T>) {
    match r
    case Ok(v, rest) => parsed == Parsed(v) && here == rest
    case Fail => parsed == Failed
    case OutOfModel => parsed == Unsupported
  }

  class ParseBuffer {
    const content: seq<int>
    var offset: nat
    var depth: nat

    constructor (content: seq<int>)
      requires Terminated(content)
      ensures Valid() && this.content == content && offset == 0 && depth == 0
    {
      this.content := content;
      offset, depth := 0, 0;
    }

    ghost predicate Valid()
      reads this
    {
      Terminated(content) && offset < |content|
    }

    ghost function Here(): Str
      requires Valid()
      reads this
    {
      StrAt(content, offset)
    }

    /** buffer_skip_whitespace: the terminating NUL counts as white space, and is stepped back to. */
    method SkipWhitespace()
      requires Valid()
      modifies this`offset
      ensures Valid() && offset >= old(offset)
      ensures Here() == Skip(old(Here()))
    {
      while offset < |content| && content[offset] <= SPACE
        invariant old(offset) <= offset <= |content|
        invariant offset < |content| ==> Skip(StrAt(content, offset)) == Skip(old(Here()))
        invariant offset == |content| ==> Skip(old(Here())) == End
      {
        offset := offset + 1;
      }
      if offset == |content| {
        offset := offset - 1;
      }
    }

    /** skip_utf8_bom. */
    method SkipMark()
      requires Valid() && offset == 0
      modifies this`offset
      ensures Valid() && Here() == JsonGrammar.Unmarked(old(Here()))
    {
      var mark := Keyword(Ch(0xEF, Ch(0xBB, Ch(0xBF, End))));
      if mark && content[offset] == 0 { offset := 0; }
    }

    method ReadString() returns (r: Parsed<Str>)
      requires Valid()
      modifies this`offset
      ensures Valid() && (r.Parsed? ==> offset > old(offset))
      ensures Agrees(r, Here(), ParseString(old(Here())))
    {
      if content[offset] != QUOTE { return Failed; }
      var start := offset + 1;
      var end, skipped := ScanString(content, start);
      if end >= |content| { return Failed; }
      var ok, output, used := DecodeString(content, start, end, skipped);
      if !ok { return Failed; }
      DropAt(content, start, end + 1 - start);
      offset := end + 1;
      r := Parsed(Cut(output[..used]));
    }

    /** The digits that parse_number copies, as the number they write. */
    method ScanNumber(i0: nat) returns (i: nat, value: nat, count: nat)
      requires Valid() && i0 <= 63 && offset + i0 < |content|
      ensures offset + i < |content| && i == i0 + count && i <= 63
      ensures ScanDigits(StrAt(content, offset + i0), 63 - i0, 0, 0)
           == DigitScan(value, count, StrAt(content, offset + i), 63 - i)
    {
      i, value, count := i0, 0, 0;
      while i < 63 && IsDigitAt(offset + i)
        invariant i == i0 + count && i <= 63 && offset + i < |content|
        invariant ScanDigits(StrAt(content, offset + i0), 63 - i0, 0, 0)
               == ScanDigits(StrAt(content, offset + i), 63 - i, value, count)
      {
        value := 10 * value + content[offset + i] - 48;
        i, count := i + 1, count + 1;
      }
    }

    /** parse_number on integers: at most 63 characters are read. */
    method ReadNumber() returns (r: Parsed<int>)
      requires Valid() && Here().Ch?
      modifies this`offset
      ensures Valid() && (r.Parsed? ==> offset > old(offset))
      ensures Agrees(r, Here(), ParseNumber(old(Here())))
    {
      var negative := content[offset] == MINUS;
      var i, value, count := ScanNumber(if negative then 1 else 0);
      var next := content[offset + i];
      if i < 63 && (next == 46 || (count > 0 && (next == 101 || next == 69))) { return Unsupported; }
      if count == 0 { return Failed; }
      var n: int := if negative then -(value as int) else value;
      if n < INT_MIN || n > INT_MAX { return Unsupported; }
      offset := offset + i;
      r := Parsed(n);
    }

    predicate IsDigitAt(k: nat)
      requires Terminated(content) && k < |content|
    {
      48 <= content[k] <= 57
    }

    /** strncmp with a keyword, and stepping over it. */
    method Keyword(word: Str) returns (found: bool)
      requires Valid()
      modifies this`offset
      ensures Valid() && offset == old(offset) + if found then Length(word) else 0
      ensures match Strip(old(Here()), word)
        case Some(rest) => found && Here() == rest
        case None => !found
    {
      var i, w := 0, word;
      while w.Ch?
        invariant i + Length(w) == Length(word) && offset + i < |content|
        invariant Strip(Here(), word) == Strip(StrAt(content, offset + i), w)
        decreases w
      {
        if content[offset + i] != w.c { return false; }
        i, w := i + 1, w.rest;
      }
      offset := offset + i;
      found := true;
    }

    method ReadValue() returns (r: Parsed<Json>)
      requires Valid()
      modifies this
      ensures Valid() && (r.Parsed? ==> offset > old(offset) && depth == old(depth))
      ensures Agrees(r, Here(), ParseValue(old(Here()), old(depth)))
      decreases |content| - offset, 2
    {
      KeywordFirst(Here(), depth);
      var found := Keyword(NullTo(End));
      if found { return Parsed(Null); }
      found := Keyword(FalseTo(End));
      if found { return Parsed(False); }
      found := Keyword(TrueTo(End));
      if found { return Parsed(True); }
      r := ReadOther();
    }

    /** A value that is not a keyword. */
    method ReadOther() returns (r: Parsed<Json>)
      requires Valid()
      requires Strip(Here(), NullTo(End)).None? && Strip(Here(), FalseTo(End)).None? && Strip(Here(), TrueTo(End)).None?
      modifies this
      ensures Valid() && (r.Parsed? ==> offset > old(offset) && depth == old(depth))
      ensures Agrees(r, Here(), ParseKind(old(Here()), old(depth)))
      decreases |content| - offset, 1
    {
      if content[offset] == QUOTE {
        var s := ReadString();
        r := if s.Parsed? then Parsed(String(s.value)) else Failed;
      } else if content[offset] == MINUS || IsDigitAt(offset) {
        var n := ReadNumber();
        r := match n case Parsed(v) => Parsed(Number(v)) case Failed => Failed case Unsupported => Unsupported;
      } else if content[offset] == LBRACKET {
        r := ReadArray();
      } else if content[offset] == LBRACE {
        r := ReadObject();
      } else {
        r := Failed;
      }
    }

    method ReadArray() returns (r: Parsed<Json>)
      requires Valid() && Here().Ch? && Here().c == LBRACKET
      modifies this
      ensures Valid() && (r.Parsed? ==> offset > old(offset) && depth == old(depth))
      ensures Agrees(r, Here(), ParseArray(old(Here()), old(depth)))
      decreases |content| - offset, 0
    {
      if depth >= NESTING_LIMIT { return Failed; }
      depth, offset := depth + 1, offset + 1;
      SkipWhitespace();
      if content[offset] == RBRACKET {
        depth, offset := depth - 1, offset + 1;
        return Parsed(Array(NoItems));
      }
      var items := ReadItems();
      match items {
        case Failed => r := Failed;
        case Unsupported => r := Unsupported;
        case Parsed(children) =>
          depth := depth - 1;
          r := Parsed(Array(children));
      }
    }

    /** One turn of the loop of parse_array. */
    method NextItem(ghost children: seq<Json>) returns (r: Parsed<Json>, more: bool)
      requires Valid()
      modifies this
      ensures Valid() && (r.Parsed? ==> offset > old(offset) && depth == old(depth))
      ensures BehindItems(children, ParseItems(old(Here()), old(depth))) ==
        match r
        case Failed => Fail
        case Unsupported => OutOfModel
        case Parsed(v) => BehindItems(children + [v], if more then ParseItems(Here(), depth) else CloseItems(Here()))
      decreases |content| - offset, 3
    {
      ItemsStep(Here(), depth, children);
      SkipWhitespace();
      r := ReadValue();
      more := false;
      if r.Parsed? {
        SkipWhitespace();
        more := content[offset] == COMMA;
        if more { offset := offset + 1; }
      }
    }

    /** The loop of parse_array, and the closing bracket. */
    method ReadItems() returns (r: Parsed<Items>)
      requires Valid()
      modifies this
      ensures Valid() && (r.Parsed? ==> offset > old(offset) && depth == old(depth))
      ensures Agrees(r, Here(), ParseItems(old(Here()), old(depth)))
      decreases |content| - offset, 4
    {
      var children: seq<Json> := [];
      ghost var all := ParseItems(Here(), depth);
      var more := true;
      while more
        invariant Valid() && offset >= old(offset) && depth == old(depth)
        invariant more ==> all == BehindItems(children, ParseItems(Here(), depth))
        invariant !more ==> offset > old(offset) && all == BehindItems(children, CloseItems(Here()))
        decreases |content| - offset, more
      {
        var item;
        item, more := NextItem(children);
        if !item.Parsed? { return if item.Failed? then Failed else Unsupported; }
        children := children + [item.value];
      }
      if content[offset] != RBRACKET { return Failed; }
      offset := offset + 1;
      r := Parsed(ItemsOf(children, NoItems));
    }

    method ReadObject() returns (r: Parsed<Json>)
      requires Valid() && Here().Ch? && Here().c == LBRACE
      modifies this
      ensures Valid() && (r.Parsed? ==> offset > old(offset) && depth == old(depth))
      ensures Agrees(r, Here(), ParseObject(old(Here()), old(depth)))
      decreases |content| - offset, 0
    {
      if depth >= NESTING_LIMIT { return Failed; }
      depth, offset := depth + 1, offset + 1;
      SkipWhitespace();
      if content[offset] == RBRACE {
        depth, offset := depth - 1, offset + 1;
        return Parsed(Object(NoMembers));
      }
      var members := ReadMembers();
      match members {
        case Failed => r := Failed;
        case Unsupported => r := Unsupported;
        case Parsed(children) =>
          depth := depth - 1;
          r := Parsed(Object(children));
      }
    }

    /** A name and the colon behind it. */
    method ReadKey() returns (r: Parsed<Str>)
      requires Valid()
      modifies this`offset
      ensures Valid() && (r.Parsed? ==> offset > old(offset))
      ensures Agrees(r, Here(), ParseKey(old(Here())))
    {
      SkipWhitespace();
      r := ReadString();
      if !r.Parsed? { return; }
      SkipWhitespace();
      if content[offset] != COLON { return Failed; }
      offset := offset + 1;
    }

    method ReadMember() returns (r: Parsed<(Str, Json)>)
      requires Valid()
      modifies this
      ensures Valid() && (r.Parsed? ==> offset > old(offset) && depth == old(depth))
      ensures Agrees(r, Here(), ParseMember(old(Here()), old(depth)))
      decreases |content| - offset, 3
    {
      var key := ReadKey();
      if !key.Parsed? { return Failed; }
      SkipWhitespace();
      var v := ReadValue();
      if !v.Parsed? { return if v.Failed? then Failed else Unsupported; }
      SkipWhitespace();
      r := Parsed((key.value, v.value));
    }

    /** One turn of the loop of parse_object. */
    method NextMember(ghost children: seq<(Str, Json)>) returns (r: Parsed<(Str, Json)>, more: bool)
      requires Valid()
      modifies this
      ensures Valid() && (r.Parsed? ==> offset > old(offset) && depth == old(depth))
      ensures BehindMembers(children, ParseMembers(old(Here()), old(depth))) ==
        match r
        case Failed => Fail
        case Unsupported => OutOfModel
        case Parsed(v) => BehindMembers(children + [v], if more then ParseMembers(Here(), depth) else CloseMembers(Here()))
      decreases |content| - offset, 4
    {
      MembersStep(Here(), depth, children);
      r := ReadMember();
      more := r.Parsed? && content[offset] == COMMA;
      if more { offset := offset + 1; }
    }

    /** The loop of parse_object, and the closing brace. */
    method ReadMembers() returns (r: Parsed<Members>)
      requires Valid()
      modifies this
      ensures Valid() && (r.Parsed? ==> offset > old(offset) && depth == old(depth))
      ensures Agrees(r, Here(), ParseMembers(old(Here()), old(depth)))
      decreases |content| - offset, 5
    {
      var children: seq<(Str, Json)> := [];
      ghost var all := ParseMembers(Here(), depth);
      var more := true;
      while more
        invariant Valid() && offset >= old(offset) && depth == old(depth)
        invariant more ==> all == BehindMembers(children, ParseMembers(Here(), depth))
        invariant !more ==> offset > old(offset) && all == BehindMembers(children, CloseMembers(Here()))
        decreases |content| - offset, more
      {
        var member;
        member, more := NextMember(children);
        if !member.Parsed? { return if member.Failed? then Failed else Unsupported; }
        children := children + [member.value];
      }
      if content[offset] != RBRACE { return Failed; }
      offset := offset + 1;
      r := Parsed(MembersOf(children, NoMembers));
    }
  }

  /** cJSON_ParseWithOpts: the value, and where its text ends. */
  method ParseText(content: seq<int>, requireEnd: bool) returns (r: Parsed<Json>, end: nat)
    requires Terminated(content)
    ensures end < |content|
    ensures Agrees(r, StrAt(content, end), Parse(StrAt(content, 0), requireEnd))
    ensures forall t :: r == Parsed(t) <==>
      JsonGrammar.TextIs(StrAt(content, 0), t, StrAt(content, end), requireEnd) && NestedWithin(t, 1000)
  {
    var buffer := new ParseBuffer(content);
    buffer.SkipMark();
    JsonGrammar.MarkIs(StrAt(content, 0));
    buffer.SkipWhitespace();
    r := buffer.ReadValue();
    if r.Parsed? && requireEnd {
      buffer.SkipWhitespace();
      if content[buffer.offset] != 0 { r := Failed; }
    }
    end := buffer.offset;
    AcceptedExactly(r, StrAt(content, 0), StrAt(content, end), requireEnd);
  }

  lemma AcceptedExactly(r: Parsed<Json>, x: Str, here: Str, requireEnd: bool)
    requires Agrees(r, here, Parse(x, requireEnd))
    ensures forall t :: r == Parsed(t) <==> JsonGrammar.TextIs(x, t, here, requireEnd) && NestedWithin(t, 1000)
  {
    forall t ensures r == Parsed(t) <==> JsonGrammar.TextIs(x, t, here, requireEnd) && NestedWithin(t, 1000) {
      JsonGrammar.ParseMeaning(x, t, here, requireEnd);
    }
  }
}
