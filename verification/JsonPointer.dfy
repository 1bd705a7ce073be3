/** JSON Pointer (RFC 6901) of packages/cJSON-v1.7.17/cJSON_Utils.c: building a pointer to a node and
    following it. A node is known by its path, the index of a child at each level. */
module JsonPointer {
  import opened Basics
  import opened CString
  import opened Json
  import opened JsonMeaning
  import JsonText

  const SLASH: byte := 47
  const TILDE: byte := 126
  const ZERO: byte := 48
  const ONE: byte := 49
  const NINE: byte := 57
  const SIZE_MODULUS: nat := 0x1_0000_0000 // size_t

  datatype Path = Here | Child(index: nat, below: Path)

  // ---- Tokens -------------------------------------------------------------------------------------------

  /** encode_string_as_pointer, in front of `rest`. */
  function EncodeTo(name: Str, rest: Str): Str {
    if name.End? then rest
    else if name.c == SLASH then Ch(TILDE, Ch(ONE, EncodeTo(name.rest, rest)))
    else if name.c == TILDE then Ch(TILDE, Ch(ZERO, EncodeTo(name.rest, rest)))
    else Ch(name.c, EncodeTo(name.rest, rest))
  }

  /** pointer_encoded_length. */
  function EncodedLength(name: Str): nat {
    if name.End? then 0 else (if name.c == TILDE || name.c == SLASH then 2 else 1) + EncodedLength(name.rest)
  }

  /** The memory that is set aside for a token is what is written. */
  lemma {:induction false} EncodedSize(name: Str, rest: Str)
    ensures Length(EncodeTo(name, rest)) == EncodedLength(name) + Length(rest)
  {
    if name.Ch? { EncodedSize(name.rest, rest); }
  }

  /** The end of a token. */
  predicate AtEnd(x: Str) {
    x.End? || x.c == SLASH
  }

  predicate SameByte(a: byte, b: byte, caseSensitive: bool) {
    if caseSensitive then a == b else ToLower(a) == ToLower(b)
  }

  /** Whether the two bytes after a tilde stand for `c`. */
  predicate Escapes(c: byte, next: Str) {
    next.Ch? && ((next.c == ZERO && c == TILDE) || (next.c == ONE && c == SLASH))
  }

  /** compare_pointers: whether the token at the beginning of `x` is the name. */
  function Matches(name: Str, x: Str, caseSensitive: bool): bool {
    if name.End? || AtEnd(x) then name.End? && AtEnd(x)
    else if x.c == TILDE then Escapes(name.c, x.rest) && Matches(name.rest, x.rest.rest, caseSensitive)
    else SameByte(name.c, x.c, caseSensitive) && Matches(name.rest, x.rest, caseSensitive)
  }

  method ComparePointers(name: Str, pointer: Str, caseSensitive: bool) returns (same: bool)
    ensures same == Matches(name, pointer, caseSensitive)
  {
    var n, x := name, pointer;
    while n.Ch? && x.Ch? && x.c != SLASH
      invariant Matches(n, x, caseSensitive) == Matches(name, pointer, caseSensitive)
      decreases n
    {
      if x.c == TILDE {
        if !Escapes(n.c, x.rest) { return false; }
        x := x.rest;
      } else if !SameByte(n.c, x.c, caseSensitive) {
        return false;
      }
      n, x := n.rest, x.rest;
    }
    same := (x.Ch? && x.c != SLASH) == n.Ch?;
  }

  /** A token matches exactly the name that it encodes, or one that differs from it only in case. */
  lemma {:induction false} MatchesEncoded(name: Str, other: Str, rest: Str, caseSensitive: bool)
    requires AtEnd(rest)
    ensures Matches(name, EncodeTo(other, rest), caseSensitive) <==> CompareStrings(name, other, caseSensitive) == 0
  {
    if name.Ch? && other.Ch? { MatchesEncoded(name.rest, other.rest, rest, caseSensitive); }
  }

  // ---- Tokens by section 4 of RFC 6901 --------------------------------------------------------------------

  /** The reference token at the beginning of a string: what comes before the first slash. */
  function Token(x: Str): Str {
    if x.End? || x.c == 47 then End else Ch(x.c, Token(x.rest))
  }

  /** Every occurrence of a tilde and the byte `after` replaced by `instead`. */
  function ReplaceAll(s: Str, after: byte, instead: byte): Str {
    if s.End? then End
    else if s.c == 126 && s.rest.Ch? && s.rest.c == after then Ch(instead, ReplaceAll(s.rest.rest, after, instead))
    else Ch(s.c, ReplaceAll(s.rest, after, instead))
  }

  /** First "~1" becomes "/", then "~0" becomes "~". */
  function Unescape(token: Str): Str {
    ReplaceAll(ReplaceAll(token, 49, 47), 48, 126)
  }

  /** Every tilde is followed by 0 or 1, as the grammar in section 3 demands. */
  predicate WellEscaped(token: Str) {
    token.Ch? ==>
      if token.c == 126 then token.rest.Ch? && (token.rest.c == 48 || token.rest.c == 49) && WellEscaped(token.rest.rest)
      else WellEscaped(token.rest)
  }

  /** One byte of a token and its escapes, for each of the two replacements. */
  lemma UnescapeStep(s: Str)
    requires s.Ch? && WellEscaped(s)
    ensures s.c != 126 ==> Unescape(s) == Ch(s.c, Unescape(s.rest))
    ensures s.c == 126 && s.rest.c == 49 ==> Unescape(s) == Ch(47, Unescape(s.rest.rest))
    ensures s.c == 126 && s.rest.c == 48 ==> Unescape(s) == Ch(126, Unescape(s.rest.rest))
  {
    if s.c == 126 && s.rest.c == 48 {
      var inner := ReplaceAll(s.rest.rest, 49, 47);
      assert ReplaceAll(s.rest, 49, 47) == Ch(48, inner);
      assert ReplaceAll(s, 49, 47) == Ch(126, Ch(48, inner));
    }
  }

  /** The name that is encoded is the one that the token names. */
  lemma {:induction false} EncodedNames(name: Str, rest: Str)
    requires AtEnd(rest)
    ensures var token := Token(EncodeTo(name, rest)); WellEscaped(token) && Unescape(token) == name
  {
    if name.Ch? {
      EncodedNames(name.rest, rest);
      var token := Token(EncodeTo(name, rest));
      var inner := Token(EncodeTo(name.rest, rest));
      if name.c == 47 {
        assert Token(Ch(49, EncodeTo(name.rest, rest))) == Ch(49, inner);
        assert token == Ch(126, Ch(49, inner));
      } else if name.c == 126 {
        assert Token(Ch(48, EncodeTo(name.rest, rest))) == Ch(48, inner);
        assert token == Ch(126, Ch(48, inner));
      } else {
        assert token == Ch(name.c, inner);
      }
      UnescapeStep(token);
    }
  }

  /** The matcher accepts exactly the well-escaped tokens of the name. */
  lemma {:induction false} MatchesToken(name: Str, x: Str)
    ensures Matches(name, x, true) <==> WellEscaped(Token(x)) && Unescape(Token(x)) == name
  {
    var token := Token(x);
    if token.Ch? && WellEscaped(token) { UnescapeStep(token); }
    if name.Ch? && !AtEnd(x) {
      if x.c != TILDE {
        MatchesToken(name.rest, x.rest);
      } else if x.rest.Ch? && (x.rest.c == 48 || x.rest.c == 49) {
        MatchesToken(name.rest, x.rest.rest);
        assert Token(x.rest) == Ch(x.rest.c, Token(x.rest.rest));
      }
    }
  }

  /** {"/": true} is found by "/~1", and "~01" is the token of "~1". */
  lemma EscapeExamples()
    ensures EncodeTo(Ch(47, End), End) == Ch(126, Ch(49, End))
    ensures EncodeTo(Ch(126, Ch(49, End)), End) == Ch(126, Ch(48, Ch(49, End)))
    ensures Matches(Ch(47, End), Ch(126, Ch(49, End)), true) && !Matches(Ch(47, End), Ch(126, Ch(48, End)), true)
  {
    assert EncodeTo(End, End) == End && EncodeTo(Ch(49, End), End) == Ch(49, End);
    assert Matches(End, End, true);
  }

  /** Skipping to the next token or to the end. */
  function SkipToken(x: Str): Str {
    if AtEnd(x) then x else SkipToken(x.rest)
  }

  lemma {:induction false} SkipEncoded(name: Str, rest: Str)
    requires AtEnd(rest)
    ensures SkipToken(EncodeTo(name, rest)) == rest
  {
    if name.Ch? {
      SkipEncoded(name.rest, rest);
      var x := EncodeTo(name.rest, rest);
      assert SkipToken(Ch(ZERO, x)) == SkipToken(x) && SkipToken(Ch(ONE, x)) == SkipToken(x);
    }
  }

  lemma {:induction false} SkipDigits(n: nat, rest: Str)
    ensures SkipToken(JsonText.DigitsTo(n, rest)) == SkipToken(rest)
  {
    if n >= 10 { SkipDigits(n / 10, Ch(48 + n % 10, rest)); }
  }

  // ---- Array indices --------------------------------------------------------------------------------------

  /** The loop of decode_array_index_from_pointer. It looks at the upper bound of the first byte only:
      `first` says whether that one is at most '9'. */
  function IndexLoop(x: Str, first: bool, value: nat): (nat, Str) {
    if x.Ch? && x.c >= ZERO && first then IndexLoop(x.rest, first, (10 * value + x.c - 48) % SIZE_MODULUS)
    else (value, x)
  }

  function DecodeIndex(x: Str): Option<nat> {
    if x.Ch? && x.c == ZERO && !AtEnd(x.rest) then None
    else
      var (value, after) := IndexLoop(x, x.Ch? && x.c <= NINE, 0);
      if AtEnd(after) then Some(value) else None
  }

  method DecodeArrayIndex(pointer: Str) returns (r: Option<nat>)
    ensures r == DecodeIndex(pointer)
  {
    if pointer.Ch? && pointer.c == ZERO && !AtEnd(pointer.rest) { return None; }
    var value: nat, x := 0, pointer;
    while x.Ch? && x.c >= ZERO && pointer.c <= NINE
      invariant pointer.End? ==> x.End?
      invariant IndexLoop(x, pointer.Ch? && pointer.c <= NINE, value) == IndexLoop(pointer, pointer.Ch? && pointer.c <= NINE, 0)
      decreases x
    {
      value := (10 * value + x.c - 48) % SIZE_MODULUS;
      x := x.rest;
    }
    if !AtEnd(x) { return None; }
    r := Some(value);
  }

  lemma {:induction false} LoopOverDigits(n: nat, rest: Str)
    requires n < SIZE_MODULUS
    ensures IndexLoop(JsonText.DigitsTo(n, rest), true, 0) == IndexLoop(rest, true, n)
    ensures JsonText.DigitsTo(n, rest).Ch? && ZERO <= JsonText.DigitsTo(n, rest).c <= NINE
    ensures n > 0 ==> JsonText.DigitsTo(n, rest).c > ZERO
    decreases n
  {
    if n >= 10 {
      var last := Ch(48 + n % 10, rest);
      LoopOverDigits(n / 10, last);
      Recompose(n);
      assert IndexLoop(last, true, n / 10) == IndexLoop(rest, true, n);
    }
  }

  lemma Recompose(n: nat)
    requires n < SIZE_MODULUS
    ensures (10 * (n / 10) + (48 + n % 10) - 48) % SIZE_MODULUS == n
  {
  }

  /** The decimal form of an index is decoded as that index. */
  lemma IndexRoundTrip(n: nat, rest: Str)
    requires n < SIZE_MODULUS && AtEnd(rest)
    ensures DecodeIndex(JsonText.DigitsTo(n, rest)) == Some(n)
  {
    LoopOverDigits(n, rest);
  }

  // The grammar of section 4 of RFC 6901: "0", or digits that do not begin with 0.

  predicate AllDigits(x: Str) {
    AtEnd(x) || (ZERO <= x.c <= NINE && AllDigits(x.rest))
  }

  predicate IsIndex(x: Str) {
    !AtEnd(x) && AllDigits(x) && (x.c == ZERO ==> AtEnd(x.rest))
  }

  predicate NoneBelowZero(x: Str) {
    AtEnd(x) || (ZERO <= x.c && NoneBelowZero(x.rest))
  }

  lemma {:induction false} LoopStops(x: Str, value: nat)
    ensures AtEnd(IndexLoop(x, true, value).1) <==> NoneBelowZero(x)
  {
    if x.Ch? && x.c >= ZERO { LoopStops(x.rest, (10 * value + x.c - 48) % SIZE_MODULUS); }
  }

  lemma {:induction false} DigitsAreNotBelow(x: Str)
    requires AllDigits(x)
    ensures NoneBelowZero(x)
  {
    if !AtEnd(x) { DigitsAreNotBelow(x.rest); }
  }

  /** The tokens on which the code departs from the grammar: it takes the empty token for 0, and any
      bytes from '0' upwards behind a first digit other than 0. */
  predicate Misread(x: Str) {
    AtEnd(x) || (ONE <= x.c <= NINE && NoneBelowZero(x.rest) && !AllDigits(x.rest))
  }

  /** Everywhere else it accepts exactly the grammar. */
  lemma Accepts(x: Str)
    ensures (DecodeIndex(x).Some? <==> IsIndex(x)) <==> !Misread(x)
  {
    LoopStops(x, 0);
    if x.Ch? && AllDigits(x.rest) { DigitsAreNotBelow(x.rest); }
    if !AtEnd(x) && x.c > NINE { assert IndexLoop(x, false, 0) == (0, x); }
  }

  /** The decimal value of the digits of a token, behind those that make `high`. */
  function DecimalValue(x: Str, high: nat): nat
    requires AllDigits(x)
  {
    if AtEnd(x) then high else DecimalValue(x.rest, 10 * high + x.c - 48)
  }

  /** The index that a token names by section 4 of RFC 6901. */
  function RfcIndex(x: Str): Option<nat> {
    if IsIndex(x) then Some(DecimalValue(x, 0)) else None
  }

  /** On digits the loop computes the decimal value modulo 2^32. */
  lemma {:induction false} LoopValue(x: Str, high: nat)
    requires AllDigits(x)
    ensures IndexLoop(x, true, high % SIZE_MODULUS).0 == DecimalValue(x, high) % SIZE_MODULUS
  {
    if !AtEnd(x) {
      Wrapped(high, x.c - 48);
      LoopValue(x.rest, 10 * high + x.c - 48);
    }
  }

  lemma Wrapped(high: nat, digit: nat)
    ensures (10 * (high % SIZE_MODULUS) + digit) % SIZE_MODULUS == (10 * high + digit) % SIZE_MODULUS
  {
    var q, r := high / SIZE_MODULUS, high % SIZE_MODULUS;
    assert 10 * high + digit == 10 * r + digit + SIZE_MODULUS * (10 * q);
    ModulusAdd(10 * r + digit, 10 * q);
  }

  lemma {:induction false} ModulusAdd(n: nat, k: nat)
    ensures (n + SIZE_MODULUS * k) % SIZE_MODULUS == n % SIZE_MODULUS
  {
    if k > 0 { ModulusAdd(n, k - 1); }
  }

  /** An index by the RFC is read modulo 2^32. */
  lemma ReadModulo(x: Str)
    requires IsIndex(x)
    ensures DecodeIndex(x) == Some(DecimalValue(x, 0) % SIZE_MODULUS)
  {
    DigitsAreNotBelow(x);
    LoopStops(x, 0);
    LoopValue(x, 0);
  }

  lemma Fits(n: nat)
    ensures n % SIZE_MODULUS == n <==> n < SIZE_MODULUS
  {
  }

  /** The decoder reads a token as RFC 6901 does if and only if it is not one of those above and its
      value, if it has one, fits size_t. */
  lemma IndexGrammar(x: Str)
    ensures DecodeIndex(x) == RfcIndex(x) <==> !Misread(x) && (IsIndex(x) ==> DecimalValue(x, 0) < SIZE_MODULUS)
  {
    Accepts(x);
    if IsIndex(x) {
      ReadModulo(x);
      Fits(DecimalValue(x, 0));
    }
  }

  lemma {:induction false} DigitsValue(n: nat, rest: Str)
    requires AllDigits(rest)
    ensures var x := JsonText.DigitsTo(n, rest);
      && AllDigits(x) && DecimalValue(x, 0) == DecimalValue(rest, n)
      && x.Ch? && x.c != SLASH && (n > 0 ==> x.c != ZERO) && (n == 0 ==> x == Ch(ZERO, rest))
  {
    if n >= 10 {
      var last := Ch(48 + n % 10, rest);
      DigitsValue(n / 10, last);
      assert DecimalValue(last, n / 10) == DecimalValue(rest, n);
    } else {
      assert DecimalValue(Ch(48 + n, rest), 0) == DecimalValue(rest, n);
    }
  }

  /** The decimal form of any number is an index by the RFC; the code takes it modulo 2^32. */
  lemma IndexWraps(n: nat, rest: Str)
    requires AtEnd(rest)
    ensures RfcIndex(JsonText.DigitsTo(n, rest)) == Some(n)
    ensures DecodeIndex(JsonText.DigitsTo(n, rest)) == Some(n % SIZE_MODULUS)
  {
    DigitsValue(n, rest);
    ReadModulo(JsonText.DigitsTo(n, rest));
  }

  /** "/4294967296" names the element 2^32, and the code goes to element 0. */
  lemma WrapAround()
    ensures var x := JsonText.DigitsTo(0x1_0000_0000, End);
      DecodeIndex(x) == Some(0) && RfcIndex(x) == Some(0x1_0000_0000) && !Misread(x)
  {
    var x := JsonText.DigitsTo(0x1_0000_0000, End);
    IndexWraps(0x1_0000_0000, End);
    DigitsValue(0x1_0000_0000, End);
    assert AllDigits(x.rest);
  }

  /** "1:" is taken for the index 20. */
  lemma MisreadExample()
    ensures DecodeIndex(Ch(49, Ch(58, End))) == Some(20) && !IsIndex(Ch(49, Ch(58, End)))
  {
    assert IndexLoop(Ch(58, End), true, 1) == IndexLoop(End, true, 20) == (20, End);
    assert IndexLoop(Ch(49, Ch(58, End)), true, 0) == IndexLoop(Ch(58, End), true, 1);
    assert !AllDigits(Ch(58, End));
  }

  // ---- Nodes ------------------------------------------------------------------------------------------------

  function ItemAt(items: Items, i: nat): Option<Json> {
    if items.NoItems? then None else if i == 0 then Some(items.head) else ItemAt(items.tail, i - 1)
  }

  datatype Named = Named(key: Str, value: Json)

  function MemberAt(members: Members, i: nat): Option<Named> {
    if members.NoMembers? then None
    else if i == 0 then Some(Named(members.key, members.value))
    else MemberAt(members.others, i - 1)
  }

  /** There is a node at that path. */
  predicate Exists(t: Json, p: Path)
    decreases p
  {
    match p
    case Here => true
    case Child(i, below) =>
      i < SIZE_MODULUS &&
      match t
      case Array(items) => ItemAt(items, i).Some? && Exists(ItemAt(items, i).value, below)
      case Object(members) => MemberAt(members, i).Some? && Exists(MemberAt(members, i).value.value, below)
      case _ => false
  }

  /** The pointer to the node at a path. */
  function PointerTo(t: Json, p: Path): Str
    requires Exists(t, p)
    decreases p
  {
    match p
    case Here => End
    case Child(i, below) =>
      match t
      case Array(items) => Ch(SLASH, JsonText.DigitsTo(i, PointerTo(ItemAt(items, i).value, below)))
      case Object(members) =>
        var m := MemberAt(members, i).value;
        Ch(SLASH, EncodeTo(m.key, PointerTo(m.value, below)))
  }

  // ---- Following a pointer ------------------------------------------------------------------------------------

  function Under(i: nat, p: Option<Path>): Option<Path> {
    if p.Some? then Some(Child(i, p.value)) else None
  }

  /** The index of the first member that a token names. */
  function FindMember(members: Members, x: Str, caseSensitive: bool, i: nat): (r: Option<nat>)
    ensures r.Some? ==> i <= r.value && MemberAt(members, r.value - i).Some?
  {
    if members.NoMembers? then None
    else if Matches(members.key, x, caseSensitive) then Some(i)
    else FindMember(members.others, x, caseSensitive, i + 1)
  }

  lemma {:induction false} SkipShortens(x: Str)
    ensures Length(SkipToken(x)) <= Length(x)
  {
    if !AtEnd(x) { SkipShortens(x.rest); }
  }

  /** get_item_from_pointer: the path of the node, None for NULL. */
  function Follow(t: Json, x: Str, caseSensitive: bool): Option<Path>
    decreases Length(x)
  {
    if x.End? || x.c != SLASH then Some(Here)
    else
      SkipShortens(x.rest);
      match t
      case Array(items) =>
        var i := DecodeIndex(x.rest);
        if i.None? || ItemAt(items, i.value).None? then None
        else Under(i.value, Follow(ItemAt(items, i.value).value, SkipToken(x.rest), caseSensitive))
      case Object(members) =>
        var i := FindMember(members, x.rest, caseSensitive, 0);
        if i.None? then None
        else Under(i.value, Follow(MemberAt(members, i.value).value.value, SkipToken(x.rest), caseSensitive))
      case _ => None
  }

  // ---- Following a pointer by RFC 6901 -------------------------------------------------------------------------

  /** The first member with exactly that name. */
  function FirstNamed(members: Members, name: Str, i: nat): (r: Option<nat>)
    ensures r.Some? ==> i <= r.value && MemberAt(members, r.value - i).Some?
  {
    if members.NoMembers? then None else if members.key == name then Some(i) else FirstNamed(members.others, name, i + 1)
  }

  /** Section 4: each token is unescaped and names a member, or is an index. A string that does not
      begin with a slash is no pointer, unless it is empty. */
  function Evaluate(t: Json, x: Str): Option<Path>
    decreases Length(x)
  {
    if x.End? then Some(Here)
    else if x.c != 47 then None
    else
      SkipShortens(x.rest);
      match t
      case Array(items) =>
        var i := RfcIndex(x.rest);
        if i.None? || ItemAt(items, i.value).None? then None
        else Under(i.value, Evaluate(ItemAt(items, i.value).value, SkipToken(x.rest)))
      case Object(members) =>
        var i := if WellEscaped(Token(x.rest)) then FirstNamed(members, Unescape(Token(x.rest)), 0) else None;
        if i.None? then None
        else Under(i.value, Evaluate(MemberAt(members, i.value).value.value, SkipToken(x.rest)))
      case _ => None
  }

  /** On its way the pointer comes to a string that does not begin with a slash, or to an array with a
      token that is no index by the RFC, or none that fits size_t. */
  predicate Strays(t: Json, x: Str)
    decreases Length(x)
  {
    x.Ch? && (x.c != 47 || (
      SkipShortens(x.rest);
      match t
      case Array(items) =>
        var i := RfcIndex(x.rest);
        if i.None? || i.value >= SIZE_MODULUS then Misread(x.rest) || i.Some?
        else ItemAt(items, i.value).Some? && Strays(ItemAt(items, i.value).value, SkipToken(x.rest))
      case Object(members) =>
        var i := if WellEscaped(Token(x.rest)) then FirstNamed(members, Unescape(Token(x.rest)), 0) else None;
        i.Some? && Strays(MemberAt(members, i.value).value.value, SkipToken(x.rest))
      case _ => false))
  }

  lemma {:induction false} FindIsNamed(members: Members, x: Str, i: nat)
    ensures FindMember(members, x, true, i) == if WellEscaped(Token(x)) then FirstNamed(members, Unescape(Token(x)), i) else None
  {
    if members.Member? {
      MatchesToken(members.key, x);
      FindIsNamed(members.others, x, i + 1);
    }
  }

  /** Where it does not stray, a pointer is followed as the RFC says. */
  lemma {:induction false} FollowIsEvaluate(t: Json, x: Str)
    requires !Strays(t, x)
    ensures Follow(t, x, true) == Evaluate(t, x)
    decreases Length(x)
  {
    if x.Ch? && x.c == 47 {
      SkipShortens(x.rest);
      match t
      case Array(items) =>
        IndexGrammar(x.rest);
        var i := RfcIndex(x.rest);
        if i.Some? && ItemAt(items, i.value).Some? { FollowIsEvaluate(ItemAt(items, i.value).value, SkipToken(x.rest)); }
      case Object(members) =>
        FindIsNamed(members, x.rest, 0);
        var i := FindMember(members, x.rest, true, 0);
        if i.Some? { FollowIsEvaluate(MemberAt(members, i.value).value.value, SkipToken(x.rest)); }
      case _ =>
    }
  }

  /** No array has 2^32 elements or more. */
  predicate Narrow(t: Json) {
    match t
    case Array(items) => NarrowItems(items) && ItemAt(items, SIZE_MODULUS).None?
    case Object(members) => NarrowMembers(members)
    case _ => true
  }

  predicate NarrowItems(items: Items) {
    items.Item? ==> Narrow(items.head) && NarrowItems(items.tail)
  }

  predicate NarrowMembers(members: Members) {
    members.Member? ==> Narrow(members.value) && NarrowMembers(members.others)
  }

  lemma {:induction false} BeyondLast(items: Items, i: nat, j: nat)
    requires ItemAt(items, i).None? && i <= j
    ensures ItemAt(items, j).None?
  {
    if items.Item? { BeyondLast(items.tail, i - 1, j - 1); }
  }

  lemma {:induction false} NarrowItem(items: Items, i: nat)
    requires NarrowItems(items) && ItemAt(items, i).Some?
    ensures Narrow(ItemAt(items, i).value)
  {
    if i > 0 { NarrowItem(items.tail, i - 1); }
  }

  lemma {:induction false} NarrowMember(members: Members, i: nat)
    requires NarrowMembers(members) && MemberAt(members, i).Some?
    ensures Narrow(MemberAt(members, i).value.value)
  {
    if i > 0 { NarrowMember(members.others, i - 1); }
  }

  /** Where it strays, the RFC finds nothing: the code departs exactly where a pointer strays and leads
      to a node all the same. */
  lemma {:induction false} StraysNowhere(t: Json, x: Str)
    requires Narrow(t) && Strays(t, x)
    ensures Evaluate(t, x).None?
    decreases Length(x)
  {
    if x.c == 47 {
      SkipShortens(x.rest);
      match t
      case Array(items) =>
        var i := RfcIndex(x.rest);
        if i.Some? && i.value >= SIZE_MODULUS {
          BeyondLast(items, SIZE_MODULUS, i.value);
        } else if i.Some? {
          NarrowItem(items, i.value);
          StraysNowhere(ItemAt(items, i.value).value, SkipToken(x.rest));
        }
      case Object(members) =>
        var i := FirstNamed(members, Unescape(Token(x.rest)), 0);
        NarrowMember(members, i.value);
        StraysNowhere(MemberAt(members, i.value).value.value, SkipToken(x.rest));
    }
  }

  lemma FollowExactly(t: Json, x: Str)
    requires Narrow(t)
    ensures Evaluate(t, x) == if Strays(t, x) then None else Follow(t, x, true)
  {
    if Strays(t, x) { StraysNowhere(t, x); } else { FollowIsEvaluate(t, x); }
  }

  /** "a" is no pointer, and leads to the whole value. */
  lemma NoSlash(t: Json)
    ensures var x := Ch(97, End); Follow(t, x, true) == Some(Here) && Evaluate(t, x).None? && Strays(t, x)
  {
  }

  function Join(p: Path, q: Path): Path {
    if p.Here? then q else Child(p.index, Join(p.below, q))
  }

  function Beyond(p: Path, q: Option<Path>): Option<Path> {
    if q.Some? then Some(Join(p, q.value)) else None
  }

  lemma {:induction false} JoinChild(p: Path, i: nat, q: Option<Path>)
    ensures Beyond(p, Under(i, q)) == Beyond(Join(p, Child(i, Here)), q)
  {
    if p.Child? {
      JoinChild(p.below, i, q);
    } else if q.Some? {
      assert Join(Child(i, Here), q.value) == Child(i, Join(Here, q.value));
    }
  }

  lemma {:induction false} JoinHere(p: Path)
    ensures Join(p, Here) == p
  {
    if p.Child? { JoinHere(p.below); }
  }

  /** get_item_from_pointer as it goes down the tree. */
  method GetItem(t: Json, pointer: Str, caseSensitive: bool) returns (r: Option<Path>)
    ensures r == Follow(t, pointer, caseSensitive)
  {
    var current, x, path := t, pointer, Here;
    while x.Ch? && x.c == SLASH
      invariant Follow(t, pointer, caseSensitive) == Beyond(path, Follow(current, x, caseSensitive))
      decreases Length(x)
    {
      SkipShortens(x.rest);
      var i;
      var child;
      match current {
        case Array(items) =>
          var decoded := DecodeArrayIndex(x.rest);
          if decoded.None? || ItemAt(items, decoded.value).None? { return None; }
          i, child := decoded.value, ItemAt(items, decoded.value).value;
        case Object(members) =>
          var found := FindMember(members, x.rest, caseSensitive, 0);
          if found.None? { return None; }
          i, child := found.value, MemberAt(members, found.value).value.value;
        case _ => return None;
      }
      JoinChild(path, i, Follow(child, SkipToken(x.rest), caseSensitive));
      current, x, path := child, SkipToken(x.rest), Join(path, Child(i, Here));
    }
    JoinHere(path);
    r := Some(path);
  }

  lemma {:induction false} NameThere(members: Members, i: nat)
    requires MemberAt(members, i).Some?
    ensures var m := MemberAt(members, i).value;
      m.key in MemberNames(members) && m.key in MembersMeaning(members) && Names(m.value) <= MemberNames(members)
  {
    if i > 0 { NameThere(members.others, i - 1); }
  }

  lemma {:induction false} FindNamed(members: Members, i: nat, rest: Str, base: nat, caseSensitive: bool)
    requires UniqueMembers(members) && Told(MemberNames(members), caseSensitive) && MemberAt(members, i).Some? && AtEnd(rest)
    ensures FindMember(members, EncodeTo(MemberAt(members, i).value.key, rest), caseSensitive, base) == Some(base + i)
    ensures Unique(MemberAt(members, i).value.value)
  {
    var key := MemberAt(members, i).value.key;
    MatchesEncoded(members.key, key, rest, caseSensitive);
    NameThere(members, i);
    if i > 0 {
      NameThere(members.others, i - 1);
      assert members.key != key;
      FindNamed(members.others, i - 1, rest, base + 1, caseSensitive);
    }
  }

  lemma {:induction false} UniqueItem(items: Items, i: nat)
    requires UniqueItems(items) && ItemAt(items, i).Some?
    ensures Unique(ItemAt(items, i).value) && Names(ItemAt(items, i).value) <= ItemNames(items)
  {
    if i > 0 { UniqueItem(items.tail, i - 1); }
  }

  lemma PointerEnds(t: Json, p: Path)
    requires Exists(t, p)
    ensures AtEnd(PointerTo(t, p))
  {
  }

  /** Following the pointer to a node leads to that node, if comparing tells the names from each other. */
  lemma {:induction false} FollowPointer(t: Json, p: Path, caseSensitive: bool)
    requires Unique(t) && Exists(t, p) && Told(Names(t), caseSensitive)
    ensures Follow(t, PointerTo(t, p), caseSensitive) == Some(p)
    decreases p
  {
    if p.Child? {
      match t
      case Array(items) =>
        var child := ItemAt(items, p.index).value;
        var rest := PointerTo(child, p.below);
        UniqueItem(items, p.index);
        PointerEnds(child, p.below);
        IndexRoundTrip(p.index, rest);
        SkipDigits(p.index, rest);
        FollowPointer(child, p.below, caseSensitive);
      case Object(members) =>
        var m := MemberAt(members, p.index).value;
        var rest := PointerTo(m.value, p.below);
        PointerEnds(m.value, p.below);
        NameThere(members, p.index);
        FindNamed(members, p.index, rest, 0, caseSensitive);
        SkipEncoded(m.key, rest);
        FollowPointer(m.value, p.below, caseSensitive);
    }
  }

  // ---- Finding a node -------------------------------------------------------------------------------------------

  /** Where the node that is looked for lies, seen from the child `i`. */
  function Inside(target: Option<Path>, i: nat): Option<Path> {
    if target.Some? && target.value.Child? && target.value.index == i then Some(target.value.below) else None
  }

  /** cJSONUtils_FindPointerFromObjectTo: the first node, in depth-first order, that is the target. */
  function Search(t: Json, target: Option<Path>): Option<Str>
    decreases t
  {
    if target == Some(Here) then Some(End)
    else
      match t
      case Array(items) => SearchItems(items, 0, target)
      case Object(members) => SearchMembers(members, 0, target)
      case _ => None
  }

  function SearchItems(items: Items, i: nat, target: Option<Path>): Option<Str>
    decreases items
  {
    if items.NoItems? then None
    else
      var found := Search(items.head, Inside(target, i));
      if found.Some? then Some(Ch(SLASH, JsonText.DigitsTo(i, found.value))) else SearchItems(items.tail, i + 1, target)
  }

  function SearchMembers(members: Members, i: nat, target: Option<Path>): Option<Str>
    decreases members
  {
    if members.NoMembers? then None
    else
      var found := Search(members.value, Inside(target, i));
      if found.Some? then Some(Ch(SLASH, EncodeTo(members.key, found.value))) else SearchMembers(members.others, i + 1, target)
  }

  lemma {:induction false} SearchNothing(t: Json)
    ensures Search(t, None) == None
    decreases t
  {
    match t
    case Array(items) => ItemsNothing(items, 0, None);
    case Object(members) => MembersNothing(members, 0, None);
    case _ =>
  }

  predicate Before(target: Option<Path>, i: nat) {
    target.None? || target.value.Here? || target.value.index < i
  }

  lemma {:induction false} ItemsNothing(items: Items, i: nat, target: Option<Path>)
    requires Before(target, i)
    ensures SearchItems(items, i, target) == None
    decreases items
  {
    if items.Item? {
      SearchNothing(items.head);
      ItemsNothing(items.tail, i + 1, target);
    }
  }

  lemma {:induction false} MembersNothing(members: Members, i: nat, target: Option<Path>)
    requires Before(target, i)
    ensures SearchMembers(members, i, target) == None
    decreases members
  {
    if members.Member? {
      SearchNothing(members.value);
      MembersNothing(members.others, i + 1, target);
    }
  }

  /** The search finds the pointer to every node. */
  lemma {:induction false} SearchFinds(t: Json, p: Path)
    requires Exists(t, p)
    ensures Search(t, Some(p)) == Some(PointerTo(t, p))
    decreases t
  {
    if p.Child? {
      match t
      case Array(items) => ItemsFind(items, 0, p);
      case Object(members) => MembersFind(members, 0, p);
    }
  }

  lemma {:induction false} ItemsFind(items: Items, i: nat, p: Path)
    requires p.Child? && i <= p.index && ItemAt(items, p.index - i).Some? && Exists(ItemAt(items, p.index - i).value, p.below)
    ensures SearchItems(items, i, Some(p))
         == Some(Ch(SLASH, JsonText.DigitsTo(p.index, PointerTo(ItemAt(items, p.index - i).value, p.below))))
    decreases items
  {
    if i == p.index {
      SearchFinds(items.head, p.below);
    } else {
      SearchNothing(items.head);
      ItemsFind(items.tail, i + 1, p);
    }
  }

  lemma {:induction false} MembersFind(members: Members, i: nat, p: Path)
    requires p.Child? && i <= p.index && MemberAt(members, p.index - i).Some?
    requires Exists(MemberAt(members, p.index - i).value.value, p.below)
    ensures var m := MemberAt(members, p.index - i).value;
      SearchMembers(members, i, Some(p)) == Some(Ch(SLASH, EncodeTo(m.key, PointerTo(m.value, p.below))))
    decreases members
  {
    if i == p.index {
      SearchFinds(members.value, p.below);
    } else {
      SearchNothing(members.value);
      MembersFind(members.others, i + 1, p);
    }
  }

  /** For every node of a tree with unique names, the pointer that is found for it leads back to it, if
      comparing tells the names from each other. */
  lemma PointerInverse(t: Json, p: Path, caseSensitive: bool)
    requires Unique(t) && Exists(t, p) && Told(Names(t), caseSensitive)
    ensures Search(t, Some(p)).Some? && Follow(t, Search(t, Some(p)).value, caseSensitive) == Some(p)
  {
    SearchFinds(t, p);
    FollowPointer(t, p, caseSensitive);
  }

  /** And it is a pointer to that node by the RFC. */
  lemma PointerByRfc(t: Json, p: Path)
    requires Unique(t) && Exists(t, p)
    ensures Search(t, Some(p)).Some? && Evaluate(t, Search(t, Some(p)).value) == Some(p)
  {
    PointerInverse(t, p, true);
    SearchFinds(t, p);
    PointerKeepsOn(t, p);
    FollowIsEvaluate(t, PointerTo(t, p));
  }

  lemma {:induction false} PointerKeepsOn(t: Json, p: Path)
    requires Unique(t) && Exists(t, p)
    ensures !Strays(t, PointerTo(t, p))
    decreases p
  {
    if p.Child? {
      match t
      case Array(items) =>
        var child := ItemAt(items, p.index).value;
        var rest := PointerTo(child, p.below);
        UniqueItem(items, p.index);
        PointerEnds(child, p.below);
        IndexWraps(p.index, rest);
        SkipDigits(p.index, rest);
        PointerKeepsOn(child, p.below);
      case Object(members) =>
        var m := MemberAt(members, p.index).value;
        var rest := PointerTo(m.value, p.below);
        PointerEnds(m.value, p.below);
        FindNamed(members, p.index, rest, 0, true);
        FindIsNamed(members, EncodeTo(m.key, rest), 0);
        SkipEncoded(m.key, rest);
        PointerKeepsOn(m.value, p.below);
    }
  }

  /** The pointers found in all trees over these names lead back. */
  ghost predicate Inverts(names: set<Str>, caseSensitive: bool) {
    forall t, p :: Unique(t) && Names(t) <= names && Exists(t, p) ==>
      Search(t, Some(p)).Some? && Follow(t, Search(t, Some(p)).value, caseSensitive) == Some(p)
  }

  /** They do with case always, and without case if and only if no two names differ only in case. */
  lemma InvertsExactly(names: set<Str>, caseSensitive: bool)
    ensures Inverts(names, caseSensitive) <==> Told(names, caseSensitive)
  {
    if Told(names, caseSensitive) {
      forall t, p | Unique(t) && Names(t) <= names && Exists(t, p)
        ensures Search(t, Some(p)).Some? && Follow(t, Search(t, Some(p)).value, caseSensitive) == Some(p)
      {
        PointerInverse(t, p, caseSensitive);
      }
    } else {
      var k, l :| k in names && l in names && Fold(k) == Fold(l) && k != l;
      WrongNode(k, l);
    }
  }

  /** {k: true, l: true} */
  function TwoNames(k: Str, l: Str): Json {
    Object(Member(k, True, Member(l, True, NoMembers)))
  }

  /** When k and l differ only in case, the pointer to the second member leads to the first without case. */
  lemma WrongNode(k: Str, l: Str)
    requires Fold(k) == Fold(l) && k != l
    ensures var t, p := TwoNames(k, l), Child(1, Here);
      && Unique(t) && Names(t) == {k, l} && Exists(t, p)
      && Search(t, Some(p)).Some? && Follow(t, Search(t, Some(p)).value, false) == Some(Child(0, Here))
  {
    var t, p := TwoNames(k, l), Child(1, Here);
    var last := Member(l, True, NoMembers);
    assert MembersMeaning(NoMembers) == map[] && MemberNames(NoMembers) == {};
    assert MembersMeaning(last) == map[l := TrueValue] && MemberNames(last) == {l} + Names(True) + {};
    assert UniqueMembers(NoMembers) && UniqueMembers(last);
    assert Names(t) == {k} + Names(True) + {l};
    assert MemberAt(last, 0) == Some(Named(l, True));
    assert MemberAt(t.members, 1) == MemberAt(last, 0);
    SearchFinds(t, p);
    assert PointerTo(t, p) == Ch(SLASH, EncodeTo(l, PointerTo(True, Here)));
    MatchesEncoded(k, l, End, false);
    SkipEncoded(l, End);
    assert Follow(True, End, false) == Some(Here);
  }
}
