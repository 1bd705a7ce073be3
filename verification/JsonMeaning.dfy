/** What a JSON value means: an object is a map, so the order of its members does not matter. */
module JsonMeaning {
  import opened Basics
  import opened CString
  import opened Json

  datatype Value =
    | NullValue
    | FalseValue
    | TrueValue
    | NumberValue(n: int)
    | StringValue(s: Str)
    | ArrayValue(items: seq<Value>)
    | ObjectValue(members: map<Str, Value>)

  function Meaning(t: Json): Value {
    match t
    case Null => NullValue
    case False => FalseValue
    case True => TrueValue
    case Number(n) => NumberValue(n)
    case String(s) => StringValue(s)
    case Array(items) => ArrayValue(ItemsMeaning(items))
    case Object(members) => ObjectValue(MembersMeaning(members))
  }

  function ItemsMeaning(items: Items): seq<Value> {
    match items
    case NoItems => []
    case Item(head, tail) => [Meaning(head)] + ItemsMeaning(tail)
  }

  function MembersMeaning(members: Members): map<Str, Value> {
    match members
    case NoMembers => map[]
    case Member(key, value, others) => MembersMeaning(others)[key := Meaning(value)]
  }

  /** No object has two members with the same name. */
  predicate Unique(t: Json) {
    match t
    case Array(items) => UniqueItems(items)
    case Object(members) => UniqueMembers(members)
    case _ => true
  }

  predicate UniqueItems(items: Items) {
    items.Item? ==> Unique(items.head) && UniqueItems(items.tail)
  }

  predicate UniqueMembers(members: Members) {
    members.Member? ==>
      && members.key !in MembersMeaning(members.others)
      && Unique(members.value)
      && UniqueMembers(members.others)
  }

  // ---- Sizes, for termination --------------------------------------------------------------------

  function Size(t: Json): nat {
    match t
    case Array(items) => 1 + ItemsSize(items)
    case Object(members) => 1 + MembersSize(members)
    case _ => 1
  }

  function ItemsSize(items: Items): nat {
    if items.NoItems? then 0 else 1 + Size(items.head) + ItemsSize(items.tail)
  }

  function MembersSize(members: Members): nat {
    if members.NoMembers? then 0 else 1 + Size(members.value) + MembersSize(members.others)
  }

  // ---- Looking up, detaching and adding members -----------------------------------------------------

  /** get_object_item: the first member of that name. */
  function Find(members: Members, key: Str, caseSensitive: bool): (r: Option<Json>)
    ensures caseSensitive ==> (r.Some? <==> key in MembersMeaning(members))
    ensures caseSensitive && r.Some? ==> Meaning(r.value) == MembersMeaning(members)[key]
    ensures r.Some? && UniqueMembers(members) ==> Unique(r.value)
  {
    if members.NoMembers? then None
    else if CompareStrings(key, members.key, caseSensitive) == 0 then Some(members.value)
    else Find(members.others, key, caseSensitive)
  }

  /** cJSON_DetachItemFromObject and its case-sensitive variant: what is left when the first member of
      that name goes. */
  function Remove(members: Members, key: Str, caseSensitive: bool): (r: Members)
    ensures caseSensitive && UniqueMembers(members) ==> UniqueMembers(r) && MembersMeaning(r) == MembersMeaning(members) - {key}
  {
    if members.NoMembers? then NoMembers
    else if CompareStrings(key, members.key, caseSensitive) == 0 then members.others
    else Member(members.key, members.value, Remove(members.others, key, caseSensitive))
  }

  /** cJSON_AddItemToObject: the new member goes to the end. */
  function Add(members: Members, key: Str, value: Json): (r: Members)
    ensures UniqueMembers(members) && Unique(value) && key !in MembersMeaning(members) ==>
      UniqueMembers(r) && MembersMeaning(r) == MembersMeaning(members)[key := Meaning(value)]
  {
    if members.NoMembers? then Member(key, value, NoMembers)
    else Member(members.key, members.value, Add(members.others, key, value))
  }

  // ---- The order of names ------------------------------------------------------------------------------

  /** strcmp: -1, 0 or 1 for the sign of what it returns. */
  function StrCmp(a: Str, b: Str): (r: int)
    ensures -1 <= r <= 1
    ensures r == 0 <==> a == b
  {
    if a.End? then (if b.End? then 0 else -1)
    else if b.End? then 1
    else if a.c < b.c then -1
    else if a.c > b.c then 1
    else StrCmp(a.rest, b.rest)
  }

  lemma {:induction false} StrCmpOpposite(a: Str, b: Str)
    ensures StrCmp(b, a) == -StrCmp(a, b)
  {
    if a.Ch? && b.Ch? && a.c == b.c { StrCmpOpposite(a.rest, b.rest); }
  }

  lemma {:induction false} StrCmpTransitive(a: Str, b: Str, c: Str)
    requires StrCmp(a, b) < 0 && StrCmp(b, c) < 0
    ensures StrCmp(a, c) < 0
  {
    if a.Ch? && b.Ch? && c.Ch? && a.c == b.c == c.c { StrCmpTransitive(a.rest, b.rest, c.rest); }
  }

  function ToLower(c: byte): byte {
    if 65 <= c <= 90 then c + 32 else c
  }

  const UPPER: string := "ABCDEFGHIJKLMNOPQRSTUVWXYZ"
  const LOWER: string := "abcdefghijklmnopqrstuvwxyz"

  lemma LetterAt(i: nat)
    requires i < 26
    ensures UPPER[i] as int == 65 + i && LOWER[i] as int == 97 + i
  {
    assert i == 0 || i == 1 || i == 2 || i == 3 || i == 4 || i == 5 || i == 6 || i == 7 || i == 8 || i == 9 || i == 10 || i == 11
      || i == 12 || i == 13 || i == 14 || i == 15 || i == 16 || i == 17 || i == 18 || i == 19 || i == 20 || i == 21 || i == 22
      || i == 23 || i == 24 || i == 25;
  }

  /** Each of the 26 letters becomes the small letter in the same place of the alphabet; nothing else changes. */
  lemma LettersFold(c: byte)
    ensures forall i :: 0 <= i < 26 && UPPER[i] as int == c ==> ToLower(c) == LOWER[i] as int
    ensures (forall i :: 0 <= i < 26 ==> UPPER[i] as int != c) ==> ToLower(c) == c
  {
    forall i | 0 <= i < 26 ensures UPPER[i] as int == 65 + i && LOWER[i] as int == 97 + i { LetterAt(i); }
    if 65 <= c <= 90 { assert UPPER[c - 65] as int == c; }
  }

  /** The first byte in which two strings differ decides, and a string comes before what it is the beginning of. */
  lemma {:induction false} FirstDifference(start: Str, x: byte, a: Str, y: byte, b: Str)
    requires x < y
    ensures StrCmp(Append(start, Ch(x, a)), Append(start, Ch(y, b))) == -1
    ensures StrCmp(Append(start, Ch(y, b)), Append(start, Ch(x, a))) == 1
    ensures StrCmp(start, Append(start, Ch(x, a))) == -1 && StrCmp(Append(start, Ch(x, a)), start) == 1
  {
    if start.Ch? { FirstDifference(start.rest, x, a, y, b); }
  }

  function Fold(s: Str): Str {
    if s.End? then End else Ch(ToLower(s.c), Fold(s.rest))
  }

  /** compare_strings. */
  function CompareStrings(a: Str, b: Str, caseSensitive: bool): int {
    if caseSensitive then StrCmp(a, b) else StrCmp(Fold(a), Fold(b))
  }

  lemma CompareOpposite(a: Str, b: Str, caseSensitive: bool)
    ensures CompareStrings(b, a, caseSensitive) == -CompareStrings(a, b, caseSensitive)
  {
    if caseSensitive { StrCmpOpposite(a, b); } else { StrCmpOpposite(Fold(a), Fold(b)); }
  }

  lemma CompareTransitive(a: Str, b: Str, c: Str, caseSensitive: bool)
    requires CompareStrings(a, b, caseSensitive) <= 0 && CompareStrings(b, c, caseSensitive) < 0
    ensures CompareStrings(a, c, caseSensitive) < 0
  {
    var s, t, u := if caseSensitive then a else Fold(a), if caseSensitive then b else Fold(b), if caseSensitive then c else Fold(c);
    if s != t { StrCmpTransitive(s, t, u); }
  }

  // ---- The names in a value ------------------------------------------------------------------------------

  /** All names of members, at any depth. */
  function Names(t: Json): set<Str> {
    match t
    case Array(items) => ItemNames(items)
    case Object(members) => MemberNames(members)
    case _ => {}
  }

  function ItemNames(items: Items): set<Str> {
    if items.NoItems? then {} else Names(items.head) + ItemNames(items.tail)
  }

  function MemberNames(members: Members): set<Str> {
    if members.NoMembers? then {} else {members.key} + Names(members.value) + MemberNames(members.others)
  }

  /** No two of the names differ only in case. */
  predicate Apart(names: set<Str>) {
    forall k, l :: k in names && l in names && Fold(k) == Fold(l) ==> k == l
  }

  /** Comparing tells all names from each other. */
  predicate Told(names: set<Str>, caseSensitive: bool) {
    caseSensitive || Apart(names)
  }

  /** Any two of the names compare in the same way with case and without. */
  predicate OrderKept(names: set<Str>) {
    forall k, l :: k in names && l in names ==> StrCmp(Fold(k), Fold(l)) == StrCmp(k, l)
  }

  lemma KeptIsApart(names: set<Str>)
    requires OrderKept(names)
    ensures Apart(names)
  {
    forall k, l | k in names && l in names && Fold(k) == Fold(l) ensures k == l {
      assert StrCmp(Fold(k), Fold(l)) == StrCmp(k, l);
    }
  }

  predicate LowerName(s: Str) {
    s.Ch? ==> !(65 <= s.c <= 90) && LowerName(s.rest)
  }

  lemma {:induction false} FoldLower(s: Str)
    requires LowerName(s)
    ensures Fold(s) == s
  {
    if s.Ch? { FoldLower(s.rest); }
  }

  /** In particular, names without upper-case letters do. */
  lemma LowerIsKept(names: set<Str>)
    requires forall k :: k in names ==> LowerName(k)
    ensures OrderKept(names)
  {
    forall k | k in names ensures Fold(k) == k { FoldLower(k); }
  }
}
