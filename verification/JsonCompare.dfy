/** compare_json of packages/cJSON-v1.7.17/cJSON_Utils.c: sorting the members of objects and walking
    both values side by side decides whether they mean the same. */
module JsonCompare {
  import opened CString
  import opened Json
  import opened JsonMeaning

  // ---- Sorted members --------------------------------------------------------------------------------

  function Insert(key: Str, value: Json, members: Members, caseSensitive: bool): (r: Members)
    ensures MembersSize(r) == 1 + Size(value) + MembersSize(members)
  {
    if members.NoMembers? || CompareStrings(key, members.key, caseSensitive) <= 0 then Member(key, value, members)
    else Member(members.key, members.value, Insert(key, value, members.others, caseSensitive))
  }

  /** The members in the order of their names. */
  function Sorted(members: Members, caseSensitive: bool): (r: Members)
    ensures MembersSize(r) == MembersSize(members)
  {
    if members.NoMembers? then NoMembers
    else Insert(members.key, members.value, Sorted(members.others, caseSensitive), caseSensitive)
  }

  lemma {:induction false} InsertNames(key: Str, value: Json, members: Members, caseSensitive: bool)
    ensures MemberNames(Insert(key, value, members, caseSensitive)) == {key} + Names(value) + MemberNames(members)
  {
    if members.Member? { InsertNames(key, value, members.others, caseSensitive); }
  }

  lemma {:induction false} SortedKeepsNames(members: Members, caseSensitive: bool)
    ensures MemberNames(Sorted(members, caseSensitive)) == MemberNames(members)
  {
    if members.Member? {
      SortedKeepsNames(members.others, caseSensitive);
      InsertNames(members.key, members.value, Sorted(members.others, caseSensitive), caseSensitive);
    }
  }

  /** Every name comes before those that follow it. */
  predicate Increasing(members: Members, caseSensitive: bool) {
    members.Member? && members.others.Member? ==>
      CompareStrings(members.key, members.others.key, caseSensitive) < 0 && Increasing(members.others, caseSensitive)
  }

  /** Putting in a name that is not there keeps the strict order. */
  lemma {:induction false} InsertIncreasing(key: Str, value: Json, members: Members, caseSensitive: bool)
    requires Increasing(members, caseSensitive) && key !in MembersMeaning(members)
    requires Told({key} + MemberNames(members), caseSensitive)
    ensures Increasing(Insert(key, value, members, caseSensitive), caseSensitive)
  {
    if members.Member? {
      var order := CompareStrings(key, members.key, caseSensitive);
      assert order != 0;
      CompareOpposite(members.key, key, caseSensitive);
      if order > 0 { InsertIncreasing(key, value, members.others, caseSensitive); }
    }
  }

  lemma {:induction false} InsertMeaning(key: Str, value: Json, members: Members, caseSensitive: bool)
    requires UniqueMembers(members) && Unique(value) && key !in MembersMeaning(members)
    ensures var r := Insert(key, value, members, caseSensitive);
      UniqueMembers(r) && MembersMeaning(r) == MembersMeaning(members)[key := Meaning(value)]
  {
    if members.Member? && CompareStrings(key, members.key, caseSensitive) > 0 {
      InsertMeaning(key, value, members.others, caseSensitive);
      PutTwice(MembersMeaning(members.others), key, Meaning(value), members.key, Meaning(members.value));
    }
  }

  lemma PutTwice(m: map<Str, Value>, k: Str, v: Value, l: Str, w: Value)
    requires k != l
    ensures m[k := v][l := w] == m[l := w][k := v]
  {
  }

  /** Sorting keeps the members, and puts them in strict order. */
  lemma {:induction false} SortedMeaning(members: Members, caseSensitive: bool)
    requires UniqueMembers(members) && Told(MemberNames(members), caseSensitive)
    ensures var r := Sorted(members, caseSensitive);
      Increasing(r, caseSensitive) && UniqueMembers(r) && MembersMeaning(r) == MembersMeaning(members)
  {
    if members.Member? {
      SortedMeaning(members.others, caseSensitive);
      SortedKeepsNames(members.others, caseSensitive);
      InsertIncreasing(members.key, members.value, Sorted(members.others, caseSensitive), caseSensitive);
      InsertMeaning(members.key, members.value, Sorted(members.others, caseSensitive), caseSensitive);
    }
  }

  /** A name before the first is not there. */
  lemma {:induction false} BeforeAll(key: Str, members: Members, caseSensitive: bool)
    requires Increasing(members, caseSensitive) && (members.Member? ==> CompareStrings(key, members.key, caseSensitive) < 0)
    ensures key !in MembersMeaning(members)
  {
    if members.Member? {
      if members.others.Member? { CompareTransitive(key, members.key, members.others.key, caseSensitive); }
      BeforeAll(key, members.others, caseSensitive);
    }
  }

  /** A name that is there does not come before the first, and if it is not the first it comes behind. */
  lemma InPlace(key: Str, members: Members, caseSensitive: bool)
    requires Increasing(members, caseSensitive) && key in MembersMeaning(members)
    ensures CompareStrings(members.key, key, caseSensitive) < 0 || members.key == key
  {
    CompareOpposite(members.key, key, caseSensitive);
    if CompareStrings(key, members.key, caseSensitive) < 0 { BeforeAll(key, members, caseSensitive); }
    if key != members.key && members.others.Member? && CompareStrings(key, members.key, caseSensitive) == 0 {
      CompareTransitive(key, members.key, members.others.key, caseSensitive);
      BeforeAll(key, members.others, caseSensitive);
    }
  }

  /** Sorted members are determined by what they mean: sorting a list in any way gives this list. */
  lemma SortedNames(a: Members, b: Members, caseSensitive: bool)
    requires Increasing(a, caseSensitive) && Increasing(b, caseSensitive) && MembersMeaning(a).Keys == MembersMeaning(b).Keys
    ensures a.Member? <==> b.Member?
    ensures a.Member? ==> a.key == b.key && MembersMeaning(a.others).Keys == MembersMeaning(b.others).Keys
  {
    assert a.Member? ==> a.key in MembersMeaning(a).Keys;
    assert b.Member? ==> b.key in MembersMeaning(b).Keys;
    if a.Member? && b.Member? {
      InPlace(a.key, b, caseSensitive);
      InPlace(b.key, a, caseSensitive);
      CompareOpposite(a.key, b.key, caseSensitive);
      FirstOnce(a, caseSensitive);
      FirstOnce(b, caseSensitive);
    }
  }

  /** The first name does not come again. */
  lemma FirstOnce(a: Members, caseSensitive: bool)
    requires a.Member? && Increasing(a, caseSensitive)
    ensures a.key !in MembersMeaning(a.others) && MembersMeaning(a.others).Keys == MembersMeaning(a).Keys - {a.key}
  {
    BeforeAll(a.key, a.others, caseSensitive);
  }

  // ---- compare_json ---------------------------------------------------------------------------------------

  function CompareJson(a: Json, b: Json, caseSensitive: bool): bool
    decreases Size(a), 1
  {
    match (a, b)
    case (Null, Null) => true
    case (False, False) => true
    case (True, True) => true
    case (Number(m), Number(n)) => m == n
    case (String(s), String(t)) => StrCmp(s, t) == 0
    case (Array(x), Array(y)) => CompareItems(x, y, caseSensitive)
    case (Object(x), Object(y)) => CompareMembers(Sorted(x, caseSensitive), Sorted(y, caseSensitive), caseSensitive)
    case _ => false
  }

  function CompareItems(x: Items, y: Items, caseSensitive: bool): bool
    decreases ItemsSize(x), 0
  {
    if x.Item? && y.Item? then
      CompareJson(x.head, y.head, caseSensitive) && CompareItems(x.tail, y.tail, caseSensitive)
    else x.NoItems? && y.NoItems?
  }

  function CompareMembers(x: Members, y: Members, caseSensitive: bool): bool
    decreases MembersSize(x), 0
  {
    if x.Member? && y.Member? then
      && CompareStrings(x.key, y.key, caseSensitive) == 0
      && CompareJson(x.value, y.value, caseSensitive)
      && CompareMembers(x.others, y.others, caseSensitive)
    else x.NoMembers? && y.NoMembers?
  }

  /** compare_json decides equality up to the order of members, at every depth, if it tells the names
      from each other. */
  lemma {:induction false} CompareDecides(a: Json, b: Json, caseSensitive: bool)
    requires Unique(a) && Unique(b) && Told(Names(a) + Names(b), caseSensitive)
    ensures CompareJson(a, b, caseSensitive) <==> Meaning(a) == Meaning(b)
    decreases Size(a), 1
  {
    match (a, b)
    case (Array(x), Array(y)) => ItemsDecide(x, y, caseSensitive);
    case (Object(x), Object(y)) =>
      SortedMeaning(x, caseSensitive);
      SortedMeaning(y, caseSensitive);
      SortedKeepsNames(x, caseSensitive);
      SortedKeepsNames(y, caseSensitive);
      MembersDecide(Sorted(x, caseSensitive), Sorted(y, caseSensitive), caseSensitive);
    case _ =>
  }

  lemma {:induction false} ItemsDecide(x: Items, y: Items, caseSensitive: bool)
    requires UniqueItems(x) && UniqueItems(y) && Told(ItemNames(x) + ItemNames(y), caseSensitive)
    ensures CompareItems(x, y, caseSensitive) <==> ItemsMeaning(x) == ItemsMeaning(y)
    decreases ItemsSize(x), 0
  {
    if x.Item? && y.Item? {
      CompareDecides(x.head, y.head, caseSensitive);
      ItemsDecide(x.tail, y.tail, caseSensitive);
      assert ItemsMeaning(x)[0] == Meaning(x.head) && ItemsMeaning(x)[1..] == ItemsMeaning(x.tail);
      assert ItemsMeaning(y)[0] == Meaning(y.head) && ItemsMeaning(y)[1..] == ItemsMeaning(y.tail);
    }
  }

  lemma {:induction false} MembersDecide(x: Members, y: Members, caseSensitive: bool)
    requires Increasing(x, caseSensitive) && Increasing(y, caseSensitive) && UniqueMembers(x) && UniqueMembers(y)
    requires Told(MemberNames(x) + MemberNames(y), caseSensitive)
    ensures CompareMembers(x, y, caseSensitive) <==> MembersMeaning(x) == MembersMeaning(y)
    decreases MembersSize(x), 0
  {
    if x.Member? && y.Member? {
      CompareDecides(x.value, y.value, caseSensitive);
      MembersDecide(x.others, y.others, caseSensitive);
      NamesDecide(x.key, y.key, MemberNames(x) + MemberNames(y), caseSensitive);
      if MembersMeaning(x) == MembersMeaning(y) {
        SortedNames(x, y, caseSensitive);
        SameTails(x, y);
      }
    } else if x.Member? {
      assert x.key in MembersMeaning(x);
    } else if y.Member? {
      assert y.key in MembersMeaning(y);
    }
  }

  lemma NamesDecide(k: Str, l: Str, names: set<Str>, caseSensitive: bool)
    requires Told(names, caseSensitive) && k in names && l in names
    ensures CompareStrings(k, l, caseSensitive) == 0 <==> k == l
  {
  }

  lemma SameTails(x: Members, y: Members)
    requires x.Member? && y.Member? && UniqueMembers(x) && UniqueMembers(y) && x.key == y.key
    requires MembersMeaning(x) == MembersMeaning(y)
    ensures Meaning(x.value) == Meaning(y.value) && MembersMeaning(x.others) == MembersMeaning(y.others)
  {
    assert MembersMeaning(x)[x.key] == Meaning(x.value);
    assert MembersMeaning(x.others) == MembersMeaning(x) - {x.key};
    assert MembersMeaning(y.others) == MembersMeaning(y) - {y.key};
  }

  // ---- Exactly when case does not matter -----------------------------------------------------------------

  /** {name: value} */
  function One(name: Str, value: Json): Json {
    Object(Member(name, value, NoMembers))
  }

  lemma OneSorted(key: Str, value: Json, caseSensitive: bool)
    ensures Sorted(Member(key, value, NoMembers), caseSensitive) == Member(key, value, NoMembers)
  {
    assert Sorted(NoMembers, caseSensitive) == NoMembers;
  }

  /** Objects with one member compare by its name and its value. */
  lemma CompareOnes(k: Str, l: Str, v: Json, w: Json, caseSensitive: bool)
    ensures CompareJson(One(k, v), One(l, w), caseSensitive) <==> CompareStrings(k, l, caseSensitive) == 0 && CompareJson(v, w, caseSensitive)
  {
    var x, y := Member(k, v, NoMembers), Member(l, w, NoMembers);
    OneSorted(k, v, caseSensitive);
    OneSorted(l, w, caseSensitive);
    assert CompareJson(Object(x), Object(y), caseSensitive) == CompareMembers(x, y, caseSensitive);
    assert CompareMembers(NoMembers, NoMembers, caseSensitive);
  }

  /** Comparison without case decides equality of all values over these names. */
  ghost predicate Decides(names: set<Str>) {
    forall a, b :: Unique(a) && Unique(b) && Names(a) + Names(b) <= names ==>
      (CompareJson(a, b, false) <==> Meaning(a) == Meaning(b))
  }

  /** It does so if and only if no two of the names differ only in case. */
  lemma DecidesExactly(names: set<Str>)
    ensures Decides(names) <==> Apart(names)
  {
    if Apart(names) {
      forall a, b | Unique(a) && Unique(b) && Names(a) + Names(b) <= names
        ensures CompareJson(a, b, false) <==> Meaning(a) == Meaning(b)
      {
        CompareDecides(a, b, false);
      }
    } else {
      var k, l :| k in names && l in names && Fold(k) == Fold(l) && k != l;
      CompareOnes(k, l, True, True, false);
      OneMeaning(k, l, True, True);
      OneMeaning(l, k, True, True);
    }
  }

  lemma OneMeaning(k: Str, l: Str, v: Json, w: Json)
    ensures Unique(v) ==> Unique(One(k, v))
    ensures Names(One(k, v)) == {k} + Names(v)
    ensures Meaning(One(k, v)) == ObjectValue(map[k := Meaning(v)])
    ensures Meaning(One(k, v)) == Meaning(One(l, w)) <==> k == l && Meaning(v) == Meaning(w)
  {
    assert MembersMeaning(NoMembers) == map[] && MemberNames(NoMembers) == {};
    var m, n := map[k := Meaning(v)], map[l := Meaning(w)];
    assert MembersMeaning(Member(k, v, NoMembers)) == m && MembersMeaning(Member(l, w, NoMembers)) == n;
    assert k in m && m[k] == Meaning(v) && l in n && n[l] == Meaning(w);
  }
}
