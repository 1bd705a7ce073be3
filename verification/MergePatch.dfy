/** JSON Merge Patch: merge_patch and generate_merge_patch of packages/cJSON-v1.7.17/cJSON_Utils.c
    against section 2 of RFC 7396. */
module MergePatch {
  import opened Basics
  import opened CString
  import opened Json
  import opened JsonMeaning
  import opened JsonCompare

  // ---- RFC 7396 -------------------------------------------------------------------------------------

  /** The members of the target; anything but an object counts as an empty one. */
  function Base(target: Option<Value>): map<Str, Value> {
    if target.Some? && target.value.ObjectValue? then target.value.members else map[]
  }

  function Get(m: map<Str, Value>, key: Str): Option<Value> {
    if key in m then Some(m[key]) else None
  }

  /** MergePatch(Target, Patch). */
  function Patched(target: Option<Value>, patch: Value): Value
    decreases patch
  {
    if !patch.ObjectValue? then patch
    else
      var base := Base(target);
      ObjectValue(map k | k in base.Keys + patch.members.Keys && !(k in patch.members && patch.members[k] == NullValue) ::
        if k in patch.members then Patched(Get(base, k), patch.members[k]) else base[k])
  }

  // ---- merge_patch --------------------------------------------------------------------------------------

  function TargetMembers(target: Option<Json>): Members {
    if target.Some? && target.value.Object? then target.value.members else NoMembers
  }

  function Merge(target: Option<Json>, patch: Json, caseSensitive: bool): Json
    decreases patch, 0
  {
    if !patch.Object? then patch
    else Object(MergeMembers(TargetMembers(target), patch.members, caseSensitive))
  }

  /** The loop over the members of the patch. */
  function MergeMembers(members: Members, patch: Members, caseSensitive: bool): Members
    decreases patch, 0
  {
    match patch
    case NoMembers => members
    case Member(key, value, others) => MergeMembers(MergeMember(members, key, value, caseSensitive), others, caseSensitive)
  }

  function MergeMember(members: Members, key: Str, value: Json, caseSensitive: bool): Members
    decreases value, 1
  {
    if value.Null? then Remove(members, key, caseSensitive)
    else Add(Remove(members, key, caseSensitive), key, Merge(Find(members, key, caseSensitive), value, caseSensitive))
  }

  /** merge_patch as it edits the target member by member. */
  method MergeInto(target: Option<Json>, patch: Json, caseSensitive: bool) returns (r: Json)
    ensures r == Merge(target, patch, caseSensitive)
    decreases patch
  {
    if !patch.Object? { return patch; }
    var members := TargetMembers(target);
    var child := patch.members;
    while child.Member?
      invariant child == patch.members || child < patch.members
      invariant MergeMembers(members, child, caseSensitive) == MergeMembers(TargetMembers(target), patch.members, caseSensitive)
      decreases child
    {
      if child.value.Null? {
        members := Remove(members, child.key, caseSensitive);
      } else {
        var replaceMe := Find(members, child.key, caseSensitive);
        members := Remove(members, child.key, caseSensitive);
        var replacement := MergeInto(replaceMe, child.value, caseSensitive);
        members := Add(members, child.key, replacement);
      }
      child := child.others;
    }
    r := Object(members);
  }

  function MeaningOf(t: Option<Json>): Option<Value> {
    if t.Some? then Some(Meaning(t.value)) else None
  }

  predicate UniqueOption(t: Option<Json>) {
    t.Some? ==> Unique(t.value)
  }

  lemma NullMeaning(t: Json)
    ensures Meaning(t) == NullValue <==> t.Null?
  {
  }

  /** merge_patch, when it respects case, computes the MergePatch function of RFC 7396, as a map at
      every depth. */
  lemma {:induction false} MergeIsPatched(target: Option<Json>, patch: Json)
    requires UniqueOption(target) && Unique(patch)
    ensures Meaning(Merge(target, patch, true)) == Patched(MeaningOf(target), Meaning(patch))
    ensures Unique(Merge(target, patch, true))
    decreases patch
  {
    if patch.Object? {
      MergeMembersIsPatched(TargetMembers(target), patch.members);
      assert MembersMeaning(TargetMembers(target)) == Base(MeaningOf(target));
    }
  }

  function PatchedMembers(base: map<Str, Value>, patch: map<Str, Value>): map<Str, Value> {
    Patched(Some(ObjectValue(base)), ObjectValue(patch)).members
  }

  lemma {:induction false} MergeMembersIsPatched(members: Members, patch: Members)
    requires UniqueMembers(members) && UniqueMembers(patch)
    ensures MembersMeaning(MergeMembers(members, patch, true)) == PatchedMembers(MembersMeaning(members), MembersMeaning(patch))
    ensures UniqueMembers(MergeMembers(members, patch, true))
    decreases patch
  {
    if patch.Member? {
      var next := MergeMember(members, patch.key, patch.value, true);
      if !patch.value.Null? { MergeIsPatched(Find(members, patch.key, true), patch.value); }
      NullMeaning(patch.value);
      assert UniqueMembers(next);
      MergeMembersIsPatched(next, patch.others);
      OneMember(MembersMeaning(members), patch.key, Meaning(patch.value), MembersMeaning(patch.others), MembersMeaning(next));
    } else {
      assert PatchedMembers(MembersMeaning(members), map[]) == MembersMeaning(members);
    }
  }

  /** Patching with one member and then with the others is patching with all of them. */
  lemma OneMember(base: map<Str, Value>, key: Str, value: Value, others: map<Str, Value>, next: map<Str, Value>)
    requires key !in others
    requires next == if value == NullValue then base - {key} else base[key := Patched(Get(base, key), value)]
    ensures PatchedMembers(base, others[key := value]) == PatchedMembers(next, others)
  {
    var a, b := PatchedMembers(base, others[key := value]), PatchedMembers(next, others);
    assert a.Keys == b.Keys;
    forall k | k in a ensures a[k] == b[k] {
      if k != key { assert Get(base, k) == Get(next, k); }
    }
  }

  // ---- merge_patch without regard to case ---------------------------------------------------------------

  function OptionNames(t: Option<Json>): set<Str> {
    if t.Some? then Names(t.value) else {}
  }

  lemma {:induction false} FindCase(members: Members, key: Str, names: set<Str>)
    requires Apart(names) && key in names && MemberNames(members) <= names
    ensures Find(members, key, false) == Find(members, key, true)
    ensures OptionNames(Find(members, key, true)) <= MemberNames(members)
  {
    if members.Member? {
      NamesDecide(key, members.key, names, false);
      FindCase(members.others, key, names);
    }
  }

  lemma {:induction false} RemoveCase(members: Members, key: Str, names: set<Str>)
    requires Apart(names) && key in names && MemberNames(members) <= names
    ensures Remove(members, key, false) == Remove(members, key, true)
    ensures MemberNames(Remove(members, key, true)) <= MemberNames(members)
  {
    if members.Member? {
      NamesDecide(key, members.key, names, false);
      RemoveCase(members.others, key, names);
    }
  }

  lemma {:induction false} AddNames(members: Members, key: Str, value: Json)
    ensures MemberNames(Add(members, key, value)) == MemberNames(members) + {key} + Names(value)
  {
    if members.Member? { AddNames(members.others, key, value); }
  }

  /** Where no two names differ only in case, merging is the same with case and without. */
  lemma {:induction false} MergeCase(target: Option<Json>, patch: Json, names: set<Str>)
    requires Apart(names) && OptionNames(target) <= names && Names(patch) <= names
    ensures Merge(target, patch, false) == Merge(target, patch, true)
    ensures Names(Merge(target, patch, true)) <= names
    decreases patch
  {
    if patch.Object? { MergeMembersCase(TargetMembers(target), patch.members, names); }
  }

  lemma {:induction false} MergeMembersCase(members: Members, patch: Members, names: set<Str>)
    requires Apart(names) && MemberNames(members) <= names && MemberNames(patch) <= names
    ensures MergeMembers(members, patch, false) == MergeMembers(members, patch, true)
    ensures MemberNames(MergeMembers(members, patch, true)) <= names
    decreases patch
  {
    if patch.Member? {
      var found := Find(members, patch.key, true);
      FindCase(members, patch.key, names);
      RemoveCase(members, patch.key, names);
      if !patch.value.Null? {
        MergeCase(found, patch.value, names);
        AddNames(Remove(members, patch.key, true), patch.key, Merge(found, patch.value, true));
      }
      MergeMembersCase(MergeMember(members, patch.key, patch.value, true), patch.others, names);
    }
  }

  /** merge_patch follows RFC 7396 on all values over these names. */
  ghost predicate Follows(names: set<Str>, caseSensitive: bool) {
    forall target, patch :: UniqueOption(target) && Unique(patch) && OptionNames(target) + Names(patch) <= names ==>
      Meaning(Merge(target, patch, caseSensitive)) == Patched(MeaningOf(target), Meaning(patch))
  }

  /** It does with case always, and without case if and only if no two names differ only in case. */
  lemma FollowsExactly(names: set<Str>, caseSensitive: bool)
    ensures Follows(names, caseSensitive) <==> Told(names, caseSensitive)
  {
    if Told(names, caseSensitive) {
      forall target, patch | UniqueOption(target) && Unique(patch) && OptionNames(target) + Names(patch) <= names
        ensures Meaning(Merge(target, patch, caseSensitive)) == Patched(MeaningOf(target), Meaning(patch))
      {
        if !caseSensitive { MergeCase(target, patch, names); }
        MergeIsPatched(target, patch);
      }
    } else {
      var k, l :| k in names && l in names && Fold(k) == Fold(l) && k != l;
      WrongMember(k, l);
      OneMeaning(k, k, True, True);
      OneMeaning(l, l, True, True);
      assert OptionNames(Some(One(k, True))) + Names(One(l, True)) <= names;
    }
  }

  /** Patching {k: true} with {l: true} must keep k; without case it goes when k differs from l in case only. */
  lemma WrongMember(k: Str, l: Str)
    requires Fold(k) == Fold(l) && k != l
    ensures Merge(Some(One(k, True)), One(l, True), false) == One(l, True)
    ensures Meaning(One(l, True)) != Patched(MeaningOf(Some(One(k, True))), Meaning(One(l, True)))
  {
    var kept, patch := Member(k, True, NoMembers), Member(l, True, NoMembers);
    assert Remove(kept, l, false) == NoMembers;
    assert MergeMember(kept, l, True, false) == patch;
    assert MergeMembers(kept, patch, false) == MergeMembers(patch, NoMembers, false);
    OneMeaning(k, l, True, True);
    OneMeaning(l, k, True, True);
    assert k in Base(MeaningOf(Some(One(k, True))));
  }

  // ---- generate_merge_patch -----------------------------------------------------------------------------

  /** The patch from `source` to `goal`; None when nothing differs. Below the first level names are
      compared without regard to case, whatever `caseSensitive` says. */
  function Generate(source: Json, goal: Json, caseSensitive: bool): Option<Json>
    decreases Size(source) + Size(goal)
  {
    if !goal.Object? || !source.Object? then Some(goal)
    else
      var patch := Differences(Sorted(source.members, caseSensitive), Sorted(goal.members, caseSensitive), caseSensitive);
      if patch.NoMembers? then None else Some(Object(patch))
  }

  /** The loop over both sorted lists. */
  function Differences(source: Members, goal: Members, caseSensitive: bool): Members
    decreases MembersSize(source) + MembersSize(goal)
  {
    if source.NoMembers? && goal.NoMembers? then NoMembers
    else if goal.NoMembers? || (source.Member? && StrCmp(source.key, goal.key) < 0) then
      Member(source.key, Null, Differences(source.others, goal, caseSensitive))
    else if source.NoMembers? || StrCmp(source.key, goal.key) > 0 then
      Member(goal.key, goal.value, Differences(source, goal.others, caseSensitive))
    else
      var more := Differences(source.others, goal.others, caseSensitive);
      if CompareJson(source.value, goal.value, caseSensitive) then more
      else
        match Generate(source.value, goal.value, false)
        case None => more
        case Some(patch) => Member(goal.key, patch, more)
  }

  function Join(a: Members, b: Members): Members {
    if a.NoMembers? then b else Member(a.key, a.value, Join(a.others, b))
  }

  lemma {:induction false} JoinAdd(a: Members, key: Str, value: Json, b: Members)
    ensures Join(Add(a, key, value), b) == Join(a, Member(key, value, b))
  {
    if a.Member? { JoinAdd(a.others, key, value, b); }
  }

  lemma {:induction false} JoinNothing(a: Members)
    ensures Join(a, NoMembers) == a
  {
    if a.Member? { JoinNothing(a.others); }
  }

  /** generate_merge_patch as it walks both objects and adds to the patch. */
  method GeneratePatch(source: Json, goal: Json, caseSensitive: bool) returns (r: Option<Json>)
    ensures r == Generate(source, goal, caseSensitive)
    decreases Size(source) + Size(goal)
  {
    if !goal.Object? || !source.Object? { return Some(goal); }
    var f, t := Sorted(source.members, caseSensitive), Sorted(goal.members, caseSensitive);
    ghost var all := Differences(f, t, caseSensitive);
    var patch := NoMembers;
    while f.Member? || t.Member?
      invariant MembersSize(f) <= MembersSize(source.members) && MembersSize(t) <= MembersSize(goal.members)
      invariant Join(patch, Differences(f, t, caseSensitive)) == all
      decreases MembersSize(f) + MembersSize(t)
    {
      var diff := if f.NoMembers? then 1 else if t.NoMembers? then -1 else StrCmp(f.key, t.key);
      ghost var before := patch;
      if diff < 0 {
        JoinAdd(patch, f.key, Null, Differences(f.others, t, caseSensitive));
        patch := Add(patch, f.key, Null);
        f := f.others;
      } else if diff > 0 {
        JoinAdd(patch, t.key, t.value, Differences(f, t.others, caseSensitive));
        patch := Add(patch, t.key, t.value);
        t := t.others;
      } else {
        if !CompareJson(f.value, t.value, caseSensitive) {
          var inner := GeneratePatch(f.value, t.value, false);
          if inner.Some? {
            JoinAdd(patch, t.key, inner.value, Differences(f.others, t.others, caseSensitive));
            patch := Add(patch, t.key, inner.value);
          }
        }
        f, t := f.others, t.others;
      }
    }
    JoinNothing(patch);
    r := if patch.NoMembers? then None else Some(Object(patch));
  }

  // ---- The same on meanings -------------------------------------------------------------------------------

  /** What a patch has to say: members that go, that come and that differ. */
  function Difference(source: Value, goal: Value): Option<Value>
    decreases goal
  {
    if !goal.ObjectValue? || !source.ObjectValue? then Some(goal)
    else
      var (f, t) := (source.members, goal.members);
      var patch := (map k | k in f.Keys + t.Keys && Get(f, k) != Get(t, k) && !(k in f && k in t && Difference(f[k], t[k]).None?) ::
        if k !in t then NullValue else if k !in f then t[k] else Difference(f[k], t[k]).value);
      if patch == map[] then None else Some(ObjectValue(patch))
  }

  function DifferenceMembers(source: map<Str, Value>, goal: map<Str, Value>): map<Str, Value> {
    var patch := Difference(ObjectValue(source), ObjectValue(goal));
    if patch.None? then map[] else patch.value.members
  }

  /** Nothing to say means nothing differs. */
  lemma {:induction false} NoDifference(source: Value, goal: Value)
    requires Difference(source, goal).None?
    ensures source == goal
    decreases goal
  {
    var f, t := source.members, goal.members;
    var patch := (map k | k in f.Keys + t.Keys && Get(f, k) != Get(t, k) && !(k in f && k in t && Difference(f[k], t[k]).None?) ::
      if k !in t then NullValue else if k !in f then t[k] else Difference(f[k], t[k]).value);
    assert patch == map[];
    forall k ensures Get(f, k) == Get(t, k) {
      assert k !in patch;
      if k in f && k in t && Difference(f[k], t[k]).None? { NoDifference(f[k], t[k]); }
    }
    SameMap(f, t);
  }

  /** One member of a patch, if there is one. */
  function DifferenceAt(source: Option<Value>, goal: Option<Value>): Option<Value> {
    if source == goal then None
    else if goal.None? then Some(NullValue)
    else if source.None? then goal
    else Difference(source.value, goal.value)
  }

  lemma DifferenceGet(source: map<Str, Value>, goal: map<Str, Value>, k: Str)
    ensures Get(DifferenceMembers(source, goal), k) == DifferenceAt(Get(source, k), Get(goal, k))
  {
    if k in source && k in goal && Difference(source[k], goal[k]).None? { NoDifference(source[k], goal[k]); }
  }

  lemma SameMap(a: map<Str, Value>, b: map<Str, Value>)
    requires forall k :: Get(a, k) == Get(b, k)
    ensures a == b
  {
    forall k ensures (k in a <==> k in b) && (k in a ==> a[k] == b[k]) { assert Get(a, k) == Get(b, k); }
  }

  /** The difference one member at a time. */
  lemma DifferenceStep(source: map<Str, Value>, goal: map<Str, Value>, key: Str, f: Option<Value>, t: Option<Value>)
    requires key !in source && key !in goal
    ensures Put(DifferenceMembers(source, goal), key, DifferenceAt(f, t)) == DifferenceMembers(Put(source, key, f), Put(goal, key, t))
  {
    var a, b := Put(DifferenceMembers(source, goal), key, DifferenceAt(f, t)), DifferenceMembers(Put(source, key, f), Put(goal, key, t));
    forall k ensures Get(a, k) == Get(b, k) {
      DifferenceGet(source, goal, k);
      DifferenceGet(Put(source, key, f), Put(goal, key, t), k);
    }
    SameMap(a, b);
  }

  function Put(m: map<Str, Value>, key: Str, value: Option<Value>): map<Str, Value> {
    if value.Some? then m[key := value.value] else m
  }

  lemma {:induction false} IncreasingKept(members: Members, names: set<Str>, caseSensitive: bool)
    requires OrderKept(names) && MemberNames(members) <= names && Increasing(members, caseSensitive)
    ensures Increasing(members, true)
  {
    if members.Member? { IncreasingKept(members.others, names, caseSensitive); }
  }

  /** A patch has no names but those of its arguments. */
  lemma {:induction false} GenerateNames(source: Json, goal: Json, caseSensitive: bool)
    ensures OptionNames(Generate(source, goal, caseSensitive)) <= Names(source) + Names(goal)
    decreases Size(source) + Size(goal)
  {
    if goal.Object? && source.Object? {
      SortedKeepsNames(source.members, caseSensitive);
      SortedKeepsNames(goal.members, caseSensitive);
      DifferencesNames(Sorted(source.members, caseSensitive), Sorted(goal.members, caseSensitive), caseSensitive);
    }
  }

  lemma {:induction false} DifferencesNames(source: Members, goal: Members, caseSensitive: bool)
    ensures MemberNames(Differences(source, goal, caseSensitive)) <= MemberNames(source) + MemberNames(goal)
    decreases MembersSize(source) + MembersSize(goal)
  {
    if source.NoMembers? && goal.NoMembers? {
    } else if goal.NoMembers? || (source.Member? && StrCmp(source.key, goal.key) < 0) {
      DifferencesNames(source.others, goal, caseSensitive);
    } else if source.NoMembers? || StrCmp(source.key, goal.key) > 0 {
      DifferencesNames(source, goal.others, caseSensitive);
    } else {
      DifferencesNames(source.others, goal.others, caseSensitive);
      GenerateNames(source.value, goal.value, false);
    }
  }

  /** The generated patch means the difference of what its arguments mean, if case does not change the
      order of their names. */
  lemma {:induction false} GenerateMeaning(source: Json, goal: Json, names: set<Str>, caseSensitive: bool)
    requires Unique(source) && Unique(goal) && OrderKept(names) && Names(source) + Names(goal) <= names
    ensures MeaningOf(Generate(source, goal, caseSensitive)) == Difference(Meaning(source), Meaning(goal))
    ensures UniqueOption(Generate(source, goal, caseSensitive))
    decreases Size(source) + Size(goal), 0
  {
    if goal.Object? && source.Object? {
      var s, g := Sorted(source.members, caseSensitive), Sorted(goal.members, caseSensitive);
      SortedIsKept(source.members, names, caseSensitive);
      SortedIsKept(goal.members, names, caseSensitive);
      DifferencesMeaning(s, g, names, caseSensitive);
      var patch := Differences(s, g, caseSensitive);
      assert patch.Member? ==> patch.key in MembersMeaning(patch);
    }
  }

  lemma SortedIsKept(members: Members, names: set<Str>, caseSensitive: bool)
    requires UniqueMembers(members) && OrderKept(names) && MemberNames(members) <= names
    ensures var r := Sorted(members, caseSensitive);
      && Increasing(r, true) && UniqueMembers(r)
      && MembersMeaning(r) == MembersMeaning(members) && MemberNames(r) == MemberNames(members)
  {
    KeptIsApart(names);
    SortedMeaning(members, caseSensitive);
    SortedKeepsNames(members, caseSensitive);
    IncreasingKept(Sorted(members, caseSensitive), names, caseSensitive);
  }

  lemma {:induction false} DifferencesMeaning(source: Members, goal: Members, names: set<Str>, caseSensitive: bool)
    requires Increasing(source, true) && UniqueMembers(source) && Increasing(goal, true) && UniqueMembers(goal)
    requires OrderKept(names) && MemberNames(source) + MemberNames(goal) <= names
    ensures MembersMeaning(Differences(source, goal, caseSensitive)) == DifferenceMembers(MembersMeaning(source), MembersMeaning(goal))
    ensures UniqueMembers(Differences(source, goal, caseSensitive))
    decreases MembersSize(source) + MembersSize(goal), 0
  {
    var sm, gm := MembersMeaning(source), MembersMeaning(goal);
    if source.NoMembers? && goal.NoMembers? {
      assert DifferenceMembers(sm, gm) == map[];
    } else if goal.NoMembers? || (source.Member? && StrCmp(source.key, goal.key) < 0) {
      BeforeAll(source.key, goal, true);
      DifferencesMeaning(source.others, goal, names, caseSensitive);
      DifferenceStep(MembersMeaning(source.others), gm, source.key, Some(Meaning(source.value)), None);
      DifferenceGet(MembersMeaning(source.others), gm, source.key);
    } else if source.NoMembers? || StrCmp(source.key, goal.key) > 0 {
      if source.Member? { StrCmpOpposite(source.key, goal.key); }
      BeforeAll(goal.key, source, true);
      DifferencesMeaning(source, goal.others, names, caseSensitive);
      DifferenceStep(sm, MembersMeaning(goal.others), goal.key, None, Some(Meaning(goal.value)));
      DifferenceGet(sm, MembersMeaning(goal.others), goal.key);
    } else {
      DifferencesMeaning(source.others, goal.others, names, caseSensitive);
      SameName(source, goal, names, caseSensitive);
    }
  }

  /** A name that both objects have. */
  lemma {:induction false} SameName(source: Members, goal: Members, names: set<Str>, caseSensitive: bool)
    requires source.Member? && UniqueMembers(source) && goal.Member? && UniqueMembers(goal) && source.key == goal.key
    requires OrderKept(names) && Names(source.value) + Names(goal.value) <= names
    requires var more := Differences(source.others, goal.others, caseSensitive);
      && MembersMeaning(more) == DifferenceMembers(MembersMeaning(source.others), MembersMeaning(goal.others))
      && UniqueMembers(more)
    ensures MembersMeaning(Differences(source, goal, caseSensitive)) == DifferenceMembers(MembersMeaning(source), MembersMeaning(goal))
    ensures UniqueMembers(Differences(source, goal, caseSensitive))
    decreases Size(source.value) + Size(goal.value), 1
  {
    var key, so, go := source.key, MembersMeaning(source.others), MembersMeaning(goal.others);
    DifferenceStep(so, go, key, Some(Meaning(source.value)), Some(Meaning(goal.value)));
    DifferenceGet(so, go, key);
    KeptIsApart(names);
    CompareDecides(source.value, goal.value, caseSensitive);
    GenerateMeaning(source.value, goal.value, names, false);
    if Difference(Meaning(source.value), Meaning(goal.value)).None? {
      NoDifference(Meaning(source.value), Meaning(goal.value));
    }
  }

  // ---- Applying what was generated -----------------------------------------------------------------------

  /** No member that can be reached through objects is null. */
  predicate Whole(v: Value) {
    v.ObjectValue? ==> forall k :: k in v.members ==> v.members[k] != NullValue && Whole(v.members[k])
  }

  /** Whether a patch can lead from `source` to `goal`: null members must be there already. */
  predicate Reachable(source: Value, goal: Value)
    decreases goal
  {
    if !goal.ObjectValue? || !source.ObjectValue? then Whole(goal)
    else
      forall k :: k in goal.members ==>
        || Get(source.members, k) == Some(goal.members[k])
        || (goal.members[k] != NullValue &&
            if k in source.members then Reachable(source.members[k], goal.members[k]) else Whole(goal.members[k]))
  }

  /** What the patch makes of the source. */
  function Applied(source: Value, goal: Value): Value {
    var patch := Difference(source, goal);
    if patch.None? then source else Patched(Some(source), patch.value)
  }

  /** A value written over nothing, or over anything but an object, is itself exactly when it is whole. */
  lemma {:induction false} WrittenOver(target: Option<Value>, v: Value)
    requires target.None? || !target.value.ObjectValue?
    ensures Patched(target, v) == v <==> Whole(v)
    decreases v
  {
    if v.ObjectValue? {
      var r := Patched(target, v).members;
      forall k | k in v.members ensures Get(r, k) == Some(v.members[k]) <==> v.members[k] != NullValue && Whole(v.members[k]) {
        WrittenOver(None, v.members[k]);
      }
      if Whole(v) {
        forall k ensures Get(r, k) == Get(v.members, k) { }
        SameMap(r, v.members);
      } else {
        var k :| k in v.members && !(v.members[k] != NullValue && Whole(v.members[k]));
        assert Get(r, k) != Get(v.members, k);
      }
    }
  }

  lemma PatchedGet(base: map<Str, Value>, patch: map<Str, Value>, k: Str)
    ensures Get(PatchedMembers(base, patch), k) ==
      match Get(patch, k)
      case None => Get(base, k)
      case Some(v) => if v == NullValue then None else Some(Patched(Get(base, k), v))
  {
  }

  /** Whether one member comes out as it should. */
  predicate ReachableAt(source: Option<Value>, goal: Option<Value>) {
    goal.None? || source == goal
    || (goal.value != NullValue && if source.Some? then Reachable(source.value, goal.value) else Whole(goal.value))
  }

  /** The value of a member after patching. */
  function AppliedAt(source: Option<Value>, goal: Option<Value>): Option<Value> {
    match DifferenceAt(source, goal)
    case None => source
    case Some(v) => if v == NullValue then None else Some(Patched(source, v))
  }

  lemma {:induction false} AppliedMember(source: Option<Value>, goal: Value)
    ensures AppliedAt(source, Some(goal)) == Some(goal) <==> ReachableAt(source, Some(goal))
    decreases goal, 2
  {
    if source.None? {
      WrittenOver(None, goal);
    } else if source.value != goal {
      if Difference(source.value, goal).None? { NoDifference(source.value, goal); }
      AppliedIsGoal(source.value, goal);
    }
  }

  /** Patching the source with the generated patch gives the goal exactly when the goal is reachable. */
  lemma {:induction false} AppliedIsGoal(source: Value, goal: Value)
    ensures Applied(source, goal) == goal <==> Reachable(source, goal)
    decreases goal, 1
  {
    if !goal.ObjectValue? {
    } else if !source.ObjectValue? {
      WrittenOver(Some(source), goal);
    } else {
      var s, g := source.members, goal.members;
      var r := if Difference(source, goal).None? then s else PatchedMembers(s, DifferenceMembers(s, g));
      assert Applied(source, goal) == ObjectValue(r);
      forall k ensures Get(r, k) == Get(g, k) <==> ReachableAt(Get(s, k), Get(g, k)) {
        DifferenceGet(s, g, k);
        if Difference(source, goal).Some? { PatchedGet(s, DifferenceMembers(s, g), k); }
        assert Get(r, k) == AppliedAt(Get(s, k), Get(g, k));
        if k in g { AppliedMember(Get(s, k), g[k]); }
      }
      if Reachable(source, goal) {
        forall k ensures Get(r, k) == Get(g, k) { assert ReachableAt(Get(s, k), Get(g, k)); }
        SameMap(r, g);
      } else {
        var k :| k in g && !ReachableAt(Get(s, k), Get(g, k));
        assert Get(r, k) != Get(g, k);
      }
    }
  }

  /** What becomes of a copy of `source` when the generated patch is applied to it. Either step may or
      may not respect case. */
  function Restored(source: Json, goal: Json, generating: bool, merging: bool): Json {
    var patch := Generate(source, goal, generating);
    if patch.None? then source else Merge(Some(source), patch.value, merging)
  }

  /** A patch that means the difference leads from the source to the goal exactly when that is reachable. */
  lemma AppliedPatch(source: Json, goal: Json, generating: bool)
    requires Unique(source) && Meant(source, goal, generating)
    ensures Meaning(Restored(source, goal, generating, true)) == Meaning(goal) <==> Reachable(Meaning(source), Meaning(goal))
  {
    var patch := Generate(source, goal, generating);
    if patch.Some? { MergeIsPatched(Some(source), patch.value); }
    AppliedIsGoal(Meaning(source), Meaning(goal));
  }

  predicate Meant(source: Json, goal: Json, generating: bool) {
    var patch := Generate(source, goal, generating);
    UniqueOption(patch) && MeaningOf(patch) == Difference(Meaning(source), Meaning(goal))
  }

  /** The round trip, for names whose order does not depend on case: the result means what the goal
      means if and only if every null member of the goal is in the source already. */
  lemma RoundTrip(source: Json, goal: Json, generating: bool, merging: bool)
    requires Unique(source) && Unique(goal) && OrderKept(Names(source) + Names(goal))
    ensures Meaning(Restored(source, goal, generating, merging)) == Meaning(goal) <==> Reachable(Meaning(source), Meaning(goal))
  {
    var names := Names(source) + Names(goal);
    GenerateMeaning(source, goal, names, generating);
    AppliedPatch(source, goal, generating);
    var patch := Generate(source, goal, generating);
    if patch.Some? {
      KeptIsApart(names);
      GenerateNames(source, goal, generating);
      MergeCase(Some(source), patch.value, names);
    }
  }

  /** In particular it succeeds for every goal without null members. */
  lemma {:induction false} WholeIsReachable(source: Value, goal: Value)
    requires Whole(goal)
    ensures Reachable(source, goal)
    decreases goal
  {
    if source.ObjectValue? && goal.ObjectValue? {
      forall k | k in goal.members && k in source.members ensures Reachable(source.members[k], goal.members[k]) {
        WholeIsReachable(source.members[k], goal.members[k]);
      }
    }
  }

  lemma RoundTripWithoutNulls(source: Json, goal: Json, generating: bool, merging: bool)
    requires Unique(source) && Unique(goal) && OrderKept(Names(source) + Names(goal)) && Whole(Meaning(goal))
    ensures Meaning(Restored(source, goal, generating, merging)) == Meaning(goal)
  {
    RoundTrip(source, goal, generating, merging);
    WholeIsReachable(Meaning(source), Meaning(goal));
  }

  // ---- Names that differ only in case ---------------------------------------------------------------------

  /** {x: {y: {last: true}}} */
  function Nested(x: Str, y: Str, last: Str): Json {
    One(x, One(y, One(last, True)))
  }

  /** The patch between two objects that have the same only name. */
  lemma GenerateOne(name: Str, source: Json, goal: Json, caseSensitive: bool)
    ensures Generate(One(name, source), One(name, goal), caseSensitive) ==
      if CompareJson(source, goal, caseSensitive) || Generate(source, goal, false).None? then None
      else Some(One(name, Generate(source, goal, false).value))
  {
    OneSorted(name, source, caseSensitive);
    OneSorted(name, goal, caseSensitive);
    assert Differences(NoMembers, NoMembers, caseSensitive) == NoMembers;
  }

  lemma NestedMeaning(x: Str, y: Str, k: Str, l: Str)
    ensures Unique(Nested(x, y, k)) && Names(Nested(x, y, k)) == {x, y, k} && Whole(Meaning(Nested(x, y, k)))
    ensures Meaning(Nested(x, y, k)) == Meaning(Nested(x, y, l)) <==> k == l
  {
    OneMeaning(k, l, True, True);
    OneMeaning(y, y, One(k, True), One(l, True));
    OneMeaning(x, x, One(y, One(k, True)), One(y, One(l, True)));
    assert Whole(Meaning(One(k, True)));
    assert Whole(Meaning(One(y, One(k, True))));
  }

  /** Two levels down, names that differ only in case are lost: from {x: {y: {k: true}}} to
      {x: {y: {l: true}}} no patch is generated. */
  lemma CaseIsLost(x: Str, y: Str, k: Str, l: Str, caseSensitive: bool)
    requires Fold(k) == Fold(l)
    ensures Generate(Nested(x, y, k), Nested(x, y, l), caseSensitive).None?
  {
    CompareOnes(k, l, True, True, false);
    GenerateOne(y, One(k, True), One(l, True), false);
    GenerateOne(x, One(y, One(k, True)), One(y, One(l, True)), caseSensitive);
  }

  /** From {"x":{"y":{"A":true}}} to {"x":{"y":{"a":true}}} no patch is generated. */
  lemma UpperCaseIsLost()
    ensures var source, goal := Nested(Ch(120, End), Ch(121, End), Ch(65, End)), Nested(Ch(120, End), Ch(121, End), Ch(97, End));
      Unique(source) && Unique(goal) && Generate(source, goal, true).None? && Meaning(source) != Meaning(goal)
  {
    var x, y, a, b := Ch(120, End), Ch(121, End), Ch(65, End), Ch(97, End);
    assert Fold(a) == Fold(b) by { assert Fold(End) == End; }
    CaseIsLost(x, y, a, b, true);
    NestedMeaning(x, y, a, b);
    NestedMeaning(x, y, b, a);
  }

  // ---- Names that case puts in another order --------------------------------------------------------------

  /** {k: 1, l: 2} */
  function Both(k: Str, l: Str): Json {
    Object(Member(k, Number(1), Member(l, Number(2), NoMembers)))
  }

  /** What is generated to get from there to {l: 2} when k sorts before l without case and behind it
      with case: l is added, and then both are removed. */
  function Wrong(k: Str, l: Str): Members {
    Member(l, Number(2), Member(k, Null, Member(l, Null, NoMembers)))
  }

  lemma WrongGenerated(k: Str, l: Str)
    requires StrCmp(k, l) > 0 && StrCmp(Fold(k), Fold(l)) < 0
    ensures Generate(Both(k, l), One(l, Number(2)), false) == Some(Object(Wrong(k, l)))
  {
    var last := Member(l, Number(2), NoMembers);
    var all := Member(k, Number(1), last);
    OneSorted(l, Number(2), false);
    assert Sorted(all, false) == Insert(k, Number(1), last, false) == all;
    assert Differences(NoMembers, NoMembers, false) == NoMembers;
    assert Differences(last, NoMembers, false) == Member(l, Null, NoMembers);
    assert Differences(all, NoMembers, false) == Member(k, Null, Member(l, Null, NoMembers));
    assert Differences(all, last, false) == Wrong(k, l);
  }

  lemma WrongMerged(k: Str, l: Str, caseSensitive: bool)
    requires Fold(k) != Fold(l)
    ensures Merge(Some(Both(k, l)), Object(Wrong(k, l)), caseSensitive) == Object(NoMembers)
  {
    var first, last := Member(k, Number(1), NoMembers), Member(l, Number(2), NoMembers);
    var all := Member(k, Number(1), last);
    var remove := Member(l, Null, NoMembers);
    assert Remove(last, l, caseSensitive) == NoMembers && Remove(all, k, caseSensitive) == last;
    assert Remove(all, l, caseSensitive) == first;
    assert Add(NoMembers, l, Number(2)) == last;
    assert MergeMember(all, l, Number(2), caseSensitive) == Add(first, l, Number(2)) == all;
    assert MergeMembers(NoMembers, NoMembers, caseSensitive) == NoMembers;
    assert MergeMembers(last, remove, caseSensitive) == MergeMembers(NoMembers, NoMembers, caseSensitive);
    assert MergeMembers(all, Member(k, Null, remove), caseSensitive) == MergeMembers(last, remove, caseSensitive);
    assert MergeMembers(all, Wrong(k, l), caseSensitive) == MergeMembers(all, Member(k, Null, remove), caseSensitive);
  }

  lemma BothMeaning(k: Str, l: Str)
    requires k != l
    ensures Unique(Both(k, l)) && Names(Both(k, l)) == {k, l} && k in MembersMeaning(Both(k, l).members)
  {
    var last := Member(l, Number(2), NoMembers);
    assert MembersMeaning(NoMembers) == map[] && MemberNames(NoMembers) == {};
    assert MembersMeaning(last) == map[l := NumberValue(2)] && MemberNames(last) == {l};
    assert UniqueMembers(NoMembers) && UniqueMembers(last);
    assert MembersMeaning(Member(k, Number(1), last)) == map[l := NumberValue(2)][k := NumberValue(1)];
    assert MemberNames(Member(k, Number(1), last)) == {k} + Names(Number(1)) + MemberNames(last);
  }

  /** Without case everything is lost: {k: 1, l: 2} becomes {} where {l: 2} was the goal. */
  lemma OrderIsLost(k: Str, l: Str, merging: bool)
    requires StrCmp(k, l) > 0 && StrCmp(Fold(k), Fold(l)) < 0
    ensures var source, goal := Both(k, l), One(l, Number(2));
      && Unique(source) && Unique(goal) && Whole(Meaning(goal)) && Meaning(source) != Meaning(goal)
      && Meaning(Restored(source, goal, false, merging)) == ObjectValue(map[])
  {
    WrongGenerated(k, l);
    WrongMerged(k, l, merging);
    BothMeaning(k, l);
    OneMeaning(l, l, Number(2), Number(2));
    assert MembersMeaning(NoMembers) == map[];
    assert k !in map[l := NumberValue(2)];
  }

  /** {"a": 1, "B": 2} becomes {} where {"B": 2} was the goal. */
  lemma AllIsLost(merging: bool)
    ensures var source, goal := Both(Ch(97, End), Ch(66, End)), One(Ch(66, End), Number(2));
      Unique(source) && Unique(goal) && Whole(Meaning(goal)) && Meaning(Restored(source, goal, false, merging)) == ObjectValue(map[])
  {
    assert Fold(Ch(97, End)) == Ch(97, End) && Fold(Ch(66, End)) == Ch(98, End) by { assert Fold(End) == End; }
    OrderIsLost(Ch(97, End), Ch(66, End), merging);
  }

  lemma MergeOne(name: Str, value: Json, patch: Json, caseSensitive: bool)
    requires !patch.Null?
    ensures Merge(Some(One(name, value)), One(name, patch), caseSensitive) == One(name, Merge(Some(value), patch, caseSensitive))
  {
    var members, change := Member(name, value, NoMembers), Member(name, patch, NoMembers);
    assert MergeMembers(members, change, caseSensitive) == MergeMembers(MergeMember(members, name, patch, caseSensitive), NoMembers, caseSensitive);
    assert Remove(members, name, caseSensitive) == NoMembers;
  }

  /** One level down the same happens whatever the caller asks for. */
  lemma OrderIsLostBelow(k: Str, l: Str, generating: bool, merging: bool)
    requires StrCmp(k, l) > 0 && StrCmp(Fold(k), Fold(l)) < 0
    ensures var source, goal := One(k, Both(k, l)), One(k, One(l, Number(2)));
      && Unique(source) && Unique(goal) && Whole(Meaning(goal)) && Names(source) + Names(goal) == {k, l}
      && Meaning(Restored(source, goal, generating, merging)) != Meaning(goal)
  {
    var source, goal := Both(k, l), One(l, Number(2));
    BothMeaning(k, l);
    OrderIsLost(k, l, merging);
    OneMeaning(l, l, Number(2), Number(2));
    OneMeaning(k, k, source, goal);
    OneMeaning(k, k, goal, source);
    CompareDecides(source, goal, generating);
    WrongGenerated(k, l);
    WrongMerged(k, l, merging);
    GenerateOne(k, source, goal, generating);
    MergeOne(k, source, Object(Wrong(k, l)), merging);
    OneMeaning(k, k, Object(NoMembers), goal);
    assert Meaning(Object(NoMembers)) == ObjectValue(map[]);
    assert l in map[l := NumberValue(2)];
  }

  // ---- Exactly when the round trip works -------------------------------------------------------------------

  /** The round trip works for all values over these names. */
  ghost predicate RoundTrips(names: set<Str>, generating: bool, merging: bool) {
    forall source, goal :: Unique(source) && Unique(goal) && Names(source) + Names(goal) <= names ==>
      (Meaning(Restored(source, goal, generating, merging)) == Meaning(goal) <==> Reachable(Meaning(source), Meaning(goal)))
  }

  /** The same for goals without null members. */
  ghost predicate Restores(names: set<Str>, generating: bool, merging: bool) {
    forall source, goal :: Unique(source) && Unique(goal) && Names(source) + Names(goal) <= names && Whole(Meaning(goal)) ==>
      Meaning(Restored(source, goal, generating, merging)) == Meaning(goal)
  }

  /** Names that compare differently without case are in some values for which it fails. */
  lemma RoundTripFails(k: Str, l: Str, generating: bool, merging: bool) returns (source: Json, goal: Json)
    requires StrCmp(Fold(k), Fold(l)) != StrCmp(k, l)
    ensures Unique(source) && Unique(goal) && Names(source) + Names(goal) == {k, l} && Whole(Meaning(goal))
    ensures Meaning(Restored(source, goal, generating, merging)) != Meaning(goal)
  {
    StrCmpOpposite(k, l);
    StrCmpOpposite(Fold(k), Fold(l));
    if Fold(k) == Fold(l) {
      source, goal := Nested(k, k, k), Nested(k, k, l);
      CaseIsLost(k, k, k, l, generating);
      NestedMeaning(k, k, k, l);
      NestedMeaning(k, k, l, k);
    } else if StrCmp(k, l) > 0 {
      source, goal := One(k, Both(k, l)), One(k, One(l, Number(2)));
      OrderIsLostBelow(k, l, generating, merging);
    } else {
      source, goal := One(l, Both(l, k)), One(l, One(k, Number(2)));
      OrderIsLostBelow(l, k, generating, merging);
    }
  }

  /** It works if and only if any two of the names compare in the same way with case and without,
      whichever variants are called. */
  lemma RoundTripExactly(names: set<Str>, generating: bool, merging: bool)
    ensures RoundTrips(names, generating, merging) <==> OrderKept(names)
    ensures Restores(names, generating, merging) <==> OrderKept(names)
  {
    if OrderKept(names) {
      forall source, goal | Unique(source) && Unique(goal) && Names(source) + Names(goal) <= names
        ensures Meaning(Restored(source, goal, generating, merging)) == Meaning(goal) <==> Reachable(Meaning(source), Meaning(goal))
        ensures Whole(Meaning(goal)) ==> Reachable(Meaning(source), Meaning(goal))
      {
        RoundTrip(source, goal, generating, merging);
        if Whole(Meaning(goal)) { WholeIsReachable(Meaning(source), Meaning(goal)); }
      }
    } else {
      var k, l :| k in names && l in names && StrCmp(Fold(k), Fold(l)) != StrCmp(k, l);
      var source, goal := RoundTripFails(k, l, generating, merging);
      WholeIsReachable(Meaning(source), Meaning(goal));
    }
  }

  /** For all values over these names the patch means the difference. */
  ghost predicate AlwaysMeant(names: set<Str>, generating: bool) {
    forall source, goal :: Unique(source) && Unique(goal) && Names(source) + Names(goal) <= names ==> Meant(source, goal, generating)
  }

  /** The same condition is the exact one for generate_merge_patch itself. */
  lemma GenerateExactly(names: set<Str>, generating: bool)
    ensures AlwaysMeant(names, generating) <==> OrderKept(names)
  {
    if OrderKept(names) {
      forall source, goal | Unique(source) && Unique(goal) && Names(source) + Names(goal) <= names
        ensures Meant(source, goal, generating)
      {
        GenerateMeaning(source, goal, names, generating);
      }
    } else {
      var k, l :| k in names && l in names && StrCmp(Fold(k), Fold(l)) != StrCmp(k, l);
      var source, goal := RoundTripFails(k, l, generating, true);
      WholeIsReachable(Meaning(source), Meaning(goal));
      if Meant(source, goal, generating) { AppliedPatch(source, goal, generating); }
    }
  }

  // ---- Exactly when no patch means no difference ------------------------------------------------------------

  /** Of members in the same order, no differences are found exactly when there are none. */
  lemma {:induction false} NothingFound(source: Members, goal: Members, names: set<Str>, order: bool, caseSensitive: bool)
    requires Increasing(source, order) && Increasing(goal, order) && UniqueMembers(source) && UniqueMembers(goal)
    requires Apart(names) && MemberNames(source) + MemberNames(goal) <= names
    ensures Differences(source, goal, caseSensitive).NoMembers? <==> MembersMeaning(source) == MembersMeaning(goal)
    decreases MembersSize(source) + MembersSize(goal), 0
  {
    if source.Member? && goal.Member? && source.key == goal.key {
      NothingFound(source.others, goal.others, names, order, caseSensitive);
      CompareDecides(source.value, goal.value, caseSensitive);
      NothingGenerated(source.value, goal.value, names, false);
      if MembersMeaning(source) == MembersMeaning(goal) { SameTails(source, goal); }
    } else if source.Member? && goal.Member? {
      if MembersMeaning(source) == MembersMeaning(goal) { SortedNames(source, goal, order); }
    } else {
      assert source.Member? ==> source.key in MembersMeaning(source);
      assert goal.Member? ==> goal.key in MembersMeaning(goal);
    }
  }

  /** Where no two names differ only in case, there is no patch if and only if two objects mean the same. */
  lemma {:induction false} NothingGenerated(source: Json, goal: Json, names: set<Str>, caseSensitive: bool)
    requires Unique(source) && Unique(goal) && Apart(names) && Names(source) + Names(goal) <= names
    ensures Generate(source, goal, caseSensitive).None? <==> source.Object? && goal.Object? && Meaning(source) == Meaning(goal)
    decreases Size(source) + Size(goal), 1
  {
    if source.Object? && goal.Object? {
      SortedMeaning(source.members, caseSensitive);
      SortedMeaning(goal.members, caseSensitive);
      SortedKeepsNames(source.members, caseSensitive);
      SortedKeepsNames(goal.members, caseSensitive);
      NothingFound(Sorted(source.members, caseSensitive), Sorted(goal.members, caseSensitive), names, caseSensitive, caseSensitive);
    }
  }

  /** No patch is generated exactly for equal objects, for all values over these names. */
  ghost predicate NothingMeansSame(names: set<Str>, caseSensitive: bool) {
    forall source, goal :: Unique(source) && Unique(goal) && Names(source) + Names(goal) <= names ==>
      (Generate(source, goal, caseSensitive).None? <==> source.Object? && goal.Object? && Meaning(source) == Meaning(goal))
  }

  /** That is so if and only if no two of the names differ only in case. */
  lemma NothingMeansSameExactly(names: set<Str>, caseSensitive: bool)
    ensures NothingMeansSame(names, caseSensitive) <==> Apart(names)
  {
    if Apart(names) {
      forall source, goal | Unique(source) && Unique(goal) && Names(source) + Names(goal) <= names
        ensures Generate(source, goal, caseSensitive).None? <==> source.Object? && goal.Object? && Meaning(source) == Meaning(goal)
      {
        NothingGenerated(source, goal, names, caseSensitive);
      }
    } else {
      var k, l :| k in names && l in names && Fold(k) == Fold(l) && k != l;
      CaseIsLost(k, k, k, l, caseSensitive);
      NestedMeaning(k, k, k, l);
      NestedMeaning(k, k, l, k);
      assert Names(Nested(k, k, k)) + Names(Nested(k, k, l)) <= names;
    }
  }
}
