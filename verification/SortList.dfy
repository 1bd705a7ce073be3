/** sort_list of packages/cJSON-v1.7.17/cJSON_Utils.c: a merge sort that relinks the siblings. */
module SortList {
  import opened Basics
  import opened CString
  import opened Json
  import opened JsonMeaning
  import opened JsonCompare
  import opened Siblings

  /** The whole list behind its first node, whose `prev` may be anything. */
  ghost predicate Chain(s: seq<Node>, head: Node?)
    reads s
  {
    && Distinct(s) && Linked(s)
    && (|s| == 0 <==> head == null)
    && (|s| > 0 ==> head == s[0] && s[|s| - 1].next == null)
  }

  predicate InOrder(a: Node, b: Node, caseSensitive: bool) {
    CompareStrings(a.name, b.name, caseSensitive) <= 0
  }

  ghost predicate Ordered(s: seq<Node>, caseSensitive: bool) {
    forall i :: 0 <= i < |s| - 1 ==> InOrder(s[i], s[i + 1], caseSensitive)
  }

  ghost function Nodes(s: seq<Node>): set<Node> {
    set x | x in s
  }

  lemma NextIn(s: seq<Node>, head: Node?, i: nat)
    requires Chain(s, head) && i < |s|
    ensures s[i].next == if i + 1 < |s| then s[i + 1] else null
  {
  }

  /** The loop that tests for a list in strict order. */
  method AlreadySorted(list: Node?, caseSensitive: bool, ghost s: seq<Node>) returns (sorted: bool)
    requires Chain(s, list) && list != null
    ensures sorted ==> Ordered(s, caseSensitive)
    ensures |s| == 1 ==> sorted
  {
    var current := list;
    ghost var i := 0;
    while current.next != null && CompareStrings(current.name, current.next.name, caseSensitive) < 0
      invariant 0 <= i < |s| && current == s[i]
      invariant Ordered(s[..i + 1], caseSensitive)
      decreases |s| - i
    {
      NextIn(s, list, i);
      current := current.next;
      i := i + 1;
    }
    NextIn(s, list, i);
    sorted := current.next == null;
    assert sorted ==> s[..i + 1] == s;
  }

  /** The loop that finds the middle. */
  method Middle(list: Node, ghost s: seq<Node>) returns (second: Node)
    requires Chain(s, list) && |s| >= 2
    ensures second == s[(|s| + 1) / 2]
  {
    var slow: Node?, fast: Node? := list, list;
    ghost var k := 0;
    while fast != null
      invariant 0 <= k <= (|s| + 1) / 2 && slow == s[k]
      invariant fast == if 2 * k < |s| then s[2 * k] else null
      invariant fast == null ==> k == (|s| + 1) / 2
      decreases |s| - 2 * k
    {
      NextIn(s, list, k);
      NextIn(s, list, 2 * k);
      if 2 * k + 1 < |s| { NextIn(s, list, 2 * k + 1); }
      slow := slow.next;
      fast := fast.next;
      if fast != null { fast := fast.next; }
      k := k + 1;
    }
    second := slow;
  }

  ghost predicate Disjoint(a: seq<Node>, b: seq<Node>) {
    forall i, j :: 0 <= i < |a| && 0 <= j < |b| ==> a[i] != b[j]
  }

  /** In the middle of a merge: the result so far and what is left of two lists. */
  ghost predicate Merging(r: seq<Node>, f: seq<Node>, first: Node?, g: seq<Node>, second: Node?, caseSensitive: bool)
    reads r, f, g
  {
    && |r| > 0 && Distinct(r) && Linked(r) && Ordered(r, caseSensitive)
    && Chain(f, first) && Ordered(f, caseSensitive) && (|f| > 0 ==> InOrder(r[|r| - 1], f[0], caseSensitive))
    && Chain(g, second) && Ordered(g, caseSensitive) && (|g| > 0 ==> InOrder(r[|r| - 1], g[0], caseSensitive))
    && Disjoint(r, f) && Disjoint(r, g) && Disjoint(f, g) && Disjoint(g, f)
  }

  /** Puts the first node of `f`, the smaller one, behind the last of `r`. */
  method LinkBehind(tail: Node, node: Node, caseSensitive: bool,
                    ghost r: seq<Node>, ghost f: seq<Node>, ghost g: seq<Node>, ghost second: Node?)
    requires Merging(r, f, node, g, second, caseSensitive) && tail == r[|r| - 1]
    requires |g| > 0 ==> InOrder(node, g[0], caseSensitive)
    modifies tail`next, node`prev
    ensures Merging(r + [node], f[1..], node.next, g, second, caseSensitive)
    ensures Nodes(r + [node]) + Nodes(f[1..]) == Nodes(r) + Nodes(f)
  {
    tail.next := node;
    node.prev := tail;
    Rest(f, node);
    Shift(r, f, node);
    assert Linked(f) && Linked(g);
    assert Linked(r + [node]);
  }

  /** What is left of a list without its first node. */
  lemma Rest(s: seq<Node>, head: Node)
    requires Chain(s, head)
    ensures Chain(s[1..], head.next)
  {
    forall i | 0 <= i < |s[1..]| - 1 ensures s[1..][i].next == s[1..][i + 1] && s[1..][i + 1].prev == s[1..][i] {
      assert s[i + 1].next == s[i + 1 + 1];
    }
    NextIn(s, head, 0);
  }

  /** The merged list starts with the first node of `f`, the smaller one. */
  lemma Start(f: seq<Node>, first: Node, g: seq<Node>, second: Node?, caseSensitive: bool)
    requires Chain(f, first) && Ordered(f, caseSensitive) && Chain(g, second) && Ordered(g, caseSensitive)
    requires Disjoint(f, g) && Disjoint(g, f) && (|g| > 0 ==> InOrder(first, g[0], caseSensitive))
    ensures Merging([first], f[1..], first.next, g, second, caseSensitive)
    ensures Nodes([first]) + Nodes(f[1..]) == Nodes(f)
  {
    Rest(f, first);
    Shift([], f, first);
  }

  lemma Shift(r: seq<Node>, f: seq<Node>, node: Node)
    requires |f| > 0 && node == f[0]
    ensures Nodes(r + [node]) + Nodes(f[1..]) == Nodes(r) + Nodes(f)
  {
    assert f == [node] + f[1..];
  }

  /** Appends the rest of one list. */
  method AppendRest(tail: Node, node: Node, caseSensitive: bool,
                    ghost r: seq<Node>, ghost f: seq<Node>, ghost g: seq<Node>, ghost second: Node?)
    requires Merging(r, f, node, g, second, caseSensitive) && tail == r[|r| - 1]
    modifies tail`next, node`prev
    ensures Chain(r + f, r[0]) && Ordered(r + f, caseSensitive) && Nodes(r + f) == Nodes(r) + Nodes(f)
  {
    tail.next := node;
    node.prev := tail;
  }

  method Merge(first0: Node, second0: Node, caseSensitive: bool, ghost f0: seq<Node>, ghost g0: seq<Node>, ghost nodes: set<Node>)
    returns (result: Node, ghost r: seq<Node>)
    requires Chain(f0, first0) && Ordered(f0, caseSensitive) && Chain(g0, second0) && Ordered(g0, caseSensitive)
    requires Nodes(f0) !! Nodes(g0) && nodes == Nodes(f0) + Nodes(g0)
    modifies nodes
    ensures Chain(r, result) && Ordered(r, caseSensitive) && Nodes(r) == nodes && |r| == |f0| + |g0|
  {
    var first: Node?, second: Node? := first0, second0;
    ghost var f, g := f0, g0;
    PartsApart(f0, g0);
    PartsApart(g0, f0);
    if CompareStrings(first.name, second.name, caseSensitive) < 0 {
      result, first := first0, first0.next;
      r, f := [first0], f0[1..];
      Start(f0, first0, g0, second0, caseSensitive);
    } else {
      Opposite(first, second, caseSensitive);
      result, second := second0, second0.next;
      r, g := [second0], g0[1..];
      Start(g0, second0, f0, first0, caseSensitive);
    }
    r := MergeBehind(result, first, second, caseSensitive, r, f, g, nodes);
  }

  /** The merging loop, once the result has a first node. */
  method MergeBehind(result: Node, first0: Node?, second0: Node?, caseSensitive: bool,
                     ghost r0: seq<Node>, ghost f0: seq<Node>, ghost g0: seq<Node>, ghost nodes: set<Node>)
    returns (ghost r: seq<Node>)
    requires Merging(r0, f0, first0, g0, second0, caseSensitive) && r0 == [result] && |f0| + |g0| > 0
    requires Nodes(r0) + Nodes(f0) + Nodes(g0) == nodes
    modifies nodes
    ensures Chain(r, result) && Ordered(r, caseSensitive) && Nodes(r) == nodes && |r| == |r0| + |f0| + |g0|
  {
    var first, second, tail := first0, second0, result;
    ghost var f, g := f0, g0;
    r := r0;
    while first != null && second != null
      invariant Merging(r, f, first, g, second, caseSensitive) && |f| + |g| > 0
      invariant result == r[0] && tail == r[|r| - 1]
      invariant Nodes(r) + Nodes(f) + Nodes(g) == nodes && |r| + |f| + |g| == |r0| + |f0| + |g0|
      decreases |f| + |g|
    {
      assert tail in Nodes(r) && first in Nodes(f) && second in Nodes(g);
      if CompareStrings(first.name, second.name, caseSensitive) < 0 {
        LinkBehind(tail, first, caseSensitive, r, f, g, second);
        tail, first := first, first.next;
        r, f := r + [tail], f[1..];
      } else {
        Opposite(first, second, caseSensitive);
        LinkBehind(tail, second, caseSensitive, r, g, f, first);
        tail, second := second, second.next;
        r, g := r + [tail], g[1..];
      }
    }
    assert tail in Nodes(r);
    if first != null {
      assert first in Nodes(f);
      AppendRest(tail, first, caseSensitive, r, f, g, second);
      r := r + f;
    } else {
      assert second in Nodes(g);
      AppendRest(tail, second, caseSensitive, r, g, f, first);
      r := r + g;
    }
  }

  lemma PartsApart(a: seq<Node>, b: seq<Node>)
    ensures Disjoint(a, b) <==> Nodes(a) !! Nodes(b)
  {
    if !Disjoint(a, b) {
      var i, j :| 0 <= i < |a| && 0 <= j < |b| && a[i] == b[j];
      assert a[i] in Nodes(a) && a[i] in Nodes(b);
    }
  }

  lemma Opposite(a: Node, b: Node, caseSensitive: bool)
    requires CompareStrings(a.name, b.name, caseSensitive) >= 0
    ensures InOrder(b, a, caseSensitive)
  {
    StrCmpOpposite(a.name, b.name);
    StrCmpOpposite(Fold(a.name), Fold(b.name));
  }

  /** Cuts a list in two. */
  method Split(list: Node, second: Node, ghost last: Node, ghost s: seq<Node>, ghost k: nat)
    requires Chain(s, list) && 0 < k < |s| && second == s[k] && last == s[k - 1]
    modifies last`next, second`prev
    ensures Chain(s[..k], list) && Chain(s[k..], second)
  {
    var before := second.prev;
    if before != null {
      before.next := null;
      second.prev := null;
    }
    ghost var b := s[k..];
    forall i | 0 <= i < |b| - 1 ensures b[i].next == b[i + 1] && b[i + 1].prev == b[i] {
      assert b[i] == s[k + i] && b[i + 1] == s[k + i + 1];
    }
  }

  /** sort_list: the same nodes in non-decreasing order of names, with their links in that order. */
  method Sort(list: Node?, caseSensitive: bool, ghost s: seq<Node>, ghost nodes: set<Node>)
    returns (result: Node?, ghost r: seq<Node>)
    requires Chain(s, list) && nodes == Nodes(s)
    modifies nodes
    ensures Chain(r, result) && Ordered(r, caseSensitive) && Nodes(r) == nodes && |r| == |s|
    decreases |s|, 1
  {
    if list == null { return null, s; }
    NextIn(s, list, 0);
    if list.next == null { return list, s; }
    var sorted := AlreadySorted(list, caseSensitive, s);
    if sorted { return list, s; }
    ghost var k := (|s| + 1) / 2;
    var second := Middle(list, s);
    Halves(s, k);
    Split(list, second, s[k - 1], s, k);
    result, r := SortHalves(list, second, caseSensitive, s[..k], s[k..], nodes);
  }

  method SortHalves(list: Node, middle: Node, caseSensitive: bool, ghost f0: seq<Node>, ghost g0: seq<Node>, ghost nodes: set<Node>)
    returns (result: Node, ghost r: seq<Node>)
    requires Chain(f0, list) && Chain(g0, middle) && Nodes(f0) !! Nodes(g0) && nodes == Nodes(f0) + Nodes(g0)
    modifies nodes
    ensures Chain(r, result) && Ordered(r, caseSensitive) && Nodes(r) == nodes && |r| == |f0| + |g0|
    decreases |f0| + |g0|, 0
  {
    ghost var f, g;
    var first, second;
    first, f := Sort(list, caseSensitive, f0, Nodes(f0));
    second, g := Sort(middle, caseSensitive, g0, Nodes(g0));
    result, r := Merge(first, second, caseSensitive, f, g, nodes);
  }

  lemma Halves(s: seq<Node>, k: nat)
    requires 0 < k < |s| && Distinct(s)
    ensures Nodes(s) == Nodes(s[..k]) + Nodes(s[k..]) && Nodes(s[..k]) !! Nodes(s[k..])
    ensures s[k - 1] in Nodes(s) && s[k] in Nodes(s)
  {
    assert s == s[..k] + s[k..];
    PartsApart(s[..k], s[k..]);
  }

  // ---- What the sorted list means --------------------------------------------------------------------

  /** The members that a list of nodes stands for. */
  ghost function ToMembers(s: seq<Node>): Members {
    if |s| == 0 then NoMembers else Member(s[0].name, s[0].value, ToMembers(s[1..]))
  }

  ghost function Pairs(members: Members): set<(Str, Json)> {
    if members.NoMembers? then {} else {(members.key, members.value)} + Pairs(members.others)
  }

  lemma {:induction false} PairsOfNodes(s: seq<Node>)
    ensures Pairs(ToMembers(s)) == set x | x in Nodes(s) :: (x.name, x.value)
  {
    if |s| > 0 {
      PairsOfNodes(s[1..]);
      assert s == [s[0]] + s[1..];
    }
  }

  lemma {:induction false} PairsOfInsert(key: Str, value: Json, members: Members, caseSensitive: bool)
    ensures Pairs(Insert(key, value, members, caseSensitive)) == {(key, value)} + Pairs(members)
  {
    if members.Member? { PairsOfInsert(key, value, members.others, caseSensitive); }
  }

  lemma {:induction false} PairsOfSorted(members: Members, caseSensitive: bool)
    ensures Pairs(Sorted(members, caseSensitive)) == Pairs(members)
  {
    if members.Member? {
      PairsOfSorted(members.others, caseSensitive);
      PairsOfInsert(members.key, members.value, Sorted(members.others, caseSensitive), caseSensitive);
    }
  }

  lemma {:induction false} PairKey(key: Str, value: Json, members: Members)
    requires (key, value) in Pairs(members)
    ensures key in MembersMeaning(members)
  {
    if (key, value) in Pairs(members.others) { PairKey(key, value, members.others); }
  }

  /** There is only one way to put members in strict order. */
  lemma {:induction false} OneOrder(a: Members, b: Members, caseSensitive: bool)
    requires Increasing(a, caseSensitive) && Increasing(b, caseSensitive) && Pairs(a) == Pairs(b)
    ensures a == b
  {
    assert a.Member? ==> (a.key, a.value) in Pairs(b);
    assert b.Member? ==> (b.key, b.value) in Pairs(a);
    if a.Member? && b.Member? {
      PairKey(a.key, a.value, b);
      PairKey(b.key, b.value, a);
      InPlace(a.key, b, caseSensitive);
      InPlace(b.key, a, caseSensitive);
      CompareOpposite(a.key, b.key, caseSensitive);
      FirstPair(a, b.value, caseSensitive);
      FirstPair(b, a.value, caseSensitive);
      assert Pairs(a.others) == Pairs(a) - {(a.key, a.value)};
      assert Pairs(b.others) == Pairs(b) - {(b.key, b.value)};
      OneOrder(a.others, b.others, caseSensitive);
    }
  }

  /** The first name does not come again. */
  lemma FirstPair(a: Members, value: Json, caseSensitive: bool)
    requires a.Member? && Increasing(a, caseSensitive)
    ensures (a.key, value) !in Pairs(a.others) && (a.key, a.value) !in Pairs(a.others)
  {
    FirstOnce(a, caseSensitive);
    if (a.key, value) in Pairs(a.others) { PairKey(a.key, value, a.others); }
    if (a.key, a.value) in Pairs(a.others) { PairKey(a.key, a.value, a.others); }
  }

  lemma {:induction false} OrderedIsIncreasing(r: seq<Node>, caseSensitive: bool)
    requires Ordered(r, caseSensitive)
    requires forall i, j :: 0 <= i < j < |r| ==> CompareStrings(r[i].name, r[j].name, caseSensitive) != 0
    ensures Increasing(ToMembers(r), caseSensitive)
  {
    if |r| > 1 {
      assert InOrder(r[0], r[1], caseSensitive) && CompareStrings(r[0].name, r[1].name, caseSensitive) != 0;
      assert Ordered(r[1..], caseSensitive) by {
        forall i | 0 <= i < |r[1..]| - 1 ensures InOrder(r[1..][i], r[1..][i + 1], caseSensitive) {
          assert InOrder(r[i + 1], r[i + 1 + 1], caseSensitive);
        }
      }
      OrderedIsIncreasing(r[1..], caseSensitive);
    }
  }

  lemma {:induction false} NamesOf(s: seq<Node>, i: nat, j: nat)
    requires UniqueMembers(ToMembers(s)) && i < j < |s|
    ensures s[i].name != s[j].name
  {
    if i == 0 {
      var x := s[j];
      assert x in Nodes(s[1..]) by { assert x == s[1..][j - 1]; }
      PairsOfNodes(s[1..]);
      PairKey(x.name, x.value, ToMembers(s[1..]));
    } else {
      NamesOf(s[1..], i - 1, j - 1);
    }
  }

  lemma {:induction false} NameIn(s: seq<Node>, i: nat)
    requires i < |s|
    ensures s[i].name in MemberNames(ToMembers(s))
  {
    if i > 0 { NameIn(s[1..], i - 1); }
  }

  /** If the comparison tells the names from each other, the list that sort_list returns is the sorted
      list of members. */
  lemma SortIsSorted(r: seq<Node>, s: seq<Node>, caseSensitive: bool)
    requires Distinct(r) && Distinct(s) && Nodes(r) == Nodes(s) && Ordered(r, caseSensitive)
    requires UniqueMembers(ToMembers(s)) && Told(MemberNames(ToMembers(s)), caseSensitive)
    ensures ToMembers(r) == Sorted(ToMembers(s), caseSensitive)
  {
    forall i, j | 0 <= i < j < |r| ensures CompareStrings(r[i].name, r[j].name, caseSensitive) != 0 {
      assert r[i] in Nodes(s) && r[j] in Nodes(s);
      var a :| 0 <= a < |s| && s[a] == r[i];
      var b :| 0 <= b < |s| && s[b] == r[j];
      if a < b { NamesOf(s, a, b); } else { NamesOf(s, b, a); }
      NameIn(s, a);
      NameIn(s, b);
      NamesDecide(s[a].name, s[b].name, MemberNames(ToMembers(s)), caseSensitive);
    }
    OrderedIsIncreasing(r, caseSensitive);
    SortedMeaning(ToMembers(s), caseSensitive);
    PairsOfNodes(r);
    PairsOfNodes(s);
    PairsOfSorted(ToMembers(s), caseSensitive);
    OneOrder(ToMembers(r), Sorted(ToMembers(s), caseSensitive), caseSensitive);
  }
}
