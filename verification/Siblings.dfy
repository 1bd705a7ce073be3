/** The sibling lists of packages/cJSON-v1.7.17/cJSON.c: doubly linked, and the first node's `prev` is
    the last node. */
module Siblings {
  import opened Basics
  import opened CString
  import opened Json

  class Node {
    const name: Str
    const value: Json
    var next: Node?
    var prev: Node?

    constructor (name: Str, value: Json)
      ensures this.name == name && this.value == value && next == null && prev == null
    {
      this.name, this.value := name, value;
      next, prev := null, null;
    }
  }

  /** Neighbours point at each other. */
  ghost predicate Linked(s: seq<Node>)
    reads s
  {
    forall i :: 0 <= i < |s| - 1 ==> s[i].next == s[i + 1] && s[i + 1].prev == s[i]
  }

  /** The neighbours of the node with index `i`: there is none behind the last, and the last one is in
      front of the first. */
  ghost function NextOf(s: seq<Node>, i: nat): Node?
    requires i < |s|
  {
    if i + 1 < |s| then s[i + 1] else null
  }

  ghost function PrevOf(s: seq<Node>, i: nat): Node
    requires i < |s|
  {
    if i > 0 then s[i - 1] else s[|s| - 1]
  }

  ghost predicate LinkedAt(s: seq<Node>, i: nat)
    requires i < |s|
    reads s[i]
  {
    s[i].next == NextOf(s, i) && s[i].prev == PrevOf(s, i)
  }

  /** The nodes of a well-formed list that begins at `head`. */
  ghost predicate Represents(head: Node?, s: seq<Node>)
    reads s
  {
    && Distinct(s)
    && head == (if |s| == 0 then null else s[0])
    && forall i :: 0 <= i < |s| ==> LinkedAt(s, i)
  }

  lemma EndOf(head: Node, s: seq<Node>)
    requires Represents(head, s)
    ensures |s| > 0 && head.prev == s[|s| - 1] && s[|s| - 1].next == null
  {
    assert LinkedAt(s, 0) && LinkedAt(s, |s| - 1);
  }

  lemma BackOf(head: Node, s: seq<Node>, m: nat)
    requires Represents(head, s) && 0 < m < |s|
    ensures s[m].prev == s[m - 1]
  {
    assert LinkedAt(s, m);
  }

  // Three ways in which no list at all begins at a node.

  /** The node in front of the first is not the end. */
  lemma WrongEnd(head: Node)
    requires head.prev != null && head.prev.next != null
    ensures forall s: seq<Node> :: !Represents(head, s)
  {
    forall s: seq<Node> ensures !Represents(head, s) {
      if Represents(head, s) { EndOf(head, s); }
    }
  }

  /** From every node there is a way on within some nodes. */
  lemma Circle(head: Node, nodes: seq<Node>)
    requires head in nodes && forall x :: x in nodes ==> x.next != null && x.next in nodes
    ensures forall s: seq<Node> :: !Represents(head, s)
  {
    forall s: seq<Node> ensures !Represents(head, s) {
      if Represents(head, s) {
        InCircle(head, s, nodes, |s| - 1);
        EndOf(head, s);
      }
    }
  }

  lemma {:induction false} InCircle(head: Node, s: seq<Node>, nodes: seq<Node>, i: nat)
    requires head in nodes && forall x :: x in nodes ==> x.next != null && x.next in nodes
    requires Represents(head, s) && i < |s|
    ensures s[i] in nodes
  {
    if i > 0 {
      InCircle(head, s, nodes, i - 1);
      assert LinkedAt(s, i - 1);
    }
  }

  /** A node on the way does not point back to where one comes from. */
  lemma WrongBack(nodes: seq<Node>, m: nat)
    requires 0 < m < |nodes| && (forall k :: 0 <= k < m ==> nodes[k].next == nodes[k + 1]) && nodes[m].prev != nodes[m - 1]
    ensures forall s: seq<Node> :: !Represents(nodes[0], s)
  {
    forall s: seq<Node> ensures !Represents(nodes[0], s) {
      if Represents(nodes[0], s) {
        OnTheWay(nodes, s, m);
        OnTheWay(nodes, s, m - 1);
        BackOf(nodes[0], s, m);
      }
    }
  }

  lemma {:induction false} OnTheWay(nodes: seq<Node>, s: seq<Node>, k: nat)
    requires k < |nodes| && (forall j :: 0 <= j < k ==> nodes[j].next == nodes[j + 1]) && Represents(nodes[0], s)
    ensures k < |s| && s[k] == nodes[k]
  {
    if k > 0 {
      OnTheWay(nodes, s, k - 1);
      assert LinkedAt(s, k - 1);
      assert nodes[k - 1].next == nodes[k - 1 + 1];
    }
  }

  // Where an item is put, in which list, and where it was in it before, if it was.
  datatype Spot = Spot(list: seq<Node>, which: nat, item: Node, at: nat)

  class Parent {
    var child: Node?
    ghost var children: seq<Node>

    constructor ()
      ensures Valid() && children == []
    {
      child, children := null, [];
    }

    ghost predicate Valid()
      reads this, children
    {
      Represents(child, children)
    }

    /** get_array_item. */
    method GetItem(index: nat) returns (item: Node?)
      requires Valid()
      ensures index < |children| ==> item == children[index]
      ensures index >= |children| ==> item == null
    {
      item := child;
      var left: nat := index;
      while item != null && left > 0
        invariant left <= index
        invariant index - left < |children| ==> item != null && item == children[index - left]
        invariant index - left >= |children| ==> item == null
        decreases left
      {
        assert LinkedAt(children, index - left);
        item := item.next;
        left := left - 1;
      }
    }

    /** add_item_to_array: the item becomes the last one. Behind others its `next` is not reset, and
        whether it is in the list already is not tested: there is a well-formed list afterwards if and
        only if it was not and its `next` was NULL. */
    method Append(item: Node?) returns (ok: bool)
      requires Valid()
      modifies this, children, item
      ensures ok <==> item != null
      ensures Valid() <==> (ok && |old(children)| > 0 ==> old(item.next) == null && item !in old(children))
      ensures !Valid() ==> forall s: seq<Node> :: !Represents(child, s)
      ensures children == if ok then old(children) + [item] else old(children)
    {
      if item == null { return false; }
      if child == null {
        child := item;
        item.prev := item;
        item.next := null;
      } else {
        assert LinkedAt(children, 0) && LinkedAt(children, |children| - 1);
        var last := child.prev;
        last.next := item;
        item.prev := last;
        child.prev := item;
      }
      ok := true;
      ghost var was := children;
      children := children + [item];
      if item in was {
        ghost var m :| 0 <= m < |was| && was[m] == item;
        assert children[m] == children[|was|] == item;
        assert old(LinkedAt(was, m));
        WrongEnd(child);
      } else {
        forall i | 0 <= i < |was| ensures LinkedAt(children, i) { assert old(LinkedAt(was, i)); }
        assert LinkedAt(children, |was|) <==> item.next == null;
        if item.next != null { WrongEnd(child); }
      }
    }

    /** cJSON_InsertItemInArray: in front of the item with that index, or at the end. The same holds. */
    method Insert(which: int, item: Node?) returns (ok: bool)
      requires Valid()
      modifies this, children, item
      ensures ok <==> which >= 0 && item != null
      ensures Valid() <==> (ok ==> item !in old(children) && (which >= |old(children)| > 0 ==> old(item.next) == null))
      ensures !Valid() ==> forall s: seq<Node> :: !Represents(child, s)
      ensures ok ==> var k := if which < |old(children)| then which else |old(children)|;
                     children == old(children)[..k] + [item] + old(children)[k..]
      ensures !ok ==> children == old(children)
    {
      if which < 0 || item == null { return false; }
      var after := GetItem(which);
      if after == null {
        ok := Append(item);
        assert old(children)[|old(children)|..] == [];
        return;
      }
      Splice(which, after, item);
      ghost var m :| item in children ==> 0 <= m < |children| && children[m] == item;
      ghost var spot := Spot(children, which, item, if item in children then m else 0);
      children := children[..which] + [item] + children[which..];
      ok := true;
      if item in spot.list {
        TwiceInTheList(spot);
      } else {
        SplicedIn(spot);
      }
    }

    /** The links that are changed to put `item` in front of `after`. */
    method Splice(which: nat, after: Node, item: Node)
      requires Valid() && which < |children| && after == children[which]
      modifies this`child, children, item
      ensures Spliced(Spot(children, which, item, 0)) && children == old(children)
    {
      assert LinkedAt(children, which);
      item.next := after;
      item.prev := after.prev;
      after.prev := item;
      if after == child {
        child := item;
      } else {
        item.prev.next := item;
      }
    }

    /** Which links were changed, wherever the item was before. */
    twostate predicate Spliced(c: Spot)
      requires c.which < |c.list|
      reads this, c.list, c.item
    {
      var after, front := c.list[c.which], PrevOf(c.list, c.which);
      && child == (if c.which == 0 then c.item else old(child))
      && (after == c.item ==> c.item.prev == c.item)
      && (after != c.item ==> c.item.prev == front && after.prev == c.item)
      && c.item.next == (if c.which > 0 && (after == c.item || front == c.item) then c.item else after)
      && (c.which > 0 && after != c.item ==> front.next == c.item)
      && (forall x :: x in c.list && x != c.item && !(c.which > 0 && x == front && after != c.item) ==> x.next == old(x.next))
      && (forall x :: x in c.list && x != c.item && x != after ==> x.prev == old(x.prev))
    }

    twostate lemma SplicedIn(c: Spot)
      requires c.which < |c.list| && old(Represents(child, c.list)) && Spliced(c) && c.item !in c.list
      ensures Represents(child, c.list[..c.which] + [c.item] + c.list[c.which..])
    {
      var s := c.list[..c.which] + [c.item] + c.list[c.which..];
      forall i | 0 <= i < |s| ensures LinkedAt(s, i) {
        if i < c.which { assert old(LinkedAt(c.list, i)); } else if i > c.which { assert old(LinkedAt(c.list, i - 1)); }
      }
    }

    /** The item was in the list already, at `c.at`. */
    twostate predicate SplicedTwice(c: Spot)
      requires c.which < |c.list|
      reads this, c.list, c.item
    {
      Spliced(c) && c.at < |c.list| && c.list[c.at] == c.item && old(Represents(child, c.list))
    }

    twostate lemma TwiceAtTheEnds(c: Spot)
      requires c.which < |c.list| && SplicedTwice(c) && (c.at == 0 || c.at == |c.list| - 1)
      ensures forall s: seq<Node> :: !Represents(child, s)
    {
      var last := c.list[|c.list| - 1];
      assert old(LinkedAt(c.list, 0)) && old(LinkedAt(c.list, c.at));
      assert child == if c.which == 0 then c.item else c.list[0];
      assert c.at == 0 || c.item == last;
      WrongEnd(child);
    }

    twostate lemma TwiceInACircle(c: Spot)
      requires c.which < |c.list| && SplicedTwice(c) && c.which - 1 <= c.at
      ensures forall s: seq<Node> :: !Represents(child, s)
    {
      var nodes := c.list[..c.at + 1];
      assert nodes[c.at] == c.item;
      forall x | x in nodes ensures x.next != null && x.next in nodes {
        var j :| 0 <= j <= c.at && nodes[j] == x;
        if j < c.at {
          assert old(LinkedAt(c.list, j)) && nodes[j + 1] == c.list[j + 1];
        } else if c.which <= c.at {
          assert c.list[c.which] == nodes[c.which];
        }
      }
      assert nodes[0] == c.list[0];
      Circle(child, nodes);
    }

    twostate lemma TwiceBackwards(c: Spot)
      requires c.which < |c.list| && SplicedTwice(c) && 0 < c.at < c.which - 1
      ensures forall s: seq<Node> :: !Represents(child, s)
    {
      forall k | 0 <= k < c.at ensures c.list[k].next == c.list[k + 1] {
        assert old(LinkedAt(c.list, k));
      }
      assert c.item.prev == c.list[c.which - 1];
      WrongBack(c.list, c.at);
    }

    /** An item that was in the list already leaves no list. */
    twostate lemma TwiceInTheList(c: Spot)
      requires c.which < |c.list| && old(Represents(child, c.list)) && Spliced(c) && c.at < |c.list| && c.list[c.at] == c.item
      ensures forall s: seq<Node> :: !Represents(child, s)
      ensures !Distinct(c.list[..c.which] + [c.item] + c.list[c.which..])
    {
      var s := c.list[..c.which] + [c.item] + c.list[c.which..];
      assert s[if c.at < c.which then c.at else c.at + 1] == s[c.which] == c.item;
      if c.at == 0 || c.at == |c.list| - 1 {
        TwiceAtTheEnds(c);
      } else if c.at >= c.which - 1 {
        TwiceInACircle(c);
      } else {
        TwiceBackwards(c);
      }
    }

    /** cJSON_DetachItemViaPointer. */
    method Detach(item: Node, ghost i: nat)
      requires Valid() && i < |children| && children[i] == item
      modifies this, children
      ensures Valid() && children == old(children)[..i] + old(children)[i + 1..]
      ensures item.next == null && item.prev == null
    {
      assert LinkedAt(children, i);
      if item != child {
        item.prev.next := item.next;
      }
      if item.next != null {
        item.next.prev := item.prev;
      }
      if item == child {
        child := item.next;
      } else if item.next == null {
        child.prev := item.prev;
      }
      item.prev := null;
      item.next := null;
      children := children[..i] + children[i + 1..];
      forall j | 0 <= j < |children| ensures LinkedAt(children, j) {
        ghost var k := if j < i then j else j + 1;
        assert old(LinkedAt(children, k)) && children[j] == old(children)[k] != item;
      }
    }

    /** cJSON_ReplaceItemViaPointer. */
    method Replace(item: Node, replacement: Node, ghost i: nat)
      requires Valid() && i < |children| && children[i] == item
      modifies this, children, replacement
      ensures Valid() <==> replacement == item || replacement !in old(children)
      ensures children == old(children)[i := replacement]
    {
      if replacement == item { return; }
      assert LinkedAt(children, i);
      replacement.next := item.next;
      replacement.prev := item.prev;
      if replacement.next != null {
        replacement.next.prev := replacement;
      }
      if child == item {
        if child.prev == child {
          replacement.prev := replacement;
        }
        child := replacement;
      } else {
        replacement.prev.next := replacement;
        if replacement.next == null {
          child.prev := replacement;
        }
      }
      item.next := null;
      item.prev := null;
      ghost var was := children;
      children := children[i := replacement];
      if replacement in was {
        ghost var m :| 0 <= m < |was| && was[m] == replacement;
        assert children[m] == children[i];
      } else {
        forall j | 0 <= j < |children| ensures LinkedAt(children, j) {
          assert old(LinkedAt(was, j));
        }
      }
    }
  }

  /** An item whose `next` is not NULL breaks the list it is appended to. */
  method AppendLinked(parent: Parent, item: Node)
    requires parent.Valid() && parent.children != [] && item !in parent.children && item.next != null
    modifies parent, parent.children, item
    ensures forall s: seq<Node> :: !Represents(parent.child, s)
  {
    var ok := parent.Append(item);
  }

  /** So does the last item when it is appended again, although its `next` is NULL. */
  method AppendAgain(parent: Parent)
    requires parent.Valid() && parent.children != []
    modifies parent, parent.children
    ensures old(parent.children[|parent.children| - 1].next) == null
    ensures forall s: seq<Node> :: !Represents(parent.child, s)
  {
    ghost var was := parent.children;
    assert LinkedAt(was, 0) && LinkedAt(was, |was| - 1);
    var ok := parent.Append(parent.child.prev);
  }

  /** How parse_array, parse_object and cJSON_Duplicate build a list: each new node goes behind the
      current one, and the head learns the last node at the end. */
  method Build(elements: seq<(Str, Json)>) returns (parent: Parent)
    ensures fresh(parent) && parent.Valid() && |parent.children| == |elements|
    ensures forall i :: 0 <= i < |elements| ==>
      fresh(parent.children[i]) && (parent.children[i].name, parent.children[i].value) == elements[i]
  {
    parent := new Parent();
    var head: Node?, current: Node? := null, null;
    ghost var built: seq<Node> := [];
    for n := 0 to |elements|
      invariant |built| == n && Distinct(built) && Linked(built)
      invariant forall i :: 0 <= i < n ==> fresh(built[i]) && (built[i].name, built[i].value) == elements[i]
      invariant if n == 0 then head == null && current == null else head == built[0] && current == built[n - 1] && current.next == null
    {
      var node := new Node(elements[n].0, elements[n].1);
      if head == null {
        head := node;
      } else {
        current.next := node;
        node.prev := current;
      }
      current := node;
      built := built + [node];
    }
    if head != null {
      head.prev := current;
    }
    parent.child, parent.children := head, built;
    forall i | 0 <= i < |built| ensures LinkedAt(built, i) {
      assert i + 1 < |built| ==> built[i].next == built[i + 1];
      assert i > 0 ==> built[i - 1].next == built[i - 1 + 1];
    }
  }
}
