/** The list of top-level aliases with its position index: each alias' place is remembered as the list node it
    sits in, so that one alias can be taken out without walking the list. */
module AliasRootList {
  import opened Collections

  /** A list node: `handle` is the iterator that names it, valid until the node is erased. */
  datatype Node = Node(handle: nat, alias: nat)

  function Aliases(nodes: seq<Node>): (r: seq<nat>)
    ensures |r| == |nodes| && forall i :: 0 <= i < |nodes| ==> r[i] == nodes[i].alias
  {
    if nodes == [] then [] else [nodes[0].alias] + Aliases(nodes[1..])
  }

  function Unlisted(order: seq<nat>, alias: nat): seq<nat> {
    if order == [] then []
    else if order[0] == alias then order[1..]
    else [order[0]] + Unlisted(order[1..], alias)
  }

  /** Where addAliasRootNode() inserts among `size` aliases: at the end, or before the first one that is not before that
      position; if there is none, nowhere. */
  function Place(parentPosition: int, childPosition: int, size: nat): (place: Option<nat>)
    ensures place.Some? ==> place.value <= size
  {
    if parentPosition == -1 || childPosition >= size then Some(size)
    else if size == 0 then None
    else if childPosition <= 0 then Some(0)
    else Some(childPosition)
  }

  /** An alias that is already listed is not listed again. */
  function Inserted(order: seq<nat>, alias: nat, at: nat): seq<nat>
    requires at <= |order|
  {
    if alias in order then order else order[..at] + [alias] + order[at..]
  }

  function Added(order: seq<nat>, alias: nat, parentPosition: int, childPosition: int): seq<nat> {
    var place := Place(parentPosition, childPosition, |order|);
    if place.None? then order else Inserted(order, alias, place.value)
  }

  /** A move from the top level to the top level. */
  function Moved(order: seq<nat>, alias: nat, parentPosition: int, childPosition: int): seq<nat> {
    Added(Unlisted(order, alias), alias, parentPosition, childPosition)
  }

  /** reParentAlias(), as the top level sees it. */
  function ReParented(order: seq<nat>, alias: nat, fromFolder: bool, toFolder: bool, parentPosition: int, childPosition: int): seq<nat> {
    var left := if fromFolder then order else Unlisted(order, alias);
    if toFolder then left else Added(left, alias, parentPosition, childPosition)
  }

  lemma {:induction false} UnlistedAt(order: seq<nat>, i: nat)
    requires NoRepeats(order) && i < |order|
    ensures Unlisted(order, order[i]) == order[..i] + order[i + 1..]
  {
    if i > 0 {
      UnlistedAt(order[1..], i - 1);
      assert order[1..][..i - 1] == order[1..i] && order[1..][i..] == order[i + 1..];
      assert order[..i] == [order[0]] + order[1..i];
    }
  }

  lemma {:induction false} UnlistedFacts(order: seq<nat>, alias: nat)
    requires NoRepeats(order)
    ensures NoRepeats(Unlisted(order, alias))
    ensures forall x :: x in Unlisted(order, alias) <==> x in order && x != alias
    ensures alias !in order ==> Unlisted(order, alias) == order
  {
    if order != [] {
      assert order == [order[0]] + order[1..];
      UnlistedFacts(order[1..], alias);
      if order[0] != alias {
        var rest := Unlisted(order[1..], alias);
        forall i | 0 <= i < |rest| ensures rest[i] != order[0] {
          assert rest[i] in rest;
        }
      }
    }
  }

  lemma {:induction false} InsertedFacts(order: seq<nat>, alias: nat, at: nat)
    requires NoRepeats(order) && alias !in order && at <= |order|
    ensures var r := order[..at] + [alias] + order[at..];
            && NoRepeats(r) && r[at] == alias && r[..at] + r[at + 1..] == order
            && forall x :: x in r <==> x == alias || x in order
  {
    var r := order[..at] + [alias] + order[at..];
    forall i | 0 <= i < |r| && i != at ensures r[i] == order[if i < at then i else i - 1] {
    }
    assert order == order[..at] + order[at..];
    forall i, j | 0 <= i < j < |r| ensures r[i] != r[j] {
      if i != at && j != at {
        assert r[i] == order[if i < at then i else i - 1] && r[j] == order[if j < at then j else j - 1];
      }
    }
    InsertedOut(order, alias, at);
  }

  lemma {:induction false} InsertedOut(order: seq<nat>, alias: nat, at: nat)
    requires at <= |order|
    ensures var r := order[..at] + [alias] + order[at..];
            r[at] == alias && r[..at] + r[at + 1..] == order
  {
    var r := order[..at] + [alias] + order[at..];
    assert r[..at] == order[..at] && r[at + 1..] == order[at..];
    assert order == order[..at] + order[at..];
  }

  /** A move within the top level loses the alias exactly when it is the only one and goes to a place before the first. */
  lemma {:induction false} MoveLosesIff(order: seq<nat>, i: nat, parentPosition: int, childPosition: int)
    requires NoRepeats(order) && i < |order|
    ensures var r := Moved(order, order[i], parentPosition, childPosition);
            && (order[i] !in r <==> |order| == 1 && parentPosition != -1 && childPosition < 0)
            && NoRepeats(r) && forall x :: x != order[i] ==> (x in r <==> x in order)
  {
    UnlistedAt(order, i);
    UnlistedFacts(order, order[i]);
    var rest := Unlisted(order, order[i]);
    var place := Place(parentPosition, childPosition, |rest|);
    if place.Some? {
      InsertedFacts(rest, order[i], place.value);
    }
  }

  /** Moving an alias within the top level and back to where it was restores the order, lost in between or not. */
  lemma {:induction false} MoveAndBack(order: seq<nat>, i: nat, parentPosition: int, childPosition: int)
    requires NoRepeats(order) && i < |order|
    ensures Moved(Moved(order, order[i], parentPosition, childPosition), order[i], 0, i) == order
  {
    var a, rest := order[i], Unlisted(order, order[i]);
    UnlistedAt(order, i);
    UnlistedFacts(order, a);
    var place := Place(parentPosition, childPosition, |rest|);
    assert rest[..i] == order[..i] && rest[i..] == order[i + 1..];
    assert order == order[..i] + [a] + order[i + 1..];
    if place.Some? {
      InsertedFacts(rest, a, place.value);
      BackAgain(rest, a, place.value, i);
    } else {
      UnlistedFacts(rest, a);
    }
  }

  /** Moving a top-level alias into a folder and back to where it was, or one of a folder to the top level and back,
      restores the order; moves between folders do not touch it. */
  lemma {:induction false} FolderAndBack(order: seq<nat>, alias: nat, i: nat, parentPosition: int, childPosition: int)
    requires NoRepeats(order)
    ensures i < |order| && order[i] == alias ==>
              ReParented(ReParented(order, alias, false, true, parentPosition, childPosition), alias, true, false, 0, i) == order
    ensures alias !in order ==>
              ReParented(ReParented(order, alias, true, false, parentPosition, childPosition), alias, false, true, 0, i) == order
    ensures ReParented(order, alias, true, true, parentPosition, childPosition) == order
  {
    UnlistedFacts(order, alias);
    if i < |order| && order[i] == alias {
      UnlistedAt(order, i);
      assert order[..i] + order[i + 1..] == Unlisted(order, alias);
      assert order == order[..i] + [alias] + order[i + 1..];
    }
    var place := Place(parentPosition, childPosition, |order|);
    if alias !in order && place.Some? {
      InsertedFacts(order, alias, place.value);
      UnlistedAt(order[..place.value] + [alias] + order[place.value..], place.value);
    }
  }

  lemma {:induction false} BackAgain(rest: seq<nat>, a: nat, at: nat, i: nat)
    requires NoRepeats(rest) && a !in rest && at <= |rest| && i <= |rest|
    ensures Moved(rest[..at] + [a] + rest[at..], a, 0, i) == rest[..i] + [a] + rest[i..]
  {
    InsertedFacts(rest, a, at);
    UnlistedAt(rest[..at] + [a] + rest[at..], at);
  }

  // ---- the list and its index together ----

  ghost function Listed(nodes: seq<Node>): set<nat> {
    set i | 0 <= i < |nodes| :: nodes[i].alias
  }

  /** No alias twice, the index knows exactly the listed ones, and each position is that of its own node. */
  ghost predicate Consistent(nodes: seq<Node>, positions: map<nat, nat>, next: nat) {
    && (forall i, j :: 0 <= i < j < |nodes| ==> nodes[i].alias != nodes[j].alias && nodes[i].handle != nodes[j].handle)
    && positions.Keys == Listed(nodes)
    && forall i :: 0 <= i < |nodes| ==> nodes[i].handle < next && positions[nodes[i].alias] == nodes[i].handle
  }

  function WithNode(nodes: seq<Node>, at: nat, node: Node): (r: seq<Node>)
    requires at <= |nodes|
    ensures |r| == |nodes| + 1 && r[at] == node
    ensures forall i :: 0 <= i < |r| && i != at ==> r[i] == nodes[if i < at then i else i - 1]
  {
    nodes[..at] + [node] + nodes[at..]
  }

  function WithoutNode(nodes: seq<Node>, at: nat): (r: seq<Node>)
    requires at < |nodes|
    ensures |r| == |nodes| - 1
    ensures forall i :: 0 <= i < |r| ==> r[i] == nodes[if i < at then i else i + 1]
  {
    nodes[..at] + nodes[at + 1..]
  }

  lemma {:induction false} NodeInserted(nodes: seq<Node>, positions: map<nat, nat>, next: nat, at: nat, alias: nat)
    requires Consistent(nodes, positions, next) && alias !in positions && at <= |nodes|
    ensures Consistent(WithNode(nodes, at, Node(next, alias)), positions[alias := next], next + 1)
  {
    hide WithNode;
    var r := WithNode(nodes, at, Node(next, alias));
    forall i | 0 <= i < |nodes| ensures nodes[i].alias in positions && nodes[i].alias in Listed(r) {
      assert nodes[i].alias in Listed(nodes);
      assert nodes[i] == r[if i < at then i else i + 1];
    }
    assert r[at].alias in Listed(r);
    assert Listed(r) == Listed(nodes) + {alias};
  }

  lemma {:induction false} NodeErased(nodes: seq<Node>, positions: map<nat, nat>, next: nat, at: nat)
    requires Consistent(nodes, positions, next) && at < |nodes|
    ensures Consistent(WithoutNode(nodes, at), positions - {nodes[at].alias}, next)
  {
    hide WithoutNode;
    var r := WithoutNode(nodes, at);
    forall i | 0 <= i < |nodes| && i != at ensures nodes[i].alias in Listed(r) {
      assert nodes[i] == r[if i < at then i else i - 1];
    }
    assert Listed(r) == Listed(nodes) - {nodes[at].alias};
  }

  lemma {:induction false} OrderWith(nodes: seq<Node>, at: nat, node: Node)
    requires at <= |nodes|
    ensures Aliases(WithNode(nodes, at, node)) == Aliases(nodes)[..at] + [node.alias] + Aliases(nodes)[at..]
  {
    hide *;
  }

  lemma {:induction false} OrderWithout(nodes: seq<Node>, at: nat)
    requires at < |nodes| && NoRepeats(Aliases(nodes))
    ensures Aliases(WithoutNode(nodes, at)) == Unlisted(Aliases(nodes), nodes[at].alias)
  {
    hide *;
    UnlistedAt(Aliases(nodes), at);
    assert Aliases(WithoutNode(nodes, at)) == Aliases(nodes)[..at] + Aliases(nodes)[at + 1..];
  }

  lemma {:induction false} ConsistentOrder(nodes: seq<Node>, positions: map<nat, nat>, next: nat)
    requires Consistent(nodes, positions, next)
    ensures NoRepeats(Aliases(nodes)) && forall a :: a in positions <==> a in Aliases(nodes)
  {
    forall a | a in positions ensures a in Aliases(nodes) {
      var i :| 0 <= i < |nodes| && nodes[i].alias == a;
      assert Aliases(nodes)[i] == a;
    }
  }

  lemma {:induction false} UnlistedOrder(nodes: seq<Node>, positions: map<nat, nat>, next: nat, alias: nat)
    requires Consistent(nodes, positions, next)
    ensures NoRepeats(Aliases(nodes))
    ensures alias !in positions ==> Unlisted(Aliases(nodes), alias) == Aliases(nodes)
  {
    ConsistentOrder(nodes, positions, next);
    UnlistedFacts(Aliases(nodes), alias);
  }

  class RootList {
    var nodes: seq<Node>
    var positions: map<nat, nat>
    var nextHandle: nat

    ghost function Order(): seq<nat>
      reads this
    {
      Aliases(nodes)
    }

    ghost predicate Valid()
      reads this
    {
      Consistent(nodes, positions, nextHandle)
    }

    constructor ()
      ensures Valid() && Order() == []
    {
      nodes, positions, nextHandle := [], map[], 0;
    }

    method ListRootNode(alias: nat, before: nat)
      requires Valid() && before <= |nodes|
      modifies this
      ensures Valid() && Order() == Inserted(old(Order()), alias, before)
    {
      ConsistentOrder(nodes, positions, nextHandle);
      if alias !in positions {
        NodeInserted(nodes, positions, nextHandle, before, alias);
        OrderWith(nodes, before, Node(nextHandle, alias));
        nodes := WithNode(nodes, before, Node(nextHandle, alias));
        positions := positions[alias := nextHandle];
        nextHandle := nextHandle + 1;
      }
    }

    /** Erasing by position is removing the alias from the order. */
    method UnlistRootNode(alias: nat)
      requires Valid()
      modifies this
      ensures Valid() && Order() == Unlisted(old(Order()), alias)
    {
      UnlistedOrder(nodes, positions, nextHandle, alias);
      hide WithoutNode, Unlisted, Aliases, Consistent;
      if alias in positions {
        var i := NodeAt(alias, positions[alias]);
        NodeErased(nodes, positions, nextHandle, i);
        OrderWithout(nodes, i);
        nodes := WithoutNode(nodes, i);
        positions := positions - {alias};
      }
    }

    /** Following an iterator to its node. */
    method NodeAt(alias: nat, handle: nat) returns (i: nat)
      requires Valid() && alias in positions && positions[alias] == handle
      ensures i < |nodes| && nodes[i] == Node(handle, alias)
    {
      ghost var k :| 0 <= k < |nodes| && nodes[k].alias == alias;
      i := 0;
      while nodes[i].handle != handle
        invariant i <= k
        decreases k - i
      {
        i := i + 1;
      }
    }

    method AddRootNode(alias: nat, parentPosition: int, childPosition: int)
      requires Valid()
      modifies this
      ensures Valid() && Order() == Added(old(Order()), alias, parentPosition, childPosition)
    {
      if parentPosition == -1 || childPosition >= |nodes| {
        ListRootNode(alias, |nodes|);
      } else {
        var cnt := 0;
        while cnt < |nodes|
          invariant cnt == 0 || cnt <= childPosition
          invariant nodes == old(nodes) && Valid()
        {
          if cnt >= childPosition {
            ListRootNode(alias, cnt);
            return;
          }
          cnt := cnt + 1;
        }
      }
    }

    /** reParentAlias(): from the top level or a folder to the top level or a folder. */
    method ReParentAlias(alias: nat, fromFolder: bool, toFolder: bool, parentPosition: int, childPosition: int)
      requires Valid()
      modifies this
      ensures Valid() && Order() == ReParented(old(Order()), alias, fromFolder, toFolder, parentPosition, childPosition)
    {
      if !fromFolder {
        UnlistRootNode(alias);
      }
      if !toFolder {
        AddRootNode(alias, parentPosition, childPosition);
      }
    }
  }
}
