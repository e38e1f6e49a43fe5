/** What deleting a queue of items comes to when a deleted item takes along what hangs below it: which are freed, and
    exactly when one is freed twice. */
module DeferredDeletes {
  import opened Collections
  import opened Forests
  import opened AliasUnits

  /** These, and all that hangs below them. */
  ghost function Doomed(f: Aliases, ids: set<nat>): set<nat> {
    set a, x | a in ids && x in Keys(Find(f, a)) :: x
  }

  /** The item at `i` is first listed after one it hangs below. */
  ghost predicate Late(f: Aliases, ids: seq<nat>, i: nat) {
    i < |ids| && ids[i] !in ids[..i] && exists j :: 0 <= j < i && ids[i] in Keys(Find(f, ids[j]))
  }

  ghost predicate AnyLate(f: Aliases, ids: seq<nat>) {
    exists i :: Late(f, ids, i)
  }

  /** None is listed twice, and none after one it hangs below. */
  ghost predicate ChildrenFirst(f: Aliases, ids: seq<nat>) {
    forall j, i :: 0 <= j < i < |ids| ==> ids[i] !in Keys(Find(f, ids[j]))
  }

  ghost predicate AllIn(ids: seq<nat>, f: Aliases) {
    forall x :: x in ids ==> x in Keys(f)
  }

  /** What hangs below a listed item is listed. */
  ghost predicate Whole(f: Aliases, ids: seq<nat>) {
    forall a, x :: a in ids && x in Keys(Find(f, a)) ==> x in ids
  }

  /** With an item, the top-level one it hangs below is listed. */
  ghost predicate WithRoots(f: Aliases, ids: seq<nat>) {
    forall r, x :: r in Roots(f) && x in Keys(Find(f, r)) && x in ids ==> r in ids
  }

  // ---- the top level ----

  lemma {:induction false} RootsKnown(f: Aliases)
    requires Distinct(f)
    ensures forall k :: k in Roots(f) ==> k in Keys(f)
    ensures NoRepeats(Roots(f))
    ensures forall a, b :: a in Roots(f) && b in Roots(f) && a != b ==> a !in Keys(Find(f, b))
  {
    if f.Tree? {
      RootsKnown(f.rest);
      forall b | b in Roots(f.rest) ensures Keys(Find(f.rest, b)) <= Keys(f.rest) {
        FindRemoveKeys(f.rest, b);
      }
    }
  }

  // ---- removing ----

  /** Removing an item takes from what hangs below each other just what hung below it. */
  lemma {:induction false} RemoveBelow(f: Aliases, a: nat, b: nat)
    requires Distinct(f)
    ensures Keys(Find(Remove(f, a), b)) == Keys(Find(f, b)) - Keys(Find(f, a))
  {
    if f.Tree? {
      FindRemoveKeys(f.kids, b);
      FindRemoveKeys(f.rest, b);
      if f.key != a {
        FindRemoveKeys(f.kids, a);
        FindRemoveKeys(f.rest, a);
        if a in Keys(f.kids) {
          RemoveBelow(f.kids, a, b);
        } else {
          RemoveBelow(f.rest, a, b);
        }
      }
    }
  }

  lemma {:induction false} RemoveKeepsValue(f: Aliases, a: nat, b: nat)
    requires Distinct(f) && b in Keys(Remove(f, a))
    ensures b in Keys(f) && Find(Remove(f, a), b).value == Find(f, b).value
  {
    FindRemoveKeys(f.kids, a);
    FindRemoveKeys(f.rest, a);
    if f.key != a && b in Keys(Remove(f.kids, a)) {
      RemoveKeepsValue(f.kids, a, b);
    } else if f.key != a && b != f.key {
      RemoveKeepsValue(f.rest, a, b);
    }
  }

  lemma {:induction false} RemoveRoots(f: Aliases, a: nat)
    requires Distinct(f)
    ensures forall k :: k in Roots(Remove(f, a)) <==> k in Roots(f) && k !in Keys(Find(f, a))
  {
    if f.Tree? {
      RootsKnown(f.rest);
      FindRemoveKeys(f.kids, a);
      FindRemoveKeys(f.rest, a);
      if f.key != a {
        RemoveRoots(f.rest, a);
      }
    }
  }

  // ---- deleting ----

  /** Enough to delete from. */
  ghost predicate Standing(s: Unit) {
    && Distinct(s.forest) && NoRepeats(s.freed)
    && (forall k :: k in s.lookup <==> k in Keys(s.forest))
    && (forall x :: x in s.freed ==> x !in Keys(s.forest))
  }

  /** These and no others are freed, each once; whether something went wrong is another matter. */
  ghost predicate Freed(s: Unit, s': Unit, gone: set<nat>) {
    && Keys(s'.forest) == Keys(s.forest) - gone && gone <= Keys(s.forest)
    && (forall k :: k in Roots(s'.forest) <==> k in Roots(s.forest) && k !in gone)
    && (forall k :: Keys(Find(s'.forest, k)) == Keys(Find(s.forest, k)) - gone)
    && (forall k :: k in Keys(s'.forest) && k in Keys(s.forest) ==> Find(s'.forest, k).value == Find(s.forest, k).value)
    && s'.wanted == s.wanted - gone && s'.active == s.active - gone
    && s'.cleanupSet == s.cleanupSet && s'.uninstallList == s.uninstallList && s'.maxID == s.maxID
    && s'.depth == s.depth && s'.stopped == s.stopped && s'.grafted == s.grafted && s'.regrown == s.regrown
    && s'.deepest == s.deepest && s'.passes == s.passes && s'.sent == s.sent
    && |s.freed| <= |s'.freed| && s'.freed[..|s.freed|] == s.freed
    && (forall x :: x in s'.freed <==> x in s.freed || x in gone)
  }

  lemma {:induction false} WithoutFacts(ids: seq<nat>, gone: set<nat>)
    ensures forall k :: k in Without(ids, gone) <==> k in ids && k !in gone
  {
    if ids != [] {
      WithoutFacts(ids[1..], gone);
      assert ids == [ids[0]] + ids[1..];
    }
  }

  lemma {:induction false} FreedNone(s: Unit)
    ensures Freed(s, s, {}) && Freed(s, s.(faulted := true), {})
    ensures Standing(s) ==> Standing(s.(faulted := true))
  {
  }

  lemma {:induction false} FreedTrans(a: Unit, b: Unit, c: Unit, first: set<nat>, others: set<nat>)
    requires Freed(a, b, first) && Freed(b, c, others)
    ensures Freed(a, c, first + others)
  {
    assert c.freed[..|a.freed|] == c.freed[..|b.freed|][..|a.freed|];
  }

  lemma {:induction false} DeleteFrees(s: Unit, a: nat)
    requires Standing(s)
    ensures Freed(s, Delete(s, a), Keys(Find(s.forest, a))) && Standing(Delete(s, a))
    ensures Delete(s, a).forest == Remove(s.forest, a)
    ensures Delete(s, a).faulted <==> s.faulted || a !in Keys(s.forest)
  {
    var t := Find(s.forest, a);
    FindRemoveKeys(s.forest, a);
    if t.End? {
      FreedNone(s);
    } else {
      WithoutFacts(s.lookup, Keys(t));
      RemoveRoots(s.forest, a);
      PostorderFacts(t);
      forall k ensures Keys(Find(Remove(s.forest, a), k)) == Keys(Find(s.forest, k)) - Keys(t)
        ensures k in Keys(Remove(s.forest, a)) && k in Keys(s.forest) ==>
                  Find(Remove(s.forest, a), k).value == Find(s.forest, k).value
      {
        RemoveBelow(s.forest, a, k);
        if k in Keys(Remove(s.forest, a)) {
          RemoveKeepsValue(s.forest, a, k);
        }
      }
      FreedMore(s.freed, Postorder(t), s.forest);
    }
  }

  lemma {:induction false} FreedMore(freed: seq<nat>, more: seq<nat>, f: Aliases)
    requires NoRepeats(freed) && NoRepeats(more) && AllIn(more, f) && forall x :: x in freed ==> x !in Keys(f)
    ensures NoRepeats(freed + more) && (freed + more)[..|freed|] == freed
  {
    var all := freed + more;
    forall i, j | 0 <= i < j < |all| ensures all[i] != all[j] {
      if i < |freed| <= j {
        assert all[i] in freed && all[j] in more;
      }
    }
  }

  /** One item less to delete. */
  lemma {:induction false} DoomedNext(f: Aliases, a: nat, left: set<nat>)
    requires Distinct(f)
    ensures Keys(Find(f, a)) + Doomed(Remove(f, a), left) == Doomed(f, {a} + left)
  {
    forall b ensures Keys(Find(Remove(f, a), b)) == Keys(Find(f, b)) - Keys(Find(f, a)) {
      RemoveBelow(f, a, b);
    }
  }

  /** What is freed: these, and all that hung below them when it began. */
  lemma {:induction false} DeleteUnseenFrees(s: Unit, ids: seq<nat>, seen: set<nat>)
    requires Standing(s)
    ensures Freed(s, DeleteUnseen(s, ids, seen), Doomed(s.forest, Elements(ids) - seen))
    ensures Standing(DeleteUnseen(s, ids, seen))
    decreases |ids|
  {
    hide *;
    DeleteUnseenUnfolds(s, ids, seen);
    if ids == [] {
      FreedNone(s);
    } else if ids[0] in seen {
      DeleteUnseenFrees(s, ids[1..], seen);
    } else {
      var a, s1 := ids[0], Delete(s, ids[0]);
      var left := Elements(ids[1..]) - (seen + {a});
      DeleteFrees(s, a);
      DeleteUnseenFrees(s1, ids[1..], seen + {a});
      FreedTrans(s, s1, DeleteUnseen(s, ids, seen), Keys(Find(s.forest, a)), Doomed(s1.forest, left));
      StandingDistinct(s);
      DoomedNext(s.forest, a, left);
    }
  }

  lemma {:induction false} StandingDistinct(s: Unit)
    requires Standing(s)
    ensures Distinct(s.forest)
  {
  }

  lemma {:induction false} DeleteUnseenUnfolds(s: Unit, ids: seq<nat>, seen: set<nat>)
    ensures ids == [] ==> DeleteUnseen(s, ids, seen) == s && Doomed(s.forest, Elements(ids) - seen) == {}
    ensures ids != [] && ids[0] in seen ==>
              DeleteUnseen(s, ids, seen) == DeleteUnseen(s, ids[1..], seen)
              && Elements(ids) - seen == Elements(ids[1..]) - seen
    ensures ids != [] && ids[0] !in seen ==>
              DeleteUnseen(s, ids, seen) == DeleteUnseen(Delete(s, ids[0]), ids[1..], seen + {ids[0]})
              && Elements(ids) - seen == {ids[0]} + (Elements(ids[1..]) - (seen + {ids[0]}))
  {
    if ids != [] {
      assert ids == [ids[0]] + ids[1..];
      assert Elements(ids) == {ids[0]} + Elements(ids[1..]);
    }
  }

  /** By its turn the item at `i` is gone without having had a turn. */
  ghost predicate Missed(f: Aliases, ids: seq<nat>, seen: set<nat>, i: nat) {
    && i < |ids| && ids[i] !in seen && ids[i] !in ids[..i]
    && (ids[i] !in Keys(f) || exists j :: 0 <= j < i && ids[j] !in seen && ids[i] in Keys(Find(f, ids[j])))
  }

  lemma {:induction false} MissedNext(f: Aliases, f': Aliases, ids: seq<nat>, seen: set<nat>, i: nat)
    requires ids != [] && i < |ids[1..]|
    requires if ids[0] in seen then f' == f
             else Distinct(f) && f' == Remove(f, ids[0]) && ids[0] in Keys(f)
    ensures Missed(f, ids, seen, i + 1) <==> Missed(f', ids[1..], seen + {ids[0]}, i)
  {
    var a, rest, x := ids[0], ids[1..], ids[i + 1];
    assert rest[i] == x && ids[..i + 1] == [a] + rest[..i];
    forall j | 0 <= j < i ensures rest[j] == ids[j + 1] {
    }
    if a !in seen {
      FindRemoveKeys(f, a);
      forall b ensures Keys(Find(f', b)) == Keys(Find(f, b)) - Keys(Find(f, a)) {
        RemoveBelow(f, a, b);
      }
    }
    if j :| 0 <= j < i + 1 && ids[j] !in seen && x in Keys(Find(f, ids[j])) && ids[j] != a {
      assert rest[j - 1] == ids[j];
    }
    if j :| 0 <= j < i && rest[j] !in seen + {a} && x in Keys(Find(f', rest[j])) {
      assert ids[j + 1] == rest[j];
    }
  }

  /** Something is freed twice exactly when an item is missed. */
  lemma {:induction false} DeleteUnseenFaults(s: Unit, ids: seq<nat>, seen: set<nat>)
    requires Standing(s)
    ensures DeleteUnseen(s, ids, seen).faulted <==> s.faulted || exists i :: Missed(s.forest, ids, seen, i)
    decreases |ids|
  {
    hide *;
    DeleteUnseenTurns(s, ids, seen);
    if ids != [] {
      var s1 := if ids[0] in seen then s else Delete(s, ids[0]);
      DeleteFrees(s, ids[0]);
      DeleteUnseenFaults(s1, ids[1..], seen + {ids[0]});
      if ids[0] in seen || ids[0] in Keys(s.forest) {
        StandingDistinct(s);
        MissedLater(s.forest, s1.forest, ids, seen);
      } else {
        MissedFirst(s.forest, ids, seen);
      }
    }
  }

  lemma {:induction false} DeleteUnseenTurns(s: Unit, ids: seq<nat>, seen: set<nat>)
    ensures ids == [] ==> DeleteUnseen(s, ids, seen) == s && forall i :: !Missed(s.forest, ids, seen, i)
    ensures ids != [] ==>
              DeleteUnseen(s, ids, seen)
              == DeleteUnseen(if ids[0] in seen then s else Delete(s, ids[0]), ids[1..], seen + {ids[0]})
  {
    if ids != [] && ids[0] in seen {
      assert seen + {ids[0]} == seen;
    }
  }

  lemma {:induction false} MissedFirst(f: Aliases, ids: seq<nat>, seen: set<nat>)
    requires ids != [] && ids[0] !in seen && ids[0] !in Keys(f)
    ensures Missed(f, ids, seen, 0)
  {
  }

  lemma {:induction false} MissedLater(f: Aliases, f': Aliases, ids: seq<nat>, seen: set<nat>)
    requires ids != []
    requires if ids[0] in seen then f' == f else Distinct(f) && f' == Remove(f, ids[0]) && ids[0] in Keys(f)
    ensures (exists i :: Missed(f, ids, seen, i)) <==> exists i :: Missed(f', ids[1..], seen + {ids[0]}, i)
  {
    if i: nat :| Missed(f, ids, seen, i) {
      MissedNext(f, f', ids, seen, i - 1);
      assert Missed(f', ids[1..], seen + {ids[0]}, i - 1);
    }
    if i: nat :| Missed(f', ids[1..], seen + {ids[0]}, i) {
      MissedNext(f, f', ids, seen, i);
      assert Missed(f, ids, seen, i + 1);
    }
  }

  /** Without a seen-set, when nothing is listed twice. */
  lemma {:induction false} DeleteEachIsUnseen(s: Unit, ids: seq<nat>, seen: set<nat>)
    requires NoRepeats(ids) && forall i :: 0 <= i < |ids| ==> ids[i] !in seen
    ensures DeleteEach(s, ids) == DeleteUnseen(s, ids, seen)
    decreases |ids|
  {
    if ids != [] {
      forall i | 0 <= i < |ids[1..]| ensures ids[1..][i] !in seen + {ids[0]} {
        assert ids[1..][i] == ids[i + 1];
      }
      DeleteEachIsUnseen(Delete(s, ids[0]), ids[1..], seen + {ids[0]});
    }
  }

  /** Deleting in an order in which children come first goes well. */
  lemma {:induction false} DeleteInOrder(s: Unit, ids: seq<nat>)
    requires Standing(s) && AllIn(ids, s.forest) && ChildrenFirst(s.forest, ids)
    ensures var r := DeleteEach(s, ids);
            Freed(s, r, Doomed(s.forest, Elements(ids))) && Standing(r) && r.faulted == s.faulted
  {
    forall i, j | 0 <= i < j < |ids| ensures ids[i] != ids[j] {
      assert ids[i] in Keys(s.forest);
      FindRemoveKeys(s.forest, ids[i]);
      assert ids[i] in Keys(Find(s.forest, ids[i]));
    }
    DeleteEachIsUnseen(s, ids, {});
    DeleteUnseenFrees(s, ids, {});
    DeleteUnseenFaults(s, ids, {});
    assert Elements(ids) - {} == Elements(ids);
  }

  // ---- listing a package ----

  lemma {:induction false} PostorderFacts(f: Aliases)
    requires Distinct(f)
    ensures forall k :: k in Postorder(f) <==> k in Keys(f)
    ensures ChildrenFirst(f, Postorder(f)) && NoRepeats(Postorder(f))
  {
    if f.Tree? {
      var a, b := Postorder(f.kids), Postorder(f.rest);
      PostorderFacts(f.kids);
      PostorderFacts(f.rest);
      TwoParts(f, f.kids, f.rest, a, b);
      var ids := a + [f.key] + b;
      forall i, j | 0 <= i < j < |ids| ensures ids[i] != ids[j] {
        assert ids[i] in Keys(f);
        assert ids[i] in Keys(Find(f, ids[i]));
      }
    }
  }

  /** The kids' list, then the item, then the siblings' list. */
  lemma {:induction false} TwoParts(f: Aliases, kids: Aliases, rest: Aliases, a: seq<nat>, b: seq<nat>)
    requires f.Tree? && Distinct(f) && kids == f.kids && rest == f.rest
    requires AllIn(a, kids) && ChildrenFirst(kids, a) && AllIn(b, rest) && ChildrenFirst(rest, b)
    ensures ChildrenFirst(f, a + [f.key] + b)
  {
    var ids := a + [f.key] + b;
    forall j, i | 0 <= j < i < |ids| ensures ids[i] !in Keys(Find(f, ids[j])) {
      if j < |a| {
        assert ids[j] == a[j] && a[j] in Keys(kids);
        FindRemoveKeys(kids, a[j]);
        if i > |a| {
          assert ids[i] == b[i - |a| - 1] && ids[i] in Keys(rest);
        }
      } else if j == |a| {
        assert ids[i] == b[i - |a| - 1] && ids[i] in Keys(rest);
      } else {
        assert ids[j] == b[j - |a| - 1] && b[j - |a| - 1] in Keys(rest) && ids[i] == b[i - |a| - 1];
      }
    }
  }

  /** What uninstalling lists: top-level items with all that is below them, children first. */
  lemma {:induction false} CollectedFacts(f: Aliases, package: string)
    requires Distinct(f)
    ensures var ids := Collected(f, package);
            AllIn(ids, f) && ChildrenFirst(f, ids) && Whole(f, ids) && WithRoots(f, ids)
  {
    if f.Tree? {
      var b := Collected(f.rest, package);
      CollectedFacts(f.rest, package);
      CollectedWhole(f, package);
      if f.value.package == package {
        PostorderFacts(f.kids);
        TwoParts(f, f.kids, f.rest, Postorder(f.kids), b);
        assert Collected(f, package) == Postorder(f.kids) + [f.key] + b;
      } else {
        assert Collected(f, package) == b;
        forall j, i | 0 <= j < i < |b| ensures b[i] !in Keys(Find(f, b[j])) {
          assert b[j] in Keys(f.rest);
        }
      }
    }
  }

  lemma {:induction false} CollectedWhole(f: Aliases, package: string)
    requires f.Tree? && Distinct(f)
    requires var ids := Collected(f.rest, package);
             AllIn(ids, f.rest) && Whole(f.rest, ids) && WithRoots(f.rest, ids)
    ensures Whole(f, Collected(f, package)) && WithRoots(f, Collected(f, package))
  {
    var ids, b := Collected(f, package), Collected(f.rest, package);
    PostorderFacts(f.kids);
    RootsKnown(f.rest);
    forall a, x | a in ids && x in Keys(Find(f, a)) ensures x in ids {
      FindRemoveKeys(f.kids, a);
      if a in b {
        assert a in Keys(f.rest);
        assert x in b;
      }
    }
    forall r, x | r in Roots(f) && x in Keys(Find(f, r)) && x in ids ensures r in ids {
      if r != f.key {
        FindRemoveKeys(f.rest, r);
        assert x in Keys(f.rest) && x in b;
      } else {
        assert Keys(f.(rest := End)) == {f.key} + Keys(f.kids);
        assert x in Keys(f) - Keys(f.rest);
        assert ids != b;
      }
    }
  }

  lemma {:induction false} WholeIsDoomed(f: Aliases, ids: seq<nat>)
    requires AllIn(ids, f) && Whole(f, ids)
    ensures Doomed(f, Elements(ids)) == Elements(ids)
  {
    forall x | x in ids ensures x in Doomed(f, Elements(ids)) {
      assert x in Keys(f);
      assert x in Keys(Find(f, x));
    }
  }

  // ---- listing a package, as both units do ----

  /** _uninstall(): what is below is appended children first. */
  method ListBelow(level: Aliases, listed: seq<nat>) returns (ids: seq<nat>)
    ensures ids == listed + Postorder(level)
    decreases level
  {
    ids := listed;
    if level.Tree? {
      ids := ListBelow(level.kids, ids);
      ids := ListBelow(level.rest, ids + [level.key]);
    }
  }

  method ListPackage(topLevel: Aliases, package: string, listed: seq<nat>) returns (ids: seq<nat>)
    ensures ids == listed + Collected(topLevel, package)
  {
    ids := listed;
    var level := topLevel;
    while level.Tree?
      invariant ids + Collected(level, package) == listed + Collected(topLevel, package)
      decreases level
    {
      if level.value.package == package {
        ids := ListBelow(level.kids, ids);
        ids := ids + [level.key];
      }
      level := level.rest;
    }
  }
}
