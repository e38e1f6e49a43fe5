/** No alias is used once freed, and what was queued is freed exactly once, unless an alias put below one already listed
    for deletion is then listed itself: over every nesting of passes, kills, installs, uninstalls, additions, switches
    and cleanups. */
module AliasSafety {
  import opened Collections
  import opened Forests
  import opened AliasUnits
  import opened DeferredDeletes

  // ---- what every operation keeps ----

  /** The queues: killed are top-level aliases of which nothing is listed, and a listed alias is there. */
  ghost predicate QueuesFit(s: Unit) {
    && Distinct(s.forest) && (forall k :: k in s.cleanupSet ==> k in Roots(s.forest))
    && AllIn(s.uninstallList, s.forest) && forall k :: k in s.cleanupSet ==> k !in s.uninstallList
  }

  /** Where IDs and switches stand. */
  ghost predicate Filed(s: Unit) {
    && (forall k :: k in Keys(s.forest) ==> 0 < k <= s.maxID)
    && (forall k :: k in s.lookup <==> k in Keys(s.forest))
    && Queued(s) !! s.wanted && Queued(s) !! s.active
    && s.depth <= MAX_PROCESSING_DEPTH && s.deepest <= MAX_PROCESSING_DEPTH
    && NoRepeats(s.freed) && (forall x :: x in s.freed ==> x <= s.maxID && x !in Keys(s.forest))
  }

  /** What the two marks tell: one that something is or will be freed twice, the other what that takes. */
  ghost predicate Marked(s: Unit) {
    && (s.regrown <==> s.faulted || AnyLate(s.forest, s.uninstallList))
    && (s.regrown ==> s.grafted) && (!s.grafted ==> Whole(s.forest, s.uninstallList))
  }

  ghost predicate Steady(s: Unit) {
    QueuesFit(s) && WithRoots(s.forest, s.uninstallList) && Filed(s) && Marked(s)
  }

  ghost predicate Sound(s: Unit) {
    Steady(s) && (s.depth == 0 ==> s.uninstallList == [] && !s.stopped)
  }

  /** Each alias is still there as it was, with at least what hung below it. */
  ghost predicate Carried(f: Aliases, f': Aliases) {
    forall k :: k in Keys(f) ==>
      k in Keys(f') && Find(f', k).value == Find(f, k).value && Keys(Find(f, k)) <= Keys(Find(f', k))
  }

  /** What may happen while a pass is open: aliases are added and switched, more of them are queued, none is
      freed. */
  ghost predicate Nested(s: Unit, s': Unit) {
    && Sound(s') && s'.depth == s.depth && s'.faulted == s.faulted && s'.freed == s.freed
    && s.maxID <= s'.maxID && Queued(s) <= Queued(s') && s.passes <= s'.passes
    && (s.regrown ==> s'.regrown) && (s.grafted ==> s'.grafted)
    && Carried(s.forest, s'.forest) && forall k :: k in Keys(s'.forest) && k <= s.maxID ==> k in Keys(s.forest)
  }

  lemma {:induction false} CarriedTrans(a: Aliases, b: Aliases, c: Aliases)
    requires Carried(a, b) && Carried(b, c)
    ensures Carried(a, c)
  {
  }

  lemma {:induction false} NestedTrans(a: Unit, b: Unit, c: Unit)
    requires Nested(a, b) && Nested(b, c)
    ensures Nested(a, c)
  {
    CarriedTrans(a.forest, b.forest, c.forest);
  }

  lemma {:induction false} CarriedSame(f: Aliases)
    ensures Carried(f, f)
  {
  }

  /** Switching, and killing top-level aliases that are not listed, change nothing else. */
  lemma {:induction false} SwitchedNested(s: Unit, s': Unit, on: set<nat>)
    requires Sound(s) && on !! Queued(s')
    requires s' == s.(wanted := s'.wanted, active := s'.active, cleanupSet := s'.cleanupSet)
    requires s'.wanted <= s.wanted + on && s'.active <= s.active + on && s.cleanupSet <= s'.cleanupSet
    requires forall k :: k in s'.cleanupSet && k !in s.cleanupSet ==>
               k in Roots(s.forest) && k !in s.uninstallList && k !in s'.wanted && k !in s'.active
    ensures Nested(s, s')
  {
  }

  lemma {:induction false} KillNested(s: Unit, ids: seq<nat>, name: string)
    requires Sound(s)
    ensures Nested(s, KillFrom(s, ids, name).0)
    ensures KillFrom(s, ids, name).1 <==> exists i :: 0 <= i < |ids| && Killable(s, ids[i], name)
    decreases |ids|
  {
    CarriedSame(s.forest);
    if ids != [] && Killable(s, ids[0], name) {
      SwitchedNested(s, KillFrom(s, ids, name).0, {});
    } else if ids != [] {
      KillNested(s, ids[1..], name);
      forall i | 0 <= i < |ids| && Killable(s, ids[i], name) ensures 0 < i && Killable(s, ids[1..][i - 1], name) {
      }
    }
  }

  lemma {:induction false} EnableNested(s: Unit, ids: seq<nat>, name: string)
    requires Sound(s)
    ensures Nested(s, EnableFrom(s, ids, name).0)
    decreases |ids|
  {
    hide *;
    EnableFirst(s, ids, name);
    if ids != [] {
      var s1 := if Named(s.forest, ids[0], name) && ids[0] !in Queued(s) then SetIsActive(s, ids[0], true) else s;
      EnableNested(s1, ids[1..], name);
      NestedTrans(s, s1, EnableFrom(s1, ids[1..], name).0);
    }
  }

  lemma {:induction false} EnableFirst(s: Unit, ids: seq<nat>, name: string)
    requires Sound(s)
    ensures ids == [] ==> Nested(s, EnableFrom(s, ids, name).0)
    ensures ids != [] ==>
              var s1 := if Named(s.forest, ids[0], name) && ids[0] !in Queued(s) then SetIsActive(s, ids[0], true) else s;
              Nested(s, s1) && Sound(s1) && EnableFrom(s, ids, name).0 == EnableFrom(s1, ids[1..], name).0
  {
    SwitchedNested(s, s, {});
    if ids != [] && ids[0] !in Queued(s) {
      SwitchedNested(s, SetIsActive(s, ids[0], true), {ids[0]});
    }
  }

  lemma {:induction false} DisableNested(s: Unit, ids: seq<nat>, name: string)
    requires Sound(s)
    ensures Nested(s, DisableFrom(s, ids, name).0)
    decreases |ids|
  {
    hide *;
    DisableFirst(s, ids, name);
    if ids != [] {
      var s1 := if Named(s.forest, ids[0], name) then SetIsActive(s, ids[0], false) else s;
      DisableNested(s1, ids[1..], name);
      NestedTrans(s, s1, DisableFrom(s1, ids[1..], name).0);
    }
  }

  lemma {:induction false} DisableFirst(s: Unit, ids: seq<nat>, name: string)
    requires Sound(s)
    ensures ids == [] ==> Nested(s, DisableFrom(s, ids, name).0)
    ensures ids != [] ==>
              var s1 := if Named(s.forest, ids[0], name) then SetIsActive(s, ids[0], false) else s;
              Nested(s, s1) && Sound(s1) && DisableFrom(s, ids, name).0 == DisableFrom(s1, ids[1..], name).0
  {
    SwitchedNested(s, s, {});
    if ids != [] {
      SwitchedNested(s, SetIsActive(s, ids[0], false), {});
    }
  }

  /** Outside any pass nothing is listed, so every temporary top-level alias may be killed. */
  lemma {:induction false} RemoveTempsNested(s: Unit, ids: seq<nat>)
    requires Sound(s) && s.depth == 0 && forall i :: 0 <= i < |ids| ==> ids[i] in Roots(s.forest)
    ensures Nested(s, RemoveTempsFrom(s, ids))
    decreases |ids|
  {
    SwitchedNested(s, s, {});
    if ids != [] {
      assert ids[0] in Roots(s.forest);
      forall i | 0 <= i < |ids[1..]| ensures ids[1..][i] in Roots(s.forest) {
        assert ids[1..][i] == ids[i + 1];
      }
      var s1 := s;
      if Find(s.forest, ids[0]).Tree? && Find(s.forest, ids[0]).value.temporary {
        s1 := SetIsActive(s, ids[0], false).(cleanupSet := s.cleanupSet + {ids[0]});
        SwitchedNested(s, s1, {});
      }
      RemoveTempsNested(s1, ids[1..]);
      NestedTrans(s, s1, RemoveTempsFrom(s, ids));
    }
  }

  // ---- adding ----

  /** The new ones are apart from what was there, which hangs as it did. */
  ghost predicate Grown(f: Aliases, f': Aliases, more: set<nat>) {
    && Distinct(f') && Keys(f') == Keys(f) + more && Keys(f) !! more
    && (forall k :: k in Keys(f) ==> Keys(Find(f', k)) - more == Keys(Find(f, k)))
    && (forall k :: k in Keys(f) && k in Keys(f') ==> Find(f', k).value == Find(f, k).value)
    && (forall k :: k in more ==> Keys(Find(f', k)) <= more)
    && (forall r :: r in Roots(f) ==> r in Roots(f')) && (forall r :: r in Roots(f') ==> r in Roots(f) || r in more)
  }

  lemma {:induction false} AppendRootFacts(f: Aliases, t: Aliases)
    requires t.Tree? && t.rest.End? && Distinct(f) && Distinct(t) && Keys(f) !! Keys(t)
    ensures Keys(AppendRoot(f, t)) == Keys(f) + Keys(t) && Distinct(AppendRoot(f, t))
    ensures Roots(AppendRoot(f, t)) == Roots(f) + [t.key]
    ensures forall k :: k in Keys(f) ==> Find(AppendRoot(f, t), k) == Find(f, k)
    ensures forall k :: k in Keys(t) ==> Find(AppendRoot(f, t), k) == Find(t, k)
    decreases f
  {
    if f.Tree? {
      AppendRootFacts(f.rest, t);
    }
  }

  lemma {:induction false} AppendGrows(f: Aliases, t: Aliases)
    requires t.Tree? && t.rest.End? && Distinct(f) && Distinct(t) && Keys(f) !! Keys(t)
    ensures Grown(f, AppendRoot(f, t), Keys(t))
    ensures forall k :: k in Keys(f) ==> Find(AppendRoot(f, t), k) == Find(f, k)
  {
    AppendRootFacts(f, t);
    forall k ensures Keys(Find(f, k)) <= Keys(f) && Keys(Find(t, k)) <= Keys(t) {
      FindRemoveKeys(f, k);
      FindRemoveKeys(t, k);
    }
  }

  lemma {:induction false} InsertedAmong(f: Aliases, position: nat, t: Aliases, k: nat)
    requires t.Tree? && t.rest.End? && Distinct(f) && Keys(f) !! Keys(t) && k in Keys(f)
    ensures Find(InsertAt(f, position, t), k) == Find(f, k)
  {
    if position != 0 && f.key != k && k !in Keys(f.kids) {
      InsertedAmong(f.rest, position - 1, t, k);
    }
  }

  lemma {:induction false} InsertBelowRoots(f: Aliases, p: nat, position: nat, t: Aliases)
    requires t.Tree?
    ensures Roots(InsertBelow(f, p, position, t)) == Roots(f)
  {
    if f.Tree? {
      InsertBelowRoots(f.rest, p, position, t);
    }
  }

  /** A new childless item below `p` hangs below just what `p` hangs below. */
  lemma {:induction false} LeafBelow(f: Aliases, p: nat, position: nat, t: Aliases, k: nat)
    requires t.Tree? && t.rest.End? && t.kids.End? && Distinct(f) && t.key !in Keys(f) && k in Keys(f)
    ensures k in Keys(InsertBelow(f, p, position, t))
    ensures Find(InsertBelow(f, p, position, t), k).value == Find(f, k).value
    ensures Keys(Find(InsertBelow(f, p, position, t), k))
            == Keys(Find(f, k)) + if p in Keys(Find(f, k)) then {t.key} else {}
  {
    LeafKeys(t);
    InsertBelowKeys(f, p, position, t);
    FindRemoveKeys(f.kids, k);
    FindRemoveKeys(f.rest, k);
    if f.key == p {
      InsertAtKeys(f.kids, position, t);
      if k in Keys(f.kids) {
        InsertedAmong(f.kids, position, t, k);
      }
    } else {
      InsertBelowKeys(f.kids, p, position, t);
      InsertBelowKeys(f.rest, p, position, t);
      if k in Keys(f.kids) {
        LeafBelow(f.kids, p, position, t, k);
      } else if k != f.key {
        LeafBelow(f.rest, p, position, t, k);
      }
    }
  }

  lemma {:induction false} LeafKeys(t: Aliases)
    requires t.Tree? && t.rest.End? && t.kids.End?
    ensures Keys(t) == {t.key} && Distinct(t) && Preorder(t) == [t.key] && Size(t) == 1
  {
    assert Keys(t) == {t.key} + Keys(t.kids) + Keys(t.rest);
    assert Preorder(t) == [t.key] + Preorder(t.kids) + Preorder(t.rest);
  }

  lemma {:induction false} InsertGrows(f: Aliases, p: nat, position: nat, t: Aliases)
    requires t.Tree? && t.rest.End? && t.kids.End? && Distinct(f) && t.key !in Keys(f) && p in Keys(f)
    ensures Grown(f, InsertBelow(f, p, position, t), Keys(t))
    ensures forall k :: k in Keys(f) && p !in Keys(Find(f, k)) ==>
              Keys(Find(InsertBelow(f, p, position, t), k)) == Keys(Find(f, k))
  {
    var f' := InsertBelow(f, p, position, t);
    LeafKeys(t);
    InsertBelowKeys(f, p, position, t);
    InsertBelowRoots(f, p, position, t);
    forall k | k in Keys(f)
      ensures k in Keys(f') && Find(f', k).value == Find(f, k).value
      ensures Keys(Find(f', k)) - Keys(t) == Keys(Find(f, k))
      ensures p !in Keys(Find(f, k)) ==> Keys(Find(f', k)) == Keys(Find(f, k))
    {
      LeafBelow(f, p, position, t, k);
      FindRemoveKeys(f, k);
    }
  }

  /** Listed items keep their order when others are added. */
  lemma {:induction false} LateGrown(f: Aliases, f': Aliases, more: set<nat>, ids: seq<nat>)
    requires Grown(f, f', more) && AllIn(ids, f)
    ensures AnyLate(f, ids) <==> AnyLate(f', ids)
  {
    forall j | 0 <= j < |ids| ensures ids[j] in Keys(f) {
    }
    forall i: nat ensures Late(f, ids, i) <==> Late(f', ids, i) {
      if j :| 0 <= j < i < |ids| && ids[i] in Keys(Find(f, ids[j])) {
        assert ids[i] in Keys(Find(f', ids[j]));
      }
      if j :| 0 <= j < i < |ids| && ids[i] in Keys(Find(f', ids[j])) {
        assert ids[i] in Keys(Find(f, ids[j]));
      }
    }
    if AnyLate(f, ids) {
      var i: nat :| Late(f, ids, i);
      assert Late(f', ids, i);
    }
    if AnyLate(f', ids) {
      var i: nat :| Late(f', ids, i);
      assert Late(f, ids, i);
    }
  }

  lemma {:induction false} AddedNested(s: Unit, f: Aliases, t: Aliases, graft: bool)
    requires Sound(s) && Grown(s.forest, f, Keys(t))
    requires forall k :: k in Keys(t) ==> s.maxID < k <= s.maxID + Size(t)
    requires s.grafted ==> graft
    requires !graft ==> forall a :: a in s.uninstallList ==> Keys(Find(f, a)) == Keys(Find(s.forest, a))
    ensures Nested(s, Added(s, f, t).(grafted := graft))
  {
    var s' := Added(s, f, t).(grafted := graft);
    LateGrown(s.forest, f, Keys(t), s.uninstallList);
    AddedFiled(s, f, t);
    AddedRoots(s.forest, f, Keys(t), s.uninstallList);
  }

  lemma {:induction false} AddedRoots(f: Aliases, f': Aliases, more: set<nat>, ids: seq<nat>)
    requires Grown(f, f', more) && AllIn(ids, f) && WithRoots(f, ids)
    ensures WithRoots(f', ids) && AllIn(ids, f') && Carried(f, f')
  {
  }

  lemma {:induction false} AddedFiled(s: Unit, f: Aliases, t: Aliases)
    requires QueuesFit(s) && Filed(s) && Keys(f) == Keys(s.forest) + Keys(t)
    requires forall k :: k in Keys(t) ==> s.maxID < k <= s.maxID + Size(t)
    ensures Filed(Added(s, f, t))
    ensures Queued(Added(s, f, t)) == Queued(s)
  {
    var s' := Added(s, f, t);
    PreorderKeys(t);
    RootsKnown(s.forest);
    assert Queued(s) <= Keys(s.forest);
    forall k ensures k in s'.lookup <==> k in Keys(f) {
      assert k in s'.lookup <==> k in Preorder(t) || k in s.lookup;
    }
  }

  lemma {:induction false} AddRootNested(s: Unit, value: Alias, items: Aliases)
    requires Sound(s)
    ensures Nested(s, AddRoot(s, value, items))
  {
    var whole: Aliases := Tree(0, value, items, End);
    var t := Number(whole, s.maxID);
    NumberKeys(whole, s.maxID);
    NumberShape(whole, s.maxID);
    AppendGrows(s.forest, t);
    AddedNested(s, AppendRoot(s.forest, t), t, s.grafted);
  }

  lemma {:induction false} AddBelowNested(s: Unit, parent: nat, value: Alias)
    requires Sound(s) && parent in Keys(s.forest)
    ensures Nested(s, AddBelow(s, parent, value))
  {
    var t: Aliases := Tree(s.maxID + 1, value, End, End);
    var f := InsertBelow(s.forest, parent, Size(s.forest), t);
    hide *;
    SoundIDs(s);
    LeafKeys(t);
    InsertGrows(s.forest, parent, Size(s.forest), t);
    UngraftedSame(s, parent, f);
    AddedNested(s, f, t, s.grafted || BelowListed(s, parent));
    AddBelowIs(s, parent, value);
  }

  lemma {:induction false} SoundIDs(s: Unit)
    requires Sound(s)
    ensures Distinct(s.forest) && s.maxID + 1 !in Keys(s.forest)
  {
  }

  lemma {:induction false} AddBelowIs(s: Unit, parent: nat, value: Alias)
    ensures var t := Tree(s.maxID + 1, value, End, End);
            AddBelow(s, parent, value)
            == Added(s, InsertBelow(s.forest, parent, Size(s.forest), t), t).(grafted := s.grafted || BelowListed(s, parent))
  {
  }

  lemma {:induction false} UngraftedSame(s: Unit, parent: nat, f: Aliases)
    requires Sound(s)
    requires forall k :: k in Keys(s.forest) && parent !in Keys(Find(s.forest, k)) ==> Keys(Find(f, k)) == Keys(Find(s.forest, k))
    ensures !BelowListed(s, parent) ==> forall a :: a in s.uninstallList ==> Keys(Find(f, a)) == Keys(Find(s.forest, a))
  {
  }

  lemma {:induction false} FirstNamedKnown(f: Aliases, ids: seq<nat>, name: string)
    ensures FirstNamed(f, ids, name).Some? ==> FirstNamed(f, ids, name).value in Keys(f)
    decreases |ids|
  {
    if ids != [] && !Named(f, ids[0], name) {
      FirstNamedKnown(f, ids[1..], name);
    }
  }

  lemma {:induction false} AddPermNested(s: Unit, parent: string, value: Alias)
    requires Sound(s)
    ensures Nested(s, AddPerm(s, parent, value))
  {
    var found := FirstNamed(s.forest, s.lookup, parent);
    FirstNamedKnown(s.forest, s.lookup, parent);
    SwitchedNested(s, s, {});
    if parent == "" {
      AddRootNested(s, value, End);
    } else if found.Some? {
      AddBelowNested(s, found.value, value);
    }
  }

  // ---- uninstalling inside a pass ----

  /** Listing a package once more: something is late after it if it was, or if one is newly listed although an item
      above it has been. */
  lemma {:induction false} LateListed(f: Aliases, old_: seq<nat>, more: seq<nat>)
    requires ChildrenFirst(f, more) && AllIn(more, f)
    ensures AnyLate(f, old_ + more)
            <==> AnyLate(f, old_) || exists x, a :: x in more && a in old_ && x !in old_ && x in Keys(Find(f, a))
  {
    var ids := old_ + more;
    if AnyLate(f, old_) {
      var i: nat :| Late(f, old_, i);
      assert ids[..i] == old_[..i];
      var j :| 0 <= j < i && old_[i] in Keys(Find(f, old_[j]));
      assert ids[j] == old_[j] && Late(f, ids, i);
    } else if x, a :| x in more && a in old_ && x !in old_ && x in Keys(Find(f, a)) {
      var k: nat :| k < |more| && more[k] == x;
      var j: nat :| j < |old_| && old_[j] == a;
      var i := |old_| + k;
      NotBefore(f, more, k);
      assert ids[..i] == old_ + more[..k] && ids[i] == x && ids[j] == a;
      assert Late(f, ids, i);
    }
    if AnyLate(f, ids) {
      var i: nat :| Late(f, ids, i);
      LateWhere(f, old_, more, i);
    }
  }

  lemma {:induction false} NotBefore(f: Aliases, ids: seq<nat>, k: nat)
    requires ChildrenFirst(f, ids) && k < |ids| && ids[k] in Keys(f)
    ensures ids[k] !in ids[..k]
  {
    assert ids[k] in Keys(Find(f, ids[k]));
  }

  lemma {:induction false} LateWhere(f: Aliases, old_: seq<nat>, more: seq<nat>, i: nat)
    requires ChildrenFirst(f, more) && Late(f, old_ + more, i)
    ensures Late(f, old_, i) || exists x, a :: x in more && a in old_ && x !in old_ && x in Keys(Find(f, a))
  {
    var ids := old_ + more;
    var j :| 0 <= j < i && ids[i] in Keys(Find(f, ids[j]));
    if i < |old_| {
      assert ids[..i] == old_[..i] && ids[i] == old_[i] && ids[j] == old_[j];
    } else {
      assert ids[..i] == old_ + more[..i - |old_|] && ids[i] == more[i - |old_|];
      if j < |old_| {
        var x, a := more[i - |old_|], old_[j];
        assert x in more && a in old_ && x !in old_ && x in Keys(Find(f, a));
      }
    }
  }

  lemma {:induction false} ListingMarks(s: Unit, package: string)
    requires Sound(s)
    ensures var listing := Collected(s.forest, package);
            var listed := s.uninstallList + listing;
            && AllIn(listed, s.forest) && WithRoots(s.forest, listed)
            && (AnyLate(s.forest, listed) <==> AnyLate(s.forest, s.uninstallList) || Regrowth(s, listing))
            && (!s.grafted ==> Whole(s.forest, listed) && !Regrowth(s, listing))
  {
    CollectedFacts(s.forest, package);
    LateListed(s.forest, s.uninstallList, Collected(s.forest, package));
  }

  /** uninstall() inside a pass only queues and switches off. */
  lemma {:induction false} UninstallNested(s: Unit, package: string)
    requires Sound(s) && s.depth > 0
    ensures Nested(s, UninstallPackage(s, package))
  {
    ListingMarks(s, package);
    CarriedSame(s.forest);
    var s' := UninstallPackage(s, package);
    assert Queued(s) <= Queued(s') && Queued(s') <= Queued(s) + Elements(s'.uninstallList);
  }

  // ---- cleaning up ----

  ghost predicate QueuedBelowKilled(s: Unit, c: nat, x: nat) {
    c in s.cleanupSet && x in s.uninstallList && x in Keys(Find(s.forest, c))
  }

  /** Killed aliases are at the top level: nothing that is listed hangs below one. */
  lemma {:induction false} KilledStandApart(s: Unit)
    requires QueuesFit(s) && WithRoots(s.forest, s.uninstallList)
    ensures forall c, x :: !QueuedBelowKilled(s, c, x)
  {
  }

  lemma {:induction false} DrainFrees(s: Unit, order: seq<nat>)
    requires QueuesFit(s) && Standing(s) && Elements(order) == s.cleanupSet && NoRepeats(order)
    ensures var r := DeleteEach(s.(cleanupSet := {}), order);
            && Freed(s.(cleanupSet := {}), r, Doomed(s.forest, s.cleanupSet)) && Standing(r) && r.faulted == s.faulted
  {
    RootsKnown(s.forest);
    forall i | 0 <= i < |order| ensures order[i] in Roots(s.forest) {
      assert order[i] in s.cleanupSet;
    }
    assert AllIn(order, s.forest);
    DeleteInOrder(s.(cleanupSet := {}), order);
  }

  lemma {:induction false} DoomedBoth(f: Aliases, f1: Aliases, first: set<nat>, others: set<nat>)
    requires forall k :: Keys(Find(f1, k)) == Keys(Find(f, k)) - Doomed(f, first)
    ensures Doomed(f, first) + Doomed(f1, others) == Doomed(f, first + others)
  {
    hide *;
    forall x ensures x in Doomed(f, first) + Doomed(f1, others) <==> x in Doomed(f, first + others) {
      InDoomed(f, first, x);
      InDoomed(f1, others, x);
      InDoomed(f, first + others, x);
      if a :| a in others && x in Keys(Find(f, a)) && x !in Doomed(f, first) {
        assert x in Keys(Find(f1, a));
      }
    }
  }

  lemma {:induction false} InDoomed(f: Aliases, ids: set<nat>, x: nat)
    ensures x in Doomed(f, ids) <==> exists a :: a in ids && x in Keys(Find(f, a))
  {
  }

  lemma {:induction false} CleanupUnfolds(s: Unit, order: seq<nat>)
    requires s.depth == 0 && Elements(order) == s.cleanupSet && QueuesFit(s)
    ensures Elements(s.uninstallList) - s.cleanupSet == Elements(s.uninstallList)
    ensures s.cleanupSet + Elements(s.uninstallList) == Queued(s)
    ensures s.(cleanupSet := s.cleanupSet, uninstallList := s.uninstallList) == s
    ensures s.cleanupSet == {} && s.uninstallList == [] ==> CleanupIn(s, order) == s && Doomed(s.forest, Queued(s)) == {}
    ensures !(s.cleanupSet == {} && s.uninstallList == []) ==>
              CleanupIn(s, order)
              == DeleteUnseen(DeleteEach(s.(cleanupSet := {}), order), s.uninstallList, s.cleanupSet).(uninstallList := [])
  {
  }

  lemma {:induction false} FreedAs(a: Unit, b: Unit, a': Unit, b': Unit, gone: set<nat>)
    requires Freed(a, b, gone)
    requires a' == a.(cleanupSet := a'.cleanupSet, uninstallList := a'.uninstallList)
    requires b' == b.(cleanupSet := a'.cleanupSet, uninstallList := a'.uninstallList)
    ensures Freed(a', b', gone)
  {
  }

  lemma {:induction false} FreedFacts(a: Unit, b: Unit, gone: set<nat>)
    requires Freed(a, b, gone)
    ensures forall k :: Keys(Find(b.forest, k)) == Keys(Find(a.forest, k)) - gone
    ensures Keys(b.forest) == Keys(a.forest) - gone && b.cleanupSet == a.cleanupSet && b.uninstallList == a.uninstallList
  {
  }

  /** doCleanup() outside any pass, in whatever order the set is drained: freed are what was queued and what hangs below
      it, each once, and nothing stays queued. */
  lemma {:induction false} CleanupFrees(s: Unit, order: seq<nat>)
    requires QueuesFit(s) && Standing(s) && s.depth == 0 && Elements(order) == s.cleanupSet && NoRepeats(order)
    ensures var r := CleanupIn(s, order);
            && r.cleanupSet == {} && r.uninstallList == [] && Standing(r)
            && Freed(s, r.(cleanupSet := s.cleanupSet, uninstallList := s.uninstallList), Doomed(s.forest, Queued(s)))
  {
    hide *;
    CleanupUnfolds(s, order);
    if s.cleanupSet == {} && s.uninstallList == [] {
      FreedNone(s);
    } else {
      var s0 := s.(cleanupSet := {});
      var s1 := DeleteEach(s0, order);
      var s2 := DeleteUnseen(s1, s.uninstallList, s.cleanupSet);
      DrainFrees(s, order);
      DeleteUnseenFrees(s1, s.uninstallList, s.cleanupSet);
      FreedFacts(s0, s1, Doomed(s.forest, s.cleanupSet));
      FreedFacts(s1, s2, Doomed(s1.forest, Elements(s.uninstallList)));
      DoomedBoth(s.forest, s1.forest, s.cleanupSet, Elements(s.uninstallList));
      FreedTrans(s0, s1, s2, Doomed(s.forest, s.cleanupSet), Doomed(s1.forest, Elements(s.uninstallList)));
      var gone := Doomed(s.forest, Queued(s));
      FreedAs(s0, s2, s, s2.(cleanupSet := s.cleanupSet), gone);
      StandingAs(s2, s2.(uninstallList := []));
    }
  }

  lemma {:induction false} StandingAs(s: Unit, s': Unit)
    requires Standing(s) && s' == s.(cleanupSet := s'.cleanupSet, uninstallList := s'.uninstallList)
    ensures Standing(s')
  {
  }

  /** A cleanup frees something twice exactly when something listed is first listed after an alias it hangs below, or
      hangs below a killed one. */
  lemma {:induction false} CleanupFaultsIff(s: Unit, order: seq<nat>)
    requires QueuesFit(s) && Standing(s) && s.depth == 0 && Elements(order) == s.cleanupSet && NoRepeats(order)
    ensures CleanupIn(s, order).faulted
            <==> s.faulted || AnyLate(s.forest, s.uninstallList) || exists c, x :: QueuedBelowKilled(s, c, x)
  {
    hide *;
    CleanupUnfolds(s, order);
    if s.cleanupSet == {} && s.uninstallList == [] {
      NothingQueued(s);
    } else {
      var s1 := DeleteEach(s.(cleanupSet := {}), order);
      DrainFrees(s, order);
      FreedFacts(s.(cleanupSet := {}), s1, Doomed(s.forest, s.cleanupSet));
      DeleteUnseenFaults(s1, s.uninstallList, s.cleanupSet);
      MissedAfterDrain(s, s1.forest);
    }
  }

  lemma {:induction false} NothingQueued(s: Unit)
    requires s.cleanupSet == {} && s.uninstallList == []
    ensures !AnyLate(s.forest, s.uninstallList) && forall c, x :: !QueuedBelowKilled(s, c, x)
  {
  }

  lemma {:induction false} FirstPlace(ids: seq<nat>, x: nat) returns (i: nat)
    requires x in ids
    ensures i < |ids| && ids[i] == x && x !in ids[..i]
  {
    if ids[0] == x {
      i := 0;
    } else {
      var k := FirstPlace(ids[1..], x);
      i := k + 1;
      assert ids[..i] == [ids[0]] + ids[1..][..k];
    }
  }

  lemma {:induction false} MissedAfterDrain(s: Unit, f1: Aliases)
    requires QueuesFit(s)
    requires Keys(f1) == Keys(s.forest) - Doomed(s.forest, s.cleanupSet)
    requires forall k :: Keys(Find(f1, k)) == Keys(Find(s.forest, k)) - Doomed(s.forest, s.cleanupSet)
    ensures (exists i :: Missed(f1, s.uninstallList, s.cleanupSet, i))
            <==> AnyLate(s.forest, s.uninstallList) || exists c, x :: QueuedBelowKilled(s, c, x)
  {
    var ids := s.uninstallList;
    if i: nat :| Missed(f1, ids, s.cleanupSet, i) {
      MissedWhy(s, f1, i);
    }
    if c, x :| QueuedBelowKilled(s, c, x) {
      var i := FirstPlace(ids, x);
      assert x in Doomed(s.forest, s.cleanupSet);
      assert Missed(f1, ids, s.cleanupSet, i);
    }
    if AnyLate(s.forest, ids) {
      var i: nat :| Late(s.forest, ids, i);
      var j :| 0 <= j < i && ids[i] in Keys(Find(s.forest, ids[j]));
      assert ids[j] in ids && ids[i] in ids;
      assert Missed(f1, ids, s.cleanupSet, i);
    }
  }

  lemma {:induction false} MissedWhy(s: Unit, f1: Aliases, i: nat)
    requires QueuesFit(s) && Missed(f1, s.uninstallList, s.cleanupSet, i)
    requires Keys(f1) == Keys(s.forest) - Doomed(s.forest, s.cleanupSet)
    requires forall k :: Keys(Find(f1, k)) == Keys(Find(s.forest, k)) - Doomed(s.forest, s.cleanupSet)
    ensures AnyLate(s.forest, s.uninstallList) || exists c, x :: QueuedBelowKilled(s, c, x)
  {
    var ids := s.uninstallList;
    var x := ids[i];
    assert x in Keys(s.forest);
    if x !in Keys(f1) {
      var c :| c in s.cleanupSet && x in Keys(Find(s.forest, c));
      assert QueuedBelowKilled(s, c, x);
    } else {
      var j :| 0 <= j < i && x in Keys(Find(f1, ids[j]));
      assert Late(s.forest, ids, i);
    }
  }

  /** What is left after deleting is sound again. */
  lemma {:induction false} StillSteady(s: Unit, r: Unit, gone: set<nat>)
    requires QueuesFit(s) && Filed(s) && Standing(r) && r.uninstallList == [] && r.cleanupSet <= s.cleanupSet - gone
    requires Freed(s, r.(cleanupSet := s.cleanupSet, uninstallList := s.uninstallList), gone)
    requires r.regrown == r.faulted && (r.regrown ==> r.grafted)
    ensures Steady(r)
  {
  }

  lemma {:induction false} SteadyStands(s: Unit, c: set<nat>)
    requires Steady(s)
    ensures Standing(s) && Standing(s.(cleanupSet := c)) && QueuesFit(s) && Filed(s) && Distinct(s.forest)
    ensures WithRoots(s.forest, s.uninstallList)
    ensures (s.regrown <==> s.faulted || AnyLate(s.forest, s.uninstallList)) && (s.regrown ==> s.grafted)
  {
  }

  /** What deleting leaves of a unit outside any pass, as far as those that come after can tell. */
  ghost predicate Reduced(s: Unit, r: Unit) {
    && Keys(r.forest) <= Keys(s.forest) && r.maxID == s.maxID && r.depth == s.depth && r.stopped == s.stopped
    && r.regrown == s.regrown && r.grafted == s.grafted && s.freed <= r.freed
    && (forall k :: k in Keys(s.forest) ==> k in Keys(r.forest) || k in r.freed)
    && forall k :: k in Queued(s) && k in Keys(r.forest) ==> k in Queued(r)
  }

  lemma {:induction false} FreedReduces(s: Unit, r: Unit, gone: set<nat>)
    requires Freed(s, r.(cleanupSet := s.cleanupSet, uninstallList := s.uninstallList), gone)
    requires Queued(s) <= gone + r.cleanupSet
    ensures Reduced(s, r)
  {
  }

  lemma {:induction false} QueuedDoomed(s: Unit)
    requires QueuesFit(s)
    ensures Queued(s) <= Doomed(s.forest, Queued(s)) <= Keys(s.forest) && Queued(s) <= Keys(s.forest)
  {
    RootsKnown(s.forest);
    forall x | x in Queued(s) ensures x in Doomed(s.forest, Queued(s)) {
      assert x in Keys(Find(s.forest, x));
    }
    forall a ensures Keys(Find(s.forest, a)) <= Keys(s.forest) {
      FindRemoveKeys(s.forest, a);
    }
  }

  lemma {:induction false} CleanupOrder(s: Unit) returns (order: seq<nat>)
    ensures NoRepeats(order) && Elements(order) == s.cleanupSet && DoCleanup(s) == CleanupIn(s, order)
  {
    order := SomeOrder(s.cleanupSet);
  }

  lemma {:induction false} CleanupSteady(s: Unit)
    requires Steady(s) && s.depth == 0
    ensures var r := DoCleanup(s);
            && Steady(r) && r.cleanupSet == {} && r.uninstallList == [] && Reduced(s, r)
            && Freed(s, r.(cleanupSet := s.cleanupSet, uninstallList := s.uninstallList), Doomed(s.forest, Queued(s)))
  {
    hide *;
    var order := CleanupOrder(s);
    var r, gone := DoCleanup(s), Doomed(s.forest, Queued(s));
    SteadyStands(s, s.cleanupSet);
    CleanupFrees(s, order);
    CleanupFaultsIff(s, order);
    KilledStandApart(s);
    QueuedDoomed(s);
    MarksKept(s, r, gone);
    StillSteady(s, r, gone);
    FreedReduces(s, r, gone);
  }

  lemma {:induction false} MarksKept(s: Unit, r: Unit, gone: set<nat>)
    requires Freed(s, r.(cleanupSet := s.cleanupSet, uninstallList := s.uninstallList), gone)
    ensures r.regrown == s.regrown && r.grafted == s.grafted && r.depth == s.depth && r.stopped == s.stopped
  {
  }

  /** uninstall() outside any pass frees just what it lists, children first. */
  lemma {:induction false} UninstallNow(s: Unit, package: string)
    requires Sound(s) && s.depth == 0
    ensures var r := UninstallPackage(s, package);
            && Sound(r) && r.faulted == s.faulted && Reduced(s, r)
            && Keys(r.forest) == Keys(s.forest) - Elements(Collected(s.forest, package))
  {
    hide *;
    var listed := Collected(s.forest, package);
    var c := s.cleanupSet - Elements(listed);
    var s0 := s.(cleanupSet := c);
    var s1 := DeleteEach(s0, listed);
    UninstallIs(s, package);
    SteadyStands(s, c);
    CollectedFacts(s.forest, package);
    WholeIsDoomed(s.forest, listed);
    DeleteInOrder(s0, listed);
    FreedFacts(s0, s1, Elements(listed));
    FreedAs(s0, s1, s, s1.(cleanupSet := s.cleanupSet), Elements(listed));
    var r := UninstallPackage(s, package);
    StandingAs(s1, r);
    MarksKept(s, r, Elements(listed));
    NothingListed(s);
    StillSteady(s, r, Elements(listed));
    FreedReduces(s, r, Elements(listed));
    SoundOutside(r);
  }

  lemma {:induction false} UninstallIs(s: Unit, package: string)
    requires Sound(s) && s.depth == 0
    ensures Steady(s) && !s.stopped && s.uninstallList == []
    ensures var listed := Collected(s.forest, package);
            var c := s.cleanupSet - Elements(listed);
            && UninstallPackage(s, package) == DeleteEach(s.(cleanupSet := c), listed).(uninstallList := [])
            && Queued(s) <= Elements(listed) + c
  {
    assert [] + Collected(s.forest, package) == Collected(s.forest, package);
  }

  lemma {:induction false} NothingListed(s: Unit)
    requires Sound(s) && s.depth == 0
    ensures s.regrown == s.faulted
  {
  }

  lemma {:induction false} SoundOutside(s: Unit)
    requires Steady(s) && s.uninstallList == [] && !s.stopped
    ensures Sound(s)
  {
  }

  // ---- moving ----

  lemma {:induction false} RootNotBelow(f: Aliases, k: nat, id: nat)
    requires Distinct(f) && k in Roots(f) && k in Keys(Find(f, id))
    ensures k == id
  {
    FindRemoveKeys(f.kids, id);
    FindRemoveKeys(f.rest, id);
    RootsKnown(f.rest);
    if f.key != id && id !in Keys(f.kids) {
      RootNotBelow(f.rest, k, id);
    }
  }

  lemma {:induction false} InsertAtRoots(f: Aliases, position: nat, t: Aliases, k: nat)
    requires t.Tree? && k in Roots(f)
    ensures k in Roots(InsertAt(f, position, t))
  {
    if position != 0 && k != f.key {
      InsertAtRoots(f.rest, position - 1, t, k);
    }
  }

  /** Moving an alias loses none, and leaves every other top-level alias at the top level. */
  lemma {:induction false} MovedForest(f: Aliases, id: nat, to: Parent, position: nat)
    requires Distinct(f) && id in Keys(f)
    ensures Find(f, id).Tree?
    ensures var f' := Insert(Remove(f, id), to, position, Find(f, id));
            Keys(f') == Keys(f) && Distinct(f') && forall k :: k in Roots(f) && k != id ==> k in Roots(f')
  {
    var t, left := Find(f, id), Remove(f, id);
    FindRemoveKeys(f, id);
    InsertThenRemove(left, to, position, t);
    RemoveRoots(f, id);
    forall k | k in Roots(f) && k != id ensures k in Roots(Insert(left, to, position, t)) {
      if k in Keys(t) {
        RootNotBelow(f, k, id);
      }
      InsertAtRoots(left, position, t, k);
      if to.Under? {
        InsertBelowRoots(left, to.key, position, t);
      }
    }
  }

  lemma {:induction false} MoveSound(s: Unit, id: nat, to: Parent, position: nat)
    requires Sound(s) && s.depth == 0
    ensures Sound(MoveAlias(s, id, to, position)) && Reduced(s, MoveAlias(s, id, to, position))
    ensures MoveAlias(s, id, to, position).faulted == s.faulted
  {
    if id in Keys(s.forest) {
      MovedForest(s.forest, id, to, position);
    }
  }
}
