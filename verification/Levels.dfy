/** Places in a forest: what hangs below a parent, in order, and how removing and inserting move it. */
module Levels {
  import opened Collections
  import opened Forests

  function LevelIDs<V>(f: Forest<V>): seq<nat> {
    if f.End? then [] else [f.key] + LevelIDs(f.rest)
  }

  /** The IDs of what hangs below a parent, in order. */
  function LevelAt<V>(f: Forest<V>, p: Parent): seq<nat> {
    if p.Root? then LevelIDs(f) else if p.key in Keys(f) then LevelIDs(Find(f, p.key).kids) else []
  }

  predicate Known<V>(f: Forest<V>, p: Parent) {
    p.Root? || p.key in Keys(f)
  }

  // ---- places ----

  lemma {:induction false} LevelIDsKnown<V>(f: Forest<V>)
    ensures forall k :: k in LevelIDs(f) ==> k in Keys(f)
    decreases f
  {
    if f.Tree? {
      LevelIDsKnown(f.rest);
    }
  }

  /** A place that starts at `from` below `parent` is an index into that level, or into one further down. */
  lemma {:induction false} LocateFromIsLevel<V>(f: Forest<V>, k: nat, parent: Parent, from: nat)
    requires Distinct(f) && k in Keys(f) && (parent.Under? ==> parent.key !in Keys(f))
    ensures LocateFrom(f, k, parent, from).Some?
    ensures var (p, i) := LocateFrom(f, k, parent, from).value;
            && (p == parent ==> from <= i < from + |LevelIDs(f)| && LevelIDs(f)[i - from] == k)
            && (p != parent ==> p.Under? && p.key in Keys(f) && k !in LevelIDs(f)
                                && i < |LevelIDs(Find(f, p.key).kids)| && LevelIDs(Find(f, p.key).kids)[i] == k)
    decreases f
  {
    LevelIDsKnown(f.kids);
    LevelIDsKnown(f.rest);
    if f.key != k {
      if k in Keys(f.kids) {
        LocateFromIsLevel(f.kids, k, Under(f.key), 0);
        LocateShape(f.kids, k, Under(f.key), 0);
      } else {
        LocateFromIsLevel(f.rest, k, parent, from + 1);
        LocateShape(f.rest, k, parent, from + 1);
      }
    }
  }

  lemma {:induction false} LevelIDsDistinct<V>(f: Forest<V>)
    requires Distinct(f)
    ensures forall i, j :: 0 <= i < j < |LevelIDs(f)| ==> LevelIDs(f)[i] != LevelIDs(f)[j]
    decreases f
  {
    if f.Tree? {
      LevelIDsDistinct(f.rest);
      LevelIDsKnown(f.rest);
      var ids := LevelIDs(f);
      forall i, j | 0 <= i < j < |ids| ensures ids[i] != ids[j] {
        assert ids[j] == LevelIDs(f.rest)[j - 1];
        if i > 0 {
          assert ids[i] == LevelIDs(f.rest)[i - 1];
        }
      }
    }
  }

  lemma {:induction false} LevelAtDistinct<V>(f: Forest<V>, p: Parent)
    requires Distinct(f)
    ensures forall i, j :: 0 <= i < j < |LevelAt(f, p)| ==> LevelAt(f, p)[i] != LevelAt(f, p)[j]
    ensures forall k :: k in LevelAt(f, p) ==> k in Keys(f)
  {
    if p.Under? {
      FindRemoveKeys(f, p.key);
      if p.key in Keys(f) {
        LevelIDsDistinct(Find(f, p.key).kids);
        LevelIDsKnown(Find(f, p.key).kids);
      }
    } else {
      LevelIDsDistinct(f);
      LevelIDsKnown(f);
    }
  }

  /** An item's place is its parent and its index below it. */
  lemma {:induction false} LocateIsLevel<V>(f: Forest<V>, k: nat)
    requires Distinct(f) && k in Keys(f)
    ensures Locate(f, k).Some?
    ensures var (p, i) := Locate(f, k).value; Known(f, p) && i < |LevelAt(f, p)| && LevelAt(f, p)[i] == k
  {
    LocateFromIsLevel(f, k, Root, 0);
  }

  /** Where an item is listed is where it is located. */
  lemma {:induction false} LevelIsLocate<V>(f: Forest<V>, k: nat, p: Parent, i: nat, parent: Parent, from: nat)
    requires Distinct(f) && Known(f, p) && i < |LevelAt(f, p)| && LevelAt(f, p)[i] == k
    requires parent.Under? ==> parent.key !in Keys(f)
    ensures k in Keys(f)
    ensures p.Under? ==> LocateFrom(f, k, parent, from) == Some((p, i))
    ensures p.Root? ==> LocateFrom(f, k, parent, from) == Some((parent, from + i))
    decreases f
  {
    LevelIDsKnown(f);
    LevelIDsKnown(f.kids);
    LevelIDsKnown(f.rest);
    if p.Root? {
      if f.key != k {
        assert LevelIDs(f)[i] == LevelIDs(f.rest)[i - 1];
        LevelIsLocate(f.rest, k, Root, i - 1, parent, from + 1);
      }
    } else {
      FindRemoveKeys(f, p.key);
      LevelIDsKnown(Find(f, p.key).kids);
      if f.key == p.key {
        LevelIsLocate(f.kids, k, Root, i, Under(f.key), 0);
      } else if p.key in Keys(f.kids) {
        FindRemoveKeys(f.kids, p.key);
        LevelIsLocate(f.kids, k, p, i, Under(f.key), 0);
      } else {
        FindRemoveKeys(f.rest, p.key);
        LevelIsLocate(f.rest, k, p, i, parent, from + 1);
      }
    }
  }

  // ---- removing ----

  function Dropped(ids: seq<nat>, gone: set<nat>): (r: seq<nat>)
    ensures |r| <= |ids|
    ensures |r| == |ids| <==> forall i :: 0 <= i < |ids| ==> ids[i] !in gone
    ensures |r| == 0 <==> forall i :: 0 <= i < |ids| ==> ids[i] in gone
  {
    if ids == [] then [] else
      assert forall i :: 1 <= i < |ids| ==> ids[i] == ids[1..][i - 1];
      assert forall i :: 0 <= i < |ids| - 1 ==> ids[1..][i] == ids[i + 1];
      (if ids[0] in gone then [] else [ids[0]]) + Dropped(ids[1..], gone)
  }

  lemma {:induction false} DroppedAdds(a: seq<nat>, b: seq<nat>, gone: set<nat>)
    ensures Dropped(a + b, gone) == Dropped(a, gone) + Dropped(b, gone)
    decreases |a|
  {
    if a == [] {
      assert a + b == b;
    } else {
      assert (a + b)[1..] == a[1..] + b;
      DroppedAdds(a[1..], b, gone);
    }
  }

  lemma {:induction false} DroppedNone(ids: seq<nat>, gone: set<nat>)
    requires forall i :: 0 <= i < |ids| ==> ids[i] !in gone
    ensures Dropped(ids, gone) == ids
    decreases |ids|
  {
    if ids != [] {
      DroppedNone(ids[1..], gone);
    }
  }

  lemma {:induction false} DroppedTwice(ids: seq<nat>, a: set<nat>, b: set<nat>)
    ensures Dropped(Dropped(ids, a), b) == Dropped(ids, a + b)
    decreases |ids|
  {
    if ids != [] {
      DroppedTwice(ids[1..], a, b);
      if ids[0] !in a {
        assert ([ids[0]] + Dropped(ids[1..], a))[1..] == Dropped(ids[1..], a);
      } else {
        assert [] + Dropped(ids[1..], a) == Dropped(ids[1..], a);
      }
    }
  }

  lemma {:induction false} LevelIDsRemoved<V>(f: Forest<V>, k: nat)
    requires Distinct(f)
    ensures LevelIDs(Remove(f, k)) == Dropped(LevelIDs(f), {k})
    decreases f
  {
    if f.Tree? {
      LevelIDsKnown(f.rest);
      LevelIDsRemoved(f.rest, k);
      FindRemoveKeys(f.rest, k);
      if f.key == k {
        DroppedNone(LevelIDs(f.rest), {k});
      }
    }
  }

  lemma {:induction false} FindAfterRemove<V>(f: Forest<V>, k: nat, p: nat)
    requires Distinct(f) && p in Keys(Remove(f, k))
    ensures p in Keys(f) && Find(Remove(f, k), p).kids == Remove(Find(f, p).kids, k)
    decreases f
  {
    FindRemoveKeys(f, k);
    if f.key != k {
      FindRemoveKeys(f.kids, k);
      FindRemoveKeys(f.rest, k);
      if f.key != p {
        if p in Keys(Remove(f.kids, k)) {
          FindAfterRemove(f.kids, k, p);
        } else {
          FindAfterRemove(f.rest, k, p);
        }
      }
    } else {
      FindRemoveKeys(f.rest, p);
      NotBelow(f, p, k);
    }
  }

  lemma {:induction false} NotBelow<V>(f: Forest<V>, p: nat, k: nat)
    requires Distinct(f) && f.Tree? && f.key == k && p in Keys(f.rest)
    ensures Remove(Find(f.rest, p).kids, k) == Find(f.rest, p).kids
  {
    FindRemoveKeys(f.rest, p);
    FindRemoveKeys(Find(f.rest, p).kids, k);
  }

  /** Removing an item takes it out of its level and leaves every other level alone. */
  lemma {:induction false} LevelRemoved<V>(f: Forest<V>, k: nat, p: Parent)
    requires Distinct(f) && Known(Remove(f, k), p)
    ensures Known(f, p) && LevelAt(Remove(f, k), p) == Dropped(LevelAt(f, p), {k})
  {
    FindRemoveKeys(f, k);
    if p.Root? {
      LevelIDsRemoved(f, k);
    } else {
      FindAfterRemove(f, k, p.key);
      FindRemoveKeys(f, p.key);
      LevelIDsRemoved(Find(f, p.key).kids, k);
    }
  }

  // ---- inserting ----

  lemma {:induction false} InsertAtClamped<V>(f: Forest<V>, i: nat, t: Forest<V>)
    requires t.Tree? && t.rest.End?
    ensures InsertAt(f, i, t) == InsertAt(f, Min(i, |LevelIDs(f)|), t)
    decreases f
  {
    if f.Tree? && i > 0 {
      InsertAtClamped(f.rest, i - 1, t);
    }
  }

  lemma {:induction false} InsertBelowClamped<V>(f: Forest<V>, p: nat, i: nat, t: Forest<V>)
    requires t.Tree? && t.rest.End? && Distinct(f)
    ensures p in Keys(f) ==> InsertBelow(f, p, i, t) == InsertBelow(f, p, Min(i, |LevelIDs(Find(f, p).kids)|), t)
    decreases f
  {
    if p in Keys(f) {
      var n := |LevelIDs(Find(f, p).kids)|;
      if f.key == p {
        InsertAtClamped(f.kids, i, t);
      } else if p in Keys(f.kids) {
        InsertBelowClamped(f.kids, p, i, t);
        InsertBelowMiss(f.rest, p, i, t);
        InsertBelowMiss(f.rest, p, Min(i, n), t);
      } else {
        InsertBelowClamped(f.rest, p, i, t);
        InsertBelowMiss(f.kids, p, i, t);
        InsertBelowMiss(f.kids, p, Min(i, n), t);
      }
    }
  }

  /** An item is inserted at its position or at the end of the level, whichever comes first. */
  lemma {:induction false} InsertClamped<V>(f: Forest<V>, p: Parent, i: nat, t: Forest<V>)
    requires t.Tree? && t.rest.End? && Distinct(f) && Known(f, p)
    ensures Insert(f, p, i, t) == Insert(f, p, Min(i, |LevelAt(f, p)|), t)
  {
    if p.Root? {
      InsertAtClamped(f, i, t);
    } else {
      InsertBelowClamped(f, p.key, i, t);
    }
  }

  lemma {:induction false} InsertAtLocated<V>(f: Forest<V>, i: nat, t: Forest<V>, parent: Parent, from: nat)
    requires t.Tree? && t.rest.End? && Distinct(f) && t.key !in Keys(f)
    ensures LocateFrom(InsertAt(f, i, t), t.key, parent, from) == Some((parent, from + Min(i, |LevelIDs(f)|)))
    decreases f
  {
    if f.Tree? && i > 0 {
      InsertAtLocated(f.rest, i - 1, t, parent, from + 1);
    }
  }

  lemma {:induction false} InsertBelowLocated<V>(f: Forest<V>, p: nat, i: nat, t: Forest<V>, parent: Parent, from: nat)
    requires t.Tree? && t.rest.End? && Distinct(f) && Distinct(t) && Keys(f) !! Keys(t) && p in Keys(f)
    ensures LocateFrom(InsertBelow(f, p, i, t), t.key, parent, from) == Some((Under(p), Min(i, |LevelIDs(Find(f, p).kids)|)))
    decreases f
  {
    if f.key == p {
      InsertAtLocated(f.kids, i, t, Under(p), 0);
      InsertAtKeys(f.kids, i, t);
    } else if p in Keys(f.kids) {
      InsertBelowKeys(f.kids, p, i, t);
      InsertBelowLocated(f.kids, p, i, t, Under(f.key), 0);
    } else {
      InsertBelowMiss(f.kids, p, i, t);
      InsertBelowLocated(f.rest, p, i, t, parent, from + 1);
    }
  }

  lemma {:induction false} InsertLocated<V>(f: Forest<V>, p: Parent, i: nat, t: Forest<V>)
    requires t.Tree? && t.rest.End? && Distinct(f) && Distinct(t) && Keys(f) !! Keys(t) && Known(f, p)
    ensures Locate(Insert(f, p, i, t), t.key) == Some((p, Min(i, |LevelAt(f, p)|)))
  {
    if p.Root? {
      InsertAtLocated(f, i, t, Root, 0);
    } else {
      InsertBelowLocated(f, p.key, i, t, Root, 0);
    }
  }

  /** Two places give the same forest just when both come to the same index. */
  lemma {:induction false} SamePlaceIff<V>(f: Forest<V>, p: Parent, i: nat, j: nat, t: Forest<V>)
    requires t.Tree? && t.rest.End? && Distinct(f) && Distinct(t) && Keys(f) !! Keys(t) && Known(f, p)
    ensures Insert(f, p, i, t) == Insert(f, p, j, t) <==> Min(i, |LevelAt(f, p)|) == Min(j, |LevelAt(f, p)|)
  {
    InsertClamped(f, p, i, t);
    InsertClamped(f, p, j, t);
    InsertLocated(f, p, i, t);
    InsertLocated(f, p, j, t);
  }
}
