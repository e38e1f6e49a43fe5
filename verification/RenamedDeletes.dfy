/** A delete recorded under one set of IDs is a delete recorded under any other: what an editor sees with
    current IDs carries over to identities. */
module RenamedDeletes {
  import opened Forests
  import opened EditorCommands
  import opened DeletedSubtrees
  import opened UndoStack

  function RenameEntry(e: Entry, m: map<nat, nat>): Entry {
    Entry(At(m, e.itemID), ParentAt(m, e.parent), e.position, Rename(e.snapshot, m), e.itemName)
  }

  function RenameEntries(es: seq<Entry>, m: map<nat, nat>): (r: seq<Entry>)
    ensures |r| == |es| && forall i :: 0 <= i < |es| ==> r[i] == RenameEntry(es[i], m)
  {
    if es == [] then [] else [RenameEntry(es[0], m)] + RenameEntries(es[1..], m)
  }

  lemma {:induction false} TakenRenamed(f: Items, es: seq<Entry>, tops: seq<nat>, m: map<nat, nat>)
    requires Indices(tops, |es|) && Distinct(f) && TakenTruly(f, es, tops) && InjectiveOn(m, Keys(f))
    ensures TakenTruly(Rename(f, m), RenameEntries(es, m), tops)
    ensures Taken(Rename(f, m), RenameEntries(es, m), tops) == Rename(Taken(f, es, tops), m)
    decreases |tops|
  {
    if tops != [] {
      var e := es[tops[0]];
      var u := e.itemID;
      FindRemoveKeys(f, u);
      RenameFindRemove(f, u, m);
      RenameLocate(f, u, Root, 0, m);
      TakenRenamed(Remove(f, u), es, tops[1..], m);
    }
  }

  lemma {:induction false} TopRenamed(es: seq<Entry>, before: Items, m: map<nat, nat>, i: nat)
    requires WellRecorded(es, before) && InjectiveOn(m, Keys(before)) && i < |es|
    ensures IsTop(RenameEntries(es, m), i) <==> IsTop(es, i)
  {
    var rs := RenameEntries(es, m);
    EntryKnown(es, before, i);
    if es[i].parent.Under? {
      var p := es[i].parent.key;
      if p in IDs(es) {
        var j :| 0 <= j < |es| && es[j].itemID == p;
        assert rs[j].itemID == At(m, p);
      }
      if At(m, p) in IDs(rs) {
        var j :| 0 <= j < |rs| && rs[j].itemID == At(m, p);
        EntryKnown(es, before, j);
        assert es[j].itemID == p;
      }
    }
  }

  lemma {:induction false} TopsRenamed(es: seq<Entry>, before: Items, m: map<nat, nat>)
    requires WellRecorded(es, before) && InjectiveOn(m, Keys(before))
    ensures Tops(RenameEntries(es, m)) == Tops(es)
  {
    forall i: nat | i < |es| ensures IsTop(RenameEntries(es, m), i) <==> IsTop(es, i) {
      TopRenamed(es, before, m, i);
    }
    SameTopsBelow(RenameEntries(es, m), es, |es|);
  }

  lemma {:induction false} ChildRenamed(s: Items, e: Entry, m: map<nat, nat>)
    requires IsChild(s, e) && InjectiveOn(m, Keys(s))
    ensures IsChild(Rename(s, m), RenameEntry(e, m))
  {
    var p := e.parent.key;
    RenameKeys(s, m);
    RenameFindRemove(s, p, m);
    RenameLevel(Find(s, p).kids, m);
  }

  lemma {:induction false} WellRecordedRenamed(es: seq<Entry>, before: Items, m: map<nat, nat>)
    requires WellRecorded(es, before) && InjectiveOn(m, Keys(before))
    ensures WellRecorded(RenameEntries(es, m), Rename(before, m))
    ensures Tops(RenameEntries(es, m)) == Tops(es)
    ensures Taken(Rename(before, m), RenameEntries(es, m), Tops(es)) == Rename(Taken(before, es, Tops(es)), m)
  {
    hide *;
    WellRecordedParts(es, before);
    RenameDistinct(before, m);
    TopsRenamed(es, before, m);
    TakenRenamed(before, es, Tops(es), m);
    ParentsRenamed(es, before, m);
    HomesRenamed(es, before, m);
    WellRecordedOf(RenameEntries(es, m), Rename(before, m), Tops(es));
  }

  /** Where the subtrees are put back does not depend on the IDs either. */
  lemma {:induction false} HalfBackRenamed(es: seq<Entry>, before: Items, m: map<nat, nat>, k: nat)
    requires WellRecorded(es, before) && InjectiveOn(m, Keys(before)) && k <= |Tops(es)|
    ensures Tops(RenameEntries(es, m)) == Tops(es)
    ensures HalfBack(RenameEntries(es, m), Rename(before, m), k) == Rename(HalfBack(es, before, k), m)
    decreases |Tops(es)| - k
  {
    hide *;
    WellRecordedRenamed(es, before, m);
    if k == |Tops(es)| {
      NoneBackIs(es, before);
      NoneBackIs(RenameEntries(es, m), Rename(before, m));
    } else {
      HalfBackRenamed(es, before, m, k + 1);
      OneBackRenamed(es, before, m, k);
    }
  }

  lemma {:induction false} NoneBackIs(es: seq<Entry>, before: Items)
    ensures HalfBack(es, before, |Tops(es)|) == Taken(before, es, Tops(es))
  {
  }

  lemma {:induction false} OneBackRenamed(es: seq<Entry>, before: Items, m: map<nat, nat>, k: nat)
    requires WellRecorded(es, before) && InjectiveOn(m, Keys(before)) && k < |Tops(es)|
    requires Tops(RenameEntries(es, m)) == Tops(es)
    requires HalfBack(RenameEntries(es, m), Rename(before, m), k + 1) == Rename(HalfBack(es, before, k + 1), m)
    ensures HalfBack(RenameEntries(es, m), Rename(before, m), k) == Rename(HalfBack(es, before, k), m)
  {
    hide *;
    RecordedInTurn(es, before, k);
    var e, g := es[Tops(es)[k]], HalfBack(es, before, k + 1);
    HalfBackFacts(es, before, k);
    BackWithin(es, before, k, m);
    PutBackIs(es, before, k);
    RenamedTree(e.snapshot, m);
    EntryRenamed(e, m);
    PutBackIs(RenameEntries(es, m), Rename(before, m), k);
    RenameInsert(g, e.parent, e.position, e.snapshot, m);
  }

  lemma {:induction false} RenamedTree(t: Items, m: map<nat, nat>)
    ensures Rename(t, m).Tree? <==> t.Tree?
  {
  }

  lemma {:induction false} EntryRenamed(e: Entry, m: map<nat, nat>)
    ensures RenameEntry(e, m).parent == ParentAt(m, e.parent) && RenameEntry(e, m).position == e.position
    ensures RenameEntry(e, m).snapshot == Rename(e.snapshot, m)
  {
  }

  lemma {:induction false} BackWithin(es: seq<Entry>, before: Items, k: nat, m: map<nat, nat>)
    requires WellRecorded(es, before) && InjectiveOn(m, Keys(before)) && k < |Tops(es)| && Tops(es)[k] < |es|
    ensures var g, p := HalfBack(es, before, k + 1), es[Tops(es)[k]].parent;
            InjectiveOn(m, Keys(g) + if p.Under? then {p.key} else {})
  {
    HalfBackFacts(es, before, k + 1);
    HalfBackFacts(es, before, k);
    TakenKeys(before, es, Tops(es)[..k + 1]);
  }

  lemma {:induction false} GoesBackRenamed(es: seq<Entry>, before: Items, m: map<nat, nat>)
    requires WellRecorded(es, before) && GoesBack(es, before) && InjectiveOn(m, Keys(before))
    ensures GoesBack(RenameEntries(es, m), Rename(before, m))
  {
    HalfBackRenamed(es, before, m, 0);
  }

  lemma {:induction false} WellRecordedParts(es: seq<Entry>, before: Items)
    requires WellRecorded(es, before)
    ensures Distinct(before) && TakenTruly(before, es, Tops(es)) && Indices(Tops(es), |es|)
  {
  }

  lemma {:induction false} WellRecordedOf(es: seq<Entry>, before: Items, tops: seq<nat>)
    requires tops == Tops(es) && Indices(tops, |es|) && Distinct(before) && TakenTruly(before, es, tops)
    requires forall t: nat :: t < |es| && IsTop(es, t) && es[t].parent.Under? ==>
               es[t].parent.key in Keys(Taken(before, es, tops))
    requires forall i: nat {:trigger HasHome(es, i)} :: i < |es| && !IsTop(es, i) ==> HasHome(es, i)
    ensures WellRecorded(es, before)
  {
  }

  lemma {:induction false} ParentsRenamed(es: seq<Entry>, before: Items, m: map<nat, nat>)
    requires WellRecorded(es, before) && InjectiveOn(m, Keys(before))
    ensures Indices(Tops(es), |RenameEntries(es, m)|)
    ensures forall t: nat :: (t < |RenameEntries(es, m)| && IsTop(RenameEntries(es, m), t)
                              && RenameEntries(es, m)[t].parent.Under?) ==>
              RenameEntries(es, m)[t].parent.key in Keys(Taken(Rename(before, m), RenameEntries(es, m), Tops(es)))
  {
    var rs := RenameEntries(es, m);
    TakenRenamed(before, es, Tops(es), m);
    RenameKeys(Taken(before, es, Tops(es)), m);
    forall t: nat | t < |rs| && IsTop(rs, t) && rs[t].parent.Under?
      ensures rs[t].parent.key in Keys(Taken(Rename(before, m), rs, Tops(es)))
    {
      TopRenamed(es, before, m, t);
    }
  }

  lemma {:induction false} HomesRenamed(es: seq<Entry>, before: Items, m: map<nat, nat>)
    requires WellRecorded(es, before) && InjectiveOn(m, Keys(before))
    ensures forall i: nat {:trigger HasHome(RenameEntries(es, m), i)} ::
              i < |RenameEntries(es, m)| && !IsTop(RenameEntries(es, m), i) ==> HasHome(RenameEntries(es, m), i)
  {
    var rs := RenameEntries(es, m);
    forall i: nat | i < |rs| && !IsTop(rs, i) ensures HasHome(rs, i) {
      TopRenamed(es, before, m, i);
      assert HasHome(es, i);
      var t: nat :| t < |es| && IsTop(es, t) && IsChild(es[t].snapshot, es[i]);
      var k := TurnOf(es, before, t);
      ChildRenamed(es[t].snapshot, es[i], m);
      TopRenamed(es, before, m, t);
    }
  }

  /** The inner items carry over too. */
  lemma {:induction false} MovedRenamed(es: seq<Entry>, before: Items, m: map<nat, nat>, n: nat, x: nat)
    requires WellRecorded(es, before) && InjectiveOn(m, Keys(before)) && n <= |Tops(es)|
    requires Indices(Tops(es)[..n], |es|) && x in Keys(before)
    ensures x in Moved(es, Tops(es)[..n]) <==> At(m, x) in Moved(RenameEntries(es, m), Tops(es)[..n])
    ensures x in TopItems(es, Tops(es)[..n]) <==> At(m, x) in TopItems(RenameEntries(es, m), Tops(es)[..n])
    decreases n
  {
    if n > 0 {
      var tops := Tops(es)[..n];
      assert tops[..|tops| - 1] == Tops(es)[..n - 1] && tops[|tops| - 1] == Tops(es)[n - 1];
      MovedRenamed(es, before, m, n - 1, x);
      OneRenamed(es, before, m, Tops(es)[n - 1], x);
    }
  }

  lemma {:induction false} OneRenamed(es: seq<Entry>, before: Items, m: map<nat, nat>, t: nat, x: nat)
    requires WellRecorded(es, before) && InjectiveOn(m, Keys(before)) && t in Tops(es) && x in Keys(before)
    ensures t < |es|
    ensures x in Keys(es[t].snapshot) <==> At(m, x) in Keys(Rename(es[t].snapshot, m))
    ensures x == es[t].itemID <==> At(m, x) == At(m, es[t].itemID)
  {
    assert TopSnapshot(es, t);
    var k := TurnOf(es, before, t);
    RenameKeys(es[t].snapshot, m);
    EntryKnown(es, before, t);
  }

  lemma {:induction false} InnerRenamed(es: seq<Entry>, before: Items, m: map<nat, nat>, x: nat)
    requires WellRecorded(es, before) && InjectiveOn(m, Keys(before)) && x in Keys(before)
    ensures x in Inner(es) <==> At(m, x) in Inner(RenameEntries(es, m))
  {
    TopsRenamed(es, before, m);
    assert Tops(es)[..|Tops(es)|] == Tops(es);
    MovedRenamed(es, before, m, |Tops(es)|, x);
  }
}
