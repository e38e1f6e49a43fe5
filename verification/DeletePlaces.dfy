/** When undoing a delete gives back the forest there was before it.

    Undo inserts each subtree at the position recorded for it, last recorded first. Recorded at its turn, each position is
    right. The editor, though, reads the positions of a multiple selection before it deletes anything, and then it depends
    on the order of the selection. */
module DeletePlaces {
  import opened Collections
  import opened Forests
  import opened EditorCommands
  import opened Levels
  import opened DeletedSubtrees

  /** The forest while the first `k` topmost entries are deleted and no other ever was. */
  function StillThere(es: seq<Entry>, before: Items, k: nat): Items
    requires k <= |Tops(es)| && Indices(Tops(es)[..k], |es|)
  {
    Taken(before, es, Tops(es)[..k])
  }

  /** The place of this entry's item, and how many items stay beside it, when its turn to be deleted comes. */
  lemma {:induction false} PlaceAtTurn(es: seq<Entry>, before: Items, k: nat)
    requires WellRecorded(es, before) && k < |Tops(es)|
    ensures Indices(Tops(es)[..k], |es|) && Indices(Tops(es)[..k + 1], |es|)
    ensures var e, w, w' := es[Tops(es)[k]], StillThere(es, before, k), StillThere(es, before, k + 1);
            && Distinct(w) && Distinct(w') && Known(w', e.parent) && Keys(w') !! Keys(e.snapshot)
            && e.snapshot.Tree? && e.snapshot.rest.End? && Distinct(e.snapshot) && e.snapshot.key == e.itemID
            && Locate(w, e.itemID).Some? && Locate(w, e.itemID).value.0 == e.parent
            && w == Insert(w', e.parent, Locate(w, e.itemID).value.1, e.snapshot)
            && LevelAt(w', e.parent) == Dropped(LevelAt(w, e.parent), {e.itemID})
  {
    RecordedInTurn(es, before, k);
    TurnFacts(es, before, k);
    ParentStays(es, before, k + 1, Tops(es)[k]);
    var e, w := es[Tops(es)[k]], StillThere(es, before, k);
    RemoveThenInsert(w, e.itemID);
    FindRemoveKeys(w, e.itemID);
    LevelRemoved(w, e.itemID, e.parent);
  }

  /** The recorded position puts the item back where it was at its turn. */
  ghost predicate RightPlace(es: seq<Entry>, before: Items, k: nat)
    requires k < |Tops(es)|
  {
    && Indices(Tops(es)[..k], |es|) && Indices(Tops(es)[..k + 1], |es|)
    && var e, n := es[Tops(es)[k]], |LevelAt(StillThere(es, before, k + 1), es[Tops(es)[k]].parent)|;
       Locate(StillThere(es, before, k), e.itemID).Some? &&
       Min(e.position, n) == Min(Locate(StillThere(es, before, k), e.itemID).value.1, n)
  }

  lemma {:induction false} TurnIndices(es: seq<Entry>, k: nat)
    requires k <= |Tops(es)|
    ensures Indices(Tops(es)[..k], |es|)
  {
  }

  /** Going backwards, the forest is right as long as every place is. */
  lemma {:induction false} RightSoFar(es: seq<Entry>, before: Items, k: nat)
    requires WellRecorded(es, before) && k <= |Tops(es)| && Indices(Tops(es)[..k], |es|)
    requires forall j :: k <= j < |Tops(es)| ==> RightPlace(es, before, j)
    ensures HalfBack(es, before, k) == StillThere(es, before, k)
    decreases |Tops(es)| - k
  {
    if k == |Tops(es)| {
      TakenAll(es, before);
    } else {
      TurnIndices(es, k + 1);
      RightSoFar(es, before, k + 1);
      OneStepRight(es, before, k);
    }
  }

  lemma {:induction false} OneStepRight(es: seq<Entry>, before: Items, k: nat)
    requires WellRecorded(es, before) && k < |Tops(es)|
    requires Indices(Tops(es)[..k], |es|) && Indices(Tops(es)[..k + 1], |es|)
    requires HalfBack(es, before, k + 1) == StillThere(es, before, k + 1)
    ensures HalfBack(es, before, k) == StillThere(es, before, k) <==> RightPlace(es, before, k)
  {
    PlaceAtTurn(es, before, k);
    HalfBackFacts(es, before, k);
    var e, w' := es[Tops(es)[k]], StillThere(es, before, k + 1);
    SamePlaceIff(w', e.parent, e.position, Locate(StillThere(es, before, k), e.itemID).value.1, e.snapshot);
  }

  /** What undo gives, with the first `k` taken away again, is what there was half way. */
  lemma {:induction false} TakenAwayAgain(es: seq<Entry>, before: Items, k: nat)
    requires WellRecorded(es, before) && k <= |Tops(es)|
    ensures Indices(Tops(es)[..k], |es|)
    ensures Taken(Restored(es, before), es, Tops(es)[..k]) == HalfBack(es, before, k)
    decreases k
  {
    if k == 0 {
      assert Tops(es)[..0] == [];
    } else {
      TakenAwayAgain(es, before, k - 1);
      HalfBackFacts(es, before, k - 1);
      TakenOneMore(Restored(es, before), es, Tops(es)[..k - 1], Tops(es)[k - 1]);
      assert Tops(es)[..k] == Tops(es)[..k - 1] + [Tops(es)[k - 1]];
    }
  }

  lemma {:induction false} TakenOneMore(f: Items, es: seq<Entry>, tops: seq<nat>, t: nat)
    requires Indices(tops, |es|) && t < |es|
    ensures Indices(tops + [t], |es|)
    ensures Taken(f, es, tops + [t]) == Remove(Taken(f, es, tops), es[t].itemID)
    decreases |tops|
  {
    if tops == [] {
      assert [] + [t] == [t] && [t][1..] == [];
    } else {
      assert (tops + [t])[1..] == tops[1..] + [t];
      TakenOneMore(Remove(f, es[tops[0]].itemID), es, tops[1..], t);
    }
  }

  /** The forest goes back if and only if every recorded position is right for its turn. */
  lemma {:induction false} GoesBackIffRight(es: seq<Entry>, before: Items)
    requires WellRecorded(es, before)
    ensures GoesBack(es, before) <==>
            forall k :: 0 <= k < |Tops(es)| ==> RightPlace(es, before, k)
  {
    TurnIndices(es, 0);
    assert StillThere(es, before, 0) == before by { assert Tops(es)[..0] == []; }
    if GoesBack(es, before) {
      forall k | 0 <= k < |Tops(es)| ensures RightPlace(es, before, k) {
        TakenAwayAgain(es, before, k);
        TakenAwayAgain(es, before, k + 1);
        OneStepRight(es, before, k);
      }
    } else if forall k :: 0 <= k < |Tops(es)| ==> RightPlace(es, before, k) {
      RightSoFar(es, before, 0);
    }
  }

  // ---- positions read as each item's turn comes ----

  ghost predicate PlacedAtTurn(es: seq<Entry>, before: Items) {
    forall k :: 0 <= k < |Tops(es)| ==>
      Indices(Tops(es)[..k], |es|) &&
      Locate(StillThere(es, before, k), es[Tops(es)[k]].itemID) == Some((es[Tops(es)[k]].parent, es[Tops(es)[k]].position))
  }

  lemma {:induction false} AtTurnGoesBack(es: seq<Entry>, before: Items)
    requires WellRecorded(es, before) && PlacedAtTurn(es, before)
    ensures GoesBack(es, before)
  {
    forall k | 0 <= k < |Tops(es)| ensures RightPlace(es, before, k) {
      TurnIndices(es, k);
      TurnIndices(es, k + 1);
    }
    GoesBackIffRight(es, before);
  }

  // ---- positions read before anything is deleted ----

  ghost predicate PlacedBefore(es: seq<Entry>, before: Items) {
    forall k :: 0 <= k < |Tops(es)| ==>
      Locate(before, es[Tops(es)[k]].itemID) == Some((es[Tops(es)[k]].parent, es[Tops(es)[k]].position))
  }

  /** An item deleted earlier in the list hung at this position. */
  predicate ListedAt(es: seq<Entry>, k: nat, p: Parent, position: nat)
    requires k <= |Tops(es)|
  {
    exists j :: 0 <= j < k && es[Tops(es)[j]].parent == p && es[Tops(es)[j]].position == position
  }

  /** Nothing before the item was listed before it, or all that came after it was: read off the record and the number of
      items beside it. */
  ghost predicate FindsItsWay(es: seq<Entry>, before: Items, k: nat)
    requires k < |Tops(es)|
  {
    var e := es[Tops(es)[k]];
    || (forall q {:trigger ListedAt(es, k, e.parent, q)} :: 0 <= q < e.position ==> !ListedAt(es, k, e.parent, q))
    || (forall q {:trigger ListedAt(es, k, e.parent, q)} :: e.position < q < |LevelAt(before, e.parent)| ==>
          ListedAt(es, k, e.parent, q))
  }

  function Gone(es: seq<Entry>, k: nat): set<nat>
    requires k <= |Tops(es)|
  {
    set j | 0 <= j < k :: es[Tops(es)[j]].itemID
  }

  /** A level half way is the level there was, without what was deleted from it. */
  lemma {:induction false} LevelHalfWay(es: seq<Entry>, before: Items, k: nat, p: Parent)
    requires WellRecorded(es, before) && k <= |Tops(es)| && Indices(Tops(es)[..k], |es|)
    requires Known(StillThere(es, before, k), p)
    ensures Known(before, p) && LevelAt(StillThere(es, before, k), p) == Dropped(LevelAt(before, p), Gone(es, k))
    decreases k
  {
    if k == 0 {
      assert Tops(es)[..0] == [] && Gone(es, 0) == {};
      DroppedNone(LevelAt(before, p), {});
    } else {
      RecordedInTurn(es, before, k - 1);
      var w, id := StillThere(es, before, k - 1), es[Tops(es)[k - 1]].itemID;
      LevelRemoved(w, id, p);
      LevelHalfWay(es, before, k - 1, p);
      DroppedTwice(LevelAt(before, p), Gone(es, k - 1), {id});
      assert Gone(es, k) == Gone(es, k - 1) + {id};
    }
  }

  lemma {:induction false} GoneIsListed(es: seq<Entry>, before: Items, k: nat, p: Parent, q: nat)
    requires WellRecorded(es, before) && PlacedBefore(es, before) && k <= |Tops(es)|
    requires Known(before, p) && q < |LevelAt(before, p)|
    ensures LevelAt(before, p)[q] in Gone(es, k) <==> ListedAt(es, k, p, q)
  {
    var id := LevelAt(before, p)[q];
    LevelIsLocate(before, id, p, q, Root, 0);
    if ListedAt(es, k, p, q) {
      var j :| 0 <= j < k && es[Tops(es)[j]].parent == p && es[Tops(es)[j]].position == q;
      RecordedInTurn(es, before, j);
      EntryKnown(es, before, Tops(es)[j]);
      LocateIsLevel(before, es[Tops(es)[j]].itemID);
    }
  }

  /** Where the item was, in a level that has lost some. */
  lemma {:induction false} IndexHalfWay(ids: seq<nat>, i: nat, gone: set<nat>)
    requires i < |ids| && ids[i] !in gone
    ensures var before, after := Dropped(ids[..i], gone), Dropped(ids[i + 1..], gone);
            && Dropped(ids, gone) == before + [ids[i]] + after && |before| <= i
  {
    var a, x, b := ids[..i], ids[i], ids[i + 1..];
    assert ids == a + [x] + b;
    DroppedAdds(a + [x], b, gone);
    DroppedAdds(a, [x], gone);
    DroppedNone([x], gone);
  }

  lemma {:induction false} WithoutTheItem(a: seq<nat>, x: nat, b: seq<nat>)
    requires x !in a && x !in b
    ensures Dropped(a + [x] + b, {x}) == a + b
  {
    hide *;
    DroppedAdds(a + [x], b, {x});
    DroppedAdds(a, [x], {x});
    DroppedNone(a, {x});
    DroppedNone(b, {x});
    DroppedOne(x);
    assert a + [] == a;
  }

  lemma {:induction false} DroppedOne(x: nat)
    ensures Dropped([x], {x}) == []
  {
    assert [x][1..] == [];
  }

  lemma {:induction false} DroppedWithin(ids: seq<nat>, gone: set<nat>)
    ensures forall k :: k in Dropped(ids, gone) ==> k in ids
    decreases |ids|
  {
    if ids != [] {
      DroppedWithin(ids[1..], gone);
    }
  }

  /** The item half way: where it is, and how many stay beside it. */
  lemma {:induction false} TurnCounts(es: seq<Entry>, before: Items, k: nat)
    requires WellRecorded(es, before) && PlacedBefore(es, before) && k < |Tops(es)|
    ensures Indices(Tops(es)[..k], |es|) && Indices(Tops(es)[..k + 1], |es|)
    ensures var e, ids := es[Tops(es)[k]], LevelAt(before, es[Tops(es)[k]].parent);
            && Known(before, e.parent) && e.position < |ids|
            && var front, back := |Dropped(ids[..e.position], Gone(es, k))|, |Dropped(ids[e.position + 1..], Gone(es, k))|;
               && Locate(StillThere(es, before, k), e.itemID) == Some((e.parent, front))
               && |LevelAt(StillThere(es, before, k + 1), e.parent)| == front + back && front <= e.position
  {
    hide Dropped, Locate, LevelAt, Taken, Keys;
    PlaceAtTurn(es, before, k);
    RecordedInTurn(es, before, k);
    ParentStays(es, before, k, Tops(es)[k]);
    EntryKnown(es, before, Tops(es)[k]);
    var e, w, gone := es[Tops(es)[k]], StillThere(es, before, k), Gone(es, k);
    LevelHalfWay(es, before, k, e.parent);
    LocateIsLevel(before, e.itemID);
    LevelAtDistinct(before, e.parent);
    NotGoneYet(es, before, k);
    CountHalfWay(before, w, e.itemID, e.parent, e.position, gone);
  }

  lemma {:induction false} NotGoneYet(es: seq<Entry>, before: Items, k: nat)
    requires WellRecorded(es, before) && k < |Tops(es)| && Tops(es)[k] < |es|
    ensures es[Tops(es)[k]].itemID !in Gone(es, k)
  {
    forall j | 0 <= j < k ensures es[Tops(es)[j]].itemID != es[Tops(es)[k]].itemID {
      assert TopSnapshot(es, Tops(es)[j]) && TopSnapshot(es, Tops(es)[k]);
      SnapshotsDisjoint(es, before, Tops(es)[j], Tops(es)[k]);
      TurnFacts(es, before, j);
      TurnFacts(es, before, k);
    }
  }

  lemma {:induction false} CountHalfWay(before: Items, w: Items, id: nat, p: Parent, i: nat, gone: set<nat>)
    requires Distinct(w) && Known(w, p) && LevelAt(w, p) == Dropped(LevelAt(before, p), gone) && id !in gone
    requires i < |LevelAt(before, p)| && LevelAt(before, p)[i] == id
    requires forall a, b :: 0 <= a < b < |LevelAt(before, p)| ==> LevelAt(before, p)[a] != LevelAt(before, p)[b]
    ensures var ids := LevelAt(before, p);
            var front, back := |Dropped(ids[..i], gone)|, |Dropped(ids[i + 1..], gone)|;
            && Locate(w, id) == Some((p, front)) && |Dropped(LevelAt(w, p), {id})| == front + back && front <= i
  {
    var ids := LevelAt(before, p);
    IndexHalfWay(ids, i, gone);
    LevelIsLocate(w, id, p, |Dropped(ids[..i], gone)|, Root, 0);
    DroppedWithin(ids[..i], gone);
    DroppedWithin(ids[i + 1..], gone);
    WithoutTheItem(Dropped(ids[..i], gone), id, Dropped(ids[i + 1..], gone));
  }

  lemma {:induction false} RightIffFindsItsWay(es: seq<Entry>, before: Items, k: nat)
    requires WellRecorded(es, before) && PlacedBefore(es, before) && k < |Tops(es)|
    ensures RightPlace(es, before, k) <==> FindsItsWay(es, before, k)
  {
    hide *;
    TurnCounts(es, before, k);
    RecordedInTurn(es, before, k);
    var e, ids, gone := es[Tops(es)[k]], LevelAt(before, es[Tops(es)[k]].parent), Gone(es, k);
    AllGoneListed(es, before, k, e.parent);
    FrontIntact(es, k, e.parent, ids, e.position, gone);
    BackGone(es, k, e.parent, ids, e.position, gone);
    RightPlaceIs(es, before, k, |Dropped(ids[..e.position], gone)|, |Dropped(ids[e.position + 1..], gone)|);
    FindsItsWayIs(es, before, k);
  }

  lemma {:induction false} AllGoneListed(es: seq<Entry>, before: Items, k: nat, p: Parent)
    requires WellRecorded(es, before) && PlacedBefore(es, before) && k <= |Tops(es)| && Known(before, p)
    ensures forall q: nat :: q < |LevelAt(before, p)| ==> (LevelAt(before, p)[q] in Gone(es, k) <==> ListedAt(es, k, p, q))
  {
    forall q: nat | q < |LevelAt(before, p)| ensures LevelAt(before, p)[q] in Gone(es, k) <==> ListedAt(es, k, p, q) {
      GoneIsListed(es, before, k, p, q);
    }
  }

  lemma {:induction false} FrontIntact(es: seq<Entry>, k: nat, p: Parent, ids: seq<nat>, i: nat, gone: set<nat>)
    requires k <= |Tops(es)| && i < |ids|
    requires forall q: nat :: q < |ids| ==> (ids[q] in gone <==> ListedAt(es, k, p, q))
    ensures |Dropped(ids[..i], gone)| == i <==> forall q {:trigger ListedAt(es, k, p, q)} :: 0 <= q < i ==> !ListedAt(es, k, p, q)
  {
    var a := ids[..i];
    if |Dropped(a, gone)| == i {
      forall q | 0 <= q < i ensures !ListedAt(es, k, p, q) {
        assert a[q] == ids[q];
      }
    }
  }

  lemma {:induction false} BackGone(es: seq<Entry>, k: nat, p: Parent, ids: seq<nat>, i: nat, gone: set<nat>)
    requires k <= |Tops(es)| && i < |ids|
    requires forall q: nat :: q < |ids| ==> (ids[q] in gone <==> ListedAt(es, k, p, q))
    ensures |Dropped(ids[i + 1..], gone)| == 0 <==>
            forall q {:trigger ListedAt(es, k, p, q)} :: i < q < |ids| ==> ListedAt(es, k, p, q)
  {
    var b := ids[i + 1..];
    if |Dropped(b, gone)| == 0 {
      forall q | i < q < |ids| ensures ListedAt(es, k, p, q) {
        assert b[q - i - 1] == ids[q];
      }
    }
  }

  lemma {:induction false} RightPlaceIs(es: seq<Entry>, before: Items, k: nat, front: nat, back: nat)
    requires k < |Tops(es)| && Indices(Tops(es)[..k], |es|) && Indices(Tops(es)[..k + 1], |es|)
    requires var e := es[Tops(es)[k]];
             && Locate(StillThere(es, before, k), e.itemID) == Some((e.parent, front))
             && |LevelAt(StillThere(es, before, k + 1), e.parent)| == front + back && front <= e.position
    ensures RightPlace(es, before, k) <==> front == es[Tops(es)[k]].position || back == 0
  {
  }

  lemma {:induction false} FindsItsWayIs(es: seq<Entry>, before: Items, k: nat)
    requires k < |Tops(es)|
    ensures var e := es[Tops(es)[k]];
            FindsItsWay(es, before, k) <==>
            || (forall q {:trigger ListedAt(es, k, e.parent, q)} :: 0 <= q < e.position ==> !ListedAt(es, k, e.parent, q))
            || (forall q {:trigger ListedAt(es, k, e.parent, q)} :: e.position < q < |LevelAt(before, e.parent)| ==>
                  ListedAt(es, k, e.parent, q))
  {
  }

  /** With the places read before anything is deleted, undo gives the forest back if and only if, for each topmost item,
      no item deleted from before it was listed before it, or every item after it was deleted and listed before it. */
  lemma {:induction false} SeenBeforeGoesBackIff(es: seq<Entry>, before: Items)
    requires WellRecorded(es, before) && PlacedBefore(es, before)
    ensures GoesBack(es, before) <==> forall k :: 0 <= k < |Tops(es)| ==> FindsItsWay(es, before, k)
  {
    GoesBackIffRight(es, before);
    forall k | 0 <= k < |Tops(es)| ensures RightPlace(es, before, k) <==> FindsItsWay(es, before, k) {
      RightIffFindsItsWay(es, before, k);
    }
  }

  /** Selected from the last to the first, items go back wherever they were. */
  lemma {:induction false} LastToFirstGoesBack(es: seq<Entry>, before: Items)
    requires WellRecorded(es, before) && PlacedBefore(es, before)
    requires forall j, k :: 0 <= j < k < |Tops(es)| && es[Tops(es)[j]].parent == es[Tops(es)[k]].parent ==>
               es[Tops(es)[j]].position > es[Tops(es)[k]].position
    ensures GoesBack(es, before)
  {
    forall k | 0 <= k < |Tops(es)| ensures FindsItsWay(es, before, k) {
      var e := es[Tops(es)[k]];
      forall q | 0 <= q < e.position ensures !ListedAt(es, k, e.parent, q) {
      }
    }
    SeenBeforeGoesBackIff(es, before);
  }

  // ---- what is accepted ----

  /** A delete recorded in either way, that undo gives back. */
  ghost predicate Restorable(es: seq<Entry>, before: Items) {
    && WellRecorded(es, before)
    && (PlacedAtTurn(es, before) || (PlacedBefore(es, before) && forall k :: 0 <= k < |Tops(es)| ==> FindsItsWay(es, before, k)))
  }

  lemma {:induction false} RestorableGoesBack(es: seq<Entry>, before: Items)
    requires Restorable(es, before)
    ensures WellRecorded(es, before) && GoesBack(es, before)
  {
    if PlacedAtTurn(es, before) {
      AtTurnGoesBack(es, before);
    } else {
      SeenBeforeGoesBackIff(es, before);
    }
  }

  // ---- two of three, first to last ----

  function Alias(id: nat, rest: Items): Items {
    Tree(id, Item("alias", true, ""), End, rest)
  }

  function Three(): Items {
    Alias(1, Alias(2, Alias(3, End)))
  }

  /** The first two aliases of three, selected in that order. */
  function FirstTwo(): seq<Entry> {
    [Entry(1, Root, 0, Alias(1, End), "alias"), Entry(2, Root, 1, Alias(2, End), "alias")]
  }

  lemma {:induction false} FirstTwoTops()
    ensures Tops(FirstTwo()) == [0, 1]
  {
    assert IsTop(FirstTwo(), 0) && IsTop(FirstTwo(), 1);
    assert TopsBelow(FirstTwo(), 0) == [];
    assert TopsBelow(FirstTwo(), 1) == [] + [0];
  }

  lemma {:induction false} FirstTwoRecorded()
    ensures WellRecorded(FirstTwo(), Three()) && PlacedBefore(FirstTwo(), Three())
    ensures Taken(Three(), FirstTwo(), Tops(FirstTwo())) == Alias(3, End)
  {
    var es, f := FirstTwo(), Three();
    var f1 := Alias(2, Alias(3, End));
    FirstTwoTops();
    assert Find(f, 1) == Alias(1, End) && Remove(f, 1) == f1;
    assert Find(f1, 2) == Alias(2, End) && Remove(f1, 2) == Alias(3, End);
    assert [0, 1][1..] == [1] && [1][1..] == [];
    assert Taken(f1, es, [1]) == Alias(3, End);
    assert TakenTruly(f1, es, [1]);
    assert TakenTruly(f, es, [0, 1]);
    assert Locate(f, 1) == Some((Root, 0)) && LocateFrom(f1, 2, Root, 1) == Some((Root, 1));
    assert Locate(f, 2) == Some((Root, 1));
    assert IsTop(es, 0) && IsTop(es, 1);
  }

  /** Undo puts the second one back behind the third. */
  lemma {:induction false} FirstTwoSwap()
    ensures WellRecorded(FirstTwo(), Three()) && PlacedBefore(FirstTwo(), Three())
    ensures Restored(FirstTwo(), Three()) == Alias(1, Alias(3, Alias(2, End)))
    ensures !GoesBack(FirstTwo(), Three())
  {
    FirstTwoRecorded();
    FirstTwoTops();
    var es, f := FirstTwo(), Three();
    assert InsertAt(Alias(3, End), 1, Alias(2, End)) == Alias(3, Alias(2, End));
    assert HalfBack(es, f, 2) == Alias(3, End);
    assert HalfBack(es, f, 1) == Alias(3, Alias(2, End));
    assert HalfBack(es, f, 0) == Alias(1, Alias(3, Alias(2, End)));
  }
}
