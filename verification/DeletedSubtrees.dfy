/** Why deleting any set of subtrees can be undone and redone for ever: undo puts every subtree back at its recorded
    place, wherever that is, and redo takes the same ones away again. Whether that gives back the forest there was before
    depends on the places, and is the subject of DeletePlaces.

    Here items are named by identities that never change, and a map `m` gives the ID each identity has now.
    A delete command holds `MapEntry` images of what was recorded; undoing it recreates the items under
    fresh IDs, so the theorem has to show that every entry ends up at its own recreated item. */
module DeletedSubtrees {
  import opened Collections
  import opened Forests
  import opened EditorCommands
  import opened Levels

  // ---- what the editor records ----

  /** `e` names the child of one of `s`'s items at the position it has in the snapshot. */
  ghost predicate IsChild(s: Items, e: Entry) {
    && e.parent.Under? && e.parent.key in Keys(s)
    && var kids := ChildrenOf(s, e.parent.key);
       e.position < |kids| && kids[e.position].0 == e.itemID && kids[e.position].1.name == e.itemName
  }

  /** The forest once the entries listed in `tops` have been deleted in that order. */
  function Taken(f: Items, es: seq<Entry>, tops: seq<nat>): Items
    requires Indices(tops, |es|)
    decreases |tops|
  {
    if tops == [] then f else Taken(Remove(f, es[tops[0]].itemID), es, tops[1..])
  }

  predicate HangsFrom(f: Items, id: nat, p: Parent) {
    Locate(f, id).Some? && Locate(f, id).value.0 == p
  }

  /** Each listed entry names, at its turn, its true parent, its subtree and its name; its position may be any. */
  ghost predicate TakenTruly(f: Items, es: seq<Entry>, tops: seq<nat>)
    requires Indices(tops, |es|)
    decreases |tops|
  {
    tops == [] ||
    var e := es[tops[0]];
    && e.itemID in Keys(f)
    && HangsFrom(f, e.itemID, e.parent)
    && e.snapshot == Find(f, e.itemID)
    && e.itemName == e.snapshot.value.name
    && TakenTruly(Remove(f, e.itemID), es, tops[1..])
  }

  ghost predicate HasHome(es: seq<Entry>, i: nat)
    requires i < |es|
  {
    exists t: nat :: t < |es| && IsTop(es, t) && IsChild(es[t].snapshot, es[i])
  }

  /** A delete of a set of subtrees. The topmost entries are recorded truly and hang from items that stay;
      every other entry names a child inside the snapshot of a topmost one. */
  ghost predicate WellRecorded(es: seq<Entry>, before: Items) {
    && Distinct(before)
    && TakenTruly(before, es, Tops(es))
    && (forall t: nat :: t < |es| && IsTop(es, t) && es[t].parent.Under? ==>
          es[t].parent.key in Keys(Taken(before, es, Tops(es))))
    && (forall i: nat {:trigger HasHome(es, i)} :: i < |es| && !IsTop(es, i) ==> HasHome(es, i))
  }

  function MapEntry(e: Entry, m: map<nat, nat>): Entry {
    Entry(At(m, e.itemID), ParentAt(m, e.parent), e.position, Strip(e.snapshot), e.itemName)
  }

  /** Every stored entry holds what was recorded, under the IDs of `m`. */
  ghost predicate Current(cs: seq<Entry>, es: seq<Entry>, m: map<nat, nat>) {
    |cs| == |es| && forall i: nat :: i < |es| ==> cs[i] == MapEntry(es[i], m)
  }

  // ---- the order of the deletions ----

  lemma {:induction false} TakenKeys(f: Items, es: seq<Entry>, tops: seq<nat>)
    requires Indices(tops, |es|) && Distinct(f)
    ensures Distinct(Taken(f, es, tops)) && Keys(Taken(f, es, tops)) <= Keys(f)
    decreases |tops|
  {
    if tops != [] {
      FindRemoveKeys(f, es[tops[0]].itemID);
      TakenKeys(Remove(f, es[tops[0]].itemID), es, tops[1..]);
    }
  }

  lemma {:induction false} TakenSplit(f: Items, es: seq<Entry>, tops: seq<nat>, k: nat)
    requires Indices(tops, |es|) && k <= |tops|
    ensures Indices(tops[..k], |es|) && Indices(tops[k..], |es|)
    ensures Taken(f, es, tops) == Taken(Taken(f, es, tops[..k]), es, tops[k..])
    decreases |tops|
  {
    if k > 0 {
      assert tops[..k][1..] == tops[1..][..k - 1];
      assert tops[k..] == tops[1..][k - 1..];
      TakenSplit(Remove(f, es[tops[0]].itemID), es, tops[1..], k - 1);
    } else {
      assert tops[..k] == [] && tops[k..] == tops;
    }
  }

  /** The `k`-th deletion, seen from the forest it was made in. */
  lemma {:induction false} TakenTurn(f: Items, es: seq<Entry>, tops: seq<nat>, k: nat)
    requires Indices(tops, |es|) && Distinct(f) && TakenTruly(f, es, tops) && k < |tops|
    ensures Indices(tops[..k], |es|) && Indices(tops[..k + 1], |es|)
    ensures var g := Taken(f, es, tops[..k]);
            var e := es[tops[k]];
            && Distinct(g) && e.itemID in Keys(g)
            && HangsFrom(g, e.itemID, e.parent)
            && e.snapshot == Find(g, e.itemID) && e.itemName == e.snapshot.value.name
            && Taken(f, es, tops[..k + 1]) == Remove(g, e.itemID)
            && Keys(e.snapshot) <= Keys(f)
    decreases k
  {
    var u := es[tops[0]].itemID;
    FindRemoveKeys(f, u);
    if k == 0 {
      assert tops[..1] == [tops[0]] && tops[..0] == [];
      assert tops[..1][1..] == [];
    } else {
      TakenTurn(Remove(f, u), es, tops[1..], k - 1);
      assert tops[..k][1..] == tops[1..][..k - 1];
      assert tops[..k + 1][1..] == tops[1..][..k];
    }
  }

  lemma {:induction false} TurnKeys(f: Items, es: seq<Entry>, tops: seq<nat>, j: nat, k: nat)
    requires Indices(tops, |es|) && Distinct(f) && TakenTruly(f, es, tops) && j < k <= |tops|
    ensures Indices(tops[..k], |es|)
    ensures Keys(es[tops[j]].snapshot) !! Keys(Taken(f, es, tops[..k]))
  {
    TakenTurn(f, es, tops, j);
    var g := Taken(f, es, tops[..j]);
    FindRemoveKeys(g, es[tops[j]].itemID);
    TakenSplit(f, es, tops[..k], j + 1);
    assert tops[..k][..j + 1] == tops[..j + 1];
    TakenKeys(Taken(f, es, tops[..j + 1]), es, tops[..k][j + 1..]);
  }

  // ---- putting the subtrees back ----

  function PutBack(f: Items, e: Entry): Items {
    if e.snapshot.End? then f else Insert(f, e.parent, e.position, e.snapshot)
  }

  /** The forest while the first `k` topmost entries are still deleted and the later ones have been put back. */
  function HalfBack(es: seq<Entry>, before: Items, k: nat): Items
    requires k <= |Tops(es)|
    decreases |Tops(es)| - k
  {
    if k == |Tops(es)| then Taken(before, es, Tops(es)) else PutBack(HalfBack(es, before, k + 1), es[Tops(es)[k]])
  }

  /** The forest undo leads to. */
  function Restored(es: seq<Entry>, before: Items): Items {
    HalfBack(es, before, 0)
  }

  /** Undo gives the forest back. */
  ghost predicate GoesBack(es: seq<Entry>, before: Items) {
    Restored(es, before) == before
  }

  lemma {:induction false} TakenAll(es: seq<Entry>, before: Items)
    ensures Indices(Tops(es)[..|Tops(es)|], |es|)
    ensures Taken(before, es, Tops(es)[..|Tops(es)|]) == Taken(before, es, Tops(es))
  {
    assert Tops(es)[..|Tops(es)|] == Tops(es);
  }

  /** Item by item, what is back is what would be there had it never gone, if not in that order; and removing the one
      put back last leaves what there was. */
  lemma {:induction false} HalfBackFacts(es: seq<Entry>, before: Items, k: nat)
    requires WellRecorded(es, before) && k <= |Tops(es)|
    ensures Indices(Tops(es)[..k], |es|)
    ensures Distinct(HalfBack(es, before, k)) && Keys(HalfBack(es, before, k)) == Keys(Taken(before, es, Tops(es)[..k]))
    ensures k < |Tops(es)| ==>
              var e, g := es[Tops(es)[k]], HalfBack(es, before, k + 1);
              && e.snapshot.Tree? && e.snapshot.rest.End? && e.snapshot.key == e.itemID && Distinct(e.snapshot)
              && Distinct(g) && Keys(g) !! Keys(e.snapshot) && Known(g, e.parent)
              && HalfBack(es, before, k) == Insert(g, e.parent, e.position, e.snapshot)
              && Remove(HalfBack(es, before, k), e.itemID) == g && Find(HalfBack(es, before, k), e.itemID) == e.snapshot
    decreases |Tops(es)| - k
  {
    hide *;
    if k == |Tops(es)| {
      NoneBack(es, before);
    } else {
      HalfBackFacts(es, before, k + 1);
      OneMoreBack(es, before, k);
    }
  }

  lemma {:induction false} NoneBack(es: seq<Entry>, before: Items)
    requires WellRecorded(es, before)
    ensures var k := |Tops(es)|;
            && Indices(Tops(es)[..k], |es|) && Distinct(HalfBack(es, before, k))
            && Keys(HalfBack(es, before, k)) == Keys(Taken(before, es, Tops(es)[..k]))
  {
    TakenAll(es, before);
    TakenKeys(before, es, Tops(es));
  }

  lemma {:induction false} OneMoreBack(es: seq<Entry>, before: Items, k: nat)
    requires WellRecorded(es, before) && k < |Tops(es)| && Indices(Tops(es)[..k + 1], |es|)
    requires Distinct(HalfBack(es, before, k + 1))
    requires Keys(HalfBack(es, before, k + 1)) == Keys(Taken(before, es, Tops(es)[..k + 1]))
    ensures Indices(Tops(es)[..k], |es|)
    ensures Distinct(HalfBack(es, before, k)) && Keys(HalfBack(es, before, k)) == Keys(Taken(before, es, Tops(es)[..k]))
    ensures var e, g := es[Tops(es)[k]], HalfBack(es, before, k + 1);
            && e.snapshot.Tree? && e.snapshot.rest.End? && e.snapshot.key == e.itemID && Distinct(e.snapshot)
            && Distinct(g) && Keys(g) !! Keys(e.snapshot) && Known(g, e.parent)
            && HalfBack(es, before, k) == Insert(g, e.parent, e.position, e.snapshot)
            && Remove(HalfBack(es, before, k), e.itemID) == g && Find(HalfBack(es, before, k), e.itemID) == e.snapshot
  {
    hide *;
    RecordedInTurn(es, before, k);
    var e, g := es[Tops(es)[k]], HalfBack(es, before, k + 1);
    TurnFacts(es, before, k);
    ParentKnown(es, before, k);
    PutBackIs(es, before, k);
    InsertThenRemove(g, e.parent, e.position, e.snapshot);
  }

  lemma {:induction false} RecordedInTurn(es: seq<Entry>, before: Items, k: nat)
    requires WellRecorded(es, before) && k < |Tops(es)|
    ensures Tops(es)[k] < |es| && Indices(Tops(es)[..k], |es|) && Indices(Tops(es)[..k + 1], |es|)
    ensures var w, e := Taken(before, es, Tops(es)[..k]), es[Tops(es)[k]];
            && Distinct(w) && e.itemID in Keys(w) && HangsFrom(w, e.itemID, e.parent)
            && e.snapshot == Find(w, e.itemID) && Taken(before, es, Tops(es)[..k + 1]) == Remove(w, e.itemID)
  {
    TakenTurn(before, es, Tops(es), k);
  }

  lemma {:induction false} TurnFacts(es: seq<Entry>, before: Items, k: nat)
    requires WellRecorded(es, before) && k < |Tops(es)|
    ensures Indices(Tops(es)[..k], |es|) && Indices(Tops(es)[..k + 1], |es|)
    ensures var w, e := Taken(before, es, Tops(es)[..k]), es[Tops(es)[k]];
            && e.snapshot.Tree? && e.snapshot.rest.End? && e.snapshot.key == e.itemID && Distinct(e.snapshot)
            && Keys(w) == Keys(Taken(before, es, Tops(es)[..k + 1])) + Keys(e.snapshot)
            && Keys(Taken(before, es, Tops(es)[..k + 1])) !! Keys(e.snapshot)
  {
    RecordedInTurn(es, before, k);
    FindRemoveKeys(Taken(before, es, Tops(es)[..k]), es[Tops(es)[k]].itemID);
  }

  lemma {:induction false} ParentKnown(es: seq<Entry>, before: Items, k: nat)
    requires WellRecorded(es, before) && k < |Tops(es)| && Indices(Tops(es)[..k + 1], |es|)
    requires Keys(HalfBack(es, before, k + 1)) == Keys(Taken(before, es, Tops(es)[..k + 1]))
    ensures Known(HalfBack(es, before, k + 1), es[Tops(es)[k]].parent)
  {
    ParentStays(es, before, k + 1, Tops(es)[k]);
  }

  lemma {:induction false} PutBackIs(es: seq<Entry>, before: Items, k: nat)
    requires k < |Tops(es)| && es[Tops(es)[k]].snapshot.Tree?
    ensures var e := es[Tops(es)[k]];
            HalfBack(es, before, k) == Insert(HalfBack(es, before, k + 1), e.parent, e.position, e.snapshot)
  {
  }

  /** What a topmost entry hangs from is there all along. */
  lemma {:induction false} ParentStays(es: seq<Entry>, before: Items, k: nat, t: nat)
    requires WellRecorded(es, before) && k <= |Tops(es)| && t in Tops(es) && Indices(Tops(es)[..k], |es|)
    ensures t < |es| && Known(Taken(before, es, Tops(es)[..k]), es[t].parent)
  {
    var tops := Tops(es);
    TakenSplit(before, es, tops, k);
    TakenKeys(before, es, tops[..k]);
    TakenKeys(Taken(before, es, tops[..k]), es, tops[k..]);
    assert IsTop(es, t);
  }

  // ---- adoption ----

  /** The entries recorded below `v` have been taken from the waiting lists (or there were none). */
  ghost predicate Gone(w: Waiting, m: map<nat, nat>, v: nat) {
    Under(At(m, v)) !in w
  }

  ghost predicate Inside(s: Items, e: Entry) {
    e.parent.Under? && e.parent.key in Keys(s)
  }

  /** For `s`'s items the waiting lists are exact and hold nothing twice. */
  ghost predicate FiledFor(w: Waiting, es: seq<Entry>, s: Items, m: map<nat, nat>) {
    && Indexed(w, |es|)
    && forall v :: v in Keys(s) && !Gone(w, m, v) ==>
         var l := w[Under(At(m, v))];
         && (forall j :: 0 <= j < |l| ==> es[l[j]].parent == Under(v))
         && (forall i, j :: 0 <= i < j < |l| ==> l[i] != l[j])
         && (forall i: nat :: i < |es| && es[i].parent == Under(v) ==> i in l)
  }

  /** What one recreated subtree brings: its recorded children, and where they are in the new forest. */
  ghost predicate Recreated(es: seq<Entry>, s: Items, m: map<nat, nat>, m': map<nat, nat>, f: Items) {
    && InjectiveOn(m, Keys(s))
    && (forall i: nat :: i < |es| && Inside(s, es[i]) ==> IsChild(s, es[i]) && es[i].itemID in Keys(s))
    && (forall v :: v in Keys(s) ==>
          var kids := ChildrenOf(s, v);
          var news := ChildrenOf(f, At(m', v));
          |news| == |kids| && forall j :: 0 <= j < |kids| ==> news[j] == (At(m', kids[j].0), kids[j].1))
  }

  /** Every entry below a taken parent, `busy` ones apart, is re-pointed; all others are as in `was`. */
  ghost predicate Progress(cs: seq<Entry>, was: seq<Entry>, es: seq<Entry>, w: Waiting, s: Items,
                           m: map<nat, nat>, m': map<nat, nat>, busy: set<nat>) {
    && |cs| == |was| == |es|
    && forall i: nat :: i < |es| ==>
         if Inside(s, es[i]) && i !in busy && Gone(w, m, es[i].parent.key)
         then cs[i] == MapEntry(es[i], m') && Gone(w, m, es[i].itemID)
         else cs[i] == was[i]
  }

  ghost predicate Waits(was: seq<Entry>, es: seq<Entry>, w: Waiting, s: Items, m: map<nat, nat>, busy: set<nat>) {
    && |was| == |es|
    && (forall i: nat :: i < |es| && Inside(s, es[i]) && i !in busy ==> was[i] == MapEntry(es[i], m))
    && (forall i: nat :: i in busy ==> i < |es| && Inside(s, es[i]) && Gone(w, m, es[i].parent.key))
  }

  /** `w'` is `w` with some lists of `s`'s items taken. */
  ghost predicate Fewer(w': Waiting, w: Waiting, s: Items, m: map<nat, nat>) {
    && (forall p :: p in w' ==> p in w && w'[p] == w[p])
    && (forall p :: p in w && p !in w' ==> exists v :: v in Keys(s) && p == Under(At(m, v)))
  }

  lemma {:induction false} FewerFiled(w: Waiting, w': Waiting, es: seq<Entry>, s: Items, m: map<nat, nat>)
    requires FiledFor(w, es, s, m) && Fewer(w', w, s, m)
    ensures FiledFor(w', es, s, m)
  {
    forall v | v in Keys(s) && !Gone(w', m, v)
      ensures !Gone(w, m, v) && w'[Under(At(m, v))] == w[Under(At(m, v))]
    {
    }
  }

  /** Taking `v`'s list: its entries become the busy ones, and nothing else changes. */
  lemma {:induction false} StartTaking(cs: seq<Entry>, was: seq<Entry>, es: seq<Entry>, w: Waiting, s: Items,
                    m: map<nat, nat>, m': map<nat, nat>, v: nat, busy: set<nat>)
    requires v in Keys(s) && FiledFor(w, es, s, m) && InjectiveOn(m, Keys(s)) && !Gone(w, m, v)
    requires Progress(cs, was, es, w, s, m, m', busy) && Waits(was, es, w, s, m, busy)
    ensures var w1, taken := w - {Under(At(m, v))}, w[Under(At(m, v))];
            && Fewer(w1, w, s, m) && Gone(w1, m, v)
            && (forall j :: 0 <= j < |taken| ==> taken[j] !in busy)
            && Progress(cs, was, es, w1, s, m, m', busy + Elements(taken)) && Waits(was, es, w1, s, m, busy)
  {
    var taken, w1 := w[Under(At(m, v))], w - {Under(At(m, v))};
    assert forall u :: Gone(w, m, u) ==> Gone(w1, m, u);
    assert forall u :: u in Keys(s) && u != v && Gone(w1, m, u) ==> Gone(w, m, u);
    forall j | 0 <= j < |taken| ensures taken[j] !in busy {
      assert es[taken[j]].parent == Under(v);
    }
    forall i: nat | i < |es|
      ensures if Inside(s, es[i]) && i !in busy + Elements(taken) && Gone(w1, m, es[i].parent.key)
              then cs[i] == MapEntry(es[i], m') && Gone(w1, m, es[i].itemID) else cs[i] == was[i]
    {
      if es[i].parent == Under(v) {
        assert i in taken;
        var j :| 0 <= j < |taken| && taken[j] == i;
        assert i in Elements(taken);
      }
    }
  }

  /** One entry re-pointed at its recreated item, before its own children are adopted. */
  lemma {:induction false} Repoint(cs: seq<Entry>, was: seq<Entry>, es: seq<Entry>, w: Waiting, s: Items,
                m: map<nat, nat>, m': map<nat, nat>, v: nat, taken: seq<nat>, busy: set<nat>)
    requires taken != [] && Indices(taken, |es|) && v in Keys(s) && Gone(w, m, v)
    requires forall j :: 0 <= j < |taken| ==> es[taken[j]].parent == Under(v) && taken[j] !in busy
    requires Progress(cs, was, es, w, s, m, m', busy + Elements(taken)) && Waits(was, es, w, s, m, busy)
    ensures var i := taken[0];
            var done := MapEntry(es[i], m');
            && cs[i] == MapEntry(es[i], m)
            && Progress(cs[i := done], was[i := done], es, w, s, m, m', busy + Elements(taken))
            && Waits(was[i := done], es, w, s, m, busy + Elements(taken))
  {
    var i := taken[0];
    assert i in Elements(taken);
    assert Inside(s, es[i]);
    assert cs[i] == was[i];
    forall j | j in Elements(taken) ensures j < |es| && Inside(s, es[j]) && Gone(w, m, es[j].parent.key) {
    }
  }

  /** Once an entry's own children are adopted, it is done for good. */
  lemma {:induction false} Settle(cs: seq<Entry>, was: seq<Entry>, es: seq<Entry>, w: Waiting, w': Waiting, s: Items,
               m: map<nat, nat>, m': map<nat, nat>, v: nat, taken: seq<nat>, busy: set<nat>)
    requires taken != [] && Indices(taken, |es|) && v in Keys(s) && Gone(w, m, v)
    requires forall j :: 0 <= j < |taken| ==> es[taken[j]].parent == Under(v) && taken[j] !in busy
    requires forall i, j :: 0 <= i < j < |taken| ==> taken[i] != taken[j]
    requires Waits(was, es, w, s, m, busy) && Fewer(w', w, s, m)
    requires Gone(w', m, es[taken[0]].itemID)
    requires Progress(cs, was[taken[0] := MapEntry(es[taken[0]], m')], es, w', s, m, m', busy + Elements(taken))
    ensures Progress(cs, was, es, w', s, m, m', busy + Elements(taken[1..])) && Waits(was, es, w', s, m, busy)
    ensures Gone(w', m, v)
  {
    var i0 := taken[0];
    assert Elements(taken) == Elements(taken[1..]) + {i0};
    assert i0 !in Elements(taken[1..]);
    assert forall u :: Gone(w, m, u) ==> Gone(w', m, u);
    assert Inside(s, es[i0]);
  }

  lemma {:induction false} AdoptDone(cs: seq<Entry>, was: seq<Entry>, es: seq<Entry>, w: Waiting, s: Items,
                                     m: map<nat, nat>, m': map<nat, nat>, f: Items, v: nat, busy: set<nat>)
    requires v in Keys(s) && FiledFor(w, es, s, m) && Recreated(es, s, m, m', f)
    requires Progress(cs, was, es, w, s, m, m', busy) && Waits(was, es, w, s, m, busy)
    ensures var adopted := Adopt(cs, w, f, At(m, v), At(m', v));
            && Progress(adopted.0, was, es, adopted.1, s, m, m', busy) && Fewer(adopted.1, w, s, m)
            && Gone(adopted.1, m, v)
    decreases w.Keys, 0
  {
    if !Gone(w, m, v) {
      StartTaking(cs, was, es, w, s, m, m', v, busy);
      var w1 := w - {Under(At(m, v))};
      FewerFiled(w, w1, es, s, m);
      AdoptEachDone(cs, was, es, w1, s, m, m', f, v, w[Under(At(m, v))], busy);
      var (_, w') := Adopt(cs, w, f, At(m, v), At(m', v));
      FewerTrans(w', w1, w, s, m);
    }
  }

  lemma {:induction false} FewerTrans(w2: Waiting, w1: Waiting, w: Waiting, s: Items, m: map<nat, nat>)
    requires Fewer(w2, w1, s, m) && Fewer(w1, w, s, m)
    ensures Fewer(w2, w, s, m)
  {
  }

  lemma {:induction false} AdoptEachDone(cs: seq<Entry>, was: seq<Entry>, es: seq<Entry>, w: Waiting, s: Items,
                                         m: map<nat, nat>, m': map<nat, nat>, f: Items, v: nat, taken: seq<nat>,
                                         busy: set<nat>)
    requires v in Keys(s) && Gone(w, m, v) && FiledFor(w, es, s, m) && Recreated(es, s, m, m', f)
    requires Indices(taken, |es|)
    requires forall j :: 0 <= j < |taken| ==> es[taken[j]].parent == Under(v) && taken[j] !in busy
    requires forall i, j :: 0 <= i < j < |taken| ==> taken[i] != taken[j]
    requires Progress(cs, was, es, w, s, m, m', busy + Elements(taken)) && Waits(was, es, w, s, m, busy)
    ensures var adopted := AdoptEach(cs, w, f, At(m', v), taken);
            && Progress(adopted.0, was, es, adopted.1, s, m, m', busy) && Fewer(adopted.1, w, s, m)
            && Gone(adopted.1, m, v)
    decreases w.Keys, |taken|
  {
    hide *;
    AllSized(cs, was, es, w, s, m, m', taken, busy + Elements(taken));
    if taken == [] {
      AdoptNone(cs, w, f, At(m', v), taken, busy, s, m);
    } else {
      var i, left := taken[0], taken[1..];
      var c, done := es[i].itemID, MapEntry(es[i], m');
      Repoint(cs, was, es, w, s, m, m', v, taken, busy);
      AdoptNext(cs, es, w, s, m, m', f, v, taken);
      AdoptDone(cs[i := done], was[i := done], es, w, s, m, m', f, c, busy + Elements(taken));
      var adopted := Adopt(cs[i := done], w, f, At(m, c), At(m', c));
      Settle(adopted.0, was, es, w, adopted.1, s, m, m', v, taken, busy);
      FewerFiled(w, adopted.1, es, s, m);
      AdoptEachDone(adopted.0, was, es, adopted.1, s, m, m', f, v, left, busy);
      FewerTrans(AdoptEach(adopted.0, adopted.1, f, At(m', v), left).1, adopted.1, w, s, m);
    }
  }

  lemma {:induction false} AllSized(cs: seq<Entry>, was: seq<Entry>, es: seq<Entry>, w: Waiting, s: Items,
                 m: map<nat, nat>, m': map<nat, nat>, taken: seq<nat>, busy: set<nat>)
    requires FiledFor(w, es, s, m) && Indices(taken, |es|) && Progress(cs, was, es, w, s, m, m', busy)
    ensures |cs| == |was| == |es| && Indexed(w, |es|) && (taken != [] ==> taken[0] < |es|)
  {
  }

  lemma {:induction false} AdoptNone(cs: seq<Entry>, w: Waiting, f: Items, id: nat, taken: seq<nat>, busy: set<nat>,
                  s: Items, m: map<nat, nat>)
    requires taken == [] && Indexed(w, |cs|)
    ensures Fewer(w, w, s, m)
    ensures AdoptEach(cs, w, f, id, taken) == (cs, w) && busy + Elements(taken) == busy
  {
  }

  /** The next taken entry does find its child, so the walk goes on below that child and then to its siblings. */
  lemma {:induction false} AdoptNext(cs: seq<Entry>, es: seq<Entry>, w: Waiting, s: Items, m: map<nat, nat>, m': map<nat, nat>, f: Items,
                  v: nat, taken: seq<nat>)
    requires taken != [] && |cs| == |es| && Indices(taken, |es|) && Indexed(w, |es|)
    requires v in Keys(s) && es[taken[0]].parent == Under(v) && Recreated(es, s, m, m', f)
    requires cs[taken[0]] == MapEntry(es[taken[0]], m)
    ensures var i, c := taken[0], es[taken[0]].itemID;
            var adopted := Adopt(cs[i := MapEntry(es[i], m')], w, f, At(m, c), At(m', c));
            && c in Keys(s) && Indices(taken[1..], |es|)
            && AdoptEach(cs, w, f, At(m', v), taken) == AdoptEach(adopted.0, adopted.1, f, At(m', v), taken[1..])
  {
    var i, c := taken[0], es[taken[0]].itemID;
    assert Inside(s, es[i]) && IsChild(s, es[i]);
    var info := cs[i].(parent := Under(At(m', v)));
    assert ChildrenOf(f, At(m', v))[info.position] == (At(m', c), ChildrenOf(s, v)[info.position].1);
    assert info.(itemID := At(m', c)) == MapEntry(es[i], m');
  }

  // ---- one recreated subtree ----

  /** Every item of `s` hangs, directly or not, below its root. */
  lemma {:induction false} ChildSmaller(s: Items, v: nat, j: nat)
    requires Distinct(s) && v in Keys(s) && j < |ChildrenOf(s, v)|
    ensures var c := ChildrenOf(s, v)[j].0;
            c in Keys(s) && Size(Find(s, c)) < Size(Find(s, v)) <= Size(s)
  {
    var t := Find(s, v);
    var c := ChildrenOf(s, v)[j].0;
    FindRemoveKeys(s, v);
    LevelKeys(t.kids, j);
    FindWithin(s, v, c);
    FindSize(s, v);
  }

  lemma {:induction false} FindSize(s: Items, v: nat)
    ensures Size(Find(s, v)) <= Size(s)
  {
    if s.Tree? {
      FindSize(s.kids, v);
      FindSize(s.rest, v);
    }
  }

  /** When the root's list has been taken and adoption has run, so has that of every recorded item below. */
  lemma {:induction false} AllGone(cs: seq<Entry>, was: seq<Entry>, es: seq<Entry>, w: Waiting, s: Items,
                                   m: map<nat, nat>, m': map<nat, nat>, f: Items, u: nat, v: nat)
    requires Distinct(s) && v in Keys(s) && Recreated(es, s, m, m', f) && FiledFor(w, es, s, m)
    requires forall p :: p in w ==> w[p] != []
    requires Progress(cs, was, es, w, s, m, m', {}) && Gone(w, m, u)
    requires forall i: nat :: i < |es| && es[i].itemID in Keys(s) && es[i].itemID != u ==> Inside(s, es[i])
    requires forall i: nat :: i < |es| && Inside(s, es[i]) ==> es[i].parent.key in IDs(es)
    ensures Gone(w, m, v)
    decreases Size(s) - Size(Find(s, v))
  {
    FindSize(s, v);
    if v != u && !Gone(w, m, v) {
      var i := w[Under(At(m, v))][0];
      assert es[i].parent == Under(v);
      assert Inside(s, es[i]);
      var k :| 0 <= k < |es| && es[k].itemID == v;
      assert Inside(s, es[k]) && IsChild(s, es[k]);
      ChildSmaller(s, es[k].parent.key, es[k].position);
      AllGone(cs, was, es, w, s, m, m', f, u, es[k].parent.key);
    }
  }

  // ---- which subtree an entry belongs to ----

  ghost predicate TopSnapshot(es: seq<Entry>, t: nat) {
    t < |es| && IsTop(es, t)
  }

  /** A topmost snapshot is one of the deletions, so it has a turn. */
  lemma {:induction false} TurnOf(es: seq<Entry>, before: Items, t: nat) returns (k: nat)
    requires WellRecorded(es, before) && TopSnapshot(es, t)
    ensures k < |Tops(es)| && Tops(es)[k] == t
    ensures var s := es[t].snapshot;
            && s.Tree? && s.rest.End? && s.key == es[t].itemID && Distinct(s) && Keys(s) <= Keys(before)
            && Keys(s) !! Keys(Taken(before, es, Tops(es)))
  {
    assert t in Tops(es);
    k :| 0 <= k < |Tops(es)| && Tops(es)[k] == t;
    TakenTurn(before, es, Tops(es), k);
    FindRemoveKeys(Taken(before, es, Tops(es)[..k]), es[t].itemID);
    TurnKeys(before, es, Tops(es), k, |Tops(es)|);
    assert Tops(es)[..|Tops(es)|] == Tops(es);
  }

  lemma {:induction false} SnapshotsDisjoint(es: seq<Entry>, before: Items, t: nat, t': nat)
    requires WellRecorded(es, before) && TopSnapshot(es, t) && TopSnapshot(es, t') && t != t'
    ensures Keys(es[t].snapshot) !! Keys(es[t'].snapshot)
  {
    var k := TurnOf(es, before, t);
    var k' := TurnOf(es, before, t');
    var lo, hi := if k < k' then k else k', if k < k' then k' else k;
    TurnKeys(before, es, Tops(es), lo, hi);
    TakenTurn(before, es, Tops(es), hi);
    FindRemoveKeys(Taken(before, es, Tops(es)[..hi]), es[Tops(es)[hi]].itemID);
  }

  /** An entry inside a topmost snapshot is one of its children there. */
  lemma {:induction false} InsideIsChild(es: seq<Entry>, before: Items, t: nat, i: nat)
    requires WellRecorded(es, before) && TopSnapshot(es, t) && i < |es|
    ensures Inside(es[t].snapshot, es[i]) ==> IsChild(es[t].snapshot, es[i]) && es[i].itemID in Keys(es[t].snapshot)
    ensures Inside(es[t].snapshot, es[i]) ==> es[i].parent.key in IDs(es)
    ensures es[i].itemID in Keys(es[t].snapshot) && es[i].itemID != es[t].itemID ==> Inside(es[t].snapshot, es[i])
    ensures !Inside(es[t].snapshot, es[i]) && i != t ==> es[i].itemID !in Keys(es[t].snapshot)
  {
    var k := TurnOf(es, before, t);
    if IsTop(es, i) {
      var ki := TurnOf(es, before, i);
      if i != t {
        SnapshotsDisjoint(es, before, i, t);
      }
    } else {
      assert HasHome(es, i);
      var t': nat :| t' < |es| && IsTop(es, t') && IsChild(es[t'].snapshot, es[i]);
      var k' := TurnOf(es, before, t');
      ChildSmaller(es[t'].snapshot, es[i].parent.key, es[i].position);
      if t' != t {
        SnapshotsDisjoint(es, before, t', t);
      }
    }
  }

  // ---- restoring one topmost entry ----

  ghost predicate Fits(m: map<nat, nat>, n: nat) {
    && (forall u :: u in m ==> 0 < m[u] <= n)
    && InjectiveOn(m, m.Keys)
  }

  lemma {:induction false} RenumberedNew(m: map<nat, nat>, s: Items, n: nat, u: nat) returns (i: nat)
    requires Distinct(s) && u in Keys(s)
    ensures i < Size(s) && |Preorder(s)| == Size(s) && Preorder(s)[i] == u
    ensures At(Renumbered(m, Preorder(s), n), u) == n + 1 + i
    ensures u == s.key ==> i == 0
  {
    PreorderKeys(s);
    PreorderDistinct(s);
    assert u in Preorder(s);
    i :| 0 <= i < |Preorder(s)| && Preorder(s)[i] == u;
    RenumberedAt(m, Preorder(s), n, i);
    assert Preorder(s)[0] == s.key;
  }

  /** Moving a subtree's items to the next free IDs keeps all IDs distinct. */
  lemma {:induction false} RenumberedFits(m: map<nat, nat>, s: Items, n: nat)
    requires Fits(m, n) && Distinct(s) && Keys(s) <= m.Keys
    ensures var m' := Renumbered(m, Preorder(s), n);
            && Fits(m', n + Size(s)) && m'.Keys == m.Keys
            && (forall u :: u !in Keys(s) ==> At(m', u) == At(m, u))
            && (forall u :: u in Keys(s) ==> At(m', u) > n)
            && (s.Tree? ==> At(m', s.key) == n + 1)
  {
    var m' := Renumbered(m, Preorder(s), n);
    PreorderKeys(s);
    RenumberedElsewhere(m, Preorder(s), n);
    forall u | u in Keys(s) ensures n < At(m', u) <= n + Size(s) && (u == s.key ==> At(m', u) == n + 1) {
      var i := RenumberedNew(m, s, n, u);
    }
    forall u | u in m' ensures 0 < m'[u] <= n + Size(s) {
      assert At(m', u) == m'[u];
    }
    forall a, b | a in m'.Keys && b in m'.Keys && At(m', a) == At(m', b) ensures a == b {
      if a in Keys(s) && b in Keys(s) {
        var i := RenumberedNew(m, s, n, a);
        var j := RenumberedNew(m, s, n, b);
      }
    }
  }

  /** The waiting lists hold every entry of `s`. */
  ghost predicate AllFiled(w: Waiting, es: seq<Entry>, s: Items, m: map<nat, nat>) {
    && FiledFor(w, es, s, m)
    && forall i: nat :: i < |es| && Inside(s, es[i]) ==> !Gone(w, m, es[i].parent.key)
  }

  /** Half way: the first `k` topmost entries are still deleted, and all IDs are current. */
  ghost predicate Ready(r: Restoring, es: seq<Entry>, before: Items, m: map<nat, nat>, k: nat) {
    && k <= |Tops(es)| && Current(r.entries, es, m)
    && Fits(m, r.unit.maxID) && Keys(before) <= m.Keys
    && r.unit.forest == Rename(HalfBack(es, before, k), m)
    && Indexed(r.waiting, |es|)
    && (forall p :: p in r.waiting ==> r.waiting[p] != [])
    && (forall j :: 0 <= j < k ==> AllFiled(r.waiting, es, es[Tops(es)[j]].snapshot, m))
  }

  /** A restored subtree ends up at its recorded place. */
  lemma {:induction false} Reinserted(es: seq<Entry>, before: Items, m: map<nat, nat>, n: nat, k: nat)
    requires WellRecorded(es, before) && 0 < k <= |Tops(es)|
    requires Fits(m, n) && Keys(before) <= m.Keys
    ensures var e := es[Tops(es)[k - 1]];
            var s := e.snapshot;
            var m' := Renumbered(m, Preorder(s), n);
            var g := HalfBack(es, before, k - 1);
            && s.Tree? && Number(Strip(s), n).Tree? && Number(Strip(s), n).rest.End?
            && Insert(Rename(HalfBack(es, before, k), m), ParentAt(m, e.parent), e.position,
                      Number(Strip(s), n)) == Rename(g, m')
            && Distinct(g) && s == Find(g, e.itemID) && Keys(g) <= m.Keys && e.itemID in Keys(g)
  {
    var e := es[Tops(es)[k - 1]];
    HalfBackFacts(es, before, k - 1);
    HalfBackFacts(es, before, k);
    TakenKeys(before, es, Tops(es)[..k - 1]);
    TakenKeys(before, es, Tops(es)[..k]);
    FindRemoveKeys(HalfBack(es, before, k - 1), e.itemID);
    InsertRecreated(HalfBack(es, before, k), e.parent, e.position, e.snapshot, m, n);
  }

  /** Inserting a recreated subtree is inserting the subtree, seen under the new IDs. */
  lemma {:induction false} InsertRecreated(a: Items, parent: Parent, position: nat, s: Items, m: map<nat, nat>, n: nat)
    requires s.Tree? && s.rest.End? && Distinct(s) && Keys(s) <= m.Keys && Keys(a) <= m.Keys && Keys(a) !! Keys(s)
    requires Fits(m, n) && (parent.Under? ==> parent.key in Keys(a))
    ensures var m' := Renumbered(m, Preorder(s), n);
            && Number(Strip(s), n).Tree? && Number(Strip(s), n).rest.End?
            && Insert(Rename(a, m), ParentAt(m, parent), position, Number(Strip(s), n))
               == Rename(Insert(a, parent, position, s), m')
  {
    var m' := Renumbered(m, Preorder(s), n);
    Recreate(s, n, m);
    RenumberedFits(m, s, n);
    RenameAgree(a, m, m');
    RenameInsert(a, parent, position, s, m');
  }

  /** What adoption needs to know about the subtree restored at turn `k - 1`. */
  lemma {:induction false} RecreatedAtTurn(es: seq<Entry>, before: Items, m: map<nat, nat>, n: nat, k: nat)
    requires WellRecorded(es, before) && 0 < k <= |Tops(es)|
    requires Fits(m, n) && Keys(before) <= m.Keys
    ensures var s := es[Tops(es)[k - 1]].snapshot;
            var m' := Renumbered(m, Preorder(s), n);
            Recreated(es, s, m, m', Rename(HalfBack(es, before, k - 1), m'))
  {
    var t := Tops(es)[k - 1];
    var s := es[t].snapshot;
    var m' := Renumbered(m, Preorder(s), n);
    var g := HalfBack(es, before, k - 1);
    Reinserted(es, before, m, n, k);
    FindRemoveKeys(g, es[t].itemID);
    RenumberedFits(m, s, n);
    forall i: nat | i < |es| && Inside(s, es[i]) ensures IsChild(s, es[i]) && es[i].itemID in Keys(s) {
      InsideIsChild(es, before, t, i);
    }
    forall v | v in Keys(s)
      ensures var kids, news := ChildrenOf(s, v), ChildrenOf(Rename(g, m'), At(m', v));
              |news| == |kids| && forall j :: 0 <= j < |kids| ==> news[j] == (At(m', kids[j].0), kids[j].1)
    {
      FindWithin(g, es[t].itemID, v);
      RenameFindRemove(g, v, m');
      RenameLevel(Find(g, v).kids, m');
    }
  }

  /** Lists of other subtrees are untouched by adopting one. */
  lemma {:induction false} OthersStayFiled(es: seq<Entry>, before: Items, w: Waiting, w': Waiting, t: nat, t': nat,
                        m: map<nat, nat>, m': map<nat, nat>, n: nat)
    requires WellRecorded(es, before) && TopSnapshot(es, t) && TopSnapshot(es, t') && t != t'
    requires Fits(m, n) && Keys(before) <= m.Keys
    requires forall u :: u !in Keys(es[t].snapshot) ==> At(m', u) == At(m, u)
    requires AllFiled(w, es, es[t'].snapshot, m) && Fewer(w', w, es[t].snapshot, m)
    ensures AllFiled(w', es, es[t'].snapshot, m')
  {
    var s, s' := es[t].snapshot, es[t'].snapshot;
    var k := TurnOf(es, before, t);
    var k' := TurnOf(es, before, t');
    SnapshotsDisjoint(es, before, t, t');
    forall v | v in Keys(s')
      ensures At(m', v) == At(m, v) && (Gone(w', m', v) <==> Gone(w, m, v))
      ensures !Gone(w, m, v) ==> w'[Under(At(m, v))] == w[Under(At(m, v))]
    {
      assert forall x :: x in Keys(s) ==> At(m, x) != At(m, v);
    }
  }

  /** The IDs once the subtree deleted at turn `k - 1` has been recreated after `n`. */
  function TurnIDs(es: seq<Entry>, m: map<nat, nat>, n: nat, k: nat): map<nat, nat>
    requires 0 < k <= |Tops(es)|
  {
    Renumbered(m, Preorder(es[Tops(es)[k - 1]].snapshot), n)
  }

  /** The forest at that point. */
  function TurnForest(es: seq<Entry>, before: Items, m: map<nat, nat>, n: nat, k: nat): Items
    requires 0 < k <= |Tops(es)|
  {
    Rename(HalfBack(es, before, k - 1), TurnIDs(es, m, n, k))
  }

  /** The entries once the one whose turn it is has its item's new ID. */
  function Renamed(cs: seq<Entry>, t: nat, id: nat): (r: seq<Entry>)
    requires t < |cs|
    ensures |r| == |cs|
  {
    cs[t := cs[t].(itemID := id)]
  }

  /** restoreItem() with the bookkeeping around it, spelled out for the entry whose turn it is. */
  lemma {:induction false} RestoreTopUnfolds(r: Restoring, es: seq<Entry>, before: Items, m: map<nat, nat>, k: nat)
    requires WellRecorded(es, before) && 0 < k <= |Tops(es)| && Ready(r, es, before, m, k)
    ensures var t := Tops(es)[k - 1];
            var n := r.unit.maxID;
            var f := TurnForest(es, before, m, n, k);
            var adopted := Adopt(Renamed(r.entries, t, n + 1), r.waiting, f, At(m, es[t].itemID), n + 1);
            && RestoreTop(r, t).unit.forest == f && RestoreTop(r, t).unit.maxID == n + Size(es[t].snapshot)
            && RestoreTop(r, t).entries == adopted.0 && RestoreTop(r, t).waiting == adopted.1
  {
    var t := Tops(es)[k - 1];
    Reinserted(es, before, m, r.unit.maxID, k);
    StripSize(es[t].snapshot);
    TurnEntry(r, es, before, m, k);
    assert r.entries[t] == MapEntry(es[t], m);
  }

  /** Restoring the `k`-th topmost entry brings every entry to the IDs its items now have. */
  lemma {:induction false} RestoreOne(r: Restoring, es: seq<Entry>, before: Items, m: map<nat, nat>, k: nat)
    requires WellRecorded(es, before) && 0 < k <= |Tops(es)| && Ready(r, es, before, m, k)
    ensures var t := Tops(es)[k - 1];
            && t < |r.entries| && Indexed(r.waiting, |r.entries|)
            && RestoreTop(r, t).unit.maxID == r.unit.maxID + Size(es[t].snapshot)
            && Ready(RestoreTop(r, t), es, before, TurnIDs(es, m, r.unit.maxID, k), k - 1)
  {
    hide *;
    var t := Tops(es)[k - 1];
    var m' := TurnIDs(es, m, r.unit.maxID, k);
    TurnEntry(r, es, before, m, k);
    RestoredTop(r, es, before, m, k);
    TurnRenumbered(es, before, m, r.unit.maxID, k);
    OthersFiled(r, es, before, m, m', RestoreTop(r, t).waiting, k);
    ReadyAgain(r, RestoreTop(r, t), es, before, m, m', k);
  }

  lemma {:induction false} RestoredTop(r: Restoring, es: seq<Entry>, before: Items, m: map<nat, nat>, k: nat)
    requires WellRecorded(es, before) && 0 < k <= |Tops(es)| && Ready(r, es, before, m, k)
    ensures var t := Tops(es)[k - 1];
            && t < |r.entries| && Indexed(r.waiting, |r.entries|)
            && RestoreTop(r, t).unit.forest == TurnForest(es, before, m, r.unit.maxID, k)
            && RestoreTop(r, t).unit.maxID == r.unit.maxID + Size(es[t].snapshot)
            && Current(RestoreTop(r, t).entries, es, TurnIDs(es, m, r.unit.maxID, k))
            && Fewer(RestoreTop(r, t).waiting, r.waiting, es[t].snapshot, m)
  {
    hide *;
    TurnEntry(r, es, before, m, k);
    RestoreTopUnfolds(r, es, before, m, k);
    EntriesWaiting(r, es, before, m, k);
    RestoredEntries(es, before, m, r.unit.maxID, k, Renamed(r.entries, Tops(es)[k - 1], r.unit.maxID + 1), r.waiting);
  }

  lemma {:induction false} ReadyAgain(r: Restoring, r': Restoring, es: seq<Entry>, before: Items, m: map<nat, nat>,
                   m': map<nat, nat>, k: nat)
    requires 0 < k <= |Tops(es)| && Ready(r, es, before, m, k)
    requires Fits(m', r'.unit.maxID) && m'.Keys == m.Keys
    requires m' == TurnIDs(es, m, r.unit.maxID, k) && r'.unit.forest == TurnForest(es, before, m, r.unit.maxID, k)
    requires Current(r'.entries, es, m')
    requires Fewer(r'.waiting, r.waiting, es[Tops(es)[k - 1]].snapshot, m)
    requires forall j :: 0 <= j < k - 1 ==> AllFiled(r'.waiting, es, es[Tops(es)[j]].snapshot, m')
    ensures Ready(r', es, before, m', k - 1)
  {
  }

  /** Everything is current but the entry of turn `t`, which already has its item's new ID. */
  ghost predicate AboutToAdopt(cs: seq<Entry>, es: seq<Entry>, w: Waiting, m: map<nat, nat>, t: nat, n: nat) {
    && |cs| == |es| && t < |es| && cs[t] == MapEntry(es[t], m).(itemID := n + 1)
    && (forall i: nat :: i < |es| && i != t ==> cs[i] == MapEntry(es[i], m))
    && AllFiled(w, es, es[t].snapshot, m)
    && (forall p :: p in w ==> w[p] != [])
  }

  lemma {:induction false} RestoredEntries(es: seq<Entry>, before: Items, m: map<nat, nat>, n: nat, k: nat, cs: seq<Entry>,
                        w: Waiting)
    requires WellRecorded(es, before) && 0 < k <= |Tops(es)|
    requires Fits(m, n) && Keys(before) <= m.Keys
    requires Indexed(w, |es|) && AboutToAdopt(cs, es, w, m, Tops(es)[k - 1], n)
    ensures var adopted := Adopt(cs, w, TurnForest(es, before, m, n, k), At(m, es[Tops(es)[k - 1]].itemID), n + 1);
            Current(adopted.0, es, TurnIDs(es, m, n, k)) && Fewer(adopted.1, w, es[Tops(es)[k - 1]].snapshot, m)
  {
    var t := Tops(es)[k - 1];
    var m' := TurnIDs(es, m, n, k);
    var f := TurnForest(es, before, m, n, k);
    var (cs', w') := Adopt(cs, w, f, At(m, es[t].itemID), n + 1);
    TurnRenumbered(es, before, m, n, k);
    RecreatedAtTurn(es, before, m, n, k);
    AdoptTop(w, es, before, m, m', cs, f, t);
    EntriesCurrent(cs, cs', es, before, w, w', m, m', f, t, n);
  }

  lemma {:induction false} TurnRenumbered(es: seq<Entry>, before: Items, m: map<nat, nat>, n: nat, k: nat)
    requires WellRecorded(es, before) && 0 < k <= |Tops(es)| && Fits(m, n) && Keys(before) <= m.Keys
    ensures var s := es[Tops(es)[k - 1]].snapshot;
            var m' := TurnIDs(es, m, n, k);
            && Fits(m', n + Size(s)) && m'.Keys == m.Keys
            && At(m', es[Tops(es)[k - 1]].itemID) == n + 1
            && es[Tops(es)[k - 1]].itemID in Keys(s) && Keys(s) <= m.Keys
            && (forall u :: u !in Keys(s) ==> At(m', u) == At(m, u))
            && (forall u :: u in Keys(s) ==> At(m', u) > n)
  {
    var kt := TurnOf(es, before, Tops(es)[k - 1]);
    RenumberedFits(m, es[Tops(es)[k - 1]].snapshot, n);
  }

  lemma {:induction false} EntriesWaiting(r: Restoring, es: seq<Entry>, before: Items, m: map<nat, nat>, k: nat)
    requires 0 < k <= |Tops(es)| && Ready(r, es, before, m, k)
    ensures var t := Tops(es)[k - 1];
            && t < |r.entries|
            && |r.entries| == |es| && Indexed(r.waiting, |es|)
            && AboutToAdopt(Renamed(r.entries, t, r.unit.maxID + 1), es, r.waiting, m, t, r.unit.maxID)
  {
  }

  lemma {:induction false} OthersFiled(r: Restoring, es: seq<Entry>, before: Items, m: map<nat, nat>, m': map<nat, nat>, w': Waiting,
                    k: nat)
    requires WellRecorded(es, before) && 0 < k <= |Tops(es)| && Ready(r, es, before, m, k)
    requires forall u :: u !in Keys(es[Tops(es)[k - 1]].snapshot) ==> At(m', u) == At(m, u)
    requires Fewer(w', r.waiting, es[Tops(es)[k - 1]].snapshot, m)
    ensures forall j :: 0 <= j < k - 1 ==> AllFiled(w', es, es[Tops(es)[j]].snapshot, m')
  {
    forall j | 0 <= j < k - 1 ensures AllFiled(w', es, es[Tops(es)[j]].snapshot, m') {
      var t, t' := Tops(es)[k - 1], Tops(es)[j];
      assert TopSnapshot(es, t) && TopSnapshot(es, t') && t != t';
      assert AllFiled(r.waiting, es, es[t'].snapshot, m) && Fits(m, r.unit.maxID);
      OthersStayFiled(es, before, r.waiting, w', t, t', m, m', r.unit.maxID);
    }
  }

  lemma {:induction false} AdoptTop(w: Waiting, es: seq<Entry>, before: Items, m: map<nat, nat>, m': map<nat, nat>, cs: seq<Entry>,
                 f: Items, t: nat)
    requires WellRecorded(es, before) && TopSnapshot(es, t) && |cs| == |es|
    requires forall i: nat :: i < |es| && i != t ==> cs[i] == MapEntry(es[i], m)
    requires AllFiled(w, es, es[t].snapshot, m) && Recreated(es, es[t].snapshot, m, m', f)
    ensures var (cs', w') := Adopt(cs, w, f, At(m, es[t].itemID), At(m', es[t].itemID));
            && Progress(cs', cs, es, w', es[t].snapshot, m, m', {})
            && Fewer(w', w, es[t].snapshot, m) && Gone(w', m, es[t].itemID)
  {
    var s := es[t].snapshot;
    var kt := TurnOf(es, before, t);
    forall i: nat | i < |es| && Inside(s, es[i]) ensures i != t {
      InsideIsChild(es, before, t, i);
    }
    AdoptDone(cs, cs, es, w, s, m, m', f, es[t].itemID, {});
  }

  lemma {:induction false} EntriesCurrent(cs: seq<Entry>, cs': seq<Entry>, es: seq<Entry>, before: Items, w: Waiting, w': Waiting,
                       m: map<nat, nat>, m': map<nat, nat>, f: Items, t: nat, n: nat)
    requires WellRecorded(es, before) && TopSnapshot(es, t) && Fits(m, n) && Keys(before) <= m.Keys
    requires forall u :: u !in Keys(es[t].snapshot) ==> At(m', u) == At(m, u)
    requires At(m', es[t].itemID) == n + 1
    requires |cs| == |es| && cs[t] == MapEntry(es[t], m).(itemID := n + 1)
    requires forall i: nat :: i < |es| && i != t ==> cs[i] == MapEntry(es[i], m)
    requires FiledFor(w, es, es[t].snapshot, m) && Fewer(w', w, es[t].snapshot, m)
    requires forall p :: p in w ==> w[p] != []
    requires Recreated(es, es[t].snapshot, m, m', f)
    requires Progress(cs', cs, es, w', es[t].snapshot, m, m', {}) && Gone(w', m, es[t].itemID)
    ensures Current(cs', es, m')
  {
    var s := es[t].snapshot;
    var kt := TurnOf(es, before, t);
    forall i: nat | i < |es| ensures cs'[i] == MapEntry(es[i], m') {
      InsideIsChild(es, before, t, i);
      if Inside(s, es[i]) {
        forall j: nat | j < |es|
          ensures es[j].itemID in Keys(s) && es[j].itemID != es[t].itemID ==> Inside(s, es[j])
          ensures Inside(s, es[j]) ==> es[j].parent.key in IDs(es)
        {
          InsideIsChild(es, before, t, j);
        }
        FewerFiled(w, w', es, s, m);
        AllGone(cs', cs, es, w', s, m, m', f, es[t].itemID, es[i].parent.key);
      }
    }
  }

  // ---- the whole delete ----

  lemma {:induction false} TopsPrefix(es: seq<Entry>, k: nat, tops: seq<nat>)
    requires k <= |Tops(es)| && tops == Tops(es)[..k]
    ensures |tops| == k && Indices(tops, |es|)
    ensures k == 0 ==> tops == []
    ensures k > 0 ==>
              && tops[|tops| - 1] == Tops(es)[k - 1] && tops[..|tops| - 1] == Tops(es)[..k - 1]
              && Tops(es)[k - 1] < |es| && Indices(Tops(es)[..k - 1], |es|)
              && Tops(es)[..k - 1] + [Tops(es)[k - 1]] == tops
  {
  }

  // ---- which IDs change, and what is reported ----

  /** Since the IDs were `m0` and the counter `n0`, the items in `moved` got new IDs, and the reported
      changes bring a stored ID up to date exactly for the items in `reported`. */
  ghost predicate Tracked(changes: Changes, m0: map<nat, nat>, m: map<nat, nat>, n0: nat,
                          reported: set<nat>, moved: set<nat>) {
    && m.Keys == m0.Keys && reported <= moved <= m0.Keys
    && (forall u :: u in m0 ==> RemapThrough(At(m0, u), changes) == At(if u in reported then m else m0, u))
    && (forall u :: u !in moved ==> At(m, u) == At(m0, u))
    && (forall u :: u in moved ==> At(m, u) > n0)
    && (forall id {:trigger RemapThrough(id, changes)} :: id > n0 ==> RemapThrough(id, changes) == id)
  }

  lemma {:induction false} RemapOneMore(id: nat, changes: Changes, change: (nat, nat))
    ensures RemapThrough(id, changes + [change]) == RemapID(RemapThrough(id, changes), change.0, change.1)
    decreases |changes|
  {
    if changes == [] {
      assert changes + [change] == [change];
    } else {
      assert (changes + [change])[1..] == changes[1..] + [change];
      RemapOneMore(RemapID(id, changes[0].0, changes[0].1), changes[1..], change);
    }
  }

  lemma {:induction false} TrackOne(changes: Changes, m0: map<nat, nat>, m: map<nat, nat>, m': map<nat, nat>, n0: nat, n: nat,
                 reported: set<nat>, moved: set<nat>, u: nat, keys: set<nat>)
    requires Fits(m0, n0) && Tracked(changes, m0, m, n0, reported, moved)
    requires u in keys && keys <= m0.Keys && keys !! moved && n0 <= n
    requires m'.Keys == m.Keys && At(m', u) == n + 1
    requires forall v :: v !in keys ==> At(m', v) == At(m, v)
    requires forall v :: v in keys ==> At(m', v) > n
    ensures Tracked(changes + [(At(m, u), n + 1)], m0, m', n0, reported + {u}, moved + keys)
  {
    var longer := changes + [(At(m, u), n + 1)];
    forall v | v in m0
      ensures RemapThrough(At(m0, v), longer) == At(if v in reported + {u} then m' else m0, v)
    {
      RemapOneMore(At(m0, v), changes, (At(m, u), n + 1));
      assert At(m, u) == At(m0, u) <= n0;
    }
    forall id {:trigger RemapThrough(id, longer)} | id > n0 ensures RemapThrough(id, longer) == id {
      RemapOneMore(id, changes, (At(m, u), n + 1));
      assert At(m, u) == At(m0, u) <= n0;
    }
  }

  ghost function TopItems(es: seq<Entry>, tops: seq<nat>): set<nat>
    requires Indices(tops, |es|)
    decreases |tops|
  {
    if tops == [] then {} else TopItems(es, tops[..|tops| - 1]) + {es[tops[|tops| - 1]].itemID}
  }

  ghost function Moved(es: seq<Entry>, tops: seq<nat>): set<nat>
    requires Indices(tops, |es|)
    decreases |tops|
  {
    if tops == [] then {} else Moved(es, tops[..|tops| - 1]) + Keys(es[tops[|tops| - 1]].snapshot)
  }

  /** The whole restore: current IDs everywhere at the end, and the report that goes with them. */
  lemma {:induction false} RestoreAll(r: Restoring, es: seq<Entry>, before: Items, m: map<nat, nat>, k: nat,
                                      tops: seq<nat>, m0: map<nat, nat>, n0: nat, reported: set<nat>, moved: set<nat>)
    returns (m': map<nat, nat>)
    requires WellRecorded(es, before) && k <= |Tops(es)| && Ready(r, es, before, m, k)
    requires tops == Tops(es)[..k]
    requires Fits(m0, n0) && n0 <= r.unit.maxID && Tracked(r.changes, m0, m, n0, reported, moved)
    requires m0.Keys == m.Keys
    requires forall j :: 0 <= j < k ==> Keys(es[Tops(es)[j]].snapshot) !! moved
    ensures Indices(tops, |es|) && Indexed(r.waiting, |r.entries|) && |r.entries| == |es|
    ensures r.unit.maxID <= RestoreTops(r, tops).unit.maxID && Ready(RestoreTops(r, tops), es, before, m', 0)
    ensures Tracked(RestoreTops(r, tops).changes, m0, m', n0, reported + TopItems(es, tops), moved + Moved(es, tops))
    decreases k
  {
    hide *;
    ReadyIndexed(r, es, before, m, k);
    TopsPrefix(es, k, tops);
    if k == 0 {
      NothingTracked(r, es, tops, reported, moved);
      m' := m;
    } else {
      var t, left := Tops(es)[k - 1], Tops(es)[..k - 1];
      RestoreOne(r, es, before, m, k);
      var r1, m1 := RestoreTop(r, t), TurnIDs(es, m, r.unit.maxID, k);
      TurnEntry(r, es, before, m, k);
      TurnRenumbered(es, before, m, r.unit.maxID, k);
      TrackTurn(r, t, m, m1, m0, n0, reported, moved, es[t].itemID, Keys(es[t].snapshot));
      StillApart(es, before, k, moved);
      m' := RestoreAll(r1, es, before, m1, k - 1, left, m0, n0,
                       reported + {es[t].itemID}, moved + Keys(es[t].snapshot));
      OneMoreTracked(r, es, tops, t, reported, moved);
    }
  }

  lemma {:induction false} NothingTracked(r: Restoring, es: seq<Entry>, tops: seq<nat>, reported: set<nat>, moved: set<nat>)
    requires tops == [] && Indexed(r.waiting, |r.entries|)
    ensures RestoreTops(r, tops) == r
    ensures reported + TopItems(es, tops) == reported && moved + Moved(es, tops) == moved
  {
  }

  lemma {:induction false} OneMoreTracked(r: Restoring, es: seq<Entry>, tops: seq<nat>, t: nat,
                       reported: set<nat>, moved: set<nat>)
    requires tops != [] && Indices(tops, |es|) && |r.entries| == |es| && Indexed(r.waiting, |es|)
    requires t == tops[|tops| - 1]
    ensures RestoreTops(r, tops) == RestoreTops(RestoreTop(r, t), tops[..|tops| - 1])
    ensures Indices(tops[..|tops| - 1], |es|)
    ensures reported + TopItems(es, tops) == (reported + {es[t].itemID}) + TopItems(es, tops[..|tops| - 1])
    ensures moved + Moved(es, tops) == (moved + Keys(es[t].snapshot)) + Moved(es, tops[..|tops| - 1])
  {
  }

  lemma {:induction false} ReadyIndexed(r: Restoring, es: seq<Entry>, before: Items, m: map<nat, nat>, k: nat)
    requires Ready(r, es, before, m, k)
    ensures |r.entries| == |es| && Indexed(r.waiting, |es|)
  {
  }

  lemma {:induction false} TrackTurn(r: Restoring, t: nat, m: map<nat, nat>, m': map<nat, nat>, m0: map<nat, nat>, n0: nat,
                  reported: set<nat>, moved: set<nat>, u: nat, keys: set<nat>)
    requires t < |r.entries| && Indexed(r.waiting, |r.entries|)
    requires r.entries[t].snapshot.Tree? && r.entries[t].itemID == At(m, u) <= r.unit.maxID
    requires Fits(m0, n0) && n0 <= r.unit.maxID && Tracked(r.changes, m0, m, n0, reported, moved)
    requires u in keys && keys <= m0.Keys && keys !! moved
    requires m'.Keys == m.Keys && At(m', u) == r.unit.maxID + 1
    requires forall v :: v !in keys ==> At(m', v) == At(m, v)
    requires forall v :: v in keys ==> At(m', v) > r.unit.maxID
    ensures Tracked(RestoreTop(r, t).changes, m0, m', n0, reported + {u}, moved + keys)
  {
    TrackOne(r.changes, m0, m, m', n0, r.unit.maxID, reported, moved, u, keys);
    assert RestoreTop(r, t).changes == r.changes + [(At(m, u), r.unit.maxID + 1)];
  }

  lemma {:induction false} TurnEntry(r: Restoring, es: seq<Entry>, before: Items, m: map<nat, nat>, k: nat)
    requires WellRecorded(es, before) && 0 < k <= |Tops(es)| && Ready(r, es, before, m, k)
    ensures var t := Tops(es)[k - 1];
            && t < |r.entries| && Indexed(r.waiting, |r.entries|)
            && r.entries[t].snapshot.Tree? && r.entries[t].itemID == At(m, es[t].itemID) <= r.unit.maxID
            && Fits(m, r.unit.maxID) && Keys(before) <= m.Keys
  {
    var t := Tops(es)[k - 1];
    var kt := TurnOf(es, before, t);
    assert r.entries[t] == MapEntry(es[t], m);
  }

  lemma {:induction false} StillApart(es: seq<Entry>, before: Items, k: nat, moved: set<nat>)
    requires WellRecorded(es, before) && 0 < k <= |Tops(es)|
    requires forall j :: 0 <= j < k ==> Keys(es[Tops(es)[j]].snapshot) !! moved
    ensures forall j :: 0 <= j < k - 1 ==>
              Keys(es[Tops(es)[j]].snapshot) !! moved + Keys(es[Tops(es)[k - 1]].snapshot)
  {
    forall j | 0 <= j < k - 1
      ensures Keys(es[Tops(es)[j]].snapshot) !! moved + Keys(es[Tops(es)[k - 1]].snapshot)
    {
      SnapshotsDisjoint(es, before, Tops(es)[j], Tops(es)[k - 1]);
    }
  }

  // ---- undo and redo of the whole delete ----

  /** Everything an entry names was in the forest. */
  lemma {:induction false} EntryKnown(es: seq<Entry>, before: Items, i: nat)
    requires WellRecorded(es, before) && i < |es|
    ensures es[i].itemID in Keys(before)
    ensures es[i].parent.Under? ==> es[i].parent.key in Keys(before)
  {
    TakenKeys(before, es, Tops(es));
    if IsTop(es, i) {
      var k := TurnOf(es, before, i);
    } else {
      assert HasHome(es, i);
      var t: nat :| t < |es| && IsTop(es, t) && IsChild(es[t].snapshot, es[i]);
      var k := TurnOf(es, before, t);
      InsideIsChild(es, before, t, i);
    }
  }

  /** A stored delete has the same topmost entries whatever the IDs are. */
  lemma {:induction false} SameTop(cs: seq<Entry>, es: seq<Entry>, before: Items, m: map<nat, nat>, i: nat)
    requires WellRecorded(es, before) && Current(cs, es, m) && Keys(before) <= m.Keys && InjectiveOn(m, m.Keys)
    requires i < |es|
    ensures IsTop(cs, i) <==> IsTop(es, i)
  {
    EntryKnown(es, before, i);
    if es[i].parent.Under? {
      var p := es[i].parent.key;
      if p in IDs(es) {
        var j :| 0 <= j < |es| && es[j].itemID == p;
        assert cs[j].itemID == At(m, p);
      }
      if At(m, p) in IDs(cs) {
        var j :| 0 <= j < |cs| && cs[j].itemID == At(m, p);
        EntryKnown(es, before, j);
        assert es[j].itemID == p;
      }
    }
  }

  lemma {:induction false} SameTopsBelow(cs: seq<Entry>, es: seq<Entry>, n: nat)
    requires n <= |es| == |cs| && forall i: nat :: i < n ==> (IsTop(cs, i) <==> IsTop(es, i))
    ensures TopsBelow(cs, n) == TopsBelow(es, n)
  {
    if n > 0 {
      SameTopsBelow(cs, es, n - 1);
    }
  }

  lemma {:induction false} SameTops(cs: seq<Entry>, es: seq<Entry>, before: Items, m: map<nat, nat>)
    requires WellRecorded(es, before) && Current(cs, es, m) && Keys(before) <= m.Keys && InjectiveOn(m, m.Keys)
    ensures Tops(cs) == Tops(es)
  {
    forall i: nat | i < |es| ensures IsTop(cs, i) <==> IsTop(es, i) {
      SameTop(cs, es, before, m, i);
    }
    SameTopsBelow(cs, es, |es|);
  }

  /** Filing goes by current parent IDs, which tell the recorded parents apart. */
  lemma {:induction false} FiledUnder(cs: seq<Entry>, es: seq<Entry>, before: Items, m: map<nat, nat>, v: nat, i: nat)
    requires WellRecorded(es, before) && Current(cs, es, m) && Keys(before) <= m.Keys && InjectiveOn(m, m.Keys)
    requires v in Keys(before) && i < |es|
    ensures cs[i].parent == Under(At(m, v)) <==> es[i].parent == Under(v)
  {
    EntryKnown(es, before, i);
    assert cs[i] == MapEntry(es[i], m);
  }

  lemma {:induction false} FiledAtStart(cs: seq<Entry>, es: seq<Entry>, before: Items, m: map<nat, nat>, s: Items)
    requires |cs| == |es|
    requires forall v, i: nat :: v in Keys(s) && i < |es| ==>
               (cs[i].parent == Under(At(m, v)) <==> es[i].parent == Under(v))
    ensures AllFiled(FiledBelow(cs, |cs|), es, s, m)
  {
    var w := FiledBelow(cs, |cs|);
    forall v | v in Keys(s)
      ensures !Gone(w, m, v) ==>
                var l := w[Under(At(m, v))];
                && (forall j :: 0 <= j < |l| ==> es[l[j]].parent == Under(v))
                && (forall i, j :: 0 <= i < j < |l| ==> l[i] != l[j])
      ensures forall i: nat :: i < |es| && es[i].parent == Under(v) ==>
                !Gone(w, m, v) && i in w[Under(At(m, v))]
    {
      FiledExactly(cs, |cs|, Under(At(m, v)));
    }
  }

  /** The forest is `f` and the command holds what was recorded, both under the IDs of `m`. */
  ghost predicate Stands(d: DeleteItem, u: Unit, es: seq<Entry>, before: Items, f: Items, m: map<nat, nat>) {
    u.forest == Rename(f, m) && Current(d.entries, es, m) && Fits(m, u.maxID) && Keys(before) <= m.Keys
  }

  lemma {:induction false} NothingTrackedYet(m: map<nat, nat>, n: nat)
    requires Fits(m, n)
    ensures Tracked([], m, m, n, {}, {})
  {
  }

  lemma {:induction false} ReadyAtStart(d: DeleteItem, u: Unit, es: seq<Entry>, before: Items, m: map<nat, nat>)
    requires WellRecorded(es, before) && Stands(d, u, es, before, Taken(before, es, Tops(es)), m)
    ensures Ready(Restoring(u, d.entries, FiledBelow(d.entries, |d.entries|), []), es, before, m, |Tops(es)|)
  {
    var w, k := FiledBelow(d.entries, |d.entries|), |Tops(es)|;
    assert Tops(es)[..k] == Tops(es);
    forall p | p in w ensures w[p] != [] {
      FiledExactly(d.entries, |d.entries|, p);
    }
    forall j | 0 <= j < k ensures AllFiled(w, es, es[Tops(es)[j]].snapshot, m) {
      var t := Tops(es)[j];
      var kt := TurnOf(es, before, t);
      forall v, i: nat | v in Keys(es[t].snapshot) && i < |es|
        ensures d.entries[i].parent == Under(At(m, v)) <==> es[i].parent == Under(v)
      {
        FiledUnder(d.entries, es, before, m, v, i);
      }
      FiledAtStart(d.entries, es, before, m, es[t].snapshot);
    }
  }

  /** Undoing a delete puts every subtree back at its recorded place, up to IDs; every entry of the command then
      names its own recreated item, and the command reports exactly the topmost items' ID changes. */
  lemma {:induction false} DeleteUndone(d: DeleteItem, u: Unit, es: seq<Entry>, before: Items, m: map<nat, nat>)
    returns (m': map<nat, nat>)
    requires WellRecorded(es, before) && Stands(d, u, es, before, Taken(before, es, Tops(es)), m)
    ensures var (u', d') := UndoDelete(d, u);
            && Stands(d', u', es, before, Restored(es, before), m') && u.maxID <= u'.maxID
            && Tracked(d'.idChanges, m, m', u.maxID, TopItems(es, Tops(es)), Moved(es, Tops(es)))
  {
    hide *;
    var k := |Tops(es)|;
    StandsFacts(d, u, es, before, m);
    SameTops(d.entries, es, before, m);
    var r := Restoring(u, d.entries, FiledBelow(d.entries, |d.entries|), []);
    assert Tops(es)[..k] == Tops(es);
    ReadyAtStart(d, u, es, before, m);
    NothingTrackedYet(m, u.maxID);
    m' := RestoreAll(r, es, before, m, k, Tops(es), m, u.maxID, {}, {});
    UndoneDelete(d, u, es, before, m, m');
  }

  lemma {:induction false} StandsFacts(d: DeleteItem, u: Unit, es: seq<Entry>, before: Items, m: map<nat, nat>)
    requires WellRecorded(es, before) && Stands(d, u, es, before, Taken(before, es, Tops(es)), m)
    ensures Fits(m, u.maxID) && Current(d.entries, es, m) && Keys(before) <= m.Keys && InjectiveOn(m, m.Keys)
    ensures |d.entries| == |es|
    ensures forall j :: 0 <= j < |Tops(es)| ==> Keys(es[Tops(es)[j]].snapshot) !! {}
  {
  }

  /** The command and the unit after the last topmost entry has been restored. */
  lemma {:induction false} UndoneDelete(d: DeleteItem, u: Unit, es: seq<Entry>, before: Items, m: map<nat, nat>, m': map<nat, nat>)
    requires |d.entries| == |es| && Tops(d.entries) == Tops(es)
    requires var r := RestoreTops(Restoring(u, d.entries, FiledBelow(d.entries, |d.entries|), []), Tops(es));
             && u.maxID <= r.unit.maxID && Ready(r, es, before, m', 0)
             && Tracked(r.changes, m, m', u.maxID, {} + TopItems(es, Tops(es)), {} + Moved(es, Tops(es)))
    ensures var (u', d') := UndoDelete(d, u);
            && Stands(d', u', es, before, Restored(es, before), m') && u.maxID <= u'.maxID
            && Tracked(d'.idChanges, m, m', u.maxID, TopItems(es, Tops(es)), Moved(es, Tops(es)))
  {
    hide *;
    UndoDeleteUnfolds(d, u);
    var r := RestoreTops(Restoring(u, d.entries, FiledBelow(d.entries, |d.entries|), []), Tops(es));
    assert {} + TopItems(es, Tops(es)) == TopItems(es, Tops(es));
    assert {} + Moved(es, Tops(es)) == Moved(es, Tops(es));
    RestoredFully(r, UndoDelete(d, u).1, es, before, m');
  }

  lemma {:induction false} UndoDeleteUnfolds(d: DeleteItem, u: Unit)
    ensures var r := RestoreTops(Restoring(u, d.entries, FiledBelow(d.entries, |d.entries|), []), Tops(d.entries));
            && UndoDelete(d, u).0 == r.unit
            && UndoDelete(d, u).1.entries == r.entries && UndoDelete(d, u).1.idChanges == r.changes
  {
  }

  lemma {:induction false} RestoredFully(r: Restoring, d: DeleteItem, es: seq<Entry>, before: Items, m: map<nat, nat>)
    requires Ready(r, es, before, m, 0) && d.entries == r.entries
    ensures Stands(d, r.unit, es, before, Restored(es, before), m)
  {
  }

  lemma {:induction false} DeleteListedTruly(f: Items, cs: seq<Entry>, es: seq<Entry>, tops: seq<nat>, m: map<nat, nat>)
    requires Indices(tops, |es|) && Distinct(f) && TakenTruly(f, es, tops) && Current(cs, es, m)
    requires InjectiveOn(m, Keys(f))
    ensures DeleteListed(Rename(f, m), cs, tops) == Rename(Taken(f, es, tops), m)
    decreases |tops|
  {
    if tops != [] {
      var u := es[tops[0]].itemID;
      assert cs[tops[0]] == MapEntry(es[tops[0]], m);
      FindRemoveKeys(f, u);
      RenameFindRemove(f, u, m);
      DeleteListedTruly(Remove(f, u), cs, es, tops[1..], m);
    }
  }

  /** The subtrees were put back last to first, so taking them away first to last undoes that step by step. */
  lemma {:induction false} TakenAgain(es: seq<Entry>, before: Items, k: nat)
    requires WellRecorded(es, before) && k <= |Tops(es)|
    ensures Indices(Tops(es)[k..], |es|) && TakenTruly(HalfBack(es, before, k), es, Tops(es)[k..])
    ensures Taken(HalfBack(es, before, k), es, Tops(es)[k..]) == Taken(before, es, Tops(es))
    decreases |Tops(es)| - k
  {
    if k < |Tops(es)| {
      TakenAgain(es, before, k + 1);
      HalfBackFacts(es, before, k);
      TakenTurn(before, es, Tops(es), k);
      var e := es[Tops(es)[k]];
      InsertLocated(HalfBack(es, before, k + 1), e.parent, e.position, e.snapshot);
      assert Tops(es)[k..][1..] == Tops(es)[k + 1..];
    }
  }

  /** Redo deletes exactly what undo restored. */
  lemma {:induction false} DeleteRedone(d: DeleteItem, u: Unit, es: seq<Entry>, before: Items, m: map<nat, nat>)
    requires WellRecorded(es, before) && Stands(d, u, es, before, Restored(es, before), m)
    ensures RedoDelete(d, u).maxID == u.maxID
    ensures Stands(d, RedoDelete(d, u), es, before, Taken(before, es, Tops(es)), m)
  {
    SameTops(d.entries, es, before, m);
    HalfBackFacts(es, before, 0);
    TakenKeys(before, es, Tops(es)[..0]);
    TakenAgain(es, before, 0);
    assert Tops(es)[0..] == Tops(es);
    DeleteListedTruly(Restored(es, before), d.entries, es, Tops(es), m);
  }

  /** `n` steps that undo and redo the delete in turn, from the state right after it was made. */
  function Alternate(d: DeleteItem, u: Unit, n: nat): (Unit, DeleteItem) {
    if n == 0 then (u, d)
    else
      var (u', d') := Alternate(d, u, n - 1);
      if n % 2 == 1 then UndoDelete(d', u') else (RedoDelete(d', u'), d')
  }

  function ShapeAfter(es: seq<Entry>, before: Items, n: nat): Items {
    if n % 2 == 1 then Restored(es, before) else Taken(before, es, Tops(es))
  }

  lemma {:induction false} AlternationStands(d: DeleteItem, u: Unit, es: seq<Entry>, before: Items,
                                             m: map<nat, nat>, n: nat)
    returns (m': map<nat, nat>)
    requires WellRecorded(es, before) && Stands(d, u, es, before, Taken(before, es, Tops(es)), m)
    ensures Stands(Alternate(d, u, n).1, Alternate(d, u, n).0, es, before, ShapeAfter(es, before, n), m')
  {
    if n == 0 {
      m' := m;
    } else {
      var m1 := AlternationStands(d, u, es, before, m, n - 1);
      m' := AlternationStep(d, u, es, before, m1, n);
    }
  }

  lemma {:induction false} AlternationStep(d: DeleteItem, u: Unit, es: seq<Entry>, before: Items, m1: map<nat, nat>, n: nat)
    returns (m': map<nat, nat>)
    requires WellRecorded(es, before) && n > 0
    requires Stands(Alternate(d, u, n - 1).1, Alternate(d, u, n - 1).0, es, before, ShapeAfter(es, before, n - 1), m1)
    ensures Stands(Alternate(d, u, n).1, Alternate(d, u, n).0, es, before, ShapeAfter(es, before, n), m')
  {
    hide *;
    AlternateUnfolds(d, u, es, before, n);
    if n % 2 == 1 {
      m' := DeleteUndone(Alternate(d, u, n - 1).1, Alternate(d, u, n - 1).0, es, before, m1);
    } else {
      m' := m1;
      DeleteRedone(Alternate(d, u, n - 1).1, Alternate(d, u, n - 1).0, es, before, m1);
    }
  }

  lemma {:induction false} AlternateUnfolds(d: DeleteItem, u: Unit, es: seq<Entry>, before: Items, n: nat)
    requires n > 0
    ensures var (u1, d1) := Alternate(d, u, n - 1);
            Alternate(d, u, n) == if n % 2 == 1 then UndoDelete(d1, u1) else (RedoDelete(d1, u1), d1)
    ensures ShapeAfter(es, before, n) == if n % 2 == 1 then Restored(es, before) else Taken(before, es, Tops(es))
    ensures ShapeAfter(es, before, n - 1) == if n % 2 == 1 then Taken(before, es, Tops(es)) else Restored(es, before)
  {
    hide UndoDelete, RedoDelete, Restored, Taken, Tops;
  }

  /** For ever: after an odd number of steps the forest is the one with every subtree back at its place, after an even
      number the one after the delete, up to item IDs: nothing is deleted twice and nothing else is touched. */
  lemma {:induction false} DeleteAlternates(d: DeleteItem, u: Unit, es: seq<Entry>, before: Items, m: map<nat, nat>, n: nat)
    requires WellRecorded(es, before) && Stands(d, u, es, before, Taken(before, es, Tops(es)), m)
    ensures Strip(Alternate(d, u, n).0.forest) == Strip(if n % 2 == 1 then Restored(es, before) else Taken(before, es, Tops(es)))
  {
    var m' := AlternationStands(d, u, es, before, m, n);
    RenameStrip(ShapeAfter(es, before, n), m');
  }
}
