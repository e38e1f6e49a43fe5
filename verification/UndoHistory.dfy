/** What the undo stack keeps over whole runs, told in identities that never change.

    An item's identity is the first ID it had. A book keeps the forest last pushed at each index and what each
    command was pushed for, all in identities; `cur` gives the ID each identity has now. */
module UndoHistory {
  import opened Collections
  import opened Forests
  import opened EditorCommands
  import opened DeletedSubtrees
  import opened UndoStack

  /** What a command was pushed for. */
  datatype Act =
    | AddAct(u: nat, parent: Parent, position: nat)
    | DeleteAct(es: seq<Entry>)
    | MoveAct(u: nat, from: Parent, to: Parent, oldPosition: nat, newPosition: nat)
    | ModifyAct(u: nat, before: Item, after: Item)
    | ToggleAct(u: nat, was: bool, now: bool)

  /** `issued` pairs every ID ever used with the identity it belongs to. */
  datatype Book = Book(hist: seq<Items>, acts: seq<Act>, cur: map<nat, nat>, issued: set<(nat, nat)>)

  ghost function ActNames(a: Act): set<nat> {
    match a
    case AddAct(u, parent, _) => {u} + ParentName(parent)
    case DeleteAct(es) => EntryNames(es)
    case MoveAct(u, from, to, _, _) => {u} + ParentName(from) + ParentName(to)
    case ModifyAct(u, _, _) => {u}
    case ToggleAct(u, _, _) => {u}
  }

  /** The act takes forest `f` to forest `g`, and records what was true then. */
  ghost predicate Truthful(a: Act, f: Items, g: Items) {
    match a
    case AddAct(u, parent, position) =>
      u in Keys(g) && Locate(g, u) == Some((parent, position)) && f == Remove(g, u)
    case DeleteAct(es) => WellRecorded(es, f) && GoesBack(es, f) && g == Taken(f, es, Tops(es))
    case MoveAct(u, from, to, oldPosition, newPosition) =>
      && u in Keys(f) && Locate(f, u) == Some((from, oldPosition))
      && ParentName(to) <= Keys(Remove(f, u))
      && g == Insert(Remove(f, u), to, newPosition, Find(f, u))
    case ModifyAct(u, before, after) =>
      u in Keys(f) && Find(f, u).value == before && g == SetValue(f, u, after)
    case ToggleAct(u, was, now) =>
      u in Keys(f) && Find(f, u).value.active == was && g == SetValue(f, u, Find(f, u).value.(active := now))
  }

  ghost predicate HoldsAdd(a: AddItem, u: nat, parent: Parent, position: nat, cur: map<nat, nat>, g: Items,
                           undone: bool) {
    && a.itemID == At(cur, u) && a.parent == ParentAt(cur, parent) && a.position == position && !a.skipFirstRedo
    && (a.snapshot.Tree? ==> a.snapshot == Strip(Find(g, u)))
    && (undone ==> a.snapshot.Tree? && a.oldDescendantIDs == MapKeys(Preorder(Find(g, u)), cur))
  }

  ghost predicate HoldsMove(m: MoveItem, u: nat, from: Parent, to: Parent, oldPosition: nat, newPosition: nat,
                            cur: map<nat, nat>) {
    && m.itemID == At(cur, u) && m.oldParent == ParentAt(cur, from) && m.newParent == ParentAt(cur, to)
    && m.oldPosition == oldPosition && m.newPosition == newPosition && !m.skipFirstRedo
  }

  ghost predicate HoldsModify(m: ModifyProperty, u: nat, before: Item, after: Item, cur: map<nat, nat>,
                              issued: set<(nat, nat)>) {
    && m.itemID == At(cur, u) && m.oldState == before && m.newState == after && !m.skipFirstRedo
    && (m.propertyId.Some? ==> (m.propertyId.value.0, u) in issued)
  }

  /** A stacked command holds the latest IDs of the items it was pushed for, and can be undone or redone;
      `g` is the forest it leads to. */
  ghost predicate Holds(c: Command, a: Act, cur: map<nat, nat>, issued: set<(nat, nat)>, g: Items, undone: bool) {
    match a
    case AddAct(u, parent, position) => c.Add? && HoldsAdd(c.add, u, parent, position, cur, g, undone)
    case DeleteAct(es) => c.Delete? && Current(c.del.entries, es, cur)
    case MoveAct(u, from, to, oldPosition, newPosition) =>
      c.Move? && HoldsMove(c.move, u, from, to, oldPosition, newPosition, cur)
    case ModifyAct(u, before, after) => c.Modify? && HoldsModify(c.edit, u, before, after, cur, issued)
    case ToggleAct(u, was, now) =>
      c.Toggle? && c.toggle == ToggleActive(At(cur, u), was, now, false)
  }

  // ---- one command, there and back ----

  lemma {:induction false} InjectiveWithin(m: map<nat, nat>, n: nat, ks: set<nat>)
    requires Fits(m, n) && ks <= m.Keys
    ensures InjectiveOn(m, ks)
  {
  }

  lemma {:induction false} UndoneAdd(a: AddItem, u: nat, parent: Parent, position: nat, cur: map<nat, nat>, f: Items, g: Items, unit: Unit)
    requires HoldsAdd(a, u, parent, position, cur, g, false) && Distinct(g) && u in Keys(g) && f == Remove(g, u)
    requires Fits(cur, unit.maxID) && Keys(g) <= cur.Keys && unit.forest == Rename(g, cur)
    ensures UndoAdd(a, unit).0 == Unit(Rename(f, cur), unit.maxID)
    ensures HoldsAdd(UndoAdd(a, unit).1, u, parent, position, cur, g, true)
  {
    InjectiveWithin(cur, unit.maxID, Keys(g) + {u});
    RenameFindRemove(g, u, cur);
    RenameStrip(Find(g, u), cur);
    RenamePreorder(Find(g, u), cur);
  }

  lemma {:induction false} MovedItem(u: nat, from: Parent, to: Parent, oldPosition: nat, newPosition: nat, f: Items, g: Items)
    requires Distinct(f) && Truthful(MoveAct(u, from, to, oldPosition, newPosition), f, g)
    ensures Distinct(g) && Keys(g) == Keys(f) && u in Keys(g)
    ensures Find(f, u).Tree? && Find(f, u).rest.End? && Find(g, u) == Find(f, u) && Remove(g, u) == Remove(f, u)
    ensures Insert(Remove(f, u), from, oldPosition, Find(f, u)) == f
    ensures ParentName(from) <= Keys(Remove(f, u))
  {
    FindRemoveKeys(f, u);
    InsertThenRemove(Remove(f, u), to, newPosition, Find(f, u));
    RemoveThenInsert(f, u);
  }

  /** reParent on current IDs is the move itself, seen under those IDs. */
  lemma {:induction false} ReParentRenamed(f: Items, u: nat, to: Parent, position: nat, cur: map<nat, nat>, n: nat)
    requires Distinct(f) && u in Keys(f) && ParentName(to) <= Keys(f)
    requires Fits(cur, n) && Keys(f) <= cur.Keys
    ensures Find(f, u).Tree?
    ensures ReParent(Rename(f, cur), At(cur, u), ParentAt(cur, to), position)
            == Rename(Insert(Remove(f, u), to, position, Find(f, u)), cur)
  {
    FindRemoveKeys(f, u);
    InjectiveWithin(cur, n, Keys(f) + {u});
    RenameFindRemove(f, u, cur);
    InjectiveWithin(cur, n, Keys(Remove(f, u)) + if to.Under? then {to.key} else {});
    RenameInsert(Remove(f, u), to, position, Find(f, u), cur);
  }

  lemma {:induction false} UndoneMove(m: MoveItem, a: Act, cur: map<nat, nat>, f: Items, g: Items, unit: Unit)
    requires a.MoveAct? && HoldsMove(m, a.u, a.from, a.to, a.oldPosition, a.newPosition, cur)
    requires Distinct(f) && Truthful(a, f, g) && Fits(cur, unit.maxID) && Keys(g) <= cur.Keys
    requires unit.forest == Rename(g, cur)
    ensures UndoCommand(Move(m), unit) == (Unit(Rename(f, cur), unit.maxID), Move(m))
  {
    MovedItem(a.u, a.from, a.to, a.oldPosition, a.newPosition, f, g);
    FindRemoveKeys(f, a.u);
    ReParentRenamed(g, a.u, a.from, a.oldPosition, cur, unit.maxID);
  }

  lemma {:induction false} RedoneMove(m: MoveItem, a: Act, cur: map<nat, nat>, f: Items, g: Items, unit: Unit)
    requires a.MoveAct? && HoldsMove(m, a.u, a.from, a.to, a.oldPosition, a.newPosition, cur)
    requires Distinct(f) && Truthful(a, f, g) && Fits(cur, unit.maxID) && Keys(f) <= cur.Keys
    requires unit.forest == Rename(f, cur)
    ensures RedoCommand(Move(m), unit) == (Unit(Rename(g, cur), unit.maxID), Move(m))
  {
    FindRemoveKeys(f, a.u);
    ReParentRenamed(f, a.u, a.to, a.newPosition, cur, unit.maxID);
  }

  lemma {:induction false} SetRenamed(f: Items, u: nat, v: Item, cur: map<nat, nat>, n: nat)
    requires Distinct(f) && u in Keys(f) && Fits(cur, n) && Keys(f) <= cur.Keys
    ensures SetValue(Rename(f, cur), At(cur, u), v) == Rename(SetValue(f, u, v), cur)
    ensures At(cur, u) in Keys(Rename(f, cur))
    ensures Find(f, u).Tree? && Find(Rename(f, cur), At(cur, u)).Tree?
    ensures Find(Rename(f, cur), At(cur, u)).value == Find(f, u).value
  {
    InjectiveWithin(cur, n, Keys(f) + {u});
    RenameSetValue(f, u, v, cur);
    RenameFindRemove(f, u, cur);
  }

  lemma {:induction false} UndoneModify(m: ModifyProperty, u: nat, before: Item, after: Item, cur: map<nat, nat>,
                     issued: set<(nat, nat)>, f: Items, g: Items, unit: Unit)
    requires HoldsModify(m, u, before, after, cur, issued)
    requires Distinct(f) && Truthful(ModifyAct(u, before, after), f, g) && Fits(cur, unit.maxID) && Keys(f) <= cur.Keys
    ensures unit.forest == Rename(g, cur) ==>
              UndoCommand(Modify(m), unit) == (Unit(Rename(f, cur), unit.maxID), Modify(m))
    ensures unit.forest == Rename(f, cur) ==>
              RedoCommand(Modify(m), unit) == (Unit(Rename(g, cur), unit.maxID), Modify(m))
  {
    SetValueFacts(f, u, after);
    SetRenamed(g, u, before, cur, unit.maxID);
    SetRenamed(f, u, after, cur, unit.maxID);
  }

  lemma {:induction false} UndoneToggle(t: ToggleActive, u: nat, was: bool, now: bool, cur: map<nat, nat>, f: Items, g: Items, unit: Unit)
    requires t == ToggleActive(At(cur, u), was, now, false)
    requires Distinct(f) && Truthful(ToggleAct(u, was, now), f, g) && Fits(cur, unit.maxID) && Keys(f) <= cur.Keys
    ensures unit.forest == Rename(g, cur) ==>
              UndoCommand(Toggle(t), unit) == (Unit(Rename(f, cur), unit.maxID), Toggle(t))
    ensures unit.forest == Rename(f, cur) ==>
              RedoCommand(Toggle(t), unit) == (Unit(Rename(g, cur), unit.maxID), Toggle(t))
  {
    var v := Find(f, u).value;
    var v' := v.(active := now);
    SetValueFacts(f, u, v');
    assert v'.(active := was) == v;
    SetRenamed(g, u, v, cur, unit.maxID);
    SetRenamed(f, u, v', cur, unit.maxID);
  }

  // ---- rewriting stored IDs ----

  function RemapParentThrough(p: Parent, changes: Changes): Parent {
    if p.Root? then Root else Under(RemapThrough(p.key, changes))
  }

  function RemapEntryThrough(e: Entry, changes: Changes): Entry {
    e.(itemID := RemapThrough(e.itemID, changes), parent := RemapParentThrough(e.parent, changes))
  }

  lemma {:induction false} RemapAddFields(a: AddItem, changes: Changes)
    ensures RemapCommand(Add(a), changes)
            == Add(a.(itemID := RemapThrough(a.itemID, changes), parent := RemapParentThrough(a.parent, changes)))
    decreases |changes|
  {
    if changes != [] {
      RemapAddFields(RemapItemID(Add(a), changes[0].0, changes[0].1).add, changes[1..]);
    }
  }

  lemma {:induction false} RemapDeleteFields(d: DeleteItem, changes: Changes)
    ensures RemapCommand(Delete(d), changes).Delete?
    ensures var r := RemapCommand(Delete(d), changes).del;
            && |r.entries| == |d.entries|
            && forall i :: 0 <= i < |d.entries| ==> r.entries[i] == RemapEntryThrough(d.entries[i], changes)
    decreases |changes|
  {
    if changes != [] {
      RemapDeleteFields(RemapItemID(Delete(d), changes[0].0, changes[0].1).del, changes[1..]);
    }
  }

  lemma {:induction false} RemapMoveFields(m: MoveItem, changes: Changes)
    ensures RemapCommand(Move(m), changes)
            == Move(m.(itemID := RemapThrough(m.itemID, changes), oldParent := RemapParentThrough(m.oldParent, changes),
                       newParent := RemapParentThrough(m.newParent, changes)))
    decreases |changes|
  {
    if changes != [] {
      RemapMoveFields(RemapItemID(Move(m), changes[0].0, changes[0].1).move, changes[1..]);
    }
  }

  lemma {:induction false} RemapEditFields(m: ModifyProperty, t: ToggleActive, changes: Changes)
    ensures RemapCommand(Modify(m), changes) == Modify(m.(itemID := RemapThrough(m.itemID, changes)))
    ensures RemapCommand(Toggle(t), changes) == Toggle(t.(itemID := RemapThrough(t.itemID, changes)))
    decreases |changes|
  {
    if changes != [] {
      RemapEditFields(RemapItemID(Modify(m), changes[0].0, changes[0].1).edit,
                      RemapItemID(Toggle(t), changes[0].0, changes[0].1).toggle, changes[1..]);
    }
  }

  /** The changes bring a stored ID from `m` to `m'` for every identity not in `lost`. */
  ghost predicate Brings(changes: Changes, m: map<nat, nat>, m': map<nat, nat>, lost: set<nat>) {
    forall u :: u in m && u !in lost ==> u in m' && RemapThrough(At(m, u), changes) == At(m', u)
  }

  /** What rewriting needs of the items an undone add will recreate: their IDs have not moved. */
  ghost predicate KeptBelow(a: Act, g: Items, m: map<nat, nat>, m': map<nat, nat>) {
    a.AddAct? ==> forall x :: x in Keys(Find(g, a.u)) ==> At(m', x) == At(m, x)
  }

  lemma {:induction false} MapKeysAgree(ks: seq<nat>, m: map<nat, nat>, m': map<nat, nat>)
    requires forall k :: k in ks ==> At(m', k) == At(m, k)
    ensures MapKeys(ks, m') == MapKeys(ks, m)
  {
  }

  /** Rewriting keeps every command at the latest IDs. */
  lemma {:induction false} HoldsRemapped(c: Command, a: Act, changes: Changes, m: map<nat, nat>, m': map<nat, nat>, lost: set<nat>,
                      issued: set<(nat, nat)>, issued': set<(nat, nat)>, g: Items, undone: bool)
    requires Holds(c, a, m, issued, g, undone) && Brings(changes, m, m', lost) && issued <= issued'
    requires ActNames(a) <= m.Keys && ActNames(a) !! lost
    requires undone ==> KeptBelow(a, g, m, m')
    ensures Holds(RemapCommand(c, changes), a, m', issued', g, undone)
  {
    match a
    case AddAct(u, parent, position) =>
      RemapAddFields(c.add, changes);
      if undone {
        PreorderKeys(Find(g, u));
        MapKeysAgree(Preorder(Find(g, u)), m, m');
      }
    case DeleteAct(es) =>
      RemapDeleteFields(c.del, changes);
      var r := RemapCommand(c, changes).del.entries;
      forall i: nat | i < |es| ensures r[i] == MapEntry(es[i], m') {
        EntryBrought(c.del.entries[i], es, i, changes, m, m', lost);
      }
    case MoveAct(_, _, _, _, _) => RemapMoveFields(c.move, changes);
    case ModifyAct(_, _, _) => RemapEditFields(c.edit, ToggleActive(0, false, false, false), changes);
    case ToggleAct(_, _, _) => RemapToggleFields(c.toggle, changes);
  }

  lemma {:induction false} RemapToggleFields(t: ToggleActive, changes: Changes)
    ensures RemapCommand(Toggle(t), changes) == Toggle(t.(itemID := RemapThrough(t.itemID, changes)))
  {
    var i := Item("", false, "");
    RemapEditFields(ModifyProperty(0, "", i, i, None, 0, false), t, changes);
  }

  lemma {:induction false} EntryBrought(e: Entry, es: seq<Entry>, i: nat, changes: Changes, m: map<nat, nat>, m': map<nat, nat>,
                     lost: set<nat>)
    requires i < |es| && e == MapEntry(es[i], m) && Brings(changes, m, m', lost)
    requires EntryNames(es) <= m.Keys && EntryNames(es) !! lost
    ensures RemapEntryThrough(e, changes) == MapEntry(es[i], m')
  {
    assert es[i].itemID in EntryNames(es);
    if es[i].parent.Under? {
      assert es[i].parent.key in EntryNames(es);
    }
  }

  // ---- the IDs a redone add reports ----

  /** Distinct old IDs up to `n`, and new ones beyond it. */
  ghost predicate Pairs(olds: seq<nat>, news: seq<nat>, n: nat) {
    && |olds| == |news|
    && (forall i :: 0 <= i < |olds| ==> olds[i] <= n < news[i])
    && (forall i, j :: 0 <= i < j < |olds| ==> olds[i] != olds[j])
  }

  lemma {:induction false} PairsBring(id: nat, olds: seq<nat>, news: seq<nat>, n: nat)
    requires Pairs(olds, news, n)
    ensures id !in olds ==> RemapThrough(id, IDChanges(olds, news)) == id
    ensures forall i :: 0 <= i < |olds| && olds[i] == id ==> RemapThrough(id, IDChanges(olds, news)) == news[i]
    decreases |olds|
  {
    if olds != [] {
      var rest := IDChanges(olds[1..], news[1..]);
      assert IDChanges(olds, news) == [(olds[0], news[0])] + rest;
      assert IDChanges(olds, news)[1..] == rest;
      PairsBring(RemapID(id, olds[0], news[0]), olds[1..], news[1..], n);
      assert olds == [olds[0]] + olds[1..];
      if id == olds[0] {
        assert news[0] !in olds[1..];
      } else {
        forall i | 0 <= i < |olds| && olds[i] == id ensures RemapThrough(id, rest) == news[i] {
          assert olds[1..][i - 1] == id;
        }
      }
    }
  }

  /** Old and new IDs of a recreated subtree: distinct, and all new ones beyond `n`. */
  lemma {:induction false} PairsOf(s: Items, m: map<nat, nat>, n: nat)
    requires Distinct(s) && Fits(m, n) && Keys(s) <= m.Keys
    ensures Pairs(MapKeys(Preorder(s), m), MapKeys(Preorder(s), Renumbered(m, Preorder(s), n)), n)
  {
    var ks := Preorder(s);
    RenumberedFits(m, s, n);
    PreorderKeys(s);
    PreorderDistinct(s);
    forall i | 0 <= i < |ks| ensures At(m, ks[i]) <= n < At(Renumbered(m, ks, n), ks[i]) {
      assert ks[i] in Keys(s);
    }
    forall i, j | 0 <= i < j < |ks| ensures At(m, ks[i]) != At(m, ks[j]) {
      assert ks[i] in m.Keys && ks[j] in m.Keys;
    }
  }

  lemma {:induction false} BroughtByPairs(u: nat, ks: seq<nat>, m: map<nat, nat>, m': map<nat, nat>, n: nat, changes: Changes)
    requires Pairs(MapKeys(ks, m), MapKeys(ks, m'), n) && changes == IDChanges(MapKeys(ks, m), MapKeys(ks, m'))
    requires Fits(m, n) && u in m && m'.Keys == m.Keys
    requires forall i :: 0 <= i < |ks| ==> ks[i] in m
    requires forall k :: k !in ks ==> At(m', k) == At(m, k)
    ensures RemapThrough(At(m, u), changes) == At(m', u) && RemapThrough(At(m', u), changes) == At(m', u)
  {
    if u in ks {
      var i :| 0 <= i < |ks| && ks[i] == u;
      PairBrought(i, MapKeys(ks, m), MapKeys(ks, m'), n);
    } else {
      OthersNotPaired(u, ks, m, n);
      PairsBring(At(m, u), MapKeys(ks, m), MapKeys(ks, m'), n);
    }
  }

  lemma {:induction false} PairBrought(i: nat, olds: seq<nat>, news: seq<nat>, n: nat)
    requires Pairs(olds, news, n) && i < |olds|
    ensures RemapThrough(olds[i], IDChanges(olds, news)) == news[i]
    ensures RemapThrough(news[i], IDChanges(olds, news)) == news[i]
  {
    PairsBring(olds[i], olds, news, n);
    PairsBring(news[i], olds, news, n);
  }

  lemma {:induction false} OthersNotPaired(u: nat, ks: seq<nat>, m: map<nat, nat>, n: nat)
    requires Fits(m, n) && u in m && u !in ks
    requires forall i :: 0 <= i < |ks| ==> ks[i] in m
    ensures At(m, u) !in MapKeys(ks, m)
  {
  }

  /** Redoing an add moves its whole subtree to new IDs and reports every one of them. */
  lemma {:induction false} ReportedByAdd(s: Items, m: map<nat, nat>, n: nat)
    requires Distinct(s) && Fits(m, n) && Keys(s) <= m.Keys
    ensures var m' := Renumbered(m, Preorder(s), n);
            var changes := IDChanges(MapKeys(Preorder(s), m), MapKeys(Preorder(s), m'));
            && Fits(m', n + Size(s)) && m'.Keys == m.Keys
            && Brings(changes, m, m', {}) && Brings(changes, m', m', {})
            && (forall id {:trigger RemapThrough(id, changes)} :: id > n ==> RemapThrough(id, changes) == id)
  {
    var ks := Preorder(s);
    var m' := Renumbered(m, ks, n);
    var changes := IDChanges(MapKeys(ks, m), MapKeys(ks, m'));
    RenumberedFits(m, s, n);
    PreorderKeys(s);
    PairsOf(s, m, n);
    forall id {:trigger RemapThrough(id, changes)} | id > n ensures RemapThrough(id, changes) == id {
      PairsBring(id, MapKeys(ks, m), MapKeys(ks, m'), n);
    }
    forall u | u in m ensures RemapThrough(At(m, u), changes) == At(m', u)
      ensures RemapThrough(At(m', u), changes) == At(m', u)
    {
      BroughtByPairs(u, ks, m, m', n, changes);
    }
  }

  lemma {:induction false} RedoneAdd(a: AddItem, act: Act, cur: map<nat, nat>, f: Items, g: Items, unit: Unit)
    requires act.AddAct? && HoldsAdd(a, act.u, act.parent, act.position, cur, g, true)
    requires Distinct(f) && Distinct(g) && Truthful(act, f, g)
    requires Fits(cur, unit.maxID) && Keys(f) <= cur.Keys && Keys(g) <= cur.Keys && unit.forest == Rename(f, cur)
    ensures var s := Find(g, act.u);
            var cur' := Renumbered(cur, Preorder(s), unit.maxID);
            var (unit', a') := RedoAdd(a, unit);
            && unit' == Unit(Rename(g, cur'), unit.maxID + Size(s))
            && a'.idChanges == IDChanges(MapKeys(Preorder(s), cur), MapKeys(Preorder(s), cur'))
            && a' == a.(itemID := At(cur', act.u), idChanges := a'.idChanges)
  {
    var u, s := act.u, Find(g, act.u);
    var cur' := Renumbered(cur, Preorder(s), unit.maxID);
    FindRemoveKeys(g, u);
    RemoveThenInsert(g, u);
    InsertRecreated(f, act.parent, act.position, s, cur, unit.maxID);
    RenumberedFits(cur, s, unit.maxID);
    Recreate(s, unit.maxID, cur);
    RenamePreorder(s, cur');
    StripSize(s);
    assert RedoAdd(a, unit).0.forest == Insert(unit.forest, a.parent, a.position, Number(Strip(s), unit.maxID));
  }

  // ---- the invariant ----

  /** IDs are never reused: an ID ever issued belongs to one identity for good. */
  ghost predicate Ledger(cur: map<nat, nat>, issued: set<(nat, nat)>, n: nat) {
    && Fits(cur, n)
    && (forall u :: u in cur ==> 0 < u <= n && (cur[u], u) in issued)
    && (forall x :: x in issued ==> x.0 <= n)
    && (forall x, y :: x in issued && y in issued && x.0 == y.0 ==> x == y)
  }

  /** An item that went away never comes back under the same identity but by undo. */
  ghost predicate Convex(hist: seq<Items>) {
    forall i, j, l, x :: 0 <= i <= j <= l < |hist| && x in Keys(hist[i]) && x in Keys(hist[l]) ==> x in Keys(hist[j])
  }

  ghost predicate Chronicle(hist: seq<Items>, acts: seq<Act>, cur: map<nat, nat>) {
    && |hist| == |acts| + 1
    && (forall j :: 0 <= j < |hist| ==> Distinct(hist[j]) && Keys(hist[j]) <= cur.Keys)
    && Convex(hist)
    && (forall k :: 0 <= k < |acts| ==> Truthful(acts[k], hist[k], hist[k + 1]))
    && (forall l, k :: 0 <= l < k < |acts| && acts[k].DeleteAct? ==> ActNames(acts[l]) !! Inner(acts[k].es))
  }

  ghost predicate Carried(cs: seq<Command>, hist: seq<Items>, acts: seq<Act>, cur: map<nat, nat>,
                          issued: set<(nat, nat)>, index: nat) {
    && |cs| == |acts| && |hist| == |acts| + 1 && index <= |cs|
    && forall k :: 0 <= k < |cs| ==> Holds(cs[k], acts[k], cur, issued, hist[k + 1], k >= index)
  }

  /** The forest is the one last pushed at this index, under the latest IDs, and every command can be trusted. */
  ghost predicate Inv(s: Stack, b: Book) {
    Shaped(s) && Tells(s, b)
  }

  ghost predicate Tells(s: Stack, b: Book) {
    && s.index <= |s.commands| && |s.pushed| == |s.commands| + 1 == |b.hist|
    && Ledger(b.cur, b.issued, s.unit.maxID) && Chronicle(b.hist, b.acts, b.cur)
    && Carried(s.commands, b.hist, b.acts, b.cur, b.issued, s.index)
    && s.unit.forest == Rename(b.hist[s.index], b.cur)
    && forall j :: 0 <= j < |b.hist| ==> s.pushed[j] == Strip(b.hist[j])
  }

  /** Changes still to be applied that no latest ID and no future ID is subject to. */
  ghost predicate Settled(changes: Changes, cur: map<nat, nat>, n: nat) {
    && Brings(changes, cur, cur, {})
    && forall id {:trigger RemapThrough(id, changes)} :: id > n ==> RemapThrough(id, changes) == id
  }

  /** The invariant, once the pending changes are applied. */
  ghost predicate InvOnce(s: Stack, changes: Changes, b: Book) {
    Inv(s.(commands := RemapAll(s.commands, changes)), b) && Settled(changes, b.cur, s.unit.maxID)
  }

  ghost function IssuedNow(issued: set<(nat, nat)>, cur: map<nat, nat>): set<(nat, nat)> {
    issued + set u | u in cur :: (cur[u], u)
  }

  lemma {:induction false} LedgerAfter(cur: map<nat, nat>, issued: set<(nat, nat)>, n: nat, cur': map<nat, nat>, n': nat)
    requires Ledger(cur, issued, n) && Fits(cur', n') && n <= n'
    requires forall u :: u in cur' ==> 0 < u <= n' && ((u in cur && cur'[u] == cur[u]) || cur'[u] > n)
    ensures Ledger(cur', IssuedNow(issued, cur'), n')
  {
    var issued' := IssuedNow(issued, cur');
    forall x, y | x in issued' && y in issued' && x.0 == y.0 ensures x == y {
      if x !in issued && y !in issued {
        assert At(cur', x.1) == At(cur', y.1);
      }
    }
  }

  lemma {:induction false} NamesKnown(a: Act, f: Items, g: Items)
    requires Distinct(f) && Distinct(g) && Truthful(a, f, g)
    ensures ActNames(a) <= Keys(f) + Keys(g)
  {
    match a
    case AddAct(u, _, _) => LocateShape(g, u, Root, 0);
    case DeleteAct(es) =>
      forall x | x in EntryNames(es) ensures x in Keys(f) {
        var i :| 0 <= i < |es| && (es[i].itemID == x || (es[i].parent.Under? && es[i].parent.key == x));
        EntryKnown(es, f, i);
      }
    case MoveAct(u, _, _, _, _) =>
      LocateShape(f, u, Root, 0);
      FindRemoveKeys(f, u);
    case ModifyAct(_, _, _) =>
    case ToggleAct(_, _, _) =>
  }

  lemma {:induction false} GoneForGood(hist: seq<Items>, k: nat, l: nat, x: nat)
    requires Convex(hist) && k + 1 <= l < |hist| && x in Keys(hist[k]) && x !in Keys(hist[k + 1])
    ensures x !in Keys(hist[l])
  {
  }

  /** Every command stays true when one of them is run and stored IDs are then rewritten. */
  lemma {:induction false} CarriedOver(cs: seq<Command>, b: Book, index: nat, k: nat, c: Command, changes: Changes, cur: map<nat, nat>,
                    issued: set<(nat, nat)>, index': nat, lost: set<nat>)
    requires Carried(cs, b.hist, b.acts, b.cur, b.issued, index) && Chronicle(b.hist, b.acts, b.cur)
    requires k < |cs| && index' <= |cs| && b.issued <= issued && Brings(changes, b.cur, cur, lost)
    requires k <= index <= k + 1 && k <= index' <= k + 1
    requires Holds(RemapCommand(c, changes), b.acts[k], cur, issued, b.hist[k + 1], k >= index')
    requires forall j :: 0 <= j < |cs| && j != k ==> ActNames(b.acts[j]) !! lost
    requires forall j :: 0 <= j < |cs| && j != k && j >= index ==> KeptBelow(b.acts[j], b.hist[j + 1], b.cur, cur)
    ensures Carried(RemapAll(cs[k := c], changes), b.hist, b.acts, cur, issued, index')
  {
    forall j | 0 <= j < |cs| && j != k
      ensures Holds(RemapCommand(cs[j], changes), b.acts[j], cur, issued, b.hist[j + 1], j >= index')
    {
      OneCarried(cs, b, index, j, changes, cur, issued, lost);
    }
  }

  lemma {:induction false} OneCarried(cs: seq<Command>, b: Book, index: nat, j: nat, changes: Changes, cur: map<nat, nat>,
                   issued: set<(nat, nat)>, lost: set<nat>)
    requires Carried(cs, b.hist, b.acts, b.cur, b.issued, index) && Chronicle(b.hist, b.acts, b.cur)
    requires j < |cs| && b.issued <= issued && Brings(changes, b.cur, cur, lost) && ActNames(b.acts[j]) !! lost
    requires j >= index ==> KeptBelow(b.acts[j], b.hist[j + 1], b.cur, cur)
    ensures Holds(RemapCommand(cs[j], changes), b.acts[j], cur, issued, b.hist[j + 1], j >= index)
  {
    var a, f, g := b.acts[j], b.hist[j], b.hist[j + 1];
    assert Holds(cs[j], a, b.cur, b.issued, g, j >= index);
    assert Truthful(a, f, g) && Keys(f) + Keys(g) <= b.cur.Keys;
    NamesKnown(a, f, g);
    HoldsRemapped(cs[j], a, changes, b.cur, cur, lost, b.issued, issued, g, j >= index);
  }

  lemma {:induction false} NothingToRemap(cs: seq<Command>)
    ensures RemapAll(cs, []) == cs
  {
  }

  lemma {:induction false} NothingBrings(m: map<nat, nat>, n: nat)
    ensures Brings([], m, m, {}) && Settled([], m, n)
  {
  }

  // ---- undo ----

  lemma {:induction false} MovedGone(es: seq<Entry>, before: Items, tops: seq<nat>, n: nat)
    requires WellRecorded(es, before) && n <= |Tops(es)| && tops == Tops(es)[..n]
    ensures Indices(tops, |es|)
    ensures TopItems(es, tops) <= Moved(es, tops) <= Keys(before)
    ensures Moved(es, tops) !! Keys(Taken(before, es, Tops(es)))
    decreases n
  {
    if n > 0 {
      assert tops[..|tops| - 1] == Tops(es)[..n - 1];
      MovedGone(es, before, tops[..|tops| - 1], n - 1);
      assert TopSnapshot(es, Tops(es)[n - 1]);
      var k := TurnOf(es, before, Tops(es)[n - 1]);
    }
  }

  lemma {:induction false} AllMovedGone(es: seq<Entry>, before: Items)
    requires WellRecorded(es, before)
    ensures TopItems(es, Tops(es)) <= Moved(es, Tops(es)) <= Keys(before)
    ensures Moved(es, Tops(es)) !! Keys(Taken(before, es, Tops(es)))
  {
    assert Tops(es)[..|Tops(es)|] == Tops(es);
    MovedGone(es, before, Tops(es), |Tops(es)|);
  }

  /** What an undone delete reports reaches every stored ID but those of its inner items. */
  lemma {:induction false} TrackedBrings(changes: Changes, m: map<nat, nat>, m': map<nat, nat>, n: nat, reported: set<nat>, moved: set<nat>)
    requires Tracked(changes, m, m', n, reported, moved)
    ensures Brings(changes, m, m', moved - reported) && Brings(changes, m', m', {})
  {
    forall u | u in m' ensures RemapThrough(At(m', u), changes) == At(m', u) {
      if u !in moved {
        assert At(m', u) == At(m, u);
      }
    }
  }

  lemma {:induction false} UndoneOther(s: Stack, b: Book)
    requires Inv(s, b) && s.index > 0 && !b.acts[s.index - 1].DeleteAct?
    ensures var k := s.index - 1;
            var (u', c') := UndoCommand(s.commands[k], s.unit);
            && u' == Unit(Rename(b.hist[k], b.cur), s.unit.maxID) && !c'.Delete?
            && Holds(c', b.acts[k], b.cur, b.issued, b.hist[k + 1], true)
  {
    var k := s.index - 1;
    var c, a, f, g := s.commands[k], b.acts[k], b.hist[k], b.hist[k + 1];
    assert Holds(c, a, b.cur, b.issued, g, false) && Truthful(a, f, g);
    match a
    case AddAct(u, parent, position) => UndoneAdd(c.add, u, parent, position, b.cur, f, g, s.unit);
    case MoveAct(_, _, _, _, _) => UndoneMove(c.move, a, b.cur, f, g, s.unit);
    case ModifyAct(u, before, after) => UndoneModify(c.edit, u, before, after, b.cur, b.issued, f, g, s.unit);
    case ToggleAct(u, was, now) => UndoneToggle(c.toggle, u, was, now, b.cur, f, g, s.unit);
  }

  lemma {:induction false} UndoneDelete(s: Stack, b: Book) returns (cur: map<nat, nat>)
    requires Inv(s, b) && s.index > 0 && b.acts[s.index - 1].DeleteAct?
    ensures var k := s.index - 1;
            var es, f := b.acts[k].es, b.hist[k];
            && s.commands[k].Delete? && WellRecorded(es, f) && b.hist[k + 1] == Taken(f, es, Tops(es))
            && var (u', d') := UndoDelete(s.commands[k].del, s.unit);
               && Stands(d', u', es, f, f, cur) && s.unit.maxID <= u'.maxID
               && Tracked(d'.idChanges, b.cur, cur, s.unit.maxID, TopItems(es, Tops(es)), Moved(es, Tops(es)))
  {
    var k := s.index - 1;
    var es, f := b.acts[k].es, b.hist[k];
    assert Holds(s.commands[k], b.acts[k], b.cur, b.issued, b.hist[k + 1], false);
    assert Truthful(b.acts[k], f, b.hist[k + 1]) && Keys(f) <= b.cur.Keys;
    cur := DeleteUndone(s.commands[k].del, s.unit, es, f, b.cur);
  }

  /** The inner items of a delete are out of reach of every other command. */
  lemma {:induction false} InnerUnnamed(b: Book, k: nat, j: nat)
    requires Chronicle(b.hist, b.acts, b.cur) && k < |b.acts| && j < |b.acts| && j != k && b.acts[k].DeleteAct?
    ensures ActNames(b.acts[j]) !! Inner(b.acts[k].es)
  {
    var es := b.acts[k].es;
    if k < j {
      assert Truthful(b.acts[k], b.hist[k], b.hist[k + 1]) && Truthful(b.acts[j], b.hist[j], b.hist[j + 1]);
      AllMovedGone(es, b.hist[k]);
      NamesKnown(b.acts[j], b.hist[j], b.hist[j + 1]);
      forall x | x in Inner(es) ensures x !in Keys(b.hist[j]) && x !in Keys(b.hist[j + 1]) {
        GoneForGood(b.hist, k, j, x);
        GoneForGood(b.hist, k, j + 1, x);
      }
    }
  }

  /** No item an undone add will recreate is among those a delete took away. */
  lemma {:induction false} DeleteKeepsBelow(b: Book, k: nat, j: nat, cur: map<nat, nat>)
    requires Chronicle(b.hist, b.acts, b.cur) && k < j < |b.acts| && b.acts[k].DeleteAct?
    requires forall x :: x !in Moved(b.acts[k].es, Tops(b.acts[k].es)) ==> At(cur, x) == At(b.cur, x)
    ensures KeptBelow(b.acts[j], b.hist[j + 1], b.cur, cur)
  {
    assert Truthful(b.acts[k], b.hist[k], b.hist[k + 1]);
    AllMovedGone(b.acts[k].es, b.hist[k]);
    if b.acts[j].AddAct? {
      FindRemoveKeys(b.hist[j + 1], b.acts[j].u);
      forall x | x in Keys(Find(b.hist[j + 1], b.acts[j].u)) ensures At(cur, x) == At(b.cur, x) {
        if x in Moved(b.acts[k].es, Tops(b.acts[k].es)) {
          GoneForGood(b.hist, k, j + 1, x);
          assert false;
        }
      }
    }
  }

  /** One command was run and the pending changes are known: the invariant holds once they are applied. */
  lemma {:induction false} Reassembled(s: Stack, b: Book, s1: Stack, k: nat, changes: Changes, b': Book, lost: set<nat>)
    requires Inv(s, b) && Shaped(s1) && k < |s.commands| == |b.acts| && |s1.commands| == |s.commands|
    requires |b.hist| == |b.acts| + 1 && k <= s1.index <= k + 1 && k <= s.index <= k + 1
    requires s1.pushed == s.pushed && b'.hist == b.hist && b'.acts == b.acts && b.issued <= b'.issued
    requires s1.commands == s.commands[k := s1.commands[k]]
    requires Ledger(b'.cur, b'.issued, s1.unit.maxID) && b.cur.Keys <= b'.cur.Keys
    requires s1.unit.forest == Rename(b.hist[s1.index], b'.cur)
    requires Brings(changes, b.cur, b'.cur, lost) && Settled(changes, b'.cur, s1.unit.maxID)
    requires Holds(RemapCommand(s1.commands[k], changes), b.acts[k], b'.cur, b'.issued, b.hist[k + 1], k >= s1.index)
    requires forall j :: 0 <= j < |s.commands| && j != k ==> ActNames(b.acts[j]) !! lost
    requires forall j :: 0 <= j < |s.commands| && j != k && j >= s.index ==>
               KeptBelow(b.acts[j], b.hist[j + 1], b.cur, b'.cur)
    ensures InvOnce(s1, changes, b')
  {
    hide *;
    InvParts(s, b);
    CarriedOver(s.commands, b, s.index, k, s1.commands[k], changes, b'.cur, b'.issued, s1.index, lost);
    Assembled(s, b, s1, changes, b');
  }

  lemma {:induction false} Assembled(s: Stack, b: Book, s1: Stack, changes: Changes, b': Book)
    requires Inv(s, b) && Shaped(s1) && s1.pushed == s.pushed && b'.hist == b.hist && b'.acts == b.acts
    requires Ledger(b'.cur, b'.issued, s1.unit.maxID) && b.cur.Keys <= b'.cur.Keys
    requires Carried(RemapAll(s1.commands, changes), b.hist, b.acts, b'.cur, b'.issued, s1.index)
    requires s1.unit.forest == Rename(b.hist[s1.index], b'.cur) && Settled(changes, b'.cur, s1.unit.maxID)
    ensures InvOnce(s1, changes, b')
  {
  }

  lemma {:induction false} NothingMoved(b: Book, index: nat, k: nat, cur: map<nat, nat>)
    requires |b.hist| == |b.acts| + 1
    ensures forall j :: 0 <= j < |b.acts| ==> ActNames(b.acts[j]) !! {} && KeptBelow(b.acts[j], b.hist[j + 1], cur, cur)
  {
  }

  lemma {:induction false} UndoOtherStep(s: Stack, b: Book)
    requires Inv(s, b) && s.index > 0 && !b.acts[s.index - 1].DeleteAct?
    ensures UndoBase(s).1 == [] && InvOnce(UndoBase(s).0, UndoBase(s).1, b)
  {
    var k := s.index - 1;
    var (s1, changes) := UndoBase(s);
    UndoneOther(s, b);
    NothingBrings(b.cur, s.unit.maxID);
    NothingMoved(b, s.index, k, b.cur);
    Reassembled(s, b, s1, k, [], b, {});
  }

  /** What the undone delete itself leaves behind, before stored IDs are rewritten. */
  lemma {:induction false} DeleteAccounts(s: Stack, b: Book) returns (cur: map<nat, nat>)
    requires Inv(s, b) && s.index > 0 && b.acts[s.index - 1].DeleteAct?
    ensures var k := s.index - 1;
            var es := b.acts[k].es;
            var (s1, changes) := UndoBase(s);
            && Ledger(cur, IssuedNow(b.issued, cur), s1.unit.maxID) && cur.Keys == b.cur.Keys
            && Holds(s1.commands[k], b.acts[k], cur, IssuedNow(b.issued, cur), b.hist[k + 1], true)
            && Brings(changes, b.cur, cur, Inner(es)) && Settled(changes, cur, s1.unit.maxID)
            && s1.unit.forest == Rename(b.hist[k], cur)
            && forall x :: x !in Moved(es, Tops(es)) ==> At(cur, x) == At(b.cur, x)
  {
    var es, n := b.acts[s.index - 1].es, s.unit.maxID;
    var (s1, changes) := UndoBase(s);
    cur := UndoneDelete(s, b);
    TrackedBrings(changes, b.cur, cur, n, TopItems(es, Tops(es)), Moved(es, Tops(es)));
    LedgerAfter(b.cur, b.issued, n, cur, s1.unit.maxID);
  }

  lemma {:induction false} OwnRemapped(b: Book, k: nat, c: Command, changes: Changes, cur: map<nat, nat>, issued: set<(nat, nat)>, n: nat)
    requires Chronicle(b.hist, b.acts, b.cur) && k < |b.acts| && cur.Keys == b.cur.Keys && Settled(changes, cur, n)
    requires Holds(c, b.acts[k], cur, issued, b.hist[k + 1], true)
    ensures Holds(RemapCommand(c, changes), b.acts[k], cur, issued, b.hist[k + 1], true)
  {
    assert Truthful(b.acts[k], b.hist[k], b.hist[k + 1]);
    NamesKnown(b.acts[k], b.hist[k], b.hist[k + 1]);
    HoldsRemapped(c, b.acts[k], changes, cur, cur, {}, issued, issued, b.hist[k + 1], true);
  }

  lemma {:induction false} OthersApart(s: Stack, b: Book, k: nat, cur: map<nat, nat>)
    requires Inv(s, b) && k + 1 == s.index && b.acts[k].DeleteAct?
    requires forall x :: x !in Moved(b.acts[k].es, Tops(b.acts[k].es)) ==> At(cur, x) == At(b.cur, x)
    ensures forall j :: 0 <= j < |s.commands| && j != k ==> ActNames(b.acts[j]) !! Inner(b.acts[k].es)
    ensures forall j :: 0 <= j < |s.commands| && j != k && j >= s.index ==>
              KeptBelow(b.acts[j], b.hist[j + 1], b.cur, cur)
  {
    forall j | 0 <= j < |s.commands| && j != k
      ensures ActNames(b.acts[j]) !! Inner(b.acts[k].es)
      ensures j >= s.index ==> KeptBelow(b.acts[j], b.hist[j + 1], b.cur, cur)
    {
      InnerUnnamed(b, k, j);
      if k < j {
        DeleteKeepsBelow(b, k, j, cur);
      }
    }
  }

  lemma {:induction false} InvParts(s: Stack, b: Book)
    requires Inv(s, b)
    ensures Shaped(s) && |b.hist| == |s.pushed| == |b.acts| + 1 == |s.commands| + 1
    ensures Ledger(b.cur, b.issued, s.unit.maxID) && Fits(b.cur, s.unit.maxID)
    ensures Chronicle(b.hist, b.acts, b.cur) && Carried(s.commands, b.hist, b.acts, b.cur, b.issued, s.index)
    ensures s.unit.forest == Rename(b.hist[s.index], b.cur)
  {
  }

  lemma {:induction false} UndoBaseShape(s: Stack)
    requires Shaped(s) && s.index > 0
    ensures var k := s.index - 1;
            var s1 := UndoBase(s).0;
            && s1.commands == s.commands[k := s1.commands[k]] && s1.index == k && s1.pushed == s.pushed && Shaped(s1)
  {
  }

  lemma {:induction false} UndoDeleteStep(s: Stack, b: Book) returns (b': Book)
    requires Inv(s, b) && s.index > 0 && b.acts[s.index - 1].DeleteAct?
    ensures InvOnce(UndoBase(s).0, UndoBase(s).1, b') && b'.hist == b.hist && b'.acts == b.acts
  {
    hide *;
    InvParts(s, b);
    UndoBaseShape(s);
    var k, s1, changes := s.index - 1, UndoBase(s).0, UndoBase(s).1;
    var cur := DeleteAccounts(s, b);
    b' := Book(b.hist, b.acts, cur, IssuedNow(b.issued, cur));
    OwnRemapped(b, k, s1.commands[k], changes, cur, b'.issued, s1.unit.maxID);
    OthersApart(s, b, k, cur);
    IssuedGrows(b.issued, cur);
    Reassembled(s, b, s1, k, changes, b', Inner(b.acts[k].es));
  }

  lemma {:induction false} IssuedGrows(issued: set<(nat, nat)>, cur: map<nat, nat>)
    ensures issued <= IssuedNow(issued, cur)
  {
  }

  // ---- redo ----

  lemma {:induction false} RedoneOther(s: Stack, b: Book)
    requires Inv(s, b) && s.index < |s.commands| && !b.acts[s.index].AddAct?
    ensures var k := s.index;
            var (u', c') := RedoCommand(s.commands[k], s.unit);
            && u' == Unit(Rename(b.hist[k + 1], b.cur), s.unit.maxID) && !c'.Add?
            && Holds(c', b.acts[k], b.cur, b.issued, b.hist[k + 1], false)
  {
    var k := s.index;
    var c, a, f, g := s.commands[k], b.acts[k], b.hist[k], b.hist[k + 1];
    assert Holds(c, a, b.cur, b.issued, g, true) && Truthful(a, f, g);
    match a
    case DeleteAct(es) => DeleteRedone(c.del, s.unit, es, f, b.cur);
    case MoveAct(_, _, _, _, _) => RedoneMove(c.move, a, b.cur, f, g, s.unit);
    case ModifyAct(u, before, after) => UndoneModify(c.edit, u, before, after, b.cur, b.issued, f, g, s.unit);
    case ToggleAct(u, was, now) => UndoneToggle(c.toggle, u, was, now, b.cur, f, g, s.unit);
  }

  lemma {:induction false} RedoOtherStep(s: Stack, b: Book)
    requires Inv(s, b) && s.index < |s.commands| && !b.acts[s.index].AddAct?
    ensures RedoBase(s).1 == [] && InvOnce(RedoBase(s).0, RedoBase(s).1, b)
  {
    var k := s.index;
    var (s1, changes) := RedoBase(s);
    RedoneOther(s, b);
    NothingBrings(b.cur, s.unit.maxID);
    NothingMoved(b, s.index, k, b.cur);
    Reassembled(s, b, s1, k, [], b, {});
  }

  /** The subtree the add at the index will recreate, and the IDs its items then have. */
  ghost function AddedTree(s: Stack, b: Book): Items
    requires s.index + 1 < |b.hist| && s.index < |b.acts| && b.acts[s.index].AddAct?
  {
    Find(b.hist[s.index + 1], b.acts[s.index].u)
  }

  ghost function AddedIDs(s: Stack, b: Book): map<nat, nat>
    requires s.index + 1 < |b.hist| && s.index < |b.acts| && b.acts[s.index].AddAct?
  {
    Renumbered(b.cur, Preorder(AddedTree(s, b)), s.unit.maxID)
  }

  lemma {:induction false} AddRun(s: Stack, b: Book)
    requires Inv(s, b) && s.index < |s.commands| && b.acts[s.index].AddAct?
    ensures var k, t, cur := s.index, AddedTree(s, b), AddedIDs(s, b);
            var (s1, changes) := RedoBase(s);
            && changes == IDChanges(MapKeys(Preorder(t), b.cur), MapKeys(Preorder(t), cur))
            && s1.unit.maxID == s.unit.maxID + Size(t) && s1.unit.forest == Rename(b.hist[k + 1], cur)
            && s.commands[k].Add? && s1.commands[k].Add?
            && s1.commands[k].add
               == s.commands[k].add.(itemID := At(cur, b.acts[k].u), idChanges := s1.commands[k].add.idChanges)
            && Truthful(b.acts[k], b.hist[k], b.hist[k + 1]) && Keys(b.hist[k]) + Keys(b.hist[k + 1]) <= b.cur.Keys
            && Distinct(b.hist[k]) && Distinct(b.hist[k + 1])
            && HoldsAdd(s.commands[k].add, b.acts[k].u, b.acts[k].parent, b.acts[k].position, b.cur, b.hist[k + 1], true)
  {
    hide *;
    InvParts(s, b);
    AddAtIndex(s, b);
    RedoneAdd(s.commands[s.index].add, b.acts[s.index], b.cur, b.hist[s.index], b.hist[s.index + 1], s.unit);
    RedoBaseAdd(s, b);
  }

  lemma {:induction false} AddAtIndex(s: Stack, b: Book)
    requires Inv(s, b) && s.index < |s.commands| && b.acts[s.index].AddAct?
    ensures var k := s.index;
            && s.commands[k].Add? && Truthful(b.acts[k], b.hist[k], b.hist[k + 1])
            && Keys(b.hist[k]) + Keys(b.hist[k + 1]) <= b.cur.Keys
            && Keys(b.hist[k]) <= b.cur.Keys && Keys(b.hist[k + 1]) <= b.cur.Keys
            && Distinct(b.hist[k]) && Distinct(b.hist[k + 1])
            && HoldsAdd(s.commands[k].add, b.acts[k].u, b.acts[k].parent, b.acts[k].position, b.cur, b.hist[k + 1], true)
  {
    assert Holds(s.commands[s.index], b.acts[s.index], b.cur, b.issued, b.hist[s.index + 1], true);
  }

  lemma {:induction false} RedoBaseAdd(s: Stack, b: Book)
    requires s.index < |s.commands| && s.commands[s.index].Add?
    requires s.index + 1 < |b.hist| && s.index < |b.acts| && b.acts[s.index].AddAct?
    ensures var (unit', a') := RedoAdd(s.commands[s.index].add, s.unit);
            && |RedoBase(s).0.commands| == |s.commands|
            && RedoBase(s).0.unit == unit' && RedoBase(s).0.commands[s.index] == Add(a') && RedoBase(s).1 == a'.idChanges
    ensures AddedTree(s, b) == Find(b.hist[s.index + 1], b.acts[s.index].u)
    ensures AddedIDs(s, b) == Renumbered(b.cur, Preorder(AddedTree(s, b)), s.unit.maxID)
  {
  }

  lemma {:induction false} AddLedger(s: Stack, b: Book)
    requires Inv(s, b) && s.index < |s.commands| && b.acts[s.index].AddAct?
    ensures var t, cur, n := AddedTree(s, b), AddedIDs(s, b), s.unit.maxID;
            var changes := IDChanges(MapKeys(Preorder(t), b.cur), MapKeys(Preorder(t), cur));
            && Ledger(cur, IssuedNow(b.issued, cur), n + Size(t)) && cur.Keys == b.cur.Keys
            && Brings(changes, b.cur, cur, {}) && Settled(changes, cur, n + Size(t))
            && forall x :: x !in Keys(Find(b.hist[s.index + 1], b.acts[s.index].u)) ==> At(cur, x) == At(b.cur, x)
  {
    hide *;
    InvParts(s, b);
    AddedTreeKnown(s, b);
    LedgerAfterAdd(b.cur, b.issued, AddedTree(s, b), s.unit.maxID);
  }

  lemma {:induction false} AddedTreeKnown(s: Stack, b: Book)
    requires Inv(s, b) && s.index < |s.commands| && b.acts[s.index].AddAct?
    ensures Ledger(b.cur, b.issued, s.unit.maxID)
    ensures Distinct(AddedTree(s, b)) && Keys(AddedTree(s, b)) <= b.cur.Keys
    ensures AddedTree(s, b) == Find(b.hist[s.index + 1], b.acts[s.index].u)
    ensures AddedIDs(s, b) == Renumbered(b.cur, Preorder(AddedTree(s, b)), s.unit.maxID)
  {
    FindRemoveKeys(b.hist[s.index + 1], b.acts[s.index].u);
  }

  lemma {:induction false} RedoBaseShape(s: Stack)
    requires Shaped(s) && s.index < |s.commands|
    ensures var k := s.index;
            var s1 := RedoBase(s).0;
            && |s1.commands| == |s.commands| && s1.commands == s.commands[k := s1.commands[k]]
            && s1.index == k + 1 && s1.pushed == s.pushed && Shaped(s1)
  {
  }

  lemma {:induction false} LedgerAfterAdd(m: map<nat, nat>, issued: set<(nat, nat)>, t: Items, n: nat)
    requires Ledger(m, issued, n) && Distinct(t) && Keys(t) <= m.Keys
    ensures var cur := Renumbered(m, Preorder(t), n);
            var changes := IDChanges(MapKeys(Preorder(t), m), MapKeys(Preorder(t), cur));
            && Ledger(cur, IssuedNow(issued, cur), n + Size(t)) && cur.Keys == m.Keys
            && Brings(changes, m, cur, {}) && Settled(changes, cur, n + Size(t))
            && forall x :: x !in Keys(t) ==> At(cur, x) == At(m, x)
  {
    hide *;
    var cur := Renumbered(m, Preorder(t), n);
    IDsFollow(m, issued, t, n);
    ReportedByAdd(t, m, n);
    SettledLater(IDChanges(MapKeys(Preorder(t), m), MapKeys(Preorder(t), cur)), cur, n, n + Size(t));
    LedgerAfter(m, issued, n, cur, n + Size(t));
  }

  lemma {:induction false} SettledLater(changes: Changes, cur: map<nat, nat>, n: nat, n': nat)
    requires Brings(changes, cur, cur, {}) && n <= n'
    requires forall id {:trigger RemapThrough(id, changes)} :: id > n ==> RemapThrough(id, changes) == id
    ensures Settled(changes, cur, n')
  {
  }

  lemma {:induction false} IDsFollow(m: map<nat, nat>, issued: set<(nat, nat)>, t: Items, n: nat)
    requires Ledger(m, issued, n) && Distinct(t) && Keys(t) <= m.Keys
    ensures Fits(m, n)
    ensures var cur := Renumbered(m, Preorder(t), n);
            && (forall x :: x !in Keys(t) ==> At(cur, x) == At(m, x))
            && forall u :: u in cur ==> 0 < u <= n + Size(t) && ((u in m && cur[u] == m[u]) || cur[u] > n)
  {
    var cur := Renumbered(m, Preorder(t), n);
    RenumberedFits(m, t, n);
    forall u | u in cur ensures 0 < u <= n + Size(t) && ((u in m && cur[u] == m[u]) || cur[u] > n) {
      assert At(cur, u) == cur[u] && At(m, u) == m[u];
    }
  }

  /** The IDs of a redone add's items, and the report that goes with them. */
  lemma {:induction false} AddAccounts(s: Stack, b: Book)
    requires Inv(s, b) && s.index < |s.commands| && b.acts[s.index].AddAct?
    ensures var k, t, cur := s.index, AddedTree(s, b), AddedIDs(s, b);
            var (s1, changes) := RedoBase(s);
            && Ledger(cur, IssuedNow(b.issued, cur), s1.unit.maxID) && cur.Keys == b.cur.Keys
            && Brings(changes, b.cur, cur, {}) && Settled(changes, cur, s1.unit.maxID)
            && s1.unit.forest == Rename(b.hist[k + 1], cur)
            && Holds(RemapCommand(s1.commands[k], changes), b.acts[k], cur, IssuedNow(b.issued, cur), b.hist[k + 1], false)
            && forall x :: x !in Keys(Find(b.hist[s.index + 1], b.acts[s.index].u)) ==> At(cur, x) == At(b.cur, x)
  {
    hide *;
    InvParts(s, b);
    RedoBaseShape(s);
    AddRun(s, b);
    AddLedger(s, b);
    var k, cur := s.index, AddedIDs(s, b);
    RedoneAddRemapped(s.commands[k].add, b.acts[k], b.cur, cur, b.hist[k], b.hist[k + 1], RedoBase(s).1,
                      RedoBase(s).0.commands[k].add, IssuedNow(b.issued, cur), RedoBase(s).0.unit.maxID);
  }

  lemma {:induction false} RedoneAddRemapped(c: AddItem, a: Act, m: map<nat, nat>, m': map<nat, nat>, f: Items, g: Items,
                          changes: Changes, c': AddItem, issued: set<(nat, nat)>, n: nat)
    requires a.AddAct? && HoldsAdd(c, a.u, a.parent, a.position, m, g, true) && Truthful(a, f, g)
    requires Distinct(f) && Distinct(g) && Keys(f) + Keys(g) <= m.Keys && m.Keys == m'.Keys
    requires Brings(changes, m, m', {}) && Settled(changes, m', n)
    requires c' == c.(itemID := At(m', a.u), idChanges := c'.idChanges)
    ensures Holds(RemapCommand(Add(c'), changes), a, m', issued, g, false)
  {
    NamesKnown(a, f, g);
    RemapAddFields(c', changes);
  }

  /** No item another undone add will recreate belongs to the add being redone. */
  lemma {:induction false} AddKeepsBelow(b: Book, k: nat, j: nat, cur: map<nat, nat>)
    requires Chronicle(b.hist, b.acts, b.cur) && k < j < |b.acts| && b.acts[k].AddAct?
    requires forall x :: x !in Keys(Find(b.hist[k + 1], b.acts[k].u)) ==> At(cur, x) == At(b.cur, x)
    ensures KeptBelow(b.acts[j], b.hist[j + 1], b.cur, cur)
  {
    if b.acts[j].AddAct? {
      assert Truthful(b.acts[j], b.hist[j], b.hist[j + 1]);
      FindRemoveKeys(b.hist[k + 1], b.acts[k].u);
      FindRemoveKeys(b.hist[j + 1], b.acts[j].u);
      forall x | x in Keys(Find(b.hist[j + 1], b.acts[j].u)) ensures At(cur, x) == At(b.cur, x) {
        assert x !in Keys(b.hist[j]);
      }
    }
  }

  lemma {:induction false} RedoAddStep(s: Stack, b: Book) returns (b': Book)
    requires Inv(s, b) && s.index < |s.commands| && b.acts[s.index].AddAct?
    ensures InvOnce(RedoBase(s).0, RedoBase(s).1, b') && b'.hist == b.hist && b'.acts == b.acts
  {
    hide *;
    InvParts(s, b);
    RedoBaseShape(s);
    AddAccounts(s, b);
    var k, s1, changes, cur := s.index, RedoBase(s).0, RedoBase(s).1, AddedIDs(s, b);
    b' := Book(b.hist, b.acts, cur, IssuedNow(b.issued, cur));
    LaterAddsKeep(b, k, cur);
    NothingMoved(b, s.index, k, cur);
    IssuedGrows(b.issued, cur);
    Reassembled(s, b, s1, k, changes, b', {});
  }

  lemma {:induction false} LaterAddsKeep(b: Book, k: nat, cur: map<nat, nat>)
    requires Chronicle(b.hist, b.acts, b.cur) && |b.hist| == |b.acts| + 1 && k < |b.acts| && b.acts[k].AddAct?
    requires forall x :: x !in Keys(Find(b.hist[k + 1], b.acts[k].u)) ==> At(cur, x) == At(b.cur, x)
    ensures forall j :: 0 <= j < |b.acts| && j != k && j >= k ==> KeptBelow(b.acts[j], b.hist[j + 1], b.cur, cur)
  {
    hide *;
    forall j | 0 <= j < |b.acts| && j != k && j >= k ensures KeptBelow(b.acts[j], b.hist[j + 1], b.cur, cur) {
      AddKeepsBelow(b, k, j, cur);
    }
  }
}
