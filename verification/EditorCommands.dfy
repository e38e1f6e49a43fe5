/** The editor's undo commands: what each records, and what its undo() and redo() do to a unit of items.

    A unit is the forest of one editor view (triggers, aliases, timers, scripts, keys or buttons) with the
    counter its new IDs come from. Snapshots are forests without IDs. */
module EditorCommands {
  import opened Collections
  import opened Forests

  /** `body` stands for every property a snapshot carries besides the name and the active flag. */
  datatype Item = Item(name: string, active: bool, body: string)

  type Items = Forest<Item>

  datatype Unit = Unit(forest: Items, maxID: nat)

  /** Pairs (old ID, new ID), in the order they came about. */
  type Changes = seq<(nat, nat)>

  datatype AddItem = AddItem(itemID: nat, parent: Parent, position: nat, itemName: string, snapshot: Items,
                             oldDescendantIDs: seq<nat>, idChanges: Changes, skipFirstRedo: bool, addFinished: bool)

  datatype Entry = Entry(itemID: nat, parent: Parent, position: nat, snapshot: Items, itemName: string)

  datatype DeleteItem = DeleteItem(entries: seq<Entry>, idChanges: Changes)

  datatype MoveItem = MoveItem(itemID: nat, oldParent: Parent, newParent: Parent, oldPosition: nat, newPosition: nat,
                               skipFirstRedo: bool)

  datatype ModifyProperty = ModifyProperty(itemID: nat, itemName: string, oldState: Item, newState: Item,
                                           propertyId: Option<(nat, string)>, created: int, skipFirstRedo: bool)

  datatype ToggleActive = ToggleActive(itemID: nat, oldActive: bool, newActive: bool, skipFirstRedo: bool)

  datatype Command =
    | Add(add: AddItem)
    | Delete(del: DeleteItem)
    | Move(move: MoveItem)
    | Modify(edit: ModifyProperty)
    | Toggle(toggle: ToggleActive)

  const MERGE_TIMEOUT_MS := 500

  // ---- remapping ----

  function RemapID(id: nat, oldID: nat, newID: nat): nat {
    if id == oldID then newID else id
  }

  /** remapItemIDs() applied to one stored ID for each change in turn. */
  function RemapThrough(id: nat, changes: Changes): nat
    decreases |changes|
  {
    if changes == [] then id
    else RemapThrough(RemapID(id, changes[0].0, changes[0].1), changes[1..])
  }

  function RemapParent(p: Parent, oldID: nat, newID: nat): Parent {
    if p.Root? then Root else Under(RemapID(p.key, oldID, newID))
  }

  function RemapEntry(e: Entry, oldID: nat, newID: nat): Entry {
    e.(itemID := RemapID(e.itemID, oldID, newID), parent := RemapParent(e.parent, oldID, newID))
  }

  function RemapEntries(es: seq<Entry>, oldID: nat, newID: nat): (r: seq<Entry>)
    ensures |r| == |es| && forall i :: 0 <= i < |es| ==> r[i] == RemapEntry(es[i], oldID, newID)
  {
    if es == [] then [] else [RemapEntry(es[0], oldID, newID)] + RemapEntries(es[1..], oldID, newID)
  }

  /** remapItemID() of each command class. */
  function RemapItemID(c: Command, oldID: nat, newID: nat): Command {
    match c
    case Add(a) =>
      Add(a.(itemID := RemapID(a.itemID, oldID, newID), parent := RemapParent(a.parent, oldID, newID)))
    case Delete(d) => Delete(d.(entries := RemapEntries(d.entries, oldID, newID)))
    case Move(m) =>
      Move(m.(itemID := RemapID(m.itemID, oldID, newID), oldParent := RemapParent(m.oldParent, oldID, newID),
              newParent := RemapParent(m.newParent, oldID, newID)))
    case Modify(m) => Modify(m.(itemID := RemapID(m.itemID, oldID, newID)))
    case Toggle(t) => Toggle(t.(itemID := RemapID(t.itemID, oldID, newID)))
  }

  // ---- add ----

  function IDChanges(olds: seq<nat>, news: seq<nat>): Changes
    requires |olds| == |news|
  {
    if olds == [] then []
    else (if olds[0] != news[0] then [(olds[0], news[0])] else []) + IDChanges(olds[1..], news[1..])
  }

  function UndoAdd(a: AddItem, u: Unit): (Unit, AddItem) {
    var item := Find(u.forest, a.itemID);
    (u.(forest := Remove(u.forest, a.itemID)),
     a.(oldDescendantIDs := Preorder(item), snapshot := if a.snapshot.End? then Strip(item) else a.snapshot))
  }

  function RedoAdd(a: AddItem, u: Unit): (Unit, AddItem) {
    if a.skipFirstRedo then (u, a.(skipFirstRedo := false))
    else if a.snapshot.End? then (u, a.(idChanges := []))
    else
      var tree := Number(a.snapshot, u.maxID);
      var item := tree.(rest := End);
      var news := Preorder(item);
      var changes := if |a.oldDescendantIDs| == |news| then IDChanges(a.oldDescendantIDs, news) else [];
      (Unit(Insert(u.forest, a.parent, a.position, item), u.maxID + Size(a.snapshot)),
       a.(itemID := item.key, idChanges := changes))
  }

  // ---- move and toggle ----

  /** reParent…(): the item is taken from the parent it hangs under and inserted at min(position, size). */
  function ReParent(f: Items, id: nat, to: Parent, position: nat): Items {
    if id !in Keys(f) then f else Insert(Remove(f, id), to, position, Find(f, id))
  }

  function SetActive(f: Items, id: nat, active: bool): Items {
    if id !in Keys(f) then f else SetValue(f, id, Find(f, id).value.(active := active))
  }

  // ---- delete ----

  function IDs(es: seq<Entry>): set<nat> {
    set i | 0 <= i < |es| :: es[i].itemID
  }

  predicate IsTop(es: seq<Entry>, i: nat)
    requires i < |es|
  {
    es[i].parent.Root? || es[i].parent.key !in IDs(es)
  }

  predicate Indices(s: seq<nat>, n: nat) {
    forall j :: 0 <= j < |s| ==> s[j] < n
  }

  /** Indices below `n` of the entries whose parent was not deleted with them, in list order. */
  function TopsBelow(es: seq<Entry>, n: nat): (r: seq<nat>)
    requires n <= |es|
    ensures forall j :: 0 <= j < |r| ==> r[j] < n && IsTop(es, r[j])
    ensures forall i: nat :: i < n && IsTop(es, i) ==> i in r
    ensures forall i, j :: 0 <= i < j < |r| ==> r[i] < r[j]
  {
    if n == 0 then []
    else if IsTop(es, n - 1) then TopsBelow(es, n - 1) + [n - 1]
    else TopsBelow(es, n - 1)
  }

  function Tops(es: seq<Entry>): (r: seq<nat>)
    ensures Indices(r, |es|)
  {
    TopsBelow(es, |es|)
  }

  /** childEntries: entry indices filed under the parent they were recorded with. */
  type Waiting = map<Parent, seq<nat>>

  predicate Indexed(w: Waiting, n: nat) {
    forall p :: p in w ==> Indices(w[p], n)
  }

  function FiledBelow(es: seq<Entry>, n: nat): (w: Waiting)
    requires n <= |es|
    ensures Indexed(w, n)
  {
    if n == 0 then map[]
    else
      var w := FiledBelow(es, n - 1);
      var p := es[n - 1].parent;
      w[p := (if p in w then w[p] else []) + [n - 1]]
  }

  /** Exactly the entries below `n` are filed, each once and under its own parent. */
  lemma {:induction false} FiledExactly(es: seq<Entry>, n: nat, p: Parent)
    requires n <= |es|
    ensures var w := FiledBelow(es, n);
            && (p in w ==> w[p] != [])
            && (p in w ==> forall j :: 0 <= j < |w[p]| ==> w[p][j] < n && es[w[p][j]].parent == p)
            && (p in w ==> forall i, j :: 0 <= i < j < |w[p]| ==> w[p][i] < w[p][j])
            && (forall i: nat :: i < n && es[i].parent == p ==> p in w && i in w[p])
  {
    if n > 0 {
      FiledExactly(es, n - 1, p);
      var w, w' := FiledBelow(es, n - 1), FiledBelow(es, n);
      if es[n - 1].parent == p {
        assert w'[p][|w'[p]| - 1] == n - 1;
        assert forall i :: i in w'[p] <==> i == n - 1 || (p in w && i in w[p]);
      }
    }
  }

  function ChildrenOf(f: Items, id: nat): seq<(nat, Item)> {
    var item := Find(f, id);
    if item.Tree? then Level(item.kids) else []
  }

  /** adoptRestoredChildren(): re-points the entries recorded below `oldParent`, and below those in turn,
      at the items restored with it. Each parent's entries are taken once. */
  function Adopt(es: seq<Entry>, w: Waiting, f: Items, oldParent: nat, newParent: nat): (r: (seq<Entry>, Waiting))
    requires Indexed(w, |es|)
    ensures |r.0| == |es| && r.1.Keys <= w.Keys && Indexed(r.1, |es|)
    decreases w.Keys, 0
  {
    if Under(oldParent) !in w then (es, w)
    else AdoptEach(es, w - {Under(oldParent)}, f, newParent, w[Under(oldParent)])
  }

  function AdoptEach(es: seq<Entry>, w: Waiting, f: Items, newParent: nat, taken: seq<nat>): (r: (seq<Entry>, Waiting))
    requires Indexed(w, |es|) && Indices(taken, |es|)
    ensures |r.0| == |es| && r.1.Keys <= w.Keys && Indexed(r.1, |es|)
    decreases w.Keys, |taken|
  {
    if taken == [] then (es, w)
    else
      var i := taken[0];
      var info := es[i].(parent := Under(newParent));
      var children := ChildrenOf(f, newParent);
      if info.position < |children| && children[info.position].1.name == info.itemName then
        var child := children[info.position].0;
        var (es', w') := Adopt(es[i := info.(itemID := child)], w, f, info.itemID, child);
        AdoptEach(es', w', f, newParent, taken[1..])
      else AdoptEach(es[i := info], w, f, newParent, taken[1..])
  }

  datatype Restoring = Restoring(unit: Unit, entries: seq<Entry>, waiting: Waiting, changes: Changes)

  function RestoreTop(r: Restoring, i: nat): (r': Restoring)
    requires i < |r.entries| && Indexed(r.waiting, |r.entries|)
    ensures |r'.entries| == |r.entries| && Indexed(r'.waiting, |r.entries|)
  {
    var info := r.entries[i];
    if info.snapshot.End? then r
    else
      var tree := Number(info.snapshot, r.unit.maxID);
      var item := tree.(rest := End);
      var f := Insert(r.unit.forest, info.parent, info.position, item);
      var changes := r.changes + if item.key != info.itemID then [(info.itemID, item.key)] else [];
      var (es, w) := Adopt(r.entries[i := info.(itemID := item.key)], r.waiting, f, info.itemID, item.key);
      Restoring(Unit(f, r.unit.maxID + Size(info.snapshot)), es, w, changes)
  }

  /** The topmost entries are restored last to first. */
  function RestoreTops(r: Restoring, tops: seq<nat>): (r': Restoring)
    requires Indexed(r.waiting, |r.entries|) && Indices(tops, |r.entries|)
    ensures |r'.entries| == |r.entries|
    decreases |tops|
  {
    if tops == [] then r
    else
      var last := |tops| - 1;
      RestoreTops(RestoreTop(r, tops[last]), tops[..last])
  }

  function UndoDelete(d: DeleteItem, u: Unit): (Unit, DeleteItem) {
    var r := RestoreTops(Restoring(u, d.entries, FiledBelow(d.entries, |d.entries|), []), Tops(d.entries));
    (r.unit, d.(entries := r.entries, idChanges := r.changes))
  }

  /** Deletes the listed entries in order, each only if an item of that ID and name is there. */
  function DeleteListed(f: Items, es: seq<Entry>, listed: seq<nat>): Items
    requires Indices(listed, |es|)
    decreases |listed|
  {
    if listed == [] then f
    else
      var e := es[listed[0]];
      var item := Find(f, e.itemID);
      DeleteListed(if item.Tree? && item.value.name == e.itemName then Remove(f, e.itemID) else f, es, listed[1..])
  }

  function RedoDelete(d: DeleteItem, u: Unit): Unit {
    u.(forest := DeleteListed(u.forest, d.entries, Tops(d.entries)))
  }

  // ---- one command ----

  function UndoCommand(c: Command, u: Unit): (Unit, Command) {
    match c
    case Add(a) => var (u', a') := UndoAdd(a, u); (u', Add(a'))
    case Delete(d) => var (u', d') := UndoDelete(d, u); (u', Delete(d'))
    case Move(m) => (u.(forest := ReParent(u.forest, m.itemID, m.oldParent, m.oldPosition)), c)
    case Modify(m) => (u.(forest := SetValue(u.forest, m.itemID, m.oldState)), c)
    case Toggle(t) => (u.(forest := SetActive(u.forest, t.itemID, t.oldActive)), c)
  }

  function RedoCommand(c: Command, u: Unit): (Unit, Command) {
    match c
    case Add(a) => var (u', a') := RedoAdd(a, u); (u', Add(a'))
    case Delete(d) => (RedoDelete(d, u), c)
    case Move(m) =>
      if m.skipFirstRedo then (u, Move(m.(skipFirstRedo := false)))
      else (u.(forest := ReParent(u.forest, m.itemID, m.newParent, m.newPosition)), c)
    case Modify(m) =>
      if m.skipFirstRedo then (u, Modify(m.(skipFirstRedo := false)))
      else (u.(forest := SetValue(u.forest, m.itemID, m.newState)), c)
    case Toggle(t) =>
      if t.skipFirstRedo then (u, Toggle(t.(skipFirstRedo := false)))
      else (u.(forest := SetActive(u.forest, t.itemID, t.newActive)), c)
  }

  /** mergeWith(): what `c` becomes when `other`, pushed at time `now`, is absorbed into it. */
  function MergeWith(c: Command, other: Command, now: int): Option<Command> {
    if !other.Modify? then None
    else match c
      case Add(a) =>
        if a.addFinished || other.edit.itemID != a.itemID then None
        else Some(Add(a.(snapshot := End, itemName := other.edit.itemName)))
      case Modify(m) =>
        if m.propertyId.None? || m.propertyId != other.edit.propertyId || now - m.created > MERGE_TIMEOUT_MS then None
        else Some(Modify(m.(newState := other.edit.newState, created := now)))
      case _ => None
  }
}
