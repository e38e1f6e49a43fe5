/** The editor's undo stack: pushing with merging and a limit, undo, redo, and the rewriting of stored IDs.

    Undo and redo tell the editor what changed before the stored IDs are rewritten, and what listens may push
    further commands at that moment, so each of them takes the edits its handler makes. */
module UndoStack {
  import opened Collections
  import opened Forests
  import opened EditorCommands
  import opened DeletedSubtrees
  import opened DeletePlaces

  const UNDO_LIMIT := 50

  /** `pushed` is not in the program: it is the forest last pushed at each index, without IDs. */
  datatype Stack = Stack(unit: Unit, commands: seq<Command>, index: nat, pushed: seq<Items>)

  /** What a user does in the editor; the command pushed for it records it as it was at the time. */
  datatype Edit =
    | AddEdit(shape: Items, parent: Parent, position: nat)
    | DeleteEdit(entries: seq<Entry>)
    | MoveEdit(itemID: nat, to: Parent, position: nat)
    | ModifyEdit(itemID: nat, state: Item, property: Option<string>, now: int)
    | ToggleEdit(itemID: nat, active: bool)

  datatype Event =
    | Push(edit: Edit)
    | Undo(handler: seq<Edit>)
    | Redo(handler: seq<Edit>)
    | FinishAdding(itemID: nat)

  // ---- rewriting stored IDs ----

  function RemapCommand(c: Command, changes: Changes): Command
    decreases |changes|
  {
    if changes == [] then c
    else RemapCommand(RemapItemID(c, changes[0].0, changes[0].1), changes[1..])
  }

  /** Every command on the stack, done or undone, is rewritten for each change in turn. */
  function RemapAll(cs: seq<Command>, changes: Changes): (r: seq<Command>)
    ensures |r| == |cs| && forall k :: 0 <= k < |cs| ==> r[k] == RemapCommand(cs[k], changes)
  {
    if cs == [] then [] else [RemapCommand(cs[0], changes)] + RemapAll(cs[1..], changes)
  }

  // ---- pushing ----

  function Limited(s: Stack): Stack {
    if |s.commands| <= UNDO_LIMIT || s.index == 0 || |s.pushed| == 0 then s
    else s.(commands := s.commands[1..], index := s.index - 1, pushed := s.pushed[1..])
  }

  /** push(): runs redo() of the new command, drops what was undone, then merges or appends. */
  function PushCommand(s: Stack, u: Unit, c: Command, now: int): Stack
    requires s.index <= |s.commands| && |s.pushed| == |s.commands| + 1
  {
    var (u', c') := RedoCommand(c, u);
    var kept := s.commands[..s.index];
    var merged := if s.index > 0 then MergeWith(kept[s.index - 1], c', now) else None;
    if merged.Some? then
      Stack(u', kept[s.index - 1 := merged.value], s.index, s.pushed[..s.index] + [Strip(u'.forest)])
    else
      Limited(Stack(u', kept + [c'], s.index + 1, s.pushed[..s.index + 1] + [Strip(u'.forest)]))
  }

  function Recorded(e: Entry): Entry {
    e.(snapshot := Strip(e.snapshot))
  }

  function RecordedAll(es: seq<Entry>): (r: seq<Entry>)
    ensures |r| == |es| && forall i :: 0 <= i < |es| ==> r[i] == Recorded(es[i])
  {
    if es == [] then [] else [Recorded(es[0])] + RecordedAll(es[1..])
  }

  /** IDs a stored command holds. */
  function ParentName(p: Parent): set<nat> {
    if p.Root? then {} else {p.key}
  }

  function EntryNames(es: seq<Entry>): set<nat> {
    IDs(es) + set i | 0 <= i < |es| && es[i].parent.Under? :: es[i].parent.key
  }

  function Named(c: Command): set<nat> {
    match c
    case Add(a) => {a.itemID} + ParentName(a.parent)
    case Delete(d) => EntryNames(d.entries)
    case Move(m) => {m.itemID} + ParentName(m.oldParent) + ParentName(m.newParent)
    case Modify(m) => {m.itemID}
    case Toggle(t) => {t.itemID}
  }

  /** The items deleted below the topmost ones: undoing the delete does not report their new IDs. */
  ghost function Inner(es: seq<Entry>): set<nat> {
    Moved(es, Tops(es)) - TopItems(es, Tops(es))
  }

  /** The edit is possible, and what a delete records is true; no command below names one of its inner items,
      whose new IDs nobody would be told (`pending`: rewriting still to come). */
  ghost predicate Accepted(s: Stack, e: Edit, pending: Changes) {
    match e
    case AddEdit(shape, _, _) => shape.Tree? && shape.rest.End?
    case DeleteEdit(es) =>
      && Restorable(es, s.unit.forest)
      && forall k :: 0 <= k < s.index && k < |s.commands| ==> Named(RemapCommand(s.commands[k], pending)) !! Inner(es)
    case MoveEdit(id, to, _) => id in Keys(s.unit.forest) && (to.Under? ==> to.key in Keys(Remove(s.unit.forest, id)))
    case ModifyEdit(id, _, _, _) => id in Keys(s.unit.forest)
    case ToggleEdit(id, _) => id in Keys(s.unit.forest)
  }

  /** The unit after the user's action, and the command that records it. */
  function Edited(u: Unit, e: Edit): (Unit, Command) {
    var f := u.forest;
    match e
    case AddEdit(shape, parent, position) =>
      if !shape.Tree? then (u, Toggle(ToggleActive(0, false, false, true)))
      else
        var t := Number(shape, u.maxID);
        var g := Insert(f, parent, position, t);
        var place := Locate(g, t.key);
        (Unit(g, u.maxID + Size(shape)),
         Add(AddItem(t.key, if place.Some? then place.value.0 else Root, if place.Some? then place.value.1 else 0,
                     shape.value.name, End, [], [], true, false)))
    case DeleteEdit(es) => (u.(forest := Taken(f, es, Tops(es))), Delete(DeleteItem(RecordedAll(es), [])))
    case MoveEdit(id, to, position) =>
      var place := Locate(f, id);
      (u.(forest := ReParent(f, id, to, position)),
       Move(MoveItem(id, if place.Some? then place.value.0 else Root, to,
                     if place.Some? then place.value.1 else 0, position, true)))
    case ModifyEdit(id, state, property, now) =>
      var item := Find(f, id);
      var was := if item.Tree? then item.value else state;
      (u.(forest := SetValue(f, id, state)),
       Modify(ModifyProperty(id, state.name, was, state,
                             if property.Some? then Some((id, property.value)) else None, now, true)))
    case ToggleEdit(id, active) =>
      var item := Find(f, id);
      (u.(forest := SetActive(f, id, active)),
       Toggle(ToggleActive(id, item.Tree? && item.value.active, active, true)))
  }

  ghost function Perform(s: Stack, e: Edit, pending: Changes): Stack
    requires s.index <= |s.commands| && |s.pushed| == |s.commands| + 1
  {
    if !Accepted(s, e, pending) then s
    else
      var (u, c) := Edited(s.unit, e);
      PushCommand(s, u, c, if c.Modify? then c.edit.created else 0)
  }

  ghost predicate Shaped(s: Stack) {
    s.index <= |s.commands| <= UNDO_LIMIT && |s.pushed| == |s.commands| + 1
  }

  ghost function PerformAll(s: Stack, es: seq<Edit>, pending: Changes): (r: Stack)
    requires Shaped(s)
    ensures Shaped(r)
    decreases |es|
  {
    if es == [] then s else PerformAll(Perform(s, es[0], pending), es[1..], pending)
  }

  // ---- undo and redo ----

  /** The command's own undo(), and the ID changes the stack then passes on. */
  function UndoBase(s: Stack): (Stack, Changes)
    requires 0 < s.index <= |s.commands|
  {
    var k := s.index - 1;
    var (u, c) := UndoCommand(s.commands[k], s.unit);
    (s.(unit := u, commands := s.commands[k := c], index := k), if c.Delete? then c.del.idChanges else [])
  }

  function RedoBase(s: Stack): (Stack, Changes)
    requires s.index < |s.commands|
  {
    var k := s.index;
    var (u, c) := RedoCommand(s.commands[k], s.unit);
    (s.(unit := u, commands := s.commands[k := c], index := k + 1), if c.Add? then c.add.idChanges else [])
  }

  function Finished(c: Command, id: nat): Command {
    if c.Add? && c.add.itemID == id then Add(c.add.(addFinished := true)) else c
  }

  function FinishBelow(cs: seq<Command>, index: nat, id: nat): (r: seq<Command>)
    requires index <= |cs|
    ensures |r| == |cs|
    ensures forall k :: 0 <= k < |cs| ==> r[k] == if k < index then Finished(cs[k], id) else cs[k]
    decreases index
  {
    if index == 0 then cs
    else FinishBelow(cs[index - 1 := Finished(cs[index - 1], id)], index - 1, id)
  }

  ghost function Step(s: Stack, e: Event): (r: Stack)
    requires Shaped(s)
    ensures Shaped(r)
  {
    match e
    case Push(edit) => Perform(s, edit, [])
    case Undo(handler) =>
      if s.index == 0 then s
      else
        var (s1, changes) := UndoBase(s);
        var s2 := PerformAll(s1, handler, changes);
        s2.(commands := RemapAll(s2.commands, changes))
    case Redo(handler) =>
      if s.index == |s.commands| then s
      else
        var (s1, changes) := RedoBase(s);
        var s2 := PerformAll(s1, handler, changes);
        s2.(commands := RemapAll(s2.commands, changes))
    case FinishAdding(id) => s.(commands := FinishBelow(s.commands, s.index, id))
  }

  ghost function Run(s: Stack, events: seq<Event>): (r: Stack)
    requires Shaped(s)
    ensures Shaped(r)
    decreases |events|
  {
    if events == [] then s else Run(Step(s, events[0]), events[1..])
  }

  /** A freshly opened editor over any unit of items. */
  function Fresh(u: Unit): Stack {
    Stack(u, [], 0, [Strip(u.forest)])
  }
}
