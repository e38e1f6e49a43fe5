/** The add, move, modify and toggle commands as the objects they are, each proved to do what the value-level
    operations of EditorCommands describe. The unit of items is passed in and given back. */
module EditorCommandObjects {
  import opened Collections
  import opened Forests
  import opened EditorCommands

  /** The IDs that changed, position by position. */
  method CollectChanges(olds: seq<nat>, news: seq<nat>) returns (changes: Changes)
    requires |olds| == |news|
    ensures changes == IDChanges(olds, news)
  {
    changes := [];
    for i := 0 to |olds|
      invariant changes + IDChanges(olds[i..], news[i..]) == IDChanges(olds, news)
    {
      assert olds[i..][1..] == olds[i + 1..] && news[i..][1..] == news[i + 1..];
      if olds[i] != news[i] {
        changes := changes + [(olds[i], news[i])];
      }
    }
  }

  lemma {:induction false} Regrouped(a: seq<nat>, b: seq<nat>, c: seq<nat>, d: seq<nat>)
    ensures a + (b + c + d) == a + b + c + d
  {
  }

  class EditorAddItemCommand {
    var itemID: nat
    var parentID: Parent
    var positionInParent: nat
    var itemName: string
    var itemSnapshot: Items
    var oldDescendantIDs: seq<nat>
    var idChanges: Changes
    var skipFirstRedo: bool
    var addFinished: bool

    constructor (a: AddItem)
      ensures Record() == a
    {
      itemID, parentID, positionInParent, itemName, itemSnapshot := a.itemID, a.parent, a.position, a.itemName, a.snapshot;
      oldDescendantIDs, idChanges, skipFirstRedo, addFinished := a.oldDescendantIDs, a.idChanges, a.skipFirstRedo, a.addFinished;
    }

    function Record(): AddItem
      reads this
    {
      AddItem(itemID, parentID, positionInParent, itemName, itemSnapshot, oldDescendantIDs, idChanges, skipFirstRedo, addFinished)
    }

    /** The IDs of an item and everything below it, collected level by level. */
    method CollectIDs(item: Items) returns (ids: seq<nat>)
      ensures ids == Preorder(item)
      decreases item
    {
      ids := [];
      var f := item;
      while f.Tree?
        invariant ids + Preorder(f) == Preorder(item)
        invariant f == item || f < item
        decreases f
      {
        var below := CollectIDs(f.kids);
        Regrouped(ids, [f.key], below, Preorder(f.rest));
        ids := ids + [f.key] + below;
        f := f.rest;
      }
    }

    method Undo(u: Unit) returns (u': Unit)
      modifies this`oldDescendantIDs, this`itemSnapshot
      ensures (u', Record()) == UndoAdd(old(Record()), u)
    {
      var item := Find(u.forest, itemID);
      oldDescendantIDs := CollectIDs(item);
      if itemSnapshot.End? {
        itemSnapshot := Strip(item);
      }
      u' := u.(forest := Remove(u.forest, itemID));
    }

    method Redo(u: Unit) returns (u': Unit)
      modifies this`skipFirstRedo, this`idChanges, this`itemID
      ensures (u', Record()) == RedoAdd(old(Record()), u)
    {
      if skipFirstRedo {
        skipFirstRedo := false;
        return u;
      }
      idChanges := [];
      if itemSnapshot.End? {
        return u;
      }
      var tree := Number(itemSnapshot, u.maxID);
      var item := tree.(rest := End);
      u' := Unit(Insert(u.forest, parentID, positionInParent, item), u.maxID + Size(itemSnapshot));
      itemID := item.key;
      var newDescendantIDs := CollectIDs(item);
      if |oldDescendantIDs| == |newDescendantIDs| {
        idChanges := CollectChanges(oldDescendantIDs, newDescendantIDs);
      }
    }

    method RemapItemID(oldID: nat, newID: nat)
      modifies this`itemID, this`parentID
      ensures Add(Record()) == EditorCommands.RemapItemID(old(Add(Record())), oldID, newID)
      ensures oldID != newID ==> itemID != oldID && parentID != Under(oldID)
    {
      if itemID == oldID {
        itemID := newID;
      }
      if parentID == Under(oldID) {
        parentID := Under(newID);
      }
    }

    method MergeWith(other: Command, now: int) returns (merged: bool)
      modifies this`itemSnapshot, this`itemName
      ensures merged == EditorCommands.MergeWith(old(Add(Record())), other, now).Some?
      ensures Add(Record()) == if merged then EditorCommands.MergeWith(old(Add(Record())), other, now).value else old(Add(Record()))
    {
      if addFinished {
        return false;
      }
      if !other.Modify? || other.edit.itemID != itemID {
        return false;
      }
      itemSnapshot := End;
      itemName := other.edit.itemName;
      return true;
    }

    /** Finished, the add of that very item absorbs nothing that is pushed later; it can be undone and redone as before. */
    method FinishAdding(id: nat)
      modifies this`addFinished
      ensures id == itemID ==> forall other, now :: EditorCommands.MergeWith(Add(Record()), other, now).None?
      ensures id != itemID ==> Record() == old(Record())
      ensures Record().(addFinished := false) == old(Record()).(addFinished := false) && (old(addFinished) ==> addFinished)
    {
      if id == itemID {
        addFinished := true;
      }
    }
  }

  /** Moving an item and moving it back to where it hung: also a move below itself, which the insertion leaves at the
      top level, and the first redo, which does nothing. */
  lemma {:induction false} MovedBack(f: Items, id: nat, to: Parent, position: nat)
    requires Distinct(f) && id in Keys(f)
    ensures Locate(f, id).Some?
    ensures var (parent, i) := Locate(f, id).value;
            && ReParent(f, id, parent, i) == f
            && ReParent(ReParent(f, id, to, position), id, parent, i) == f
  {
    FindRemoveKeys(f, id);
    RemoveThenInsert(f, id);
    InsertThenRemove(Remove(f, id), to, position, Find(f, id));
  }

  class EditorMoveItemCommand {
    var itemID: nat
    var oldParentID: Parent
    var newParentID: Parent
    const oldPosition: nat
    const newPosition: nat
    var skipFirstRedo: bool

    constructor (m: MoveItem)
      ensures Record() == m
    {
      itemID, oldParentID, newParentID, skipFirstRedo := m.itemID, m.oldParent, m.newParent, m.skipFirstRedo;
      oldPosition, newPosition := m.oldPosition, m.newPosition;
    }

    function Record(): MoveItem
      reads this
    {
      MoveItem(itemID, oldParentID, newParentID, oldPosition, newPosition, skipFirstRedo)
    }

    method Undo(u: Unit) returns (u': Unit)
      ensures (u', Move(Record())) == UndoCommand(Move(Record()), u)
    {
      u' := u.(forest := ReParent(u.forest, itemID, oldParentID, oldPosition));
    }

    /** Where the item hung when the move was recorded. */
    ghost predicate Recorded(f: Items)
      reads this
    {
      Distinct(f) && itemID in Keys(f) && Locate(f, itemID) == Some((oldParentID, oldPosition))
    }

    /** Undoing takes back what it does. */
    method Redo(u: Unit) returns (u': Unit)
      modifies this`skipFirstRedo
      ensures (u', Move(Record())) == RedoCommand(old(Move(Record())), u)
      ensures Recorded(u.forest) ==> UndoCommand(Move(Record()), u').0 == u
    {
      if Distinct(u.forest) && itemID in Keys(u.forest) {
        MovedBack(u.forest, itemID, newParentID, newPosition);
      }
      if skipFirstRedo {
        skipFirstRedo := false;
        return u;
      }
      u' := u.(forest := ReParent(u.forest, itemID, newParentID, newPosition));
    }

    method RemapItemID(oldID: nat, newID: nat)
      modifies this`itemID, this`oldParentID, this`newParentID
      ensures Move(Record()) == EditorCommands.RemapItemID(old(Move(Record())), oldID, newID)
      ensures oldID != newID ==> itemID != oldID && oldParentID != Under(oldID) && newParentID != Under(oldID)
    {
      if itemID == oldID {
        itemID := newID;
      }
      if oldParentID == Under(oldID) {
        oldParentID := Under(newID);
      }
      if newParentID == Under(oldID) {
        newParentID := Under(newID);
      }
    }
  }

  class EditorModifyPropertyCommand {
    var itemID: nat
    const itemName: string
    const oldState: Item
    var newState: Item
    const propertyId: Option<(nat, string)>
    var creationTime: int
    var skipFirstRedo: bool

    constructor (m: ModifyProperty)
      ensures Record() == m
    {
      itemID, itemName, oldState, newState := m.itemID, m.itemName, m.oldState, m.newState;
      propertyId, creationTime, skipFirstRedo := m.propertyId, m.created, m.skipFirstRedo;
    }

    function Record(): ModifyProperty
      reads this
    {
      ModifyProperty(itemID, itemName, oldState, newState, propertyId, creationTime, skipFirstRedo)
    }

    method Undo(u: Unit) returns (u': Unit)
      ensures (u', Modify(Record())) == UndoCommand(Modify(Record()), u)
    {
      u' := u.(forest := SetValue(u.forest, itemID, oldState));
    }

    method Redo(u: Unit) returns (u': Unit)
      modifies this`skipFirstRedo
      ensures (u', Modify(Record())) == RedoCommand(old(Modify(Record())), u)
      ensures Distinct(u.forest) && Find(u.forest, itemID).Tree? && Find(u.forest, itemID).value == oldState ==>
                UndoCommand(Modify(Record()), u').0 == u
    {
      if Distinct(u.forest) {
        SetValueFacts(u.forest, itemID, newState);
      }
      if skipFirstRedo {
        skipFirstRedo := false;
        return u;
      }
      u' := u.(forest := SetValue(u.forest, itemID, newState));
    }

    method RemapItemID(oldID: nat, newID: nat)
      modifies this`itemID
      ensures Modify(Record()) == EditorCommands.RemapItemID(old(Modify(Record())), oldID, newID)
      ensures oldID != newID ==> itemID != oldID
    {
      if itemID == oldID {
        itemID := newID;
      }
    }

    method MergeWith(other: Command, now: int) returns (merged: bool)
      modifies this`newState, this`creationTime
      ensures merged == EditorCommands.MergeWith(old(Modify(Record())), other, now).Some?
      ensures Modify(Record()) ==
              if merged then EditorCommands.MergeWith(old(Modify(Record())), other, now).value else old(Modify(Record()))
      ensures merged ==> forall f: Items :: Distinct(f) ==>
                SetValue(SetValue(f, itemID, old(newState)), itemID, other.edit.newState) == SetValue(f, itemID, newState)
    {
      if propertyId.None? {
        return false;
      }
      if !other.Modify? {
        return false;
      }
      if propertyId != other.edit.propertyId {
        return false;
      }
      if now - creationTime > MERGE_TIMEOUT_MS {
        return false;
      }
      forall f: Items | Distinct(f)
        ensures SetValue(SetValue(f, itemID, newState), itemID, other.edit.newState) == SetValue(f, itemID, other.edit.newState)
      {
        SetValueFacts(f, itemID, newState);
      }
      newState := other.edit.newState;
      creationTime := now;
      return true;
    }
  }

  class EditorToggleActiveCommand {
    var itemID: nat
    const oldActiveState: bool
    const newActiveState: bool
    var skipFirstRedo: bool

    constructor (t: ToggleActive)
      ensures Record() == t
    {
      itemID, oldActiveState, newActiveState, skipFirstRedo := t.itemID, t.oldActive, t.newActive, t.skipFirstRedo;
    }

    function Record(): ToggleActive
      reads this
    {
      ToggleActive(itemID, oldActiveState, newActiveState, skipFirstRedo)
    }

    method Undo(u: Unit) returns (u': Unit)
      ensures (u', Toggle(Record())) == UndoCommand(Toggle(Record()), u)
    {
      u' := u.(forest := SetActive(u.forest, itemID, oldActiveState));
    }

    method Redo(u: Unit) returns (u': Unit)
      modifies this`skipFirstRedo
      ensures (u', Toggle(Record())) == RedoCommand(old(Toggle(Record())), u)
      ensures Distinct(u.forest) && Find(u.forest, itemID).Tree? && Find(u.forest, itemID).value.active == oldActiveState ==>
                UndoCommand(Toggle(Record()), u').0 == u
    {
      if Distinct(u.forest) && Find(u.forest, itemID).Tree? {
        SetValueFacts(u.forest, itemID, Find(u.forest, itemID).value.(active := newActiveState));
      }
      if skipFirstRedo {
        skipFirstRedo := false;
        return u;
      }
      u' := u.(forest := SetActive(u.forest, itemID, newActiveState));
    }

    method RemapItemID(oldID: nat, newID: nat)
      modifies this`itemID
      ensures Toggle(Record()) == EditorCommands.RemapItemID(old(Toggle(Record())), oldID, newID)
      ensures oldID != newID ==> itemID != oldID
    {
      if itemID == oldID {
        itemID := newID;
      }
    }
  }
}
