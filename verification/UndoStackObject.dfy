/** The undo stack as the object it is: push, undo and redo change the command list, the index and what the
    indexChanged handler remembers, and stored IDs are rewritten in place in loops. */
module UndoStackObject {
  import opened Collections
  import opened Forests
  import opened EditorCommands
  import opened DeletedSubtrees
  import opened UndoStack

  lemma {:induction false} RemapOneMoreChange(c: Command, changes: Changes, change: (nat, nat))
    ensures RemapCommand(c, changes + [change]) == RemapItemID(RemapCommand(c, changes), change.0, change.1)
    decreases |changes|
  {
    if changes == [] {
      assert changes + [change] == [change] && [change][1..] == [];
    } else {
      assert (changes + [change])[1..] == changes[1..] + [change];
      RemapOneMoreChange(RemapItemID(c, changes[0].0, changes[0].1), changes[1..], change);
    }
  }

  /** Each edit of a handler can be made, and is recorded truly, when its turn comes. */
  ghost predicate AllAccepted(s: Stack, es: seq<Edit>, pending: Changes)
    requires Shaped(s)
    decreases |es|
  {
    es == [] || (Accepted(s, es[0], pending) && AllAccepted(Perform(s, es[0], pending), es[1..], pending))
  }

  class EditorUndoStack {
    var unit: Unit
    var commands: seq<Command>
    var index: nat
    var previousIndex: nat
    var undoneDeleteIDChanges: Changes
    var inPushOperation: bool
    ghost var pushed: seq<Items>

    ghost function View(): Stack
      reads this
    {
      Stack(unit, commands, index, pushed)
    }

    ghost predicate Valid()
      reads this
    {
      Shaped(View()) && previousIndex == index && !inPushOperation
    }

    constructor (u: Unit)
      ensures Valid() && View() == Fresh(u)
    {
      unit, commands, index, previousIndex := u, [], 0, 0;
      undoneDeleteIDChanges, inPushOperation := [], false;
      pushed := [Strip(u.forest)];
    }

    method RemapItemIDs(oldID: nat, newID: nat)
      modifies this`commands
      ensures |commands| == old(|commands|)
      ensures forall k :: 0 <= k < |commands| ==> commands[k] == RemapItemID(old(commands[k]), oldID, newID)
    {
      ghost var was := commands;
      for i := 0 to |commands|
        invariant |commands| == |was|
        invariant forall k :: 0 <= k < |was| ==>
                    commands[k] == if k < i then RemapItemID(was[k], oldID, newID) else was[k]
      {
        commands := commands[i := RemapItemID(commands[i], oldID, newID)];
      }
    }

    method RemapEach(changes: Changes)
      modifies this`commands
      ensures commands == RemapAll(old(commands), changes)
    {
      ghost var was := commands;
      for i := 0 to |changes|
        invariant |commands| == |was|
        invariant forall k :: 0 <= k < |was| ==> commands[k] == RemapCommand(was[k], changes[..i])
      {
        assert changes[..i + 1] == changes[..i] + [changes[i]];
        forall k | 0 <= k < |was|
          ensures RemapCommand(was[k], changes[..i + 1])
                  == RemapItemID(RemapCommand(was[k], changes[..i]), changes[i].0, changes[i].1)
        {
          RemapOneMoreChange(was[k], changes[..i], changes[i]);
        }
        RemapItemIDs(changes[i].0, changes[i].1);
      }
      assert changes[..|changes|] == changes;
    }

    /** The indexChanged handler: what moved is read off the index it saw last, which it must keep up to date
        even during a push. An undone delete's changes are kept, as what listens may free the command. */
    method IndexChanged(newIndex: nat)
      modifies this`previousIndex, this`undoneDeleteIDChanges
      ensures previousIndex == newIndex
      ensures undoneDeleteIDChanges
              == var undone := old(previousIndex) - 1;
                 if !inPushOperation && newIndex <= undone < |commands| && commands[undone].Delete?
                 then commands[undone].del.idChanges else old(undoneDeleteIDChanges)
    {
      if inPushOperation {
        previousIndex := newIndex;
        return;
      }
      var affected: int := -1;
      if newIndex > previousIndex {
        affected := newIndex - 1;
      } else if newIndex < previousIndex {
        affected := previousIndex - 1;
      }
      var undone := newIndex < previousIndex;
      previousIndex := newIndex;
      if 0 <= affected < |commands| && undone && commands[affected].Delete? {
        undoneDeleteIDChanges := commands[affected].del.idChanges;
      }
    }

    /** pushCommand(): `u` is the unit after the user's action. */
    method PushCommand(u: Unit, c: Command, now: int)
      requires Valid()
      modifies this
      ensures Valid() && View() == UndoStack.PushCommand(old(View()), u, c, now)
      ensures undoneDeleteIDChanges == old(undoneDeleteIDChanges)
    {
      inPushOperation := true;
      var (u', c') := RedoCommand(c, u);
      unit := u';
      ghost var shown := Strip(u'.forest);
      DropUndone();
      var merged: Option<Command> := None;
      if index > 0 {
        merged := MergeWith(commands[index - 1], c', now);
      }
      if merged.Some? {
        commands := commands[index - 1 := merged.value];
        pushed := pushed[..index] + [shown];
      } else {
        Append(c', shown);
      }
      IndexChanged(index);
      inPushOperation := false;
    }

    /** What was undone is dropped. */
    method DropUndone()
      requires index <= |commands|
      modifies this`commands
      ensures commands == old(commands)[..index]
    {
      ghost var was := commands;
      while |commands| > index
        invariant index <= |commands| <= |was| && commands == was[..|commands|]
        modifies this`commands
      {
        commands := commands[..|commands| - 1];
      }
    }

    /** A new step, and the oldest one dropped past the limit. */
    method Append(c: Command, ghost shown: Items)
      requires index == |commands| <= UNDO_LIMIT && |pushed| > index
      modifies this`commands, this`index, this`pushed
      ensures View() == Limited(Stack(unit, old(commands) + [c], old(index) + 1, old(pushed)[..old(index) + 1] + [shown]))
    {
      commands := commands + [c];
      pushed := pushed[..index + 1] + [shown];
      if |commands| > UNDO_LIMIT {
        commands := commands[1..];
        index := index - 1;
        pushed := pushed[1..];
      }
      index := index + 1;
    }

    /** What listens to itemsChanged may edit and push, in the middle of an undo or redo. */
    method HandleItemsChanged(handler: seq<Edit>, ghost pending: Changes)
      requires Valid() && AllAccepted(View(), handler, pending)
      modifies this
      ensures Valid() && View() == PerformAll(old(View()), handler, pending)
      ensures undoneDeleteIDChanges == old(undoneDeleteIDChanges)
    {
      ghost var goal := PerformAll(View(), handler, pending);
      for i := 0 to |handler|
        invariant Valid() && AllAccepted(View(), handler[i..], pending)
        invariant PerformAll(View(), handler[i..], pending) == goal
        invariant undoneDeleteIDChanges == old(undoneDeleteIDChanges)
      {
        assert handler[i..][1..] == handler[i + 1..];
        var (u, c) := Edited(unit, handler[i]);
        PushCommand(u, c, if c.Modify? then c.edit.created else 0);
      }
    }

    /** The base class's undo(), with the indexChanged it emits. */
    method BaseUndo()
      requires Valid() && index > 0
      modifies this
      ensures Valid() && View() == UndoBase(old(View())).0
      ensures undoneDeleteIDChanges
              == if old(commands[index - 1]).Delete? then UndoBase(old(View())).1 else old(undoneDeleteIDChanges)
    {
      var k := index - 1;
      var (u, c) := UndoCommand(commands[k], unit);
      unit, commands, index := u, commands[k := c], k;
      IndexChanged(k);
    }

    method BaseRedo() returns (idChanges: Changes)
      requires Valid() && index < |commands|
      modifies this
      ensures Valid() && View() == RedoBase(old(View())).0 && idChanges == RedoBase(old(View())).1
    {
      var k := index;
      var (u, c) := RedoCommand(commands[k], unit);
      unit, commands, index := u, commands[k := c], k + 1;
      IndexChanged(k + 1);
      idChanges := if c.Add? then c.add.idChanges else [];
    }

    method Undo(handler: seq<Edit>)
      requires Valid()
      requires index > 0 ==> AllAccepted(UndoBase(View()).0, handler, UndoBase(View()).1)
      modifies this
      ensures Valid() && View() == Step(old(View()), Event.Undo(handler))
    {
      if index > 0 {
        undoneDeleteIDChanges := [];
        ghost var pending := UndoBase(View()).1;
        BaseUndo();
        HandleItemsChanged(handler, pending);
        var changes := undoneDeleteIDChanges;
        undoneDeleteIDChanges := [];
        RemapEach(changes);
      }
    }

    method Redo(handler: seq<Edit>)
      requires Valid()
      requires index < |commands| ==> AllAccepted(RedoBase(View()).0, handler, RedoBase(View()).1)
      modifies this
      ensures Valid() && View() == Step(old(View()), Event.Redo(handler))
    {
      if index < |commands| {
        var changes := BaseRedo();
        HandleItemsChanged(handler, changes);
        RemapEach(changes);
      }
    }

    method FinishAddingItem(itemID: nat)
      requires Valid()
      modifies this`commands
      ensures Valid() && View() == Step(old(View()), FinishAdding(itemID))
    {
      ghost var goal := FinishBelow(commands, index, itemID);
      var i := index;
      while i > 0
        invariant 0 <= i <= index <= |commands| == old(|commands|)
        invariant FinishBelow(commands, i, itemID) == goal
      {
        i := i - 1;
        commands := commands[i := Finished(commands[i], itemID)];
      }
    }
  }
}
