/** Where the undo stack's promise ends: a delete whose inner item an older command names. */
module UndoLimits {
  import opened Collections
  import opened Forests
  import opened EditorCommands
  import opened DeletedSubtrees
  import opened UndoStack
  import opened UndoHistory
  import opened UndoRuns

  const FOLDER := Item("folder", true, "")
  const BEFORE := Item("alias", true, "old")
  const AFTER := Item("alias", true, "new")

  /** A folder with one alias in it. */
  function Start(): Unit {
    Unit(Tree(1, FOLDER, Tree(2, BEFORE, End, End), End), 2)
  }

  /** The alias was edited, then the folder deleted with it inside. */
  function EditedThenDeleted(): Stack {
    var s := Fresh(Start());
    var (u1, c1) := Edited(s.unit, ModifyEdit(2, AFTER, None, 0));
    var s1 := PushCommand(s, u1, c1, 0);
    var (u2, c2) := Edited(s1.unit, DeleteEdit(Folder()));
    PushCommand(s1, u2, c2, 0)
  }

  function Folder(): seq<Entry> {
    [Entry(1, Root, 0, Tree(1, FOLDER, Tree(2, AFTER, End, End), End), "folder")]
  }

  lemma {:induction false} FolderTops()
    ensures Tops(Folder()) == [0]
  {
    assert IsTop(Folder(), 0);
    assert TopsBelow(Folder(), 0) == [];
    assert TopsBelow(Folder(), 1) == [] + [0];
  }

  lemma {:induction false} TheTwoPushes()
    ensures var f := Tree(1, FOLDER, Tree(2, AFTER, End, End), End);
            var s := EditedThenDeleted();
            && s.unit == Unit(End, 2) && s.index == 2 && |s.commands| == 2 && |s.pushed| == 3
            && s.commands[0] == Modify(ModifyProperty(2, "alias", BEFORE, AFTER, None, 0, false))
            && s.commands[1] == Delete(DeleteItem(RecordedAll(Folder()), []))
            && s.pushed[0] == Strip(Start().forest)
            && WellRecorded(Folder(), f)
  {
    var f := Tree(1, FOLDER, Tree(2, AFTER, End, End), End);
    var s := Fresh(Start());
    var (u1, c1) := Edited(s.unit, ModifyEdit(2, AFTER, None, 0));
    assert u1 == Unit(f, 2);
    var s1 := PushCommand(s, u1, c1, 0);
    FolderTops();
    var es := Folder();
    assert Find(f, 1) == f && Remove(f, 1) == End;
    assert [0][1..] == [];
    assert Taken(f, es, [0]) == Taken(End, es, []) == End;
    assert TakenTruly(f, es, [0]);
    var (u2, c2) := Edited(s1.unit, DeleteEdit(es));
    assert u2 == Unit(End, 2);
    FirstRedoFindsNothing(es, f);
    assert RedoCommand(c2, u2) == (u2, c2);
  }

  /** The folder comes back as item 3, the alias as item 4, and only the folder's change is reported. */
  lemma {:induction false} TheFolderComesBack()
    ensures var d := DeleteItem(RecordedAll(Folder()), []);
            var (u, d') := UndoDelete(d, Unit(End, 2));
            && u == Unit(Tree(3, FOLDER, Tree(4, AFTER, End, End), End), 4) && d'.idChanges == [(1, 3)]
  {
    var es := RecordedAll(Folder());
    FolderTops();
    assert IDs(es) == IDs(Folder());
    SameTopsBelow(es, Folder(), 1);
    assert Tops(es) == [0];
    var w := FiledBelow(es, 1);
    assert FiledBelow(es, 0) == map[];
    assert w == map[Root := [0]];
    var r := Restoring(Unit(End, 2), es, w, []);
    var t := Tree(1, FOLDER, Tree(2, AFTER, End, End), End);
    assert es[0].snapshot == Strip(t) == Tree(0, FOLDER, Tree(0, AFTER, End, End), End);
    assert Size(es[0].snapshot) == 2;
    assert Number(es[0].snapshot, 2) == Tree(3, FOLDER, Tree(4, AFTER, End, End), End);
    var r1 := RestoreTop(r, 0);
    assert r1.unit == Unit(Tree(3, FOLDER, Tree(4, AFTER, End, End), End), 4);
    assert r1.changes == [(1, 3)];
    assert [0][..0] == [];
    assert RestoreTops(r, [0]) == RestoreTops(r1, []) == r1;
  }

  ghost predicate BothPushed(s: Stack) {
    && Shaped(s) && s.unit == Unit(End, 2) && s.index == 2 && |s.commands| == 2
    && s.commands[0] == Modify(ModifyProperty(2, "alias", BEFORE, AFTER, None, 0, false))
    && s.commands[1] == Delete(DeleteItem(RecordedAll(Folder()), []))
  }

  lemma {:induction false} TheFirstUndo(s: Stack)
    requires BothPushed(s)
    ensures var s2 := Step(s, Undo([]));
            && s2.unit == Unit(Tree(3, FOLDER, Tree(4, AFTER, End, End), End), 4) && s2.index == 1
            && |s2.commands| == 2 && s2.commands[0] == s.commands[0] && s2.pushed == s.pushed
  {
    hide *;
    TheFirstUndoBase(s);
    UndoAlone(s);
    NotRemapped();
  }

  lemma {:induction false} TheFirstUndoBase(s: Stack)
    requires BothPushed(s)
    ensures Shaped(s) && s.index == 2 && |s.commands| == 2
    ensures s.commands[0] == Modify(ModifyProperty(2, "alias", BEFORE, AFTER, None, 0, false))
    ensures UndoBase(s).0.unit == Unit(Tree(3, FOLDER, Tree(4, AFTER, End, End), End), 4) && UndoBase(s).1 == [(1, 3)]
  {
    TheFolderComesBack();
  }

  lemma {:induction false} UndoAlone(s: Stack)
    requires Shaped(s) && s.index > 0
    ensures var (s', k) := (Step(s, Undo([])), s.index - 1);
            && s'.unit == UndoBase(s).0.unit && s'.index == k && s'.pushed == s.pushed && |s'.commands| == |s.commands|
            && forall j :: 0 <= j < k ==> s'.commands[j] == RemapCommand(s.commands[j], UndoBase(s).1)
  {
  }

  lemma {:induction false} NotRemapped()
    ensures var c := Modify(ModifyProperty(2, "alias", BEFORE, AFTER, None, 0, false));
            RemapCommand(c, [(1, 3)]) == c
  {
    assert [(1 as nat, 3 as nat)][1..] == [];
  }

  lemma {:induction false} TheSecondUndo(s: Stack)
    requires Shaped(s) && s.unit == Unit(Tree(3, FOLDER, Tree(4, AFTER, End, End), End), 4) && s.index == 1
    requires |s.commands| == 2
    requires s.commands[0] == Modify(ModifyProperty(2, "alias", BEFORE, AFTER, None, 0, false))
    ensures Step(s, Undo([])).unit == s.unit && Step(s, Undo([])).index == 0
  {
    assert SetValue(s.unit.forest, 2, BEFORE) == s.unit.forest;
  }

  lemma {:induction false} TwoSteps(s: Stack, e: Event)
    requires Shaped(s)
    ensures Run(s, [e, e]) == Step(Step(s, e), e)
  {
    assert [e, e][1..] == [e] && [e][1..] == [];
    assert Run(s, [e, e]) == Run(Step(s, e), [e]) == Run(Step(Step(s, e), e), []);
  }

  lemma {:induction false} OldTextDiffers()
    ensures Strip(Tree(3, FOLDER, Tree(4, AFTER, End, End), End)) != Strip(Start().forest)
  {
    var t: Items := Tree(3, FOLDER, Tree(4, AFTER, End, End), End);
    assert Strip(t).kids.value == AFTER && Strip(Start().forest).kids.value == BEFORE;
  }

  lemma {:induction false} PushesKnown(s: Stack)
    requires s == EditedThenDeleted()
    ensures BothPushed(s) && |s.pushed| == 3 && s.pushed[0] == Strip(Start().forest) && Shaped(s) && s.index == 2
    ensures |s.commands| == 2 && s.commands[0] == Modify(ModifyProperty(2, "alias", BEFORE, AFTER, None, 0, false))
  {
    TheTwoPushes();
  }

  /** Both pushes record the truth, but the older one names the deleted alias: after undoing everything the
      alias still has its new text. */
  lemma {:induction false} InnerItemLeftBehind()
    ensures var s := EditedThenDeleted();
            && Shaped(s) && s.index == 2 && |s.pushed| == 3 && s.pushed[0] == Strip(Start().forest)
            && Run(s, [Undo([]), Undo([])]).index == 0
            && Strip(Run(s, [Undo([]), Undo([])]).unit.forest) != s.pushed[0]
  {
    hide *;
    var s := EditedThenDeleted();
    PushesKnown(s);
    TheFirstUndo(s);
    StepShaped(s, Undo([]));
    TheSecondUndo(Step(s, Undo([])));
    TwoSteps(s, Undo([]));
    OldTextDiffers();
  }

  lemma {:induction false} StepShaped(s: Stack, e: Event)
    requires Shaped(s)
    ensures Shaped(Step(s, e))
  {
  }
}
