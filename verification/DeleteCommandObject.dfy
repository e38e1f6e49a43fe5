/** The delete command as the object it is: undo() and redo() rewrite its entries and its list of ID changes
    in place, in loops. Each is proved to do what the value-level operations of EditorCommands describe. */
module DeleteCommandObject {
  import opened Forests
  import opened EditorCommands

  class EditorDeleteItemCommand {
    var deletedItems: seq<Entry>
    var idChanges: Changes

    function Record(): DeleteItem
      reads this
    {
      DeleteItem(deletedItems, idChanges)
    }

    constructor (items: seq<Entry>)
      ensures Record() == DeleteItem(items, [])
    {
      deletedItems, idChanges := items, [];
    }

    /** Entries whose parent is not itself deleted, in list order. */
    method Topmost() returns (topmost: seq<nat>)
      ensures topmost == Tops(deletedItems)
    {
      var deletedIDs: set<nat> := {};
      for i := 0 to |deletedItems|
        invariant deletedIDs == set j | 0 <= j < i :: deletedItems[j].itemID
      {
        deletedIDs := deletedIDs + {deletedItems[i].itemID};
      }
      topmost := [];
      for i := 0 to |deletedItems|
        invariant topmost == TopsBelow(deletedItems, i)
      {
        var parent := deletedItems[i].parent;
        if parent.Root? || parent.key !in deletedIDs {
          topmost := topmost + [i];
        }
      }
    }

    method ChildEntries() returns (childEntries: Waiting)
      ensures childEntries == FiledBelow(deletedItems, |deletedItems|)
    {
      childEntries := map[];
      for i := 0 to |deletedItems|
        invariant childEntries == FiledBelow(deletedItems, i)
      {
        var p := deletedItems[i].parent;
        childEntries := childEntries[p := (if p in childEntries then childEntries[p] else []) + [i]];
      }
    }

    method AdoptRestoredChildren(oldParent: nat, newParent: nat, waiting: Waiting, f: Items) returns (left: Waiting)
      requires Indexed(waiting, |deletedItems|)
      modifies this`deletedItems
      ensures |deletedItems| == old(|deletedItems|) && left.Keys <= waiting.Keys && Indexed(left, |deletedItems|)
      ensures (deletedItems, left) == Adopt(old(deletedItems), waiting, f, oldParent, newParent)
      decreases waiting.Keys
    {
      if Under(oldParent) !in waiting {
        return waiting;
      }
      var entries := waiting[Under(oldParent)];
      left := waiting - {Under(oldParent)};
      ghost var n, goal := |deletedItems|, AdoptEach(deletedItems, left, f, newParent, entries);
      var children := ChildrenOf(f, newParent);
      var k := 0;
      while k < |entries|
        invariant k <= |entries| && |deletedItems| == n
        invariant left.Keys <= waiting.Keys - {Under(oldParent)} && Indexed(left, n)
        invariant AdoptEach(deletedItems, left, f, newParent, entries[k..]) == goal
      {
        var i := entries[k];
        assert entries[k..][1..] == entries[k + 1..];
        var info := deletedItems[i].(parent := Under(newParent));
        if info.position < |children| && children[info.position].1.name == info.itemName {
          var child := children[info.position].0;
          deletedItems := deletedItems[i := info.(itemID := child)];
          left := AdoptRestoredChildren(info.itemID, child, left, f);
        } else {
          deletedItems := deletedItems[i := info];
        }
        k := k + 1;
      }
    }

    method RestoreTopmost(i: nat, u: Unit, waiting: Waiting) returns (u': Unit, left: Waiting)
      requires i < |deletedItems| && Indexed(waiting, |deletedItems|)
      modifies this
      ensures |deletedItems| == old(|deletedItems|) && Indexed(left, |deletedItems|)
      ensures Restoring(u', deletedItems, left, idChanges)
              == RestoreTop(Restoring(u, old(deletedItems), waiting, old(idChanges)), i)
    {
      var info := deletedItems[i];
      if info.snapshot.End? {
        return u, waiting;
      }
      var tree := Number(info.snapshot, u.maxID);
      var item := tree.(rest := End);
      u' := Unit(Insert(u.forest, info.parent, info.position, item), u.maxID + Size(info.snapshot));
      deletedItems := deletedItems[i := info.(itemID := item.key)];
      if item.key != info.itemID {
        idChanges := idChanges + [(info.itemID, item.key)];
      }
      left := AdoptRestoredChildren(info.itemID, item.key, waiting, u'.forest);
    }

    /** Restores the topmost entries last to first, and every entry below them to its recreated item. */
    method Undo(u: Unit) returns (u': Unit)
      modifies this
      ensures (u', Record()) == UndoDelete(old(Record()), u)
    {
      idChanges := [];
      var waiting := ChildEntries();
      var topmost := Topmost();
      u' := u;
      ghost var goal := RestoreTops(Restoring(u, deletedItems, waiting, []), topmost);
      var k := |topmost|;
      assert topmost[..k] == topmost;
      while k > 0
        invariant 0 <= k <= |topmost| && |deletedItems| == old(|deletedItems|) && Indexed(waiting, |deletedItems|)
        invariant RestoreTops(Restoring(u', deletedItems, waiting, idChanges), topmost[..k]) == goal
      {
        k := k - 1;
        assert topmost[..k + 1][..k] == topmost[..k];
        u', waiting := RestoreTopmost(topmost[k], u', waiting);
      }
    }

    /** Deletes each topmost item that is still there under its recorded name. */
    method Redo(u: Unit) returns (u': Unit)
      ensures u' == RedoDelete(Record(), u)
    {
      var topmost := Topmost();
      var f := u.forest;
      ghost var goal := DeleteListed(f, deletedItems, topmost);
      for k := 0 to |topmost|
        invariant DeleteListed(f, deletedItems, topmost[k..]) == goal
      {
        assert topmost[k..][1..] == topmost[k + 1..];
        var info := deletedItems[topmost[k]];
        var item := Find(f, info.itemID);
        if item.Tree? && item.value.name == info.itemName {
          f := Remove(f, info.itemID);
        }
      }
      u' := u.(forest := f);
    }

    method RemapItemID(oldID: nat, newID: nat)
      modifies this`deletedItems
      ensures Delete(Record()) == EditorCommands.RemapItemID(old(Delete(Record())), oldID, newID)
    {
      ghost var was := deletedItems;
      for i := 0 to |deletedItems|
        invariant |deletedItems| == |was|
        invariant forall j :: 0 <= j < |was| ==>
                    deletedItems[j] == if j < i then RemapEntry(was[j], oldID, newID) else was[j]
      {
        deletedItems := deletedItems[i := RemapEntry(deletedItems[i], oldID, newID)];
      }
      assert deletedItems == RemapEntries(was, oldID, newID);
    }
  }
}
