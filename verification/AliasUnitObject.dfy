/** The alias unit as the object it is: its queues, switches and lists changed in place, in loops. */
module AliasUnitObject {
  import opened Collections
  import opened Forests
  import opened AliasUnits
  import opened DeferredDeletes
  import opened AliasSafety
  import opened AliasRuns

  class AliasUnit {
    var aliases: Aliases
    var maxID: nat
    var lookupTable: seq<nat>
    var wanted: set<nat>
    var active: set<nat>
    var cleanupSet: set<nat>
    var uninstallList: seq<nat>
    var processingDepth: nat
    var runawayExpansionStopped: bool
    ghost var freed: seq<nat>
    ghost var faulted: bool
    ghost var grafted: bool
    ghost var regrown: bool
    ghost var deepest: nat
    ghost var passes: nat
    ghost var sent: nat

    ghost function View(): Unit
      reads this
    {
      Unit(aliases, maxID, lookupTable, wanted, active, cleanupSet, uninstallList, processingDepth,
           runawayExpansionStopped, freed, faulted, grafted, regrown, deepest, passes, sent)
    }

    constructor ()
      ensures View() == NoAliases() && Sound(View())
    {
      aliases, maxID, lookupTable, wanted, active, cleanupSet, uninstallList := End, 0, [], {}, {}, {}, [];
      processingDepth, runawayExpansionStopped := 0, false;
      freed, faulted, grafted, regrown, deepest, passes, sent := [], false, false, false, 0, 0, 0;
    }

    method SetActive(id: nat, on: bool)
      modifies this`wanted, this`active
      ensures View() == SetIsActive(old(View()), id, on)
    {
      wanted := if on then wanted + {id} else wanted - {id};
      var item := Find(aliases, id);
      active := if on && item.Tree? && item.value.ok then active + {id} else active - {id};
    }

    predicate IsQueued(id: nat)
      reads this
    {
      id in cleanupSet || id in uninstallList
    }

    /** By the lookup table: the first same-named alias that can be killed is, and the search ends there. */
    method KillAlias(name: string) returns (killed: bool)
      modifies this`wanted, this`active, this`cleanupSet
      ensures (View(), killed) == KillFrom(old(View()), lookupTable, name)
    {
      var topLevel := Roots(aliases);
      killed := false;
      var i := 0;
      while i < |lookupTable|
        invariant i <= |lookupTable| && View() == old(View())
        invariant KillFrom(View(), lookupTable, name) == KillFrom(View(), lookupTable[i..], name)
      {
        var id := lookupTable[i];
        var item := Find(aliases, id);
        if item.Tree? && item.value.name == name {
          if id in topLevel && item.value.temporary && !IsQueued(id) {
            SetActive(id, false);
            cleanupSet := cleanupSet + {id};
            return true;
          }
        }
        assert lookupTable[i..][1..] == lookupTable[i + 1..];
        i := i + 1;
      }
    }

    method EnableAlias(name: string) returns (found: bool)
      modifies this`wanted, this`active
      ensures (View(), found) == EnableFrom(old(View()), lookupTable, name)
    {
      found := false;
      ghost var goal := EnableFrom(View(), lookupTable, name);
      for i := 0 to |lookupTable|
        invariant aliases == old(aliases) && cleanupSet == old(cleanupSet) && uninstallList == old(uninstallList)
        invariant goal.0 == EnableFrom(View(), lookupTable[i..], name).0
        invariant goal.1 == (found || EnableFrom(View(), lookupTable[i..], name).1)
      {
        var id := lookupTable[i];
        var item := Find(aliases, id);
        assert lookupTable[i..][1..] == lookupTable[i + 1..];
        if item.Tree? && item.value.name == name && !IsQueued(id) {
          SetActive(id, true);
          found := true;
        }
      }
    }

    method DisableAlias(name: string) returns (found: bool)
      modifies this`wanted, this`active
      ensures (View(), found) == DisableFrom(old(View()), lookupTable, name)
    {
      found := false;
      ghost var goal := DisableFrom(View(), lookupTable, name);
      for i := 0 to |lookupTable|
        invariant aliases == old(aliases)
        invariant goal.0 == DisableFrom(View(), lookupTable[i..], name).0
        invariant goal.1 == (found || DisableFrom(View(), lookupTable[i..], name).1)
      {
        var id := lookupTable[i];
        var item := Find(aliases, id);
        assert lookupTable[i..][1..] == lookupTable[i + 1..];
        if item.Tree? && item.value.name == name {
          SetActive(id, false);
          found := true;
        }
      }
    }

    method RemoveAllTempAliases()
      modifies this`wanted, this`active, this`cleanupSet
      ensures View() == RemoveTempsFrom(old(View()), Roots(aliases))
    {
      var roots := Roots(aliases);
      ghost var goal := RemoveTempsFrom(View(), roots);
      for i := 0 to |roots|
        invariant goal == RemoveTempsFrom(View(), roots[i..])
      {
        assert roots[i..][1..] == roots[i + 1..];
        var item := Find(aliases, roots[i]);
        if item.Tree? && item.value.temporary {
          SetActive(roots[i], false);
          cleanupSet := cleanupSet + {roots[i]};
        }
      }
    }

    /** `delete`: the destructor unregisters the alias and takes what is below it along. */
    method DeleteAlias(id: nat)
      modifies this`aliases, this`lookupTable, this`wanted, this`active, this`freed, this`faulted
      ensures View() == Delete(old(View()), id)
    {
      var gone := Find(aliases, id);
      if gone.Tree? {
        var keys := Keys(gone);
        aliases := Remove(aliases, id);
        lookupTable := Without(lookupTable, keys);
        wanted, active := wanted - keys, active - keys;
        freed := freed + Postorder(gone);
      } else {
        faulted := true;
      }
    }

    method SwitchOffListed()
      modifies this`wanted, this`active, this`cleanupSet
      ensures View() == DeactivateAll(old(View()), uninstallList).(cleanupSet := old(cleanupSet) - Elements(uninstallList))
    {
      for i := 0 to |uninstallList|
        invariant wanted == old(wanted) - Elements(uninstallList[..i])
        invariant active == old(active) - Elements(uninstallList[..i])
        invariant cleanupSet == old(cleanupSet) - Elements(uninstallList[..i])
      {
        var id := uninstallList[i];
        assert uninstallList[..i + 1] == uninstallList[..i] + [id];
        SetActive(id, false);
        cleanupSet := cleanupSet - {id};
      }
      assert uninstallList[..|uninstallList|] == uninstallList;
    }

    method Uninstall(package: string)
      modifies this
      ensures View() == UninstallPackage(old(View()), package)
    {
      ghost var start, listing := View(), Collected(aliases, package);
      uninstallList := ListPackage(aliases, package, uninstallList);
      if processingDepth > 0 {
        regrown := regrown || Regrowth(start, listing);
        SwitchOffListed();
        return;
      }
      cleanupSet := cleanupSet - Elements(uninstallList);
      DeletesKeepList(start.(cleanupSet := cleanupSet), uninstallList, uninstallList);
      DeleteAllListed();
    }

    method DeleteAllListed()
      modifies this
      ensures View() == DeleteEach(old(View()), old(uninstallList)).(uninstallList := [])
    {
      ghost var listed, goal := uninstallList, DeleteEach(View(), uninstallList);
      for i := 0 to |uninstallList|
        invariant uninstallList == listed && goal == DeleteEach(View(), listed[i..])
      {
        assert listed[i..][1..] == listed[i + 1..];
        DeleteAlias(uninstallList[i]);
      }
      uninstallList := [];
    }

    /** Drains the set in no particular order, then the list, freeing no pointer twice. */
    method DoCleanup() returns (ghost order: seq<nat>)
      modifies this
      ensures NoRepeats(order) && (processingDepth == 0 ==> Elements(order) == old(cleanupSet))
      ensures View() == CleanupIn(old(View()), order)
    {
      order := [];
      if processingDepth > 0 {
        return;
      }
      if cleanupSet == {} && uninstallList == [] {
        return;
      }
      var deleted: set<nat> := {};
      var left := cleanupSet;
      cleanupSet := {};
      ghost var start := View();
      while left != {}
        invariant NoRepeats(order) && Elements(order) == deleted && deleted + left == old(cleanupSet) && deleted !! left
        invariant View() == DeleteEach(start, order)
        decreases left
      {
        var id :| id in left;
        left := left - {id};
        deleted := deleted + {id};
        DeleteAlias(id);
        DeleteOneMore(start, order, id);
        order := order + [id];
      }
      DeletesKeepQueues(start, order);
      FlushListed(deleted);
    }

    /** The list, freeing no pointer twice. */
    method FlushListed(seen: set<nat>)
      modifies this
      ensures View() == DeleteUnseen(old(View()), old(uninstallList), seen).(uninstallList := [])
    {
      var deleted := seen;
      ghost var list, goal := uninstallList, DeleteUnseen(View(), uninstallList, deleted);
      for i := 0 to |uninstallList|
        invariant uninstallList == list && goal == DeleteUnseen(View(), list[i..], deleted)
      {
        var id := uninstallList[i];
        assert list[i..][1..] == list[i + 1..];
        if id !in deleted {
          deleted := deleted + {id};
          DeleteAlias(id);
        }
      }
      uninstallList := [];
    }
  }

  lemma {:induction false} DeleteOneMore(s: Unit, ids: seq<nat>, id: nat)
    ensures DeleteEach(s, ids + [id]) == Delete(DeleteEach(s, ids), id)
    decreases |ids|
  {
    if ids == [] {
      assert ids + [id] == [id] && [id][1..] == [];
    } else {
      assert (ids + [id])[1..] == ids[1..] + [id];
      DeleteOneMore(Delete(s, ids[0]), ids[1..], id);
    }
  }

  lemma {:induction false} DeletesKeepQueues(s: Unit, ids: seq<nat>)
    ensures DeleteEach(s, ids).cleanupSet == s.cleanupSet && DeleteEach(s, ids).uninstallList == s.uninstallList
    decreases |ids|
  {
    if ids != [] {
      DeletesKeepQueues(Delete(s, ids[0]), ids[1..]);
    }
  }

  /** Deleting does not look at the list. */
  lemma {:induction false} DeletesKeepList(s: Unit, l: seq<nat>, ids: seq<nat>)
    ensures DeleteEach(s, ids).(uninstallList := []) == DeleteEach(s.(uninstallList := l), ids).(uninstallList := [])
    decreases |ids|
  {
    if ids != [] {
      assert Delete(s.(uninstallList := l), ids[0]) == Delete(s, ids[0]).(uninstallList := l);
      DeletesKeepList(Delete(s, ids[0]), l, ids[1..]);
    }
  }
}
