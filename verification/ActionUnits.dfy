/** Button actions that scripts uninstall while they run. As with aliases, deletion waits until no script is on the call
    stack; but ending a script deletes nothing by itself, so what was queued may stay queued at depth zero.

    An action is told by what an alias is told by, and the operations on forests of aliases serve for both. */
module ActionUnits {
  import opened Collections
  import opened Forests
  import opened AliasUnits
  import opened DeferredDeletes
  import opened AliasSafety
  import opened AliasRuns

  /** The unit, and the actions whose scripts are on the call stack, the outermost first. */
  datatype Actions = Actions(unit: Unit, running: seq<nat>)

  /** An action's script begins, and the last one begun ends, in any nesting; packages are installed and uninstalled,
      buttons put on toolbars, and cleanups tried, at any time. */
  datatype Event =
    | Begin(id: nat)
    | End_
    | Cleanup
    | Uninstall(package: string)
    | Install(package: string, items: Aliases)
    | NewButton(toolbar: string, name: string)

  function CleanupActions(s: Unit): Unit {
    if s.depth > 0 || s.uninstallList == [] then s
    else DeleteUnseen(s, s.uninstallList, {}).(uninstallList := [])
  }

  function ListActions(s: Unit, package: string): Unit {
    var listing := Collected(s.forest, package);
    s.(uninstallList := s.uninstallList + listing, regrown := s.regrown || Regrowth(s, listing))
  }

  function UninstallActions(s: Unit, package: string): Unit {
    var listed := ListActions(s, package);
    if s.depth > 0 then DeactivateAll(listed, listed.uninstallList) else CleanupActions(listed)
  }

  /** The map of actions is in the order of their IDs. */
  function Registered(s: Unit, r: Unit, t: Aliases): Unit {
    r.(lookup := s.lookup + Preorder(t))
  }

  function InstallActions(s: Unit, package: string, items: Aliases): Unit {
    var value := Alias(package, package, false, true, true);
    Registered(s, AddRoot(s, value, items), Number(Tree(0, value, items, End), s.maxID))
  }

  /** tempButton(): below the first action of that name, queued or not, if that is a folder, and no action has the new
      name yet. */
  function AddButton(s: Unit, toolbar: string, name: string): Unit {
    var found, value := FirstNamed(s.forest, s.lookup, toolbar), Alias(name, "", false, false, true);
    if found.None? || FirstNamed(s.forest, s.lookup, name).Some? then s
    else if Find(s.forest, found.value).Tree? && Find(s.forest, found.value).value.folder then
      Registered(s, AddBelow(s, found.value, value), Tree(s.maxID + 1, value, End, End))
    else s
  }

  /** Ending a script, its action is used once more. */
  function Happen(s: Actions, e: Event): Actions {
    var u := s.unit;
    match e
    case Begin(id) =>
      if id in Keys(u.forest) then Actions(u.(depth := u.depth + 1), s.running + [id]) else s
    case End_ =>
      if s.running == [] || u.depth == 0 then s
      else
        var last := |s.running| - 1;
        Actions(u.(depth := u.depth - 1, faulted := u.faulted || s.running[last] !in Keys(u.forest)), s.running[..last])
    case Cleanup => s.(unit := CleanupActions(u))
    case Uninstall(package) => s.(unit := UninstallActions(u, package))
    case Install(package, items) => s.(unit := InstallActions(u, package, items))
    case NewButton(toolbar, name) => s.(unit := AddButton(u, toolbar, name))
  }

  function Run(s: Actions, es: seq<Event>): Actions
    decreases |es|
  {
    if es == [] then s else Run(Happen(s, es[0]), es[1..])
  }

  // ---- what every run keeps ----

  /** Whatever the depth; none is ever killed, so there is only the list. */
  ghost predicate Well(u: Unit) {
    && u.cleanupSet == {} && QueuesFit(u) && Standing(u) && Marked(u)
    && (forall k :: k in Keys(u.forest) ==> 0 < k <= u.maxID) && (forall x :: x in u.freed ==> x <= u.maxID)
  }

  /** The actions whose scripts run are there. */
  ghost predicate Held(s: Actions) {
    Well(s.unit) && s.unit.depth == |s.running| && AllIn(s.running, s.unit.forest)
  }

  /** Nothing goes but by being freed, and nothing is freed while a script runs. */
  ghost predicate Onward(u: Unit, r: Unit) {
    && u.freed <= r.freed && u.maxID <= r.maxID
    && (u.regrown ==> r.regrown) && (u.grafted ==> r.grafted)
    && (forall k :: k in Keys(u.forest) ==> k in Keys(r.forest) || k in r.freed)
    && (u.depth > 0 ==> r.freed == u.freed && Keys(u.forest) <= Keys(r.forest) && r.faulted == u.faulted)
  }

  /** A cleanup with no script running frees what is listed and what hangs below it; something is freed twice then just
      when something is first listed after an action it hangs below. */
  lemma {:induction false} CleanupFreesActions(u: Unit)
    requires Well(u) && u.depth == 0
    ensures var r := CleanupActions(u);
            && Well(r) && r.uninstallList == [] && r.depth == 0 && Onward(u, r)
            && (r.faulted <==> u.faulted || AnyLate(u.forest, u.uninstallList)) && r.regrown == u.regrown
            && Freed(u, r.(uninstallList := u.uninstallList), Doomed(u.forest, Elements(u.uninstallList)))
  {
    hide *;
    WellStands(u);
    CleanupIsAliases(u);
    NoElements();
    CleanupFrees(u, []);
    CleanupFaultsIff(u, []);
    FreedIsWell(u, CleanupActions(u), Doomed(u.forest, Elements(u.uninstallList)));
  }

  lemma {:induction false} NoElements()
    ensures Elements<nat>([]) == {} && NoRepeats<nat>([])
  {
  }

  /** With nothing killed, it is what the aliases' cleanup does. */
  lemma {:induction false} CleanupIsAliases(u: Unit)
    requires u.cleanupSet == {}
    ensures CleanupActions(u) == CleanupIn(u, [])
    ensures Queued(u) == Elements(u.uninstallList) && forall c, x :: !QueuedBelowKilled(u, c, x)
  {
    assert u.(cleanupSet := {}) == u;
  }

  lemma {:induction false} WellStands(u: Unit)
    requires Well(u)
    ensures QueuesFit(u) && Standing(u) && u.cleanupSet == {}
  {
  }

  lemma {:induction false} FreedIsWell(u: Unit, r: Unit, gone: set<nat>)
    requires Well(u) && u.depth == 0 && Standing(r) && r.uninstallList == [] && r.cleanupSet == {}
    requires Freed(u, r.(cleanupSet := u.cleanupSet, uninstallList := u.uninstallList), gone)
    requires r.faulted <==> u.faulted || AnyLate(u.forest, u.uninstallList)
    ensures Well(r) && Onward(u, r) && r.depth == u.depth && r.regrown == u.regrown
    ensures Freed(u, r.(uninstallList := u.uninstallList), gone)
  {
    var v := r.(cleanupSet := u.cleanupSet, uninstallList := u.uninstallList);
    assert v == r.(uninstallList := u.uninstallList);
  }

  lemma {:induction false} ListingKeepsWell(u: Unit, package: string)
    requires Well(u)
    ensures Well(ListActions(u, package)) && Onward(u, ListActions(u, package))
    ensures ListActions(u, package).depth == u.depth && ListActions(u, package).forest == u.forest
  {
    CollectedFacts(u.forest, package);
    LateListed(u.forest, u.uninstallList, Collected(u.forest, package));
  }

  lemma {:induction false} SwitchingKeepsWell(u: Unit, ids: seq<nat>)
    requires Well(u)
    ensures Well(DeactivateAll(u, ids)) && Onward(u, DeactivateAll(u, ids))
    ensures DeactivateAll(u, ids).depth == u.depth && DeactivateAll(u, ids).forest == u.forest
  {
  }

  lemma {:induction false} OnwardTrans(a: Unit, b: Unit, c: Unit)
    requires Onward(a, b) && Onward(b, c) && a.depth == b.depth
    ensures Onward(a, c)
  {
  }

  lemma {:induction false} UninstallKeepsWell(u: Unit, package: string)
    requires Well(u)
    ensures var r := UninstallActions(u, package);
            Well(r) && Onward(u, r) && r.depth == u.depth
  {
    hide *;
    UninstallIsListing(u, package);
    ListingKeepsWell(u, package);
    var listed := ListActions(u, package);
    if u.depth > 0 {
      SwitchingKeepsWell(listed, listed.uninstallList);
    } else {
      CleanupFreesActions(listed);
    }
    OnwardTrans(u, listed, UninstallActions(u, package));
  }

  lemma {:induction false} UninstallIsListing(u: Unit, package: string)
    ensures var listed := ListActions(u, package);
            UninstallActions(u, package)
            == if u.depth > 0 then DeactivateAll(listed, listed.uninstallList) else CleanupActions(listed)
  {
  }

  /** New actions leave what is listed as it was, unless they are put below it. */
  lemma {:induction false} AddingKeepsWell(u: Unit, f: Aliases, t: Aliases, graft: bool)
    requires Well(u) && Grown(u.forest, f, Keys(t))
    requires forall k :: k in Keys(t) ==> u.maxID < k <= u.maxID + Size(t)
    requires u.grafted ==> graft
    requires !graft ==> forall a :: a in u.uninstallList ==> Keys(Find(f, a)) == Keys(Find(u.forest, a))
    ensures var r := Registered(u, Added(u, f, t).(grafted := graft), t);
            Well(r) && Onward(u, r) && r.depth == u.depth
  {
    LateGrown(u.forest, f, Keys(t), u.uninstallList);
    PreorderKeys(t);
    var r := Registered(u, Added(u, f, t).(grafted := graft), t);
    forall k ensures k in r.lookup <==> k in Keys(f) {
      assert k in r.lookup <==> k in u.lookup || k in Preorder(t);
    }
  }

  lemma {:induction false} InstallKeepsWell(u: Unit, package: string, items: Aliases)
    requires Well(u)
    ensures var r := InstallActions(u, package, items);
            Well(r) && Onward(u, r) && r.depth == u.depth
  {
    var whole: Aliases := Tree(0, Alias(package, package, false, true, true), items, End);
    var t := Number(whole, u.maxID);
    NumberKeys(whole, u.maxID);
    NumberShape(whole, u.maxID);
    AppendGrows(u.forest, t);
    AddingKeepsWell(u, AppendRoot(u.forest, t), t, u.grafted);
  }

  lemma {:induction false} ButtonKeepsWell(u: Unit, toolbar: string, name: string)
    requires Well(u)
    ensures var r := AddButton(u, toolbar, name);
            Well(r) && Onward(u, r) && r.depth == u.depth
  {
    hide *;
    ButtonIs(u, toolbar, name);
    FirstNamedKnown(u.forest, u.lookup, toolbar);
    var found := FirstNamed(u.forest, u.lookup, toolbar);
    if AddButton(u, toolbar, name) == u {
      Unmoved(u);
    } else {
      var t: Aliases := Tree(u.maxID + 1, Alias(name, "", false, false, true), End, End);
      var f := InsertBelow(u.forest, found.value, Size(u.forest), t);
      WellIDs(u);
      LeafKeys(t);
      InsertGrows(u.forest, found.value, Size(u.forest), t);
      UngraftedStay(u, found.value, f);
      AddingKeepsWell(u, f, t, u.grafted || BelowListed(u, found.value));
    }
  }

  lemma {:induction false} ButtonIs(u: Unit, toolbar: string, name: string)
    ensures var found, t := FirstNamed(u.forest, u.lookup, toolbar), Tree(u.maxID + 1, Alias(name, "", false, false, true), End, End);
            AddButton(u, toolbar, name) == u
            || (found.Some? && AddButton(u, toolbar, name)
                == Registered(u, Added(u, InsertBelow(u.forest, found.value, Size(u.forest), t), t)
                                 .(grafted := u.grafted || BelowListed(u, found.value)), t))
  {
  }

  lemma {:induction false} Unmoved(u: Unit)
    ensures Onward(u, u)
  {
  }

  lemma {:induction false} WellIDs(u: Unit)
    requires Well(u)
    ensures Distinct(u.forest) && u.maxID + 1 !in Keys(u.forest)
  {
  }

  lemma {:induction false} UngraftedStay(u: Unit, parent: nat, f: Aliases)
    requires Well(u)
    requires forall k :: k in Keys(u.forest) && parent !in Keys(Find(u.forest, k)) ==> Keys(Find(f, k)) == Keys(Find(u.forest, k))
    ensures !BelowListed(u, parent) ==> forall a :: a in u.uninstallList ==> Keys(Find(f, a)) == Keys(Find(u.forest, a))
  {
  }

  /** One event: an action whose script runs is there until it ends, and while one runs nothing is freed. */
  lemma {:induction false} EventKeepsHeld(s: Actions, e: Event)
    requires Held(s)
    ensures Held(Happen(s, e)) && Onward(s.unit, Happen(s, e).unit)
  {
    match e
    case Begin(id) => if id in Keys(s.unit.forest) { BegunHeld(s, id); }
    case End_ => if s.running != [] { EndedHeld(s); }
    case Cleanup => if s.unit.depth == 0 { CleanupFreesActions(s.unit); }
    case Uninstall(package) => UninstallKeepsWell(s.unit, package);
    case Install(package, items) => InstallKeepsWell(s.unit, package, items);
    case NewButton(toolbar, name) => ButtonKeepsWell(s.unit, toolbar, name);
  }

  lemma {:induction false} BegunHeld(s: Actions, id: nat)
    requires Held(s) && id in Keys(s.unit.forest)
    ensures Held(Happen(s, Begin(id))) && Onward(s.unit, Happen(s, Begin(id)).unit)
  {
  }

  lemma {:induction false} EndedHeld(s: Actions)
    requires Held(s) && s.running != []
    ensures Held(Happen(s, End_)) && Onward(s.unit, Happen(s, End_).unit)
  {
    var last := |s.running| - 1;
    assert s.running[last] in s.running;
    assert forall x :: x in s.running[..last] ==> x in s.running;
  }

  lemma {:induction false} RunKeepsHeld(s: Actions, es: seq<Event>)
    requires Held(s)
    ensures Held(Run(s, es)) && s.unit.freed <= Run(s, es).unit.freed
    ensures (s.unit.regrown ==> Run(s, es).unit.regrown) && (s.unit.grafted ==> Run(s, es).unit.grafted)
    ensures forall k :: k in Keys(s.unit.forest) ==> k in Keys(Run(s, es).unit.forest) || k in Run(s, es).unit.freed
    decreases |es|
  {
    if es != [] {
      EventKeepsHeld(s, es[0]);
      RunKeepsHeld(Happen(s, es[0]), es[1..]);
    }
  }

  const NO_ACTIONS := Actions(Unit(End, 0, [], {}, {}, {}, [], 0, false, [], false, false, false, 0, 0, 0), [])

  lemma {:induction false} NoActionsHeld()
    ensures Held(NO_ACTIONS)
  {
  }

  /** However scripts nest, whatever they install, uninstall and add, and however often: an action is there as long as a
      script of its own runs; nothing goes but by being freed, and none is freed more than once before something goes
      wrong, which takes an action put below one that was listed and then listed itself. The next cleanup outside
      scripts goes right just when that has not come about. */
  lemma {:induction false} ActionsAreFreedOnce(s: Actions, es: seq<Event>)
    requires Held(s)
    ensures var r := Run(s, es);
            && AllIn(r.running, r.unit.forest) && NoRepeats(r.unit.freed) && Elements(r.unit.freed) !! Keys(r.unit.forest)
            && Keys(s.unit.forest) <= Keys(r.unit.forest) + Elements(r.unit.freed)
            && (r.unit.faulted ==> r.unit.regrown) && (r.unit.regrown ==> r.unit.grafted)
            && (r.unit.depth == 0 ==> (CleanupActions(r.unit).faulted <==> r.unit.regrown))
  {
    RunKeepsHeld(s, es);
    var u := Run(s, es).unit;
    if u.depth == 0 {
      CleanupFreesActions(u);
    }
  }

  // ---- pending deletion ----

  /** pendingDeletion(): the action, or one it hangs below, is listed. */
  ghost predicate PendingDeletion(u: Unit, id: nat) {
    exists a :: a in u.uninstallList && id in Keys(Find(u.forest, a))
  }

  /** An action goes at the next cleanup outside scripts if and only if it is pending. */
  lemma {:induction false} PendingGoes(s: Actions, es: seq<Event>, id: nat)
    requires Held(s) && Run(s, es).unit.depth == 0 && id in Keys(Run(s, es).unit.forest)
    ensures var u := Run(s, es).unit;
            id in Keys(CleanupActions(u).forest) <==> !PendingDeletion(u, id)
  {
    RunKeepsHeld(s, es);
    var u := Run(s, es).unit;
    CleanupFreesActions(u);
    InDoomed(u.forest, Elements(u.uninstallList), id);
  }

  /** What an action hangs below directly. */
  function ParentOf(f: Aliases, id: nat): Option<nat> {
    var l := Locate(f, id);
    if l.Some? && l.value.0.Under? then Some(l.value.0.key) else None
  }

  lemma {:induction false} ParentStepFrom(f: Aliases, k: nat, parent: Parent, from: nat, a: nat)
    requires Distinct(f) && k in Keys(f) && (parent.Under? ==> parent.key !in Keys(f))
    ensures LocateFrom(f, k, parent, from).Some?
    ensures var p := LocateFrom(f, k, parent, from).value.0;
            if p == parent then k in Keys(Find(f, a)) ==> a == k
            else p.Under? && p.key in Keys(f) && p.key != k
                 && (k in Keys(Find(f, a)) <==> a == k || p.key in Keys(Find(f, a)))
  {
    FindRemoveKeys(f.kids, a);
    FindRemoveKeys(f.rest, a);
    if f.key != k && k in Keys(f.kids) {
      ParentStepFrom(f.kids, k, Under(f.key), 0, a);
    } else if f.key != k {
      ParentStepFrom(f.rest, k, parent, from + 1, a);
    }
  }

  lemma {:induction false} SmallerBelow(f: Aliases, k: nat)
    ensures Size(Find(f, k)) <= Size(f)
    ensures f.Tree? && k != f.key ==> Size(Find(f, k)) < Size(f)
  {
    if f.Tree? {
      SmallerBelow(f.kids, k);
      SmallerBelow(f.rest, k);
    }
  }

  /** An action hangs below what its parent hangs below, and below its parent. */
  lemma {:induction false} ParentStep(f: Aliases, k: nat)
    requires Distinct(f) && k in Keys(f)
    ensures ParentOf(f, k).None? ==> forall a :: k in Keys(Find(f, a)) ==> a == k
    ensures ParentOf(f, k).Some? ==>
              var p := ParentOf(f, k).value;
              && p in Keys(f) && (forall a :: k in Keys(Find(f, a)) <==> a == k || p in Keys(Find(f, a)))
              && Size(Find(f, k)) < Size(Find(f, p)) <= Size(f)
  {
    forall a ensures ParentOf(f, k).None? && k in Keys(Find(f, a)) ==> a == k
      ensures ParentOf(f, k).Some? ==>
                var p := ParentOf(f, k).value;
                p in Keys(f) && p != k && (k in Keys(Find(f, a)) <==> a == k || p in Keys(Find(f, a)))
    {
      ParentStepFrom(f, k, Root, 0, a);
    }
    ParentStepFrom(f, k, Root, 0, k);
    if ParentOf(f, k).Some? {
      var p := ParentOf(f, k).value;
      assert p in Keys(Find(f, p)) && k in Keys(Find(f, p));
      FindWithin(f, p, k);
      SmallerBelow(Find(f, p), k);
      SmallerBelow(f, p);
    }
  }

  // ---- a run in which a button is freed twice ----

  /** A package with one button; its script uninstalls the package and puts a button on the package's toolbar, which is
      still found by its name. */
  const PRESSED := [Event.Install("p", Tree(0, Alias("a", "", false, false, true), End, End)), Begin(2), Event.Uninstall("p"),
                    NewButton("p", "b")]

  /** The same script has the package installed and uninstalled once more, and ends. */
  const AGAIN := [Event.Install("p", End), Event.Uninstall("p"), End_]

  lemma {:induction false} ButtonsFirst(u: Unit)
    requires u.forest == Tree(1, FOLDER, INSIDE, End) && u.depth == 1 && u.uninstallList == []
    ensures var r := UninstallActions(u, "p");
            r.uninstallList == [2, 1] && r.forest == u.forest && r.lookup == u.lookup && r.depth == 1 && r.maxID == u.maxID
  {
    assert Postorder(INSIDE) == [2];
    assert Collected(u.forest, "p") == Postorder(INSIDE) + [1] + Collected(End, "p") == [2, 1];
  }

  lemma {:induction false} ButtonPut(u: Unit)
    requires u.forest == Tree(1, FOLDER, INSIDE, End) && u.maxID == 2 && u.lookup == [1, 2]
    ensures var r := AddButton(u, "p", "b");
            && r.forest == Tree(1, FOLDER, INSIDE_MORE, End) && r.uninstallList == u.uninstallList && r.depth == u.depth
  {
    assert Find(u.forest, 1) == u.forest && Find(u.forest, 2) == INSIDE && Named(u.forest, 1, "p");
    assert FirstNamed(u.forest, [1, 2], "b") == FirstNamed(u.forest, [2], "b") == FirstNamed(u.forest, [], "b");
    PutBelow(u);
    assert AddPerm(u, "p", Alias("b", "", false, false, true)) == AddBelow(u, 1, Alias("b", "", false, false, true));
  }

  lemma {:induction false} InstalledFirst()
    ensures var u := InstallActions(NO_ACTIONS.unit, "p", Tree(0, Alias("a", "", false, false, true), End, End));
            && u.forest == Tree(1, FOLDER, INSIDE, End) && u.lookup == [1, 2] && u.maxID == 2 && u.depth == 0
            && u.uninstallList == [] && 2 in Keys(u.forest)
  {
    assert Preorder(INSIDE) == [2] && 2 in Keys(INSIDE);
  }

  lemma {:induction false} HappenIs(s: Actions, id: nat, package: string, items: Aliases, toolbar: string, name: string)
    ensures id in Keys(s.unit.forest) ==>
              Happen(s, Begin(id)) == Actions(s.unit.(depth := s.unit.depth + 1), s.running + [id])
    ensures Happen(s, Event.Install(package, items)) == s.(unit := InstallActions(s.unit, package, items))
    ensures Happen(s, Event.Uninstall(package)) == s.(unit := UninstallActions(s.unit, package))
    ensures Happen(s, NewButton(toolbar, name)) == s.(unit := AddButton(s.unit, toolbar, name))
  {
  }

  /** What the button's script has led to by the time it has put the new one there. */
  lemma {:induction false} PressedIs()
    ensures var s := Run(NO_ACTIONS, PRESSED);
            && s.unit.forest == Tree(1, FOLDER, INSIDE_MORE, End) && s.unit.uninstallList == [2, 1]
            && s.running == [2] && s.unit.depth == 1
  {
    hide *;
    PressedTurns();
    InstalledFirst();
    var items: Aliases := Tree(0, Alias("a", "", false, false, true), End, End);
    HappenIs(NO_ACTIONS, 2, "p", items, "p", "b");
    var s1 := Happen(NO_ACTIONS, Event.Install("p", items));
    HappenIs(s1, 2, "p", items, "p", "b");
    var s2 := Happen(s1, Begin(2));
    HappenIs(s2, 2, "p", items, "p", "b");
    ButtonsFirst(s2.unit);
    var s3 := Happen(s2, Event.Uninstall("p"));
    HappenIs(s3, 2, "p", items, "p", "b");
    ButtonPut(s3.unit);
  }

  lemma {:induction false} PressedTurns()
    ensures NO_ACTIONS.running == []
    ensures var s1 := Happen(NO_ACTIONS, Event.Install("p", Tree(0, Alias("a", "", false, false, true), End, End)));
            var s2 := Happen(s1, Begin(2));
            var s3 := Happen(s2, Event.Uninstall("p"));
            Run(NO_ACTIONS, PRESSED) == Happen(s3, NewButton("p", "b"))
  {
    var es := PRESSED;
    var s1 := Happen(NO_ACTIONS, es[0]);
    var s2 := Happen(s1, es[1]);
    var s3 := Happen(s2, es[2]);
    assert Run(NO_ACTIONS, es) == Run(s1, es[1..]);
    assert es[1..][1..] == es[2..] && es[2..][1..] == es[3..] && es[3..][1..] == [];
    assert Run(s1, es[1..]) == Run(s2, es[2..]);
    assert Run(s2, es[2..]) == Run(s3, es[3..]);
    assert Run(s3, es[3..]) == Run(Happen(s3, es[3]), []);
  }

  /** The new button is pending through the toolbar, without being listed. */
  lemma {:induction false} ButtonPendingUnlisted()
    ensures var u := Run(NO_ACTIONS, PRESSED).unit;
            PendingDeletion(u, 3) && 3 !in u.uninstallList && !u.faulted
  {
    PressedIs();
    NoActionsHeld();
    ActionsAreFreedOnce(NO_ACTIONS, PRESSED);
    var u := Run(NO_ACTIONS, PRESSED).unit;
    assert Find(u.forest, 1) == u.forest && 3 in Keys(INSIDE_MORE.rest) && 3 in Keys(INSIDE_MORE);
    assert 1 in u.uninstallList;
  }

  /** Then the list is [2, 1, 2, 3, 1, 4]: freeing 1 frees 3, which is then freed again. */
  lemma {:induction false} ButtonIsFreedTwice()
    ensures var u := Run(Run(NO_ACTIONS, PRESSED), AGAIN).unit;
            u.depth == 0 && CleanupActions(u).faulted
  {
    hide *;
    PressedIs();
    NoActionsHeld();
    RunKeepsHeld(NO_ACTIONS, PRESSED);
    var s := Run(NO_ACTIONS, PRESSED);
    RunKeepsHeld(s, AGAIN);
    AgainIs(s);
    HeldWell(Run(s, AGAIN));
    CleanupFreesActions(Run(s, AGAIN).unit);
  }

  lemma {:induction false} HeldWell(s: Actions)
    requires Held(s)
    ensures Well(s.unit) && (s.unit.regrown <==> s.unit.faulted || AnyLate(s.unit.forest, s.unit.uninstallList))
  {
  }

  lemma {:induction false} AgainIs(s: Actions)
    requires s.unit.forest == Tree(1, FOLDER, INSIDE_MORE, End) && s.unit.uninstallList == [2, 1]
    requires s.unit.depth == 1 && s.running == [2]
    ensures Run(s, AGAIN).unit.regrown && Run(s, AGAIN).unit.depth == 0
  {
    var s1 := Happen(s, AGAIN[0]);
    InstalledAgain(s.unit);
    var s2 := Happen(s1, AGAIN[1]);
    RegrowsAgain(s1.unit);
    var s3 := Happen(s2, AGAIN[2]);
    assert AGAIN[1..] == [AGAIN[1], AGAIN[2]] && [AGAIN[1], AGAIN[2]][1..] == [AGAIN[2]] && [AGAIN[2]][1..] == [];
    assert s3 == Run(s, AGAIN);
  }

  // ---- the unit object ----

  class ActionUnit {
    var actions: Aliases
    var maxID: nat
    var actionMap: seq<nat>
    var wanted: set<nat>
    var active: set<nat>
    var uninstallList: seq<nat>
    var processingDepth: nat
    ghost var freed: seq<nat>
    ghost var faulted: bool
    ghost var grafted: bool
    ghost var regrown: bool

    ghost function View(): Unit
      reads this
    {
      Unit(actions, maxID, actionMap, wanted, active, {}, uninstallList, processingDepth, false,
           freed, faulted, grafted, regrown, 0, 0, 0)
    }

    constructor ()
      ensures View() == NO_ACTIONS.unit
    {
      actions, maxID, actionMap, wanted, active, uninstallList, processingDepth := End, 0, [], {}, {}, [], 0;
      freed, faulted, grafted, regrown := [], false, false, false;
    }

    method DeleteAction(id: nat)
      modifies this`actions, this`actionMap, this`wanted, this`active, this`freed, this`faulted
      ensures View() == Delete(old(View()), id)
    {
      var gone := Find(actions, id);
      if gone.Tree? {
        var keys := Keys(gone);
        actions := Remove(actions, id);
        actionMap := Without(actionMap, keys);
        wanted, active := wanted - keys, active - keys;
        freed := freed + Postorder(gone);
      } else {
        faulted := true;
      }
    }

    method UninstallPackage(package: string)
      modifies this
      ensures View() == UninstallActions(old(View()), package)
    {
      regrown := regrown || Regrowth(View(), Collected(actions, package));
      uninstallList := ListPackage(actions, package, uninstallList);
      if processingDepth > 0 {
        SwitchOffListed();
        return;
      }
      DoCleanup();
    }

    method SwitchOffListed()
      modifies this`wanted, this`active
      ensures View() == DeactivateAll(old(View()), uninstallList)
    {
      for i := 0 to |uninstallList|
        invariant wanted == old(wanted) - Elements(uninstallList[..i])
        invariant active == old(active) - Elements(uninstallList[..i])
      {
        assert uninstallList[..i + 1] == uninstallList[..i] + [uninstallList[i]];
        wanted, active := wanted - {uninstallList[i]}, active - {uninstallList[i]};
      }
      assert uninstallList[..|uninstallList|] == uninstallList;
    }

    method DoCleanup()
      modifies this
      ensures View() == CleanupActions(old(View()))
    {
      if processingDepth > 0 || uninstallList == [] {
        return;
      }
      var deleted: set<nat> := {};
      ghost var list, goal := uninstallList, DeleteUnseen(View(), uninstallList, {});
      for i := 0 to |uninstallList|
        invariant uninstallList == list && goal == DeleteUnseen(View(), list[i..], deleted)
      {
        assert list[i..][1..] == list[i + 1..];
        if uninstallList[i] !in deleted {
          DeleteAction(uninstallList[i]);
          deleted := deleted + {uninstallList[i]};
        }
      }
      uninstallList := [];
    }

    /** From an action up to the top level, until a listed one is met. */
    method IsPendingDeletion(id: nat) returns (pending: bool)
      requires Well(View()) && id in Keys(actions)
      ensures pending <==> PendingDeletion(View(), id)
    {
      if uninstallList == [] {
        return false;
      }
      var current := id;
      SmallerBelow(actions, id);
      while true
        invariant current in Keys(actions) && (PendingDeletion(View(), id) <==> PendingDeletion(View(), current))
        invariant Size(Find(actions, current)) <= Size(actions)
        decreases Size(actions) - Size(Find(actions, current))
      {
        ParentStep(actions, current);
        if current in uninstallList {
          assert current in Keys(Find(actions, current));
          return true;
        }
        var parent := ParentOf(actions, current);
        if parent.None? {
          return false;
        }
        current := parent.value;
      }
    }
  }
}
