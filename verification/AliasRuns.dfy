/** Runs of the alias unit: commands that scripts answer with anything they can do, in any nesting. */
module AliasRuns {
  import opened Collections
  import opened Forests
  import opened AliasUnits
  import opened DeferredDeletes
  import opened AliasSafety

  /** Inside a pass nothing is freed; outside, things may be. What was queued stays queued until it is freed, nothing goes
      but by being freed, and what is gone stays gone. */
  ghost predicate Kept(s: Unit, s': Unit) {
    && Sound(s') && s'.depth == s.depth && s.maxID <= s'.maxID
    && (s.regrown ==> s'.regrown) && (s.grafted ==> s'.grafted) && s.freed <= s'.freed
    && (forall k :: k in Keys(s'.forest) && k <= s.maxID ==> k in Keys(s.forest))
    && (forall k :: k in Keys(s.forest) ==> k in Keys(s'.forest) || k in s'.freed)
    && (forall k :: k in Queued(s) && k in Keys(s'.forest) ==> k in Queued(s'))
    && (s.depth > 0 ==> Nested(s, s'))
  }

  lemma {:induction false} KeptTrans(a: Unit, b: Unit, c: Unit)
    requires Sound(a) && Kept(a, b) && Kept(b, c)
    ensures Kept(a, c)
  {
    QueuedDoomed(a);
    if a.depth > 0 {
      NestedTrans(a, b, c);
    }
  }

  lemma {:induction false} NestedKept(s: Unit, s': Unit)
    requires Nested(s, s')
    ensures Kept(s, s')
  {
  }

  lemma {:induction false} ReducedKept(s: Unit, r: Unit)
    requires Sound(s) && s.depth == 0 && Sound(r) && Reduced(s, r)
    ensures Kept(s, r)
  {
  }

  // ---- one pass ----

  lemma {:induction false} EnteredSound(s: Unit)
    requires Sound(s) && s.depth < MAX_PROCESSING_DEPTH && !s.stopped
    ensures Sound(Entered(s)) && Entered(s).depth == s.depth + 1
    ensures forall i :: 0 <= i < |Roots(s.forest)| ==> Roots(s.forest)[i] in Keys(Entered(s).forest)
  {
    RootsKnown(s.forest);
  }

  /** The end of a pass: nothing but the depth when it was nested, the cleanup when it was the outermost. */
  lemma {:induction false} LeaveKept(s: Unit, s1: Unit)
    requires Sound(s) && !s.stopped && s.depth < MAX_PROCESSING_DEPTH && Nested(Entered(s), s1)
    ensures Kept(s, Leave(s1))
    ensures s.depth == 0 ==> Queued(Leave(s1)) == {}
  {
    hide *;
    LeaveIs(s, s1);
    var left := s1.(depth := s.depth, stopped := s1.stopped && s.depth > 1);
    if s.depth == 0 {
      LeftSteady(s, s1);
      CleanupSteady(left);
      ReducedTo(s, left, DoCleanup(left));
    } else {
      LeftNested(s, s1);
      NestedKept(s, left);
    }
  }

  lemma {:induction false} LeaveIs(s: Unit, s1: Unit)
    requires Nested(Entered(s), s1)
    ensures var left := s1.(depth := s.depth, stopped := s1.stopped && s.depth > 1);
            Leave(s1) == if s.depth == 0 then DoCleanup(left) else left
  {
  }

  lemma {:induction false} LeftSteady(s: Unit, s1: Unit)
    requires Sound(s) && Nested(Entered(s), s1) && s.depth == 0
    ensures var left := s1.(depth := s.depth, stopped := s1.stopped && s.depth > 1);
            && Steady(left) && left.depth == 0 && !left.stopped && s.maxID <= left.maxID && Queued(s) <= Queued(left)
            && (s.regrown ==> left.regrown) && (s.grafted ==> left.grafted) && left.freed == s.freed
            && Keys(s.forest) <= Keys(left.forest)
            && forall k :: k in Keys(left.forest) && k <= s.maxID ==> k in Keys(s.forest)
  {
  }

  lemma {:induction false} LeftNested(s: Unit, s1: Unit)
    requires Sound(s) && Nested(Entered(s), s1) && s.depth > 0
    ensures Nested(s, s1.(depth := s.depth, stopped := s1.stopped && s.depth > 1))
  {
  }

  lemma {:induction false} ReducedTo(s: Unit, left: Unit, r: Unit)
    requires Sound(s) && s.depth == 0 && Steady(r) && r.cleanupSet == {} && r.uninstallList == [] && Reduced(left, r)
    requires left.depth == 0 && !left.stopped && s.maxID <= left.maxID && Queued(s) <= Queued(left)
    requires (s.regrown ==> left.regrown) && (s.grafted ==> left.grafted) && left.freed == s.freed
    requires Keys(s.forest) <= Keys(left.forest)
    requires forall k :: k in Keys(left.forest) && k <= s.maxID ==> k in Keys(s.forest)
    ensures Kept(s, r) && Queued(r) == {}
  {
  }

  lemma {:induction false} BeyondKnown(f: Aliases, id: nat)
    ensures Keys(Beyond(f, id)) <= Keys(f)
  {
    if f.Tree? {
      BeyondKnown(f.kids, id);
      BeyondKnown(f.rest, id);
    }
  }

  lemma {:induction false} ProcessKept(s: Unit, c: Command)
    requires Sound(s)
    ensures Kept(s, Process(s, c).0)
    ensures s.depth == 0 ==> Queued(Process(s, c).0) == {}
    decreases Cost(c), 4
  {
    hide *;
    ProcessTurns(s, c);
    if !s.stopped && s.depth < MAX_PROCESSING_DEPTH {
      EnteredSound(s);
      VisitRootsNested(Entered(s), c, Roots(s.forest));
      LeaveKept(s, VisitRoots(Entered(s), c, Roots(s.forest)).0);
    }
  }

  lemma {:induction false} ProcessTurns(s: Unit, c: Command)
    requires Sound(s)
    ensures if !s.stopped && s.depth < MAX_PROCESSING_DEPTH
            then Process(s, c).0 == Leave(VisitRoots(Entered(s), c, Roots(s.forest)).0)
            else Kept(s, Process(s, c).0) && s.depth > 0
  {
    SwitchedNested(s, s, {});
  }

  lemma {:induction false} VisitRootsNested(s: Unit, c: Command, snapshot: seq<nat>)
    requires Sound(s) && s.depth > 0 && forall i :: 0 <= i < |snapshot| ==> snapshot[i] in Keys(s.forest)
    ensures Nested(s, VisitRoots(s, c, snapshot).0)
    decreases Cost(c), 3, |snapshot|
  {
    SwitchedNested(s, s, {});
    if snapshot != [] {
      var id, t := snapshot[0], Find(s.forest, snapshot[0]);
      var s1, c1 := s, c;
      if IsActive(s, id) || id in s.wanted {
        FindRemoveKeys(s.forest, id);
        VisitNested(s, c, t);
        s1, c1 := Visit(s, c, t).0, Visit(s, c, t).1;
      }
      VisitRootsNested(s1, c1, snapshot[1..]);
      NestedTrans(s, s1, VisitRoots(s1, c1, snapshot[1..]).0);
    }
  }

  lemma {:induction false} VisitLevelNested(s: Unit, c: Command, level: Aliases)
    requires Sound(s) && s.depth > 0 && Keys(level) <= Keys(s.forest)
    ensures Nested(s, VisitLevel(s, c, level).0)
    decreases Cost(c), 2, level, 1
  {
    hide *;
    LevelTurns(s, c, level);
    if level.Tree? {
      VisitNested(s, c, level);
      var s1, c1 := Visit(s, c, level).0, Visit(s, c, level).1;
      NestedKeeps(s, s1);
      BeyondKnown(s1.forest, level.key);
      var ahead := if Cost(c1) < Cost(c) then Beyond(s1.forest, level.key) else level.rest;
      VisitLevelNested(s1, c1, ahead);
      NestedTrans(s, s1, VisitLevel(s1, c1, ahead).0);
    }
  }

  lemma {:induction false} NestedKeeps(s: Unit, s1: Unit)
    requires Nested(s, s1)
    ensures Keys(s.forest) <= Keys(s1.forest) && Sound(s1) && s1.depth == s.depth && Distinct(s1.forest)
  {
  }

  lemma {:induction false} LevelTurns(s: Unit, c: Command, level: Aliases)
    requires Sound(s)
    ensures level.End? ==> Nested(s, VisitLevel(s, c, level).0)
    ensures level.Tree? ==>
              && level.key in Keys(level) && Keys(level.rest) <= Keys(level)
              && var (s1, c1, _) := Visit(s, c, level);
              && (level.key in Keys(s1.forest) ==>
                   VisitLevel(s, c, level).0
                   == VisitLevel(s1, c1, if Cost(c1) < Cost(c) then Beyond(s1.forest, level.key) else level.rest).0)
  {
    SwitchedNested(s, s, {});
  }

  lemma {:induction false} VisitNested(s: Unit, c: Command, t: Aliases)
    requires Sound(s) && s.depth > 0 && t.Tree? && Keys(t) <= Keys(s.forest)
    ensures Nested(s, Visit(s, c, t).0)
    decreases Cost(c), 2, t, 0
  {
    hide *;
    VisitTurns(s, c, t);
    if Fires(s, c, t.key) {
      var own := RunScript(s, MatchOf(c, t.key).script);
      RunScriptKept(s, MatchOf(c, t.key).script);
      KeptNested(s, own);
      NestedKeeps(s, own);
      KidsKnown(own.forest, t.key);
      VisitLevelNested(own, Tried(c, t.key), Find(own.forest, t.key).kids);
      NestedTrans(s, own, VisitLevel(own, Tried(c, t.key), Find(own.forest, t.key).kids).0);
    } else {
      VisitLevelNested(s, c, t.kids);
    }
  }

  ghost predicate Fires(s: Unit, c: Command, id: nat) {
    IsActive(s, id) && MatchOf(c, id).Matching?
  }

  lemma {:induction false} KeptNested(s: Unit, s': Unit)
    requires Kept(s, s') && s.depth > 0
    ensures Nested(s, s')
  {
  }

  lemma {:induction false} VisitTurns(s: Unit, c: Command, t: Aliases)
    requires Sound(s) && t.Tree? && Keys(t) <= Keys(s.forest)
    ensures t.key in Keys(t) && Keys(t.kids) <= Keys(t)
    ensures Fires(s, c, t.key) ==>
              && MatchOf(c, t.key).Matching? && ScriptCost(MatchOf(c, t.key).script) < Cost(c)
              && Cost(Tried(c, t.key)) < Cost(c)
              && var own := RunScript(s, MatchOf(c, t.key).script);
              && (t.key in Keys(own.forest) ==>
                   Visit(s, c, t).0 == VisitLevel(own, Tried(c, t.key), Find(own.forest, t.key).kids).0)
    ensures !Fires(s, c, t.key) ==> Nested(s, Visit(s, c, t).0) || Visit(s, c, t).0 == VisitLevel(s, c, t.kids).0
  {
    SwitchedNested(s, s, {});
  }

  lemma {:induction false} KidsKnown(f: Aliases, id: nat)
    requires Distinct(f) && id in Keys(f)
    ensures Find(f, id).Tree? && Keys(Find(f, id).kids) <= Keys(f)
  {
    FindRemoveKeys(f, id);
    assert Keys(Find(f, id).kids) <= Keys(Find(f, id));
  }

  // ---- scripts ----

  lemma {:induction false} RunScriptKept(s: Unit, script: Script)
    requires Sound(s)
    ensures Kept(s, RunScript(s, script))
    decreases ScriptCost(script), 5
  {
    SwitchedNested(s, s, {});
    if script.Then? {
      RunActKept(s, script.act);
      RunScriptKept(RunAct(s, script.act), script.rest);
      KeptTrans(s, RunAct(s, script.act), RunScript(s, script));
    }
  }

  lemma {:induction false} RunActKept(s: Unit, a: Act)
    requires Sound(s)
    ensures Kept(s, RunAct(s, a))
    decreases ActCost(a), 6
  {
    hide *;
    ActIs(s, a);
    match a
    case Kill(name) => KillNested(s, s.lookup, name); NestedKept(s, RunAct(s, a));
    case Enable(name) => EnableNested(s, s.lookup, name); NestedKept(s, RunAct(s, a));
    case Disable(name) => DisableNested(s, s.lookup, name); NestedKept(s, RunAct(s, a));
    case Uninstall(package) =>
      if s.depth > 0 {
        UninstallNested(s, package);
        NestedKept(s, RunAct(s, a));
      } else {
        UninstallNow(s, package);
        ReducedKept(s, RunAct(s, a));
      }
    case Install(package, items) =>
      AddRootNested(s, Alias(package, package, false, true, true), items);
      NestedKept(s, RunAct(s, a));
    case RemoveTemps =>
      if s.depth == 0 {
        RootsAreIn(s.forest);
        RemoveTempsNested(s, Roots(s.forest));
        NestedKept(s, RunAct(s, a));
      }
    case NewTemp(name) => AddRootNested(s, Alias(name, "", true, false, true), End); NestedKept(s, RunAct(s, a));
    case NewPerm(parent, name, folder) =>
      AddPermNested(s, parent, Alias(name, "", false, folder, true));
      NestedKept(s, RunAct(s, a));
    case Move(id, to, position) =>
      if s.depth == 0 {
        MoveSound(s, id, to, position);
        ReducedKept(s, RunAct(s, a));
      }
    case Cleanup =>
      if s.depth == 0 {
        CleanupKept(s);
      }
    case Expand(command) =>
      ProcessKept(s, command);
      SentKept(s, Process(s, command).0);
  }

  lemma {:induction false} RootsAreIn(f: Aliases)
    ensures forall i :: 0 <= i < |Roots(f)| ==> Roots(f)[i] in Roots(f)
  {
  }

  lemma {:induction false} CleanupKept(s: Unit)
    requires Sound(s) && s.depth == 0
    ensures Kept(s, DoCleanup(s))
  {
    CleanupSteady(s);
    ReducedKept(s, DoCleanup(s));
  }

  lemma {:induction false} SentKept(s: Unit, r: Unit)
    requires Kept(s, r)
    ensures Kept(s, r.(sent := r.sent + 1))
  {
  }

  /** What each act comes to; outside a pass or inside, some do nothing. */
  lemma {:induction false} ActIs(s: Unit, a: Act)
    requires Sound(s)
    ensures a.Kill? ==> RunAct(s, a) == KillFrom(s, s.lookup, a.name).0
    ensures a.Enable? ==> RunAct(s, a) == EnableFrom(s, s.lookup, a.name).0
    ensures a.Disable? ==> RunAct(s, a) == DisableFrom(s, s.lookup, a.name).0
    ensures a.Uninstall? ==> RunAct(s, a) == UninstallPackage(s, a.package)
    ensures a.Install? ==> RunAct(s, a) == AddRoot(s, Alias(a.package, a.package, false, true, true), a.items)
    ensures a.RemoveTemps? && s.depth == 0 ==> RunAct(s, a) == RemoveTempsFrom(s, Roots(s.forest))
    ensures a.RemoveTemps? && s.depth > 0 ==> Kept(s, RunAct(s, a))
    ensures a.NewTemp? ==> RunAct(s, a) == AddRoot(s, Alias(a.name, "", true, false, true), End)
    ensures a.NewPerm? ==> RunAct(s, a) == AddPerm(s, a.parent, Alias(a.name, "", false, a.folder, true))
    ensures a.Move? ==> RunAct(s, a) == MoveAlias(s, a.id, a.to, a.position)
    ensures a.Move? && s.depth > 0 ==> Kept(s, RunAct(s, a))
    ensures a.Cleanup? ==> RunAct(s, a) == DoCleanup(s)
    ensures a.Cleanup? && s.depth > 0 ==> Kept(s, RunAct(s, a))
    ensures a.Expand? ==>
              var (s1, taken) := Process(s, a.command);
              RunAct(s, a) == (if taken then s1 else s1.(sent := s1.sent + 1)) && Cost(a.command) < ActCost(a)
  {
    SwitchedNested(s, s, {});
  }

  // ---- what it comes to ----

  function NoAliases(): Unit {
    Unit(End, 0, [], {}, {}, {}, [], 0, false, [], false, false, false, 0, 0, 0)
  }

  lemma {:induction false} NoAliasesSound()
    ensures Sound(NoAliases())
  {
    assert Queued(NoAliases()) == {};
  }

  /** Whatever scripts and commands run, in any nesting, and with whatever aliases it begins: something is freed twice
      just when an alias below one already listed was listed in its turn, which takes an alias put below one that was
      listed; otherwise no freed alias is used or freed again. Nothing goes but by being freed, the nesting stays
      within the limit, and between commands nothing stays stopped. */
  lemma {:induction false} AnyRunIsSafe(s: Unit, script: Script)
    requires Sound(s) && s.depth == 0 && !s.faulted
    ensures var r := RunScript(s, script);
            && (r.faulted <==> r.regrown) && (r.regrown ==> r.grafted)
            && NoRepeats(r.freed) && Elements(r.freed) !! Keys(r.forest)
            && Keys(s.forest) <= Keys(r.forest) + Elements(r.freed)
            && r.deepest <= MAX_PROCESSING_DEPTH && r.depth == 0 && !r.stopped && r.uninstallList == []
  {
    RunScriptKept(s, script);
  }

  /** A typed command: while its pass is open nothing is freed and every alias that was there stays; when it ends, freed
      are exactly what was queued by then and what hangs below it, each alias once; and one is freed again just when
      something listed is first listed after an alias it hangs below. */
  lemma {:induction false} CommandFreesQueuedOnce(s: Unit, c: Command)
    requires Sound(s) && s.depth == 0 && !s.faulted
    ensures var open := VisitRoots(Entered(s), c, Roots(s.forest)).0;
            var gone := Doomed(open.forest, Queued(open));
            var r := Process(s, c).0;
            && open.freed == s.freed && Keys(s.forest) <= Keys(open.forest) && !open.faulted
            && Keys(r.forest) == Keys(open.forest) - gone && gone <= Keys(open.forest)
            && |s.freed| <= |r.freed| && r.freed[..|s.freed|] == s.freed && NoRepeats(r.freed)
            && Elements(r.freed[|s.freed|..]) == gone && Queued(r) == {}
            && (r.faulted <==> AnyLate(open.forest, open.uninstallList))
  {
    hide *;
    CommandIs(s, c);
    EnteredSound(s);
    VisitRootsNested(Entered(s), c, Roots(s.forest));
    var open := VisitRoots(Entered(s), c, Roots(s.forest)).0;
    CleanedUp(open);
  }

  lemma {:induction false} CommandIs(s: Unit, c: Command)
    requires Sound(s) && s.depth == 0 && !s.faulted
    ensures Entered(s).depth == 1 && MAX_PROCESSING_DEPTH == 50 && !s.stopped
    ensures var open := VisitRoots(Entered(s), c, Roots(s.forest)).0;
            && Process(s, c).0 == Leave(open)
            && (Nested(Entered(s), open) ==>
                  && Sound(open) && open.depth == 1 && open.freed == s.freed && !open.faulted
                  && Keys(s.forest) <= Keys(open.forest))
  {
  }

  lemma {:induction false} CleanedUp(open: Unit)
    requires Sound(open) && open.depth == 1 && !open.faulted
    ensures var gone := Doomed(open.forest, Queued(open));
            var r := Leave(open);
            && (r.faulted <==> AnyLate(open.forest, open.uninstallList)) && Queued(r) == {}
            && Keys(r.forest) == Keys(open.forest) - gone && gone <= Keys(open.forest)
            && |open.freed| <= |r.freed| && r.freed[..|open.freed|] == open.freed && NoRepeats(r.freed)
            && Elements(r.freed[|open.freed|..]) == gone
  {
    var left := open.(depth := 0, stopped := open.stopped && 0 > 1);
    CleanupSteady(left);
    assert Leave(open) == DoCleanup(left);
    QueuedDoomed(left);
    FreedTail(open.freed, Leave(open).freed, Doomed(open.forest, Queued(open)));
  }

  lemma {:induction false} FreedTail(was: seq<nat>, now: seq<nat>, gone: set<nat>)
    requires NoRepeats(now) && |was| <= |now| && now[..|was|] == was
    requires forall x :: x in now <==> x in was || x in gone
    requires forall x :: x in was ==> x !in gone
    ensures Elements(now[|was|..]) == gone
  {
    var tail := now[|was|..];
    assert now == was + tail;
    forall x | x in tail ensures x in gone {
      var i :| 0 <= i < |tail| && tail[i] == x;
      assert now[|was| + i] == x;
      forall j | 0 <= j < |was| ensures was[j] != x {
        assert now[j] == was[j];
      }
    }
  }

  /** What is queued is not switched on again before it is freed, whatever the scripts do, inside a pass or outside. */
  lemma {:induction false} QueuedStaysOff(s: Unit, script: Script, id: nat)
    requires Sound(s) && id in Queued(s)
    ensures var r := RunScript(s, script);
            if id in Keys(r.forest) then id in Queued(r) && !IsActive(r, id) && id !in r.wanted
            else id in r.freed
  {
    RunScriptKept(s, script);
    QueuedDoomed(s);
  }

  // ---- a run in which an alias is freed twice ----

  const FOLDER := Alias("p", "p", false, true, true)
  const INSIDE: Aliases := Tree(2, Alias("a", "", false, false, true), End, End)
  const INSIDE_MORE: Aliases := INSIDE.(rest := Tree(3, Alias("b", "", false, false, true), End, End))

  /** A package with one alias. */
  function Packaged(): Unit {
    AddRoot(NoAliases(), FOLDER, Tree(0, Alias("a", "", false, false, true), End, End))
  }

  /** The alias's script uninstalls its package, puts a new alias below the package's folder, which is still found by its
      name, and has the package installed and uninstalled once more. */
  function Reinstalling(): Script {
    Then(Act.Uninstall("p"), Then(NewPerm("p", "b", false), Then(Install("p", End), Then(Act.Uninstall("p"), Done))))
  }

  lemma {:induction false} PackagedIs()
    ensures Packaged().forest == Tree(1, FOLDER, INSIDE, End) && Packaged().lookup == [1, 2] && Packaged().maxID == 2
    ensures Packaged().active == Packaged().wanted == {1, 2} && Packaged().uninstallList == [] && Packaged().depth == 0
    ensures !Packaged().faulted
  {
    assert Keys(INSIDE) == {2} && Preorder(INSIDE) == [2];
  }

  lemma {:induction false} UninstalledFirst(s: Unit)
    requires s.forest == Tree(1, FOLDER, INSIDE, End) && s.depth == 1 && s.uninstallList == []
    ensures var r := UninstallPackage(s, "p");
            r.uninstallList == [2, 1] && r.forest == s.forest && r.lookup == s.lookup && r.depth == 1 && r.maxID == s.maxID
  {
    assert Postorder(INSIDE) == [2];
    assert Collected(s.forest, "p") == Postorder(INSIDE) + [1] + Collected(End, "p") == [2, 1];
  }

  lemma {:induction false} PutBelow(s: Unit)
    requires s.forest == Tree(1, FOLDER, INSIDE, End) && s.maxID == 2 && s.lookup == [1, 2]
    ensures var r := AddPerm(s, "p", Alias("b", "", false, false, true));
            && r.forest == Tree(1, FOLDER, INSIDE_MORE, End) && r.uninstallList == s.uninstallList && r.depth == s.depth
  {
    assert Find(s.forest, 1) == s.forest && Named(s.forest, 1, "p");
    var leaf: Aliases := Tree(3, Alias("b", "", false, false, true), End, End);
    assert InsertAt(INSIDE, 2, leaf) == INSIDE.(rest := InsertAt(End, 1, leaf)) == INSIDE_MORE;
    assert Size(INSIDE) == 1;
    assert InsertBelow(s.forest, 1, 2, leaf) == Tree(1, FOLDER, INSIDE_MORE, End);
  }

  lemma {:induction false} InstalledAgain(s: Unit)
    requires s.forest == Tree(1, FOLDER, INSIDE_MORE, End)
    ensures var r := AddRoot(s, FOLDER, End);
            && r.forest.Tree? && r.forest.key == 1 && r.forest.value == FOLDER && r.forest.kids == INSIDE_MORE
            && r.uninstallList == s.uninstallList && r.depth == s.depth
  {
  }

  /** By now the folder's package takes the new alias along. */
  lemma {:induction false} RegrowsAgain(s: Unit)
    requires s.uninstallList == [2, 1]
    requires s.forest.Tree? && s.forest.key == 1 && s.forest.value == FOLDER && s.forest.kids == INSIDE_MORE
    ensures Regrowth(s, Collected(s.forest, "p"))
  {
    assert Postorder(INSIDE_MORE) == [2] + Postorder(INSIDE_MORE.rest) && Postorder(INSIDE_MORE.rest) == [3];
    assert 3 in Postorder(INSIDE_MORE) && 3 in Collected(s.forest, "p");
    assert Find(s.forest, 1) == s.forest.(rest := End);
    assert 3 in Keys(INSIDE_MORE.rest) && 3 in Keys(INSIDE_MORE) && 3 in Keys(Find(s.forest, 1));
  }

  lemma {:induction false} UninstalledAgain(s: Unit)
    requires s.depth > 0 && s.uninstallList == [2, 1]
    requires s.forest.Tree? && s.forest.key == 1 && s.forest.value == FOLDER && s.forest.kids == INSIDE_MORE
    ensures UninstallPackage(s, "p").regrown
  {
    RegrowsAgain(s);
  }

  lemma {:induction false} ReinstallingIs(s: Unit)
    ensures var s1 := UninstallPackage(s, "p");
            var s2 := AddPerm(s1, "p", Alias("b", "", false, false, true));
            var s3 := AddRoot(s2, FOLDER, End);
            RunScript(s, Reinstalling()) == UninstallPackage(s3, "p")
  {
    var last := Then(Act.Uninstall("p"), Done);
    var third := Then(Install("p", End), last);
    var second := Then(NewPerm("p", "b", false), third);
    var s1 := UninstallPackage(s, "p");
    var s2 := AddPerm(s1, "p", Alias("b", "", false, false, true));
    var s3 := AddRoot(s2, FOLDER, End);
    assert RunScript(s, Reinstalling()) == RunScript(s1, second);
    assert RunScript(s1, second) == RunScript(s2, third);
    assert RunScript(s2, third) == RunScript(s3, last);
    assert RunScript(s3, last) == RunScript(UninstallPackage(s3, "p"), Done);
  }

  lemma {:induction false} ReinstallingRun(s: Unit)
    requires s.forest == Tree(1, FOLDER, INSIDE, End) && s.depth == 1 && s.maxID == 2 && s.uninstallList == []
    requires s.lookup == [1, 2]
    ensures RunScript(s, Reinstalling()).regrown
  {
    hide *;
    ReinstallingIs(s);
    UninstalledFirst(s);
    var s1 := UninstallPackage(s, "p");
    PutBelow(s1);
    var s2 := AddPerm(s1, "p", Alias("b", "", false, false, true));
    InstalledAgain(s2);
    UninstalledAgain(AddRoot(s2, FOLDER, End));
  }

  /** The script runs in its alias's turn, and what comes after cannot take the mark back. */
  lemma {:induction false} ReinstallingPass(s: Unit, c: Command)
    requires Sound(s) && s.forest == Tree(1, FOLDER, INSIDE, End) && s.depth == 1 && s.active == s.wanted == {1, 2}
    requires c == Matching(2, Reinstalling(), NoMatch) && RunScript(s, c.script).regrown
    ensures VisitRoots(s, c, [1]).0.regrown
  {
    hide *;
    var own := RunScript(s, c.script);
    InsideTurn(s, c);
    RunScriptKept(s, c.script);
    KeptSound(s, own);
    KidsKnown(own.forest, 2);
    VisitLevelNested(own, Tried(c, 2), Find(own.forest, 2).kids);
    var s1, c1 := Visit(s, c, INSIDE).0, Visit(s, c, INSIDE).1;
    NestedMarks(own, s1);
    NestedKeeps(own, s1);
    BeyondKnown(s1.forest, 2);
    var ahead := if Cost(c1) < Cost(c) then Beyond(s1.forest, 2) else INSIDE.rest;
    NoneKnown(s1.forest);
    VisitLevelNested(s1, c1, ahead);
    var s2 := VisitLevel(s, c, INSIDE).0;
    NestedMarks(s1, s2);
    FolderTurn(s, c);
  }

  lemma {:induction false} NoneKnown(f: Aliases)
    ensures Keys(INSIDE.rest) <= Keys(f)
  {
  }

  lemma {:induction false} NestedMarks(s: Unit, s': Unit)
    requires Nested(s, s')
    ensures s.regrown ==> s'.regrown
  {
  }

  lemma {:induction false} KeptSound(s: Unit, s': Unit)
    requires Kept(s, s') && s.forest == Tree(1, FOLDER, INSIDE, End) && s.depth == 1
    ensures Sound(s') && s'.depth == 1 && Distinct(s'.forest) && 2 in Keys(s'.forest)
  {
    assert 2 in Keys(INSIDE) && 2 in Keys(s.forest);
  }

  /** The alias in the folder, after whose script the walk goes on to what is below and behind it by then. */
  lemma {:induction false} InsideTurn(s: Unit, c: Command)
    requires Sound(s) && s.forest == Tree(1, FOLDER, INSIDE, End) && s.active == s.wanted == {1, 2}
    requires c == Matching(2, Reinstalling(), NoMatch)
    ensures var own := RunScript(s, c.script);
            && INSIDE.Tree? && INSIDE.key == 2
            && (2 in Keys(own.forest) ==>
                  Visit(s, c, INSIDE).0 == VisitLevel(own, Tried(c, 2), Find(own.forest, 2).kids).0)
    ensures var (s1, c1, _) := Visit(s, c, INSIDE);
            2 in Keys(s1.forest) ==>
              VisitLevel(s, c, INSIDE).0
              == VisitLevel(s1, c1, if Cost(c1) < Cost(c) then Beyond(s1.forest, 2) else INSIDE.rest).0
  {
    LevelTurns(s, c, INSIDE);
    assert 2 in Keys(INSIDE) && Find(s.forest, 2) == INSIDE && IsActive(s, 2);
    assert MatchOf(c, 2) == c;
  }

  lemma {:induction false} FolderTurn(s: Unit, c: Command)
    requires s.forest == Tree(1, FOLDER, INSIDE, End) && s.active == s.wanted == {1, 2}
    requires c == Matching(2, Reinstalling(), NoMatch)
    ensures VisitRoots(s, c, [1]).0 == VisitLevel(s, c, INSIDE).0
  {
    assert Find(s.forest, 1) == s.forest && IsActive(s, 1);
    assert MatchOf(c, 1) == MatchOf(NoMatch, 1) == NoMatch;
    var (s1, c1, _) := Visit(s, c, s.forest);
    assert (s1, c1) == (VisitLevel(s, c, INSIDE).0, VisitLevel(s, c, INSIDE).1);
    assert [1][1..] == [];
    assert VisitRoots(s1, c1, []).0 == s1;
  }

  /** Installed and uninstalled again with an alias put below in between: the list is [2, 1, 2, 3, 1, 4], and freeing 1
      frees 3, which is then freed again. */
  lemma {:induction false} RegrownIsFreedTwice()
    ensures Sound(Packaged()) && !Packaged().faulted
    ensures Process(Packaged(), Matching(2, Reinstalling(), NoMatch)).0.faulted
  {
    hide *;
    var s, c := Packaged(), Matching(2, Reinstalling(), NoMatch);
    PackagedIs();
    PackagedSound();
    CommandIs(s, c);
    EnteredSound(s);
    EnteredIs(s);
    ReinstallingRun(Entered(s));
    ReinstallingPass(Entered(s), c);
    VisitRootsNested(Entered(s), c, Roots(s.forest));
    LeaveMarks(s, VisitRoots(Entered(s), c, Roots(s.forest)).0);
  }

  lemma {:induction false} PackagedSound()
    ensures Sound(Packaged())
  {
    NoAliasesSound();
    AddRootNested(NoAliases(), FOLDER, Tree(0, Alias("a", "", false, false, true), End, End));
  }

  lemma {:induction false} EnteredIs(s: Unit)
    requires s.forest == Tree(1, FOLDER, INSIDE, End)
    ensures Roots(s.forest) == [1] && Reinstalling() == Matching(2, Reinstalling(), NoMatch).script
    ensures var e := Entered(s);
            && e.forest == s.forest && e.maxID == s.maxID && e.uninstallList == s.uninstallList && e.lookup == s.lookup
            && e.active == s.active && e.wanted == s.wanted
  {
  }

  lemma {:induction false} LeaveMarks(s: Unit, s1: Unit)
    requires Sound(s) && s.depth == 0 && Nested(Entered(s), s1) && s1.regrown
    ensures Leave(s1).faulted
  {
    LeftSteady(s, s1);
    CleanupSteady(s1.(depth := s.depth, stopped := s1.stopped && s.depth > 1));
  }
}
