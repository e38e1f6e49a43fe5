/** Alias processing that scripts re-enter: while a command is tried against a snapshot of the aliases, the
    scripts that run may kill, uninstall, switch and add aliases, and expand further commands.

    Structure and activity are kept apart: the forest says which aliases exist, `wanted` and `active` which of
    them are switched on. The rest observe a run: `freed`, what was deleted, in order; `faulted`, whether a deleted
    alias was ever used or deleted again; `grafted`, whether an alias was put below one already listed for deletion;
    `regrown`, whether such an alias was then listed itself; `deepest`, the deepest nesting; `passes`, how many passes
    ran; and `sent`, how many commands went to the game. */
module AliasUnits {
  import opened Collections
  import opened Forests

  datatype Alias = Alias(name: string, package: string, temporary: bool, folder: bool, ok: bool)

  type Aliases = Forest<Alias>

  /** What can be done to the unit. Only resetting the profile removes all temporary aliases at once, and that is put
      off while a script is on the stack; and only the editor moves aliases. */
  datatype Act =
    | Kill(name: string)
    | Enable(name: string)
    | Disable(name: string)
    | Uninstall(package: string)
    | Install(package: string, items: Aliases)
    | RemoveTemps
    | NewTemp(name: string)
    | NewPerm(parent: string, name: string, folder: bool)
    | Move(id: nat, to: Parent, position: nat)
    | Cleanup
    | Expand(command: Command)

  datatype Script = Done | Then(act: Act, rest: Script)

  /** A command, told by the aliases whose pattern matches it and what their scripts then do. */
  datatype Command = NoMatch | Matching(alias: nat, script: Script, more: Command)

  datatype Unit = Unit(forest: Aliases, maxID: nat, lookup: seq<nat>, wanted: set<nat>, active: set<nat>,
                       cleanupSet: set<nat>, uninstallList: seq<nat>, depth: nat, stopped: bool,
                       freed: seq<nat>, faulted: bool, grafted: bool, regrown: bool,
                       deepest: nat, passes: nat, sent: nat)

  const MAX_PROCESSING_DEPTH := 50

  // ---- looking ----

  function Roots(f: Aliases): seq<nat> {
    if f.End? then [] else [f.key] + Roots(f.rest)
  }

  function IsActive(s: Unit, id: nat): bool {
    id in s.active && id in s.wanted && Find(s.forest, id).Tree? && Find(s.forest, id).value.ok
  }

  function Queued(s: Unit): set<nat> {
    s.cleanupSet + Elements(s.uninstallList)
  }

  predicate Named(f: Aliases, id: nat, name: string) {
    Find(f, id).Tree? && Find(f, id).value.name == name
  }

  /** Only a temporary alias at the top level that is not queued yet can be killed. */
  predicate Killable(s: Unit, id: nat, name: string) {
    && Named(s.forest, id, name) && id in Roots(s.forest) && Find(s.forest, id).value.temporary
    && id !in Queued(s)
  }

  // ---- switching ----

  function SetIsActive(s: Unit, id: nat, on: bool): Unit {
    if on then
      var ok := Find(s.forest, id).Tree? && Find(s.forest, id).value.ok;
      s.(wanted := s.wanted + {id}, active := if ok then s.active + {id} else s.active - {id})
    else s.(wanted := s.wanted - {id}, active := s.active - {id})
  }

  function DeactivateAll(s: Unit, ids: seq<nat>): Unit {
    s.(wanted := s.wanted - Elements(ids), active := s.active - Elements(ids))
  }

  /** killAlias(): the first killable alias of that name, in the order of the lookup table. */
  function KillFrom(s: Unit, ids: seq<nat>, name: string): (Unit, bool) {
    if ids == [] then (s, false)
    else if Killable(s, ids[0], name) then
      (SetIsActive(s, ids[0], false).(cleanupSet := s.cleanupSet + {ids[0]}), true)
    else KillFrom(s, ids[1..], name)
  }

  /** enableAlias(): every alias of that name that is not queued. */
  function EnableFrom(s: Unit, ids: seq<nat>, name: string): (Unit, bool)
    decreases |ids|
  {
    if ids == [] then (s, false)
    else if Named(s.forest, ids[0], name) && ids[0] !in Queued(s) then
      (EnableFrom(SetIsActive(s, ids[0], true), ids[1..], name).0, true)
    else EnableFrom(s, ids[1..], name)
  }

  function DisableFrom(s: Unit, ids: seq<nat>, name: string): (Unit, bool)
    decreases |ids|
  {
    if ids == [] then (s, false)
    else if Named(s.forest, ids[0], name) then
      (DisableFrom(SetIsActive(s, ids[0], false), ids[1..], name).0, true)
    else DisableFrom(s, ids[1..], name)
  }

  /** removeAllTempAliases(): every temporary alias at the top level, queued or not. */
  function RemoveTempsFrom(s: Unit, ids: seq<nat>): Unit
    decreases |ids|
  {
    if ids == [] then s
    else if Find(s.forest, ids[0]).Tree? && Find(s.forest, ids[0]).value.temporary then
      RemoveTempsFrom(SetIsActive(s, ids[0], false).(cleanupSet := s.cleanupSet + {ids[0]}), ids[1..])
    else RemoveTempsFrom(s, ids[1..])
  }

  // ---- deleting ----

  function Without(ids: seq<nat>, gone: set<nat>): seq<nat> {
    if ids == [] then []
    else (if ids[0] in gone then [] else [ids[0]]) + Without(ids[1..], gone)
  }

  /** Children before parents, as _uninstall() lists what is below an alias and as it is freed. */
  function Postorder(f: Aliases): seq<nat> {
    if f.End? then [] else Postorder(f.kids) + [f.key] + Postorder(f.rest)
  }

  /** `delete`: frees an alias and everything still linked below it; a dangling pointer is a fault. */
  function Delete(s: Unit, id: nat): Unit {
    if id !in Keys(s.forest) then s.(faulted := true)
    else
      var gone := Find(s.forest, id);
      s.(forest := Remove(s.forest, id), lookup := Without(s.lookup, Keys(gone)),
         wanted := s.wanted - Keys(gone), active := s.active - Keys(gone), freed := s.freed + Postorder(gone))
  }

  function DeleteEach(s: Unit, ids: seq<nat>): Unit
    decreases |ids|
  {
    if ids == [] then s else DeleteEach(Delete(s, ids[0]), ids[1..])
  }

  /** The second half of doCleanup(): `seen` guards against freeing a pointer twice, by identity only. */
  function DeleteUnseen(s: Unit, ids: seq<nat>, seen: set<nat>): Unit
    decreases |ids|
  {
    if ids == [] then s
    else if ids[0] in seen then DeleteUnseen(s, ids[1..], seen)
    else DeleteUnseen(Delete(s, ids[0]), ids[1..], seen + {ids[0]})
  }

  /** A set is drained in an order of its own. */
  ghost function SomeOrder(c: set<nat>): (r: seq<nat>)
    ensures Elements(r) == c && NoRepeats(r)
  {
    if c == {} then []
    else
      var x :| x in c;
      var rest := SomeOrder(c - {x});
      assert Elements([x] + rest) == {x} + Elements(rest) && x !in Elements(rest);
      [x] + rest
  }

  function CleanupIn(s: Unit, order: seq<nat>): Unit {
    if s.depth > 0 || (s.cleanupSet == {} && s.uninstallList == []) then s
    else
      var s1 := DeleteEach(s.(cleanupSet := {}), order);
      DeleteUnseen(s1, s.uninstallList, s.cleanupSet).(uninstallList := [])
  }

  ghost function DoCleanup(s: Unit): Unit {
    CleanupIn(s, SomeOrder(s.cleanupSet))
  }

  function Collected(f: Aliases, package: string): seq<nat> {
    if f.End? then []
    else (if f.value.package == package then Postorder(f.kids) + [f.key] else []) + Collected(f.rest, package)
  }

  /** Of these, one is newly listed although one it hangs below has been listed already. */
  predicate Regrowth(s: Unit, listing: seq<nat>) {
    exists x, a :: x in listing && a in s.uninstallList && x !in s.uninstallList && x in Keys(Find(s.forest, a))
  }

  function UninstallPackage(s: Unit, package: string): Unit {
    var listing := Collected(s.forest, package);
    var listed := s.uninstallList + listing;
    if s.depth > 0 then
      DeactivateAll(s, listed).(uninstallList := listed, cleanupSet := s.cleanupSet - Elements(listed),
                                regrown := s.regrown || Regrowth(s, listing))
    else
      DeleteEach(s.(cleanupSet := s.cleanupSet - Elements(listed)), listed).(uninstallList := [])
  }

  // ---- adding ----

  function AppendRoot(f: Aliases, t: Aliases): Aliases {
    if f.End? then t else f.(rest := AppendRoot(f.rest, t))
  }

  /** New aliases, switched on and entered in the lookup table. */
  function Added(s: Unit, forest: Aliases, t: Aliases): Unit {
    s.(forest := forest, maxID := s.maxID + Size(t), lookup := Preorder(t) + s.lookup,
       wanted := s.wanted + Keys(t), active := s.active + Keys(t))
  }

  function AddRoot(s: Unit, value: Alias, items: Aliases): Unit {
    var t := Number(Tree(0, value, items, End), s.maxID);
    Added(s, AppendRoot(s.forest, t), t)
  }

  /** The alias is below a listed one. */
  predicate BelowListed(s: Unit, id: nat) {
    exists a :: a in s.uninstallList && id in Keys(Find(s.forest, a))
  }

  /** One more alias, the last of those below `parent`. */
  function AddBelow(s: Unit, parent: nat, value: Alias): Unit {
    var t := Tree(s.maxID + 1, value, End, End);
    Added(s, InsertBelow(s.forest, parent, Size(s.forest), t), t).(grafted := s.grafted || BelowListed(s, parent))
  }

  /** findFirstAlias(): the newest of that name, queued or not. */
  function FirstNamed(f: Aliases, ids: seq<nat>, name: string): Option<nat> {
    if ids == [] then None
    else if Named(f, ids[0], name) then Some(ids[0])
    else FirstNamed(f, ids[1..], name)
  }

  /** permAlias(): nothing is added when the parent named cannot be found. */
  function AddPerm(s: Unit, parent: string, value: Alias): Unit {
    if parent == "" then AddRoot(s, value, End)
    else
      var found := FirstNamed(s.forest, s.lookup, parent);
      if found.None? then s else AddBelow(s, found.value, value)
  }

  // ---- moving ----

  /** reParentAlias(): the editor moves an alias while no pass is open; what is queued then is temporary, and not shown
      in it. */
  function MoveAlias(s: Unit, id: nat, to: Parent, position: nat): Unit {
    if s.depth > 0 || id in Queued(s) || id !in Keys(s.forest) then s
    else s.(forest := Insert(Remove(s.forest, id), to, position, Find(s.forest, id)))
  }

  // ---- processing ----

  /** How much scripts have yet to do: what is left of a command gets less whenever one of its scripts runs. */
  function Cost(c: Command): nat {
    if c.NoMatch? then 0 else 1 + ScriptCost(c.script) + Cost(c.more)
  }

  function ScriptCost(script: Script): nat {
    if script.Done? then 0 else 1 + ActCost(script.act) + ScriptCost(script.rest)
  }

  function ActCost(a: Act): nat {
    if a.Expand? then 1 + Cost(a.command) else 0
  }

  /** The part of the command that starts with this alias; `NoMatch` when its pattern does not match. */
  function MatchOf(c: Command, id: nat): (r: Command)
    ensures r == c || r < c
    ensures r.Matching? ==> r.alias == id && ScriptCost(r.script) < Cost(c)
  {
    if c.NoMatch? || c.alias == id then c else MatchOf(c.more, id)
  }

  /** What is left to try once this alias has: a pass comes to each alias once. */
  function Tried(c: Command, id: nat): (r: Command)
    ensures Cost(r) <= Cost(c) && (MatchOf(c, id).Matching? ==> Cost(r) < Cost(c))
  {
    if c.NoMatch? then NoMatch
    else if c.alias == id then c.more
    else c.(more := Tried(c.more, id))
  }

  /** What follows an alias on its level by now. */
  function Beyond(f: Aliases, id: nat): Aliases {
    if f.End? then End
    else if f.key == id then f.rest
    else if id in Keys(f.kids) then Beyond(f.kids, id)
    else Beyond(f.rest, id)
  }

  /** processDataStream(): the result says whether an alias took the command. */
  ghost function Process(s: Unit, c: Command): (Unit, bool)
    decreases Cost(c), 4
  {
    if s.stopped then (s, true)
    else if s.depth >= MAX_PROCESSING_DEPTH then (s.(stopped := true), false)
    else
      var (s1, taken) := VisitRoots(Entered(s), c, Roots(s.forest));
      (Leave(s1), taken)
  }

  function Entered(s: Unit): Unit {
    s.(depth := s.depth + 1, passes := s.passes + 1, deepest := if s.deepest > s.depth then s.deepest else s.depth + 1)
  }

  /** The guard that runs when a pass ends. */
  ghost function Leave(s: Unit): Unit {
    var depth := if s.depth > 0 then s.depth - 1 else 0;
    var left := s.(depth := depth, stopped := s.stopped && depth > 1);
    if depth == 0 then DoCleanup(left) else left
  }

  /** The walk over the snapshot of the top level. */
  ghost function VisitRoots(s: Unit, c: Command, snapshot: seq<nat>): (Unit, bool)
    decreases Cost(c), 3, |snapshot|
  {
    if snapshot == [] then (s, false)
    else
      var id := snapshot[0];
      if id !in Keys(s.forest) then (s.(faulted := true), false)
      else if !IsActive(s, id) && id !in s.wanted then VisitRoots(s, c, snapshot[1..])
      else
        var (s1, c1, first) := Visit(s, c, Find(s.forest, id));
        var (s2, others) := VisitRoots(s1, c1, snapshot[1..]);
        (s2, first || others)
  }

  /** match() on each alias of a level in turn. The walk is over the list itself: what a script adds behind is come to
      as well. */
  ghost function VisitLevel(s: Unit, c: Command, level: Aliases): (r: (Unit, Command, bool))
    ensures Cost(r.1) <= Cost(c)
    decreases Cost(c), 2, level, 1
  {
    if level.End? then (s, c, false)
    else
      var (s1, c1, first) := Visit(s, c, level);
      if level.key !in Keys(s1.forest) then (s1.(faulted := true), c1, first)
      else
        var ahead := if Cost(c1) < Cost(c) then Beyond(s1.forest, level.key) else level.rest;
        var (s2, c2, others) := VisitLevel(s1, c1, ahead);
        (s2, c2, first || others)
  }

  /** match() on an alias, and on what is below it: an inactive folder that should be active passes the command on, an
      active alias runs its script if it matches and then passes the command on. */
  ghost function Visit(s: Unit, c: Command, t: Aliases): (r: (Unit, Command, bool))
    requires t.Tree?
    ensures Cost(r.1) <= Cost(c)
    decreases Cost(c), 2, t, 0
  {
    var m := MatchOf(c, t.key);
    if t.key !in Keys(s.forest) then (s.(faulted := true), c, false)
    else if IsActive(s, t.key) then
      if m.NoMatch? then VisitLevel(s, c, t.kids)
      else
        var own := RunScript(s, m.script);
        if t.key !in Keys(own.forest) then (own.(faulted := true), Tried(c, t.key), true)
        else
          var (below, c1, _) := VisitLevel(own, Tried(c, t.key), Find(own.forest, t.key).kids);
          (below, c1, true)
    else if t.value.folder && t.key in s.wanted then VisitLevel(s, c, t.kids)
    else (s, c, false)
  }

  ghost function RunScript(s: Unit, script: Script): Unit
    decreases ScriptCost(script), 5
  {
    if script.Done? then s else RunScript(RunAct(s, script.act), script.rest)
  }

  ghost function RunAct(s: Unit, a: Act): Unit
    decreases ActCost(a), 6
  {
    match a
    case Kill(name) => KillFrom(s, s.lookup, name).0
    case Enable(name) => EnableFrom(s, s.lookup, name).0
    case Disable(name) => DisableFrom(s, s.lookup, name).0
    case Uninstall(package) => UninstallPackage(s, package)
    case Install(package, items) => AddRoot(s, Alias(package, package, false, true, true), items)
    case RemoveTemps => if s.depth > 0 then s else RemoveTempsFrom(s, Roots(s.forest))
    case NewTemp(name) => AddRoot(s, Alias(name, "", true, false, true), End)
    case NewPerm(parent, name, folder) => AddPerm(s, parent, Alias(name, "", false, folder, true))
    case Move(id, to, position) => MoveAlias(s, id, to, position)
    case Cleanup => DoCleanup(s)
    case Expand(command) =>
      var (s1, taken) := Process(s, command);
      if taken then s1 else s1.(sent := s1.sent + 1)
  }
}
