/** Whole runs of the editor's undo stack: whatever is edited, undone and redone, and whatever handlers push in
    the middle of it, the forest at each index is the one last pushed there, up to item IDs. */
module UndoRuns {
  import opened Collections
  import opened Forests
  import opened EditorCommands
  import opened DeletedSubtrees
  import opened DeletePlaces
  import opened RenamedDeletes
  import opened UndoStack
  import opened UndoHistory
  import opened UndoPushing

  /** The stack where an edit starts: current forest, latest IDs, pending changes that touch none of them. */
  ghost predicate Starting(s: Stack, changes: Changes, b: Book) {
    && |b.hist| == |b.acts| + 1 == |s.commands| + 1 && s.index <= |b.acts|
    && Ledger(b.cur, b.issued, s.unit.maxID) && Settled(changes, b.cur, s.unit.maxID)
    && Distinct(b.hist[s.index]) && Keys(b.hist[s.index]) <= b.cur.Keys
    && s.unit.forest == Rename(b.hist[s.index], b.cur)
  }

  lemma {:induction false} StartOf(s: Stack, changes: Changes, b: Book)
    requires InvOnce(s, changes, b)
    ensures Starting(s, changes, b) && Shaped(s)
  {
  }

  lemma {:induction false} IdentityOf(f: Items, cur: map<nat, nat>, id: nat) returns (v: nat)
    requires id in Keys(Rename(f, cur))
    ensures v in Keys(f) && At(cur, v) == id
  {
    RenameKeys(f, cur);
    v :| v in Keys(f) && At(cur, v) == id;
  }

  lemma {:induction false} SameIssued(s: Stack, changes: Changes, b: Book, u: Unit, c: Command, a: Act, g: Items)
    requires Starting(s, changes, b) && u.maxID == s.unit.maxID && u.forest == Rename(g, b.cur)
    requires Distinct(g) && Keys(g) <= Keys(b.hist[s.index]) && Truthful(a, b.hist[s.index], g)
    requires Holds(c, a, b.cur, b.issued, g, false)
    requires a.DeleteAct? ==> forall l :: 0 <= l < s.index ==> ActNames(b.acts[l]) !! Inner(a.es)
    ensures Recording(b, s.index, changes, s.unit.maxID, u, c, a, g, b.cur, b.issued)
  {
  }

  lemma {:induction false} ModifyRecorded(s: Stack, changes: Changes, b: Book, e: Edit) returns (a: Act, g: Items)
    requires Starting(s, changes, b) && e.ModifyEdit? && Accepted(s, e, changes)
    ensures var (u, c) := Edited(s.unit, e);
            && RedoCommand(c, u).0 == u
            && Recording(b, s.index, changes, s.unit.maxID, u, RedoCommand(c, u).1, a, g, b.cur, b.issued)
  {
    var f := b.hist[s.index];
    var v := IdentityOf(f, b.cur, e.itemID);
    a, g := ModifyAct(v, Find(f, v).value, e.state), SetValue(f, v, e.state);
    SetRenamed(f, v, e.state, b.cur, s.unit.maxID);
    SetValueFacts(f, v, e.state);
    var (u, c) := Edited(s.unit, e);
    SameIssued(s, changes, b, u, RedoCommand(c, u).1, a, g);
  }

  lemma {:induction false} ToggleRecorded(s: Stack, changes: Changes, b: Book, e: Edit) returns (a: Act, g: Items)
    requires Starting(s, changes, b) && e.ToggleEdit? && Accepted(s, e, changes)
    ensures var (u, c) := Edited(s.unit, e);
            && RedoCommand(c, u).0 == u
            && Recording(b, s.index, changes, s.unit.maxID, u, RedoCommand(c, u).1, a, g, b.cur, b.issued)
  {
    var f := b.hist[s.index];
    var v := IdentityOf(f, b.cur, e.itemID);
    var item := Find(f, v).value.(active := e.active);
    a, g := ToggleAct(v, Find(f, v).value.active, e.active), SetValue(f, v, item);
    SetRenamed(f, v, item, b.cur, s.unit.maxID);
    SetValueFacts(f, v, item);
    var (u, c) := Edited(s.unit, e);
    SameIssued(s, changes, b, u, RedoCommand(c, u).1, a, g);
  }

  lemma {:induction false} MoveRecorded(s: Stack, changes: Changes, b: Book, e: Edit) returns (a: Act, g: Items)
    requires Starting(s, changes, b) && e.MoveEdit? && Accepted(s, e, changes)
    ensures var (u, c) := Edited(s.unit, e);
            && RedoCommand(c, u).0 == u
            && Recording(b, s.index, changes, s.unit.maxID, u, RedoCommand(c, u).1, a, g, b.cur, b.issued)
  {
    var f := b.hist[s.index];
    var v := IdentityOf(f, b.cur, e.itemID);
    InjectiveWithin(b.cur, s.unit.maxID, Keys(f) + {v});
    FindRemoveKeys(f, v);
    RenameFindRemove(f, v, b.cur);
    RenameLocate(f, v, Root, 0, b.cur);
    LocateShape(f, v, Root, 0);
    var to := Root;
    if e.to.Under? {
      var w := IdentityOf(Remove(f, v), b.cur, e.to.key);
      to := Under(w);
    }
    var place := Locate(f, v).value;
    a := MoveAct(v, place.0, to, place.1, e.position);
    g := Insert(Remove(f, v), to, e.position, Find(f, v));
    ReParentRenamed(f, v, to, e.position, b.cur, s.unit.maxID);
    InsertThenRemove(Remove(f, v), to, e.position, Find(f, v));
    var (u, c) := Edited(s.unit, e);
    SameIssued(s, changes, b, u, RedoCommand(c, u).1, a, g);
  }

  // ---- adding ----

  ghost function NewIDs(n: nat, n': nat): (r: set<nat>)
    ensures forall k :: k in r <==> n < k <= n'
    decreases n'
  {
    if n' <= n then {} else NewIDs(n, n' - 1) + {n'}
  }

  /** A new item's identity is its ID. */
  ghost function WithNew(cur: map<nat, nat>, n: nat, n': nat): map<nat, nat> {
    map k | k in cur.Keys + NewIDs(n, n') :: if k in cur then cur[k] else k
  }

  lemma {:induction false} NewLedger(cur: map<nat, nat>, issued: set<(nat, nat)>, n: nat, n': nat, changes: Changes)
    requires Ledger(cur, issued, n) && n <= n' && Settled(changes, cur, n)
    ensures var cur' := WithNew(cur, n, n');
            && Ledger(cur', IssuedNow(issued, cur'), n') && Settled(changes, cur', n') && Fits(cur', n')
            && (forall v :: v in cur ==> v in cur' && At(cur', v) == At(cur, v))
            && (forall v :: n < v <= n' ==> v in cur' && At(cur', v) == v)
  {
    var cur' := WithNew(cur, n, n');
    forall a, b | a in cur'.Keys && b in cur'.Keys && At(cur', a) == At(cur', b) ensures a == b {
      assert a in cur ==> At(cur, a) == cur[a];
      assert b in cur ==> At(cur, b) == cur[b];
    }
    LedgerAfter(cur, issued, n, cur', n');
  }

  lemma {:induction false} RenameIdentity(f: Items, m: map<nat, nat>)
    requires forall k :: k in Keys(f) ==> At(m, k) == k
    ensures Rename(f, m) == f
  {
    if f.Tree? {
      RenameIdentity(f.kids, m);
      RenameIdentity(f.rest, m);
    }
  }

  /** The parent, as an identity: one that cannot be found means the top level. */
  lemma {:induction false} ParentFound(f: Items, cur: map<nat, nat>, parent: Parent) returns (p: Parent)
    ensures ParentName(p) <= Keys(f)
    ensures forall position, t: Items :: t.Tree? ==>
              Insert(Rename(f, cur), parent, position, t) == Insert(Rename(f, cur), ParentAt(cur, p), position, t)
  {
    p := Root;
    if parent.Under? && parent.key in Keys(Rename(f, cur)) {
      var w := IdentityOf(f, cur, parent.key);
      p := Under(w);
    }
  }

  /** The forest and place a new subtree ends up in. */
  lemma {:induction false} AddedForest(f: Items, cur: map<nat, nat>, cur': map<nat, nat>, n: nat, shape: Items, parent: Parent,
                    position: nat) returns (g: Items)
    requires Distinct(f) && Keys(f) <= cur.Keys && Fits(cur', n + Size(shape)) && shape.Tree? && shape.rest.End?
    requires forall v :: v in cur ==> 0 < v <= n && v in cur' && At(cur', v) == At(cur, v)
    requires forall v :: n < v <= n + Size(shape) ==> v in cur' && At(cur', v) == v
    ensures var t := Number(shape, n);
            && t.key == n + 1 && t.key in Keys(g) && At(cur', t.key) == t.key
            && Insert(Rename(f, cur), parent, position, t) == Rename(g, cur')
            && Distinct(g) && Keys(g) == Keys(f) + Keys(t) && Keys(g) <= cur'.Keys && Remove(g, t.key) == f
            && (forall x :: x in Keys(t) ==> x !in cur)
  {
    var t := Number(shape, n);
    var p := ParentFound(f, cur, parent);
    NumberKeys(shape, n);
    g := Insert(f, p, position, t);
    InsertThenRemove(f, p, position, t);
    RenameAgree(f, cur, cur');
    RenameIdentity(t, cur');
    InjectiveWithin(cur', n + Size(shape), Keys(f) + if p.Under? then {p.key} else {});
    RenameInsert(f, p, position, t, cur');
    assert ParentAt(cur', p) == ParentAt(cur, p);
  }

  lemma {:induction false} AddRecorded(s: Stack, changes: Changes, b: Book, e: Edit) returns (a: Act, g: Items, cur: map<nat, nat>)
    requires Starting(s, changes, b) && e.AddEdit? && Accepted(s, e, changes)
    ensures var (u, c) := Edited(s.unit, e);
            && RedoCommand(c, u).0 == u
            && Recording(b, s.index, changes, s.unit.maxID, u, RedoCommand(c, u).1, a, g, cur, IssuedNow(b.issued, cur))
  {
    hide *;
    AddStarts(s, changes, b, e);
    var n := s.unit.maxID;
    var n' := n + Size(e.shape);
    cur := WithNew(b.cur, n, n');
    NewLedger(b.cur, b.issued, n, n', changes);
    g := AddedForest(b.hist[s.index], b.cur, cur, n, e.shape, e.parent, e.position);
    a := AddedCommand(s.unit, e, g, cur, IssuedNow(b.issued, cur));
    AddedRecording(s, changes, b, e, a, g, cur);
  }

  lemma {:induction false} AddStarts(s: Stack, changes: Changes, b: Book, e: Edit)
    requires Starting(s, changes, b) && e.AddEdit? && Accepted(s, e, changes)
    ensures s.index < |b.hist| && Distinct(b.hist[s.index]) && Keys(b.hist[s.index]) <= b.cur.Keys
    ensures s.unit.forest == Rename(b.hist[s.index], b.cur) && e.shape.Tree? && e.shape.rest.End?
    ensures Ledger(b.cur, b.issued, s.unit.maxID) && Settled(changes, b.cur, s.unit.maxID)
    ensures forall v :: v in b.cur ==> 0 < v <= s.unit.maxID
    ensures Edited(s.unit, e).0.maxID == s.unit.maxID + Size(e.shape)
  {
  }

  lemma {:induction false} AddedCommand(unit: Unit, e: Edit, g: Items, cur: map<nat, nat>, issued: set<(nat, nat)>) returns (a: Act)
    requires e.AddEdit? && e.shape.Tree? && Fits(cur, unit.maxID + Size(e.shape)) && Distinct(g) && Keys(g) <= cur.Keys
    requires var t := Number(e.shape, unit.maxID);
             && t.key in Keys(g) && At(cur, t.key) == t.key
             && Insert(unit.forest, e.parent, e.position, t) == Rename(g, cur)
    ensures a.AddAct? && a.u == unit.maxID + 1 && Locate(g, a.u) == Some((a.parent, a.position))
    ensures var (u, c) := Edited(unit, e);
            && RedoCommand(c, u).0 == u && u == Unit(Rename(g, cur), unit.maxID + Size(e.shape))
            && Holds(RedoCommand(c, u).1, a, cur, issued, g, false)
  {
    var t := Number(e.shape, unit.maxID);
    InjectiveWithin(cur, unit.maxID + Size(e.shape), Keys(g) + {t.key});
    LocateShape(g, t.key, Root, 0);
    RenameLocate(g, t.key, Root, 0, cur);
    var place := Locate(g, t.key).value;
    a := AddAct(t.key, place.0, place.1);
  }

  lemma {:induction false} AddedRecording(s: Stack, changes: Changes, b: Book, e: Edit, a: Act, g: Items, cur: map<nat, nat>)
    requires Starting(s, changes, b) && e.AddEdit? && e.shape.Tree? && a.AddAct?
    requires var t := Number(e.shape, s.unit.maxID);
             && a.u == t.key && t.key in Keys(g) && Locate(g, a.u) == Some((a.parent, a.position))
             && Distinct(g) && Keys(g) == Keys(b.hist[s.index]) + Keys(t) && Keys(g) <= cur.Keys
             && Remove(g, t.key) == b.hist[s.index] && (forall x :: x in Keys(t) ==> x !in b.cur)
    requires var (u, c) := Edited(s.unit, e);
             && u == Unit(Rename(g, cur), s.unit.maxID + Size(e.shape))
             && Ledger(cur, IssuedNow(b.issued, cur), u.maxID) && Settled(changes, cur, u.maxID)
             && Holds(RedoCommand(c, u).1, a, cur, IssuedNow(b.issued, cur), g, false)
    requires forall v :: v in b.cur ==> v in cur && At(cur, v) == At(b.cur, v)
    ensures var (u, c) := Edited(s.unit, e);
            Recording(b, s.index, changes, s.unit.maxID, u, RedoCommand(c, u).1, a, g, cur, IssuedNow(b.issued, cur))
  {
  }

  // ---- deleting ----

  ghost function Inverse(cur: map<nat, nat>): map<nat, nat>
    requires InjectiveOn(cur, cur.Keys)
  {
    map u | u in cur :: At(cur, u) := u
  }

  lemma {:induction false} InverseFacts(f: Items, cur: map<nat, nat>, n: nat)
    requires Fits(cur, n) && Keys(f) <= cur.Keys
    ensures var inv := Inverse(cur);
            && Rename(Rename(f, cur), inv) == f
            && InjectiveOn(inv, Keys(Rename(f, cur)))
            && (forall id :: id in Keys(Rename(f, cur)) ==> At(cur, At(inv, id)) == id && At(inv, id) in Keys(f))
            && (forall v :: v in cur ==> At(inv, At(cur, v)) == v)
  {
    var inv := Inverse(cur);
    RenameKeys(f, cur);
    forall v | v in cur ensures At(inv, At(cur, v)) == v {
      assert At(cur, v) in inv;
    }
    RenameBack(f, cur, inv);
  }

  lemma {:induction false} NothingListed(f: Items, cs: seq<Entry>, tops: seq<nat>)
    requires Indices(tops, |cs|) && forall j :: 0 <= j < |tops| ==> cs[tops[j]].itemID !in Keys(f)
    ensures DeleteListed(f, cs, tops) == f
    decreases |tops|
  {
    if tops != [] {
      assert cs[tops[0]].itemID !in Keys(f);
      NothingListed(f, cs, tops[1..]);
    }
  }

  /** The deletion was made before the command was pushed, so its first redo() finds nothing. */
  lemma {:induction false} FirstRedoFindsNothing(es: seq<Entry>, before: Items)
    requires WellRecorded(es, before)
    ensures var g := Taken(before, es, Tops(es));
            DeleteListed(g, RecordedAll(es), Tops(RecordedAll(es))) == g && Tops(RecordedAll(es)) == Tops(es)
  {
    var cs := RecordedAll(es);
    assert IDs(cs) == IDs(es);
    SameTopsBelow(cs, es, |es|);
    forall j | 0 <= j < |Tops(es)| ensures es[Tops(es)[j]].itemID !in Keys(Taken(before, es, Tops(es))) {
      assert TopSnapshot(es, Tops(es)[j]);
      var k := TurnOf(es, before, Tops(es)[j]);
    }
    NothingListed(Taken(before, es, Tops(es)), cs, Tops(es));
  }

  lemma {:induction false} RecordedAsIdentities(es: seq<Entry>, f: Items, forest: Items, cur: map<nat, nat>, n: nat)
    requires Fits(cur, n) && Keys(f) <= cur.Keys && forest == Rename(f, cur)
    requires WellRecorded(es, forest) && GoesBack(es, forest)
    ensures var rs := RenameEntries(es, Inverse(cur));
            && WellRecorded(rs, f) && GoesBack(rs, f) && Tops(rs) == Tops(es)
            && Taken(forest, es, Tops(es)) == Rename(Taken(f, rs, Tops(rs)), cur)
            && Current(RecordedAll(es), rs, cur)
  {
    hide *;
    CurrentInjective(cur, n);
    InverseFacts(f, cur, n);
    WellRecordedRenamed(es, forest, Inverse(cur));
    GoesBackRenamed(es, forest, Inverse(cur));
    TakenBack(es, forest, cur, Inverse(cur));
    EntriesBack(es, forest, cur, Inverse(cur));
  }

  lemma {:induction false} CurrentInjective(cur: map<nat, nat>, n: nat)
    requires Fits(cur, n)
    ensures InjectiveOn(cur, cur.Keys)
  {
  }

  lemma {:induction false} TakenBack(es: seq<Entry>, forest: Items, cur: map<nat, nat>, inv: map<nat, nat>)
    requires WellRecorded(es, forest) && forall id :: id in Keys(forest) ==> At(cur, At(inv, id)) == id
    ensures Rename(Rename(Taken(forest, es, Tops(es)), inv), cur) == Taken(forest, es, Tops(es))
  {
    TakenKeys(forest, es, Tops(es));
    RenameBack(Taken(forest, es, Tops(es)), inv, cur);
  }

  lemma {:induction false} EntriesBack(es: seq<Entry>, forest: Items, cur: map<nat, nat>, inv: map<nat, nat>)
    requires WellRecorded(es, forest) && forall id :: id in Keys(forest) ==> At(cur, At(inv, id)) == id
    ensures Current(RecordedAll(es), RenameEntries(es, inv), cur)
  {
    forall i: nat | i < |es| ensures Recorded(es[i]) == MapEntry(RenameEntry(es[i], inv), cur) {
      EntryKnown(es, forest, i);
      EntryBack(es[i], cur, inv);
    }
  }

  lemma {:induction false} EntryBack(e: Entry, cur: map<nat, nat>, inv: map<nat, nat>)
    requires At(cur, At(inv, e.itemID)) == e.itemID
    requires e.parent.Under? ==> At(cur, At(inv, e.parent.key)) == e.parent.key
    ensures Recorded(e) == MapEntry(RenameEntry(e, inv), cur)
  {
    RenameStrip(e.snapshot, inv);
  }

  lemma {:induction false} NamedThrough(c: Command, a: Act, cur: map<nat, nat>, issued: set<(nat, nat)>, g: Items, undone: bool, x: nat)
    requires Holds(c, a, cur, issued, g, undone) && x in ActNames(a)
    ensures At(cur, x) in Named(c)
  {
    if a.DeleteAct? {
      var cs := c.del.entries;
      var i: nat :| i < |a.es| && (a.es[i].itemID == x || (a.es[i].parent.Under? && a.es[i].parent.key == x));
      assert cs[i] == MapEntry(a.es[i], cur);
      assert cs[i].itemID in EntryNames(cs);
      assert cs[i].parent.Under? ==> cs[i].parent.key in EntryNames(cs);
    }
  }

  lemma {:induction false} InnerOutOfReach(s: Stack, changes: Changes, b: Book, es: seq<Entry>, l: nat)
    requires InvOnce(s, changes, b) && l < s.index <= |s.commands| == |b.acts| && |b.hist| == |b.acts| + 1
    requires Accepted(s, DeleteEdit(es), changes) && Starting(s, changes, b)
    requires WellRecorded(RenameEntries(es, Inverse(b.cur)), b.hist[s.index])
    ensures ActNames(b.acts[l]) !! Inner(RenameEntries(es, Inverse(b.cur)))
  {
    var inv, f := Inverse(b.cur), b.hist[s.index];
    var rs, c := RenameEntries(es, inv), RemapCommand(s.commands[l], changes);
    InverseFacts(f, b.cur, s.unit.maxID);
    AllMovedGone(rs, f);
    assert Holds(RemapAll(s.commands, changes)[l], b.acts[l], b.cur, b.issued, b.hist[l + 1], false);
    forall x | x in ActNames(b.acts[l]) ensures x !in Inner(rs) {
      if x in Inner(rs) {
        NamedThrough(c, b.acts[l], b.cur, b.issued, b.hist[l + 1], false, x);
        RenameKeys(f, b.cur);
        InnerRenamed(es, s.unit.forest, inv, At(b.cur, x));
        assert false;
      }
    }
  }

  lemma {:induction false} DeleteRecorded(s: Stack, changes: Changes, b: Book, e: Edit) returns (a: Act, g: Items)
    requires InvOnce(s, changes, b) && Starting(s, changes, b) && e.DeleteEdit? && Accepted(s, e, changes)
    ensures var (u, c) := Edited(s.unit, e);
            && RedoCommand(c, u).0 == u
            && Recording(b, s.index, changes, s.unit.maxID, u, RedoCommand(c, u).1, a, g, b.cur, b.issued)
  {
    var es, f := e.entries, b.hist[s.index];
    var rs := RenameEntries(es, Inverse(b.cur));
    RestorableGoesBack(es, s.unit.forest);
    RecordedAsIdentities(es, f, s.unit.forest, b.cur, s.unit.maxID);
    TakenKeys(f, rs, Tops(rs));
    a, g := DeleteAct(rs), Taken(f, rs, Tops(rs));
    FirstRedoFindsNothing(es, s.unit.forest);
    var (u, c) := Edited(s.unit, e);
    forall l | 0 <= l < s.index ensures ActNames(b.acts[l]) !! Inner(rs) {
      InnerOutOfReach(s, changes, b, es, l);
    }
    SameIssued(s, changes, b, u, c, a, g);
  }

  // ---- whole runs ----

  /** Any edit, at any time: one that is not accepted changes nothing, any other is recorded truly. */
  lemma {:induction false} Performed(s: Stack, e: Edit, changes: Changes, b: Book) returns (b': Book)
    requires InvOnce(s, changes, b) && Shaped(s)
    ensures InvOnce(Perform(s, e, changes), changes, b')
  {
    StartOf(s, changes, b);
    if !Accepted(s, e, changes) {
      b' := b;
    } else {
      var a, g, cur, issued := PerformedAct(s, e, changes, b);
      var (u, c) := Edited(s.unit, e);
      b' := PushTold(s, changes, b, u, c, if c.Modify? then c.edit.created else 0, a, g, cur, issued);
    }
  }

  lemma {:induction false} PerformedAct(s: Stack, e: Edit, changes: Changes, b: Book)
    returns (a: Act, g: Items, cur: map<nat, nat>, issued: set<(nat, nat)>)
    requires InvOnce(s, changes, b) && Starting(s, changes, b) && Accepted(s, e, changes)
    ensures var (u, c) := Edited(s.unit, e);
            && RedoCommand(c, u).0 == u
            && Recording(b, s.index, changes, s.unit.maxID, u, RedoCommand(c, u).1, a, g, cur, issued)
  {
    hide *;
    cur, issued := b.cur, b.issued;
    match e
    case AddEdit(_, _, _) =>
      a, g, cur := AddRecorded(s, changes, b, e);
      issued := IssuedNow(b.issued, cur);
    case DeleteEdit(_) => a, g := DeleteRecorded(s, changes, b, e);
    case MoveEdit(_, _, _) => a, g := MoveRecorded(s, changes, b, e);
    case ModifyEdit(_, _, _, _) => a, g := ModifyRecorded(s, changes, b, e);
    case ToggleEdit(_, _) => a, g := ToggleRecorded(s, changes, b, e);
  }

  lemma {:induction false} PerformedAll(s: Stack, es: seq<Edit>, changes: Changes, b: Book) returns (b': Book)
    requires InvOnce(s, changes, b) && Shaped(s)
    ensures InvOnce(PerformAll(s, es, changes), changes, b')
    decreases |es|
  {
    if es == [] {
      b' := b;
    } else {
      var b1 := Performed(s, es[0], changes, b);
      b' := PerformedAll(Perform(s, es[0], changes), es[1..], changes, b1);
    }
  }

  lemma {:induction false} InvNow(s: Stack, b: Book)
    ensures InvOnce(s, [], b) <==> Inv(s, b)
  {
    NothingToRemap(s.commands);
    NothingBrings(b.cur, s.unit.maxID);
  }

  lemma {:induction false} FinishedHolds(s: Stack, b: Book, id: nat)
    requires Inv(s, b)
    ensures Inv(s.(commands := FinishBelow(s.commands, s.index, id)), b)
  {
    var cs := FinishBelow(s.commands, s.index, id);
    forall k | 0 <= k < |cs| ensures Holds(cs[k], b.acts[k], b.cur, b.issued, b.hist[k + 1], k >= s.index) {
      assert Holds(s.commands[k], b.acts[k], b.cur, b.issued, b.hist[k + 1], k >= s.index);
    }
  }

  lemma {:induction false} UndoTold(s: Stack, handler: seq<Edit>, b: Book) returns (b': Book)
    requires Inv(s, b) && Shaped(s) && s.index > 0
    ensures Inv(Step(s, Undo(handler)), b')
  {
    var (s1, changes) := UndoBase(s);
    var b1 := b;
    if b.acts[s.index - 1].DeleteAct? {
      b1 := UndoDeleteStep(s, b);
    } else {
      UndoOtherStep(s, b);
    }
    b' := PerformedAll(s1, handler, changes, b1);
  }

  lemma {:induction false} RedoTold(s: Stack, handler: seq<Edit>, b: Book) returns (b': Book)
    requires Inv(s, b) && Shaped(s) && s.index < |s.commands|
    ensures Inv(Step(s, Redo(handler)), b')
  {
    var (s1, changes) := RedoBase(s);
    var b1 := b;
    if b.acts[s.index].AddAct? {
      b1 := RedoAddStep(s, b);
    } else {
      RedoOtherStep(s, b);
    }
    b' := PerformedAll(s1, handler, changes, b1);
  }

  /** One step of the editor keeps the invariant. */
  lemma {:induction false} Stepped(s: Stack, e: Event, b: Book) returns (b': Book)
    requires Inv(s, b) && Shaped(s)
    ensures Inv(Step(s, e), b')
  {
    b' := b;
    match e
    case Push(edit) =>
      InvNow(s, b);
      b' := Performed(s, edit, [], b);
      InvNow(Perform(s, edit, []), b');
    case Undo(handler) => if s.index > 0 { b' := UndoTold(s, handler, b); }
    case Redo(handler) => if s.index < |s.commands| { b' := RedoTold(s, handler, b); }
    case FinishAdding(id) => FinishedHolds(s, b, id);
  }

  lemma {:induction false} RunTold(s: Stack, events: seq<Event>, b: Book) returns (b': Book)
    requires Inv(s, b) && Shaped(s)
    ensures Inv(Run(s, events), b')
    decreases |events|
  {
    if events == [] {
      b' := b;
    } else {
      var b1 := Stepped(s, events[0], b);
      b' := RunTold(Step(s, events[0]), events[1..], b1);
    }
  }

  ghost predicate Opened(u: Unit) {
    Distinct(u.forest) && forall k :: k in Keys(u.forest) ==> 0 < k <= u.maxID
  }

  lemma {:induction false} FreshTold(u: Unit) returns (b: Book)
    requires Opened(u)
    ensures Inv(Fresh(u), b) && Shaped(Fresh(u))
  {
    var cur := map k | k in Keys(u.forest) :: k;
    b := Book([u.forest], [], cur, set k | k in Keys(u.forest) :: (k, k));
    RenameIdentity(u.forest, cur);
  }

  /** For every run over any unit, the forest shown at an index is the one last pushed there, up to item IDs. */
  lemma {:induction false} RunShowsWhatWasPushed(u: Unit, events: seq<Event>)
    requires Opened(u)
    ensures var s := Run(Fresh(u), events);
            s.index < |s.pushed| && Strip(s.unit.forest) == s.pushed[s.index]
  {
    var b0 := FreshTold(u);
    var b := RunTold(Fresh(u), events, b0);
    ShownIsPushed(Run(Fresh(u), events), b);
  }

  lemma {:induction false} ShownIsPushed(s: Stack, b: Book)
    requires Inv(s, b)
    ensures s.index < |s.pushed| && Strip(s.unit.forest) == s.pushed[s.index]
  {
    RenameStrip(b.hist[s.index], b.cur);
  }

  /** For every run, every stacked command holds the latest IDs of the items it was pushed for. */
  lemma {:induction false} RunKeepsLatestIDs(u: Unit, events: seq<Event>) returns (b: Book)
    requires Opened(u)
    ensures var s := Run(Fresh(u), events);
            && |b.acts| == |s.commands| && |b.hist| == |s.commands| + 1
            && s.unit.forest == Rename(b.hist[s.index], b.cur) && Ledger(b.cur, b.issued, s.unit.maxID)
            && (forall k :: 0 <= k < |b.acts| ==> Truthful(b.acts[k], b.hist[k], b.hist[k + 1]))
            && (forall k :: 0 <= k < |b.acts| ==>
                  Holds(s.commands[k], b.acts[k], b.cur, b.issued, b.hist[k + 1], k >= s.index))
  {
    var b0 := FreshTold(u);
    b := RunTold(Fresh(u), events, b0);
  }

  /** The item a command works on, for the kinds that work on one. */
  function Target(c: Command): Option<nat> {
    match c
    case Add(a) => Some(a.itemID)
    case Delete(_) => None
    case Move(m) => Some(m.itemID)
    case Modify(m) => Some(m.itemID)
    case Toggle(t) => Some(t.itemID)
  }

  /** After any run the next undo, and the next redo of anything but an add, find their item. */
  lemma {:induction false} NextCommandHitsItsItem(u: Unit, events: seq<Event>)
    requires Opened(u)
    ensures var s := Run(Fresh(u), events);
            && (s.index > 0 && Target(s.commands[s.index - 1]).Some? ==>
                  Target(s.commands[s.index - 1]).value in Keys(s.unit.forest))
            && (s.index < |s.commands| && Target(s.commands[s.index]).Some? && !s.commands[s.index].Add? ==>
                  Target(s.commands[s.index]).value in Keys(s.unit.forest))
  {
    hide *;
    var b0 := FreshTold(u);
    var b := RunTold(Fresh(u), events, b0);
    var s := Run(Fresh(u), events);
    InvParts(s, b);
    if s.index > 0 {
      DoneTarget(s, b);
    }
    if s.index < |s.commands| {
      UndoneTarget(s, b);
    }
  }

  lemma {:induction false} DoneTarget(s: Stack, b: Book)
    requires Inv(s, b) && 0 < s.index <= |s.commands|
    ensures Target(s.commands[s.index - 1]).Some? ==>
              Target(s.commands[s.index - 1]).value in Keys(s.unit.forest)
  {
    var k := s.index - 1;
    var a, f, g := b.acts[k], b.hist[k], b.hist[k + 1];
    assert Holds(s.commands[k], a, b.cur, b.issued, g, false) && Truthful(a, f, g);
    RenameKeys(g, b.cur);
    match a
    case AddAct(_, _, _) =>
    case DeleteAct(_) =>
    case MoveAct(u, from, to, i, j) => MovedItem(u, from, to, i, j, f, g);
    case ModifyAct(u, _, after) => SetValueFacts(f, u, after);
    case ToggleAct(u, _, now) => SetValueFacts(f, u, Find(f, u).value.(active := now));
  }

  lemma {:induction false} UndoneTarget(s: Stack, b: Book)
    requires Inv(s, b) && s.index < |s.commands|
    ensures Target(s.commands[s.index]).Some? && !s.commands[s.index].Add? ==>
              Target(s.commands[s.index]).value in Keys(s.unit.forest)
  {
    var k := s.index;
    assert Holds(s.commands[k], b.acts[k], b.cur, b.issued, b.hist[k + 1], true);
    assert Truthful(b.acts[k], b.hist[k], b.hist[k + 1]);
    RenameKeys(b.hist[k], b.cur);
  }

  // ---- undoing and redoing without edits in between ----

  function Times(e: Event, n: nat): (r: seq<Event>)
    ensures |r| == n
  {
    if n == 0 then [] else [e] + Times(e, n - 1)
  }

  lemma {:induction false} UndoneTimes(s: Stack, n: nat)
    requires Shaped(s) && n <= s.index
    ensures var s' := Run(s, Times(Undo([]), n));
            s'.index == s.index - n && s'.pushed == s.pushed && |s'.commands| == |s.commands|
    decreases n
  {
    if n > 0 {
      UndoneTimes(Step(s, Undo([])), n - 1);
    }
  }

  lemma {:induction false} RedoneTimes(s: Stack, n: nat)
    requires Shaped(s) && s.index + n <= |s.commands|
    ensures var s' := Run(s, Times(Redo([]), n));
            s'.index == s.index + n && s'.pushed == s.pushed && |s'.commands| == |s.commands|
    decreases n
  {
    if n > 0 {
      RedoneTimes(Step(s, Redo([])), n - 1);
    }
  }

  /** After any run, undoing `n` times and then redoing `m` times shows exactly what was last pushed at the
      index arrived at. */
  lemma {:induction false} ThereAndBack(u: Unit, events: seq<Event>, n: nat, m: nat)
    requires Opened(u) && m <= n <= Run(Fresh(u), events).index
    ensures var s := Run(Fresh(u), events);
            var s' := Run(Run(s, Times(Undo([]), n)), Times(Redo([]), m));
            s.index - n + m < |s.pushed| && Strip(s'.unit.forest) == s.pushed[s.index - n + m]
  {
    hide *;
    var b0 := FreshTold(u);
    var s := Run(Fresh(u), events);
    var b1 := RunTold(Fresh(u), events, b0);
    InvParts(s, b1);
    var s1 := Run(s, Times(Undo([]), n));
    var b2 := RunTold(s, Times(Undo([]), n), b1);
    var b3 := RunTold(s1, Times(Redo([]), m), b2);
    UndoneTimes(s, n);
    RedoneTimes(s1, m);
    ShownIsPushed(Run(s1, Times(Redo([]), m)), b3);
  }

  // ---- what a delete does not report ----

  /** Undoing a delete brings a stored ID up to date exactly when it is not that of an inner item. */
  lemma {:induction false} DeleteReportsAllButInner(d: DeleteItem, u: Unit, es: seq<Entry>, before: Items, m: map<nat, nat>)
    returns (m': map<nat, nat>)
    requires WellRecorded(es, before) && Stands(d, u, es, before, Taken(before, es, Tops(es)), m)
    ensures var (u', d') := UndoDelete(d, u);
            && Stands(d', u', es, before, Restored(es, before), m')
            && forall v :: v in m ==> (RemapThrough(At(m, v), d'.idChanges) == At(m', v) <==> v !in Inner(es))
  {
    m' := DeleteUndone(d, u, es, before, m);
  }
}