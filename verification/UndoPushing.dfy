/** Pushing onto the undo stack keeps its invariant, whether the command is merged, appended, or makes the
    stack forget its oldest one. */
module UndoPushing {
  import opened Collections
  import opened Forests
  import opened EditorCommands
  import opened DeletedSubtrees
  import opened UndoStack
  import opened UndoHistory

  /** What a push needs: the user's action led from the current forest to `g`, and `c` (its skipped first
      redo() behind it) records that truly. */
  ghost predicate Recording(b: Book, index: nat, changes: Changes, n: nat, u: Unit, c: Command, a: Act, g: Items,
                            cur: map<nat, nat>, issued: set<(nat, nat)>) {
    && |b.hist| == |b.acts| + 1 && index <= |b.acts| && n <= u.maxID
    && Ledger(cur, issued, u.maxID) && Settled(changes, cur, u.maxID) && b.issued <= issued
    && (forall v :: v in b.cur ==> v in cur && At(cur, v) == At(b.cur, v))
    && Distinct(g) && Keys(g) <= cur.Keys
    && (forall x :: x in Keys(g) ==> x in Keys(b.hist[index]) || x !in b.cur)
    && Truthful(a, b.hist[index], g) && u.forest == Rename(g, cur)
    && Holds(c, a, cur, issued, g, false)
    && (a.DeleteAct? ==> forall l :: 0 <= l < index ==> ActNames(b.acts[l]) !! Inner(a.es))
  }

  /** The book with everything from the index on replaced by one act. */
  ghost function Written(b: Book, index: nat, a: Act, g: Items, cur: map<nat, nat>, issued: set<(nat, nat)>): Book
    requires |b.hist| == |b.acts| + 1 && index <= |b.acts|
  {
    Book(b.hist[..index + 1] + [g], b.acts[..index] + [a], cur, issued)
  }

  lemma {:induction false} WrittenConvex(hist: seq<Items>, index: nat, g: Items, known: set<nat>)
    requires Convex(hist) && index < |hist|
    requires forall j :: 0 <= j < |hist| ==> Keys(hist[j]) <= known
    requires forall x :: x in Keys(g) ==> x in Keys(hist[index]) || x !in known
    ensures Convex(hist[..index + 1] + [g])
  {
    var hist' := hist[..index + 1] + [g];
    forall i, j, l, x | 0 <= i <= j <= l < |hist'| && x in Keys(hist'[i]) && x in Keys(hist'[l])
      ensures x in Keys(hist'[j])
    {
      if l == index + 1 && i <= index {
        assert x in Keys(hist[i]);
        assert x in Keys(hist[index]);
      }
    }
  }

  lemma {:induction false} WrittenChronicle(b: Book, index: nat, a: Act, g: Items, cur: map<nat, nat>, issued: set<(nat, nat)>)
    requires Chronicle(b.hist, b.acts, b.cur) && |b.hist| == |b.acts| + 1 && index <= |b.acts|
    requires b.cur.Keys <= cur.Keys && Distinct(g) && Keys(g) <= cur.Keys
    requires forall x :: x in Keys(g) ==> x in Keys(b.hist[index]) || x !in b.cur
    requires Truthful(a, b.hist[index], g)
    requires a.DeleteAct? ==> forall l :: 0 <= l < index ==> ActNames(b.acts[l]) !! Inner(a.es)
    ensures var b' := Written(b, index, a, g, cur, issued);
            Chronicle(b'.hist, b'.acts, cur)
  {
    hide *;
    var hist, acts := b.hist[..index + 1] + [g], b.acts[..index] + [a];
    ChronicleParts(b.hist, b.acts, b.cur);
    WrittenConvex(b.hist, index, g, b.cur.Keys);
    forall k | 0 <= k < |acts| ensures Truthful(acts[k], hist[k], hist[k + 1]) {
      if k < index {
        assert acts[k] == b.acts[k] && hist[k] == b.hist[k] && hist[k + 1] == b.hist[k + 1];
      }
    }
    forall l, k | 0 <= l < k < |acts| && acts[k].DeleteAct? ensures ActNames(acts[l]) !! Inner(acts[k].es) {
      assert acts[l] == b.acts[l];
    }
    forall j | 0 <= j < |hist| ensures Distinct(hist[j]) && Keys(hist[j]) <= cur.Keys {
      if j <= index {
        assert hist[j] == b.hist[j];
      }
    }
    ChronicleOf(hist, acts, cur);
    WrittenIs(b, index, a, g, cur, issued);
  }

  lemma {:induction false} ChronicleParts(hist: seq<Items>, acts: seq<Act>, cur: map<nat, nat>)
    requires Chronicle(hist, acts, cur)
    ensures |hist| == |acts| + 1 && Convex(hist)
    ensures forall j :: 0 <= j < |hist| ==> Distinct(hist[j]) && Keys(hist[j]) <= cur.Keys
    ensures forall k :: 0 <= k < |acts| ==> Truthful(acts[k], hist[k], hist[k + 1])
    ensures forall l, k :: 0 <= l < k < |acts| && acts[k].DeleteAct? ==> ActNames(acts[l]) !! Inner(acts[k].es)
  {
  }

  lemma {:induction false} ChronicleOf(hist: seq<Items>, acts: seq<Act>, cur: map<nat, nat>)
    requires |hist| == |acts| + 1 && Convex(hist)
    requires forall j :: 0 <= j < |hist| ==> Distinct(hist[j]) && Keys(hist[j]) <= cur.Keys
    requires forall k :: 0 <= k < |acts| ==> Truthful(acts[k], hist[k], hist[k + 1])
    requires forall l, k :: 0 <= l < k < |acts| && acts[k].DeleteAct? ==> ActNames(acts[l]) !! Inner(acts[k].es)
    ensures Chronicle(hist, acts, cur)
  {
  }

  lemma {:induction false} WrittenIs(b: Book, index: nat, a: Act, g: Items, cur: map<nat, nat>, issued: set<(nat, nat)>)
    requires |b.hist| == |b.acts| + 1 && index <= |b.acts|
    ensures var b' := Written(b, index, a, g, cur, issued);
            && b'.hist == b.hist[..index + 1] + [g] && b'.acts == b.acts[..index] + [a]
            && b'.cur == cur && b'.issued == issued
  {
  }

  lemma {:induction false} WrittenCarried(cs: seq<Command>, b: Book, index: nat, changes: Changes, u: Unit, c: Command, a: Act, g: Items,
                       cur: map<nat, nat>, issued: set<(nat, nat)>, n: nat)
    requires Carried(RemapAll(cs, changes), b.hist, b.acts, b.cur, b.issued, index) && Chronicle(b.hist, b.acts, b.cur)
    requires Recording(b, index, changes, n, u, c, a, g, cur, issued)
    ensures var b' := Written(b, index, a, g, cur, issued);
            Carried(RemapAll(cs[..index] + [c], changes), b'.hist, b'.acts, cur, issued, index + 1)
  {
    var b', was := Written(b, index, a, g, cur, issued), RemapAll(cs, changes);
    var now := RemapAll(cs[..index] + [c], changes);
    forall k | 0 <= k < |now| ensures Holds(now[k], b'.acts[k], cur, issued, b'.hist[k + 1], k >= index + 1) {
      if k < index {
        assert now[k] == was[k] == RemapCommand(was[k], []);
        SameIDs(b, cur);
        OneCarried(was, b, index, k, [], cur, issued, {});
      } else {
        NamesKnown(a, b.hist[index], g);
        HoldsRemapped(c, a, changes, cur, cur, {}, issued, issued, g, false);
      }
    }
  }

  lemma {:induction false} SameIDs(b: Book, cur: map<nat, nat>)
    requires forall v :: v in b.cur ==> v in cur && At(cur, v) == At(b.cur, v)
    ensures Brings([], b.cur, cur, {})
  {
  }

  /** The stack as push() leaves it when it does not merge, before the limit is applied. */
  function Appended(s: Stack, u: Unit, c: Command): Stack
    requires s.index <= |s.commands| && |s.pushed| == |s.commands| + 1
  {
    Stack(u, s.commands[..s.index] + [c], s.index + 1, s.pushed[..s.index + 1] + [Strip(u.forest)])
  }

  ghost predicate TellsOnce(s: Stack, changes: Changes, b: Book) {
    Tells(s.(commands := RemapAll(s.commands, changes)), b) && Settled(changes, b.cur, s.unit.maxID)
  }

  lemma {:induction false} AppendTold(s: Stack, changes: Changes, b: Book, u: Unit, c: Command, a: Act, g: Items, cur: map<nat, nat>,
                   issued: set<(nat, nat)>)
    requires TellsOnce(s, changes, b) && s.index <= |s.commands| && |s.pushed| == |s.commands| + 1
    requires Recording(b, s.index, changes, s.unit.maxID, u, c, a, g, cur, issued)
    ensures TellsOnce(Appended(s, u, c), changes, Written(b, s.index, a, g, cur, issued))
  {
    hide *;
    TellsParts(s, changes, b);
    RecordingParts(b, s.index, changes, s.unit.maxID, u, c, a, g, cur, issued);
    WrittenChronicle(b, s.index, a, g, cur, issued);
    WrittenCarried(s.commands, b, s.index, changes, u, c, a, g, cur, issued, s.unit.maxID);
    WrittenIs(b, s.index, a, g, cur, issued);
    AppendShown(s, u, c, b.hist, g, cur);
    TellsOf(Appended(s, u, c), changes, Written(b, s.index, a, g, cur, issued));
  }

  lemma {:induction false} TellsParts(s: Stack, changes: Changes, b: Book)
    requires TellsOnce(s, changes, b)
    ensures s.index <= |s.commands| && |s.pushed| == |s.commands| + 1 == |b.hist| == |b.acts| + 1
    ensures Ledger(b.cur, b.issued, s.unit.maxID) && Chronicle(b.hist, b.acts, b.cur)
    ensures Carried(RemapAll(s.commands, changes), b.hist, b.acts, b.cur, b.issued, s.index)
    ensures s.unit.forest == Rename(b.hist[s.index], b.cur)
    ensures forall j :: 0 <= j < |b.hist| ==> s.pushed[j] == Strip(b.hist[j])
    ensures Settled(changes, b.cur, s.unit.maxID)
  {
  }

  lemma {:induction false} TellsOf(s: Stack, changes: Changes, b: Book)
    requires s.index <= |s.commands| && |s.pushed| == |s.commands| + 1 == |b.hist|
    requires Ledger(b.cur, b.issued, s.unit.maxID) && Chronicle(b.hist, b.acts, b.cur)
    requires Carried(RemapAll(s.commands, changes), b.hist, b.acts, b.cur, b.issued, s.index)
    requires s.unit.forest == Rename(b.hist[s.index], b.cur)
    requires forall j :: 0 <= j < |b.hist| ==> s.pushed[j] == Strip(b.hist[j])
    requires Settled(changes, b.cur, s.unit.maxID)
    ensures TellsOnce(s, changes, b)
  {
  }

  lemma {:induction false} RecordingParts(b: Book, index: nat, changes: Changes, n: nat, u: Unit, c: Command, a: Act, g: Items,
                       cur: map<nat, nat>, issued: set<(nat, nat)>)
    requires Recording(b, index, changes, n, u, c, a, g, cur, issued)
    ensures |b.hist| == |b.acts| + 1 && index <= |b.acts| && n <= u.maxID
    ensures Ledger(cur, issued, u.maxID) && Settled(changes, cur, u.maxID) && b.issued <= issued
    ensures forall v :: v in b.cur ==> v in cur && At(cur, v) == At(b.cur, v)
    ensures b.cur.Keys <= cur.Keys && Distinct(g) && Keys(g) <= cur.Keys
    ensures forall x :: x in Keys(g) ==> x in Keys(b.hist[index]) || x !in b.cur
    ensures Truthful(a, b.hist[index], g) && u.forest == Rename(g, cur)
    ensures a.DeleteAct? ==> forall l :: 0 <= l < index ==> ActNames(b.acts[l]) !! Inner(a.es)
  {
  }

  lemma {:induction false} AppendShown(s: Stack, u: Unit, c: Command, hist: seq<Items>, g: Items, cur: map<nat, nat>)
    requires s.index <= |s.commands| && |s.pushed| == |s.commands| + 1 == |hist|
    requires u.forest == Rename(g, cur) && forall j :: 0 <= j < |hist| ==> s.pushed[j] == Strip(hist[j])
    ensures var s', hist' := Appended(s, u, c), hist[..s.index + 1] + [g];
            && s'.unit == u && s'.commands == s.commands[..s.index] + [c] && s'.index == s.index + 1
            && |s'.commands| == s.index + 1 && |s'.pushed| == |hist'| == s.index + 2 && hist'[s'.index] == g
            && forall j :: 0 <= j < |hist'| ==> s'.pushed[j] == Strip(hist'[j])
  {
    RenameStrip(g, cur);
  }

  // ---- the limit ----

  ghost function Forgetful(b: Book): Book
    requires |b.hist| > 0 && |b.acts| > 0
  {
    b.(hist := b.hist[1..], acts := b.acts[1..])
  }

  lemma {:induction false} ForgottenChronicle(b: Book)
    requires Chronicle(b.hist, b.acts, b.cur) && |b.acts| > 0 && |b.hist| > 0
    ensures Chronicle(Forgetful(b).hist, Forgetful(b).acts, b.cur)
  {
    var hist, acts := b.hist[1..], b.acts[1..];
    assert Convex(hist) by {
      assert forall j :: 0 <= j < |hist| ==> hist[j] == b.hist[j + 1];
    }
    forall k | 0 <= k < |acts| ensures Truthful(acts[k], hist[k], hist[k + 1]) {
      assert acts[k] == b.acts[k + 1] && hist[k] == b.hist[k + 1] && hist[k + 1] == b.hist[k + 2];
    }
    forall l, k | 0 <= l < k < |acts| && acts[k].DeleteAct? ensures ActNames(acts[l]) !! Inner(acts[k].es) {
      assert acts[l] == b.acts[l + 1] && acts[k] == b.acts[k + 1];
    }
  }

  lemma {:induction false} ForgottenCarried(cs: seq<Command>, b: Book, index: nat)
    requires Carried(cs, b.hist, b.acts, b.cur, b.issued, index) && index > 0
    ensures |b.acts| == |cs| > 0 && |b.hist| > 0
    ensures var b' := Forgetful(b);
            Carried(cs[1..], b'.hist, b'.acts, b.cur, b.issued, index - 1)
  {
    var b' := Forgetful(b);
    forall k | 0 <= k < |cs| - 1
      ensures Holds(cs[1..][k], b'.acts[k], b.cur, b.issued, b'.hist[k + 1], k >= index - 1)
    {
      assert Holds(cs[k + 1], b.acts[k + 1], b.cur, b.issued, b.hist[k + 2], k + 1 >= index);
    }
  }

  /** Forgetting the oldest command keeps what is known about the others. */
  lemma {:induction false} LimitTold(s: Stack, changes: Changes, b: Book) returns (b': Book)
    requires TellsOnce(s, changes, b) && 0 < s.index && |s.commands| <= UNDO_LIMIT + 1
    ensures TellsOnce(Limited(s), changes, b') && |Limited(s).commands| <= UNDO_LIMIT
  {
    if |s.commands| <= UNDO_LIMIT {
      b' := b;
    } else {
      ForgottenCarried(RemapAll(s.commands, changes), b, s.index);
      b' := Forgetful(b);
      ForgottenChronicle(b);
      assert RemapAll(s.commands[1..], changes) == RemapAll(s.commands, changes)[1..];
      TellsOf(Limited(s), changes, b');
    }
  }

  // ---- merging ----

  /** The stack when the pushed command was absorbed by the one on top. */
  function Absorbed(s: Stack, u: Unit, c: Command): Stack
    requires 0 < s.index <= |s.commands| && |s.pushed| == |s.commands| + 1
  {
    Stack(u, s.commands[..s.index][s.index - 1 := c], s.index, s.pushed[..s.index] + [Strip(u.forest)])
  }

  /** The top command, absorbing `a`, now leads from the forest below it straight to `g`. */
  lemma {:induction false} TopRecording(b: Book, index: nat, changes: Changes, n: nat, u: Unit, c: Command, a: Act, g: Items,
                     cur: map<nat, nat>, issued: set<(nat, nat)>, a': Act)
    requires Recording(b, index, changes, n, u, c, a, g, cur, issued) && index > 0
    requires Chronicle(b.hist, b.acts, b.cur) && !a'.DeleteAct?
    requires Truthful(a', b.hist[index - 1], g) && Keys(b.hist[index]) == Keys(g)
    ensures Chronicle(b.hist[..index] + [g], b.acts[..index - 1] + [a'], cur)
  {
    hide *;
    RecordingParts(b, index, changes, n, u, c, a, g, cur, issued);
    ChronicleParts(b.hist, b.acts, b.cur);
    var hist, acts := b.hist[..index] + [g], b.acts[..index - 1] + [a'];
    ReplacedConvex(b.hist, index, g);
    forall k | 0 <= k < |acts| ensures Truthful(acts[k], hist[k], hist[k + 1]) {
      if k < index - 1 {
        assert acts[k] == b.acts[k] && hist[k] == b.hist[k] && hist[k + 1] == b.hist[k + 1];
      }
    }
    forall l, k | 0 <= l < k < |acts| && acts[k].DeleteAct? ensures ActNames(acts[l]) !! Inner(acts[k].es) {
      assert acts[l] == b.acts[l] && acts[k] == b.acts[k];
    }
    forall j | 0 <= j < |hist| ensures Distinct(hist[j]) && Keys(hist[j]) <= cur.Keys {
      if j < index {
        assert hist[j] == b.hist[j];
      }
    }
    ChronicleOf(hist, acts, cur);
  }

  lemma {:induction false} ReplacedConvex(hist: seq<Items>, index: nat, g: Items)
    requires Convex(hist) && 0 < index < |hist| && Keys(g) == Keys(hist[index])
    ensures Convex(hist[..index] + [g])
  {
    var hist' := hist[..index] + [g];
    forall i, j, l, x | 0 <= i <= j <= l < |hist'| && x in Keys(hist'[i]) && x in Keys(hist'[l])
      ensures x in Keys(hist'[j])
    {
      assert x in Keys(hist[i]) && x in Keys(hist[l]);
    }
  }

  lemma {:induction false} AddAbsorbs(x: AddItem, c: ModifyProperty, act: Act, a: Act, b: Book, index: nat, changes: Changes, n: nat, u: Unit,
                   g: Items, cur: map<nat, nat>, issued: set<(nat, nat)>, y: Command, now: int)
    requires Recording(b, index, changes, n, u, Modify(c), a, g, cur, issued) && Chronicle(b.hist, b.acts, b.cur)
    requires index > 0 && act == b.acts[index - 1] && a.ModifyAct?
    requires Holds(RemapCommand(Add(x), changes), act, b.cur, b.issued, b.hist[index], false)
    requires MergeWith(Add(x), Modify(c), now) == Some(y)
    ensures Truthful(act, b.hist[index - 1], g) && Keys(g) == Keys(b.hist[index]) && act.AddAct?
    ensures Holds(RemapCommand(y, changes), act, cur, issued, g, false)
  {
    RemapAddFields(x, changes);
    RemapAddFields(y.add, changes);
    var f := b.hist[index];
    assert Truthful(act, b.hist[index - 1], f);
    NamesKnown(act, b.hist[index - 1], f);
    assert act.u in b.cur && At(cur, act.u) == At(b.cur, act.u) == At(cur, a.u);
    SetValueFacts(f, a.u, a.after);
    assert Locate(g, a.u) == Locate(f, a.u);
  }

  lemma {:induction false} ModifyAbsorbs(x: ModifyProperty, c: ModifyProperty, act: Act, a: Act, b: Book, index: nat, changes: Changes,
                      n: nat, u: Unit, g: Items, cur: map<nat, nat>, issued: set<(nat, nat)>, y: Command, now: int)
    requires Recording(b, index, changes, n, u, Modify(c), a, g, cur, issued) && Chronicle(b.hist, b.acts, b.cur)
    requires index > 0 && act == b.acts[index - 1] && a.ModifyAct?
    requires Holds(RemapCommand(Modify(x), changes), act, b.cur, b.issued, b.hist[index], false)
    requires MergeWith(Modify(x), Modify(c), now) == Some(y)
    ensures act.ModifyAct? && Keys(g) == Keys(b.hist[index])
    ensures Truthful(act.(after := a.after), b.hist[index - 1], g)
    ensures Holds(RemapCommand(y, changes), act.(after := a.after), cur, issued, g, false)
  {
    RemapEditFields(x, ToggleActive(0, false, false, false), changes);
    RemapEditFields(y.edit, ToggleActive(0, false, false, false), changes);
    var e, f := b.hist[index - 1], b.hist[index];
    assert Truthful(act, e, f);
    NamesKnown(act, e, f);
    assert (x.propertyId.value.0, act.u) in issued && (c.propertyId.value.0, a.u) in issued;
    assert act.u == a.u;
    SetValueFacts(e, a.u, act.after);
    SetValueFacts(f, a.u, a.after);
  }

  lemma {:induction false} AbsorbedCarried(cs: seq<Command>, b: Book, index: nat, changes: Changes, y: Command, a': Act, g: Items,
                        cur: map<nat, nat>, issued: set<(nat, nat)>)
    requires Carried(RemapAll(cs, changes), b.hist, b.acts, b.cur, b.issued, index) && Chronicle(b.hist, b.acts, b.cur)
    requires 0 < index <= |cs| == |b.acts| && |b.hist| == |b.acts| + 1 && b.issued <= issued
    requires forall v :: v in b.cur ==> v in cur && At(cur, v) == At(b.cur, v)
    requires Holds(RemapCommand(y, changes), a', cur, issued, g, false)
    ensures Carried(RemapAll(cs[..index][index - 1 := y], changes), b.hist[..index] + [g], b.acts[..index - 1] + [a'],
                    cur, issued, index)
  {
    var was, now := RemapAll(cs, changes), RemapAll(cs[..index][index - 1 := y], changes);
    var hist, acts := b.hist[..index] + [g], b.acts[..index - 1] + [a'];
    forall k | 0 <= k < |now| ensures Holds(now[k], acts[k], cur, issued, hist[k + 1], k >= index) {
      if k < index - 1 {
        assert now[k] == was[k] == RemapCommand(was[k], []);
        SameIDs(b, cur);
        OneCarried(was, b, index, k, [], cur, issued, {});
      }
    }
  }

  lemma {:induction false} AbsorbedShown(s: Stack, u: Unit, y: Command, hist: seq<Items>, g: Items, cur: map<nat, nat>)
    requires 0 < s.index <= |s.commands| && |s.pushed| == |s.commands| + 1 == |hist|
    requires u.forest == Rename(g, cur) && forall j :: 0 <= j < |hist| ==> s.pushed[j] == Strip(hist[j])
    ensures var s', hist' := Absorbed(s, u, y), hist[..s.index] + [g];
            && s'.unit == u && s'.commands == s.commands[..s.index][s.index - 1 := y] && s'.index == s.index
            && |s'.commands| == s.index && |s'.pushed| == |hist'| == s.index + 1 && hist'[s'.index] == g
            && forall j :: 0 <= j < |hist'| ==> s'.pushed[j] == Strip(hist'[j])
  {
    RenameStrip(g, cur);
  }

  lemma {:induction false} MergeAct(s: Stack, changes: Changes, b: Book, u: Unit, c: Command, a: Act, g: Items, cur: map<nat, nat>,
                 issued: set<(nat, nat)>, y: Command, now: int) returns (a': Act)
    requires TellsOnce(s, changes, b) && 0 < s.index <= |s.commands|
    requires Recording(b, s.index, changes, s.unit.maxID, u, c, a, g, cur, issued)
    requires MergeWith(s.commands[s.index - 1], c, now) == Some(y)
    ensures |b.acts| == |s.commands| && |b.hist| == |b.acts| + 1 && !a'.DeleteAct?
    ensures Truthful(a', b.hist[s.index - 1], g) && Keys(g) == Keys(b.hist[s.index])
    ensures Holds(RemapCommand(y, changes), a', cur, issued, g, false)
  {
    var x, act := s.commands[s.index - 1], b.acts[s.index - 1];
    assert Holds(RemapAll(s.commands, changes)[s.index - 1], act, b.cur, b.issued, b.hist[s.index], false);
    if x.Add? {
      AddAbsorbs(x.add, c.edit, act, a, b, s.index, changes, s.unit.maxID, u, g, cur, issued, y, now);
      a' := act;
    } else {
      RemapEditFields(x.edit, ToggleActive(0, false, false, false), changes);
      ModifyAbsorbs(x.edit, c.edit, act, a, b, s.index, changes, s.unit.maxID, u, g, cur, issued, y, now);
      a' := act.(after := a.after);
    }
  }

  lemma {:induction false} MergeTold(s: Stack, changes: Changes, b: Book, u: Unit, c: Command, a: Act, g: Items, cur: map<nat, nat>,
                  issued: set<(nat, nat)>, y: Command, now: int) returns (b': Book)
    requires TellsOnce(s, changes, b) && 0 < s.index <= |s.commands| && |s.pushed| == |s.commands| + 1
    requires Recording(b, s.index, changes, s.unit.maxID, u, c, a, g, cur, issued)
    requires MergeWith(s.commands[s.index - 1], c, now) == Some(y)
    ensures TellsOnce(Absorbed(s, u, y), changes, b')
  {
    hide *;
    TellsParts(s, changes, b);
    RecordingParts(b, s.index, changes, s.unit.maxID, u, c, a, g, cur, issued);
    var a' := MergeAct(s, changes, b, u, c, a, g, cur, issued, y, now);
    b' := Book(b.hist[..s.index] + [g], b.acts[..s.index - 1] + [a'], cur, issued);
    TopRecording(b, s.index, changes, s.unit.maxID, u, c, a, g, cur, issued, a');
    AbsorbedCarried(s.commands, b, s.index, changes, y, a', g, cur, issued);
    AbsorbedShown(s, u, y, b.hist, g, cur);
    TellsOf(Absorbed(s, u, y), changes, b');
  }

  /** A push whose command records the truth keeps the invariant, merged or not. */
  lemma {:induction false} PushTold(s: Stack, changes: Changes, b: Book, u: Unit, c: Command, now: int, a: Act, g: Items,
                 cur: map<nat, nat>, issued: set<(nat, nat)>) returns (b': Book)
    requires InvOnce(s, changes, b) && Shaped(s) && RedoCommand(c, u).0 == u
    requires Recording(b, s.index, changes, s.unit.maxID, u, RedoCommand(c, u).1, a, g, cur, issued)
    ensures InvOnce(PushCommand(s, u, c, now), changes, b')
  {
    var c' := RedoCommand(c, u).1;
    assert TellsOnce(s, changes, b);
    var merged := if s.index > 0 then MergeWith(s.commands[..s.index][s.index - 1], c', now) else None;
    if merged.Some? {
      b' := MergeTold(s, changes, b, u, c', a, g, cur, issued, merged.value, now);
      assert PushCommand(s, u, c, now) == Absorbed(s, u, merged.value);
    } else {
      AppendTold(s, changes, b, u, c', a, g, cur, issued);
      b' := LimitTold(Appended(s, u, c'), changes, Written(b, s.index, a, g, cur, issued));
      assert PushCommand(s, u, c, now) == Limited(Appended(s, u, c'));
    }
  }
}
