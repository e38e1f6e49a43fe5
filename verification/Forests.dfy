/** Ordered forests of items keyed by ID, as the item units of Mudlet's editor hold them.

    A forest is written first-child/next-sibling: `kids` is the first level below an item and `rest` is
    what follows it among its siblings, so one structural recursion covers both directions. */
module Forests {
  import opened Collections

  /** Where an item hangs: at the top level, or below another item. */
  datatype Parent = Root | Under(key: nat)

  datatype Forest<V> = End | Tree(key: nat, value: V, kids: Forest<V>, rest: Forest<V>)

  // ---- observations ----

  function Keys<V>(f: Forest<V>): set<nat> {
    if f.End? then {} else {f.key} + Keys(f.kids) + Keys(f.rest)
  }

  /** IDs in the order the source walks a subtree: an item, then what is below it, then its siblings. */
  function Preorder<V>(f: Forest<V>): seq<nat> {
    if f.End? then [] else [f.key] + Preorder(f.kids) + Preorder(f.rest)
  }

  function Size<V>(f: Forest<V>): nat {
    if f.End? then 0 else 1 + Size(f.kids) + Size(f.rest)
  }

  ghost predicate Distinct<V>(f: Forest<V>) {
    f.Tree? ==>
      && f.key !in Keys(f.kids) && f.key !in Keys(f.rest)
      && Keys(f.kids) !! Keys(f.rest)
      && Distinct(f.kids) && Distinct(f.rest)
  }

  /** The tree whose root is `k`, without its siblings; `End` when there is none. */
  function Find<V>(f: Forest<V>, k: nat): (t: Forest<V>)
    ensures t.Tree? <==> k in Keys(f)
    ensures t.Tree? ==> t.key == k && t.rest.End?
  {
    if f.End? then End
    else if f.key == k then f.(rest := End)
    else if k in Keys(f.kids) then Find(f.kids, k)
    else Find(f.rest, k)
  }

  /** Parent and position of `k`, for a level that starts at position `from` below `parent`. */
  function LocateFrom<V>(f: Forest<V>, k: nat, parent: Parent, from: nat): Option<(Parent, nat)> {
    if f.End? then None
    else if f.key == k then Some((parent, from))
    else if k in Keys(f.kids) then LocateFrom(f.kids, k, Under(f.key), 0)
    else LocateFrom(f.rest, k, parent, from + 1)
  }

  function Locate<V>(f: Forest<V>, k: nat): Option<(Parent, nat)> {
    LocateFrom(f, k, Root, 0)
  }

  /** The items of one level, in order. */
  function Level<V>(f: Forest<V>): seq<(nat, V)> {
    if f.End? then [] else [(f.key, f.value)] + Level(f.rest)
  }

  // ---- changes ----

  function Remove<V>(f: Forest<V>, k: nat): Forest<V> {
    if f.End? then End
    else if f.key == k then f.rest
    else f.(kids := Remove(f.kids, k), rest := Remove(f.rest, k))
  }

  /** Insertion among siblings at min(position, size), as std::list insertion is driven by the units. */
  function InsertAt<V>(f: Forest<V>, position: nat, t: Forest<V>): Forest<V>
    requires t.Tree?
  {
    if f.End? || position == 0 then t.(rest := f)
    else f.(rest := InsertAt(f.rest, position - 1, t))
  }

  function InsertBelow<V>(f: Forest<V>, p: nat, position: nat, t: Forest<V>): Forest<V>
    requires t.Tree?
  {
    if f.End? then End
    else if f.key == p then f.(kids := InsertAt(f.kids, position, t))
    else f.(kids := InsertBelow(f.kids, p, position, t), rest := InsertBelow(f.rest, p, position, t))
  }

  /** A parent that cannot be found leaves the item at the top level. */
  function Insert<V>(f: Forest<V>, parent: Parent, position: nat, t: Forest<V>): Forest<V>
    requires t.Tree?
  {
    if parent.Under? && parent.key in Keys(f) then InsertBelow(f, parent.key, position, t)
    else InsertAt(f, position, t)
  }

  function SetValue<V>(f: Forest<V>, k: nat, v: V): Forest<V> {
    if f.End? then End
    else if f.key == k then f.(value := v)
    else f.(kids := SetValue(f.kids, k, v), rest := SetValue(f.rest, k, v))
  }

  /** Fresh IDs in walking order, the first being `n + 1`: what recreating a subtree from its snapshot does. */
  function Number<V>(f: Forest<V>, n: nat): (t: Forest<V>)
    ensures t.Tree? <==> f.Tree?
    ensures t.Tree? ==> t.key == n + 1 && t.value == f.value
  {
    if f.End? then End
    else Tree(n + 1, f.value, Number(f.kids, n + 1), Number(f.rest, n + 1 + Size(f.kids)))
  }

  /** The forest without its IDs: a snapshot, and the meaning of "the same forest up to IDs". */
  function Strip<V>(f: Forest<V>): Forest<V> {
    if f.End? then End else Tree(0, f.value, Strip(f.kids), Strip(f.rest))
  }

  // ---- renaming ----

  function At(m: map<nat, nat>, k: nat): nat {
    if k in m then m[k] else 0
  }

  function ParentAt(m: map<nat, nat>, p: Parent): Parent {
    if p.Root? then Root else Under(At(m, p.key))
  }

  function Rename<V>(f: Forest<V>, m: map<nat, nat>): Forest<V> {
    if f.End? then End else Tree(At(m, f.key), f.value, Rename(f.kids, m), Rename(f.rest, m))
  }

  function MapKeys(ks: seq<nat>, m: map<nat, nat>): (r: seq<nat>)
    ensures |r| == |ks| && forall i :: 0 <= i < |ks| ==> r[i] == At(m, ks[i])
  {
    if ks == [] then [] else [At(m, ks[0])] + MapKeys(ks[1..], m)
  }

  ghost predicate InjectiveOn(m: map<nat, nat>, ks: set<nat>) {
    forall a, b :: a in ks && b in ks && At(m, a) == At(m, b) ==> a == b
  }

  ghost function Image(m: map<nat, nat>, ks: set<nat>): set<nat> {
    set k | k in ks :: At(m, k)
  }

  // ---- facts about one forest ----

  lemma {:induction false} PreorderKeys<V>(f: Forest<V>)
    ensures forall k :: k in Preorder(f) <==> k in Keys(f)
    ensures |Preorder(f)| == Size(f)
  {
    if f.Tree? {
      PreorderKeys(f.kids);
      PreorderKeys(f.rest);
    }
  }

  lemma {:induction false} PreorderDistinct<V>(f: Forest<V>)
    requires Distinct(f)
    ensures forall i, j :: 0 <= i < j < |Preorder(f)| ==> Preorder(f)[i] != Preorder(f)[j]
  {
    if f.Tree? {
      PreorderKeys(f.kids);
      PreorderKeys(f.rest);
      PreorderDistinct(f.kids);
      PreorderDistinct(f.rest);
      var a, b := Preorder(f.kids), Preorder(f.rest);
      forall i, j | 0 <= i < j < |Preorder(f)|
        ensures Preorder(f)[i] != Preorder(f)[j]
      {
        if i == 0 {
          assert j <= |a| ==> Preorder(f)[j] == a[j - 1] && a[j - 1] in a;
          assert j > |a| ==> Preorder(f)[j] == b[j - 1 - |a|] && b[j - 1 - |a|] in b;
        } else if j <= |a| {
          assert Preorder(f)[i] == a[i - 1] && Preorder(f)[j] == a[j - 1];
        } else if i > |a| {
          assert Preorder(f)[i] == b[i - 1 - |a|] && Preorder(f)[j] == b[j - 1 - |a|];
        } else {
          assert Preorder(f)[i] == a[i - 1] && Preorder(f)[j] == b[j - 1 - |a|];
          assert a[i - 1] in a && b[j - 1 - |a|] in b;
        }
      }
    }
  }

  /** Finding a tree takes out exactly its keys, and removing it leaves exactly the others. */
  lemma {:induction false} FindRemoveKeys<V>(f: Forest<V>, k: nat)
    requires Distinct(f)
    ensures Keys(Find(f, k)) <= Keys(f)
    ensures Keys(Remove(f, k)) == Keys(f) - Keys(Find(f, k))
    ensures Distinct(Find(f, k)) && Distinct(Remove(f, k))
    ensures k in Keys(f) ==> Find(f, k).Tree? && Find(f, k).key == k && Find(f, k).rest.End?
    ensures k !in Keys(f) ==> Find(f, k).End? && Remove(f, k) == f
    ensures Preorder(Find(f, k)) == [] <==> k !in Keys(f)
  {
    if f.Tree? && f.key != k {
      FindRemoveKeys(f.kids, k);
      FindRemoveKeys(f.rest, k);
    }
  }

  lemma {:induction false} InsertAtKeys<V>(f: Forest<V>, position: nat, t: Forest<V>)
    requires t.Tree? && t.rest.End?
    requires Distinct(f) && Distinct(t) && Keys(f) !! Keys(t)
    ensures Keys(InsertAt(f, position, t)) == Keys(f) + Keys(t)
    ensures Distinct(InsertAt(f, position, t))
    ensures Remove(InsertAt(f, position, t), t.key) == f
    ensures Find(InsertAt(f, position, t), t.key) == t
  {
    if f.Tree? {
      FindRemoveKeys(f, t.key);
      FindRemoveKeys(f.kids, t.key);
      if position != 0 {
        InsertAtKeys(f.rest, position - 1, t);
      }
    }
  }

  lemma {:induction false} InsertBelowKeys<V>(f: Forest<V>, p: nat, position: nat, t: Forest<V>)
    requires t.Tree? && t.rest.End?
    requires Distinct(f) && Distinct(t) && Keys(f) !! Keys(t)
    ensures Keys(InsertBelow(f, p, position, t)) == if p in Keys(f) then Keys(f) + Keys(t) else Keys(f)
    ensures Distinct(InsertBelow(f, p, position, t))
    ensures p !in Keys(f) ==> InsertBelow(f, p, position, t) == f
    ensures p in Keys(f) ==> Remove(InsertBelow(f, p, position, t), t.key) == f
    ensures p in Keys(f) ==> Find(InsertBelow(f, p, position, t), t.key) == t
  {
    if f.Tree? {
      FindRemoveKeys(f, t.key);
      FindRemoveKeys(f.kids, t.key);
      FindRemoveKeys(f.rest, t.key);
      if f.key == p {
        InsertAtKeys(f.kids, position, t);
      } else {
        InsertBelowKeys(f.kids, p, position, t);
        InsertBelowKeys(f.rest, p, position, t);
      }
    }
  }

  /** Removing what was just inserted gives the forest back. */
  lemma {:induction false} InsertThenRemove<V>(f: Forest<V>, parent: Parent, position: nat, t: Forest<V>)
    requires t.Tree? && t.rest.End?
    requires Distinct(f) && Distinct(t) && Keys(f) !! Keys(t)
    ensures Keys(Insert(f, parent, position, t)) == Keys(f) + Keys(t)
    ensures Distinct(Insert(f, parent, position, t))
    ensures Remove(Insert(f, parent, position, t), t.key) == f
    ensures Find(Insert(f, parent, position, t), t.key) == t
  {
    InsertAtKeys(f, position, t);
    if parent.Under? {
      InsertBelowKeys(f, parent.key, position, t);
    }
  }

  lemma {:induction false} LocateShape<V>(f: Forest<V>, k: nat, parent: Parent, from: nat)
    requires Distinct(f)
    ensures LocateFrom(f, k, parent, from).Some? <==> k in Keys(f)
    ensures k in Keys(f) ==>
              var (p, i) := LocateFrom(f, k, parent, from).value;
              (p == parent && from <= i) || (p.Under? && p.key in Keys(f))
  {
    if f.Tree? && f.key != k {
      if k in Keys(f.kids) {
        LocateShape(f.kids, k, Under(f.key), 0);
      } else {
        LocateShape(f.rest, k, parent, from + 1);
      }
    }
  }

  /** Putting a tree back where it was located restores the level it was on. */
  lemma {:induction false} PutBackFrom<V>(f: Forest<V>, k: nat, parent: Parent, from: nat)
    requires Distinct(f) && k in Keys(f)
    requires parent.Under? ==> parent.key !in Keys(f)
    ensures LocateFrom(f, k, parent, from).Some? && Find(f, k).Tree?
    ensures var (p, i) := LocateFrom(f, k, parent, from).value;
            && (p == parent ==> from <= i && InsertAt(Remove(f, k), i - from, Find(f, k)) == f)
            && (p != parent ==> p.Under? && p.key in Keys(Remove(f, k))
                                && InsertBelow(Remove(f, k), p.key, i, Find(f, k)) == f)
  {
    LocateShape(f, k, parent, from);
    FindRemoveKeys(f, k);
    FindRemoveKeys(f.kids, k);
    FindRemoveKeys(f.rest, k);
    if f.key == k {
      assert InsertAt(f.rest, 0, Find(f, k)) == f;
    } else if k in Keys(f.kids) {
      var (p, i) := LocateFrom(f, k, parent, from).value;
      PutBackFrom(f.kids, k, Under(f.key), 0);
      LocateShape(f.kids, k, Under(f.key), 0);
      if p != Under(f.key) {
        InsertBelowMiss(f.rest, p.key, i, Find(f, k));
      }
    } else {
      var (p, i) := LocateFrom(f, k, parent, from).value;
      PutBackFrom(f.rest, k, parent, from + 1);
      LocateShape(f.rest, k, parent, from + 1);
      if p != parent {
        InsertBelowMiss(f.kids, p.key, i, Find(f, k));
      }
    }
  }

  lemma {:induction false} InsertBelowMiss<V>(f: Forest<V>, p: nat, position: nat, t: Forest<V>)
    requires t.Tree? && p !in Keys(f)
    ensures InsertBelow(f, p, position, t) == f
  {
    if f.Tree? {
      InsertBelowMiss(f.kids, p, position, t);
      InsertBelowMiss(f.rest, p, position, t);
    }
  }

  /** Reinserting a removed tree at its recorded parent and position restores the forest. */
  lemma {:induction false} RemoveThenInsert<V>(f: Forest<V>, k: nat)
    requires Distinct(f) && k in Keys(f)
    ensures Locate(f, k).Some? && Find(f, k).Tree?
    ensures var (p, i) := Locate(f, k).value;
            && (p.Under? ==> p.key in Keys(Remove(f, k)))
            && Insert(Remove(f, k), p, i, Find(f, k)) == f
  {
    PutBackFrom(f, k, Root, 0);
  }

  lemma {:induction false} SetOwnValue<V>(f: Forest<V>, k: nat)
    requires Distinct(f)
    ensures k in Keys(f) ==> SetValue(f, k, Find(f, k).value) == f
    ensures k !in Keys(f) ==> forall v :: SetValue(f, k, v) == f
  {
    if f.Tree? {
      SetOwnValue(f.kids, k);
      SetOwnValue(f.rest, k);
    }
  }

  lemma {:induction false} SetValueFacts<V>(f: Forest<V>, k: nat, v: V)
    requires Distinct(f)
    ensures Keys(SetValue(f, k, v)) == Keys(f) && Distinct(SetValue(f, k, v))
    ensures k !in Keys(f) ==> SetValue(f, k, v) == f
    ensures Find(f, k).Tree? ==> Find(SetValue(f, k, v), k) == Find(f, k).(value := v)
    ensures Remove(SetValue(f, k, v), k) == Remove(f, k)
    ensures forall p, i :: LocateFrom(SetValue(f, k, v), k, p, i) == LocateFrom(f, k, p, i)
    ensures forall w :: SetValue(SetValue(f, k, v), k, w) == SetValue(f, k, w)
    ensures k in Keys(f) ==> SetValue(f, k, Find(f, k).value) == f
  {
    FindRemoveKeys(f, k);
    SetOwnValue(f, k);
    if f.Tree? {
      FindRemoveKeys(f.kids, k);
      FindRemoveKeys(f.rest, k);
      SetValueFacts(f.kids, k, v);
      SetValueFacts(f.rest, k, v);
    }
  }

  /** Looking inside a found tree is looking in the forest. */
  lemma {:induction false} FindWithin<V>(f: Forest<V>, u: nat, w: nat)
    requires Distinct(f) && w in Keys(Find(f, u))
    ensures Find(Find(f, u), w) == Find(f, w)
  {
    FindRemoveKeys(f, u);
    if f.key != u {
      FindRemoveKeys(f.kids, u);
      FindRemoveKeys(f.rest, u);
      if u in Keys(f.kids) {
        FindWithin(f.kids, u, w);
      } else {
        FindWithin(f.rest, u, w);
      }
    }
  }

  lemma {:induction false} LevelKeys<V>(f: Forest<V>, i: nat)
    requires Distinct(f) && i < |Level(f)|
    ensures Level(f)[i].0 in Keys(f)
    ensures Find(f, Level(f)[i].0).Tree? && Find(f, Level(f)[i].0).value == Level(f)[i].1
    ensures Size(Find(f, Level(f)[i].0)) <= Size(f)
  {
    if i > 0 {
      LevelKeys(f.rest, i - 1);
    }
  }

  lemma {:induction false} RenameLevel<V>(f: Forest<V>, m: map<nat, nat>)
    ensures |Level(Rename(f, m))| == |Level(f)|
    ensures forall i :: 0 <= i < |Level(f)| ==> Level(Rename(f, m))[i] == (At(m, Level(f)[i].0), Level(f)[i].1)
  {
    if f.Tree? {
      RenameLevel(f.rest, m);
    }
  }

  // ---- facts about renaming ----

  lemma {:induction false} RenameKeys<V>(f: Forest<V>, m: map<nat, nat>)
    ensures Keys(Rename(f, m)) == Image(m, Keys(f))
  {
    if f.Tree? {
      RenameKeys(f.kids, m);
      RenameKeys(f.rest, m);
      assert Image(m, Keys(f)) == {At(m, f.key)} + Image(m, Keys(f.kids)) + Image(m, Keys(f.rest));
    }
  }

  lemma {:induction false} MapKeysConcat(a: seq<nat>, b: seq<nat>, m: map<nat, nat>)
    ensures MapKeys(a + b, m) == MapKeys(a, m) + MapKeys(b, m)
  {
  }

  lemma {:induction false} RenamePreorder<V>(f: Forest<V>, m: map<nat, nat>)
    ensures |Preorder(Rename(f, m))| == |Preorder(f)|
    ensures Preorder(Rename(f, m)) == MapKeys(Preorder(f), m)
  {
    if f.Tree? {
      RenamePreorder(f.kids, m);
      RenamePreorder(f.rest, m);
      MapKeysConcat([f.key] + Preorder(f.kids), Preorder(f.rest), m);
      MapKeysConcat([f.key], Preorder(f.kids), m);
    }
  }

  /** Renaming changes IDs and nothing else. */
  lemma {:induction false} RenameStrip<V>(f: Forest<V>, m: map<nat, nat>)
    ensures Strip(Rename(f, m)) == Strip(f) && Size(Rename(f, m)) == Size(f)
  {
    if f.Tree? {
      RenameStrip(f.kids, m);
      RenameStrip(f.rest, m);
    }
  }

  lemma {:induction false} RenameDistinct<V>(f: Forest<V>, m: map<nat, nat>)
    requires Distinct(f) && InjectiveOn(m, Keys(f))
    ensures Distinct(Rename(f, m))
  {
    if f.Tree? {
      RenameKeys(f.kids, m);
      RenameKeys(f.rest, m);
      RenameDistinct(f.kids, m);
      RenameDistinct(f.rest, m);
    }
  }

  lemma {:induction false} RenameAgree<V>(f: Forest<V>, m: map<nat, nat>, n: map<nat, nat>)
    requires forall k :: k in Keys(f) ==> At(m, k) == At(n, k)
    ensures Rename(f, m) == Rename(f, n)
  {
    if f.Tree? {
      RenameAgree(f.kids, m, n);
      RenameAgree(f.rest, m, n);
    }
  }

  lemma {:induction false} RenameBack<V>(f: Forest<V>, m: map<nat, nat>, back: map<nat, nat>)
    requires forall k :: k in Keys(f) ==> At(back, At(m, k)) == k
    ensures Rename(Rename(f, m), back) == f
  {
    if f.Tree? {
      RenameBack(f.kids, m, back);
      RenameBack(f.rest, m, back);
    }
  }

  lemma {:induction false} RenameFindRemove<V>(f: Forest<V>, k: nat, m: map<nat, nat>)
    requires InjectiveOn(m, Keys(f) + {k})
    ensures Rename(Find(f, k), m) == Find(Rename(f, m), At(m, k))
    ensures Rename(Remove(f, k), m) == Remove(Rename(f, m), At(m, k))
    ensures k in Keys(f) <==> At(m, k) in Keys(Rename(f, m))
  {
    RenameKeys(f, m);
    if f.Tree? {
      RenameKeys(f.kids, m);
      RenameFindRemove(f.kids, k, m);
      RenameFindRemove(f.rest, k, m);
    }
  }

  lemma {:induction false} RenameLocate<V>(f: Forest<V>, k: nat, p: Parent, from: nat, m: map<nat, nat>)
    requires InjectiveOn(m, Keys(f) + {k})
    ensures var l := LocateFrom(f, k, p, from);
            LocateFrom(Rename(f, m), At(m, k), ParentAt(m, p), from)
            == if l.None? then None else Some((ParentAt(m, l.value.0), l.value.1))
  {
    if f.Tree? {
      RenameKeys(f.kids, m);
      RenameLocate(f.kids, k, Under(f.key), 0, m);
      RenameLocate(f.rest, k, p, from + 1, m);
    }
  }

  lemma {:induction false} RenameInsertAt<V>(f: Forest<V>, position: nat, t: Forest<V>, m: map<nat, nat>)
    requires t.Tree? && t.rest.End?
    ensures Rename(InsertAt(f, position, t), m) == InsertAt(Rename(f, m), position, Rename(t, m))
  {
    if f.Tree? && position != 0 {
      RenameInsertAt(f.rest, position - 1, t, m);
    }
  }

  lemma {:induction false} RenameInsertBelow<V>(f: Forest<V>, p: nat, position: nat, t: Forest<V>, m: map<nat, nat>)
    requires t.Tree? && t.rest.End? && InjectiveOn(m, Keys(f) + {p})
    ensures Rename(InsertBelow(f, p, position, t), m) == InsertBelow(Rename(f, m), At(m, p), position, Rename(t, m))
  {
    if f.Tree? {
      RenameInsertAt(f.kids, position, t, m);
      RenameInsertBelow(f.kids, p, position, t, m);
      RenameInsertBelow(f.rest, p, position, t, m);
    }
  }

  lemma {:induction false} RenameInsert<V>(f: Forest<V>, parent: Parent, position: nat, t: Forest<V>, m: map<nat, nat>)
    requires t.Tree? && t.rest.End?
    requires InjectiveOn(m, Keys(f) + if parent.Under? then {parent.key} else {})
    ensures Rename(Insert(f, parent, position, t), m) == Insert(Rename(f, m), ParentAt(m, parent), position, Rename(t, m))
  {
    RenameKeys(f, m);
    RenameInsertAt(f, position, t, m);
    if parent.Under? {
      RenameInsertBelow(f, parent.key, position, t, m);
    }
  }

  lemma {:induction false} RenameSetValue<V>(f: Forest<V>, k: nat, v: V, m: map<nat, nat>)
    requires InjectiveOn(m, Keys(f) + {k})
    ensures Rename(SetValue(f, k, v), m) == SetValue(Rename(f, m), At(m, k), v)
  {
    if f.Tree? {
      RenameSetValue(f.kids, k, v, m);
      RenameSetValue(f.rest, k, v, m);
    }
  }

  // ---- recreating a subtree under fresh IDs ----

  lemma {:induction false} NumberShape<V>(f: Forest<V>, n: nat)
    ensures Size(Number(f, n)) == Size(f) == |Preorder(Number(f, n))|
    ensures Strip(Number(f, n)) == Strip(f)
    ensures Number(Strip(f), n) == Number(f, n)
  {
    PreorderKeys(Number(f, n));
    if f.Tree? {
      NumberShape(f.kids, n + 1);
      NumberShape(f.rest, n + 1 + Size(f.kids));
      StripSize(f.kids);
    }
  }

  lemma {:induction false} NumberKeys<V>(f: Forest<V>, n: nat)
    ensures forall k :: k in Keys(Number(f, n)) <==> n < k <= n + Size(f)
    ensures Distinct(Number(f, n))
  {
    if f.Tree? {
      NumberKeys(f.kids, n + 1);
      NumberKeys(f.rest, n + 1 + Size(f.kids));
    }
  }

  lemma {:induction false} StripSize<V>(f: Forest<V>)
    ensures Size(Strip(f)) == Size(f)
  {
    if f.Tree? {
      StripSize(f.kids);
      StripSize(f.rest);
    }
  }

  /** `m` with the items of `ks` moved, in order, to the IDs after `n`. */
  function Renumbered(m: map<nat, nat>, ks: seq<nat>, n: nat): map<nat, nat>
    decreases |ks|
  {
    if ks == [] then m else Renumbered(m, ks[1..], n + 1)[ks[0] := n + 1]
  }

  lemma {:induction false} RenumberedElsewhere(m: map<nat, nat>, ks: seq<nat>, n: nat)
    ensures forall k :: k !in ks ==> At(Renumbered(m, ks, n), k) == At(m, k)
    ensures forall k :: k in Renumbered(m, ks, n) <==> k in m || k in ks
    decreases |ks|
  {
    if ks != [] {
      RenumberedElsewhere(m, ks[1..], n + 1);
      assert ks == [ks[0]] + ks[1..];
    }
  }

  lemma {:induction false} RenumberedAt(m: map<nat, nat>, ks: seq<nat>, n: nat, i: nat)
    requires forall i, j :: 0 <= i < j < |ks| ==> ks[i] != ks[j]
    requires i < |ks|
    ensures At(Renumbered(m, ks, n), ks[i]) == n + 1 + i
    decreases |ks|
  {
    if i > 0 {
      RenumberedAt(m, ks[1..], n + 1, i - 1);
    }
  }

  lemma {:induction false} NumberIsRename<V>(f: Forest<V>, n: nat, m: map<nat, nat>)
    requires forall i :: 0 <= i < |Preorder(f)| ==> At(m, Preorder(f)[i]) == n + 1 + i
    ensures Number(f, n) == Rename(f, m)
  {
    if f.Tree? {
      PreorderKeys(f.kids);
      var a, b := Preorder(f.kids), Preorder(f.rest);
      assert Preorder(f)[0] == f.key;
      forall i | 0 <= i < |a| ensures At(m, a[i]) == n + 2 + i {
        assert Preorder(f)[1 + i] == a[i];
      }
      forall i | 0 <= i < |b| ensures At(m, b[i]) == n + 1 + Size(f.kids) + 1 + i {
        assert Preorder(f)[1 + |a| + i] == b[i];
      }
      NumberIsRename(f.kids, n + 1, m);
      NumberIsRename(f.rest, n + 1 + Size(f.kids), m);
    }
  }

  /** Recreating `f` from its snapshot gives `f` itself, with its items moved to fresh IDs. */
  lemma {:induction false} Recreate<V>(f: Forest<V>, n: nat, m: map<nat, nat>)
    requires Distinct(f)
    ensures Number(Strip(f), n) == Rename(f, Renumbered(m, Preorder(f), n))
  {
    PreorderDistinct(f);
    forall i | 0 <= i < |Preorder(f)| ensures At(Renumbered(m, Preorder(f), n), Preorder(f)[i]) == n + 1 + i {
      RenumberedAt(m, Preorder(f), n, i);
    }
    NumberShape(f, n);
    NumberIsRename(f, n, Renumbered(m, Preorder(f), n));
  }
}
