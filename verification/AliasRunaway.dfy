/** An alias that expands into itself: the cut-off keeps the work linear in the number of expansions. */
module AliasRunaway {
  import opened Collections
  import opened Forests
  import opened AliasUnits
  import opened DeferredDeletes

  function Repeated(k: nat, c: Command): Script {
    if k == 0 then Done else Then(Expand(c), Repeated(k - 1, c))
  }

  /** A command that alias `a` takes, and answers with `k` commands of the same kind, `d` levels deep. */
  function Again(a: nat, k: nat, d: nat): Command
    decreases d
  {
    if d == 0 then NoMatch else Matching(a, Repeated(k, Again(a, k, d - 1)), NoMatch)
  }

  /** Only the counters and the stop flag have moved. */
  ghost predicate Alike(s: Unit, r: Unit) {
    r == s.(passes := r.passes, sent := r.sent, deepest := r.deepest, stopped := r.stopped)
  }

  /** An active alias at the top level of a unit with nothing queued. */
  ghost predicate Ready(s: Unit, a: nat) {
    Distinct(s.forest) && a in Roots(s.forest) && IsActive(s, a) && s.cleanupSet == {} && s.uninstallList == []
  }

  /** Nothing on this level or below it is matched. */
  ghost predicate Elsewhere(c: Command, level: Aliases) {
    c.NoMatch? || (c.more.NoMatch? && c.alias !in Keys(level))
  }

  lemma {:induction false} NobodyElse(s: Unit, c: Command, level: Aliases)
    requires Elsewhere(c, level) && Keys(level) <= Keys(s.forest)
    ensures VisitLevel(s, c, level) == (s, c, false)
    ensures level.Tree? ==> Visit(s, c, level) == (s, c, false)
    decreases level
  {
    if level.Tree? {
      assert MatchOf(c, level.key) == NoMatch;
      NobodyElse(s, c, level.kids);
      NobodyElse(s, c, level.rest);
    }
  }

  lemma {:induction false} FoundWithin(f: Aliases, id: nat)
    requires Distinct(f) && id in Roots(f)
    ensures id in Keys(f) && Find(f, id).Tree? && Find(f, id).key == id && Find(f, id).rest.End?
    ensures Keys(Find(f, id)) <= Keys(f) && id !in Keys(Find(f, id).kids)
    ensures forall a :: a in Roots(f) && a != id ==> a !in Keys(Find(f, id))
  {
    RootsKnown(f);
    FindRemoveKeys(f, id);
  }

  /** The walk comes to nothing but the script of the one alias that matches. */
  lemma {:induction false} OnlyOneRuns(s: Unit, c: Command, snapshot: seq<nat>)
    requires c.Matching? && c.more.NoMatch? && Ready(s, c.alias) && Alike(s, RunScript(s, c.script))
    requires NoRepeats(snapshot) && forall i :: 0 <= i < |snapshot| ==> snapshot[i] in Roots(s.forest)
    ensures VisitRoots(s, c, snapshot)
            == if c.alias in snapshot then (RunScript(s, c.script), true) else (s, false)
    decreases |snapshot|
  {
    if snapshot != [] {
      var a, id, rest := c.alias, snapshot[0], snapshot[1..];
      assert snapshot == [id] + rest;
      assert forall i :: 0 <= i < |rest| ==> rest[i] == snapshot[i + 1];
      FoundWithin(s.forest, id);
      if id == a {
        var r := RunScript(s, c.script);
        TheOneVisit(s, c, r);
        SkipOthers(r, rest);
      } else {
        NobodyElse(s, c, Find(s.forest, id));
        OnlyOneRuns(s, c, rest);
      }
    }
  }

  lemma {:induction false} TheOneVisit(s: Unit, c: Command, r: Unit)
    requires c.Matching? && c.more.NoMatch? && Ready(s, c.alias) && r == RunScript(s, c.script) && Alike(s, r)
    ensures Find(s.forest, c.alias).Tree? && Visit(s, c, Find(s.forest, c.alias)) == (r, NoMatch, true)
  {
    var t := Find(s.forest, c.alias);
    FoundWithin(s.forest, c.alias);
    assert Keys(t.kids) <= Keys(t);
    NobodyElse(r, NoMatch, t.kids);
    assert MatchOf(c, c.alias) == c && Tried(c, c.alias) == NoMatch;
  }

  lemma {:induction false} SkipOthers(s: Unit, snapshot: seq<nat>)
    requires Distinct(s.forest) && forall i :: 0 <= i < |snapshot| ==> snapshot[i] in Roots(s.forest)
    ensures VisitRoots(s, NoMatch, snapshot) == (s, false)
    decreases |snapshot|
  {
    if snapshot != [] {
      assert forall i :: 0 <= i < |snapshot[1..]| ==> snapshot[1..][i] == snapshot[i + 1];
      FoundWithin(s.forest, snapshot[0]);
      NobodyElse(s, NoMatch, Find(s.forest, snapshot[0]));
      SkipOthers(s, snapshot[1..]);
    }
  }

  /** Once stopped, the rest of a script's expansions are dropped. */
  lemma {:induction false} RestDropped(s: Unit, k: nat, c: Command)
    requires s.stopped
    ensures RunScript(s, Repeated(k, c)) == s
    decreases k
  {
    if k > 0 {
      assert RunAct(s, Expand(c)) == s;
      RestDropped(s, k - 1, c);
    }
  }

  /** What one expansion below the first pass comes to. */
  ghost predicate Chain(s: Unit, r: Unit) {
    && Alike(s, r) && s.depth <= MAX_PROCESSING_DEPTH
    && r.passes == s.passes + (MAX_PROCESSING_DEPTH - s.depth) && r.sent == s.sent + 1
    && r.stopped == (s.depth > 1)
  }

  lemma {:induction false} OneChain(s: Unit, a: nat, k: nat, d: nat)
    requires Ready(s, a) && !s.stopped && 1 <= s.depth <= MAX_PROCESSING_DEPTH && k > 0
    requires d >= MAX_PROCESSING_DEPTH - s.depth
    ensures Chain(s, RunAct(s, Expand(Again(a, k, d))))
    decreases MAX_PROCESSING_DEPTH - s.depth
  {
    var c := Again(a, k, d);
    if s.depth < MAX_PROCESSING_DEPTH {
      var e := Entered(s);
      var c' := Again(a, k, d - 1);
      OneChain(e, a, k, d - 1);
      var e1 := RunAct(e, Expand(c'));
      assert e1.stopped;
      RestDropped(e1, k - 1, c');
      assert RunScript(e, c.script) == RunScript(e1, Repeated(k - 1, c')) == e1;
      RootsKnown(s.forest);
      OnlyOneRuns(e, c, Roots(s.forest));
      assert Process(s, c) == (Leave(e1), true);
    }
  }

  lemma {:induction false} ManyChains(s: Unit, a: nat, k: nat, n: nat, d: nat)
    requires Ready(s, a) && !s.stopped && s.depth == 1 && k > 0 && d >= MAX_PROCESSING_DEPTH - 1
    ensures var r := RunScript(s, Repeated(n, Again(a, k, d)));
            && Alike(s, r) && !r.stopped && r.sent == s.sent + n
            && r.passes == s.passes + n * (MAX_PROCESSING_DEPTH - 1)
    decreases n
  {
    if n > 0 {
      OneChain(s, a, k, d);
      ManyChains(RunAct(s, Expand(Again(a, k, d))), a, k, n - 1, d);
      assert n * (MAX_PROCESSING_DEPTH - 1) == (n - 1) * (MAX_PROCESSING_DEPTH - 1) + (MAX_PROCESSING_DEPTH - 1);
    }
  }

  /** One typed command whose every expansion is taken again and answered with `k` more: 1 + k * 49 passes run and
      `k` commands go to the game unexpanded, not k to the 49th. */
  lemma {:induction false} RunawayIsLinear(s: Unit, a: nat, k: nat, d: nat)
    requires Ready(s, a) && s.depth == 0 && !s.stopped && k > 0 && d >= MAX_PROCESSING_DEPTH
    ensures var (r, taken) := Process(s, Again(a, k, d));
            && taken && Alike(s, r) && !r.stopped && r.sent == s.sent + k
            && r.passes == s.passes + 1 + k * (MAX_PROCESSING_DEPTH - 1)
  {
    hide *;
    OutermostPass(s, a, k, d);
    ManyChains(Entered(s), a, k, k, d - 1);
    OutermostEnds(s, RunScript(Entered(s), Repeated(k, Again(a, k, d - 1))));
  }

  lemma {:induction false} OutermostPass(s: Unit, a: nat, k: nat, d: nat)
    requires Ready(s, a) && s.depth == 0 && !s.stopped && k > 0 && d >= MAX_PROCESSING_DEPTH
    ensures MAX_PROCESSING_DEPTH == 50 && s.cleanupSet == {} && s.uninstallList == []
    ensures var e := Entered(s);
            var r := RunScript(e, Repeated(k, Again(a, k, d - 1)));
            && Ready(e, a) && !e.stopped && e.depth == 1 && e.passes == s.passes + 1 && e.sent == s.sent
            && (Alike(e, r) ==> Process(s, Again(a, k, d)) == (Leave(r), true))
  {
    RootsKnown(s.forest);
    var c, e := Again(a, k, d), Entered(s);
    assert c.script == Repeated(k, Again(a, k, d - 1));
    if Alike(e, RunScript(e, c.script)) {
      OnlyOneRuns(e, c, Roots(s.forest));
    }
  }

  lemma {:induction false} OutermostEnds(s: Unit, r: Unit)
    requires s.depth == 0 && !s.stopped && Alike(Entered(s), r) && s.cleanupSet == {} && s.uninstallList == []
    ensures Alike(s, Leave(r)) && !Leave(r).stopped && Leave(r).sent == r.sent && Leave(r).passes == r.passes
  {
  }
}
