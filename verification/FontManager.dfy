/** Keeping count of the font files that profiles and their packages load into Qt's one font database. */
module FontManager {

  /** Who loads: a profile, empty for Mudlet itself, and a package of it. */
  datatype Owner = Owner(profile: string, package: string)

  /** The IDs of loaded paths, by profile; the IDs of files; the IDs each package loaded; and what Qt has. */
  datatype Fonts = Fonts(paths: map<string, int>, shared: map<string, int>, affiliations: map<string, seq<int>>, registered: set<int>)

  const NO_FONTS := Fonts(map[], map[], map[], {})
  const FAILED := -1

  function Prefix(profile: string): string {
    if profile == "" then "" else profile + "/"
  }

  function PathKey(profile: string, file: string): string {
    Prefix(profile) + file
  }

  function AffiliationKey(o: Owner): string {
    Prefix(o.profile) + o.package
  }

  function IDsOf(affiliations: map<string, seq<int>>, key: string): seq<int> {
    if key in affiliations then affiliations[key] else []
  }

  /** Some package still holds the font. */
  predicate Held(affiliations: map<string, seq<int>>, id: int) {
    exists key :: key in affiliations && id in affiliations[key]
  }

  // ---- loading and unloading ----

  /** loadFont(), when Qt gives this answer to a file new to it: a new ID, or that it failed. */
  function Load(s: Fonts, file: string, o: Owner, answer: int): Fonts {
    var key := PathKey(o.profile, file);
    if key in s.paths then s
    else if file in s.shared then Remember(s, file, s.shared[file], o)
    else Remember(s.(registered := if answer == FAILED then s.registered else s.registered + {answer}), file, answer, o)
  }

  function Remember(s: Fonts, file: string, id: int, o: Owner): Fonts {
    var key, affiliation := PathKey(o.profile, file), AffiliationKey(o);
    if key in s.paths then s
    else
      s.(paths := s.paths[key := id],
         shared := if id != FAILED && file !in s.shared then s.shared[file := id] else s.shared,
         affiliations := s.affiliations[affiliation := [id] + IDsOf(s.affiliations, affiliation)])
  }

  /** The fonts no one holds once these are given up. */
  function Unheld(ids: seq<int>, affiliations: map<string, seq<int>>): set<int> {
    set id | id in ids && id != FAILED && !Held(affiliations, id)
  }

  /** unloadFonts(). */
  function Unload(s: Fonts, o: Owner): Fonts {
    var key := AffiliationKey(o);
    var ids, left := IDsOf(s.affiliations, key), s.affiliations - {key};
    var gone := Unheld(ids, left);
    Fonts(map k | k in s.paths && !(s.paths[k] != FAILED && s.paths[k] in ids && Prefix(o.profile) <= k) :: s.paths[k],
          map k | k in s.shared && s.shared[k] !in gone :: s.shared[k],
          left,
          s.registered - gone)
  }

  // ---- runs ----

  datatype Call = LoadCall(file: string, owner: Owner, answer: int) | UnloadCall(owner: Owner)

  function Do(s: Fonts, c: Call): Fonts {
    match c
    case LoadCall(file, owner, answer) => Load(s, file, owner, answer)
    case UnloadCall(owner) => Unload(s, owner)
  }

  /** Qt answers with a failure or an ID that no font has. */
  predicate Answers(s: Fonts, c: Call) {
    c.LoadCall? ==> c.answer == FAILED || (c.answer >= 0 && c.answer !in s.registered)
  }

  function After(calls: seq<Call>): Fonts {
    if calls == [] then NO_FONTS else Do(After(calls[..|calls| - 1]), calls[|calls| - 1])
  }

  predicate Answered(calls: seq<Call>) {
    forall i :: 0 <= i < |calls| ==> Answers(After(calls[..i]), calls[i])
  }

  // ---- what every run keeps ----

  /** Qt has a font exactly while a package holds it, and exactly while its file is known; no two files share an ID. */
  ghost predicate Counted(s: Fonts) {
    && (forall id :: id in s.registered <==> id != FAILED && Held(s.affiliations, id))
    && (forall id :: id in s.registered <==> exists f :: f in s.shared && s.shared[f] == id)
    && (forall f :: f in s.shared ==> s.shared[f] >= 0)
    && (forall f, g :: f in s.shared && g in s.shared && s.shared[f] == s.shared[g] ==> f == g)
  }

  /** Every path said to be loaded has a font that Qt has, unless it failed. */
  predicate PathsLive(s: Fonts) {
    forall k :: k in s.paths && s.paths[k] != FAILED ==> s.paths[k] in s.registered
  }

  lemma {:induction false} HeldAfterInsert(affiliations: map<string, seq<int>>, key: string, id: int, other: int)
    ensures Held(affiliations[key := [id] + IDsOf(affiliations, key)], other) <==> Held(affiliations, other) || other == id
  {
    var after := affiliations[key := [id] + IDsOf(affiliations, key)];
    if Held(affiliations, other) {
      var k :| k in affiliations && other in affiliations[k];
      assert k in after && other in after[k];
    }
    if other == id {
      assert key in after && other in after[key];
    }
  }

  lemma {:induction false} LoadCounts(s: Fonts, file: string, o: Owner, answer: int)
    requires Counted(s) && Answers(s, LoadCall(file, o, answer))
    ensures Counted(Load(s, file, o, answer))
  {
    var key, id := AffiliationKey(o), if file in s.shared then s.shared[file] else answer;
    var after := Load(s, file, o, answer);
    if PathKey(o.profile, file) !in s.paths {
      forall other ensures Held(after.affiliations, other) <==> Held(s.affiliations, other) || other == id {
        HeldAfterInsert(s.affiliations, key, id, other);
      }
      if file !in s.shared && answer != FAILED {
        assert after.shared[file] == answer;
        forall i ensures i in after.registered <==> exists f :: f in after.shared && after.shared[f] == i {
          if i in s.registered {
            var f :| f in s.shared && s.shared[f] == i;
            assert f in after.shared && after.shared[f] == i;
          }
        }
      }
    }
  }

  lemma {:induction false} UnloadCounts(s: Fonts, o: Owner)
    requires Counted(s)
    ensures Counted(Unload(s, o))
  {
    var after, key := Unload(s, o), AffiliationKey(o);
    var gone := Unheld(IDsOf(s.affiliations, key), after.affiliations);
    forall id ensures id in after.registered <==> id != FAILED && Held(after.affiliations, id) {
      HeldAfterRemove(s.affiliations, key, id);
    }
    forall id ensures id in after.registered <==> exists f :: f in after.shared && after.shared[f] == id {
      if id in after.registered {
        var f :| f in s.shared && s.shared[f] == id;
        assert f in after.shared && after.shared[f] == id;
      }
    }
  }

  lemma {:induction false} HeldAfterRemove(affiliations: map<string, seq<int>>, key: string, id: int)
    ensures Held(affiliations, id) <==> Held(affiliations - {key}, id) || id in IDsOf(affiliations, key)
  {
    if Held(affiliations, id) {
      var k :| k in affiliations && id in affiliations[k];
      assert k != key ==> k in affiliations - {key} && id in (affiliations - {key})[k];
    }
    if Held(affiliations - {key}, id) {
      var k :| k in affiliations - {key} && id in (affiliations - {key})[k];
      assert k in affiliations && id in affiliations[k];
    }
  }

  /** Whoever loads and unloads, and whatever their names. */
  lemma {:induction false} AlwaysCounted(calls: seq<Call>)
    requires Answered(calls)
    ensures Counted(After(calls))
    decreases |calls|
  {
    if calls != [] {
      var before, c := calls[..|calls| - 1], calls[|calls| - 1];
      AnsweredBefore(calls);
      AlwaysCounted(before);
      match c
      case LoadCall(file, owner, answer) => LoadCounts(After(before), file, owner, answer);
      case UnloadCall(owner) => UnloadCounts(After(before), owner);
    }
  }

  lemma {:induction false} AnsweredBefore(calls: seq<Call>)
    requires calls != [] && Answered(calls)
    ensures Answered(calls[..|calls| - 1]) && Answers(After(calls[..|calls| - 1]), calls[|calls| - 1])
  {
    var before := calls[..|calls| - 1];
    forall i | 0 <= i < |before| ensures Answers(After(before[..i]), before[i]) {
      assert before[..i] == calls[..i];
    }
  }

  // ---- when loaded paths stay live ----

  /** No two of these owners go by one affiliation key. */
  ghost predicate ToldApart(owners: set<Owner>) {
    forall a, b :: a in owners && b in owners && AffiliationKey(a) == AffiliationKey(b) ==> a == b
  }

  ghost predicate By(calls: seq<Call>, owners: set<Owner>) {
    forall i :: 0 <= i < |calls| ==> calls[i].owner in owners
  }

  /** A loaded path's owner still holds its font. */
  predicate Supported(s: Fonts, k: string, o: Owner) {
    k in s.paths && Prefix(o.profile) <= k && s.paths[k] in IDsOf(s.affiliations, AffiliationKey(o))
  }

  ghost predicate PathsSupported(s: Fonts, owners: set<Owner>) {
    forall k :: k in s.paths && s.paths[k] != FAILED ==> exists o :: o in owners && Supported(s, k, o)
  }

  lemma {:induction false} SupportedIsLive(s: Fonts, owners: set<Owner>)
    requires Counted(s) && PathsSupported(s, owners)
    ensures PathsLive(s)
  {
    forall k | k in s.paths && s.paths[k] != FAILED ensures s.paths[k] in s.registered {
      var o :| o in owners && Supported(s, k, o);
      assert AffiliationKey(o) in s.affiliations && s.paths[k] in s.affiliations[AffiliationKey(o)];
    }
  }

  lemma {:induction false} LoadSupports(s: Fonts, file: string, o: Owner, answer: int, owners: set<Owner>)
    requires PathsSupported(s, owners) && o in owners
    ensures PathsSupported(Load(s, file, o, answer), owners)
  {
    var after, key := Load(s, file, o, answer), PathKey(o.profile, file);
    if key !in s.paths {
      forall k | k in after.paths && after.paths[k] != FAILED ensures exists a :: a in owners && Supported(after, k, a) {
        if k == key {
          assert Supported(after, k, o);
        } else {
          var a :| a in owners && Supported(s, k, a);
          assert Supported(after, k, a);
        }
      }
    }
  }

  lemma {:induction false} UnloadSupports(s: Fonts, o: Owner, owners: set<Owner>)
    requires PathsSupported(s, owners) && o in owners && ToldApart(owners)
    ensures PathsSupported(Unload(s, o), owners)
  {
    var after := Unload(s, o);
    forall k | k in after.paths && after.paths[k] != FAILED ensures exists a :: a in owners && Supported(after, k, a) {
      var a :| a in owners && Supported(s, k, a);
      assert AffiliationKey(a) == AffiliationKey(o) ==> a == o;
      assert Supported(after, k, a);
    }
  }

  lemma {:induction false} SupportedWhenApart(calls: seq<Call>, owners: set<Owner>)
    requires By(calls, owners) && ToldApart(owners)
    ensures PathsSupported(After(calls), owners)
    decreases |calls|
  {
    if calls != [] {
      var before, c := calls[..|calls| - 1], calls[|calls| - 1];
      SupportedWhenApart(before, owners);
      match c
      case LoadCall(file, owner, answer) => LoadSupports(After(before), file, owner, answer, owners);
      case UnloadCall(owner) => UnloadSupports(After(before), owner, owners);
    }
  }

  /** Were two owners told apart by nothing, what one loaded would go when the other unloads, and its path stay. */
  function Confusion(loader: Owner, unloader: Owner, file: string): seq<Call> {
    [LoadCall(file, loader, 0), UnloadCall(unloader)]
  }

  lemma {:induction false} ConfusionLeavesAPath(loader: Owner, unloader: Owner, file: string)
    requires AffiliationKey(loader) == AffiliationKey(unloader) && !(Prefix(unloader.profile) <= PathKey(loader.profile, file))
    ensures Answered(Confusion(loader, unloader, file)) && !PathsLive(After(Confusion(loader, unloader, file)))
  {
    var load, unload := LoadCall(file, loader, 0), UnloadCall(unloader);
    var calls, loaded := Confusion(loader, unloader, file), Do(NO_FONTS, load);
    AfterOneAndTwo(load, unload);
    assert calls[..0] == [] && calls[..1] == [load];
    assert [0] + [] == [0];
    assert loaded.affiliations == map[AffiliationKey(loader) := [0]];
    assert !Held(loaded.affiliations - {AffiliationKey(unloader)}, 0);
    assert PathKey(loader.profile, file) in Do(loaded, unload).paths;
  }

  lemma {:induction false} AfterOneAndTwo(c: Call, d: Call)
    ensures After([c]) == Do(NO_FONTS, c) && After([c, d]) == Do(Do(NO_FONTS, c), d)
  {
    assert [c][..0] == [] && [c, d][..1] == [c];
    assert After([c]) == Do(After([c][..0]), c);
  }

  /** Of two different owners with one key, one's paths are not all the other's. */
  lemma {:induction false} SomePathIsMissed(a: Owner, b: Owner) returns (loader: Owner, unloader: Owner, file: string)
    requires a != b && AffiliationKey(a) == AffiliationKey(b)
    ensures {loader, unloader} == {a, b}
    ensures !(Prefix(unloader.profile) <= PathKey(loader.profile, file))
  {
    if Prefix(a.profile) <= Prefix(b.profile) {
      loader, unloader := a, b;
    } else {
      loader, unloader := b, a;
    }
    var p, q := Prefix(loader.profile), Prefix(unloader.profile);
    if p == q {
      SamePrefix(a, b);
    }
    file := if |p| < |q| && q[|p|] == '/' then "fonts/f.ttf" else "/fonts/f.ttf";
    if |p| < |q| {
      DiffersAfter(p, q, file);
    } else {
      NoPrefix(p, q, file);
    }
  }

  lemma {:induction false} SamePrefix(a: Owner, b: Owner)
    requires AffiliationKey(a) == AffiliationKey(b) && Prefix(a.profile) == Prefix(b.profile)
    ensures a == b
  {
    assert a.package == AffiliationKey(a)[|Prefix(a.profile)|..];
    assert b.package == AffiliationKey(b)[|Prefix(b.profile)|..];
    assert a.profile != "" ==> Prefix(a.profile)[..|Prefix(a.profile)| - 1] == a.profile;
    assert b.profile != "" ==> Prefix(b.profile)[..|Prefix(b.profile)| - 1] == b.profile;
  }

  lemma {:induction false} DiffersAfter(p: string, q: string, file: string)
    requires |p| < |q| && |file| > 0 && file[0] != q[|p|]
    ensures !(q <= p + file)
  {
    assert (p + file)[|p|] == file[0];
  }

  lemma {:induction false} NoPrefix(p: string, q: string, file: string)
    requires |q| <= |p| && !(q <= p)
    ensures !(q <= p + file)
  {
    assert p == (p + file)[..|p|];
  }

  /** Loaded paths stay live through every run of these owners' loads and unloads just when no two of them go by one key. */
  lemma {:induction false} PathsStayLiveIff(owners: set<Owner>)
    ensures (forall calls :: Answered(calls) && By(calls, owners) ==> PathsLive(After(calls))) <==> ToldApart(owners)
  {
    if ToldApart(owners) {
      forall calls | Answered(calls) && By(calls, owners) ensures PathsLive(After(calls)) {
        AlwaysCounted(calls);
        SupportedWhenApart(calls, owners);
        SupportedIsLive(After(calls), owners);
      }
    } else {
      var a, b :| a in owners && b in owners && AffiliationKey(a) == AffiliationKey(b) && a != b;
      var loader, unloader, file := SomePathIsMissed(a, b);
      assert loader in {a, b} && unloader in {a, b};
      ConfusionLeavesAPath(loader, unloader, file);
    }
  }

  /** A profile is named without a slash; what is loaded under no profile is Mudlet's own, and of no package. */
  predicate Plain(o: Owner) {
    '/' !in o.profile && (o.profile == "" ==> o.package == "")
  }

  lemma {:induction false} PlainNamesAreToldApart(owners: set<Owner>)
    requires forall o :: o in owners ==> Plain(o)
    ensures ToldApart(owners)
  {
    forall a, b | a in owners && b in owners && AffiliationKey(a) == AffiliationKey(b) ensures a == b {
      if a.profile == "" || b.profile == "" {
        MudletsOwn(a, b);
        MudletsOwn(b, a);
      } else if |a.profile| < |b.profile| {
        ShorterDiffers(a, b);
      } else if |b.profile| < |a.profile| {
        ShorterDiffers(b, a);
      } else {
        assert AffiliationKey(a)[..|a.profile|] == a.profile && AffiliationKey(b)[..|b.profile|] == b.profile;
        SamePrefix(a, b);
      }
    }
  }

  lemma {:induction false} MudletsOwn(a: Owner, b: Owner)
    requires Plain(a) && Plain(b) && AffiliationKey(a) == AffiliationKey(b)
    ensures a.profile == "" ==> b.profile == "" && a == b
  {
    assert |AffiliationKey(b)| == |Prefix(b.profile)| + |b.package|;
  }

  /** For every run of loads and unloads by profiles and by Mudlet itself, however packages are named: each loaded path that
      did not fail names a font that Qt has, and Qt has no font that no one holds. */
  lemma {:induction false} LoadedPathsStayLive(calls: seq<Call>)
    requires Answered(calls) && forall i :: 0 <= i < |calls| ==> Plain(calls[i].owner)
    ensures PathsLive(After(calls)) && Counted(After(calls))
  {
    var owners := set i | 0 <= i < |calls| :: calls[i].owner;
    PlainNamesAreToldApart(owners);
    AlwaysCounted(calls);
    SupportedWhenApart(calls, owners);
    SupportedIsLive(After(calls), owners);
  }

  lemma {:induction false} ShorterDiffers(a: Owner, b: Owner)
    requires 0 < |a.profile| < |b.profile| && '/' !in b.profile
    ensures AffiliationKey(a) != AffiliationKey(b)
  {
    assert AffiliationKey(a)[|a.profile|] == '/' && AffiliationKey(b)[|a.profile|] == b.profile[|a.profile|];
  }

  /** A second package of one profile that loads the same file is not counted: the font goes with the first. */
  lemma {:induction false} SecondPackageIsNotCounted(file: string, profile: string, first: string, second: string, answer: int)
    requires answer >= 0 && AffiliationKey(Owner(profile, first)) != AffiliationKey(Owner(profile, second))
    ensures var loaded := Load(Load(NO_FONTS, file, Owner(profile, first), answer), file, Owner(profile, second), answer);
            loaded.registered == {answer} && Unload(loaded, Owner(profile, first)).registered == {}
  {
    var loaded := Load(NO_FONTS, file, Owner(profile, first), answer);
    assert [answer] + [] == [answer];
    assert loaded.affiliations == map[AffiliationKey(Owner(profile, first)) := [answer]];
    assert !Held(loaded.affiliations - {AffiliationKey(Owner(profile, first))}, answer);
  }

  // ---- the manager object ----

  class Manager {
    var paths: map<string, int>
    var shared: map<string, int>
    var affiliations: map<string, seq<int>>
    /** What Qt's font database has of ours. */
    var registered: set<int>

    constructor ()
      ensures State() == NO_FONTS
    {
      paths, shared, affiliations, registered := map[], map[], map[], {};
    }

    function State(): Fonts
      reads this
    {
      Fonts(paths, shared, affiliations, registered)
    }

    method LoadFont(file: string, profile: string, package: string, answer: int)
      modifies this
      ensures State() == Load(old(State()), file, Owner(profile, package), answer)
    {
      if PathKey(profile, file) in paths {
        return;
      }
      var id;
      if file in shared {
        id := shared[file];
      } else {
        id := answer;
        if id != FAILED {
          registered := registered + {id};
        }
      }
      RememberFont(file, id, profile, package);
    }

    method RememberFont(file: string, id: int, profile: string, package: string)
      modifies this`paths, this`shared, this`affiliations
      ensures State() == Remember(old(State()), file, id, Owner(profile, package))
    {
      var key := PathKey(profile, file);
      if key in paths {
        return;
      }
      paths := paths[key := id];
      if id != FAILED && file !in shared {
        shared := shared[file := id];
      }
      var affiliation := AffiliationKey(Owner(profile, package));
      affiliations := affiliations[affiliation := [id] + IDsOf(affiliations, affiliation)];
    }

    method UnloadFonts(profile: string, package: string)
      modifies this
      ensures State() == Unload(old(State()), Owner(profile, package))
    {
      var key := AffiliationKey(Owner(profile, package));
      var ids := IDsOf(affiliations, key);
      affiliations := affiliations - {key};
      for i := 0 to |ids|
        invariant affiliations == old(affiliations) - {key} && paths == old(paths)
        invariant registered == old(registered) - Unheld(ids[..i], affiliations)
        invariant shared == map k | k in old(shared) && old(shared)[k] !in Unheld(ids[..i], affiliations) :: old(shared)[k]
      {
        var id := ids[i];
        UnheldMore(ids, i, affiliations);
        if id == FAILED {
          continue;
        }
        if !Held(affiliations, id) {
          registered := registered - {id};
          ForgetShared(id);
        }
      }
      assert ids[..|ids|] == ids;
      ForgetPaths(ids, Prefix(profile));
    }

    method ForgetShared(id: int)
      modifies this`shared
      ensures shared == map k | k in old(shared) && old(shared)[k] != id :: old(shared)[k]
    {
      var ahead := shared.Keys;
      while ahead != {}
        invariant ahead <= old(shared).Keys
        invariant shared == map k | k in old(shared) && (k in ahead || old(shared)[k] != id) :: old(shared)[k]
        decreases |ahead|
      {
        var k :| k in ahead;
        ahead := ahead - {k};
        if shared[k] == id {
          shared := shared - {k};
        }
      }
    }

    method ForgetPaths(ids: seq<int>, prefix: string)
      modifies this`paths
      ensures paths ==
              map k | k in old(paths) && !(old(paths)[k] != FAILED && old(paths)[k] in ids && prefix <= k) :: old(paths)[k]
    {
      var ahead := paths.Keys;
      while ahead != {}
        invariant ahead <= old(paths).Keys
        invariant paths == map k | k in old(paths) &&
                                   (k in ahead || !(old(paths)[k] != FAILED && old(paths)[k] in ids && prefix <= k)) :: old(paths)[k]
        decreases |ahead|
      {
        var k :| k in ahead;
        ahead := ahead - {k};
        if paths[k] != FAILED && paths[k] in ids && prefix <= k {
          paths := paths - {k};
        }
      }
    }
  }

  lemma {:induction false} UnheldMore(ids: seq<int>, i: nat, affiliations: map<string, seq<int>>)
    requires i < |ids|
    ensures Unheld(ids[..i + 1], affiliations) ==
            Unheld(ids[..i], affiliations) + if ids[i] != FAILED && !Held(affiliations, ids[i]) then {ids[i]} else {}
  {
    assert ids[..i + 1] == ids[..i] + [ids[i]];
  }
}
