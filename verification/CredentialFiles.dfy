/** One saved password in encrypted files: the current file, and the one an older Mudlet sharing the same
    configuration directory reads and writes under its truncated name. */
module CredentialFiles {
  import opened Collections

  /** `password` empty is how "no password" is written; `derivable` marks the older encryption key. */
  datatype File = File(owner: string, derivable: bool, password: string, written: nat)

  /** Where an older Mudlet files this credential: at a path of its own, at the current path, or at one that
      keys as long as this share, which is left alone. */
  datatype OldPath = Separate | SamePath | Unclaimed

  /** `clock` is the latest write time; each write names how much later than the one before it is stamped. */
  datatype Files = Files(profile: string, oldPath: OldPath, current: Option<File>, legacy: Option<File>, clock: nat)

  /** Decryption fails on another profile's file, and an empty file has nothing in it. */
  function Decrypt(f: Option<File>, profile: string): string {
    if f.Some? && f.value.owner == profile then f.value.password else ""
  }

  predicate WrittenAfter(f: Option<File>, other: Option<File>) {
    f.Some? && (other.None? || f.value.written > other.value.written)
  }

  predicate OursLegacy(s: Files) {
    s.oldPath.Separate? && Decrypt(s.legacy, s.profile) != ""
  }

  function WriteCurrent(s: Files, password: string, later: nat): Files {
    s.(current := Some(File(s.profile, false, password, s.clock + later)), clock := s.clock + later)
  }

  function WriteLegacy(s: Files, password: string, later: nat): Files {
    s.(legacy := Some(File(s.profile, false, password, s.clock + later)), clock := s.clock + later)
  }

  /** refreshLegacyFileCredential(): only a copy that decrypts as ours is touched. */
  function Refresh(s: Files, password: string, later: nat): Files {
    if !OursLegacy(s) then s
    else if password == "" then s.(legacy := None)
    else WriteLegacy(s, password, later)
  }

  function StoreToFile(s: Files, password: string, later: nat, later': nat): Files {
    Refresh(WriteCurrent(s, password, later), password, later')
  }

  /** retrieveCredentialFromFile(). */
  function Retrieve(s: Files, later: nat, later': nat): (Files, string) {
    if OursLegacy(s) && WrittenAfter(s.legacy, s.current) then
      var migrated := Decrypt(s.legacy, s.profile);
      var s1 := if s.legacy.value.derivable then WriteLegacy(s, migrated, later) else s;
      (WriteCurrent(s1, migrated, later'), migrated)
    else if s.current.None? || s.current.value.password == "" then (s, "")
    else
      var password := Decrypt(s.current, s.profile);
      if password != "" && s.current.value.derivable then
        (Refresh(WriteCurrent(s, password, later), password, later'), password)
      else (s, password)
  }

  function RemoveFromFile(s: Files): Files {
    var s1 := if OursLegacy(s) then s.(legacy := None) else s;
    s1.(current := None)
  }

  /** An older Mudlet storing a password: it knows only its own path. */
  function OlderStore(s: Files, password: string, derivable: bool, later: nat): Files {
    var f := Some(File(s.profile, derivable, password, s.clock + later));
    if s.oldPath.SamePath? then s.(current := f, clock := s.clock + later)
    else s.(legacy := f, clock := s.clock + later)
  }

  /** An older Mudlet storing a password of another profile whose name is cut to the same path. */
  function OtherStore(s: Files, owner: string, password: string, derivable: bool, later: nat): Files {
    var f := Some(File(owner, derivable, password, s.clock + later));
    if s.oldPath.SamePath? then s.(current := f, clock := s.clock + later)
    else s.(legacy := f, clock := s.clock + later)
  }

  datatype Event =
    | Store(password: string, later: nat, later': nat)
    | Read(later: nat, later': nat)
    | Remove
    | Older(password: string, derivable: bool, later: nat)
    | Other(owner: string, password: string, derivable: bool, later: nat)

  /** What one event does, and what a read gives. */
  function Happen(s: Files, e: Event): (Files, seq<string>) {
    match e
    case Store(p, l, l') => (StoreToFile(s, p, l, l'), [])
    case Read(l, l') =>
      var (s1, p) := Retrieve(s, l, l');
      (s1, [p])
    case Remove => (RemoveFromFile(s), [])
    case Older(p, d, l) => (OlderStore(s, p, d, l), [])
    case Other(o, p, d, l) => (OtherStore(s, o, p, d, l), [])
  }

  function Run(s: Files, events: seq<Event>): (Files, seq<string>)
    decreases |events|
  {
    if events == [] then (s, [])
    else
      var (s1, given) := Happen(s, events[0]);
      var (s2, later) := Run(s1, events[1..]);
      (s2, given + later)
  }

  function NoFiles(profile: string, oldPath: OldPath): Files {
    Files(profile, oldPath, None, None, 0)
  }

  /** What the reads of a history would give if there were one register holding the last password written. */
  function Register(last: string, events: seq<Event>): seq<string>
    decreases |events|
  {
    if events == [] then []
    else
      match events[0]
      case Store(p, _, _) => Register(p, events[1..])
      case Read(_, _) => [last] + Register(last, events[1..])
      case Remove => Register("", events[1..])
      case Older(p, _, _) => Register(p, events[1..])
      case Other(_, _, _, _) => Register(last, events[1..])
  }

  /** The password written last for this profile. */
  function LastWritten(last: string, events: seq<Event>): string
    decreases |events|
  {
    if events == [] then last
    else
      match events[0]
      case Store(p, _, _) => LastWritten(p, events[1..])
      case Remove => LastWritten("", events[1..])
      case Older(p, _, _) => LastWritten(p, events[1..])
      case _ => LastWritten(last, events[1..])
  }

  // ---- last writer wins ----

  /** `last` is the password written last: a copy of ours under the old name holds it, and unless that copy is
      the newer one, so does the current file. */
  ghost predicate Holds(s: Files, last: string) {
    && s.profile != ""
    && (s.current.Some? ==> s.current.value.owner == s.profile && s.current.value.written <= s.clock)
    && (s.legacy.Some? ==> s.legacy.value.written <= s.clock)
    && (OursLegacy(s) ==> Decrypt(s.legacy, s.profile) == last)
    && (!(OursLegacy(s) && WrittenAfter(s.legacy, s.current)) ==> Decrypt(s.current, s.profile) == last)
  }

  lemma {:induction false} StoreHolds(s: Files, last: string, password: string, l: nat, l': nat)
    requires Holds(s, last)
    ensures Holds(StoreToFile(s, password, l, l'), password)
  {
  }

  /** A read returns the last password, and leaves both copies holding it. */
  lemma {:induction false} RetrieveHolds(s: Files, last: string, l: nat, l': nat)
    requires Holds(s, last)
    ensures Retrieve(s, l, l').1 == last && Holds(Retrieve(s, l, l').0, last)
  {
  }

  lemma {:induction false} RemoveHolds(s: Files, last: string)
    requires Holds(s, last)
    ensures Holds(RemoveFromFile(s), "")
  {
  }

  lemma {:induction false} OlderHolds(s: Files, last: string, password: string, derivable: bool, later: nat)
    requires Holds(s, last) && password != "" && !s.oldPath.Unclaimed?
    requires s.oldPath.SamePath? || later > 0
    ensures Holds(OlderStore(s, password, derivable, later), password)
  {
  }

  /** Older Mudlets write passwords that are not empty, each later than what was written before. */
  predicate Reasonable(e: Event, oldPath: OldPath) {
    e.Older? ==> e.password != "" && !oldPath.Unclaimed? && (oldPath.SamePath? || e.later > 0)
  }

  /** No other profile is filed under the old path. */
  predicate Alone(events: seq<Event>, oldPath: OldPath) {
    forall i :: 0 <= i < |events| ==> Reasonable(events[i], oldPath) && !events[i].Other?
  }

  lemma {:induction false} HappenHolds(s: Files, last: string, e: Event)
    requires Holds(s, last) && Reasonable(e, s.oldPath) && !e.Other?
    ensures Holds(Happen(s, e).0, LastWritten(last, [e])) && Happen(s, e).0.oldPath == s.oldPath
    ensures Happen(s, e).1 == if e.Read? then [last] else []
    ensures forall rest :: LastWritten(last, [e] + rest) == LastWritten(LastWritten(last, [e]), rest)
    ensures forall rest :: Register(last, [e] + rest) == (if e.Read? then [last] else []) + Register(LastWritten(last, [e]), rest)
  {
    forall rest ensures ([e] + rest)[1..] == rest && ([e] + rest)[0] == e {
    }
    assert [e][1..] == [];
    match e
    case Store(p, l, l') => StoreHolds(s, last, p, l, l');
    case Read(l, l') => RetrieveHolds(s, last, l, l');
    case Remove => RemoveHolds(s, last);
    case Older(p, d, l) => OlderHolds(s, last, p, d, l);
  }

  /** For every history of stores, reads and removals by this Mudlet and stores by an older one: every read
      returns the password written last, and nothing after a removal until the next write. */
  lemma {:induction false} LastWriterWins(s: Files, last: string, events: seq<Event>)
    requires Holds(s, last) && Alone(events, s.oldPath)
    ensures Run(s, events).1 == Register(last, events)
    ensures Holds(Run(s, events).0, LastWritten(last, events))
    decreases |events|
  {
    if events != [] {
      assert events == [events[0]] + events[1..];
      assert forall i :: 0 <= i < |events[1..]| ==> events[1..][i] == events[i + 1];
      HappenHolds(s, last, events[0]);
      LastWriterWins(Happen(s, events[0]).0, LastWritten(last, [events[0]]), events[1..]);
    }
  }

  /** What an older Mudlet writes is read back exactly when its copy is told to be the newer one (or says the
      same): timestamps the filesystem cannot tell apart favour the current copy. */
  lemma {:induction false} OlderWriteSeenIff(profile: string, events: seq<Event>, password: string, derivable: bool,
                                             later: nat, l: nat, l': nat)
    requires profile != "" && Alone(events, Separate) && password != ""
    ensures var s := Run(NoFiles(profile, Separate), events).0;
            Retrieve(OlderStore(s, password, derivable, later), l, l').1 == password
            <==> s.current.None? || s.clock + later > s.current.value.written || s.current.value.password == password
  {
    LastWriterWins(NoFiles(profile, Separate), "", events);
    ProfileStays(NoFiles(profile, Separate), events);
  }

  lemma {:induction false} ProfileStays(s: Files, events: seq<Event>)
    ensures Run(s, events).0.profile == s.profile && Run(s, events).0.oldPath == s.oldPath
    decreases |events|
  {
    if events != [] {
      ProfileStays(Happen(s, events[0]).0, events[1..]);
    }
  }

  /** In the same second as the store before it, an older Mudlet's password is not seen. */
  lemma {:induction false} SameSecondIsNotSeen(profile: string, a: string, b: string)
    requires profile != "" && a != "" && b != "" && a != b
    ensures Run(NoFiles(profile, Separate), [Store(a, 1, 0), Older(b, false, 0), Read(1, 1)]).1 == [a]
  {
    RunThree(NoFiles(profile, Separate), Store(a, 1, 0), Older(b, false, 0), Read(1, 1));
  }

  lemma {:induction false} RunThree(s: Files, a: Event, b: Event, c: Event)
    ensures var (s1, given1) := Happen(s, a);
            var (s2, given2) := Happen(s1, b);
            Run(s, [a, b, c]) == (Happen(s2, c).0, given1 + given2 + Happen(s2, c).1)
  {
    var (s1, given1) := Happen(s, a);
    var (s2, given2) := Happen(s1, b);
    var (s3, given3) := Happen(s2, c);
    assert [a, b, c][1..] == [b, c] && [b, c][1..] == [c] && [c][1..] == [];
    assert Run(s3, []) == (s3, []);
    assert given3 + [] == given3;
    assert Run(s2, [c]) == (s3, given3);
    assert Run(s1, [b, c]) == (s3, given2 + given3);
    assert given1 + (given2 + given3) == given1 + given2 + given3;
  }

  // ---- other profiles under the old path ----

  /** What can be told of a history: the password written last, the one that the current file holds, whether the last
      event was a write by an older Mudlet beside the current file, and whether the last password is gone. */
  datatype Track = Track(last: string, kept: string, beside: bool, lost: bool)

  function Follow(t: Track, e: Event, oldPath: OldPath): Track {
    match e
    case Store(p, _, _) => Track(p, p, false, false)
    case Read(_, _) => Track(t.last, if t.lost then t.kept else t.last, false, t.lost)
    case Remove => Track("", "", false, false)
    case Older(p, _, _) => if oldPath.SamePath? then Track(p, p, false, false) else Track(p, t.kept, true, false)
    case Other(_, _, _, _) =>
      if oldPath.SamePath? then Track(t.last, "", false, true) else Track(t.last, t.kept, false, t.lost || t.beside)
  }

  function FollowAll(t: Track, events: seq<Event>, oldPath: OldPath): Track
    decreases |events|
  {
    if events == [] then t else FollowAll(Follow(t, events[0], oldPath), events[1..], oldPath)
  }

  /** What a read gives. */
  function Left(t: Track): string {
    if t.lost then t.kept else t.last
  }

  function LeftAtReads(t: Track, events: seq<Event>, oldPath: OldPath): seq<string>
    decreases |events|
  {
    if events == [] then []
    else
      (if events[0].Read? then [Left(t)] else []) + LeftAtReads(Follow(t, events[0], oldPath), events[1..], oldPath)
  }

  /** What the files hold, other profiles' writes included. */
  ghost predicate Tells(s: Files, t: Track) {
    && s.profile != "" && !s.oldPath.Unclaimed?
    && (s.current.Some? ==> s.current.value.written <= s.clock) && (s.legacy.Some? ==> s.legacy.value.written <= s.clock)
    && Decrypt(s.current, s.profile) == t.kept
    && (OursLegacy(s) ==> Decrypt(s.legacy, s.profile) == t.last && !t.lost)
    && (t.beside ==> OursLegacy(s) && WrittenAfter(s.legacy, s.current))
    && (!t.beside && !t.lost ==> t.kept == t.last)
  }

  /** Older Mudlets as before; what they write for another profile is another profile's. */
  predicate Colliding(e: Event, profile: string, oldPath: OldPath) {
    Reasonable(e, oldPath) && (e.Other? ==> e.owner != profile)
  }

  lemma {:induction false} StoreTells(s: Files, t: Track, e: Event)
    requires Tells(s, t) && e.Store?
    ensures Tells(StoreToFile(s, e.password, e.later, e.later'), Follow(t, e, s.oldPath))
  {
  }

  lemma {:induction false} ReadTells(s: Files, t: Track, e: Event)
    requires Tells(s, t) && e.Read?
    ensures Retrieve(s, e.later, e.later').1 == Left(t)
    ensures Tells(Retrieve(s, e.later, e.later').0, Follow(t, e, s.oldPath))
  {
  }

  lemma {:induction false} OthersTell(s: Files, t: Track, e: Event)
    requires Tells(s, t) && Colliding(e, s.profile, s.oldPath)
    ensures e.Remove? ==> Tells(RemoveFromFile(s), Follow(t, e, s.oldPath))
    ensures e.Older? ==> Tells(OlderStore(s, e.password, e.derivable, e.later), Follow(t, e, s.oldPath))
    ensures e.Other? ==> Tells(OtherStore(s, e.owner, e.password, e.derivable, e.later), Follow(t, e, s.oldPath))
  {
  }

  lemma {:induction false} HappenTells(s: Files, t: Track, e: Event)
    requires Tells(s, t) && Colliding(e, s.profile, s.oldPath)
    ensures Tells(Happen(s, e).0, Follow(t, e, s.oldPath))
    ensures Happen(s, e).0.profile == s.profile && Happen(s, e).0.oldPath == s.oldPath
    ensures Happen(s, e).1 == if e.Read? then [Left(t)] else []
  {
    hide Tells, Follow, Colliding;
    OthersTell(s, t, e);
    if e.Store? {
      StoreTells(s, t, e);
    } else if e.Read? {
      ReadTells(s, t, e);
    }
  }

  /** Every read of every such history gives what is left of the last password. */
  lemma {:induction false} ReadsSeeWhatIsLeft(s: Files, t: Track, events: seq<Event>)
    requires Tells(s, t) && forall i :: 0 <= i < |events| ==> Colliding(events[i], s.profile, s.oldPath)
    ensures Run(s, events).1 == LeftAtReads(t, events, s.oldPath)
    ensures Tells(Run(s, events).0, FollowAll(t, events, s.oldPath))
    decreases |events|
  {
    hide Tells, Follow, Happen, Colliding;
    if events != [] {
      assert forall i :: 0 <= i < |events[1..]| ==> events[1..][i] == events[i + 1];
      HappenTells(s, t, events[0]);
      ReadsSeeWhatIsLeft(Happen(s, events[0]).0, Follow(t, events[0], s.oldPath), events[1..]);
    }
  }

  /** This profile's password is not written. */
  predicate NotWritten(events: seq<Event>) {
    forall i :: 0 <= i < |events| ==> events[i].Read? || events[i].Other?
  }

  /** Another profile writes over the only copy of the last password: right after an older Mudlet wrote it, or at any time
      when the old path is the current one; and it has not been written again. */
  predicate Overwrites(events: seq<Event>, j: nat, oldPath: OldPath) {
    && j < |events| && events[j].Other? && NotWritten(events[j..])
    && (oldPath.SamePath? || (j > 0 && events[j - 1].Older?))
  }

  lemma {:induction false} OverwritesLater(events: seq<Event>, j: nat, oldPath: OldPath)
    requires events != []
    ensures j > 0 || oldPath.SamePath? ==> (Overwrites(events, j + 1, oldPath) <==> Overwrites(events[1..], j, oldPath))
  {
    if j < |events[1..]| {
      assert events[j + 1..] == events[1..][j..];
    }
  }

  lemma {:induction false} LostIff(t: Track, events: seq<Event>, oldPath: OldPath)
    requires oldPath.SamePath? ==> !t.beside
    ensures FollowAll(t, events, oldPath).lost
            <==> || (NotWritten(events) && (t.lost || (t.beside && events != [] && events[0].Other?)))
                 || exists j :: Overwrites(events, j, oldPath)
    decreases |events|
  {
    if events != [] {
      var e, rest, t1 := events[0], events[1..], Follow(t, events[0], oldPath);
      LostIff(t1, rest, oldPath);
      NotWrittenNext(events);
      LostNext(events, oldPath);
    }
  }

  lemma {:induction false} NotWrittenNext(events: seq<Event>)
    requires events != []
    ensures NotWritten(events) <==> (events[0].Read? || events[0].Other?) && NotWritten(events[1..])
  {
    assert events == [events[0]] + events[1..];
  }

  /** Where the first event may be concerned. */
  predicate OverwritesFirst(events: seq<Event>, oldPath: OldPath)
    requires events != []
  {
    var rest := events[1..];
    if oldPath.SamePath? then events[0].Other? && NotWritten(rest)
    else events[0].Older? && rest != [] && rest[0].Other? && NotWritten(rest)
  }

  lemma {:induction false} LostNext(events: seq<Event>, oldPath: OldPath)
    requires events != []
    ensures (exists j :: Overwrites(events, j, oldPath))
            <==> OverwritesFirst(events, oldPath) || exists j :: Overwrites(events[1..], j, oldPath)
  {
    var rest := events[1..];
    NotWrittenNext(events);
    assert events[0..] == events && (|events| > 1 ==> events[1..][0] == events[1]);
    if j: nat :| Overwrites(events, j, oldPath) {
      if j > 1 || (j == 1 && oldPath.SamePath?) {
        OverwritesLater(events, j - 1, oldPath);
        assert Overwrites(rest, j - 1, oldPath);
      }
    }
    if j: nat :| Overwrites(rest, j, oldPath) {
      OverwritesLater(events, j, oldPath);
      assert Overwrites(events, j + 1, oldPath);
    }
    if OverwritesFirst(events, oldPath) {
      assert Overwrites(events, if oldPath.SamePath? then 0 else 1, oldPath);
    }
  }

  /** What the current file was given last: a password stored, or one carried over when it was read. */
  function GivenLast(events: seq<Event>, oldPath: OldPath): string {
    FollowAll(Track("", "", false, false), events, oldPath).kept
  }

  /** For every history, other profiles under the old path included: reading gives the password written last if and only if
      no other profile wrote over its only copy, or the current file happens to have been given the same. */
  lemma {:induction false} LastIsLostIff(profile: string, oldPath: OldPath, events: seq<Event>, l: nat, l': nat)
    requires profile != "" && !oldPath.Unclaimed?
    requires forall i :: 0 <= i < |events| ==> Colliding(events[i], profile, oldPath)
    ensures var s := Run(NoFiles(profile, oldPath), events).0;
            Retrieve(s, l, l').1 == LastWritten("", events)
            <==> (forall j :: !Overwrites(events, j, oldPath)) || GivenLast(events, oldPath) == LastWritten("", events)
  {
    var t := Track("", "", false, false);
    ReadsSeeWhatIsLeft(NoFiles(profile, oldPath), t, events);
    ProfileStays(NoFiles(profile, oldPath), events);
    var s, t1 := Run(NoFiles(profile, oldPath), events).0, FollowAll(t, events, oldPath);
    ReadTells(s, t1, Read(l, l'));
    LostIff(t, events, oldPath);
    FollowedLast(t, events, oldPath);
  }

  lemma {:induction false} FollowedLast(t: Track, events: seq<Event>, oldPath: OldPath)
    ensures FollowAll(t, events, oldPath).last == LastWritten(t.last, events)
    decreases |events|
  {
    if events != [] {
      FollowedLast(Follow(t, events[0], oldPath), events[1..], oldPath);
    }
  }

  /** An older Mudlet writes a new password, and before this one reads it, writes another profile's over it: this one is
      back at the password before. */
  lemma {:induction false} OtherProfileLoses(profile: string, other: string, a: string, b: string, c: string, l: nat, l': nat)
    requires profile != "" && other != profile && a != "" && b != "" && a != b
    ensures var events := [Store(a, 1, 1), Older(b, false, 1), Other(other, c, false, 1)];
            && Retrieve(Run(NoFiles(profile, Separate), events).0, l, l').1 == a
            && LastWritten("", events) == b && Overwrites(events, 2, Separate)
  {
    var events := [Store(a, 1, 1), Older(b, false, 1), Other(other, c, false, 1)];
    RunThree(NoFiles(profile, Separate), events[0], events[1], events[2]);
    assert events[1..] == [events[1], events[2]] && [events[1], events[2]][1..] == [events[2]] && [events[2]][1..] == [];
    assert LastWritten(b, [events[2]]) == LastWritten(b, []) == b;
  }

  // ---- which old path is safe to claim ----

  const PATH_COMPONENT_CAP := 50
  const MAX_KEY_LENGTH := 100

  /** The old scheme cut names to this many characters. */
  function Truncated(name: string): string {
    if |name| <= PATH_COMPONENT_CAP then name else name[..PATH_COMPONENT_CAP]
  }

  /** generateLegacyFilePath() claims the old path only for a key shorter than the cap. */
  predicate Claimed(key: string) {
    |key| < PATH_COMPONENT_CAP
  }

  /** An old path is claimed exactly when no other key can have been filed under it. */
  lemma {:induction false} ClaimedIffUnshared(key: string)
    requires 0 < |key| <= MAX_KEY_LENGTH
    ensures Claimed(key) <==> forall other: string :: 0 < |other| <= MAX_KEY_LENGTH && other != key ==>
                                Truncated(other) != Truncated(key)
  {
    if !Claimed(key) {
      var other := Truncated(key) + if |key| > PATH_COMPONENT_CAP then "" else "x";
      if |key| > PATH_COMPONENT_CAP {
        assert other != key && Truncated(other) == Truncated(key);
      } else {
        assert |other| == PATH_COMPONENT_CAP + 1 && other[..PATH_COMPONENT_CAP] == key;
        assert other != key && Truncated(other) == Truncated(key);
      }
    }
  }
}
