/** Looking up a saved password: a chain of keychain reads with the encrypted file among them, racing one
    deadline, and refusals by the keychain that cut the chain short and keep later lookups away from it. */
module CredentialLookups {

  /** Places a password may be, in the order they are read. */
  datatype Layout =
    | CurrentFormat
    | Pre017Naming
    | KeyIsAccount
    | Pre420Format
    | EncryptedFile
    | Colliding
    | CollidingVariant

  datatype Outcome = Found | NothingStored | Unreadable | Unavailable | TimedOut

  /** What the keychain says to a read. */
  datatype Answer = Held(text: string) | NoEntry | Failed(error: string, refused: bool)

  /** Why a file read gave no password. */
  type FileFailure = o: Outcome | o == NothingStored || o == Unreadable || o == Unavailable witness NothingStored

  /** What the encrypted file gives. */
  datatype FileRead = FileRead(password: string, failure: FileFailure)

  datatype Read = Read(stage: nat, answer: Answer)

  /** When the keychain last refused for good, by profile. */
  type Windows = map<string, nat>

  const REFUSAL_COOLDOWN_MS := 30000
  const REFUSALS_BEFORE_GIVING_UP := 2
  const WINDOW_OPEN := "the keychain refused a read moments ago"

  /** One lookup. `answers` is what its callback was given, `asked` the keychain's answers in order, `refiled`
      the older layouts whose password was filed again; `trimmed` tells that only the file is read. */
  datatype Lookup = Lookup(profile: string, stages: seq<Layout>, file: FileRead, wantsLate: bool, trimmed: bool,
                           currentStage: nat, reading: bool, keychainError: string, storeHasAnswered: bool,
                           fileOutcome: Outcome, keychainRefused: bool, storeRefused: bool, refusals: nat,
                           answers: seq<(Outcome, string)>, lateExpected: bool, lateAnswers: nat,
                           refiled: seq<Layout>, asked: seq<Read>)

  // ---- the chain ----

  function Layouts(onWindows: bool, key: string): seq<Layout> {
    var predates := key != "reconnect" && key != "reconnect-token";
    [CurrentFormat]
    + (if onWindows then [Pre017Naming] else [])
    + (if predates then [KeyIsAccount] else [])
    + (if key == "password" || key == "character" then [Pre420Format] else [])
    + [EncryptedFile]
    + (if predates then [Colliding, CollidingVariant] else [])
  }

  function FileOnly(stages: seq<Layout>): seq<Layout> {
    if stages == [] then []
    else (if stages[0].EncryptedFile? then [stages[0]] else []) + FileOnly(stages[1..])
  }

  predicate RefusedRecently(w: Windows, profile: string, now: nat) {
    profile in w && w[profile] <= now && now - w[profile] < REFUSAL_COOLDOWN_MS
  }

  predicate KeychainReadLeft(stages: seq<Layout>, index: nat) {
    exists j :: index <= j < |stages| && !stages[j].EncryptedFile?
  }

  // ---- one lookup ----

  /** finishLookup(): only the first answer counts, and the read still out is let go of. */
  function Finish(l: Lookup, outcome: Outcome, password: string): Lookup {
    if l.answers != [] then l else l.(answers := [(outcome, password)], reading := false)
  }

  function NoteFile(l: Lookup): Lookup {
    if l.fileOutcome != Unreadable && l.file.failure != NothingStored then l.(fileOutcome := l.file.failure) else l
  }

  /** What the end of the chain reports. */
  function EndOutcome(l: Lookup): Outcome {
    if l.keychainRefused || l.fileOutcome == Unreadable then Unreadable
    else if l.keychainError != "" || l.fileOutcome == Unavailable then Unavailable
    else NothingStored
  }

  function RunStage(l: Lookup, index: nat): Lookup
    decreases |l.stages| - index
  {
    if l.answers != [] then l
    else if index >= |l.stages| then Finish(l, EndOutcome(l), "")
    else
      var l1 := l.(currentStage := index);
      if l.storeRefused && !l.stages[index].EncryptedFile? then RunStage(l1, index + 1)
      else if l.stages[index].EncryptedFile? then
        var l2 := NoteFile(l1);
        if l.file.password == "" then RunStage(l2, index + 1) else Finish(l2, Found, l.file.password)
      else l1.(reading := true)
  }

  function Start(profile: string, key: string, onWindows: bool, file: FileRead, wantsLate: bool, w: Windows, now: nat): Lookup {
    var layouts := Layouts(onWindows, key);
    var closed := RefusedRecently(w, profile, now);
    RunStage(Lookup(profile, if closed then FileOnly(layouts) else layouts, file, wantsLate, closed, 0, false,
                    if closed then WINDOW_OPEN else "", false, NothingStored, closed, false, 0, [], false, 0, [], []), 0)
  }

  /** The keychain's answer to the read that is out. */
  function OnAnswer(l: Lookup, a: Answer, w: Windows, now: nat): (Lookup, Windows) {
    if !l.reading || l.answers != [] || l.currentStage >= |l.stages| then (l, w)
    else
      var i := l.currentStage;
      var l0 := l.(reading := false, asked := l.asked + [Read(i, a)]);
      match a
      case Held(text) =>
        if text != "" then
          (Finish(l0.(refiled := if l.stages[i].CurrentFormat? || l.keychainError != "" then l.refiled
                                 else l.refiled + [l.stages[i]]), Found, text),
           w - {l.profile})
        else (RunStage(l0.(storeHasAnswered := true, refusals := 0), i + 1), w - {l.profile})
      case NoEntry => (RunStage(l0.(storeHasAnswered := true, refusals := 0), i + 1), w - {l.profile})
      case Failed(error, refused) =>
        var l1 := l0.(keychainError := if l.keychainError == "" then error else l.keychainError);
        if !refused then (RunStage(l1, i + 1), w)
        else
          var l2 := l1.(keychainRefused := true, refusals := l.refusals + 1);
          if !l.storeHasAnswered && (l2.refusals >= REFUSALS_BEFORE_GIVING_UP || !KeychainReadLeft(l.stages, i + 1)) then
            (RunStage(l2.(storeRefused := true), i + 1), w[l.profile := now])
          else (RunStage(l2, i + 1), w)
  }

  /** The first file stage behind the current one. */
  function FileBehind(stages: seq<Layout>, index: nat): bool {
    exists j :: index < j < |stages| && stages[j].EncryptedFile?
  }

  /** The deadline reads the file if the chain had not come to it yet. */
  function OnDeadline(l: Lookup): Lookup {
    if l.answers != [] then l
    else
      var l0 := l.(lateExpected := l.wantsLate && l.reading);
      if FileBehind(l.stages, l.currentStage) then
        if l.file.password != "" then Finish(l0, Found, l.file.password)
        else Finish(NoteFile(l0), TimedOut, "")
      else Finish(l0, TimedOut, "")
  }

  /** The answer of the read the deadline gave up on. */
  function OnLateAnswer(l: Lookup): Lookup {
    if l.lateExpected then l.(lateExpected := false, lateAnswers := l.lateAnswers + 1) else l
  }

  // ---- many lookups at once ----

  datatype World = World(now: nat, windows: Windows, lookups: seq<Lookup>)

  datatype Event =
    | Begin(profile: string, key: string, onWindows: bool, file: FileRead, wantsLate: bool)
    | ReadAnswered(which: nat, answer: Answer)
    | Deadline(which: nat)
    | LateAnswer(which: nat)
    | Pass(ms: nat)

  function Step(s: World, e: Event): World {
    match e
    case Begin(profile, key, onWindows, file, wantsLate) =>
      s.(lookups := s.lookups + [Start(profile, key, onWindows, file, wantsLate, s.windows, s.now)])
    case ReadAnswered(i, a) =>
      if i >= |s.lookups| then s
      else
        var (l, w) := OnAnswer(s.lookups[i], a, s.windows, s.now);
        s.(lookups := s.lookups[i := l], windows := w)
    case Deadline(i) => if i >= |s.lookups| then s else s.(lookups := s.lookups[i := OnDeadline(s.lookups[i])])
    case LateAnswer(i) => if i >= |s.lookups| then s else s.(lookups := s.lookups[i := OnLateAnswer(s.lookups[i])])
    case Pass(ms) => s.(now := s.now + ms)
  }

  function Run(s: World, events: seq<Event>): World
    decreases |events|
  {
    if events == [] then s else Run(Step(s, events[0]), events[1..])
  }
}
