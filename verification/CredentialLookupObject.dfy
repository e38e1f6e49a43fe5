/** One password lookup as the object it is: its stages pushed one by one, its fields rewritten as reads answer,
    and the refusal windows all lookups share. */
module CredentialLookupObject {
  import opened CredentialLookups
  import opened CredentialAnswers

  class RefusalWindows {
    var refusedAt: Windows

    constructor ()
      ensures refusedAt == map[]
    {
      refusedAt := map[];
    }
  }

  /** The places to read for a key, in order. */
  method Chain(key: string, onWindows: bool) returns (chain: seq<Layout>)
    ensures chain == Layouts(onWindows, key)
  {
    chain := [CurrentFormat];
    var predates := key != "reconnect" && key != "reconnect-token";
    if onWindows {
      chain := chain + [Pre017Naming];
    }
    if predates {
      chain := chain + [KeyIsAccount];
    }
    if key == "password" || key == "character" {
      chain := chain + [Pre420Format];
    }
    chain := chain + [EncryptedFile];
    if predates {
      chain := chain + [Colliding, CollidingVariant];
    }
  }

  method TrimmedToFile(chain: seq<Layout>) returns (fileOnly: seq<Layout>)
    ensures fileOnly == FileOnly(chain)
  {
    fileOnly := [];
    for i := 0 to |chain|
      invariant fileOnly + FileOnly(chain[i..]) == FileOnly(chain)
    {
      assert chain[i..][1..] == chain[i + 1..];
      if chain[i].EncryptedFile? {
        fileOnly := fileOnly + [chain[i]];
      }
    }
  }

  /** One more refusal, and whether the store is given up on for it. */
  function Refused(l: Lookup): Lookup {
    l.(keychainRefused := true, refusals := l.refusals + 1,
       storeRefused := l.storeRefused || (!l.storeHasAnswered && (l.refusals + 1 >= REFUSALS_BEFORE_GIVING_UP
                                                                  || !KeychainReadLeft(l.stages, l.currentStage + 1))))
  }

  lemma {:induction false} HeardRefusal(l: Lookup, a: Answer)
    requires a.Failed?
    ensures var l1 := l.(reading := false, asked := l.asked + [Read(l.currentStage, a)],
                         keychainError := if l.keychainError == "" then a.error else l.keychainError);
            Heard(l, a) == if a.refused then Refused(l1) else l1
  {
  }

  lemma {:induction false} HeardIs(l: Lookup, a: Answer, w: Windows, now: nat)
    requires l.reading && l.answers == [] && l.currentStage < |l.stages| && !l.storeRefused && !(a.Held? && a.text != "")
    ensures OnAnswer(l, a, w, now).0 == RunStage(Heard(l, a), l.currentStage + 1)
    ensures OnAnswer(l, a, w, now).1 == if !a.Failed? then w - {l.profile}
                                        else if Heard(l, a).storeRefused then w[l.profile := now] else w
  {
  }

  class PasswordLookup {
    const profile: string
    const file: FileRead
    const wantsLate: bool
    const shared: RefusalWindows
    var stages: seq<Layout>
    var trimmed: bool
    var currentStage: nat
    var reading: bool
    var keychainError: string
    var storeHasAnswered: bool
    var fileOutcome: Outcome
    var keychainRefused: bool
    var storeRefused: bool
    var consecutiveRefusals: nat
    var answers: seq<(Outcome, string)>
    var lateExpected: bool
    var lateAnswers: nat
    var refiled: seq<Layout>
    ghost var asked: seq<Read>

    ghost function View(): Lookup
      reads this
    {
      Lookup(profile, stages, file, wantsLate, trimmed, currentStage, reading, keychainError, storeHasAnswered, fileOutcome,
             keychainRefused, storeRefused, consecutiveRefusals, answers, lateExpected, lateAnswers, refiled, asked)
    }

    /** retrievePassword(): the chain for this key, cut to the file while the profile's refusal window is open. */
    constructor (profile: string, key: string, onWindows: bool, file: FileRead, wantsLate: bool, windows: RefusalWindows,
                 now: nat)
      ensures View() == Start(profile, key, onWindows, file, wantsLate, windows.refusedAt, now) && shared == windows
      ensures this.profile == profile
    {
      this.profile, this.file, this.wantsLate, shared := profile, file, wantsLate, windows;
      currentStage, reading, storeHasAnswered, fileOutcome := 0, false, false, NothingStored;
      storeRefused, consecutiveRefusals, answers := false, 0, [];
      lateExpected, lateAnswers, refiled, asked := false, 0, [], [];
      var chain := Chain(key, onWindows);
      var closed := profile in windows.refusedAt && windows.refusedAt[profile] <= now
                    && now - windows.refusedAt[profile] < REFUSAL_COOLDOWN_MS;
      trimmed, keychainRefused := closed, closed;
      keychainError := if closed then WINDOW_OPEN else "";
      if closed {
        chain := TrimmedToFile(chain);
      }
      stages := chain;
      new;
      RunLookupStage(0);
    }

    method FinishLookup(outcome: Outcome, password: string)
      modifies this`answers, this`reading
      ensures View() == Finish(old(View()), outcome, password)
    {
      if answers != [] {
        return;
      }
      answers := [(outcome, password)];
      reading := false;
    }

    /** Runs on until a keychain read is out or the chain has ended. */
    method RunLookupStage(index: nat)
      modifies this`currentStage, this`reading, this`fileOutcome, this`answers
      ensures View() == RunStage(old(View()), index)
      decreases |stages| - index
    {
      if answers != [] {
        return;
      }
      if index >= |stages| {
        var outcome := NothingStored;
        if keychainRefused || fileOutcome == Unreadable {
          outcome := Unreadable;
        } else if keychainError != "" || fileOutcome == Unavailable {
          outcome := Unavailable;
        }
        FinishLookup(outcome, "");
        return;
      }
      currentStage := index;
      if storeRefused && !stages[index].EncryptedFile? {
        RunLookupStage(index + 1);
      } else if stages[index].EncryptedFile? {
        ReadFile();
        if file.password == "" {
          RunLookupStage(index + 1);
        } else {
          FinishLookup(Found, file.password);
        }
      } else {
        reading := true;
      }
    }

    method ReadFile()
      modifies this`fileOutcome
      ensures View() == NoteFile(old(View()))
    {
      if fileOutcome != Unreadable && file.failure != NothingStored {
        fileOutcome := file.failure;
      }
    }

    method AnyKeychainReadLeft(from: nat) returns (left: bool)
      ensures left == KeychainReadLeft(stages, from)
    {
      left := false;
      var i := from;
      while i < |stages|
        invariant from <= i && left == exists j :: from <= j < i && j < |stages| && !stages[j].EncryptedFile?
      {
        left := left || !stages[i].EncryptedFile?;
        i := i + 1;
      }
    }

    /** The read that is out has answered. */
    method ReadFinished(a: Answer, now: nat)
      requires reading ==> !storeRefused
      modifies this, shared
      ensures (View(), shared.refusedAt) == OnAnswer(old(View()), a, old(shared.refusedAt), now)
    {
      if !reading || answers != [] || currentStage >= |stages| {
        return;
      }
      var index := currentStage;
      if a.Held? && a.text != "" {
        HearPassword(a, now);
      } else {
        HeardIs(View(), a, shared.refusedAt, now);
        Hear(a, now);
        RunLookupStage(index + 1);
      }
    }

    /** A password read from an old layout is filed under the current one as well. */
    method HearPassword(a: Answer, now: nat)
      requires reading && answers == [] && currentStage < |stages| && a.Held? && a.text != ""
      modifies this`reading, this`asked, this`refiled, this`answers, shared
      ensures (View(), shared.refusedAt) == OnAnswer(old(View()), a, old(shared.refusedAt), now)
    {
      reading := false;
      asked := asked + [Read(currentStage, a)];
      shared.refusedAt := shared.refusedAt - {profile};
      if !stages[currentStage].CurrentFormat? && keychainError == "" {
        refiled := refiled + [stages[currentStage]];
      }
      FinishLookup(Found, a.text);
    }

    /** The book-keeping for an answer without a password. */
    method Hear(a: Answer, now: nat)
      requires currentStage < |stages| && !storeRefused
      modifies this`reading, this`asked, this`storeHasAnswered, this`consecutiveRefusals, this`keychainError,
               this`keychainRefused, this`storeRefused, shared
      ensures View() == Heard(old(View()), a)
      ensures shared.refusedAt == if !a.Failed? then old(shared.refusedAt) - {profile}
                                  else if storeRefused then old(shared.refusedAt)[profile := now]
                                  else old(shared.refusedAt)
    {
      if a.Failed? {
        HearFailure(a, now);
        return;
      }
      reading := false;
      asked := asked + [Read(currentStage, a)];
      storeHasAnswered := true;
      consecutiveRefusals := 0;
      shared.refusedAt := shared.refusedAt - {profile};
    }

    method HearFailure(a: Answer, now: nat)
      requires currentStage < |stages| && !storeRefused && a.Failed?
      modifies this`reading, this`asked, this`consecutiveRefusals, this`keychainError,
               this`keychainRefused, this`storeRefused, shared
      ensures View() == Heard(old(View()), a)
      ensures shared.refusedAt == if storeRefused then old(shared.refusedAt)[profile := now] else old(shared.refusedAt)
    {
      hide Heard, Refused;
      HeardRefusal(View(), a);
      NoteFailure(a);
      if a.refused {
        NoteRefusal(now);
      }
    }

    /** The first error told is the one kept. */
    method NoteFailure(a: Answer)
      requires a.Failed?
      modifies this`reading, this`asked, this`keychainError
      ensures View() == old(View()).(reading := false, asked := old(asked) + [Read(currentStage, a)],
                                     keychainError := if old(keychainError) == "" then a.error else old(keychainError))
    {
      reading := false;
      asked := asked + [Read(currentStage, a)];
      if keychainError == "" {
        keychainError := a.error;
      }
    }

    method NoteRefusal(now: nat)
      requires !storeRefused
      modifies this`consecutiveRefusals, this`keychainRefused, this`storeRefused, shared
      ensures View() == Refused(old(View()))
      ensures shared.refusedAt == if storeRefused then old(shared.refusedAt)[profile := now] else old(shared.refusedAt)
    {
      keychainRefused := true;
      consecutiveRefusals := consecutiveRefusals + 1;
      var left := AnyKeychainReadLeft(currentStage + 1);
      if !storeHasAnswered && (consecutiveRefusals >= REFUSALS_BEFORE_GIVING_UP || !left) {
        storeRefused := true;
        shared.refusedAt := shared.refusedAt[profile := now];
      }
    }

    /** The one deadline for the whole chain. */
    method DeadlineFired()
      modifies this
      ensures View() == OnDeadline(old(View()))
    {
      if answers != [] {
        return;
      }
      lateExpected := wantsLate && reading;
      var index := currentStage + 1;
      while index < |stages|
        invariant currentStage < index && forall j :: currentStage < j < index && j < |stages| ==> !stages[j].EncryptedFile?
      {
        if stages[index].EncryptedFile? {
          if file.password != "" {
            FinishLookup(Found, file.password);
            return;
          }
          ReadFile();
          FinishLookup(TimedOut, "");
          return;
        }
        index := index + 1;
      }
      FinishLookup(TimedOut, "");
    }
  }
}
