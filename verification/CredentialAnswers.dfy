/** What a password lookup promises, whatever the keychain answers and whenever the deadline fires. */
module CredentialAnswers {
  import opened CredentialLookups

  // ---- what the answers so far come to ----

  /** The store answered, if only that this entry holds nothing. */
  predicate Nothing(a: Answer) {
    a.NoEntry? || a == Held("")
  }

  predicate Refusal(a: Answer) {
    a.Failed? && a.refused
  }

  function RefusedCount(asked: seq<Read>): nat {
    if asked == [] then 0
    else RefusedCount(asked[..|asked| - 1]) + if Refusal(asked[|asked| - 1].answer) then 1 else 0
  }

  ghost predicate AnyNothing(asked: seq<Read>) {
    exists i :: 0 <= i < |asked| && Nothing(asked[i].answer)
  }

  ghost predicate AnyRefusal(asked: seq<Read>) {
    exists i :: 0 <= i < |asked| && Refusal(asked[i].answer)
  }

  /** No failing read came with an error text. */
  ghost predicate NoErrorText(asked: seq<Read>) {
    forall i :: 0 <= i < |asked| && asked[i].answer.Failed? ==> asked[i].answer.error == ""
  }

  /** The keychain stages before `index`, each read once and in order. */
  ghost predicate InOrder(asked: seq<Read>, stages: seq<Layout>, index: nat) {
    && (forall i, j :: 0 <= i < j < |asked| ==> asked[i].stage < asked[j].stage)
    && (forall i :: 0 <= i < |asked| ==> asked[i].stage < index && asked[i].stage < |stages|
                                         && !stages[asked[i].stage].EncryptedFile?)
  }

  ghost predicate WasAsked(asked: seq<Read>, stage: nat) {
    exists i :: 0 <= i < |asked| && asked[i].stage == stage
  }

  ghost predicate AllAsked(asked: seq<Read>, stages: seq<Layout>, index: nat) {
    forall j: nat :: j < index && j < |stages| && !stages[j].EncryptedFile? ==> WasAsked(asked, j)
  }

  // ---- the file among the stages ----

  ghost predicate FileAt(stages: seq<Layout>, f: nat) {
    f < |stages| && stages[f].EncryptedFile? && forall j :: 0 <= j < |stages| && j != f ==> !stages[j].EncryptedFile?
  }

  /** Where the lookup is once the stages before `index` are behind it. */
  ghost predicate Passed(l: Lookup, index: nat, f: nat) {
    && l.answers == [] && !l.reading && index <= |l.stages| && FileAt(l.stages, f)
    && (f < index ==> l.file.password == "") && l.fileOutcome == (if f < index then l.file.failure else NothingStored)
    && (l.keychainRefused <==> l.trimmed || AnyRefusal(l.asked))
    && (l.keychainError == "" <==> !l.trimmed && NoErrorText(l.asked))
    && (l.storeHasAnswered <==> AnyNothing(l.asked))
    && (forall i :: 0 <= i < |l.asked| ==> !l.asked[i].answer.Held? || l.asked[i].answer.text == "")
    && (!l.storeHasAnswered ==> l.refusals == RefusedCount(l.asked))
    && (l.storeRefused ==> !l.storeHasAnswered && l.keychainRefused && RefusedCount(l.asked) <= 2)
    && (!l.storeRefused && !l.storeHasAnswered ==> RefusedCount(l.asked) <= 1)
    && InOrder(l.asked, l.stages, index) && (!l.storeRefused ==> AllAsked(l.asked, l.stages, index))
    && (l.trimmed ==> |l.stages| == 1 && l.asked == [])
    && l.lateAnswers == 0 && !l.lateExpected
  }

  /** A keychain read is out. */
  ghost predicate Waiting(l: Lookup, f: nat) {
    && l.reading && Passed(l.(reading := false), l.currentStage, f) && l.currentStage < |l.stages|
    && !l.stages[l.currentStage].EncryptedFile? && !l.storeRefused
  }

  /** The lookup has answered, once, and the answer is justified. */
  ghost predicate Settled(l: Lookup, f: nat) {
    && |l.answers| == 1 && !l.reading && FileAt(l.stages, f)
    && var (outcome, password) := l.answers[0];
       && (outcome == Found ==> password != "" && (password == l.file.password || HeldBy(l.asked, password)))
       && (l.file.password != "" ==> outcome == Found)
       && (!AnyNothing(l.asked) ==> RefusedCount(l.asked) <= 2)
       && InOrder(l.asked, l.stages, |l.stages|)
       && (outcome != Found && outcome != TimedOut ==>
             && (outcome == NothingStored <==> NothingAnywhere(l))
             && (outcome == Unreadable <==> l.trimmed || AnyRefusal(l.asked) || l.file.failure == Unreadable))
       && (AnyNothing(l.asked) && outcome != Found && outcome != TimedOut ==> AllAsked(l.asked, l.stages, |l.stages|))
       && (l.trimmed ==> l.asked == [] && |l.stages| == 1 && outcome != NothingStored)
       && l.lateAnswers <= 1 && (l.lateExpected ==> l.lateAnswers == 0)
  }

  ghost predicate HeldBy(asked: seq<Read>, password: string) {
    exists i :: 0 <= i < |asked| && asked[i].answer == Held(password)
  }

  /** Every place was read, and each said it holds nothing (or failed without saying why). */
  ghost predicate NothingAnywhere(l: Lookup) {
    && !l.trimmed && l.file.password == "" && l.file.failure == NothingStored
    && AllAsked(l.asked, l.stages, |l.stages|)
    && forall i :: 0 <= i < |l.asked| ==>
         Nothing(l.asked[i].answer) || (l.asked[i].answer.Failed? && !l.asked[i].answer.refused && l.asked[i].answer.error == "")
  }

  ghost predicate Good(l: Lookup, f: nat) {
    Waiting(l, f) || Settled(l, f)
  }

  // ---- running on ----

  lemma {:induction false} StageRun(l: Lookup, index: nat, f: nat)
    requires Passed(l, index, f)
    ensures Good(RunStage(l, index), f)
    ensures RunStage(l, index).answers == [] ==> RunStage(l, index).currentStage >= index
    ensures RunStage(l, index).asked == l.asked && RunStage(l, index).stages == l.stages && RunStage(l, index).file == l.file
    decreases |l.stages| - index
  {
    hide *;
    PassedBound(l, index, f);
    StageUnfolds(l, index);
    if index >= |l.stages| {
      ChainEnds(l, index, f);
      EndsGood(l, f);
    } else if l.stages[index].EncryptedFile? {
      AtFile(l, index, f);
      if l.file.password == "" {
        StageRun(NoteFile(l.(currentStage := index)), index + 1, f);
      } else {
        FileGood(l, index, f);
      }
    } else {
      AtKeychain(l, index, f);
      if l.storeRefused {
        StageRun(l.(currentStage := index), index + 1, f);
      } else {
        WaitingGood(l.(currentStage := index, reading := true), f);
      }
    }
  }

  lemma {:induction false} StageUnfolds(l: Lookup, index: nat)
    requires l.answers == []
    ensures index >= |l.stages| ==> RunStage(l, index) == Finish(l, EndOutcome(l), "")
    ensures index < |l.stages| && l.stages[index].EncryptedFile? ==>
              RunStage(l, index) == var l2 := NoteFile(l.(currentStage := index));
                                    if l.file.password == "" then RunStage(l2, index + 1)
                                    else Finish(l2, Found, l.file.password)
    ensures index < |l.stages| && !l.stages[index].EncryptedFile? ==>
              RunStage(l, index) == if l.storeRefused then RunStage(l.(currentStage := index), index + 1)
                                    else l.(currentStage := index, reading := true)
  {
  }

  lemma {:induction false} EndsGood(l: Lookup, f: nat)
    requires Settled(Finish(l, EndOutcome(l), ""), f)
    ensures var r := Finish(l, EndOutcome(l), "");
            Good(r, f) && r.asked == l.asked && r.stages == l.stages && r.file == l.file && r.answers != []
  {
  }

  lemma {:induction false} FileGood(l: Lookup, index: nat, f: nat)
    requires Settled(Finish(NoteFile(l.(currentStage := index)), Found, l.file.password), f)
    ensures var r := Finish(NoteFile(l.(currentStage := index)), Found, l.file.password);
            Good(r, f) && r.asked == l.asked && r.stages == l.stages && r.file == l.file && r.answers != []
  {
  }

  lemma {:induction false} WaitingGood(l: Lookup, f: nat)
    requires Waiting(l, f)
    ensures Good(l, f)
  {
  }

  lemma {:induction false} PassedBound(l: Lookup, index: nat, f: nat)
    requires Passed(l, index, f)
    ensures index <= |l.stages| && l.answers == []
  {
  }

  lemma {:induction false} AtFile(l: Lookup, index: nat, f: nat)
    requires Passed(l, index, f) && index < |l.stages| && l.stages[index].EncryptedFile?
    ensures l.answers == []
    ensures var l2 := NoteFile(l.(currentStage := index));
            && l2.asked == l.asked && l2.stages == l.stages && l2.file == l.file && l2.currentStage == index
            && (l.file.password == "" ==> Passed(l2, index + 1, f))
            && (l.file.password != "" ==> Settled(Finish(l2, Found, l.file.password), f))
  {
    if l.file.password == "" {
      FileEmpty(l, index, f);
    } else {
      Behind(l, index, f);
      FoundSettles(Finish(NoteFile(l.(currentStage := index)), Found, l.file.password), l.file.password, f);
    }
  }

  lemma {:induction false} FileEmpty(l: Lookup, index: nat, f: nat)
    requires Passed(l, index, f) && index < |l.stages| && l.stages[index].EncryptedFile? && l.file.password == ""
    ensures Passed(NoteFile(l.(currentStage := index)), index + 1, f)
  {
    assert f == index;
    assert AllAsked(l.asked, l.stages, index) ==> AllAsked(l.asked, l.stages, index + 1);
    assert InOrder(l.asked, l.stages, index + 1);
  }

  /** A password answers the lookup, whatever the keychain said before. */
  lemma {:induction false} FoundSettles(l: Lookup, password: string, f: nat)
    requires l.answers == [(Found, password)] && !l.reading && FileAt(l.stages, f) && password != ""
    requires password == l.file.password || HeldBy(l.asked, password)
    requires (AnyNothing(l.asked) || RefusedCount(l.asked) <= 2) && InOrder(l.asked, l.stages, |l.stages|)
    requires l.trimmed ==> l.asked == [] && |l.stages| == 1
    requires l.lateAnswers == 0
    ensures Settled(l, f)
  {
  }

  /** What a lookup under way has behind it. */
  lemma {:induction false} Behind(l: Lookup, index: nat, f: nat)
    requires Passed(l, index, f)
    ensures l.answers == [] && !l.reading && FileAt(l.stages, f) && l.lateAnswers == 0 && !l.lateExpected
    ensures (AnyNothing(l.asked) || RefusedCount(l.asked) <= 2) && InOrder(l.asked, l.stages, |l.stages|)
    ensures l.trimmed ==> l.asked == [] && |l.stages| == 1
  {
    OrderGrows(l.asked, l.stages, index, |l.stages|);
  }

  lemma {:induction false} OrderGrows(asked: seq<Read>, stages: seq<Layout>, index: nat, index': nat)
    requires InOrder(asked, stages, index) && index <= index'
    ensures InOrder(asked, stages, index')
  {
  }

  lemma {:induction false} AtKeychain(l: Lookup, index: nat, f: nat)
    requires Passed(l, index, f) && index < |l.stages| && !l.stages[index].EncryptedFile?
    ensures l.answers == []
    ensures var l1 := l.(currentStage := index);
            if l.storeRefused then Passed(l1, index + 1, f) else Waiting(l1.(reading := true), f)
  {
    var l1 := l.(currentStage := index);
    assert l1.(reading := true).(reading := false) == l1;
  }

  lemma {:induction false} ChainEnds(l: Lookup, index: nat, f: nat)
    requires Passed(l, index, f) && index == |l.stages|
    ensures Settled(Finish(l, EndOutcome(l), ""), f)
  {
    assert f < index;
    if EndOutcome(l) == NothingStored {
      forall i | 0 <= i < |l.asked|
        ensures Nothing(l.asked[i].answer)
                || (l.asked[i].answer.Failed? && !l.asked[i].answer.refused && l.asked[i].answer.error == "")
      {
        assert !Refusal(l.asked[i].answer);
      }
    }
  }

  // ---- the keychain's answers ----

  /** The reads with one more. */
  lemma {:induction false} OneMoreRead(asked: seq<Read>, stages: seq<Layout>, i: nat, a: Answer)
    requires InOrder(asked, stages, i) && i < |stages| && !stages[i].EncryptedFile?
    ensures var asked' := asked + [Read(i, a)];
            && InOrder(asked', stages, i + 1)
            && RefusedCount(asked') == RefusedCount(asked) + (if Refusal(a) then 1 else 0)
            && (AnyNothing(asked') <==> AnyNothing(asked) || Nothing(a))
            && (AnyRefusal(asked') <==> AnyRefusal(asked) || Refusal(a))
            && (NoErrorText(asked') <==> NoErrorText(asked) && (a.Failed? ==> a.error == ""))
            && (AllAsked(asked, stages, i) ==> AllAsked(asked', stages, i + 1))
            && (forall p :: HeldBy(asked', p) <==> HeldBy(asked, p) || a == Held(p))
  {
    var asked' := asked + [Read(i, a)];
    assert asked'[|asked|] == Read(i, a) && asked'[..|asked'| - 1] == asked;
    assert forall k :: 0 <= k < |asked| ==> asked'[k] == asked[k];
    LastOne(asked, i, a);
    if AllAsked(asked, stages, i) {
      forall j: nat | j < i + 1 && j < |stages| && !stages[j].EncryptedFile? ensures WasAsked(asked', j) {
        if j < i {
          assert WasAsked(asked, j);
          var k :| 0 <= k < |asked| && asked[k].stage == j;
          assert asked'[k].stage == j;
        } else {
          assert asked'[|asked|].stage == j;
        }
      }
    }
  }

  lemma {:induction false} LastOne(asked: seq<Read>, i: nat, a: Answer)
    ensures var asked' := asked + [Read(i, a)];
            && (AnyNothing(asked') <==> AnyNothing(asked) || Nothing(a))
            && (AnyRefusal(asked') <==> AnyRefusal(asked) || Refusal(a))
            && (NoErrorText(asked') <==> NoErrorText(asked) && (a.Failed? ==> a.error == ""))
            && (forall p :: HeldBy(asked', p) <==> HeldBy(asked, p) || a == Held(p))
  {
    var asked' := asked + [Read(i, a)];
    assert asked'[|asked|] == Read(i, a);
    assert forall k :: 0 <= k < |asked| ==> asked'[k] == asked[k];
  }

  // ---- one answer ----

  lemma {:induction false} WaitingParts(l: Lookup, f: nat)
    requires Waiting(l, f)
    ensures l.reading && l.answers == [] && l.currentStage < |l.stages| && !l.stages[l.currentStage].EncryptedFile?
    ensures Passed(l.(reading := false), l.currentStage, f) && !l.storeRefused && !l.trimmed
  {
  }

  lemma {:induction false} AnswerFinds(l: Lookup, f: nat, text: string, refiled: seq<Layout>)
    requires Waiting(l, f) && text != ""
    ensures Settled(Finish(l.(reading := false, asked := l.asked + [Read(l.currentStage, Held(text))], refiled := refiled),
                           Found, text), f)
  {
    hide *;
    WaitingParts(l, f);
    Behind(l.(reading := false), l.currentStage, f);
    PassedOrder(l.(reading := false), l.currentStage, f);
    OneMoreRead(l.asked, l.stages, l.currentStage, Held(text));
    HeldIsNeither(text);
    OrderGrows(l.asked + [Read(l.currentStage, Held(text))], l.stages, l.currentStage + 1, |l.stages|);
    FinishFound(l.(reading := false, asked := l.asked + [Read(l.currentStage, Held(text))], refiled := refiled), text);
    FoundSettles(Finish(l.(reading := false, asked := l.asked + [Read(l.currentStage, Held(text))], refiled := refiled),
                        Found, text), text, f);
  }

  lemma {:induction false} PassedOrder(l: Lookup, index: nat, f: nat)
    requires Passed(l, index, f)
    ensures InOrder(l.asked, l.stages, index) && (!l.storeRefused ==> AllAsked(l.asked, l.stages, index))
  {
  }

  lemma {:induction false} HeldIsNeither(text: string)
    requires text != ""
    ensures !Refusal(Held(text)) && !Nothing(Held(text))
  {
  }

  lemma {:induction false} FinishFound(l: Lookup, text: string)
    requires l.answers == []
    ensures var r := Finish(l, Found, text);
            r == l.(answers := [(Found, text)], reading := false)
  {
  }

  /** The lookup right after its read was answered without a password, before it moves on. */
  function Heard(l: Lookup, a: Answer): Lookup {
    var l0 := l.(reading := false, asked := l.asked + [Read(l.currentStage, a)]);
    if !a.Failed? then l0.(storeHasAnswered := true, refusals := 0)
    else
      var l1 := l0.(keychainError := if l.keychainError == "" then a.error else l.keychainError);
      if !a.refused then l1
      else
        l1.(keychainRefused := true, refusals := l.refusals + 1,
            storeRefused := l.storeRefused
                            || (!l.storeHasAnswered && (l.refusals + 1 >= REFUSALS_BEFORE_GIVING_UP
                                                        || !KeychainReadLeft(l.stages, l.currentStage + 1))))
  }

  lemma {:induction false} PassedParts(l: Lookup, index: nat, f: nat)
    requires Passed(l, index, f)
    ensures l.answers == [] && !l.reading && index <= |l.stages| && FileAt(l.stages, f)
    ensures f < index ==> l.file.password == ""
    ensures l.fileOutcome == if f < index then l.file.failure else NothingStored
    ensures l.keychainRefused <==> l.trimmed || AnyRefusal(l.asked)
    ensures l.keychainError == "" <==> !l.trimmed && NoErrorText(l.asked)
    ensures l.storeHasAnswered <==> AnyNothing(l.asked)
    ensures forall i :: 0 <= i < |l.asked| ==> !l.asked[i].answer.Held? || l.asked[i].answer.text == ""
    ensures !l.storeHasAnswered ==> l.refusals == RefusedCount(l.asked)
    ensures !l.storeRefused && !l.storeHasAnswered ==> RefusedCount(l.asked) <= 1
    ensures InOrder(l.asked, l.stages, index) && (!l.storeRefused ==> AllAsked(l.asked, l.stages, index))
    ensures l.lateAnswers == 0 && !l.lateExpected
  {
  }

  lemma {:induction false} PassedOf(l: Lookup, index: nat, f: nat)
    requires l.answers == [] && !l.reading && index <= |l.stages| && FileAt(l.stages, f) && !l.trimmed
    requires f < index ==> l.file.password == ""
    requires l.fileOutcome == if f < index then l.file.failure else NothingStored
    requires l.keychainRefused <==> AnyRefusal(l.asked)
    requires l.keychainError == "" <==> NoErrorText(l.asked)
    requires l.storeHasAnswered <==> AnyNothing(l.asked)
    requires forall i :: 0 <= i < |l.asked| ==> !l.asked[i].answer.Held? || l.asked[i].answer.text == ""
    requires !l.storeHasAnswered ==> l.refusals == RefusedCount(l.asked)
    requires l.storeRefused ==> !l.storeHasAnswered && l.keychainRefused && RefusedCount(l.asked) <= 2
    requires !l.storeRefused && !l.storeHasAnswered ==> RefusedCount(l.asked) <= 1
    requires InOrder(l.asked, l.stages, index) && (!l.storeRefused ==> AllAsked(l.asked, l.stages, index))
    requires l.lateAnswers == 0 && !l.lateExpected
    ensures Passed(l, index, f)
  {
  }

  lemma {:induction false} HeardFields(l: Lookup, a: Answer, f: nat)
    requires Waiting(l, f) && (Nothing(a) || a.Failed?)
    ensures var r := Heard(l, a);
            && r.answers == l.answers && !r.reading && r.stages == l.stages && r.trimmed == l.trimmed && r.file == l.file
            && r.fileOutcome == l.fileOutcome && r.lateAnswers == l.lateAnswers && r.lateExpected == l.lateExpected
            && r.asked == l.asked + [Read(l.currentStage, a)]
            && (r.keychainRefused <==> l.keychainRefused || Refusal(a))
            && (r.keychainError == "" <==> l.keychainError == "" && (a.Failed? ==> a.error == ""))
            && (r.storeHasAnswered <==> l.storeHasAnswered || Nothing(a))
            && (!r.storeHasAnswered ==> r.refusals == l.refusals + if Refusal(a) then 1 else 0)
            && (r.storeRefused ==> !r.storeHasAnswered && Refusal(a))
            && (!r.storeRefused && !l.storeHasAnswered && Refusal(a) ==> l.refusals + 1 < 2)
            && (!a.Held? || a.text == "") && l.currentStage != f
  {
  }

  /** An answer without a password: the lookup's book-keeping fits the reads so far. */
  lemma {:induction false} HeardOn(l: Lookup, f: nat, a: Answer)
    requires Waiting(l, f) && (Nothing(a) || a.Failed?)
    ensures Passed(Heard(l, a), l.currentStage + 1, f)
  {
    hide *;
    WaitingParts(l, f);
    PassedParts(l.(reading := false), l.currentStage, f);
    HeardFields(l, a, f);
    OneMoreRead(l.asked, l.stages, l.currentStage, a);
    KindsApart(a);
    PassedOf(Heard(l, a), l.currentStage + 1, f);
  }

  lemma {:induction false} KindsApart(a: Answer)
    ensures !(Nothing(a) && Refusal(a))
  {
  }

  lemma {:induction false} AnswerUnfolds(l: Lookup, f: nat, a: Answer, w: Windows, now: nat)
    requires Waiting(l, f)
    ensures a.Held? && a.text != "" ==>
              OnAnswer(l, a, w, now).0
              == Finish(l.(reading := false, asked := l.asked + [Read(l.currentStage, a)],
                           refiled := OnAnswer(l, a, w, now).0.refiled), Found, a.text)
    ensures !(a.Held? && a.text != "") ==> OnAnswer(l, a, w, now).0 == RunStage(Heard(l, a), l.currentStage + 1)
  {
  }

  /** Any answer leaves the lookup waiting for the next one, further along, or settled. */
  lemma {:induction false} AnswerGood(l: Lookup, f: nat, a: Answer, w: Windows, now: nat)
    requires Waiting(l, f)
    ensures var r := OnAnswer(l, a, w, now).0;
            && Good(r, f) && r.stages == l.stages && r.file == l.file
            && (r.answers == [] ==> r.currentStage > l.currentStage)
  {
    hide *;
    AnswerUnfolds(l, f, a, w, now);
    if a.Held? && a.text != "" {
      WaitingParts(l, f);
      AnswerFinds(l, f, a.text, OnAnswer(l, a, w, now).0.refiled);
      FoundGood(l.(reading := false, asked := l.asked + [Read(l.currentStage, a)],
                   refiled := OnAnswer(l, a, w, now).0.refiled), a.text, f);
    } else {
      AnswerKinds(a);
      HeardOn(l, f, a);
      HeardSame(l, a);
      StageRun(Heard(l, a), l.currentStage + 1, f);
    }
  }

  lemma {:induction false} AnswerKinds(a: Answer)
    requires !(a.Held? && a.text != "")
    ensures Nothing(a) || a.Failed?
  {
  }

  lemma {:induction false} HeardSame(l: Lookup, a: Answer)
    ensures Heard(l, a).stages == l.stages && Heard(l, a).file == l.file
  {
  }

  lemma {:induction false} FoundGood(l: Lookup, text: string, f: nat)
    requires Settled(Finish(l, Found, text), f) && l.answers == []
    ensures var r := Finish(l, Found, text);
            Good(r, f) && r.stages == l.stages && r.file == l.file && r.answers != []
  {
  }

  // ---- the deadline ----

  /** Whenever the deadline fires, the lookup has answered afterwards: with the password if the file has it. */
  lemma {:induction false} DeadlineSettles(l: Lookup, f: nat)
    requires Waiting(l, f)
    ensures Settled(OnDeadline(l), f)
    ensures OnDeadline(l).answers[0] == if l.file.password != "" then (Found, l.file.password) else (TimedOut, "")
  {
    Behind(l.(reading := false), l.currentStage, f);
    if l.file.password != "" {
      assert f > l.currentStage;
      assert FileBehind(l.stages, l.currentStage);
      assert OnDeadline(l).answers == [(Found, l.file.password)];
    } else {
      assert OnDeadline(l).answers == [(TimedOut, "")];
    }
  }

  lemma {:induction false} SettledStays(l: Lookup, f: nat, a: Answer, w: Windows, now: nat)
    requires Settled(l, f)
    ensures OnAnswer(l, a, w, now) == (l, w) && OnDeadline(l) == l
    ensures Settled(OnLateAnswer(l), f) && OnLateAnswer(l).answers == l.answers
  {
  }

  // ---- starting ----

  lemma {:induction false} ChainHasOneFile(onWindows: bool, key: string) returns (f: nat)
    ensures FileAt(Layouts(onWindows, key), f)
    ensures FileOnly(Layouts(onWindows, key)) == [EncryptedFile]
  {
    var s := Layouts(onWindows, key);
    f := 1 + (if onWindows then 1 else 0) + (if key != "reconnect" && key != "reconnect-token" then 1 else 0)
         + (if key == "password" || key == "character" then 1 else 0);
    OnlyTheFile(s, f);
  }

  lemma {:induction false} OnlyTheFile(s: seq<Layout>, f: nat)
    requires FileAt(s, f)
    ensures FileOnly(s) == [EncryptedFile]
    decreases f
  {
    if f > 0 {
      OnlyTheFile(s[1..], f - 1);
    } else {
      NoFile(s[1..]);
    }
  }

  lemma {:induction false} NoFile(s: seq<Layout>)
    requires forall j :: 0 <= j < |s| ==> !s[j].EncryptedFile?
    ensures FileOnly(s) == []
  {
    if s != [] {
      NoFile(s[1..]);
    }
  }

  lemma {:induction false} StartGood(profile: string, key: string, onWindows: bool, file: FileRead, wantsLate: bool,
                                     w: Windows, now: nat) returns (f: nat)
    ensures Good(Start(profile, key, onWindows, file, wantsLate, w, now), f)
  {
    f := ChainHasOneFile(onWindows, key);
    var closed := RefusedRecently(w, profile, now);
    var layouts := Layouts(onWindows, key);
    if closed {
      f := 0;
    }
    var l := Lookup(profile, if closed then FileOnly(layouts) else layouts, file, wantsLate, closed, 0, false,
                    if closed then WINDOW_OPEN else "", false, NothingStored, closed, false, 0, [], false, 0, [], []);
    assert FileAt(l.stages, f);
    StageRun(l, 0, f);
  }

  /** While a profile's refusal window is open its new lookups ask the keychain nothing and answer at once. */
  lemma {:induction false} WindowReadsOnlyTheFile(profile: string, key: string, onWindows: bool, file: FileRead,
                                                  wantsLate: bool, w: Windows, now: nat)
    requires RefusedRecently(w, profile, now)
    ensures var l := Start(profile, key, onWindows, file, wantsLate, w, now);
            && l.stages == [EncryptedFile] && l.asked == [] && !l.reading
            && l.answers == [if file.password != "" then (Found, file.password) else (Unreadable, "")]
  {
    var f := ChainHasOneFile(onWindows, key);
    var l := Lookup(profile, [EncryptedFile], file, wantsLate, true, 0, false, WINDOW_OPEN, false, NothingStored, true,
                    false, 0, [], false, 0, [], []);
    assert Start(profile, key, onWindows, file, wantsLate, w, now) == RunStage(l, 0);
    StageUnfolds(l, 0);
    StageUnfolds(NoteFile(l.(currentStage := 0)), 1);
  }

  // ---- every interleaving ----

  ghost predicate Fine(l: Lookup) {
    exists f :: Good(l, f)
  }

  ghost predicate AllFine(s: World) {
    forall i :: 0 <= i < |s.lookups| ==> Fine(s.lookups[i])
  }

  lemma {:induction false} EventFine(l: Lookup, a: Answer, w: Windows, now: nat)
    requires Fine(l)
    ensures Fine(OnAnswer(l, a, w, now).0) && Fine(OnDeadline(l)) && Fine(OnLateAnswer(l))
  {
    var f :| Good(l, f);
    if Waiting(l, f) {
      AnswerGood(l, f, a, w, now);
      DeadlineSettles(l, f);
      assert Good(OnDeadline(l), f);
      assert OnLateAnswer(l) == l;
    } else {
      SettledStays(l, f, a, w, now);
      assert Good(OnLateAnswer(l), f);
    }
  }

  lemma {:induction false} StepFine(s: World, e: Event)
    requires AllFine(s)
    ensures AllFine(Step(s, e))
  {
    match e
    case Begin(profile, key, onWindows, file, wantsLate) =>
      var f := StartGood(profile, key, onWindows, file, wantsLate, s.windows, s.now);
    case ReadAnswered(i, a) => if i < |s.lookups| { EventFine(s.lookups[i], a, s.windows, s.now); }
    case Deadline(i) => if i < |s.lookups| { EventFine(s.lookups[i], NoEntry, s.windows, s.now); }
    case LateAnswer(i) => if i < |s.lookups| { EventFine(s.lookups[i], NoEntry, s.windows, s.now); }
    case Pass(_) =>
  }

  lemma {:induction false} RunFine(s: World, events: seq<Event>)
    requires AllFine(s)
    ensures AllFine(Run(s, events))
    decreases |events|
  {
    if events != [] {
      StepFine(s, events[0]);
      RunFine(Step(s, events[0]), events[1..]);
    }
  }

  ghost predicate TextsGiven(asked: seq<Read>) {
    forall i :: 0 <= i < |asked| && asked[i].answer.Failed? ==> asked[i].answer.error != ""
  }

  /** For every interleaving of lookups, answers, refusals, errors and deadlines, of each lookup:
      it has answered at most once, and while it has not, exactly one keychain read is out; if the file holds a
      password the answer is Found; NothingStored means the file and every keychain place said they hold nothing;
      a keychain that never answers is refused at most twice; one that has answered is read to the end. */
  lemma {:induction false} EveryLookupKeepsItsPromises(events: seq<Event>, i: nat)
    requires i < |Run(World(0, map[], []), events).lookups|
    ensures var l := Run(World(0, map[], []), events).lookups[i];
            && |l.answers| <= 1 && (l.answers == [] <==> l.reading) && l.lateAnswers <= 1
            && (l.answers != [] && l.file.password != "" ==> l.answers[0].0 == Found)
            && (l.answers != [] && l.answers[0].0 == NothingStored && TextsGiven(l.asked) ==>
                  && l.file.password == "" && l.file.failure == NothingStored
                  && (forall j :: 0 <= j < |l.asked| ==> Nothing(l.asked[j].answer))
                  && AllAsked(l.asked, l.stages, |l.stages|))
            && (!AnyNothing(l.asked) ==> RefusedCount(l.asked) <= 2)
            && (l.answers != [] && AnyNothing(l.asked) && l.answers[0].0 != Found && l.answers[0].0 != TimedOut ==>
                  AllAsked(l.asked, l.stages, |l.stages|))
            && (l.trimmed ==> l.asked == [])
  {
    RunFine(World(0, map[], []), events);
    PromisesOf(Run(World(0, map[], []), events).lookups[i]);
  }

  lemma {:induction false} PromisesOf(l: Lookup)
    requires Fine(l)
    ensures |l.answers| <= 1 && (l.answers == [] <==> l.reading) && l.lateAnswers <= 1
    ensures l.answers != [] && l.file.password != "" ==> l.answers[0].0 == Found
    ensures l.answers != [] && l.answers[0].0 == NothingStored && TextsGiven(l.asked) ==>
              && l.file.password == "" && l.file.failure == NothingStored
              && (forall j :: 0 <= j < |l.asked| ==> Nothing(l.asked[j].answer))
              && AllAsked(l.asked, l.stages, |l.stages|)
    ensures !AnyNothing(l.asked) ==> RefusedCount(l.asked) <= 2
    ensures l.answers != [] && AnyNothing(l.asked) && l.answers[0].0 != Found && l.answers[0].0 != TimedOut ==>
              AllAsked(l.asked, l.stages, |l.stages|)
    ensures l.trimmed ==> l.asked == []
  {
    var f :| Good(l, f);
  }

  function AnswerAll(l: Lookup, answers: seq<Answer>): Lookup
    decreases |answers|
  {
    if answers == [] then l else AnswerAll(OnAnswer(l, answers[0], map[], 0).0, answers[1..])
  }

  /** The chain ends: once the keychain has answered as many reads as there are stages left, so has the lookup. */
  lemma {:induction false} ChainComesToAnEnd(l: Lookup, f: nat, answers: seq<Answer>)
    requires Good(l, f) && (Waiting(l, f) ==> |answers| >= |l.stages| - l.currentStage)
    ensures |AnswerAll(l, answers).answers| == 1
    decreases |answers|
  {
    if answers != [] {
      if Waiting(l, f) {
        AnswerGood(l, f, answers[0], map[], 0);
      } else {
        SettledStays(l, f, answers[0], map[], 0);
      }
      ChainComesToAnEnd(OnAnswer(l, answers[0], map[], 0).0, f, answers[1..]);
    }
  }

  /** A failing read that gives no text passes for one that found nothing. */
  lemma {:induction false} FailureWithoutATextIsLost()
    ensures var l := Start("p", "reconnect", false, FileRead("", NothingStored), false, map[], 0);
            OnAnswer(l, Failed("", false), map[], 0).0.answers == [(NothingStored, "")]
  {
    var file := FileRead("", NothingStored);
    assert Layouts(false, "reconnect") == [CurrentFormat, EncryptedFile];
    var l := Lookup("p", [CurrentFormat, EncryptedFile], file, false, false, 0, false, "", false, NothingStored, false,
                    false, 0, [], false, 0, [], []);
    StageUnfolds(l, 0);
    var l0 := l.(asked := [Read(0, Failed("", false))]);
    assert [] + [Read(0, Failed("", false))] == [Read(0, Failed("", false))];
    assert Start("p", "reconnect", false, file, false, map[], 0) == RunStage(l, 0) == l.(reading := true);
    assert OnAnswer(l.(reading := true), Failed("", false), map[], 0).0 == RunStage(l0, 1);
    StageUnfolds(l0, 1);
    StageUnfolds(NoteFile(l0.(currentStage := 1)), 2);
  }

  /** The window of a profile opens exactly when its lookup, having had no answer, is refused a second time or has
      nothing else to ask; any answer closes it; other profiles are not touched. */
  lemma {:induction false} WindowsFollowTheStore(l: Lookup, f: nat, a: Answer, w: Windows, now: nat)
    requires Waiting(l, f)
    ensures var w' := OnAnswer(l, a, w, now).1;
            var again := !AnyNothing(l.asked)
                         && (RefusedCount(l.asked) == 1 || !KeychainReadLeft(l.stages, l.currentStage + 1));
            && (Refusal(a) && again ==> w' == w[l.profile := now])
            && (Refusal(a) && !again ==> w' == w)
            && (a.Failed? && !a.refused ==> w' == w)
            && (!a.Failed? ==> w' == w - {l.profile})
  {
  }
}
