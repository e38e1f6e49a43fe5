/** Driving the two stored halves of a sign-in, its metadata and its token, towards the end state requested last,
    one store operation at a time, with failures, replacements and reads in between. */
module SignInReconciler {
  import opened Collections
  import opened GmcpSignIn

  datatype Op = WriteMetadata | WriteToken | RemoveToken | RemoveMetadata

  /** `clear`: the record says the token may be sent unencrypted. */
  datatype Metadata = Metadata(account: string, provider: string, clear: bool)

  /** A stored token with the requirement it was issued under. */
  datatype StoredToken = StoredToken(value: string, secureOnly: bool)

  datatype Store = Store(metadata: Option<Metadata>, token: Option<StoredToken>)

  datatype Outcome = Reached | Failed | Superseded

  datatype Pursuit = Pursuit(id: nat, intent: Intent, step: nat, removingStaleToken: bool)

  /** `active` has one store operation out. `intents[i]` is the request with ID `i + 1`. */
  datatype Reconciler = Reconciler(active: Option<Pursuit>, pending: Option<Pursuit>, readers: nat, waiting: nat,
                                   store: Store, intents: seq<Intent>, outcomes: seq<(nat, Outcome)>)

  /** sequenceFor(): the order in which a failure part-way leaves the harmless half. */
  function Sequence(i: Intent): seq<Op> {
    match i
    case Full(_, _, secureOnly, _) =>
      if secureOnly then [WriteMetadata, WriteToken] else [WriteMetadata, WriteToken, WriteMetadata]
    case Hint(_, _) => [RemoveToken, WriteMetadata]
    case Absent => [RemoveToken, RemoveMetadata]
    case Forgotten => [RemoveToken, RemoveMetadata]
  }

  function Current(p: Pursuit): Op {
    if p.removingStaleToken || p.step >= |Sequence(p.intent)| then RemoveToken else Sequence(p.intent)[p.step]
  }

  /** What a successful operation does to the store. */
  function Apply(s: Store, p: Pursuit): Store {
    match Current(p)
    case WriteMetadata =>
      (match p.intent
       case Full(account, provider, secureOnly, _) =>
         s.(metadata := Some(Metadata(account, provider, p.step > 1 && !secureOnly)))
       case Hint(account, provider) => s.(metadata := Some(Metadata(account, provider, false)))
       case _ => s)
    case WriteToken =>
      if p.intent.Full? then s.(token := Some(StoredToken(p.intent.token, p.intent.secureOnly))) else s
    case RemoveToken => s.(token := None)
    case RemoveMetadata => s.(metadata := None)
  }

  /** The store a request describes. */
  function Described(i: Intent): Store {
    match i
    case Full(account, provider, secureOnly, token) =>
      Store(Some(Metadata(account, provider, !secureOnly)), Some(StoredToken(token, secureOnly)))
    case Hint(account, provider) => Store(Some(Metadata(account, provider, false)), None)
    case Absent => Store(None, None)
    case Forgotten => Store(None, None)
  }

  function Report(s: Reconciler, id: nat, o: Outcome): Reconciler {
    s.(outcomes := s.outcomes + [(id, o)])
  }

  function Start(s: Reconciler): Reconciler {
    s.(active := s.pending, pending := None)
  }

  /** Reads that waited are let in once nothing runs or waits to run. */
  function GrantReads(s: Reconciler): Reconciler {
    if s.active.None? && s.pending.None? then s.(readers := s.readers + s.waiting, waiting := 0) else s
  }

  function SetIntent(s: Reconciler, i: Intent): Reconciler {
    var id := |s.intents| + 1;
    var s1 := s.(intents := s.intents + [i], pending := Some(Pursuit(id, i, 0, false)));
    var s2 := if s.pending.Some? then Report(s1, s.pending.value.id, Superseded) else s1;
    if s.active.None? && s.readers == 0 then Start(s2) else s2
  }

  function OnStepDone(s: Reconciler, ok: bool): Reconciler {
    if s.active.None? then s
    else
      var p := s.active.value;
      var s1 := s.(store := if ok then Apply(s.store, p) else s.store);
      if s.pending.Some? then Report(Start(s1), p.id, Superseded)
      else if p.removingStaleToken then GrantReads(Report(s1.(active := None), p.id, Failed))
      else if !ok then
        if Current(p) == WriteToken then s1.(active := Some(p.(removingStaleToken := true)))
        else GrantReads(Report(s1.(active := None), p.id, Failed))
      else if p.step + 1 < |Sequence(p.intent)| then s1.(active := Some(p.(step := p.step + 1)))
      else GrantReads(Report(s1.(active := None), p.id, Reached))
  }

  function WhenReadable(s: Reconciler): Reconciler {
    if s.active.Some? || s.pending.Some? then s.(waiting := s.waiting + 1) else s.(readers := s.readers + 1)
  }

  function ReleaseRead(s: Reconciler): Reconciler {
    if s.readers == 0 then s
    else
      var s1 := s.(readers := s.readers - 1);
      if s1.readers == 0 && s1.active.None? && s1.pending.Some? then Start(s1) else s1
  }

  datatype Move = Ask(intent: Intent) | StepDone(ok: bool) | Read | EndRead

  function Next(s: Reconciler, m: Move): Reconciler {
    match m
    case Ask(i) => SetIntent(s, i)
    case StepDone(ok) => OnStepDone(s, ok)
    case Read => WhenReadable(s)
    case EndRead => ReleaseRead(s)
  }

  function RunMoves(s: Reconciler, ms: seq<Move>): Reconciler
    decreases |ms|
  {
    if ms == [] then s else RunMoves(Next(s, ms[0]), ms[1..])
  }

  // ---- what holds in every run ----

  /** No token without its record, and none that is encrypted-only beside permission to send it in the clear. */
  ghost predicate Safe(s: Store) {
    && (s.token.Some? ==> s.metadata.Some?)
    && (s.token.Some? && s.metadata.value.clear ==> !s.token.value.secureOnly)
  }

  /** How far the request at work has brought the store. */
  ghost predicate Reflects(s: Store, p: Pursuit) {
    && p.step < |Sequence(p.intent)| && (p.removingStaleToken ==> p.intent.Full? && p.step == 1)
    && match p.intent
       case Full(account, provider, secureOnly, token) =>
         && (p.step >= 1 ==> s.metadata == Some(Metadata(account, provider, false)))
         && (p.step >= 2 ==> s.token == Some(StoredToken(token, secureOnly)))
       case _ => p.step >= 1 ==> s.token.None?
  }

  ghost predicate Known(p: Pursuit, intents: seq<Intent>) {
    0 < p.id <= |intents| && p.intent == intents[p.id - 1]
  }

  ghost predicate Answered(outcomes: seq<(nat, Outcome)>, id: nat) {
    exists i :: 0 <= i < |outcomes| && outcomes[i].0 == id
  }

  ghost predicate OnceEach(outcomes: seq<(nat, Outcome)>) {
    forall i, j :: 0 <= i < j < |outcomes| ==> outcomes[i].0 != outcomes[j].0
  }

  /** Every request is answered exactly once, or still under way. */
  ghost predicate Accounted(s: Reconciler) {
    && OnceEach(s.outcomes)
    && forall id: nat :: 0 < id <= |s.intents| ==>
         (Answered(s.outcomes, id) <==> !(s.active.Some? && s.active.value.id == id)
                                        && !(s.pending.Some? && s.pending.value.id == id))
  }

  ghost predicate Valid(s: Reconciler) {
    && Safe(s.store)
    && (s.active.Some? ==> s.readers == 0 && Reflects(s.store, s.active.value) && Known(s.active.value, s.intents))
    && (s.pending.Some? ==> s.pending.value.step == 0 && !s.pending.value.removingStaleToken
                            && s.pending.value.id == |s.intents| && Known(s.pending.value, s.intents))
    && (s.active.Some? && s.pending.None? ==> s.active.value.id == |s.intents|)
    && (s.active.Some? && s.pending.Some? ==> s.active.value.id < |s.intents|)
    && (s.active.None? && s.pending.Some? ==> s.readers > 0)
    && (s.waiting > 0 ==> s.active.Some? || s.pending.Some?)
    && (forall i :: 0 <= i < |s.outcomes| ==> 0 < s.outcomes[i].0 <= |s.intents|)
    && Accounted(s)
    && (LastReached(s) ==> s.intents != [] && s.store == Described(s.intents[|s.intents| - 1]))
  }

  /** Nothing runs or waits to run, and the newest request was reported as reached last. */
  ghost predicate LastReached(s: Reconciler) {
    && s.active.None? && s.pending.None? && s.outcomes != []
    && s.outcomes[|s.outcomes| - 1] == (|s.intents|, Reached)
  }

  lemma {:induction false} StartReflects(s: Store, p: Pursuit)
    requires p.step == 0 && !p.removingStaleToken
    ensures Reflects(s, p)
  {
  }

  /** Any single operation keeps the store safe; when it succeeds the request is one step further, or there. */
  lemma {:induction false} StepSafe(s: Store, p: Pursuit)
    requires Safe(s) && Reflects(s, p)
    ensures Safe(Apply(s, p))
    ensures !p.removingStaleToken && p.step + 1 < |Sequence(p.intent)| ==> Reflects(Apply(s, p), p.(step := p.step + 1))
    ensures !p.removingStaleToken && p.step + 1 == |Sequence(p.intent)| ==> Apply(s, p) == Described(p.intent)
    ensures Current(p) == WriteToken && !p.removingStaleToken ==> Reflects(s, p.(removingStaleToken := true))
  {
  }

  lemma {:induction false} OneMoreAnswer(outcomes: seq<(nat, Outcome)>, id: nat, o: Outcome)
    requires OnceEach(outcomes) && !Answered(outcomes, id)
    ensures var os := outcomes + [(id, o)];
            OnceEach(os) && forall x :: Answered(os, x) <==> Answered(outcomes, x) || x == id
  {
    var os := outcomes + [(id, o)];
    assert os[|outcomes|] == (id, o);
    assert forall i :: 0 <= i < |outcomes| ==> os[i] == outcomes[i] && outcomes[i].0 != id;
    forall x | Answered(outcomes, x) ensures Answered(os, x) {
      var i :| 0 <= i < |outcomes| && outcomes[i].0 == x;
      assert os[i].0 == x;
    }
  }

  lemma {:induction false} SetIntentValid(s: Reconciler, i: Intent)
    requires Valid(s)
    ensures Valid(SetIntent(s, i))
  {
    if s.pending.Some? {
      OneMoreAnswer(s.outcomes, s.pending.value.id, Superseded);
    }
  }

  /** A request that gives way to a newer one. */
  lemma {:induction false} GivesWay(s: Reconciler, ok: bool)
    requires Valid(s) && s.active.Some? && s.pending.Some?
    ensures Valid(OnStepDone(s, ok))
  {
    var p := s.active.value;
    StepSafe(s.store, p);
    OneMoreAnswer(s.outcomes, p.id, Superseded);
    StartReflects(if ok then Apply(s.store, p) else s.store, s.pending.value);
  }

  /** A request that ends, reached or failed. */
  lemma {:induction false} EndsValid(s: Reconciler, store: Store, o: Outcome)
    requires Valid(s) && s.active.Some? && s.pending.None? && Safe(store)
    requires o == Reached ==> store == Described(s.active.value.intent)
    ensures Valid(GrantReads(Report(s.(store := store, active := None), s.active.value.id, o)))
  {
    OneMoreAnswer(s.outcomes, s.active.value.id, o);
  }

  lemma {:induction false} GoesOn(s: Reconciler, store: Store, p: Pursuit)
    requires Valid(s) && s.active.Some? && s.pending.None? && Safe(store) && Reflects(store, p)
    requires p.id == s.active.value.id && p.intent == s.active.value.intent
    ensures Valid(s.(store := store, active := Some(p)))
  {
  }

  lemma {:induction false} StepDoneValid(s: Reconciler, ok: bool)
    requires Valid(s)
    ensures Valid(OnStepDone(s, ok))
  {
    if s.active.Some? {
      if s.pending.Some? {
        GivesWay(s, ok);
      } else {
        var p := s.active.value;
        var store := if ok then Apply(s.store, p) else s.store;
        StepSafe(s.store, p);
        if p.removingStaleToken {
          EndsValid(s, store, Failed);
        } else if !ok {
          if Current(p) == WriteToken {
            GoesOn(s, store, p.(removingStaleToken := true));
          } else {
            EndsValid(s, store, Failed);
          }
        } else if p.step + 1 < |Sequence(p.intent)| {
          GoesOn(s, store, p.(step := p.step + 1));
        } else {
          EndsValid(s, store, Reached);
        }
      }
    }
  }

  lemma {:induction false} ReadsValid(s: Reconciler)
    requires Valid(s)
    ensures Valid(WhenReadable(s)) && Valid(ReleaseRead(s))
  {
    if s.pending.Some? {
      StartReflects(s.store, s.pending.value);
    }
  }

  lemma {:induction false} NextValid(s: Reconciler, m: Move)
    requires Valid(s)
    ensures Valid(Next(s, m))
  {
    match m
    case Ask(i) => SetIntentValid(s, i);
    case StepDone(ok) => StepDoneValid(s, ok);
    case Read => ReadsValid(s);
    case EndRead => ReadsValid(s);
  }

  lemma {:induction false} MovesValid(s: Reconciler, ms: seq<Move>)
    requires Valid(s)
    ensures Valid(RunMoves(s, ms))
    decreases |ms|
  {
    if ms != [] {
      NextValid(s, ms[0]);
      MovesValid(Next(s, ms[0]), ms[1..]);
    }
  }

  function Idle(store: Store): Reconciler {
    Reconciler(None, None, 0, 0, store, [], [])
  }

  /** For every run of requests, successes, failures and reads over a safe store: it never holds a token without its
      record, nor an encrypted-only token beside permission to send it in the clear; every request is answered at most
      once, and exactly once when nothing is under way; and once the newest was reached, the store is what it asked for. */
  lemma {:induction false} LastIntentWins(store: Store, ms: seq<Move>)
    requires Safe(store)
    ensures var s := RunMoves(Idle(store), ms);
            && Safe(s.store) && Accounted(s)
            && (LastReached(s) ==> s.intents != [] && s.store == Described(s.intents[|s.intents| - 1]))
  {
    MovesValid(Idle(store), ms);
  }

  /** Only the newest request is ever reported as reached. */
  lemma {:induction false} OnlyTheNewestIsReached(s: Reconciler, m: Move, id: nat)
    requires Valid(s) && !Answered(s.outcomes, id)
    requires Next(s, m).outcomes == s.outcomes + [(id, Reached)]
    ensures id == |Next(s, m).intents| && LastReached(Next(s, m)) && Next(s, m).store == Described(s.intents[id - 1])
  {
    var os := Next(s, m).outcomes;
    assert os[|s.outcomes|] == (id, Reached);
    NextValid(s, m);
  }

  lemma {:induction false} ReadSeesNoChange(s: Reconciler, m: Move)
    requires Valid(s) && s.readers > 0
    ensures Next(s, m).store == s.store
  {
  }

  /** For every run: as long as some read goes on, whatever is asked for and answered meanwhile, the store it sees does not
      change. */
  lemma {:induction false} ReadsSeeOneStore(store: Store, before: seq<Move>, during: seq<Move>)
    requires Safe(store)
    requires forall k :: 0 <= k < |during| ==> RunMoves(RunMoves(Idle(store), before), during[..k]).readers > 0
    ensures RunMoves(RunMoves(Idle(store), before), during).store == RunMoves(Idle(store), before).store
  {
    MovesValid(Idle(store), before);
    OneStore(RunMoves(Idle(store), before), during);
  }

  lemma {:induction false} OneStore(s: Reconciler, ms: seq<Move>)
    requires Valid(s) && forall k :: 0 <= k < |ms| ==> RunMoves(s, ms[..k]).readers > 0
    ensures RunMoves(s, ms).store == s.store
    decreases |ms|
  {
    if ms != [] {
      var s1, rest := Next(s, ms[0]), ms[1..];
      assert RunMoves(s, ms[..0]) == s;
      ReadSeesNoChange(s, ms[0]);
      NextValid(s, ms[0]);
      forall k | 0 <= k < |rest| ensures RunMoves(s1, rest[..k]).readers > 0 {
        assert ms[..k + 1][1..] == rest[..k] && ms[..k + 1][0] == ms[0];
        assert RunMoves(s, ms[..k + 1]) == RunMoves(s1, rest[..k]);
      }
      OneStore(s1, rest);
    }
  }

  /** With nothing else going on and every operation succeeding, a request is done after its last operation. */
  lemma {:induction false} UndisturbedRequestIsReached(store: Store, i: Intent)
    requires Safe(store)
    ensures var s := RunMoves(Idle(store), [Ask(i)] + Repeat(StepDone(true), |Sequence(i)|));
            LastReached(s) && s.store == Described(i)
  {
    var s := SetIntent(Idle(store), i);
    var ms := Repeat(StepDone(true), |Sequence(i)|);
    assert ([Ask(i)] + ms)[1..] == ms;
    assert RunMoves(Idle(store), [Ask(i)] + ms) == RunMoves(s, ms);
    MovesValid(Idle(store), [Ask(i)]);
    assert RunMoves(Idle(store), [Ask(i)]) == RunMoves(s, []) == s;
    StepsToTheEnd(s);
  }

  function Repeat(m: Move, n: nat): seq<Move> {
    if n == 0 then [] else [m] + Repeat(m, n - 1)
  }

  lemma {:induction false} StepsToTheEnd(s: Reconciler)
    requires Valid(s) && s.active.Some? && s.pending.None? && !s.active.value.removingStaleToken
    ensures var n := |Sequence(s.active.value.intent)| - s.active.value.step;
            LastReached(RunMoves(s, Repeat(StepDone(true), n)))
            && RunMoves(s, Repeat(StepDone(true), n)).store == Described(s.active.value.intent)
    decreases |Sequence(s.active.value.intent)| - s.active.value.step
  {
    var p := s.active.value;
    var n := |Sequence(p.intent)| - p.step;
    var ms := Repeat(StepDone(true), n);
    assert ms[1..] == Repeat(StepDone(true), n - 1);
    StepSafe(s.store, p);
    StepDoneValid(s, true);
    var s1 := OnStepDone(s, true);
    if n == 1 {
      assert RunMoves(s1, []) == s1;
      assert s1.outcomes[|s.outcomes|] == (p.id, Reached);
    } else {
      StepsToTheEnd(s1);
    }
  }
}
