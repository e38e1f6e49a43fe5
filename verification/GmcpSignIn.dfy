/** Signing in over GMCP with a saved token: the game's frames, the store reads still in flight, the timers, and
    the player asking for the saved sign-in to be forgotten, in any order.

    A token stands for its own hash (hashes are taken not to collide). What a read gives is arbitrary. */
module GmcpSignIn {

  /** End states the stored sign-in is asked to reach; `Forgotten` is the player's own removal. */
  datatype Intent =
    | Full(account: string, provider: string, secureOnly: bool, token: string)
    | Hint(account: string, provider: string)
    | Absent
    | Forgotten

  /** What goes to the game. */
  datatype Sent =
    | Reconnect(account: string, token: string)
    | Resume(account: string, provider: string)
    | Credentials
    | HandOff
    | StartOAuth

  datatype AuthType = OAuth | PasswordCredentials | OtherType

  /** State of one sign-in attempt, reset as a whole by every Char.Login.Default that offers a way to sign in. */
  datatype Conn = Conn(awaiting: bool, reconnecting: bool, forgetAtReplay: nat, retriedRotated: bool,
                       provider: string, account: string, sentToken: string)

  const NEW_CONN := Conn(false, false, 0, false, "", "", "")

  datatype Entry = Entry(account: string, provider: string, secureOnly: bool, token: string, tokenUnreadable: bool)

  /** A store read under way, with what it captured when it began. */
  datatype Reading =
    | SignIn(allowToken: bool, attempt: nat, forgets: nat)
    | Recovery(attempt: nat, forgets: nat, sentToken: string, retried: bool, account: string, provider: string)

  datatype Auth = Auth(conn: Conn, rejected: bool, attempt: nat, forgets: nat, offered: bool, types: set<AuthType>,
                       clientOAuth: bool, haveCredentials: bool, scheduled: bool, scheduleGeneration: nat,
                       timers: seq<nat>, deadlines: seq<nat>, readings: seq<Reading>, rememberedRejected: string,
                       requests: seq<Intent>, sent: seq<Sent>)

  datatype Event =
    | SocketReset
    | Default(types: set<AuthType>, clientOAuth: bool, throttled: bool)
    | ScheduledAttempt(which: nat)
    | ResultDeadline(which: nat)
    | Url(provider: string, valid: bool)
    | ClientUrlReady
    | Token(account: string, token: string, secureOnly: bool)
    | Result(success: bool)
    | ReadDone(which: nat, success: bool, entry: Entry, changeRequested: bool, secure: bool)
    | Forget
    | HintFailed

  function Request(s: Auth, i: Intent): Auth {
    s.(requests := s.requests + [i])
  }

  function Send(s: Auth, m: Sent): Auth {
    s.(sent := s.sent + [m])
  }

  predicate CredentialsOutrankToken(s: Auth) {
    PasswordCredentials in s.types && s.haveCredentials
  }

  /** selectAuthMethod(): never a token. */
  function SelectMethod(s: Auth): Auth {
    if CredentialsOutrankToken(s) then Send(s, Credentials)
    else if OAuth in s.types && s.clientOAuth then Send(s, StartOAuth)
    else Send(s, HandOff)
  }

  function AttemptReconnect(s: Auth): Auth {
    if s.rejected then s.(rejected := false, readings := s.readings + [SignIn(false, s.attempt, s.forgets)])
    else if CredentialsOutrankToken(s) then SelectMethod(s)
    else s.(readings := s.readings + [SignIn(true, s.attempt, s.forgets)])
  }

  function OnSocketReset(s: Auth): Auth {
    s.(scheduleGeneration := s.scheduleGeneration + 1, attempt := s.attempt + 1, scheduled := false, offered := false)
  }

  /** `throttled`: an attempt was made less than a second ago. */
  function OnDefault(s: Auth, types: set<AuthType>, clientOAuth: bool, throttled: bool): Auth {
    var s1 := s.(types := types, clientOAuth := clientOAuth);
    if types == {} then s1.(scheduleGeneration := s.scheduleGeneration + 1, scheduled := false)
    else
      var s2 := s1.(offered := true, conn := NEW_CONN, attempt := s.attempt + 1);
      if s2.scheduled then s2
      else if !throttled then AttemptReconnect(s2)
      else s2.(scheduled := true, timers := s2.timers + [s2.scheduleGeneration])
  }

  function Dropped<T>(xs: seq<T>, k: nat): seq<T>
    requires k < |xs|
  {
    xs[..k] + xs[k + 1..]
  }

  function OnScheduledAttempt(s: Auth, k: nat): Auth {
    if k >= |s.timers| then s
    else
      var s1 := s.(timers := Dropped(s.timers, k));
      if s.timers[k] != s.scheduleGeneration then s1 else AttemptReconnect(s1.(scheduled := false))
  }

  function OnResultDeadline(s: Auth, k: nat): Auth {
    if k >= |s.deadlines| then s
    else
      var s1 := s.(deadlines := Dropped(s.deadlines, k));
      if !s.conn.awaiting || s.deadlines[k] != s.attempt then s1
      else SelectMethod(s1.(conn := s.conn.(awaiting := false)))
  }

  /** Every browser sign-in is offered here; the connection no longer runs on a replayed token. */
  function OfferSignIn(s: Auth): Auth {
    s.(conn := s.conn.(reconnecting := false))
  }

  function OnUrl(s: Auth, provider: string, valid: bool): Auth {
    var s1 := if provider != "" then s.(conn := s.conn.(provider := provider)) else s;
    if valid then OfferSignIn(s1) else s1
  }

  function OnToken(s: Auth, account: string, token: string, secureOnly: bool): Auth {
    if !s.offered || account == "" || token == "" then s
    else if s.conn.reconnecting && s.conn.forgetAtReplay != s.forgets then s
    else Request(s, Full(account, s.conn.provider, secureOnly, token))
  }

  function OnResult(s: Auth, success: bool): Auth {
    if !s.conn.awaiting then s
    else
      var s1 := s.(conn := s.conn.(awaiting := false));
      if success then s1
      else
        var c := s.conn;
        s1.(rejected := true,
            readings := s.readings + [Recovery(s.attempt, c.forgetAtReplay, c.sentToken, c.retriedRotated, c.account,
                                               c.provider)])
  }

  /** A token goes out only where its game allowed it: the answer says whether it was sent. */
  function SendReconnect(s: Auth, account: string, token: string, secureOnly: bool, secure: bool): (Auth, bool) {
    if secureOnly && !secure then (s, false) else (Send(s, Reconnect(account, token)), true)
  }

  function OnSignInRead(s: Auth, r: Reading, e: Entry, secure: bool): Auth
    requires r.SignIn?
  {
    if r.attempt != s.attempt then s
    else if r.forgets != s.forgets then SelectMethod(s)
    else
      var replayable := r.allowToken && e.account != "" && e.token != "" && e.token != s.rememberedRejected;
      var (s1, sent) := if replayable then SendReconnect(s, e.account, e.token, e.secureOnly, secure) else (s, false);
      if sent then
        s1.(conn := s.conn.(reconnecting := true, provider := e.provider, forgetAtReplay := s.forgets, awaiting := true,
                            account := e.account, sentToken := e.token),
            deadlines := s.deadlines + [s.attempt])
      else if e.account != "" && e.provider != "" && OAuth in s.types then
        Send(s1.(conn := s.conn.(provider := e.provider)), Resume(e.account, e.provider))
      else SelectMethod(s1)
  }

  function DropToken(s: Auth, account: string, provider: string): Auth {
    if account == "" || provider == "" then Request(s, Absent) else Request(s, Hint(account, provider))
  }

  /** The read gave a token to compare with the rejected one. */
  predicate Comparable(s: Auth, r: Reading, success: bool, e: Entry)
    requires r.Recovery?
  {
    r.forgets == s.forgets && !r.retried && success && e.account != "" && e.token != "" && r.sentToken != ""
  }

  /** Another running instance has rotated the token: its fresh one is replayed, once. */
  function OnRotated(s: Auth, r: Reading, e: Entry, secure: bool): Auth
    requires r.Recovery?
  {
    if r.attempt != s.attempt then s
    else
      var (s1, sent) := SendReconnect(s, e.account, e.token, e.secureOnly, secure);
      if sent then
        s1.(conn := s.conn.(retriedRotated := true, sentToken := e.token, reconnecting := true,
                            forgetAtReplay := s.forgets, awaiting := true, account := e.account),
            deadlines := s.deadlines + [s.attempt], rejected := false)
      else SelectMethod(s1)
  }

  /** No rotation was seen. */
  function OnDead(s: Auth, r: Reading, success: bool, e: Entry, changeRequested: bool): Auth
    requires r.Recovery?
  {
    var forgotten := r.forgets != s.forgets;
    var unread := !success || e.tokenUnreadable;
    var remembered := if !forgotten && unread && r.sentToken != "" then r.sentToken else s.rememberedRejected;
    if r.attempt != s.attempt && !Comparable(s, r, success, e) then s.(rejected := true, rememberedRejected := remembered)
    else if forgotten || changeRequested then s
    else if unread then s.(rememberedRejected := remembered)
    else DropToken(s, r.account, r.provider)
  }

  function OnRecoveryRead(s: Auth, r: Reading, success: bool, e: Entry, changeRequested: bool, secure: bool): Auth
    requires r.Recovery?
  {
    if Comparable(s, r, success, e) && e.token != r.sentToken then OnRotated(s, r, e, secure)
    else OnDead(s, r, success, e, changeRequested)
  }

  function OnReadDone(s: Auth, k: nat, success: bool, e: Entry, changeRequested: bool, secure: bool): Auth {
    if k >= |s.readings| then s
    else
      var s1 := s.(readings := Dropped(s.readings, k));
      match s.readings[k]
      case SignIn(_, _, _) => OnSignInRead(s1, s.readings[k], e, secure)
      case Recovery(_, _, _, _, _, _) => OnRecoveryRead(s1, s.readings[k], success, e, changeRequested, secure)
  }

  function OnForget(s: Auth): Auth {
    Request(s.(forgets := s.forgets + 1), Forgotten)
  }

  function Step(s: Auth, e: Event): Auth {
    match e
    case SocketReset => OnSocketReset(s)
    case Default(types, clientOAuth, throttled) => OnDefault(s, types, clientOAuth, throttled)
    case ScheduledAttempt(k) => OnScheduledAttempt(s, k)
    case ResultDeadline(k) => OnResultDeadline(s, k)
    case Url(provider, valid) => OnUrl(s, provider, valid)
    case ClientUrlReady => OfferSignIn(s)
    case Token(account, token, secureOnly) => OnToken(s, account, token, secureOnly)
    case Result(success) => OnResult(s, success)
    case ReadDone(k, success, e, changeRequested, secure) => OnReadDone(s, k, success, e, changeRequested, secure)
    case Forget => OnForget(s)
    case HintFailed => Request(s, Absent)
  }

  function Run(s: Auth, events: seq<Event>): Auth
    decreases |events|
  {
    if events == [] then s else Run(Step(s, events[0]), events[1..])
  }

  function Started(haveCredentials: bool, rememberedRejected: string): Auth {
    Auth(NEW_CONN, false, 1, 0, false, {}, false, haveCredentials, false, 0, [], [], [], rememberedRejected, [], [])
  }

  // ---- what holds in every run ----

  ghost predicate ReadingsKnown(s: Auth) {
    forall i :: 0 <= i < |s.readings| ==> s.readings[i].attempt <= s.attempt && s.readings[i].forgets <= s.forgets
  }

  ghost predicate NoReadingOfThisAttempt(s: Auth) {
    forall i :: 0 <= i < |s.readings| ==> s.readings[i].attempt != s.attempt
  }

  ghost predicate TimersKnown(timers: seq<nat>, generation: nat) {
    && (forall i :: 0 <= i < |timers| ==> timers[i] <= generation)
    && (forall i, j :: 0 <= i < j < |timers| && timers[i] == generation ==> timers[j] != generation)
  }

  /** A scheduled attempt has one live timer, and until it fires nothing of its sign-in attempt is under way. */
  ghost predicate Orderly(s: Auth) {
    && ReadingsKnown(s) && s.conn.forgetAtReplay <= s.forgets && TimersKnown(s.timers, s.scheduleGeneration)
    && (!s.scheduled ==> s.scheduleGeneration !in s.timers)
    && (s.scheduled ==> !s.conn.reconnecting && !s.conn.awaiting && NoReadingOfThisAttempt(s))
  }

  lemma {:induction false} DroppedFacts<T>(xs: seq<T>, k: nat)
    requires k < |xs|
    ensures |Dropped(xs, k)| == |xs| - 1
    ensures forall i :: 0 <= i < |Dropped(xs, k)| ==> Dropped(xs, k)[i] == xs[if i < k then i else i + 1]
  {
  }

  lemma {:induction false} TimerGone(timers: seq<nat>, generation: nat, k: nat)
    requires TimersKnown(timers, generation) && k < |timers|
    ensures TimersKnown(Dropped(timers, k), generation)
    ensures timers[k] == generation ==> generation !in Dropped(timers, k)
    ensures generation !in timers ==> generation !in Dropped(timers, k)
  {
    DroppedFacts(timers, k);
  }

  lemma {:induction false} AttemptOrderly(s: Auth)
    requires Orderly(s) && !s.scheduled
    ensures Orderly(AttemptReconnect(s))
  {
  }

  lemma {:induction false} DefaultOrderly(s: Auth, types: set<AuthType>, clientOAuth: bool, throttled: bool)
    requires Orderly(s)
    ensures Orderly(OnDefault(s, types, clientOAuth, throttled))
  {
    if types != {} {
      var s2 := s.(types := types, clientOAuth := clientOAuth, offered := true, conn := NEW_CONN, attempt := s.attempt + 1);
      assert Orderly(s2);
      if !s2.scheduled && !throttled {
        AttemptOrderly(s2);
      }
    }
  }

  lemma {:induction false} ScheduledOrderly(s: Auth, k: nat)
    requires Orderly(s)
    ensures Orderly(OnScheduledAttempt(s, k))
  {
    if k < |s.timers| {
      TimerGone(s.timers, s.scheduleGeneration, k);
      if s.timers[k] == s.scheduleGeneration {
        AttemptOrderly(s.(timers := Dropped(s.timers, k), scheduled := false));
      }
    }
  }

  /** Only what was said and asked for has changed. */
  ghost predicate OnlySaid(s: Auth, r: Auth) {
    r == s.(sent := r.sent, requests := r.requests, rejected := r.rejected, rememberedRejected := r.rememberedRejected,
            conn := r.conn)
    && (r.conn.awaiting ==> s.conn.awaiting) && (r.conn.reconnecting ==> s.conn.reconnecting)
    && r.conn.forgetAtReplay == s.conn.forgetAtReplay
  }

  lemma {:induction false} SaidOrderly(s: Auth, r: Auth)
    requires Orderly(s) && OnlySaid(s, r)
    ensures Orderly(r)
  {
  }

  lemma {:induction false} SelectSaid(s: Auth)
    ensures OnlySaid(s, SelectMethod(s))
  {
  }

  /** A replay starts: possible only when no later attempt is scheduled. */
  ghost predicate Replays(s: Auth, r: Auth) {
    && r.conn.forgetAtReplay == s.forgets
    && r == s.(sent := r.sent, conn := r.conn, deadlines := r.deadlines, rejected := r.rejected)
  }

  lemma {:induction false} ReplayOrderly(s: Auth, r: Auth)
    requires Orderly(s) && !s.scheduled && Replays(s, r)
    ensures Orderly(r)
  {
  }

  predicate MayReplay(s: Auth, r: Reading, e: Entry, secure: bool)
    requires r.SignIn?
  {
    r.allowToken && e.account != "" && e.token != "" && e.token != s.rememberedRejected && !(e.secureOnly && !secure)
  }

  lemma {:induction false} SignInReadSaysOrReplays(s: Auth, r: Reading, e: Entry, secure: bool)
    requires r.SignIn?
    ensures var o := OnSignInRead(s, r, e, secure);
            OnlySaid(s, o) || (Replays(s, o) && r.attempt == s.attempt)
  {
    hide *;
    if r.attempt == s.attempt && r.forgets == s.forgets && MayReplay(s, r, e, secure) {
      SignInReplays(s, r, e, secure);
    } else {
      SignInSays(s, r, e, secure);
    }
  }

  lemma {:induction false} SignInReplays(s: Auth, r: Reading, e: Entry, secure: bool)
    requires r.SignIn? && r.attempt == s.attempt && r.forgets == s.forgets && MayReplay(s, r, e, secure)
    ensures Replays(s, OnSignInRead(s, r, e, secure))
  {
  }

  lemma {:induction false} SignInSays(s: Auth, r: Reading, e: Entry, secure: bool)
    requires r.SignIn? && !(r.attempt == s.attempt && r.forgets == s.forgets && MayReplay(s, r, e, secure))
    ensures OnlySaid(s, OnSignInRead(s, r, e, secure))
  {
    SelectSaid(s);
  }

  lemma {:induction false} SignInReadOrderly(s: Auth, r: Reading, e: Entry, secure: bool)
    requires Orderly(s) && r.SignIn? && (s.scheduled ==> r.attempt != s.attempt)
    ensures Orderly(OnSignInRead(s, r, e, secure))
  {
    hide *;
    var o := OnSignInRead(s, r, e, secure);
    SignInReadSaysOrReplays(s, r, e, secure);
    if OnlySaid(s, o) {
      SaidOrderly(s, o);
    } else {
      ReplayOrderly(s, o);
    }
  }

  lemma {:induction false} RecoveryReadOrderly(s: Auth, r: Reading, success: bool, e: Entry, changed: bool, secure: bool)
    requires Orderly(s) && r.Recovery? && (s.scheduled ==> r.attempt != s.attempt)
    ensures Orderly(OnRecoveryRead(s, r, success, e, changed, secure))
  {
    if Comparable(s, r, success, e) && e.token != r.sentToken {
      RotatedOrderly(s, r, e, secure);
    } else {
      DeadSaid(s, r, success, e, changed);
      SaidOrderly(s, OnDead(s, r, success, e, changed));
    }
  }

  lemma {:induction false} DeadSaid(s: Auth, r: Reading, success: bool, e: Entry, changed: bool)
    requires r.Recovery?
    ensures OnlySaid(s, OnDead(s, r, success, e, changed))
  {
  }

  lemma {:induction false} RotatedOrderly(s: Auth, r: Reading, e: Entry, secure: bool)
    requires Orderly(s) && r.Recovery? && (s.scheduled ==> r.attempt != s.attempt)
    ensures Orderly(OnRotated(s, r, e, secure))
  {
    SelectSaid(s);
    if r.attempt == s.attempt {
      if e.secureOnly && !secure {
        SaidOrderly(s, SelectMethod(s));
      } else {
        ReplayOrderly(s, OnRotated(s, r, e, secure));
      }
    }
  }

  lemma {:induction false} ReadingDropped(s: Auth, k: nat)
    requires Orderly(s) && k < |s.readings|
    ensures Orderly(s.(readings := Dropped(s.readings, k)))
    ensures s.scheduled ==> s.readings[k].attempt != s.attempt
  {
    DroppedFacts(s.readings, k);
  }

  lemma {:induction false} ReadOrderly(s: Auth, k: nat, success: bool, e: Entry, changeRequested: bool, secure: bool)
    requires Orderly(s)
    ensures Orderly(OnReadDone(s, k, success, e, changeRequested, secure))
  {
    if k < |s.readings| {
      ReadingDropped(s, k);
      var s1, r := s.(readings := Dropped(s.readings, k)), s.readings[k];
      if r.SignIn? {
        SignInReadOrderly(s1, r, e, secure);
      } else {
        RecoveryReadOrderly(s1, r, success, e, changeRequested, secure);
      }
    }
  }

  lemma {:induction false} DeadlineOrderly(s: Auth, k: nat)
    requires Orderly(s)
    ensures Orderly(OnResultDeadline(s, k))
  {
    if k < |s.deadlines| {
      var s1 := s.(deadlines := Dropped(s.deadlines, k));
      var s2 := s1.(conn := s.conn.(awaiting := false));
      SelectSaid(s2);
      assert Orderly(s1) && Orderly(s2);
      SaidOrderly(s2, SelectMethod(s2));
    }
  }

  lemma {:induction false} ResetOrderly(s: Auth)
    requires Orderly(s)
    ensures Orderly(OnSocketReset(s))
  {
  }

  lemma {:induction false} ResultOrderly(s: Auth, success: bool)
    requires Orderly(s)
    ensures Orderly(OnResult(s, success))
  {
  }

  lemma {:induction false} ForgetOrderly(s: Auth)
    requires Orderly(s)
    ensures Orderly(OnForget(s))
  {
  }

  lemma {:induction false} SaidByUrl(s: Auth, provider: string, valid: bool)
    ensures OnlySaid(s, OnUrl(s, provider, valid)) && OnlySaid(s, OfferSignIn(s))
  {
  }

  lemma {:induction false} SaidByToken(s: Auth, account: string, token: string, secureOnly: bool)
    ensures OnlySaid(s, OnToken(s, account, token, secureOnly)) && OnlySaid(s, Request(s, Absent))
  {
  }

  lemma {:induction false} StepOrderly(s: Auth, e: Event)
    requires Orderly(s)
    ensures Orderly(Step(s, e))
  {
    match e
    case Default(types, clientOAuth, throttled) => DefaultOrderly(s, types, clientOAuth, throttled);
    case ScheduledAttempt(k) => ScheduledOrderly(s, k);
    case ResultDeadline(k) => DeadlineOrderly(s, k);
    case ReadDone(k, success, entry, changeRequested, secure) => ReadOrderly(s, k, success, entry, changeRequested, secure);
    case SocketReset => ResetOrderly(s);
    case Result(success) => ResultOrderly(s, success);
    case Forget => ForgetOrderly(s);
    case Url(provider, valid) =>
      SaidByUrl(s, provider, valid);
      SaidOrderly(s, OnUrl(s, provider, valid));
    case ClientUrlReady =>
      SaidByUrl(s, "", true);
      SaidOrderly(s, OfferSignIn(s));
    case Token(account, token, secureOnly) =>
      SaidByToken(s, account, token, secureOnly);
      SaidOrderly(s, OnToken(s, account, token, secureOnly));
    case HintFailed =>
      SaidByToken(s, "", "", false);
      SaidOrderly(s, Request(s, Absent));
  }

  lemma {:induction false} RunOrderly(s: Auth, events: seq<Event>)
    requires Orderly(s)
    ensures Orderly(Run(s, events))
    decreases |events|
  {
    if events != [] {
      StepOrderly(s, events[0]);
      RunOrderly(Step(s, events[0]), events[1..]);
    }
  }

  // ---- forget wins ----

  /** A browser sign-in is offered, or the game starts a new sign-in. */
  predicate StartsOver(e: Event) {
    (e.Default? && e.types != {}) || (e.Url? && e.valid) || e.ClientUrlReady?
  }

  /** The player has forgotten the sign-in this connection runs on, and everything in flight is older. */
  ghost predicate LeftBehind(s: Auth) {
    && Orderly(s) && s.conn.reconnecting && s.conn.forgetAtReplay < s.forgets
    && forall i :: 0 <= i < |s.readings| ==> s.readings[i].forgets < s.forgets
  }

  /** Nothing was asked of the store but to be empty, and no token was replayed. */
  ghost predicate Harmless(s: Auth, r: Auth) {
    && |s.requests| <= |r.requests| && r.requests[..|s.requests|] == s.requests
    && (forall i :: |s.requests| <= i < |r.requests| ==> r.requests[i] == Absent || r.requests[i] == Intent.Forgotten)
    && |s.sent| <= |r.sent| && r.sent[..|s.sent|] == s.sent
    && (forall i :: |s.sent| <= i < |r.sent| ==> !r.sent[i].Reconnect?)
  }

  lemma {:induction false} HarmlessTrans(a: Auth, b: Auth, c: Auth)
    requires Harmless(a, b) && Harmless(b, c)
    ensures Harmless(a, c)
  {
    assert c.requests[..|a.requests|] == c.requests[..|b.requests|][..|a.requests|];
    assert c.sent[..|a.sent|] == c.sent[..|b.sent|][..|a.sent|];
    forall i | |a.requests| <= i < |c.requests| ensures c.requests[i] == Absent || c.requests[i] == Intent.Forgotten {
      assert i < |b.requests| ==> c.requests[i] == c.requests[..|b.requests|][i];
    }
    forall i | |a.sent| <= i < |c.sent| ensures !c.sent[i].Reconnect? {
      assert i < |b.sent| ==> c.sent[i] == c.sent[..|b.sent|][i];
    }
  }

  lemma {:induction false} SelectHarmless(s: Auth)
    ensures Harmless(s, SelectMethod(s))
    ensures SelectMethod(s) == s.(sent := SelectMethod(s).sent)
  {
  }

  lemma {:induction false} ForgottenRead(s: Auth, k: nat, success: bool, e: Entry, changed: bool, secure: bool)
    requires LeftBehind(s) && k < |s.readings|
    ensures var r := OnReadDone(s, k, success, e, changed, secure);
            && Harmless(s, r) && r.conn.reconnecting && r.conn.forgetAtReplay < r.forgets
            && r.readings == Dropped(s.readings, k) && r.forgets == s.forgets
  {
    var s1, g := s.(readings := Dropped(s.readings, k)), s.readings[k];
    assert g.forgets != s1.forgets;
    SelectHarmless(s1);
    if g.SignIn? {
      assert OnSignInRead(s1, g, e, secure) == if g.attempt != s1.attempt then s1 else SelectMethod(s1);
    }
  }

  /** Still on the forgotten sign-in, with nothing done for it. */
  ghost predicate StaysBehind(s: Auth, r: Auth) {
    && Harmless(s, r) && r.conn.reconnecting && r.conn.forgetAtReplay < r.forgets
    && forall i :: 0 <= i < |r.readings| ==> r.readings[i].forgets < r.forgets
  }

  lemma {:induction false} ForgottenStep(s: Auth, e: Event)
    requires LeftBehind(s) && !StartsOver(e)
    ensures LeftBehind(Step(s, e)) && Harmless(s, Step(s, e))
  {
    hide *;
    LeftBehindIs(s);
    StepOrderly(s, e);
    match e {
      case ReadDone(_, _, _, _, _) => ForgottenReads(s, e);
      case ResultDeadline(_) => ForgottenDeadline(s, e);
      case Default(_, _, _) => ForgottenOffer(s, e);
      case ScheduledAttempt(_) => ForgottenOffer(s, e);
      case _ => ForgottenOther(s, e);
    }
    BehindIs(s, Step(s, e));
  }

  lemma {:induction false} LeftBehindIs(s: Auth)
    ensures LeftBehind(s) ==> Orderly(s)
  {
  }

  lemma {:induction false} BehindIs(s: Auth, r: Auth)
    requires Orderly(r) && StaysBehind(s, r)
    ensures LeftBehind(r) && Harmless(s, r)
  {
  }

  lemma {:induction false} ForgottenReads(s: Auth, e: Event)
    requires LeftBehind(s) && e.ReadDone?
    ensures StaysBehind(s, Step(s, e))
  {
    if e.which < |s.readings| {
      ForgottenRead(s, e.which, e.success, e.entry, e.changeRequested, e.secure);
      DroppedFacts(s.readings, e.which);
    }
  }

  lemma {:induction false} ForgottenDeadline(s: Auth, e: Event)
    requires LeftBehind(s) && e.ResultDeadline?
    ensures StaysBehind(s, Step(s, e))
  {
    if e.which < |s.deadlines| {
      SelectHarmless(s.(deadlines := Dropped(s.deadlines, e.which), conn := s.conn.(awaiting := false)));
    }
  }

  lemma {:induction false} ForgottenOffer(s: Auth, e: Event)
    requires LeftBehind(s) && !StartsOver(e) && (e.Default? || e.ScheduledAttempt?)
    ensures StaysBehind(s, Step(s, e))
  {
  }

  lemma {:induction false} ForgottenOther(s: Auth, e: Event)
    requires LeftBehind(s) && !StartsOver(e) && !e.ReadDone? && !e.ResultDeadline? && !e.Default? && !e.ScheduledAttempt?
    ensures StaysBehind(s, Step(s, e))
  {
    hide OnDefault, OnScheduledAttempt, OnResultDeadline, OnReadDone;
  }

  lemma {:induction false} ForgottenRun(s: Auth, events: seq<Event>)
    requires LeftBehind(s) && forall i :: 0 <= i < |events| ==> !StartsOver(events[i])
    ensures Harmless(s, Run(s, events))
    decreases |events|
  {
    if events != [] {
      ForgottenStep(s, events[0]);
      var s1 := Step(s, events[0]);
      assert forall i :: 0 <= i < |events[1..]| ==> events[1..][i] == events[i + 1];
      ForgottenRun(s1, events[1..]);
      HarmlessTrans(s, s1, Run(s1, events[1..]));
    }
  }

  /** The store taken as a register of the last end state asked for. */
  function Stored(requests: seq<Intent>): Intent {
    if requests == [] then Absent else requests[|requests| - 1]
  }

  predicate Empty(i: Intent) {
    i == Absent || i == Intent.Forgotten
  }

  /** For every run: when the player forgets the sign-in a connection runs on, then until a browser sign-in is
      offered or the game starts over, no rotation, rejection recovery or read in flight asks for anything to be
      stored or replays a token, so the store stays asked to be empty. */
  lemma {:induction false} ForgetWins(haveCredentials: bool, remembered: string, before: seq<Event>, after: seq<Event>)
    requires Run(Started(haveCredentials, remembered), before).conn.reconnecting
    requires forall i :: 0 <= i < |after| ==> !StartsOver(after[i])
    ensures var s := Step(Run(Started(haveCredentials, remembered), before), Forget);
            Harmless(s, Run(s, after)) && Empty(Stored(Run(s, after).requests))
  {
    var s0 := Started(haveCredentials, remembered);
    RunOrderly(s0, before);
    var s := Run(s0, before);
    var s1 := Step(s, Forget);
    StepOrderly(s, Forget);
    assert LeftBehind(s1);
    ForgottenRun(s1, after);
    assert s1.requests[|s1.requests| - 1] == Intent.Forgotten;
    StillEmpty(s1, Run(s1, after));
  }

  lemma {:induction false} StillEmpty(s: Auth, r: Auth)
    requires Harmless(s, r) && s.requests != [] && Empty(Stored(s.requests))
    ensures Empty(Stored(r.requests))
  {
    if |r.requests| == |s.requests| {
      assert r.requests[..|s.requests|] == r.requests;
    }
  }

  // ---- other promises ----

  /** A new sign-in attempt: what is in flight belongs to one that is over. */
  predicate NewAttempt(e: Event) {
    e.SocketReset? || (e.Default? && e.types != {})
  }

  lemma {:induction false} AttemptGrows(s: Auth, e: Event)
    ensures Step(s, e).attempt == if NewAttempt(e) then s.attempt + 1 else s.attempt
  {
    hide *;
    match e
    case ReadDone(k, success, entry, changed, secure) => AttemptRead(s, k, success, entry, changed, secure);
    case Default(_, _, _) => AttemptDefault(s, e);
    case ScheduledAttempt(_) => AttemptTimer(s, e);
    case ResultDeadline(_) => AttemptTimer(s, e);
    case _ => AttemptOther(s, e);
  }

  lemma {:induction false} AttemptDefault(s: Auth, e: Event)
    requires e.Default?
    ensures Step(s, e).attempt == if NewAttempt(e) then s.attempt + 1 else s.attempt
  {
  }

  lemma {:induction false} AttemptTimer(s: Auth, e: Event)
    requires e.ScheduledAttempt? || e.ResultDeadline?
    ensures Step(s, e).attempt == s.attempt && !NewAttempt(e)
  {
    hide OnDefault, OnResult, OnReadDone, OnSocketReset, OnToken, OnUrl, OnForget;
  }

  lemma {:induction false} AttemptOther(s: Auth, e: Event)
    requires !e.ReadDone? && !e.Default? && !e.ScheduledAttempt? && !e.ResultDeadline?
    ensures Step(s, e).attempt == if NewAttempt(e) then s.attempt + 1 else s.attempt
  {
  }

  lemma {:induction false} AttemptRead(s: Auth, k: nat, success: bool, e: Entry, changed: bool, secure: bool)
    ensures OnReadDone(s, k, success, e, changed, secure).attempt == s.attempt
    ensures Step(s, ReadDone(k, success, e, changed, secure)) == OnReadDone(s, k, success, e, changed, secure)
    ensures !NewAttempt(ReadDone(k, success, e, changed, secure))
  {
    hide *;
    ReadIs(s, k, success, e, changed, secure);
    if k < |s.readings| {
      var s1 := s.(readings := Dropped(s.readings, k));
      if s.readings[k].SignIn? {
        SignInReadSaysOrReplays(s1, s.readings[k], e, secure);
        SameAttempt(s1, OnSignInRead(s1, s.readings[k], e, secure));
      } else {
        AttemptRecovery(s1, s.readings[k], success, e, changed, secure);
      }
    }
  }

  lemma {:induction false} ReadIs(s: Auth, k: nat, success: bool, e: Entry, changed: bool, secure: bool)
    ensures !NewAttempt(ReadDone(k, success, e, changed, secure)) && !StartsOver(ReadDone(k, success, e, changed, secure))
    ensures Step(s, ReadDone(k, success, e, changed, secure)) == OnReadDone(s, k, success, e, changed, secure)
    ensures OnReadDone(s, k, success, e, changed, secure)
            == if k >= |s.readings| then s
               else if s.readings[k].SignIn? then OnSignInRead(s.(readings := Dropped(s.readings, k)), s.readings[k], e, secure)
               else OnRecoveryRead(s.(readings := Dropped(s.readings, k)), s.readings[k], success, e, changed, secure)
  {
    hide OnSignInRead, OnRecoveryRead;
  }

  lemma {:induction false} SameAttempt(s: Auth, r: Auth)
    requires OnlySaid(s, r) || Replays(s, r)
    ensures r.attempt == s.attempt
  {
  }

  lemma {:induction false} AttemptRecovery(s: Auth, g: Reading, success: bool, e: Entry, changed: bool, secure: bool)
    requires g.Recovery?
    ensures OnRecoveryRead(s, g, success, e, changed, secure).attempt == s.attempt
  {
    DeadSaid(s, g, success, e, changed);
    SelectSaid(s);
  }

  lemma {:induction false} AttemptsGrow(s: Auth, events: seq<Event>)
    ensures s.attempt <= Run(s, events).attempt
    ensures (exists i :: 0 <= i < |events| && NewAttempt(events[i])) ==> s.attempt < Run(s, events).attempt
    decreases |events|
  {
    if events != [] {
      AttemptGrows(s, events[0]);
      AttemptsGrow(Step(s, events[0]), events[1..]);
      if i :| 0 <= i < |events| && NewAttempt(events[i]) && i != 0 {
        assert events[1..][i - 1] == events[i];
      }
    }
  }

  /** For every run: a sign-in read that was in flight when a new attempt began changes nothing once it is done,
      whatever it gives and whatever else has happened. */
  lemma {:induction false} StaleSignInReadIsIgnored(haveCredentials: bool, remembered: string, before: seq<Event>,
                                                    since: seq<Event>, k: nat, success: bool, e: Entry, changed: bool, secure: bool)
    requires exists i :: 0 <= i < |since| && NewAttempt(since[i])
    requires var s := Run(Started(haveCredentials, remembered), before);
             var now := Run(s, since).readings;
             k < |now| && now[k].SignIn? && now[k] in s.readings
    ensures var r := Run(Run(Started(haveCredentials, remembered), before), since);
            Step(r, ReadDone(k, success, e, changed, secure)) == r.(readings := Dropped(r.readings, k))
  {
    var s0 := Started(haveCredentials, remembered);
    RunOrderly(s0, before);
    AttemptsGrow(Run(s0, before), since);
  }

  /** A read that recovers from a rejection and belongs to an attempt that is over sends nothing and leaves the connection
      alone; it asks for something only when it positively saw the rejected token still stored. */
  lemma {:induction false} StaleRecoveryKeepsQuiet(s: Auth, g: Reading, success: bool, e: Entry, changed: bool, secure: bool)
    requires g.Recovery? && g.attempt != s.attempt
    ensures var r := OnRecoveryRead(s, g, success, e, changed, secure);
            && r.sent == s.sent && r.conn == s.conn
            && (r.requests != s.requests ==> success && e.token == g.sentToken != "" && !changed && g.forgets == s.forgets)
  {
    if Comparable(s, g, success, e) {
      if e.token != g.sentToken {
        assert OnRotated(s, g, e, secure) == s;
      } else {
        StaleDrop(s, g, e, changed);
      }
    } else {
      DeadSaid(s, g, success, e, changed);
    }
  }

  lemma {:induction false} StaleDrop(s: Auth, g: Reading, e: Entry, changed: bool)
    requires g.Recovery? && g.attempt != s.attempt && Comparable(s, g, true, e)
    ensures var r := OnDead(s, g, true, e, changed);
            r.sent == s.sent && r.conn == s.conn && (r.requests != s.requests ==> !changed && g.forgets == s.forgets)
  {
  }

  /** A sign-in attempt that may not replay: its own reads may not, none of them recovers from a rejection, nothing awaits
      an answer, and if it is yet to come, the rejection is still to be heeded. */
  ghost predicate TokenShy(s: Auth) {
    && Orderly(s) && !s.conn.awaiting && (s.scheduled ==> s.rejected)
    && forall i :: 0 <= i < |s.readings| && s.readings[i].attempt == s.attempt ==>
         s.readings[i].SignIn? && !s.readings[i].allowToken
  }

  /** What was sent before is still the beginning, and no token has been sent since. */
  ghost predicate NoTokenSent(s: Auth, r: Auth) {
    && |s.sent| <= |r.sent| && r.sent[..|s.sent|] == s.sent
    && forall i :: |s.sent| <= i < |r.sent| ==> !r.sent[i].Reconnect?
  }

  lemma {:induction false} NoTokenTrans(a: Auth, b: Auth, c: Auth)
    requires NoTokenSent(a, b) && NoTokenSent(b, c)
    ensures NoTokenSent(a, c)
  {
    assert c.sent[..|a.sent|] == c.sent[..|b.sent|][..|a.sent|];
    forall i | |a.sent| <= i < |c.sent| ensures !c.sent[i].Reconnect? {
      assert i < |b.sent| ==> c.sent[i] == c.sent[..|b.sent|][i];
    }
  }

  lemma {:induction false} ShyAttempt(s: Auth)
    requires TokenShy(s) && s.rejected
    ensures TokenShy(AttemptReconnect(s.(scheduled := false))) && NoTokenSent(s, AttemptReconnect(s.(scheduled := false)))
    requires Orderly(s.(scheduled := false))
  {
    AttemptOrderly(s.(scheduled := false));
  }

  lemma {:induction false} ShyDefault(s: Auth, e: Event)
    requires Orderly(s) && s.rejected && e.Default? && e.types != {}
    ensures TokenShy(Step(s, e)) && NoTokenSent(s, Step(s, e))
  {
    var s2 := s.(types := e.types, clientOAuth := e.clientOAuth, offered := true, conn := NEW_CONN, attempt := s.attempt + 1);
    DefaultOrderly(s, e.types, e.clientOAuth, e.throttled);
    assert Orderly(s2) && TokenShy(s2);
    if !s2.scheduled && !e.throttled {
      assert s2.(scheduled := false) == s2;
      ShyAttempt(s2);
    }
  }

  lemma {:induction false} ShyScheduled(s: Auth, e: Event)
    requires TokenShy(s) && e.ScheduledAttempt?
    ensures TokenShy(Step(s, e)) && NoTokenSent(s, Step(s, e))
  {
    if e.which < |s.timers| {
      ScheduledOrderly(s, e.which);
      TimerGone(s.timers, s.scheduleGeneration, e.which);
      var s1 := s.(timers := Dropped(s.timers, e.which));
      if s.timers[e.which] == s.scheduleGeneration {
        assert s.scheduled && s.rejected;
        ShyAttempt(s1);
      }
    }
  }

  lemma {:induction false} ShyRead(s: Auth, e: Event)
    requires TokenShy(s) && e.ReadDone?
    ensures TokenShy(Step(s, e)) && NoTokenSent(s, Step(s, e))
  {
    if e.which < |s.readings| {
      var s1, g := s.(readings := Dropped(s.readings, e.which)), s.readings[e.which];
      ReadOrderly(s, e.which, e.success, e.entry, e.changeRequested, e.secure);
      DroppedFacts(s.readings, e.which);
      if g.SignIn? {
        ShySignIn(s1, g, e.entry, e.secure);
      } else {
        DeadSaid(s1, g, e.success, e.entry, e.changeRequested);
        assert g.attempt != s1.attempt;
        StaleRecoveryKeepsQuiet(s1, g, e.success, e.entry, e.changeRequested, e.secure);
        ShyRecovery(s1, g, e.success, e.entry, e.changeRequested, e.secure);
      }
    }
  }

  lemma {:induction false} ShySignIn(s: Auth, g: Reading, e: Entry, secure: bool)
    requires g.SignIn? && (g.attempt == s.attempt ==> !g.allowToken)
    ensures var r := OnSignInRead(s, g, e, secure);
            NoTokenSent(s, r) && r.readings == s.readings && r.attempt == s.attempt && r.conn.awaiting == s.conn.awaiting
            && r.scheduled == s.scheduled && r.rejected == s.rejected
  {
    hide *;
    SelectShy(s);
    ShySignInIs(s, g, e, secure);
  }

  lemma {:induction false} SelectShy(s: Auth)
    ensures NoTokenSent(s, s) && NoTokenSent(s, SelectMethod(s)) && SelectMethod(s) == s.(sent := SelectMethod(s).sent)
  {
  }

  lemma {:induction false} ShySignInIs(s: Auth, g: Reading, e: Entry, secure: bool)
    requires g.SignIn? && (g.attempt == s.attempt ==> !g.allowToken)
    ensures var r := OnSignInRead(s, g, e, secure);
            || r == s || r == SelectMethod(s)
            || (NoTokenSent(s, r) && r.readings == s.readings && r.attempt == s.attempt
                && r.conn.awaiting == s.conn.awaiting && r.scheduled == s.scheduled && r.rejected == s.rejected)
  {
  }

  lemma {:induction false} ShyRecovery(s: Auth, g: Reading, success: bool, e: Entry, changed: bool, secure: bool)
    requires g.Recovery? && g.attempt != s.attempt
    ensures var r := OnRecoveryRead(s, g, success, e, changed, secure);
            r.readings == s.readings && r.attempt == s.attempt && r.scheduled == s.scheduled && (s.rejected ==> r.rejected)
  {
  }

  lemma {:induction false} ShyOther(s: Auth, e: Event)
    requires TokenShy(s) && !(e.Default? && e.types != {}) && !e.ReadDone? && !e.ScheduledAttempt?
    ensures TokenShy(Step(s, e)) && NoTokenSent(s, Step(s, e))
  {
    hide *;
    ShyIs(s);
    StepOrderly(s, e);
    if e.ResultDeadline? {
      ShyDeadline(s, e);
    } else if e.Default? || e.Result? || e.SocketReset? {
      ShyFrame(s, e);
    } else if e.Token? {
      ShyToken(s, e);
    } else {
      ShyRest(s, e);
    }
    ShyAgain(s, Step(s, e));
  }

  lemma {:induction false} ShyIs(s: Auth)
    requires TokenShy(s)
    ensures Orderly(s)
  {
  }

  /** Nothing that could send a token has come about. */
  ghost predicate StaysShy(s: Auth, r: Auth) {
    && NoTokenSent(s, r) && !r.conn.awaiting && (r.scheduled ==> r.rejected)
    && forall i :: 0 <= i < |r.readings| && r.readings[i].attempt == r.attempt ==>
         r.readings[i].SignIn? && !r.readings[i].allowToken
  }

  lemma {:induction false} ShyAgain(s: Auth, r: Auth)
    requires Orderly(r) && StaysShy(s, r)
    ensures TokenShy(r) && NoTokenSent(s, r)
  {
  }

  lemma {:induction false} ShyDeadline(s: Auth, e: Event)
    requires TokenShy(s) && e.ResultDeadline?
    ensures StaysShy(s, Step(s, e))
  {
  }

  lemma {:induction false} ShyFrame(s: Auth, e: Event)
    requires TokenShy(s) && ((e.Default? && e.types == {}) || e.Result? || e.SocketReset?)
    ensures StaysShy(s, Step(s, e))
  {
  }

  lemma {:induction false} ShyToken(s: Auth, e: Event)
    requires TokenShy(s) && e.Token?
    ensures StaysShy(s, Step(s, e))
  {
  }

  lemma {:induction false} ShyRest(s: Auth, e: Event)
    requires TokenShy(s) && (e.Url? || e.ClientUrlReady? || e.Forget? || e.HintFailed?)
    ensures StaysShy(s, Step(s, e))
  {
    hide *;
    NothingBegun(s, e);
    ShyStill(s, Step(s, e));
  }

  /** Nothing is read, sent, scheduled or awaited for it. */
  ghost predicate Untouched(s: Auth, r: Auth) {
    && r.readings == s.readings && r.sent == s.sent && r.attempt == s.attempt && r.scheduled == s.scheduled
    && r.rejected == s.rejected && r.conn.awaiting == s.conn.awaiting
  }

  lemma {:induction false} NothingBegun(s: Auth, e: Event)
    requires e.Url? || e.ClientUrlReady? || e.Forget? || e.HintFailed?
    ensures Untouched(s, Step(s, e))
  {
    hide *;
    AskedIs(s, e);
    if e.Url? {
      OfferedUntouched(s, e.provider, e.valid);
    } else {
      OfferedUntouched(s, "", true);
    }
  }

  lemma {:induction false} AskedIs(s: Auth, e: Event)
    ensures e.Url? ==> Step(s, e) == OnUrl(s, e.provider, e.valid)
    ensures e.ClientUrlReady? ==> Step(s, e) == OfferSignIn(s)
    ensures e.Forget? || e.HintFailed? ==> Untouched(s, Step(s, e))
  {
    hide OnUrl, OfferSignIn, OnDefault, OnScheduledAttempt, OnResultDeadline, OnResult, OnReadDone, OnSocketReset, OnToken;
  }

  lemma {:induction false} OfferedUntouched(s: Auth, provider: string, valid: bool)
    ensures Untouched(s, OnUrl(s, provider, valid)) && Untouched(s, OfferSignIn(s))
  {
  }

  lemma {:induction false} ShyStill(s: Auth, r: Auth)
    requires TokenShy(s) && Untouched(s, r)
    ensures StaysShy(s, r)
  {
  }

  lemma {:induction false} ShyRun(s: Auth, events: seq<Event>)
    requires TokenShy(s) && forall i :: 0 <= i < |events| ==> !(events[i].Default? && events[i].types != {})
    ensures NoTokenSent(s, Run(s, events))
    decreases |events|
  {
    if events != [] {
      var e, s1 := events[0], Step(s, events[0]);
      if e.ReadDone? {
        ShyRead(s, e);
      } else if e.ScheduledAttempt? {
        ShyScheduled(s, e);
      } else {
        ShyOther(s, e);
      }
      assert forall i :: 0 <= i < |events[1..]| ==> events[1..][i] == events[i + 1];
      ShyRun(s1, events[1..]);
      NoTokenTrans(s, s1, Run(s1, events[1..]));
    }
  }

  /** For every run: after a rejection that no rotation has made good, the next sign-in attempt sends no token, from the
      offer that starts it until the next, whatever is read, times out, is asked or answered meanwhile. */
  lemma {:induction false} NoReplayAfterRejection(haveCredentials: bool, remembered: string, before: seq<Event>, offer: Event,
                                                  after: seq<Event>)
    requires Run(Started(haveCredentials, remembered), before).rejected && offer.Default? && offer.types != {}
    requires forall i :: 0 <= i < |after| ==> !(after[i].Default? && after[i].types != {})
    ensures var s := Run(Started(haveCredentials, remembered), before);
            NoTokenSent(s, Run(Step(s, offer), after))
  {
    var s := Run(Started(haveCredentials, remembered), before);
    RunOrderly(Started(haveCredentials, remembered), before);
    ShyDefault(s, offer);
    ShyRun(Step(s, offer), after);
    NoTokenTrans(s, Step(s, offer), Run(Step(s, offer), after));
  }

  /** A token goes out only where its issuer allowed it, and the replay then awaits its answer. */
  ghost predicate Allowed(s: Auth, r: Auth, e: Entry, secure: bool) {
    forall i :: |s.sent| <= i < |r.sent| && r.sent[i].Reconnect? ==>
      && r.sent[i] == Reconnect(e.account, e.token) && (e.secureOnly ==> secure)
      && r.conn.awaiting && r.conn.reconnecting && r.conn.sentToken == e.token && r.conn.forgetAtReplay == s.forgets
  }

  /** A sign-in replays only for its own attempt, when it may, and never the token known to be rejected. */
  lemma {:induction false} SignInReplayAllowed(s: Auth, g: Reading, e: Entry, secure: bool)
    requires g.SignIn?
    ensures var r := OnSignInRead(s, g, e, secure);
            && Allowed(s, r, e, secure)
            && ((exists i :: |s.sent| <= i < |r.sent| && r.sent[i].Reconnect?) ==>
                  g.allowToken && e.token != s.rememberedRejected && g.attempt == s.attempt && g.forgets == s.forgets)
  {
    SelectHarmless(s);
    var r := OnSignInRead(s, g, e, secure);
    if r.conn.awaiting && r.deadlines != s.deadlines {
      assert r.sent == s.sent + [Reconnect(e.account, e.token)];
    } else {
      SignInReadSilent(s, g, e, secure);
    }
  }

  lemma {:induction false} SignInReadSilent(s: Auth, g: Reading, e: Entry, secure: bool)
    requires g.SignIn? && !(OnSignInRead(s, g, e, secure).conn.awaiting && OnSignInRead(s, g, e, secure).deadlines != s.deadlines)
    ensures var r := OnSignInRead(s, g, e, secure);
            forall i :: |s.sent| <= i < |r.sent| ==> !r.sent[i].Reconnect?
  {
    SelectHarmless(s);
    assert |s.deadlines + [s.attempt]| != |s.deadlines|;
  }

  /** A recovery replays only a token another instance rotated in, and only once per connection. */
  lemma {:induction false} RecoveryReplayAllowed(s: Auth, g: Reading, success: bool, e: Entry, changed: bool, secure: bool)
    requires g.Recovery?
    ensures var r := OnRecoveryRead(s, g, success, e, changed, secure);
            && Allowed(s, r, e, secure)
            && ((exists i :: |s.sent| <= i < |r.sent| && r.sent[i].Reconnect?) ==>
                  !g.retried && r.conn.retriedRotated && e.token != g.sentToken && g.attempt == s.attempt)
  {
    SelectHarmless(s);
    if Comparable(s, g, success, e) && e.token != g.sentToken {
      RotatedReplay(s, g, e, secure);
    } else {
      DeadSaid(s, g, success, e, changed);
      assert OnDead(s, g, success, e, changed).sent == s.sent;
    }
  }

  lemma {:induction false} RotatedReplay(s: Auth, g: Reading, e: Entry, secure: bool)
    requires g.Recovery?
    ensures var r := OnRotated(s, g, e, secure);
            && Allowed(s, r, e, secure)
            && ((exists i :: |s.sent| <= i < |r.sent| && r.sent[i].Reconnect?) ==>
                  r.conn.retriedRotated && g.attempt == s.attempt)
  {
    SelectHarmless(s);
  }
}
