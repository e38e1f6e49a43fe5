/** The authenticator as the object it is, kept on by frames, timers, finished store reads and the player. Each handler
    is proved to do what GmcpSignIn says of it and to keep what holds of every run: so a caller knows that once the player
    has forgotten a sign-in, nothing the object is told brings it back. */
module GmcpAuthenticator {
  import opened GmcpSignIn

  /** A game that offers a way to sign in starts a new attempt. */
  function Offering(s: Auth, types: set<AuthType>, clientOAuth: bool): Auth {
    s.(types := types, clientOAuth := clientOAuth, offered := true, conn := NEW_CONN, attempt := s.attempt + 1)
  }

  function Scheduled(s: Auth, throttled: bool): Auth {
    if s.scheduled then s
    else if !throttled then AttemptReconnect(s)
    else s.(scheduled := true, timers := s.timers + [s.scheduleGeneration])
  }

  lemma {:induction false} DefaultIs(s: Auth, types: set<AuthType>, clientOAuth: bool, throttled: bool)
    ensures types != {} ==> OnDefault(s, types, clientOAuth, throttled) == Scheduled(Offering(s, types, clientOAuth), throttled)
    ensures types == {} ==>
              OnDefault(s, types, clientOAuth, throttled)
              == s.(types := types, clientOAuth := clientOAuth, scheduleGeneration := s.scheduleGeneration + 1, scheduled := false)
    ensures Step(s, Default(types, clientOAuth, throttled)) == OnDefault(s, types, clientOAuth, throttled)
    ensures types == {} ==> !StartsOver(Default(types, clientOAuth, throttled))
  {
  }

  /** The player's forgetting stands: nothing in flight can bring the sign-in back, and the store is asked to be empty. */
  ghost predicate ForgettingStands(s: Auth) {
    LeftBehind(s) && s.requests != [] && Empty(Stored(s.requests))
  }

  lemma {:induction false} HandledWell(s: Auth, e: Event)
    requires Orderly(s)
    ensures Orderly(Step(s, e))
    ensures ForgettingStands(s) && !StartsOver(e) ==> ForgettingStands(Step(s, e)) && Harmless(s, Step(s, e))
  {
    StepOrderly(s, e);
    if ForgettingStands(s) && !StartsOver(e) {
      ForgottenStep(s, e);
      StillEmpty(s, Step(s, e));
    }
  }

  lemma {:induction false} ForgettingBegins(s: Auth)
    requires Orderly(s)
    ensures Orderly(OnForget(s)) && Empty(Stored(OnForget(s).requests)) && Step(s, Forget) == OnForget(s)
    ensures s.conn.reconnecting ==> ForgettingStands(OnForget(s))
  {
    ForgetOrderly(s);
  }

  class Authenticator {
    var conn: Conn
    var reconnectRejected: bool
    var authAttemptGeneration: nat
    var forgetGeneration: nat
    var signInOffered: bool
    var supportedAuthTypes: set<AuthType>
    var clientDrivenOAuth: bool
    var haveCredentials: bool
    var signInAttemptPending: bool
    var signInScheduleGeneration: nat
    /** Timers and reads that have yet to call back, with what they captured. */
    var timers: seq<nat>
    var deadlines: seq<nat>
    var readings: seq<Reading>
    var rejectedToken: string
    /** What was asked of the store, and what was sent to the game. */
    var requests: seq<Intent>
    var sent: seq<Sent>

    constructor (haveCredentials: bool, rejectedToken: string)
      ensures State() == Started(haveCredentials, rejectedToken)
    {
      conn, reconnectRejected, authAttemptGeneration, forgetGeneration := NEW_CONN, false, 1, 0;
      signInOffered, supportedAuthTypes, clientDrivenOAuth, this.haveCredentials := false, {}, false, haveCredentials;
      signInAttemptPending, signInScheduleGeneration := false, 0;
      timers, deadlines, readings, this.rejectedToken, requests, sent := [], [], [], rejectedToken, [], [];
    }

    function State(): Auth
      reads this
    {
      Auth(conn, reconnectRejected, authAttemptGeneration, forgetGeneration, signInOffered, supportedAuthTypes,
           clientDrivenOAuth, haveCredentials, signInAttemptPending, signInScheduleGeneration, timers, deadlines,
           readings, rejectedToken, requests, sent)
    }

    ghost predicate Valid()
      reads this
    {
      Orderly(State())
    }

    /** This connection runs on a sign-in that the player has forgotten, and the forgetting stands. */
    ghost predicate Forgotten()
      reads this
    {
      ForgettingStands(State())
    }

    method ResetForNewConnection()
      requires Valid()
      modifies this
      ensures State() == OnSocketReset(old(State()))
      ensures Valid()
      ensures old(Forgotten()) ==> Forgotten() && Harmless(old(State()), State())
    {
      HandledWell(State(), SocketReset);
      signInScheduleGeneration := signInScheduleGeneration + 1;
      authAttemptGeneration := authAttemptGeneration + 1;
      signInAttemptPending := false;
      signInOffered := false;
    }

    /** Char.Login.Default. */
    method HandleDefault(types: set<AuthType>, clientOAuth: bool, throttled: bool)
      requires Valid()
      modifies this
      ensures State() == OnDefault(old(State()), types, clientOAuth, throttled)
      ensures Valid()
      ensures old(Forgotten()) && types == {} ==> Forgotten() && Harmless(old(State()), State())
    {
      hide Orderly, ForgettingStands, Harmless, AttemptReconnect, Scheduled, OnDefault, Step, StartsOver;
      HandledWell(State(), Default(types, clientOAuth, throttled));
      DefaultIs(State(), types, clientOAuth, throttled);
      supportedAuthTypes, clientDrivenOAuth := types, clientOAuth;
      if supportedAuthTypes == {} {
        signInScheduleGeneration := signInScheduleGeneration + 1;
        signInAttemptPending := false;
        return;
      }
      BeginAttempt(throttled);
    }

    method BeginAttempt(throttled: bool)
      modifies this
      ensures State() == Scheduled(Offering(old(State()), old(supportedAuthTypes), old(clientDrivenOAuth)), throttled)
    {
      hide Scheduled;
      signInOffered := true;
      conn := NEW_CONN;
      authAttemptGeneration := authAttemptGeneration + 1;
      ScheduleSignInAttempt(throttled);
    }

    method ScheduleSignInAttempt(throttled: bool)
      modifies this`reconnectRejected, this`readings, this`sent, this`signInAttemptPending, this`timers
      ensures State() == Scheduled(old(State()), throttled)
    {
      if signInAttemptPending {
        return;
      }
      if !throttled {
        TryReconnect();
        return;
      }
      signInAttemptPending := true;
      timers := timers + [signInScheduleGeneration];
    }

    method ScheduledAttemptDue(k: nat)
      requires Valid()
      requires k < |timers|
      modifies this
      ensures State() == OnScheduledAttempt(old(State()), k)
      ensures Valid()
      ensures old(Forgotten()) ==> Forgotten() && Harmless(old(State()), State())
    {
      HandledWell(State(), ScheduledAttempt(k));
      var scheduleGeneration := timers[k];
      timers := Dropped(timers, k);
      if scheduleGeneration != signInScheduleGeneration {
        return;
      }
      signInAttemptPending := false;
      TryReconnect();
    }

    method TryReconnect()
      modifies this`reconnectRejected, this`readings, this`sent
      ensures State() == AttemptReconnect(old(State()))
    {
      if reconnectRejected {
        reconnectRejected := false;
        readings := readings + [SignIn(false, authAttemptGeneration, forgetGeneration)];
        return;
      }
      if PasswordCredentials in supportedAuthTypes && haveCredentials {
        SelectAuthMethod();
        return;
      }
      readings := readings + [SignIn(true, authAttemptGeneration, forgetGeneration)];
    }

    method SelectAuthMethod()
      modifies this`sent
      ensures State() == SelectMethod(old(State()))
    {
      if PasswordCredentials in supportedAuthTypes && haveCredentials {
        sent := sent + [Credentials];
      } else if OAuth in supportedAuthTypes && clientDrivenOAuth {
        sent := sent + [StartOAuth];
      } else {
        sent := sent + [HandOff];
      }
    }

    method ResultDeadlineDue(k: nat)
      requires Valid()
      requires k < |deadlines|
      modifies this
      ensures State() == OnResultDeadline(old(State()), k)
      ensures Valid()
      ensures old(Forgotten()) ==> Forgotten() && Harmless(old(State()), State())
    {
      HandledWell(State(), ResultDeadline(k));
      var attemptGeneration := deadlines[k];
      deadlines := Dropped(deadlines, k);
      if !conn.awaiting || attemptGeneration != authAttemptGeneration {
        return;
      }
      conn := conn.(awaiting := false);
      SelectAuthMethod();
    }

    method OfferOrOpenSignInUrl()
      modifies this`conn
      ensures State() == OfferSignIn(old(State()))
    {
      conn := conn.(reconnecting := false);
    }

    /** Char.Login.URL. */
    method HandleAuthUrl(provider: string, valid: bool)
      requires Valid()
      modifies this`conn
      ensures State() == OnUrl(old(State()), provider, valid)
      ensures Valid()
      ensures old(Forgotten()) && !valid ==> Forgotten() && Harmless(old(State()), State())
    {
      HandledWell(State(), Url(provider, valid));
      if provider != "" {
        conn := conn.(provider := provider);
      }
      if !valid {
        return;
      }
      OfferOrOpenSignInUrl();
    }

    /** Char.Login.Token. */
    method HandleAuthToken(account: string, token: string, secureOnly: bool)
      requires Valid()
      modifies this`requests
      ensures State() == OnToken(old(State()), account, token, secureOnly)
      ensures Valid()
      ensures old(Forgotten()) ==> Forgotten() && Harmless(old(State()), State())
    {
      hide Orderly, ForgettingStands, Harmless;
      HandledWell(State(), Token(account, token, secureOnly));
      if !signInOffered || account == "" || token == "" {
        return;
      }
      StoreReconnectToken(account, token, secureOnly);
      assert requests == old(requests) || requests == old(requests) + [Full(account, conn.provider, secureOnly, token)];
    }

    /** A game may rotate the token it was replayed: that is stored, unless the player has forgotten the sign-in since. */
    method StoreReconnectToken(account: string, token: string, secureOnly: bool)
      requires Valid()
      modifies this`requests
      ensures old(Forgotten()) ==> requests == old(requests)
      ensures old(conn.reconnecting && conn.forgetAtReplay != forgetGeneration) ==> requests == old(requests)
      ensures !old(conn.reconnecting && conn.forgetAtReplay != forgetGeneration) ==>
                && Stored(requests) == Full(account, conn.provider, secureOnly, token)
                && |requests| == old(|requests|) + 1 && old(requests) <= requests
    {
      if conn.reconnecting && conn.forgetAtReplay != forgetGeneration {
        return;
      }
      requests := requests + [Full(account, conn.provider, secureOnly, token)];
    }

    /** Char.Login.Result. */
    method HandleAuthResult(success: bool)
      requires Valid()
      modifies this`conn, this`reconnectRejected, this`readings
      ensures State() == OnResult(old(State()), success)
      ensures Valid()
      ensures old(Forgotten()) ==> Forgotten() && Harmless(old(State()), State())
    {
      HandledWell(State(), Result(success));
      if conn.awaiting {
        conn := conn.(awaiting := false);
        if success {
          return;
        }
        RetryOrDropRejectedToken();
      }
    }

    method RetryOrDropRejectedToken()
      modifies this`reconnectRejected, this`readings
      ensures reconnectRejected
      ensures readings == old(readings) + [Recovery(authAttemptGeneration, conn.forgetAtReplay, conn.sentToken,
                                                    conn.retriedRotated, conn.account, conn.provider)]
    {
      reconnectRejected := true;
      readings := readings + [Recovery(authAttemptGeneration, conn.forgetAtReplay, conn.sentToken, conn.retriedRotated,
                                       conn.account, conn.provider)];
    }

    method SendReconnectToken(account: string, token: string, secureOnly: bool, secure: bool) returns (ok: bool)
      modifies this`sent
      ensures (State(), ok) == SendReconnect(old(State()), account, token, secureOnly, secure)
    {
      if secureOnly && !secure {
        return false;
      }
      sent := sent + [Reconnect(account, token)];
      return true;
    }

    /** What readStoredSignIn() does with what it read. */
    method SignInRead(g: Reading, e: Entry, secure: bool)
      requires g.SignIn?
      modifies this
      ensures State() == OnSignInRead(old(State()), g, e, secure)
    {
      if g.attempt != authAttemptGeneration {
        return;
      }
      if g.forgets != forgetGeneration {
        SelectAuthMethod();
        return;
      }
      if g.allowToken && e.account != "" && e.token != "" {
        var alreadyRejected := rejectedToken == e.token;
        var ok := false;
        if !alreadyRejected {
          ok := SendReconnectToken(e.account, e.token, e.secureOnly, secure);
        }
        if ok {
          conn := conn.(reconnecting := true, provider := e.provider, forgetAtReplay := forgetGeneration, awaiting := true,
                        account := e.account, sentToken := e.token);
          deadlines := deadlines + [authAttemptGeneration];
          return;
        }
      }
      if e.account != "" && e.provider != "" && OAuth in supportedAuthTypes {
        conn := conn.(provider := e.provider);
        sent := sent + [Resume(e.account, e.provider)];
        return;
      }
      SelectAuthMethod();
    }

    /** What retryOrDropRejectedToken() does with what it read. */
    method RecoveryRead(g: Reading, success: bool, e: Entry, changeRequested: bool, secure: bool)
      requires g.Recovery?
      modifies this
      ensures State() == OnRecoveryRead(old(State()), g, success, e, changeRequested, secure)
    {
      var superseded, forgotten := g.attempt != authAttemptGeneration, g.forgets != forgetGeneration;
      var rejectedTokenStillStored := false;
      if !forgotten && !g.retried && success && e.account != "" && e.token != "" {
        if g.sentToken != "" && e.token != g.sentToken {
          if superseded {
            return;
          }
          ReplayRotated(e, secure);
          return;
        }
        rejectedTokenStillStored := g.sentToken != "";
      }
      if superseded && !rejectedTokenStillStored {
        reconnectRejected := true;
        if !forgotten && (!success || e.tokenUnreadable) && g.sentToken != "" {
          rejectedToken := g.sentToken;
        }
        return;
      }
      if !forgotten && !changeRequested {
        if !success || e.tokenUnreadable {
          if g.sentToken != "" {
            rejectedToken := g.sentToken;
          }
        } else {
          DropTokenKeepResumeHint(g.account, g.provider);
        }
      }
    }

    method ReplayRotated(e: Entry, secure: bool)
      modifies this
      ensures State() == OnRotated(old(State()), Recovery(authAttemptGeneration, 0, "", false, "", ""), e, secure)
    {
      var ok := SendReconnectToken(e.account, e.token, e.secureOnly, secure);
      if ok {
        conn := conn.(retriedRotated := true, sentToken := e.token, reconnecting := true,
                      forgetAtReplay := forgetGeneration, awaiting := true, account := e.account);
        deadlines := deadlines + [authAttemptGeneration];
        reconnectRejected := false;
        return;
      }
      SelectAuthMethod();
    }

    method DropTokenKeepResumeHint(account: string, provider: string)
      modifies this`requests
      ensures State() == DropToken(old(State()), account, provider)
    {
      if account == "" || provider == "" {
        requests := requests + [Absent];
        return;
      }
      requests := requests + [Hint(account, provider)];
    }

    method ReadFinished(k: nat, success: bool, e: Entry, changeRequested: bool, secure: bool)
      requires Valid()
      requires k < |readings|
      modifies this
      ensures State() == OnReadDone(old(State()), k, success, e, changeRequested, secure)
      ensures Valid()
      ensures old(Forgotten()) ==> Forgotten() && Harmless(old(State()), State())
    {
      hide Orderly, ForgettingStands, Harmless, OnSignInRead, OnRecoveryRead, OnReadDone, Step, StartsOver, Dropped;
      ReadIs(State(), k, success, e, changeRequested, secure);
      HandledWell(State(), ReadDone(k, success, e, changeRequested, secure));
      var g := readings[k];
      readings := Dropped(readings, k);
      match g
      case SignIn(_, _, _) => SignInRead(g, e, secure);
      case Recovery(_, _, _, _, _, _) => RecoveryRead(g, success, e, changeRequested, secure);
    }

    /** The store is asked to be empty; and when the connection runs on a replayed token, that sign-in is left behind. */
    method ForgetSavedSignIn()
      requires Valid()
      modifies this`forgetGeneration, this`requests
      ensures State() == OnForget(old(State())) && Valid() && Empty(Stored(requests))
      ensures conn.reconnecting ==> Forgotten()
      ensures old(Forgotten()) ==> Harmless(old(State()), State())
    {
      ForgettingBegins(State());
      HandledWell(State(), Forget);
      forgetGeneration := forgetGeneration + 1;
      requests := requests + [Intent.Forgotten];
    }

    /** A saved hint could not be written: the whole entry goes. */
    method HintNotKept()
      requires Valid()
      modifies this`requests
      ensures State() == Step(old(State()), HintFailed)
      ensures Valid()
      ensures old(Forgotten()) ==> Forgotten() && Harmless(old(State()), State())
    {
      HandledWell(State(), HintFailed);
      requests := requests + [Absent];
    }

    /** One thing that happens; timers and reads call back only while there are any. */
    method Handle(e: Event)
      requires Valid()
      modifies this
      ensures State() == Step(old(State()), e) && Valid()
      ensures old(Forgotten()) && !StartsOver(e) ==> Forgotten() && Harmless(old(State()), State())
    {
      HandledWell(State(), e);
      match e
      case SocketReset => ResetForNewConnection();
      case Default(types, clientOAuth, throttled) => HandleDefault(types, clientOAuth, throttled);
      case ScheduledAttempt(k) => if k < |timers| { ScheduledAttemptDue(k); }
      case ResultDeadline(k) => if k < |deadlines| { ResultDeadlineDue(k); }
      case Url(provider, valid) => HandleAuthUrl(provider, valid);
      case ClientUrlReady => OfferOrOpenSignInUrl();
      case Token(account, token, secureOnly) => HandleAuthToken(account, token, secureOnly);
      case Result(success) => HandleAuthResult(success);
      case ReadDone(k, success, entry, changeRequested, secure) =>
        if k < |readings| { ReadFinished(k, success, entry, changeRequested, secure); }
      case Forget => ForgetSavedSignIn();
      case HintFailed => HintNotKept();
    }
  }

  /** The player forgets the sign-in the connection runs on. Whatever happens then, until a browser sign-in is offered or
      the game starts over: the object replays no token and asks for nothing but an empty store. */
  method ForgetAndGoOn(a: Authenticator, events: seq<Event>)
    requires a.Valid() && a.conn.reconnecting
    requires forall i :: 0 <= i < |events| ==> !StartsOver(events[i])
    modifies a
    ensures a.Valid() && a.Forgotten() && Empty(Stored(a.requests))
    ensures Harmless(OnForget(old(a.State())), a.State())
  {
    a.ForgetSavedSignIn();
    ghost var forgotten := a.State();
    for i := 0 to |events|
      invariant a.Valid() && a.Forgotten() && Harmless(forgotten, a.State())
    {
      ghost var before := a.State();
      a.Handle(events[i]);
      HarmlessTrans(forgotten, before, a.State());
    }
  }
}
