/** Login, second factor, rotation and logout (backend-core/src/auth/auth.service.ts), over the token
    registry and the second-factor accounts. Passwords, signatures and TOTP codes are judged by inputs;
    a signed token names its jti and user, and jtis are never reused (section 4.1.7 of RFC 7519). */
module Sessions {
  import opened Basics
  import opened TokenRegistry
  import TwoFactor

  const REFRESH_TTL_SECONDS: nat := 604800
  const TWOFA_PENDING_TTL: nat := 300

  datatype AuthError = Unauthorized | Unavailable | NotFound | TooManyRequests

  datatype AuthResult = Issued(jti: Jti) | Challenge | LoggedOut | Failed(error: AuthError)

  // ----- What the handlers do to the registry -----

  /** `issueTokens`: the refresh token is handed out only if its save was answered. */
  function IssueTokens(t: Tokens, jti: Jti, user: Uuid, now: nat, save: Reply): (Tokens, AuthResult) {
    (if save.Ran() then Save(t, jti, user, REFRESH_TTL_SECONDS, now) else t,
     if save.Raised() then Failed(Unavailable) else Issued(jti))
  }

  datatype RefreshReplies = RefreshReplies(check: Reply, revoke: Reply, save: Reply)

  /** `jwt` is what signature and expiry checks leave of the presented token. */
  function Refresh(t: Tokens, jwt: Option<(Jti, Uuid)>, userExists: bool, newJti: Jti, now: nat, replies: RefreshReplies): (Tokens, AuthResult) {
    if jwt.None? then (t, Failed(Unauthorized))
    else
      var (jti, user) := jwt.value;
      if replies.check.Raised() || !IsValid(t, jti, user, now) then (t, Failed(Unauthorized))
      else
        var revoked := if replies.revoke.Ran() then Revoke(t, jti) else t;
        if replies.revoke.Raised() then (revoked, Failed(Unavailable))
        else if !userExists then (revoked, Failed(Unauthorized))
        else IssueTokens(revoked, newJti, user, now, replies.save)
  }

  function VerdictError(verdict: TwoFactor.Verdict): AuthError {
    match verdict
    case Unavailable => Unavailable
    case Locked => TooManyRequests
    case UnknownUser => NotFound
    case _ => Unauthorized
  }

  /** A lock is told apart from an outage, and both from a wrong code. */
  lemma VerdictErrors(verdict: TwoFactor.Verdict)
    ensures VerdictError(verdict) == TooManyRequests <==> verdict.Locked?
    ensures VerdictError(verdict) == Unavailable <==> verdict.Unavailable?
    ensures VerdictError(verdict) == NotFound <==> verdict.UnknownUser?
  {
  }

  class AuthService {
    const tokenStore: TokenStore
    const twoFactor: TwoFactor.TwoFactorService

    constructor (tokenStore: TokenStore, twoFactor: TwoFactor.TwoFactorService)
      ensures this.tokenStore == tokenStore && this.twoFactor == twoFactor
    {
      this.tokenStore, this.twoFactor := tokenStore, twoFactor;
    }

    method Issue(user: Uuid, newJti: Jti, save: Reply) returns (result: AuthResult)
      modifies tokenStore
      ensures (tokenStore.View(), result) == IssueTokens(old(tokenStore.View()), newJti, user, tokenStore.now, save)
      ensures tokenStore.now == old(tokenStore.now)
    {
      var raised := tokenStore.SaveToken(newJti, user, REFRESH_TTL_SECONDS, save);
      result := if raised then Failed(Unavailable) else Issued(newJti);
    }

    /** `user` is the account found by e-mail, if any. */
    method Login(user: Option<Uuid>, passwordOk: bool, newJti: Jti, save: Reply) returns (result: AuthResult)
      requires user.Some? ==> user.value in twoFactor.accounts
      modifies tokenStore
      ensures (tokenStore.View(), result) ==
        if user.None? || !passwordOk then (old(tokenStore.View()), Failed(Unauthorized))
        else if twoFactor.accounts[user.value].enabled then (old(tokenStore.View()), Challenge)
        else IssueTokens(old(tokenStore.View()), newJti, user.value, old(tokenStore.now), save)
    {
      if user.None? {
        return Failed(Unauthorized);
      }
      if !passwordOk {
        return Failed(Unauthorized);
      }
      if twoFactor.accounts[user.value].enabled {
        return Challenge;
      }
      result := Issue(user.value, newJti, save);
    }

    /** `pending` is the user named by a valid step token, if the presented one is valid. */
    method CompleteTwoFactorLogin(pending: Option<Uuid>, code: TwoFactor.Code, totpOk: bool,
                                  replies: TwoFactor.Replies, newJti: Jti, save: Reply)
      returns (result: AuthResult)
      modifies tokenStore, twoFactor
      ensures
        if pending.None? then result == Failed(Unauthorized) && tokenStore.View() == old(tokenStore.View())
        else if pending.value !in old(twoFactor.accounts) then result == Failed(NotFound) && tokenStore.View() == old(tokenStore.View())
        else
          var user := pending.value;
          var (after, verdict) := TwoFactor.Verify(old(twoFactor.View(user)), old(twoFactor.now), code, totpOk, replies);
          && user in twoFactor.accounts && twoFactor.View(user) == after
          && (tokenStore.View(), result) ==
               if verdict.Accepted() then IssueTokens(old(tokenStore.View()), newJti, user, old(tokenStore.now), save)
               else (old(tokenStore.View()), Failed(VerdictError(verdict)))
    {
      if pending.None? {
        return Failed(Unauthorized);
      }
      var user := pending.value;
      var verdict := twoFactor.VerifyCode(user, code, totpOk, replies);
      if !verdict.Accepted() {
        return Failed(VerdictError(verdict));
      }
      result := Issue(user, newJti, save);
    }

    method RefreshTokens(jwt: Option<(Jti, Uuid)>, newJti: Jti, replies: RefreshReplies) returns (result: AuthResult)
      modifies tokenStore
      ensures (tokenStore.View(), result)
           == Refresh(old(tokenStore.View()), jwt, jwt.Some? && jwt.value.1 in old(twoFactor.accounts), newJti,
                      old(tokenStore.now), replies)
    {
      if jwt.None? {
        return Failed(Unauthorized);
      }
      var (jti, user) := jwt.value;
      var valid := tokenStore.CheckToken(jti, user, replies.check);
      if !valid {
        return Failed(Unauthorized);
      }
      var raised := tokenStore.RevokeToken(jti, replies.revoke);
      if raised {
        return Failed(Unavailable);
      }
      if user !in twoFactor.accounts {
        return Failed(Unauthorized);
      }
      result := Issue(user, newJti, replies.save);
    }

    /** Idempotent: neither a bad token nor Redis makes it fail. */
    method Logout(jwt: Option<(Jti, Uuid)>, revoke: Reply) returns (result: AuthResult)
      modifies tokenStore
      ensures result == LoggedOut
      ensures tokenStore.View() == if jwt.Some? && revoke.Ran() then Revoke(old(tokenStore.View()), jwt.value.0)
                                   else old(tokenStore.View())
    {
      if jwt.Some? {
        var raised := tokenStore.RevokeToken(jwt.value.0, revoke);
      }
      result := LoggedOut;
    }
  }

  // ----- Runs of atomic handlers -----

  /** `signed` maps each refresh token ever handed out to its user and expiry, `challenges` each step
      token; `used` is every jti generated. `accepted` lists the tokens refresh has rotated. `completed`
      counts logins answered with tokens, `unanswered` logins whose save ran and went unanswered. */
  datatype Auth = Auth(
    tokens: Tokens,
    now: nat,
    users: map<Uuid, TwoFactor.User>,
    signed: map<Jti, Timed<Uuid>>,
    challenges: map<nat, Timed<Uuid>>,
    used: set<Jti>,
    accepted: seq<Jti>,
    completed: multiset<Uuid>,
    unanswered: multiset<Uuid>)

  const NO_SESSIONS: Auth := Auth(NO_TOKENS, 0, map[], map[], map[], {}, [], multiset{}, multiset{})

  /** `AccountEvent` stands for everything else that happens to a user: registration, deletion, and any
      enrolment, confirmation or deactivation of the second factor. */
  datatype Event =
    | Wait(seconds: nat)
    | AccountEvent(user: Uuid, record: Option<TwoFactor.User>)
    | LoginEvent(user: Uuid, passwordOk: bool, challenge: nat, newJti: Jti, save: Reply)
    | CompleteEvent(challenge: nat, code: TwoFactor.Code, totpOk: bool, replies: TwoFactor.Replies, newJti: Jti, save: Reply)
    | RefreshEvent(presented: Jti, newJti: Jti, refreshReplies: RefreshReplies)
    | LogoutEvent(presented: Jti, revoke: Reply)

  /** Signature and expiry checks: only tokens handed out pass, until their `exp`. */
  function VerifyJwt(a: Auth, presented: Jti): Option<(Jti, Uuid)> {
    if presented in a.signed && a.signed[presented].Live(a.now) then Some((presented, a.signed[presented].value)) else None
  }

  function Opened(a: Auth, user: Uuid, newJti: Jti, save: Reply): Auth {
    var (tokens, result) := IssueTokens(a.tokens, newJti, user, a.now, save);
    a.(tokens := tokens,
       used := a.used + {newJti},
       signed := if result.Issued? then a.signed[newJti := Timed(user, a.now + REFRESH_TTL_SECONDS)] else a.signed,
       completed := if result.Issued? then a.completed + multiset{user} else a.completed,
       unanswered := if save.AnswerLost? then a.unanswered + multiset{user} else a.unanswered)
  }

  function PendingUser(a: Auth, challenge: nat): Option<Uuid> {
    if challenge in a.challenges && a.challenges[challenge].Live(a.now) then Some(a.challenges[challenge].value) else None
  }

  function RefreshResult(a: Auth, event: Event): (Tokens, AuthResult)
    requires event.RefreshEvent?
  {
    var jwt := VerifyJwt(a, event.presented);
    Refresh(a.tokens, jwt, jwt.Some? && jwt.value.1 in a.users, event.newJti, a.now, event.refreshReplies)
  }

  /** A generated jti is new. */
  function Step(a: Auth, event: Event): Auth {
    match event
    case Wait(seconds) => a.(now := a.now + seconds)
    case AccountEvent(user, record) =>
      a.(users := if record.Some? then a.users[user := record.value] else a.users - {user})
    case LoginEvent(user, passwordOk, challenge, newJti, save) =>
      if user !in a.users || !passwordOk || newJti in a.used || challenge in a.challenges then a
      else if a.users[user].account.enabled then a.(challenges := a.challenges[challenge := Timed(user, a.now + TWOFA_PENDING_TTL)])
      else Opened(a, user, newJti, save)
    case CompleteEvent(challenge, code, totpOk, replies, newJti, save) =>
      var pending := PendingUser(a, challenge);
      if pending.None? || pending.value !in a.users || newJti in a.used then a
      else
        var user := pending.value;
        var (after, verdict) := TwoFactor.Verify(a.users[user], a.now, code, totpOk, replies);
        var checked := a.(users := a.users[user := after]);
        if verdict.Accepted() then Opened(checked, user, newJti, save) else checked
    case RefreshEvent(presented, newJti, replies) =>
      if newJti in a.used then a
      else
        var (tokens, result) := RefreshResult(a, event);
        a.(tokens := tokens,
           used := a.used + {newJti},
           signed := if result.Issued? then a.signed[newJti := Timed(a.signed[presented].value, a.now + REFRESH_TTL_SECONDS)] else a.signed,
           accepted := if result.Issued? then a.accepted + [presented] else a.accepted)
    case LogoutEvent(presented, revoke) =>
      if VerifyJwt(a, presented).Some? && revoke.Ran() then a.(tokens := Revoke(a.tokens, presented)) else a
  }

  function Run(events: seq<Event>): Auth {
    Fold(Step, NO_SESSIONS, events)
  }

  // ----- Rotation conserves sessions -----

  function TokensOf(t: Tokens, user: Uuid): set<Jti> {
    set jti | jti in t.keys && t.keys[jti].value == user
  }

  ghost predicate Rotating(a: Auth) {
    && a.tokens.keys.Keys <= a.used
    && (forall jti :: jti in a.signed ==> jti in a.used)
    && (forall i :: 0 <= i < |a.accepted| ==> a.accepted[i] in a.used && a.accepted[i] !in a.tokens.keys)
    && (forall i, j :: 0 <= i < j < |a.accepted| ==> a.accepted[i] != a.accepted[j])
    && (forall jti :: jti in a.tokens.keys && jti in a.signed ==> a.tokens.keys[jti].value == a.signed[jti].value)
  }

  ghost predicate SessionsBounded(a: Auth, user: Uuid) {
    |TokensOf(a.tokens, user)| <= a.completed[user] + a.unanswered[user]
  }

  lemma TokensAfterSave(t: Tokens, jti: Jti, owner: Uuid, ttl: nat, now: nat, user: Uuid)
    requires jti !in t.keys
    ensures TokensOf(Save(t, jti, owner, ttl, now), user) == TokensOf(t, user) + if owner == user then {jti} else {}
  {
    var t' := Save(t, jti, owner, ttl, now);
    assert forall other :: other in t.keys ==> t'.keys[other] == t.keys[other];
  }

  lemma TokensAfterRevoke(t: Tokens, jti: Jti, user: Uuid)
    ensures TokensOf(Revoke(t, jti), user) == TokensOf(t, user) - {jti}
  {
    var t' := Revoke(t, jti);
    assert forall other :: other in t'.keys ==> t'.keys[other] == t.keys[other];
  }

  lemma OpenedKeepsBound(a: Auth, owner: Uuid, newJti: Jti, save: Reply, user: Uuid)
    requires newJti !in a.tokens.keys && SessionsBounded(a, user)
    ensures SessionsBounded(Opened(a, owner, newJti, save), user)
  {
    TokensAfterSave(a.tokens, newJti, owner, REFRESH_TTL_SECONDS, a.now, user);
  }

  /** What rotating a token of `owner` leaves in the registry, for any user. */
  lemma RotatedTokens(t: Tokens, jti: Jti, owner: Uuid, newJti: Jti, now: nat, user: Uuid)
    requires newJti !in t.keys && jti in t.keys && t.keys[jti].value == owner
    ensures |TokensOf(Revoke(t, jti), user)| <= |TokensOf(t, user)|
    ensures |TokensOf(Save(Revoke(t, jti), newJti, owner, REFRESH_TTL_SECONDS, now), user)| == |TokensOf(t, user)|
  {
    TokensAfterRevoke(t, jti, user);
    SubsetSize(TokensOf(t, user) - {jti}, TokensOf(t, user));
    TokensAfterSave(Revoke(t, jti), newJti, owner, REFRESH_TTL_SECONDS, now, user);
    assert jti in TokensOf(t, user) <==> owner == user;
  }

  lemma OtherLiveTokensStay(t: Tokens, jti: Jti, owner: Uuid, ttl: nat, now: nat, user: Uuid)
    requires jti !in t.keys && user != owner
    ensures LiveTokens(Save(t, jti, owner, ttl, now), user, now) == LiveTokens(t, user, now)
  {
    var t' := Save(t, jti, owner, ttl, now);
    assert forall other :: other in t.keys ==> t'.keys[other] == t.keys[other];
  }

  lemma LiveTokensAfterRevoke(t: Tokens, jti: Jti, user: Uuid, now: nat)
    ensures LiveTokens(Revoke(t, jti), user, now) == LiveTokens(t, user, now) - {jti}
  {
    RevokedAreNotLive(t, {jti}, user, now);
    assert RevokeMembers(t, {jti}) == Revoke(t, jti);
  }

  lemma RotatedLiveTokens(t: Tokens, jti: Jti, owner: Uuid, newJti: Jti, now: nat, user: Uuid)
    requires newJti !in t.keys && IsValid(t, jti, owner, now)
    ensures LiveTokens(Save(Revoke(t, jti), newJti, owner, REFRESH_TTL_SECONDS, now), user, now) ==
              if user == owner then LiveTokens(t, user, now) - {jti} + {newJti} else LiveTokens(t, user, now)
  {
    LiveTokensAfterRevoke(t, jti, user, now);
    var revoked := Revoke(t, jti);
    if user == owner {
      SavedIsLive(revoked, newJti, user, REFRESH_TTL_SECONDS, now);
    } else {
      OtherLiveTokensStay(revoked, newJti, owner, REFRESH_TTL_SECONDS, now, user);
    }
  }

  lemma SwapKeepsSize(tokens: set<Jti>, jti: Jti, newJti: Jti)
    requires jti in tokens && newJti !in tokens
    ensures |tokens - {jti} + {newJti}| == |tokens|
  {
  }

  /** Whatever Redis does, a refresh never leaves a user with more tokens than before. */
  lemma RefreshNeverAdds(t: Tokens, jwt: Option<(Jti, Uuid)>, userExists: bool, newJti: Jti, now: nat,
                         replies: RefreshReplies, user: Uuid)
    requires newJti !in t.keys
    ensures |TokensOf(Refresh(t, jwt, userExists, newJti, now, replies).0, user)| <= |TokensOf(t, user)|
  {
    if jwt.Some? && IsValid(t, jwt.value.0, jwt.value.1, now) {
      RotatedTokens(t, jwt.value.0, jwt.value.1, newJti, now, user);
    }
  }

  /** A successful refresh presented a live token and only then. */
  lemma IssuedRefreshIsARotation(t: Tokens, jti: Jti, owner: Uuid, userExists: bool, newJti: Jti, now: nat,
                                 replies: RefreshReplies)
    ensures var (t', result) := Refresh(t, Some((jti, owner)), userExists, newJti, now, replies);
      && (result == Issued(newJti) <==>
            replies == RefreshReplies(Answered, Answered, Answered) && userExists && IsValid(t, jti, owner, now))
      && (result.Issued? ==>
            result.jti == newJti && t' == Save(Revoke(t, jti), newJti, owner, REFRESH_TTL_SECONDS, now))
  {
  }

  /** A successful refresh swaps exactly one live token for one fresh one and touches nobody else's; what
      was presented is gone. */
  lemma RefreshSwapsOneToken(t: Tokens, jti: Jti, owner: Uuid, userExists: bool, newJti: Jti, now: nat,
                             replies: RefreshReplies, user: Uuid)
    requires newJti !in t.keys
    requires Refresh(t, Some((jti, owner)), userExists, newJti, now, replies).1.Issued?
    ensures var t' := Refresh(t, Some((jti, owner)), userExists, newJti, now, replies).0;
      && jti in LiveTokens(t, owner, now) && jti !in t'.keys
      && LiveTokens(t', user, now) ==
           (if user == owner then LiveTokens(t, user, now) - {jti} + {newJti} else LiveTokens(t, user, now))
      && |LiveTokens(t', user, now)| == |LiveTokens(t, user, now)|
  {
    IssuedRefreshIsARotation(t, jti, owner, userExists, newJti, now, replies);
    RotatedLiveTokens(t, jti, owner, newJti, now, user);
    if user == owner {
      SwapKeepsSize(LiveTokens(t, user, now), jti, newJti);
    }
  }

  /** A refused refresh leaves nothing new alive, unless its save ran and only the answer was lost. */
  lemma FailedRefreshAddsNothing(t: Tokens, jwt: Option<(Jti, Uuid)>, userExists: bool, newJti: Jti, now: nat,
                                 replies: RefreshReplies, user: Uuid)
    requires newJti !in t.keys && Refresh(t, jwt, userExists, newJti, now, replies).1.Failed?
    ensures LiveTokens(Refresh(t, jwt, userExists, newJti, now, replies).0, user, now)
         <= LiveTokens(t, user, now) + if replies.save.AnswerLost? then {newJti} else {}
  {
    if jwt.Some? && IsValid(t, jwt.value.0, jwt.value.1, now) {
      LiveTokensAfterRevoke(t, jwt.value.0, user, now);
      RotatedLiveTokens(t, jwt.value.0, jwt.value.1, newJti, now, user);
    }
  }

  lemma RefreshKeepsBound(a: Auth, event: Event, user: Uuid)
    requires Rotating(a) && event.RefreshEvent? && event.newJti !in a.used && SessionsBounded(a, user)
    ensures SessionsBounded(Step(a, event), user)
  {
    var jwt := VerifyJwt(a, event.presented);
    RefreshNeverAdds(a.tokens, jwt, jwt.Some? && jwt.value.1 in a.users, event.newJti, a.now, event.refreshReplies, user);
  }

  lemma CompletionKeepsBound(a: Auth, event: Event, user: Uuid)
    requires Rotating(a) && event.CompleteEvent? && SessionsBounded(a, user)
    ensures SessionsBounded(Step(a, event), user)
  {
    var pending := PendingUser(a, event.challenge);
    if pending.Some? && pending.value in a.users && event.newJti !in a.used {
      var after := TwoFactor.Verify(a.users[pending.value], a.now, event.code, event.totpOk, event.replies).0;
      OpenedKeepsBound(a.(users := a.users[pending.value := after]), pending.value, event.newJti, event.save, user);
    }
  }

  lemma LoginKeepsBound(a: Auth, event: Event, user: Uuid)
    requires Rotating(a) && event.LoginEvent? && SessionsBounded(a, user)
    ensures SessionsBounded(Step(a, event), user)
  {
    if event.newJti !in a.used {
      OpenedKeepsBound(a, event.user, event.newJti, event.save, user);
    }
  }

  lemma StepKeepsBound(a: Auth, event: Event, user: Uuid)
    requires Rotating(a) && SessionsBounded(a, user)
    ensures SessionsBounded(Step(a, event), user)
  {
    match event
    case LoginEvent(_, _, _, _, _) => LoginKeepsBound(a, event, user);
    case CompleteEvent(_, _, _, _, _, _) => CompletionKeepsBound(a, event, user);
    case RefreshEvent(_, newJti, _) =>
      if newJti !in a.used {
        RefreshKeepsBound(a, event, user);
      }
    case LogoutEvent(presented, _) =>
      TokensAfterRevoke(a.tokens, presented, user);
      SubsetSize(TokensOf(Revoke(a.tokens, presented), user), TokensOf(a.tokens, user));
    case _ =>
  }

  lemma OpenedKeepsRotating(a: Auth, owner: Uuid, newJti: Jti, save: Reply)
    requires Rotating(a) && newJti !in a.used
    ensures Rotating(Opened(a, owner, newJti, save))
  {
  }

  lemma RefreshKeepsRotating(a: Auth, event: Event)
    requires Rotating(a) && event.RefreshEvent? && event.newJti !in a.used
    ensures Rotating(Step(a, event))
  {
    var (tokens, result) := RefreshResult(a, event);
    var revoked := Revoke(a.tokens, event.presented);
    if result.Issued? {
      assert event.presented in a.tokens.keys && event.presented !in a.accepted;
      assert tokens == Save(revoked, event.newJti, a.signed[event.presented].value, REFRESH_TTL_SECONDS, a.now);
    }
  }

  lemma CompletionKeepsRotating(a: Auth, event: Event)
    requires Rotating(a) && event.CompleteEvent?
    ensures Rotating(Step(a, event))
  {
    var pending := PendingUser(a, event.challenge);
    if pending.Some? && pending.value in a.users && event.newJti !in a.used {
      var after := TwoFactor.Verify(a.users[pending.value], a.now, event.code, event.totpOk, event.replies).0;
      OpenedKeepsRotating(a.(users := a.users[pending.value := after]), pending.value, event.newJti, event.save);
    }
  }

  lemma StepKeepsRotating(a: Auth, event: Event)
    requires Rotating(a)
    ensures Rotating(Step(a, event))
  {
    match event
    case LoginEvent(owner, _, _, newJti, save) =>
      if newJti !in a.used {
        OpenedKeepsRotating(a, owner, newJti, save);
      }
    case CompleteEvent(_, _, _, _, _, _) => CompletionKeepsRotating(a, event);
    case RefreshEvent(_, newJti, _) =>
      if newJti !in a.used {
        RefreshKeepsRotating(a, event);
      }
    case _ =>
  }

  /** In every run of atomic handlers, whatever Redis does: no token is rotated twice, a rotated token is
      gone, and a user has no more live tokens than logins answered with tokens, plus logins whose save
      ran without an answer. */
  lemma {:induction false} RotationConservesSessions(events: seq<Event>, user: Uuid)
    ensures var a := Run(events);
      && Rotating(a)
      && SessionsBounded(a, user)
      && |LiveTokens(a.tokens, user, a.now)| <= a.completed[user] + a.unanswered[user]
      && (forall i, j :: 0 <= i < j < |a.accepted| ==> a.accepted[i] != a.accepted[j])
  {
    if events != [] {
      var before := Run(events[..|events| - 1]);
      RotationConservesSessions(events[..|events| - 1], user);
      StepKeepsRotating(before, events[|events| - 1]);
      StepKeepsBound(before, events[|events| - 1], user);
    }
    var a := Run(events);
    SubsetSize(LiveTokens(a.tokens, user, a.now), TokensOf(a.tokens, user));
  }

  /** Every login whose save ran was answered: the bound is by completed logins alone. */
  lemma AnsweredLoginsBoundSessions(events: seq<Event>, user: Uuid)
    requires Run(events).unanswered[user] == 0
    ensures var a := Run(events); |LiveTokens(a.tokens, user, a.now)| <= a.completed[user]
  {
    RotationConservesSessions(events, user);
  }

  /** The user has as many tokens as logins answered with tokens. */
  predicate AtTheBound(a: Auth, user: Uuid) {
    |TokensOf(a.tokens, user)| == a.completed[user]
  }

  /** A session opened at the bound by completed logins keeps it if and only if its save was not the kind
      that runs and goes unanswered. */
  lemma OpenedAtTheBound(a: Auth, owner: Uuid, newJti: Jti, save: Reply)
    requires newJti !in a.tokens.keys && AtTheBound(a, owner)
    ensures var a' := Opened(a, owner, newJti, save);
      |TokensOf(a'.tokens, owner)| <= a'.completed[owner] <==> !save.AnswerLost?
  {
    TokensAfterSave(a.tokens, newJti, owner, REFRESH_TTL_SECONDS, a.now, owner);
    assert newJti !in TokensOf(a.tokens, owner);
  }

  /** In particular for an accepted login, after any run. */
  lemma LoginAtTheBound(events: seq<Event>, login: Event)
    requires login.LoginEvent?
    requires var a := Run(events);
      && login.user in a.users && login.passwordOk && !a.users[login.user].account.enabled
      && login.newJti !in a.used && login.challenge !in a.challenges
      && AtTheBound(a, login.user)
    ensures var a' := Step(Run(events), login);
      |TokensOf(a'.tokens, login.user)| <= a'.completed[login.user] <==> !login.save.AnswerLost?
  {
    RotationConservesSessions(events, login.user);
    OpenedAtTheBound(Run(events), login.user, login.newJti, login.save);
  }

  /** A login whose save ran unanswered is a failed login with a live token: the bound by completed logins
      alone needs that no answer is lost. */
  lemma LostAnswerLeavesALiveToken(user: Uuid, record: TwoFactor.User)
    requires !record.account.enabled
    ensures var a := Run([AccountEvent(user, Some(record)), LoginEvent(user, true, 0, 1, AnswerLost)]);
      a.completed[user] == 0 && |LiveTokens(a.tokens, user, a.now)| == 1
  {
    var (e0, e1) := (AccountEvent(user, Some(record)), LoginEvent(user, true, 0, 1, AnswerLost));
    assert [e0] + [e1] == [e0, e1];
    FoldOne(Step, NO_SESSIONS, e0);
    FoldAppend(Step, NO_SESSIONS, [e0], e1);
    assert Run([e0]) == Step(NO_SESSIONS, e0);
    var a := Run([e0, e1]);
    assert a == Step(Run([e0]), e1);
    assert LiveTokens(a.tokens, user, a.now) == {1};
  }

  // ----- Lineage -----

  /** The event made `jti` for `user` from nothing but a password, with the second factor off, or from a
      step token and a code that verification accepted. */
  ghost predicate Authenticates(a: Auth, event: Event, jti: Jti, user: Uuid) {
    match event
    case LoginEvent(who, passwordOk, _, newJti, _) =>
      who == user && newJti == jti && passwordOk && user in a.users && !a.users[user].account.enabled
    case CompleteEvent(challenge, code, totpOk, replies, newJti, _) =>
      && PendingUser(a, challenge) == Some(user) && newJti == jti && user in a.users
      && TwoFactor.Verify(a.users[user], a.now, code, totpOk, replies).1.Accepted()
    case _ => false
  }

  /** `jti` came about in the run by an authentication of `user`, or by rotating a live token of `user`
      that did. */
  ghost predicate Descends(events: seq<Event>, jti: Jti, user: Uuid) {
    events != [] &&
    var (earlier, event) := (events[..|events| - 1], events[|events| - 1]);
    || Descends(earlier, jti, user)
    || Authenticates(Run(earlier), event, jti, user)
    || (&& event.RefreshEvent? && event.newJti == jti
        && IsValid(Run(earlier).tokens, event.presented, user, Run(earlier).now)
        && Descends(earlier, event.presented, user))
  }

  /** A token in the registry after a step was there before, or the step made it. */
  lemma StepMakes(a: Auth, event: Event, jti: Jti)
    requires jti in Step(a, event).tokens.keys
    ensures var user := Step(a, event).tokens.keys[jti].value;
      || (jti in a.tokens.keys && a.tokens.keys[jti].value == user)
      || Authenticates(a, event, jti, user)
      || (event.RefreshEvent? && event.newJti == jti && IsValid(a.tokens, event.presented, user, a.now))
  {
  }

  /** In every run of atomic handlers, whatever Redis does, each token in the registry descends by
      rotations from a password login made while the second factor was off, or from a completion whose
      code was accepted. */
  lemma {:induction false} EveryTokenDescends(events: seq<Event>, jti: Jti)
    requires jti in Run(events).tokens.keys
    ensures Descends(events, jti, Run(events).tokens.keys[jti].value)
    decreases |events|
  {
    var n := |events| - 1;
    var (before, event, user) := (Run(events[..n]), events[n], Run(events).tokens.keys[jti].value);
    StepMakes(before, event, jti);
    if jti in before.tokens.keys && before.tokens.keys[jti].value == user {
      EveryTokenDescends(events[..n], jti);
    } else if event.RefreshEvent? {
      EveryTokenDescends(events[..n], event.presented);
    }
  }

  /** A step keeps the step tokens, and only a password login with the second factor on makes one. */
  lemma StepChallenges(a: Auth, event: Event, challenge: nat)
    requires challenge in Step(a, event).challenges
    ensures if challenge in a.challenges then Step(a, event).challenges[challenge] == a.challenges[challenge]
            else
              && event.LoginEvent? && event.passwordOk && event.challenge == challenge
              && event.user in a.users && a.users[event.user].account.enabled
              && Step(a, event).challenges[challenge] == Timed(event.user, a.now + TWOFA_PENDING_TTL)
  {
  }

  /** And behind each step token stands a password login of the same user, made while the second factor
      was on: no completion starts from nothing. */
  lemma {:induction false} ChallengeFollowsAPassword(events: seq<Event>, challenge: nat) returns (i: nat)
    requires challenge in Run(events).challenges
    ensures i < |events| && events[i].LoginEvent? && events[i].passwordOk && events[i].challenge == challenge
    ensures var (a, user) := (Run(events[..i]), events[i].user);
      && user in a.users && a.users[user].account.enabled
      && Run(events).challenges[challenge] == Timed(user, a.now + TWOFA_PENDING_TTL)
  {
    var n := |events| - 1;
    StepChallenges(Run(events[..n]), events[n], challenge);
    if challenge in Run(events[..n]).challenges {
      i := ChallengeFollowsAPassword(events[..n], challenge);
      assert events[..n][..i] == events[..i];
    } else {
      i := n;
    }
  }

  // ----- How long a session can be continued -----

  const REFRESH_ANSWERED: RefreshReplies := RefreshReplies(Answered, Answered, Answered)

  /** The token was handed out to `user`, to last until `deadline`, and its key is still there. */
  ghost predicate Held(a: Auth, jti: Jti, user: Uuid, deadline: nat) {
    && jti in a.used && jti in a.signed && a.signed[jti] == Timed(user, deadline)
    && jti in a.tokens.keys && a.tokens.keys[jti] == Timed(user, deadline)
  }

  /** The token was handed out, and its key is gone. */
  ghost predicate Gone(a: Auth, jti: Jti) {
    jti in a.used && jti !in a.tokens.keys
  }

  predicate Presents(event: Event, jti: Jti) {
    (event.RefreshEvent? || event.LogoutEvent?) && event.presented == jti
  }

  lemma OpeningHolds(a: Auth, user: Uuid, newJti: Jti, save: Reply)
    requires newJti !in a.used
    ensures !save.Raised() ==> Held(Opened(a, user, newJti, save), newJti, user, a.now + 604800)
  {
  }

  lemma OpeningKeepsHeld(a: Auth, owner: Uuid, newJti: Jti, save: Reply, jti: Jti, user: Uuid, deadline: nat)
    requires newJti !in a.used
    ensures Held(a, jti, user, deadline) ==> Held(Opened(a, owner, newJti, save), jti, user, deadline)
    ensures Gone(a, jti) ==> Gone(Opened(a, owner, newJti, save), jti)
  {
  }

  lemma RefreshKeepsHeld(a: Auth, event: Event, jti: Jti, user: Uuid, deadline: nat)
    requires event.RefreshEvent? && event.newJti !in a.used
    ensures Held(a, jti, user, deadline) && event.presented != jti ==> Held(Step(a, event), jti, user, deadline)
    ensures Gone(a, jti) ==> Gone(Step(a, event), jti)
  {
  }

  lemma CompletionKeepsHeld(a: Auth, event: Event, jti: Jti, user: Uuid, deadline: nat)
    requires event.CompleteEvent?
    ensures Held(a, jti, user, deadline) ==> Held(Step(a, event), jti, user, deadline)
    ensures Gone(a, jti) ==> Gone(Step(a, event), jti)
  {
    var pending := PendingUser(a, event.challenge);
    if pending.Some? && pending.value in a.users && event.newJti !in a.used {
      var after := TwoFactor.Verify(a.users[pending.value], a.now, event.code, event.totpOk, event.replies).0;
      OpeningKeepsHeld(a.(users := a.users[pending.value := after]), pending.value, event.newJti, event.save, jti, user, deadline);
    }
  }

  lemma StepKeepsHeld(a: Auth, event: Event, jti: Jti, user: Uuid, deadline: nat)
    ensures Held(a, jti, user, deadline) && !Presents(event, jti) ==> Held(Step(a, event), jti, user, deadline)
    ensures Gone(a, jti) ==> Gone(Step(a, event), jti)
  {
    match event
    case LoginEvent(owner, _, _, newJti, save) =>
      if newJti !in a.used {
        OpeningKeepsHeld(a, owner, newJti, save, jti, user, deadline);
      }
    case CompleteEvent(_, _, _, _, _, _) => CompletionKeepsHeld(a, event, jti, user, deadline);
    case RefreshEvent(_, newJti, _) =>
      if newJti !in a.used {
        RefreshKeepsHeld(a, event, jti, user, deadline);
      }
    case _ =>
  }

  lemma RunLast(before: seq<Event>, after: seq<Event>)
    requires after != []
    ensures Run(before + after) == Step(Run(before + after[..|after| - 1]), after[|after| - 1])
  {
    assert before + after == before + after[..|after| - 1] + [after[|after| - 1]];
    FoldAppend(Step, NO_SESSIONS, before + after[..|after| - 1], after[|after| - 1]);
  }

  lemma {:induction false} HeldStays(before: seq<Event>, after: seq<Event>, jti: Jti, user: Uuid, deadline: nat)
    requires Held(Run(before), jti, user, deadline) && forall e :: e in after ==> !Presents(e, jti)
    ensures Held(Run(before + after), jti, user, deadline)
    decreases |after|
  {
    if after == [] {
      assert before + after == before;
    } else {
      var (earlier, last) := (after[..|after| - 1], after[|after| - 1]);
      assert last in after;
      HeldStays(before, earlier, jti, user, deadline);
      StepKeepsHeld(Run(before + earlier), last, jti, user, deadline);
      RunLast(before, after);
    }
  }

  lemma {:induction false} GoneStays(before: seq<Event>, after: seq<Event>, jti: Jti)
    requires Gone(Run(before), jti)
    ensures Gone(Run(before + after), jti)
    decreases |after|
  {
    if after == [] {
      assert before + after == before;
    } else {
      GoneStays(before, after[..|after| - 1], jti);
      StepKeepsHeld(Run(before + after[..|after| - 1]), after[|after| - 1], jti, 0, 0);
      RunLast(before, after);
    }
  }

  /** An answered refresh with a held token succeeds exactly before its deadline and while its user exists. */
  lemma HeldIsAcceptedUntil(a: Auth, jti: Jti, user: Uuid, deadline: nat, newJti: Jti)
    requires Held(a, jti, user, deadline)
    ensures RefreshResult(a, RefreshEvent(jti, newJti, REFRESH_ANSWERED)).1 ==
      if a.now < deadline && user in a.users then Issued(newJti) else Failed(Unauthorized)
  {
  }

  lemma GoneIsRefused(a: Auth, jti: Jti, newJti: Jti, replies: RefreshReplies)
    requires Gone(a, jti)
    ensures RefreshResult(a, RefreshEvent(jti, newJti, replies)).1 == Failed(Unauthorized)
  {
  }

  lemma RefreshHolds(a: Auth, event: Event, user: Uuid)
    requires event.RefreshEvent? && event.newJti !in a.used && RefreshResult(a, event).1.Issued?
    requires a.signed[event.presented].value == user
    ensures Held(Step(a, event), event.newJti, user, a.now + 604800)
  {
  }

  /** The token an accepted login or an answered refresh hands out, if not presented meanwhile, is good for
      one more refresh for exactly seven days, while its user exists. */
  lemma IssuedTokenIsGoodForSevenDays(before: seq<Event>, opening: Event, user: Uuid, jti: Jti, after: seq<Event>, newJti: Jti)
    requires jti !in Run(before).used
    requires var a := Run(before);
      || (&& opening.LoginEvent? && opening.user == user && opening.newJti == jti && opening.passwordOk && opening.save.Answered?
          && user in a.users && !a.users[user].account.enabled && opening.challenge !in a.challenges)
      || (&& opening.RefreshEvent? && opening.newJti == jti && RefreshResult(a, opening).1.Issued?
          && a.signed[opening.presented].value == user)
    requires forall e :: e in after ==> !Presents(e, jti)
    ensures var (a, a') := (Run(before), Run(before + [opening] + after));
      RefreshResult(a', RefreshEvent(jti, newJti, REFRESH_ANSWERED)).1.Issued? <==> a'.now < a.now + 604800 && user in a'.users
  {
    var a := Run(before);
    FoldAppend(Step, NO_SESSIONS, before, opening);
    if opening.LoginEvent? {
      OpeningHolds(a, user, jti, opening.save);
    } else {
      RefreshHolds(a, opening, user);
    }
    HeldStays(before + [opening], after, jti, user, a.now + 604800);
    HeldIsAcceptedUntil(Run(before + [opening] + after), jti, user, a.now + 604800, newJti);
  }

  lemma PresentedIsGone(a: Auth, ending: Event)
    requires Rotating(a)
    requires (ending.RefreshEvent? && ending.newJti !in a.used && RefreshResult(a, ending).1.Issued?)
      || (ending.LogoutEvent? && VerifyJwt(a, ending.presented).Some? && ending.revoke.Ran())
    ensures Gone(Step(a, ending), ending.presented)
  {
  }

  /** A token that was rotated, or logged out while its signature was good and the command ran, is refused ever
      after. */
  lemma PresentedTokenIsNeverAcceptedAgain(before: seq<Event>, ending: Event, after: seq<Event>, newJti: Jti, replies: RefreshReplies)
    requires var a := Run(before);
      || (ending.RefreshEvent? && ending.newJti !in a.used && RefreshResult(a, ending).1.Issued?)
      || (ending.LogoutEvent? && VerifyJwt(a, ending.presented).Some? && ending.revoke.Ran())
    ensures RefreshResult(Run(before + [ending] + after), RefreshEvent(ending.presented, newJti, replies)).1 == Failed(Unauthorized)
  {
    var a := Run(before);
    RotationConservesSessions(before, 0);
    FoldAppend(Step, NO_SESSIONS, before, ending);
    PresentedIsGone(a, ending);
    GoneStays(before + [ending], after, ending.presented);
    GoneIsRefused(Run(before + [ending] + after), ending.presented, newJti, replies);
  }

  // ----- How long a login can be completed -----

  lemma StepKeepsChallenges(a: Auth, event: Event, challenge: nat)
    requires challenge in a.challenges
    ensures challenge in Step(a, event).challenges && Step(a, event).challenges[challenge] == a.challenges[challenge]
  {
  }

  lemma {:induction false} ChallengeStays(before: seq<Event>, after: seq<Event>, challenge: nat)
    requires challenge in Run(before).challenges
    ensures challenge in Run(before + after).challenges
    ensures Run(before + after).challenges[challenge] == Run(before).challenges[challenge]
    decreases |after|
  {
    if after == [] {
      assert before + after == before;
    } else {
      var (earlier, last) := (after[..|after| - 1], after[|after| - 1]);
      ChallengeStays(before, earlier, challenge);
      RunLast(before, after);
      StepKeepsChallenges(Run(before + earlier), last, challenge);
    }
  }

  /** A password login with the second factor on hands out no token and a step token, and that one names its
      user for exactly five minutes. */
  lemma StepTokenIsGoodForFiveMinutes(before: seq<Event>, login: Event, after: seq<Event>)
    requires login.LoginEvent? && login.passwordOk
    requires var a := Run(before);
      login.user in a.users && a.users[login.user].account.enabled && login.newJti !in a.used && login.challenge !in a.challenges
    ensures Run(before + [login]).tokens == Run(before).tokens
    ensures var (a, a') := (Run(before), Run(before + [login] + after));
      PendingUser(a', login.challenge) == if a'.now < a.now + 300 then Some(login.user) else None
  {
    FoldAppend(Step, NO_SESSIONS, before, login);
    ChallengeStays(before + [login], after, login.challenge);
  }

  /** And with an accepted code and an answered save, such a completion hands out a held token. */
  lemma CompletionOpensASession(a: Auth, event: Event)
    requires event.CompleteEvent? && event.newJti !in a.used && event.save.Answered?
    requires PendingUser(a, event.challenge).Some? && PendingUser(a, event.challenge).value in a.users
    ensures var user := PendingUser(a, event.challenge).value;
      TwoFactor.Verify(a.users[user], a.now, event.code, event.totpOk, event.replies).1.Accepted()
      <==> Held(Step(a, event), event.newJti, user, a.now + 604800)
  {
    var user := PendingUser(a, event.challenge).value;
    var after := TwoFactor.Verify(a.users[user], a.now, event.code, event.totpOk, event.replies).0;
    OpeningHolds(a.(users := a.users[user := after]), user, event.newJti, event.save);
  }
}
