/**
 What one step of the auth code may do to the tables, whatever the request. Sessions are revoked, or one live session
 opens a new family, or one live session is rotated and replaced in its family. Token keys change only to fresh ones.
 Used tokens, challenges, codes and states stay used, or go away for good, and everything new has a fresh id. These
 effects compose: a transaction is a few table changes in a row, and its effect is put together from theirs. What holds
 of every step by them holds of every run.
 */
module AppAuthRuns {
  import opened Text
  import opened AppAuth

  // ---------- What one step may do ----------

  predicate RevokedCopy(a: Session, b: Session) {
    b == a || (a.revokedAt.None? && b.revokedAt.Some? && b == a.(revokedAt := b.revokedAt))
  }

  /** Sessions are revoked, and nothing else. */
  predicate RevokesOnly(a: map<Id, Session>, b: map<Id, Session>) {
    a.Keys == b.Keys && forall x :: x in a ==> RevokedCopy(a[x], b[x])
  }

  predicate IsLive(x: Session) {
    x.rotatedAt.None? && x.revokedAt.None? && x.replacedBy.None?
  }

  /** A live session `x` opens a family that did not exist. */
  predicate Opens(a: map<Id, Session>, b: map<Id, Session>, next: Id, x: Id) {
    x >= next && x !in a && x in b && b == a[x := b[x]] && IsLive(b[x]) && b[x].family >= next
  }

  /** The live session `x` is rotated and revoked, and the live session `y` of its family replaces it. */
  predicate Rotates(a: map<Id, Session>, b: map<Id, Session>, next: Id, x: Id, y: Id) {
    && x in a && y >= next && y !in a && y in b && x != y
    && a[x].rotatedAt.None? && a[x].revokedAt.None?
    && x in b && b == a[x := b[x]][y := b[y]]
    && b[x].rotatedAt.Some? && b[x].revokedAt.Some? && b[x].replacedBy == Some(y)
    && b[x].family == a[x].family && b[x].user == a[x].user
    && IsLive(b[y]) && b[y].family == a[x].family && b[y].user == a[x].user
  }

  ghost predicate SessionEffect(s: State, t: State) {
    || RevokesOnly(s.sessions, t.sessions)
    || (exists x :: Opens(s.sessions, t.sessions, s.next, x))
    || (exists x, y :: Rotates(s.sessions, t.sessions, s.next, x, y))
  }

  /** A token key changes only to a fresh one, and user ids are never used again. */
  ghost predicate KeyEffect(s: State, t: State) {
    forall u :: u in t.users ==>
      || t.users[u].tokenKey >= s.next
      || (u in s.users && t.users[u].tokenKey == s.users[u].tokenKey)
  }

  /** Used credentials stay used, or go away for good; new ones have fresh ids. */
  ghost predicate CredentialEffect(s: State, t: State) {
    && (forall k :: k in s.tokens ==> k in t.tokens && t.tokens[k].kind == s.tokens[k].kind &&
                                      (s.tokens[k].usedAt.Some? ==> t.tokens[k].usedAt.Some?))
    && (forall k :: k in t.tokens && k !in s.tokens ==> k >= s.next)
    && (forall k :: k in s.challenges ==> k in t.challenges && t.challenges[k].user == s.challenges[k].user &&
                                          (s.challenges[k].usedAt.Some? ==> t.challenges[k].usedAt.Some?))
    && (forall k :: k in t.challenges && k !in s.challenges ==> k >= s.next)
    && (forall k :: k in s.codes && k in t.codes && s.codes[k].usedAt.Some? ==> t.codes[k].usedAt.Some?)
    && (forall k :: k in t.codes && k !in s.codes ==> k >= s.next)
    && (forall k :: k in s.oauthStates ==>
        k in t.oauthStates && (s.oauthStates[k].usedAt.Some? ==> t.oauthStates[k].usedAt.Some?))
    && (forall k :: k in t.oauthStates && k !in s.oauthStates ==> k >= s.next)
  }

  /** Every id in use came from the counter. */
  ghost predicate Allocated(s: State) {
    && (forall u :: u in s.users ==> u < s.next && s.users[u].tokenKey < s.next)
    && (forall x :: x in s.sessions ==> x < s.next && s.sessions[x].family < s.next)
    && (forall k :: k in s.tokens ==> k < s.next)
    && (forall k :: k in s.challenges ==> k < s.next)
    && (forall k :: k in s.codes ==> k < s.next)
    && (forall k :: k in s.factors ==> s.factors[k].user < s.next)
    && (forall k :: k in s.oauthStates ==> k < s.next)
    && (forall k :: k in s.logins ==> k < s.next && s.logins[k].tokenKey < s.next)
  }

  ghost predicate Effect(s: State, t: State) {
    s.next <= t.next && SessionEffect(s, t) && KeyEffect(s, t) && CredentialEffect(s, t) && Allocated(t)
  }

  lemma CredentialEffectThen(s: State, m: State, t: State)
    requires Allocated(s) && CredentialEffect(s, m) && CredentialEffect(m, t) && s.next <= m.next
    ensures CredentialEffect(s, t)
  {
  }

  lemma SessionEffectThen(s: State, m: State, t: State)
    requires s.sessions == m.sessions && SessionEffect(m, t) && s.next <= m.next
    ensures SessionEffect(s, t)
  {
    if x :| Opens(m.sessions, t.sessions, m.next, x) {
      assert Opens(s.sessions, t.sessions, s.next, x);
    } else if x, y :| Rotates(m.sessions, t.sessions, m.next, x, y) {
      assert Rotates(s.sessions, t.sessions, s.next, x, y);
    }
  }

  /** Steps that leave the session table alone compose with any later step. */
  lemma EffectThen(s: State, m: State, t: State)
    requires Allocated(s) && Effect(s, m) && s.sessions == m.sessions && Effect(m, t)
    ensures Effect(s, t)
  {
    SessionEffectThen(s, m, t);
    CredentialEffectThen(s, m, t);
  }

  lemma NoEffect(s: State)
    requires Allocated(s)
    ensures Effect(s, s)
  {
  }

  lemma IndexHasNoEffect(s: State, t: State, byEmail: map<string, Id>)
    requires Effect(s, t)
    ensures Effect(s, t.(byEmail := byEmail))
  {
  }

  lemma UseTokenEffect(s: State, token: Id, now: Time)
    requires Allocated(s) && token in s.tokens
    ensures Effect(s, UseToken(s, token, now))
  {
  }

  lemma SetUserEffect(s: State, u: Id, user: User, byEmail: map<string, Id>)
    requires Allocated(s) && u in s.users && user.tokenKey == s.users[u].tokenKey
    ensures Effect(s, s.(users := s.users[u := user], byEmail := byEmail))
  {
  }

  lemma RevokingUserRevokesOnly(sessions: map<Id, Session>, u: Id, now: Time)
    ensures RevokesOnly(sessions, RevokeUser(sessions, u, now))
  {
  }

  lemma ExpelUserEffect(s: State, u: Id, user: User, now: Time)
    requires Allocated(s) && u in s.users
    ensures Effect(s, ExpelUser(s, u, user, now))
  {
    RevokingUserRevokesOnly(s.sessions, u, now);
  }

  lemma UseChallengeEffect(s: State, c: Id, now: Time)
    requires Allocated(s) && c in s.challenges
    ensures Effect(s, s.(challenges := s.challenges[c := s.challenges[c].(usedAt := Some(now))]))
  {
  }

  lemma UseCodeEffect(s: State, code: Id, now: Time)
    requires Allocated(s) && code in s.codes
    ensures Effect(s, s.(codes := s.codes[code := s.codes[code].(usedAt := Some(now))]))
  {
  }

  lemma NewUserEffect(s: State, user: User)
    requires Allocated(s) && user.tokenKey == s.next + 1
    ensures Effect(s, AddUser(s, user))
  {
  }

  lemma IssueTokenEffect(s: State, seen: Settings, kind: TokenKind, email: string, newEmail: string, now: Time)
    requires Allocated(s)
    ensures Effect(s, IssueToken(s, seen, kind, email, newEmail, now).0)
  {
  }

  lemma RevokesOnlyEffect(s: State, sessions: map<Id, Session>)
    requires Allocated(s) && RevokesOnly(s.sessions, sessions)
    ensures Effect(s, s.(sessions := sessions))
  {
  }

  lemma RotateEffect(s: State, x: Id, successor: Session, now: Time)
    requires Allocated(s) && x in s.sessions && s.sessions[x].rotatedAt.None? && s.sessions[x].revokedAt.None?
    requires IsLive(successor) && successor.family == s.sessions[x].family && successor.user == s.sessions[x].user
    ensures Effect(s, s.(next := s.next + 1, sessions := Rotate(s.sessions, x, s.next, successor, now)))
  {
    var t := s.(next := s.next + 1, sessions := Rotate(s.sessions, x, s.next, successor, now));
    assert t.sessions == s.sessions[x := t.sessions[x]][s.next := t.sessions[s.next]];
    assert Rotates(s.sessions, t.sessions, s.next, x, s.next);
  }

  lemma AuthenticateEffect(s: State, settings: Settings, u: Id, tokenKey: Id, now: Time)
    requires Allocated(s)
    ensures Effect(s, Authenticate(s, settings, u, tokenKey, now).0)
  {
    var t := Authenticate(s, settings, u, tokenKey, now).0;
    assert Opens(s.sessions, t.sessions, s.next, s.next + 1);
  }

  lemma LoginOrChallengeEffect(s: State, settings: Settings, u: Id, tokenKey: Id, now: Time)
    requires Allocated(s)
    ensures Effect(s, LoginOrChallenge(s, settings, u, tokenKey, now).0)
  {
    if !NeedsMfa(s, settings, u) { AuthenticateEffect(s, settings, u, tokenKey, now); }
  }

  lemma ThenAuthenticate(s: State, m: State, settings: Settings, u: Id, tokenKey: Id, now: Time)
    requires Allocated(s) && Effect(s, m) && s.sessions == m.sessions
    ensures Effect(s, Authenticate(m, settings, u, tokenKey, now).0)
  {
    AuthenticateEffect(m, settings, u, tokenKey, now);
    EffectThen(s, m, Authenticate(m, settings, u, tokenKey, now).0);
  }

  lemma ThenLogin(s: State, m: State, settings: Settings, u: Id, tokenKey: Id, now: Time)
    requires Allocated(s) && Effect(s, m) && s.sessions == m.sessions
    ensures Effect(s, LoginOrChallenge(m, settings, u, tokenKey, now).0)
  {
    LoginOrChallengeEffect(m, settings, u, tokenKey, now);
    EffectThen(s, m, LoginOrChallenge(m, settings, u, tokenKey, now).0);
  }

  lemma NewAccountEffect(s: State, seen: Settings, user: User, now: Time)
    requires Allocated(s) && user.tokenKey == s.next + 1
    ensures Effect(s, Authenticate(AddUser(s, user), seen, s.next, s.next + 1, now).0)
  {
    var m := AddUser(s, user);
    NewUserEffect(s, user);
    ThenAuthenticate(s, m, seen, s.next, s.next + 1, now);
  }

  lemma SignupEffect(s: State, seen: Settings, email: string, password: string, now: Time)
    requires Allocated(s)
    ensures Effect(s, DoSignup(s, seen, email, password, now).0)
  {
    if email in s.byEmail {
      NoEffect(s);
    } else {
      NewAccountEffect(s, seen, User(email, false, Some(password), s.next + 1, false), now);
    }
  }

  lemma BeginLoginEffect(s: State, email: string, password: string)
    requires Allocated(s)
    ensures Effect(s, DoBeginLogin(s, email, password).0)
  {
  }

  lemma LoginsHaveNoEffect(s: State, logins: map<Id, PendingLogin>)
    requires Allocated(s) && forall k :: k in logins ==> k in s.logins && logins[k] == s.logins[k]
    ensures Effect(s, s.(logins := logins))
  {
  }

  lemma FinishLoginEffect(s: State, seen: Settings, login: Id, now: Time)
    requires Allocated(s)
    ensures Effect(s, DoFinishLogin(s, seen, login, now).0)
  {
    if login !in s.logins {
      NoEffect(s);
    } else {
      var p := s.logins[login];
      var m := s.(logins := s.logins - {login});
      LoginsHaveNoEffect(s, m.logins);
      if DoFinishLogin(s, seen, login, now).1.Failed? {
        assert DoFinishLogin(s, seen, login, now).0 == m;
      } else {
        ThenLogin(s, m, seen, p.user, p.tokenKey, now);
      }
    }
  }

  lemma ReplayEffect(s: State, seen: Settings, x: Id, now: Time)
    requires Allocated(s) && x in s.sessions && s.sessions[x].rotatedAt.Some? && s.sessions[x].user in s.users
    ensures Effect(s, DoRefresh(s, seen, x, now).0)
  {
    RevokesOnlyEffect(s, RevokeFamily(s.sessions, s.sessions[x].family, now));
  }

  lemma RefreshEffect(s: State, seen: Settings, x: Id, now: Time)
    requires Allocated(s)
    ensures Effect(s, DoRefresh(s, seen, x, now).0)
  {
    if x in s.sessions && s.sessions[x].user in s.users && s.sessions[x].rotatedAt.Some? {
      ReplayEffect(s, seen, x, now);
    } else if DoRefresh(s, seen, x, now).1.Failed? {
      NoEffect(s);
    } else {
      var held := s.sessions[x];
      RotateEffect(s, x, NewSession(seen, held.user, held.family, now), now);
    }
  }

  lemma LogoutEffect(s: State, r: Request)
    requires Allocated(s) && r.Logout?
    ensures Effect(s, Apply(s, r).0)
  {
    if DoLogout(s, r.session, r.now).1.Failed? {
      NoEffect(s);
    } else {
      RevokesOnlyEffect(s, RevokeOne(s.sessions, r.session, r.now));
    }
  }

  lemma LogoutAllEffect(s: State, r: Request)
    requires Allocated(s) && r.LogoutAll?
    ensures Effect(s, Apply(s, r).0)
  {
    NoEffect(s);
    if r.user in s.users { ExpelUserEffect(s, r.user, s.users[r.user], r.now); }
  }

  lemma RevokeSessionEffect(s: State, r: Request)
    requires Allocated(s) && r.RevokeSession?
    ensures Effect(s, Apply(s, r).0)
  {
    if DoRevokeSession(s, r.claims, r.session, r.now).1.Failed? {
      NoEffect(s);
    } else {
      RevokesOnlyEffect(s, RevokeOne(s.sessions, r.session, r.now));
    }
  }

  lemma RequestTokenEffect(s: State, r: Request)
    requires Allocated(s) && r.RequestToken?
    ensures Effect(s, Apply(s, r).0)
  {
    NoEffect(s);
    IssueTokenEffect(s, r.seen, r.kind, r.email, "", r.now);
  }

  lemma RequestEmailChangeEffect(s: State, seen: Settings, u: Id, password: string, newEmail: string, now: Time)
    requires Allocated(s)
    ensures Effect(s, DoRequestEmailChange(s, seen, u, password, newEmail, now).0)
  {
    NoEffect(s);
    if u in s.users { IssueTokenEffect(s, seen, EmailChange, s.users[u].email, newEmail, now); }
  }

  lemma OtpLoginEffect(s: State, seen: Settings, email: string, token: Id, now: Time)
    requires Allocated(s)
    ensures Effect(s, DoOtpLogin(s, seen, email, token, now).0)
  {
    if DoOtpLogin(s, seen, email, token, now).1.Failed? {
      NoEffect(s);
    } else {
      var u, m := s.tokens[token].user, UseToken(s, token, now);
      UseTokenEffect(s, token, now);
      ThenLogin(s, m, seen, u, s.users[u].tokenKey, now);
    }
  }

  lemma ConfirmVerificationEffect(s: State, email: string, token: Id, now: Time)
    requires Allocated(s)
    ensures Effect(s, DoConfirmVerification(s, email, token, now).0)
  {
    if DoConfirmVerification(s, email, token, now).1 != Done {
      NoEffect(s);
    } else {
      var u, m := s.tokens[token].user, UseToken(s, token, now);
      UseTokenEffect(s, token, now);
      SetUserEffect(m, u, m.users[u].(verified := true), m.byEmail);
      EffectThen(s, m, m.(users := m.users[u := m.users[u].(verified := true)], byEmail := m.byEmail));
    }
  }

  lemma ConfirmResetEffect(s: State, email: string, token: Id, password: string, now: Time)
    requires Allocated(s)
    ensures Effect(s, DoConfirmReset(s, email, token, password, now).0)
  {
    if DoConfirmReset(s, email, token, password, now).1 != Done {
      NoEffect(s);
    } else {
      var u, m := s.tokens[token].user, UseToken(s, token, now);
      UseTokenEffect(s, token, now);
      ExpelUserEffect(m, u, s.users[u].(password := Some(password)), now);
      EffectThen(s, m, ExpelUser(m, u, s.users[u].(password := Some(password)), now));
    }
  }

  lemma EmailChangedEffect(s: State, token: Id, u: Id, user: User, byEmail: map<string, Id>, now: Time)
    requires Allocated(s) && token in s.tokens && u in s.users
    ensures Effect(s, ExpelUser(UseToken(s, token, now), u, user, now).(byEmail := byEmail))
  {
    var m := UseToken(s, token, now);
    UseTokenEffect(s, token, now);
    ExpelUserEffect(m, u, user, now);
    EffectThen(s, m, ExpelUser(m, u, user, now));
    IndexHasNoEffect(s, ExpelUser(m, u, user, now), byEmail);
  }

  lemma ConfirmEmailChangeEffect(s: State, seen: Settings, token: Id, now: Time)
    requires Allocated(s)
    ensures Effect(s, DoConfirmEmailChange(s, seen, token, now).0)
  {
    if DoConfirmEmailChange(s, seen, token, now).1 != Done {
      NoEffect(s);
    } else {
      var u, newEmail := s.tokens[token].user, s.tokens[token].newEmail;
      EmailChangedEffect(s, token, u, s.users[u].(email := newEmail, verified := true),
                         (s.byEmail - {s.users[u].email})[newEmail := u], now);
    }
  }

  lemma StartEnrollmentEffect(s: State, seen: Settings, claims: Claims, now: Time)
    requires Allocated(s)
    ensures Effect(s, DoStartEnrollment(s, seen, claims, now).0)
  {
  }

  lemma {:induction false} IssuedCodes(codes: map<Id, RecoveryCode>, u: Id, first: Id, n: nat)
    ensures var issued := IssueCodes(codes, u, first, n);
            && (forall c :: c in issued <==> c in codes || first <= c < first + n)
            && (forall c :: c in codes && !(first <= c < first + n) ==> issued[c] == codes[c])
            && (forall c :: first <= c < first + n ==> c in issued && issued[c] == RecoveryCode(u, None))
  {
    if n > 0 { IssuedCodes(codes, u, first, n - 1); }
  }

  lemma ReplaceRecoveryCodesEffect(s: State, u: Id)
    requires Allocated(s)
    ensures Effect(s, ReplaceRecoveryCodes(s, u))
  {
    IssuedCodes(CodesOfOthers(s.codes, u), u, s.next, RECOVERY_CODES);
  }

  lemma EnableFactorEffect(s: State, f: Id)
    requires Allocated(s) && f in s.factors
    ensures Effect(s, EnableFactor(s, f))
  {
  }

  lemma ConfirmEnrollmentEffect(s: State, claims: Claims, f: Id, verifies: set<Id>, now: Time)
    requires Allocated(s)
    ensures Effect(s, DoConfirmEnrollment(s, claims, f, verifies, now).0)
  {
    if DoConfirmEnrollment(s, claims, f, verifies, now).1.Failed? {
      NoEffect(s);
    } else {
      EnableFactorEffect(s, f);
      ReplaceRecoveryCodesEffect(EnableFactor(s, f), claims.user);
      EffectThen(s, EnableFactor(s, f), ReplaceRecoveryCodes(EnableFactor(s, f), claims.user));
    }
  }

  lemma MarkCodesEffect(s: State, codes: map<Id, RecoveryCode>, factors: map<Id, Factor>)
    requires Allocated(s) && codes.Keys == s.codes.Keys
    requires forall k :: k in codes && s.codes[k].usedAt.Some? ==> codes[k].usedAt.Some?
    requires forall f :: f in factors ==> factors[f].user < s.next
    ensures Effect(s, s.(factors := factors, codes := codes))
  {
  }

  lemma DisableMfaEffect(s: State, claims: Claims, verifies: set<Id>, now: Time)
    requires Allocated(s)
    ensures Effect(s, DoDisableMfa(s, claims, verifies, now).0)
  {
    var t := DoDisableMfa(s, claims, verifies, now).0;
    NoEffect(s);
    if t != s {
      MarkCodesEffect(s, t.codes, t.factors);
    }
  }

  lemma PassChallengeEffect(s: State, seen: Settings, c: Id, now: Time)
    requires Allocated(s) && c in s.challenges && s.challenges[c].user in s.users
    ensures Effect(s, PassChallenge(s, seen, c, now).0)
  {
    var u := s.challenges[c].user;
    var m := s.(challenges := s.challenges[c := s.challenges[c].(usedAt := Some(now))]);
    UseChallengeEffect(s, c, now);
    AuthenticateEffect(m, seen, u, s.users[u].tokenKey, now);
    EffectThen(s, m, PassChallenge(s, seen, c, now).0);
  }

  lemma MfaLoginEffect(s: State, seen: Settings, c: Id, verifies: set<Id>, now: Time)
    requires Allocated(s)
    ensures Effect(s, DoMfaLogin(s, seen, c, verifies, now).0)
  {
    NoEffect(s);
    if ChallengeError(s, c, now).None? { PassChallengeEffect(s, seen, c, now); }
  }

  lemma RecoveryLoginEffect(s: State, seen: Settings, c: Id, code: Id, now: Time)
    requires Allocated(s)
    ensures Effect(s, DoRecoveryLogin(s, seen, c, code, now).0)
  {
    if DoRecoveryLogin(s, seen, c, code, now).1.Failed? {
      NoEffect(s);
    } else {
      var m := s.(codes := s.codes[code := s.codes[code].(usedAt := Some(now))]);
      UseCodeEffect(s, code, now);
      PassChallengeEffect(m, seen, c, now);
      EffectThen(s, m, PassChallenge(m, seen, c, now).0);
    }
  }

  lemma StartOAuthEffect(s: State, r: Request)
    requires Allocated(s) && r.StartOAuth?
    ensures Effect(s, Apply(s, r).0)
  {
  }

  lemma ConsumeOAuthStateEffect(s: State, r: Request)
    requires Allocated(s) && r.ConsumeOAuthState?
    ensures Effect(s, Apply(s, r).0)
  {
  }

  lemma OAuthUserEffect(s: State, provider: string, profile: Profile)
    requires Allocated(s) && OAuthUser(s, provider, profile).Ok?
    ensures var (t, u) := OAuthUser(s, provider, profile).value; Effect(s, t) && t.sessions == s.sessions
  {
    var account := (provider, profile.providerUser);
    if account in s.oauthAccounts ||
        (profile.emailVerified && profile.email in s.byEmail && s.byEmail[profile.email] in s.users) {
      NoEffect(s);
      assert OAuthUser(s, provider, profile).value.0 == s;
    } else {
      NewOAuthUserEffect(s, provider, profile);
    }
  }

  lemma NewOAuthUserEffect(s: State, provider: string, profile: Profile)
    requires Allocated(s) && OAuthUser(s, provider, profile).Ok?
    requires (provider, profile.providerUser) !in s.oauthAccounts
    requires !(profile.emailVerified && profile.email in s.byEmail && s.byEmail[profile.email] in s.users)
    ensures var (t, u) := OAuthUser(s, provider, profile).value; Effect(s, t) && t.sessions == s.sessions
  {
    var user := User(profile.email, profile.emailVerified, None, s.next + 1, false);
    assert OAuthUser(s, provider, profile) == Ok((AddUser(s, user), s.next));
    NewUserEffect(s, user);
  }

  lemma LinkHasNoEffect(s: State, t: State, provider: string, profile: Profile, u: Id)
    requires Effect(s, t)
    ensures Effect(s, LinkAccount(t, provider, profile, u))
  {
  }

  lemma SpendGrantEffect(s: State, grant: Id)
    requires Allocated(s)
    ensures Effect(s, SpendGrant(s, grant))
  {
  }

  lemma LoginProfileEffect(s: State, seen: Settings, provider: string, profile: Profile, now: Time)
    requires Allocated(s)
    ensures Effect(s, LoginProfile(s, seen, provider, profile, now).0)
  {
    if LoginProfile(s, seen, provider, profile, now).1.Failed? {
      NoEffect(s);
    } else {
      var (t, u) := OAuthUser(s, provider, profile).value;
      OAuthUserEffect(s, provider, profile);
      LinkHasNoEffect(s, t, provider, profile, u);
      ThenLogin(s, LinkAccount(t, provider, profile, u), seen, u, t.users[u].tokenKey, now);
    }
  }

  lemma OAuthLoginEffect(s: State, seen: Settings, grant: Id, profile: Profile, now: Time)
    requires Allocated(s)
    ensures Effect(s, DoOAuthLogin(s, seen, grant, profile, now).0)
  {
    if grant !in s.grants {
      NoEffect(s);
    } else {
      var m := SpendGrant(s, grant);
      SpendGrantEffect(s, grant);
      LoginProfileEffect(m, seen, s.grants[grant], profile, now);
      EffectThen(s, m, LoginProfile(m, seen, s.grants[grant], profile, now).0);
    }
  }

  lemma OAuthLoginStepEffect(s: State, r: Request)
    requires Allocated(s) && r.OAuthLogin?
    ensures Effect(s, Apply(s, r).0)
  {
    var t := DoOAuthLogin(s, r.seen, r.grant, r.profile, r.now).0;
    OAuthLoginEffect(s, r.seen, r.grant, r.profile, r.now);
    assert Apply(s, r).0 == t;
  }

  lemma SetDisabledEffect(s: State, r: Request)
    requires Allocated(s) && r.SetDisabled?
    ensures Effect(s, Apply(s, r).0)
  {
    NoEffect(s);
    if r.user in s.users { SetUserEffect(s, r.user, s.users[r.user].(disabled := r.disabled), s.byEmail); }
  }

  lemma DeleteUserEffect(s: State, r: Request)
    requires Allocated(s) && r.DeleteUser?
    ensures Effect(s, Apply(s, r).0)
  {
  }

  lemma LoginStepEffect(s: State, r: Request)
    requires Allocated(s) && (r.Signup? || r.BeginLogin? || r.FinishLogin? || r.Refresh?)
    ensures Effect(s, Apply(s, r).0)
  {
    match r {
      case Signup(seen, email, password, now) => SignupEffect(s, seen, email, password, now);
      case BeginLogin(email, password) => BeginLoginEffect(s, email, password);
      case FinishLogin(seen, login, now) => FinishLoginEffect(s, seen, login, now);
      case Refresh(seen, x, now) => RefreshEffect(s, seen, x, now);
    }
  }

  lemma RequestEmailChangeStepEffect(s: State, r: Request)
    requires Allocated(s) && r.RequestEmailChange?
    ensures Effect(s, Apply(s, r).0)
  {
    RequestEmailChangeEffect(s, r.seen, r.user, r.password, r.newEmail, r.now);
  }

  lemma OtpLoginStepEffect(s: State, r: Request)
    requires Allocated(s) && r.OtpLogin?
    ensures Effect(s, Apply(s, r).0)
  {
    OtpLoginEffect(s, r.seen, r.email, r.token, r.now);
  }

  lemma ConfirmVerificationStepEffect(s: State, r: Request)
    requires Allocated(s) && r.ConfirmVerification?
    ensures Effect(s, Apply(s, r).0)
  {
    ConfirmVerificationEffect(s, r.email, r.token, r.now);
  }

  lemma ConfirmResetStepEffect(s: State, r: Request)
    requires Allocated(s) && r.ConfirmReset?
    ensures Effect(s, Apply(s, r).0)
  {
    ConfirmResetEffect(s, r.email, r.token, r.password, r.now);
  }

  lemma ConfirmEmailChangeStepEffect(s: State, r: Request)
    requires Allocated(s) && r.ConfirmEmailChange?
    ensures Effect(s, Apply(s, r).0)
  {
    ConfirmEmailChangeEffect(s, r.seen, r.token, r.now);
  }

  lemma StartEnrollmentStepEffect(s: State, r: Request)
    requires Allocated(s) && r.StartEnrollment?
    ensures Effect(s, Apply(s, r).0)
  {
    StartEnrollmentEffect(s, r.seen, r.claims, r.now);
  }

  lemma ConfirmEnrollmentStepEffect(s: State, r: Request)
    requires Allocated(s) && r.ConfirmEnrollment?
    ensures Effect(s, Apply(s, r).0)
  {
    ConfirmEnrollmentEffect(s, r.claims, r.factor, r.verifies, r.now);
  }

  lemma DisableMfaStepEffect(s: State, r: Request)
    requires Allocated(s) && r.DisableMfa?
    ensures Effect(s, Apply(s, r).0)
  {
    DisableMfaEffect(s, r.claims, r.verifies, r.now);
  }

  lemma MfaLoginStepEffect(s: State, r: Request)
    requires Allocated(s) && r.MfaLogin?
    ensures Effect(s, Apply(s, r).0)
  {
    MfaLoginEffect(s, r.seen, r.challenge, r.verifies, r.now);
  }

  lemma RecoveryLoginStepEffect(s: State, r: Request)
    requires Allocated(s) && r.RecoveryLogin?
    ensures Effect(s, Apply(s, r).0)
  {
    RecoveryLoginEffect(s, r.seen, r.challenge, r.code, r.now);
  }

  lemma SessionStepEffect(s: State, r: Request)
    requires Allocated(s)
    requires r.Logout? || r.LogoutAll? || r.RevokeSession?
    ensures Effect(s, Apply(s, r).0)
  {
    if r.Logout? {
      LogoutEffect(s, r);
    } else if r.LogoutAll? {
      LogoutAllEffect(s, r);
    } else {
      RevokeSessionEffect(s, r);
    }
  }

  predicate IsTokenStep(r: Request) {
    || r.RequestToken? || r.RequestEmailChange? || r.OtpLogin?
    || r.ConfirmVerification? || r.ConfirmReset? || r.ConfirmEmailChange?
  }

  lemma TokenStepEffect(s: State, r: Request)
    requires Allocated(s)
    requires IsTokenStep(r)
    ensures Effect(s, Apply(s, r).0)
  {
    if r.RequestToken? {
      RequestTokenEffect(s, r);
    } else if r.RequestEmailChange? {
      RequestEmailChangeStepEffect(s, r);
    } else if r.OtpLogin? {
      OtpLoginStepEffect(s, r);
    } else if r.ConfirmVerification? {
      ConfirmVerificationStepEffect(s, r);
    } else if r.ConfirmReset? {
      ConfirmResetStepEffect(s, r);
    } else {
      ConfirmEmailChangeStepEffect(s, r);
    }
  }

  lemma FactorStepEffect(s: State, r: Request)
    requires Allocated(s)
    requires r.StartEnrollment? || r.ConfirmEnrollment? || r.DisableMfa? ||
               r.MfaLogin? || r.RecoveryLogin?
    ensures Effect(s, Apply(s, r).0)
  {
    if r.StartEnrollment? {
      StartEnrollmentStepEffect(s, r);
    } else if r.ConfirmEnrollment? {
      ConfirmEnrollmentStepEffect(s, r);
    } else if r.DisableMfa? {
      DisableMfaStepEffect(s, r);
    } else if r.MfaLogin? {
      MfaLoginStepEffect(s, r);
    } else {
      RecoveryLoginStepEffect(s, r);
    }
  }

  lemma OAuthAndAdminStepEffect(s: State, r: Request)
    requires Allocated(s)
    requires r.StartOAuth? || r.ConsumeOAuthState? || r.OAuthLogin? ||
               r.SetDisabled? || r.DeleteUser?
    ensures Effect(s, Apply(s, r).0)
  {
    if r.StartOAuth? {
      StartOAuthEffect(s, r);
    } else if r.ConsumeOAuthState? {
      ConsumeOAuthStateEffect(s, r);
    } else if r.OAuthLogin? {
      OAuthLoginStepEffect(s, r);
    } else if r.SetDisabled? {
      SetDisabledEffect(s, r);
    } else {
      DeleteUserEffect(s, r);
    }
  }

  /** Every transaction has one of these effects on the tables. */
  lemma StepEffect(s: State, r: Request)
    requires Allocated(s)
    ensures Effect(s, Apply(s, r).0)
  {
    if r.ChangeSettings? {
      NoEffect(s);
    } else if r.Signup? || r.BeginLogin? || r.FinishLogin? || r.Refresh? {
      LoginStepEffect(s, r);
    } else if r.Logout? || r.LogoutAll? || r.RevokeSession? {
      SessionStepEffect(s, r);
    } else if IsTokenStep(r) {
      TokenStepEffect(s, r);
    } else if r.StartEnrollment? || r.ConfirmEnrollment? || r.DisableMfa? || r.MfaLogin? || r.RecoveryLogin? {
      FactorStepEffect(s, r);
    } else {
      OAuthAndAdminStepEffect(s, r);
    }
  }
}
