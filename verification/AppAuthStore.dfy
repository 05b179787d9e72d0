/**
 The auth transactions as they run: table by table, in place, against the specification in AppAuth. The object records
 the requests it has served, so that its tables are those of a run, and every request is served with the promises made
 about it.
 */
module AppAuthStore {
  import opened Text
  import opened AppAuth
  import opened AppAuthRuns
  import opened AppAuthTheorems
  import opened AppAuthLaws

  class AuthStore {
    var next: Id
    var settings: Settings
    var users: map<Id, User>
    var byEmail: map<string, Id>
    var sessions: map<Id, Session>
    var tokens: map<Id, AuthToken>
    var challenges: map<Id, Challenge>
    var factors: map<Id, Factor>
    var codes: map<Id, RecoveryCode>
    var oauthStates: map<Id, OAuthState>
    var oauthAccounts: map<(string, string), Id>
    var logins: map<Id, PendingLogin>
    var grants: map<Id, string>
    ghost var start: Settings
    ghost var history: seq<Request>

    /** The tables are those of a run of the requests served so far, so every theorem about runs is one about them. */
    ghost predicate Valid()
      reads this
    {
      Tables() == Run(Initial(start), history) && Allocated(Tables()) && Chained(sessions)
    }

    function Tables(): State
      reads this
    {
      State(next, settings, users, byEmail, sessions, tokens, challenges, factors, codes, oauthStates, oauthAccounts,
            logins, grants)
    }

    constructor (settings: Settings)
      ensures Valid() && Tables() == Initial(settings) && history == []
    {
      this.settings, start, history := settings, settings, [];
      next, users, byEmail, sessions, tokens, challenges, factors := 0, map[], map[], map[], map[], map[], map[];
      codes, oauthStates, oauthAccounts, logins, grants := map[], map[], map[], map[], map[];
    }

    method FreshId() returns (id: Id)
      modifies this`next
      ensures id == old(next) && next == old(next) + 1
    {
      id := next;
      next := next + 1;
    }

    /** Inserts a session into the given family, or into a new one. */
    method CreateAppSession(settings: Settings, user: Id, family: Option<Id>, now: Time) returns (x: Id)
      modifies this`next, this`sessions
      ensures family.None? ==> x == old(next) + 1 && next == old(next) + 2 &&
                               sessions == old(sessions)[x := NewSession(settings, user, old(next), now)]
      ensures family.Some? ==> x == old(next) && next == old(next) + 1 &&
                               sessions == old(sessions)[x := NewSession(settings, user, family.value, now)]
    {
      var f;
      if family.Some? { f := family.value; } else { f := FreshId(); }
      x := FreshId();
      sessions := sessions[x := NewSession(settings, user, f, now)];
    }

    method CreateMfaChallenge(user: Id, now: Time) returns (c: Id)
      modifies this`next, this`challenges
      ensures c == old(next) && next == old(next) + 1
      ensures challenges == old(challenges)[c := Challenge(user, now + MFA_CHALLENGE_TTL, None)]
    {
      c := FreshId();
      challenges := challenges[c := Challenge(user, now + MFA_CHALLENGE_TTL, None)];
    }

    /** Asks for the second factor, or opens a session and mints its access token. */
    method FinishLoginRoute(settings: Settings, user: Id, tokenKey: Id, now: Time) returns (reply: Reply)
      modifies this`next, this`challenges, this`sessions
      ensures (Tables(), reply) == LoginOrChallenge(old(Tables()), settings, user, tokenKey, now)
    {
      if settings.mfaEnabled && HasFactor(factors, user) {
        var c := CreateMfaChallenge(user, now);
        return MfaRequired(c);
      }
      var x := CreateAppSession(settings, user, None, now);
      return Authenticated(x, MintClaims(settings, user, tokenKey, now));
    }

    method SignupAppUser(seen: Settings, email: string, password: string, now: Time) returns (reply: Reply)
      modifies this`next, this`users, this`byEmail, this`sessions
      ensures (Tables(), reply) == DoSignup(old(Tables()), seen, email, password, now)
    {
      if email in byEmail { return Failed(UserExists); }
      var user, key := InsertUser(email, password);
      var x := CreateAppSession(seen, user, None, now);
      return Authenticated(x, MintClaims(seen, user, key, now));
    }

    method InsertUser(email: string, password: string) returns (user: Id, key: Id)
      modifies this`next, this`users, this`byEmail
      ensures user == old(next) && key == old(next) + 1 && next == old(next) + 2
      ensures users == old(users)[user := User(email, false, Some(password), key, false)]
      ensures byEmail == old(byEmail)[email := user]
    {
      user := FreshId();
      key := FreshId();
      users := users[user := User(email, false, Some(password), key, false)];
      byEmail := byEmail[email := user];
    }

    method BeginAppLogin(email: string, password: string) returns (reply: Reply)
      modifies this`next, this`logins
      ensures (Tables(), reply) == DoBeginLogin(old(Tables()), email, password)
    {
      if email !in byEmail || byEmail[email] !in users { return Failed(InvalidCredentials); }
      var user := users[byEmail[email]];
      if user.disabled { return Failed(UserDisabled); }
      if user.password != Some(password) { return Failed(InvalidCredentials); }
      var login := FreshId();
      logins := logins[login := PendingLogin(byEmail[email], user.tokenKey)];
      return CredentialsRead(login);
    }

    method FinishAppLogin(seen: Settings, login: Id, now: Time) returns (reply: Reply)
      modifies this`next, this`logins, this`challenges, this`sessions
      ensures (Tables(), reply) == DoFinishLogin(old(Tables()), seen, login, now)
    {
      if login !in logins { return Failed(InvalidCredentials); }
      var p := logins[login];
      logins := logins - {login};
      if p.user !in users || users[p.user].disabled { return Failed(UserDisabled); }
      reply := FinishLoginRoute(seen, p.user, p.tokenKey, now);
    }

    method RevokeSessionFamily(family: Id, now: Time)
      modifies this`sessions
      ensures sessions == RevokeFamily(old(sessions), family, now)
    {
      var todo := sessions.Keys;
      ghost var before := sessions;
      while todo != {}
        invariant todo <= before.Keys && sessions.Keys == before.Keys
        invariant forall x :: x in before ==>
                  sessions[x] == if x in todo then before[x] else RevokeFamily(before, family, now)[x]
      {
        var x :| x in todo;
        if sessions[x].family == family {
          sessions := sessions[x := sessions[x].(revokedAt := Coalesce(sessions[x].revokedAt, now))];
        }
        todo := todo - {x};
      }
    }

    method RevokeUserSessions(user: Id, now: Time)
      modifies this`sessions
      ensures sessions == RevokeUser(old(sessions), user, now)
    {
      var todo := sessions.Keys;
      ghost var before := sessions;
      while todo != {}
        invariant todo <= before.Keys && sessions.Keys == before.Keys
        invariant forall x :: x in before ==>
                  sessions[x] == if x in todo then before[x] else RevokeUser(before, user, now)[x]
      {
        var x :| x in todo;
        if sessions[x].user == user && sessions[x].revokedAt.None? {
          sessions := sessions[x := sessions[x].(revokedAt := Some(now))];
        }
        todo := todo - {x};
      }
    }

    method RefreshAppSession(seen: Settings, x: Id, now: Time) returns (reply: Reply)
      modifies this`next, this`sessions
      ensures (Tables(), reply) == DoRefresh(old(Tables()), seen, x, now)
    {
      if x !in sessions || sessions[x].user !in users { return Failed(InvalidRefreshToken); }
      var held := sessions[x];
      var user := users[held.user];
      if held.rotatedAt.Some? {
        RevokeSessionFamily(held.family, now);
        return Failed(InvalidRefreshToken);
      }
      if held.revokedAt.Some? || held.expiresAt <= now { return Failed(InvalidRefreshToken); }
      if user.disabled { return Failed(UserDisabled); }
      var y := CreateAppSession(seen, held.user, Some(held.family), now);
      sessions := sessions[x := held.(revokedAt := Some(now), rotatedAt := Some(now), replacedBy := Some(y))];
      return Authenticated(y, MintClaims(seen, held.user, user.tokenKey, now));
    }

    method LogoutAppSession(x: Id, now: Time) returns (reply: Reply)
      modifies this`sessions
      ensures (Tables(), reply) == DoLogout(old(Tables()), x, now)
    {
      if x !in sessions || sessions[x].user !in users { return Failed(InvalidRefreshToken); }
      if sessions[x].revokedAt.Some? || sessions[x].expiresAt <= now { return Failed(InvalidRefreshToken); }
      sessions := sessions[x := sessions[x].(revokedAt := Some(now))];
      return Done;
    }

    /** Stores the user under a fresh token key and revokes every session they hold. */
    method ExpelAppUser(u: Id, user: User, now: Time)
      requires u in users
      modifies this`next, this`users, this`sessions
      ensures Tables() == ExpelUser(old(Tables()), u, user, now)
    {
      var key := FreshId();
      users := users[u := user.(tokenKey := key)];
      RevokeUserSessions(u, now);
    }

    method LogoutAllAppSessions(u: Id, now: Time) returns (reply: Reply)
      modifies this`next, this`users, this`sessions
      ensures (Tables(), reply) == DoLogoutAll(old(Tables()), u, now)
    {
      if u !in users || users[u].disabled { return Failed(InvalidAuthToken); }
      ExpelAppUser(u, users[u], now);
      return Done;
    }

    method RevokeAppSession(claims: Claims, x: Id, now: Time) returns (reply: Reply)
      modifies this`sessions
      ensures (Tables(), reply) == DoRevokeSession(old(Tables()), claims, x, now)
    {
      var resolved := ResolveAccessToken(Tables(), claims, now);
      match resolved {
        case Err(e) => return Failed(e);
        case Ok(u) =>
          if x !in sessions || sessions[x].user != u { return Failed(Unauthorized); }
          sessions := sessions[x := sessions[x].(revokedAt := Coalesce(sessions[x].revokedAt, now))];
          return Done;
      }
    }

    method RequestAuthToken(seen: Settings, kind: TokenKind, email: string, newEmail: string, now: Time)
      returns (reply: Reply)
      modifies this`next, this`tokens
      ensures (Tables(), reply) == IssueToken(old(Tables()), seen, kind, email, newEmail, now)
    {
      if email !in byEmail || byEmail[email] !in users { return Accepted(None); }
      var u := byEmail[email];
      if users[u].disabled { return Accepted(None); }
      var token := FreshId();
      tokens := tokens[token := AuthToken(u, kind, now + TokenTtl(seen, kind), None, newEmail)];
      return Accepted(Some(token));
    }

    method RequestAppEmailChange(seen: Settings, u: Id, password: string, newEmail: string, now: Time)
      returns (reply: Reply)
      modifies this`next, this`tokens
      ensures (Tables(), reply) == DoRequestEmailChange(old(Tables()), seen, u, password, newEmail, now)
    {
      if !seen.emailChangeEnabled { return Failed(Refused); }
      if u !in users { return Failed(Unauthorized); }
      if users[u].disabled { return Failed(UserDisabled); }
      if seen.emailChangeRequiresPassword && users[u].password != Some(password) { return Failed(InvalidCredentials); }
      if newEmail in byEmail { return Failed(UserExists); }
      reply := RequestAuthToken(seen, EmailChange, users[u].email, newEmail, now);
    }

    method LoginAppUserWithOTP(seen: Settings, email: string, token: Id, now: Time) returns (reply: Reply)
      modifies this`next, this`tokens, this`challenges, this`sessions
      ensures (Tables(), reply) == DoOtpLogin(old(Tables()), seen, email, token, now)
    {
      if !seen.otpEnabled { return Failed(Refused); }
      if !KnownToken(Tables(), LoginOtp, token) { return Failed(InvalidAuthToken); }
      var u := tokens[token].user;
      if users[u].email != email { return Failed(InvalidAuthToken); }
      var error := TokenUseError(tokens[token], users[u], now);
      if error.Some? { return Failed(error.value); }
      reply := FinishLoginRoute(seen, u, users[u].tokenKey, now);
      tokens := tokens[token := tokens[token].(usedAt := Some(now))];
    }

    method ConfirmEmailVerification(email: string, token: Id, now: Time) returns (reply: Reply)
      modifies this`users, this`tokens
      ensures (Tables(), reply) == DoConfirmVerification(old(Tables()), email, token, now)
    {
      if !KnownToken(Tables(), VerifyEmail, token) { return Failed(InvalidAuthToken); }
      var u := tokens[token].user;
      if users[u].email != email { return Failed(InvalidAuthToken); }
      var error := TokenUseError(tokens[token], users[u], now);
      if error.Some? { return Failed(error.value); }
      users := users[u := users[u].(verified := true)];
      tokens := tokens[token := tokens[token].(usedAt := Some(now))];
      return Done;
    }

    method ConfirmPasswordReset(email: string, token: Id, password: string, now: Time) returns (reply: Reply)
      modifies this`next, this`users, this`sessions, this`tokens
      ensures (Tables(), reply) == DoConfirmReset(old(Tables()), email, token, password, now)
    {
      if !KnownToken(Tables(), PasswordReset, token) { return Failed(InvalidAuthToken); }
      var u := tokens[token].user;
      if users[u].email != email { return Failed(InvalidAuthToken); }
      var error := TokenUseError(tokens[token], users[u], now);
      if error.Some? { return Failed(error.value); }
      tokens := tokens[token := tokens[token].(usedAt := Some(now))];
      ExpelAppUser(u, users[u].(password := Some(password)), now);
      return Done;
    }

    method ConfirmAppEmailChange(seen: Settings, token: Id, now: Time) returns (reply: Reply)
      modifies this`next, this`users, this`byEmail, this`sessions, this`tokens
      ensures (Tables(), reply) == DoConfirmEmailChange(old(Tables()), seen, token, now)
    {
      if !seen.emailChangeEnabled { return Failed(Refused); }
      if !KnownToken(Tables(), EmailChange, token) { return Failed(InvalidAuthToken); }
      var u, newEmail := tokens[token].user, tokens[token].newEmail;
      var error := TokenUseError(tokens[token], users[u], now);
      if error.Some? { return Failed(error.value); }
      if newEmail in byEmail && byEmail[newEmail] != u { return Failed(UserExists); }
      byEmail := (byEmail - {users[u].email})[newEmail := u];
      tokens := tokens[token := tokens[token].(usedAt := Some(now))];
      ExpelAppUser(u, users[u].(email := newEmail, verified := true), now);
      return Done;
    }

    method ReplaceUserRecoveryCodes(u: Id)
      modifies this`next, this`codes
      ensures next == old(next) + RECOVERY_CODES
      ensures codes == IssueCodes(CodesOfOthers(old(codes), u), u, old(next), RECOVERY_CODES)
    {
      codes := CodesOfOthers(codes, u);
      for i := 0 to RECOVERY_CODES
        invariant next == old(next) + i
        invariant codes == IssueCodes(CodesOfOthers(old(codes), u), u, old(next), i)
      {
        var code := FreshId();
        codes := codes[code := RecoveryCode(u, None)];
      }
    }

    method ConfirmMFAEnrollment(claims: Claims, f: Id, verifies: set<Id>, now: Time) returns (reply: Reply)
      modifies this`next, this`factors, this`codes
      ensures (Tables(), reply) == DoConfirmEnrollment(old(Tables()), claims, f, verifies, now)
    {
      var resolved := ResolveAccessToken(Tables(), claims, now);
      match resolved {
        case Err(e) => return Failed(e);
        case Ok(u) =>
          if f !in factors || factors[f].user != u || factors[f].secret !in verifies {
            return Failed(InvalidAuthToken);
          }
          if exists g :: g in factors && g != f && factors[g].user == u && factors[g].enabled {
            return Failed(Refused);
          }
          factors := factors[f := factors[f].(enabled := true)];
          reply := Enrolled(next);
          ReplaceUserRecoveryCodes(u);
      }
    }

    method StartMFAEnrollment(seen: Settings, claims: Claims, now: Time) returns (reply: Reply)
      modifies this`next, this`factors
      ensures (Tables(), reply) == DoStartEnrollment(old(Tables()), seen, claims, now)
    {
      var resolved := ResolveAccessToken(Tables(), claims, now);
      match resolved {
        case Err(e) => return Failed(e);
        case Ok(u) =>
          if !seen.mfaEnabled { return Failed(Refused); }
          factors := WithoutPending(factors, u);
          var f := FreshId();
          var secret := FreshId();
          factors := factors[f := Factor(u, secret, false)];
          return EnrollmentStarted(f, secret);
      }
    }

    method DisableMFA(claims: Claims, verifies: set<Id>, now: Time) returns (reply: Reply)
      modifies this`factors, this`codes
      ensures (Tables(), reply) == DoDisableMfa(old(Tables()), claims, verifies, now)
    {
      var resolved := ResolveAccessToken(Tables(), claims, now);
      match resolved {
        case Err(e) => return Failed(e);
        case Ok(u) =>
          if !FactorVerifies(factors, u, verifies) { return Failed(InvalidAuthToken); }
          factors := DisableFactors(factors, u);
          codes := SpendCodes(codes, u, now);
          return Done;
      }
    }

    /** A challenge is passed by an authenticator code, or by a recovery code that is spent with it. */
    method VerifyMFALoginCode(seen: Settings, c: Id, verifies: set<Id>, recovery: Option<Id>, now: Time)
      returns (reply: Reply)
      modifies this`next, this`sessions, this`challenges, this`codes
      ensures recovery.None? ==> (Tables(), reply) == DoMfaLogin(old(Tables()), seen, c, verifies, now)
      ensures recovery.Some? ==> (Tables(), reply) == DoRecoveryLogin(old(Tables()), seen, c, recovery.value, now)
    {
      var error := ChallengeError(Tables(), c, now);
      if error.Some? { return Failed(error.value); }
      var u := challenges[c].user;
      if recovery.Some? {
        var code := recovery.value;
        if code !in codes || codes[code].user != u || codes[code].usedAt.Some? { return Failed(InvalidAuthToken); }
        codes := codes[code := codes[code].(usedAt := Some(now))];
      } else if !FactorVerifies(factors, u, verifies) {
        return Failed(InvalidAuthToken);
      }
      var x := CreateAppSession(seen, u, None, now);
      challenges := challenges[c := challenges[c].(usedAt := Some(now))];
      return Authenticated(x, MintClaims(seen, u, users[u].tokenKey, now));
    }

    method StartOAuthLogin(provider: string, now: Time) returns (reply: Reply)
      modifies this`next, this`oauthStates
      ensures (Tables(), reply) == DoStartOAuth(old(Tables()), provider, now)
    {
      var x := FreshId();
      oauthStates := oauthStates[x := OAuthState(provider, now + OAUTH_STATE_TTL, None)];
      return OAuthStarted(x);
    }

    method ConsumeOAuthLoginState(provider: string, x: Id, now: Time) returns (reply: Reply)
      modifies this`oauthStates, this`grants
      ensures (Tables(), reply) == DoConsumeOAuthState(old(Tables()), provider, x, now)
    {
      if x !in oauthStates || oauthStates[x].provider != provider { return Failed(InvalidAuthToken); }
      if oauthStates[x].usedAt.Some? || oauthStates[x].expiresAt <= now { return Failed(InvalidAuthToken); }
      oauthStates := oauthStates[x := oauthStates[x].(usedAt := Some(now))];
      grants := grants[x := provider];
      return OAuthGranted(x);
    }

    /** Finds the user a profile belongs to, or creates one. */
    method ResolveOAuthUser(provider: string, profile: Profile) returns (r: Result<Id, AuthError>)
      modifies this`next, this`users, this`byEmail
      ensures match OAuthUser(old(Tables()), provider, profile)
              case Err(e) => r == Err(e) && Tables() == old(Tables())
              case Ok((tables, u)) => r == Ok(u) && Tables() == tables
    {
      var account := (provider, profile.providerUser);
      if account in oauthAccounts {
        if oauthAccounts[account] !in users { return Err(Unauthorized); }
        return Ok(oauthAccounts[account]);
      }
      if profile.emailVerified && profile.email in byEmail && byEmail[profile.email] in users {
        return Ok(byEmail[profile.email]);
      }
      if profile.email in byEmail { return Err(Refused); }
      var u := FreshId();
      var key := FreshId();
      users := users[u := User(profile.email, profile.emailVerified, None, key, false)];
      byEmail := byEmail[profile.email := u];
      return Ok(u);
    }

    method LoginOAuthProfile(seen: Settings, provider: string, profile: Profile, now: Time) returns (reply: Reply)
      modifies this`next, this`users, this`byEmail, this`oauthAccounts, this`challenges, this`sessions
      ensures (Tables(), reply) == LoginProfile(old(Tables()), seen, provider, profile, now)
    {
      if profile.email == "" { return Failed(Refused); }
      var found := ResolveOAuthUser(provider, profile);
      match found {
        case Err(e) => return Failed(e);
        case Ok(u) =>
          if users[u].disabled {
            NewUsersAreEnabled(old(Tables()), provider, profile);
            return Failed(UserDisabled);
          }
          oauthAccounts := oauthAccounts[(provider, profile.providerUser) := u];
          reply := FinishLoginRoute(seen, u, users[u].tokenKey, now);
      }
    }

    /** The provider's answer to a consumed state ends in at most one login. */
    method FinishOAuthLogin(seen: Settings, grant: Id, profile: Profile, now: Time) returns (reply: Reply)
      modifies this`next, this`users, this`byEmail, this`oauthAccounts, this`challenges, this`sessions, this`grants
      ensures (Tables(), reply) == DoOAuthLogin(old(Tables()), seen, grant, profile, now)
    {
      if grant !in grants { return Failed(InvalidAuthToken); }
      var provider := grants[grant];
      grants := grants - {grant};
      reply := LoginOAuthProfile(seen, provider, profile, now);
    }

    method RequestToken(seen: Settings, kind: TokenKind, email: string, now: Time) returns (reply: Reply)
      modifies this`next, this`tokens
      ensures (Tables(), reply) == DoRequestToken(old(Tables()), seen, kind, email, now)
    {
      if kind == EmailChange || (kind == LoginOtp && !seen.otpEnabled) { return Failed(Refused); }
      reply := RequestAuthToken(seen, kind, email, "", now);
    }

    method SetDisabled(u: Id, disabled: bool) returns (reply: Reply)
      modifies this`users
      ensures (Tables(), reply) == DoSetDisabled(old(Tables()), u, disabled)
    {
      if u !in users { return Failed(Unauthorized); }
      users := users[u := users[u].(disabled := disabled)];
      return Done;
    }

    method DeleteUser(u: Id) returns (reply: Reply)
      modifies this`users, this`byEmail
      ensures (Tables(), reply) == DoDeleteUser(old(Tables()), u)
    {
      if u !in users { return Failed(Unauthorized); }
      byEmail := byEmail - {users[u].email};
      users := users - {u};
      return Done;
    }

    // ---------- Any request ----------

    method ServeLogin(r: Request) returns (reply: Reply)
      requires r.Signup? || r.BeginLogin? || r.FinishLogin? || r.OtpLogin? || r.OAuthLogin?
      modifies this`next, this`users, this`byEmail, this`oauthAccounts, this`sessions
      modifies this`tokens, this`challenges, this`logins, this`grants
      ensures (Tables(), reply) == Apply(old(Tables()), r)
    {
      match r {
        case Signup(seen, email, password, now) => reply := SignupAppUser(seen, email, password, now);
        case BeginLogin(email, password) => reply := BeginAppLogin(email, password);
        case FinishLogin(seen, login, now) => reply := FinishAppLogin(seen, login, now);
        case OtpLogin(seen, email, token, now) => reply := LoginAppUserWithOTP(seen, email, token, now);
        case OAuthLogin(seen, grant, profile, now) => reply := FinishOAuthLogin(seen, grant, profile, now);
      }
    }

    method ServeSession(r: Request) returns (reply: Reply)
      requires r.Refresh? || r.Logout? || r.LogoutAll? || r.RevokeSession?
      modifies this`next, this`users, this`sessions
      ensures (Tables(), reply) == Apply(old(Tables()), r)
    {
      match r {
        case Refresh(seen, x, now) => reply := RefreshAppSession(seen, x, now);
        case Logout(x, now) => reply := LogoutAppSession(x, now);
        case LogoutAll(u, now) => reply := LogoutAllAppSessions(u, now);
        case RevokeSession(claims, x, now) => reply := RevokeAppSession(claims, x, now);
      }
    }

    method ServeToken(r: Request) returns (reply: Reply)
      requires IsTokenStep(r) && !r.OtpLogin?
      modifies this`next, this`users, this`byEmail, this`sessions, this`tokens
      ensures (Tables(), reply) == Apply(old(Tables()), r)
    {
      match r {
        case RequestToken(seen, kind, email, now) => reply := RequestToken(seen, kind, email, now);
        case RequestEmailChange(seen, u, password, newEmail, now) =>
          reply := RequestAppEmailChange(seen, u, password, newEmail, now);
        case ConfirmVerification(email, token, now) => reply := ConfirmEmailVerification(email, token, now);
        case ConfirmReset(email, token, password, now) => reply := ConfirmPasswordReset(email, token, password, now);
        case ConfirmEmailChange(seen, token, now) => reply := ConfirmAppEmailChange(seen, token, now);
      }
    }

    method ServeFactor(r: Request) returns (reply: Reply)
      requires r.StartEnrollment? || r.ConfirmEnrollment? || r.DisableMfa?
      modifies this`next, this`factors, this`codes
      ensures (Tables(), reply) == Apply(old(Tables()), r)
    {
      match r {
        case StartEnrollment(seen, claims, now) => reply := StartMFAEnrollment(seen, claims, now);
        case ConfirmEnrollment(claims, f, verifies, now) => reply := ConfirmMFAEnrollment(claims, f, verifies, now);
        case DisableMfa(claims, verifies, now) => reply := DisableMFA(claims, verifies, now);
      }
    }

    method ServeChallenge(r: Request) returns (reply: Reply)
      requires r.MfaLogin? || r.RecoveryLogin?
      modifies this`next, this`sessions, this`challenges, this`codes
      ensures (Tables(), reply) == Apply(old(Tables()), r)
    {
      match r {
        case MfaLogin(seen, c, verifies, now) => reply := VerifyMFALoginCode(seen, c, verifies, None, now);
        case RecoveryLogin(seen, c, code, now) => reply := VerifyMFALoginCode(seen, c, {}, Some(code), now);
      }
    }

    method ServeOAuth(r: Request) returns (reply: Reply)
      requires r.StartOAuth? || r.ConsumeOAuthState?
      modifies this`next, this`oauthStates, this`grants
      ensures (Tables(), reply) == Apply(old(Tables()), r)
    {
      match r {
        case StartOAuth(provider, now) => reply := StartOAuthLogin(provider, now);
        case ConsumeOAuthState(provider, x, now) => reply := ConsumeOAuthLoginState(provider, x, now);
      }
    }

    method ServeAdmin(r: Request) returns (reply: Reply)
      requires r.ChangeSettings? || r.SetDisabled? || r.DeleteUser?
      modifies this`settings, this`users, this`byEmail
      ensures (Tables(), reply) == Apply(old(Tables()), r)
    {
      match r {
        case ChangeSettings(changed) => settings := changed; reply := Done;
        case SetDisabled(u, disabled) => reply := SetDisabled(u, disabled);
        case DeleteUser(u) => reply := DeleteUser(u);
      }
    }

    method Dispatch(r: Request) returns (reply: Reply)
      modifies this`next, this`settings, this`users, this`byEmail, this`sessions, this`tokens, this`challenges
      modifies this`factors, this`codes, this`oauthStates, this`oauthAccounts, this`logins, this`grants
      ensures (Tables(), reply) == Apply(old(Tables()), r)
    {
      if r.Signup? || r.BeginLogin? || r.FinishLogin? || r.OtpLogin? || r.OAuthLogin? {
        reply := ServeLogin(r);
      } else if r.Refresh? || r.Logout? || r.LogoutAll? || r.RevokeSession? {
        reply := ServeSession(r);
      } else if IsTokenStep(r) {
        reply := ServeToken(r);
      } else if r.StartEnrollment? || r.ConfirmEnrollment? || r.DisableMfa? {
        reply := ServeFactor(r);
      } else if r.MfaLogin? || r.RecoveryLogin? {
        reply := ServeChallenge(r);
      } else if r.StartOAuth? || r.ConsumeOAuthState? {
        reply := ServeOAuth(r);
      } else {
        reply := ServeAdmin(r);
      }
    }

    /** Serves a request, records it and keeps the promises made about it. */
    method Serve(r: Request) returns (reply: Reply)
      requires Valid()
      modifies this
      ensures Valid() && start == old(start) && history == old(history) + [r]
      ensures (Tables(), reply) == Apply(old(Tables()), r)
      ensures KeepsPromises(old(Tables()), Tables(), reply, r)
    {
      ghost var s := Tables();
      reply := Dispatch(r);
      history := history + [r];
      ServedKeepsValid(s, Tables(), start, old(history), r);
      ServedKeepsPromises(s, r);
    }
  }

  /** The request presents a refresh token that was rotated before. */
  predicate Replays(s: State, r: Request) {
    && r.Refresh? && r.session in s.sessions
    && s.sessions[r.session].rotatedAt.Some? && s.sessions[r.session].user in s.users
  }

  lemma ServedKeepsValid(s: State, t: State, start: Settings, history: seq<Request>, r: Request)
    requires s == Run(Initial(start), history) && t == Apply(s, r).0
    requires Allocated(s) && Chained(s.sessions)
    ensures t == Run(Initial(start), history + [r]) && Allocated(t) && Chained(t.sessions)
  {
    RunConcat(Initial(start), history, [r]);
    StepEffect(s, r);
    StepKeepsChains(s, r);
  }

  /** A replayed token kills its family, an expulsion leaves the user's earlier sessions and keys dead, the session
      handed out is the one added, a credential is found unused and left used, and a family opened under MFA is paid for
      unless the login missed it. */
  ghost predicate KeepsPromises(s: State, t: State, reply: Reply, r: Request) {
    && (Replays(s, r) ==> reply == Failed(InvalidRefreshToken) && Dead(t, s.sessions[r.session].family))
    && (ExpelledBy(s, r).Some? ==> Expelled(t, ExpelledBy(s, r).value, s.next))
    && HandsOutItsSession(s, t, reply)
    && (forall c :: SucceedsWith(s, r, c) ==> Unused(s, c) && !Unused(t, c))
    && (forall x :: OpensUnderMfa(s, r, x) ==> ((exists c :: PaysFor(s, r, c, x)) <==> !SawMfaOff(r)))
  }

  lemma ServedKeepsPromises(s: State, r: Request)
    requires Allocated(s)
    ensures KeepsPromises(s, Apply(s, r).0, Apply(s, r).1, r)
  {
    if Replays(s, r) { ReplayKillsFamily(s, r.seen, r.session, r.now, []); }
    if ExpelledBy(s, r).Some? { StepExpels(s, r); }
    AuthenticatedLaw(s, r);
    forall c | SucceedsWith(s, r, c) ensures Unused(s, c) && !Unused(Apply(s, r).0, c) { SuccessSpends(s, r, c); }
    forall x ensures OpensUnderMfa(s, r, x) ==> ((exists c :: PaysFor(s, r, c, x)) <==> !SawMfaOff(r)) {
      OpeningSpendsChallenge(s, r, x);
    }
  }

  /** A disabled user was found, not created, so the tables are as they were. */
  lemma NewUsersAreEnabled(s: State, provider: string, profile: Profile)
    requires OAuthUser(s, provider, profile).Ok?
    ensures var (t, u) := OAuthUser(s, provider, profile).value; t.users[u].disabled ==> t == s
  {
  }
}
