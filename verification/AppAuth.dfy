/**
 Application sessions and one-time credentials of one project. The state is the set of tables the
 auth code works on; each transaction is one step. Ids, token keys and opaque tokens are fresh
 values drawn from a counter, and a row is addressed by the token whose hash it stores.
 */
module AppAuth {
  import opened Text

  type Id = nat
  type Time = int

  // ---------- Tables ----------

  /** `password` is None when no one knows it, as for an account opened through OAuth. */
  datatype User = User(email: string, verified: bool, password: Option<string>, tokenKey: Id, disabled: bool)

  datatype Session = Session(user: Id, family: Id, expiresAt: Time,
                             rotatedAt: Option<Time>, revokedAt: Option<Time>, replacedBy: Option<Id>)

  datatype TokenKind = VerifyEmail | PasswordReset | EmailChange | LoginOtp

  datatype AuthToken = AuthToken(user: Id, kind: TokenKind, expiresAt: Time, usedAt: Option<Time>, newEmail: string)

  datatype Challenge = Challenge(user: Id, expiresAt: Time, usedAt: Option<Time>)

  datatype Factor = Factor(user: Id, secret: Id, enabled: bool)

  datatype RecoveryCode = RecoveryCode(user: Id, usedAt: Option<Time>)

  datatype OAuthState = OAuthState(provider: string, expiresAt: Time, usedAt: Option<Time>)

  datatype Settings = Settings(mfaEnabled: bool, otpEnabled: bool,
                               emailChangeEnabled: bool, emailChangeRequiresPassword: bool,
                               accessTtl: int, refreshTtl: int, verifyTtl: int, resetTtl: int, otpTtl: int)

  /** A password login between its credential check and its transaction, with the token key it read. */
  datatype PendingLogin = PendingLogin(user: Id, tokenKey: Id)

  datatype State = State(
    next: Id,
    settings: Settings,
    users: map<Id, User>,
    byEmail: map<string, Id>,
    sessions: map<Id, Session>,
    tokens: map<Id, AuthToken>,
    challenges: map<Id, Challenge>,
    factors: map<Id, Factor>,
    codes: map<Id, RecoveryCode>,
    oauthStates: map<Id, OAuthState>,
    oauthAccounts: map<(string, string), Id>,
    logins: map<Id, PendingLogin>,
    grants: map<Id, string>)

  function Initial(settings: Settings): State {
    State(0, settings, map[], map[], map[], map[], map[], map[], map[], map[], map[], map[], map[])
  }

  // ---------- Requests and replies ----------

  /** What a signed access token says. */
  datatype Claims = Claims(user: Id, tokenKey: Id, expiresAt: Time)

  datatype Profile = Profile(providerUser: string, email: string, emailVerified: bool)

  datatype AuthError =
    InvalidCredentials | InvalidRefreshToken | InvalidAuthToken | UserDisabled | UserExists | Unauthorized | Refused

  datatype Reply =
    | Failed(error: AuthError)
    | Done
    | Authenticated(session: Id, claims: Claims)
    | MfaRequired(challenge: Id)
    | Accepted(token: Option<Id>)
    | CredentialsRead(login: Id)
    | EnrollmentStarted(factor: Id, secret: Id)
    | Enrolled(firstCode: Id)
    | OAuthStarted(state: Id)
    | OAuthGranted(grant: Id)

  /** `seen` is the settings a request read before its transaction began; they may have changed since. A one-time
      code is given by the secrets it verifies against at that moment. */
  datatype Request =
    | Signup(seen: Settings, email: string, password: string, now: Time)
    | BeginLogin(email: string, password: string)
    | FinishLogin(seen: Settings, login: Id, now: Time)
    | Refresh(seen: Settings, session: Id, now: Time)
    | Logout(session: Id, now: Time)
    | LogoutAll(user: Id, now: Time)
    | RevokeSession(claims: Claims, session: Id, now: Time)
    | RequestToken(seen: Settings, kind: TokenKind, email: string, now: Time)
    | RequestEmailChange(seen: Settings, user: Id, password: string, newEmail: string, now: Time)
    | OtpLogin(seen: Settings, email: string, token: Id, now: Time)
    | ConfirmVerification(email: string, token: Id, now: Time)
    | ConfirmReset(email: string, token: Id, password: string, now: Time)
    | ConfirmEmailChange(seen: Settings, token: Id, now: Time)
    | StartEnrollment(seen: Settings, claims: Claims, now: Time)
    | ConfirmEnrollment(claims: Claims, factor: Id, verifies: set<Id>, now: Time)
    | DisableMfa(claims: Claims, verifies: set<Id>, now: Time)
    | MfaLogin(seen: Settings, challenge: Id, verifies: set<Id>, now: Time)
    | RecoveryLogin(seen: Settings, challenge: Id, code: Id, now: Time)
    | StartOAuth(provider: string, now: Time)
    | ConsumeOAuthState(provider: string, state: Id, now: Time)
    | OAuthLogin(seen: Settings, grant: Id, profile: Profile, now: Time)
    | ChangeSettings(settings: Settings)
    | SetDisabled(user: Id, disabled: bool)
    | DeleteUser(user: Id)

  // ---------- Building blocks ----------

  const ACCESS_TTL := 3600
  const REFRESH_TTL := 604800
  const MFA_CHALLENGE_TTL := 600
  const OAUTH_STATE_TTL := 600
  const RECOVERY_CODES := 10

  function Coalesce(t: Option<Time>, now: Time): Option<Time> {
    if t.Some? then t else Some(now)
  }

  function Ttl(ttl: int, default: int): int {
    if ttl <= 0 then default else ttl
  }

  function NewSession(settings: Settings, user: Id, family: Id, now: Time): Session {
    Session(user, family, now + Ttl(settings.refreshTtl, REFRESH_TTL), None, None, None)
  }

  function MintClaims(settings: Settings, user: Id, tokenKey: Id, now: Time): Claims {
    Claims(user, tokenKey, now + Ttl(settings.accessTtl, ACCESS_TTL))
  }

  function RevokeFamily(sessions: map<Id, Session>, family: Id, now: Time): map<Id, Session> {
    map x | x in sessions :: if sessions[x].family == family
                             then sessions[x].(revokedAt := Coalesce(sessions[x].revokedAt, now)) else sessions[x]
  }

  function RevokeUser(sessions: map<Id, Session>, user: Id, now: Time): map<Id, Session> {
    map x | x in sessions :: if sessions[x].user == user && sessions[x].revokedAt.None?
                             then sessions[x].(revokedAt := Some(now)) else sessions[x]
  }

  function RevokeOne(sessions: map<Id, Session>, x: Id, now: Time): map<Id, Session>
    requires x in sessions
  {
    sessions[x := sessions[x].(revokedAt := Coalesce(sessions[x].revokedAt, now))]
  }

  /** `x` is rotated and revoked, and the session `y` takes its place. */
  function Rotate(sessions: map<Id, Session>, x: Id, y: Id, successor: Session, now: Time): map<Id, Session>
    requires x in sessions
  {
    sessions[y := successor][x := sessions[x].(revokedAt := Some(now), rotatedAt := Some(now), replacedBy := Some(y))]
  }

  /** A session of a new family, with an access token for `tokenKey`. */
  function Authenticate(s: State, settings: Settings, user: Id, tokenKey: Id, now: Time): (State, Reply) {
    var family, x := s.next, s.next + 1;
    (s.(next := s.next + 2, sessions := s.sessions[x := NewSession(settings, user, family, now)]),
     Authenticated(x, MintClaims(settings, user, tokenKey, now)))
  }

  predicate HasFactor(factors: map<Id, Factor>, user: Id) {
    exists f :: f in factors && factors[f].user == user && factors[f].enabled
  }

  predicate NeedsMfa(s: State, settings: Settings, user: Id) {
    settings.mfaEnabled && HasFactor(s.factors, user)
  }

  /** The end of every login route: a challenge when the user must pass a second factor, else a session. */
  function LoginOrChallenge(s: State, settings: Settings, user: Id, tokenKey: Id, now: Time): (State, Reply) {
    if NeedsMfa(s, settings, user) then
      (s.(next := s.next + 1, challenges := s.challenges[s.next := Challenge(user, now + MFA_CHALLENGE_TTL, None)]),
       MfaRequired(s.next))
    else Authenticate(s, settings, user, tokenKey, now)
  }

  function ResolveAccessToken(s: State, claims: Claims, now: Time): Result<Id, AuthError> {
    if claims.expiresAt <= now || claims.user !in s.users then Err(InvalidAuthToken)
    else if s.users[claims.user].disabled then Err(UserDisabled)
    else if s.users[claims.user].tokenKey != claims.tokenKey then Err(InvalidAuthToken)
    else Ok(claims.user)
  }

  /** The token row of this kind whose owner still exists. */
  predicate KnownToken(s: State, kind: TokenKind, token: Id) {
    token in s.tokens && s.tokens[token].kind == kind && s.tokens[token].user in s.users
  }

  function TokenUseError(token: AuthToken, user: User, now: Time): Option<AuthError> {
    if token.usedAt.Some? || token.expiresAt <= now then Some(InvalidAuthToken)
    else if user.disabled then Some(UserDisabled)
    else None
  }

  function UseToken(s: State, token: Id, now: Time): State
    requires token in s.tokens
  {
    s.(tokens := s.tokens[token := s.tokens[token].(usedAt := Some(now))])
  }

  function TokenTtl(settings: Settings, kind: TokenKind): int {
    match kind
    case VerifyEmail => settings.verifyTtl
    case PasswordReset => settings.resetTtl
    case EmailChange => settings.verifyTtl
    case LoginOtp => settings.otpTtl
  }

  /** An unknown or disabled address is accepted without a token being issued. */
  function IssueToken(s: State, seen: Settings, kind: TokenKind, email: string, newEmail: string,
                      now: Time): (State, Reply) {
    if email !in s.byEmail || s.byEmail[email] !in s.users || s.users[s.byEmail[email]].disabled then
      (s, Accepted(None))
    else
      var token := AuthToken(s.byEmail[email], kind, now + TokenTtl(seen, kind), None, newEmail);
      (s.(next := s.next + 1, tokens := s.tokens[s.next := token]), Accepted(Some(s.next)))
  }

  // ---------- Transactions ----------

  /** A new user takes the next id, and the one after it for a token key. */
  function AddUser(s: State, user: User): State {
    s.(next := s.next + 2, users := s.users[s.next := user], byEmail := s.byEmail[user.email := s.next])
  }

  function DoSignup(s: State, seen: Settings, email: string, password: string, now: Time): (State, Reply) {
    if email in s.byEmail then (s, Failed(UserExists))
    else
      Authenticate(AddUser(s, User(email, false, Some(password), s.next + 1, false)), seen, s.next, s.next + 1, now)
  }

  function DoBeginLogin(s: State, email: string, password: string): (State, Reply) {
    if email !in s.byEmail || s.byEmail[email] !in s.users then (s, Failed(InvalidCredentials))
    else
      var u := s.byEmail[email];
      if s.users[u].disabled then (s, Failed(UserDisabled))
      else if s.users[u].password != Some(password) then (s, Failed(InvalidCredentials))
      else (s.(next := s.next + 1, logins := s.logins[s.next := PendingLogin(u, s.users[u].tokenKey)]),
            CredentialsRead(s.next))
  }

  function DoFinishLogin(s: State, seen: Settings, login: Id, now: Time): (State, Reply) {
    if login !in s.logins then (s, Failed(InvalidCredentials))
    else
      var p := s.logins[login];
      var s1 := s.(logins := s.logins - {login});
      if p.user !in s.users || s.users[p.user].disabled then (s1, Failed(UserDisabled))
      else LoginOrChallenge(s1, seen, p.user, p.tokenKey, now)
  }

  /** Presenting a rotated token revokes its whole family; presenting the live one replaces it. */
  function DoRefresh(s: State, seen: Settings, x: Id, now: Time): (State, Reply) {
    if x !in s.sessions || s.sessions[x].user !in s.users then (s, Failed(InvalidRefreshToken))
    else
      var held := s.sessions[x];
      var user := s.users[held.user];
      if held.rotatedAt.Some? then
        (s.(sessions := RevokeFamily(s.sessions, held.family, now)), Failed(InvalidRefreshToken))
      else if held.revokedAt.Some? || held.expiresAt <= now then (s, Failed(InvalidRefreshToken))
      else if user.disabled then (s, Failed(UserDisabled))
      else
        var y := s.next;
        (s.(next := y + 1, sessions := Rotate(s.sessions, x, y, NewSession(seen, held.user, held.family, now), now)),
         Authenticated(y, MintClaims(seen, held.user, user.tokenKey, now)))
  }

  function DoLogout(s: State, x: Id, now: Time): (State, Reply) {
    if x !in s.sessions || s.sessions[x].user !in s.users then (s, Failed(InvalidRefreshToken))
    else if s.sessions[x].revokedAt.Some? || s.sessions[x].expiresAt <= now then (s, Failed(InvalidRefreshToken))
    else (s.(sessions := RevokeOne(s.sessions, x, now)), Done)
  }

  /** A fresh token key makes every access token of the user stale, and no session of theirs survives. */
  function ExpelUser(s: State, u: Id, user: User, now: Time): State {
    s.(next := s.next + 1, users := s.users[u := user.(tokenKey := s.next)], sessions := RevokeUser(s.sessions, u, now))
  }

  function DoLogoutAll(s: State, u: Id, now: Time): (State, Reply) {
    if u !in s.users || s.users[u].disabled then (s, Failed(InvalidAuthToken))
    else (ExpelUser(s, u, s.users[u], now), Done)
  }

  function DoRevokeSession(s: State, claims: Claims, x: Id, now: Time): (State, Reply) {
    match ResolveAccessToken(s, claims, now)
    case Err(e) => (s, Failed(e))
    case Ok(u) =>
      if x !in s.sessions || s.sessions[x].user != u then (s, Failed(Unauthorized))
      else (s.(sessions := RevokeOne(s.sessions, x, now)), Done)
  }

  function DoRequestToken(s: State, seen: Settings, kind: TokenKind, email: string, now: Time): (State, Reply) {
    if kind == EmailChange || (kind == LoginOtp && !seen.otpEnabled) then (s, Failed(Refused))
    else IssueToken(s, seen, kind, email, "", now)
  }

  function DoRequestEmailChange(s: State, seen: Settings, u: Id, password: string, newEmail: string,
                                now: Time): (State, Reply) {
    if !seen.emailChangeEnabled then (s, Failed(Refused))
    else if u !in s.users then (s, Failed(Unauthorized))
    else if s.users[u].disabled then (s, Failed(UserDisabled))
    else if seen.emailChangeRequiresPassword && s.users[u].password != Some(password) then
      (s, Failed(InvalidCredentials))
    else if newEmail in s.byEmail then (s, Failed(UserExists))
    else IssueToken(s, seen, EmailChange, s.users[u].email, newEmail, now)
  }

  function DoOtpLogin(s: State, seen: Settings, email: string, token: Id, now: Time): (State, Reply) {
    if !seen.otpEnabled then (s, Failed(Refused))
    else if !KnownToken(s, LoginOtp, token) then (s, Failed(InvalidAuthToken))
    else
      var u := s.tokens[token].user;
      var error := TokenUseError(s.tokens[token], s.users[u], now);
      if s.users[u].email != email then (s, Failed(InvalidAuthToken))
      else if error.Some? then (s, Failed(error.value))
      else LoginOrChallenge(UseToken(s, token, now), seen, u, s.users[u].tokenKey, now)
  }

  function DoConfirmVerification(s: State, email: string, token: Id, now: Time): (State, Reply) {
    if !KnownToken(s, VerifyEmail, token) then (s, Failed(InvalidAuthToken))
    else
      var u := s.tokens[token].user;
      var error := TokenUseError(s.tokens[token], s.users[u], now);
      if s.users[u].email != email then (s, Failed(InvalidAuthToken))
      else if error.Some? then (s, Failed(error.value))
      else (UseToken(s, token, now).(users := s.users[u := s.users[u].(verified := true)]), Done)
  }

  function DoConfirmReset(s: State, email: string, token: Id, password: string, now: Time): (State, Reply) {
    if !KnownToken(s, PasswordReset, token) then (s, Failed(InvalidAuthToken))
    else
      var u := s.tokens[token].user;
      var error := TokenUseError(s.tokens[token], s.users[u], now);
      if s.users[u].email != email then (s, Failed(InvalidAuthToken))
      else if error.Some? then (s, Failed(error.value))
      else (ExpelUser(UseToken(s, token, now), u, s.users[u].(password := Some(password)), now), Done)
  }

  function DoConfirmEmailChange(s: State, seen: Settings, token: Id, now: Time): (State, Reply) {
    if !seen.emailChangeEnabled then (s, Failed(Refused))
    else if !KnownToken(s, EmailChange, token) then (s, Failed(InvalidAuthToken))
    else
      var u, newEmail := s.tokens[token].user, s.tokens[token].newEmail;
      var error := TokenUseError(s.tokens[token], s.users[u], now);
      if error.Some? then (s, Failed(error.value))
      else if newEmail in s.byEmail && s.byEmail[newEmail] != u then (s, Failed(UserExists))
      else
        var user := s.users[u].(email := newEmail, verified := true);
        var byEmail := (s.byEmail - {s.users[u].email})[newEmail := u];
        (ExpelUser(UseToken(s, token, now), u, user, now).(byEmail := byEmail), Done)
  }

  function DoStartEnrollment(s: State, seen: Settings, claims: Claims, now: Time): (State, Reply) {
    match ResolveAccessToken(s, claims, now)
    case Err(e) => (s, Failed(e))
    case Ok(u) =>
      if !seen.mfaEnabled then (s, Failed(Refused))
      else
        (s.(next := s.next + 2, factors := WithoutPending(s.factors, u)[s.next := Factor(u, s.next + 1, false)]),
         EnrollmentStarted(s.next, s.next + 1))
  }

  /** The factors without the user's unconfirmed ones. */
  function WithoutPending(factors: map<Id, Factor>, user: Id): map<Id, Factor> {
    map f | f in factors && !(factors[f].user == user && !factors[f].enabled) :: factors[f]
  }

  function IssueCodes(codes: map<Id, RecoveryCode>, u: Id, first: Id, n: nat): map<Id, RecoveryCode> {
    if n == 0 then codes else IssueCodes(codes, u, first, n - 1)[first + n - 1 := RecoveryCode(u, None)]
  }

  function CodesOfOthers(codes: map<Id, RecoveryCode>, u: Id): map<Id, RecoveryCode> {
    map c | c in codes && codes[c].user != u :: codes[c]
  }

  /** The user's old recovery codes go; ten fresh ones take their place. */
  function ReplaceRecoveryCodes(s: State, u: Id): State {
    s.(next := s.next + RECOVERY_CODES, codes := IssueCodes(CodesOfOthers(s.codes, u), u, s.next, RECOVERY_CODES))
  }

  function EnableFactor(s: State, f: Id): State
    requires f in s.factors
  {
    s.(factors := s.factors[f := s.factors[f].(enabled := true)])
  }

  /** A partial unique index allows one enabled factor per user. */
  function DoConfirmEnrollment(s: State, claims: Claims, f: Id, verifies: set<Id>, now: Time): (State, Reply) {
    match ResolveAccessToken(s, claims, now)
    case Err(e) => (s, Failed(e))
    case Ok(u) =>
      if f !in s.factors || s.factors[f].user != u || s.factors[f].secret !in verifies then
        (s, Failed(InvalidAuthToken))
      else if exists g :: g in s.factors && g != f && s.factors[g].user == u && s.factors[g].enabled then
        (s, Failed(Refused))
      else (ReplaceRecoveryCodes(EnableFactor(s, f), u), Enrolled(s.next))
  }

  predicate FactorVerifies(factors: map<Id, Factor>, user: Id, verifies: set<Id>) {
    exists f :: f in factors && factors[f].user == user && factors[f].enabled && factors[f].secret in verifies
  }

  function DoDisableMfa(s: State, claims: Claims, verifies: set<Id>, now: Time): (State, Reply) {
    match ResolveAccessToken(s, claims, now)
    case Err(e) => (s, Failed(e))
    case Ok(u) =>
      if !FactorVerifies(s.factors, u, verifies) then (s, Failed(InvalidAuthToken))
      else
        (s.(factors := DisableFactors(s.factors, u), codes := SpendCodes(s.codes, u, now)), Done)
  }

  function DisableFactors(factors: map<Id, Factor>, user: Id): map<Id, Factor> {
    map f | f in factors :: if factors[f].user == user then factors[f].(enabled := false) else factors[f]
  }

  function SpendCodes(codes: map<Id, RecoveryCode>, user: Id, now: Time): map<Id, RecoveryCode> {
    map c | c in codes ::
      if codes[c].user == user then codes[c].(usedAt := Coalesce(codes[c].usedAt, now)) else codes[c]
  }

  /** The error that stops a second-factor login before its code is looked at. */
  function ChallengeError(s: State, c: Id, now: Time): Option<AuthError> {
    if c !in s.challenges || s.challenges[c].user !in s.users then Some(InvalidAuthToken)
    else if s.users[s.challenges[c].user].disabled then Some(UserDisabled)
    else if s.challenges[c].usedAt.Some? || s.challenges[c].expiresAt <= now then Some(InvalidAuthToken)
    else None
  }

  function PassChallenge(s: State, seen: Settings, c: Id, now: Time): (State, Reply)
    requires c in s.challenges && s.challenges[c].user in s.users
  {
    var u := s.challenges[c].user;
    var m := s.(challenges := s.challenges[c := s.challenges[c].(usedAt := Some(now))]);
    Authenticate(m, seen, u, s.users[u].tokenKey, now)
  }

  function DoMfaLogin(s: State, seen: Settings, c: Id, verifies: set<Id>, now: Time): (State, Reply) {
    var error := ChallengeError(s, c, now);
    if error.Some? then (s, Failed(error.value))
    else if !FactorVerifies(s.factors, s.challenges[c].user, verifies) then (s, Failed(InvalidAuthToken))
    else PassChallenge(s, seen, c, now)
  }

  function DoRecoveryLogin(s: State, seen: Settings, c: Id, code: Id, now: Time): (State, Reply) {
    var error := ChallengeError(s, c, now);
    if error.Some? then (s, Failed(error.value))
    else if code !in s.codes || s.codes[code].user != s.challenges[c].user || s.codes[code].usedAt.Some? then
      (s, Failed(InvalidAuthToken))
    else PassChallenge(s.(codes := s.codes[code := s.codes[code].(usedAt := Some(now))]), seen, c, now)
  }

  function DoStartOAuth(s: State, provider: string, now: Time): (State, Reply) {
    (s.(next := s.next + 1, oauthStates := s.oauthStates[s.next := OAuthState(provider, now + OAUTH_STATE_TTL, None)]),
     OAuthStarted(s.next))
  }

  function DoConsumeOAuthState(s: State, provider: string, x: Id, now: Time): (State, Reply) {
    if x !in s.oauthStates || s.oauthStates[x].provider != provider then (s, Failed(InvalidAuthToken))
    else if s.oauthStates[x].usedAt.Some? || s.oauthStates[x].expiresAt <= now then (s, Failed(InvalidAuthToken))
    else
      var spent := s.oauthStates[x].(usedAt := Some(now));
      (s.(oauthStates := s.oauthStates[x := spent], grants := s.grants[x := provider]), OAuthGranted(x))
  }

  /** The account linked to the profile, else the user with its verified address, else a new user. */
  function OAuthUser(s: State, provider: string, profile: Profile): (r: Result<(State, Id), AuthError>)
    ensures r.Ok? ==> r.value.1 in r.value.0.users
  {
    var account := (provider, profile.providerUser);
    if account in s.oauthAccounts then
      if s.oauthAccounts[account] in s.users then Ok((s, s.oauthAccounts[account])) else Err(Unauthorized)
    else if profile.emailVerified && profile.email in s.byEmail && s.byEmail[profile.email] in s.users then
      Ok((s, s.byEmail[profile.email]))
    else if profile.email in s.byEmail then Err(Refused)
    else
      var user := User(profile.email, profile.emailVerified, None, s.next + 1, false);
      Ok((AddUser(s, user), s.next))
  }

  /** One transaction, which a refusal rolls back. */
  function LoginProfile(s: State, seen: Settings, provider: string, profile: Profile, now: Time): (State, Reply) {
    if profile.email == "" then (s, Failed(Refused))
    else
      match OAuthUser(s, provider, profile)
      case Err(e) => (s, Failed(e))
      case Ok((s1, u)) =>
        if s1.users[u].disabled then (s, Failed(UserDisabled))
        else LoginOrChallenge(LinkAccount(s1, provider, profile, u), seen, u, s1.users[u].tokenKey, now)
  }

  function LinkAccount(s: State, provider: string, profile: Profile, u: Id): State {
    s.(oauthAccounts := s.oauthAccounts[(provider, profile.providerUser) := u])
  }

  function SpendGrant(s: State, grant: Id): State {
    s.(grants := s.grants - {grant})
  }

  function DoOAuthLogin(s: State, seen: Settings, grant: Id, profile: Profile, now: Time): (State, Reply) {
    if grant !in s.grants then (s, Failed(InvalidAuthToken))
    else LoginProfile(SpendGrant(s, grant), seen, s.grants[grant], profile, now)
  }

  function DoDeleteUser(s: State, u: Id): (State, Reply) {
    if u !in s.users then (s, Failed(Unauthorized))
    else (s.(users := s.users - {u}, byEmail := s.byEmail - {s.users[u].email}), Done)
  }

  function DoSetDisabled(s: State, u: Id, disabled: bool): (State, Reply) {
    if u !in s.users then (s, Failed(Unauthorized))
    else (s.(users := s.users[u := s.users[u].(disabled := disabled)]), Done)
  }

  function Apply(s: State, r: Request): (State, Reply) {
    match r
    case Signup(seen, email, password, now) => DoSignup(s, seen, email, password, now)
    case BeginLogin(email, password) => DoBeginLogin(s, email, password)
    case FinishLogin(seen, login, now) => DoFinishLogin(s, seen, login, now)
    case Refresh(seen, x, now) => DoRefresh(s, seen, x, now)
    case Logout(x, now) => DoLogout(s, x, now)
    case LogoutAll(u, now) => DoLogoutAll(s, u, now)
    case RevokeSession(claims, x, now) => DoRevokeSession(s, claims, x, now)
    case RequestToken(seen, kind, email, now) => DoRequestToken(s, seen, kind, email, now)
    case RequestEmailChange(seen, u, password, newEmail, now) =>
      DoRequestEmailChange(s, seen, u, password, newEmail, now)
    case OtpLogin(seen, email, token, now) => DoOtpLogin(s, seen, email, token, now)
    case ConfirmVerification(email, token, now) => DoConfirmVerification(s, email, token, now)
    case ConfirmReset(email, token, password, now) => DoConfirmReset(s, email, token, password, now)
    case ConfirmEmailChange(seen, token, now) => DoConfirmEmailChange(s, seen, token, now)
    case StartEnrollment(seen, claims, now) => DoStartEnrollment(s, seen, claims, now)
    case ConfirmEnrollment(claims, f, verifies, now) => DoConfirmEnrollment(s, claims, f, verifies, now)
    case DisableMfa(claims, verifies, now) => DoDisableMfa(s, claims, verifies, now)
    case MfaLogin(seen, c, verifies, now) => DoMfaLogin(s, seen, c, verifies, now)
    case RecoveryLogin(seen, c, code, now) => DoRecoveryLogin(s, seen, c, code, now)
    case StartOAuth(provider, now) => DoStartOAuth(s, provider, now)
    case ConsumeOAuthState(provider, x, now) => DoConsumeOAuthState(s, provider, x, now)
    case OAuthLogin(seen, grant, profile, now) => DoOAuthLogin(s, seen, grant, profile, now)
    case ChangeSettings(settings) => (s.(settings := settings), Done)
    case SetDisabled(u, disabled) => DoSetDisabled(s, u, disabled)
    case DeleteUser(u) => DoDeleteUser(s, u)
  }

  function Run(s: State, requests: seq<Request>): State
    decreases |requests|
  {
    if requests == [] then s else Run(Apply(s, requests[0]).0, requests[1..])
  }
}
