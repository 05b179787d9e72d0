/** What each auth request needs and what it gives, told in the fields of the tables. */
module AppAuthLaws {
  import opened Text
  import opened AppAuth
  import opened AppAuthRuns
  import opened AppAuthTheorems

  // ---------- What requests ask of the tables ----------

  predicate Enabled(s: State, u: Id) {
    u in s.users && !s.users[u].disabled
  }

  predicate Disabled(s: State, u: Id) {
    u in s.users && s.users[u].disabled
  }

  predicate OpenSession(s: State, x: Id, now: Time) {
    x in s.sessions && s.sessions[x].revokedAt == None && now < s.sessions[x].expiresAt && s.sessions[x].user in s.users
  }

  /** An unexpired access token of an enabled user that carries their current key. */
  predicate AccessWorks(s: State, claims: Claims, now: Time) {
    now < claims.expiresAt && Enabled(s, claims.user) && s.users[claims.user].tokenKey == claims.tokenKey
  }

  /** An unused, unexpired token of the kind, whose user is enabled. */
  predicate TokenWorks(s: State, kind: TokenKind, k: Id, now: Time) {
    && k in s.tokens && s.tokens[k].kind == kind && s.tokens[k].usedAt == None && now < s.tokens[k].expiresAt
    && Enabled(s, s.tokens[k].user)
  }

  /** Why a token of the kind is refused: a good one of a disabled user says so. */
  function TokenRefusal(s: State, kind: TokenKind, k: Id, now: Time): AuthError {
    if k in s.tokens && s.tokens[k].kind == kind && s.tokens[k].usedAt == None && now < s.tokens[k].expiresAt &&
       Disabled(s, s.tokens[k].user)
    then UserDisabled else InvalidAuthToken
  }

  function AccessRefusal(s: State, claims: Claims, now: Time): AuthError {
    if now < claims.expiresAt && Disabled(s, claims.user) then UserDisabled else InvalidAuthToken
  }

  function ChallengeRefusal(s: State, c: Id): AuthError {
    if c in s.challenges && Disabled(s, s.challenges[c].user) then UserDisabled else InvalidAuthToken
  }

  predicate OpenChallenge(s: State, c: Id, now: Time) {
    && c in s.challenges && s.challenges[c].usedAt == None && now < s.challenges[c].expiresAt
    && Enabled(s, s.challenges[c].user)
  }

  /** The settings ask for a second factor and the user has one. */
  predicate AsksForFactor(s: State, seen: Settings, u: Id) {
    seen.mfaEnabled && exists f :: f in s.factors && s.factors[f].user == u && s.factors[f].enabled
  }

  function RefreshUntil(seen: Settings, now: Time): Time {
    now + if seen.refreshTtl > 0 then seen.refreshTtl else 7 * 24 * 3600
  }

  function AccessUntil(seen: Settings, now: Time): Time {
    now + if seen.accessTtl > 0 then seen.accessTtl else 3600
  }

  lemma AccessResolves(s: State, claims: Claims, now: Time)
    ensures ResolveAccessToken(s, claims, now) == Ok(claims.user) <==> AccessWorks(s, claims, now)
    ensures !AccessWorks(s, claims, now) ==> ResolveAccessToken(s, claims, now) == Err(AccessRefusal(s, claims, now))
  {
  }

  // ---------- Refreshing ----------

  /** The new session `y` takes the place of `x`, and nothing else changes. */
  predicate Replaces(s: State, t: State, x: Id, y: Id, seen: Settings, now: Time) {
    && x in s.sessions && y !in s.sessions && t.sessions.Keys == s.sessions.Keys + {y}
    && t.sessions[x] == s.sessions[x].(rotatedAt := Some(now), revokedAt := Some(now), replacedBy := Some(y))
    && t.sessions[y] == Session(s.sessions[x].user, s.sessions[x].family, RefreshUntil(seen, now), None, None, None)
    && (forall z :: z in s.sessions && z != x ==> t.sessions[z] == s.sessions[z])
  }

  /** A refresh succeeds exactly with an open session of an enabled user that was not rotated, and hands out the
      session that replaces it together with claims on the user's current key. */
  lemma RefreshLaw(s: State, seen: Settings, x: Id, now: Time)
    requires Allocated(s)
    ensures var (t, reply) := Apply(s, Refresh(seen, x, now));
            && (reply.Authenticated? <==>
                  OpenSession(s, x, now) && s.sessions[x].rotatedAt == None && Enabled(s, s.sessions[x].user))
            && (reply.Authenticated? ==>
                  && Replaces(s, t, x, reply.session, seen, now)
                  && var u := s.sessions[x].user;
                     reply.claims == Claims(u, s.users[u].tokenKey, AccessUntil(seen, now)))
            && (!reply.Authenticated? ==>
                  reply == Failed(if OpenSession(s, x, now) && s.sessions[x].rotatedAt == None then UserDisabled
                                  else InvalidRefreshToken))
            && t == s.(next := t.next, sessions := t.sessions)
  {
  }

  /** The token a refresh hands out can itself be refreshed while it is unexpired and the user enabled. */
  lemma RefreshedTokenWorks(s: State, seen: Settings, x: Id, now: Time, next: Settings, later: Time)
    requires Allocated(s) && Apply(s, Refresh(seen, x, now)).1.Authenticated? && later < RefreshUntil(seen, now)
    ensures var (t, reply) := Apply(s, Refresh(seen, x, now));
            Apply(t, Refresh(next, reply.session, later)).1.Authenticated?
  {
    var (t, reply) := Apply(s, Refresh(seen, x, now));
    RefreshLaw(s, seen, x, now);
    StepEffect(s, Refresh(seen, x, now));
    RefreshLaw(t, next, reply.session, later);
  }

  // ---------- Ending sessions ----------

  /** Logging out takes an open session, and revokes that one alone. */
  lemma LogoutLaw(s: State, x: Id, now: Time)
    ensures var (t, reply) := Apply(s, Logout(x, now));
            && (reply == Done <==> OpenSession(s, x, now))
            && (reply != Done ==> reply == Failed(InvalidRefreshToken) && t == s)
            && (reply == Done ==> t == s.(sessions := s.sessions[x := s.sessions[x].(revokedAt := Some(now))]))
  {
  }

  /** Logging out everywhere takes an enabled user, revokes their open sessions alone and gives them an unused key. */
  lemma LogoutAllLaw(s: State, u: Id, now: Time)
    requires Allocated(s)
    ensures var (t, reply) := Apply(s, LogoutAll(u, now));
            && (reply == Done <==> Enabled(s, u)) && (reply != Done ==> reply == Failed(InvalidAuthToken) && t == s)
            && (reply == Done ==>
                  t == s.(next := t.next, users := t.users, sessions := t.sessions) &&
                  t.users == s.users[u := s.users[u].(tokenKey := s.next)] && EndsSessions(s, t, u, now))
  {
  }

  predicate EndsSessions(s: State, t: State, u: Id, now: Time) {
    && t.sessions.Keys == s.sessions.Keys
    && forall x :: x in s.sessions ==>
         t.sessions[x] == if s.sessions[x].user == u && s.sessions[x].revokedAt == None
                          then s.sessions[x].(revokedAt := Some(now)) else s.sessions[x]
  }

  /** A user revokes a session of their own, and no other. */
  lemma RevokeSessionLaw(s: State, claims: Claims, x: Id, now: Time)
    ensures var (t, reply) := Apply(s, RevokeSession(claims, x, now));
            && (reply == Done <==>
                  AccessWorks(s, claims, now) && x in s.sessions && s.sessions[x].user == claims.user)
            && (reply != Done ==>
                  t == s &&
                  reply == Failed(if AccessWorks(s, claims, now) then Unauthorized else AccessRefusal(s, claims, now)))
            && t == s.(sessions := t.sessions)
            && (reply == Done ==>
                  t.sessions.Keys == s.sessions.Keys && t.sessions[x].revokedAt.Some? &&
                  forall z :: z in s.sessions && z != x ==> t.sessions[z] == s.sessions[z])
  {
    AccessResolves(s, claims, now);
  }

  // ---------- Passwords ----------

  /** Signing up takes an unknown address, and makes a user with that password who can be found under it. */
  lemma SignupLaw(s: State, seen: Settings, email: string, password: string, now: Time)
    requires Allocated(s)
    ensures var (t, reply) := Apply(s, Signup(seen, email, password, now));
            && (reply.Authenticated? <==> email !in s.byEmail)
            && (!reply.Authenticated? ==> reply == Failed(UserExists) && t == s)
            && (reply.Authenticated? ==>
                  var u := reply.claims.user;
                  && OpensSession(s, t, reply, seen, u, reply.claims.tokenKey, now)
                  && t == s.(next := t.next, users := t.users, byEmail := t.byEmail, sessions := t.sessions)
                  && u !in s.users && t.byEmail == s.byEmail[email := u]
                  && t.users == s.users[u := User(email, false, Some(password), reply.claims.tokenKey, false)])
  {
  }

  /** The first step of a password login succeeds exactly with the current password of an enabled user. */
  lemma PasswordLaw(s: State, email: string, password: string)
    ensures var (t, reply) := Apply(s, BeginLogin(email, password));
            && (reply.CredentialsRead? <==>
                  email in s.byEmail && Enabled(s, s.byEmail[email]) &&
                  s.users[s.byEmail[email]].password == Some(password))
            && (!reply.CredentialsRead? ==>
                  t == s &&
                  reply == Failed(if email in s.byEmail && Disabled(s, s.byEmail[email]) then UserDisabled
                                  else InvalidCredentials))
            && (reply.CredentialsRead? ==>
                  var u := s.byEmail[email];
                  && t == s.(next := t.next, logins := t.logins)
                  && t.logins == s.logins[reply.login := PendingLogin(u, s.users[u].tokenKey)])
  {
  }

  /** How a login route ends for a user: with a challenge exactly when a factor is asked for, else with a session. */
  predicate EndsLogin(s: State, t: State, reply: Reply, seen: Settings, u: Id, tokenKey: Id, now: Time) {
    && (reply.MfaRequired? <==> AsksForFactor(s, seen, u)) && (reply.Authenticated? <==> !AsksForFactor(s, seen, u))
    && (reply.MfaRequired? ==>
          reply.challenge !in s.challenges && t.sessions == s.sessions &&
          t.challenges == s.challenges[reply.challenge := Challenge(u, now + 600, None)])
    && (reply.Authenticated? ==> t.challenges == s.challenges && OpensSession(s, t, reply, seen, u, tokenKey, now))
  }

  /** The session handed out is the one added: live, of the user, in a family of its own. */
  predicate OpensSession(s: State, t: State, reply: Reply, seen: Settings, u: Id, tokenKey: Id, now: Time) {
    && reply.Authenticated? && reply.session !in s.sessions && reply.session in t.sessions
    && t.sessions == s.sessions[reply.session := t.sessions[reply.session]]
    && IsLive(t.sessions[reply.session]) && t.sessions[reply.session].user == u
    && t.sessions[reply.session].expiresAt == RefreshUntil(seen, now)
    && (forall z :: z in s.sessions ==> s.sessions[z].family != t.sessions[reply.session].family)
    && reply.claims == Claims(u, tokenKey, AccessUntil(seen, now))
  }

  /** The tables a login route works on are the same. */
  predicate SameLoginTables(s: State, m: State) {
    s.sessions == m.sessions && s.challenges == m.challenges && s.factors == m.factors && s.next <= m.next
  }

  lemma LoginAsks(s: State, m: State, seen: Settings, u: Id, tokenKey: Id, now: Time)
    requires Allocated(s) && SameLoginTables(s, m) && AsksForFactor(s, seen, u)
    ensures var (t, reply) := LoginOrChallenge(m, seen, u, tokenKey, now);
            EndsLogin(s, t, reply, seen, u, tokenKey, now) && t == m.(next := m.next + 1, challenges := t.challenges)
  {
    assert NeedsMfa(m, seen, u);
  }

  lemma LoginOpens(s: State, m: State, seen: Settings, u: Id, tokenKey: Id, now: Time)
    requires Allocated(s) && s.sessions == m.sessions && s.next <= m.next
    ensures var (t, reply) := Authenticate(m, seen, u, tokenKey, now);
            OpensSession(s, t, reply, seen, u, tokenKey, now) && t == m.(next := m.next + 2, sessions := t.sessions)
  {
  }

  lemma LoginEnds(s: State, m: State, seen: Settings, u: Id, tokenKey: Id, now: Time)
    requires Allocated(s) && SameLoginTables(s, m)
    ensures var (t, reply) := LoginOrChallenge(m, seen, u, tokenKey, now);
            && EndsLogin(s, t, reply, seen, u, tokenKey, now)
            && t == m.(next := t.next, sessions := t.sessions, challenges := t.challenges)
  {
    if AsksForFactor(s, seen, u) {
      LoginAsks(s, m, seen, u, tokenKey, now);
    } else {
      LoginOpens(s, m, seen, u, tokenKey, now);
      assert !NeedsMfa(m, seen, u);
    }
  }

  /** The second step goes by the key read in the first, while the user is enabled. */
  lemma FinishLoginLaw(s: State, seen: Settings, login: Id, now: Time)
    requires Allocated(s) && login in s.logins && Enabled(s, s.logins[login].user)
    ensures var (t, reply) := Apply(s, FinishLogin(seen, login, now));
            && t.logins == s.logins - {login}
            && t == s.(next := t.next, logins := t.logins, sessions := t.sessions, challenges := t.challenges)
            && EndsLogin(s, t, reply, seen, s.logins[login].user, s.logins[login].tokenKey, now)
  {
    var p, m := s.logins[login], s.(logins := s.logins - {login});
    LoginEnds(s, m, seen, p.user, p.tokenKey, now);
    assert Apply(s, FinishLogin(seen, login, now)) == LoginOrChallenge(m, seen, p.user, p.tokenKey, now);
  }

  /** It is refused otherwise, and ends the pending login either way. */
  lemma FinishLoginRefused(s: State, seen: Settings, login: Id, now: Time)
    requires !(login in s.logins && Enabled(s, s.logins[login].user))
    ensures var (t, reply) := Apply(s, FinishLogin(seen, login, now));
            && reply == Failed(if login in s.logins then UserDisabled else InvalidCredentials)
            && t == s.(logins := s.logins - {login})
  {
    if login !in s.logins { assert s.logins - {login} == s.logins; }
  }

  // ---------- Emailed tokens ----------

  function TtlOf(seen: Settings, kind: TokenKind): int {
    match kind
    case PasswordReset => seen.resetTtl
    case LoginOtp => seen.otpTtl
    case _ => seen.verifyTtl
  }

  predicate Issues(s: State, t: State, reply: Reply, seen: Settings, kind: TokenKind, u: Id, newEmail: string,
                   now: Time) {
    && reply == Accepted(Some(s.next)) && t == s.(next := t.next, tokens := t.tokens)
    && t.tokens == s.tokens[s.next := AuthToken(u, kind, now + TtlOf(seen, kind), None, newEmail)]
  }

  /** A token is issued exactly to a known, enabled address; others are accepted without one. */
  lemma IssueLaw(s: State, seen: Settings, kind: TokenKind, email: string, newEmail: string, now: Time)
    ensures var (t, reply) := IssueToken(s, seen, kind, email, newEmail, now);
            if email in s.byEmail && Enabled(s, s.byEmail[email])
            then Issues(s, t, reply, seen, kind, s.byEmail[email], newEmail, now)
            else reply == Accepted(None) && t == s
  {
  }

  /** Verification and reset tokens can always be asked for, login codes where the settings allow them. */
  lemma RequestTokenLaw(s: State, seen: Settings, kind: TokenKind, email: string, now: Time)
    ensures var allowed := kind != EmailChange && (kind == LoginOtp ==> seen.otpEnabled);
            Apply(s, RequestToken(seen, kind, email, now)) ==
            if allowed then IssueToken(s, seen, kind, email, "", now) else (s, Failed(Refused))
  {
  }

  /** A change of address is asked for by an enabled user, with their password where the settings want it, and to an
      address no one has. */
  lemma RequestEmailChangeLaw(s: State, seen: Settings, u: Id, password: string, newEmail: string, now: Time)
    ensures var (t, reply) := Apply(s, RequestEmailChange(seen, u, password, newEmail, now));
            if seen.emailChangeEnabled && Enabled(s, u) && newEmail !in s.byEmail && Confirms(s, seen, u, password)
            then (t, reply) == IssueToken(s, seen, EmailChange, s.users[u].email, newEmail, now)
            else t == s && reply == Failed(if !seen.emailChangeEnabled then Refused
                                           else if u !in s.users then Unauthorized
                                           else if Disabled(s, u) then UserDisabled
                                           else if !Confirms(s, seen, u, password) then InvalidCredentials
                                           else UserExists)
  {
  }

  predicate Confirms(s: State, seen: Settings, u: Id, password: string)
    requires u in s.users
  {
    seen.emailChangeRequiresPassword ==> s.users[u].password == Some(password)
  }

  /** The token was sent to this address, which its user still has. */
  predicate IsFor(s: State, k: Id, email: string) {
    k in s.tokens && s.tokens[k].user in s.users && s.users[s.tokens[k].user].email == email
  }

  /** A one-time code logs in exactly as a working token of the address; it is spent either way the login ends. */
  lemma OtpLoginLaw(s: State, seen: Settings, email: string, k: Id, now: Time)
    requires Allocated(s)
    ensures var (t, reply) := Apply(s, OtpLogin(seen, email, k, now));
            if seen.otpEnabled && TokenWorks(s, LoginOtp, k, now) && s.users[s.tokens[k].user].email == email then
              var u := s.tokens[k].user;
              && EndsLogin(s, t, reply, seen, u, s.users[u].tokenKey, now)
              && t.tokens == s.tokens[k := s.tokens[k].(usedAt := Some(now))]
              && t == s.(next := t.next, tokens := t.tokens, sessions := t.sessions, challenges := t.challenges)
            else t == s && reply == Failed(if !seen.otpEnabled then Refused
                                           else if !IsFor(s, k, email) then InvalidAuthToken
                                           else TokenRefusal(s, LoginOtp, k, now))
  {
    if seen.otpEnabled && TokenWorks(s, LoginOtp, k, now) && s.users[s.tokens[k].user].email == email {
      var u := s.tokens[k].user;
      LoginEnds(s, UseToken(s, k, now), seen, u, s.users[u].tokenKey, now);
    }
  }

  /** An address is confirmed exactly with a working token of it. */
  lemma VerificationLaw(s: State, email: string, k: Id, now: Time)
    ensures var (t, reply) := Apply(s, ConfirmVerification(email, k, now));
            if TokenWorks(s, VerifyEmail, k, now) && s.users[s.tokens[k].user].email == email then
              var u := s.tokens[k].user;
              && reply == Done && t.users == s.users[u := s.users[u].(verified := true)]
              && t.tokens == s.tokens[k := s.tokens[k].(usedAt := Some(now))]
              && t == s.(users := t.users, tokens := t.tokens)
            else t == s && reply == Failed(if IsFor(s, k, email) then TokenRefusal(s, VerifyEmail, k, now)
                                           else InvalidAuthToken)
  {
  }

  /** A password is reset exactly with a working token of the address, under a new key and with all sessions ended. */
  lemma ResetLaw(s: State, email: string, k: Id, password: string, now: Time)
    ensures var (t, reply) := Apply(s, ConfirmReset(email, k, password, now));
            if TokenWorks(s, PasswordReset, k, now) && s.users[s.tokens[k].user].email == email then
              var u := s.tokens[k].user;
              && reply == Done && EndsSessions(s, t, u, now)
              && t.users == s.users[u := s.users[u].(password := Some(password), tokenKey := s.next)]
              && t.tokens == s.tokens[k := s.tokens[k].(usedAt := Some(now))]
              && t == s.(next := t.next, users := t.users, tokens := t.tokens, sessions := t.sessions)
            else t == s && reply == Failed(if IsFor(s, k, email) then TokenRefusal(s, PasswordReset, k, now)
                                           else InvalidAuthToken)
  {
  }

  /** An address moves exactly with a working token and to one no other user has; the old one is free again. */
  lemma EmailChangeLaw(s: State, seen: Settings, k: Id, now: Time)
    ensures var (t, reply) := Apply(s, ConfirmEmailChange(seen, k, now));
            if seen.emailChangeEnabled && TokenWorks(s, EmailChange, k, now) && IsFreeFor(s, s.tokens[k]) then
              var u, email := s.tokens[k].user, s.tokens[k].newEmail;
              && reply == Done && EndsSessions(s, t, u, now)
              && t.users == s.users[u := s.users[u].(email := email, verified := true, tokenKey := s.next)]
              && t.byEmail == (s.byEmail - {s.users[u].email})[email := u]
              && t.tokens == s.tokens[k := s.tokens[k].(usedAt := Some(now))]
              && t == s.(next := t.next, users := t.users, byEmail := t.byEmail, tokens := t.tokens,
                         sessions := t.sessions)
            else t == s && reply == Failed(if !seen.emailChangeEnabled then Refused
                                           else if TokenWorks(s, EmailChange, k, now) then UserExists
                                           else TokenRefusal(s, EmailChange, k, now))
  {
  }

  predicate IsFreeFor(s: State, token: AuthToken) {
    token.newEmail in s.byEmail ==> s.byEmail[token.newEmail] == token.user
  }

  // ---------- Second factors ----------

  /** A second-factor login succeeds exactly with an open challenge and a code that verifies against an enabled factor
      of the challenge's user. */
  lemma MfaLoginLaw(s: State, seen: Settings, c: Id, verifies: set<Id>, now: Time)
    requires Allocated(s)
    ensures var (t, reply) := Apply(s, MfaLogin(seen, c, verifies, now));
            if OpenChallenge(s, c, now) && SecretVerifies(s, s.challenges[c].user, verifies)
            then Passes(s, t, reply, seen, c, now) && t.codes == s.codes
            else reply == Failed(ChallengeRefusal(s, c)) && t == s
  {
    if OpenChallenge(s, c, now) && SecretVerifies(s, s.challenges[c].user, verifies) {
      PassingLaw(s, s, seen, c, now);
      assert Apply(s, MfaLogin(seen, c, verifies, now)) == PassChallenge(s, seen, c, now);
    }
  }

  lemma PassingLaw(s: State, m: State, seen: Settings, c: Id, now: Time)
    requires Allocated(s) && OpenChallenge(s, c, now) && m == s.(codes := m.codes)
    ensures var (t, reply) := PassChallenge(m, seen, c, now);
            Passes(s, t, reply, seen, c, now) && t.codes == m.codes
  {
    var u, passed := s.challenges[c].user, m.(challenges := s.challenges[c := s.challenges[c].(usedAt := Some(now))]);
    LoginOpens(s, passed, seen, u, s.users[u].tokenKey, now);
  }

  /** A recovery login succeeds exactly with an open challenge and an unused recovery code of the challenge's user. */
  lemma RecoveryLoginLaw(s: State, seen: Settings, c: Id, code: Id, now: Time)
    requires Allocated(s)
    ensures var (t, reply) := Apply(s, RecoveryLogin(seen, c, code, now));
            if OpenChallenge(s, c, now) && CodeIsUnused(s, s.challenges[c].user, code)
            then Passes(s, t, reply, seen, c, now) && t.codes == s.codes[code := s.codes[code].(usedAt := Some(now))]
            else reply == Failed(ChallengeRefusal(s, c)) && t == s
  {
    if OpenChallenge(s, c, now) && CodeIsUnused(s, s.challenges[c].user, code) {
      var m := s.(codes := s.codes[code := s.codes[code].(usedAt := Some(now))]);
      PassingLaw(s, m, seen, c, now);
      assert Apply(s, RecoveryLogin(seen, c, code, now)) == PassChallenge(m, seen, c, now);
    }
  }

  /** The challenge is spent and its user gets a session. */
  predicate Passes(s: State, t: State, reply: Reply, seen: Settings, c: Id, now: Time)
    requires OpenChallenge(s, c, now)
  {
    var u := s.challenges[c].user;
    && OpensSession(s, t, reply, seen, u, s.users[u].tokenKey, now)
    && t.challenges == s.challenges[c := s.challenges[c].(usedAt := Some(now))]
    && t == s.(next := t.next, sessions := t.sessions, challenges := t.challenges, codes := t.codes)
  }

  /** Enrolling takes a working access token while the settings allow MFA, and replaces the user's unconfirmed factors
      alone by a new one. */
  lemma StartEnrollmentLaw(s: State, seen: Settings, claims: Claims, now: Time)
    requires Allocated(s)
    ensures var (t, reply) := Apply(s, StartEnrollment(seen, claims, now));
            if AccessWorks(s, claims, now) && seen.mfaEnabled then
              && reply == EnrollmentStarted(s.next, s.next + 1)
              && t == s.(next := t.next, factors := t.factors)
              && s.next in t.factors && t.factors[s.next] == Factor(claims.user, s.next + 1, false)
              && (forall f :: f in t.factors && f != s.next ==>
                    f in s.factors && t.factors[f] == s.factors[f] && !IsPending(s.factors[f], claims.user))
              && (forall f :: f in s.factors && f != s.next && !IsPending(s.factors[f], claims.user) ==> f in t.factors)
            else t == s && reply == Failed(if AccessWorks(s, claims, now) then Refused
                                           else AccessRefusal(s, claims, now))
  {
    AccessResolves(s, claims, now);
  }

  predicate IsPending(f: Factor, u: Id) {
    f.user == u && !f.enabled
  }

  /** A factor is enabled exactly with a code that verifies against it, by its owner and as their only one. */
  lemma ConfirmEnrollmentLaw(s: State, claims: Claims, f: Id, verifies: set<Id>, now: Time)
    ensures var (t, reply) := Apply(s, ConfirmEnrollment(claims, f, verifies, now));
            if AccessWorks(s, claims, now) && OwnsSecret(s, claims.user, f, verifies) && !OtherFactor(s, claims.user, f)
            then
              && reply == Enrolled(s.next) && t.factors == s.factors[f := s.factors[f].(enabled := true)]
              && RenewsCodes(s, t, claims.user)
              && t == s.(next := t.next, factors := t.factors, codes := t.codes)
            else t == s && reply == Failed(if !AccessWorks(s, claims, now) then AccessRefusal(s, claims, now)
                                           else if OwnsSecret(s, claims.user, f, verifies) then Refused
                                           else InvalidAuthToken)
  {
    AccessResolves(s, claims, now);
    if f in s.factors { CodesAreRenewed(s, EnableFactor(s, f), claims.user); }
  }

  lemma CodesAreRenewed(s: State, m: State, u: Id)
    requires m.codes == s.codes && m.next == s.next
    ensures RenewsCodes(s, ReplaceRecoveryCodes(m, u), u)
  {
    IssuedCodes(CodesOfOthers(s.codes, u), u, s.next, RECOVERY_CODES);
  }

  predicate OwnsSecret(s: State, u: Id, f: Id, verifies: set<Id>) {
    f in s.factors && s.factors[f].user == u && s.factors[f].secret in verifies
  }

  predicate OtherFactor(s: State, u: Id, f: Id) {
    exists g :: g in s.factors && g != f && s.factors[g].user == u && s.factors[g].enabled
  }

  /** The user's codes are ten new unused ones; other users keep theirs. */
  predicate RenewsCodes(s: State, t: State, u: Id) {
    && (forall c :: s.next <= c < s.next + 10 ==> c in t.codes && t.codes[c] == RecoveryCode(u, None))
    && (forall c :: c in t.codes && !(s.next <= c < s.next + 10) ==>
          c in s.codes && s.codes[c].user != u && t.codes[c] == s.codes[c])
    && (forall c :: c in s.codes && s.codes[c].user != u ==> c in t.codes)
  }

  /** MFA is disabled exactly with a code that verifies; no factor of the user stays enabled and no code usable. */
  lemma DisableMfaLaw(s: State, claims: Claims, verifies: set<Id>, now: Time)
    ensures var (t, reply) := Apply(s, DisableMfa(claims, verifies, now));
            if AccessWorks(s, claims, now) && SecretVerifies(s, claims.user, verifies) then
              && reply == Done && t.factors.Keys == s.factors.Keys && t.codes.Keys == s.codes.Keys
              && t == s.(factors := t.factors, codes := t.codes)
              && (forall f :: f in s.factors ==>
                    t.factors[f] == if s.factors[f].user != claims.user then s.factors[f]
                                    else s.factors[f].(enabled := false))
              && (forall c :: c in s.codes ==>
                    if s.codes[c].user == claims.user then t.codes[c].usedAt.Some? else t.codes[c] == s.codes[c])
            else t == s && reply == Failed(AccessRefusal(s, claims, now))
  {
    AccessResolves(s, claims, now);
  }

  // ---------- OAuth ----------

  /** A login starts with an unused state of its provider that lives ten minutes. */
  lemma StartOAuthLaw(s: State, provider: string, now: Time)
    ensures Apply(s, StartOAuth(provider, now)) ==
            (s.(next := s.next + 1, oauthStates := s.oauthStates[s.next := OAuthState(provider, now + 600, None)]),
             OAuthStarted(s.next))
  {
  }

  /** A state is consumed exactly by its own provider, unused and in time. */
  lemma ConsumeStateLaw(s: State, provider: string, x: Id, now: Time)
    ensures var (t, reply) := Apply(s, ConsumeOAuthState(provider, x, now));
            if x in s.oauthStates && s.oauthStates[x].provider == provider && s.oauthStates[x].usedAt == None &&
               now < s.oauthStates[x].expiresAt
            then
              && reply == OAuthGranted(x) && t.grants == s.grants[x := provider]
              && t == s.(oauthStates := t.oauthStates, grants := t.grants)
              && t.oauthStates == s.oauthStates[x := s.oauthStates[x].(usedAt := Some(now))]
            else t == s && reply == Failed(InvalidAuthToken)
  {
  }

  /** The existing user a profile belongs to: the one linked to it, or else the one of its verified address. */
  predicate BelongsTo(s: State, provider: string, profile: Profile, u: Id) {
    && u in s.users
    && var account := (provider, profile.providerUser);
       if account in s.oauthAccounts then s.oauthAccounts[account] == u
       else profile.emailVerified && profile.email in s.byEmail && s.byEmail[profile.email] == u
  }

  /** A profile that nothing is known of. */
  predicate IsNew(s: State, provider: string, profile: Profile) {
    (provider, profile.providerUser) !in s.oauthAccounts && profile.email !in s.byEmail
  }

  /** A profile logs in its own user if they are enabled, and is linked to them. */
  lemma KnownProfileLaw(s: State, seen: Settings, grant: Id, profile: Profile, now: Time, u: Id)
    requires Allocated(s) && grant in s.grants && BelongsTo(s, s.grants[grant], profile, u)
    ensures var (t, reply) := Apply(s, OAuthLogin(seen, grant, profile, now));
            && t.grants == s.grants - {grant}
            && t == s.(next := t.next, sessions := t.sessions, challenges := t.challenges, grants := t.grants,
                       oauthAccounts := t.oauthAccounts)
            && if profile.email != "" && Enabled(s, u) then
                 && EndsLogin(s, t, reply, seen, u, s.users[u].tokenKey, now)
                 && t.oauthAccounts == s.oauthAccounts[(s.grants[grant], profile.providerUser) := u]
               else t == SpendGrant(s, grant) && reply == Failed(if profile.email == "" then Refused else UserDisabled)
  {
    var m, provider := SpendGrant(s, grant), s.grants[grant];
    if profile.email != "" && Enabled(s, u) {
      LoginEnds(s, LinkAccount(m, provider, profile, u), seen, u, s.users[u].tokenKey, now);
      assert OAuthUser(m, provider, profile) == Ok((m, u));
    }
  }

  /** A profile that belongs to no one makes a new user of its address, and is refused where the address is taken. */
  lemma StrangerLaw(s: State, seen: Settings, grant: Id, profile: Profile, now: Time)
    requires Allocated(s) && grant in s.grants && forall u :: !BelongsTo(s, s.grants[grant], profile, u)
    ensures var (t, reply) := Apply(s, OAuthLogin(seen, grant, profile, now));
            && t.grants == s.grants - {grant}
            && if profile.email != "" && IsNew(s, s.grants[grant], profile) then
                 && OpensSession(s, t, reply, seen, s.next, s.next + 1, now)
                 && t.users == s.users[s.next := User(profile.email, profile.emailVerified, None, s.next + 1, false)]
                 && t.byEmail == s.byEmail[profile.email := s.next]
                 && t.oauthAccounts == s.oauthAccounts[(s.grants[grant], profile.providerUser) := s.next]
                 && t == s.(next := t.next, users := t.users, byEmail := t.byEmail, sessions := t.sessions,
                            grants := t.grants, oauthAccounts := t.oauthAccounts)
               else t == SpendGrant(s, grant) &&
                    reply == Failed(if profile.email != "" && (s.grants[grant], profile.providerUser) in s.oauthAccounts
                                    then Unauthorized else Refused)
  {
    var m, provider := SpendGrant(s, grant), s.grants[grant];
    if (provider, profile.providerUser) in s.oauthAccounts {
      assert !BelongsTo(s, provider, profile, s.oauthAccounts[(provider, profile.providerUser)]);
    } else if profile.email in s.byEmail {
      assert !BelongsTo(s, provider, profile, s.byEmail[profile.email]);
    } else if profile.email != "" {
      NewProfileEnds(s, m, seen, provider, profile, now);
    }
  }

  lemma NewProfileEnds(s: State, m: State, seen: Settings, provider: string, profile: Profile, now: Time)
    requires Allocated(s) && IsNew(s, provider, profile) && m == s.(grants := m.grants) && profile.email != ""
    ensures var (t, reply) := LoginProfile(m, seen, provider, profile, now);
            && OpensSession(s, t, reply, seen, s.next, s.next + 1, now) && t.grants == m.grants
            && t.users == s.users[s.next := User(profile.email, profile.emailVerified, None, s.next + 1, false)]
            && t.byEmail == s.byEmail[profile.email := s.next]
            && t.oauthAccounts == s.oauthAccounts[(provider, profile.providerUser) := s.next]
            && t == m.(next := t.next, users := t.users, byEmail := t.byEmail, sessions := t.sessions,
                       oauthAccounts := t.oauthAccounts)
  {
    var user := User(profile.email, profile.emailVerified, None, s.next + 1, false);
    var linked := LinkAccount(AddUser(m, user), provider, profile, s.next);
    assert OAuthUser(m, provider, profile) == Ok((AddUser(m, user), s.next));
    assert !NeedsMfa(linked, seen, s.next);
    assert LoginProfile(m, seen, provider, profile, now) == Authenticate(linked, seen, s.next, s.next + 1, now);
    LoginOpens(s, linked, seen, s.next, s.next + 1, now);
  }

  lemma OnlyTheNewUser(s: State, t: State, reply: Reply, seen: Settings, now: Time)
    requires Allocated(s)
    ensures t.sessions == s.sessions || OpensSession(s, t, reply, seen, s.next, s.next + 1, now) ==>
              forall x :: x in t.sessions && x !in s.sessions ==> t.sessions[x].user !in s.users
  {
  }

  lemma StrangerReachesNoOne(s: State, seen: Settings, grant: Id, profile: Profile, now: Time)
    requires Allocated(s) && grant in s.grants && forall u :: !BelongsTo(s, s.grants[grant], profile, u)
    ensures ReachesNoOne(s, Apply(s, OAuthLogin(seen, grant, profile, now)).0)
  {
    var (t, reply) := Apply(s, OAuthLogin(seen, grant, profile, now));
    StrangerLaw(s, seen, grant, profile, now);
    OnlyTheNewUser(s, t, reply, seen, now);
  }

  /** No session and no challenge is new for a user who was there before. */
  predicate ReachesNoOne(s: State, t: State) {
    && t.challenges == s.challenges
    && forall x :: x in t.sessions && x !in s.sessions ==> t.sessions[x].user !in s.users
  }

  /** Whatever else a login does, an address its provider has not verified reaches no user who was there before, unless
      the profile was linked to them. */
  lemma UnverifiedReachesNoOne(s: State, seen: Settings, grant: Id, profile: Profile, now: Time)
    requires Allocated(s) && grant in s.grants && !profile.emailVerified
    requires (s.grants[grant], profile.providerUser) !in s.oauthAccounts
    ensures ReachesNoOne(s, Apply(s, OAuthLogin(seen, grant, profile, now)).0)
  {
    StrangerReachesNoOne(s, seen, grant, profile, now);
  }

  // ---------- Administration ----------

  /** Disabling touches one flag, deleting frees the address, and settings change for later reads. */
  lemma AdminLaw(s: State, u: Id, disabled: bool, settings: Settings)
    ensures Apply(s, SetDisabled(u, disabled)) ==
            if u in s.users then (s.(users := s.users[u := s.users[u].(disabled := disabled)]), Done)
            else (s, Failed(Unauthorized))
    ensures Apply(s, DeleteUser(u)) ==
            if u in s.users then (s.(users := s.users - {u}, byEmail := s.byEmail - {s.users[u].email}), Done)
            else (s, Failed(Unauthorized))
    ensures Apply(s, ChangeSettings(settings)) == (s.(settings := settings), Done)
  {
  }

  // ---------- Every session handed out ----------

  /** The reply's session is the one session the step added: live, and of the user the claims name. */
  predicate HandsOutItsSession(s: State, t: State, reply: Reply) {
    reply.Authenticated? ==>
      && reply.session !in s.sessions && t.sessions.Keys == s.sessions.Keys + {reply.session}
      && IsLive(t.sessions[reply.session]) && t.sessions[reply.session].user == reply.claims.user
  }

  lemma OAuthHandsOut(s: State, seen: Settings, grant: Id, profile: Profile, now: Time)
    requires Allocated(s)
    ensures var (t, reply) := Apply(s, OAuthLogin(seen, grant, profile, now)); HandsOutItsSession(s, t, reply)
  {
    if grant in s.grants {
      if u :| BelongsTo(s, s.grants[grant], profile, u) {
        KnownProfileLaw(s, seen, grant, profile, now, u);
      } else {
        StrangerLaw(s, seen, grant, profile, now);
      }
    }
  }

  lemma EndingHandsOut(s: State, t: State, reply: Reply, seen: Settings, u: Id, tokenKey: Id, now: Time)
    requires EndsLogin(s, t, reply, seen, u, tokenKey, now)
    ensures HandsOutItsSession(s, t, reply)
  {
  }

  lemma FinishLoginEnds(s: State, seen: Settings, login: Id, now: Time)
    requires Allocated(s)
    ensures var (t, reply) := Apply(s, FinishLogin(seen, login, now));
            HandsOutItsSession(s, t, reply) && t.users == s.users
  {
    var (t, reply) := Apply(s, FinishLogin(seen, login, now));
    if login in s.logins && Enabled(s, s.logins[login].user) {
      FinishLoginLaw(s, seen, login, now);
      EndingHandsOut(s, t, reply, seen, s.logins[login].user, s.logins[login].tokenKey, now);
    } else {
      FinishLoginRefused(s, seen, login, now);
    }
  }

  lemma PasswordHandsOut(s: State, r: Request)
    requires Allocated(s) && (r.Signup? || r.FinishLogin? || r.Refresh?)
    ensures HandsOutItsSession(s, Apply(s, r).0, Apply(s, r).1)
  {
    match r
    case Signup(seen, email, password, now) => SignupLaw(s, seen, email, password, now);
    case FinishLogin(seen, login, now) => FinishLoginEnds(s, seen, login, now);
    case Refresh(seen, x, now) => RefreshLaw(s, seen, x, now);
  }

  lemma CodeHandsOut(s: State, r: Request)
    requires Allocated(s) && (r.OtpLogin? || r.MfaLogin? || r.RecoveryLogin?)
    ensures HandsOutItsSession(s, Apply(s, r).0, Apply(s, r).1)
  {
    match r
    case OtpLogin(seen, email, k, now) => OtpLoginLaw(s, seen, email, k, now);
    case MfaLogin(seen, c, verifies, now) => MfaLoginLaw(s, seen, c, verifies, now);
    case RecoveryLogin(seen, c, code, now) => RecoveryLoginLaw(s, seen, c, code, now);
  }

  lemma AuthenticatedLaw(s: State, r: Request)
    requires Allocated(s)
    ensures HandsOutItsSession(s, Apply(s, r).0, Apply(s, r).1)
  {
    if r.Signup? || r.FinishLogin? || r.Refresh? {
      PasswordHandsOut(s, r);
    } else if r.OtpLogin? || r.MfaLogin? || r.RecoveryLogin? {
      CodeHandsOut(s, r);
    } else if r.OAuthLogin? {
      OAuthHandsOut(s, r.seen, r.grant, r.profile, r.now);
    } else {
      OnlyLoginsAuthenticate(s, r);
    }
  }

  // ---------- The password last set ----------

  /** The user whose password a request sets. */
  function Resets(s: State, r: Request): Option<Id> {
    if r.ConfirmReset? && Apply(s, r).1 == Done && r.token in s.tokens then Some(s.tokens[r.token].user) else None
  }

  lemma OAuthKeepsUsers(s: State, seen: Settings, grant: Id, profile: Profile, now: Time, u: Id)
    requires Allocated(s) && u in s.users
    ensures var t := Apply(s, OAuthLogin(seen, grant, profile, now)).0; u in t.users && t.users[u] == s.users[u]
  {
    if grant in s.grants {
      if v :| BelongsTo(s, s.grants[grant], profile, v) {
        KnownProfileLaw(s, seen, grant, profile, now, v);
      } else {
        StrangerLaw(s, seen, grant, profile, now);
      }
    }
  }

  lemma PasswordLoginKeepsUsers(s: State, r: Request)
    requires Allocated(s) && (r.BeginLogin? || r.FinishLogin? || r.Refresh?)
    ensures Apply(s, r).0.users == s.users
  {
    match r
    case BeginLogin(email, password) => PasswordLaw(s, email, password);
    case FinishLogin(seen, login, now) => FinishLoginEnds(s, seen, login, now);
    case Refresh(seen, x, now) => RefreshLaw(s, seen, x, now);
  }

  lemma CodeLoginKeepsUsers(s: State, r: Request)
    requires Allocated(s) && (r.OtpLogin? || r.MfaLogin? || r.RecoveryLogin?)
    ensures Apply(s, r).0.users == s.users
  {
    match r
    case OtpLogin(seen, email, k, now) => OtpLoginLaw(s, seen, email, k, now);
    case MfaLogin(seen, c, verifies, now) => MfaLoginLaw(s, seen, c, verifies, now);
    case RecoveryLogin(seen, c, code, now) => RecoveryLoginLaw(s, seen, c, code, now);
  }

  lemma OthersKeepUsers(s: State, r: Request)
    requires r.Logout? || r.RevokeSession? || r.RequestToken? || r.RequestEmailChange? || r.ChangeSettings?
    ensures Apply(s, r).0.users == s.users
  {
    match r
    case Logout(x, now) => LogoutLaw(s, x, now);
    case RevokeSession(claims, x, now) => RevokeSessionLaw(s, claims, x, now);
    case RequestToken(seen, kind, email, now) =>
      RequestTokenLaw(s, seen, kind, email, now);
      IssueLaw(s, seen, kind, email, "", now);
    case RequestEmailChange(seen, u, password, newEmail, now) =>
      RequestEmailChangeLaw(s, seen, u, password, newEmail, now);
      if u in s.users { IssueLaw(s, seen, EmailChange, s.users[u].email, newEmail, now); }
    case ChangeSettings(_) =>
  }

  lemma FactorsKeepUsers(s: State, r: Request)
    requires Allocated(s) && IsFactorStep(r)
    ensures Apply(s, r).0.users == s.users
  {
    match r
    case StartEnrollment(seen, claims, now) => StartEnrollmentLaw(s, seen, claims, now);
    case ConfirmEnrollment(claims, f, verifies, now) => ConfirmEnrollmentLaw(s, claims, f, verifies, now);
    case DisableMfa(claims, verifies, now) => DisableMfaLaw(s, claims, verifies, now);
  }

  lemma OAuthStatesKeepUsers(s: State, r: Request)
    requires r.StartOAuth? || r.ConsumeOAuthState?
    ensures Apply(s, r).0.users == s.users
  {
    match r
    case StartOAuth(provider, now) => StartOAuthLaw(s, provider, now);
    case ConsumeOAuthState(provider, x, now) => ConsumeStateLaw(s, provider, x, now);
  }

  lemma UserStepKeepsPassword(s: State, r: Request, u: Id)
    requires Allocated(s) && u in s.users && (r.Signup? || r.LogoutAll? || r.ConfirmVerification?)
    ensures var t := Apply(s, r).0; u in t.users && t.users[u].password == s.users[u].password
  {
    match r
    case Signup(seen, email, password, now) => SignupLaw(s, seen, email, password, now);
    case LogoutAll(v, now) => LogoutAllLaw(s, v, now);
    case ConfirmVerification(email, k, now) => VerificationLaw(s, email, k, now);
  }

  lemma DisablingKeepsPassword(s: State, v: Id, disabled: bool, u: Id)
    requires u in s.users
    ensures var t := Apply(s, SetDisabled(v, disabled)).0; u in t.users && t.users[u].password == s.users[u].password
  {
  }

  lemma DeletingKeepsOthers(s: State, v: Id, u: Id)
    requires u in s.users && u != v
    ensures var t := Apply(s, DeleteUser(v)).0; u in t.users && t.users[u] == s.users[u]
  {
  }

  lemma ConfirmKeepsPassword(s: State, r: Request, u: Id)
    requires Allocated(s) && u in s.users && Resets(s, r) != Some(u) && (r.ConfirmReset? || r.ConfirmEmailChange?)
    ensures var t := Apply(s, r).0; u in t.users && t.users[u].password == s.users[u].password
  {
    match r
    case ConfirmReset(email, k, password, now) => ResetLaw(s, email, k, password, now);
    case ConfirmEmailChange(seen, k, now) => EmailChangeLaw(s, seen, k, now);
  }

  /** Only a reset changes a user's password, and only deletion ends the user. */
  lemma StepKeepsPassword(s: State, r: Request, u: Id)
    requires Allocated(s) && u in s.users && r != DeleteUser(u) && Resets(s, r) != Some(u)
    ensures var t := Apply(s, r).0; u in t.users && t.users[u].password == s.users[u].password
  {
    if r.BeginLogin? || r.FinishLogin? || r.Refresh? {
      PasswordLoginKeepsUsers(s, r);
    } else if r.OtpLogin? || r.MfaLogin? || r.RecoveryLogin? {
      CodeLoginKeepsUsers(s, r);
    } else if r.OAuthLogin? {
      OAuthKeepsUsers(s, r.seen, r.grant, r.profile, r.now, u);
    } else if r.ConfirmReset? || r.ConfirmEmailChange? {
      ConfirmKeepsPassword(s, r, u);
    } else if IsFactorStep(r) {
      FactorsKeepUsers(s, r);
    } else if r.StartOAuth? || r.ConsumeOAuthState? {
      OAuthStatesKeepUsers(s, r);
    } else if r.Signup? || r.LogoutAll? || r.ConfirmVerification? {
      UserStepKeepsPassword(s, r, u);
    } else if r.SetDisabled? {
      DisablingKeepsPassword(s, r.user, r.disabled, u);
    } else if r.DeleteUser? {
      DeletingKeepsOthers(s, r.user, u);
    } else {
      OthersKeepUsers(s, r);
    }
  }

  /** No request of the run resets the user's password or deletes them. */
  predicate KeepsPassword(s: State, requests: seq<Request>, u: Id)
    decreases |requests|
  {
    requests == [] ||
    (requests[0] != DeleteUser(u) && Resets(s, requests[0]) != Some(u) &&
     KeepsPassword(Apply(s, requests[0]).0, requests[1..], u))
  }

  lemma {:induction false} RunKeepsPassword(s: State, requests: seq<Request>, u: Id)
    requires Allocated(s) && u in s.users && KeepsPassword(s, requests, u)
    ensures var t := Run(s, requests); u in t.users && t.users[u].password == s.users[u].password
    decreases |requests|
  {
    if requests != [] {
      StepEffect(s, requests[0]);
      StepKeepsPassword(s, requests[0], u);
      RunKeepsPassword(Apply(s, requests[0]).0, requests[1..], u);
    }
  }

  /** From a reset on until the next, the user's address logs in with exactly the password that was set. */
  lemma LastPasswordLogsIn(s: State, reset: Request, requests: seq<Request>, email: string, password: string)
    requires Allocated(s) && Resets(s, reset).Some?
    requires KeepsPassword(Apply(s, reset).0, requests, Resets(s, reset).value)
    ensures var u, t := Resets(s, reset).value, Run(Apply(s, reset).0, requests);
            email in t.byEmail && t.byEmail[email] == u && Enabled(t, u) ==>
              (Apply(t, BeginLogin(email, password)).1.CredentialsRead? <==> password == reset.password)
  {
    var u, m := Resets(s, reset).value, Apply(s, reset).0;
    ResetLaw(s, reset.email, reset.token, reset.password, reset.now);
    StepEffect(s, reset);
    RunKeepsPassword(m, requests, u);
    PasswordLaw(Run(m, requests), email, password);
  }
}
