/** The promises of the auth code, over every run of its transactions. */
module AppAuthTheorems {
  import opened Text
  import opened AppAuth
  import opened AppAuthRuns

  // ---------- Every reachable state ----------

  lemma {:induction false} RunAllocates(s: State, requests: seq<Request>)
    requires Allocated(s)
    ensures Allocated(Run(s, requests)) && s.next <= Run(s, requests).next
    decreases |requests|
  {
    if requests != [] {
      StepEffect(s, requests[0]);
      RunAllocates(Apply(s, requests[0]).0, requests[1..]);
    }
  }

  lemma {:induction false} RunConcat(s: State, a: seq<Request>, b: seq<Request>)
    ensures Run(s, a + b) == Run(Run(s, a), b)
    decreases |a|
  {
    if a == [] {
      assert a + b == b;
    } else {
      assert (a + b)[1..] == a[1..] + b;
      RunConcat(Apply(s, a[0]).0, a[1..], b);
    }
  }

  // ---------- Families are chains ----------

  /** `c` lists the sessions of a family in order: each but the last is rotated, revoked and replaced by the next. */
  ghost predicate IsChain(sessions: map<Id, Session>, family: Id, c: seq<Id>) {
    && c != []
    && (forall i, j :: 0 <= i < j < |c| ==> c[i] < c[j])
    && (forall i :: 0 <= i < |c| ==> c[i] in sessions && sessions[c[i]].family == family)
    && (forall x {:trigger Listed(c, x)} :: x in sessions && sessions[x].family == family ==> Listed(c, x))
    && (forall i :: 0 <= i < |c| - 1 ==> Replaced(sessions[c[i]], c[i + 1]))
    && sessions[c[|c| - 1]].rotatedAt.None? && sessions[c[|c| - 1]].replacedBy.None?
  }

  predicate Listed(c: seq<Id>, x: Id) {
    x in c
  }

  predicate Replaced(x: Session, successor: Id) {
    x.rotatedAt.Some? && x.revokedAt.Some? && x.replacedBy == Some(successor)
  }

  ghost predicate HasChain(sessions: map<Id, Session>, f: Id) {
    exists c :: IsChain(sessions, f, c)
  }

  ghost predicate Chained(sessions: map<Id, Session>) {
    forall x :: x in sessions ==> HasChain(sessions, sessions[x].family)
  }

  lemma RevokingKeepsChain(a: map<Id, Session>, b: map<Id, Session>, f: Id, c: seq<Id>)
    requires RevokesOnly(a, b) && IsChain(a, f, c)
    ensures IsChain(b, f, c)
  {
    forall i | 0 <= i < |c| ensures RevokedCopy(a[c[i]], b[c[i]]) {}
    forall x | x in b && b[x].family == f ensures Listed(c, x) {
      assert RevokedCopy(a[x], b[x]);
    }
  }

  lemma OpeningKeepsChain(a: map<Id, Session>, b: map<Id, Session>, next: Id, x: Id, f: Id, c: seq<Id>)
    requires Opens(a, b, next, x) && IsChain(a, f, c) && f < next
    ensures IsChain(b, f, c)
  {
    forall i | 0 <= i < |c| ensures b[c[i]] == a[c[i]] {}
    forall z | z in b && b[z].family == f ensures Listed(c, z) {
      assert z in a;
    }
  }

  /** The live session of a family is the last of its chain. */
  lemma UnrotatedIsLast(sessions: map<Id, Session>, f: Id, c: seq<Id>, x: Id)
    requires IsChain(sessions, f, c) && x in sessions && sessions[x].family == f
    requires sessions[x].rotatedAt.None? || sessions[x].revokedAt.None?
    ensures x == c[|c| - 1]
  {
    assert Listed(c, x);
    var i :| 0 <= i < |c| && c[i] == x;
    assert i < |c| - 1 ==> Replaced(sessions[c[i]], c[i + 1]);
  }

  lemma RotationExtendsChain(a: map<Id, Session>, b: map<Id, Session>, next: Id, x: Id, y: Id, c: seq<Id>)
    requires Rotates(a, b, next, x, y) && IsChain(a, a[x].family, c)
    requires forall z :: z in a ==> z < next
    ensures IsChain(b, a[x].family, c + [y])
  {
    UnrotatedIsLast(a, a[x].family, c, x);
    var f, d := a[x].family, c + [y];
    forall k | 0 <= k < |d| - 1 ensures d[k] == c[k] && Replaced(b[d[k]], d[k + 1]) {
      if k < |c| - 1 { assert c[k] != x && Replaced(a[c[k]], c[k + 1]); }
    }
    forall z | z in b && b[z].family == f ensures Listed(d, z) {
      if z == y {
        assert d[|c|] == y;
      } else {
        assert Listed(c, z);
        var k :| 0 <= k < |c| && c[k] == z;
        assert d[k] == z;
      }
    }
  }

  lemma RotationKeepsOtherChain(a: map<Id, Session>, b: map<Id, Session>, next: Id, x: Id, y: Id, f: Id, c: seq<Id>)
    requires Rotates(a, b, next, x, y) && IsChain(a, f, c) && f != a[x].family
    ensures IsChain(b, f, c)
  {
    forall i | 0 <= i < |c| ensures c[i] != x && b[c[i]] == a[c[i]] {}
    forall z | z in b && b[z].family == f ensures Listed(c, z) {
      assert z in a;
    }
  }

  lemma StepKeepsChains(s: State, r: Request)
    requires Allocated(s) && Chained(s.sessions)
    ensures Chained(Apply(s, r).0.sessions)
  {
    StepEffect(s, r);
    EffectKeepsChains(s, Apply(s, r).0);
  }

  lemma EffectKeepsChains(s: State, t: State)
    requires Allocated(s) && Chained(s.sessions) && SessionEffect(s, t)
    ensures Chained(t.sessions)
  {
    if RevokesOnly(s.sessions, t.sessions) {
      RevokingKeepsChains(s.sessions, t.sessions);
    } else if x :| Opens(s.sessions, t.sessions, s.next, x) {
      OpeningKeepsChains(s.sessions, t.sessions, s.next, x);
    } else {
      var x, y :| Rotates(s.sessions, t.sessions, s.next, x, y);
      RotationKeepsChains(s.sessions, t.sessions, s.next, x, y);
    }
  }

  lemma RevokingKeepsChains(a: map<Id, Session>, b: map<Id, Session>)
    requires Chained(a) && RevokesOnly(a, b)
    ensures Chained(b)
  {
    forall z | z in b ensures HasChain(b, b[z].family) {
      assert RevokedCopy(a[z], b[z]);
      assert HasChain(a, a[z].family);
      var c :| IsChain(a, a[z].family, c);
      RevokingKeepsChain(a, b, a[z].family, c);
    }
  }

  lemma OpeningKeepsChains(a: map<Id, Session>, b: map<Id, Session>, next: Id, x: Id)
    requires Chained(a) && Opens(a, b, next, x) && forall z :: z in a ==> a[z].family < next
    ensures Chained(b)
  {
    forall z | z in b ensures HasChain(b, b[z].family) {
      if z == x {
        assert IsChain(b, b[x].family, [x]);
      } else {
        assert HasChain(a, a[z].family);
        var c :| IsChain(a, a[z].family, c);
        OpeningKeepsChain(a, b, next, x, a[z].family, c);
      }
    }
  }

  lemma RotationKeepsChains(a: map<Id, Session>, b: map<Id, Session>, next: Id, x: Id, y: Id)
    requires Chained(a) && Rotates(a, b, next, x, y) && forall z :: z in a ==> z < next
    ensures Chained(b)
  {
    forall z | z in b ensures HasChain(b, b[z].family) {
      var w := if z == y then x else z;
      assert b[z].family == a[w].family;
      assert HasChain(a, a[w].family);
      var c :| IsChain(a, a[w].family, c);
      if a[w].family == a[x].family {
        RotationExtendsChain(a, b, next, x, y, c);
      } else {
        RotationKeepsOtherChain(a, b, next, x, y, a[w].family, c);
      }
    }
  }

  lemma {:induction false} RunKeepsChains(s: State, requests: seq<Request>)
    requires Allocated(s) && Chained(s.sessions)
    ensures Chained(Run(s, requests).sessions)
    decreases |requests|
  {
    if requests != [] {
      StepEffect(s, requests[0]);
      StepKeepsChains(s, requests[0]);
      RunKeepsChains(Apply(s, requests[0]).0, requests[1..]);
    }
  }

  lemma AtMostOneUnrevoked(sessions: map<Id, Session>, x: Id, y: Id)
    requires Chained(sessions) && OtherUnrevoked(sessions, x, y)
    ensures x == y
  {
    assert HasChain(sessions, sessions[x].family);
    var c :| IsChain(sessions, sessions[x].family, c);
    UnrotatedIsLast(sessions, sessions[x].family, c, x);
    UnrotatedIsLast(sessions, sessions[x].family, c, y);
  }

  /** In every reachable state the sessions of each family form one chain, of which only the last can be unrevoked. */
  lemma FamiliesAreChains(settings: Settings, requests: seq<Request>)
    ensures Chained(Run(Initial(settings), requests).sessions)
    ensures forall x, y :: OtherUnrevoked(Run(Initial(settings), requests).sessions, x, y) ==> x == y
  {
    RunKeepsChains(Initial(settings), requests);
    var sessions := Run(Initial(settings), requests).sessions;
    forall x, y | OtherUnrevoked(sessions, x, y) ensures x == y {
      AtMostOneUnrevoked(sessions, x, y);
    }
  }

  /** Two unrevoked sessions of one family. */
  predicate OtherUnrevoked(sessions: map<Id, Session>, x: Id, y: Id) {
    && x in sessions && y in sessions && sessions[x].family == sessions[y].family
    && sessions[x].revokedAt.None? && sessions[y].revokedAt.None?
  }

  // ---------- A replayed family is dead for good ----------

  ghost predicate Dead(s: State, f: Id) {
    forall x :: x in s.sessions && s.sessions[x].family == f ==> s.sessions[x].revokedAt.Some?
  }

  ghost predicate SameMembers(s: State, t: State, f: Id) {
    forall x :: (x in s.sessions && s.sessions[x].family == f) <==> (x in t.sessions && t.sessions[x].family == f)
  }

  lemma DeadStays(s: State, t: State, f: Id)
    requires Allocated(s) && SessionEffect(s, t) && Dead(s, f) && f < s.next
    ensures Dead(t, f) && SameMembers(s, t, f)
  {
    if RevokesOnly(s.sessions, t.sessions) {
      forall x | x in s.sessions ensures RevokedCopy(s.sessions[x], t.sessions[x]) {}
    }
  }

  lemma {:induction false} DeadForever(s: State, f: Id, requests: seq<Request>)
    requires Allocated(s) && Dead(s, f) && f < s.next
    ensures Dead(Run(s, requests), f) && SameMembers(s, Run(s, requests), f)
    decreases |requests|
  {
    if requests != [] {
      StepEffect(s, requests[0]);
      var t := Apply(s, requests[0]).0;
      DeadStays(s, t, f);
      DeadForever(t, f, requests[1..]);
    }
  }

  /** Presenting a rotated token is refused and revokes its family; no later step revives or extends it. */
  lemma ReplayKillsFamily(s: State, seen: Settings, x: Id, now: Time, requests: seq<Request>)
    requires Allocated(s) && x in s.sessions && s.sessions[x].rotatedAt.Some? && s.sessions[x].user in s.users
    ensures var (t, reply) := Apply(s, Refresh(seen, x, now));
            var f, later := s.sessions[x].family, Run(t, requests);
            reply == Failed(InvalidRefreshToken) && Dead(later, f) && SameMembers(s, later, f)
  {
    var t := Apply(s, Refresh(seen, x, now)).0;
    StepEffect(s, Refresh(seen, x, now));
    DeadForever(t, s.sessions[x].family, requests);
  }

  // ---------- Expelled users ----------

  /** The user's sessions older than `bound` are revoked and their token key is younger. */
  ghost predicate Expelled(s: State, u: Id, bound: Id) {
    && (forall x :: x in s.sessions && x < bound && s.sessions[x].user == u ==> s.sessions[x].revokedAt.Some?)
    && (u in s.users ==> s.users[u].tokenKey >= bound)
  }

  lemma ExpelledStays(s: State, t: State, u: Id, bound: Id)
    requires SessionEffect(s, t) && KeyEffect(s, t) && Expelled(s, u, bound) && bound <= s.next
    ensures Expelled(t, u, bound)
  {
    if RevokesOnly(s.sessions, t.sessions) {
      forall x | x in s.sessions ensures RevokedCopy(s.sessions[x], t.sessions[x]) {}
    }
  }

  lemma {:induction false} ExpelledForever(s: State, u: Id, bound: Id, requests: seq<Request>)
    requires Allocated(s) && Expelled(s, u, bound) && bound <= s.next
    ensures Expelled(Run(s, requests), u, bound)
    decreases |requests|
  {
    if requests != [] {
      StepEffect(s, requests[0]);
      var t := Apply(s, requests[0]).0;
      ExpelledStays(s, t, u, bound);
      ExpelledForever(t, u, bound, requests[1..]);
    }
  }

  /** The user a successful logout-all, password reset or email change acts on. */
  function ExpelledBy(s: State, r: Request): Option<Id> {
    if Apply(s, r).1 != Done then None
    else match r
      case LogoutAll(u, _) => Some(u)
      case ConfirmReset(_, token, _, _) => if token in s.tokens then Some(s.tokens[token].user) else None
      case ConfirmEmailChange(_, token, _) => if token in s.tokens then Some(s.tokens[token].user) else None
      case _ => None
  }

  lemma StepExpels(s: State, r: Request)
    requires Allocated(s) && ExpelledBy(s, r).Some?
    ensures Expelled(Apply(s, r).0, ExpelledBy(s, r).value, s.next)
  {
  }

  lemma ExpelledIsPowerless(s: State, u: Id, bound: Id, seen: Settings, x: Id, claims: Claims, now: Time)
    requires Allocated(s) && Expelled(s, u, bound)
    ensures x < bound && x in s.sessions && s.sessions[x].user == u ==> Apply(s, Refresh(seen, x, now)).1.Failed?
    ensures claims.user == u && claims.tokenKey < bound ==> ResolveAccessToken(s, claims, now).Err?
  {
  }

  /** After logout-all, a password reset or an email change, no session created before it can be refreshed again and
      no access token whose key was issued before it resolves again, whatever happens next. */
  lemma ExpulsionIsFinal(s: State, r: Request, requests: seq<Request>, seen: Settings, x: Id, claims: Claims, now: Time)
    requires Allocated(s) && ExpelledBy(s, r).Some?
    ensures var u, later := ExpelledBy(s, r).value, Run(Apply(s, r).0, requests);
            && (x in s.sessions && s.sessions[x].user == u ==> Apply(later, Refresh(seen, x, now)).1.Failed?)
            && (claims.user == u && claims.tokenKey < s.next ==> ResolveAccessToken(later, claims, now).Err?)
  {
    var u, t := ExpelledBy(s, r).value, Apply(s, r).0;
    StepEffect(s, r);
    StepExpels(s, r);
    ExpelledForever(t, u, s.next, requests);
    RunAllocates(t, requests);
    if x in s.sessions { SessionKeepsUserAfter(s, r, requests, x); }
    ExpelledIsPowerless(Run(t, requests), u, s.next, seen, x, claims, now);
  }

  lemma SessionKeepsUserAfter(s: State, r: Request, requests: seq<Request>, x: Id)
    requires Allocated(s) && x in s.sessions
    ensures var t := Run(Apply(s, r).0, requests); x in t.sessions && t.sessions[x].user == s.sessions[x].user
  {
    SessionKeepsUser(s, [r] + requests, x);
    assert ([r] + requests)[1..] == requests;
  }

  lemma {:induction false} SessionKeepsUser(s: State, requests: seq<Request>, x: Id)
    requires Allocated(s) && x in s.sessions
    ensures var t := Run(s, requests); x in t.sessions && t.sessions[x].user == s.sessions[x].user
    decreases |requests|
  {
    if requests != [] {
      var t := Apply(s, requests[0]).0;
      StepEffect(s, requests[0]);
      if RevokesOnly(s.sessions, t.sessions) { assert RevokedCopy(s.sessions[x], t.sessions[x]); }
      SessionKeepsUser(t, requests[1..], x);
    }
  }

  lemma PasswordMintsOldKey(s: State, r: Request)
    requires Allocated(s) && Apply(s, r).1.Authenticated? && (r.Signup? || r.FinishLogin? || r.Refresh?)
    ensures Apply(s, r).1.claims.tokenKey < Apply(s, r).0.next
  {
  }

  lemma CodeMintsOldKey(s: State, r: Request)
    requires Allocated(s) && Apply(s, r).1.Authenticated? && (r.OtpLogin? || r.MfaLogin? || r.RecoveryLogin?)
    ensures Apply(s, r).1.claims.tokenKey < Apply(s, r).0.next
  {
  }

  /** Every access token the auth code hands out carries a key from before the next step. */
  lemma MintedKeysAreOld(s: State, r: Request)
    requires Allocated(s) && Apply(s, r).1.Authenticated?
    ensures Apply(s, r).1.claims.tokenKey < Apply(s, r).0.next
  {
    if r.OAuthLogin? {
      OAuthMintsOldKey(s, r.seen, r.grant, r.profile, r.now);
    } else if r.Signup? || r.FinishLogin? || r.Refresh? {
      PasswordMintsOldKey(s, r);
    } else if IsLogin(r) {
      CodeMintsOldKey(s, r);
    } else {
      OnlyLoginsAuthenticate(s, r);
    }
  }

  predicate IsLogin(r: Request) {
    r.Signup? || r.FinishLogin? || r.Refresh? || r.OtpLogin? || r.MfaLogin? || r.RecoveryLogin? || r.OAuthLogin?
  }

  lemma OnlyLoginsAuthenticate(s: State, r: Request)
    requires !IsLogin(r)
    ensures !Apply(s, r).1.Authenticated?
  {
  }

  lemma OAuthMintsOldKey(s: State, seen: Settings, grant: Id, profile: Profile, now: Time)
    requires Allocated(s) && DoOAuthLogin(s, seen, grant, profile, now).1.Authenticated?
    ensures var (t, reply) := DoOAuthLogin(s, seen, grant, profile, now); reply.claims.tokenKey < t.next
  {
    var m, provider := SpendGrant(s, grant), s.grants[grant];
    SpendGrantEffect(s, grant);
    OAuthUserEffect(m, provider, profile);
    var (t, u) := OAuthUser(m, provider, profile).value;
    LoginMintsKey(LinkAccount(t, provider, profile, u), seen, u, t.users[u].tokenKey, now);
  }

  lemma LoginMintsKey(s: State, settings: Settings, u: Id, tokenKey: Id, now: Time)
    ensures var (t, reply) := LoginOrChallenge(s, settings, u, tokenKey, now);
            s.next <= t.next && (reply.Authenticated? ==> reply.claims.tokenKey == tokenKey)
  {
  }

  // ---------- One-time credentials ----------

  datatype Credential =
    | TokenCredential(token: Id)
    | ChallengeCredential(challenge: Id)
    | CodeCredential(code: Id)
    | OAuthCredential(state: Id)

  predicate Unused(s: State, c: Credential) {
    match c
    case TokenCredential(k) => k in s.tokens && s.tokens[k].usedAt.None?
    case ChallengeCredential(k) => k in s.challenges && s.challenges[k].usedAt.None?
    case CodeCredential(k) => k in s.codes && s.codes[k].usedAt.None?
    case OAuthCredential(k) => k in s.oauthStates && s.oauthStates[k].usedAt.None?
  }

  function CredentialId(c: Credential): Id {
    match c
    case TokenCredential(k) => k
    case ChallengeCredential(k) => k
    case CodeCredential(k) => k
    case OAuthCredential(k) => k
  }

  lemma SpentStays(s: State, t: State, c: Credential)
    requires CredentialEffect(s, t) && CredentialId(c) < s.next && !Unused(s, c)
    ensures !Unused(t, c)
  {
  }

  lemma {:induction false} SpentForever(s: State, requests: seq<Request>, c: Credential)
    requires Allocated(s) && CredentialId(c) < s.next && !Unused(s, c)
    ensures !Unused(Run(s, requests), c)
    decreases |requests|
  {
    if requests != [] {
      StepEffect(s, requests[0]);
      SpentStays(s, Apply(s, requests[0]).0, c);
      SpentForever(Apply(s, requests[0]).0, requests[1..], c);
    }
  }

  /** The credentials a request succeeds with. */
  predicate SucceedsWith(s: State, r: Request, c: Credential) {
    && !Apply(s, r).1.Failed?
    && match r
       case OtpLogin(_, _, token, _) => c == TokenCredential(token)
       case ConfirmVerification(_, token, _) => c == TokenCredential(token)
       case ConfirmReset(_, token, _, _) => c == TokenCredential(token)
       case ConfirmEmailChange(_, token, _) => c == TokenCredential(token)
       case MfaLogin(_, challenge, _, _) => c == ChallengeCredential(challenge)
       case RecoveryLogin(_, challenge, code, _) => c == ChallengeCredential(challenge) || c == CodeCredential(code)
       case ConsumeOAuthState(_, state, _) => c == OAuthCredential(state)
       case _ => false
  }

  /** What the end of a login route leaves alone. */
  lemma LoginKeeps(s: State, settings: Settings, u: Id, tokenKey: Id, now: Time)
    ensures var t := LoginOrChallenge(s, settings, u, tokenKey, now).0;
            t.tokens == s.tokens && (!settings.mfaEnabled ==> t.challenges == s.challenges)
  {
  }

  lemma OtpLoginSpends(s: State, seen: Settings, email: string, token: Id, now: Time)
    requires Allocated(s) && !DoOtpLogin(s, seen, email, token, now).1.Failed?
    ensures var (c, t) := (TokenCredential(token), DoOtpLogin(s, seen, email, token, now).0);
            Unused(s, c) && !Unused(t, c) && CredentialId(c) < s.next
  {
    var u := s.tokens[token].user;
    LoginKeeps(UseToken(s, token, now), seen, u, s.users[u].tokenKey, now);
  }

  lemma OtpSuccessSpends(s: State, r: Request)
    requires Allocated(s) && r.OtpLogin? && !Apply(s, r).1.Failed?
    ensures var c := TokenCredential(r.token); Unused(s, c) && !Unused(Apply(s, r).0, c) && CredentialId(c) < s.next
  {
    OtpLoginSpends(s, r.seen, r.email, r.token, r.now);
  }

  lemma VerificationSpends(s: State, r: Request)
    requires Allocated(s) && r.ConfirmVerification? && !Apply(s, r).1.Failed?
    ensures var c := TokenCredential(r.token); Unused(s, c) && !Unused(Apply(s, r).0, c) && CredentialId(c) < s.next
  {
  }

  lemma ExpellingSpends(s: State, r: Request)
    requires Allocated(s) && (r.ConfirmReset? || r.ConfirmEmailChange?) && !Apply(s, r).1.Failed?
    ensures var c := TokenCredential(r.token); Unused(s, c) && !Unused(Apply(s, r).0, c) && CredentialId(c) < s.next
  {
  }

  lemma TokenSuccessSpends(s: State, r: Request, c: Credential)
    requires Allocated(s) && SucceedsWith(s, r, c) && c.TokenCredential?
    ensures Unused(s, c) && !Unused(Apply(s, r).0, c) && CredentialId(c) < s.next
  {
    if r.OtpLogin? {
      OtpSuccessSpends(s, r);
    } else if r.ConfirmVerification? {
      VerificationSpends(s, r);
    } else {
      ExpellingSpends(s, r);
    }
  }

  lemma FactorSuccessSpends(s: State, r: Request, c: Credential)
    requires Allocated(s) && SucceedsWith(s, r, c) && (c.ChallengeCredential? || c.CodeCredential?)
    ensures Unused(s, c) && !Unused(Apply(s, r).0, c) && CredentialId(c) < s.next
  {
  }

  lemma OAuthSuccessSpends(s: State, r: Request, c: Credential)
    requires Allocated(s) && SucceedsWith(s, r, c) && c.OAuthCredential?
    ensures Unused(s, c) && !Unused(Apply(s, r).0, c) && CredentialId(c) < s.next
  {
  }

  lemma SuccessSpends(s: State, r: Request, c: Credential)
    requires Allocated(s) && SucceedsWith(s, r, c)
    ensures Unused(s, c) && !Unused(Apply(s, r).0, c) && CredentialId(c) < s.next
  {
    if c.TokenCredential? {
      TokenSuccessSpends(s, r, c);
    } else if c.OAuthCredential? {
      OAuthSuccessSpends(s, r, c);
    } else {
      FactorSuccessSpends(s, r, c);
    }
  }

  function Before(s: State, requests: seq<Request>, i: nat): State
    requires i <= |requests|
  {
    Run(s, requests[..i])
  }

  lemma BeforeNext(s: State, requests: seq<Request>, i: nat)
    requires i < |requests|
    ensures Before(s, requests, i + 1) == Apply(Before(s, requests, i), requests[i]).0
  {
    assert requests[..i + 1] == requests[..i] + [requests[i]];
    RunConcat(s, requests[..i], [requests[i]]);
  }

  lemma SpentLater(s: State, requests: seq<Request>, i: nat, j: nat, c: Credential)
    requires Allocated(s) && i < j <= |requests|
    requires CredentialId(c) < Before(s, requests, i + 1).next && !Unused(Before(s, requests, i + 1), c)
    ensures !Unused(Before(s, requests, j), c)
  {
    RunAllocates(s, requests[..i + 1]);
    assert requests[..j] == requests[..i + 1] + requests[i + 1..j];
    RunConcat(s, requests[..i + 1], requests[i + 1..j]);
    SpentForever(Before(s, requests, i + 1), requests[i + 1..j], c);
  }

  /** In any run each token, challenge, recovery code and OAuth state succeeds at most once. */
  lemma CredentialsAreOneTime(s: State, requests: seq<Request>, i: nat, j: nat, c: Credential)
    requires Allocated(s) && i < j < |requests|
    requires SucceedsWith(Before(s, requests, i), requests[i], c)
    ensures !SucceedsWith(Before(s, requests, j), requests[j], c)
  {
    RunAllocates(s, requests[..i]);
    RunAllocates(s, requests[..j]);
    StepEffect(Before(s, requests, i), requests[i]);
    SuccessSpends(Before(s, requests, i), requests[i], c);
    BeforeNext(s, requests, i);
    SpentLater(s, requests, i, j, c);
    if SucceedsWith(Before(s, requests, j), requests[j], c) {
      SuccessSpends(Before(s, requests, j), requests[j], c);
    }
  }

  // ---------- Access tokens of one run ----------

  /** Within one run, an access token handed out by `r` never resolves again once a later step has expelled its user. */
  lemma MintedTokenDies(s: State, r: Request, meanwhile: seq<Request>, expulsion: Request, later: seq<Request>,
                        now: Time)
    requires Allocated(s)
    ensures var (reply, m) := (Apply(s, r).1, Run(Apply(s, r).0, meanwhile));
            reply.Authenticated? && ExpelledBy(m, expulsion) == Some(reply.claims.user) ==>
              ResolveAccessToken(Run(Apply(m, expulsion).0, later), reply.claims, now).Err?
  {
    var (t, reply) := Apply(s, r);
    var m := Run(t, meanwhile);
    if reply.Authenticated? && ExpelledBy(m, expulsion) == Some(reply.claims.user) {
      StepEffect(s, r);
      MintedKeysAreOld(s, r);
      RunAllocates(t, meanwhile);
      ExpelledKeyIsDead(m, expulsion, later, reply.claims, now);
    }
  }

  lemma ExpelledKeyIsDead(s: State, r: Request, later: seq<Request>, claims: Claims, now: Time)
    requires Allocated(s) && ExpelledBy(s, r) == Some(claims.user) && claims.tokenKey < s.next
    ensures ResolveAccessToken(Run(Apply(s, r).0, later), claims, now).Err?
  {
    ExpulsionIsFinal(s, r, later, s.settings, 0, claims, now);
  }

  // ---------- The second factor ----------

  /** The request opens a new family, with session `x`, while MFA is on in the project and the user has a factor. */
  predicate OpensUnderMfa(s: State, r: Request, x: Id) {
    var t := Apply(s, r).0;
    && Opens(s.sessions, t.sessions, s.next, x)
    && s.settings.mfaEnabled && HasFactor(s.factors, t.sessions[x].user)
  }

  /** A login decides by the settings it read before its transaction, and MFA was off in them. */
  predicate SawMfaOff(r: Request) {
    match r
    case FinishLogin(seen, _, _) => !seen.mfaEnabled
    case OtpLogin(seen, _, _, _) => !seen.mfaEnabled
    case OAuthLogin(seen, _, _, _) => !seen.mfaEnabled
    case _ => false
  }

  predicate SpendsChallenge(s: State, r: Request, c: Id) {
    Unused(s, ChallengeCredential(c)) && !Unused(Apply(s, r).0, ChallengeCredential(c))
  }

  /** A code at hand verifies against an enabled factor of the user. */
  predicate SecretVerifies(s: State, u: Id, verifies: set<Id>) {
    exists f :: f in s.factors && s.factors[f].user == u && s.factors[f].enabled && s.factors[f].secret in verifies
  }

  predicate CodeIsUnused(s: State, u: Id, code: Id) {
    code in s.codes && s.codes[code].user == u && s.codes[code].usedAt == None
  }

  /** The request shows a code that verifies, or an unused recovery code, of the user. */
  predicate ShowsCode(s: State, r: Request, u: Id) {
    match r
    case MfaLogin(_, _, verifies, _) => SecretVerifies(s, u, verifies)
    case RecoveryLogin(_, _, code, _) => CodeIsUnused(s, u, code)
    case _ => false
  }

  /** The request spends a challenge of the user whose session `x` it opens, and shows a code of that user. */
  predicate PaysFor(s: State, r: Request, c: Id, x: Id) {
    var sessions := Apply(s, r).0.sessions;
    && SpendsChallenge(s, r, c) && x in sessions && s.challenges[c].user == sessions[x].user
    && ShowsCode(s, r, sessions[x].user)
  }

  predicate IsSessionStep(r: Request) {
    || r.BeginLogin? || r.Logout? || r.LogoutAll? || r.RevokeSession?
    || r.RequestToken? || r.RequestEmailChange? || r.ConfirmVerification?
  }

  predicate IsFactorStep(r: Request) {
    r.StartEnrollment? || r.ConfirmEnrollment? || r.DisableMfa?
  }

  lemma SessionStepsAddNone(s: State, r: Request)
    requires IsSessionStep(r)
    ensures Apply(s, r).0.sessions.Keys == s.sessions.Keys
  {
    if r.LogoutAll? {
      LogoutAllAddsNone(s, r);
    } else if r.RevokeSession? {
      RevokingAddsNone(s, r);
    } else {
      TokenStepsAddNone(s, r);
    }
  }

  lemma TokenStepsAddNone(s: State, r: Request)
    requires IsSessionStep(r) && !r.LogoutAll? && !r.RevokeSession?
    ensures Apply(s, r).0.sessions.Keys == s.sessions.Keys
  {
    if r.RequestToken? || r.RequestEmailChange? { RequestsAddNone(s, r); }
  }

  lemma IssuingAddsNone(s: State, seen: Settings, kind: TokenKind, email: string, newEmail: string, now: Time)
    ensures IssueToken(s, seen, kind, email, newEmail, now).0.sessions == s.sessions
  {
  }

  lemma RequestsAddNone(s: State, r: Request)
    requires r.RequestToken? || r.RequestEmailChange?
    ensures Apply(s, r).0.sessions.Keys == s.sessions.Keys
  {
    if r.RequestToken? {
      IssuingAddsNone(s, r.seen, r.kind, r.email, "", r.now);
    } else if r.user in s.users {
      IssuingAddsNone(s, r.seen, EmailChange, s.users[r.user].email, r.newEmail, r.now);
    }
  }

  lemma LogoutAllAddsNone(s: State, r: Request)
    requires r.LogoutAll?
    ensures Apply(s, r).0.sessions.Keys == s.sessions.Keys
  {
    if r.user in s.users { ExpellingAddsNone(s, r.user, s.users[r.user], r.now); }
  }

  lemma RevokingAddsNone(s: State, r: Request)
    requires r.RevokeSession?
    ensures Apply(s, r).0.sessions.Keys == s.sessions.Keys
  {
  }

  lemma ExpellingAddsNone(s: State, u: Id, user: User, now: Time)
    ensures ExpelUser(s, u, user, now).sessions.Keys == s.sessions.Keys
  {
  }

  lemma ResetAddsNone(s: State, r: Request)
    requires r.ConfirmReset?
    ensures Apply(s, r).0.sessions.Keys == s.sessions.Keys
  {
    if r.token in s.tokens && s.tokens[r.token].user in s.users {
      var u := s.tokens[r.token].user;
      ExpellingAddsNone(UseToken(s, r.token, r.now), u, s.users[u].(password := Some(r.password)), r.now);
    }
  }

  lemma EmailChangeAddsNone(s: State, r: Request)
    requires r.ConfirmEmailChange?
    ensures Apply(s, r).0.sessions.Keys == s.sessions.Keys
  {
    if r.token in s.tokens && s.tokens[r.token].user in s.users {
      var u := s.tokens[r.token].user;
      var user := s.users[u].(email := s.tokens[r.token].newEmail, verified := true);
      ExpellingAddsNone(UseToken(s, r.token, r.now), u, user, r.now);
    }
  }

  lemma FactorStepsAddNone(s: State, r: Request)
    requires IsFactorStep(r)
    ensures Apply(s, r).0.sessions.Keys == s.sessions.Keys
  {
  }

  lemma OnlyLoginsTouchSessions(s: State, r: Request)
    requires !IsLogin(r)
    ensures Apply(s, r).0.sessions.Keys == s.sessions.Keys
  {
    if IsSessionStep(r) {
      SessionStepsAddNone(s, r);
    } else if IsFactorStep(r) {
      FactorStepsAddNone(s, r);
    } else if r.ConfirmReset? {
      ResetAddsNone(s, r);
    } else if r.ConfirmEmailChange? {
      EmailChangeAddsNone(s, r);
    }
  }

  lemma OpeningKeepsOthers(a: map<Id, Session>, b: map<Id, Session>, next: Id, x: Id, y: Id)
    requires Opens(a, b, next, x) && y in a
    ensures b.Keys != a.Keys && y in b && b[y] == a[y]
  {
    assert x in b.Keys;
  }

  lemma ReplayAddsNone(s: State, seen: Settings, y: Id, now: Time)
    requires y in s.sessions && s.sessions[y].rotatedAt.Some?
    ensures DoRefresh(s, seen, y, now).0.sessions.Keys == s.sessions.Keys
  {
    assert RevokeFamily(s.sessions, s.sessions[y].family, now).Keys == s.sessions.Keys;
  }

  /** A refresh adds a session only by rotating the one it was given. */
  lemma RefreshAddsByRotating(s: State, seen: Settings, y: Id, now: Time)
    requires y in s.sessions && s.sessions[y].rotatedAt.None? && y < s.next
    ensures var sessions := DoRefresh(s, seen, y, now).0.sessions;
      sessions == s.sessions || (y in sessions && sessions[y].rotatedAt.Some?)
  {
  }

  lemma RefreshOpensNone(s: State, seen: Settings, y: Id, now: Time, x: Id)
    requires Allocated(s)
    ensures !Opens(s.sessions, DoRefresh(s, seen, y, now).0.sessions, s.next, x)
  {
    var sessions := DoRefresh(s, seen, y, now).0.sessions;
    if y in s.sessions && s.sessions[y].rotatedAt.Some? {
      ReplayAddsNone(s, seen, y, now);
    } else if y in s.sessions {
      RefreshAddsByRotating(s, seen, y, now);
    }
    if y in s.sessions && Opens(s.sessions, sessions, s.next, x) {
      OpeningKeepsOthers(s.sessions, sessions, s.next, x, y);
    }
  }

  /** A login route that opens a session has seen no factor of the user, or MFA switched off. */
  lemma LoginOpensWithoutFactor(s: State, settings: Settings, u: Id, tokenKey: Id, now: Time, x: Id)
    requires var t := LoginOrChallenge(s, settings, u, tokenKey, now).0; x in t.sessions && x !in s.sessions
    ensures !NeedsMfa(s, settings, u)
    ensures LoginOrChallenge(s, settings, u, tokenKey, now).0.sessions[x].user == u
  {
  }

  /** An OAuth login opens a session only for a user without a factor, or having read that MFA is off. */
  lemma OAuthOpensWithoutFactor(s: State, seen: Settings, grant: Id, profile: Profile, now: Time, x: Id)
    requires Allocated(s) && Opens(s.sessions, DoOAuthLogin(s, seen, grant, profile, now).0.sessions, s.next, x)
    ensures !NeedsMfa(s, seen, DoOAuthLogin(s, seen, grant, profile, now).0.sessions[x].user)
  {
    var m, provider := SpendGrant(s, grant), s.grants[grant];
    var (t, u) := OAuthUser(m, provider, profile).value;
    LoginOpensWithoutFactor(LinkAccount(t, provider, profile, u), seen, u, t.users[u].tokenKey, now, x);
  }

  lemma FinishLoginOpens(s: State, r: Request, x: Id)
    requires Allocated(s) && r.FinishLogin?
    ensures OpensUnderMfa(s, r, x) ==> SawMfaOff(r)
  {
    if OpensUnderMfa(s, r, x) {
      var p := s.logins[r.login];
      LoginOpensWithoutFactor(s.(logins := s.logins - {r.login}), r.seen, p.user, p.tokenKey, r.now, x);
    }
  }

  lemma OtpLoginOpens(s: State, r: Request, x: Id)
    requires Allocated(s) && r.OtpLogin?
    ensures OpensUnderMfa(s, r, x) ==> SawMfaOff(r)
  {
    if OpensUnderMfa(s, r, x) {
      var u := s.tokens[r.token].user;
      LoginOpensWithoutFactor(UseToken(s, r.token, r.now), r.seen, u, s.users[u].tokenKey, r.now, x);
    }
  }

  lemma OAuthLoginOpens(s: State, r: Request, x: Id)
    requires Allocated(s) && r.OAuthLogin?
    ensures OpensUnderMfa(s, r, x) ==> SawMfaOff(r)
  {
    if OpensUnderMfa(s, r, x) { OAuthOpensWithoutFactor(s, r.seen, r.grant, r.profile, r.now, x); }
  }

  lemma SignupOpensNone(s: State, r: Request, x: Id)
    requires Allocated(s) && r.Signup?
    ensures !OpensUnderMfa(s, r, x)
  {
  }

  /** A family is opened under MFA by passing a challenge, or by a login that saw MFA switched off. */
  lemma OpenersUnderMfa(s: State, r: Request, x: Id)
    requires Allocated(s)
    ensures OpensUnderMfa(s, r, x) ==> r.MfaLogin? || r.RecoveryLogin? || SawMfaOff(r)
  {
    if r.FinishLogin? {
      FinishLoginOpens(s, r, x);
    } else if r.OtpLogin? {
      OtpLoginOpens(s, r, x);
    } else if r.OAuthLogin? {
      OAuthLoginOpens(s, r, x);
    } else if r.Refresh? {
      RefreshOpensNone(s, r.seen, r.session, r.now, x);
    } else if r.Signup? {
      SignupOpensNone(s, r, x);
    } else if !IsLogin(r) {
      OnlyLoginsTouchSessions(s, r);
    }
  }

  lemma PassingPays(s: State, r: Request, x: Id)
    requires Allocated(s) && (r.MfaLogin? || r.RecoveryLogin?) && OpensUnderMfa(s, r, x)
    ensures SucceedsWith(s, r, ChallengeCredential(r.challenge)) && PaysFor(s, r, r.challenge, x)
  {
    SuccessSpends(s, r, ChallengeCredential(r.challenge));
    OpenedByChallengeUser(s, r, x);
  }

  lemma OpenedByChallengeUser(s: State, r: Request, x: Id)
    requires (r.MfaLogin? || r.RecoveryLogin?) && x !in s.sessions && x in Apply(s, r).0.sessions
    ensures r.challenge in s.challenges && Apply(s, r).0.sessions[x].user == s.challenges[r.challenge].user
    ensures ShowsCode(s, r, s.challenges[r.challenge].user)
  {
  }

  lemma UnseenMfaSpendsNone(s: State, r: Request)
    requires SawMfaOff(r)
    ensures Apply(s, r).0.challenges == s.challenges
  {
    if r.FinishLogin? {
      FinishLoginSpendsNone(s, r);
    } else if r.OtpLogin? {
      OtpLoginSpendsNone(s, r);
    } else {
      OAuthLoginSpendsNone(s, r);
    }
  }

  lemma FinishLoginSpendsNone(s: State, r: Request)
    requires r.FinishLogin? && SawMfaOff(r)
    ensures Apply(s, r).0.challenges == s.challenges
  {
    if r.login in s.logins {
      var p := s.logins[r.login];
      LoginKeeps(s.(logins := s.logins - {r.login}), r.seen, p.user, p.tokenKey, r.now);
    }
  }

  lemma OtpLoginSpendsNone(s: State, r: Request)
    requires r.OtpLogin? && SawMfaOff(r)
    ensures Apply(s, r).0.challenges == s.challenges
  {
    if !Apply(s, r).1.Failed? {
      var u := s.tokens[r.token].user;
      LoginKeeps(UseToken(s, r.token, r.now), r.seen, u, s.users[u].tokenKey, r.now);
    }
  }

  lemma ProfileSpendsNone(s: State, seen: Settings, provider: string, profile: Profile, now: Time)
    requires !seen.mfaEnabled
    ensures LoginProfile(s, seen, provider, profile, now).0.challenges == s.challenges
  {
    if !LoginProfile(s, seen, provider, profile, now).1.Failed? {
      var (t, u) := OAuthUser(s, provider, profile).value;
      LoginKeeps(LinkAccount(t, provider, profile, u), seen, u, t.users[u].tokenKey, now);
    }
  }

  lemma OAuthLoginSpendsNone(s: State, r: Request)
    requires r.OAuthLogin? && SawMfaOff(r)
    ensures Apply(s, r).0.challenges == s.challenges
  {
    if r.grant in s.grants {
      ProfileSpendsNone(SpendGrant(s, r.grant), r.seen, s.grants[r.grant], r.profile, r.now);
    }
  }

  /** While MFA is on, opening a family for a user with a factor spends a challenge of that user, exactly unless the
      request is a login that had read that MFA was off. */
  lemma OpeningSpendsChallenge(s: State, r: Request, x: Id)
    requires Allocated(s)
    ensures OpensUnderMfa(s, r, x) ==> ((exists c :: PaysFor(s, r, c, x)) <==> !SawMfaOff(r))
  {
    if SawMfaOff(r) {
      UnseenMfaSpendsNone(s, r);
    } else if OpensUnderMfa(s, r, x) {
      OpenersUnderMfa(s, r, x);
      PassingPays(s, r, x);
    }
  }

  /** In any run, two families opened under MFA by requests that did not miss it spend two different challenges. */
  lemma MfaOpeningsPairWithChallenges(s: State, requests: seq<Request>, i: nat, j: nat, x: Id, y: Id)
    returns (c: Id, d: Id)
    requires Allocated(s) && i < j < |requests|
    requires OpensUnderMfa(Before(s, requests, i), requests[i], x) && !SawMfaOff(requests[i])
    requires OpensUnderMfa(Before(s, requests, j), requests[j], y) && !SawMfaOff(requests[j])
    ensures c != d
    ensures PaysFor(Before(s, requests, i), requests[i], c, x) && PaysFor(Before(s, requests, j), requests[j], d, y)
  {
    RunAllocates(s, requests[..i]);
    RunAllocates(s, requests[..j]);
    c := OpeningPays(Before(s, requests, i), requests[i], x);
    d := OpeningPays(Before(s, requests, j), requests[j], y);
    CredentialsAreOneTime(s, requests, i, j, ChallengeCredential(c));
  }

  lemma OpeningPays(s: State, r: Request, x: Id) returns (c: Id)
    requires Allocated(s)
    ensures OpensUnderMfa(s, r, x) && !SawMfaOff(r) ==>
              SucceedsWith(s, r, ChallengeCredential(c)) && PaysFor(s, r, c, x)
  {
    c := 0;
    if OpensUnderMfa(s, r, x) && !SawMfaOff(r) {
      OpenersUnderMfa(s, r, x);
      PassingPays(s, r, x);
      c := r.challenge;
    }
  }

  // ---------- MFA switched on behind a login ----------

  function SettingsOf(r: Request): Option<Settings> {
    match r
    case Signup(seen, _, _, _) => Some(seen)
    case FinishLogin(seen, _, _) => Some(seen)
    case Refresh(seen, _, _) => Some(seen)
    case RequestToken(seen, _, _, _) => Some(seen)
    case RequestEmailChange(seen, _, _, _, _) => Some(seen)
    case OtpLogin(seen, _, _, _) => Some(seen)
    case ConfirmEmailChange(seen, _, _) => Some(seen)
    case StartEnrollment(seen, _, _) => Some(seen)
    case MfaLogin(seen, _, _, _) => Some(seen)
    case RecoveryLogin(seen, _, _, _) => Some(seen)
    case OAuthLogin(seen, _, _, _) => Some(seen)
    case _ => None
  }

  /** Each request goes by settings the project has or had: `past`, and what the run has set so far. */
  predicate GoesByPast(past: set<Settings>, requests: seq<Request>)
    decreases |requests|
  {
    requests == [] ||
    var r := requests[0];
    && (SettingsOf(r).Some? ==> SettingsOf(r).value in past)
    && GoesByPast(if r.ChangeSettings? then past + {r.settings} else past, requests[1..])
  }

  const MFA_ON := Settings(true, true, true, true, 0, 0, 86400, 3600, 600)
  const MFA_OFF := MFA_ON.(mfaEnabled := false)

  /** The user whose second factor a login may miss. */
  predicate HasPasswordAndFactor(s: State, email: string, password: string) {
    && email in s.byEmail && s.byEmail[email] in s.users
    && !s.users[s.byEmail[email]].disabled && s.users[s.byEmail[email]].password == Some(password)
    && HasFactor(s.factors, s.byEmail[email])
  }

  /** A password login that read its settings while MFA was off opens a family once MFA is on again. */
  lemma PasswordLoginMissesMfa(s: State, email: string, password: string, on: Settings, off: Settings, now: Time)
    returns (t: State)
    requires Allocated(s) && HasPasswordAndFactor(s, email, password) && on.mfaEnabled && !off.mfaEnabled
    ensures t == Run(s, [ChangeSettings(off), BeginLogin(email, password), ChangeSettings(on)])
    ensures OpensUnderMfa(t, FinishLogin(off, s.next, now), t.next + 1)
    ensures Apply(t, FinishLogin(off, s.next, now)).0.challenges == t.challenges
  {
    var b := Apply(Apply(s, ChangeSettings(off)).0, BeginLogin(email, password)).0;
    t := Apply(b, ChangeSettings(on)).0;
    ThreeRequests(s, ChangeSettings(off), BeginLogin(email, password), ChangeSettings(on));
    RunAllocates(s, [ChangeSettings(off), BeginLogin(email, password), ChangeSettings(on)]);
    CheckedWithMfaOff(s, email, password, on, off, b, t);
    FinishMissesMfa(t, off, s.next, now);
  }

  lemma CheckedWithMfaOff(s: State, email: string, password: string, on: Settings, off: Settings, b: State, t: State)
    requires HasPasswordAndFactor(s, email, password)
    requires b == Apply(Apply(s, ChangeSettings(off)).0, BeginLogin(email, password)).0
    requires t == Apply(b, ChangeSettings(on)).0
    ensures t.settings == on && t.users == s.users && t.factors == s.factors
    ensures s.next in t.logins && t.logins[s.next].user == s.byEmail[email]
  {
  }

  lemma FinishMissesMfa(s: State, seen: Settings, login: Id, now: Time)
    requires Allocated(s) && s.settings.mfaEnabled && !seen.mfaEnabled && login in s.logins
    requires var u := s.logins[login].user; u in s.users && !s.users[u].disabled && HasFactor(s.factors, u)
    ensures OpensUnderMfa(s, FinishLogin(seen, login, now), s.next + 1)
    ensures Apply(s, FinishLogin(seen, login, now)).0.challenges == s.challenges
  {
    var p, m := s.logins[login], s.(logins := s.logins - {login});
    var t := Authenticate(m, seen, p.user, p.tokenKey, now).0;
    assert Apply(s, FinishLogin(seen, login, now)).0 == t;
    assert Opens(s.sessions, t.sessions, s.next, s.next + 1);
  }

  lemma RunStep(s: State, r: Request, requests: seq<Request>)
    ensures Run(s, [r] + requests) == Run(Apply(s, r).0, requests)
  {
    assert ([r] + requests)[1..] == requests;
  }

  lemma ThreeRequests(s: State, p: Request, q: Request, r: Request)
    ensures Run(s, [p, q, r]) == Apply(Apply(Apply(s, p).0, q).0, r).0
  {
    var a := Apply(s, p).0;
    var b := Apply(a, q).0;
    assert [p, q, r] == [p] + [q, r] && [q, r] == [q] + [r] && [r] == [r] + [];
    RunStep(s, p, [q, r]);
    RunStep(a, q, [r]);
    RunStep(b, r, []);
  }

  const SIGN_UP := Signup(MFA_ON, "a", "p", 0)
  const ENROLL := StartEnrollment(MFA_ON, Claims(0, 1, 3600), 0)
  const CONFIRM := ConfirmEnrollment(Claims(0, 1, 3600), 4, {5}, 0)
  const SWITCH_OFF := ChangeSettings(MFA_OFF)
  const CHECK := BeginLogin("a", "p")
  const SWITCH_ON := ChangeSettings(MFA_ON)

  predicate IsAccount(s: State) {
    s.users == map[0 := User("a", false, Some("p"), 1, false)] && s.byEmail == map["a" := 0]
  }

  lemma SignsUp() returns (s: State)
    ensures s == Apply(Initial(MFA_ON), SIGN_UP).0 && s.next == 4 && IsAccount(s) && s.factors == map[]
  {
    s := Apply(Initial(MFA_ON), SIGN_UP).0;
  }

  lemma Enrolls(s: State) returns (t: State)
    requires s.next == 4 && IsAccount(s) && s.factors == map[]
    ensures t == Apply(s, ENROLL).0 && t.next == 6 && IsAccount(t) && t.factors == map[4 := Factor(0, 5, false)]
  {
    t := Apply(s, ENROLL).0;
  }

  lemma Confirms(s: State) returns (t: State)
    requires s.next == 6 && IsAccount(s) && s.factors == map[4 := Factor(0, 5, false)]
    ensures t == Apply(s, CONFIRM).0 && t.next == 16 && HasPasswordAndFactor(t, "a", "p")
  {
    t := Apply(s, CONFIRM).0;
    assert ResolveAccessToken(s, Claims(0, 1, 3600), 0) == Ok(0);
    assert t == ReplaceRecoveryCodes(EnableFactor(s, 4), 0);
    assert 4 in t.factors && t.factors[4] == Factor(0, 5, true);
  }

  /** A user signs up and enables an authenticator while MFA is on. */
  lemma Enrolled() returns (s: State)
    ensures s == Run(Initial(MFA_ON), [SIGN_UP, ENROLL, CONFIRM]) && Allocated(s)
    ensures s.next == 16 && HasPasswordAndFactor(s, "a", "p")
  {
    var a := SignsUp();
    var b := Enrolls(a);
    s := Confirms(b);
    ThreeRequests(Initial(MFA_ON), SIGN_UP, ENROLL, CONFIRM);
    RunAllocates(Initial(MFA_ON), [SIGN_UP, ENROLL, CONFIRM]);
  }

  /** A run in which a user with an enabled factor is let in on a password alone although MFA is on: MFA is switched
      off and on again between the reads of one login. */
  lemma MfaCanBeMissed() returns (requests: seq<Request>, r: Request, s: State, x: Id)
    ensures s == Run(Initial(MFA_ON), requests) && GoesByPast({MFA_ON}, requests + [r])
    ensures OpensUnderMfa(s, r, x) && Apply(s, r).0.challenges == s.challenges
  {
    var enrolled := Enrolled();
    s := PasswordLoginMissesMfa(enrolled, "a", "p", MFA_ON, MFA_OFF, 0);
    RunConcat(Initial(MFA_ON), [SIGN_UP, ENROLL, CONFIRM], [SWITCH_OFF, CHECK, SWITCH_ON]);
    requests := [SIGN_UP, ENROLL, CONFIRM] + [SWITCH_OFF, CHECK, SWITCH_ON];
    r, x := FinishLogin(MFA_OFF, 16, 0), s.next + 1;
    MissingMfaGoesByPast(requests + [r]);
  }

  lemma MissingMfaGoesByPast(requests: seq<Request>)
    requires requests == [SIGN_UP, ENROLL, CONFIRM, SWITCH_OFF, CHECK, SWITCH_ON, FinishLogin(MFA_OFF, 16, 0)]
    ensures GoesByPast({MFA_ON}, requests)
  {
    var later := requests[3..];
    assert GoesByPast({MFA_ON} + {MFA_OFF} + {MFA_ON}, later[3..]) by { assert later[3..][1..] == []; }
    assert later[1..][1..] == later[2..] && later[2..][1..] == later[3..];
    assert GoesByPast({MFA_ON}, later);
    assert requests[1..][1..] == requests[2..] && requests[2..][1..] == later;
  }

  /** A one-time-code login that read its settings while MFA was off. */
  lemma OtpLoginMissesMfa(s: State, seen: Settings, email: string, token: Id, now: Time)
    requires Allocated(s) && s.settings.mfaEnabled && !seen.mfaEnabled && seen.otpEnabled &&
             KnownToken(s, LoginOtp, token)
    requires var t := s.tokens[token]; s.users[t.user].email == email && TokenUseError(t, s.users[t.user], now).None?
    requires HasFactor(s.factors, s.tokens[token].user)
    ensures OpensUnderMfa(s, OtpLogin(seen, email, token, now), s.next + 1)
    ensures Apply(s, OtpLogin(seen, email, token, now)).0.challenges == s.challenges
  {
    var m, u := UseToken(s, token, now), s.tokens[token].user;
    var t := Authenticate(m, seen, u, s.users[u].tokenKey, now).0;
    assert Apply(s, OtpLogin(seen, email, token, now)).0 == t;
    assert Opens(s.sessions, t.sessions, s.next, s.next + 1);
  }

  /** An OAuth login of a linked account that read its settings while MFA was off. */
  lemma OAuthLoginMissesMfa(s: State, seen: Settings, grant: Id, profile: Profile, now: Time)
    requires Allocated(s) && s.settings.mfaEnabled && !seen.mfaEnabled && grant in s.grants && profile.email != ""
    requires (s.grants[grant], profile.providerUser) in s.oauthAccounts
    requires var u := s.oauthAccounts[(s.grants[grant], profile.providerUser)];
             u in s.users && !s.users[u].disabled && HasFactor(s.factors, u)
    ensures OpensUnderMfa(s, OAuthLogin(seen, grant, profile, now), s.next + 1)
    ensures Apply(s, OAuthLogin(seen, grant, profile, now)).0.challenges == s.challenges
  {
    var m, provider := SpendGrant(s, grant), s.grants[grant];
    var u := s.oauthAccounts[(provider, profile.providerUser)];
    var t := Authenticate(LinkAccount(m, provider, profile, u), seen, u, s.users[u].tokenKey, now).0;
    assert OAuthUser(m, provider, profile) == Ok((m, u));
    assert Apply(s, OAuthLogin(seen, grant, profile, now)).0 == t;
    assert Opens(s.sessions, t.sessions, s.next, s.next + 1);
  }

  // ---------- MFA left on ----------

  predicate SeesMfaOn(r: Request) {
    (SettingsOf(r).Some? ==> SettingsOf(r).value.mfaEnabled) && (r.ChangeSettings? ==> r.settings.mfaEnabled)
  }

  ghost predicate AllSeeMfaOn(requests: seq<Request>) {
    forall i :: 0 <= i < |requests| ==> SeesMfaOn(requests[i])
  }

  ghost predicate NeverSwitchesOff(requests: seq<Request>) {
    forall i :: 0 <= i < |requests| && requests[i].ChangeSettings? ==> requests[i].settings.mfaEnabled
  }

  lemma {:induction false} PastOfMfa(past: set<Settings>, requests: seq<Request>)
    requires GoesByPast(past, requests) && NeverSwitchesOff(requests)
    requires forall x :: x in past ==> x.mfaEnabled
    ensures AllSeeMfaOn(requests)
    decreases |requests|
  {
    if requests != [] {
      var r, rest := requests[0], requests[1..];
      PastOfMfa(if r.ChangeSettings? then past + {r.settings} else past, rest);
      forall i | 0 <= i < |requests| ensures SeesMfaOn(requests[i]) {
        if i > 0 { assert rest[i - 1] == requests[i]; }
      }
    }
  }

  /** In a project whose MFA was on from the start and is never switched off, every family opened for a user with a
      factor is paid for with a challenge of that user. */
  lemma MfaLeftOnIsNeverMissed(settings: Settings, requests: seq<Request>, i: nat, x: Id) returns (c: Id)
    requires settings.mfaEnabled && GoesByPast({settings}, requests) && NeverSwitchesOff(requests) && i < |requests|
    ensures OpensUnderMfa(Before(Initial(settings), requests, i), requests[i], x) ==>
              PaysFor(Before(Initial(settings), requests, i), requests[i], c, x)
  {
    var s := Before(Initial(settings), requests, i);
    PastOfMfa({settings}, requests);
    RunAllocates(Initial(settings), requests[..i]);
    assert SeesMfaOn(requests[i]);
    c := OpeningPays(s, requests[i], x);
  }
}
