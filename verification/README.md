# Dafny model of Dublyobase's stateful core

This project models the parts of the backend whose behaviour spans many calls, and proves what they promise over
every input and every run. Where the Go code changes state, the model has classes and methods over mutable fields and
loops, each proved against functions on values; the theorems are lemmas about those functions.

- **App sessions and one-time credentials** (`AppAuth`, `AppAuthLaws`, `AppAuthRuns`, `AppAuthTheorems`,
  `AppAuthStore`). The auth tables of a project as one state, each transaction as one step that carries the settings its
  request read before. `AppAuth` computes each transaction, `AppAuthLaws` tells in the tables' own fields when each one
  succeeds, what it gives, what it leaves alone and how it is refused, `AppAuthRuns` says what any step may do, and
  `AppAuthTheorems` draws the conclusions for whole runs: session families are chains, a replayed family is dead for
  good, credentials are spent once, expelled users stay out, families opened under a second factor are paid for with
  challenges and codes.
  `AppAuthStore` serves every request table by table in place; its invariant says that the tables are those of a run of
  the requests served, so each theorem about runs is one about the object.
- **Transactional outbox** (`Outbox`, `OutboxProtocol`). The outbox table, its sweep with batches, retries and pruning,
  and the delivery protocol with requests, crashes and a sweeper interleaved in any order.
- **Relation paths in filters and sorts** (`RelationFilter`, `Schema`). What a dotted key names, segment by segment, the
  compiler from keys to nested SQL, a small SQL semantics with three-valued conditions, and the proof that compiled
  queries mean what the path says.
- **CSV export** (`RecordExport`, `ExportPaths`). The batched resolver with its cache of path prefixes against a
  row-by-row walk, what a cell prints in terms of the chain of records it passes, the path grammar, and the search that
  preloads collections.
- **Exact decimals** (`Decimals`). Parsing, digit checks, rendering and padding of numeric columns.
- **Rate limiting** (`RateLimiter`). The sliding window with its sweeps and evictions against a plain log of hits.
- **Resumable uploads** (`ChunkFile`, `FileUploads`, `UploadProtocol`). One chunk's file and the temporary path its
  uploads share, write by write; the session with its sizes, checksums and records; and every interleaving of uploads,
  recordings, claims, assembly, cancelling and crashes.
- **Column diffing** (`FieldDiff`) and **realtime fan-out** (`Realtime`, `RealtimeProtocol`).
- `Text` holds Go's string helpers and decimal digits, `Selection` the meaning of `order by id limit n`.

A database transaction is one atomic step. Clocks, generated ids and tokens, the database's own refusals, publish
failures and the order in which Go ranges over a map are parameters or nondeterministic choices.

Where comments and code disagree, the model follows the code:

- Filter and export paths are said to walk up to four relations; the limits count segments, so they walk at most three
  (`core/filter_relations.go:42-44`, `core/record_export.go:49-51`).
- `apis/batch.go:61-65` says a lost publish of a batch has nothing to retry it; the outbox row its trigger writes does.
- `core/collections.go:711-714` says that turning a computed field into a plain one keeps its values; the column is
  dropped and added again empty (`FieldDiff.PlainRebuildLosesValues`).

Some promises hold only under a condition, which is proved exact or, where a single run may be lucky, impossible to
relax; each failure has its input:

- A driver value renders to its canonical spelling unless it is a zero with a positive exponent
  (`Decimals.RendersCanonically`).
- While MFA is on, a family opened for a user with a factor is paid for with a challenge, unless the login had read
  its settings while MFA was off (`AppAuthTheorems.OpeningSpendsChallenge`, `AppAuthTheorems.MfaCanBeMissed`).
- A column diff leaves a column for every field unless one field keeps a name another renames from
  (`FieldDiff.EveryFieldHasItsColumnUnlessNamesClash`, `FieldDiff.ClashGoesThrough`).
- The limiter finds a key to evict, whatever the map order, unless the empty key is in use and oldest
  (`RateLimiter.EvictsUnlessEmptyKeyIsOldest`).
- A replica misses exactly the events that become visible behind its cursor or are pruned first
  (`RealtimeProtocol.RunKeeps`, `RealtimeProtocol.OutOfOrderIsMissed`).
- A claimed upload has all its chunk files unless a recording that was refused or failed removed one that was not
  uploaded again (`UploadProtocol.ClaimedCanBeAssembled`, `UploadProtocol.FailedRecordingRemovesAChunk`).
- Chunk files are pieces of the file as long as no request opens a chunk that another is still writing
  (`UploadProtocol.RunKeepsFaithful`). The rule cannot be relaxed: wherever two requests write one chunk, they can go
  on to leave a wrong file (`UploadProtocol.OverlapCanCorrupt`), and it may pass every check
  (`UploadProtocol.OverlapGoesUnnoticed`).

## Model

| member | source | states |
|---|---|---|
| AppAuthTheorems.FamiliesAreChains | core/app_auth.go:243-331 | In every reachable state each family is one chain: every session but the last is rotated, revoked and replaced by the next, and two unrevoked sessions of a family are the same session. |
| AppAuthTheorems.ReplayKillsFamily | core/app_auth.go:273-298 | Presenting a rotated token is refused, and after any continuation every session of the family is revoked and the family has the members it had. |
| AppAuthTheorems.DeadForever | core/app_auth.go:1123-1133 | A family whose sessions are all revoked stays so and gains no session, over every run. |
| AppAuthTheorems.ExpulsionIsFinal | core/app_auth.go:376-423 | After logout-all, password reset or email change no older session of the user can be refreshed and no access token with an older key resolves, in any continuation. |
| AppAuthTheorems.ExpelledForever | core/app_auth.go:804-826 | Once a user's older sessions are revoked and the token key is younger than a bound, every run keeps it so. |
| AppAuthTheorems.MintedKeysAreOld | core/app_auth.go:1015-1041 | Every access token handed out carries a token key issued before the next step, so a later expulsion covers it. |
| AppAuthTheorems.MintedTokenDies | core/app_auth.go:376-423 | In one run an access token handed out at one step never resolves again once a later step expelled its user by logout-all, password reset or email change. |
| AppAuthTheorems.CredentialsAreOneTime | core/app_auth.go:593-639 | In any run each auth token, MFA challenge, recovery code and OAuth state succeeds in at most one request. |
| AppAuthTheorems.SuccessSpends | core/mfa.go:246-312 | A request that succeeds with a credential found it unused and leaves it used. |
| AppAuthTheorems.OpeningSpendsChallenge | core/mfa.go:206-244 | While MFA is on in the project, a request that opens a family for a user with an enabled factor spends a challenge of that user, and shows a verifying code or an unused recovery code of theirs, exactly unless it is a login that had read its settings while MFA was off. |
| AppAuthTheorems.MfaOpeningsPairWithChallenges | core/mfa.go:206-312 | In any run two families opened while MFA is on, by requests that did not read it as off, spend two different challenges of their users. |
| AppAuthTheorems.MfaLeftOnIsNeverMissed | core/app_auth.go:197-218 | In a project whose MFA was on from the start and is never switched off, every family opened for a user with a factor spends a challenge of that user. |
| AppAuthTheorems.MfaCanBeMissed | core/app_auth.go:158-218 | A reachable run in which MFA is switched off and on between the reads of one password login, which then opens a family for a user with a factor and touches no challenge. |
| AppAuthTheorems.PasswordLoginMissesMfa | core/app_auth.go:158-218 | From any state, a password login of a user with a factor, having read its settings while MFA was off, opens a family without a challenge after MFA is switched on again. |
| AppAuthTheorems.OtpLoginMissesMfa | core/app_auth.go:578-614 | A login by one-time code that read its settings while MFA was off opens a family without a challenge while it is on. |
| AppAuthTheorems.OAuthLoginMissesMfa | core/oauth.go:436-499 | An OAuth login that read its settings while MFA was off opens a family without a challenge while it is on. |
| AppAuthTheorems.OAuthOpensWithoutFactor | core/oauth.go:478-499 | An OAuth login opens a session only for a user who need not pass a second factor by the settings it read before its transaction. |
| AppAuthTheorems.SessionKeepsUser | core/app_auth.go:1015-1041 | No step removes a session or moves it to another user. |
| AppAuthTheorems.RunAllocates | core/app_auth.go:1015-1041 | Every id in use was issued by the counter, in every reachable state. |
| AppAuthLaws.RefreshLaw | core/app_auth.go:243-331 | A refresh succeeds exactly with a known, unrotated, unrevoked and unexpired session of an enabled user; it hands out the live session it added to the family in place of the old one, with claims on the current key, and changes nothing else. |
| AppAuthLaws.RefreshedTokenWorks | core/app_auth.go:299-313 | The token a refresh hands out can itself be refreshed while it is unexpired and its user enabled. |
| AppAuthLaws.AuthenticatedLaw | core/app_auth.go:1015-1041 | Whatever request authenticates, its session is the one the step added, live and of the user the claims name. |
| AppAuthLaws.MfaLoginLaw | core/mfa.go:246-312 | A second-factor login succeeds exactly with an open challenge of an enabled user and a code that verifies against an enabled factor of that user, and then spends the challenge and opens their session. |
| AppAuthLaws.RecoveryLoginLaw | core/mfa.go:246-312 | A recovery login succeeds exactly with an open challenge and an unused recovery code of its user, and spends both. |
| AppAuthLaws.SignupLaw | core/app_auth.go:68-147 | Signing up succeeds exactly with an unknown address and makes its user, with the password given and a first session. |
| AppAuthLaws.PasswordLaw | core/app_auth.go:149-180 | The first step of a password login succeeds exactly with the current password of an enabled user. |
| AppAuthLaws.LastPasswordLogsIn | core/app_auth.go:763-841 | In every run from a reset until the next, the user's address logs in with exactly the password that was set. |
| AppAuthLaws.FinishLoginLaw | core/app_auth.go:182-241 | While its user is enabled a pending login ends with a challenge exactly when the settings read ask for MFA and a factor is enabled, else with a session in a family of its own and the key read before. |
| AppAuthLaws.FinishLoginRefused | core/app_auth.go:182-197 | An unknown pending login, or one whose user is gone or disabled, is refused. |
| AppAuthLaws.LogoutLaw | core/app_auth.go:333-374 | Logging out takes an open session and revokes that one alone. |
| AppAuthLaws.LogoutAllLaw | core/app_auth.go:376-423 | Logging out everywhere takes an enabled user, revokes their open sessions alone and gives them an unused key. |
| AppAuthLaws.RevokeSessionLaw | core/app_auth.go:477-541 | A session is revoked exactly by its own user with a working access token: unexpired, of an enabled user and with the current key. |
| AppAuthLaws.RequestTokenLaw | core/app_auth.go:543-564 | Verification and reset tokens can always be asked for, login codes where the settings read allow them. |
| AppAuthLaws.IssueLaw | core/app_auth.go:924-1013 | A token is issued exactly to a known, enabled address, with the life its kind has in the settings read. |
| AppAuthLaws.RequestEmailChangeLaw | core/app_auth.go:668-702 | A change of address is asked for exactly by an enabled user, with their password where the settings want it, to an address no one has; each refusal is stated. |
| AppAuthLaws.OtpLoginLaw | core/app_auth.go:566-666 | A login code works exactly as an unused, unexpired code of an enabled user who still has the address, and is spent whichever way the login ends. |
| AppAuthLaws.VerificationLaw | core/app_auth.go:704-761 | An address is confirmed exactly with a working token of it. |
| AppAuthLaws.ResetLaw | core/app_auth.go:763-841 | A password is reset exactly with a working token of the address; it is the one given, under an unused key and with every session ended. |
| AppAuthLaws.EmailChangeLaw | core/app_auth.go:843-922 | An address moves exactly with a working token and to one no other user has, under an unused key and with every session ended. |
| AppAuthLaws.StartEnrollmentLaw | core/mfa.go:33-101 | Enrolling takes a working access token while the settings read allow MFA, and replaces the user's unconfirmed factors alone. |
| AppAuthLaws.ConfirmEnrollmentLaw | core/mfa.go:103-150 | A factor is enabled exactly by its owner, with a code that verifies against it and as their only one; ten new recovery codes replace the old ones. |
| AppAuthLaws.DisableMfaLaw | core/mfa.go:160-204 | MFA is disabled exactly with a code that verifies; no factor of the user stays enabled and no code of theirs usable. |
| AppAuthLaws.ConsumeStateLaw | core/oauth.go:252-284 | A state is consumed exactly by its own provider, unused and in time. |
| AppAuthLaws.KnownProfileLaw | core/oauth.go:432-522 | A profile logs in the user linked to it, or the user of its verified address, if they are enabled. |
| AppAuthLaws.StrangerLaw | core/oauth.go:442-476 | A profile that belongs to no one makes a new user of its address, and is refused where the address is taken. |
| AppAuthLaws.UnverifiedReachesNoOne | core/oauth.go:446-466 | An address its provider has not verified opens no session and no challenge for a user who was there before, unless the profile was linked to them. |
| AppAuthRuns.StepEffect | core/app_auth.go:68-1041 | Each transaction revokes sessions, opens one new family or rotates one live session; keys change only to fresh ones; used credentials stay used. |
| AppAuthStore.AuthStore.Serve | core/app_auth.go:68-1041 | Every request, served in place, leaves the tables and the reply of the specification and keeps the object that of a run: families are chains, a replayed token kills its family, an expulsion leaves the older sessions and keys dead, the session handed out is the one added, a credential is found unused and left used, and a family opened under MFA is paid for unless the login missed it. |
| AppAuthStore.AuthStore.SignupAppUser | core/app_auth.go:68-147 | Signing up in place leaves the tables and reply the specification gives. |
| AppAuthStore.AuthStore.BeginAppLogin | core/app_auth.go:149-196 | The credential check of a password login, which reads the token key before its transaction. |
| AppAuthStore.AuthStore.FinishAppLogin | core/app_auth.go:197-241 | The transaction of a password login: challenge when a factor is due, else a session. |
| AppAuthStore.AuthStore.CreateAppSession | core/app_auth.go:1015-1041 | A session is inserted into the given family, or into a new one. |
| AppAuthStore.AuthStore.RefreshAppSession | core/app_auth.go:243-331 | Rotation, replay detection and every refusal of a refresh. |
| AppAuthStore.AuthStore.RevokeSessionFamily | core/app_auth.go:1123-1133 | Every session of the family is revoked and nothing else changes. |
| AppAuthStore.AuthStore.LogoutAppSession | core/app_auth.go:333-374 | Logging out revokes the presented session. |
| AppAuthStore.AuthStore.LogoutAllAppSessions | core/app_auth.go:376-423 | Logging out everywhere revokes the user's sessions and replaces the token key. |
| AppAuthStore.AuthStore.RevokeAppSession | core/app_auth.go:477-516 | A user revokes one of their own sessions. |
| AppAuthStore.AuthStore.RequestAuthToken | core/app_auth.go:924-1013 | Unknown and disabled addresses are accepted without a token being issued. |
| AppAuthStore.AuthStore.RequestToken | core/app_auth.go:543-564 | A verification, reset or login token is requested; a login code only where the settings allow it. |
| AppAuthStore.AuthStore.RequestAppEmailChange | core/app_auth.go:668-702 | An email change is requested with the checks on settings, password and address. |
| AppAuthStore.AuthStore.LoginAppUserWithOTP | core/app_auth.go:566-666 | Login by one-time code, which spends the code whichever way the login ends. |
| AppAuthStore.AuthStore.ConfirmEmailVerification | core/app_auth.go:704-761 | Confirming an address spends its token and marks the user verified. |
| AppAuthStore.AuthStore.ConfirmPasswordReset | core/app_auth.go:763-841 | A reset spends its token, sets the password and expels the user. |
| AppAuthStore.AuthStore.ConfirmAppEmailChange | core/app_auth.go:843-922 | An email change spends its token, moves the address and expels the user. |
| AppAuthStore.AuthStore.StartMFAEnrollment | core/mfa.go:33-101 | Enrolling replaces the user's unconfirmed factors by a new one. |
| AppAuthStore.AuthStore.ConfirmMFAEnrollment | core/mfa.go:103-150 | Confirming enables the factor and replaces the user's recovery codes. |
| AppAuthStore.AuthStore.ReplaceUserRecoveryCodes | core/mfa.go:430-457 | The user's codes are replaced by ten fresh unused ones. |
| AppAuthStore.AuthStore.DisableMFA | core/mfa.go:160-204 | Disabling takes a valid code, disables the user's factors and spends their recovery codes. |
| AppAuthStore.AuthStore.VerifyMFALoginCode | core/mfa.go:246-312 | A challenge is passed by an authenticator code or a recovery code, and spent with it. |
| AppAuthStore.AuthStore.StartOAuthLogin | core/oauth.go:66-111 | An OAuth login starts with a fresh state. |
| AppAuthStore.AuthStore.ConsumeOAuthLoginState | core/oauth.go:252-284 | A state is consumed once, before it expires and for its own provider. |
| AppAuthStore.AuthStore.ResolveOAuthUser | core/oauth.go:524-564 | A profile finds its linked user, a user of its verified address, or a new one; an unverified known address is refused. |
| AppAuthStore.AuthStore.LoginOAuthProfile | core/oauth.go:432-522 | The login of a profile as one transaction, rolled back when it is refused. |
| Outbox.OutboxTable.LatestOutboxID | core/outbox.go:65-76 | The unmarked row of the key with the greatest id, or none. |
| Outbox.OutboxTable.MarkOutboxPublished | core/outbox.go:80-85 | An unmarked row gets its mark; a marked or missing one is left alone. |
| Outbox.OutboxTable.ClaimPendingOutbox | core/outbox.go:91-119 | Each claimed row was unmarked, older than the cutoff and tried fewer than ten times; such a row left out has a larger id than every claimed one, and then the batch is full. Claimed rows cost one attempt and come back in no promised order. |
| Outbox.OutboxTable.DeliverEvents | core/outbox.go:214-226 | A batch is published and marked event by event, going on after a failure. |
| Outbox.OutboxTable.DrainBacklog | core/outbox.go:203-235 | The loop of a sweep claims and delivers batch by batch until a failure, a failed claim, the time budget or an empty batch ends it; uninterrupted it claims exactly the first 10000 eligible rows. |
| Outbox.OutboxTable.SweepOutbox | core/outbox.go:175-244 | A whole sweep is the claimed rows delivered one by one and then pruning, unless that errs. Every claimed row was due when it began, and a row that was not, such as one younger than the cutoff, comes out as it was unless it is pruned; without failures or time-out exactly the first 10000 due rows are claimed. |
| Outbox.OutboxTable.PruneOutbox | core/outbox.go:124-133 | Only rows marked before the cutoff go. |
| Outbox.OneAttemptPerSweep | core/outbox.go:203-234 | While marks succeed a sweep spends at most one attempt on a row. |
| Outbox.MarkedRowsAreDone | core/outbox.go:91-119 | A row whose delivery was marked is not eligible again; every other row keeps its standing. |
| Outbox.SweepDelivers | core/outbox.go:203-235 | A sweep without failures marks exactly the rows it claimed, and leaves only the eligible rows beyond its limit. |
| Outbox.RestIsSpared | core/outbox.go:91-133 | A row that was not due keeps its attempts and its mark over a sweep, or goes because its mark is old. |
| OutboxProtocol.StepKeepsRows | apis/records.go:160-237 | Every step keeps the table equal to what was written less what was marked and pruned, with attempts bounded by ten. |
| OutboxProtocol.StepKeepsMarksCovered | apis/records.go:464-473 | Every step keeps a key's marks covered by its publishes. |
| OutboxProtocol.MarksNeverOutnumberPublishes | core/outbox.go:65-85 | In every run the rows of a key ever marked never outnumber the publishes run for that key. |
| OutboxProtocol.OwedPublishLeavesRow | core/outbox.go:124-133 | In every run, while fewer publishes ran for a key than rows were written, an unmarked row of the key is in the table. |
| OutboxProtocol.RowsMayBePublishedTwice | apis/batch.go:82-88 | Delivery is at least once: a run in which one written row is published twice. |
| RelationFilter.ResolveFilterPath | core/filter_relations.go:40-84 | Resolution of a dotted key with each of its errors. |
| RelationFilter.ResolvedPathFollowsSchema | core/filter_relations.go:40-84 | A resolved key walks at most three relations, all declared by the schema, and at least one if it has a dot. |
| RelationFilter.KeyNamesItsPath | core/filter_relations.go:40-84 | A key resolves to a path exactly when, split at its dots, it has at most four segments, each but the last names the first field of its name, a visible relation into an available table, and the last names the key, a system column or the first visible field of its name. |
| RelationFilter.KeyFailsAtASegment | core/filter_relations.go:40-84 | A key fails with the error of its first segment that does not read, each error with its reason. |
| RelationFilter.FieldsReadTheirColumns | core/records.go:1316-1330 | A key is read from the key column, a system column from its own, and a field from the column that stores it. |
| RelationFilter.LinkedByColumns | core/filter_relations.go:104-126 | A hop links a row to those whose key column holds what the stored column of the relation holds, alone or in an array. |
| Text.SplitJoins | core/filter_relations.go:41 | No segment of a key holds a dot, and the segments joined by dots are the key. |
| Text.JoinSplits | core/filter_relations.go:41 | There is only one way to split a key. |
| Text.NormalizedIdentifier | core/identifier.go:29-31 | An identifier loses the space around it and the case of its letters, and nothing else. |
| Schema.LookupFindsFirst | core/record_export.go:357-364 | A field is looked up as the first of its name, and none is found exactly when no field bears it. |
| RelationFilter.CompileRelationPath | core/filter_relations.go:91-128 | The loop that wraps from the last hop outwards yields the nested EXISTS of the path. |
| RelationFilter.AliasesAreDistinct | core/filter_relations.go:104-126 | A generated alias never captures the root's or another hop's. |
| RelationFilter.NestedMeansChain | core/filter_relations.go:100-128 | The inner condition of each hop is true exactly when rows follow the remaining relations to a matching leaf. |
| RelationFilter.FilterMeansChain | core/filter_relations.go:91-128 | The compiled filter is true of a root row exactly when a chain of rows follows the relations to a row whose leaf satisfies the predicate, and otherwise false. |
| RelationFilter.RelationOrderExpr | core/filter_relations.go:168-203 | The loop yields the nested scalar subquery of the path. |
| RelationFilter.SortMeansWalk | core/filter_relations.go:168-203 | The subquery returns exactly the values a walk along the relations may end with. |
| RelationFilter.SortKeyIsChainEnd | core/filter_relations.go:168-203 | Along single relations with unique keys the sort value is the leaf at the end of the chain, or NULL when it breaks. |
| RecordExport.KeysAreDistinct | core/record_export.go:568 | Two different prefixes of relation names never share a cache key. |
| RecordExport.FollowCollections | core/record_export.go:606-619 | The collection a chain of relation fields lands on, or none. |
| RecordExport.ExportChunk.SetResolved | core/record_export.go:623-630 | Every row whose relation points at a fetched record caches it, and no other row changes. |
| RecordExport.ExportChunk.CollectIDs | core/record_export.go:570-582 | Every non-empty related id of the chunk is asked for, once. |
| RecordExport.ExportChunk.ResolveHop | core/record_export.go:568-596 | One hop is resolved for the whole chunk with at most one query, and the cache still agrees with every row's walk. |
| RecordExport.ExportChunk.ResolveExportPaths | core/record_export.go:541-602 | Afterwards every hop of every path is cached as far as the schema can walk it, and no prefix was queried twice. |
| RecordExport.ExportChunk.ExportPathValue | core/record_export.go:652-692 | Every exported cell is the one a walk of its row on its own gives: the label of a single relation, else its id, else nothing; any other leaf as it is printed; and nothing where the chain of records breaks. |
| RecordExport.NaiveCellPrintsChainEnd | core/record_export.go:652-692 | A row walked on its own prints the leaf of the record at the end of the chain, each of whose records is the stored one under the id its predecessor holds. |
| ExportPaths.ParseExportPath | core/record_export.go:47-84 | A path is accepted exactly when it has at most four names, all but the last hop along single relations to available collections, and the last can be read there. |
| ExportPaths.ExportableMeans | core/record_export.go:47-84 | A path is accepted exactly when it has at most four names, none empty, all but the last lead along single relations, each the first field of its name, and the last is a field, the key or a time stamp where they lead. |
| ExportPaths.AcceptedPathIsWalkable | core/record_export.go:47-84 | An accepted path takes at most three hops and they lead to the collection its leaf is read on. |
| ExportPaths.ReachableCollections | core/record_export.go:481-510 | The search stops with exactly the collections at most four visible links from the root. |
| ExportPaths.WithinMeansChain | core/record_export.go:481-510 | Those collections are exactly the ends of chains of at most that many visible links between readable collections. |
| ExportPaths.PreloadSuffices | core/record_export.go:479-510 | Along at most four visible relations a path sees the preloaded collections exactly as it would see all of them. |
| Decimals.ParseDecimal | core/decimal.go:73-88 | The scan for foreign characters and the rational parser accept plain literals only and read their value. |
| Decimals.DigitChecksExact | core/decimal.go:93-145 | The digit counts pass exactly when the value lies in numeric(p,s) without rounding, for any sign and any leading or trailing zeros. |
| Decimals.AcceptsExactlyTheStorable | core/decimal.go:106-145 | An input is stored exactly when it is a literal that fits the column and lies within the readable bounds, compared as fractions. |
| Decimals.FormatIsExact | core/decimal.go:152-176 | The rendering of Int and Exp denotes Int times ten to the Exp. |
| Decimals.PaddingKeepsValue | core/decimal.go:234-247 | Padding to the scale never changes the value. |
| Decimals.RendersCanonically | core/decimal.go:152-247 | A driver form renders to the canonical spelling exactly when it is not a zero with a positive exponent. |
| Decimals.CanonicalParses | core/decimal.go:73-88 | The canonical spelling has exactly the column's fraction digits and parses to its value. |
| Decimals.SameRenderingIffSameValue | core/decimal.go:152-247 | Two driver forms, neither a zero with a positive exponent, render alike exactly when they carry the same value. |
| Decimals.AcceptStoreRender | core/decimal.go:106-247 | Accept, store, render gives the client back the number it sent, with exactly the column's fraction digits, when the driver does not return a zero with a positive exponent. |
| RateLimiter.CompactInPlace | apis/rate_limit.go:59-66 | Compaction through the list's own array keeps exactly the hits after the cutoff, in order. |
| RateLimiter.Limiter.AllowLimit | apis/rate_limit.go:38-73 | A request is allowed exactly when fewer than the limit of its key's logged hits lie in the window that ends now, whatever was swept; the whole new map is stated. |
| RateLimiter.Limiter.Sweep | apis/rate_limit.go:75-90 | Every list is cut to the window and empty lists go. |
| RateLimiter.Limiter.EvictOldest | apis/rate_limit.go:92-110 | The search removes the key it ends on, in whatever order the map yields its keys. |
| RateLimiter.LimitHoldsInEveryWindow | apis/rate_limit.go:59-73 | No window of any reachable state holds more hits of a key than the largest limit the key was held to. |
| RateLimiter.NoWindowOverflows | apis/rate_limit.go:59-73 | Hits spaced as the rule spaces them never exceed the cap in any window. |
| RateLimiter.AllowedKeepsSpacing | apis/rate_limit.go:67-72 | A hit the rule allows keeps that spacing. |
| RateLimiter.CallIsConsistent | apis/rate_limit.go:46-73 | A call keeps lists non-empty and ordered, in agreement with the log, and the map within its bound while no empty key is used. |
| RateLimiter.EvictionIsJustified | apis/rate_limit.go:51-56 | A key is evicted only when at least the maximum number of keys have a hit in the window, and its last hit is the oldest of theirs. |
| RateLimiter.RoomyFits | apis/rate_limit.go:51-56 | Without the empty key there is room for one more key after sweeping and evicting. |
| RateLimiter.EvictsUnlessEmptyKeyIsOldest | apis/rate_limit.go:92-110 | The search can come back empty-handed exactly when the empty key is in use and older than all others. |
| FileUploads.Create | core/file_uploads.go:94-112 | A session is accepted, with the sizes and expiry given, exactly when its sizes are positive, within the limits and make at most 10000 chunks, and its checksum is empty or a SHA-256 in hexadecimal; each refusal is stated. |
| FileUploads.ChunkSizesAreInRange | core/file_uploads.go:484-494 | Every expected chunk size is between one and the chunk size. |
| FileUploads.ChunkSizesPartition | core/file_uploads.go:484-494 | The expected chunk sizes add up to the file. |
| FileUploads.AssemblyYieldsTheFile | core/file_uploads.go:338-423 | With chunk files cut from one file, assembly yields that file exactly when none is missing and the checksums asked for match. |
| FileUploads.AssemblyLaw | core/file_uploads.go:338-423 | Assembly yields the chunk files one after another exactly when none is missing, they have the session's size together and they meet the checksums asked for. |
| FileUploads.ChecksumCatchesWrongChunks | core/file_uploads.go:338-423 | With the file's checksum asked for, assembly from whatever chunk files yields the file or an error, as far as the hash tells files apart. |
| FileUploads.UploadSession.StoreChunk | core/file_uploads.go:256-306 | An upload through the shared temporary path replaces the chunk file only with exactly the expected size and a matching checksum; a malformed checksum header is refused, and every other chunk stays as it was. |
| FileUploads.UploadSession.RecordChunk | core/file_uploads.go:308-336 | A chunk is recorded only while the session is open; a request whose recording is refused or fails removes the chunk file. |
| FileUploads.UploadSession.ValidateUploadedChunks | core/file_uploads.go:511-550 | Accepts exactly when every chunk is recorded with its expected size. |
| FileUploads.UploadSession.ClaimForComplete | core/file_uploads.go:170-214 | A claim needs an open, unexpired session with all chunks recorded. |
| FileUploads.UploadSession.Cancel | core/file_uploads.go:236-254 | Only an open session is cancelled, and its chunk files go. |
| FileUploads.UploadSession.CleanupExpired | core/file_uploads.go:441-482 | An expired open or completing session is cancelled. |
| FileUploads.UploadSession.Assemble | core/file_uploads.go:338-423 | The loop over chunks computes the joined file or the error. |
| ChunkFile.ActionKeepsClean | core/file_uploads.go:256-306 | While no two requests write a chunk at once, its file is the piece whenever it exists, whatever uploads break off. |
| ChunkFile.WholeUpload | core/file_uploads.go:272-306 | An upload that nothing interrupts leaves its bytes in the chunk file if it ends well and the old chunk if it does not. |
| ChunkFile.OverlapEndsEmpty | core/file_uploads.go:272-301 | From any two requests writing one chunk, requests that send the right bytes can go on to install an empty file. |
| UploadProtocol.ClaimLaw | core/file_uploads.go:170-214 | A claim takes an open, unexpired session with every chunk recorded at its size. |
| UploadProtocol.RecordLaw | core/file_uploads.go:308-336 | A recording while the session is open and unexpired keeps the chunk; any other takes its file away. |
| UploadProtocol.EndedStaysEnded | core/file_uploads.go:216-254 | Completed and cancelled are final over every run. |
| UploadProtocol.NeverTwoCompleters | core/file_uploads.go:170-234 | At most one completer holds a session at a time. |
| UploadProtocol.CompleterHoldsTheFile | apis/file_uploads.go:112-170 | In any interleaving of uploads, re-uploads, failures and claims in which no request opens a chunk another is still writing, a completer that has copied every chunk holds the file. |
| UploadProtocol.RunKeepsFaithful | core/file_uploads.go:256-306 | In every such run each chunk file is its piece of the file, and every completer has copied a prefix of it. |
| UploadProtocol.OverlapCanCorrupt | core/file_uploads.go:272-301 | In every run, wherever two requests write one chunk at once, requests sending only the right bytes can go on to leave a wrong chunk file. |
| UploadProtocol.OverlapGoesUnnoticed | core/file_uploads.go:272-301 | A run in which two requests sending the right bytes leave a hole of zeros, every check passes and the completer holds a wrong file. |
| UploadProtocol.ClaimedCanBeAssembled | apis/file_uploads.go:104-107 | In every run a session a completer holds has all its chunk files exactly when no chunk is left removed by a recording that was refused or failed. |
| UploadProtocol.FailedRecordingRemovesAChunk | apis/file_uploads.go:104-107 | Runs, with a refused and with a failed recording, after which every chunk is recorded, the session is claimed and a chunk file is missing. |
| FieldDiff.ManagedTable.ApplyFieldDiff | core/collections.go:663-772 | The two loops of column statements leave the table and the error of the specification. |
| FieldDiff.DiffLeaves | core/collections.go:663-772 | Without a name clash, a successful diff leaves under every name the column told by the wanted field of that name. |
| FieldDiff.ColumnsAreTheWantedOnes | core/collections.go:663-772 | The table's managed columns are exactly the wanted names and unmanaged columns stay. |
| FieldDiff.DiffGoesThrough | core/collections.go:663-772 | Without a clash a diff goes through exactly when every wanted field is permitted, with the same definition or leave to rebuild, no two rename from one name, and every stored field is wanted, renamed from, or may be dropped. |
| FieldDiff.DataIsKept | core/collections.go:683-703 | Renamed columns, kept columns with an unchanged expression and unmanaged columns hold their old data. |
| FieldDiff.PlainRebuildLosesValues | core/collections.go:711-735 | A computed column made plain comes back empty. |
| FieldDiff.PlainRebuildGoesThrough | core/collections.go:711-735 | A successful diff that makes a computed column plain and leaves it empty. |
| FieldDiff.EveryFieldHasItsColumnUnlessNamesClash | core/collections.go:667-690 | A successful diff leaves a column for every wanted field exactly when no field bears a name another renames from. |
| FieldDiff.ClashGoesThrough | core/collections.go:667-690 | A successful diff with a clash of names that leaves a wanted field without its column. |
| FieldDiff.DiffLosesNothingUndeclared | core/collections.go:753-771 | Without leave to drop, a successful diff carries every column's data over to a name of its own, clash or no clash. |
| Realtime.Hub.Subscribe | apis/realtime.go:97-110 | A subscriber joins under a new id with an empty queue. |
| Realtime.Hub.Publish | apis/realtime.go:138-155 | Every subscriber whom the event concerns and who has room gets it, one with 64 waiting loses it, and no one is waited for. |
| Realtime.Hub.Receive | apis/realtime.go:191-252 | A stream takes its waiting events in order. |
| Realtime.OfferFollows | apis/realtime.go:138-189 | What a subscriber received and has waiting stays an ordered subsequence of the matching events, and the lost ones make up the rest. |
| Realtime.NothingLostUnlessFull | apis/realtime.go:146-153 | A subscriber never full received exactly the matching events. |
| Realtime.OnlyConcerningEvents | apis/realtime.go:138-189 | What a subscriber received or has waiting are events published since it joined, of its own project and of the collections and actions it asked for. |
| Realtime.MatchingConcerns | apis/realtime.go:174-189 | The events that match are exactly those of the log that concern the subscriber. |
| Realtime.ListRealtimeEventsAfter | core/realtime_events.go:47-81 | Rows after an id that other replicas wrote, in id order; one left out has a larger id than all returned, and then they are as many as asked for. |
| Realtime.Replica.PollFanout | apis/realtime.go:433-450 | A poll hands the next foreign rows to the hub in order and moves the cursor to the last. |
| RealtimeProtocol.RunKeeps | apis/realtime.go:433-450 | In every run handed ids strictly increase, and every foreign id seen was handed over or is pending, late or pruned, and only one of these. |
| RealtimeProtocol.MissedForGood | core/realtime_events.go:47-81 | An id that became visible behind the cursor, or was pruned ahead of it, is never handed over. |
| RealtimeProtocol.OrderlyMissesNothing | core/realtime_events.go:83-89 | When ids become visible in order and are polled before pruning, nothing is missed. |
| RealtimeProtocol.ShortPollCatchesUp | apis/realtime.go:433-450 | A poll of fewer than 100 events leaves none pending. |
| RealtimeProtocol.OutOfOrderIsMissed | apis/realtime.go:433-450 | Two rows that become visible against id order: the lower one is missed. |

## Left out

- HTTP handlers, routing, MCP, mail, the admin UI, configuration, the CLI and the audit log: plumbing around the modelled operations.
- Postgres, JWT signing, bcrypt, hashing and randomness: tokens, keys and ids are fresh values, a row is addressed by the token whose hash it stores, and a one-time code by the secrets it verifies against.
- Interleavings inside one transaction and READ COMMITTED effects: each transaction is one step. A password login is split where it reads its user outside the transaction, and every request carries the settings it read before; other reads of users ahead of a transaction (resolving an access token, finding the address of a token request) are taken in the step.
- Leaf predicates of filters, the rule grammar and record lookup by id: abstract predicates and a fixed map of records.
- Composite primary keys, Unicode lower-casing (ASCII only) and 32 and 64-bit overflow.
- AppAuth: the user quota of a project, email normalisation, device metadata of sessions, and the provider exchange of an OAuth login, whose outcome is a profile.
- Outbox: one database time stands for a whole sweep, a claim that fails charges no attempts, rows locked by another sweeper and last_error texts are not modelled, and the trigger's payload is its key.
- RecordExport: the label of a related record and the text of a plain value are functions of their inputs; a field named like the private cache key is not considered; streaming, aggregates and spreadsheets are not part of this model.
- ExportPaths: errors of an export path are not told apart, and a path through a hidden field is treated as the code treats it, by whether its target happens to be loaded.
- RateLimiter: hit lists are sequences; that overwriting the front of a list's own array gives the same list is shown for one array by CompactInPlace. The clock is monotone.
- RateLimiter.Limiter.AllowLimit: the log of a key restarts when the key is evicted, so the rule counts hits since the last eviction.
- FileUploads: authorisation, storage quota, file naming and the stored object; removing a cancelled session's chunk files is one step with its cancellation.
- FieldDiff: column types and generated clauses are compared as opaque definitions, and a statement the database refuses for its own reasons fails the diff.
- Realtime: publishing is one step although readers share a lock; broadcasts work as record events do; notifications only say when to poll.
- Object-store deletion, thumbnails, insights, label heuristics and settings validation.
