# layr: a verified model of its stateful core

This project models, in Dafny, the parts of layr that keep state or translate data, and proves what
they promise over every run or every input:

- **Sessions and tokens (auth).** `Sessions.dfy` has the handlers that issue, refresh and revoke
  sessions over the user table, the session table and the fast-path cache; `SessionRuns.dfy` proves
  what holds over every run of them, `SessionAnswers.dfy` what each answer means and what it leaves alone. `OidcCodes.dfy` is the authorization-code flow, `MfaTickets.dfy`
  the second factor, `SignInLimiter.dfy` the sign-in rate limiter, `AuthConfig.dfy` the settings.
- **The expiring key-value store (core).** `KvStore.dfy`, on which the components above rest.
- **The migrator (core).** `MigrationOrder.dfy` (keys, order, registry), `Migrations.dfy` (up and
  down), `MigrationInverse.dfy` (down undoes up), `MigrationDown.dfy` (down to a version),
  `MigrationCluster.dfy` (many nodes at once).
- **Events and nodes (core).** `EventBus.dfy`, `EventHooks.dfy`, `Nodes.dfy`.
- **Codecs and policy (core, auth).** `Base64Url.dfy`, `Envelope.dfy`, `Jwt.dfy` with `JwtCodec.dfy`,
  `Scopes.dfy`, and `Text.dfy` and `Decimal.dfy` for the string operations they use.

`dafny verify dfyconfig.toml` checks everything.

## How the model is built

Objects whose methods update fields are classes; each method is proved equal to a function on values,
and the properties are proved about those functions, over sequences of steps where the claim is about
runs. Handlers are methods of a class `Handlers` over the tables they touch.

Assumptions that the statements rest on:

- One HTTP handler is one atomic step, so a key-value `Get` followed by `Delete` is not interleaved
  with another handler. The event bus, the migration cluster and the node protocol are modelled with
  finer steps that interleave freely.
- One clock, in microseconds, never goes back, and each statement reads it once.
- UUIDs, refresh tokens, codes and tickets are fresh.
- Store writes succeed unless a parameter says otherwise (`persists`, `beats`, `deletes`, `effects`,
  `succeeds`).
- Ed25519, AES-GCM, SHA-256 and JSON are functions with their usual laws (`IsAead`, `IsCodec`).
  Base64url is written out.
- The key families of the store (`auth:session:`, `auth:code:`, ...) do not overlap, so each
  component has a table of its own.
- The library sort returns some ordered permutation; `SortIsUnique` shows that this leaves no choice
  when the keys are distinct.

Where the code and its comments or the obvious reading part ways, the model follows the code:

- A grant on every resource of a service covers the whole service whatever its action says
  (`core/scopes.go:102-105`). A scope for one action on everything therefore breaks transitivity of
  `HasScope` (`TransitiveExactly`), and so does the empty scope, which every non-empty list satisfies
  and which by itself satisfies everything (`TransitiveThroughEmptyExactly`, `EmptyMiddleBreaks`).
- `MigrateDown` says that it takes the advisory lock and does not
  (`core/database_migrations.go:306-314`), so the cluster theorems are about migrating up. It lists
  rows in the order of the database collation while migrating up sorts by bytes; down runs backwards
  exactly when the two agree (`DownInvertsUp`, `CollationReordersDown`). It deletes the row under the service name as written,
  so a blank service leaves its row behind (`BlankServiceStaysApplied`).
- The fast path is sound only if the cache does not outlive the session rows
  (`FastPathSoundExactly`), and only if the sign-in hands over the lock of the user
  (`SnapshotLockExactly`); the account-linking callback does not (`auth/base_handler_oauth.go:303-308`,
  `LinkedSignInIsUnsound`). The same callback does not hand over the second factor either, so a user
  who has one is not asked for it (`NoneSkipsExactly`, `LinkedAccountSkips`).
- A settings update whose write fails does not restore the previous settings to the letter
  (`FailedSetRestores`), nor does a restart (`RestartReloads`).

## Model

| member | source | states |
|---|---|---|
| `KvStore.DatabaseKVStore.Get` | core/kvstore_database.go:77-92 | returns a value exactly when the row is there and expires later than now |
| `KvStore.DatabaseKVStore.MGet` | core/kvstore_database.go:95-119 | the row loop collects exactly the live keys asked for, with their values |
| `KvStore.DatabaseKVStore.Set` | core/kvstore_database.go:122-142 | one row is replaced, with the expiry cut to microseconds or defaulted to a day |
| `KvStore.DatabaseKVStore.MSet` | core/kvstore_database.go:145-175 | writing the entries one after another in any order is the batch statement |
| `KvStore.DatabaseKVStore.SetNX` | core/kvstore_database.go:178-199 | stores exactly when no live row has the key, and says so |
| `KvStore.DatabaseKVStore.Delete` | core/kvstore_database.go:202-209 | removes the one key |
| `KvStore.DatabaseKVStore.IncrementBy` | core/kvstore_database.go:217-243 | adds to a live counter or starts a new one, renews the expiry, and fails without change on text that is no bigint or on overflow |
| `KvStore.DatabaseKVStore.Expire` | core/kvstore_database.go:246-267 | renews the expiry of a live key only |
| `KvStore.DatabaseKVStore.Sweep` | core/kvstore_database.go:67-74 | removes exactly the expired rows and counts them |
| `KvStore.TtlIs` | core/kvstore_database.go:122-142 | a positive expiry is cut to whole microseconds, whole seconds are kept exactly, and any other expiry is a day |
| `KvStore.IncrementCounts` | core/kvstore_database.go:217-243 | a live counter holding n becomes n + delta unless that leaves the bigint range, which fails without change; a missing or expired one starts at delta |
| `KvStore.MSetInAnyOrder` | core/kvstore_database.go:145-175 | MSet equals setting its entries one by one, in any order, at the same instant |
| `KvStore.StatementRefinesTimedMap` | core/kvstore_database.go:67-267 | every statement on the table does to the visible entries what a map that forgets expired entries does, with the same reply |
| `KvStore.RunRefinesTimedMap` | core/kvstore_database.go:67-267 | over any sequence of calls at non-decreasing times the table and the timed map give the same replies, with or without the sweeps |
| `KvStore.SweepingIsUnobservable` | core/kvstore_database.go:48-74 | sweeps inserted anywhere in a run change no reply |
| `KvStore.LeaseHeldThroughout` | core/kvstore_database.go:77-119 | until the expiry instant every reader sees the holder's value and every SetNX fails |
| `KvStore.LeaseIsExclusive` | core/kvstore_database.go:178-199 | a successful SetNX excludes any other and shows its value to every reader until its expiry instant, and the first SetNX from that instant on succeeds, whatever reads and sweeps come in between |
| `Decimal.ParseFormat` | core/kvstore_database.go:224-236 | reading back a printed integer gives that integer, so counters survive being stored as text |
| `Sessions.Handlers.IssueSession` | auth/base_handler.go:59-135 | the new row with its refresh expiry and, with the fast path on, the cached snapshot with its own expiry |
| `Sessions.Handlers.HandleRefresh` | auth/base_handler_session.go:242-329 | cached and table branch as functions of the stores, whose answers `SessionAnswers` states; if several rows have the token, some one of them decides |
| `Sessions.Handlers.HandleSignOut` | auth/base_handler_session.go:332-369 | the row and the cache entry of the token are gone |
| `Sessions.Handlers.HandleRevokeSession` | auth/base_handler_session.go:78-138 | only the caller's own session is revoked, with its cache entry (`RevokeSessionAnswers`, `OthersAreUntouched`) |
| `Sessions.Handlers.HandleRevokeOthers` | auth/base_handler_session.go:141-239 | all sessions of the caller but the current one go, with their cache entries; without a current session nothing changes; the current one is the claimed id or some row of the caller's token |
| `Sessions.Handlers.DropRows` | auth/base_handler_session.go:200-221 | the loop over the deleted rows removes exactly those rows and the cache entries of their hashes |
| `Sessions.Handlers.HandleRevokeUserSessions` | auth/control_plane_handler_session.go:55-109 | all sessions of the user and their cache entries are gone |
| `Sessions.Handlers.HandleLockUser` | auth/control_plane_handler_user.go:271-352 | the lock is set and every session and cache entry of the user is gone |
| `Sessions.Handlers.HandleUnlockUser` | auth/control_plane_handler_user.go:355-397 | the lock is cleared and nothing else changes |
| `Sessions.Handlers.HandleDeleteSelf` | auth/base_handler_user.go:113-169 | cache entries are purged before the user row and its sessions go |
| `SessionRuns.StepKeepsInv` | auth/base_handler_session.go:78-369 | every handler, under any settings, keeps each live cache entry backed by a row with the same hash and an existing user; where the cache fits and sign-ins hand over the lock, also by one that lives as long and a lock that ends no later |
| `SessionRuns.RunKeepsInv` | auth/base_handler.go:85-135 | both forms of that invariant over every run of the handlers |
| `SessionRuns.FastPathIsSound` | auth/base_handler_session.go:262-329 | over every run whose sign-ins hand over the lock, with a cache TTL of at most the refresh expiry, whenever the cached branch would accept a token the table branch would accept it too, for the same user, expiry and lock included |
| `SessionRuns.FastPathSoundExactly` | auth/base_handler.go:85-135 | that soundness holds over all such runs exactly when the fast path is off or the cache TTL is at most the refresh expiry |
| `SessionRuns.FirstSignInOutlivesRow` | auth/base_handler.go:85-135 | for every other setting, one sign-in already gives a token the cache accepts after its row has expired |
| `SessionRuns.SnapshotLockExactly` | auth/base_handler_oauth.go:303-308 | a session issued from a snapshot that may have lost the lock stays sound exactly when the row's lock or the entry is over by the time the snapshot opens |
| `SessionRuns.LinkedSignInIsUnsound` | auth/base_handler_oauth.go:303-311 | a concrete run under the default settings: a locked user signs in through account linking, and the cache admits the token while the table does not |
| `SessionRuns.TokenIsConsumedOnce` | auth/base_handler_session.go:259-329 | in every run, under any fixed settings and with any sign-ins, once a refresh with a token succeeds every later refresh with it is rejected, by either branch |
| `SessionRuns.SpentThroughRun` | auth/base_handler_session.go:259-329 | a spent token has no row and no live cache entry for the rest of the run |
| `SessionRuns.RefreshReplacesOneRow` | auth/base_handler_session.go:259-329 | in every run, under any fixed settings, a successful refresh swaps exactly one row for one fresh row of the same user, leaves all others alone, and conserves everybody's session count |
| `SessionRuns.RevokedNeverRefreshes` | auth/control_plane_handler_user.go:295-337 | in every run, under any fixed settings, a token whose session was signed out, revoked, or taken with its user's lock or deletion is rejected ever after, by either branch |
| `SessionRuns.FreshTokenRefreshes` | auth/base_handler_session.go:259-329 | a newly issued token refreshes, by whichever branch, until it expires, exactly while its user is not locked |
| `SessionRuns.SwitchingSettingsReplaysToken` | auth/base_handler_session.go:262-300 | a concrete run: with the fast path switched off and on again one token is spent twice, so fixed settings are needed |
| `SessionAnswers.TableAnswers` | auth/base_handler_session.go:283-329 | the table branch, answer by answer: expired exactly past the row's expiry, rejected exactly when the user is gone, locked exactly while the lock lasts, else a session for the row's user; the row goes unless the answer is rejected |
| `SessionAnswers.TableAdmitsExactly` | auth/base_handler_session.go:283-329 | the table admits a token for a user if and only if a row of that token has not expired, belongs to that user, and the user is stored and not locked |
| `SessionAnswers.RefreshNeedsRow` | auth/base_handler_session.go:283-329 | over every run, without a live cache entry, a refresh is answered with a session exactly when such a row exists and with Expired exactly when an expired one does, after which no row of the token is left |
| `SessionAnswers.CacheAnswers` | auth/base_handler_session.go:262-278 | with a live cache entry the snapshot's lock alone decides between a session for its user and Locked, and neither row nor entry of the token is left |
| `SessionAnswers.FreshTokenExpires` | auth/base_handler_session.go:294-298 | past its refresh expiry a session's token is refused as expired exactly when no cache entry outlives it |
| `SessionAnswers.OthersAreUntouched` | auth/base_handler_session.go:108-221 | revoking one session, the other sessions or all sessions, locking and deleting for one user leave every session row of every other user and its cache entry as they were |
| `SessionAnswers.SignOutTouchesOneToken` | auth/base_handler_session.go:332-369 | signing out leaves every session with another token and its cache entry as they were |
| `SessionAnswers.RevokeSessionAnswers` | auth/base_handler_session.go:108-119 | a session is revoked exactly when its row belongs to the caller; otherwise the answer is not found and nothing changes |
| `SessionAnswers.RevokeOthersAnswers` | auth/base_handler_session.go:189-239 | the current session and its cache entry stay, every other session of the caller goes, and the answer counts them |
| `SessionAnswers.NoCurrentSessionAnswers` | auth/base_handler_session.go:161-187 | without a current session nothing changes, and the answer is zero revoked if at most one session is unexpired and else a demand for the current one |
| `SessionAnswers.UsersAfter` | auth/control_plane_handler_user.go:271-397 | locking sets and unlocking clears the lock of that user alone, deletion removes that user alone, and refreshing and revoking touch no user |
| `SessionAnswers.NoSessionOfOwnerLeft` | auth/control_plane_handler_user.go:295-337 | after revoking all sessions of a user, locking or deletion no session of that user is left |
| `OidcCodes.Handlers.IssueAuthorizationCode` | auth/base_handler.go:185-202 | the code with its payload and a five-minute expiry |
| `OidcCodes.Handlers.HandleAuthorize` | auth/base_handler_oidc.go:134-237 | which requests are refused, what is stored for the others, and when a signed-in caller gets a code at once |
| `OidcCodes.Handlers.CompleteAuthorization` | auth/base_handler_oidc.go:240-263 | a live state becomes one code for its client, redirect, scope, challenge and nonce, and is gone |
| `OidcCodes.Handlers.HandleRedeem` | auth/base_handler_oidc.go:929-1091 | a found code is used up before anything about it is checked; who is refused before that (`UnauthenticatedClientIsRefused`), the order of the checks and what success returns (`RedemptionIsTraceable`) |
| `OidcCodes.StepKeepsInv` | auth/base_handler_oidc.go:134-263 | every step keeps stored states and codes tied to the entries of the log that created them |
| `OidcCodes.CodesAreTraceable` | auth/base_handler_oauth.go:387-427 | over every run each redemption goes back to one issue, and that to the one authorize request that stored its state or was answered at once; no code is redeemed or issued twice, and each state yields at most one code |
| `OidcCodes.RedemptionIsTraceable` | auth/base_handler_oidc.go:929-1021 | tokens are given only to a registered client that is public or shows its own non-empty secret, only for a stored user, with no redirect URI or the one bound to the code, and only for a code never redeemed before, issued less than five minutes ago to the same client, from a request with a then-registered redirect URI and a non-empty S256 challenge equal to the verifier's digest, with the subject and nonce bound at issue |
| `OidcCodes.UnauthenticatedClientIsRefused` | auth/base_handler_oidc.go:937-956 | an unknown client, or a confidential one without its own secret, is refused and the code stays as it was |
| `OidcCodes.RedemptionTouchesOneCode` | auth/base_handler_oidc.go:969-976 | a redemption leaves users, pending states and every other code alone |
| `OidcCodes.AuthorizeAnswers` | auth/base_handler_oidc.go:134-237 | a request is taken up exactly when it names a registered client, one of its redirect URIs, the code response type and an S256 challenge; a signed-in caller gets the code; any other request changes nothing |
| `OidcCodes.StateLastsTenMinutes` | auth/base_handler_oidc.go:181-263 | a pending state can be completed exactly during its ten minutes |
| `OidcCodes.HonestFlowSucceeds` | auth/base_handler_oidc.go:181-263 | an accepted request, completed within ten minutes and redeemed within five more by the same client with the verifier behind the challenge, gives tokens for that user and nonce |
| `OidcCodes.FoundCodeIsSpent` | auth/base_handler_oidc.go:957-997 | a redemption that finds its code uses it up whether or not anything else matches, and succeeds exactly when everything does |
| `OidcCodes.SpentCodeIsRefused` | auth/base_handler_oidc.go:957-997 | in every run, once a redemption has found a code, successfully or not, every later one with that code is refused |
| `MfaTickets.ShouldTriggerMfa` | auth/base_handler_threat.go:126-147 | the nested loops decide exactly the policy: always, or a medium or high risk, or a configured trigger among the reasons |
| `MfaTickets.Handlers.CompleteSignInFlow` | auth/base_handler_threat.go:126-161 | a ticket or a session, never both |
| `MfaTickets.Handlers.HandleChallenge` | auth/base_handler_mfa.go:170-269 | a found ticket is removed before user, lock, secret and code are checked (`FoundTicketIsSpent`) |
| `MfaTickets.StepKeepsInv` | auth/base_handler_mfa.go:193-269 | every step keeps live tickets tied to their issue and untaken |
| `MfaTickets.TicketsAreTraceable` | auth/base_handler_mfa.go:193-269 | over every run a ticket is taken at most once, each session by ticket directly follows the taking of its ticket with a code that was right for the user's non-empty secret at that instant, and a ticket leads to at most one session, for the user it was issued to, less than five minutes later, while that user is not locked |
| `MfaTickets.NoneSkipsExactly` | auth/base_handler_threat.go:126-161 | over every run and under every policy, nobody whose stored user owes the second factor gets a session from completeSignInFlow without a ticket if and only if every such sign-in hands over the stored user's factor |
| `MfaTickets.AskedExactly` | auth/base_handler_threat.go:126-161 | a sign-in of a stored user who owes the factor ends in a ticket exactly when the user handed in carries the flag, else in a session |
| `MfaTickets.AlwaysPolicyOwes` | auth/base_handler_threat.go:129-130 | under the always policy the factor is owed by exactly the stored users that have one |
| `MfaTickets.AdaptivePolicyOwes` | auth/base_handler_threat.go:131-146 | under any other policy the factor is owed only under the adaptive one, by enrolled stored users, on medium or high risk or for a configured reason |
| `MfaTickets.NotAskedOtherwise` | auth/base_handler_threat.go:126-161 | a sign-in without the factor, or under a policy that does not ask, gets its session and no ticket |
| `MfaTickets.LinkedAccountSkips` | auth/base_handler_oauth.go:303-311 | a concrete run: the account-linking callback hands over an enrolled user without the flag, and the user is signed in without being asked |
| `MfaTickets.FoundTicketIsSpent` | auth/base_handler_mfa.go:193-269 | a challenge that finds a ticket gives a session if and only if the ticket's user is stored, not locked, enrolled, and the code is right for the stored secret at that instant; the ticket is spent either way and every later challenge with it is refused |
| `MfaTickets.MissingTicketIsRefused` | auth/base_handler_mfa.go:170-205 | without a live ticket or without a code a challenge is refused and changes nothing |
| `MfaTickets.HonestChallengeSucceeds` | auth/base_handler_mfa.go:193-269 | a user who is asked at sign-in and brings the right code gets the session exactly within five minutes |
| `SignInLimiter.HandleSignIn` | auth/base_handler_password.go:189-274 | counting, blocking above the maximum, letting through on a store error, and the reset after a correct password |
| `SignInLimiter.SignsInExactly` | auth/base_handler_password.go:189-274 | past the limiter an attempt signs in exactly when the account exists, is not locked and the password is right; a disabled limiter blocks nobody; no other key of the store changes |
| `SignInLimiter.CounterShowsStreak` | core/kvstore_database.go:217-243 | at every instant the stored counter of every identifier is the number of attempts since the last reset, defined from the history alone |
| `SignInLimiter.PassesExactly` | auth/base_handler_password.go:189-203 | an attempt gets past the limiter exactly when fewer than the maximum are on its streak |
| `SignInLimiter.AtMostMaxPass` | auth/base_handler_password.go:189-274 | between two resets at most the maximum number of attempts for an identifier get past the limiter |
| `SignInLimiter.BlockedStaysBlocked` | auth/base_handler_password.go:189-203 | a blocked identifier stays blocked as long as no full window passes without an attempt |
| `SignInLimiter.FullWindowUnblocks` | auth/base_handler_password.go:189-203 | after a full window without an attempt the next attempt passes, whatever came before |
| `AuthConfig.AnyEnabled` | auth/config.go:532-545 | the provider loop finds an enabled provider exactly when there is one |
| `AuthConfig.Normalise` | auth/config.go:419-530 | the fallbacks applied one after another give the normal form of the settings |
| `AuthConfig.ShowMethods` | auth/config.go:532-578 | a method that comes on is shown, one that is off is not, others as asked |
| `AuthConfig.ConfigManager.SetMemoryConfig` | auth/config.go:419-581 | the active settings are the normal form of the update with its Show flags decided against the previous ones |
| `AuthConfig.ConfigManager.Set` | auth/config.go:612-636 | invalid updates change nothing; a failed write re-applies the previous settings; a good one is stored |
| `AuthConfig.ConfigManager.Load` | auth/config.go:584-609 | defaults are saved when nothing is stored, invalid stored settings are refused, others become active |
| `AuthConfig.AppliedIsNormal` | auth/config.go:419-581 | after any update, from any state, every Show flag implies that its method is enabled and the normaliser has nothing left to do |
| `AuthConfig.AppliedKeepsLimits` | auth/config.go:419-530 | each positive number and each non-empty name of an update becomes active as given, and each missing one becomes the value the default settings have |
| `AuthConfig.AppliedKeepsSwitches` | auth/config.go:419-530 | every other setting becomes active as given, except that the limiter and the fast path come on when switched off with a zero beside them |
| `AuthConfig.AppliedKeepsLists` | auth/config.go:419-530 | given risk triggers and templates survive, and missing ones come from the defaults, the triggers only under the adaptive policy |
| `AuthConfig.SetAcceptsExactly` | auth/config.go:339-368 | an update is accepted exactly when its three session times are positive, its password length not negative, its bot protection complete if enabled, and the write goes through; an invalid one changes nothing |
| `AuthConfig.ReachableIsSettled` | auth/config.go:419-636 | in every reachable state only enabled methods are shown and re-applying the active settings changes nothing |
| `AuthConfig.FailedSetRestores` | auth/config.go:612-636 | a valid update whose write fails restores the previous settings, except that Show flags of methods it would have turned off come back true |
| `AuthConfig.RestartReloads` | auth/config.go:584-636 | a restart reloads what the last Set stored, except that Email OTP, SMS OTP and OAuth are shown whenever enabled |
| `AuthConfig.StoredLoads` | auth/config.go:584-609 | whatever any run has stored passes validation when it is loaded |
| `MigrationOrder.TextIsInjective` | core/database_migrations.go:56-56 | the printed `service:version` key determines both, even when the service holds colons |
| `MigrationOrder.BeforeIsTotal` | core/database_migrations.go:34-47 | the comparison is asymmetric and decides between any two different keys |
| `MigrationOrder.BeforeIsTransitive` | core/database_migrations.go:34-47 | not coming before is transitive, so with totality the comparison is a strict total order on keys |
| `MigrationOrder.SortIsSort` | core/database_migrations.go:34-47 | the sort used in the model is an ordered permutation |
| `MigrationOrder.SortIsUnique` | core/database_migrations.go:34-47 | with distinct keys any two ordered permutations are the same list |
| `MigrationOrder.Registry.Register` | core/database_migrations.go:25-32 | the definition is appended with a blank service named core |
| `MigrationOrder.Registry.GetRegistered` | core/database_migrations.go:50-64 | the result is the sort of the first definition of each key, and its keys are distinct |
| `MigrationOrder.FirstOfEachIsDistinct` | core/database_migrations.go:53-61 | deduplication keeps every key, once |
| `MigrationOrder.FirstOfEachIsFirst` | core/database_migrations.go:53-61 | what deduplication keeps is the first definition of its key, the system ones before the registered ones |
| `Migrations.Migrator.Up` | core/database_migrations.go:217-294 | the loop with its string keys, skip, stop and failure cases does what the specification says, and a failure leaves the database unchanged |
| `Migrations.Migrator.Down` | core/database_migrations.go:297-388 | the way down over the ledger's own rows in the order of the database collation: missing table, empty registry, foreign services, missing definitions, target, missing scripts (`DownToTarget`, `UpThenDown`); a failure leaves the database unchanged |
| `Migrations.ListRows` | core/database_migrations.go:320-335 | the query lists exactly the ledger's rows, once each, core last, services and versions downward |
| `Migrations.RollBack` | core/database_migrations.go:349-384 | the loop with its two lookup maps does what the specification says, row by row (`DownToTarget`) |
| `Migrations.Index` | core/database_migrations.go:337-346 | the two lookup maps hold exactly the services named and, per key, the last definition |
| `Migrations.UpRunsPlan` | core/database_migrations.go:268-293 | one pass over the sorted list succeeds exactly when all planned scripts do, and then has run the plan: the pending migrations up to the target |
| `Migrations.WithinIsLongestPrefix` | core/database_migrations.go:274-277 | the plan is the longest prefix of the pending list whose versions are within the target, and all of it for target 0 |
| `Migrations.PendingCoversOrder` | core/database_migrations.go:268-273 | the pending list holds each unrecorded key once |
| `MigrationInverse.UpFromEmpty` | core/database_migrations.go:257-290 | from empty, all scripts run in sorted order and exactly their keys are recorded |
| `MigrationInverse.UpThenDown` | core/database_migrations.go:257-388 | up from empty and down to 0 both succeed; nothing is left applied exactly when the base migration is registered or no definition has a blank service |
| `MigrationDown.DownToTarget` | core/database_migrations.go:337-388 | down to any target above 0, from any ledger and in any collation, succeeds exactly when every served row is defined and every one above the target has a working down script; then exactly the rows at or below the target, of services not served, or with a blank service in their definition are left, and the down scripts of the served rows above the target have run in listing order |
| `MigrationDown.UpThenDownToTarget` | core/database_migrations.go:257-388 | all the way up and down to a target leaves exactly the keys up to the target and those of definitions with a blank service |
| `MigrationDown.DefinitionIsLast` | core/database_migrations.go:337-346 | the definition used for a row is the last one registered under its key, and missing only if none is |
| `MigrationInverse.ListingIsUndoable` | core/database_migrations.go:320-321 | whatever the collation, core comes last on the way down and the base migration last of all |
| `MigrationInverse.DownOrderExactly` | core/database_migrations.go:320-321 | the database lists the rows in exactly the reverse of the up order if and only if its collation orders the registered services as the migrator does |
| `MigrationInverse.DownInvertsUp` | core/database_migrations.go:257-388 | the down scripts run in exactly the reverse of the up order if and only if the collation agrees |
| `MigrationInverse.CollationReordersDown` | core/database_migrations.go:320-321 | a concrete registry, services B and a, that a collation ignoring case takes down in the order it came up in |
| `MigrationInverse.IgnoringCaseIsCollation` | core/database_migrations.go:320-321 | comparing without regard to case first and by bytes among equals is a strict total order |
| `MigrationInverse.BlankServiceStaysApplied` | core/database_migrations.go:372-377 | a concrete registry whose blank service leaves its row behind |
| `MigrationCluster.StepKeepsInv` | core/database_migrations.go:217-294 | every step of every node keeps the uncommitted work a prefix of its plan and one node at most inside the lock |
| `MigrationCluster.ExactlyOnce` | core/database_migrations.go:217-294 | in every interleaving, with any failures, no up script is committed twice and the recorded set is the set of committed scripts |
| `MigrationCluster.StepAppliesPlan` | core/database_migrations.go:217-294 | only a commit changes the database, and it applies exactly the longest prefix of the pending list within the target; with target 0 all keys of the run are then applied |
| `MigrationCluster.CommitAnswersRequest` | core/database_migrations.go:257-266 | the list a commit goes by is the sort of the migrations its own run was started with, its pending part is in order, and with target 0 every key asked for is then applied |
| `EventBus.WildcardMatchesSegments` | core/event.go:537-548 | a pattern ending in `.*` matches exactly the names whose first dot-separated segments are those of its prefix |
| `EventBus.OtherPatternsMatch` | core/event.go:537-548 | the bare wildcard matches every name, and a pattern that is no wildcard matches exactly its own trimmed name |
| `EventBus.MatchCountIs` | core/event.go:473-490 | one handler is started for each subscription that matches |
| `EventBus.StepKeepsInv` | core/event.go:398-534 | publish, take, record, dispatch, exit and close each keep the queue a suffix of what was accepted and every taken event in one place |
| `EventBus.EventsAreConserved` | core/event.go:350-534 | in every interleaving each accepted event is in exactly one of a queue slot, one worker's hands, or dispatched, and none is dispatched twice |
| `EventBus.QueueIsFair` | core/event.go:398-534 | events leave in acceptance order, the queue stays within capacity, drops happen only when it is full, and recording is attempted before hook dispatch |
| `EventBus.NothingVanishes` | core/event.go:398-413 | in every run, complete events published equal events accepted plus events dropped |
| `EventBus.AcceptedAreComplete` | core/event.go:440-443 | over every run only events with a type, a resource type, an action and a resource id are accepted |
| `EventBus.NothingAfterClose` | core/event.go:493-510 | after Close has returned no worker takes, records or dispatches anything, whatever is still published |
| `EventBus.WorkersStayUntilStop` | core/event.go:493-510 | over every run no worker leaves before Close is called, and Close returns only once all have left |
| `EventHooks.HookManager.Create` | core/event_hook.go:59-178 | the checks in order, the clamps and defaults, and the stored hook |
| `EventHooks.CreatedIs` | core/event_hook.go:59-178 | the trimmed name and lowered driver, the patterns as given, the defaults 3, 10 and enabled, limits in range as given, and per driver the one target it takes and what it forbids |
| `EventHooks.HookManager.Update` | core/event_hook.go:253-383 | the steps of an update: what it may change, what it refuses and in which order, and the stored hook |
| `EventHooks.UpdatedIs` | core/event_hook.go:253-383 | what an update gives is taken over and what it leaves out stays |
| `EventHooks.EmptyUpdateKeeps` | core/event_hook.go:253-383 | an update that gives nothing leaves a valid hook as it is |
| `EventHooks.ReplaceTarget` | core/event_hook.go:278-331 | function name, URL and secret each kept, cleared or replaced after their check, then the driver's own required and the other driver's cleared |
| `EventHooks.CheckTarget` | core/event_hook.go:67-115 | a new hook has its driver's target, checked, and nothing of the other driver |
| `EventHooks.ReachableHooksAreValid` | core/event_hook.go:72-363 | every hook left by any run of creations, updates and deletions has exactly the target its driver needs, one that passed its check, retries in 0..10 and timeout in 1..60 |
| `EventHooks.MatchedHooks` | core/event_hook.go:491-526 | each enabled hook with a matching pattern is reached once, in order |
| `EventHooks.WantingExactly` | core/event_hook.go:491-526 | a hook is reached exactly when it is stored, enabled and one of its patterns matches, and no more often than it is stored |
| `EventHooks.Attempt` | core/event_hook.go:661-739 | how an attempt counts: success, permanent or transient failure, by driver, status and error |
| `EventHooks.VerdictExactly` | core/event_hook.go:661-739 | success is a returned call or a 2xx answer; another try is for a transient database error, no answer, 429, or an answer outside 2xx and 4xx; only a hook with neither driver is skipped |
| `EventHooks.Deliver` | core/event_hook.go:535-610 | between 1 and n attempts (n at most 10 for a valid hook), stopping at the first success, permanent failure or cut pause; delivered with a timestamp exactly when the last attempt succeeded; total pause at most 100 ms * (2^(n+1) - 2) |
| `Nodes.NodeManager.Register` | core/node.go:68-94 | the row starts with a heartbeat now, and so does the reaper's clock |
| `Nodes.NodeManager.Tick` | core/node.go:104-118 | the heartbeat updates an existing row only; the reaper runs after a minute and forgets nothing younger than a minute |
| `Nodes.NodeManager.Close` | core/node.go:120-145 | the node's own row is removed |
| `Nodes.NeverReaped` | core/node.go:96-135 | a node whose heartbeats are at most 60 s apart is never reaped by any node, and its row holds its last heartbeat |
| `Nodes.RemovedNeverReappears` | core/node.go:71-75 | a node id that has left the table never comes back, even if the node goes on beating |
| `Nodes.SilentNodeIsRemoved` | core/node.go:104-118 | with one live node ticking at gaps of at most G, the row of a silent node is gone within 120 s + G of its last heartbeat |
| `Base64Url.DecodeOfEncode` | core/crypto.go:101-131 | unpadded base64url decoding undoes encoding for every byte string, section 5 of RFC 4648 |
| `Base64Url.EncodeHasNoSeparator` | core/crypto.go:101-106 | encoded data holds neither a colon nor a dot |
| `Envelope.EnvelopeHasSixParts` | core/crypto.go:82-107 | an envelope splits into exactly six parts: scheme, nonce, ciphertext and tag |
| `Envelope.DecryptUndoesEncrypt` | core/crypto.go:82-152 | for every plaintext, empty included, and every nonce of the right size, decryption undoes encryption |
| `Envelope.DecryptedWasOpened` | core/crypto.go:110-152 | a text decrypts only if it is the prefix and three base64url parts, its nonce has the right size and the cipher opens ciphertext and tag to that plaintext |
| `Jwt.GenerateAccessToken` | core/jwt_signer.go:211-269 | the compact form of the claims with every blank filled |
| `Jwt.FindKey` | core/jwt_jwks.go:78-92 | the lookup loop finds the first key with the name, or the only key for a token without one |
| `Jwt.CompactSplits` | core/jwt_signer.go:245-269 | a token splits into exactly its three segments, section 3.1 of RFC 7515 |
| `Jwt.VerifyOfCompact` | core/jwt_signer.go:272-318 | verification of an issued token depends on the two time bounds only, in their order |
| `Jwt.AccessTokenValidExactly` | core/jwt_signer.go:211-318 | issued at t for e seconds, a token verifies to its claims if and only if t <= u <= t + e |
| `Jwt.TokenCarriesClaims` | core/jwt_signer.go:211-269 | a verified token says the subject and custom claims given, and for role, issuer, audience, id and the three times what was given or, where left out, the default |
| `Jwt.VerifiesExactly` | core/jwt_signer.go:272-318 | any text verifies to claims if and only if it is three dot-free segments, the last decodes to a signature of the first two under the signer's key, the middle decodes to the claims, and these are in force |
| `Jwt.KeySetVerifies` | core/jwt_jwks.go:57-128 | a key set accepts only what a key chosen by the token's key id, or its only key for a token without one, has signed, while the claims are in force |
| `Jwt.JwksAgrees` | core/jwt_jwks.go:31-128 | for every signer the constructor makes, verification against the published key set and by the signer agree on every access token it issues, at every instant |
| `Jwt.ResolvedKeyId` | core/jwt_signer.go:173-182 | the constructor never leaves the key id empty |
| `Jwt.JwksAgreesExactly` | core/jwt_signer.go:245-248 | for a signer built any other way, agreement holds exactly when its key id is not empty |
| `JwtCodec.CodecExists` | core/jwt_signer.go:250-257 | the laws asked of the token codec can be met |
| `Scopes.HasScope` | core/scopes.go:82-135 | the search with its early returns decides exactly the covering relation |
| `Scopes.GrantsScope` | core/scopes.go:95-131 | one granted scope against the required one |
| `Scopes.WrittenSatisfiesExactly` | core/scopes.go:95-162 | for any two written scopes service:resource.action, one satisfies the other exactly when it is for all of the same service, or reaches service and resource with the same action, any action, or write where read is asked |
| `Scopes.WriteImpliesRead` | core/scopes.go:118-126 | on every resource a write scope satisfies read and a read scope does not satisfy write |
| `Scopes.HasScopeIsReflexive` | core/scopes.go:82-135 | every list satisfies each of its own scopes |
| `Scopes.CoversIsTransitive` | core/scopes.go:95-131 | covering between parsed scopes is transitive from every scope but one for a single action everywhere |
| `Scopes.TransitiveExactly` | core/scopes.go:82-162 | through every non-empty scope HasScope is transitive for a granted list if and only if the list holds root or no scope for a single action everywhere |
| `Scopes.TransitiveThroughEmptyExactly` | core/scopes.go:86-88 | through the empty scope HasScope is transitive for a granted list if and only if the list is empty or holds root |
| `Scopes.EmptyMiddleBreaks` | core/scopes.go:86-88 | concrete scopes for which the empty scope in the middle breaks transitivity |
| `Scopes.Deduplicate` | auth/base_handler_oidc.go:861-869 | the seen map keeps the first of each requested scope |
| `Scopes.GrantScopes` | auth/base_handler_oidc.go:857-903 | no request means all available scopes; otherwise the deduplicated request, and only if every one of them is satisfied |
| `Scopes.GrantNeverWidens` | auth/base_handler_oidc.go:857-903 | every scope the issued token's joined and re-split claim satisfies is already satisfied by a contained account |
| `Scopes.GrantableIsContained` | auth/base_handler_oidc.go:857-903 | accounts of whitespace-free scopes, none for a single action everywhere, are contained |
| `Scopes.NeverWidensExactly` | core/jwt_signer.go:49-56 | no grant ever widens an account if and only if it holds root, or holds no scope for a single action everywhere and covers every word of its own scopes |
| `Scopes.IssuePlatformScopes` | auth/base_handler_oidc.go:857-903 | the grant end to end, for every request |
| `Scopes.ActionOnlyWidens` | core/scopes.go:105-131 | the failing family: such an account without root is granted root, which satisfies a scope the account does not |
| `Scopes.InnerSpaceWidens` | core/jwt_signer.go:49-56 | a concrete account whose inner space turns into a scope of its own |

## Left out

- Control-plane user deletion, OIDC sign-out and the OIDC refresh grant are not among the steps of `SessionRuns`: they remove or rotate rows without purging every cached entry, so the cache invariant is not theirs to keep.
- E-mail and SMS dispatch, CAPTCHA, breach checks and outbound sign-out calls: network I/O.
- Pages, routers, OpenAPI export, SDK code, logging and the command line: plumbing with only easy properties.
- The Redis driver, embedded PostgreSQL, pools and certificates: wrappers over other code.
- The internals of Ed25519, AES-GCM, HKDF, SHA-256, Argon2, TOTP and JSON: only their laws are used.
- Sessions that password reset, passkey sign-in and enrolment issue directly (auth/base_handler_password.go:497, auth/base_handler_passkey.go:288, auth/base_handler_mfa.go:167) are not steps of `MfaTickets`, whose results are about completeSignInFlow and the challenge.
- One-time passwords by e-mail or SMS: the generic verify handler applies no attempt limit, so there is no bound to prove.
- Event actors, contexts, metadata and synchronous publishing: they do not touch the queue.
- Delivery history rows, signatures and response texts: the outcome of a delivery is modelled, its record is not.
- Decimal.Parse: reads an optional sign and digits; the database also accepts surrounding space, underscores and radix prefixes, which the counters never contain.
- Text.Lower: lowers exactly the characters whose lower case is an ASCII letter, which is all that a comparison with an ASCII name can see.
- AuthConfig.ConfigManager.SetMemoryConfig: works on values, so the copying that keeps callers from sharing maps and lists with the active settings is not visible.
- MigrationOrder.Sort: is a sort on values in place of the library sort on a slice; for definitions that repeat a key the library may keep either first.
- Migrations.Migrator.Up: records versions as unbounded integers; the table has 32-bit ones.
- EventHooks.Deliver: takes the outcome of each attempt and the test for transient database errors as parameters.
- SignInLimiter.CounterShowsStreak: like the results on it, is about runs shorter than the largest bigint, beyond which the counter overflows and the limiter lets attempts through.
