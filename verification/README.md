# Verified model of sercha-core

This project models the parts of sercha-core where state runs through whole
executions or where a rewriting loop needs a real argument, and proves what those
parts promise. Check it with `dafny verify dfyconfig.toml`.

- **OAuth 2.0 authorization server** (`OAuthDomain`, `OAuthServer`, `OAuthGrants`,
  `OAuthSafety`, `OAuthPromises`, `OAuthChains`, `OAuthRotation`, `OAuthTurns`,
  `OAuthForks`, `OAuthService`). Registration, PKCE codes, code exchange, refresh rotation,
  revocation and bearer validation over four stores and a clock. Both grant handlers
  are cut at their store calls, so any number of them interleave with each other and
  with everything else. `OAuthServer` is the state machine, `OAuthGrants` its
  invariant, `OAuthSafety` the guarantees over all runs, `OAuthPromises` what a token
  owes to the requests it goes back to, `OAuthChains`, `OAuthRotation`, `OAuthTurns` and
  `OAuthForks` the shape of refresh rotation, and `OAuthService` the imperative
  handlers, each proved to be a run of the machine.
- **Capability resolution** (`Capabilities`): the in-place cascade over shared
  objects is the greatest dependency-closed set.
- **Scheduler, tasks and workers** (`Scheduler`, `Tasks`, `Worker`): several
  scheduler instances under one lock, retry backoff in 64-bit arithmetic, and the
  start/stop protocol of the worker pool.
- **Sources** (`Sources`): deletion and container changes across five stores, with
  failing calls, paging and any map order.
- **Sessions** (`Sessions`, `SessionPromises`, `SessionRaces`): one invariant over the
  auth and the user service for calls that run one after another, what each call does
  to users and sessions, and what remains of the invariant when calls are cut at their
  store calls, interleave and meet failing stores.
- **Normalisers and filters** (`Text`, `Normalisers`, `TextPieces`, `IssueText`, `Pdf`,
  `Html`, `HtmlPromises`, `PathFilter`): loops that rewrite text or scan paths, each
  equal to a simple specification, and what stays of the words and lines of a text.

Where a promise does not hold of the code, the model keeps the code and states
exactly when it holds:

- Refresh rotation keeps the tokens of every code in one line if and only if no
  handler stores a successor for a token that already has one, linked or under way,
  and none stops between storing a successor and linking it (`LinearIff`). A linked
  successor is in the row, which the code looks at only when it fetches it; one
  under way is in no row, so seeing it takes a lock or a parent column. Handlers
  that take turns on a token meet the condition, as does any server that serves one
  call after another (`OrderlyRunsGiveLines`, `ServingGivesLines`); a handler that
  fetches a held token and then gives up does no harm. Where a step is unsafe two
  valid tokens can come of one (`OverlapForks`, `TornTokenServesAgain`), and runs
  that get there exist (`ForksHappen`, `TearsHappen`). What always holds is that
  links form a forest with one root per consumed code (`LinksFormForest`,
  `OneRootPerCode`).
- A deleted source leaves nothing behind exactly when Delete reports success and
  nothing was missed on the way: the search call was made and succeeded or there was
  no search entry; the vector call was made and succeeded and each embedding belongs
  to one of the document rows, or there was no embedding; the sync state was deleted
  or there was none (`CleanDeleteIff`). Delete passes over failures of these three
  calls, so it can report success and leave a search entry (`SuccessLeavesEntry`).
- Enqueues of one schedule keep their distance, as long as no update of its row is
  lost, exactly when all instances share the lock or there is only one
  (`SpacingIff`); after a lost update no coordination helps (`LostUpdateRepeats`).
- Changed containers leave nothing of a dropped container's documents behind exactly
  when each search entry and document row was in a container whose calls succeeded and
  each embedding is found through such a row (`CleanRemovalIff`). With no failure, an
  indexed document without a row still keeps its embedding (`CleanRemoval`); the new
  list is stored all the same.
- Sessions belong to active users who logged in with their current password as long
  as calls run one after another (`SessionsAreBacked`, `SerialCallsAreSafe`). When they
  interleave and stores fail, every session is backed or about to be ended all along
  a run if and only if every store call is harmless where it happens (`SoundRunIff`):
  a session is stored while its user's row still is what the password was checked
  against, a row written over sessions that stay changes neither hash nor Active,
  deletions of sessions succeed, and a user row goes after its sessions. The code
  checks none of this again, so a refresh can outlive a deactivation
  (`RefreshOutlivesDeactivation`, `InactiveUsersGetIn`), a failed deletion of sessions
  goes unreported (`FailedRevocation`), and one refresh token can serve twice
  (`TwoRefreshesServe`), though only for handlers that had read its session before it
  was gone (`OnlyHoldersServe`).
- The backoff is min(2^attempts, 300) seconds exactly up to 33 attempts and for
  eight larger counts (`BackoffExact`); three attempts are the most a task gets.

Assumptions: ids, codes and random tokens are fresh; a JWT that parses was signed
by this server, and parsing returns the signed claims; SHA-256, bcrypt, lower
casing and the parsers of HTML and PDF are arbitrary functions; calls into stores
do not fail unless a fault is part of the model (`Crash` in the OAuth machine,
faults in `Sources` and `SessionRaces`, failed reads, enqueues and updates in
`Scheduler`); times are whole nanoseconds on one clock that never runs backwards,
except for the whole seconds inside JWT claims, and between two store calls a handler
reads it once; strings are sequences of characters.

The comment at the code grant says that single use is enforced by
`GetAndMarkUsed`; the model takes that call from its PostgreSQL implementation.
The comment on `DisabledPatterns` calls them toggled-off defaults; the code never
reads them, and `MorePatternsExcludeMore` says so. A comment in the HTML walk gives block
elements a blank line before and after; the code writes one line feed on each side,
which separates lines but need not leave an empty one (`BlockStandsAlone`). A heading
without text leaves nothing at all, so what stands around it may run together
(`HeadingStandsAlone`).

## Model

| member | source | states |
|---|---|---|
| `OAuthDomain.ScopesRoundTrip` | internal/core/domain/oauth_server.go:13-35 | A scope list survives being marshalled to JSON and read back exactly when it consists of non-empty names without white space |
| `OAuthDomain.McpScopesAreWords` | internal/core/domain/oauth_server.go:182-190 | Any list drawn from the three MCP scopes is such a list |
| `OAuthDomain.UnmarshalMeans` | internal/core/domain/oauth_server.go:20-35 | A list is read as itself, a string as its words, anything else is an error |
| `OAuthDomain.SplitScopes` | internal/core/services/oauth.go:313-340 | The character loop yields exactly the maximal words between spaces and commas, in order |
| `OAuthDomain.SplitScopesInverts` | internal/core/services/oauth.go:313-340 | Splitting undoes joining with a space or a comma if and only if every name is non-empty and free of both |
| `OAuthDomain.ValidateScopes` | internal/core/domain/oauth_server.go:96-105 | Returns exactly the requested scopes the client lacks; empty if and only if all are allowed |
| `OAuthService.Server.RegisterClient` | internal/core/services/oauth_server.go:54-167 | Registration after section 2 of RFC 7591: the stored client with its defaults, every refusal, and an answer that shows the secret to confidential clients alone, with the issue time; the store changes only on success |
| `OAuthService.Server.KnownScopes` | internal/core/services/oauth_server.go:81-91 | Accepts exactly the lists within the three MCP scopes |
| `OAuthService.Server.Authorize` | internal/core/services/oauth_server.go:170-243 | Stores a code exactly when every check passes, and answers with its id or with the first failing check |
| `OAuthService.Server.AuthorizeFor` | internal/core/services/oauth_server.go:195-242 | The checks after the client lookup, with the scope loop, in their order |
| `OAuthService.Server.GetAndMarkUsed` | internal/adapters/driven/postgres/oauth_server.go:257-293 | Finds a code only while it is unused and marks it in the same step |
| `OAuthService.Server.RotateRefreshToken` | internal/adapters/driven/postgres/oauth_server.go:498-516 | Sets the successor and revokes the old row, and the handler that did so is answered with the tokens it stored |
| `OAuthService.Server.CheckCode` | internal/core/services/oauth_server.go:265-286 | Expiry, client, redirect URI and PKCE in that order, each with its own error |
| `OAuthService.Server.CheckRefresh` | internal/core/services/oauth_server.go:375-383 | Not expired, not revoked, not rotated, same client |
| `OAuthService.Server.CheckClient` | internal/core/services/oauth_server.go:288-302 | A confidential client needs a secret that matches its hash, a public one none |
| `OAuthService.Server.PickAudience` | internal/core/services/oauth_server.go:304-311 | The audience is the requested resource, else the code's, else the server (section 2 of RFC 8707) |
| `OAuthService.Server.IssueTokens` | internal/core/services/oauth_server.go:288-356 | Client check, access token and refresh token as one run of the machine; a failed client check stores nothing |
| `OAuthService.Server.HandleAuthorizationCodeGrant` | internal/core/services/oauth_server.go:258-365 | The handler's effect on the stores is a run of the state machine, and its answer is the one the books before it determine |
| `OAuthService.Server.HandleRefreshTokenGrant` | internal/core/services/oauth_server.go:368-458 | The same for the refresh handler |
| `OAuthService.Server.Token` | internal/core/services/oauth_server.go:246-255 | Dispatch on the grant type; an unknown type changes nothing |
| `OAuthService.Server.Revoke` | internal/core/services/oauth_server.go:461-478 | Revokes the access token of a parsing JWT, else the refresh token with that text, and nothing else |
| `OAuthService.Server.ValidateAccessToken` | internal/core/services/oauth_server.go:481-567 | Answers with the claims or with the first failing check of parse, store, revocation, expiry and audience |
| `OAuthService.ExchangeSucceedsIff` | internal/core/services/oauth_server.go:170-365 | A code just granted can be exchanged, at any time up to ten minutes later, if and only if client, redirect URI, S256 verifier and client secret fit; the tokens name the granting user, exactly the scopes of the authorization request or else the client's, the audience the two requests decide, and live fifteen minutes |
| `OAuthService.RefreshSucceedsIff` | internal/core/services/oauth_server.go:368-458 | A refresh request gets tokens if and only if its token is stored, neither expired nor revoked nor replaced, the client is its client and passes; user, scopes and audience are those of the row |
| `OAuthService.ExchangeRefusals` | internal/core/services/oauth_server.go:258-302 | Which error a code request gets, decided by the first of its faults in order |
| `OAuthService.RefreshRefusals` | internal/core/services/oauth_server.go:368-400 | Which error a refresh request gets: a token that cannot serve, then a client that may not use it |
| `OAuthService.ClientPassesIff` | internal/core/services/oauth_server.go:288-302 | The client check passes if and only if the client is registered and public or shows a secret matching its hash |
| `OAuthPromises.RegistrationSucceedsIff` | internal/core/services/oauth_server.go:54-110 | A registration succeeds if and only if name and redirect URIs are there and scopes, application type and authentication method are known |
| `OAuthPromises.RegistrationKeepsRequest` | internal/core/services/oauth_server.go:54-150 | The client is what was asked for, with the default for what was not; it has a secret if and only if it is confidential |
| `OAuthPromises.RegistrationRefusals` | internal/core/services/oauth_server.go:54-110 | An unknown scope has its own error, everything else the other |
| `OAuthPromises.AuthorizeSucceedsIff` | internal/core/services/oauth_server.go:170-243 | Authorization succeeds if and only if response type, challenge, client, redirect URI, grant and every requested scope are in order |
| `OAuthPromises.AuthorizeRefusals` | internal/core/services/oauth_server.go:170-223 | Which error an authorization request gets, decided by the first of its faults in order |
| `OAuthPromises.CodeIsAsRequested` | internal/core/services/oauth_server.go:195-236 | The code carries exactly the words of the requested scope, or the client's scopes if there are none, and user, client, redirect URI, challenge and resource of the request, for ten minutes |
| `OAuthPromises.RequestedWordsAreGranted` | internal/core/services/oauth_server.go:195-236 | A request that joins a list of scope names is granted that list |
| `OAuthPromises.TokenIsAsRequested` | internal/core/services/oauth_server.go:170-567 | Over every run: a signed token goes back to an authorization and a token request; it validates if and only if the token request names this server as resource, or names none and the authorization named this server or none, its exp second has not begun and it is not revoked; it then names the authorizing user, that client and exactly the scopes asked for. In every other case its audience is the resource the requests name |
| `OAuthPromises.RefreshTokenIsAsRequested` | internal/core/services/oauth_server.go:336-441 | The same user, client, scopes and audience for every refresh token, through all rotations |
| `OAuthPromises.AnswerShowsRequest` | internal/core/services/oauth_server.go:258-365 | The request behind an answered token is the one that was answered, and the response states the scopes of the claims |
| `OAuthPromises.ValidationRefusals` | internal/core/services/oauth_server.go:481-567 | In every run a signed token is refused as revoked if and only if it is revoked and its exp second has not begun, else as invalid |
| `OAuthPromises.OthersAreInvalid` | internal/core/services/oauth_server.go:481-495 | Any string that is no signed token is invalid, in all books |
| `OAuthPromises.AccessLives` | internal/core/domain/oauth_server.go:193-197 | An access token expires fifteen minutes after it is stored, in every later state, and its claims say so |
| `OAuthPromises.RefreshLives` | internal/core/domain/oauth_server.go:193-197 | A refresh token is valid until exactly thirty days after it is stored, unless revoked or replaced |
| `OAuthPromises.RevocationOfJwt` | internal/core/services/oauth_server.go:461-478 | A JWT revokes the row of its id while it parses, and nothing else |
| `OAuthPromises.RevocationOfText` | internal/core/services/oauth_server.go:461-478 | Any other text revokes the refresh token of that id, and nothing else |
| `OAuthPromises.TimeAndFailures` | internal/core/services/oauth_server.go:258-458 | Time touches no store; a handler that stops leaves the stores as they are and is answered with a store failure |
| `OAuthGrants.WithClientOK` | internal/core/services/oauth_server.go:81-91 | Every registered client stays within the three MCP scopes |
| `OAuthGrants.WithCodeOK` | internal/core/services/oauth_server.go:195-236 | Every code names a registered client, one of its redirect URIs and scopes within its scopes, and lives ten minutes |
| `OAuthGrants.CheckProves` | internal/core/services/oauth_server.go:265-286 | A passed check leaves proof: the redirect URI of the code and a verifier of its challenge, within ten minutes (section 4.6 of RFC 7636) |
| `OAuthGrants.NewAccessOK` | internal/core/services/oauth_server.go:313-334 | A new access token carries the data of its code, and its JWT claims match the stored row and live at most fifteen minutes |
| `OAuthGrants.NewRefreshOK` | internal/core/services/oauth_server.go:336-356 | A new refresh token carries the data of its code and names the access token it came with |
| `OAuthGrants.RedeemKeepsInv` | internal/adapters/driven/postgres/oauth_server.go:257-293 | Redeeming gives a code to one handler only, from which nothing has come before |
| `OAuthGrants.StoreRefreshKeepsInv` | internal/core/services/oauth_server.go:336-364 | Storing the refresh token answers a code at most once and gives it one first token |
| `OAuthGrants.RotateKeepsInv` | internal/core/services/oauth_server.go:446-457 | Rotation answers with the stored successor of the token shown, which is by then revoked |
| `OAuthGrants.StepKeepsInv` | internal/core/services/oauth_server.go:54-514 | Every step of every handler keeps the whole invariant and only extends the books |
| `OAuthSafety.RunKeepsInv` | internal/core/domain/oauth_server.go:108-180 | Along every run used, revoked and rotated only move forward, rows keep their data, and answers are final |
| `OAuthSafety.RegisteredClientPasses` | internal/core/services/oauth_server.go:111-167 | From its registration on, in every run, a client passes the token endpoint's check if and only if it is public or shows a secret matching its stored hash |
| `OAuthSafety.OneResponsePerCode` | internal/core/services/oauth_server.go:258-365 | In every interleaving of any number of handlers, a code is answered with tokens at most once |
| `OAuthSafety.FailedAttemptBurnsCode` | internal/core/services/oauth_server.go:259-356 | When a handler that redeemed a code fails at any check or store call, no later run gives tokens for that code (section 4.1.2 of RFC 6749) |
| `OAuthSafety.AccessTokensAreGranted` | internal/core/services/oauth_server.go:265-334 | Every access token ever stored carries user, client and scopes of one consumed code, within the client's and the MCP scopes, proven by redirect URI and verifier within ten minutes |
| `OAuthSafety.RefreshTokensAreGranted` | internal/core/services/oauth_server.go:336-441 | The same for every refresh token through all rotations, and its access token comes from the same code |
| `OAuthSafety.RotationPassesGrantOn` | internal/core/services/oauth_server.go:401-441 | A refresh passes user, client, scopes and audience on unchanged |
| `OAuthSafety.ValidExactlyWhileLive` | internal/core/services/oauth_server.go:481-567 | A signed token validates if and only if its audience is this server, its exp second has not begun and it is not revoked; it then names the user, client and scopes of its code |
| `OAuthSafety.RevocationIsExplicit` | internal/core/services/oauth_server.go:461-472 | No step but a revocation of that very token revokes an access token |
| `OAuthSafety.StaysValid` | internal/core/services/oauth_server.go:529-566 | A valid token stays valid at every later time before exp, with the same answer, in every run that does not revoke it |
| `OAuthSafety.RevokedAccessStaysRefused` | internal/core/services/oauth_server.go:461-514 | Once a revocation reached the store, no later validation accepts the token (section 2 of RFC 7009) |
| `OAuthSafety.RevokedRefreshStaysRefused` | internal/core/services/oauth_server.go:375-378 | A handler that starts after a refresh token was revoked or rotated never gets tokens for it |
| `OAuthSafety.ExchangedRefreshIsSpent` | internal/core/services/oauth_server.go:446-457 | An exchanged refresh token is revoked, has a successor, and serves no handler that starts later |
| `OAuthChains.LinksFormForest` | internal/core/domain/oauth_server.go:154-180 | In every run, rotation links have no shared successor, never cycle and stay within one code |
| `OAuthChains.OneRootPerCode` | internal/core/services/oauth_server.go:336-356 | Every refresh token goes back to the one first token of its consumed code; two share their first token if and only if they share their code |
| `OAuthRotation.StepKeepsLinesIff` | internal/core/services/oauth_server.go:368-458 | From linear chains, a step leads to linear chains if and only if it is safe: it stores no successor for a token that has one, linked or under way, and does not stop between storing and linking one |
| `OAuthRotation.BrokenStaysBroken` | internal/core/services/oauth_server.go:442-449 | No later step mends a chain that is no line |
| `OAuthRotation.LinearIff` | internal/core/services/oauth_server.go:368-458 | The exact condition: after any run, in any interleaving, the chains are lines if and only if every step of the run was safe |
| `OAuthRotation.LinearMeans` | internal/core/domain/oauth_server.go:154-180 | Linear is: no two tokens of a code share a position and every token but the last has a successor |
| `OAuthRotation.LinesHaveOneHead` | internal/core/domain/oauth_server.go:154-180 | In a line each token points at the next or is about to, and a chain with no rotation under way has at most one valid token |
| `OAuthTurns.OrderlyRunsGiveLines` | internal/core/services/oauth_server.go:368-458 | Handlers that take turns on a token leave lines |
| `OAuthTurns.SerialCallsGiveLines` | internal/core/services/oauth_server.go:368-458 | Handlers that run one after another leave lines with at most one valid token each |
| `OAuthService.ServingGivesLines` | internal/core/services/oauth_server.go:246-478 | So does a server, with its methods as written, that serves one call after another |
| `OAuthForks.RefreshCompletes` | internal/core/services/oauth_server.go:368-458 | A handler whose row is valid and whose client passes completes, with exactly this effect on the books |
| `OAuthForks.OverlapForks` | internal/core/services/oauth_server.go:369-449 | From every reachable state with a valid token, two overlapping handlers leave two valid successors of it and a chain that is no line |
| `OAuthForks.TornRotation` | internal/core/services/oauth_server.go:442-449 | A handler that stops between its last two store calls breaks the line; the old token and its successor are each valid if and only if neither revoked nor expired |
| `OAuthForks.TornTokenServesAgain` | internal/core/services/oauth_server.go:369-449 | The old token is then exchanged a second time, and its two successors share a position |
| `OAuthForks.ForksHappen` | internal/core/services/oauth_server.go:54-458 | From an empty server, some run registers, authorizes, exchanges a code and ends with two valid tokens at one position |
| `OAuthForks.TearsHappen` | internal/core/services/oauth_server.go:54-458 | From an empty server, some run reaches a torn rotation and ends the same way |
| `Capabilities.SurvivorsAreGreatestClosed` | internal/core/domain/capability.go:190-208 | The enabled types whose every reachable dependency is enabled and available form the greatest dependency-closed set |
| `Capabilities.LeafSurvivesIff` | internal/core/domain/capability.go:135-144 | A capability without dependencies is enabled if and only if its toggle is on or it has none and is enabled by default |
| `Capabilities.SurvivorNeeds` | internal/core/domain/capability.go:135-208 | Nothing is enabled that is switched off, or that needs, however indirectly, something switched off or unavailable |
| `Capabilities.HasInactiveDependency` | internal/core/domain/capability.go:200-206 | The inner loop finds a registered inactive dependency if and only if there is one |
| `Capabilities.BuildCapabilities` | internal/core/domain/capability.go:170-188 | The first pass gives one new value per descriptor, and each type leads to its last value |
| `Capabilities.Visit` | internal/core/domain/capability.go:196-207 | A capability is switched off if and only if it is enabled and has a blocking dependency; no other changes |
| `Capabilities.Sweep` | internal/core/domain/capability.go:194-208 | A sweep loses no survivor; it either shrinks the enabled set or finds everything settled |
| `Capabilities.ResolveCapabilities` | internal/core/domain/capability.go:165-211 | A capability ends enabled if and only if it survives, cycles and repeated types included, after at most one sweep more than there are enabled capabilities |
| `Capabilities.OrderIndependent` | internal/core/domain/capability.go:165-211 | The result per type does not depend on the order of descriptors |
| `Capabilities.ResolutionIsMonotone` | internal/core/domain/capability.go:190-208 | More available or enabled types never deactivate another |
| `Capabilities.Registry.Register` | internal/core/domain/capability_registry.go:118-129 | Refuses exactly empty and taken types, so types stay unique |
| `Capabilities.Registry.All` | internal/core/domain/capability_registry.go:133-142 | Lists every descriptor once, in ascending order |
| `Capabilities.AscendingListingIsUnique` | internal/core/domain/capability_registry.go:131-142 | That listing is determined by the registry's contents, whatever the map order |
| `Capabilities.Registry.Get` | internal/core/domain/capability_registry.go:145-150 | Agrees with every listing: a descriptor of a type is listed if and only if it is the one found |
| `Capabilities.CompositeIsAvailable` | internal/core/domain/capability_registry.go:95-102 | Available if and only if some resolver in the chain says so |
| `Capabilities.MoreResolversKeepActive` | internal/core/domain/capability_registry.go:82-102 | Adding a resolver never deactivates a capability |
| `Capabilities.GetCapabilities` | internal/core/services/capabilities.go:46-94 | The reported status of each type is that of any listing of the registry, resolved |
| `Capabilities.UpdatePreferences` | internal/core/services/capabilities.go:109-121 | An unknown type rejects the whole update, else all toggles are stored |
| `Scheduler.NoWorkWithoutLock` | internal/core/services/scheduler.go:149-181 | In every run, an instance with a lock reads or enqueues only while it holds the lock |
| `Scheduler.SpacingIff` | internal/core/services/scheduler.go:149-211 | Two automatic enqueues of one schedule are always more than its interval apart in runs where no update is lost, if and only if all instances share the lock or there is only one |
| `Scheduler.DoubleEnqueue` | internal/core/services/scheduler.go:149-211 | One instance without the lock beside another can enqueue a schedule twice at one moment |
| `Scheduler.LostUpdateRepeats` | internal/core/services/scheduler.go:203-209 | Where UpdateLastRun may fail, any single instance can enqueue a schedule twice at one moment |
| `Scheduler.Deployment.GetDueScheduledTasks` | internal/adapters/driven/postgres/scheduler_store.go:131-146 | Exactly the enabled rows whose next run is not later than now, in any order |
| `Scheduler.Deployment.UpdateLastRun` | internal/adapters/driven/postgres/scheduler_store.go:149-180 | Of one row: last run is now, next run now plus its interval, the error the given one; interval and enabled stay, as does every other row |
| `Scheduler.Deployment.CheckAndEnqueue` | internal/core/services/scheduler.go:149-211 | A pass is a run of the protocol; when it reads, every enabled schedule due at the start is attempted once: enqueued unless that failed, and its last run, next run and error moved, and nothing else, unless that failed; the rest stay as they were |
| `Scheduler.TurnDoes` | internal/core/services/scheduler.go:177-200 | One turn enqueues its schedule once if and only if the row read was enabled and due and the queue accepts it, and changes no row |
| `Scheduler.UpdateDoes` | internal/adapters/driven/postgres/scheduler_store.go:149-180 | An update moves the row as stored, whatever was read; a lost one changes nothing; the loop goes on either way |
| `Scheduler.DueAgain` | internal/adapters/driven/postgres/scheduler_store.go:149-180 | After an update that was kept the row is due again if and only if the clock is past that moment plus the interval |
| `Scheduler.NextPass` | internal/core/services/scheduler.go:149-211 | The next pass that reads attempts the row again if it starts past then, leaves it alone if it ends by then, and never attempts it earlier |
| `Scheduler.NotDueStays` | internal/core/services/scheduler.go:177-180 | A pass leaves rows that are off or not due all along as they are |
| `Tasks.BackoffWithoutOverflow` | internal/core/domain/task.go:243-248 | Up to 33 attempts the 64-bit product does not overflow and the backoff is min(2^attempts, 300) seconds |
| `Tasks.BackoffVanishes` | internal/core/domain/task.go:243-248 | From 55 attempts on the wrapped product is zero |
| `Tasks.BackoffExact` | internal/core/domain/task.go:243-248 | For every attempt count: the backoff is the intended one if and only if the count is at most 33 or one of eight lucky ones |
| `Tasks.Task.MarkProcessing` | internal/core/domain/task.go:211-217 | Processing, one more attempt, start time set |
| `Tasks.Task.MarkCompleted` | internal/core/domain/task.go:220-226 | Completed, error cleared |
| `Tasks.Task.MarkFailed` | internal/core/domain/task.go:229-234 | Failed, with the reason |
| `Tasks.Task.Retry` | internal/core/domain/task.go:237-249 | Pending again, due after the backoff |
| `Tasks.Task.Nack` | internal/adapters/driven/queue/postgres/queue.go:270-318 | Retry while attempts remain, else failed |
| `Tasks.Task.Cancel` | internal/adapters/driven/queue/postgres/queue.go:467-493 | Fails exactly a pending task and changes no other |
| `Tasks.EveryRunIsBounded` | internal/core/domain/task.go:113-129 | In every life of a new task deliveries equal attempts and are at most three, the task is failed if and only if it was cancelled or its third delivery was refused, and the backoff is always exact |
| `Tasks.RedeliveryWaits` | internal/core/domain/task.go:201-249 | A refused task can be delivered again if and only if it was delivered at most twice and 2^n seconds have passed since its n-th delivery was refused |
| `Tasks.OnlyPendingIsDelivered` | internal/core/domain/task.go:201-249 | A new task can be delivered at once; one that was acknowledged, failed or cancelled never again |
| `Worker.HandleSyncSource` | internal/worker/worker.go:235-252 | Fails exactly without a source id or without a successful sync |
| `Worker.HandleSyncAll` | internal/worker/worker.go:257-282 | Fails only if the call failed; failed syncs are counted |
| `Worker.HandleSyncContainer` | internal/worker/worker.go:286-318 | Fails exactly without either id or without a successful sync |
| `Worker.HandlerSucceedsIff` | internal/worker/worker.go:191-318 | A task succeeds if and only if it is of one of three kinds, names what it needs and its call succeeded; an unknown kind fails |
| `Worker.ProcessTask` | internal/worker/worker.go:191-230 | One nack if the handler failed, else one ack |
| `Worker.AtMostOneHonestAnswer` | internal/worker/worker.go:154-230 | In every interleaving a delivery has at most one answer, a nack if and only if its handler failed |
| `Worker.GenerationsDoNotOverlap` | internal/worker/worker.go:81-146 | Goroutines that have not returned all belong to the current start |
| `Worker.StoppedIsQuiet` | internal/worker/worker.go:124-146 | After Stop nothing can be dequeued or answered, and every task ever taken has exactly one answer |
| `Worker.ChannelsCloseOnce` | internal/worker/worker.go:104-130 | No channel is closed twice |
| `Worker.StopTerminates` | internal/worker/worker.go:124-188 | From every reachable state in which Stop waits some run lets it pass, and in no run do goroutines take more than four steps each before it does |
| `Worker.StopWaitsForAll` | internal/worker/worker.go:114-139 | Stop cannot pass its wait while a goroutine is at work |
| `Worker.StartStarts` | internal/worker/worker.go:81-121 | Start on a stopped pool, after any number of earlier starts, gives exactly n fresh goroutines with open channels; on a running pool it does nothing |
| `Worker.ExitsIffTold` | internal/worker/worker.go:154-188 | A goroutine returns if and only if it polls while its context is cancelled or a Stop waits; empty queues and failed tasks never end it |
| `Worker.PoolStaysUp` | internal/worker/worker.go:81-188 | In every run, while started, not being stopped and not cancelled, all goroutines are at work and can take their next step |
| `Sources.CleanDeleteIff` | internal/core/services/source.go:184-234 | Whatever is wired and whatever fails, nothing of the source remains if and only if Delete reports success and each of the three calls whose failure it passes over either reached everything of the source or had nothing to reach |
| `Sources.SuccessLeavesEntry` | internal/core/services/source.go:204-206 | With owned embeddings and coherent stores, a failed search call leaves the entry of a document after a Delete that reports success |
| `Sources.CleanDelete` | internal/core/services/source.go:184-234 | With working stores, nothing of the source remains anywhere if and only if each of its embeddings belongs to one of its documents |
| `Sources.DeletedOrKept` | internal/core/services/source.go:184-234 | Which failing call leaves which store as it was: every store is cleared of the source exactly when both lookups, the document call where it comes first, and its own call succeed |
| `Sources.DeleteReports` | internal/core/services/source.go:184-234 | Delete reports an unknown source, or a failure if and only if one of three calls failed; failures of the search, vector and sync-state calls it passes over |
| `Sources.OtherSourcesUntouched` | internal/core/services/source.go:184-258 | Whatever fails, data of other sources is the same before and after |
| `Sources.NoticesShape` | internal/core/services/source.go:236-255 | Observers see the documents in order, then the source |
| `Sources.NoticesOnce` | internal/core/services/source.go:236-255 | A document is announced exactly once if and only if it belonged to the source |
| `Sources.SourceService.CollectDocumentsBySource` | internal/core/services/source.go:265-284 | The 500-row paging loop gathers every document of the source once, in order |
| `Sources.SourceService.Delete` | internal/core/services/source.go:184-258 | Stores, outcome and notices are the specified ones for every combination of failing calls |
| `Sources.SourceService.UpdateContainers` | internal/core/services/source.go:297-362 | For every map order, repeated ids and failing calls: data of exactly old minus new is removed as far as the calls succeed, one task per new minus old is enqueued unless that failed, and the list is stored unless the last call failed |
| `Sources.SourceService.DeleteContainerData` | internal/core/services/source.go:365-388 | Removes one container's data from index, embeddings and documents, up to the first call that fails |
| `Sources.RemovalSteps` | internal/core/services/source.go:333-343 | Removing containers one by one equals removing them together, whatever fails, so order does not matter |
| `Sources.KeptContainersUntouched` | internal/core/services/source.go:315-343 | Data of kept containers is untouched in all three stores |
| `Sources.LeftOfRemoved` | internal/core/services/source.go:333-388 | What is left of a removed container, exactly: search entries if the search call failed, embeddings if that or the vector call failed or no document row leads to them, documents if any call failed |
| `Sources.CleanRemovalIff` | internal/core/services/source.go:333-388 | Whatever is wired and whatever fails, no store keeps anything of the dropped containers' documents if and only if every search entry and row is in a container whose calls were made and succeeded and every embedding is found through such a row |
| `Sources.CleanRemoval` | internal/core/services/source.go:333-388 | With working stores that is if and only if every embedding of a dropped document has a row of the dropped containers |
| `Sessions.ApplyKeepsInv` | internal/core/services/auth.go:40-262 | Every call of either service keeps the session invariant |
| `Sessions.SessionsAreBacked` | internal/core/services/auth.go:40-262 | In every run each stored session belongs to an existing active user and descends from a login with the password hash stored now |
| `Sessions.AcceptedTokensAreBacked` | internal/core/services/auth.go:109-142 | Every accepted token names such a session and its user |
| `Sessions.RefreshServesActiveUsers` | internal/core/services/auth.go:145-210 | Refresh succeeds if and only if the token finds an unexpired session, and then its user is active although the code does not look |
| `Sessions.LogoutIsFinal` | internal/core/services/auth.go:213-224 | After logout no token of that session is ever accepted again, even when the token shown had expired and logout did nothing |
| `Sessions.RefreshIsSingleUse` | internal/core/services/auth.go:187-202 | A used refresh token never works again, nor does any token of the replaced session |
| `Sessions.Services.Authenticate` | internal/core/services/auth.go:40-106 | Login as specified, with its order of errors |
| `Sessions.Services.RefreshToken` | internal/core/services/auth.go:145-210 | Replaces the session by a new one, as specified |
| `Sessions.Services.LogoutToken` | internal/core/services/auth.go:213-224 | Deletes the session of a token that still parses; any other token changes nothing |
| `Sessions.Services.ChangeOwnPassword` | internal/core/services/auth.go:232-262 | The given hash stored and no session left, or the specified error |
| `Sessions.Services.CreateUser` | internal/core/services/user.go:90-138 | A new active user, or the specified error |
| `Sessions.Services.UpdateUser` | internal/core/services/user.go:176-204 | Changes the given fields and ends the sessions of a user who is deactivated |
| `Sessions.Services.DeleteUser` | internal/core/services/user.go:207-235 | Removes the user and all sessions |
| `Sessions.Services.SetUserPassword` | internal/core/services/user.go:238-262 | The given hash stored and no session left, or the specified error |
| `SessionPromises.SetPasswordDoes` | internal/core/services/user.go:238-262 | Done if and only if the user is of the team and the password non-empty; then exactly the hash of exactly this user is the given one, and exactly this user's sessions are gone |
| `SessionPromises.ChangePasswordDoes` | internal/core/services/auth.go:232-262 | The same for a user's own change, which also needs the current password |
| `SessionPromises.UpdateDoes` | internal/core/services/user.go:176-204 | Exactly the given fields of exactly this user change |
| `SessionPromises.CreateDoes` | internal/core/services/user.go:90-138 | Done if and only if the fields are in order and the address is free; the new user is active, in the team, with trimmed name and trimmed, lower-cased address |
| `SessionPromises.DeleteDoes` | internal/core/services/user.go:207-235 | Exactly this user and this user's sessions go |
| `SessionPromises.HashIsGivenLast` | internal/core/services/auth.go:232-262 | In every run a user's hash is the one given by the last successful creation or password change |
| `SessionPromises.LoginSucceedsIff` | internal/core/services/auth.go:40-106 | In every run a login succeeds if and only if the address is an active user's and the password passes against the hash that user was given last |
| `SessionPromises.LoginRefusals` | internal/core/services/auth.go:40-63 | A refused login changes nothing, and its error tells an empty field and an inactive user apart from everything else |
| `SessionPromises.RefreshRefusals` | internal/core/services/auth.go:145-170 | A refused refresh changes nothing, and its error tells an unknown token, an expired session and a user who is gone apart |
| `SessionPromises.UserRefusals` | internal/core/services/user.go:90-262 | Which error each call on a user gives, decided by the first of its faults |
| `SessionPromises.ValidationRefusals` | internal/core/services/auth.go:109-142 | Which error a rejected token gets: unsigned or past its second, then a session that is gone, then one past its time |
| `SessionPromises.OthersAreRejected` | internal/core/services/auth.go:109-122 | A string that is no signed token is never accepted |
| `SessionPromises.TickDoes` | internal/core/services/auth.go:109-142 | Time alone touches no store: expiry is checked at use |
| `SessionPromises.LoggedInOpens` | internal/core/services/auth.go:64-106 | A login or refresh opens one session for a day, whose token names the user's data as they are and is accepted at once |
| `SessionPromises.SessionEndsIff` | internal/core/services/auth.go:145-262 | A session ends if and only if it is logged out with an unexpired token, refreshed, or its user is deleted, deactivated, given a password or logged out everywhere; else it stays as it is |
| `SessionPromises.AcceptedExactly` | internal/core/services/auth.go:109-142 | In every run an issued token is accepted if and only if its session is stored and its last second has not begun, for the user and role it was issued for |
| `SessionRaces.StepKeepsTraced` | internal/core/services/auth.go:40-210 | In every interleaving, stored sessions and sessions held by a refresh go back to a login whose password passed |
| `SessionRaces.FailedCallDoes` | internal/core/services/auth.go:40-262 | A failing store call changes no store; which failures are passed over and which are reported |
| `SessionRaces.WorkingCallDoes` | internal/core/services/auth.go:40-262 | What each working store call of a call under way leads to and answers, a user who is gone by then included |
| `SessionRaces.OpenSoundIff` | internal/core/services/auth.go:93-202 | Storing a session is sound if and only if its user is there, active and has the hash behind the session, or another handler is about to end the user's sessions |
| `SessionRaces.WriteSoundIff` | internal/core/services/user.go:176-204 | Writing back a row read earlier is sound over remaining sessions if and only if it leaves the hash and Active as they are |
| `SessionRaces.LostEndSoundIff` | internal/core/services/user.go:199-201 | A failed or forgotten deletion of sessions is sound if and only if another handler deletes them or all go back to the row as it is |
| `SessionRaces.DropSoundIff` | internal/core/services/user.go:207-235 | Deleting a user row is sound if and only if no session is left, or sessions refer to the row, or a handler is about to end them |
| `SessionRaces.StepSoundIff` | internal/core/services/auth.go:40-262 | From a sound state, a step of any handler, with its store call failing or not, leads to a sound state if and only if it is safe |
| `SessionRaces.SoundRunIff` | internal/core/services/auth.go:40-262 | From empty stores, every state of a run is sound if and only if every step of it was safe |
| `SessionRaces.SoundAtRest` | internal/core/services/auth.go:40-262 | In a sound state without calls under way every session is backed |
| `SessionRaces.CallAlone` | internal/core/services/auth.go:40-262 | A call that runs alone on working stores is safe and has the effect and the answer of one atomic call |
| `SessionRaces.SerialCallsAreSafe` | internal/core/services/auth.go:40-262 | Every run of atomic calls is a safe run of store calls between the same stores |
| `SessionRaces.FailedRevocation` | internal/core/services/user.go:194-203 | When the deletion of sessions fails, the user is inactive, the update succeeds and every token is accepted as before |
| `SessionRaces.RefreshOutlivesDeactivation` | internal/core/services/auth.go:151-204 | From every state with a live session, a deactivation that completes between a refresh's read of the user and its last calls leaves the inactive user with an accepted token |
| `SessionRaces.InactiveUsersGetIn` | internal/core/services/auth.go:151-204 | Some run from empty stores ends that way |
| `SessionRaces.TwoRefreshesServe` | internal/core/services/auth.go:151-202 | Two refreshes that read one session before either deletes it are both served |
| `SessionRaces.OnlyHoldersServe` | internal/core/services/auth.go:151-202 | Once no session holds a refresh token, whoever is still served with it had read its session before |
| `Normalisers.CapMaximalRun` | internal/normalisers/pdf.go:42-50 | The one-pass scan caps each maximal run and copies everything around it |
| `Normalisers.SweepKeepsCap` | internal/normalisers/markdown.go:14-16 | One ReplaceAll sweep does not change what the scan yields |
| `Normalisers.CollapseRuns` | internal/normalisers/markdown.go:14-16 | The ReplaceAll loop terminates with exactly the scan's result, in which no longer run is left |
| `Normalisers.RemoveHTMLComments` | internal/normalisers/github_issue.go:41-59 | The loop terminates with the text whose comments are cut out one after another |
| `Normalisers.CommentsGone` | internal/normalisers/github_issue.go:41-59 | No opener followed by a closer is left, characters are only deleted, and nothing changes if and only if there was no comment |
| `IssueText.IndexIsFirst` | internal/normalisers/github_issue.go:45-50 | Index finds the first place where the pattern stands |
| `IssueText.CommentCutOut` | internal/normalisers/github_issue.go:41-59 | A comment from the first opener to the first closer after it is cut out whole: the rest is treated as if the comment had never been there |
| `Normalisers.NormaliseGitHubIssue` | internal/normalisers/github_issue.go:9-30 | The sequence of rewrites equals its specification |
| `IssueText.LineBreaksBecomeLineFeeds` | internal/normalisers/github_issue.go:10-12 | Line breaks of every kind become single line feeds and nothing else changes |
| `IssueText.BoxLowered` | internal/normalisers/github_issue.go:20-22 | A capital checkbox is lowered where it stands |
| `IssueText.IssueKeepsText` | internal/normalisers/github_issue.go:9-30 | The visible characters of the output are those left once comments are cut and checkboxes lowered, in order |
| `IssueText.IssueWithOneComment` | internal/normalisers/github_issue.go:9-59 | Of an issue with one comment and no capital checkbox the visible characters are those before the comment followed by those after it |
| `Normalisers.GitHubFixedPoints` | internal/normalisers/github_issue.go:9-30 | A text is left as it is if and only if it has no carriage return, comment, capital checkbox or three newlines and is trimmed |
| `Normalisers.GitHubIdempotent` | internal/normalisers/github_issue.go:9-30 | Normalising twice is normalising once, for every input |
| `Normalisers.NormaliseMarkdown` | internal/normalisers/markdown.go:8-19 | The loop version equals the one-pass specification |
| `Normalisers.MarkdownFixedPoints` | internal/normalisers/markdown.go:8-19 | Output is clean, and exactly the clean texts are left as they are |
| `Normalisers.NormalisePdfText` | internal/normalisers/pdf.go:38-52 | The two loops equal the one-pass specification |
| `Normalisers.PdfFixedPoints` | internal/normalisers/pdf.go:38-52 | Exactly the clean texts are left as they are; twice is once |
| `Normalisers.CleaningLosesNoText` | internal/normalisers/pdf.go:38-52 | The Markdown and PDF clean-ups change white space only |
| `TextPieces.PiecesAreFields` | internal/normalisers/markdown.go:8-19 | The words of a text, as meant below, are its fields |
| `TextPieces.MarkdownKeepsPieces` | internal/normalisers/markdown.go:8-19 | The Markdown clean-up keeps every word and every line, in order, and runs no two together |
| `TextPieces.MarkdownShrinksGaps` | internal/normalisers/markdown.go:14-16 | Between clean texts a gap of n line feeds becomes one of at most two, and nothing else changes |
| `TextPieces.PdfKeepsPieces` | internal/normalisers/pdf.go:38-52 | The same for the PDF clean-up |
| `TextPieces.PdfShrinksGaps` | internal/normalisers/pdf.go:42-45 | Between clean texts a gap of n spaces becomes one of at most one |
| `TextPieces.GitHubKeepsPieces` | internal/normalisers/github_issue.go:24-29 | The GitHub clean-up keeps words and lines apart from comments and checkboxes |
| `Pdf.AssemblePages` | internal/normalisers/pdf.go:66-83 | The builder loop writes each non-blank page once under its number |
| `Pdf.NormalisePDF` | internal/normalisers/pdf.go:21-53 | The empty, failing and page-less cases and the normal one |
| `Pdf.PdfOutput` | internal/normalisers/pdf.go:36-52 | The text of every page is in the output, in page order, and the output is tidy |
| `Pdf.DecimalMeans` | internal/normalisers/pdf.go:80 | Page numbers are printed in decimal without leading zeros |
| `Pdf.PdfSaysWhatPagesSay` | internal/normalisers/pdf.go:21-83 | The lines of the output are, for each page that is not blank, its heading with the number found or else its position, then its own lines, and no others |
| `Html.CollapseInlineWhitespace` | internal/normalisers/html.go:171-187 | The flag loop equals the recursive specification |
| `Html.WalkHTML` | internal/normalisers/html.go:62-128 | The walk appends exactly the rendering of the node to the shared builder |
| `Html.NormaliseHTML` | internal/normalisers/html.go:16-48 | Blank and unparsable input give the empty text, else the specified clean-up |
| `Html.TrimLinesIsDrop` | internal/normalisers/html.go:37-42 | Trimming line by line equals dropping every blank before a line end |
| `Html.CleaningKeepsText` | internal/normalisers/html.go:29-47 | The clean-up loses no character but white space |
| `Html.VisibleIsRendered` | internal/normalisers/html.go:62-128 | The walk keeps visible text in order |
| `Html.HtmlOutput` | internal/normalisers/html.go:26-47 | For every tree the visible characters appear in order in the output, which has no three newlines, no adjacent blanks and no blank before a newline |
| `HtmlPromises.HtmlKeepsPieces` | internal/normalisers/html.go:26-47 | The clean-up keeps every word and every line of the rendering, in order, and runs no two together |
| `HtmlPromises.HtmlFixedPoints` | internal/normalisers/html.go:26-47 | The output is clean for every tree, and exactly the clean texts are left as they are |
| `HtmlPromises.AttrIsFirst` | internal/normalisers/html.go:160-167 | Of attributes with the same name the first counts; an absent one is empty |
| `HtmlPromises.BlockStandsAlone` | internal/normalisers/html.go:116-157 | Words and lines never run together across the edges of a block element |
| `HtmlPromises.InlineJoins` | internal/normalisers/html.go:116-128 | The text of any other element joins that of its siblings |
| `HtmlPromises.DroppedIsAbsent` | internal/normalisers/html.go:67-77 | Scripts, styles and their like, comments and doctypes leave no trace |
| `HtmlPromises.ImageIsItsAlt` | internal/normalisers/html.go:78-83 | An image stands for its alternative text, apart from what follows |
| `HtmlPromises.TitleFollowsText` | internal/normalisers/html.go:84-97 | A link's title follows its text as further words unless the text contains it |
| `HtmlPromises.HeadingStandsAlone` | internal/normalisers/html.go:98-145 | A heading with text has lines of its own, the first marked with as many hashes as its level; one without leaves no trace |
| `HtmlPromises.NothingIsAdded` | internal/normalisers/html.go:62-128 | Without headings and link titles the visible characters of the output are exactly those of the tree |
| `PathFilter.MatchPattern` | internal/core/services/content_filter.go:103-153 | The byte loops decide exactly the specified match |
| `PathFilter.MatchFolder` | internal/core/services/content_filter.go:104-121 | A folder pattern is found at a component boundary if and only if it stands at one |
| `PathFilter.FolderMeaning` | internal/core/services/content_filter.go:104-121 | Standing there means the pattern's components occur next to each other before the last component of the path |
| `PathFilter.FolderNamePattern` | internal/core/services/content_filter.go:104-121 | A pattern name/ matches if and only if some component but the last equals the name |
| `PathFilter.ExtensionMeaning` | internal/core/services/content_filter.go:142-150 | A pattern *.ext matches exactly the paths that end in .ext |
| `PathFilter.NameMeaning` | internal/core/services/content_filter.go:137-140 | Any other pattern without a slash matches exactly the file of that name, at the top or under a folder |
| `PathFilter.CutFileName` | internal/core/services/content_filter.go:123-135 | The backward loop cuts out the last component |
| `PathFilter.MatchesExclusionPattern` | internal/core/services/content_filter.go:86-93 | True if and only if some pattern matches |
| `PathFilter.WildcardMeaning` | internal/core/domain/mime.go:15-36 | top/* matches exactly the types with a slash whose first part is top |
| `PathFilter.PlainMimeMeaning` | internal/core/domain/mime.go:15-36 | A MIME pattern that is no wildcard matches exactly the type itself, whatever the case and the white space around |
| `PathFilter.ShouldExcludeMimeType` | internal/core/domain/mime.go:40-52 | True if and only if some MIME pattern matches |
| `PathFilter.ShouldFetchContent` | internal/core/services/content_filter.go:36-62 | False if and only if an active path pattern or MIME pattern matches |
| `PathFilter.MorePatternsExcludeMore` | internal/core/domain/settings.go:32-66 | Adding patterns only ever excludes more; disabled patterns play no part |

## Left out

- Clean-up jobs that delete expired codes and tokens: rows stay in the model, expiry is checked at use.
- RevokeAllForClient, ListUsersForClient and ListClientsForUser: not called by the modelled services.
- GetServerMetadata and GetClientPublicInfo: fixed tables and a single lookup.
- ExpiresIn and TokenType of a token response: constants.
- A store call that fails after its write took effect: the OAuth machine only lets a handler stop before or between store calls.
- Lock TTL expiry and lock release failures: the lock is held until it is released.
- Edits of schedules (Enable, Disable, Save, TriggerNow): they bypass the lock and would only weaken the spacing condition.
- Scheduler Start, Stop and the ticker loop: the same flag and channel protocol as the worker's, which is modelled.
- Worker and Scheduler protocols are state machines on values beside the imperative handlers, because goroutines interleave inside a call.
- Context cancellation, panics and two concurrent callers of Start and Stop.
- Redis queue: it rounds the retry time to seconds; the PostgreSQL queue is modelled.
- Documents with equal creation time may be paged in an unstable order; the model's store keeps one order.
- The Redis session store deletes a user's sessions one by one and passes over single failures; the deletion is one call here, which fails as a whole or not at all.
- The lookup before the write when a user is created, and UpdateLastLogin: creation is one step and last logins are not kept.
- Setup, Get and List of users, and the role inside old JWT claims: they do not touch the session invariant.
- Uniqueness of e-mail addresses and source names: the code checks the raw string and stores the trimmed one.
- The extension tables of GetMimeType: the MIME type of a path is a parameter.
- The first loop of splitScopes: it has no effect.
- The docx, pptx and xlsx normalisers: the same clean-up loops after an external call.
- Invalid UTF-8: strings are sequences of characters.
- HTTP, MCP and connector adapters, search, settings, administration and the OAuth client side: input and output over the modelled services.
