# Verified model of the authorization server

This project models the state-keeping core of an OAuth 2.0 / OpenID Connect authorization server in Dafny
and proves what that core promises over every run. The server keeps its state in two stores: Postgres tables
with foreign-key cascades, and Redis keys that expire, get lost and refuse commands. Refresh-token rotation,
authorization codes, consent, device codes, sessions with their cache, password resets and user or client
deletion all write to these stores, so most promises are about several handlers together.

## How the model is built

* `Store` holds both stores as one value, with the cascades of the schema, and a history of what the handlers
  did. The history is bookkeeping only: no handler decides anything from it.
* `Flows` gives every handler as a function from the stores it finds to the stores it leaves.
* `Handlers` gives the same handlers in the form of the source, as a class `Stores` whose methods read and
  reassign the stores step by step (loops over Redis deletes, the user-code retry loop, the row-locked refresh
  transaction, early returns in source order). Each method is proved to leave exactly the stores that its
  function describes, so everything proved about the functions holds of the methods. The endpoints at the end
  of the class take and give back the invariant, so any program may call them in any order, and state what a
  caller can rely on.
* `Machine` puts all handlers, user and client administration, the clock and the loss of Redis keys into one
  state machine. `Invariants` states table by table what every step keeps; `StepKeeps` and `RunKeeps` are the
  proof. A reachable state is the end of any finite run from empty stores.
* The theorems are in `Lineage` (refresh tokens), `SessionCache` and `SessionEnds` (sessions), `PasswordReset`,
  `CodeTrace` (authorization codes and PKCE), `DeviceGrant`, and `HonestRuns` (when a flow succeeds, exactly).
* `RefreshLock` is a second, finer machine: single statements of any number of concurrent refresh
  transactions. `Roles`, `RateLimit`, `SigningKeys`, `Scopes` and `DeviceFields` are self-contained components
  in source form, each with its own runs. `RoleOrder` derives the order of role names from the graph alone.

What the environment decides is a parameter: generated tokens and identifiers (assumed new), whether a Redis
read, write or delete succeeds, which of a list of deletes succeed, whether a transaction commits, and how far
a deletion gets before the process dies. HMAC-SHA256 and SHA-256 are injective constructors, so equal hashes
mean equal inputs. A PKCE challenge is the S256 image of a verifier or some other text. Times are milliseconds.

## What does not hold as one might expect

The code is followed where it and a promise differ. The members named in an item prove the exact condition under
which its promise holds.

* Cached sessions outlive a deleted user. The admin handler ignores a failed bulk delete
  (src/admin/resource.rs:358-359) and then drops the user with all rows. Cache-first lookup agrees with Postgres
  exactly when it does not hit such an entry (`LookupExact`), and a removal keeps the cache coherent exactly
  when every entry of the user was deleted (`RemovalExact`); `UncleanRemovalLeavesStaleEntry` is a concrete case.
* The advertised retry delay can be too short. Redis rounds a remaining time to the nearest second, so over any
  run a check after exactly that delay is still denied exactly when a remainder of 1 to 499 milliseconds was
  dropped; half a second more always suffices (`RetryAfterExact`). `RetryAfterTooEarly` is a run of three checks
  that shows it. Windows below one second never deny (`SubSecondWindowNeverDenies`).
* A retired signing key comes back with the next restart exactly when neither of its files could be removed,
  because removal errors are ignored (`RetiredAfterRestart`).
* A restart need not keep the active signing key, because a rotation switches keys in memory before it writes
  `active.kid`, and that write may fail (src/common/crypto/rsa_keys.rs:237-241). Over every run, what the last write left in that file decides: it
  must name the active key, or name no key that can be loaded while the active key is the first in order and
  the file is written again (`RestartKeepsActive`). After a rotation whose write left the file as it was, the
  next start goes back to the old key; after a torn write it may keep the new key, go back, or pick a third one,
  and `LostRotationExact` says which text keeps the new key. `LostMarkerFallsBack` is a concrete case.
* `is_subset_of` refuses a request made of separators only against blank client scopes, although the parsed
  sets are included (`SubsetExact`, `SubsetStricterThanInclusion`).
* The comment above `find_effective_names_by_user_id` promises all direct roles first. The code orders roles by
  rank: the first direct role they are reached from, then the distance from it (`ListedByRank`). The promise
  holds exactly when no inherited role has a smaller rank than a direct one (`DirectFirstExact`);
  `AncestorsPrecedeLaterDirectRoles` is a concrete graph where it fails.
* The repository's README says the session is dropped after refresh-token reuse; the code revokes the tokens
  of the session and keeps its row (src/oauth/token/flow.rs:370-378). `FromRefreshToken` does what the code does:
  its frame leaves out the session table and the cache.
* A detected replay revokes the rows its update statement saw. Its commit equals an atomic refresh at that
  moment exactly when every row that joined the session since the update is revoked by then (`ReplayRefines`).
  Refreshes never add such a row, so only another kind of transaction can
  (`ReplayAtomicAmongRefreshes`), and a row it grants in the meantime survives (`LateGrantSurvives`).
* Rewriting a device hash over an older one reads back as written exactly when no absent optional field is
  left over from the older hash (`MergedRoundTrip`). The flows only add fields, so over every run the hash under
  a device code reads back as the record they see (`StoredRecordReadBack`).

## Model

| member | source | states |
|---|---|---|
| Machine.StepKeeps | src/oauth/token/flow.rs:92-416 | every handler, deletion, clock step and loss of Redis keys keeps the whole invariant: ownership of refresh rows, cache entries, code bindings, unique redemptions, device histories |
| Machine.RunKeeps | src/oauth/token/flow.rs:92-416 | the invariant holds at the end of every finite run |
| Invariants.OwnedRows | src/oauth/token/issuer.rs:103-113 | every refresh row points to an existing session whose owner is the row's own existing user, and to an existing client |
| Lineage.LineagesAreChains | src/oauth/token/flow.rs:356-416 | in every reachable state each code, device code and refresh token was redeemed at most once, and of all tokens descending from one grant only the last can be unrevoked |
| Lineage.NoBranching | src/oauth/token/flow.rs:398-416 | root grant and number of rotations identify a token |
| Lineage.LiveTokensBounded | src/oauth/token/issuer.rs:100-113 | a session never has more live refresh tokens than code and device redemptions made under it |
| Lineage.RunEvolves | src/oauth/token/repository.rs:105-139 | over any run no issue is forgotten, `revoked` never goes back, and a dead token is never rotated |
| Lineage.ReplayDetected | src/oauth/token/flow.rs:368-378 | a rotated, unexpired token presented while its session and client exist is recognised although the sweep runs; every token of the session dies and none is redeemed in any continuation |
| Lineage.RefreshExact | src/oauth/token/flow.rs:328-416 | a refresh succeeds exactly for a redeemable token (live, unexpired, of the presenting and authenticated client, its user enabled); it then kills the presented token, creates one successor for the same user, client and session, and touches no other row |
| Lineage.DeadIsRefused | src/oauth/token/flow.rs:368-378 | presenting a token whose row is revoked or gone never succeeds |
| RefreshLock.OneWinner | src/oauth/token/flow.rs:356-416 | under every interleaving of lock, read, check, revoke, insert, commit and rollback of any number of transactions at most one rotates a token, and every other holder of its row lock reads it as revoked |
| RefreshLock.LockedRefines | src/oauth/token/repository.rs:48-61 | only commits change the table, and the commit of a rotation is one atomic refresh of the table at that moment |
| RefreshLock.ReplayRefines | src/oauth/token/repository.rs:127-139 | under every interleaving between the update of a detected replay and its commit, the commit revokes every row the update saw and equals the atomic refresh of that moment exactly when every row that joined the session since is revoked by then |
| RefreshLock.ReplayCommit | src/oauth/token/repository.rs:127-139 | the same condition at the commit itself: the update covers the rows of the session that are unrevoked then |
| RefreshLock.ReplayAtomicAmongRefreshes | src/oauth/token/flow.rs:368-378 | however many refreshes interleave, the commit of a detected replay is atomic unless a transaction that is not a refresh adds a row to the session |
| RefreshLock.LateGrantSurvives | src/oauth/token/flow.rs:368-378 | the failing family: any row granted in the session between update and commit is unrevoked afterwards |
| RefreshLock.HandlerIsAtomic | src/oauth/token/flow.rs:328-416 | the refresh handler of the state machine is that atomic refresh |
| RefreshLock.NextKeeps | src/oauth/token/repository.rs:48-61 | every statement keeps: a lock holder's row is the committed row, and a token with a winner is revoked or gone |
| SessionCache.LookupExact | src/session/repository.rs:56-131 | cache-first lookup agrees with the database on session, owner and expiry exactly when it does not read an entry without a row, and such an entry belongs to a deleted user |
| SessionCache.CoherenceExact | src/session/repository.rs:349-450 | every step, at every failure point of Redis and of the process, keeps every entry backed by a row, exactly unless it removes a user and leaves an entry of that user |
| SessionCache.RemovalExact | src/admin/resource.rs:341-361 | removing a user keeps the cache coherent exactly when every entry of the user was deleted |
| SessionCache.UncleanRemovalLeavesStaleEntry | src/admin/resource.rs:358-359 | a concrete run in which a removed user's session is still answered from the cache |
| SessionCache.UndeletedEntryAnswers | src/admin/resource.rs:358-359 | in general, an undeleted live entry of a removed user is what a lookup returns |
| SessionCache.CleanRunsAgree | src/session/repository.rs:533-590 | in all runs with clean removals, under arbitrary Redis failures, lookups agree with the database and entries die no later than their rows expire |
| SessionCache.AcceptedWasHandedOut | src/session/service.rs:67-96 | whichever store answers, an accepted token was handed out with the session, user and expiry it opens, and that expiry is not over |
| SessionCache.GoneForever | src/session/repository.rs:293-332 | an ended session never comes back, in either store, in any continuation |
| SessionCache.GoneIsRefused | src/session/repository.rs:56-131 | the token of an ended session opens nothing, whatever Redis does |
| SessionEnds.DeleteAllExact | src/session/repository.rs:396-450 | a failed DEL changes no row, only entries of the targeted sessions leave the cache, and a finished delete removes exactly those sessions, their entries and their refresh rows |
| SessionEnds.OthersUntouched | src/session/repository.rs:457-513 | the kept session and every other user's sessions keep row, entry, refresh rows and lookup result, whatever fails |
| SessionEnds.UserRowsExact | src/session/repository.rs:430-449 | revoking by user id covers exactly the rows that the cascade from the user's sessions removes |
| SessionEnds.DeleteSessionExact | src/session/repository.rs:349-373 | the single delete does nothing when its DEL fails, and otherwise ends exactly that session |
| SessionEnds.LogoutIsFinal | src/oauth/logout/flow.rs:106-112 | after a logout the session's refresh tokens are dead in every continuation even if the session delete fails |
| SessionEnds.RevokeExact | src/oauth/token/revoke.rs:34-83 | revocation kills exactly the presented token, and only for the authenticated client that owns it |
| SessionEnds.SweepExact | src/oauth/token/cleanup.rs:50-59 | the sweep removes exactly the rows past their thirty days |
| PasswordReset.ResetIsFinal | src/password/flow.rs:97-137 | after a successful reset the user has no session in either store, no refresh row and no unconsumed reset token, and in every continuation no earlier session token, refresh token, code, device approval or reset token is accepted |
| PasswordReset.ResetClears | src/password/repository.rs:46-73 | what the reset leaves at once |
| PasswordReset.SpentForever | src/password/repository.rs:46-73 | a consumed or deleted reset token is never usable again |
| PasswordReset.SpentIsRefused | src/password/flow.rs:111-119 | a consumed or deleted reset token is an invalid token |
| PasswordReset.NoIssueForGone | src/oauth/token/flow.rs:305-309 | no grant of any kind issues tokens in an ended session, in any run |
| CodeTrace.TokenTraces | src/oauth/authorize/flow.rs:149-258 | every token set from a code goes back to an authorize request that passed every gate, a minting by that request or by an approval that names its request id and comes from the same session, and a redemption within 180 seconds; client, redirect URI, user, session and scope agree, the URI is registered and the consent row covers the scope when the code is minted |
| CodeTrace.ExactlyOneAuthorize | src/oauth/authorize/flow.rs:264-345 | that authorize request is the only one behind the token set, and is behind no other |
| CodeTrace.IssueBound | src/oauth/token/flow.rs:285-303 | no PKCE downgrade: with a challenge in the request, or a client that required PKCE then, the stored challenge is S256 and the exchange presented its verifier |
| CodeTrace.CodeRedeemedOnce | src/oauth/authorize/code.rs:72-90 | a redeemed code is refused at every later event |
| CodeTrace.SuccessJustified | src/oauth/token/flow.rs:242-326 | whenever the code grant issues tokens, the code is gone and the tokens carry the client, redirect URI, user, session, scope and verifier of the authorize request behind it |
| CodeTrace.AskRecord | src/oauth/authorize/flow.rs:72-258 | an authorize call records a step only for a request that passed every gate, and mints at most one code for it |
| CodeTrace.AnswerRecord | src/oauth/consent/resource.rs:119-190 | a consent answer mints a code only for an approved request of the answering session, once |
| HonestRuns.AuthorizeExact | src/oauth/authorize/flow.rs:72-258 | which requests get a code, which the consent page, and which a refusal |
| HonestRuns.CodeStored | src/oauth/authorize/code.rs:41-68 | a granted request leaves its own binding under the code for 180 seconds and changes no client, user, session or token |
| HonestRuns.AnswerExact | src/oauth/consent/resource.rs:119-190 | an answer yields a code exactly when it approves a request that waits for this session and whose client and URI are still good; the request is then gone, its binding is under the code, and the consent row parses to the union of stored and requested scopes |
| HonestRuns.ExchangeExact | src/oauth/token/flow.rs:242-326 | when a stored code can be exchanged, in terms of the authorize request behind it |
| HonestRuns.DeviceExact | src/oauth/token/flow.rs:92-198 | when a stored device code can be redeemed, in terms of who approved it |
| HonestRuns.CodeRoundTrip | src/oauth/authorize/flow.rs:309-345 | a directly granted request redeems for its own user, session and scope exactly when the session's row is there |
| HonestRuns.DeviceRoundTrip | src/oauth/device/flow.rs:113-152 | a pending record redeems after an approval by an existing session and not after a denial |
| HonestRuns.ResetUsable | src/password/flow.rs:61-91 | a requested reset token is usable exactly for an enabled user and until thirty minutes later, and for that user |
| DeviceGrant.StepMoves | src/oauth/device/flow.rs:133-152 | every step of the server moves a record only from pending to approved or denied and from approved to consumed, and a lost record never comes back |
| DeviceGrant.AtContinues | src/oauth/token/flow.rs:120-197 | over any stretch of any run denied and consumed are final and identity fields never change |
| DeviceGrant.DeviceTokenTraces | src/oauth/device/flow.rs:47-152 | every token set from a device code goes back to a request by the same client within its scopes, an approval by the user and session the tokens carry who typed a code of the same normal form, and a redemption by that client |
| DeviceGrant.DeviceCodeOnce | src/oauth/token/flow.rs:176-197 | a device code yields at most one token set |
| DeviceGrant.SuccessJustified | src/oauth/token/flow.rs:92-198 | whenever the device grant issues tokens, they are for the client, user and session of the approved record, which is consumed |
| DeviceGrant.VerifyDecides | src/oauth/device/flow.rs:113-152 | a decision changes one unexpired pending record whose own code has the typed normal form, to approved with the deciding user and session or to denied, and no other |
| DeviceGrant.LookupHonest | src/oauth/device/repository.rs:42-56 | a user-code lookup returns only a record whose own code has the same normal form |
| DeviceGrant.RequestDisturbsNothing | src/oauth/device/repository.rs:60-86 | a request never overwrites a live pointer: every record stays reachable, and the new one is reachable by every spelling of its code |
| DeviceGrant.FirstFreeExact | src/oauth/device/flow.rs:86-99 | the retry loop takes the first free code and gives up only if all are taken |
| DeviceGrant.StoredRecordReadBack | src/oauth/device/repository.rs:88-98 | over every run, the hash under a device code, every version written over the one before, reads back as the record the flows see |
| DeviceFields.GenerateUserCode | src/oauth/device/flow.rs:156-167 | eight drawn letters with a hyphen in the middle |
| DeviceFields.DrawsDistinguished | src/oauth/device/repository.rs:110-116 | two generated codes share a normal form exactly when the draws are equal |
| DeviceFields.RetypingKeepsNormalForm | src/oauth/device/repository.rs:110-116 | any number of case changes and inserted hyphens or blanks leaves the normal form |
| DeviceFields.ToFields | src/oauth/device/repository.rs:118-142 | writing the pushed pairs over any older hash overlays exactly the record's fields |
| DeviceFields.MergedRoundTrip | src/oauth/device/repository.rs:144-179 | reading back after a merge gives the record exactly when no absent optional field is left over |
| DeviceFields.LatestVersionReadBack | src/oauth/device/repository.rs:88-98 | after any sequence of updates that only add fields the latest version is read back |
| Roles.RoleTable.SetParent | src/role/mod.rs:157-197 | the loop terminates on any stored graph and leaves the table and result the specification gives |
| Roles.RejectsExactlyCycles | src/role/mod.rs:172-188 | on an acyclic graph exactly the edges that would close a cycle are rejected |
| Roles.ForestForever | src/role/mod.rs:157-197 | no sequence of inserts and re-parentings stores a cycle or a dangling parent |
| Roles.RoleWalk.WalkAncestors | src/role/mod.rs:200-217 | the recursive walk with shared visited set and sink terminates on any graph and appends what the specification gives |
| Roles.FindEffectiveNames | src/role/mod.rs:77-104 | the names the walk over all direct roles collects |
| Roles.WalkedExact | src/role/mod.rs:77-104 | those are exactly the names of the reflexive-transitive ancestors of the direct roles, each once, on every graph and for every order |
| Roles.TrailCloses | src/role/mod.rs:206-208 | the early return is sound because the visited set is upward closed between top-level calls |
| RoleOrder.ListedByRank | src/role/mod.rs:77-104 | on every graph and for every order of direct roles, one effective role is listed before another (names are unique in the schema) exactly when it is reached from an earlier direct role, or from the same one in fewer steps |
| RoleOrder.DirectFirstExact | src/role/mod.rs:73-104 | all direct roles come first exactly when no inherited role has a smaller rank than a direct one |
| Roles.AncestorsPrecedeLaterDirectRoles | src/role/mod.rs:73-76 | a concrete graph where the promised order fails |
| RateLimit.RateLimiter.Check | src/common/ratelimit/mod.rs:68-106 | counter store and decision after one check, failing open where the source does |
| RateLimit.CountersAlwaysExpire | src/common/redis/lua.rs:28-34 | no counter ever lives without a timeout, whatever the calls and failures |
| RateLimit.WindowNeverExtended | src/common/ratelimit/mod.rs:81-104 | no check moves the end of a live window or touches another key |
| RateLimit.PerWindowBound | src/common/ratelimit/mod.rs:68-106 | at most `limit` checks are allowed per window, over any monotone sequence |
| RateLimit.SlidingBound | src/common/ratelimit/mod.rs:68-106 | at most twice the limit in any interval as long as a window |
| RateLimit.RetryAfterExact | src/common/ratelimit/mod.rs:112-121 | over any run, after a denial and further denials a check is allowed exactly when the window is over; at the advertised delay that is exactly when rounding did not go down, and half a second more always suffices |
| RateLimit.RetryAfterTooEarly | src/common/ratelimit/mod.rs:112-121 | a run of three checks in which the advertised delay is too short |
| RateLimit.SubSecondWindowNeverDenies | src/common/ratelimit/mod.rs:77-77 | with windows below one second nothing is ever denied |
| SigningKeys.RsaKeyProvider.LoadExistingKeys | src/common/crypto/rsa_keys.rs:288-315 | the scan loads exactly the key ids with both files |
| SigningKeys.RsaKeyProvider.Init | src/common/crypto/rsa_keys.rs:65-141 | disk and memory after a start that may stop at any file step |
| SigningKeys.RsaKeyProvider.Rotate | src/common/crypto/rsa_keys.rs:231-244 | disk and memory after a rotation that may stop at any file step |
| SigningKeys.RsaKeyProvider.Retire | src/common/crypto/rsa_keys.rs:208-228 | the active key is refused; any other loaded key leaves memory |
| SigningKeys.RunSafe | src/common/crypto/rsa_keys.rs:65-244 | through rotations, retirements, crashes and restarts the active key is loaded and everything loaded can be loaded again |
| SigningKeys.SignedStaysVerifiable | src/common/crypto/rsa_keys.rs:169-244 | a token stays verifiable in every later running state until its key is retired |
| SigningKeys.RetireEffect | src/common/crypto/rsa_keys.rs:208-228 | retiring the active key changes nothing; retiring another makes exactly it unverifiable |
| SigningKeys.RetiredAfterRestart | src/common/crypto/rsa_keys.rs:223-226 | a retired key is back after a restart exactly when neither file was removed |
| SigningKeys.RestartKeepsActive | src/common/crypto/rsa_keys.rs:80-88 | over every run, a restart keeps the active key exactly when the last marker write names it, or names no loadable key while the active one is first and written again; it does whenever no rotation lost its marker write |
| SigningKeys.LastWriteDecides | src/common/crypto/rsa_keys.rs:65-244 | the marker file always holds what the last event that wrote it left there |
| SigningKeys.LostRotationExact | src/common/crypto/rsa_keys.rs:231-244 | after a rotation that lost its marker write: an untouched marker takes the next start back to the old key, and a torn one keeps the new key exactly for the texts stated |
| SigningKeys.LostMarkerFallsBack | src/common/crypto/rsa_keys.rs:237-241 | a concrete rotation that a restart undoes |
| Scopes.ParseExact | src/oauth/scopes.rs:11-23 | a word is parsed exactly when it occurs in the string as a maximal run without separators |
| Scopes.SubsetExact | src/oauth/scopes.rs:25-36 | the test is inclusion of the parsed sets, except that a blank allowed string admits only a blank request |
| Scopes.SubsetStricterThanInclusion | src/oauth/scopes.rs:30-33 | a concrete request where the test and inclusion differ |
| Scopes.SubsetTransitive | src/oauth/scopes.rs:25-36 | the test is transitive, blank strings included |
| Scopes.ParseCanonical | src/oauth/consent/service.rs:50-56 | parsing the sorted space-join of any set of scope words gives the set back |
| Scopes.MergeGrant | src/oauth/consent/service.rs:39-85 | the stored string parses to the union of stored and requested scopes |
| Scopes.GrantOrderIrrelevant | src/oauth/consent/service.rs:39-85 | after any grants the stored string is determined by their union, not by order or repetition |
| Scopes.ConsentExact | src/oauth/consent/service.rs:21-37 | after any grants consent is held exactly for subsets of their union |
| Handlers.Stores.FindByToken | src/session/repository.rs:56-131 | keeps the invariant, and agrees with the database exactly unless it reads an entry without a row |
| Handlers.Stores.FindActiveSession | src/session/service.rs:67-96 | keeps the invariant, and accepts a token only for the session it was handed out with, its user, and until its expiry |
| Handlers.Stores.CreateSession | src/session/repository.rs:293-332 | keeps the invariant, and for an existing user leaves the row with its token and eight-hour expiry whatever the cache does |
| Handlers.Stores.Delete | src/session/repository.rs:349-373 | keeps the invariant; a failed DEL changes nothing, and a finished delete ends exactly the session and its refresh rows, in both stores |
| Handlers.Stores.DeleteKeys | src/session/repository.rs:405-429 | the loop tries every DEL and reports a failure exactly when one failed |
| Handlers.Stores.DeleteAllByUserId | src/session/repository.rs:396-513 | keeps the invariant; aborts exactly when a DEL failed, then changes no row, and otherwise removes exactly the targeted sessions, their entries and their refresh rows |
| Handlers.Stores.RemoveUser | src/admin/resource.rs:341-361 | keeps the invariant, and keeps the cache coherent exactly when every entry of the user was deleted |
| Handlers.Stores.FromRefreshToken | src/oauth/token/flow.rs:328-416 | keeps the invariant, succeeds exactly for a redeemable token, and then rotates it and nothing else |
| Handlers.Stores.FromAuthorizationCode | src/oauth/token/flow.rs:242-326 | keeps the invariant; issued tokens carry what the authorize request behind the code was bound to, and the code is gone |
| Handlers.Stores.FromDeviceCode | src/oauth/token/flow.rs:92-198 | keeps the invariant; issued tokens are for the user and session that approved the device code, which is consumed |
| Handlers.Stores.RevokeToken | src/oauth/token/revoke.rs:34-83 | keeps the invariant and kills exactly the presented token, only for the authenticated client that owns it |
| Handlers.Stores.SweepOnce | src/oauth/token/cleanup.rs:50-59 | keeps the invariant, removes exactly the rows of tokens past their thirty days and changes no other |
| Handlers.Stores.LogOut | src/oauth/logout/flow.rs:106-112 | keeps the invariant; no refresh token of the session is live afterwards, whatever becomes of the session delete |
| Handlers.Stores.AskForCode | src/oauth/authorize/flow.rs:72-258 | keeps the invariant; answers with a code exactly when every check passes and consent is held, with the consent page exactly when only consent is missing and prompting is allowed |
| Handlers.Stores.AnswerConsent | src/oauth/consent/resource.rs:119-190 | keeps the invariant; answers with a code exactly for an approved request that waits for this session and is still good, and then grants it |
| Handlers.Stores.PersistRecord | src/oauth/device/repository.rs:60-86 | a taken pointer is a collision and nothing is written |
| Handlers.Stores.RequestDeviceAuthorization | src/oauth/device/flow.rs:47-111 | keeps the invariant; the retry loop takes the first free of five draws, and every record a user code could find is still found |
| Handlers.Stores.Verify | src/oauth/device/flow.rs:113-152 | keeps the invariant; decides one unexpired pending record whose own code has the typed normal form, for the deciding session, and no other |
| Handlers.Stores.UseReset | src/password/flow.rs:97-137 | keeps the invariant; when it is done the user of the presented token has no session in either store, no refresh row and no unconsumed reset token |
| Handlers.Stores.SpendResets | src/password/repository.rs:46-73 | presented token and siblings together are all tokens of the user |

## Left out

- Handlers run at one instant and one after the other, except for the statements of `RefreshLock` and the failure points of deletions: finer races between handlers are not modelled.
- RefreshLock.ReplayRefines: a session-wide update takes all its row locks in one statement; Postgres takes them one by one.
- SessionCache.LookupExact: agreement is on session id, owner and expiry; the cached enabled flag is refreshed by calls whose errors are ignored.
- Database errors other than a missing foreign key, and Redis errors outside session deletion and lookup, end a request and are not modelled.
- Client secrets are compared for equality; Argon2, its parameters and its legacy mode are library calls.
- Passwords appear as a byte length only; credentials, their rotation and the change-password check of the old password are not modelled. Its bulk delete with an exception is.
- Upper-casing of user codes covers ASCII letters; other letters are left as they are.
- Prompt values arrive as a set of words. State, nonce, requested claims, redirect assembly, IP address, user agent, e-mail and last access of sessions, and token payloads do not occur.
- Refresh and reset rows are keyed by their token hash, which is unique in the schema, instead of by row id.
- A key pair is identified by its key id; the directory is a set of file names and unparsable files are not modelled.
- Logout notifications, the collection of involved clients and the resolution of an id token hint.
- The client cache: client rows are read from the table.
- The client-credentials grant, introspection, userinfo, discovery, signup, bootstrap, HTTP, templates, metrics and admin listings.
