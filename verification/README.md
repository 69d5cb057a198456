# apikit: a verified model of the credential and account store

apikit is a Go service kit: an HTTP API over SQLite with users, API keys, personal access tokens, organizations and
OAuth login. This project models its store and proves what the handlers keep.

- **The store** (`Schema`) is five linked tables and the admin settings, with every constraint of the schema and every
  SQL write the handlers issue. SHA-256 is an injective constructor, the clock a natural number of nanoseconds, random
  bytes an explicit finite stream, hooks arbitrary functions from a transaction's state to a new state or an error.
- **The requests** (`Requests`, `Transactions`) are small programs. A thread is a request in flight: what it has read
  and which statement is next. `Step` runs one statement or one transaction, which SQLite serialises because of
  `_txlock=immediate`. Which statements fail, which random bytes arrive and what hooks do is part of each step's
  environment and arbitrary.
- **Runs** (`Runs`) come at two grains: arbitrary interleavings of statements, and requests served one after the other.
  `Serving` proves that an atomically served request is one `Step` taken from an up-to-date thread.
- **The handlers as methods** (`Database`, `Handlers`, `TokenHandlers`, `OrgHandlers`) update the tables in place, with
  loops, early returns and rollback, and are proved to end in the same state with the same answer as the statement
  machine run alone. So the results about runs are results about them.
- **Answers**: for every request, `AnswersUsers`, `AnswersTokens`, `AnswersKeys`, `AnswersLogin` and `AnswersOrgs` state the
  status, the credential and the whole tables it ends with when no statement fails, in the words of `Terms`, which are the
  rows' and not the handlers'; `Faults` says what failing statements can add to that, `Callers` which strings
  authenticate, `PermissionGate` who is refused for want of a permission.
- **Results over runs**: `Admins` and `Races` (last administrator), `Constraints` (uniqueness, references, clean deletion), `Keys` and
  `KeyLife` (one live key, which strings authenticate and how long), `Etags` (the key list's validator), `Escalation`
  (token permissions), `Isolation` (reach of one user's credentials), `Revocation`, `Logins` (OAuth callback),
  `Effects`, `TokenEffects` and `TokenEnds` (what a success did, end to end), `Bootstrap`.
- **Algorithms**: `Sampling` (two rejection samplers and their bias), `Tokens` (printers and two parsers), `Permissions`
  (registry, merge, removal), `Timestamps` (text order of times), `BodySize` (two size parsers).

Verify with `dafny verify dfyconfig.toml`.

Where code and comments disagree the model follows the code: comments at internal/keys/generate.go:50-54 and
internal/oauth/key.go:42 call 252 a multiple of 62, which it is not (`Sampling.BiasOver62` gives the resulting bias);
the comment at internal/db/db.go:145 speaks of a DEFERRED transaction while the DSN at internal/db/db.go:44 makes it
immediate.

A result that asks something of hooks says so: to leave the users table, the keys or the tokens alone, to keep the
constraints, or not to refuse with the status of success. Three stronger statements are false of the code, and the exact condition is proved
instead: block has no last-administrator guard (`Admins.BlockKeepsAdminIff`, `Races.BlockLeavesNobody`), deletion trusts a row
read before its transaction (`Admins.DeleteKeepsAdminIff`, `Races.PromotionDefeatsGuard`), and at its expiry instant a
token authenticates but cannot be edited (`TokenEffects.ExpiryInstantDiffers`). `Admins.AdministeredExactlyWhen` puts
the first two together over whole runs of every request kind.

## Model

| member | source | states |
|---|---|---|
| Admins.AdminSurvives | internal/handlers/users.go:466-508 | From any state with an active administrator, every interleaving of statements of any requests except promote, unblock and block (demotions, deletions, logins and creations included) ends with an active administrator and has created none; hooks leave users alone |
| Admins.AdminSurvivesServing | internal/handlers/users.go:436-555 | Served one at a time, every sequence of requests except block keeps an active administrator, promotions and unblocks included |
| Admins.StepSafe | internal/handlers/users.go:651-673 | One statement of any request but block leaves an active administrator, and a deletion that took its target for something else is still right about it |
| Admins.DeleteEffect | internal/handlers/users.go:487-551 | A committed deletion removes exactly its target from the active administrators, and only when the count was above one if the target was read as one |
| Admins.LoginKeepsAdmins | internal/oauth/handler.go:212-239 | While any account holds the admin role, a login changes nobody's standing: the designated address is promoted only when there is no administrator |
| Admins.BlockKeepsAdminIff | internal/handlers/users.go:719-724 | Block has no guard: its update leaves an active administrator exactly when its target is not the only one |
| Admins.DeleteKeepsAdminIff | internal/handlers/users.go:498-508 | A committed deletion leaves an active administrator exactly when the row read before the transaction was one or the target is not the only one now |
| Admins.AdministeredExactlyWhen | internal/handlers/users.go:436-733 | Over every request kind and every interleaving, a run has an active administrator at every point exactly when no event of it blocks the only one or deletes the only one on the strength of a row that was not an active administrator's |
| Admins.OnlyFatalEventsLoseTheLast | internal/handlers/users.go:498-508 | One event of any run leaves no active administrator exactly when it is one of those two |
| Races.PromotionDefeatsGuard | internal/handlers/users.go:450-464 | A concrete run, from an idle server with one administrator through authentication and every read, in which a deletion, a promotion and a demotion, all guarded, leave no administrator |
| Races.BlockLeavesNobody | internal/handlers/users.go:719-724 | A concrete run in which blocking the only administrator succeeds |
| Constraints.EveryRunConsistent | internal/db/schema.go:6-74 | Unique usernames, emails, identities, organization names and slugs, and all foreign keys hold after every interleaved run |
| Constraints.StepAccepted | internal/db/schema.go:6-74 | Every write any statement commits is one SQLite accepts against the tables it is applied to |
| Constraints.FinishConsistent | internal/db/db.go:149-161 | All those constraints hold after a whole request served atomically |
| Constraints.PurgeMeaning | internal/handlers/users.go:510-536 | The deletion cascade leaves the id in no table, orgs.owner_id included, and everything else as it was |
| Effects.DeletionServed | internal/handlers/users.go:436-555 | Serving a deletion: 204 means that the named user existed and that the tables are what the hook makes of ones where the id occurs nowhere and all else is as before (unless the veto or a failing hook itself refuses with 204); any other answer means that nothing changed |
| Constraints.DeletionIsClean | internal/handlers/users.go:487-554 | The deletion transaction answers 204 exactly when it commits, and then it is the hook applied to such a clean state |
| Schema.AcceptedKeepsConsistent | internal/db/schema.go:6-74 | A write that passes the constraint check keeps every constraint, including the cascading deletes |
| Keys.EveryRunOneLiveKey | internal/keys/generate.go:143-209 | Under any interleaving no user has two unrevoked API keys |
| Keys.OneKeyStringPerUser | internal/auth/credentials.go:108-184 | In every reachable state, whatever the clocks, two key strings that authenticate as one user are the same string up to the scheme word |
| Keys.RevokeThenInsert | internal/oauth/handler.go:291-324 | Revoking a user's keys and inserting one in one transaction leaves exactly that one live |
| KeyLife.KeyLifetime | internal/keys/handlers.go:187-293 | The string handed out by callback, GenerateAPIKey or refresh authenticates later, as its owner, exactly when its expiry has not passed, the owner exists and is active, and no later request was answered as having revoked, replaced or refreshed it (the random source does not repeat the string) |
| KeyLife.ServeIssues | internal/keys/generate.go:155-208 | A handed-out key string names a live row of the right owner whose expiry is that many calendar days after the issue |
| KeyLife.IntactExactlyIfUndisturbed | internal/keys/handlers.go:301-361 | The row behind a key string survives a run unchanged exactly when no response said it was revoked, replaced or refreshed; otherwise no live row matches the string |
| KeyLife.ServeFaithful | internal/handlers/users.go:847-891 | One request of any kind leaves the row behind a key string alone or is answered as having ended it; a dead string is revived only by being handed out again |
| KeyLife.IssueMints | internal/oauth/handler.go:291-324 | A committed issue spells out the new row, under an id no row had, and revokes every older key of that user and no other |
| KeyLife.ExpiryRounds | internal/keys/generate.go:155-166 | An expiry is so many calendar days after the issue, at the same hour, minute and second, at most one second short of so many times 24 hours |
| KeyLife.EveryRunGeneratedIds | internal/keys/generate.go:168-190 | Every stored key id is eight characters without an underscore, under any interleaving |
| Etags.EtagMeaning | internal/keys/handlers.go:107-128 | The parsed text maximum is the second of the latest creation or revocation, however whole-second and fractional forms are mixed |
| Etags.EtagRises | internal/keys/handlers.go:50-74 | While requests that change the rows fall in later seconds, the validator only rises and stays only while no row changes |
| Etags.SameEtagSameKeys | internal/keys/handlers.go:66-74 | Equal validators at two points of such a run mean equal rows |
| Etags.RevocationShows | internal/keys/handlers.go:50-74 | A key revoked in the course of any interleaved run that deletes none of the user's rows changes the validator, whatever the clocks read and whichever request revoked it |
| Etags.ServedRevocationShows | internal/keys/handlers.go:50-56 | One request served whole that turns a live key into a revoked one changes the validator even within the second of its creation, the bulk revocations of login and key generation included |
| Etags.RevocationAlwaysShows | internal/keys/handlers.go:107-128 | Revoking one live key of a table changes the validator whatever the clock reads |
| Etags.EtagTextInjective | internal/keys/handlers.go:54-56 | Different seconds or counts give different header texts |
| Escalation.NoEscalation | internal/handlers/pat.go:605-636 | Under any interleaving, lost updates included, a permission on a user's token that was not on that token at the start was held then by a live token of the user, provided tokens are created and extended by token callers |
| Escalation.HeldNeverGrows | internal/handlers/pat.go:782-794 | Served one at a time under a monotone clock, the union of permissions over a user's live tokens never grows |
| Escalation.StepHeld | internal/handlers/pat.go:169-181 | One statement keeps this for the tables and for what every request in flight carries |
| Isolation.OwnCredentialsReachOwnData | internal/handlers/users.go:1052-1105 | Any interleaving of requests carrying one user's tokens, or a regular user's API keys, leaves every other user's row, keys and tokens, all organizations and memberships unchanged, and of the user's own row changes only full name and update time |
| Isolation.AdminRoutesRefused | internal/auth/context.go:50-57 | Such credentials get 403 on every admin route, a token of an administrator included |
| Isolation.FinishContained | internal/handlers/pat.go:384-901 | A whole request carrying such credentials, served atomically, stays within the same bounds |
| Revocation.RevokedKeyStaysRevoked | internal/keys/handlers.go:301-361 | Under every interleaving a revoked key stays revoked while its row exists |
| Revocation.RevokedPatStaysRevoked | internal/handlers/pat.go:709-728 | Under every interleaving a revoked token stays revoked while its row exists, although permission updates do not recheck the revocation |
| Revocation.LiveTokensHavePermissions | internal/handlers/pat.go:875-894 | Under any interleaving and any registrations, every unrevoked token has a non-empty list of registered permissions |
| Revocation.RevokedOnce | internal/handlers/pat.go:398-402 | Served atomically, a request never changes the time of an earlier revocation |
| Revocation.RevocationTimeIsFinal | internal/handlers/users.go:875-885 | Hence over any run of whole requests a revocation time is written at most once |
| Logins.CallbackAllOrNothing | internal/oauth/handler.go:163-340 | For every hook behaviour and every failing statement, an error answer leaves all tables as they were; a success adds one account under the first free name, with whatever the hook makes of it, or refreshes one, and replaces its keys by one live key; usernames stay unique if the hook respects the schema |
| Logins.InsertFindsFirstFree | internal/oauth/handler.go:240-266 | The insert loop commits exactly when email, identity and id are free and one of base, base-2, ..., base-10 is, and takes the first free one |
| Logins.ReturnRow | internal/oauth/handler.go:177-207 | A returning active user gets the new email, and the new username exactly when nobody else has it |
| Logins.ReturningUserKept | internal/oauth/handler.go:177-212 | A successful login keeps the id, role, status and identity of every existing account and leaves other accounts alone |
| Effects.ServedAsAsked | internal/handlers/users.go:560-787 | Promote, demote, block, unblock, the organization edits and the membership changes: a success has exactly the effect asked for on the row the selector names; any other answer changes nothing, except that an organization edit may be written and its row then not be read back |
| Effects.LifecycleProgress | internal/handlers/users.go:616-679 | Each statement of the four user changes, with the demotion guard |
| Effects.OrgProgress | internal/handlers/orgs.go:285-375 | Each statement of updateOrg, blockOrg and unblockOrg |
| Effects.MemberProgress | internal/handlers/orgs.go:651-743 | Each statement of adding and removing a member; adding twice succeeds without change |
| TokenEffects.CreatedTokenWorks | internal/handlers/pat.go:126-246 | A handed-out token is one new row with exactly the permissions asked for, and its string authenticates with them exactly while unexpired and the owner active |
| TokenEffects.EditServed | internal/handlers/pat.go:663-901 | An accepted edit leaves exactly the replaced, merged or remaining list, revoking the token when it is empty; any other answer changes nothing |
| TokenEffects.AddThenRemoveServed | internal/handlers/pat.go:745-901 | Adding and then removing the same permissions restores the token's list exactly when it had none of them |
| TokenEffects.ExpiryInstantDiffers | internal/handlers/pat.go:544 | A token both authenticates and is refused for editing at exactly one instant: its expiry |
| Auth.ApiKeyAuthenticates | internal/auth/credentials.go:108-184 | The exact condition under which a printed key authenticates, and as whom |
| Auth.PatAuthenticates | internal/auth/credentials.go:195-277 | The exact condition under which a printed token authenticates, as whom, and that it carries its row's permissions |
| Auth.SameKeySameToken | internal/auth/auth.go:73-102 | Strings that authenticate through one key row are equal up to the scheme word |
| Auth.OneAdminToken | internal/auth/credentials.go:54-99 | At most one string is the administrator's |
| Serving.FinishIsOneStep | internal/db/db.go:149-161 | Serving a request with nothing in between applies the writes of a single statement or transaction, taken when everything read before still holds |
| Serving.StepFresh | internal/handlers/pat.go:508-568 | What a handler has read stays true until it writes |
| Shapes.StepShape | internal/auth/auth.go:25-65 | Every statement keeps the request and its credential, comes nearer to the response and writes only what belongs to the request |
| Handlers.Api.Authenticate | internal/auth/auth.go:73-102 | The middleware's two reads, in front of every handler |
| Handlers.Api.ResolveUserId | internal/handlers/resolve.go:19-34 | Finds the one user a selector names by id, email or username |
| Handlers.Api.AdminTarget | internal/auth/auth.go:170-175 | RequireAdmin and the target lookup of the admin routes |
| Handlers.Api.CreateUser | internal/handlers/users.go:174-270 | Admin check, validation, insert and hook in place; ends in the state and status of the statement machine run alone |
| Handlers.Api.UpdateUser | internal/handlers/users.go:368-427 | Lookup, update and read-back of another user's name; ends in the state and status of the statement machine run alone |
| Handlers.Api.DeleteUser | internal/handlers/users.go:436-555 | Both guards, the veto and the transaction; ends in the state and status of the statement machine run alone |
| Handlers.Api.ChangeUser | internal/handlers/users.go:560-787 | Promote, demote, block and unblock with their early answers and the conditional demotion; ends in the state and status of the statement machine run alone |
| Handlers.Api.RevokeUserKey | internal/handlers/users.go:847-891 | An administrator's revocation of somebody's key, answered 204 without a write if it is revoked already; ends in the state and status of the statement machine run alone |
| Handlers.Api.RevokeUserToken | internal/handlers/users.go:958-1002 | An administrator's revocation of somebody's token, answered 204 without a write if it is revoked already; ends in the state and status of the statement machine run alone |
| Handlers.Api.UpdateOwnProfile | internal/handlers/users.go:1052-1105 | The caller's own name under users:read, written and read back; ends in the state and status of the statement machine run alone |
| Handlers.Api.RefreshKey | internal/keys/handlers.go:187-293 | Refusal of token callers, revoked and expired keys, then the new secret; ends in the state, status and key string of the statement machine run alone |
| Handlers.Api.RevokeKey | internal/keys/handlers.go:301-361 | The owner's revocation under keys:manage; ends in the state and status of the statement machine run alone |
| Handlers.Api.HandleCallback | internal/oauth/handler.go:60-372 | From the provider's answer on: checks, transaction and answer; ends in the state, status and key string of the statement machine run alone |
| Handlers.Api.GenerateApiKey | internal/keys/generate.go:100-135 | The library call with its own transaction; ends in the state and key string of the statement machine run alone |
| Database.Store.Exec | internal/db/schema.go:6-74 | One statement: refused with the constraint it violates, or applied in place |
| Database.Store.GenerateWithExecutor | internal/keys/generate.go:139-212 | The revocation and the retry loop over fresh ids, against the plan |
| Database.Store.InsertAccount | internal/oauth/handler.go:240-266 | The username loop, against the plan |
| Database.Store.LogIn | internal/oauth/handler.go:163-327 | The login transaction; every error restores the tables |
| Database.Store.DeleteUser | internal/handlers/users.go:487-552 | The deletion transaction; every error restores the tables |
| Database.Store.Cascade | internal/handlers/users.go:510-536 | The five statements of the cascade |
| TokenHandlers.PatApi.CreatePat | internal/handlers/pat.go:126-246 | Validation, privilege check, sampling and insertion; ends in the state, status and token string of the statement machine run alone |
| TokenHandlers.PatApi.InsertPat | internal/handlers/pat.go:212-237 | The retry loop: one transaction per attempt, a fresh id after each collision, at most three |
| TokenHandlers.PatApi.RevokePat | internal/handlers/pat.go:384-469 | The conditional update, and 400 or 404 when it matched nothing; ends in the state and status of the statement machine run alone |
| TokenHandlers.PatApi.LookupAndGuard | internal/handlers/pat.go:508-568 | The shared opening of the three edits: permission, form, ownership, revocation, expiry |
| TokenHandlers.PatApi.ReplacePermissions | internal/handlers/pat.go:663-740 | Validation, privilege check and replacement, revoking on an empty list; ends in the state and status of the statement machine run alone |
| TokenHandlers.PatApi.AddTokenPermissions | internal/handlers/pat.go:745-815 | Validation, privilege check and merge; ends in the state and status of the statement machine run alone |
| TokenHandlers.PatApi.RemoveTokenPermissions | internal/handlers/pat.go:821-901 | Form check and filter without a privilege check, revoking on an empty list; ends in the state and status of the statement machine run alone |
| OrgHandlers.OrgApi.ResolveOrgId | internal/handlers/resolve.go:43-56 | Finds the one organization a selector names by id or slug |
| OrgHandlers.OrgApi.CreateOrg | internal/handlers/orgs.go:109-171 | Name and slug validation and the insert, with no check of the owner; ends in the state and status of the statement machine run alone |
| OrgHandlers.OrgApi.EditOrg | internal/handlers/orgs.go:285-375 | updateOrg, blockOrg and unblockOrg: validation, early answers, update and read-back; ends in the state and status of the statement machine run alone |
| OrgHandlers.OrgApi.DeleteOrg | internal/handlers/orgs.go:383-451 | Veto, delete with its memberships, and hook, all restored on an error; ends in the state and status of the statement machine run alone |
| OrgHandlers.OrgApi.AddOrgMember | internal/handlers/orgs.go:651-693 | Both lookups and the insert, 204 also for a member already there; ends in the state and status of the statement machine run alone |
| OrgHandlers.OrgApi.RemoveOrgMember | internal/handlers/orgs.go:699-743 | Both lookups and the delete, 404 when there was no membership; ends in the state and status of the statement machine run alone |
| Permissions.RegisteredGrows | internal/auth/permissions.go:53-72 | Registration withdraws nothing and admits only resource:action pairs |
| Permissions.RegisteredExactly | internal/auth/permissions.go:10-72 | Registration accepts exactly a new pair of non-empty identifiers of lower-case letters, digits and underscores |
| Permissions.PairReadsBack | internal/handlers/pat.go:578-595 | Splitting at the first colon gives the pair back |
| Permissions.PermissionRegistry.Register | internal/auth/permissions.go:53-72 | In place: accepts exactly new pairs of valid identifiers |
| Permissions.PermissionRegistry.ValidatePermissions | internal/handlers/pat.go:578-595 | Accepts exactly lists of well-formed and, unless told otherwise, registered permissions |
| Permissions.CheckPrivilegeEscalation | internal/handlers/pat.go:605-636 | Accepts exactly requests within the caller's and the target's permissions |
| Permissions.AddPermissions | internal/handlers/pat.go:782-794 | The merge loop computes Merge |
| Permissions.MergeMeaning | internal/handlers/pat.go:782-794 | Merging keeps the old list as a prefix and appends a duplicate-free suffix disjoint from it; the result is exactly the union |
| Permissions.MergeIsNewcomers | internal/handlers/pat.go:782-794 | What it appends, in which order: each requested permission that is new, where it is requested first |
| Permissions.MergeIdempotent | internal/handlers/pat.go:782-794 | Merging twice is merging once |
| Permissions.RemovePermissions | internal/handlers/pat.go:854-864 | The filter loop computes Remaining |
| Permissions.RemainingMeaning | internal/handlers/pat.go:854-864 | Removal drops every listed permission and keeps every other one as often as it was there |
| Permissions.RemainingConcat | internal/handlers/pat.go:854-864 | Removal keeps order |
| Permissions.AddThenRemove | internal/handlers/pat.go:782-864 | Removing what was added restores the old list exactly when the two were disjoint |
| Sampling.BulkRefinesByte | internal/keys/generate.go:61-80 | The bulk sampler and the byte-at-a-time sampler succeed or fail together on every stream, return the same string and leave the same bytes |
| Sampling.Reader.RandAlphanumeric | internal/keys/generate.go:61-80 | The nested loops compute it |
| Sampling.Reader.RandomString | internal/oauth/key.go:41-57 | The in-place buffer loop computes it |
| Sampling.SampleMeaning | internal/oauth/key.go:41-57 | A success is the first n bytes below 252, mapped through the charset |
| Sampling.SampleStops | internal/oauth/key.go:41-57 | It stops right after the nth accepted byte, and fails exactly when there are fewer |
| Sampling.SampleDrawsFrom | internal/oauth/key.go:20-30 | Only characters of the alphabet are drawn, and exactly n |
| Sampling.UnbiasedOver36 | internal/handlers/pat.go:918-934 | Over 36 letters every string of length n has exactly 7^n accepted byte sequences |
| Sampling.BiasOver62 | internal/oauth/key.go:41-57 | Over 62 letters the number is 5 per character among the first four and 4 per other character |
| Sampling.BiasBounds | internal/keys/generate.go:50-80 | It lies between 4^n and 5^n |
| Sampling.TokensUnbiased | internal/handlers/pat.go:918-934 | Hence every token id and secret has exactly 7^n draws |
| Sampling.KeysFavourDigits | internal/keys/generate.go:61-80 | Hence key ids and secrets favour the characters 0 to 3 by five to four, within 4^n and 5^n |
| Sampling.OAuthFavoursLetters | internal/oauth/key.go:41-57 | Hence those of the OAuth package favour a to d likewise |
| Sampling.AlphabetsDistinct | internal/keys/generate.go:50-61 | The three alphabets have 36, 62 and 62 different characters |
| Sampling.DrawsComplete | internal/oauth/key.go:41-57 | The sequences counted are exactly those of n accepted bytes |
| Tokens.ApiKeyRoundTrip | internal/oauth/callback.go:78-80 | For every prefix, a printed key parses back exactly when its parts are non-empty and its id has no underscore and is neither marker word |
| Tokens.PatRoundTrip | internal/auth/auth.go:113-153 | For every prefix, a printed token parses back exactly when its parts are non-empty and its id has no underscore |
| Tokens.AdminRoundTrip | internal/bootstrap/bootstrap.go:73-79 | For every prefix, a printed admin token parses back to its hexadecimal part |
| Tokens.ParseThenPrint | internal/auth/auth.go:113-153 | Whatever parses is what the printer of that kind prints, so the three kinds are never confused |
| Tokens.ParsersAgree | internal/cli/helpers.go:14-20 | parseKeyID finds the same id as parseToken in a printed key, whatever the prefix |
| Timestamps.FormatTimeRoundTrip | internal/db/timestamp.go:6-18 | For years 0000-9999 ParseTime undoes FormatTime up to whole seconds |
| Timestamps.FormatNanoRoundTrip | internal/keys/handlers.go:248-251 | ParseTime undoes the fractional form, as key refresh stores it, exactly |
| Timestamps.FormatTimeOrder | internal/db/timestamp.go:6-18 | Text order of canonical timestamps is time order |
| Timestamps.MixedFormsMisorder | internal/keys/handlers.go:248-251 | A fractional form sorts before its own whole second |
| Timestamps.SqlMaxIsLatestSecond | internal/keys/handlers.go:107-121 | The text maximum of mixed forms still has the latest whole second |
| Timestamps.CivilRoundTrip | internal/db/timestamp.go:6-18 | Calendar fields lose nothing |
| Timestamps.YearStarts | internal/db/timestamp.go:6-18 | The calendar is the Gregorian one: the day a year starts on in closed form |
| Timestamps.CanonicalLayout | internal/db/timestamp.go:6-12 | Where each calendar field stands in a canonical timestamp |
| Timestamps.ParsedLayout | internal/db/timestamp.go:14-18 | Whatever parses is a valid date and time of year 0 to 9999 in that layout, with or without a fraction |
| Timestamps.FractionMeaning | internal/db/timestamp.go:14-18 | A fraction is a point or a comma and digits, and its nanoseconds are the first nine of them, scaled |
| Timestamps.HoursMakeDays | internal/keys/generate.go:159 | Days of 24 hours, cut to the second, are calendar days at the same time of day |
| BodySize.AcceptedForm | internal/config/load.go:173-200 | The exact form of the size strings the loader accepts |
| BodySize.ParsersAgree | server.go:144-178 | On those whose product is below 2^63 both parsers give the same positive count |
| BodySize.ParseMaxBodySize | server.go:144-178 | The accumulator loop computes the leading digits times the unit, with 64-bit wrap-around |
| BodySize.PrintedSizeParses | internal/config/load.go:173-200 | Printing an in-range number with a suffix and parsing gives number times unit |
| BodySize.LoaderAndFallbackAgree | server.go:111-122 | The limit the server uses is the loader's |
| BodySize.LimitExact | server.go:111-122 | The limit is never zero: the loader's count, else the fallback's, else 1 MB |
| BodySize.LoaderExact | internal/config/load.go:173-200 | The loader takes exactly a numeral below 2^63 without leading zeros and K, M or G in either case before B, and gives their product in 64-bit arithmetic |
| BodySize.FallbackExact | server.go:144-178 | What the fallback gives for every text: trimmed, a numeral and a unit, in 64-bit arithmetic throughout; 0 for anything else |
| Bootstrap.Bootstrapper.Run | internal/bootstrap/bootstrap.go:115-135 | In place over the stored email and hash and the token file; touches nothing else |
| Bootstrap.Bootstrapper.RunFirstBoot | internal/bootstrap/bootstrap.go:139-181 | Refuses without an admin email; then email, hash and file in that order |
| Bootstrap.Bootstrapper.RunSubsequentBoot | internal/bootstrap/bootstrap.go:186-198 | Refuses while the token file is seen and changes nothing; a failing stat counts as no file |
| Bootstrap.Bootstrapper.IssueToken | internal/bootstrap/bootstrap.go:202-232 | Token, hash, file, in that order; a torn file write is a failure |
| Bootstrap.ProceedsExactlyWhen | internal/bootstrap/bootstrap.go:115-198 | Run returns nil exactly when no rotation was asked for, a hash is stored and no token file is seen; nothing changes then |
| Bootstrap.GeneratedTokenWorks | internal/bootstrap/bootstrap.go:139-232 | A run that reports a token leaves it whole in the file; from then on that string is the administrator's and no other is |
| Bootstrap.AdminIsLastMinted | internal/auth/credentials.go:54-99 | Over any sequence of runs, failed ones included, and file deletions, exactly the last token whose hash was stored is accepted |
| Bootstrap.SettledAfterFirstBoot | internal/bootstrap/bootstrap.go:115-198 | Once a hash is stored, no run changes the admin email, and only a rotation changes the hash |
| Bootstrap.HexInjective | internal/bootstrap/bootstrap.go:73-79 | Distinct random bytes give distinct tokens |
| Bootstrap.RunAnswer | internal/bootstrap/bootstrap.go:115-232 | Every run, exactly: when a token is minted, which 64 hexadecimal digits it has, what is then stored in email, hash and file, failed writes included, and what is reported |
| AnswersUsers.AdminsOnly | internal/auth/auth.go:170-175 | With no statement failing, any caller but the admin token or an administrator's API key gets 403 on every admin route and nothing changes |
| AnswersUsers.NobodyThere | internal/handlers/resolve.go:19-34 | An administrator's selector that names no user by id, email or username is answered 404 and nothing changes |
| AnswersUsers.CreateUserAnswer | internal/handlers/users.go:174-270 | Exact answer and tables: 400 for an empty field, 409 exactly if somebody has the username, email or identity, else the new row as the hook leaves it with 201, or nothing and 500 if the hook fails |
| AnswersUsers.UpdateUserAnswer | internal/handlers/users.go:368-427 | Exact answer and tables: the named row gets the given name and the current second |
| AnswersUsers.UpdateProfileAnswer | internal/handlers/users.go:1052-1105 | Exact answer and tables: 403 exactly for a token whose row lacks users:read; the caller's own row gets the given name |
| AnswersUsers.DeleteUserAnswer | internal/handlers/users.go:436-555 | Exact answer and tables: the named user is deleted, and mentioned nowhere any more, exactly unless it is the only active administrator (409), the veto refuses or the hook fails |
| AnswersUsers.ChangeAnswer | internal/handlers/users.go:560-787 | Exact answer and tables of promote, demote, block and unblock: one column and the update time of the named row; 409 exactly for a demotion without two active administrators |
| AnswersUsers.RevokeUserKeyAnswer | internal/handlers/users.go:847-891 | Exact answer and tables: a live key of the named user gets the current second as its revocation time, a revoked one is left alone with 204, any other id is 404 |
| AnswersUsers.RevokeUserTokenAnswer | internal/handlers/users.go:958-1002 | Exact answer and tables, likewise for tokens |
| AnswersTokens.RevokePatAnswer | internal/handlers/pat.go:384-469 | Exact answer and tables: 403 exactly for a token whose row lacks tokens:manage, 404 for what is not the caller's, 400 if revoked already, else exactly that row revoked as of the current second with 200 |
| AnswersTokens.CreatePatAnswer | internal/handlers/pat.go:126-246 | Exact answer and tables: which requests are refused and with what; else the new row, under the first unused of three drawn ids, with the calendar expiry, and the string that spells it |
| AnswersTokens.EditPermsAnswer | internal/handlers/pat.go:508-901 | Exact answer and tables of the three edits: every refusal, and the list and revocation a success leaves |
| AnswersKeys.RevokeKeyAnswer | internal/keys/handlers.go:301-361 | Exact answer and tables: 403 exactly for a token whose row lacks keys:manage; a live key of the caller's is revoked as of the current second |
| AnswersKeys.RefreshKeyAnswer | internal/keys/handlers.go:187-293 | Exact answer and tables: a live, unexpired key of the caller's gets a new secret, and as many days from the second clock reading as it had |
| AnswersKeys.IssueKeyAnswer | internal/keys/generate.go:100-212 | Exact answer and tables: for 0, 30, 60 or 90 days and an existing user every older key is revoked and one added under the first unused of three drawn ids; anything else fails without a change |
| AnswersLogin.ReturningAnswer | internal/oauth/handler.go:163-340 | Exact answer and tables for an identity with an account: 403 if blocked, 409 if the email is another account's, else the refreshed profile and its one new key |
| AnswersLogin.SignupAnswer | internal/oauth/handler.go:212-340 | Exact answer and tables for an identity nobody has: the row handed to the hook, under the first unused of the ten names written out, its role, and then the key |
| AnswersLogin.NewcomerRole | internal/bootstrap/bootstrap.go:252-265 | A login that succeeds for an identity nobody has, whatever else fails or not, stores the new account as administrator exactly when an admin address is stored, it equals the login's email up to letter case, and no row has that role |
| AnswersOrgs.NoOrgThere | internal/handlers/resolve.go:43-56 | A selector that names no organization by id or slug is answered 404 |
| AnswersOrgs.CreateOrgAnswer | internal/handlers/orgs.go:109-171 | Exact answer and tables: 400 for a blank name or a malformed slug, 409 exactly if name or slug is in use, else the new row, its name trimmed |
| AnswersOrgs.EditOrgAnswer | internal/handlers/orgs.go:285-585 | Exact answer and tables of updateOrg, blockOrg and unblockOrg |
| AnswersOrgs.DeleteOrgAnswer | internal/handlers/orgs.go:383-451 | Exact answer and tables: the organization and its memberships and nothing else, as the hook leaves them; or the veto's or the hook's refusal without a change |
| AnswersOrgs.MemberAnswer | internal/handlers/orgs.go:651-743 | Exact answer and tables: adding is idempotent, removing nobody is 404 |
| AnswersOrgs.NoMemberThere | internal/handlers/orgs.go:651-743 | A member selector that names nobody is answered 404 |
| PermissionGate.GateExact | internal/auth/auth.go:199-219 | For the seven routes behind a permission: 403, with nothing changed, exactly when the caller is a token whose stored row lacks the permission or whose otherwise valid request asks for more than it may grant; API keys and the admin token never get it |
| PermissionGate.BuiltinsLetThrough | internal/auth/permissions.go:29-47 | The built-in permissions include what lets each of these requests through |
| PermissionGate.RegisteredForGood | internal/auth/permissions.go:53-81 | What is registered at the start or by any event of a run is registered ever after |
| TokenEnds.RevokePatServed | internal/handlers/pat.go:384-469 | Whatever statements fail: 200 only if the token was a live one of a permitted caller's and exactly its row is now revoked, 500 leaves that or no change, any other status no change; and 200 whenever no statement fails |
| TokenEnds.RevokeUserTokenServed | internal/handlers/users.go:958-1002 | The same for an administrator's revocation and 204 |
| TokenEnds.RevokedForGood | internal/auth/credentials.go:195-277 | Once either is answered with success the token's string authenticates in no state that any interleaving, with whatever else is in flight, reaches, unless the random source draws and hands out the same string again |
| Faults.FaultsOnlyFail | internal/db/db.go:149-161 | Failing statements add nothing: a request in which some fail is answered as if none had, or with 500 and either the tables of before or those of the request without failures |
| Callers.WhoCalls | internal/auth/auth.go:73-102 | What every string of one of the three printed forms authenticates as, or why not, in terms of the rows; revocation and expiry show only to who holds the secret |
| Callers.NobodyCalls | internal/auth/auth.go:113-153 | No other string is recognized |
| Callers.RefusedServed | internal/auth/credentials.go:108-277 | On every route: 401 for a credential not in force, 403 for a blocked user's, 500 if the owner is missing; nothing changes |
| Callers.NobodyServed | internal/auth/auth.go:25-65 | On every route 401 for a string of no printed form |
| Terms.UuidForms | internal/handlers/resolve.go:19-25 | The four shapes of a selector that counts as an id |
| Terms.EqualFoldMeaning | internal/bootstrap/bootstrap.go:264 | Equal up to the case of ASCII letters |
| Terms.TrimMeaning | internal/handlers/orgs.go:120-125 | What trimming takes off is white space and it leaves none at either end |
| AnswersUsers.ChangeWritten | internal/handlers/users.go:594-673 | The updating statement of promote, demote, block and unblock on tables that may have moved on since the row was read: only demotion looks again, at the role and at the number of active administrators |
| AnswersUsers.DeletionCommits | internal/handlers/users.go:487-551 | The deletion transaction on tables that may have moved on: it counts again, but only if the row was an active administrator's when it was read; a row that has gone is 404 |
| AnswersUsers.RevocationWritten | internal/handlers/users.go:875-885 | An administrator's revoking update on tables that may have moved on: an earlier revocation is overwritten |
| AnswersTokens.EditWritten | internal/handlers/pat.go:709-735 | The permission update on tables that may have moved on: the list is made of the one read before |
| AnswersTokens.Insertion | internal/handlers/pat.go:212-237 | The insert loop from any attempt on: at most three in all, each with its own id |
| AnswersKeys.RefreshWritten | internal/keys/handlers.go:232-275 | The refreshing update on tables that may have moved on: it looks whether the row is there, not whether it is revoked |
| AnswersOrgs.OrgWritten | internal/handlers/orgs.go:285-375 | The organization update and its read-back on tables that may have moved on |
| AnswersOrgs.MemberWritten | internal/handlers/orgs.go:651-743 | The membership insert and delete on tables that may have moved on: a missing organization or user is a foreign key failure, 500 |
| Callers.OwnerReadLast | internal/auth/credentials.go:150-184 | Between the two reads of authentication the owner may go, be blocked or change role: what counts is the second |

## Left out

- HTTP and Echo plumbing, JSON, headers, logging and error envelopes: a response is a status and the credential it hands out.
- The read-only routes (lists, single reads, own profile and organizations) apart from the key list's validator: they change nothing.
- The OAuth exchange with GitHub and Google and the redirect checks before it: what the provider says about the user is arbitrary input.
- The beforeDelete hooks run outside the transaction and appear only as a possible veto; they do not write.
- SQLite itself: statements are atomic, immediate transactions are serialised, a failed commit changes nothing.
- When an insert violates the username and another constraint at once, SQLite reports one of them; the environment chooses whether it is the username.
- Letter case outside ASCII in email comparison, and counting a token name's length in bytes rather than characters.
- time.Parse also accepts one-digit hours; stored timestamps never have them, and ParseTime here does not.
- List limits and the order of rows within one second: no result depends on them.
- Server start and stop, configuration files, CLI commands and client SDKs, apart from parseKeyID and the body-size parsers.
- Escalation.NoEscalation: says nothing about callers with API keys, which the code lets grant any registered permission to their own tokens.
- KeyLife.KeyLifetime: assumes the random source never hands out the same string twice within the run; a repeat would revive it; and that the configured prefix does not itself begin with the scheme word, which validation strips.
- Etags.EtagRises: like Etags.RevocationShows assumes that none of the user's rows is deleted; deleting a user removes the list altogether; and that times stay within the year 9999, the range of the stored form.
- Handlers.Api.DeleteUser: the resolvers need unique usernames and emails, which Constraints.EveryRunConsistent provides in every reachable state.
