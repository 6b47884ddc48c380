# Verified models of crmkit

crmkit is a thin HTTP layer over a store. This project models the parts of it whose correctness
is not visible from any single function, and proves what those parts are for. Everything is
Dafny 4.11; `dafny verify dfyconfig.toml` checks the project.

**List queries.** Request parameters become a query, the query becomes SQL text with positional
placeholders and an argument list, the text is renumbered for PostgreSQL, and a keyset pager with
an opaque cursor runs on top. `QueryParams` and `Whitelists` model the request side, `ListSql` the
builders, `Dialects` the rebinding. `ParameterMeaning` says what parameters ask for without the
parser, which is proved to give that. A server is modelled beside them, independently of the
builders: `SqlText` has statements as tokens, `SqlSelect` a parser from numbered tokens to
conditions and their three-valued evaluation, `SqlValues` the order of values and the operators
each dialect has: LIKE folds case on SQLite and compares exactly on PostgreSQL, where ILIKE folds
it; on SQLite ILIKE is no operator, and a statement that uses it does not run.
`ListMeaning` and `ListStatements` prove that what the builders write, as the server reads it,
selects the rows the query asks for; `ListText` carries this over to the rebound text. `Pager`
runs the statements over tables, `PageWalks` follows a client from page to page, on a table that
stays and on one that changes, and `ListRequests` and `ClientWalks` close the circle from the
client's parameters to the records it is shown. `RequestText` is about the statement texts of
accepted requests. `Subqueries` and `ActivityFilters` read the expressions that stand in for
columns back from their text and evaluate them over the activity log of `ActivityStats`.
`Cursors`, `Json`, `Utf8`, `Base64Url` and `Decimal` are the codecs underneath, `Texts` has the
functions on strings that they and the parser use.

**Rate limits.** `TokenBucket` has the in-memory limiter with its sweep, `RedisBucket` the Redis
script with its expiry; both are related to a limiter that never forgets. `StaleClocks` is the
in-memory limiter under arbitrary clocks. Tokens are reals, times are integers.

**Optimistic concurrency.** `OptimisticConcurrency` has PATCH on a contact, first as a class whose
methods are the store calls, then as the interleaved statements of any number of requests;
`GuessedVersions` says exactly which expected versions protect a request, `UpdateAnswers` exactly
what a request that took effect answers.

**OAuth grant families.** `OAuthGrants` has authorization codes, rotating token pairs and
revocation (sections 4.1.2 and 6 of RFC 6749, section 4.6 of RFC 7636), again as a class and as
interleaved handlers that may be replayed, fail or be revoked under way. `GrantInvariants` proves
what every step keeps, `GrantFamilies` what follows for every run, and `RevokedFamilies` what a
revocation leaves valid.

**Tenancy and schema.** `Tenancy` has workspaces, memberships, invites, login and seats, one
call at a time, `Memberships` who belongs where after each, and `TenancyRaces` the same calls as the statements and transactions they run,
interleaved. `SeatHolders` counts seats by addresses, and `TenancyRuns` relates the statements to
the calls and has the runs that do harm. `Migrations` has any number of migration runs, each
stopped before an arbitrary statement, and `MigrationProgress` says how far each gets.

**The rest.** `LoginTicket` is the signed login ticket, `ActivityStats` the activity figures,
`References` ids, handles and what agents send back, `AuditPrune` the throttle of the retention
sweep.

Where the source changes state step by step, the model is a class or a method with loops, proved
against a function of the old state; the properties are lemmas about that function. Where the
property is about interleaving, the same statements are steps of a state machine, and a lemma
shows that one request's steps with nothing in between are the method.

## Where the code differs from what is said about it

- `custom.<key>=value` is documented as compared as text. On SQLite a number stored under the key
  is compared as a number with a text and never equals it; PostgreSQL matches it. The exact
  difference is `QueryParams.CustomFilterDialects`.
- A record whose handle was backfilled with its id does not resolve under its formatted handle,
  although the migration calls such handles valid: `References.BackfilledDoNotResolve`.
- A user removed from a default workspace that still exists keeps it as default, so the login
  token is minted for a workspace it does not resolve in, although the comment at
  internal/store/sqlite.go:361-362 says login can always mint a usable token:
  `Tenancy.LoginTokenResolves`.
- The comment at internal/server/query.go:309-311 says the filtered outreach figure and the shown
  one can never diverge. They do for a last outreach at time zero, and only there:
  `ActivityFilters.LastOutreachFilters`.
- The rate bound can fail when a clock is read before another thread's sweep. It holds exactly as
  long as a bucket that was dropped would be full at its key's next event:
  `StaleClocks.BoundIffAgreement`, `StaleClocks.LostOnlyFullIsExact`.
- A conditional update protects versions the client has seen, not versions it guesses; exactly
  which, and which patches need no protection, is `GuessedVersions.ProtectedExactlyIf`.
- The seat limit and the last-admin rule are checks followed by writes, and a login reads invites,
  inserts a membership for each and then deletes them. Under concurrency the seat limit holds
  exactly as long as every invite and every inserted membership finds a free seat, or its own row,
  when it is written, the last-admin rule exactly as long as no demotion or removal is written on
  the last admin: `TenancyRaces.SeatsHoldExactlyIf`, `TenancyRaces.AdminsStayExactlyIf`. A login
  alone can be one seat over between its statements, but not by addresses; a login that read an
  invite used up since can be over for good: `SeatHolders.HoldersStayExactlyIf`,
  `TenancyRuns.StaleLoginCanExceedTheLimit`.
- The self-heal of a login creates a workspace and records it as default in two steps; deleted in
  between, it stays the default: `TenancyRaces.HomesExistExactlyIf`.
- A successful PATCH answers with the content it wrote, but reads the version back in a statement
  of its own: the version can be a later write's, and a write that took effect can answer a server
  error. Exactly when is `UpdateAnswers.ReloadAnswersExactly`.
- Section 4.1.2 of RFC 6749 says tokens already issued from a replayed code should be revoked; the
  code refuses the replay and leaves the tokens alone:
  `GrantFamilies.ReplayedCodeChangesNothing`. What does revoke them, exactly, is
  `GrantFamilies.AccessTokenRevokedExactlyBy` and `GrantFamilies.RevocationKillsExactlyIf`; a
  revoked refresh token leaves its access token valid, `RevokedFamilies.AccessOutlivesRevocation`.

## Model

| member | source | states |
|---|---|---|
| Dialects.Rebind | internal/store/dialect.go:58-75 | the byte scan returns the statement with its marks numbered $1, $2, ... for PostgreSQL and unchanged for SQLite |
| Dialects.NumberingIsUndone | internal/store/dialect.go:55-75 | undoing the numbering restores every statement without a dollar sign |
| Dialects.NumberingKeepsMeaning | internal/store/dialect.go:55-75 | a renumbered statement reads like the original, each placeholder standing for the argument of its position, if and only if no mark runs into a digit |
| SqlText.SentText | internal/store/dialect.go:77-86 | rebinding a statement's text and numbering its tokens come to the same text |
| SqlText.NumbersInOrder | internal/store/dialect.go:62-72 | the placeholders of a numbered statement are 1, 2, ..., n, one per mark |
| SqlValues.ValueOrder | internal/store/query.go:160-176 | the order that comparisons and ORDER BY use is a strict total order on values that are not NULL |
| SqlValues.ContainsFilter | internal/store/query.go:139-146 | a pattern %term% finds every text that contains the term ignoring case, and finds nothing else exactly when the term has no wildcard |
| ListSql.AppendFilter | internal/store/query.go:99-137 | one pass of the filter loop writes the filter's clause and arguments, and nothing for an empty IN |
| ListSql.AppendSearch | internal/store/query.go:139-147 | the search adds one LIKE per column, joined by OR in parentheses, with one argument each |
| ListSql.BuildWhere | internal/store/query.go:94-150 | the loops produce exactly the clause and the arguments whose meaning the lemmas below give |
| ListSql.AppendCursor | internal/store/query.go:166-175 | a cursor adds the row comparison in its own direction, its value bound as a number or as text |
| ListSql.BuildListSQL | internal/store/query.go:154-179 | the whole list statement and its arguments, limit plus one last |
| ListMeaning.FilterParses | internal/store/query.go:99-137 | what is written for a filter reads back as its condition, wherever it stands, its placeholders counted from the arguments before it |
| ListMeaning.FilterEvaluates | internal/store/dialect.go:21-41 | that condition, as the backend it is written for reads it, under NULL logic and positional arguments, is true of exactly the rows that satisfy the filter; LIKE folds case on SQLite only, and ILIKE is no operator there |
| ListMeaning.SearchEvaluates | internal/store/query.go:139-147 | likewise the search condition is true of exactly the rows in which some search column matches, case ignored |
| ListMeaning.PartsEvaluate | internal/store/query.go:94-150 | a conjunction of parts keeps exactly the rows for which every part holds |
| ListMeaning.ListReads | internal/store/query.go:154-179 | the list statement parses, to its end, as the query's conditions, sort and limit |
| ListStatements.ListInOrder | internal/store/query.go:94-179 | the list statement has as many placeholders as arguments, and numbering its marks in order gives each the argument it was written for |
| ListStatements.ListSelects | internal/store/query.go:94-179 | the backend the list statement is written for understands its operators and selects exactly the rows of the workspace that satisfy all filters and the search, case ignored, and lie beyond the cursor, with the query's sort and limit plus one |
| ListStatements.CountSelects | internal/store/query.go:190-193 | likewise the count is over exactly the rows of the workspace that satisfy all filters and the search |
| ListText.ListTextKeepsMeaning | internal/store/dialect.go:55-86 | the rebound text of a list statement built from plain texts is the text of its numbered tokens and reads with the same placeholders in the same places |
| ListText.CountTextKeepsMeaning | internal/store/dialect.go:55-86 | likewise the text of the count |
| RequestText.ParsedQueryIsPlain | internal/server/query.go:65-176 | every query parsed under a whitelist of plain texts is built from plain texts |
| RequestText.ContactTextsKeepMeaning | internal/server/query.go:340-371 | both statements of every accepted contact list request keep their meaning when they are rebound |
| QueryParams.BuildFilter | internal/server/query.go:204-261 | the operator token, the null check, the IN loop and the coercions give the specified filter or the specified error |
| QueryParams.ParseTags | internal/server/query.go:112-123 | the nested loops give one quoted-membership filter per non-blank tag of every tags parameter |
| QueryParams.ParseListQuery | internal/server/query.go:65-166 | the method with its loops over parameters computes the query specified for that visiting order, or its error |
| QueryParams.ParsedQueryIsOk | internal/server/query.go:65-176 | every parsed query has fit filters, no empty IN, a limit between 1 and 200 and a whitelisted sort column, cursors included |
| ParameterMeaning.FilterChooses | internal/server/query.go:204-261 | for every value of field=value: it is refused exactly unless it is acceptable, and selects exactly the rows whose cell it chooses, token by token (greater, less, one of the parts, NULL, equal to the whole text without a token) |
| ParameterMeaning.RequestMeans | internal/server/query.go:65-166 | a list request is accepted exactly if its cursor or sort and each of its parameters are, and its query has the page size and order asked for and selects exactly the rows of the workspace that every parameter, tag and search text asks for |
| QueryParams.ParameterOrderDoesNotMatter | internal/server/query.go:125-164 | whatever order the parameter map is visited in, the request is accepted or refused alike and selects the rows of the workspace that meet each parameter and the search |
| QueryParams.LikeParameter | internal/server/query.go:228-233 | field=like:term on a text field selects the rows whose field contains the term, ignoring case, for terms without wildcards |
| QueryParams.CustomFilterDialects | internal/store/dialect.go:32-41 | a custom-field filter finds the same rows on both backends except exactly where the record holds a number whose text equals the value asked for |
| QueryParams.OtherFiltersDialects | internal/store/query.go:120-136 | all other filters mean the same on both backends |
| Whitelists.ContactFieldsAreColumns | internal/server/query.go:340-356 | each whitelisted contact field is the column of its name, times read as times and texts as texts, but for the two derived ones, and lists sort by the name and the two times |
| Whitelists.ContactWhitelistIsOk | internal/server/query.go:311-371 | the contact whitelist, derived expressions included, satisfies what the statement theorems ask of one |
| Pager.RemainingIs | internal/store/query.go:154-179 | the rows still to be shown are in strict sort order and are exactly the selected rows beyond the cursor |
| Pager.FetchRows | internal/store/query.go:198-217 | running the built statement returns the first limit plus one of those rows |
| Pager.CountMatching | internal/store/query.go:190-193 | running the built count returns the number of selected rows |
| Pager.QueryRecords | internal/store/query.go:198-233 | page, total and next cursor are the specified ones, the page and the total possibly read from different tables |
| PageWalks.CursorCarries | internal/store/query.go:181-184 | decoding the next cursor gives back the sort and the exact key of the last row shown, for text and numeric columns |
| PageWalks.SortValCarries | internal/store/query.go:457-490 | the sort value printed for a contact or a deal is bound as that row's own column value |
| PageWalks.FixedTablePages | internal/store/query.go:198-233 | on a fixed table page k is the k-th slice of the sorted matching rows, its cursor is empty exactly at their end, and its total is their number |
| PageWalks.FixedTableWalk | internal/store/query.go:198-233 | a finished walk of a fixed table shows the sorted matching rows, in as many pages as they fill |
| PageWalks.FixedTableWalkEnds | internal/store/query.go:181-233 | following the cursors of a fixed table always leads to an empty one, so finished walks exist for every query and table |
| PageWalks.CursorsAdvance | internal/store/query.go:160-175 | successive cursors move strictly in the sort direction, ascending or descending |
| PageWalks.StableRowShownExactlyOnce | internal/store/query.go:198-233 | while other rows come, go and change, a walk that ends with an empty cursor shows every record that keeps matching under the same key exactly once |
| ListRequests.FirstRequestAsks | internal/server/query.go:94-110 | the first request for a contact list is one the pager takes |
| ListRequests.NextRequestResumes | internal/server/query.go:77-95 | repeating the parameters with the returned cursor added resumes right after the last row shown, whatever the sort parameter says |
| ClientWalks.ClientWalkIsWalk | internal/server/query.go:65-166 | a client that adds each cursor it is given to its parameters is never refused after its first request, and its requests are a walk of the pager |
| ClientWalks.ClientIsShownExactlyOnce | internal/store/query.go:198-233 | from parameters to pages: on a changing table such a client is shown every record that meets its parameters and keeps its sort key exactly once |
| ClientWalks.ClientIsShownTheList | internal/store/query.go:198-233 | on a fixed table it is shown exactly the records that meet its parameters, in order, as many as every answer says |
| ClientWalks.ContactRequestsAreAccepted | internal/server/query.go:340-371 | for contacts a first request is accepted if and only if its sort and each of its parameters are acceptable |
| Cursors.CursorRoundTrip | internal/store/query.go:61-80 | every cursor survives encoding and decoding unless it names no column, and then it is refused |
| Cursors.DecodedIs | internal/store/query.go:66-80 | of any text: blank is no cursor; it is this cursor exactly if it wraps a JSON object whose members have their types, the last of each name giving this field, and that names a column; anything else is refused |
| Cursors.NumericValueRoundTrip | internal/store/query.go:166-174 | a 64-bit sort value printed into a cursor is bound unchanged on the next page |
| Base64Url.Base64RoundTrip | internal/store/query.go:63-71 | any bytes survive unpadded base64url, section 5 of RFC 4648 |
| Utf8.Utf8RoundTrip | internal/store/query.go:61-76 | any text survives UTF-8 encoding and decoding |
| Json.StringRoundTrip | internal/store/query.go:61-76 | any text survives JSON string escaping as Go prints it, section 7 of RFC 8259 |
| Json.ObjectRoundTrip | internal/store/query.go:61-76 | a flat JSON object survives printing and reading |
| Decimal.IntRoundTrip | internal/store/query.go:168-171 | every 64-bit integer survives FormatInt and ParseInt |
| Decimal.ParseIntIs | internal/store/query.go:168-171 | ParseInt reads exactly the texts that spell a 64-bit integer, sign and leading zeros included, as that integer |
| LoginTicket.PayloadSplits | internal/auth/loginticket.go:41-44 | the payload splits into three parts, its own, exactly when neither id nor email holds a bar |
| LoginTicket.TicketRoundTrip | internal/auth/loginticket.go:15-52 | a ticket verifies with the same id and email exactly for five minutes and if neither holds a bar |
| LoginTicket.OnlySignedPayloadsVerify | internal/auth/loginticket.go:30-52 | whatever verifies carries the MAC of the bytes its answer is read from and an expiry that has not passed |
| TokenBucket.MemoryLimiter.constructor | internal/ratelimit/ratelimit.go:74-84 | a limiter starts without buckets, with the burst asked for or with one if less is asked |
| TokenBucket.MemoryLimiter.Allow | internal/ratelimit/ratelimit.go:88-114 | the in-place update of buckets and clocks is the specified step |
| TokenBucket.MemoryLimiter.Sweep | internal/ratelimit/ratelimit.go:119-136 | at most once a minute, exactly the buckets idle longer than the limit are dropped |
| TokenBucket.RateBound | internal/ratelimit/ratelimit.go:88-114 | between two allowed events of a key, out-of-order clocks included, no more events pass than burst plus rate times the elapsed time, unless the bucket was swept in between |
| TokenBucket.GrantedExactlyWithinTheBound | internal/ratelimit/ratelimit.go:88-114 | the limiter without its sweep allows an event if and only if no window opened by an earlier allowed event would exceed that bound |
| StaleClocks.BoundIffAgreement | internal/ratelimit/ratelimit.go:88-136 | under arbitrary clocks every window of every key keeps the rate bound if and only if the sweeping limiter decides every event like the one that never forgets |
| StaleClocks.LostOnlyFullAgrees | internal/ratelimit/ratelimit.go:116-136 | it does so as long as every bucket a sweep dropped would be full at the clock of its key's next event |
| StaleClocks.LostOnlyFullIsExact | internal/ratelimit/ratelimit.go:88-136 | that condition is exact: having held so far, it holds at the next event if and only if the bound survives any number of repetitions of that event |
| StaleClocks.SweepingGrantsExactlyWithinTheBound | internal/ratelimit/ratelimit.go:88-136 | under it the sweeping limiter allows an event if and only if no window opened by an earlier allowed event would exceed the bound |
| StaleClocks.StaleClockAfterSweepBreaksTheBound | internal/ratelimit/ratelimit.go:92-96 | a run that breaks it: a clock read before another thread's sweep is granted beyond the bound |
| TokenBucket.SweepDropsExactly | internal/ratelimit/ratelimit.go:116-136 | a sweep, at most once a minute, drops exactly the buckets idle for more than a minute and more than an empty one takes to refill |
| TokenBucket.SweptIsFull | internal/ratelimit/ratelimit.go:116-135 | a bucket the sweep drops has refilled completely |
| TokenBucket.SweepRefines | internal/ratelimit/ratelimit.go:116-136 | on nondecreasing clocks the sweeping limiter decides like one that never forgets |
| RedisBucket.RedisLimiter.constructor | internal/ratelimit/redis.go:76-86 | a limiter starts over an empty database, with the burst asked for or with one if less is asked |
| RedisBucket.RedisLimiter.Allow | internal/ratelimit/redis.go:22-52 | the script's reads, refill, write and expiry are the specified step |
| RedisBucket.ExpiredIsFull | internal/ratelimit/redis.go:47-51 | an entry whose time to live has run out would have refilled completely |
| RedisBucket.ScriptTakes | internal/ratelimit/redis.go:28-52 | one script run takes from the live entry what the memory limiter takes from its bucket, and refills nothing on a clock gone back |
| RedisBucket.ScriptExpires | internal/ratelimit/redis.go:47-51 | an entry lives the seconds its bucket takes to refill, rounded up, and one more |
| RedisBucket.LimitersAgree | internal/ratelimit/redis.go:22-52 | on one nondecreasing clock the sweeping, the expiring and the never-forgetting limiter decide every event alike |
| RedisBucket.RateBoundAcrossSweeps | internal/ratelimit/ratelimit.go:88-136 | on a nondecreasing clock the rate bound needs no condition on sweeps |
| OptimisticConcurrency.EntityTagRoundTrip | internal/server/handlers_crm.go:127-142 | a 64-bit version in an If-Match header, quoted or not, is the version expected |
| OptimisticConcurrency.CarriedIsExpected | internal/server/handlers_crm.go:127-142 | for every header: the version expected is the 64-bit integer the header spells between quotes and spaces, or, if it spells none, the one in the body |
| OptimisticConcurrency.StaleVersionConflicts | internal/store/crm.go:136-161 | a request that carries a version other than the row's, in its header or in its body, is a conflict and changes nothing |
| OptimisticConcurrency.ContactStore.GetContact | internal/store/crm.go:98-110 | the row of that workspace and id, if there is one |
| OptimisticConcurrency.ContactStore.UpdateContact | internal/store/crm.go:136-161 | the conditional write changes one row and adds one to its version, or changes nothing and reports why |
| OptimisticConcurrency.ContactStore.HandleUpdateContact | internal/server/handlers_crm.go:408-444 | alone, a PATCH stores its fields merged onto the current record, custom fields key by key, or answers not found, bad request or, if it carries another version than the row's, conflict, and changes nothing |
| OptimisticConcurrency.AloneIsTheHandler | internal/server/handlers_crm.go:408-444 | the interleaved steps of one request with nothing in between are that method |
| OptimisticConcurrency.NoLostUpdate | internal/store/crm.go:136-161 | a write conditional on a version that existed when its request arrived is its patch applied to exactly that version's content |
| OptimisticConcurrency.OneWinnerPerVersion | internal/store/crm.go:136-161 | at most one write replaces any one version, so at most one request conditional on it succeeds |
| OptimisticConcurrency.VersionIsWriteCount | internal/store/crm.go:136-161 | a row's version is one more than the number of writes that took effect on it |
| OptimisticConcurrency.HistoryIsStable | internal/store/crm.go:136-161 | the content recorded for a version never changes |
| OptimisticConcurrency.AnswersAreTruthful | internal/store/crm.go:1163-1189 | not found and conflict mean nothing was written; success means the answered content was |
| OptimisticConcurrency.OnlyEffectiveStepsChangeRows | internal/store/crm.go:136-161 | steps that are not creates, deletes or effective updates leave the table alone |
| OptimisticConcurrency.MergesAgree | internal/server/handlers_crm.go:427-433 | a patch decoded onto two contents gives the same if and only if it names every column and custom key in which they differ, or clears the custom fields |
| OptimisticConcurrency.GuessedVersionLosesAnUpdate | internal/server/handlers_crm.go:420-441 | a request that guesses the next version and reads before it exists passes the check afterwards and writes its patch onto the older version; the row is as if it had read the version it guessed if and only if the patch covers everything the write in between changed |
| GuessedVersions.ProtectedExactlyIf | internal/server/handlers_crm.go:408-444 | in every reachable state a request expecting version e only ever writes onto version e's content, whatever happens next, if and only if e exists, or the record can no longer be written, or it is yet to be created and e is one, or the patch names all eight columns and clears the custom fields |
| UpdateAnswers.ReloadAnswersExactly | internal/store/crm.go:155-161 | in every reachable state a request that has written answers its own content under that content's own version if and only if the record is still there and no later write to it is logged, a server error if and only if the record is gone, and otherwise its content under a later write's version |
| UpdateAnswers.AnswerWasReloaded | internal/store/crm.go:1185-1189 | every answer of a request that took effect was given so, by the state at the moment its version was read back |
| UpdateAnswers.AnswerMayCarryANewerVersion | internal/store/crm.go:1185-1189 | a run from the empty store in which two conditional requests succeed and the first answers its content under the second's version |
| UpdateAnswers.ErrorMayFollowAWrite | internal/store/crm.go:1185-1189 | a run from the empty store in which a request whose write took effect answers a server error, the record being deleted in between |
| OAuthGrants.TokenEndpoint.PutAuthCode | internal/store/oauth.go:75-84 | the code is stored with its grant |
| OAuthGrants.TokenEndpoint.ConsumeAuthCode | internal/store/oauth.go:88-118 | the row is deleted in any case and returned unless it has expired |
| OAuthGrants.TokenEndpoint.PutRefreshToken | internal/store/oauth.go:122-128 | the token is stored with its grant |
| OAuthGrants.TokenEndpoint.ConsumeRefreshToken | internal/store/oauth.go:133-154 | the row is deleted in any case and returned unless it has expired |
| OAuthGrants.TokenEndpoint.RevokeRefreshTokenByHash | internal/store/oauth.go:158-161 | exactly that refresh token goes |
| OAuthGrants.TokenEndpoint.RevokeTokenByHash | internal/store/oauth.go:166-170 | exactly that access token is marked revoked |
| OAuthGrants.TokenEndpoint.CreateToken | internal/store/sqlite.go:457-466 | the access token is stored unrevoked |
| OAuthGrants.TokenEndpoint.IssueTokens | internal/server/handlers_oauth.go:518-562 | an access token, then a refresh token paired with it, each write possibly failing |
| OAuthGrants.TokenEndpoint.TokenFromAuthCode | internal/server/handlers_oauth.go:452-484 | a request without code, client or verifier changes nothing; any other spends the code, and only a redemption by its client, at its redirect URI, in time and with the matching verifier is paid |
| OAuthGrants.TokenEndpoint.TokenFromRefresh | internal/server/handlers_oauth.go:487-515 | a request without a token changes nothing; otherwise the token is spent, its access token revoked, and a pair with the same grant issued |
| OAuthGrants.TokenEndpoint.HandleOAuthRevoke | internal/server/handlers_oauth.go:567-583 | the hash, if there is one, is revoked as a refresh token and as an access token, and nothing else changes |
| GrantFamilies.OneLiveGrantPerCode | internal/server/handlers_oauth.go:452-562 | over any interleaving a family has at most one of: unspent code, stored refresh token, handler that has consumed one of these and may still issue |
| GrantFamilies.ExchangePaidExactlyIf | internal/server/handlers_oauth.go:452-562 | an exchange is paid if and only if the code is stored, in time, of this client and redirect URI, the transform of the verifier is its challenge and no write fails; what it leaves in each case |
| GrantFamilies.RotationPaidExactlyIf | internal/server/handlers_oauth.go:487-562 | a rotation is paid if and only if the refresh token is stored, in time and not another client's and no write of the pair fails; what it leaves in each case |
| GrantFamilies.CredentialsWait | internal/store/oauth.go:75-161 | over any interleaving a stored code or refresh token stays as it is until it is presented or revoked |
| GrantFamilies.AuthorizedCodeIsPaid | internal/server/handlers_oauth.go:452-484 | whatever happens between the grant of a code and its proper presentation, its client gets a pair with the code's grant |
| GrantFamilies.TokensDescendFromRedeemedCodes | internal/server/handlers_oauth.go:452-562 | every token descends from a code presented in time by its own client, for its own redirect URI, with the verifier whose transform is its challenge, and keeps its user, workspace, client and scope |
| GrantFamilies.UnrevokedWithinFailures | internal/server/handlers_oauth.go:500-512 | a family has at most one unrevoked access token more than revocations that failed |
| GrantFamilies.OneUnrevokedAccessToken | internal/server/handlers_oauth.go:500-512 | while those revocations succeed, at most one access token per family is unrevoked |
| GrantFamilies.DeadStaysDead | internal/server/handlers_oauth.go:452-562 | a family without code, refresh token or handler never gets another token |
| GrantFamilies.RevocationKillsExactlyIf | internal/server/handlers_oauth.go:567-583 | revoking a refresh token ends a family for good if and only if it is stored in that family or the family had ended already |
| GrantFamilies.RevocationMissesARotationInFlight | internal/server/handlers_oauth.go:487-562 | so a request in flight, wherever it is between its statements, goes on to store a new refresh token |
| RevokedFamilies.AccessOutlivesRevocation | internal/server/handlers_oauth.go:567-583 | revoking a stored refresh token revokes no access token, its own pair included: after any continuation the unrevoked access tokens of its family are exactly those it had, without the ones revoked or dropped by name since |
| GrantFamilies.ReplayedCodeChangesNothing | internal/server/handlers_oauth.go:452-484 | presenting a spent code is refused and leaves every code, token and refresh token as it is |
| GrantFamilies.AccessTokenRevokedExactlyBy | internal/store/oauth.go:166-170 | an access token becomes revoked exactly by its own revocation or by the rotation of the refresh token paired with it |
| GrantFamilies.RotationAloneIsTheMethod | internal/server/handlers_oauth.go:487-515 | the interleaved steps of one rotation, paid or refused, with nothing in between are that method |
| GrantFamilies.ExchangeAloneIsTheMethod | internal/server/handlers_oauth.go:452-484 | the interleaved steps of one exchange, paid or refused, with nothing in between are that method |
| Tenancy.TenantStore.CreateWorkspace | internal/store/memberships.go:57-86 | the workspace is stored with its creator as admin, and nothing else changes |
| Tenancy.TenantStore.CreateInvite | internal/store/memberships.go:115-136 | the invite replaces an earlier one to the same address |
| Tenancy.TenantStore.HandleInvite | internal/server/handlers_workspace.go:198-240 | the invite is stored exactly when the quota admits it |
| Tenancy.TenantStore.SetMemberRole | internal/store/memberships.go:193-215 | the role changes unless that would leave no admin |
| Tenancy.TenantStore.RemoveMember | internal/store/memberships.go:252-272 | the member goes unless that would leave no admin |
| Tenancy.TenantStore.DeleteWorkspace | internal/store/memberships.go:218-249 | the workspace goes with its memberships and invites, and as anybody's default |
| Tenancy.TenantStore.AcceptInvites | internal/store/sqlite.go:414-446 | the loop turns every invite to the address into a membership, keeping existing roles |
| Tenancy.TenantStore.GetOrCreateIdentity | internal/store/sqlite.go:347-410 | login creates the user or the missing default workspace and accepts the waiting invites |
| Tenancy.ReachableIsSound | internal/store/memberships.go:57-272 | in every reachable state each workspace has an admin, each default workspace exists and no row dangles |
| Tenancy.LoginFindsAHome | internal/store/sqlite.go:347-410 | login always ends with a default workspace that exists |
| Tenancy.LoginTokenResolves | internal/store/sqlite.go:347-410 | the token login mints resolves if and only if the workspace is new, the user belonged to it already or an invite to it was waiting |
| Tenancy.AcceptingConservesSeats | internal/store/sqlite.go:414-446 | accepting never raises members plus invites, and keeps their number exactly unless an invitee was a member already |
| Tenancy.SeatsNeverExceedTheLimit | internal/server/quota.go:60-80 | with quota-gated invites no reachable state exceeds a seat limit of at least one |
| Tenancy.ZeroSeatsAreExceededAtOnce | internal/server/quota.go:60-80 | a limit of zero is exceeded by the owner of any new workspace |
| Memberships.LastAdminIsOnlyAdmin | internal/store/memberships.go:193-215 | the count of admins refuses a change exactly if the member is an admin and no other member is |
| Memberships.SeatsAre | internal/server/quota.go:127-140 | what the quota counts: each member of the workspace and each pending invite to it |
| Memberships.RolesAfter | internal/store/memberships.go:57-272 | the role of every user in every workspace after every call, the calls that are refused included |
| Memberships.InvitesAfter | internal/store/memberships.go:115-136 | the invites after every call: one is made exactly if the workspace exists and has room, and goes exactly with its workspace or when its address logs in |
| Memberships.UsersAfter | internal/store/sqlite.go:347-410 | the users and their default workspaces after every call |
| Memberships.WorkspacesAfter | internal/store/memberships.go:57-249 | the workspaces after every call |
| Memberships.InviteConfersItsRole | internal/store/sqlite.go:414-446 | whatever happens between an invite made while there is room and the next login of its address, that login makes its user a member with the invite's role, or leaves the role it had already, and the invite is gone |
| TenancyRaces.SeatsHoldExactlyIf | internal/store/sqlite.go:414-446 | with the statements of any number of invites, role changes, removals and logins interleaved, every state is within every seat limit of at least one, as the quota counts, if and only if each invite and each membership a login inserts found, at the time of its write, a free seat or its own row already there |
| TenancyRaces.SeatsKeptExactly | internal/server/quota.go:60-80 | step by step: a state within the limits is left only by an invite or a membership written when no seat was free |
| SeatHolders.HoldersAreSeats | internal/server/quota.go:127-140 | the addresses that are invited or belong to a member are no more than the seats the quota counts, and as many if and only if no address is both |
| SeatHolders.HoldersStayExactlyIf | internal/store/sqlite.go:414-446 | counted by addresses, so that an invitee who is joining counts once, every state is within the limits if and only if each invite and each inserted membership was for an address with a seat, or found a free one |
| SeatHolders.HoldersKeptExactly | internal/store/sqlite.go:436-445 | step by step: a state within the limits by addresses is left only by a row for a new address when no seat was free |
| TenancyRaces.AdminsStayExactlyIf | internal/store/memberships.go:193-272 | likewise every workspace keeps an admin throughout if and only if no demotion or removal was written when its member was the last admin |
| TenancyRaces.AdminsKeptExactly | internal/store/memberships.go:193-272 | step by step: a state with admins is left only by such a write |
| TenancyRaces.HomesExistExactlyIf | internal/store/sqlite.go:361-373 | every default workspace exists throughout if and only if each login that recorded one it had created found it still there |
| TenancyRaces.HomesKeptExactly | internal/store/sqlite.go:368-370 | step by step: a state in which default workspaces exist is left only by recording one deleted since its creation |
| TenancyRuns.InviteAloneIsTheCall | internal/server/handlers_workspace.go:198-240 | the statements of an invite with nothing in between are the whole call |
| TenancyRuns.MemberChangeAloneIsTheCall | internal/store/memberships.go:193-272 | likewise those of a role change or removal |
| TenancyRuns.LoginAloneIsTheCall | internal/store/sqlite.go:347-446 | likewise those of a login, new or known, with or without a default workspace, its invites joined in any order |
| TenancyRuns.ConcurrentInvitesCanExceedTheLimit | internal/server/handlers_workspace.go:223-226 | a run from the start that exceeds a limit of two by two invites counted before either is written |
| TenancyRuns.JoiningCanExceedTheLimit | internal/store/sqlite.go:437-445 | a run from the start with no second request that is one over a limit of two, as the quota counts, between a login's INSERT and its DELETE |
| TenancyRuns.StaleLoginTakesASeat | internal/store/sqlite.go:414-446 | from any full workspace with a pending invite: two logins read it, one finishes, the user is removed, another is invited to the seat that came free, and the other login ends with one seat over the limit |
| TenancyRuns.StaleLoginCanExceedTheLimit | internal/store/sqlite.go:414-446 | such a run from the start, three seats of two by either count with no request left, though every invite found a free seat |
| TenancyRuns.ConcurrentRemovalsCanOrphanAWorkspace | internal/store/memberships.go:193-272 | a run from the start in which two admins, each removed or demoted by a request that counted both, leave none |
| TenancyRuns.DeletedHomeCanStayDefault | internal/store/sqlite.go:363-370 | a run from the start that leaves a user with a default workspace deleted between its creation and its recording |
| Migrations.Migrator.MigrationStatus | internal/store/migrate.go:328-366 | the loops compute the applied versions in order, their highest, the highest there is and the pending migrations |
| Migrations.StatusIs | internal/store/migrate.go:309-314 | those are the recorded versions ascending, bounds that are attained or zero, and exactly the migrations not recorded |
| Migrations.Migrator.Transact | internal/store/migrate.go:385-408 | a migration's transaction commits all its statements or none |
| Migrations.Migrator.ApplyMigrations | internal/store/migrate.go:372-410 | a run stopped anywhere has applied and reported exactly the migrations it committed |
| Migrations.OrderedIsPermutation | internal/store/migrate.go:317-322 | sorting the registry keeps its migrations |
| Migrations.OrderedAscends | internal/store/migrate.go:317-322 | distinct versions come out strictly ascending |
| Migrations.RunsLeaveAPrefix | internal/store/migrate.go:317-410 | after any runs stopped anywhere, under registries that only add higher versions, the recorded versions are a prefix of the order and the schema is what exactly that prefix builds |
| Migrations.CompletedRunIsFinal | internal/store/migrate.go:328-410 | a completed run leaves nothing pending and the next run changes nothing |
| MigrationProgress.RunGetsExactlyAsFar | internal/store/migrate.go:385-410 | a run behind the first n migrations ends behind the first m, and m is at least k if and only if no statement of the first k fails and the statements from n to k, and two more for each of these migrations, are paid for |
| MigrationProgress.RunAppliesAll | internal/store/migrate.go:372-410 | so a run that is not stopped, over statements that succeed, records every migration and leaves the schema that all of them build |
| Migrations.LowerVersionBreaksThePrefix | internal/store/migrate.go:317-322 | the prefix survives a registry change if and only if it adds only higher versions |
| ActivityStats.ActivityStats | internal/store/crm.go:904-935 | the number of activities that reference all the ids given and the latest of their times, none if there is none or it is time zero |
| ActivityStats.LatestIsMaximum | internal/store/crm.go:907-907 | the latest time is attained by a chosen activity and exceeded by none |
| ActivityStats.DistinctNonEmpty | internal/store/crm.go:1274-1288 | the loop with its set of seen ids computes the specified list |
| ActivityStats.DistinctIs | internal/store/crm.go:1274-1288 | that list holds each non-empty id once |
| ActivityStats.ActivityStatsBatch | internal/store/crm.go:972-1017 | the result has exactly the listed ids with activity, each with its own record's figures |
| ActivityStats.GroupsAreRecords | internal/store/crm.go:988-993 | the grouped scan comes to the figures of each record on its own |
| ActivityStats.BatchAgreesWithSingle | internal/store/crm.go:901-1017 | for every id list the batch shows a record what the single query shows, nothing if it is missing, and never more outreach than activity |
| ActivityStats.OutreachIsNoLater | internal/store/crm.go:988-1014 | the last outreach shown is no later than the last activity shown, if and only if it is not the case that the record's latest activity is at time zero and its latest outreach before that |
| Subqueries.WrittenIsRead | internal/server/query.go:311-338 | a correlated subquery over the activity log reads back from its text as its figure and conditions |
| ActivityFilters.LastOutreachReads | internal/server/query.go:312-312 | the whitelisted text of last_outreach reads as the maximum of created_at over this contact's calls, emails and meetings |
| ActivityFilters.OutreachCountReads | internal/server/query.go:313-313 | the whitelisted text of outreach_count reads as their number |
| ActivityFilters.BehalfReads | internal/server/query.go:333-333 | the whitelisted predicate of on_behalf_of reads as the existence of an activity of this contact with that principal, ignoring case |
| ActivityFilters.ViewRunsExists | internal/server/query.go:328-338 | what the evaluation of a statement sees of that predicate is whether its subquery finds a row, for every argument |
| ActivityFilters.OutreachCountFilters | internal/server/query.go:311-345 | any outreach_count filter, whatever its operator, on the subquery evaluated over the log and the row's own cells, selects by the number the batch query shows for the row |
| ActivityFilters.LastOutreachFilters | internal/server/query.go:311-345 | any last_outreach filter, null checks and lists included, selects by the time the batch query shows, exactly unless the last outreach was at time zero and the filter tells that from none |
| ActivityFilters.OutreachCountParameter | internal/server/query.go:204-261 | from the parameter on: outreach_count=value selects exactly the contacts whose shown number the value chooses, token by token |
| ActivityFilters.LastOutreachParameter | internal/server/query.go:204-261 | likewise last_outreach=value and the shown time, exactly unless the last outreach was at time zero and the value chooses one of time zero and none but not the other |
| ActivityStats.ActivityPrincipalsBatch | internal/store/crm.go:1025-1057 | the loops collect each listed record's principals |
| ActivityStats.PrincipalsAre | internal/store/crm.go:1019-1044 | those are the principals of its activities, blanks left out, sorted and without repetition |
| ActivityFilters.BehalfFilter | internal/server/query.go:332-338 | an on_behalf_of filter selects exactly the contacts among whose shown principals one equals the value ignoring case, except a blank value where a blank principal is not shown |
| References.NewHandle | internal/protocol/protocol.go:69-83 | the buffer is rewritten in place to the symbols its random bytes stand for |
| References.SymbolsAreUnbiased | internal/protocol/protocol.go:70-81 | each symbol of the alphabet comes from exactly eight of the 256 bytes |
| References.HandlesAreGenerated | internal/protocol/protocol.go:69-83 | the handles are exactly what five random bytes can give, five symbols of the alphabet |
| References.IdsAreGenerated | internal/protocol/protocol.go:29-41 | the ids are exactly what a prefix and ten random bytes can give, sixteen symbols after the prefix and a separator |
| References.IdsDiffer | internal/protocol/protocol.go:29-41 | no two prefixes or byte strings give the same id |
| References.RefRoundTrip | internal/protocol/protocol.go:85-107 | formatting and parsing give a handle back, under either separator or bare, if and only if it holds no separator |
| References.IdParsesLong | internal/protocol/protocol.go:29-41 | an id never parses to something of a handle's length |
| References.Records.Insert | internal/store/migrate.go:135-138 | an insert is refused exactly when it would repeat an id, or a handle within its workspace |
| References.Records.GenHandle | internal/store/crm.go:26-41 | five attempts with fresh handles; the table gains one record or nothing and stays well formed |
| References.AttemptedIs | internal/store/crm.go:26-41 | the first free one of the five draws becomes the handle unless the table fails before it, and only five taken ones exhaust the attempts |
| References.Records.ResolveHandle | internal/store/crm.go:48-61 | a matching record is found if and only if there is one |
| References.MatchIsUnique | internal/store/crm.go:43-61 | no reference matches two records of a workspace, backfilled ones included |
| References.IdsResolve | internal/store/crm.go:43-61 | in any workspace a raw id matches its own record if that is the workspace's, and nothing otherwise |
| References.HandlesResolve | internal/store/crm.go:43-61 | a generated handle, bare or formatted for any kind, matches exactly the workspace's own record of that handle |
| References.BackfilledDoNotResolve | internal/store/crm.go:43-61 | a handle backfilled from the id matches bare but not formatted |
| AuditPrune.Throttle.constructor | internal/server/server.go:405-411 | no sweep has run at first |
| AuditPrune.Throttle.CompareAndSwap | internal/server/server.go:415-418 | the field is replaced exactly if it still holds the expected value |
| AuditPrune.Throttle.MaybePruneAudit | internal/server/server.go:409-418 | alone, a request sweeps exactly if an hour has passed |
| AuditPrune.SweepsAreAnHourApart | internal/server/server.go:405-418 | however requests interleave and whatever their clocks say, the times they win increase strictly and lie at least 3600 seconds apart |
| AuditPrune.LosersStayLosers | internal/server/server.go:411-418 | whatever happens next, of two requests that have loaded the same value at most one wins |
| AuditPrune.AloneIsTheMethod | internal/server/server.go:409-418 | the interleaved steps of one request are that method |

## Left out

- HTTP routing, HTML pages, email, configuration and the manual: plumbing.
- The SQL engines and drivers: a statement is one atomic step on tables. Of SQL, exactly the statements of the list engine are read and run; GROUP BY is a scan with one accumulator per key.
- Of subqueries, the form the whitelists use: one figure over the activities, under equalities with the outer row, lists of texts and texts compared in lower case. Activity columns that the log does not hold (subject, body and the like) are NULL in it.
- Collations: texts are ordered by character and case is folded for ASCII letters only. A backslash in a LIKE pattern is an ordinary character, as in SQLite.
- Paging by a column that may be NULL (tasks by due_at): the pager's rows have sort columns that are not NULL.
- Companies, tickets, tasks and campaigns, their derived filters included, which repeat the code modelled for contacts and deals; fillContactRefs and the other display joins.
- Custom fields that hold booleans, lists or objects: a custom value is a text or an integer.
- RFC 3339 parsing and Unicode case folding beyond ASCII: a parameter, and out.
- JSON beyond flat objects of strings, booleans and null: other values under unknown keys are refused here and skipped by the program; invalid UTF-8 is refused here and replaced by the program.
- float64 rounding in the limiters and the 14 digits of the script's stored tokens: tokens are reals. time.Duration overflow of burst over rate is out with it.
- Redis clock skew: the script clamps a negative delta but stores the earlier time, so the agreement of the limiters is claimed for nondecreasing time only; the fail-open path on Redis errors is out.
- Bucket records in the limiter's map are values, not objects: nothing else holds a reference to one.
- Hashes, MACs, random bytes and generated ids: uninterpreted functions, arguments or fresh names.
- A PATCH body that sets `id`, and ids used again after deletion: assumed away in OptimisticConcurrency. A body that does not decode ends its request after the read, and only the method has it. The lookup of a company by its handle is part of the patch.
- Other writers of the access-token table: their revocations are a step of OAuthGrants, their insertions are not.
- Tables DeleteWorkspace does not touch. In TenancyRaces a transaction (creating or deleting a workspace, signing up) is one step, and plans do not change during a run; a request whose statement fails for another reason than a missing workspace or a taken address simply never goes on.
- Two migration runs at the same time: runs follow each other.
- One-time codes, escalations, audit diffs, version comparison and rendering: easy.
