# Finlytic: verified models of its protocols

Dafny models of the parts of the Finlytic services and web client where the order of steps matters, with proofs about
whole runs.

| file | what it models |
|---|---|
| `RefreshTokens.dfy` | the refresh-token table, its statements, and the two services run without interference |
| `Rotation.dfy`, `RotationSafety.dfy` | rotation as a concurrent protocol; its invariant, and what holds over every run |
| `SweepTransparency.dfy` | the hourly sweep against that protocol |
| `BrowserSession.dfy` | one web client with its single-flight refresh, composed with the rotation server |
| `RateLimiter.dfy` | the gateway's fixed-window limiter |
| `Sse.dfy`, `SyncStream.dfy` | the event-stream splitter and parser; writer, network and reader end to end |
| `ZohoFeed.dfy`, `MailSync.dfy`, `SyncRuns.dfy` | the Zoho adapter's paging, one sync run, and any sequence of runs |
| `ObjectKeys.dfy`, `Ingestion.dfy` | storage keys, and racing workers that store one message |
| `MessagePages.dfy` | keyset pagination over a growing table |
| `OAuthState.dfy`, `RefreshCookie.dfy` | single-use OAuth states; the cookie reader |
| `Strings.dfy`, `Common.dfy` | JavaScript string operations; `Option` |

Code that changes an object or runs a loop is a class or a method proved against a specification function. Code that
suspends at an `await` is also a state machine: one step for each database statement, object-store write or provider
request, a run being any list of actions, so a theorem about runs is about every interleaving. An action that does not
apply changes nothing.

Assumed: the clock read by a statement is the clock when it executes, and does not go back; random tokens, ids and
nonces are new; the token fingerprint is injective and the HMAC unforgeable; a single database statement is atomic and
unique constraints hold; a query with a cursor starts at the first row not above the cursor's, and `skip: 1` drops one;
the provider returns the same bytes for an id each time; mail arrives with a received time no earlier than any before
it; JSON printing and parsing are inverse and print no raw line break. Random values, clocks and the provider's answers
are parameters.

## Where the code and its comments differ

- `MAX_IDS_PER_RUN` (200) equals a Zoho page, so an incremental run reads one page and still moves the cursor to the
  newest message. With more than 200 new messages the rest can fall behind the cursor for good. `SyncRuns` proves no gap
  over all runs under the exact condition that decides it, and `CapLosesMail` is a run of 201 arrivals that loses one.
- The cap does the same to any paged feed, such as Gmail's history: `MailSync.RunSettlesFeedIff` says exactly when a
  finished run has left something of the feed behind its cursor.
- The cursor taken before an initial listing is said to leave no gap. Two initial runs that overlap can leave one: the
  later persist moves the cursor past messages beyond its newest 50 that arrived after the first one's baseline.
  `SyncRuns.OverlapLosesMail` is such a run; `RunLeavesNoGapIffCovered` and `LateFinishLeavesNoGapIff` say exactly when
  it happens, and `SerialRunsLeaveNoGap` that it never does when initial runs wait for each other.
- Replaying a spent token is said to revoke the whole family. A rotation that has spent its token but not yet issued
  the next one outlives the revocation. `RotationSafety.RevocationEndsFamilyIff` proves the family is over if and only
  if there is none, and `RevocationCanMissARotation` reaches the other case.
- The sweep is said to delete only tokens that can no longer be presented. It can also remove a row between two
  statements of one request. `SweepTransparency` proves exactly when that changes an answer, and `SweepCanFailARefresh`
  reaches it.
- The limiter is said to allow up to twice the limit across a window boundary. The attained bound is `2 * max - 1`.

## Model

| member | source | states |
|---|---|---|
| RefreshTokens.RefreshTokenService.Issue | services/user-management/src/auth/refresh-token.service.ts:30-50 | the new token can be spent exactly until the configured lifetime is over, no other token's chances change, and ids stay unique |
| RefreshTokens.RefreshTokenService.Spend | services/user-management/src/auth/refresh-token.service.ts:61-86 | succeeds exactly for a live unexpired token, which is then no longer spendable; presenting a revoked one leaves no live row in its family |
| RefreshTokens.RefreshTokenService.LinkReplacement | services/user-management/src/auth/refresh-token.service.ts:88-93 | links the spent row, touching no other row or field and making nothing spendable; fails exactly when that row is gone |
| RefreshTokens.RefreshTokenService.RevokeWholeFamily | services/user-management/src/auth/refresh-token.service.ts:95-100 | afterwards the family has no live row; no row is lost, earlier revocation times and other families stay, and nothing but revocation times changes |
| RefreshTokens.RefreshTokenService.RevokeFamilyByToken | services/user-management/src/auth/refresh-token.service.ts:102-110 | revokes the family of a known token, spent or not; an unknown token changes nothing |
| RefreshTokens.RefreshTokenService.SweepExpired | services/user-management/src/auth/refresh-token-cleanup.service.ts:45-55 | keeps exactly the rows not yet expired, as they were, counts the others, and takes away nothing that could be spent from now on |
| RefreshTokens.AuthService.Login | services/user-management/src/auth/auth.service.ts:71-98 | an active user gets a token heading a family; an inactive one gets nothing and nothing changes |
| RefreshTokens.AuthService.Refresh | services/user-management/src/auth/auth.service.ts:100-126 | the ordered spend, user check, issue and link, with both early exits |
| RefreshTokens.AuthService.Logout | services/user-management/src/auth/auth.service.ts:143-149 | revokes the presented token's family |
| RefreshTokens.RefreshOutcome | services/user-management/src/auth/auth.service.ts:100-126 | a refresh succeeds iff its token is live, unexpired and its user active; success changes one row and adds its linked successor; a replay or an inactive user ends the family; an unknown or merely expired token changes nothing |
| Rotation.StepKeepsInv | services/user-management/src/auth/auth.service.ts:100-126 | every statement of every request, every sweep, tick and crash keeps rows, requests, holders and links in order |
| Rotation.StepOneHolder | services/user-management/src/auth/refresh-token.service.ts:61-86 | no step gives a family a second live row or unfinished rotation |
| Rotation.StepOnePredecessor | services/user-management/src/auth/auth.service.ts:118-123 | no step makes two rows name the same replacement |
| Rotation.StepLater | services/user-management/src/auth/refresh-token.service.ts:65-68 | a row's owner, family and expiry never change and its revocation time is written once |
| RotationSafety.OneLiveTokenPerFamily | services/user-management/src/auth/refresh-token.service.ts:61-100 | in every interleaving, live rows plus rotations between spend and issue number at most one per family |
| RotationSafety.RevocationWrittenOnce | services/user-management/src/auth/refresh-token.service.ts:65-68 | between any two points of a run a surviving row is the same row with the same revocation time |
| RotationSafety.NoTokenAcceptedTwice | services/user-management/src/auth/refresh-token.service.ts:57-68 | no run accepts a token at two different steps |
| RotationSafety.RevocationEndsFamilyIff | services/user-management/src/auth/refresh-token.service.ts:95-100 | no continuation of a revocation ever has a live token in the family iff no rotation was pending |
| RotationSafety.DeadFamilyStaysDead | services/user-management/src/auth/refresh-token.service.ts:61-100 | a dead family stays dead in every continuation |
| RotationSafety.RevokedFamilyIsOver | services/user-management/src/auth/refresh-token.service.ts:78-83 | after a revocation with none pending, no run makes or accepts a live token of the family again |
| RotationSafety.PendingRotationOutlivesRevocation | services/user-management/src/auth/auth.service.ts:105-123 | otherwise the pending rotation, run on for its user, active or active again, puts a live token into the revoked family |
| RotationSafety.RevocationCanMissARotation | services/user-management/src/auth/auth.service.ts:143-149 | a login, a refresh and a logout reach that situation from nothing |
| RotationSafety.ReplacementChainsAreAcyclic | services/user-management/src/auth/auth.service.ts:118-123 | chains of replacements never repeat a row, stay in one family of one user, and each row has at most one predecessor |
| RotationSafety.AloneIsRefresh | services/user-management/src/auth/auth.service.ts:100-126 | the protocol without interference answers as the sequential service and leaves its table |
| RotationSafety.AloneIsLogin | services/user-management/src/auth/auth.service.ts:71-98 | a login without interference gives an active user the one row of a new family, and anyone else a refusal and an unchanged table |
| RotationSafety.OnlyActiveUsersGetTokens | services/user-management/src/auth/auth.service.ts:81-89 | in every run, whoever owns a row was active at some earlier point of it |
| RotationSafety.DeactivatedUserGetsNothing | services/user-management/src/auth/auth.service.ts:112-117 | no run gives a deactivated user a new row, unless a request of the user is between its check and its insert |
| RotationSafety.AloneIsLogout | services/user-management/src/auth/auth.service.ts:143-149 | a logout answers alike for any token, revokes the family of a known one and changes nothing for an unknown one |
| RotationSafety.LogoutRevokesFamily | services/user-management/src/auth/auth.service.ts:143-149 | a logout with any token of a family leaves it no live row and changes no other family |
| RotationSafety.ReplayRevokesFamily | services/user-management/src/auth/refresh-token.service.ts:74-83 | presenting a revoked token is detected as reuse and leaves its family no live row |
| SweepTransparency.SweepsAreInvisible | services/user-management/src/auth/refresh-token-cleanup.service.ts:17-20 | sweeps anywhere in a run leave every request, every detection and every unexpired row as without them, if no statement needs an expired row |
| SweepTransparency.SweepChangesAnswerIffUntimely | services/user-management/src/auth/refresh-token-cleanup.service.ts:45-55 | a sweep just before a statement changes its answer iff the statement needs an expired row |
| SweepTransparency.SweepCanFailARefresh | services/user-management/src/auth/refresh-token.service.ts:61-86 | from nothing: a row that expires and is swept between spend and re-read has its refresh refused, unswept it goes on |
| BrowserSession.NextKeepsInv | apps/web/src/api/client.ts:32-112 | every move of client, server and strangers keeps the session invariant |
| BrowserSession.HonestClientNeverTripsReuse | apps/web/src/api/client.ts:34-61 | in no run is the client's refresh taken for a replay, and no request is ever about to revoke one of its families |
| BrowserSession.IdleCookieIsGood | apps/web/src/api/client.ts:39-61 | whenever no refresh is in flight, presenting the cookie rotates it unless its row has expired or been swept |
| BrowserSession.LostAnswerTripsReuseIffSpent | apps/web/src/api/client.ts:34-61 | in any run, losing the answer and refreshing again is taken for theft iff the refresh had got past its spend, while the row is there |
| BrowserSession.OneRetryNeverALoop | apps/web/src/api/client.ts:63-82 | no call sends a third request, a call waits only while a refresh is under way, and a successful refresh leaves an access token for the retry |
| BrowserSession.RefreshDecidesTheRetry | apps/web/src/api/client.ts:73-81 | in any run, a call waiting for a refresh sends its second request iff that refresh is granted, and gives up iff it is refused or never reaches the server |
| BrowserSession.ExpiredAccessTokenRecovers | apps/web/src/api/client.ts:63-82 | a call that meets a 401 while the cookie's row is live is answered on its second request, with the rotated token in the cookie |
| BrowserSession.LoginGivesASession | apps/web/src/api/client.ts:97-112 | a login served and answered leaves an access token and the user's own live token as the cookie |
| BrowserSession.LoginsEndAnswered | apps/web/src/api/client.ts:97-112 | in any run a login ends only by its answer, which is the token granted, or nothing if the server died on it |
| RateLimiter.LimitsByPath | services/gateway/src/rate-limit.ts:20-63 | login and register get 5, preview and sync of any account 10, refresh and raw messages 20, everything else 100 |
| RateLimiter.OneBucketPerRule | services/gateway/src/rate-limit.ts:17-19 | two requests share a bucket iff one limit holds for both, except that login and register, and refresh and raw messages, have their own |
| RateLimiter.KeyInjective | services/gateway/src/rate-limit.ts:88-90 | no two clients or rules share a counter, whatever the client string |
| RateLimiter.Limiter.Check | services/gateway/src/rate-limit.ts:82-114 | the decision and the one counter changed are those of a lone counter |
| RateLimiter.Limiter.Prune | services/gateway/src/rate-limit.ts:118-124 | deletes exactly the counters whose window has passed |
| RateLimiter.LimiterRefinesCounter | services/gateway/src/rate-limit.ts:78-124 | in any run, the decisions for a client and rule are those of a lone, never pruned counter on its own requests |
| RateLimiter.PruningAndOthersAreInvisible | services/gateway/src/rate-limit.ts:116-124 | two histories that differ in pruning and in other traffic give a client the same decisions |
| RateLimiter.ExactlyTheLimit | services/gateway/src/rate-limit.ts:103-113 | inside a window exactly the first `max` requests pass, and `remaining` is what is left |
| RateLimiter.FirstOfItsWindow | services/gateway/src/rate-limit.ts:92-113 | the request that opens a window is the first of its `max`, and the decisions of that window count from it |
| RateLimiter.AtMostAlmostDouble | services/gateway/src/rate-limit.ts:70-74 | k window lengths admit at most `(k + 1) * max - 1` requests of a client under a rule, so one admits at most `2 * max - 1` |
| RateLimiter.AMinuteAdmitsAtMost | services/gateway/src/rate-limit.ts:17-53 | in any minute of any run one client gets through at most 9 logins, 9 registrations, 39 refreshes, 19 account actions, 39 raw messages, 199 others |
| RateLimiter.BoundIsAttained | services/gateway/src/rate-limit.ts:70-74 | for every limit and k there are requests that attain the bound |
| RateLimiter.RetryAfterIsExact | services/gateway/src/rate-limit.ts:105-113 | requests up to `retryAfterSeconds - 1` seconds after a denial are denied; the first from `retryAfterSeconds` on is allowed |
| Sse.SplitFrames | apps/web/src/api/sse.ts:13-25 | the loop returns the frames and rest that `SplitIsUnique` characterises |
| Sse.SplitIsUnique | apps/web/src/api/sse.ts:8-25 | frames and rest rebuild the buffer and hide no separator, and nothing else does |
| Sse.ChunkInvariance | apps/web/src/api/sse.ts:8-12 | splitting a buffer in two and carrying the rest gives the same frames and the same rest |
| Sse.ParseFrame | apps/web/src/api/sse.ts:28-59 | the loop gives each line its effect: comments skipped, last event name, data lines joined |
| Sse.ParsesWhatLinesSay | apps/web/src/api/sse.ts:28-59 | any frame of fields, with or without value, and comments reads as the joined `data` values and the last `event`, and as nothing without `data` |
| Sse.ParseUndoesWrite | apps/web/src/api/sse.ts:41-59 | the parser gives back the server's payload iff it has no line break and does not end in a carriage return |
| Sse.CrlfIsTolerated | apps/web/src/api/sse.ts:33-34 | rewriting a frame's line endings to CRLF does not change its reading |
| SyncStream.EventStream.constructor | services/email-ingestion/src/accounts/accounts.controller.ts:41-53 | a connection opens with the greeting comment |
| SyncStream.EventStream.OnEvent | services/email-ingestion/src/accounts/accounts.controller.ts:55-61 | an owned event is appended as one frame; another user's writes nothing |
| SyncStream.EventStream.OnHeartbeat | services/email-ingestion/src/accounts/accounts.controller.ts:63-65 | a heartbeat appends one comment frame |
| SyncStream.Consume | apps/web/src/accounts/useSyncEvents.ts:64-84 | the read loop delivers what one big chunk would, however the bytes are cut |
| SyncStream.HandleFrame | apps/web/src/accounts/useSyncEvents.ts:23-40 | the frame the server wrote for an event delivers that event; a comment delivers nothing; a frame delivers at most one event, decoded from its joined data lines |
| SyncStream.StreamDeliversExactly | apps/web/src/accounts/useSyncEvents.ts:64-84 | the client delivers exactly the published events of owned accounts, in order, with an empty buffer; a cut connection delivers a prefix |
| ZohoFeed.PageIs | services/email-ingestion/src/mail/providers/zoho.provider.ts:327-359 | a page lists the fresh messages at its offsets, has a successor iff full and fresh to its end, and carries a cursor only on page 1 |
| ZohoFeed.ListingIsTheMailbox | services/email-ingestion/src/mail/providers/zoho.provider.ts:304-325 | the listing cuts the mailbox into pages of at most 200, which together are all of it |
| ZohoFeed.PagingMissesNothing | services/email-ingestion/src/mail/providers/zoho.provider.ts:341-356 | the adapter's own paging, with mail arriving between requests, collects all that was at or above the watermark, nothing below it, and ends |
| MailSync.MailSyncService.IngestAll | services/email-ingestion/src/sync/mail-sync.service.ts:161-204 | the loop stores and counts as `IngestConserves` describes, stopping at the first exception |
| MailSync.MailSyncService.InitialSync | services/email-ingestion/src/sync/mail-sync.service.ts:82-108 | the cursor becomes the watermark taken before listing, or stays on any failure |
| MailSync.MailSyncService.IncrementalSync | services/email-ingestion/src/sync/mail-sync.service.ts:110-159 | the paging loop with its cap, the re-baseline on a rejected cursor, and the cursor written last |
| MailSync.InitialMovesCursorLast | services/email-ingestion/src/sync/mail-sync.service.ts:82-108 | an initial run succeeds iff profile and listing are answered and no fetch of an unstored id throws; only then does the cursor become the watermark, with every listed id stored or gone |
| MailSync.InitialListingIs | services/email-ingestion/src/sync/mail-sync.service.ts:92-94 | an initial listing holds the newest min(50, n) of n messages |
| MailSync.CollectIs | services/email-ingestion/src/sync/mail-sync.service.ts:121-147 | from any feed: every id up to the first page that ends the listing, fails, rejects the cursor or brings the ids to 200, each once, with the last cursor those pages carry |
| MailSync.CapLeavesPagesUnread | services/email-ingestion/src/sync/mail-sync.service.ts:147 | pages are left unread iff all but the last already hold 200 ids |
| MailSync.RunSettlesFeedIff | services/email-ingestion/src/sync/mail-sync.service.ts:149-156 | a finished run, its cursor moved, has settled the whole feed iff the cap did not stop it or every id left unread was read, stored or gone anyway |
| MailSync.MailSyncService.SyncAccount | services/email-ingestion/src/sync/mail-sync.service.ts:37-80 | an absent or inactive account is left alone for good; other failures set the error and success clears it |
| MailSync.IngestConserves | services/email-ingestion/src/sync/mail-sync.service.ts:172-203 | stored ids are never fetched, every id ends stored or gone, each count is exact, and they add up to the batch iff no stored id was listed twice |
| MailSync.FirstExceptionEndsIt | services/email-ingestion/src/sync/mail-sync.service.ts:187-201 | the first exception ends a batch: all before it is stored or gone, nothing after it is touched |
| MailSync.CursorAllOrNothing | services/email-ingestion/src/sync/mail-sync.service.ts:149-158 | the cursor moves only after every collected id is stored or gone; a failed run leaves it, or clears it if the provider rejected it; the outcome carries the mode and the counts of its batch |
| MailSync.ZohoRunReadsOnePage | services/email-ingestion/src/sync/mail-sync.service.ts:121-156 | a Zoho run makes one page request and collects exactly the newest min(200, n) of the n messages at or above the watermark |
| SyncRuns.StepKeepsInv | services/email-ingestion/src/sync/mail-sync.service.ts:82-159 | every await of every run, every arrival, deletion and exception keeps: nothing that came after the first baseline is missing below a cursor held, carried or persisted |
| SyncRuns.NoMailSlipsBelowTheCursor | services/email-ingestion/src/sync/mail-sync.service.ts:82-159 | over any runs, concurrent or throwing, each message still there that came after the baseline of the first cursor and lies below the present one is stored or was reported gone, if each listing was covered and overlapping initial runs reach back to that baseline |
| SyncRuns.SettledByFetching | services/email-ingestion/src/sync/mail-sync.service.ts:186-201 | over any run a message becomes stored iff some fetch finds it and gone iff some fetch does not |
| SyncRuns.EverythingBelowTheCursorIsStored | services/email-ingestion/src/sync/mail-sync.service.ts:82-159 | in a covered run in which nothing vanishes at the provider, every message after the baseline and below the cursor is stored |
| SyncRuns.StoredIsNotFetched | services/email-ingestion/src/sync/mail-sync.service.ts:172-181 | no run fetches a message that was stored before it filtered its list |
| SyncRuns.DeletedIsGone | services/email-ingestion/src/mail/providers/zoho.provider.ts:361-372 | a deleted message is never found again, and no other is lost |
| SyncRuns.ThrowKeepsCursor | services/email-ingestion/src/sync/mail-sync.service.ts:71-79 | an exception keeps cursor and store, and ends its run for good |
| SyncRuns.SerialRunsLeaveNoGap | services/email-ingestion/src/sync/mail-sync.service.ts:88-105 | the same when initial runs wait for each other, with incremental listings covered |
| SyncRuns.AtMostAPageIsCovered | services/email-ingestion/src/sync/mail-sync.service.ts:14-15 | at most 200 messages at or above the watermark are always covered |
| SyncRuns.RunLeavesNoGapIffCovered | services/email-ingestion/src/mail/providers/zoho.provider.ts:341-356 | a run, incremental or a late initial one, that lists and finishes while mail arrives leaves no gap iff what its listing left beyond the cap was settled, older than the baseline or still on the watermark |
| SyncRuns.LateFinishLeavesNoGapIff | services/email-ingestion/src/sync/mail-sync.service.ts:90-105 | an initial run finishing after another set the first cursor leaves no gap iff its list reached back to that one's baseline |
| SyncRuns.CapLosesMail | services/email-ingestion/src/sync/mail-sync.service.ts:14-15 | from nothing: 201 arrivals and one incremental run put a message behind the cursor, unstored |
| SyncRuns.OverlapLosesMail | services/email-ingestion/src/sync/mail-sync.service.ts:88-105 | from nothing: two overlapping initial runs and 52 arrivals do the same |
| ObjectKeys.KeysAreInjective | services/email-ingestion/src/storage/object-storage.service.ts:43-63 | two keys are equal iff kind, account, message id, year and month are, slashes in the id included |
| ObjectKeys.PrefixIsTheAccount | services/email-ingestion/src/storage/object-storage.service.ts:43-63 | the raw keys under an account's prefix are exactly the keys of that account |
| Ingestion.MessageIngestionService.Ingest | services/email-ingestion/src/messages/message-ingestion.service.ts:22-96 | reports created iff the row was absent, and then adds its objects and its row; otherwise changes nothing |
| Ingestion.StepKeepsInv | services/email-ingestion/src/messages/message-ingestion.service.ts:22-96 | every statement and crash of every worker keeps rows pointing at their own content |
| Ingestion.RowsPointAtTheirContent | services/email-ingestion/src/messages/message-ingestion.service.ts:40-84 | in every interleaving each row's keys name objects holding that message's raw bytes and text |
| Ingestion.CreatedOnceAndCounted | services/email-ingestion/src/messages/message-ingestion.service.ts:66-95 | at most one ingest inserts a message, so at most one reports it created; every one that returns leaves it stored; rows exceed reports by exactly the inserts whose worker has not returned or died first |
| Ingestion.StoredMessagesAreFixed | services/email-ingestion/src/messages/message-ingestion.service.ts:85-92 | later workers never change a stored row or the raw and text bytes it names |
| Ingestion.EveryWorkerReturns | services/email-ingestion/src/messages/message-ingestion.service.ts:22-96 | whatever the others do, a worker that gets its turns and does not die returns, the loser of a race included |
| Ingestion.CrashLosesOnlyTheReport | services/email-ingestion/src/messages/message-ingestion.service.ts:66-95 | a worker that dies never reports, and its death takes away no row or object |
| Ingestion.RetryStores | services/email-ingestion/src/messages/message-ingestion.service.ts:22-96 | trying again after any history leaves the message stored under its own content |
| Ingestion.AloneIsIngest | services/email-ingestion/src/messages/message-ingestion.service.ts:22-96 | the protocol without interference is the sequential service |
| MessagePages.DescendingIsUnique | services/email-ingestion/src/messages/messages.service.ts:37-39 | the order with its tie-break leaves one possible listing |
| MessagePages.PageIs | services/email-ingestion/src/messages/messages.service.ts:24-63 | an owner gets the next rows after the cursor in order, with a cursor iff rows remain, at the last row; anyone else gets nothing |
| MessagePages.OnlyTheCallersMail | services/email-ingestion/src/messages/messages.service.ts:24-33 | whatever cursor is sent, a caller sees at most `limit` rows, of its own account only, and none for an unknown cursor |
| MessagePages.ForeignCursorSkipsOne | services/email-ingestion/src/messages/messages.service.ts:37-42 | with a cursor from another account, the rows below it come but for the first |
| MessagePages.WalkMissesNothing | services/email-ingestion/src/messages/messages.service.ts:35-64 | an owner following the cursor during inserts sees newest first, nothing twice, everything present from the start, and gets to the end |
| MessagePages.QuietWalkIsTheListing | services/email-ingestion/src/messages/messages.service.ts:24-64 | without inserts an owner's pages are the whole sorted table, anyone else's are empty |
| OAuthState.Issue | services/email-ingestion/src/oauth/oauth-state.service.ts:47-52 | a state expires ten minutes after its issue, to the second |
| OAuthState.OAuthStateService.ForgetExpired | services/email-ingestion/src/oauth/oauth-state.service.ts:39-45 | drops exactly the expired entries |
| OAuthState.OAuthStateService.VerifyState | services/email-ingestion/src/oauth/oauth-state.service.ts:58-97 | the checks in order; after an acceptance every entry kept is unexpired |
| OAuthState.ForgettingIsInvisible | services/email-ingestion/src/oauth/oauth-state.service.ts:14-29 | in every run the map that forgets answers as one that never forgets |
| OAuthState.AcceptedIffFirstAndInTime | services/email-ingestion/src/oauth/oauth-state.service.ts:75-96 | an attempt succeeds iff it is the first presentation of an issued, unexpired state |
| OAuthState.StateLivesTenMinutes | services/email-ingestion/src/oauth/oauth-state.service.ts:47-97 | in any run a first presentation is accepted, for its user, iff at most 600 seconds after the issue |
| RefreshCookie.ReadRefreshCookie | services/user-management/src/auth/refresh-cookie.ts:36-52 | the loop finds the first part that names the cookie |
| RefreshCookie.ReadsFirstRefreshToken | services/user-management/src/auth/refresh-cookie.ts:36-52 | from any header serialised per section 4.2.1 of RFC 6265 the first refresh token comes back whole, `=` included |
| RefreshCookie.ReadsThroughPadding | services/user-management/src/auth/refresh-cookie.ts:41-50 | the same whatever white space stands around the pairs |

## Left out

- The Gmail adapter: its change log is only the abstract feed of `MailSync`, including a rejected cursor; `SyncRuns` is about Zoho.
- HTTP, token endpoints, regions and provider access-token refresh: `getConnection` succeeds or fails.
- Passwords, JWT, encryption and hashing: assumed ideal.
- MIME parsing: the body text is a function of the raw bytes, and the sending time is whatever the worker settles on.
- `client.ts` as a class: its module variables change between awaits, so they are the fields of a state machine value.
- Statement timing: a statement reads the clock when it executes, not just before.
- `SyncRuns` takes a fetch and its ingest as one step; `Ingestion` takes them apart.
- The job queue: it keeps one pending job for an account, so how often runs of one account overlap is up to it; `SyncRuns` lets them.
- `getForAccount`, `rawObjectKeyFor`, streaming and body truncation: single reads behind the same ownership check.
- Closing a stream, unsubscribing and reconnecting with backoff: the model ends with the connection.
- The cookie attributes, limit clamping, the upstream proxy and static files: single branches.
- Ill-typed provider answers: received times are numbers and offsets positive.
