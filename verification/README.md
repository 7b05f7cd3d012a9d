# Verified model of the hub

This project models the parts of the hub that keep state or do arithmetic and proves what they keep.
Redis is a map from keys to values with an expiry and an explicit clock that only advances; a key is
readable strictly before its expiry. Mongo collections are maps or sequences. Times are whole
microseconds. Oracles (the SDK, the sign-in service, SHA-256 and HMAC, JSON, the ranking of the index)
are parameters or parts of the events, so the theorems hold for all of them.

Each part is one or more modules:

- `windows`, `session_keys`, `session_world`, `session_backend`, `session_runs`, `session_losses`: the
  window of a conversation, the two Redis keys of a session, turns and worker passes as timed steps that
  can fail at any access but do not overlap, the services as a class over its stores, and whole runs.
- `turn_protocol`, `turn_windows`, `turn_limits`, `turn_atomic`: the same turns and passes taken apart into
  single accesses, for any interleaving and failure, and that they are the whole ones when uninterrupted.
- `mcp_session`, `mcp_closing`, `mcp_client`: the lock-protected MCP session as steps of any number of
  threads, which keepers are told to end, and a class whose uninterrupted calls are runs of those steps.
- `base64url`, `base64url_bits`, `access_token`, `oauth_flow`, `oauth_gate`, `oauth_server`: tokens, authorization codes,
  hub sessions and the gate, with the interleaved flow and the service as a class.
- `sign_in_limiter`: the fixed-window counter, with SET NX and INCR as separate accesses.
- `calculator`, `calculator_outcomes`, `calculator_bounds`: the evaluator, its meaning, when it answers
  and when it refuses, and the size of its answers.
- `plan_index`: improvement plans, their index and the search that joins them.
- `upload_tickets`: tickets and the list of created inventories.
- `prices`, `costs`, `text`: the price table, the cost of a run and of a company.

A function without a contract of its own computes; what it means is in the lemma or method about it.
Every class has `Contents()`, the value its methods' contracts speak about, and the run theorems are
about that value. `dafny verify dfyconfig.toml` checks the whole project.

## Where a property fails

The code does not keep the following. Each has a member that gives a run, and members that say when the
property does hold.

- Sign-in limiter: when a counter expires between an attempt's SET NX and its INCR, the INCR creates a
  counter without expiry, and once it reaches the cap that email is refused for ever
  (oauth/rate_limit.py:12-15).
- MCP session: a start that times out cancels its keeper, but a keeper that begins late still publishes
  its closing event without the lock, so the next session can be published with the wrong one and its
  keeper is then not told to end when it is closed (cmd/api/integrations/mcp/mcp_session.py:157-192). A
  stopped loop's own keeper was told exactly if no other keeper began after it until the loop was taken
  (`McpClosing.StoppedLoopsWereSignalled`).
- Conversation windows are not always suffixes of the stored messages: a turn that overlaps another turn
  or a refresh on its session, with no failure at all, or one that dies between saving and caching, makes
  a window that skips a message. It happens at exactly three accesses (`TurnWindows.StepKeepsFitIff`),
  and what a turn caches is a suffix exactly if its history and message end its history and the saves
  since it read that history (`TurnWindows.CachedWindowFitsIffSaves`). Turns that do not overlap break it
  exactly by saving past a live window without caching (`SessionRuns.AgreementIffAlwaysCached`).
- A new session that is rolled back leaves the store as it was, but leaves its window exactly if it was
  cached before the failure (session/service.py:97-108, `TurnLimits.RollbackLeavesWindowIff`).
- A cached window can expire unharvested although passes are timely, exactly if a failing turn that saved
  an old message leaves an older activity key that lasts too long
  (`SessionLosses.NothingCanExpireIffNeverExposed`).
- Upload tickets: reads and writes are separate, so two concurrent confirmations replace each other's
  path, and an inventory cannot be reached by its user exactly if a call dies that was the last to hold an
  append its ticket still needs (`UploadTickets.EveryConsumedIsListed`).
- Improvement plans: the plan is filed under the inventory that the analysis names, not the one asked
  about; when they differ, plans can be duplicated, moved to another company or indexed without existing.
- Prices: enriching a table twice can add a row that enriching once did not, exactly if one configured
  model adopts a row of the loaded table, the other finds none there, and their names are akin
  (`Prices.EnrichTwiceIff`).

Where code and documentation differ, the model follows the code: `_sync_recent_sessions` announces
sessions that still have a live window but rebuilds the window of every recently updated session
(session/memory_service.py:57-72), and `record_attempt` announces that it never resets the window, which
holds except for the counter without expiry above.

## Model

| member | source | states |
|---|---|---|
| Windows.DeriveWindow | session/entity.py:69-82 | the backward loop over the messages returns the longest suffix whose adjacent gaps are all below the threshold, for sorted and unsorted timestamps |
| Windows.RunStartIsMaximal | session/entity.py:75-81 | the walk stops at the first long gap: what it collected has only short gaps and every longer suffix has a long one |
| Windows.DeriveIsWindow | session/entity.py:69-82 | the derived messages are the window of the history: a suffix of it, of short gaps, and the longest such |
| Windows.WindowIsUnique | session/entity.py:69-82 | a history has exactly one window, so the previous row determines the result |
| Windows.DeriveIsIdempotent | session/entity.py:69-82 | deriving a window from a window changes nothing |
| Windows.DeriveIsIncremental | session/entity.py:69-82 | appending a message extends the window by it when the gap is below the threshold and restarts the window with it otherwise |
| Windows.SuffixPastOneMore | session/service.py:97-98 | a window that is a suffix of the messages is one of the messages with one more if and only if it holds nothing but that one |
| SessionKeys.SessionIdRoundTrip | session/cache/key.py:11-23 | the id is recovered from a window key if and only if it contains no colon |
| SessionKeys.KeysAreDistinct | session/cache/key.py:6-13 | different sessions have different keys, and no window key is an activity key |
| SessionKeys.SplitAfter | session/cache/key.py:21-23 | splitting at a separator gives the first part and then the parts of the rest |
| SessionWorld.HarvestedOnce | session/memory_service.py:38-55 | the harvested sessions are exactly the listed ones with a live non-empty window, each once, even if the scan repeats an id |
| SessionWorld.HarvestRemoves | session/memory_service.py:38-55 | a completed harvest removes the listed windows and nothing else |
| SessionWorld.HarvestRemembers | session/memory_service.py:38-55 | a completed harvest appends one memory per harvested window, with the owner and messages of that window, in order |
| SessionWorld.HarvestStopsAtFailure | session/memory_service.py:38-55 | a harvest that fails, while summarising or while deleting, did exactly the harvest of the ids before the failing one and at most wrote the memory of that one; its window and all not yet visited are still cached unchanged |
| SessionWorld.HarvestPassIsExact | session/cache/repository.py:31-41 | with a complete key scan, a completed pass turns every expired non-empty window, and no other, into exactly one memory and removes exactly the expired windows |
| SessionWorld.SyncOneMore | session/memory_service.py:57-72 | refreshing one more session changes only that session's window and activity key |
| SessionWorld.TurnAnswersFromWindow | session/service.py:76-129 | told by the fields: when a turn is answered; that its history is exactly the live non-empty window, else exactly the stored messages; and the whole state after it: window, both lifetimes, stored message and modification time |
| SessionWorld.FailedTurnLeavesMessage | session/service.py:97-108 | a turn on a stored session that fails after its save leaves the message, its date and just the keys set before the failure; a refused one leaves everything |
| SessionWorld.FailedFirstTurnLeavesStore | session/service.py:97-108 | a first turn that fails anywhere, before or after its save, and whose rollback gets through leaves the stored sessions and memories as they were; its window stays exactly if it was cached before the failure |
| SessionWorld.UnrolledSessionStays | session/service.py:105-108 | a failed first turn whose rollback does not get through leaves its session, with the message if that was saved |
| SessionBackend.Backend.CreateSession | session/database/repository.py:77-90 | refuses a user that does not exist; else stores an empty session of the user, updated now, and touches nothing else |
| SessionBackend.Backend.SaveMessage | session/database/query.py:69-78 | appends the message and dates the session with it; a missing session is left missing |
| SessionBackend.Backend.UpdateName | session/database/query.py:81-83 | moves the modification time of an existing session to now |
| SessionBackend.Backend.DeleteSession | session/database/query.py:86-88 | deletes the session only while it has at most one message |
| SessionBackend.Backend.GetWindow | session/cache/repository.py:43-62 | the stored window strictly before its expiry, nothing after |
| SessionBackend.Backend.SetWindow | session/cache/repository.py:64-82 | stores the window with a lifetime of twice the inactivity period |
| SessionBackend.Backend.SetActivity | session/cache/repository.py:84-87 | sets the activity key with the given lifetime |
| SessionBackend.Backend.DeleteWindow | session/cache/repository.py:89-92 | removes exactly that window |
| SessionBackend.Backend.ConversationMessages | session/service.py:114-120 | the messages of the live non-empty window exactly as cached, even of a session that is gone; without one, all stored messages of a session that is there |
| SessionBackend.Backend.RefreshWindow | session/service.py:122-129 | caches history plus message, then restarts the activity period; a failure of either access leaves exactly what came before it |
| SessionBackend.Backend.Validate | session/service.py:131-149 | refuses a missing session, one with 50 or more messages and one of another user, in this order |
| SessionBackend.Backend.TakeTurn | session/service.py:64-103 | the steps of a turn on a session that is there do all accesses of the model up to the first refusal or failure |
| SessionBackend.Backend.SendMessage | session/service.py:46-112 | one whole turn does what the turn of the model says, with refusals, failures at any access and the rollback of a new session; an answered turn on a stored session used the live non-empty window, else the stored messages, and cached what it used with the reply |
| SessionBackend.Backend.ListExpiredWindows | session/cache/repository.py:31-41 | the scan loop lists the ids whose activity key is gone |
| SessionBackend.Backend.HarvestExpiredWindows | session/memory_service.py:38-55 | the harvesting loop does the harvest of the model, with failures while summarising and between writing the memory and deleting the window |
| SessionBackend.Backend.SyncSession | session/memory_service.py:61-72 | rebuilds one session's window and activity key from its stored messages and skips an empty session |
| SessionBackend.Backend.SyncWindow | session/memory_service.py:61-69 | the first of the two accesses of a refresh sets the window derived from the stored messages |
| SessionBackend.Backend.SyncRecentSessions | session/memory_service.py:57-72 | refreshing the recent sessions in any order, with repetitions, gives the one synced state; when it fails part-way, the one of the sessions done so far, and of the window of the failing one |
| SessionBackend.Backend.RunPass | session/memory_service.py:33-36 | harvest first, refresh only if it completed, with a failure at any place |
| SessionRuns.WindowsAgreeWithHistory | session/service.py:114-129 | in every run of turns and passes, failing anywhere, in which no turn saves past a live window without caching: derive(stored) is a suffix of the cached window and the window a suffix of stored, with the same owner, for all timestamps |
| SessionRuns.AgreementIffAlwaysCached | session/service.py:97-98 | windows agree like this at every moment of a run if and only if no turn does that |
| SessionRuns.SavingPastFitsIff | session/service.py:97-98 | such a turn leaves a window that is still a suffix if and only if the window held no other message than the one saved |
| SessionRuns.StepKeepsGuardIff | session/memory_service.py:57-79 | one turn or pass with any failures keeps windows, activity keys, modification times and the last pass in the relation that saves every window, if and only if it is no turn that exposes its window: one that saves a message dated before the last completed pass and fails to renew an activity key that lasts too long |
| SessionRuns.ExposingMovesBack | session/database/query.py:69-78 | such a turn always moves the modification time of its session back |
| SessionRuns.ActivityDiesInTime | session/memory_service.py:74-79 | the activity key set by a refresh dies at most one period after now or after the modification time, in spite of truncation and the floor of one second |
| SessionRuns.ActivityTtlIsWholeSeconds | session/memory_service.py:74-79 | the lifetime of an activity key is the remaining whole seconds of the period, but at least one |
| SessionRuns.PassRefreshesRecentWindows | session/memory_service.py:57-72 | right after a completed pass the window of every recently updated non-empty session is live for two periods, its owner's and equal to derive(stored), and its activity key lasts the whole seconds left of the period, but at least one |
| SessionRuns.CachedWindowsAreLive | session/cache/repository.py:18-21 | while completed passes are at most one period apart and no turn exposes a window, no cached window has outlived its lifetime |
| SessionRuns.StepKeepsOrRemembers | session/memory_service.py:38-55 | one event keeps a live window, overwrites it, or makes a memory of it before it expires |
| SessionRuns.NoWindowIsLost | session/memory_service.py:33-79 | while completed passes are at most one inactivity period apart and no failing turn exposes a window, wherever turns and passes fail: a cached window value is at any later moment still readable, or overwritten, or has become a memory strictly before its key expired; no assumption about future modification times is needed |
| SessionRuns.LongerSpacingLosesAWindow | session/memory_service.py:74-79 | that spacing is the largest possible: with one microsecond more there is a run that loses a window |
| SessionRuns.FailingTurnLosesAWindow | session/service.py:97-98 | a run with timely passes in which a turn that fails after its save exposes a window and the window is lost |
| SessionLosses.NothingCanExpireIffNeverExposed | session/memory_service.py:33-79 | over whole runs with timely passes: at no moment can a cached window expire before it is set anew or harvested, in any continuation without turns, if and only if no turn exposes a window |
| SessionLosses.SlippingWindowExpires | session/memory_service.py:57-79 | a window whose activity key reaches into its last period, past the next pass that would refresh it, does expire in some continuation with timely passes |
| TurnProtocol.EveryInterleavingIsTruthful | session/service.py:76-129 | under every interleaving, failure and expiry of the single accesses of turns and passes: for each session still stored, cached windows, memories and the histories held by turns in flight belong to its owner and are order-preserving subsequences of its stored messages, each place used at most once |
| TurnProtocol.StepGrows | session/database/query.py:69-88 | stored sessions only gain messages, never change owner, and never come back once deleted |
| TurnProtocol.StepStaysTruthful | session/service.py:46-129 | every single access keeps the property of the first row |
| TurnWindows.StepKeepsFitIff | session/service.py:76-129 | one access of any turn or pass keeps the cached window a suffix of the stored messages of a session that stays, if and only if it does not save past a window with another message, nor cache a history that is no longer last, nor refresh with a derived window that is no longer last |
| TurnWindows.SuffixIffSaves | session/service.py:122-129 | a history that was a suffix, with a message, is a suffix of what is stored later if and only if it is one of the history followed by the saves in between |
| TurnWindows.OnlyOwnSaveFits | session/service.py:97-98 | with messages all different, that is if and only if nothing was saved after the message, and nothing before it unless the history was empty |
| TurnWindows.CachedWindowFitsIffSaves | session/service.py:76-129 | in any interleaving the window that a turn caches is a suffix of the stored messages if and only if its history and message end its history and the messages saved since it read that history |
| TurnWindows.UndisturbedWindowIsSuffix | session/service.py:76-129 | in any interleaving in which, on one session, no turn overlaps another turn or a refresh between its read and its caching, and none dies between its save and its caching past an older window: the cached window is a suffix of the stored messages whenever no turn stands between its save and its caching |
| TurnWindows.DeathLeavesFitIff | session/service.py:97-98 | a turn that dies between its save and its caching leaves a suffix if and only if the older window held no other message |
| TurnLimits.SessionSizeIsCapped | session/service.py:136-140 | with at most k turns in flight on a session its stored length never exceeds 49 + k |
| TurnLimits.HistoryIsNeverDeleted | session/database/query.py:86-88 | in any interleaving a session that ever held two messages stays, and its messages only grow at the end |
| TurnLimits.RollbackLeavesWindowIff | session/service.py:97-108 | from any state, a first turn that fails after any number of its accesses and is rolled back leaves the stored sessions exactly as they were; its window stays if and only if it failed after caching it, and its activity key if and only if after setting that |
| TurnLimits.UnissuedIsUnused | session/database/repository.py:77-90 | after any run, an id that the database never gave has neither a session nor a window, so the previous row holds for every new session in every reachable state |
| TurnLimits.RollbackCanLeaveTheWindow | session/service.py:98-108 | a run in which a rolled back new session leaves its window cached |
| TurnLimits.WindowCanSkipASavedMessage | session/service.py:97-98 | a run in which a turn that dies between saving and caching leaves a window that is not a suffix of the stored messages |
| TurnLimits.OverlappingTurnsSkipASavedMessage | session/service.py:76-129 | a run without any failure in which two overlapping turns do the same |
| TurnAtomic.UninterruptedTurnIsWhole | session/service.py:46-129 | a turn whose single accesses nothing interrupts, from any state of the interleaved model, ends in the state of the whole turn, answered or refused, on a stored or a new session |
| TurnAtomic.UninterruptedHarvestIsVisit | session/memory_service.py:40-55 | so does the work of a pass on one expired window: memory first if it is not empty, then no window |
| TurnAtomic.UninterruptedRefreshIsSync | session/memory_service.py:61-72 | so does the refresh of one session: the derived window, then the activity key |
| McpSession.EveryRunIsOrderly | cmd/api/integrations/mcp/mcp_session.py:61-200 | any number of threads, any order: all invariants below hold together in every reachable state |
| McpSession.EveryLoopHasOneHolder | cmd/api/integrations/mcp/mcp_session.py:61-84 | every loop ever created is exactly one of published, held by the starter under the lock, held by one closer, or stopped exactly once; the published loop, thread, tools and keeper are of one generation |
| McpSession.TransferMovesOneLoop | cmd/api/integrations/mcp/mcp_session.py:64-82 | publishing, taking and stopping move exactly one loop from one holder to the next |
| McpSession.CallsAreBounded | cmd/api/integrations/mcp/mcp_session.py:86-121 | over whole runs, the tools a thread handed to a loop since its call began are at most two, at most one per attempt, and none went to a loop older than the tool |
| McpSession.InvocationsAreCounted | cmd/api/integrations/mcp/mcp_session.py:105-121 | the count kept by a call is the number of its invocations among the events of the run since it began |
| McpSession.TimeoutIsFinal | cmd/api/integrations/mcp/mcp_session.py:112-121 | after a timeout the call raises without another invocation |
| McpSession.ClosingMatchesIfKeeperWasLast | cmd/api/integrations/mcp/mcp_session.py:184-192 | the published closing event belongs to the published session if and only if no keeper of another generation began, with effect, after its own |
| McpSession.TimelyKeepersMatch | cmd/api/integrations/mcp/mcp_session.py:152-173 | it always does when every keeper begins while its own start still waits |
| McpSession.LateKeeperTakesOverClosing | cmd/api/integrations/mcp/mcp_session.py:157-192 | a run in which the keeper of a timed out start begins late and its closing event is published with the next session |
| McpClosing.StoppedLoopsWereSignalled | cmd/api/integrations/mcp/mcp_session.py:61-80 | in any interleaving, before a closer stops a loop it took that loop while published and set the closing event published with it; that event is the loop's own, so its own keeper is told to end, if and only if no other keeper had begun after its own by then |
| McpClosing.TimelyKeepersAreTold | cmd/api/integrations/mcp/mcp_session.py:61-80 | when every keeper begins while its start waits, every loop a closer stops has had its own keeper told to end first |
| McpClosing.OnlyTakenEventsAreSet | cmd/api/integrations/mcp/mcp_session.py:64-72 | every closing event ever set was set by a closer that took it, with a loop, from the published session |
| McpClosing.OnlyTakenKeepersAreTold | cmd/api/integrations/mcp/mcp_session.py:64-72 | when every keeper begins while its start waits, only keepers of sessions that were published and taken are told to end |
| McpClosing.LateKeeperIsToldInstead | cmd/api/integrations/mcp/mcp_session.py:157-192 | a run in which a closed loop is stopped, the abandoned keeper is told to end and the loop's own keeper never is |
| McpSession.QuietSessionLeaksNoLoop | cmd/api/integrations/mcp/mcp_session.py:61-84 | whenever no thread is inside the session, every loop but the published one was stopped exactly once |
| McpClient.PersistentSession.EnsureStarted | cmd/api/integrations/mcp/mcp_session.py:135-173 | keeps an open session; otherwise publishes a new loop with its own closing event, or leaves none behind that is not stopped |
| McpClient.PersistentSession.OpenSession | cmd/api/integrations/mcp/mcp_session.py:157-173 | inside the lock: the keeper begins, and the loop is published when it gets ready and stopped when it does not |
| McpClient.PersistentSession.RunTool | cmd/api/integrations/mcp/mcp_session.py:105-121 | a tool runs on the loop found, a missing loop is a failed connection, and a timeout closes the session |
| McpClient.PersistentSession.Close | cmd/api/integrations/mcp/mcp_session.py:61-84 | takes all five fields, sets the closing event it took, which is the own one of its loop, and stops the loop it took once |
| McpClient.PersistentSession.CallTool | cmd/api/integrations/mcp/mcp_session.py:86-103 | the retry loop: at most two attempts, the second only after a failed connection, with the exact result and number of invocations for every course of both; its steps are a run of the shared session |
| Base64Url.DecodeUndoesEncode | oauth/token.py:25-33 | unpadded base64url decoding undoes encoding for every byte sequence (section 5 of RFC 4648) |
| Base64Url.Encode | oauth/token.py:25-27 | the encoded text contains neither padding nor a dot, so it can be framed with dots (section 7.1 of RFC 7515) |
| Base64Url.ScanWholeGroup | oauth/token.py:30-33 | the decoder reads back a full group of three bytes and goes on with the rest |
| Base64UrlBits.EncodeSpellsBits | oauth/token.py:25-27 | the encoded text has one character for every six bits, the last filled up with zeros, and the k-th is the character of the URL-safe table for bits 6k to 6k + 5 of the bytes (section 5 of RFC 4648) |
| Base64UrlBits.EncodeIsUrlSafe | oauth/token.py:25-27 | the encoded text holds letters, digits, minus and underscore and nothing else |
| Base64UrlBits.DecoderReadsAlphabet | oauth/token.py:30-33 | the decoder reads each character of the table as its position, plus and slash as the last two, and refuses text outside ASCII |
| AccessToken.DecodeUndoesEncodeToken | oauth/token.py:41-128 | decoding an encoded token gives exactly its user and company at every time before its expiry if both are positive, and is refused from then on or otherwise |
| AccessToken.EncodedTokenIsAuthentic | oauth/token.py:41-74 | an encoded token frames, under this server's signature, a payload of exactly the seven claims, with the given lifetime if it is positive and the default otherwise |
| AccessToken.AcceptsExactlyAuthenticTokens | oauth/token.py:95-128 | a token is accepted for a user and a company if and only if it frames a payload with this server's signature that names the issuer, the audience, the scope, them, and an expiry still to come |
| AccessToken.EqualTokensExpireTogether | oauth/token.py:41-74 | two tokens are equal if and only if they were made in the same second for the same user, company and lifetime |
| AccessToken.ParseUndoesPrint | oauth/token.py:83-87 | the decimal text of a number is read back as that number |
| AccessToken.ChallengeSpellsDigest | oauth/token.py:36-38 | the S256 challenge of a verifier spells the bits of its digest, and exactly the verifiers outside ASCII have none |
| AccessToken.PrintedClaim | oauth/token.py:77-92 | the subject claim of an encoded token is accepted exactly when the user is positive |
| AccessToken.ChallengeIdentifiesDigest | oauth/token.py:36-38 | two verifiers have the same S256 challenge if and only if they have the same digest (section 4.6 of RFC 7636) |
| AccessToken.FramedParts | oauth/token.py:97-100 | a framed token splits back into its three parts |
| OAuthFlow.MatchesSomeName | oauth/service.py:24-30 | the client and redirect patterns accept exactly the addresses with a name of letters, digits, minus and underscore in the open place |
| OAuthFlow.OneTokenPerCode | oauth/cache/repository.py:19-27 | in any interleaving of exchanges, failures and expiry an authorization code yields at most one access token (section 4.1.2 of RFC 6749) |
| OAuthFlow.PopBurnsCode | oauth/service.py:160-164 | every redemption that reaches the code store burns the code for good, whether or not it succeeds |
| OAuthFlow.TokensAreBound | oauth/service.py:160-193 | a token is minted only from a code stored by a successful sign-in, redeemed after it but less than a code lifetime later, by the client and at the redirect it was bound to, for this server, with a verifier of its S256 challenge and a stored secret that decrypts |
| OAuthFlow.StoredCodesAreDated | oauth/cache/repository.py:14-17 | over whole runs every stored code was stored by one sign-in and expires exactly a code lifetime after it |
| OAuthFlow.EveryExchangeIsLegitimate | oauth/service.py:150-205 | in every reachable state every exchange in flight comes from such a sign-in and redemption, with a positive lifetime and the token of its own fields |
| OAuthFlow.CodesAreHeldOnce | oauth/cache/repository.py:14-27 | a code is never both stored and in an exchange, and never in two exchanges |
| OAuthGate.SessionsAreLastSaves | oauth/cache/session_repository.py:14-31 | over whole runs a token has a session exactly when it was saved and not revoked since, and it is the session of its last save |
| OAuthGate.UnrevokedSessionIsLive | oauth/service.py:185-201 | while a token is not revoked its session key does not expire before the token does |
| OAuthGate.GateForwardsExactlyStandingTokens | cmd/api/acl/mcp_auth.py:96-134 | over whole runs the gate forwards a call that needs an identity as a given user if and only if its token was minted for that user by an exchange, saved and not revoked since, is not expired, its stored secret still decrypts, and the sign-in service still knows that user behind it |
| OAuthGate.BoundUserSignedIn | cmd/api/acl/mcp_auth.py:110-134 | the user bound by the gate is the one whose sign-in stored the code behind the token |
| OAuthGate.CallsWithoutTokenAreRefused | cmd/api/acl/mcp_auth.py:92-105 | with any token or none exactly the calls that need no identity pass without one; without a token no call is forwarded; and when the gate answers with a server error |
| OAuthServer.Server.SaveCode | oauth/cache/repository.py:14-17 | stores the document under the code for the code lifetime |
| OAuthServer.Server.PopCode | oauth/cache/repository.py:19-27 | returns the document strictly before its expiry and removes the code in one access |
| OAuthServer.Server.SaveSession | oauth/cache/session_repository.py:14-17 | stores the session for the lifetime of its token |
| OAuthServer.Server.GetSession | oauth/cache/session_repository.py:19-27 | the session strictly before its expiry, if its stored secret decrypts |
| OAuthServer.Server.DeleteSession | oauth/cache/session_repository.py:29-31 | removes exactly that session |
| OAuthServer.Server.Authorize | oauth/service.py:88-148 | stores a code, for the code lifetime and with the identity, secret, client, redirect, challenge and first positive lifetime, exactly when the parameters are accepted and the sign-in succeeded, and changes nothing else |
| OAuthServer.Server.ValidateParameters | oauth/service.py:63-78 | accepts exactly S256 requests of an accepted client, redirect and resource |
| OAuthServer.Server.FindLifetime | oauth/service.py:35-41 | the first positive lifetime of the login answer, else the default |
| OAuthServer.Server.Exchange | oauth/service.py:150-205 | an exchange that runs alone is its pop, mint and save; it answers if and only if the code has not expired and client, redirect, challenge and resource match, and then stores the session of the grant for the lifetime of its token |
| OAuthServer.Server.RevokeToken | oauth/service.py:207-211 | removes the session of the token and nothing else |
| OAuthServer.Server.Admit | cmd/api/acl/mcp_auth.py:96-134 | the gate decides what the model's gate decides, branch by branch |
| OAuthServer.ExchangeSaves | oauth/service.py:182-205 | a successful exchange burns the code and saves one session that ends with the token |
| OAuthServer.SignInYieldsToken | oauth/service.py:88-205 | whatever happened before, a sign-in redeemed by its own client and verifier yields a token if and only if its code's lifetime is not over |
| OAuthServer.TokenWorksUntilItExpires | cmd/api/acl/mcp_auth.py:96-134 | the token of an exchange passes the gate at every later time before the second it expires and at none from then on |
| OAuthServer.ReadBody | cmd/api/acl/mcp_auth.py:71-90 | a body is accepted exactly when neither its declared nor its real length exceeds 1 MiB, and then it is the concatenation of its chunks; either way all of it is consumed and nothing after it |
| OAuthServer.BufferBody | cmd/api/acl/mcp_auth.py:182-199 | the buffering loop, including the drain after the limit |
| OAuthServer.DrainBody | cmd/api/acl/mcp_auth.py:171-179 | the draining loop stops right after the last message of the body |
| OAuthServer.BodyIsWhole | cmd/api/acl/mcp_auth.py:182-199 | every byte of the body is at its place: message after message, each message's bytes in order |
| OAuthServer.BodyEndsAt | cmd/api/acl/mcp_auth.py:171-199 | the body takes the messages up to the first that says there is no more |
| SignInLimiter.LifeAllowsCap | oauth/rate_limit.py:10-23 | in any interleaving of the two accesses of any number of attempts, one counter life allows exactly its first cap attempts |
| SignInLimiter.CountsAreUsedOnce | oauth/rate_limit.py:10-15 | the attempts of one life get the counts 1, 2, 3, ... each once |
| SignInLimiter.EveryRunIsSane | oauth/rate_limit.py:10-15 | lives of one email follow each other without overlap and last exactly one window unless they have no expiry |
| SignInLimiter.IntervalAllowsLessThanTwiceCap | oauth/rate_limit.py:18-23 | in any half-open interval of one window length at most 2 * cap - 1 attempts are allowed |
| SignInLimiter.TwiceCapLessOneIsReached | oauth/rate_limit.py:18-23 | that bound is reached for every cap and window |
| SignInLimiter.ImmortalIffLateIncrement | oauth/rate_limit.py:12-15 | a counter ends up without an expiry if and only if some attempt incremented it after it had expired since that attempt saw it |
| SignInLimiter.LockoutCanHappen | oauth/rate_limit.py:12-15 | such a run exists for every cap and window and locks the email out |
| SignInLimiter.LockoutNeverEnds | oauth/rate_limit.py:18-23 | from then on every attempt of that email is refused, however long one waits |
| SignInLimiter.OneWindowAlwaysRecovers | oauth/rate_limit.py:10-15 | without a late increment, waiting one window always makes the next attempt the first of a new life |
| SignInLimiter.Limiter.SetIfAbsent | oauth/rate_limit.py:12-14 | creates the counter with the window lifetime exactly when no live one exists |
| SignInLimiter.Limiter.Incr | oauth/rate_limit.py:15 | adds one and keeps the lifetime, or creates a counter without lifetime |
| SignInLimiter.Limiter.RecordAttempt | oauth/rate_limit.py:10-15 | returns the count of this attempt in its life |
| SignInLimiter.Limiter.AuthorizeRateLimitExceeded | oauth/rate_limit.py:18-23 | records one attempt and refuses it exactly when it is not among the first cap of its life |
| Calculator.EvaluateIsMeaning | cmd/api/tools/calculator.py:58-138 | the evaluator answers v if and only if v is the mathematical meaning of the tree, given by an independent relation with the four function names as written and declarative floor, remainder, minimum, maximum and sum |
| Calculator.ApplyMeans | cmd/api/tools/calculator.py:58-79 | each operator, with the exponent cap and the zero divisors, computes its declarative meaning |
| Calculator.ApplyFunctionMeans | cmd/api/tools/calculator.py:91-117 | abs, min, max and sum compute their declarative meaning and refuse every other shape of arguments |
| Calculator.ApplyLeaves | cmd/api/tools/calculator.py:58-79 | an operator refuses exactly when it has no meaning and does not leave the integers for a fraction |
| Calculator.ApplyFunctionLeaves | cmd/api/tools/calculator.py:91-117 | a function refuses exactly when it has no meaning and its answer would not be a list or a fraction |
| Calculator.QuotientIsFloor | cmd/api/tools/calculator.py:70 | floor division is the largest integer at most the quotient, for both signs of the divisor |
| Calculator.RemainderMeans | cmd/api/tools/calculator.py:70 | the remainder has the sign of the divisor, is smaller, and differs from the dividend by a multiple |
| Calculator.LeastMeans | cmd/api/tools/calculator.py:107-110 | the smallest argument is an argument and below all others |
| Calculator.GreatestMeans | cmd/api/tools/calculator.py:107-110 | the largest argument is an argument and above all others |
| Calculator.PowerMultiplies | cmd/api/tools/constants.py:18-25 | a power is a product of as many factors as the exponent says |
| CalculatorOutcomes.LeavesIffDeparts | cmd/api/tools/calculator.py:58-138 | the evaluator leaves the integers if and only if evaluation from left to right reaches a fraction, a negative power, a fractional function or a list for an answer, with everything before it meaning something |
| CalculatorOutcomes.OutcomeIsExact | cmd/api/tools/calculator.py:58-138 | for every expression: answered with v if and only if it means v, outside if and only if it leaves the integers, refused if and only if it does neither |
| CalculatorOutcomes.PlainIsAnsweredOrRefused | cmd/api/tools/calculator.py:120-138 | expressions of integers without fractional operations, with exponents built from parts that are not negative, are always answered or refused, and refused if and only if the tree has no meaning |
| CalculatorBounds.AnswerFits | cmd/api/tools/calculator.py:64-68 | every answer is below 10^((d + p) * E^p) in magnitude, with d the decimal digits and p the powers of the expression and E the exponent cap |
| CalculatorBounds.FunctionWithinMass | cmd/api/tools/calculator.py:107-117 | no function answers more than its arguments sum up to in magnitude |
| CalculatorBounds.QuotientShrinks | cmd/api/tools/calculator.py:70 | quotient and remainder are no larger than dividend and divisor |
| PlanIndex.RunsStayConsistent | improvement_plan/service.py:80-132 | over any run of reports that file their answers, with analysis, store and index free to fail: one plan per inventory, no plan lost, no company changed once set, every index row backed by a stored plan of its company |
| PlanIndex.EveryRunIsConsistent | improvement_plan/service.py:80-132 | in particular from the empty collections |
| PlanIndex.ReportKeepsOrderIffFiled | improvement_plan/service.py:80-132 | one report keeps all of that if and only if it does not file the answer under a wrong plan, a condition on the named inventory and what is stored there |
| PlanIndex.EchoedRunsAreFiled | improvement_plan/service.py:186-190 | reports whose analysis names the inventory it was asked about always qualify |
| PlanIndex.UnechoedReportDuplicatesPlan | improvement_plan/service.py:115-119 | two reports, one answered with the wrong inventory, leave two plans for one inventory |
| PlanIndex.HydrationDropsNothing | cmd/api/integrations/mcp/chroma_mcp.py:233-249 | after such a run, hydrating any answer of a company-filtered query drops no hit and returns the plans of the hits, in order |
| PlanIndex.HydrationStaysInCompany | cmd/api/integrations/mcp/chroma_mcp.py:233-249 | whatever the hits, only plans of the asking company come out |
| PlanIndex.IndexFollowsLastReport | improvement_plan/service.py:122-132 | the index row of an inventory is that of its last stored plan when that report was indexed, and untouched by it otherwise |
| PlanIndex.FindIsFirst | improvement_plan/database/repository.py:15-32 | find_one finds a plan exactly when there is one for the inventory |
| PlanIndex.FirstIsFound | improvement_plan/database/repository.py:15-32 | what find_one finds is the first plan of the inventory |
| PlanIndex.FindReplaced | improvement_plan/database/repository.py:46-53 | replace_one changes what is found under its own inventory and nothing else |
| PlanIndex.PlanService.GetByIdExternalInventory | improvement_plan/database/repository.py:15-32 | the first stored plan of the inventory, if any |
| PlanIndex.PlanService.Create | improvement_plan/database/repository.py:35-43 | appends the plan |
| PlanIndex.PlanService.Replace | improvement_plan/database/repository.py:46-53 | replaces the first plan of the same inventory and nothing when there is none |
| PlanIndex.PlanService.UpsertProblem | cmd/api/integrations/mcp/chroma_mcp_server.py:133-152 | sets the one row of the inventory |
| PlanIndex.PlanService.InputInventory | improvement_plan/service.py:39-143 | one report has exactly the effect and the result of the model; told by the fields, when each refusal happens, and that the plan and the index row hold the inventory, problem and details of the analysis and the company of the report |
| PlanIndex.PlanService.HydratePlans | cmd/api/integrations/mcp/chroma_mcp.py:233-249 | the hydration loop returns the documents of the hits with a plan of the company |
| UploadTickets.StageTellsContents | upload_ticket/service.py:77-93 | in any interleaving a ticket waits if and only if it has no path and is consumed if and only if it has an inventory |
| UploadTickets.OwnersNeverChange | upload_ticket/service.py:136-149 | in any interleaving a ticket keeps its owner |
| UploadTickets.EveryPathWasConfirmed | upload_ticket/service.py:70-93 | in any interleaving the path of a ticket is one that a confirmation of that ticket gave, at an address found to be allowed |
| UploadTickets.StepAdvancesIffNotOver | upload_ticket/service.py:77-123 | a step moves every ticket only forward, keeping a set path and inventory, if and only if it does not write over work done since its call read the ticket |
| UploadTickets.TicketsOnlyAdvance | upload_ticket/service.py:70-124 | over runs without such a write tickets only move from waiting to uploaded to consumed, and path and inventory are set once |
| UploadTickets.UninterruptedCallsAreFresh | upload_ticket/service.py:70-124 | calls that run one after another never make such a write |
| UploadTickets.ConcurrentConfirmationsReplacePath | upload_ticket/service.py:77-93 | two confirmations that both saw the ticket waiting replace its path |
| UploadTickets.StepListsIffNotStranding | upload_ticket/service.py:99-134 | a step keeps every live consumed ticket listed or about to be, if and only if it is not the death of a call that was the last to hold an append some ticket still needs |
| UploadTickets.LiveConsumedTicketIsListed | upload_ticket/cache/repository.py:61-72 | in any interleaving in which no call dies as the last to hold an append still needed, the inventory of a live consumed ticket is in its owner's live list or about to be |
| UploadTickets.EveryConsumedIsListed | upload_ticket/cache/repository.py:15-72 | over whole runs, in any interleaving: every live consumed ticket always is listed or about to be, no list expiring before it, if and only if no such call ever dies |
| UploadTickets.DyingCallLosesInventory | upload_ticket/service.py:122-123 | a call that dies between its two writes leaves a consumed ticket whose inventory no list records |
| UploadTickets.TicketService.CreateTicket | upload_ticket/service.py:40-63 | a waiting ticket for an accepted file type, nothing otherwise |
| UploadTickets.TicketService.LoadTicket | upload_ticket/service.py:136-149 | the user's own live ticket, not consumed unless allowed |
| UploadTickets.TicketService.ConfirmPath | upload_ticket/service.py:70-93 | an uninterrupted confirmation is its read and its write: told by the fields, when it is accepted, and that the ticket then has the given path and nothing else changed |
| UploadTickets.TicketService.MarkConsumed | upload_ticket/service.py:99-124 | an uninterrupted consumption is its read, write and append: told by the fields, when it is accepted, that the ticket then has the given inventory, and that it is listed |
| UploadTickets.TicketService.RecordCreatedInventory | upload_ticket/service.py:130-134 | appends to the list of the user |
| UploadTickets.TicketService.AppendCreatedId | upload_ticket/cache/repository.py:61-72 | appends to the live list or starts a new one, and renews its lifetime |
| UploadTickets.TicketService.GetCreatedIds | upload_ticket/cache/repository.py:52-59 | the ids of the live list |
| UploadTickets.TicketService.Save | upload_ticket/cache/repository.py:15-31 | stores the ticket with a fresh lifetime |
| Prices.LookupRates | aeko_metrics/prices.py:26-48 | the scan over the rows finds the rates of the model: input and output of the row of the exact name, else of the normalized name, else of the first longest related row, else zero |
| Prices.LookupIsCharged | aeko_metrics/prices.py:17-48 | the rates of a model, told by the rows alone |
| Prices.LongestIsFirstLongest | aeko_metrics/prices.py:36-46 | the scan ends with row k if and only if it is related, none is longer and none before it is as long; with none if and only if none is related |
| Prices.NormalizeTakesLastName | aeko_metrics/prices.py:9-14 | the normalized id is what follows the last slash of the stripped id in lower case |
| Prices.LowerMapsLetters | aeko_metrics/prices.py:11 | each capital becomes its small letter and nothing else changes |
| Prices.EnrichPrices | aeko_metrics/prices.py:51-76 | the loops over the configured models and over the rows compute the enriched table |
| Prices.EnrichKeepsRows | aeko_metrics/prices.py:51-76 | enriching keeps every row in place and adds at most the two configured names |
| Prices.EnrichKeepsConfiguredRates | aeko_metrics/prices.py:58-64 | a configured model that had non-zero rates has the same rates afterwards |
| Prices.EnrichIsIdentityIff | aeko_metrics/prices.py:51-76 | enriching changes nothing if and only if no configured model without a row has a name akin to that of some row |
| Prices.AliasIffAdopts | aeko_metrics/prices.py:55-74 | a configured model gets a row of its own if and only if it has none and some row is akin to it by name |
| Prices.AliasTakesRates | aeko_metrics/prices.py:58-74 | the row a configured model gets has the rates the table gave the model before, and if those are zero, the entry of the first row akin to it |
| Prices.PresentModelsNeedNoEnriching | aeko_metrics/prices.py:55-57 | in particular when every configured model has a row |
| Prices.EnrichTwiceIff | aeko_metrics/cost.py:20 | enriching the loaded table again adds a row if and only if one configured model adopted a row of the loaded table, the other has none there and nothing akin, and the two names are akin |
| Prices.EnrichTwiceCanAdd | aeko_metrics/cost.py:20 | a table for which the second enrichment adds a row |
| Prices.NormalizedNameIsRelated | aeko_metrics/prices.py:9-48 | a row found under the normalized name is also found as a related row: normalizing twice gives a part of normalizing once |
| Text.StripLeavesNothing | aeko_metrics/prices.py:11 | stripping leaves nothing to strip |
| Text.StripTakesMiddle | aeko_metrics/prices.py:11 | stripping takes the white space off both ends and nothing else |
| Costs.RatesForAgentLlm | aeko_metrics/cost.py:6-15 | the loop returns the rates of the first priced model, else of the first |
| Costs.FirstPricedModelCounts | aeko_metrics/cost.py:6-15 | the first model with non-zero rates decides, and there is none exactly when all are free |
| Costs.AgentCostPerToken | aeko_metrics/cost.py:18-26 | an input token costs the input rate, an output token the output rate, and no tokens cost nothing |
| Costs.FirstListedModelDecides | aeko_metrics/cost.py:6-15 | models are listed between commas: a priced first one decides, blank ones do not count, and an unpriced first one leaves it to the others if they are priced |
| Costs.CostUsd | aeko_metrics/cost.py:18-26 | the recorded cost is the exact token cost to within half a micro-USD |
| Costs.Round | aeko_metrics/cost.py:26 | rounding is off by at most one half |
| Costs.RoundKeepsWhole | aeko_metrics/service.py:51-58 | rounding what is already whole micro-USD changes nothing, so rounding each user and the total of them loses nothing |
| Costs.TotalsByUser | aeko_metrics/service.py:44-50 | the dictionary has one entry per user with the sum of that user's costs |
| Costs.SortedIsInOrder | aeko_metrics/service.py:51-54 | the sorted users ascend and are the same entries |
| Costs.TalliesAddUp | aeko_metrics/service.py:55-58 | per-user totals add up to the recorded costs of the runs with a user |
| Costs.BreakdownIsUnique | aeko_metrics/service.py:51-54 | the metrics determine the list of users and costs |
| Costs.CompanyCostOf | aeko_metrics/service.py:28-58 | users are distinct, sorted and complete, and the total is both their sum and the sum of recorded costs |
| Costs.TotalIsNearExact | aeko_metrics/service.py:44-58 | the total is off the exact token cost of its n counted runs by at most n/2 micro-USD |
| Costs.CompanyCostOfRuns | aeko_metrics/service.py:28-58 | the same for the answer of the service |

## Left out

- Routers, request models, HTML, OpenAPI documents and lifespan wiring: no state of their own.
- HTTP clients, address checks of uploads and redirects beyond their verdict: the verdict is a parameter.
- The SDK, embeddings and the ranking of the index: a query answers with any rows of the company.
- AES-GCM, HMAC and SHA-256 internals and their strength: functions given as parameters; keys by digest
  are modelled by what is digested, so two codes or tokens with one digest are not modelled.
- JSON and ISO dates: the payload round trip is assumed of the JSON functions given as parameters.
- Random codes and ticket names: a name that was drawn before is never drawn again.
- Binding and resetting the caller's identity around a forwarded request, and replaying its body.
- Logging, metrics, request ids, session names and the texts of errors.
- Sessions without a Redis client, and different inactivity settings of API and worker.
- A session without a modification time (session/memory_service.py:76): the store always writes one.
- Window keys of sessions whose id has a colon: `SessionKeys.SessionIdRoundTrip` says what happens to the
  key; the session modules identify sessions by their id, since database ids have no colon.
- The clock of the interleaved session model: `TurnProtocol` lets any key expire at any moment, which
  admits more runs than a clock would.
- The interleaved MCP session is modelled as steps on values, because Dafny's methods run one at a time;
  the class runs one caller at a time.
- Recreation of an MCP loop thread after an error inside the loop, and tools that outlive their session.
- AccessToken.AcceptsExactlyAuthenticTokens: claims written in decimal digits outside ASCII, which Python's
  `isdigit` and `int` read as numbers, are refused by the model; the hub itself writes ASCII digits only.
- Sign-in attempts are counted per key; trimming and lower-casing the email is left to the key.
- Calculator: fractions, division, `round`, `log`, `sqrt` and negative exponents leave the integers, and
  the model says nothing about them (`Outside`), nor about what is evaluated after them; Python's limit on
  the decimal text of very large integers and its recursion limit are not modelled.
- Parsing of the calculator's text: the model starts at the parsed tree.
- Concurrent reports on one inventory: reports run one after another.
- An analysis that names no inventory at all, and the shape of the index's answer (`_metadata_row`).
- Prices: letters are put in lower case for ASCII only, and a row is a pair of optional numbers.
- Costs are exact rationals: the rounding of IEEE floats inside sums is not modelled, only the final
  rounding to six decimal places.
- The selection of a company's runs of the last n days: the metrics are a parameter.
