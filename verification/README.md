# Verification of the civic platform's stateful cores

Dafny models of the parts of the platform in which state, interleaving or arithmetic decides whether the code is right,
with proofs about all their runs and inputs. `dafny verify dfyconfig.toml` checks everything.

- **Prompt templates** (`PromptResolver`, `PromptRuns`, `PromptOutcomes`, `PromptVersions`, `PromptCounters`,
  `PromptMemo`, `PromptMetrics`, `Interpolation`).
  A `getTemplate` call goes through a two-level cache over a changing prompt service, a database chain with a memo table,
  and hardcoded templates. `PromptResolver.Segment` is the code a call runs between two awaits. `PromptRuns` interleaves any
  number of calls with edits of the service and the database, clock ticks, evictions, lost and late replies.
  `PromptResolver.PromptClient` is the nested try/catch form of the same code, proved equal to running the segments.
- **Session renewal** (`SessionRenewal`, `SessionOutcomes`, `SessionTokens`, `SessionLinks`). A transition system of one
  browser tab: operations fail, join a single-flight renewal, are retried or cancelled; the user may sign in and out at
  any time; the renewal endpoint consumes every refresh token once, and sets or clears the cookies with its answer; the
  terminal link may redirect. `SessionLinks.BrowserTab` holds the handlers as they mutate the tab; each is proved to be
  one step of the system.
- **Cache and identity** (`IdentityCache`). Sign-in, sign-out, expiry and page loads, with a persistor that may copy memory
  to disk between any two steps of a cache teardown.
- **Flower field** (`FlowerField`). The seeded generator and its full period, by composing its affine powers.
- **Activity feed** (`FeedBatches`, `FeedGroups`). Collapsing runs of look-alike actions and grouping by type, each
  characterised as the only list with the stated properties.
- **Permissions** (`Abilities`, `Placeholders`, `Tokens`). The ordered rule list against an order-free decision, and the
  placeholder rewriter against a token map.
- **Smaller machines**: saving a profile field (`EditableField`), a queue worker's attempts (`JobAttempts`), hydrating the
  environment from the vault by parallel reads (`VaultHydration`).

What the proofs found about the code:

- A successful hash revalidation serves the text the service has now, with the version number of the old fetch
  (`PromptResolver.RevalidationKeepsOldVersion`), and the version stays old however late the call comes
  (`PromptVersions.OldVersionServed`). All versions served are recent exactly when the service publishes no text under
  two versions for one name, or the remote path is not taken (`PromptVersions.VersionsRecentIff`).
- The memo of the database path is keyed by the name alone. The document analysis requests its template with a fallback
  and its hash without one; where only the fallback has a row, the hash is served the fallback's row
  (`PromptMemo.MemoIgnoresTheFallback`; exactly when this can happen: `PromptMemo.MemoAgreesIff`).
- `replacePlaceholders` overwrites the conditions it is given, and the guard gives it the same policies in every request.
  For users whose values have fewer than two opening braces, later requests get the rules of the original policies
  exactly when no placeholder in them resolved for any earlier user (`Abilities.LaterRulesUnaffectedIff`); the policies
  on the user's own id keep the id of the first user (`Placeholders.FirstIdStays`, `Abilities.EverybodyGetsTheFirstId`).
- `interpolate` substitutes again what a value has brought in for a key that comes later
  (`Interpolation.PairExactIff`). For a placeholder without dollar signs, and a text without dollar signs around it or a
  value that does not ask for that text, it inserts the value verbatim exactly when the value has no dollar sequence
  (`Interpolation.InsertedVerbatimIff`).
- Once a renewal's answer is lost after the provider granted it, no later renewal of that session succeeds, and so none
  of the tab until a sign-in brings another refresh token (`SessionTokens.LostGrantForcesExpiry`; exactly when the tab
  can renew at all: `SessionTokens.RenewalPossibleIff`). A sign-in ends this, in the same page load
  (`SessionTokens.SignInRestores`).
- A renewal that is outstanding when the user signs in or out replaces what that has left in the cookies when its answer
  arrives: granted, by the session before, rejected, by nothing (`SessionTokens.AnswerReplaces`). The guard on the auth
  routes keeps renewals from starting there and does not stop one started before (`SessionTokens.SwapIsReachable`). The
  endpoint's comparison of users, whose comment claims to catch this case, sees the cookies of the moment the request
  was sent, and never refuses as long as sign-ins bring refresh tokens (`SessionTokens.ComparisonNeverRefuses`).
- A page load within a teardown, a failing reset and the password login leave another user's data cached, each exactly
  when there was some to leave (`IdentityCache.IrregularStepsAlignedIff`).

## Model

| member | source | states |
|---|---|---|
| PromptRuns.BoundedStaleness | packages/prompt-client/src/prompt-client.service.ts:1432-1469 | In every run with freely interleaved calls, edits, ticks, evictions and lost replies: a text served from the remote path was the service's current text for that name at an instant of the run, and that instant is within one request timeout, within the lifetime advertised with it, or within timeout plus local lifetime of a revalidation. The whole template, version included, was the service's at some instant, and at this one if the service has said no text under two versions for one name. |
| PromptRuns.StalenessBound | packages/prompt-client/src/prompt-client.service.ts:1544-1549 | If the service advertises lifetimes of at most `life`, an answer's age is at most one request timeout, or below the larger of `life` and local lifetime plus timeout; the age of the text always, of text and version if the service has said no text under two versions. Timeout 0 is the case of instantaneous requests. |
| PromptRuns.StepKeepsStaleness | packages/prompt-client/src/prompt-client.service.ts:1441-1469 | Every step of every interleaving keeps the invariant: each cache entry and each entry a running call holds is vouched for by something the service said about that name, until the entry's expiry. |
| PromptRuns.RunKeepsStaleness | packages/prompt-client/src/prompt-client.service.ts:1432-1469 | The invariant holds at the end of every run from an empty cache. |
| PromptRuns.SightingsAreReal | packages/prompt-client/src/prompt-client.service.ts:1475-1542 | Everything a reply reported was the service's published template for that name in an earlier world of the run. |
| PromptRuns.DeliveredHash | packages/prompt-client/src/prompt-client.service.ts:1442-1454 | With a collision-free hash, an equal hash vouches for the held text as of the moment the service answered, however late the reply arrives within the timeout. |
| PromptRuns.FreshEntryIsRecent | packages/prompt-client/src/prompt-client.service.ts:1435-1439 | An entry that is still fresh may be served without a request: what vouches for it is recent. |
| PromptRuns.ProceedEntries | packages/prompt-client/src/prompt-client.service.ts:1451-1467 | What a call writes into the remote cache after its await is vouched for, also when other calls wrote in between. |
| PromptVersions.VersionsRecentIff | packages/prompt-client/src/prompt-client.service.ts:1442-1454 | Over the templates the service may publish: in all runs every template served from the remote path is, version included, one the service has recently said about the name, if and only if it publishes no text under two versions for one name, or the remote path is not taken (not configured, or no API key). The hash is collision-free. |
| PromptVersions.OldVersionServed | packages/prompt-client/src/prompt-client.service.ts:1442-1454 | For any two versions of one text and any instant later than one request timeout, there is a run in which a call at that instant is served the version that the service has had at clock 0 only. |
| PromptVersions.OneVersionSuffices | packages/prompt-client/src/prompt-client.service.ts:1432-1469 | Where no text is published under two versions, every template served from the remote path in every run is a recent one, version included. |
| PromptResolver.RevalidationKeepsOldVersion | packages/prompt-client/src/prompt-client.service.ts:1442-1454 | One call by itself, for the name or for its fallback: after a matching hash it returns the service's text with the version of the earlier fetch, which is the service's template exactly when the two versions are equal, and the entry keeps that version for another local lifetime. Over runs the condition is that of `PromptVersions.VersionsRecentIff`. |
| PromptResolver.BookedOnce | packages/prompt-client/src/prompt-client.service.ts:1332-1405 | From any stage on, an undisturbed call that is not booked yet adds exactly one request if it returns a template and none if it throws, and one that is booked adds none, whichever stages failed on the way. |
| PromptResolver.EveryCallAnswers | packages/prompt-client/src/prompt-client.service.ts:1332-1469 | What every undisturbed call answers and leaves in both caches, for all inputs and in terms of these alone: nothing without an API key; the fresh, confirmed or fetched template of the name; that of the fallback name where the name had to be fetched, failed with a 404 and the fallback is not empty; otherwise memo, row of the name, row of the fallback, hardcoded template of the name, of the fallback, or the error. |
| PromptResolver.FailedNameContinues | packages/prompt-client/src/prompt-client.service.ts:1415-1430 | After a failed fetch of the name the call asks the service for the fallback name if and only if the failure mentions 404 and there is a fallback name that is not empty; otherwise it goes on with the database path. |
| PromptOutcomes.FallbackAskedIff | packages/prompt-client/src/prompt-client.service.ts:1415-1430 | Over every run with interleaved calls: a call asks the service for its fallback name if and only if it has one and the fetch of its first name failed with a 404. |
| PromptOutcomes.DatabaseAfterFailure | packages/prompt-client/src/prompt-client.service.ts:1332-1357 | Over every run: where the remote service is configured, a call comes to the database path only after its last fetch failed, that of the fallback name or that of the first name with no way on to a fallback. |
| PromptOutcomes.FailureContinues | packages/prompt-client/src/prompt-client.service.ts:1441-1469 | In any world: a lost hash request leads to a fetch, a lost fetch to the fallback name exactly after a 404 for the first name with a fallback, and otherwise to the database path. |
| PromptOutcomes.ReadingServesIff | packages/prompt-client/src/prompt-client.service.ts:1432-1441 | In any world: a call that reads the cache is served without a request if and only if the entry is still fresh. |
| PromptOutcomes.FetchedIsKept | packages/prompt-client/src/prompt-client.service.ts:1457-1467 | In any world: what the service answers a fetch with is served, and kept under the name that was asked for until the expiry advertised with it. |
| PromptResolver.SegmentDecreases | packages/prompt-client/src/prompt-client.service.ts:1415-1469 | Whatever the environment answers, every segment brings a call strictly closer to its end, so no call loops between its names or stages. |
| PromptResolver.Drive | packages/prompt-client/src/prompt-client.service.ts:1332-1357 | Running the segments always ends in a served template or a failure. |
| PromptResolver.PromptClient.FetchOneRawTemplate | packages/prompt-client/src/prompt-client.service.ts:1432-1469 | Reads, revalidates or refetches one name; leaves caches and counters as the segment run does, and throws exactly where the name has to be fetched and cannot be. |
| PromptResolver.PromptClient.FetchRawTemplate | packages/prompt-client/src/prompt-client.service.ts:1415-1430 | Retries with the fallback name exactly after an error that mentions 404; throws exactly where neither name can be had, and the call then goes on to the database path with nothing booked. |
| PromptResolver.PromptClient.GetTemplateFromDb | packages/prompt-client/src/prompt-client.service.ts:1364-1405 | Result, memo and counters are those of the segment run of the database chain. |
| PromptResolver.PromptClient.GetTemplate | packages/prompt-client/src/prompt-client.service.ts:1332-1357 | The nested try/catch refines the segment run: same result, same caches, same counters; the result and the caches are those that `EveryCallAnswers` spells out; one request booked exactly when it succeeds. |
| PromptMemo.MemoAgreesIff | packages/prompt-client/src/prompt-client.service.ts:1364-1405 | For a fixed database and any set of ways (name, fallback) in which templates are requested: in every run with evictions and interleaved calls every answer of the database path is row(name), else row(fallback), else hardcoded(name), else hardcoded(fallback), and "not found" only where that chain finds nothing, if and only if each name has one such answer in all the ways it is requested, or a missing API key keeps every call from the database. |
| PromptMemo.WithAndWithoutFallback | packages/prompt-client/src/prompt-client.service.ts:832-838 | For a name requested once with a fallback (as the document analysis is) and once without (as its hash is, line 702): when the two answers are the same, in terms of the rows and hardcoded templates alone. |
| PromptMemo.RunKeepsMemo | packages/prompt-client/src/prompt-client.service.ts:1364-1405 | In every such run each memo entry is the answer of every way in which its name is requested. |
| PromptMemo.StepKeepsMemo | packages/prompt-client/src/prompt-client.service.ts:1376-1404 | Every step keeps memo and running calls in agreement with the chain, whatever other fallbacks a name is requested with, as long as the answers are the same. |
| PromptMemo.MemoIgnoresTheFallback | packages/prompt-client/src/prompt-client.service.ts:1368-1373 | Over every database in which only the fallback has a row there is a run in which the call without a fallback is served the fallback's row from the memo, although its own chain has the hardcoded template or nothing. |
| PromptCounters.CountersConserved | packages/prompt-client/src/metrics.ts:49-80 | Over every run the counters are the booked calls, source by source; the total is the sum of the sources; with no call running it is the number of calls that returned a template. |
| PromptCounters.SegmentBooks | packages/prompt-client/src/prompt-client.service.ts:1432-1469 | A segment leaves the counters alone or books its call, under the counter of the source it answers from; a booked call is never booked again. |
| PromptCounters.StepKeepsCounters | packages/prompt-client/src/metrics.ts:49-80 | Every step of every interleaving keeps counters and booked calls equal. |
| PromptCounters.EndedCallsBooked | packages/prompt-client/src/prompt-client.service.ts:1332-1405 | When every call has ended, the booked calls are exactly the served ones. |
| PromptMetrics.RatesAddUp | packages/prompt-client/src/metrics.ts:86-107 | With conserved counters both rates are non-negative, their sum is at most 1, what is missing to 1 is the share of remote calls, and each is the share of its own counters in the requests. |
| PromptMetrics.LatencyIsNearest | packages/prompt-client/src/metrics.ts:95-98 | The published latency is the mean over the remote calls to the nearest integer, halves upward, and 0 without any. |
| PromptMetrics.MetricsCollector.RecordCacheHit | packages/prompt-client/src/metrics.ts:49-52 | Books one request as a hit and nothing else; conservation is kept. |
| PromptMetrics.MetricsCollector.RecordTemplateCacheHit | packages/prompt-client/src/metrics.ts:60-64 | Books one request as a hit of the remote cache, which is also a hit; conservation is kept. |
| PromptMetrics.MetricsCollector.RecordRemoteCall | packages/prompt-client/src/metrics.ts:66-70 | Books one request as a remote call and adds its latency; conservation is kept. |
| PromptMetrics.MetricsCollector.RecordDbFallback | packages/prompt-client/src/metrics.ts:72-75 | Books one request under the database; conservation is kept. |
| PromptMetrics.MetricsCollector.RecordHardcodedFallback | packages/prompt-client/src/metrics.ts:77-80 | Books one request under the hardcoded templates; conservation is kept. |
| PromptMetrics.MetricsCollector.RecordCacheWarm | packages/prompt-client/src/metrics.ts:82-84 | Counts a cache warming without booking a request. |
| PromptMetrics.MetricsCollector.GetMetrics | packages/prompt-client/src/metrics.ts:86-107 | Publishes the counters unchanged; with conserved counters the two rates are the shares of hits and of fallbacks and never exceed 1 together; the latency is the rounded mean. |
| PromptMetrics.MetricsCollector.Reset | packages/prompt-client/src/metrics.ts:109-118 | Returns to the initial, conserved state. |
| Interpolation.SequentialIsSimultaneous | packages/prompt-client/src/prompt-client.service.ts:1555-1564 | On a template of clean literals and placeholders, with values free of dollar sequences, the loop of `replaceAll`s is one simultaneous substitution if no value contains the placeholder of a key replaced after it, nor ends with the beginning of one; the last value, such as scraped HTML, may hold any braces. |
| Interpolation.OrderDoesNotMatter | packages/prompt-client/src/prompt-client.service.ts:1560-1562 | If no value leaks into another variable's key, every order of the variables gives the same result. |
| Interpolation.InsertedVerbatimIff | packages/prompt-client/src/prompt-client.service.ts:1561 | For a placeholder without dollar signs, in any surroundings for a value that has no dollar-backtick and no dollar-quote, and in surroundings without dollar signs for any other: a replacement string is inserted as it is if and only if it contains none of `$$`, `$&`, a dollar-backtick, a dollar-quote. |
| Interpolation.ExpandsPieces | packages/prompt-client/src/prompt-client.service.ts:1561 | A replacement string is expanded piece by piece: `$$` to a dollar sign, `$&` to the match, a dollar-backtick and a dollar-quote to the text before and behind it, and everything else to itself. |
| Interpolation.ReplaceAllOnTokens | packages/prompt-client/src/prompt-client.service.ts:1561 | Where no literal contains or begins the placeholder of the key, one `replaceAll` replaces exactly its holes and nothing that arises across token boundaries. |
| Interpolation.PairExactIff | packages/prompt-client/src/prompt-client.service.ts:1560-1562 | For any two variables: all clean templates come out as substituted simultaneously if and only if the first value does not contain the second placeholder nor end with its beginning, or the second value is its own placeholder. |
| Interpolation.LeakMakesOrderMatter | packages/prompt-client/src/prompt-client.service.ts:1560-1562 | A value that leaks into another key, but not the other way round, makes the order of the two variables matter on some clean template. |
| Interpolation.ReplacedIsSameOnlyIf | packages/prompt-client/src/prompt-client.service.ts:1561 | A replacement that has something to replace leaves the text unchanged only if the value is the placeholder itself. |
| Interpolation.Interpolate | packages/prompt-client/src/prompt-client.service.ts:1555-1564 | The loop computes the sequential rewriting, which is the simultaneous substitution of every clean tokenisation of the template when no value leaks into a later key. |
| SessionRenewal.StepKeepsInv | apps/frontend/lib/auth-refresh-link.ts:60-102 | Every step of every interleaving, sign-ins and sign-outs at any time included, keeps: latch held exactly while one renewal is outstanding, token custody session by session, per-operation flags consistent with the renewal outcome, at most one navigation. |
| SessionRenewal.RunKeepsInv | apps/frontend/lib/auth-refresh-link.ts:60-102 | The invariant holds in every reachable state. |
| SessionRenewal.SignInKeepsNet | apps/backend/src/common/utils/cookie.utils.ts:64-89 | A sign-in establishes a session and sets both cookies, or the access cookie alone where there is no refresh token, whatever renewal is outstanding; custody is kept. |
| SessionRenewal.HandlingKeepsTokens | apps/backend/src/api/src/auth-refresh.controller.ts:89-187 | What the renewal endpoint does with a request keeps custody: no token or one the provider does not accept is rejected, the newest one of a live session is consumed, and a renewed session of another user than the access cookie names is thrown away. |
| SessionRenewal.NavigatesIff | apps/frontend/lib/auth-logout.ts:111-147 | A step navigates if and only if an operation's renewal came back expired, or its retry after a renewal failed auth again, for a signed-in user outside the auth routes before any redirect; never for `Logout` or an unavailable renewal. |
| SessionRenewal.AtMostOneRedirect | apps/frontend/lib/auth-logout.ts:73-147 | Over any run at most one navigation is issued, and it is traced back to one step that ended a session. |
| SessionRenewal.GuardsAgree | apps/frontend/lib/auth-refresh-link.ts:53-58 | The renewal guard (path) and the redirect guard (path and query string) accept the same routes. |
| SessionRenewal.JoinersAgree | apps/frontend/lib/auth-refresh.ts:80-85 | Operations that joined the same renewal are resumed with the same outcome. |
| SessionRenewal.RenewalsPresentNewestToken | apps/frontend/lib/auth-refresh.ts:32-39 | In every reachable state at most one renewal is outstanding; the token it presents is the newest of its session if and only if none newer failed to reach the browser, and the endpoint rejects it if and only if there is no token, or one of a session with such a loss or a revoked one, or the access cookie names another user. |
| SessionRenewal.ProgressDecreases | apps/frontend/lib/auth-refresh-link.ts:71-100 | Every protocol step lowers a measure over the whole multiset of operations and renewals. |
| SessionRenewal.NotStuck | apps/frontend/lib/auth-refresh-link.ts:77-94 | While an operation has not ended, some protocol step other than a cancellation is possible. |
| SessionRenewal.EveryOperationEnds | apps/frontend/lib/auth-refresh-link.ts:60-102 | Left to the protocol, a path is no longer than the measure, and where it cannot go on every operation was delivered, failed or cancelled. |
| SessionRenewal.EndedStaysEnded | apps/frontend/lib/auth-refresh-link.ts:77-99 | An operation that has ended, in particular a cancelled one, is never forwarded or reported again. |
| SessionRenewal.ForwardedAtMostTwice | apps/frontend/lib/auth-refresh-link.ts:65-84 | Every operation is forwarded at most twice, and twice exactly when its renewal succeeded. |
| SessionOutcomes.ReportedAsAnswered | apps/frontend/lib/auth-refresh-link.ts:60-102 | Over every run: an operation is delivered if and only if its last response had no error; of those that have ended and were not cancelled, each has failed with an error if and only if that is the error of its last response, after an expired or unavailable renewal the one it had failed with at first. |
| SessionOutcomes.FirstResponseEnds | apps/frontend/lib/auth-refresh-link.ts:61-77 | A first response without an error is delivered; one with an error makes the operation wait exactly where a renewal is tried, spelled out by error codes, flags and path prefixes, and otherwise fail with this error. |
| SessionOutcomes.ResumeEnds | apps/frontend/lib/auth-refresh-link.ts:77-94 | After a renewal the operation is sent again, after an expired or unavailable one it fails with the error it joined with. |
| SessionOutcomes.OutcomeTells | apps/frontend/lib/auth-refresh.ts:46-71 | Over every run: a renewal comes back as renewed only if the endpoint granted it and the answer arrived, as expired only if it rejected it and the answer arrived, and as unavailable only if it declined it or no answer arrived. |
| SessionOutcomes.ResumedWithOutcome | apps/frontend/lib/auth-refresh-link.ts:77-94 | An operation that was resumed has taken over just this outcome of the renewal it joined. |
| SessionOutcomes.UnavailableKeepsCookies | apps/backend/src/api/src/auth-refresh.controller.ts:109-141 | An answer that neither grants nor rejects, and one that does not arrive, leave the cookies alone. |
| SessionOutcomes.ForgetsUserIff | apps/frontend/lib/auth-logout.ts:111-147 | A step forgets the stored user if and only if it ends the session, or an operation fails auth on a sign-in page, in a browser before any redirect; only a sign-in stores one. |
| SessionTokens.LostGrantForcesExpiry | apps/frontend/lib/auth-refresh.ts:46-71 | Over every run: once a token issued for a session failed to reach the browser, neither that renewal nor any later one of the same session succeeds, whatever happens in between. |
| SessionTokens.RevocationForcesExpiry | apps/frontend/lib/auth-refresh.ts:46-71 | Over every run: after a revocation no renewal of the session succeeds that had not been granted before. |
| SessionTokens.RenewalPossibleIff | apps/backend/src/api/src/auth-refresh.controller.ts:89-128 | From every reachable state of a browser tab without an outstanding renewal: some renewal can succeed before a sign-in brings another refresh token if and only if the cookie holds a token of a session that was not revoked and of which no token was lost. |
| SessionTokens.JoinedInVain | apps/frontend/lib/auth-refresh-link.ts:77-94 | Where it does not, no operation that joins a renewal before such a sign-in is ever retried. |
| SessionTokens.SignInRestores | apps/backend/src/apps/users/src/domains/auth/auth.resolver.ts:78-93 | From every such state a sign-in with a refresh token, in the same page load, leads to a renewal that succeeds, whatever was lost or revoked before. |
| SessionTokens.LossIsReachable | apps/frontend/lib/auth-refresh.ts:46-71 | The loss can happen to the first renewal of any tab. |
| SessionTokens.RenewalStartsIff | apps/frontend/lib/auth-refresh-link.ts:60-77 | A renewal starts exactly when an operation other than `Logout` that was not retried fails auth in a browser outside the auth routes while none is outstanding; it presents the cookies of that moment. |
| SessionTokens.CookieWhileUnanswered | apps/frontend/lib/auth-refresh-link.ts:33-50 | While a renewal is unanswered only a sign-in with a refresh token and a sign-out change the refresh cookie. |
| SessionTokens.AnswerReplaces | apps/backend/src/api/src/auth-refresh.controller.ts:121-187 | Over every run: a granted answer sets both cookies to the session that was renewed, a rejected one clears both. The refresh cookie that is replaced is the one presented exactly when nobody signed in or out since the renewal was started, none exactly when a sign-out was the last of these, and one of a newer session exactly when a sign-in was. |
| SessionTokens.SwapIsReachable | apps/frontend/lib/auth-refresh-link.ts:60-75 | A renewal started before the user comes to the login page is not stopped by the guard on the auth routes; its answer after a sign-in leaves the tab with both cookies of the user before. |
| SessionTokens.ComparisonNeverRefuses | apps/backend/src/api/src/auth-refresh.controller.ts:143-177 | Over every run in which every sign-in brings a refresh token, the endpoint's comparison of users never refuses a renewal: a request carries cookies of one user, those of the moment it was sent. |
| SessionTokens.ComparisonRefuses | apps/backend/src/api/src/auth-refresh.controller.ts:157-177 | After a sign-in of another user without a refresh token it does, and the token of the session before is lost. |
| SessionLinks.BrowserTab.TriggerAuthExpiredRedirect | apps/frontend/lib/auth-logout.ts:111-147 | One redirect step of the transition system: no-op after the first, for guests and on the server; clears the user without navigating on auth routes. |
| SessionLinks.BrowserTab.AuthExpiryLink | apps/frontend/lib/apollo-client.ts:128-139 | The terminal link's guards in their order, then the redirect step. |
| SessionLinks.BrowserTab.PassUp | apps/frontend/lib/auth-refresh-link.ts:86-94 | An error leaving the renewal link fails the operation and reaches the terminal link with the flags the operation has by then. The operation ends with just that error. |
| SessionLinks.BrowserTab.RefreshSession | apps/frontend/lib/auth-refresh.ts:80-85 | Joins the outstanding renewal, or starts one that presents the cookie's current token. |
| SessionLinks.BrowserTab.ReleaseLatch | apps/frontend/lib/auth-refresh.ts:81-83 | The latch is free after a renewal settled, with every outcome. |
| SessionLinks.BrowserTab.SessionRefreshLink | apps/frontend/lib/auth-refresh-link.ts:61-77 | The renewal link's handler, with the terminal link above it, is the first-response step, and keeps the invariant. What becomes of the operation is spelled out: delivered, waiting, or failed with the error of the response. |
| SessionLinks.BrowserTab.OnRefreshed | apps/frontend/lib/auth-refresh-link.ts:77-94 | The continuation of a joined operation is the resume step, and keeps the invariant. The operation is sent again after a renewal, and otherwise fails with the error it joined with. |
| IdentityCache.TeardownLeavesNothing | apps/frontend/lib/apollo-cache-keys.ts:68-78 | After a teardown whose reset succeeded has finished, nothing that was cached when it began is in memory or on disk, then or ever after, whatever ran in between. |
| IdentityCache.SecondPurgeIsNeeded | apps/frontend/lib/apollo-cache-keys.ts:75-77 | Without the second purge an item the persistor copied out between the steps stays on disk. |
| IdentityCache.ExpiryLeavesNothingIff | apps/frontend/lib/auth-logout.ts:111-147 | Over every path: an expiry purges the disk; after the page load that leaves the page, with no other purge in between, memory, disk and queries on their way are empty if and only if the persistor did not run in between with an item in memory. |
| IdentityCache.ExpiryLeaves | apps/frontend/lib/auth-logout.ts:111-147 | Whatever happens in between, memory and disk then hold exactly the items the persistor copied out last and nothing purged since. |
| IdentityCache.DiskHolds | apps/frontend/lib/apollo-cache-keys.ts:33-78 | On every path: an item is on disk if and only if the persistor copied it there, or it was there at the start, and no expiry, sign-out, sign-in of another user or end of a teardown, nor a later copy without it, came since. |
| IdentityCache.UserFollows | apps/frontend/lib/auth-context.tsx:168-557 | On every path the stored identity is the one of the last event that sets it: a sign-in its user, a sign-out and an expiry none, and a page load removes one that cannot be read. |
| IdentityCache.AnswerIsCached | apps/frontend/lib/apollo-client.ts:179-203 | An answer that arrives is cached as the result of its query for the identity it was sent with. |
| IdentityCache.StepKeepsTimes | apps/frontend/lib/apollo-cache-keys.ts:68-78 | Every step of every interleaving keeps what a wiped teardown removed out of memory and what a finished one removed out of memory and disk. |
| IdentityCache.IdentityAndCacheAligned | apps/frontend/lib/auth-context.tsx:168-191 | Over any run of `storeAuth` sign-ins, sign-outs, expiries and page loads, whenever a user is stored and no teardown is in progress, every cached item and every query on its way is that user's, however late answers arrive. |
| IdentityCache.StepKeepsOwners | apps/frontend/lib/auth-context.tsx:533-557 | Every regular step keeps: what was asked for since the identity was stored is its own, everything older is gone or about to go. |
| IdentityCache.ReturningUserKeepsCache | apps/frontend/lib/auth-context.tsx:183-185 | The same user coming back without a sign-out, with or without a page load, keeps the cache. |
| IdentityCache.MisalignedInBetween | apps/frontend/lib/apollo-cache-keys.ts:75-77 | While a teardown runs, and after an expiry until the page is left, the persistor can put another user's item on disk. |
| IdentityCache.IrregularStepsAlignedIff | apps/frontend/lib/auth-context.tsx:231-250 | From an aligned state with another user stored: an interrupted teardown keeps the alignment if and only if memory is empty, a failing reset if and only if also no query is on its way, the password login if and only if also the disk is empty. |
| IdentityCache.CacheHolder.PurgePersistedCache | apps/frontend/lib/apollo-cache-keys.ts:33-43 | Removes the current and all superseded cache keys and no other key. |
| IdentityCache.CacheHolder.ClearIdentityScopedCache | apps/frontend/lib/apollo-cache-keys.ts:68-78 | Wherever the persistor runs, no cache key is left in storage and all other keys are; memory is empty if the reset succeeded. |
| FlowerField.FullPeriod | apps/frontend/components/brand/Field.tsx:38-41 | From every residue, n steps come back exactly when 233280 divides n. |
| FlowerField.OrbitPoints | apps/frontend/components/brand/Field.tsx:38-41 | Two points of an orbit coincide exactly when their distance is a multiple of 233280. |
| FlowerField.StepIsBijection | apps/frontend/components/brand/Field.tsx:38-41 | The step is injective on residues and every residue is reached. |
| FlowerField.Reaches | apps/frontend/components/brand/Field.tsx:38-41 | Every residue is reached from every other within one period. |
| FlowerField.StepStaysExact | apps/frontend/components/brand/Field.tsx:39 | On residues the value before the modulus is non-negative and below 2^53, so the double arithmetic is exact. |
| FlowerField.DrawsNonNegativeIff | apps/frontend/components/brand/Field.tsx:37-41 | For any integer seed, with JavaScript's signed remainder, all draws are non-negative exactly when the first dividend is, or is a multiple of the modulus. |
| FlowerField.EverySeedSettles | apps/frontend/components/brand/Field.tsx:37-41 | For any integer seed, with JavaScript's signed remainder, the states are residues from draw 233280 on at the latest. |
| FlowerField.FlowersRepeatIff | apps/frontend/components/brand/Field.tsx:42-52 | For any integer seed, negative ones included: flowers i and j start from the same state exactly when 58320 divides j - i and the state of flower i is a residue; so from the first residue on 58320 flowers start from distinct states and the field then repeats. |
| FlowerField.FlowerRanges | apps/frontend/components/brand/Field.tsx:43-50 | From a residue: size 44 to 90, duration 6 to below 11 s, delay above -11 to 0 s, margin -0.22 of the size. |
| FlowerField.FlowerShows | apps/frontend/components/brand/Field.tsx:42-52 | Flower i by the draws 4i+1 to 4i+4 of the field: the first gives the size, 44 plus 46 times the draw to the nearest integer, the second the duration, the third the delay, the fourth whether it is a sprout, below 0.12; the margin is -0.22 of the size. |
| FlowerField.ShiftPower | apps/frontend/components/brand/Field.tsx:39 | 7776 steps act on every residue as adding 54432. |
| FlowerField.Generator.Rand | apps/frontend/components/brand/Field.tsx:38-41 | Advances the captured state by one step and returns its numerator. |
| FlowerField.BuildFlowers | apps/frontend/components/brand/Field.tsx:35-52 | Flower i is the flower drawn from the seed's state after 4 i steps; a count of 0 or below gives none. |
| FeedBatches.BatchingCharacterised | apps/frontend/lib/format-action.ts:218-263 | A list is the computed one if and only if it flattens to the input in order, each batch has at least `minBatch` members of one of the four types that agree in type, first ten characters of the date and normalised text, and shows the first one's type and date and the text or its substitute, and every run of at least `minBatch` neighbours that agree so is within one batch; equivalently, in terms of maximal runs. |
| FeedBatches.RepeatsAreBatched | apps/frontend/lib/format-action.ts:218-263 | At least `minBatch` neighbouring actions that agree in type, day and normalised text are all in one batch. |
| FeedBatches.BatchesIsBatching | apps/frontend/lib/format-action.ts:218-263 | The computed list has all these properties. |
| FeedBatches.BatchingIsUnique | apps/frontend/lib/format-action.ts:218-263 | No other list has them. |
| FeedBatches.DistributesIff | apps/frontend/lib/format-action.ts:224-261 | Batching distributes over concatenation exactly when no run crosses the boundary, or the crossing run is shorter than `minBatch` as a whole. |
| FeedBatches.CollectRun | apps/frontend/lib/format-action.ts:231-246 | The inner scan stops at the end of the maximal run. |
| FeedBatches.GroupBillBatches | apps/frontend/lib/format-action.ts:218-263 | The nested scan computes the unique batching, for every `minBatch`, with the properties spelled out on the actions themselves. |
| FeedGroups.GroupingCharacterised | apps/frontend/lib/format-action.ts:142-161 | A list of groups has one group per type that appears, each the input filtered by the type in original order, sorted by sort key with ties by first appearance, if and only if it is the computed one. |
| FeedGroups.GroupsIsGrouping | apps/frontend/lib/format-action.ts:151-160 | The computed grouping has these properties. |
| FeedGroups.GroupsInFeedOrder | apps/frontend/lib/format-action.ts:110-125 | Groups appear in the order of the nine known types, hearings first and presence last; unknown types come behind all of them, by first appearance. |
| FeedGroups.GroupHolds | apps/frontend/lib/format-action.ts:12-22 | Each group has the label of its type and exactly the actions of the type, each once, in the order of the list. |
| FeedGroups.FeedConserves | apps/frontend/components/region/ActivityFeed.tsx:116-126 | Grouping and then batching every group conserves the multiset of actions. |
| FeedGroups.FillBuckets | apps/frontend/lib/format-action.ts:145-150 | After the loop the keys are the types in order of first appearance and every bucket is the input filtered by its type. |
| FeedGroups.GroupActionsByType | apps/frontend/lib/format-action.ts:142-161 | Computes the one grouping of its input. |
| Abilities.BuildRefinesPermitted | apps/backend/src/permissions/casl-ability.factory.ts:40-78 | For every request, the built list under last-match-wins allows it exactly when the administrator's rule or some allowing policy matches and no denying policy does. What makes a rule match is spelled out in `DecidesByPolicies`. |
| Abilities.DecidesByPolicies | apps/backend/src/permissions/casl-ability.factory.ts:40-78 | For every question of action, subject and field, whatever the engine makes of conditions: the built list says yes if and only if the user is an administrator or some allowing policy for the subject lists the action, covers the field and has its filled-in conditions met, and no denying policy does. |
| Abilities.OrderNeverMatters | apps/backend/src/permissions/casl-ability.factory.ts:53-75 | Permuting permissions or policies changes no decision. |
| Abilities.DecideOnAllowsFirst | apps/backend/src/permissions/casl-ability.factory.ts:69-75 | On a list with all denials behind the allows, last-match-wins is "some allow and no deny". |
| Abilities.AddRulesAllowsFirst | apps/backend/src/permissions/casl-ability.factory.ts:69-75 | Unshifting allows and pushing denials keeps the denials behind the allows. |
| Abilities.Policy.RewriteConditions | apps/backend/src/permissions/casl-ability.factory.ts:55-59 | The policy's own conditions object keeps its tree of keys; for a user whose values have fewer than two opening braces it is left as it was exactly when no placeholder in it resolves. |
| Abilities.AddPolicy | apps/backend/src/permissions/casl-ability.factory.ts:55-75 | One policy: its rule goes to its end of the list, sharing the policy's conditions object, which is rewritten in place; an unknown effect adds no rule. |
| Abilities.AddPolicies | apps/backend/src/permissions/casl-ability.factory.ts:54-76 | A policy object that occurs several times is rewritten as often. |
| Abilities.ReadIsBuild | apps/backend/src/permissions/casl-ability.factory.ts:55-78 | Where each conditions object ends as rewritten once, the list of rules that share them reads as the list built from the policies as they were. |
| Abilities.DefineAbility | apps/backend/src/permissions/casl-ability.factory.ts:40-78 | For any permissions, repeated policy objects included: the rules are read with the conditions as they are at the end, each rewritten as often as its policy occurs; where that is as good as once, in particular when no policy occurs twice, they are the rules built from the policies as they were before the call. In that case every question is decided by the permissions themselves: their subjects, and the actions, fields and conditions of their policies. |
| Abilities.Can | apps/backend/src/common/guards/policies.guard.ts:119-200 | The guard builds the ability and asks it: yes exactly when the user is an administrator or an allowing policy of the permissions, as they were before, speaks about the question, and no denying one does. |
| Abilities.LaterRulesUnaffectedIff | apps/backend/src/common/guards/policies.guard.ts:57-61 | On one list of policies shared by all requests, for users whose values have fewer than two opening braces: every later user, administrator or not, gets the rules that the original policies give if and only if no placeholder in the conditions of an allowing or denying policy resolves for any earlier user. |
| Abilities.EverybodyGetsTheFirstId | apps/backend/src/interfaces/file.interface.ts:21-23 | For a policy on the user's own id: once somebody was signed in, everybody gets the rule with the first one's id. |
| Abilities.ServeRequest | apps/backend/src/common/guards/policies.guard.ts:119-124 | A request on the shared list gets the rules of the policies as the users before it have left them, and leaves them rewritten for its own user too. |
| Abilities.ServeRequests | apps/backend/src/common/guards/policies.guard.ts:57-124 | Any sequence of requests on the shared list, in which no policy object occurs twice: each gets the rules of the policies as left by the users before, and those of the original policies where no placeholder resolved for any user before. |
| Placeholders.RewriteMapsTokens | apps/backend/src/permissions/casl-ability.factory.ts:112-119 | For every string the rewriter maps its tokens in one pass: resolvable placeholders become their value, all else is printed back. |
| Placeholders.TokensPrintBack | apps/backend/src/permissions/casl-ability.factory.ts:112-119 | For every string, printing its tokens gives it back. |
| Placeholders.UnresolvedUnchanged | apps/backend/src/permissions/casl-ability.factory.ts:112-119 | A string none of whose placeholders resolves is unchanged. |
| Placeholders.RewriteClean | apps/backend/src/permissions/casl-ability.factory.ts:112-119 | On a text printed from clean tokens the rewriter finds exactly those placeholders. |
| Placeholders.UnchangedIff | apps/backend/src/permissions/casl-ability.factory.ts:112-119 | For every string, and a user whose values have fewer than two opening braces: it is unchanged if and only if none of its placeholders resolves. |
| Placeholders.SecondPassIsIdentityIff | apps/backend/src/permissions/casl-ability.factory.ts:112-119 | For every string and such a user: a second pass changes nothing if and only if the rewritten string has no placeholder that resolves. This is `UnchangedIff` at the rewritten string; `SecondPassIsIdentity` has a condition on the input. |
| Placeholders.OwnPlaceholderUnchanged | apps/backend/src/permissions/casl-ability.factory.ts:112-119 | For values with more braces there is no such condition on the placeholders: a value that is its own placeholder resolves and changes nothing. |
| Placeholders.SecondPassIsIdentity | apps/backend/src/permissions/casl-ability.factory.ts:112-119 | On a text printed from clean tokens, with values of any kind that form no new placeholder, a second pass changes nothing. |
| Placeholders.SecondPassMayResolve | apps/backend/src/permissions/casl-ability.factory.ts:112-119 | A value that prints a placeholder is resolved by a second pass. |
| Placeholders.SkeletonKept | apps/backend/src/permissions/casl-ability.factory.ts:87-104 | The recursion keeps the tree of keys, their order and all values that are not strings. |
| Placeholders.ReplacePlaceholders | apps/backend/src/permissions/casl-ability.factory.ts:87-104 | The loop over the keys, with its recursion, rewrites every string of the tree once and keeps the tree; for a user whose values have fewer than two opening braces it leaves the object as it was exactly when no placeholder in it resolves. |
| Placeholders.LaterUsersUnaffectedIff | apps/backend/src/permissions/casl-ability.factory.ts:87-104 | One conditions object rewritten in place for any sequence of users, whose values have fewer than two opening braces: every later user gets the conditions written for them if and only if no placeholder in the original conditions resolves for any of the earlier users. |
| Placeholders.UnaffectedIffUnchanged | apps/backend/src/permissions/casl-ability.factory.ts:87-104 | For any values: if and only if the object has come out unchanged. |
| Placeholders.UnchangedForAllIff | apps/backend/src/permissions/casl-ability.factory.ts:87-104 | After any sequence of such users the object is the original if and only if no placeholder in it resolves for any of them: once changed, no later rewriting brings it back. |
| Placeholders.FirstIdStays | apps/backend/src/interfaces/user.interface.ts:18-20 | Conditions that require the user's own id: after the first user they hold the first user's id for good, and whoever comes next gets that one instead of their own, however many users there were in between. |
| EditableField.DraftMatchesIff | apps/frontend/components/profile/EditableField.tsx:103-120 | The guard holds exactly when stored and draft value, normalised, have the same content: equal multisets for lists, strictly equal values otherwise. |
| EditableField.DraftKeepsValue | apps/frontend/components/profile/EditableField.tsx:29-95 | For each of the seven inputs: what is written of a value, what shape its draft has, and that the draft would be written as the value. |
| EditableField.SortedUnique | apps/frontend/components/profile/EditableField.tsx:115-117 | Sorted permutations of each other are equal. |
| EditableField.OpenThenSaveMatchesIff | apps/frontend/components/profile/EditableField.tsx:46-120 | Opening and saving writes nothing for every stored value but a NaN in an integer field, which neither the input nor JSON can deliver. |
| EditableField.WrittenValueMatches | apps/frontend/components/profile/EditableField.tsx:90-120 | What a save wrote is matched by its own draft and by the draft shown when the field is reopened. |
| EditableField.FieldEditor.EnterEdit | apps/frontend/components/profile/EditableField.tsx:153-157 | Editing starts so that saving at once would write nothing. |
| EditableField.FieldEditor.HandleSave | apps/frontend/components/profile/EditableField.tsx:165-186 | Writes exactly when the content changed; on failure the field stays open with the error and the stored value is unchanged; saving always ends. What is written is spelled out input by input. |
| EditableField.FieldEditor.HandleClearConfirm | apps/frontend/components/profile/EditableField.tsx:188-202 | After a successful clear the field has no value, is closed, and its draft matches; a failed one leaves value, mode and draft and shows the error. That value is the empty list for lists and null otherwise. |
| JobAttempts.EnqueuedJobAccounting | packages/queue-provider/src/queue.service.ts:134-155 | Whatever the environment variable holds, a job enqueued with it is recorded at the worker as retries and one final outcome: at most as many as the limit says, one if it says less or does not parse, ending in failure exactly when every allowed attempt failed. |
| JobAttempts.WrittenLimit | packages/queue-provider/src/queue.service.ts:138-142 | A limit written in decimal is the limit; without the variable it is 3. |
| JobAttempts.ParsesNumber | packages/queue-provider/src/queue.service.ts:138-142 | A number with blanks before it, a sign or none, and anything but a digit behind it, is the limit. |
| JobAttempts.ParsesNothing | packages/queue-provider/src/queue.service.ts:138-142 | A value that does not start with a number parses to NaN. |
| JobAttempts.AttemptAccounting | packages/queue-provider/src/worker.factory.ts:61-112 | For any limit the wrapper may be given: over every handler the record is retries, fewer than the limit, then one success or failure, if and only if the limit is not NaN. |
| JobAttempts.OutcomesFrom | packages/queue-provider/src/worker.factory.ts:89-111 | The same from any attempt on, with the attempt at which the record ends. |
| JobAttempts.WorkerMetrics.RunAttempt | packages/queue-provider/src/worker.factory.ts:71-111 | One outcome and one duration are recorded per attempt, and the error is thrown on. |
| JobAttempts.WorkerMetrics.RunJob | packages/queue-provider/src/worker.factory.ts:61-112 | Driving a job attempt by attempt records exactly its outcomes, with one duration each. |
| VaultHydration.EnvIgnoresOrder | packages/secrets-provider/src/bootstrap.ts:49-72 | For every completion order the environment ends with the vault's value for every requested secret it has and every other variable untouched, repeated names or not. |
| VaultHydration.HydrationIsUnique | packages/secrets-provider/src/bootstrap.ts:49-72 | There is only one such environment. |
| VaultHydration.OutcomesIgnoreOrderIff | packages/secrets-provider/src/bootstrap.ts:52-60 | The reported outcomes are the same for every completion order if and only if no name requested twice replaces a different non-empty value. |
| VaultHydration.ListsIgnoreOrder | packages/secrets-provider/src/bootstrap.ts:74-81 | The hydrated and missing lists split the request by what the vault has, in requested order, for every completion order; the overwritten list names exactly the replaced values when no repeat is harmful. |
| VaultHydration.ActiveIff | packages/secrets-provider/src/bootstrap.ts:32-35 | The environment is hydrated only where the mode reads `supabase`, each letter small or capital. |
| VaultHydration.Process.HydrateEnvFromVault | packages/secrets-provider/src/bootstrap.ts:29-97 | Does nothing unless the mode is `supabase` in any letter case; otherwise hydrates as above. |

## Left out

- Cache operations are assumed not to fail; the memory caches' own expiry and size limits appear only as arbitrary evictions.
- Retries and the circuit breaker: a request may be sent again any number of times and may fail at any time; how often, and after what delay, is not modelled. A reply reaches the code within the request timeout of the attempt it answers; further event-loop delay is not modelled.
- Templates carry text and version only; a version that does not parse becomes 0 before the model begins. The hardcoded templates are a parameter. The service is taken to publish the hash of the text it serves; SHA-256 is an arbitrary function, collision-free where a lemma says so.
- A prompt client is given its metrics collector instead of creating it.
- PromptResolver.PromptClient.GetTemplate: one call at one instant with scripted answers, because methods do not interleave; interleaving is covered by the run lemmas over the same segments.
- Interpolation.SequentialIsSimultaneous: keys must be free of braces; the code's own keys are identifiers. For more than two variables the condition is sufficient: leaks of several values can cancel each other.
- The `composeXxx` variable maps, prompt texts and HMAC headers.
- Several tabs, CSRF tokens, and subscriptions over WebSocket are not part of the tab. A sign-in is one step, in which the cookies are set and the user stored; a sign-out is the clearing of the cookies and a revocation, each at any time. A granted renewal always brings a refresh token, and the refresh cookie does not expire by age. The redirect's URL is not modelled, only that it is issued.
- SessionRenewal.EveryOperationEnds: says that no step but a cancellation is left only in final states and that paths are finite; that the network eventually answers is not a claim of the model.
- IdentityCache: storage is available; a successful cache reset cancels the queries on their way, as Apollo's `clearStore` does; a query belongs to the identity stored when it is sent; one profile, one tab.
- IdentityCache.IdentityAndCacheAligned: excludes the three irregular steps; `IrregularStepsAlignedIff` says exactly when each of them breaks it.
- React state, rendering, and the server-side sign-out request in `logout`.
- Flower field: `toFixed` and unit strings, non-integer seeds, and seeds whose first dividend exceeds 2^53; sizes are rounded exactly, durations and delays are exact fractions.
- The verdict normaliser's regular expressions are an arbitrary function of the text; action types that are names of inherited object properties are not looked up in the prototype; `Array.prototype.sort` is a stable insertion sort, and strings are compared and cut by code points instead of UTF-16 units.
- Placeholders.SecondPassIsIdentityIff: for values with two or more opening braces there is only the sufficient `SecondPassIsIdentity`; `OwnPlaceholderUnchanged` shows why.
- The ability engine's condition matching is an arbitrary predicate, its patterns in field names are not modelled. Reading a trimmed path from the user object is an arbitrary lookup; cyclic conditions objects, and two policies that share one nested object, are not modelled.
- EditableField: list items are strings; a write that succeeds becomes the stored value at once (the parent refetches); announcements, the clear dialog and `cancelEdit` are left out.
- Abilities.ServeRequests: says nothing of a policy object that occurs twice in the shared list, which the guard's list has none of; `DefineAbility` covers one request on such a list.
- JobAttempts: job options reach the worker as JSON, in which NaN is null; that is an assumption about the queue library, as is that it runs a failed job again while attempts are left. Queue backoff, unrecoverable errors, stalled jobs, limits beyond 2^53, logging, worker options and the queue map of `getQueue`.
- VaultHydration: the vault's contents do not change during hydration; log lines are reduced to their lists; lower-casing is ASCII, which decides equality with `supabase` alike.
- Extraction, NestJS modules, Prisma, Redis, Supabase and OCR wrappers, log redaction, passkey and magic-link flows: wiring over libraries.
