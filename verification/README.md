# HTTP access layer and UI helpers of react-setup-ts, modelled in Dafny

This project models the client-side core of a React + TypeScript starter application and proves
properties about it.

- **HTTP access layer.** `ApiClient` sits in front of four policies:
  - a time-to-live response cache (`CacheManager`);
  - a request deduplicator that lets calls within 1000 ms share one request;
  - a fixed-window rate limiter whose counters live in `localStorage`;
  - a single-flight refresh of the access token on a 401 response.
- **The client's own logic.** It normalises errors, builds cache keys, decides which verbs
  deduplicate or cache, and adds the authorization and CSRF headers.
- **Pure helpers around it:**
  - the bounded error log and its message classifiers;
  - `classNames`;
  - the role → permission table with `useRole` and the `RoleGuard` decision;
  - the list query keys and optimistic updaters;
  - page navigation;
  - infinite-scroll flattening;
  - the `Input` id rule;
  - `useSafeValue`.

How the model is built:

- **Clock, randomness and network are parameters.** The clock is `now: int`. The random bytes of a
  CSRF token are an argument. The HTTP transport is a function `Request -> Reply`, and the refresh
  endpoint is a function `string -> RefreshReply`.
- **Promises are handles.** A promise is an abstract handle (`nat`). The timer that removes a
  deduplication entry is the explicit event `ExpireKey`.
- **`localStorage` is an object.** It is a `Storage` object holding string items and rate-limit
  records.
- **Stateful files are classes.** Files that update state in place are classes with `modifies`
  clauses: the cache, the deduplicator, the rate limiter, the client, the error log and the
  pagination state.
- **Pure files are functions.** The others are datatypes, functions and lemmas.

Where the documented intent and the code differ, the model follows the code (src/services/api/client.ts):

- A `GET` whose response is cached returns before the rate limiter is consulted. So a cache hit does
  not count against the limit.
- `PUT` and `PATCH` deduplicate only when `skipDeduplication` is set. This is the inverse of `GET` and
  `POST`.
- Two kinds of rejection come out raw, not normalised by `formatError`: a rate-limit rejection, and
  the error of a failed token refresh.
- `handleLogout` removes only the two tokens. It does not clear the cache or the deduplicator, and it
  keeps the CSRF token.

## Model

| member | source | states |
|---|---|---|
| Cache.LiveKeepsVisible | src/utils/cache.ts:55-62 | a sweep never changes what a read at the same instant sees |
| Cache.LiveIsIdempotent | src/utils/cache.ts:55-62 | after a sweep every entry left is live, and a second sweep at the same instant changes nothing |
| Cache.LiveShrinksOverTime | src/utils/cache.ts:55-67 | a later sweep keeps a subset of what an earlier one keeps, and sweeping twice equals sweeping at the later instant |
| Cache.Expired | src/utils/cache.ts:26 | an entry expires once strictly more than `ttl` ms have passed, so at exactly `ttl` it is still live; its meaning over time is `LiveShrinksOverTime` |
| Cache.Visible | src/utils/cache.ts:18-32 | what a read sees: the data of a present, unexpired entry; `CacheManager.Get` and `Has` are proved to return it, and `LiveKeepsVisible` shows a sweep never changes it |
| Cache.Live | src/utils/cache.ts:55-62 | the entries a sweep keeps; `CacheManager.Cleanup` is proved to leave exactly these, and `LiveIsIdempotent` and `LiveShrinksOverTime` state its properties |
| Cache.AfterRead | src/utils/cache.ts:21-29 | a read keeps the key exactly when its entry is visible, deletes only an expired entry under that key, and leaves every other entry as it was |
| Cache.CacheManager.constructor | src/utils/cache.ts:8 | the cache starts empty |
| Cache.CacheManager.Set | src/utils/cache.ts:10-16 | stores `{data, now, ttl}` with ttl defaulting to 300000, overwriting the key; other keys unchanged |
| Cache.CacheManager.Get | src/utils/cache.ts:18-32 | returns the data of a present entry whose age does not exceed its ttl (at exactly `ttl` it is still returned), else nothing; an absent key leaves the map alone; an expired entry is deleted and nothing returned; a live one leaves the map alone (together: the entries become `AfterRead` of the old ones) |
| Cache.CacheManager.Has | src/utils/cache.ts:34-45 | agrees with `Get` on liveness and performs the same delete-on-expiry: the entries become `AfterRead` of the old ones |
| Cache.CacheManager.Delete | src/utils/cache.ts:47-49 | removes exactly the given key |
| Cache.CacheManager.Clear | src/utils/cache.ts:51-53 | leaves the map empty |
| Cache.CacheManager.Cleanup | src/utils/cache.ts:55-62 | the loop that deletes while iterating leaves exactly the live entries, each unchanged |
| JsValues.SerializeOrEmpty | src/services/api/deduplication.ts:11 | `JSON.stringify(x \|\| {})`: a falsy value serialises as `{}` |
| Deduplication.GenerateKey | src/services/api/deduplication.ts:10-12 | the key `verb:url:JSON.stringify(data \|\| {})`; its meaning is stated by `FalsyDataKeysAsEmptyObject` (falsy data keys as `{}`) and `VerbsKeyApart` (different verbs never share a key) |
| LocalStorage.Storage.SetItem | src/services/api/client.ts:151-152 | `setItem` replaces one string item and nothing else |
| LocalStorage.Storage.RemoveItem | src/services/api/client.ts:156-157 | `removeItem` removes one string item and nothing else |
| LocalStorage.Storage.SetRecord | src/utils/security.ts:69 | storing a rate-limit record replaces that key's record and nothing else |
| Deduplication.FalsyDataKeysAsEmptyObject | src/services/api/deduplication.ts:10-12 | missing or falsy data gives the same key as `{}` |
| Deduplication.VerbsKeyApart | src/services/api/deduplication.ts:10-12 | requests with different verbs never share a key, whatever their urls and data |
| Deduplication.DeduplicateStep | src/services/api/deduplication.ts:14-40 | an entry younger than 1000 ms is shared and nothing changes; otherwise a new handle is registered under the key at `now`; other keys untouched |
| Deduplication.SecondCallWithinWindowShares | src/services/api/deduplication.ts:18-24 | a second call less than 1000 ms after one that started a request receives that request's handle |
| Deduplication.CallAfterWindowStartsNewRequest | src/services/api/deduplication.ts:20-37 | at 1000 ms or more the old entry is replaced by a new request |
| Deduplication.RequestDeduplication.constructor | src/services/api/deduplication.ts:7 | no pending requests |
| Deduplication.RequestDeduplication.Deduplicate | src/services/api/deduplication.ts:14-40 | the method does what `DeduplicateStep` says; a new handle is distinct from every registered one |
| Deduplication.RequestDeduplication.ExpireKey | src/services/api/deduplication.ts:28-32 | the delayed removal deletes whatever entry holds the key then, even a newer one |
| Deduplication.RequestDeduplication.Clear | src/services/api/deduplication.ts:42-44 | no pending requests remain |
| Security.EscapeChar | src/utils/security.ts:12-19 | characters other than `& < > " '` are kept; the five become entities starting with `&` |
| Security.EscapeHtml | src/utils/security.ts:11-20 | the output is never shorter and contains no `<`, `>`, `"` or `'` |
| Security.UnescapeAfterEscapeChar | src/utils/security.ts:12-19 | decoding undoes each single replacement, whatever follows |
| Security.EscapeHtmlRoundTrip | src/utils/security.ts:11-20 | decoding the entities gives back the original text: the escaping loses nothing |
| Security.EscapeHtmlKeepsPlainText | src/utils/security.ts:19 | text without special characters is returned unchanged |
| Strings.TrimStart | src/utils/security.ts:23 | removes a prefix made only of white space, after which the text does not start with white space: the longest such suffix |
| Strings.TrimEnd | src/utils/security.ts:23 | removes a suffix made only of white space, after which the text does not end with white space: the longest such prefix |
| Strings.TrimmedAt | src/utils/security.ts:23 | what `trim` means: a piece of the text with only white space before and after it, neither starting nor ending with white space; `TrimmedAtUnique` shows at most one piece qualifies |
| Strings.TrimmedAtUnique | src/utils/security.ts:23 | a text has at most one trimmed form, so `Trim` is fully determined by its contract |
| Strings.TrimEndsTrimmed | src/utils/security.ts:23 | trimming the start and then the end yields the trimmed form |
| Security.Trim | src/utils/security.ts:23 | the trimmed form of the input: a contiguous part with only white space before and after it, neither starting nor ending with white space |
| Security.RemoveAngleBrackets | src/utils/security.ts:23 | no `<` or `>` remains, and every other character keeps its count |
| Security.RemoveAngleBracketsKeepsPlainText | src/utils/security.ts:23 | text without angle brackets is returned unchanged |
| Security.RemoveAngleBracketsAppend | src/utils/security.ts:23 | removal works piece by piece, so the characters kept stay in their order |
| Security.SanitizeInput | src/utils/security.ts:22-24 | the output is the trimmed form of the input with its angle brackets removed: no `<` or `>`, every other character of the trimmed piece kept in order, never longer than the input |
| Security.SanitizeInputNotIdempotent | src/utils/security.ts:22-24 | trimming before removing brackets can leave white space at the ends: sanitising `"< a"` twice differs from once |
| Security.ToHexString | src/utils/security.ts:29 | `byte.toString(16)`: one digit below 16, two digits up to 255 |
| Security.PadStart | src/utils/security.ts:29 | `padStart`: fill characters in front, up to the width |
| Security.ByteToHex | src/utils/security.ts:29 | a byte is exactly two lowercase hex digits, high nibble first, zero padded |
| Security.HexDigit | src/utils/security.ts:29 | every digit is lowercase hex |
| Security.HexValueOfDigit | src/utils/security.ts:29 | reading a printed hex digit back gives the value that printed it |
| Security.EncodeHex | src/utils/security.ts:29 | twice as many characters as bytes, all lowercase hex |
| Security.EncodeHexAt | src/utils/security.ts:29 | the two characters at `2i` are the encoding of byte `i` (byte order) |
| Security.EncodeHexRoundTrip | src/utils/security.ts:26-30 | decoding the hex gives back the bytes: the encoding is injective |
| Security.GenerateCsrfToken | src/utils/security.ts:26-30 | 32 random bytes give 64 lowercase hex characters that decode to those bytes |
| Security.RateLimitDecision | src/utils/security.ts:41-71 | allowed iff no record, the window has closed (`now > resetAt`) or `count < max`; a rejection keeps the record and reports 0 remaining; `remaining = max - count`; a new window starts at count 1; `remaining >= 0` when `max >= 1` |
| Security.Decisions | src/utils/security.ts:41-71 | one decision per call, in order |
| Security.DecisionsInsideWindow | src/utils/security.ts:56-70 | inside one window the i-th call is allowed iff `count + i < max` |
| Security.AtMostMaxPerWindow | src/utils/security.ts:50-70 | from no record, within one window exactly the first `max` calls are allowed |
| Security.AllowedAfterWindowCloses | src/utils/security.ts:58-62 | a call after `resetAt` is allowed with `max - 1` remaining and a fresh window |
| Security.RateLimitCheck | src/utils/security.ts:41-71 | the stored record and the result are those of `RateLimitDecision`; string items are untouched |
| RateLimiting.EndpointsCountApart | src/services/api/rateLimiter.ts:19 | distinct endpoints are counted under distinct storage keys |
| RateLimiting.LimiterKey | src/services/api/rateLimiter.ts:19 | the limiter's key `api_rate_limit_<endpoint>`; `EndpointsCountApart` shows distinct endpoints never share a counter |
| RateLimiting.Allows | src/services/api/rateLimiter.ts:18-31 | the decision `rateLimitCheck` makes for the endpoint's stored record; `RateLimiter.CheckLimit` is proved to succeed exactly when it holds |
| RateLimiting.RecordsAfter | src/services/api/rateLimiter.ts:18-31 | the stored records after one check; `RateLimiter.CheckLimit` is proved to leave exactly these, and `OtherEndpointsUntouched` shows other endpoints keep theirs |
| RateLimiting.Merge | src/services/api/rateLimiter.ts:14-16 | each supplied field replaces the current one, the other keeps its value |
| RateLimiting.OtherEndpointsUntouched | src/services/api/rateLimiter.ts:18-31 | a check never changes another endpoint's counter |
| RateLimiting.RateLimiter.constructor | src/services/api/rateLimiter.ts:9-12 | 100 requests per 60000 ms |
| RateLimiting.RateLimiter.SetConfig | src/services/api/rateLimiter.ts:14-16 | the configuration becomes the merge; the counter storage is not touched |
| RateLimiting.RateLimiter.CheckLimit | src/services/api/rateLimiter.ts:18-31 | fails with the rate-limit message exactly when the check disallows, otherwise succeeds with `true`; the counter moves as the check says |
| RefreshGuard.BeginAsWritten | src/services/api/client.ts:95-125 | as written: an occupied slot is joined; without a refresh token the slot keeps a promise that has already failed |
| RefreshGuard.Begin | src/services/api/client.ts:95-125 | corrected: an occupied slot is joined; without a token the call fails at once and the slot stays empty; otherwise a refresh starts and fills the slot |
| RefreshGuard.Settle | src/services/api/client.ts:119-121 | the `finally` empties the slot |
| RefreshGuard.GuardStaysSound | src/services/api/client.ts:95-125 | with the correction the slot always holds exactly the refresh still in flight |
| RefreshGuard.ConcurrentCallersJoin | src/services/api/client.ts:96-98 | while a refresh is in flight every further caller joins it and nothing new starts |
| RefreshGuard.SettledGuardStartsAgain | src/services/api/client.ts:100-109 | once the refresh has settled, the next call with a token starts a new one |
| RefreshGuard.AsWrittenSlotIsStuck | src/services/api/client.ts:100-124 | as written, a refresh attempted without a token leaves every later caller joined to its failure |
| RefreshGuard.CorrectedSlotRecovers | src/services/api/client.ts:100-124 | corrected, the same scenario starts a real refresh as soon as a token exists |
| Client.Lookup | src/services/api/client.ts:142-148 | `getItem`: the stored item, or none for a missing key |
| Client.FormatError | src/services/api/client.ts:127-140 | status is the response status unless absent or 0, else 500; the message is the server's truthy message, else the error message, else "An error occurred"; `errors` pass through; an `Error` keeps its message, any other value gets "An unknown error occurred" |
| Client.CacheKeyIgnoresFalsyParams | src/services/api/client.ts:161-163 | the key is `api_cache_GET_<url>_<params>`, and absent params collide with `{}` |
| Client.GenerateCacheKey | src/services/api/client.ts:161-163 | the cache key `api_cache_<verb>_<url>_<JSON.stringify(params \|\| {})>`; `CacheKeyIgnoresFalsyParams` states its meaning for absent params |
| Client.CacheHit | src/services/api/client.ts:168-171 | a `get` is answered from the cache: the entry is visible and its data truthy; `ApiClient.CachedValue` and `ApiClient.Get` are proved against it |
| Client.EffectiveTtl | src/services/api/client.ts:167 | `config.ttl \|\| 300000`: a missing or zero ttl becomes 300000 |
| Client.DeduplicationPolicy | src/services/api/client.ts:182-255 | by default only GET and POST deduplicate; the skip flag turns it on, not off, for PUT and PATCH |
| Client.Deduplicates | src/services/api/client.ts:182-238 | which verb methods go through deduplication; `DeduplicationPolicy` states it for both values of the flag |
| Client.PrepareHeaders | src/services/api/client.ts:44-57 | bearer token only when one is stored and auth is not skipped; CSRF header when the client holds a token; always `X-Requested-With`; other headers kept |
| Client.PrepareHeadersIdempotent | src/services/api/client.ts:44-57 | running the interceptor again, as the replay does, changes nothing |
| Client.ReplayCarriesNewToken | src/services/api/client.ts:82-83 | the replayed request carries the refreshed token even when auth is skipped |
| Client.FirstRequest | src/services/api/client.ts:44-57 | the request as it leaves the request interceptor: its headers are those `PrepareHeaders` states for the stored access token and the client's CSRF token |
| Client.Replay | src/services/api/client.ts:80-83 | the replay keeps the request's verb, url, body, params and other headers, and carries `Bearer <new token>` |
| Client.Answer | src/services/api/client.ts:64-91 | a reply that is not refreshed: success passes its body through, an error is rejected normalised with a non-zero status |
| Client.DispatchOutcome | src/services/api/client.ts:64-92 | the outcome of one call through the response interceptor: a raw rejection only after a 401; anything but a 401 settles as the first reply's answer |
| Client.RawOnlyWithoutNewToken | src/services/api/client.ts:69-92 | a rejection is passed through unnormalised exactly when the first reply was a 401 and no stored refresh token or a failed refresh gave no new token |
| Client.ReplayUnauthorizedIsFinal | src/services/api/client.ts:76-91 | a 401 on the replay is not refreshed again: it is rejected normalised with status 401 |
| Client.ApiClient.constructor | src/services/api/client.ts:19-40 | the client starts with a truthy stored CSRF token, or a fresh one that it stores |
| Client.ApiClient.InitializeCsrfToken | src/services/api/client.ts:32-40 | a truthy stored token is kept; otherwise a generated one is held and stored; the token is always truthy |
| Client.ApiClient.HandleLogout | src/services/api/client.ts:155-159 | removes both tokens but not the CSRF token, and redirects to the login page |
| Client.ApiClient.RefreshAccessToken | src/services/api/client.ts:95-125 | without a refresh token: fails with "No refresh token available" and logs out, nothing sent; otherwise one call to the endpoint, which stores both new tokens or logs out; the slot is free afterwards |
| Client.ApiClient.Dispatch | src/services/api/client.ts:64-92 | the outcome is `DispatchOutcome` of the first request; the first request carries the interceptor's headers; success passes through; non-401 errors are normalised; on a 401 without a refresh token it rejects with "No refresh token available" after one request and no refresh call; after a failed refresh it logs out and rejects with the refresh error after one request; after a successful refresh it stores both tokens and sends exactly one replay with the new token, whose failure is normalised |
| Client.ApiClient.Deduplicated | src/services/api/client.ts:181-184 | a caller within the window gets the pending request's outcome and sends nothing; otherwise the request is sent, its outcome is `DispatchOutcome` of it, and that outcome is recorded |
| Client.ApiClient.ExpireDeduplication | src/services/api/deduplication.ts:28-32 | the delayed removal deletes the key's entry and keeps the client's invariant |
| Client.ApiClient.Call | src/services/api/client.ts:198-208 | the rate limit comes before any transport call; a rejection sends nothing and touches nothing else; the deduplication rule as above; a request that is not shared is sent and settles as `DispatchOutcome` |
| Client.ApiClient.CachedValue | src/services/api/client.ts:168-171 | `has` then `get`: answers exactly on a `CacheHit`, with the visible data, and leaves the entries as a read does |
| Client.ApiClient.Get | src/services/api/client.ts:165-191 | a truthy live cache entry answers with the cache, limiter, deduplicator and transport untouched; otherwise the limiter records the call, a rejection sends nothing, a call within the window of a pending identical `GET` shares its outcome, any other call is sent and settles as `DispatchOutcome`; unless `skipCache` (which also skips the lookup) resolved data is stored under the key for `EffectiveTtl` and a failed call leaves only the read's deletion; no other cache key changes |
| Client.ApiClient.Post | src/services/api/client.ts:193-209 | rate limit first; deduplicated on the body unless `skipDeduplication`; a shared call receives the pending outcome and sends nothing; any other allowed call is sent and settles as `DispatchOutcome` |
| Client.ApiClient.Put | src/services/api/client.ts:211-227 | rate limit first; deduplicated only when `skipDeduplication` is set; a shared call receives the pending outcome and sends nothing; any other allowed call is sent and settles as `DispatchOutcome` |
| Client.ApiClient.Patch | src/services/api/client.ts:229-245 | rate limit first; deduplicated only when `skipDeduplication` is set; a shared call receives the pending outcome and sends nothing; any other allowed call is sent and settles as `DispatchOutcome` |
| Client.ApiClient.Delete | src/services/api/client.ts:247-256 | rate limit first; never deduplicated or cached; an allowed call is sent and settles as `DispatchOutcome` |
| ErrorHandling.Newest | src/utils/errorHandler.ts:25-29 | the bounded log holds min(n, 50) of n entries (which ones is fixed by `LoggedIsNewest` and `LogKeepsNewest`) |
| ErrorHandling.Logged | src/utils/errorHandler.ts:25-29 | one `push`, then one `shift` above 50 entries; `LoggedIsNewest` shows it keeps the newest 50 with the new entry last |
| ErrorHandling.LoggedIsNewest | src/utils/errorHandler.ts:25-29 | one push and shift on a log of at most 50 keeps the newest 50, the new entry last |
| ErrorHandling.NewestAbsorbs | src/utils/errorHandler.ts:25-29 | dropping old entries early does not change which entries are newest |
| ErrorHandling.LogKeepsNewest | src/utils/errorHandler.ts:25-29 | after any number of errors the log is the newest 50 of all of them, in order |
| ErrorHandling.ErrorHandler.constructor | src/utils/errorHandler.ts:12-13 | the log starts empty |
| ErrorHandling.ErrorHandler.LogError | src/utils/errorHandler.ts:15-36 | the log stays bounded and becomes the newest entries with this error last; the result says whether it would be reported |
| ErrorHandling.ErrorHandler.GetErrors | src/utils/errorHandler.ts:64-66 | the entries in insertion order, as a separate value |
| ErrorHandling.ErrorHandler.ClearErrors | src/utils/errorHandler.ts:68-70 | the log is empty |
| ErrorHandling.ErrorHandler.GetLastError | src/utils/errorHandler.ts:72-74 | the newest entry, or none exactly when the log is empty |
| ErrorHandling.IsUndefinedError | src/utils/errorHandler.ts:76-84 | the message mentions `undefined`, `Cannot read`, `null` or `is not defined`; `TimeoutAndUndefinedStillReported` shows such errors are still reported |
| ErrorHandling.IsNetworkError | src/utils/errorHandler.ts:86-94 | the message mentions `Network`, `fetch`, `timeout` or `Failed to fetch`; `FailedToFetchSubsumed` shows the last test is redundant |
| ErrorHandling.ShouldReportToServer | src/utils/errorHandler.ts:38-46 | everything is reported except messages mentioning `Network` or `fetch`; `UnreportedMeansNetwork` relates it to `IsNetworkError` |
| ErrorHandling.FailedToFetchSubsumed | src/utils/errorHandler.ts:86-94 | the "Failed to fetch" test adds nothing to the "fetch" test |
| ErrorHandling.UnreportedMeansNetwork | src/utils/errorHandler.ts:38-46 | a message that is not reported is a network error |
| ErrorHandling.TimeoutAndUndefinedStillReported | src/utils/errorHandler.ts:38-46 | "timeout" is a network error and still reported; undefined-value errors are reported too |
| ClassNames.KeepTruthy | src/utils/classNames.ts:5 | exactly the truthy arguments remain |
| ClassNames.KeepTruthyAppend | src/utils/classNames.ts:5 | filtering works piece by piece, so the kept arguments stay in order |
| ClassNames.MapToText | src/utils/classNames.ts:6-17 | one text per argument, in order |
| ClassNames.TrueKeys | src/utils/classNames.ts:11-13 | exactly the keys of entries whose value is true, never more keys than entries |
| ClassNames.TrueKeysAppend | src/utils/classNames.ts:11-13 | the keys keep the entries' order |
| ClassNames.DropEmpty | src/utils/classNames.ts:18 | exactly the non-empty texts remain |
| ClassNames.DropEmptyAppend | src/utils/classNames.ts:18 | dropping works piece by piece, so the kept texts stay in order |
| ClassNames.Contribution | src/utils/classNames.ts:5-18 | one argument adds at most one non-empty segment |
| ClassNames.Contributions | src/utils/classNames.ts:5-18 | the segments never include an empty one |
| ClassNames.PipelineIsContributions | src/utils/classNames.ts:3-20 | the filter/map/filter pipeline gives exactly each argument's segment, in argument order |
| ClassNames.ClassNames | src/utils/classNames.ts:3-20 | the result is each argument's segment, in argument order, joined by single spaces |
| ClassNames.ClassNamesAppend | src/utils/classNames.ts:18-19 | the result for two argument lists is the two results joined by one space, with no empty segment |
| ClassNames.SilentArgument | src/utils/classNames.ts:5-18 | falsy values, `true`, and objects without truthy values give `""` |
| ClassNames.SilentArguments | src/utils/classNames.ts:5-19 | such an argument anywhere changes nothing; no arguments give `""` |
| ClassNames.TextsAppearInOrder | src/utils/classNames.ts:7-9 | non-empty strings appear verbatim, in argument order |
| Roles.ManagersHoldEverything | src/modules/roles/types.ts:49-70 | manager and admin hold every permission |
| Roles.CustomerPermissions | src/modules/roles/types.ts:16-26 | a customer holds exactly view orders, create orders and view menu |
| Roles.EveryoneViews | src/modules/roles/types.ts:15-71 | every role may view orders and the menu |
| Roles.ManagementIsReserved | src/modules/roles/types.ts:16-70 | managing the menu, tables and users and viewing analytics belong to manager and admin only |
| Roles.PermissionsNest | src/modules/roles/types.ts:16-70 | customer ⊆ waiter, chef ⊆ waiter, waiter ⊆ manager = admin; customer and chef incomparable |
| Roles.PermissionsOf | src/modules/roles/types.ts:15-71 | the `ROLE_PERMISSIONS` row of a role; `CustomerPermissions`, `ManagersHoldEverything`, `EveryoneViews`, `ManagementIsReserved` and `PermissionsNest` state the table's content |
| RoleHook.EffectiveRole | src/modules/roles/hooks/useRole.ts:8-11 | the user's role, `customer` without a user or a role |
| RoleHook.UseRole | src/modules/roles/hooks/useRole.ts:6-35 | the permissions are the table row of the effective role |
| RoleHook.HasPermission | src/modules/roles/hooks/useRole.ts:17-19 | reads the permission from the hook's row; `PermissionFollowsTable` states it against the table |
| RoleHook.HasAnyRole | src/modules/roles/hooks/useRole.ts:21-23 | whether the hook's role is listed; `AnyRoleMeansListed` states it |
| RoleHook.PermissionFollowsTable | src/modules/roles/hooks/useRole.ts:13-19 | `hasPermission` reads the role's row; without a user that is the customer row |
| RoleHook.AnyRoleMeansListed | src/modules/roles/hooks/useRole.ts:21-23 | `hasAnyRole` holds iff the role is listed; an empty list gives false |
| RoleHook.ExactlyOneFlag | src/modules/roles/hooks/useRole.ts:30-34 | exactly one role flag is set, the user's role's |
| RoleGuard.Decide | src/modules/roles/components/RoleGuard.tsx:17-31 | loading first; no user redirects to `/login`; a role not allowed gives the fallback or `/dashboard`; children iff not loading, signed in and allowed |
| RoleGuard.GuardAgreesWithHook | src/modules/roles/components/RoleGuard.tsx:25-27 | the guard admits a signed-in user exactly when `hasAnyRole` holds |
| RoleGuard.EmptyAllowListNeverRenders | src/modules/roles/components/RoleGuard.tsx:27-31 | an empty allow list never renders children |
| ListQuery.ItemsKey | src/modules/list/hooks/useListQuery.ts:26 | `["list", "items"]` |
| ListQuery.ItemKey | src/modules/list/hooks/useListQuery.ts:27 | the items key followed by the id |
| ListQuery.SearchKey | src/modules/list/hooks/useListQuery.ts:28 | the items key followed by `"search"` and the term |
| ListQuery.KeysApart | src/modules/list/hooks/useListQuery.ts:24-29 | item and search keys never coincide, and each determines its argument |
| ListQuery.ListItemsQuery | src/modules/list/hooks/useListQuery.ts:33-36 | a non-empty term selects the search key and `{search: term}`; otherwise the items key and no params |
| ListQuery.UnsearchedListSharesCacheEntry | src/modules/list/hooks/useListQuery.ts:35-39 | an unsearched list uses the client cache entry of `{}` params, kept for 60 s |
| ListQuery.CreateUpdate | src/modules/list/hooks/useListQuery.ts:59-68 | the cached items kept in order plus one placeholder `temp-<now>` with status "Active"; an unfetched list becomes the placeholder alone |
| ListQuery.UpdateAll | src/modules/list/hooks/useListQuery.ts:90-92 | same length and order; items with the id get the supplied fields, others are unchanged |
| ListQuery.Overlay | src/modules/list/hooks/useListQuery.ts:91 | the spread: the update's id, each supplied field replaces the item's, the others and the status are kept |
| ListQuery.UpdateUpdate | src/modules/list/hooks/useListQuery.ts:87-93 | an unfetched list stays unfetched |
| ListQuery.UpdateKeepsIdsAndSettles | src/modules/list/hooks/useListQuery.ts:90-92 | ids and status are kept, and applying the update twice equals once |
| ListQuery.RemoveId | src/modules/list/hooks/useListQuery.ts:113 | no item with the id remains, and every remaining item was there |
| ListQuery.DeleteUpdate | src/modules/list/hooks/useListQuery.ts:110-114 | an unfetched list stays unfetched |
| ListQuery.RemoveIdDistributes | src/modules/list/hooks/useListQuery.ts:113 | removal works piecewise, so the remaining items keep their relative order |
| ListQuery.RemoveAbsentId | src/modules/list/hooks/useListQuery.ts:113 | a list without the id is unchanged |
| ListQuery.DeleteIsIdempotent | src/modules/list/hooks/useListQuery.ts:110-114 | deleting twice equals deleting once |
| Pagination.PageSize | src/hooks/usePagination.ts:39 | a missing page size is 10; a given one, even 0, is kept |
| Pagination.TotalPages | src/hooks/usePagination.ts:63 | 0 without response data |
| Pagination.Total | src/hooks/usePagination.ts:64 | 0 without response data |
| Pagination.NavigationStaysInBounds | src/hooks/usePagination.ts:40-76 | from the first page, or any page in bounds, every series of next/previous stays within `1 .. max(1, totalPages)` |
| Pagination.NextThenPreviousReturns | src/hooks/usePagination.ts:66-76 | a possible step forward followed by one back returns to the page |
| Pagination.PaginationState.constructor | src/hooks/usePagination.ts:39-40 | page 1, page size defaulted |
| Pagination.PaginationState.NextPage | src/hooks/usePagination.ts:66-70 | one page on iff `page < totalPages`, otherwise unchanged; bounds kept |
| Pagination.PaginationState.PreviousPage | src/hooks/usePagination.ts:72-76 | one page back iff `page > 1`, otherwise unchanged; bounds kept |
| Pagination.PaginationState.SetPage | src/hooks/usePagination.ts:40 | the page becomes the given one |
| InfiniteScroll.DefaultNextPageParam | src/hooks/useInfiniteScroll.ts:40-43 | the next page number while there are more; none otherwise or without data |
| InfiniteScroll.AllItems | src/hooks/useInfiniteScroll.ts:70 | no data gives no items |
| InfiniteScroll.Flatten | src/hooks/useInfiniteScroll.ts:70 | the `flatMap` over the pages; `FlattenAppend`, `FlattenCounts` and `FlattenPositions` state its order and size |
| InfiniteScroll.FlattenAppend | src/hooks/useInfiniteScroll.ts:70 | more pages append their items after the ones already there |
| InfiniteScroll.FlattenCounts | src/hooks/useInfiniteScroll.ts:70 | the number of items is the sum over the pages, and pages without data add none |
| InfiniteScroll.FlattenPositions | src/hooks/useInfiniteScroll.ts:70 | the first page's items come first, then the rest in page order |
| InfiniteScroll.HasNextPage | src/hooks/useInfiniteScroll.ts:75 | true only when the library reports a next page |
| InputIds.CollapseWhitespace | src/components/ui/Input/Input.tsx:40 | the result has no white space and is never longer |
| InputIds.CollapseKeepsPlainText | src/components/ui/Input/Input.tsx:40 | text without white space is unchanged, so the rule is idempotent |
| InputIds.RunBecomesOneDash | src/components/ui/Input/Input.tsx:40 | a maximal white-space run becomes exactly one `-` |
| InputIds.DropRun | src/components/ui/Input/Input.tsx:40 | a whole white-space run before a non-white character is dropped at once, and nothing after it |
| InputIds.DerivedId | src/components/ui/Input/Input.tsx:40 | a derived id starts with `input-` and has no white space |
| InputIds.InputId | src/components/ui/Input/Input.tsx:40 | a non-empty explicit id is used unchanged, otherwise the derived one |
| InputIds.HelperTextId | src/components/ui/Input/Input.tsx:41 | `<inputId>-helper-text` iff there is helper text |
| InputIds.AriaDescribedBy | src/components/ui/Input/Input.tsx:68 | a non-empty explicit value, otherwise the helper text id |
| InputIds.DescribedByHelperText | src/components/ui/Input/Input.tsx:40-68 | without an explicit value the input is described by its helper text exactly when it has one |
| SafeValue.UseSafeValue | src/hooks/useSafeState.ts:19-27 | `null` and `undefined` become the fallback; anything else is returned unchanged |
| SafeValue.SafeValueSettles | src/hooks/useSafeState.ts:19-27 | applying it twice equals once; a usable fallback gives a usable result |
| SafeValue.FalsyValuesKept | src/hooks/useSafeState.ts:20-26 | `0`, `""` and `false` are kept |

## Left out

- Axios itself is not modelled. This covers the base URL, the 30 s timeout, `Content-Type` and interceptor registration. The transport is a function parameter, and only the headers the interceptor sets are modelled.
- Asynchrony is not modelled. Every request settles before its verb method returns, so a caller sharing a deduplicated request receives the recorded outcome, not a promise still pending.
- Client.ApiClient.RefreshAccessToken: because calls run one at a time, single-flight joining is proved on `RefreshGuard` (`ConcurrentCallersJoin`), not on the client. The guard is idle at every call only because the client uses the corrected `RefreshGuard.Begin`. With the guard as written (`RefreshGuard.BeginAsWritten`), a 401 with no refresh token stored leaves the rejected promise in the slot. Every later 401 then rejects at once without calling the refresh endpoint, until the page reloads (see "## Findings").
- Client.ApiClient.Dispatch: a refresh reply is taken to hold two string tokens. The source would store `undefined` when the reply lacks them.
- Client.ApiClient.Dispatch: an axios error without a request config (`originalRequest` undefined) is not modelled.
- Client.ApiClient.Get: `params` is modelled only for `GET`. Other verbs send no params, and the rest of the axios config they forward is not modelled.
- Clock: one instant `now` per call. The source reads `Date.now()` several times within a call.
- The cache sweep's `setInterval` is not modelled. A sweep is the `Cleanup` call.
- The deduplication timer is not modelled. Its `setTimeout` is the `ExpireKey` event, issued by the caller.
- `JSON.stringify` is modelled as text only for the JavaScript values that appear as params and bodies, as far as the cache and deduplication keys need it. Its injectivity is not proved.
- JsValues.Quote: escapes only `"` and `\`. JSON also escapes the control characters below U+0020 (`\n`, `\t`, `\u0000` and so on), and a key built from a string holding one differs from the source's.
- Rate-limit records are stored as values, not as JSON text; `JSON.parse` is not modelled.
- Numbers are integers. `NaN`, fractional numbers and floating-point formatting are not modelled.
- `trim`, `\s` and `toLowerCase` cover ASCII only.
- `crypto.getRandomValues` is not modelled. The 32 random bytes are a parameter.
- `sanitizeHtml` (DOMPurify) and `validateUrl` (the `URL` class) are foreign libraries and are left out.
- Console output, `reportToServer` (a `fetch`) and the `window` error listeners of the error handler are I/O. They are left out.
- `LogError` returns whether the error would be reported.
- `window.location.href` is modelled only as the flag `redirectedToLogin`.
- React is not modelled: rendering, `useQuery`/`useInfiniteQuery`/`useMutation` wiring, `useState` and `useSafeState`. The hooks' return values are modelled as plain functions of their inputs.
- The role guard renders views. They are modelled as the tags `Loading`, `Redirect`, `Fallback` and `Children`.
- Pagination.PaginationState.NextPage: the page count is passed in. React's functional `setPage` update, and a stale closure over `page`, are not modelled.
- ListQuery.UpdateUpdate: an update field set explicitly to `undefined` is not modelled. The spread would copy it over the item's value.

## Findings

| source | as written | input that shows it | evidently intended | confidence | as-written member | corrected member |
|---|---|---|---|---|---|---|
| src/services/api/client.ts:100-124 | The refresh body is an async function. It throws before its first `await` when no refresh token is stored, so its `finally` empties `refreshTokenPromise` before the assignment stores the returned rejected promise there. The slot then holds a settled, rejected promise until the page reloads. The logout that follows sets `window.location.href = '/login'`, which reloads the page. Until that navigation completes, every further 401 is rejected at once and no refresh is attempted. | no `refresh_token` in storage, then a 401; later a token is stored and another 401 arrives | the slot is empty once the refresh has settled, and a later 401 starts a new refresh | not executed | RefreshGuard.AsWrittenSlotIsStuck | RefreshGuard.CorrectedSlotRecovers |

The client (`Client.ApiClient.RefreshAccessToken`) uses the corrected guard `RefreshGuard.Begin`. `RefreshGuard.GuardStaysSound` proves that this guard's slot always holds exactly the refresh in flight.
