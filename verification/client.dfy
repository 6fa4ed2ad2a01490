/**
 * `ApiClient` (src/services/api/client.ts): error normalisation, the cache key, which verbs
 * deduplicate or cache, the request interceptor's headers, the one-shot 401 refresh-and-replay, and
 * the order of steps in each verb method. The transport and the refresh endpoint are function
 * parameters, each call happens at the single instant `now`, and a request settles before its
 * method returns.
 */
module Client {
  import opened Wrappers
  import opened JsValues
  import opened ApiTypes
  import opened LocalStorage
  import opened Security
  import opened Cache
  import opened Deduplication
  import opened RateLimiting
  import opened RefreshGuard

  const AccessTokenKey: string := "access_token"
  const RefreshTokenKey: string := "refresh_token"
  const CsrfTokenKey: string := "csrf_token"
  const NoRefreshTokenMessage: string := "No refresh token available"

  // ---------------------------------------------------------------- pure decisions

  /** `localStorage.getItem(key)`: the item, or `null`. */
  function Lookup(items: map<string, string>, key: string): (r: Option<string>)
    ensures r.Some? <==> key in items
    ensures r.Some? ==> r.value == items[key]
  {
    if key in items then Some(items[key]) else None
  }

  /** A stored string is truthy: present and not empty. */
  predicate Present(s: Option<string>) {
    s.Some? && s.value != ""
  }

  /**
   * `formatError`. For an axios error the message is the server's truthy `message`, else the error's
   * own message, else a generic text; the status is the response status unless it is absent or 0; the
   * server's `errors` pass through. An `Error` keeps its message, anything else gets a generic one;
   * both have status 500.
   */
  function FormatError(f: Failure): (e: ApiError)
    ensures e.status != 0
    ensures e.status == if f.AxiosFailure? && f.response.Some? && f.response.value.status != 0
                        then f.response.value.status else 500
    ensures f.AxiosFailure? ==> Truthy(e.message)
    ensures f.AxiosFailure? && f.response.Some? && Truthy(Field(f.response.value.data, "message")) ==>
              e.message == Field(f.response.value.data, "message")
    ensures f.AxiosFailure? && (f.response.None? || !Truthy(Field(f.response.value.data, "message"))) ==>
              e.message == Str(if f.message != "" then f.message else "An error occurred")
    ensures f.AxiosFailure? && f.response.Some? ==> e.errors == Field(f.response.value.data, "errors")
    ensures !(f.AxiosFailure? && f.response.Some?) ==> e.errors == Undefined
    ensures f.PlainError? ==> e.message == Str(f.message)
    ensures f.NonErrorValue? ==> e.message == Str("An unknown error occurred")
  {
    match f
    case AxiosFailure(message, response) =>
      var data := if response.Some? then response.value.data else Undefined;
      ApiError(
        Or(Field(data, "message"), Or(Str(message), Str("An error occurred"))),
        if response.Some? && response.value.status != 0 then response.value.status else 500,
        Field(data, "errors"))
    case PlainError(message) => ApiError(Str(message), 500, Undefined)
    case NonErrorValue => ApiError(Str("An unknown error occurred"), 500, Undefined)
  }

  /** The response that triggers a refresh: an axios error whose response has status 401. */
  predicate IsUnauthorized(f: Failure) {
    f.AxiosFailure? && f.response.Some? && f.response.value.status == 401
  }

  /** `generateCacheKey`: `api_cache_<verb>_<url>_<JSON.stringify(params || {})>`. */
  function GenerateCacheKey(verb: string, url: string, params: JsValue): string {
    "api_cache_" + verb + "_" + url + "_" + SerializeOrEmpty(params)
  }

  /** Absent or falsy params share one cache entry with `{}`. */
  lemma CacheKeyIgnoresFalsyParams(url: string, params: JsValue)
    requires !Truthy(params)
    ensures GenerateCacheKey("GET", url, params) == GenerateCacheKey("GET", url, EmptyObject)
    ensures GenerateCacheKey("GET", url, params) == "api_cache_GET_" + url + "_{}"
  {
  }

  /** `config?.ttl || 300000`: a missing or zero ttl falls back to the cache default. */
  function EffectiveTtl(config: RequestConfig): (ttl: int)
    ensures ttl != 0
    ensures config.ttl.Some? && config.ttl.value != 0 ==> ttl == config.ttl.value
    ensures config.ttl.None? || config.ttl.value == 0 ==> ttl == DefaultTtl
  {
    if config.ttl.Some? && config.ttl.value != 0 then config.ttl.value else DefaultTtl
  }

  /**
   * Whether a verb method goes through deduplication: GET and POST unless `skipDeduplication`,
   * PUT and PATCH only when it is set, DELETE never.
   */
  predicate Deduplicates(verb: Verb, skipDeduplication: bool) {
    match verb
    case GET => !skipDeduplication
    case POST => !skipDeduplication
    case PUT => skipDeduplication
    case PATCH => skipDeduplication
    case DELETE => false
  }

  /** With default options only GET and POST are deduplicated; the flag turns it on for PUT and PATCH. */
  lemma {:induction false} DeduplicationPolicy(verb: Verb)
    ensures Deduplicates(verb, false) <==> verb == GET || verb == POST
    ensures Deduplicates(verb, true) <==> verb == PUT || verb == PATCH
  {
  }

  /**
   * The request interceptor: the bearer token when a truthy access token is stored and the call does
   * not skip auth, the CSRF header when the client holds a truthy token, and `X-Requested-With`.
   * A header it does not set keeps the value the request already carries.
   */
  function PrepareHeaders(h: Headers, accessToken: Option<string>, skipAuth: bool, csrf: Option<string>): (r: Headers)
    ensures r.requestedWith == Some("XMLHttpRequest")
    ensures Present(accessToken) && !skipAuth ==> r.authorization == Some("Bearer " + accessToken.value)
    ensures !(Present(accessToken) && !skipAuth) ==> r.authorization == h.authorization
    ensures Present(csrf) ==> r.csrfToken == csrf
    ensures !Present(csrf) ==> r.csrfToken == h.csrfToken
  {
    Headers(
      if Present(accessToken) && !skipAuth then Some("Bearer " + accessToken.value) else h.authorization,
      if Present(csrf) then csrf else h.csrfToken,
      Some("XMLHttpRequest"))
  }

  /** Running the interceptor again (as the replay after a refresh does) changes nothing more. */
  lemma {:induction false} PrepareHeadersIdempotent(h: Headers, accessToken: Option<string>, skipAuth: bool, csrf: Option<string>)
    ensures var once := PrepareHeaders(h, accessToken, skipAuth, csrf);
            PrepareHeaders(once, accessToken, skipAuth, csrf) == once
  {
  }

  /** The replay carries the refreshed token whether or not the interceptor itself would add one. */
  lemma {:induction false} ReplayCarriesNewToken(h: Headers, token: string, skipAuth: bool, csrf: Option<string>)
    ensures PrepareHeaders(h.(authorization := Some("Bearer " + token)), Some(token), skipAuth, csrf).authorization
            == Some("Bearer " + token)
  {
  }

  /** The request the client sends first for a call, given the stored items and its CSRF token. */
  function FirstRequest(verb: Verb, url: string, body: JsValue, params: JsValue, config: RequestConfig,
                        items: map<string, string>, csrf: Option<string>): Request
  {
    Request(verb, url, body, params, PrepareHeaders(NoHeaders, Lookup(items, AccessTokenKey), config.skipAuth, csrf))
  }

  /** A `GET` answered from the cache: a visible entry whose value is truthy. */
  predicate CacheHit(entries: map<string, CacheEntry>, key: string, now: int) {
    var v := Visible(entries, key, now);
    v.Some? && Truthy(v.value)
  }

  /** The replay after a refresh: the first request with the new bearer token in its headers. */
  function Replay(first: Request, token: string): (r: Request)
    ensures r.verb == first.verb && r.url == first.url && r.body == first.body && r.params == first.params
    ensures r.headers.authorization == Some("Bearer " + token)
    ensures r.headers.csrfToken == first.headers.csrfToken && r.headers.requestedWith == first.headers.requestedWith
  {
    first.(headers := first.headers.(authorization := Some("Bearer " + token)))
  }

  /** How a reply settles when no refresh follows: the body, or the error normalised by `FormatError`. */
  function Answer(reply: Reply): (o: Outcome)
    ensures o.Resolved? <==> reply.Responded?
    ensures o.Resolved? ==> o.data == reply.body
    ensures o.Rejected? ==> o.reason.Normalized? && o.reason.error.status != 0
  {
    if reply.Responded? then Resolved(reply.body) else Rejected(Normalized(FormatError(reply.failure)))
  }

  /**
   * The outcome of one call through the axios instance and its response interceptor, when the request
   * interceptor produced `first` and `items` were stored: the first reply when it is not a 401; on a 401,
   * without a truthy refresh token the fixed error, after a failed refresh that refresh's error as it is,
   * and after a successful one the replay's reply, which is never refreshed again.
   */
  function DispatchOutcome(first: Request, items: map<string, string>, transport: Request -> Reply,
                           refresher: string -> RefreshReply): (o: Outcome)
    ensures o.Rejected? && o.reason.Raw? ==> transport(first).Threw? && IsUnauthorized(transport(first).failure)
    ensures !(transport(first).Threw? && IsUnauthorized(transport(first).failure)) ==> o == Answer(transport(first))
  {
    var reply := transport(first);
    if reply.Responded? || !IsUnauthorized(reply.failure) then Answer(reply)
    else
      var rt := Lookup(items, RefreshTokenKey);
      if !Present(rt) then Rejected(Raw(PlainError(NoRefreshTokenMessage)))
      else match refresher(rt.value)
        case RefreshFailed(failure) => Rejected(Raw(failure))
        case Refreshed(token, _) => Answer(transport(Replay(first, token)))
  }

  /**
   * A rejection passes through unnormalised exactly when the first reply was a 401 and no new token
   * could be had: none was stored, or the refresh endpoint failed.
   */
  lemma {:induction false} RawOnlyWithoutNewToken(first: Request, items: map<string, string>,
                                                  transport: Request -> Reply, refresher: string -> RefreshReply)
    ensures var o := DispatchOutcome(first, items, transport, refresher);
            var reply := transport(first);
            var rt := Lookup(items, RefreshTokenKey);
            (o.Rejected? && o.reason.Raw?) <==>
              reply.Threw? && IsUnauthorized(reply.failure) && (!Present(rt) || refresher(rt.value).RefreshFailed?)
  {
  }

  /** A 401 on the replay is not refreshed again: it settles as a normalised error with status 401. */
  lemma {:induction false} ReplayUnauthorizedIsFinal(first: Request, items: map<string, string>,
                                                     transport: Request -> Reply, refresher: string -> RefreshReply)
    requires transport(first).Threw? && IsUnauthorized(transport(first).failure)
    requires Present(Lookup(items, RefreshTokenKey))
    requires refresher(items[RefreshTokenKey]).Refreshed?
    requires var second := transport(Replay(first, refresher(items[RefreshTokenKey]).accessToken));
             second.Threw? && IsUnauthorized(second.failure)
    ensures var o := DispatchOutcome(first, items, transport, refresher);
            o.Rejected? && o.reason.Normalized? && o.reason.error.status == 401
  {
  }

  // ---------------------------------------------------------------- the client

  class ApiClient {
    /** `localStorage`, shared with the rate limiter. */
    const storage: Storage
    const cache: CacheManager
    const dedup: RequestDeduplication
    const limiter: RateLimiter
    var csrfToken: Option<string>
    /** `refreshTokenPromise`, with the corrected guard. */
    var guard: GuardState
    /** How each deduplicated request settled, by handle: what a caller sharing it receives. */
    var settled: map<Handle, Outcome>
    /** `window.location.href = '/login'` has run. */
    var redirectedToLogin: bool
    /** Every request handed to the transport, in order. */
    ghost var sent: seq<Request>
    /** Every refresh token sent to the refresh endpoint, in order. */
    ghost var refreshCalls: seq<string>

    /**
     * Between calls: the limiter counts in this client's storage, no refresh is in flight, and every
     * pending deduplicated request has settled.
     */
    ghost predicate Valid()
      reads this, limiter, dedup
    {
      limiter.store == storage && dedup.Valid() &&
      guard.slot.None? && guard.pending.None? &&
      forall k :: k in dedup.pendingRequests ==> dedup.pendingRequests[k].handle in settled
    }

    /** `constructor`: the interceptors are `PrepareHeaders` and `Dispatch`; then the CSRF token is loaded or created. */
    constructor(storage: Storage, random: seq<byte>)
      requires |random| == CsrfTokenBytes
      modifies storage
      ensures Valid() && fresh(cache) && fresh(dedup) && fresh(limiter)
      ensures this.storage == storage && storage.rateRecords == old(storage.rateRecords)
      ensures sent == [] && refreshCalls == [] && !redirectedToLogin
      ensures var stored := Lookup(old(storage.text), CsrfTokenKey);
              if Present(stored) then csrfToken == stored && storage.text == old(storage.text)
              else csrfToken == Some(GenerateCsrfToken(random)) &&
                   storage.text == old(storage.text)[CsrfTokenKey := GenerateCsrfToken(random)]
    {
      this.storage := storage;
      cache := new CacheManager();
      dedup := new RequestDeduplication();
      limiter := new RateLimiter(storage);
      csrfToken := None;
      guard := Idle;
      settled := map[];
      redirectedToLogin := false;
      sent := [];
      refreshCalls := [];
      new;
      InitializeCsrfToken(random);
    }

    /** `initializeCSRFToken`: keep a truthy stored token, otherwise generate one and store it. */
    method InitializeCsrfToken(random: seq<byte>)
      requires |random| == CsrfTokenBytes
      modifies this, storage
      ensures var stored := Lookup(old(storage.text), CsrfTokenKey);
              if Present(stored) then csrfToken == stored && storage.text == old(storage.text)
              else csrfToken == Some(GenerateCsrfToken(random)) &&
                   storage.text == old(storage.text)[CsrfTokenKey := GenerateCsrfToken(random)]
      ensures Present(csrfToken)
      ensures storage.rateRecords == old(storage.rateRecords)
      ensures guard == old(guard) && settled == old(settled) && redirectedToLogin == old(redirectedToLogin)
      ensures sent == old(sent) && refreshCalls == old(refreshCalls)
    {
      var stored := Lookup(storage.text, CsrfTokenKey);
      if Present(stored) {
        csrfToken := stored;
      } else {
        var token := GenerateCsrfToken(random);
        csrfToken := Some(token);
        storage.SetItem(CsrfTokenKey, token);
      }
    }

    /** `handleLogout`: both tokens go (the CSRF token stays) and the browser is sent to `/login`. */
    method HandleLogout()
      modifies this, storage
      ensures storage.text == old(storage.text) - {AccessTokenKey, RefreshTokenKey}
      ensures storage.rateRecords == old(storage.rateRecords)
      ensures redirectedToLogin
      ensures csrfToken == old(csrfToken) && guard == old(guard) && settled == old(settled)
      ensures sent == old(sent) && refreshCalls == old(refreshCalls)
    {
      storage.RemoveItem(AccessTokenKey);
      storage.RemoveItem(RefreshTokenKey);
      redirectedToLogin := true;
    }

    /**
     * `refreshAccessToken` with the corrected guard. Without a truthy refresh token it logs out and
     * fails at once; otherwise it posts the token, stores both tokens it gets back and yields the new
     * access token, or logs out and fails with the endpoint's error. Either way the slot is free after.
     */
    method RefreshAccessToken(refresher: string -> RefreshReply) returns (r: Result<string, Failure>)
      requires guard.slot.None? && guard.pending.None?
      modifies this, storage
      ensures guard.slot.None? && guard.pending.None?
      ensures csrfToken == old(csrfToken) && settled == old(settled) && sent == old(sent)
      ensures storage.rateRecords == old(storage.rateRecords)
      ensures var rt := Lookup(old(storage.text), RefreshTokenKey);
              !Present(rt) ==>
                r == Failure(PlainError(NoRefreshTokenMessage)) && refreshCalls == old(refreshCalls) &&
                storage.text == old(storage.text) - {AccessTokenKey, RefreshTokenKey} && redirectedToLogin
      ensures var rt := Lookup(old(storage.text), RefreshTokenKey);
              Present(rt) ==> refreshCalls == old(refreshCalls) + [rt.value]
      ensures var rt := Lookup(old(storage.text), RefreshTokenKey);
              Present(rt) && refresher(rt.value).Refreshed? ==>
                r == Success(refresher(rt.value).accessToken) && redirectedToLogin == old(redirectedToLogin) &&
                storage.text == old(storage.text)[AccessTokenKey := refresher(rt.value).accessToken]
                                                 [RefreshTokenKey := refresher(rt.value).refreshToken]
      ensures var rt := Lookup(old(storage.text), RefreshTokenKey);
              Present(rt) && refresher(rt.value).RefreshFailed? ==>
                r == Failure(refresher(rt.value).failure) && redirectedToLogin &&
                storage.text == old(storage.text) - {AccessTokenKey, RefreshTokenKey}
    {
      var rt := Lookup(storage.text, RefreshTokenKey);
      var begun := Begin(guard, Present(rt));
      guard := begun.0;
      if !begun.1.Started? {
        HandleLogout();
        return Failure(PlainError(NoRefreshTokenMessage));
      }
      refreshCalls := refreshCalls + [rt.value];
      var reply := refresher(rt.value);
      match reply {
        case Refreshed(accessToken, refreshToken) =>
          storage.SetItem(AccessTokenKey, accessToken);
          storage.SetItem(RefreshTokenKey, refreshToken);
          r := Success(accessToken);
        case RefreshFailed(failure) =>
          HandleLogout();
          r := Failure(failure);
      }
      guard := Settle(guard);
    }

    /**
     * One call through the axios instance and its interceptors. Success passes the body through; a
     * 401 is refreshed once and the request replayed with the new token (a second failure is not
     * refreshed again); a failed refresh logs out and rejects with the refresh error as it is; every
     * other error is normalised by `FormatError`.
     */
    method Dispatch(verb: Verb, url: string, body: JsValue, params: JsValue, config: RequestConfig,
                    transport: Request -> Reply, refresher: string -> RefreshReply) returns (o: Outcome)
      requires guard.slot.None? && guard.pending.None?
      modifies this, storage
      ensures guard.slot.None? && guard.pending.None?
      ensures csrfToken == old(csrfToken) && settled == old(settled)
      ensures storage.rateRecords == old(storage.rateRecords)
      ensures var first := FirstRequest(verb, url, body, params, config, old(storage.text), csrfToken);
              |old(sent)| < |sent| <= |old(sent)| + 2 && sent[..|old(sent)|] == old(sent) && sent[|old(sent)|] == first
      ensures |old(refreshCalls)| <= |refreshCalls| <= |old(refreshCalls)| + 1
      ensures var reply := transport(FirstRequest(verb, url, body, params, config, old(storage.text), csrfToken));
              !(reply.Threw? && IsUnauthorized(reply.failure)) ==>
                |sent| == |old(sent)| + 1 && refreshCalls == old(refreshCalls) &&
                storage.text == old(storage.text) && redirectedToLogin == old(redirectedToLogin) &&
                o == (if reply.Responded? then Resolved(reply.body) else Rejected(Normalized(FormatError(reply.failure))))
      ensures |sent| == |old(sent)| + 2 ==>
                AccessTokenKey in storage.text && |refreshCalls| == |old(refreshCalls)| + 1 &&
                var token := storage.text[AccessTokenKey];
                sent[|old(sent)| + 1] == sent[|old(sent)|].(headers := sent[|old(sent)|].headers.(authorization := Some("Bearer " + token))) &&
                var second := transport(sent[|old(sent)| + 1]);
                o == (if second.Responded? then Resolved(second.body) else Rejected(Normalized(FormatError(second.failure))))
      ensures o.Rejected? && o.reason.Raw? ==>
                |sent| == |old(sent)| + 1 && redirectedToLogin &&
                storage.text == old(storage.text) - {AccessTokenKey, RefreshTokenKey}
      ensures o == DispatchOutcome(FirstRequest(verb, url, body, params, config, old(storage.text), csrfToken),
                                   old(storage.text), transport, refresher)
      ensures var reply := transport(FirstRequest(verb, url, body, params, config, old(storage.text), csrfToken));
              var rt := Lookup(old(storage.text), RefreshTokenKey);
              reply.Threw? && IsUnauthorized(reply.failure) && !Present(rt) ==>
                o == Rejected(Raw(PlainError(NoRefreshTokenMessage))) && |sent| == |old(sent)| + 1 &&
                refreshCalls == old(refreshCalls)
      ensures var reply := transport(FirstRequest(verb, url, body, params, config, old(storage.text), csrfToken));
              var rt := Lookup(old(storage.text), RefreshTokenKey);
              reply.Threw? && IsUnauthorized(reply.failure) && Present(rt) ==>
                refreshCalls == old(refreshCalls) + [rt.value]
      ensures var reply := transport(FirstRequest(verb, url, body, params, config, old(storage.text), csrfToken));
              var rt := Lookup(old(storage.text), RefreshTokenKey);
              reply.Threw? && IsUnauthorized(reply.failure) && Present(rt) && refresher(rt.value).RefreshFailed? ==>
                o == Rejected(Raw(refresher(rt.value).failure)) && |sent| == |old(sent)| + 1
      ensures var first := FirstRequest(verb, url, body, params, config, old(storage.text), csrfToken);
              var reply := transport(first);
              var rt := Lookup(old(storage.text), RefreshTokenKey);
              reply.Threw? && IsUnauthorized(reply.failure) && Present(rt) && refresher(rt.value).Refreshed? ==>
                |sent| == |old(sent)| + 2 && sent[|old(sent)| + 1] == Replay(first, refresher(rt.value).accessToken) &&
                redirectedToLogin == old(redirectedToLogin) &&
                storage.text == old(storage.text)[AccessTokenKey := refresher(rt.value).accessToken]
                                                 [RefreshTokenKey := refresher(rt.value).refreshToken]
    {
      var first := FirstRequest(verb, url, body, params, config, storage.text, csrfToken);
      sent := sent + [first];
      var reply := transport(first);
      if reply.Responded? {
        return Resolved(reply.body);
      }
      if !IsUnauthorized(reply.failure) {
        return Rejected(Normalized(FormatError(reply.failure)));
      }
      var refreshed := RefreshAccessToken(refresher);
      if refreshed.Failure? {
        HandleLogout();
        return Rejected(Raw(refreshed.error));
      }
      var token := refreshed.value;
      var retried := first.(headers := first.headers.(authorization := Some("Bearer " + token)));
      var replay := retried.(headers := PrepareHeaders(retried.headers, Lookup(storage.text, AccessTokenKey), config.skipAuth, csrfToken));
      ReplayCarriesNewToken(first.headers, token, config.skipAuth, csrfToken);
      PrepareHeadersIdempotent(NoHeaders, Lookup(old(storage.text), AccessTokenKey), config.skipAuth, csrfToken);
      sent := sent + [replay];
      var second := transport(replay);
      if second.Responded? {
        return Resolved(second.body);
      }
      return Rejected(Normalized(FormatError(second.failure)));
    }

    /**
     * `requestDeduplication.deduplicate(key, requestFn)`: a caller within the window of a pending
     * request receives that request's outcome and sends nothing; otherwise the request is registered,
     * dispatched, and its outcome recorded for later callers.
     */
    method Deduplicated(key: string, verb: Verb, url: string, body: JsValue, params: JsValue, config: RequestConfig,
                        now: int, transport: Request -> Reply, refresher: string -> RefreshReply) returns (o: Outcome)
      requires Valid()
      modifies this, storage, dedup
      ensures Valid()
      ensures csrfToken == old(csrfToken) && storage.rateRecords == old(storage.rateRecords)
      ensures var s := DeduplicateStep(old(dedup.pendingRequests), old(dedup.nextHandle), key, now);
              dedup.pendingRequests == s.pending &&
              (!s.invoked ==> s.handle in old(settled) && o == old(settled)[s.handle] && settled == old(settled) &&
                              sent == old(sent) && refreshCalls == old(refreshCalls) && storage.text == old(storage.text)) &&
              (s.invoked ==> settled == old(settled)[s.handle := o] && |sent| > |old(sent)| &&
                             sent[|old(sent)|] == FirstRequest(verb, url, body, params, config, old(storage.text), csrfToken))
      ensures |old(sent)| <= |sent| <= |old(sent)| + 2 && sent[..|old(sent)|] == old(sent)
      ensures |refreshCalls| <= |old(refreshCalls)| + 1
      ensures DeduplicateStep(old(dedup.pendingRequests), old(dedup.nextHandle), key, now).invoked ==>
                o == DispatchOutcome(FirstRequest(verb, url, body, params, config, old(storage.text), csrfToken),
                                     old(storage.text), transport, refresher)
    {
      var handle, invoked := dedup.Deduplicate(key, now);
      if !invoked {
        return settled[handle];
      }
      o := Dispatch(verb, url, body, params, config, transport, refresher);
      settled := settled[handle := o];
    }

    /** The timer a settled request sets: one window later its key leaves the pending map. */
    method ExpireDeduplication(key: string)
      requires Valid()
      modifies dedup
      ensures Valid()
      ensures dedup.pendingRequests == old(dedup.pendingRequests) - {key}
    {
      dedup.ExpireKey(key);
    }

    /**
     * The part every verb method shares after its cache check: the rate limit for `url` (a rejection
     * is the limiter's `Error`, not normalised), then the request, deduplicated under the key of
     * `keyData` when `deduplicate` holds.
     */
    method Call(verb: Verb, url: string, body: JsValue, params: JsValue, keyData: JsValue, deduplicate: bool,
                config: RequestConfig, now: int, transport: Request -> Reply, refresher: string -> RefreshReply)
      returns (o: Outcome)
      requires Valid()
      modifies this, storage, dedup
      ensures Valid()
      ensures csrfToken == old(csrfToken)
      ensures storage.rateRecords == RecordsAfter(old(storage.rateRecords), limiter.config, url, now)
      ensures !Allows(old(storage.rateRecords), limiter.config, url, now) ==>
                o == Rejected(Raw(PlainError(RateLimitMessage))) && sent == old(sent) && refreshCalls == old(refreshCalls) &&
                storage.text == old(storage.text) && settled == old(settled) &&
                dedup.pendingRequests == old(dedup.pendingRequests)
      ensures |sent| > |old(sent)| ==>
                Allows(old(storage.rateRecords), limiter.config, url, now) &&
                sent[|old(sent)|] == FirstRequest(verb, url, body, params, config, old(storage.text), csrfToken)
      ensures |old(sent)| <= |sent| <= |old(sent)| + 2 && sent[..|old(sent)|] == old(sent)
      ensures |refreshCalls| <= |old(refreshCalls)| + 1
      ensures !deduplicate ==> dedup.pendingRequests == old(dedup.pendingRequests) && settled == old(settled)
      ensures var key := GenerateKey(VerbName(verb), url, keyData);
              Allows(old(storage.rateRecords), limiter.config, url, now) && deduplicate &&
              key in old(dedup.pendingRequests) && Fresh(old(dedup.pendingRequests)[key], now) ==>
                old(dedup.pendingRequests)[key].handle in old(settled) &&
                o == old(settled)[old(dedup.pendingRequests)[key].handle] && sent == old(sent)
      ensures var key := GenerateKey(VerbName(verb), url, keyData);
              Allows(old(storage.rateRecords), limiter.config, url, now) &&
              !(deduplicate && key in old(dedup.pendingRequests) && Fresh(old(dedup.pendingRequests)[key], now)) ==>
                |sent| > |old(sent)| &&
                o == DispatchOutcome(FirstRequest(verb, url, body, params, config, old(storage.text), csrfToken),
                                     old(storage.text), transport, refresher)
    {
      var allowed := limiter.CheckLimit(url, now);
      if allowed.Failure? {
        return Rejected(Raw(PlainError(allowed.error)));
      }
      if deduplicate {
        var key := GenerateKey(VerbName(verb), url, keyData);
        o := Deduplicated(key, verb, url, body, params, config, now, transport, refresher);
      } else {
        o := Dispatch(verb, url, body, params, config, transport, refresher);
      }
    }

    /** The cache check at the head of `get`: `has`, then `get`, answering only with a truthy value. */
    method CachedValue(key: string, now: int) returns (hit: Option<JsValue>)
      modifies cache
      ensures hit.Some? <==> CacheHit(old(cache.entries), key, now)
      ensures hit.Some? ==> hit.value == Visible(old(cache.entries), key, now).value
      ensures cache.entries == AfterRead(old(cache.entries), key, now)
    {
      hit := None;
      var has := cache.Has(key, now);
      if has {
        var cached := cache.Get(key, now);
        if cached.Some? && Truthy(cached.value) {
          hit := cached;
        }
      }
    }

    /**
     * `get`: unless `skipCache`, a truthy cached value answers the call with nothing else happening;
     * otherwise the shared path runs (deduplicated on the params unless `skipDeduplication`) and,
     * unless `skipCache`, the data it resolves with is cached under the params' key for `EffectiveTtl`.
     */
    method Get(url: string, params: JsValue, config: RequestConfig, now: int,
               transport: Request -> Reply, refresher: string -> RefreshReply) returns (o: Outcome)
      requires Valid()
      modifies this, storage, dedup, cache
      ensures Valid()
      ensures var key := GenerateCacheKey("GET", url, params);
              !config.skipCache && CacheHit(old(cache.entries), key, now) ==>
                o == Resolved(Visible(old(cache.entries), key, now).value) &&
                sent == old(sent) && storage.text == old(storage.text) &&
                storage.rateRecords == old(storage.rateRecords) && dedup.pendingRequests == old(dedup.pendingRequests)
      ensures var key := GenerateCacheKey("GET", url, params);
              !config.skipCache && !CacheHit(old(cache.entries), key, now) && o.Resolved? ==>
                key in cache.entries && cache.entries[key] == CacheEntry(o.data, now, EffectiveTtl(config))
      ensures config.skipCache ==> cache.entries == old(cache.entries)
      ensures var key := GenerateCacheKey("GET", url, params);
              (config.skipCache || !CacheHit(old(cache.entries), key, now)) &&
              !Allows(old(storage.rateRecords), limiter.config, url, now) ==>
                o == Rejected(Raw(PlainError(RateLimitMessage))) && sent == old(sent)
      ensures |sent| > |old(sent)| ==>
                Allows(old(storage.rateRecords), limiter.config, url, now) &&
                sent[|old(sent)|] == FirstRequest(GET, url, Undefined, params, config, old(storage.text), csrfToken)
      ensures |old(sent)| <= |sent| <= |old(sent)| + 2 && sent[..|old(sent)|] == old(sent)
      ensures config.skipDeduplication ==> dedup.pendingRequests == old(dedup.pendingRequests)
      ensures var key := GenerateCacheKey("GET", url, params);
              !config.skipCache && CacheHit(old(cache.entries), key, now) ==>
                cache.entries == old(cache.entries) && settled == old(settled) && refreshCalls == old(refreshCalls)
      ensures var key := GenerateCacheKey("GET", url, params);
              !config.skipCache && !CacheHit(old(cache.entries), key, now) ==>
                cache.entries == if o.Resolved? then old(cache.entries)[key := CacheEntry(o.data, now, EffectiveTtl(config))]
                                 else AfterRead(old(cache.entries), key, now)
      ensures var key := GenerateCacheKey("GET", url, params);
              forall k :: k != key ==> (k in cache.entries <==> k in old(cache.entries)) &&
                                       (k in cache.entries ==> cache.entries[k] == old(cache.entries)[k])
      ensures var key := GenerateCacheKey("GET", url, params);
              config.skipCache || !CacheHit(old(cache.entries), key, now) ==>
                storage.rateRecords == RecordsAfter(old(storage.rateRecords), limiter.config, url, now)
      ensures var key := GenerateCacheKey("GET", url, params);
              var dk := GenerateKey("GET", url, params);
              (config.skipCache || !CacheHit(old(cache.entries), key, now)) &&
              Allows(old(storage.rateRecords), limiter.config, url, now) && !config.skipDeduplication &&
              dk in old(dedup.pendingRequests) && Fresh(old(dedup.pendingRequests)[dk], now) ==>
                old(dedup.pendingRequests)[dk].handle in old(settled) &&
                o == old(settled)[old(dedup.pendingRequests)[dk].handle] && sent == old(sent)
      ensures var key := GenerateCacheKey("GET", url, params);
              var dk := GenerateKey("GET", url, params);
              (config.skipCache || !CacheHit(old(cache.entries), key, now)) &&
              Allows(old(storage.rateRecords), limiter.config, url, now) &&
              !(!config.skipDeduplication && dk in old(dedup.pendingRequests) && Fresh(old(dedup.pendingRequests)[dk], now)) ==>
                |sent| > |old(sent)| &&
                o == DispatchOutcome(FirstRequest(GET, url, Undefined, params, config, old(storage.text), csrfToken),
                                     old(storage.text), transport, refresher)
    {
      var cacheKey := GenerateCacheKey("GET", url, params);
      if !config.skipCache {
        var hit := CachedValue(cacheKey, now);
        if hit.Some? {
          return Resolved(hit.value);
        }
      }
      o := Call(GET, url, Undefined, params, params, !config.skipDeduplication, config, now, transport, refresher);
      if !config.skipCache && o.Resolved? {
        cache.Set(cacheKey, o.data, Some(EffectiveTtl(config)), now);
      }
    }

    /** `post`: rate limit, then the request, deduplicated on the body unless `skipDeduplication`. */
    method Post(url: string, data: JsValue, config: RequestConfig, now: int,
               transport: Request -> Reply, refresher: string -> RefreshReply) returns (o: Outcome)
      requires Valid()
      modifies this, storage, dedup
      ensures Valid()
      ensures storage.rateRecords == RecordsAfter(old(storage.rateRecords), limiter.config, url, now)
      ensures !Allows(old(storage.rateRecords), limiter.config, url, now) ==>
                o == Rejected(Raw(PlainError(RateLimitMessage))) && sent == old(sent)
      ensures |sent| > |old(sent)| ==>
                Allows(old(storage.rateRecords), limiter.config, url, now) &&
                sent[|old(sent)|] == FirstRequest(POST, url, data, Undefined, config, old(storage.text), csrfToken)
      ensures |old(sent)| <= |sent| <= |old(sent)| + 2 && sent[..|old(sent)|] == old(sent)
      ensures !Deduplicates(POST, config.skipDeduplication) ==> dedup.pendingRequests == old(dedup.pendingRequests)
      ensures var key := GenerateKey("POST", url, data);
              Allows(old(storage.rateRecords), limiter.config, url, now) && Deduplicates(POST, config.skipDeduplication) &&
              key in old(dedup.pendingRequests) && Fresh(old(dedup.pendingRequests)[key], now) ==>
                old(dedup.pendingRequests)[key].handle in old(settled) &&
                o == old(settled)[old(dedup.pendingRequests)[key].handle] && sent == old(sent)
      ensures var key := GenerateKey("POST", url, data);
              Allows(old(storage.rateRecords), limiter.config, url, now) &&
              !(Deduplicates(POST, config.skipDeduplication) &&
                key in old(dedup.pendingRequests) && Fresh(old(dedup.pendingRequests)[key], now)) ==>
                |sent| > |old(sent)| &&
                o == DispatchOutcome(FirstRequest(POST, url, data, Undefined, config, old(storage.text), csrfToken),
                                     old(storage.text), transport, refresher)
    {
      o := Call(POST, url, data, Undefined, data, Deduplicates(POST, config.skipDeduplication), config, now, transport, refresher);
    }

    /** `put`: as `post`, but deduplicated only when `skipDeduplication` is set. */
    method Put(url: string, data: JsValue, config: RequestConfig, now: int,
               transport: Request -> Reply, refresher: string -> RefreshReply) returns (o: Outcome)
      requires Valid()
      modifies this, storage, dedup
      ensures Valid()
      ensures storage.rateRecords == RecordsAfter(old(storage.rateRecords), limiter.config, url, now)
      ensures !Allows(old(storage.rateRecords), limiter.config, url, now) ==>
                o == Rejected(Raw(PlainError(RateLimitMessage))) && sent == old(sent)
      ensures |sent| > |old(sent)| ==>
                Allows(old(storage.rateRecords), limiter.config, url, now) &&
                sent[|old(sent)|] == FirstRequest(PUT, url, data, Undefined, config, old(storage.text), csrfToken)
      ensures |old(sent)| <= |sent| <= |old(sent)| + 2 && sent[..|old(sent)|] == old(sent)
      ensures !Deduplicates(PUT, config.skipDeduplication) ==> dedup.pendingRequests == old(dedup.pendingRequests)
      ensures var key := GenerateKey("PUT", url, data);
              Allows(old(storage.rateRecords), limiter.config, url, now) && Deduplicates(PUT, config.skipDeduplication) &&
              key in old(dedup.pendingRequests) && Fresh(old(dedup.pendingRequests)[key], now) ==>
                old(dedup.pendingRequests)[key].handle in old(settled) &&
                o == old(settled)[old(dedup.pendingRequests)[key].handle] && sent == old(sent)
      ensures var key := GenerateKey("PUT", url, data);
              Allows(old(storage.rateRecords), limiter.config, url, now) &&
              !(Deduplicates(PUT, config.skipDeduplication) &&
                key in old(dedup.pendingRequests) && Fresh(old(dedup.pendingRequests)[key], now)) ==>
                |sent| > |old(sent)| &&
                o == DispatchOutcome(FirstRequest(PUT, url, data, Undefined, config, old(storage.text), csrfToken),
                                     old(storage.text), transport, refresher)
    {
      o := Call(PUT, url, data, Undefined, data, Deduplicates(PUT, config.skipDeduplication), config, now, transport, refresher);
    }

    /** `patch`: as `put`. */
    method Patch(url: string, data: JsValue, config: RequestConfig, now: int,
               transport: Request -> Reply, refresher: string -> RefreshReply) returns (o: Outcome)
      requires Valid()
      modifies this, storage, dedup
      ensures Valid()
      ensures storage.rateRecords == RecordsAfter(old(storage.rateRecords), limiter.config, url, now)
      ensures !Allows(old(storage.rateRecords), limiter.config, url, now) ==>
                o == Rejected(Raw(PlainError(RateLimitMessage))) && sent == old(sent)
      ensures |sent| > |old(sent)| ==>
                Allows(old(storage.rateRecords), limiter.config, url, now) &&
                sent[|old(sent)|] == FirstRequest(PATCH, url, data, Undefined, config, old(storage.text), csrfToken)
      ensures |old(sent)| <= |sent| <= |old(sent)| + 2 && sent[..|old(sent)|] == old(sent)
      ensures !Deduplicates(PATCH, config.skipDeduplication) ==> dedup.pendingRequests == old(dedup.pendingRequests)
      ensures var key := GenerateKey("PATCH", url, data);
              Allows(old(storage.rateRecords), limiter.config, url, now) && Deduplicates(PATCH, config.skipDeduplication) &&
              key in old(dedup.pendingRequests) && Fresh(old(dedup.pendingRequests)[key], now) ==>
                old(dedup.pendingRequests)[key].handle in old(settled) &&
                o == old(settled)[old(dedup.pendingRequests)[key].handle] && sent == old(sent)
      ensures var key := GenerateKey("PATCH", url, data);
              Allows(old(storage.rateRecords), limiter.config, url, now) &&
              !(Deduplicates(PATCH, config.skipDeduplication) &&
                key in old(dedup.pendingRequests) && Fresh(old(dedup.pendingRequests)[key], now)) ==>
                |sent| > |old(sent)| &&
                o == DispatchOutcome(FirstRequest(PATCH, url, data, Undefined, config, old(storage.text), csrfToken),
                                     old(storage.text), transport, refresher)
    {
      o := Call(PATCH, url, data, Undefined, data, Deduplicates(PATCH, config.skipDeduplication), config, now, transport, refresher);
    }

    /** `delete`: rate limit, then the request; never deduplicated. */
    method Delete(url: string, config: RequestConfig, now: int,
               transport: Request -> Reply, refresher: string -> RefreshReply) returns (o: Outcome)
      requires Valid()
      modifies this, storage, dedup
      ensures Valid()
      ensures storage.rateRecords == RecordsAfter(old(storage.rateRecords), limiter.config, url, now)
      ensures !Allows(old(storage.rateRecords), limiter.config, url, now) ==>
                o == Rejected(Raw(PlainError(RateLimitMessage))) && sent == old(sent)
      ensures |sent| > |old(sent)| ==>
                Allows(old(storage.rateRecords), limiter.config, url, now) &&
                sent[|old(sent)|] == FirstRequest(DELETE, url, Undefined, Undefined, config, old(storage.text), csrfToken)
      ensures |old(sent)| <= |sent| <= |old(sent)| + 2 && sent[..|old(sent)|] == old(sent)
      ensures !Deduplicates(DELETE, config.skipDeduplication) ==> dedup.pendingRequests == old(dedup.pendingRequests)
      ensures Allows(old(storage.rateRecords), limiter.config, url, now) ==>
                |sent| > |old(sent)| &&
                o == DispatchOutcome(FirstRequest(DELETE, url, Undefined, Undefined, config, old(storage.text), csrfToken),
                                     old(storage.text), transport, refresher)
    {
      o := Call(DELETE, url, Undefined, Undefined, Undefined, false, config, now, transport, refresher);
    }
  }
}
