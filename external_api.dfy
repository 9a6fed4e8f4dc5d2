/** The external-API proxy helper: the per-API configuration, the request
    headers, and a ten-minute in-memory cache of successful GET replies. */
module ExternalApi {
  import opened Wrappers
  import opened Text

  // ---------------------------------------------------------------------
  // Configuration

  datatype AuthKind = BearerAuth | ApiKeyAuth

  /** How a request authenticates; `headerName` is only read for an API
      key. */
  datatype Auth = Auth(kind: AuthKind, key: string, headerName: Option<string>)

  datatype ApiConfig = ApiConfig(
    baseUrl: string,
    headers: map<string, string>,
    auth: Option<Auth>,
    rateLimit: Option<nat>)

  const BasketballApi: string := "basketball-api"
  const StatsApi: string := "stats-api"

  /** The properties every object literal inherits from `Object.prototype`.
      Looking one of them up in the configuration table finds a value that is
      not a configuration: its `baseUrl` is undefined. */
  const InheritedNames: set<string> := {
    "constructor", "toString", "toLocaleString", "valueOf", "hasOwnProperty",
    "isPrototypeOf", "propertyIsEnumerable", "__proto__", "__defineGetter__",
    "__defineSetter__", "__lookupGetter__", "__lookupSetter__"}
  const DefaultKeyHeader: string := "X-API-Key"

  /** The configuration table. The two keys come from the environment, ""
      when unset. */
  function ApiConfigs(basketballKey: string, statsKey: string): (configs: map<string, ApiConfig>)
    ensures configs.Keys == {BasketballApi, StatsApi}
  {
    map[
      BasketballApi := ApiConfig(
        "https://api.example-basketball-api.com/v1", map[],
        Some(Auth(ApiKeyAuth, basketballKey, Some(DefaultKeyHeader))), Some(60)),
      StatsApi := ApiConfig(
        "https://stats-api.example.com/api", map[],
        Some(Auth(BearerAuth, statsKey, None)), Some(100))]
  }

  // ---------------------------------------------------------------------
  // Request shape

  const CacheDurationMs: int := 10 * 60 * 1000
  const DefaultMethod: string := "GET"

  /** The caller's options. An absent or empty method means GET. */
  datatype Options = Options(httpMethod: Option<string>, skipCache: bool)

  /** `options?.method || 'GET'`. */
  function MethodOf(options: Options): (m: string)
    ensures m != ""
    ensures options.httpMethod.Some? && options.httpMethod.value != "" ==> m == options.httpMethod.value
  {
    match options.httpMethod
    case Some(m) => if m == "" then DefaultMethod else m
    case None => DefaultMethod
  }

  /** The request address: base URL followed by the endpoint. */
  function RequestUrl(config: ApiConfig, endpoint: string): string {
    config.baseUrl + endpoint
  }

  /** `${apiName}:${httpMethod}:${url}`. */
  function CacheKey(apiName: string, httpMethod: string, url: string): string {
    apiName + ":" + httpMethod + ":" + url
  }

  predicate NoColon(s: string) {
    forall i :: 0 <= i < |s| ==> s[i] != ':'
  }

  lemma ColonAfter(a: string, rest: string)
    ensures (a + ":" + rest)[|a|] == ':'
    ensures forall i :: 0 <= i < |a| ==> (a + ":" + rest)[i] == a[i]
  {
  }

  /** The position of the first colon of `a + ":" + rest` is `|a|`. */
  lemma ColonAt(a: string, rest: string, b: string, rest2: string)
    requires NoColon(a) && NoColon(b) && a + ":" + rest == b + ":" + rest2
    ensures a == b && rest == rest2
  {
    var s := a + ":" + rest;
    if |a| < |b| {
      ColonAfter(a, rest);
      assert false;
    } else if |b| < |a| {
      ColonAfter(b, rest2);
      assert false;
    }
    assert a == s[..|a|] && b == (b + ":" + rest2)[..|b|];
    assert rest == s[|a| + 1..] && rest2 == (b + ":" + rest2)[|b| + 1..];
  }

  /** API names and methods have no colon, so different requests never
      share a cache slot. */
  lemma CacheKeyInjective(a1: string, m1: string, u1: string, a2: string, m2: string, u2: string)
    requires NoColon(a1) && NoColon(m1) && NoColon(a2) && NoColon(m2)
    requires CacheKey(a1, m1, u1) == CacheKey(a2, m2, u2)
    ensures a1 == a2 && m1 == m2 && u1 == u2
  {
    assert CacheKey(a1, m1, u1) == a1 + ":" + (m1 + ":" + u1);
    assert CacheKey(a2, m2, u2) == a2 + ":" + (m2 + ":" + u2);
    ColonAt(a1, m1 + ":" + u1, a2, m2 + ":" + u2);
    ColonAt(m1, u1, m2, u2);
  }

  // ---------------------------------------------------------------------
  // Headers

  const ContentType: string := "Content-Type"
  const JsonType: string := "application/json"
  const AuthorizationHeader: string := "Authorization"

  /** The header the configured authentication sets, and its value. */
  function AuthHeader(auth: Auth): (string, string) {
    match auth.kind
    case BearerAuth => (AuthorizationHeader, "Bearer " + auth.key)
    case ApiKeyAuth =>
      var name := match auth.headerName case Some(h) => (if h == "" then DefaultKeyHeader else h) case None => DefaultKeyHeader;
      (name, auth.key)
  }

  /** The JSON content type, overridden by the configured headers, then the
      authentication header. */
  function Headers(config: ApiConfig): map<string, string> {
    var base := map[ContentType := JsonType] + config.headers;
    match config.auth
    case None => base
    case Some(auth) => base[AuthHeader(auth).0 := AuthHeader(auth).1]
  }

  /** Bearer sends `Authorization: Bearer <key>`; an API key is sent raw under
      its header name, `X-API-Key` by default. Every other header is the
      configured one, or the JSON content type. */
  lemma HeadersSpec(config: ApiConfig, name: string)
    ensures config.auth.Some? && config.auth.value.kind == BearerAuth ==>
      Headers(config)[AuthorizationHeader] == "Bearer " + config.auth.value.key
    ensures config.auth.Some? && config.auth.value.kind == ApiKeyAuth &&
      (config.auth.value.headerName.None? || config.auth.value.headerName == Some(""))
      ==> Headers(config)[DefaultKeyHeader] == config.auth.value.key
    ensures config.auth.Some? && config.auth.value.kind == ApiKeyAuth &&
      config.auth.value.headerName.Some? && config.auth.value.headerName.value != ""
      ==> Headers(config)[config.auth.value.headerName.value] == config.auth.value.key
    ensures (config.auth.None? || name != AuthHeader(config.auth.value).0) ==>
      (name in Headers(config) <==> name == ContentType || name in config.headers) &&
      (name in config.headers ==> Headers(config)[name] == config.headers[name]) &&
      (name == ContentType && name !in config.headers ==> Headers(config)[name] == JsonType)
  {
  }

  /** Both shipped configurations send JSON and authenticate. */
  lemma ShippedHeaders(basketballKey: string, statsKey: string)
    ensures var configs := ApiConfigs(basketballKey, statsKey);
      Headers(configs[BasketballApi]) == map[ContentType := JsonType, DefaultKeyHeader := basketballKey] &&
      Headers(configs[StatsApi]) == map[ContentType := JsonType, AuthorizationHeader := "Bearer " + statsKey]
  {
  }

  // ---------------------------------------------------------------------
  // One call

  /** What the network answered: a reply (`ok`) with its data, a status
      outside 200-299 with its text, or no reply at all. */
  datatype FetchOutcome = Reply(data: string) | BadStatus(status: nat, text: string) | NetworkFailure(reason: string)

  datatype Source = FromCache | FromApi
  datatype Answer = Answer(data: string, source: Source)

  /** `InvalidUrl` is the `TypeError` that `new URL` throws for the address
      `"undefined" + endpoint` built from an inherited name. */
  datatype ApiError =
    | ConfigNotFound(apiName: string)
    | InvalidUrl
    | RequestFailed(status: nat, text: string)
    | Network(reason: string)

  /** The error's message. */
  function Message(e: ApiError): string {
    match e
    case ConfigNotFound(name) => "API configuration not found for \"" + name + "\""
    case InvalidUrl => "Invalid URL"
    case RequestFailed(status, text) => "API request failed with status " + NatToString(status) + ": " + text
    case Network(reason) => reason
  }

  datatype CacheItem = CacheItem(data: string, timestamp: int)

  /** What is sent to the network. */
  datatype Request = Request(url: string, httpMethod: string, headers: map<string, string>)

  predicate IsFresh(item: CacheItem, now: int) {
    now - item.timestamp < CacheDurationMs
  }

  /** The cache lookup, for a GET without `skipCache` only. */
  function CachedAnswer(cache: map<string, CacheItem>, key: string, httpMethod: string, options: Options, now: int): (r: Option<Answer>)
    ensures r.Some? <==> httpMethod == DefaultMethod && !options.skipCache && key in cache && IsFresh(cache[key], now)
    ensures r.Some? ==> r.value == Answer(cache[key].data, FromCache)
  {
    if httpMethod == DefaultMethod && !options.skipCache && key in cache && IsFresh(cache[key], now)
    then Some(Answer(cache[key].data, FromCache))
    else None
  }

  /** The result of `fetchExternalApi`, the request it sends (if any) and
      the cache afterwards. `now` is read for the lookup and `storeTime`
      for the store. */
  datatype Outcome = Outcome(result: Result<Answer, ApiError>, sent: Option<Request>, cache: map<string, CacheItem>)

  function Fetch(
    cache: map<string, CacheItem>, configs: map<string, ApiConfig>,
    apiName: string, endpoint: string, options: Options,
    now: int, network: FetchOutcome, storeTime: int): Outcome
  {
    if apiName !in configs then
      if apiName in InheritedNames then Outcome(Failure(InvalidUrl), None, cache)
      else Outcome(Failure(ConfigNotFound(apiName)), None, cache)
    else
      var config := configs[apiName];
      var httpMethod := MethodOf(options);
      var url := RequestUrl(config, endpoint);
      var key := CacheKey(apiName, httpMethod, url);
      match CachedAnswer(cache, key, httpMethod, options, now)
      case Some(answer) => Outcome(Success(answer), None, cache)
      case None =>
        var sent := Some(Request(url, httpMethod, Headers(config)));
        match network
        case Reply(data) =>
          var cache' := if httpMethod == DefaultMethod then cache[key := CacheItem(data, storeTime)] else cache;
          Outcome(Success(Answer(data, FromApi)), sent, cache')
        case BadStatus(status, text) => Outcome(Failure(RequestFailed(status, text)), sent, cache)
        case NetworkFailure(reason) => Outcome(Failure(Network(reason)), sent, cache)
  }

  /** An API that is not configured fails before the cache or the network
      is used: with the configuration error, or, for a name inherited from
      `Object.prototype`, with the URL error. */
  lemma UnknownApi(
    cache: map<string, CacheItem>, configs: map<string, ApiConfig>, apiName: string, endpoint: string,
    options: Options, now: int, network: FetchOutcome, storeTime: int)
    requires apiName !in configs
    ensures apiName !in InheritedNames ==>
      Fetch(cache, configs, apiName, endpoint, options, now, network, storeTime) ==
      Outcome(Failure(ConfigNotFound(apiName)), None, cache)
    ensures apiName in InheritedNames ==>
      Fetch(cache, configs, apiName, endpoint, options, now, network, storeTime) ==
      Outcome(Failure(InvalidUrl), None, cache)
  {
  }

  /** "constructor" is such an inherited name: a request for it fails with
      `Invalid URL`, not with the configuration error. */
  lemma InheritedNameFails(
    cache: map<string, CacheItem>, basketballKey: string, statsKey: string, endpoint: string,
    options: Options, now: int, network: FetchOutcome, storeTime: int)
    ensures var o := Fetch(cache, ApiConfigs(basketballKey, statsKey), "constructor", endpoint, options, now, network, storeTime);
      o.result.Failure? && Message(o.result.error) == "Invalid URL" && o.sent.None? && o.cache == cache
  {
    assert "constructor" !in ApiConfigs(basketballKey, statsKey);
  }

  /** A cached answer is given exactly for a GET without `skipCache` whose
      key was stored less than ten minutes ago; then nothing is sent and the
      cache is unchanged. */
  lemma CacheHits(
    cache: map<string, CacheItem>, configs: map<string, ApiConfig>, apiName: string, endpoint: string,
    options: Options, now: int, network: FetchOutcome, storeTime: int)
    requires apiName in configs
    ensures var o := Fetch(cache, configs, apiName, endpoint, options, now, network, storeTime);
      var key := CacheKey(apiName, MethodOf(options), RequestUrl(configs[apiName], endpoint));
      (o.result.Success? && o.result.value.source == FromCache <==>
        MethodOf(options) == DefaultMethod && !options.skipCache && key in cache && now - cache[key].timestamp < CacheDurationMs) &&
      (o.sent.None? <==> o.result.Success? && o.result.value.source == FromCache) &&
      (o.sent.None? ==> o.cache == cache && o.result.value.data == cache[key].data)
  {
  }

  /** Only a successful GET writes the cache, and every successful GET that
      reached the network does, under its own key with the reply and the
      time; a failure leaves the cache as it was. */
  lemma CacheWrites(
    cache: map<string, CacheItem>, configs: map<string, ApiConfig>, apiName: string, endpoint: string,
    options: Options, now: int, network: FetchOutcome, storeTime: int)
    ensures var o := Fetch(cache, configs, apiName, endpoint, options, now, network, storeTime);
      (o.result.Failure? ==> o.cache == cache) &&
      (o.cache != cache ==>
        apiName in configs && MethodOf(options) == DefaultMethod && network.Reply? && o.sent.Some? &&
        o.cache == cache[CacheKey(apiName, DefaultMethod, RequestUrl(configs[apiName], endpoint)) := CacheItem(network.data, storeTime)]) &&
      (o.sent.Some? && network.Reply? && MethodOf(options) == DefaultMethod ==>
        o.cache == cache[CacheKey(apiName, DefaultMethod, RequestUrl(configs[apiName], endpoint)) := CacheItem(network.data, storeTime)])
  {
  }

  /** A sent request carries the configuration's headers and the method,
      "GET" when none was given. */
  lemma SentRequest(
    cache: map<string, CacheItem>, configs: map<string, ApiConfig>, apiName: string, endpoint: string,
    options: Options, now: int, network: FetchOutcome, storeTime: int)
    ensures var o := Fetch(cache, configs, apiName, endpoint, options, now, network, storeTime);
      o.sent.Some? ==>
        apiName in configs &&
        o.sent.value == Request(configs[apiName].baseUrl + endpoint, MethodOf(options), Headers(configs[apiName])) &&
        (options.httpMethod.None? ==> o.sent.value.httpMethod == "GET")
  {
  }

  // ---------------------------------------------------------------------
  // The module's state

  /** The module-level cache map. */
  class ExternalApiClient {
    var cache: map<string, CacheItem>

    constructor()
      ensures cache == map[]
    {
      cache := map[];
    }

    /** `fetchExternalApi`. The network's answer and the clock are given. */
    method FetchExternalApi(
      configs: map<string, ApiConfig>, apiName: string, endpoint: string, options: Options,
      now: int, network: FetchOutcome, storeTime: int)
      returns (result: Result<Answer, ApiError>, sent: Option<Request>)
      modifies this
      ensures Outcome(result, sent, cache) == Fetch(old(cache), configs, apiName, endpoint, options, now, network, storeTime)
    {
      if apiName !in configs {
        if apiName in InheritedNames {
          return Failure(InvalidUrl), None;
        }
        return Failure(ConfigNotFound(apiName)), None;
      }
      var config := configs[apiName];
      var httpMethod := MethodOf(options);
      var url := RequestUrl(config, endpoint);
      var key := CacheKey(apiName, httpMethod, url);
      if httpMethod == DefaultMethod && !options.skipCache {
        if key in cache && now - cache[key].timestamp < CacheDurationMs {
          return Success(Answer(cache[key].data, FromCache)), None;
        }
      }
      var headers := map[ContentType := JsonType] + config.headers;
      if config.auth.Some? {
        var auth := config.auth.value;
        if auth.kind == BearerAuth {
          headers := headers[AuthorizationHeader := "Bearer " + auth.key];
        } else {
          var name := if auth.headerName.Some? && auth.headerName.value != "" then auth.headerName.value else DefaultKeyHeader;
          headers := headers[name := auth.key];
        }
      }
      sent := Some(Request(url, httpMethod, headers));
      match network {
        case Reply(data) =>
          if httpMethod == DefaultMethod {
            cache := cache[key := CacheItem(data, storeTime)];
          }
          result := Success(Answer(data, FromApi));
        case BadStatus(status, text) =>
          result := Failure(RequestFailed(status, text));
        case NetworkFailure(reason) =>
          result := Failure(Network(reason));
      }
    }
  }
}
