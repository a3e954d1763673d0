/**
 * The request handler `fetch` (index.js): the ordered validation of an update
 * request, the choice of provider, the replay cache in front of the provider
 * API, the mapping of API failures onto reply statuses, and the cache write
 * after a success. The provider APIs and the key-value store are parameters.
 */
module Dispatch {
  import opened Wrappers
  import opened Text
  import opened Params
  import opened Detect
  import opened Whitelist
  import opened Responses
  import Adapters

  /** `CONFIG.DEFAULT_PROVIDER`, the last fallback of the provider choice. */
  const DefaultProvider := "ali"
  /** `CONFIG.CACHE_TTL`, in seconds. */
  const CacheTtl: nat := 300
  /** `CONFIG.ALLOWED_SUFFIX`, used when the environment sets no whitelist. */
  const ConfiguredSuffixes := ""
  /** Where a browser asking for the bare root is sent. */
  const HomePage := "https://edge-ddns-proxy.newfuture.cc/"

  /** The parts of the request URL the handler looks at, and the request itself. */
  datatype Inbound = Inbound(path: string, search: string, req: Request)

  /** The key-value store; `get` gives `None` for a missing key and for a failed read alike. */
  datatype Kv = Kv(get: string -> Option<string>)

  /** `env.ALLOWED_SUFFIX` (absent: `None`) and `env.DDNS_KV` (absent: `None`). */
  datatype Env = Env(allowedSuffix: Option<string>, kv: Option<Kv>)

  /** One provider handler invocation: the credential pair, the name and the address. */
  datatype Call = Call(provider: Provider, id: string, secret: string, domain: string, ip: string)

  /** A handler either returns `{status}` or throws an error with a message (`""` when it has none). */
  datatype ApiResult = Returned(status: string) | Threw(message: string)

  datatype CacheWrite = CacheWrite(key: string, value: string, ttl: nat)

  datatype Reply = Redirect(location: string, code: nat) | Plain(response: Response)

  /** What one request produces: the reply, the handler call made (if any) and the cache write (if any). */
  datatype Outcome = Outcome(reply: Reply, call: Option<Call>, write: Option<CacheWrite>)

  /** A browser asking for the bare root URL with an `Accept` that includes `text/html`. */
  predicate WantsHomePage(inb: Inbound) {
    inb.path == "/" && inb.search == "" && Contains(Lower(Get(inb.req.headers, "accept")), "text/html")
  }

  /** The detected provider's name, `""` (falsy) when detection finds none. */
  function DetectedName(p: UpdateParams): string {
    match DetectProvider(p.username, p.password)
    case Some(q) => q.Name()
    case None => ""
  }

  /** `detectProvider(...) || defaultProvider || CONFIG.DEFAULT_PROVIDER`. */
  function ProviderName(p: UpdateParams): (name: string)
    ensures PicksFirst([DetectedName(p), p.defaultProvider, DefaultProvider], name)
    ensures name != ""
  {
    var sources := [DetectedName(p), p.defaultProvider, DefaultProvider];
    assert sources[2] != "";
    FirstNonEmpty(sources)
  }

  /** The template `DDNS:${provider}:${domain}`. */
  function CacheKey(provider: string, domain: string): string {
    "DDNS:" + provider + ":" + domain
  }

  /** The address cached under `key` equals the current one. */
  predicate CacheHit(kv: Option<Kv>, key: string, ip: string) {
    kv.Some? && kv.value.get(key) == Some(ip)
  }

  /** The handler invocation of the `switch`: none for a provider name it does not know. */
  function CallFor(provider: string, p: UpdateParams): (c: Option<Call>)
    ensures c.Some? <==> ProviderNamed(provider).Some?
    ensures c.Some? ==> && c.value.provider == ProviderNamed(provider).value
                        && c.value.domain == p.domain && c.value.ip == p.ip
    ensures c.Some? && c.value.provider != Cloudflare ==> c.value.id == p.username && c.value.secret == p.password
    ensures c.Some? && c.value.provider == Cloudflare ==>
              c.value.id == "" && PicksFirst([p.password, p.username], c.value.secret)
  {
    match ProviderNamed(provider)
    case Some(Ali) => Some(Call(Ali, p.username, p.password, p.domain, p.ip))
    case Some(Tencent) => Some(Call(Tencent, p.username, p.password, p.domain, p.ip))
    case Some(Cloudflare) => Some(Call(Cloudflare, "", FirstNonEmpty([p.password, p.username]), p.domain, p.ip))
    case None => None
  }

  /** The error messages that mean rejected credentials rather than a failing service. */
  const AuthErrorMarkers := ["invalidaccesskeyid", "authfailure", "unauthorized", "authentication error"]

  /** The message, lower-cased, includes one of the markers. */
  predicate IsAuthError(message: string) {
    exists k :: 0 <= k < |AuthErrorMarkers| && Contains(Lower(message), AuthErrorMarkers[k])
  }

  /** The statuses after which the current address is remembered. */
  predicate IsCacheable(status: string) {
    status in ["created", "updated", "skipped"]
  }

  function Fetch(inb: Inbound, env: Env, atob: string -> Option<string>, api: Call -> ApiResult): (o: Outcome)
    ensures o.reply.Redirect? <==> WantsHomePage(inb)
    ensures o.reply.Redirect? ==> o.reply == Redirect(HomePage, 302) && o.call.None?
    ensures var p := ExtractParams(inb.req, atob);
            o.call.Some? ==>
              && (p.username != "" || p.password != "")
              && p.domain != "" && p.ip != ""
              && IsDomainAllowed(p.domain, env.allowedSuffix.GetOr(ConfiguredSuffixes))
              && !CacheHit(env.kv, CacheKey(ProviderName(p), p.domain), p.ip)
              && o.call == CallFor(ProviderName(p), p)
    ensures var p := ExtractParams(inb.req, atob);
            && !WantsHomePage(inb)
            && (p.username != "" || p.password != "")
            && p.domain != "" && p.ip != ""
            && IsDomainAllowed(p.domain, env.allowedSuffix.GetOr(ConfiguredSuffixes))
            && !CacheHit(env.kv, CacheKey(ProviderName(p), p.domain), p.ip)
            && ProviderNamed(ProviderName(p)).Some?
            ==> o.call == CallFor(ProviderName(p), p) && o.call.Some?
    ensures var p := ExtractParams(inb.req, atob);
            o.write.Some? <==>
              && o.call.Some? && env.kv.Some?
              && api(o.call.value).Returned? && IsCacheable(api(o.call.value).status)
    ensures var p := ExtractParams(inb.req, atob);
            o.write.Some? ==>
              && o.write.value == CacheWrite(CacheKey(ProviderName(p), p.domain), p.ip, CacheTtl)
              && o.reply.Plain? && o.reply.response.code == 200
    ensures var p := ExtractParams(inb.req, atob);
            o.call.Some? ==>
              o.reply == Plain(ReplyTo(inb.path, api(o.call.value), p.ip))
  {
    if WantsHomePage(inb) then Outcome(Redirect(HomePage, 302), None, None)
    else
      var p := ExtractParams(inb.req, atob);
      if p.username == "" && p.password == "" then Refuse(inb, "AUTH_FAIL")
      else if p.domain == "" then Refuse(inb, "BAD_INPUT")
      else if p.ip == "" then Refuse(inb, "ERROR")
      else if !IsDomainAllowed(p.domain, env.allowedSuffix.GetOr(ConfiguredSuffixes)) then Refuse(inb, "NOHOST")
      else
        var provider := ProviderName(p);
        var key := CacheKey(provider, p.domain);
        if CacheHit(env.kv, key, p.ip) then
          Outcome(Plain(CreateResponse(inb.path, "skipped", p.ip)), None, None)
        else
          match CallFor(provider, p)
          case None => Refuse(inb, "AUTH_FAIL")
          case Some(call) =>
            var result := api(call);
            var write := if result.Returned? && IsCacheable(result.status) && env.kv.Some?
                         then Some(CacheWrite(key, p.ip, CacheTtl)) else None;
            Outcome(Plain(ReplyTo(inb.path, result, p.ip)), Some(call), write)
  }

  /**
   * The reply to a handler's result. A thrown error is unauthorised when its
   * message names a credential problem and a server failure otherwise, and
   * carries no address; a returned status is replied as it is.
   */
  function ReplyTo(path: string, result: ApiResult, ip: string): (r: Response)
    ensures result.Threw? ==> && (r.code == 401 <==> IsAuthError(result.message))
                              && (r.code == 500 <==> !IsAuthError(result.message))
    ensures result.Returned? ==>
              (r.code == 200 <==> OutcomeOf(result.status) == Success || OutcomeOf(result.status) == NoChange)
    ensures result.Returned? && IsCacheable(result.status) ==> r.code == 200
  {
    match result
    case Threw(m) =>
      var status := if IsAuthError(m) then "AUTH_FAIL" else "ERROR";
      CreateResponse(path, status, "")
    case Returned(s) => CreateResponse(path, s, ip)
  }

  /**
   * Every status a handler returns after carrying out its plan is remembered in
   * the cache and answered 200: `good` with the address after a write, `nochg`
   * with the address after a skip.
   */
  lemma HandlerStatusAnswered<C>(plan: Adapters.Plan<C>, path: string, ip: string)
    ensures IsCacheable(Adapters.PlanStatus(plan))
    ensures var r := ReplyTo(path, Returned(Adapters.PlanStatus(plan)), ip);
            && r.code == 200
            && (!IsEasyDnsPath(path) ==> r.body == (if plan.Skip? then "nochg " else "good ") + ip)
  {
  }

  /** A reply made before any handler runs, carrying no address. */
  function Refuse(inb: Inbound, status: string): (o: Outcome)
    ensures o.reply.Plain? && o.call.None? && o.write.None?
  {
    Outcome(Plain(CreateResponse(inb.path, status, "")), None, None)
  }

  // ---------------------------------------------------------------------------
  // The request pipeline, step by step
  // ---------------------------------------------------------------------------

  /** Without any credential the request is refused as unauthorised before anything else is checked. */
  lemma NoCredentialsIsAuthFail(inb: Inbound, env: Env, atob: string -> Option<string>, api: Call -> ApiResult)
    requires !WantsHomePage(inb)
    requires var p := ExtractParams(inb.req, atob); p.username == "" && p.password == ""
    ensures var o := Fetch(inb, env, atob, api);
            o.reply.Plain? && o.reply.response.code == 401 && o.call.None?
  {
  }

  /** With credentials but no hostname the request is malformed (400). */
  lemma MissingDomainIsBadInput(inb: Inbound, env: Env, atob: string -> Option<string>, api: Call -> ApiResult)
    requires !WantsHomePage(inb)
    requires var p := ExtractParams(inb.req, atob); (p.username != "" || p.password != "") && p.domain == ""
    ensures var o := Fetch(inb, env, atob, api);
            o.reply == Plain(CreateResponse(inb.path, "BAD_INPUT", "")) && o.call.None? && o.write.None?
  {
  }

  /** A request whose address cannot be found is a server failure (500). */
  lemma MissingIpIsError(inb: Inbound, env: Env, atob: string -> Option<string>, api: Call -> ApiResult)
    requires !WantsHomePage(inb)
    requires var p := ExtractParams(inb.req, atob);
             (p.username != "" || p.password != "") && p.domain != "" && p.ip == ""
    ensures var o := Fetch(inb, env, atob, api);
            o.reply.Plain? && o.reply.response.code == 500 && o.call.None?
  {
  }

  /** A hostname outside the whitelist is answered `nohost`, and no provider is contacted. */
  lemma RejectedDomainIsNoHost(inb: Inbound, env: Env, atob: string -> Option<string>, api: Call -> ApiResult)
    requires !WantsHomePage(inb)
    requires var p := ExtractParams(inb.req, atob);
             && (p.username != "" || p.password != "") && p.domain != "" && p.ip != ""
             && !IsDomainAllowed(p.domain, env.allowedSuffix.GetOr(ConfiguredSuffixes))
    ensures var o := Fetch(inb, env, atob, api);
            && o.reply.Plain? && o.reply.response.code == 400 && o.call.None?
            && (!IsEasyDnsPath(inb.path) ==> o.reply.response.body == "nohost")
  {
  }

  /** A valid request whose address is already cached is answered "no change" without a handler call. */
  lemma CacheHitSkips(inb: Inbound, env: Env, atob: string -> Option<string>, api: Call -> ApiResult)
    requires !WantsHomePage(inb)
    requires var p := ExtractParams(inb.req, atob);
             && (p.username != "" || p.password != "") && p.domain != "" && p.ip != ""
             && IsDomainAllowed(p.domain, env.allowedSuffix.GetOr(ConfiguredSuffixes))
             && CacheHit(env.kv, CacheKey(ProviderName(p), p.domain), p.ip)
    ensures var o := Fetch(inb, env, atob, api);
            var p := ExtractParams(inb.req, atob);
            && o.call.None? && o.write.None? && o.reply.Plain? && o.reply.response.code == 200
            && (!IsEasyDnsPath(inb.path) ==> o.reply.response.body == "nochg " + p.ip)
  {
  }

  /** The store after a write: the written key now holds the written value. */
  function Stored(kv: Kv, w: CacheWrite): (r: Kv)
    ensures r.get(w.key) == Some(w.value)
    ensures forall k :: k != w.key ==> r.get(k) == kv.get(k)
  {
    Kv(k => if k == w.key then Some(w.value) else kv.get(k))
  }

  /**
   * The cache closes the loop: once a request has been answered with a cache
   * write, repeating it against the updated store is answered "no change"
   * without contacting any provider, whatever the provider would now say.
   */
  lemma RepeatIsSkipped(inb: Inbound, env: Env, atob: string -> Option<string>, api: Call -> ApiResult, api2: Call -> ApiResult)
    requires Fetch(inb, env, atob, api).write.Some?
    ensures var w := Fetch(inb, env, atob, api).write.value;
            var env2 := Env(env.allowedSuffix, Some(Stored(env.kv.value, w)));
            var o := Fetch(inb, env2, atob, api2);
            && o.call.None? && o.write.None?
            && o.reply == Plain(CreateResponse(inb.path, "skipped", ExtractParams(inb.req, atob).ip))
            && o.reply.response.code == 200
  {
    var o1 := Fetch(inb, env, atob, api);
    var w := o1.write.value;
    var p := ExtractParams(inb.req, atob);
    var kv2 := Stored(env.kv.value, w);
    assert w.key == CacheKey(ProviderName(p), p.domain) && w.value == p.ip;
    assert CacheHit(Some(kv2), w.key, p.ip);
  }

  /** Upper-case letters in a handler's message do not hide a marker: `Unauthorized` is one. */
  lemma UnauthorizedMessage()
    ensures IsAuthError("401 Unauthorized")
  {
    var m := Lower("401 Unauthorized");
    assert m == "401 unauthorized";
    assert OccursAt(m, AuthErrorMarkers[2], 4);
  }

  /**
   * A provider name the `switch` does not know (only possible through the
   * `provider` query parameter) is refused as unauthorised, but only after the
   * cache has been consulted under that name.
   */
  lemma UnknownProviderRefused(inb: Inbound, env: Env, atob: string -> Option<string>, api: Call -> ApiResult)
    requires !WantsHomePage(inb)
    requires var p := ExtractParams(inb.req, atob);
             && (p.username != "" || p.password != "") && p.domain != "" && p.ip != ""
             && IsDomainAllowed(p.domain, env.allowedSuffix.GetOr(ConfiguredSuffixes))
             && ProviderNamed(ProviderName(p)).None?
    ensures var p := ExtractParams(inb.req, atob);
            var o := Fetch(inb, env, atob, api);
            && o.call.None? && o.reply.Plain?
            && o.reply.response.code == (if CacheHit(env.kv, CacheKey(ProviderName(p), p.domain), p.ip) then 200 else 401)
  {
  }

  /** A detected provider beats the `provider` query parameter. */
  lemma DetectionWins(p: UpdateParams)
    requires DetectProvider(p.username, p.password).Some?
    ensures ProviderName(p) == DetectProvider(p.username, p.password).value.Name()
  {
    var name := DetectProvider(p.username, p.password).value.Name();
    assert FirstNonEmptyAt([DetectedName(p), p.defaultProvider, DefaultProvider], 0);
    PicksFirstUnique([DetectedName(p), p.defaultProvider, DefaultProvider], ProviderName(p), name);
  }

  /** Cache keys of names without `:` never collide: provider and domain can be read back. */
  lemma CacheKeyInjective(p1: string, d1: string, p2: string, d2: string)
    requires ':' !in p1 && ':' !in p2
    requires CacheKey(p1, d1) == CacheKey(p2, d2)
    ensures p1 == p2 && d1 == d2
  {
    var k := CacheKey(p1, d1);
    assert k[5..] == p1 + ":" + d1 && k[5..] == p2 + ":" + d2;
    IndexOfAfterFree(p1, ':', d1);
    IndexOfAfterFree(p2, ':', d2);
    assert p1 == k[5..5 + |p1|] == p2;
    assert d1 == k[6 + |p1|..] == d2;
  }
}
