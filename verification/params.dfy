/**
 * `extractParams` (index.js): credentials, hostname, IP address and requested
 * provider gathered from the Basic `Authorization` header, the query string and
 * the client-address headers, each by an ordered "first non-empty" fallback.
 */
module Params {
  import opened Wrappers
  import opened Text

  /**
   * What the handler reads from one inbound request. `query` holds the first
   * value of each query parameter; `headers` is keyed by lower-case header name;
   * `clientAddr` is the platform's `request.clientAddr`, `""` when absent.
   */
  datatype Request = Request(
    query: map<string, string>,
    headers: map<string, string>,
    clientAddr: string)

  datatype UpdateParams = UpdateParams(
    username: string,
    password: string,
    domain: string,
    ip: string,
    defaultProvider: string)

  /** `get(name) || ...`: an absent entry behaves as the empty string. */
  function Get(m: map<string, string>, name: string): string {
    if name in m then m[name] else ""
  }

  /** The text after `Basic `, up to the next space: `authHeader.split(' ')[1]`. */
  function BasicToken(header: string): (token: string)
    requires StartsWith(header, "Basic ")
    ensures var rest := header[6..];
            token == if ' ' in rest then rest[..IndexOf(rest, ' ')] else rest
  {
    assert header[5] == ' ';
    var parts := Split(header, ' ');
    assert header[..5] == "Basic";
    assert IndexOf(header, ' ') == 5 by { IndexOfAfterFree("Basic", ' ', header[6..]); assert header == "Basic" + " " + header[6..]; }
    assert parts[1..] == Split(header[6..], ' ');
    SplitHead(header[6..], ' ');
    parts[1]
  }

  /**
   * The decoded `user:pass` split at its first colon (section 2 of RFC 7617):
   * `parts[0]` and `parts.slice(1).join(':')`.
   */
  function SplitCredentials(decoded: string): (creds: (string, string))
    ensures ':' !in decoded ==> creds == (decoded, "")
    ensures ':' in decoded ==> ':' !in creds.0 && decoded == creds.0 + ":" + creds.1
  {
    var parts := Split(decoded, ':');
    var user := parts[0];
    var pass := Join(parts[1..], ":");
    if ':' in decoded then
      SplitHead(decoded, ':');
      SplitTail(decoded, ':');
      var i := IndexOf(decoded, ':');
      assert decoded == decoded[..i] + ":" + decoded[i + 1..];
      (user, pass)
    else
      (user, pass)
  }

  /**
   * The credentials carried by an `Authorization` header; `atob` is the platform's
   * base64 decoder, `None` where it throws. Anything but `Basic ...` gives none.
   */
  function BasicCredentials(authorization: Option<string>, atob: string -> Option<string>): (creds: (string, string))
    ensures (authorization.None? || !StartsWith(authorization.value, "Basic ")) ==> creds == ("", "")
  {
    match authorization
    case Some(h) =>
      if h != "" && StartsWith(h, "Basic ") then
        match atob(BasicToken(h))
        case Some(decoded) => SplitCredentials(decoded)
        case None => ("", "")
      else ("", "")
    case None => ("", "")
  }

  /** `x-forwarded-for` contributes only its first comma-separated entry, trimmed. */
  function ForwardedFor(headers: map<string, string>): (ip: string)
    ensures "x-forwarded-for" !in headers ==> ip == ""
    ensures "x-forwarded-for" in headers ==>
              var h := headers["x-forwarded-for"];
              ip == Trim(if ',' in h then h[..IndexOf(h, ',')] else h)
  {
    if "x-forwarded-for" in headers then
      var h := headers["x-forwarded-for"];
      SplitHead(h, ',');
      Trim(Split(h, ',')[0])
    else ""
  }

  /** The hostname sources, in priority order. */
  function DomainSources(q: map<string, string>): seq<string> {
    [Get(q, "hostname"), Get(q, "domain"), Get(q, "host_id"), Get(q, "host"), Get(q, "id")]
  }

  /** The IP sources, in priority order: query first, then the platform and headers. */
  function IpSources(req: Request): seq<string> {
    [Get(req.query, "myip"), Get(req.query, "ip"), Get(req.query, "addr"),
     req.clientAddr,
     Get(req.headers, "cf-connecting-ip"), Get(req.headers, "x-client-ip"),
     ForwardedFor(req.headers), Get(req.headers, "x-real-ip")]
  }

  /** The client IP: `myip || ip || addr`, and only when all are empty the platform and headers. */
  function ClientIp(req: Request): (ip: string)
    ensures PicksFirst(IpSources(req), ip)
  {
    var q := req.query;
    var h := req.headers;
    var queryIps := [Get(q, "myip"), Get(q, "ip"), Get(q, "addr")];
    var headerIps := [req.clientAddr, Get(h, "cf-connecting-ip"), Get(h, "x-client-ip"), ForwardedFor(h), Get(h, "x-real-ip")];
    PicksFirstAppend(queryIps, headerIps);
    assert IpSources(req) == queryIps + headerIps;
    var queryIp := FirstNonEmpty(queryIps);
    if queryIp != "" then queryIp else FirstNonEmpty(headerIps)
  }

  /** `if (!field) field = query.get(a) || query.get(b) || ''`. */
  function Fallback(field: string, q: map<string, string>, a: string, b: string): (r: string)
    ensures field != "" ==> r == field
    ensures field == "" ==> PicksFirst([Get(q, a), Get(q, b)], r)
  {
    if field != "" then field else FirstNonEmpty([Get(q, a), Get(q, b)])
  }

  function ExtractParams(req: Request, atob: string -> Option<string>): (p: UpdateParams)
    ensures var basic := BasicCredentials(Lookup(req.headers, "authorization"), atob);
            && (basic.0 != "" ==> p.username == basic.0)
            && (basic.0 == "" ==> PicksFirst([Get(req.query, "user"), Get(req.query, "username")], p.username))
            && (basic.1 != "" ==> p.password == basic.1)
            && (basic.1 == "" ==> PicksFirst([Get(req.query, "pass"), Get(req.query, "password")], p.password))
    ensures PicksFirst(DomainSources(req.query), p.domain)
    ensures PicksFirst(IpSources(req), p.ip)
    ensures PicksFirst([Get(req.query, "provider"), Get(req.query, "default_provider")], p.defaultProvider)
  {
    var q := req.query;
    var basic := BasicCredentials(Lookup(req.headers, "authorization"), atob);
    UpdateParams(
      Fallback(basic.0, q, "user", "username"),
      Fallback(basic.1, q, "pass", "password"),
      FirstNonEmpty(DomainSources(q)),
      ClientIp(req),
      FirstNonEmpty([Get(q, "provider"), Get(q, "default_provider")]))
  }

  /** `headers.get(name)`: `null` when absent. */
  function Lookup(m: map<string, string>, name: string): (v: Option<string>)
    ensures v.Some? <==> name in m
    ensures v.Some? ==> v.value == m[name]
  {
    if name in m then Some(m[name]) else None
  }

  /** A query IP, when given, always beats every header. */
  lemma QueryIpWins(req: Request, atob: string -> Option<string>)
    requires Get(req.query, "myip") != ""
    ensures ExtractParams(req, atob).ip == Get(req.query, "myip")
  {
    var p := ExtractParams(req, atob);
    assert FirstNonEmptyAt(IpSources(req), 0);
    PicksFirstUnique(IpSources(req), p.ip, Get(req.query, "myip"));
  }

  /** A password that itself holds colons survives the split intact. */
  lemma ColonsStayInPassword(user: string, pass: string)
    requires ':' !in user
    ensures SplitCredentials(user + ":" + pass) == (user, pass)
  {
    var d := user + ":" + pass;
    var c := SplitCredentials(d);
    assert d[|user|] == ':';
    IndexOfAfterFree(user, ':', pass);
    assert c.0 + ":" + c.1 == user + ":" + pass;
    assert |c.0| == |user|;
    assert c.0 == d[..|user|] && user == d[..|user|];
    assert c.1 == d[|user| + 1..] && pass == d[|user| + 1..];
  }
}
