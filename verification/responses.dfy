/**
 * `createDDNSResponse` (index.js): an internal status becomes the plain-text
 * reply of one of the two client dialects, EasyDNS or DynDNS, with the HTTP
 * status code that goes with it.
 */
module Responses {
  import opened Wrappers
  import opened Text

  /** The two reply dialects. */
  datatype Dialect = EasyDns | DynDns

  /** The regular expression `/dyn/(generic|ez-ipupdate|tomato).php` anywhere in the path. */
  predicate IsEasyDnsPath(path: string) {
    || Contains(path, "/dyn/generic.php")
    || Contains(path, "/dyn/ez-ipupdate.php")
    || Contains(path, "/dyn/tomato.php")
  }

  function DialectOf(path: string): Dialect {
    if IsEasyDnsPath(path) then EasyDns else DynDns
  }

  /** What a status means to a client, after the handler's statuses are grouped. */
  datatype Outcome = Success | NoChange | AuthFail | NoHost | BadInput | Failure

  /** `isSuccess`, `isNoChange` and the three named error statuses; everything else is a failure. */
  function OutcomeOf(status: string): (o: Outcome)
    ensures o == Success <==> status == "created" || status == "updated" || status == "SUCCESS"
    ensures o == NoChange <==> status == "skipped" || status == "NO_CHANGE"
    ensures o == AuthFail <==> status == "AUTH_FAIL"
    ensures o == NoHost <==> status == "NOHOST"
    ensures o == BadInput <==> status == "BAD_INPUT"
  {
    if status in ["created", "updated", "SUCCESS"] then Success
    else if status in ["skipped", "NO_CHANGE"] then NoChange
    else if status == "AUTH_FAIL" then AuthFail
    else if status == "NOHOST" then NoHost
    else if status == "BAD_INPUT" then BadInput
    else Failure
  }

  /** Every reply is plain text and must not be cached. */
  const ContentType := "text/plain; charset=utf-8"
  const CacheControl := "no-store, no-cache"

  datatype Response = Response(code: nat, body: string, contentType: string, cacheControl: string)

  function EasyDnsBody(o: Outcome): string {
    match o
    case Success => "NOERROR\n"
    case NoChange => "NOERROR\n"
    case AuthFail => "NOACCESS\n"
    case NoHost => "NOHOST\n"
    case BadInput => "ILLEGAL INPUT\n"
    case Failure => "NOSERVICE\n"
  }

  function DynDnsBody(o: Outcome, ip: string): string {
    match o
    case Success => "good " + ip
    case NoChange => "nochg " + ip
    case AuthFail => "badauth"
    case NoHost => "nohost"
    case BadInput => "badrequest"
    case Failure => "911"
  }

  function CreateResponse(path: string, status: string, ip: string): (r: Response)
    ensures r.code == 200 <==> status in ["created", "updated", "SUCCESS", "skipped", "NO_CHANGE"]
    ensures r.code == 401 <==> status == "AUTH_FAIL"
    ensures r.code == 400 <==> status == "NOHOST" || status == "BAD_INPUT"
    ensures r.code in {200, 400, 401, 500}
    ensures IsEasyDnsPath(path) ==> |r.body| > 0 && r.body[|r.body| - 1] == '\n'
    ensures !IsEasyDnsPath(path) && '\n' !in ip ==> '\n' !in r.body
    ensures r.contentType == ContentType && r.cacheControl == CacheControl
  {
    var o := OutcomeOf(status);
    var code := match o
      case Success => 200
      case NoChange => 200
      case AuthFail => 401
      case NoHost => 400
      case BadInput => 400
      case Failure => 500;
    var body := match DialectOf(path)
      case EasyDns => EasyDnsBody(o)
      case DynDns => DynDnsBody(o, ip);
    Response(code, body, ContentType, CacheControl)
  }

  // ---------------------------------------------------------------------------
  // The client's side: reading a reply back
  // ---------------------------------------------------------------------------

  /**
   * How an EasyDNS client reads a body. The dialect has one success word, so
   * an update and a no-change reply read the same.
   */
  function ReadEasyDns(body: string): Option<Outcome> {
    if body == "NOERROR\n" then Some(Success)
    else if body == "NOACCESS\n" then Some(AuthFail)
    else if body == "NOHOST\n" then Some(NoHost)
    else if body == "ILLEGAL INPUT\n" then Some(BadInput)
    else if body == "NOSERVICE\n" then Some(Failure)
    else None
  }

  /** How a DynDNS client reads a body: the return code, and the address after `good` or `nochg`. */
  function ReadDynDns(body: string): Option<(Outcome, string)> {
    if StartsWith(body, "good ") then Some((Success, body[5..]))
    else if StartsWith(body, "nochg ") then Some((NoChange, body[6..]))
    else if body == "badauth" then Some((AuthFail, ""))
    else if body == "nohost" then Some((NoHost, ""))
    else if body == "badrequest" then Some((BadInput, ""))
    else if body == "911" then Some((Failure, ""))
    else None
  }

  /** Success and no-change replies carry the address; the error replies carry none. */
  function CarriedIp(o: Outcome, ip: string): string {
    if o == Success || o == NoChange then ip else ""
  }

  /** Each DynDNS body reads back as its outcome, with the address where the body carries one. */
  lemma ReadDynDnsBody(o: Outcome, ip: string)
    ensures ReadDynDns(DynDnsBody(o, ip)) == Some((o, CarriedIp(o, ip)))
  {
    var body := DynDnsBody(o, ip);
    match o
    case Success =>
      assert body[..5] == "good " && body[5..] == ip;
    case NoChange =>
      assert body[0] == 'n' && body[..6] == "nochg " && body[6..] == ip;
    case NoHost =>
      assert body == "nohost" && body[2] == 'h';
    case AuthFail =>
      assert body == "badauth" && body[0] == 'b';
    case BadInput =>
      assert body == "badrequest" && body[0] == 'b';
    case Failure =>
      assert body == "911" && body[0] == '9';
  }

  /** A DynDNS client recovers the outcome of every status, and the address of the good replies. */
  lemma DynDnsRoundTrip(path: string, status: string, ip: string)
    requires !IsEasyDnsPath(path)
    ensures var o := OutcomeOf(status);
            ReadDynDns(CreateResponse(path, status, ip).body) == Some((o, CarriedIp(o, ip)))
  {
    var o := OutcomeOf(status);
    assert CreateResponse(path, status, ip).body == DynDnsBody(o, ip);
    ReadDynDnsBody(o, ip);
  }

  /** An EasyDNS client recovers every outcome except the difference between updated and unchanged. */
  lemma EasyDnsRoundTrip(path: string, status: string, ip: string)
    requires IsEasyDnsPath(path)
    ensures var o := OutcomeOf(status);
            ReadEasyDns(CreateResponse(path, status, ip).body) == Some(if o == NoChange then Success else o)
  {
  }

  /** The reply code depends on the status alone, never on the dialect or the address. */
  lemma CodeIgnoresDialect(path1: string, path2: string, status: string, ip1: string, ip2: string)
    ensures CreateResponse(path1, status, ip1).code == CreateResponse(path2, status, ip2).code
  {
  }

  /** Statuses outside the documented ones, such as `ERROR` or a handler's unexpected word, are server failures. */
  lemma UnknownStatusIsFailure(path: string, status: string, ip: string)
    requires status !in ["created", "updated", "SUCCESS", "skipped", "NO_CHANGE", "AUTH_FAIL", "NOHOST", "BAD_INPUT"]
    ensures var r := CreateResponse(path, status, ip);
            r.code == 500 && r.body == (if IsEasyDnsPath(path) then "NOSERVICE\n" else "911")
  {
  }
}
