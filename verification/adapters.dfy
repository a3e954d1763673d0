/**
 * The read-then-create-or-update logic of `handleAliyun`, `handleTencent` and
 * `handleCloudflare` (index.js). Each handler lists the records of the wanted
 * type, then skips, updates the first such record, or creates one. The network
 * round trips are left to the caller: the functions here build the calls and
 * choose the plan from the list the provider returned.
 */
module Adapters {
  import opened Wrappers
  import opened Text
  import opened Domain

  datatype RecordType = A | AAAA {
    function Name(): string {
      match this
      case A => "A"
      case AAAA => "AAAA"
    }
  }

  /** `ip.includes(":") ? "AAAA" : "A"`; no other validation of the address. */
  function RecordTypeOf(ip: string): (t: RecordType)
    ensures t == AAAA <==> ':' in ip
  {
    if ':' in ip then AAAA else A
  }

  /** One DNS record as a provider lists it; `id` is `None` when the listing omits it. */
  datatype DnsRecord = DnsRecord(id: Option<string>, rtype: string, value: string, proxied: bool)

  /** One call of a signed RPC API: the action and its ordered parameters (`None` for `undefined`). */
  datatype ApiCall = ApiCall(action: string, params: seq<(string, Option<string>)>)

  /** What a handler does after reading the records. */
  datatype Plan<C> = Skip | Update(call: C) | Create(call: C)

  /** The `status` the handler returns for a plan: one word per kind of plan. */
  function PlanStatus<C>(plan: Plan<C>): (s: string)
    ensures s == "skipped" <==> plan.Skip?
    ensures s == "updated" <==> plan.Update?
    ensures s == "created" <==> plan.Create?
  {
    match plan
    case Skip => "skipped"
    case Update(_) => "updated"
    case Create(_) => "created"
  }

  /** `records[i]` is the record `find(r => r.Type === type)` returns. */
  predicate IsCurrent(records: seq<DnsRecord>, rtype: string, i: int) {
    0 <= i < |records| && records[i].rtype == rtype && forall j :: 0 <= j < i ==> records[j].rtype != rtype
  }

  /** `Array.prototype.find` by record type: the index of the first record of that type. */
  function FindCurrent(records: seq<DnsRecord>, rtype: string): (i: Option<nat>)
    ensures i.Some? ==> IsCurrent(records, rtype, i.value)
    ensures i.None? ==> forall j :: 0 <= j < |records| ==> records[j].rtype != rtype
  {
    if |records| == 0 then None
    else if records[0].rtype == rtype then Some(0)
    else
      match FindCurrent(records[1..], rtype)
      case Some(i) =>
        assert records[1..][i] == records[i + 1];
        Some(i + 1)
      case None =>
        assert forall j :: 1 <= j < |records| ==> records[j] == records[1..][j - 1];
        None
  }

  /** The first value given for a parameter name. */
  function Param(call: ApiCall, name: string): Option<string> {
    ParamIn(call.params, name)
  }

  function ParamIn(params: seq<(string, Option<string>)>, name: string): (v: Option<string>)
    ensures forall i :: 0 <= i < |params| && params[i].0 == name && (forall j :: 0 <= j < i ==> params[j].0 != name) ==>
              v == params[i].1
    ensures (forall j :: 0 <= j < |params| ==> params[j].0 != name) ==> v == None
  {
    if |params| == 0 then None
    else if params[0].0 == name then params[0].1
    else ParamIn(params[1..], name)
  }

  /** No parameter name is given twice. */
  predicate DistinctKeys(params: seq<(string, Option<string>)>) {
    forall i, j :: 0 <= i < j < |params| ==> params[i].0 != params[j].0
  }

  /** The parameter names in the order the argument object lists them. */
  function ParamNames(params: seq<(string, Option<string>)>): (names: seq<string>)
    ensures |names| == |params| && forall k :: 0 <= k < |params| ==> names[k] == params[k].0
  {
    seq(|params|, k requires 0 <= k < |params| => params[k].0)
  }

  /** With distinct names, each parameter is found by its own name. */
  lemma ParamAt(params: seq<(string, Option<string>)>, i: int)
    requires DistinctKeys(params) && 0 <= i < |params|
    ensures ParamIn(params, params[i].0) == params[i].1
  {
  }

  /** The Chinese label of DNSPod's default resolution line, U+9ED8 U+8BA4. */
  const DefaultRecordLine: string := "\U{9ED8}\U{8BA4}"

  // ---------------------------------------------------------------------------
  // Aliyun
  // ---------------------------------------------------------------------------

  /** The `DescribeSubDomainRecords` listing: the full name as given, and the record type of the address. */
  function AliQuery(domain: string, ip: string): (q: ApiCall)
    ensures q.action == "DescribeSubDomainRecords" && ParamNames(q.params) == ["SubDomain", "Type"]
    ensures Param(q, "SubDomain") == Some(domain) && Param(q, "Type") == Some(RecordTypeOf(ip).Name())
  {
    var ps := [("SubDomain", Some(domain)), ("Type", Some(RecordTypeOf(ip).Name()))];
    assert ps[0].0 == "SubDomain" && ps[1].0 == "Type";
    ApiCall("DescribeSubDomainRecords", ps)
  }

  /**
   * Aliyun writes the record it listed: a write has the type the listing asked
   * for, and a create names the record part and domain of the listed name.
   */
  lemma AliQueryMatchesPlan(domain: string, ip: string, records: seq<DnsRecord>)
    ensures var q := AliQuery(domain, ip);
            var plan := AliPlan(SplitDomain(domain), ip, records);
            && (!plan.Skip? ==> Param(plan.call, "Type") == Param(q, "Type"))
            && (!plan.Skip? ==> Param(plan.call, "RR") == Some(SplitDomain(Param(q, "SubDomain").value).rr))
            && (plan.Create? ==> Param(plan.call, "DomainName") == Some(SplitDomain(Param(q, "SubDomain").value).domain))
  {
  }

  function AliPlan(parts: DomainParts, ip: string, records: seq<DnsRecord>): (plan: Plan<ApiCall>)
    ensures var t := RecordTypeOf(ip).Name();
            plan.Skip? <==> exists i :: IsCurrent(records, t, i) && records[i].value == ip
    ensures var t := RecordTypeOf(ip).Name();
            plan.Update? ==> exists i :: IsCurrent(records, t, i) && records[i].value != ip
                                         && plan.call.action == "UpdateDomainRecord"
                                         && Param(plan.call, "RecordId") == records[i].id
    ensures plan.Create? <==> forall j :: 0 <= j < |records| ==> records[j].rtype != RecordTypeOf(ip).Name()
    ensures plan.Create? ==> (&& plan.call.action == "AddDomainRecord"
                              && Param(plan.call, "DomainName") == Some(parts.domain))
    ensures !plan.Skip? ==> (&& Param(plan.call, "RR") == Some(parts.rr)
                             && Param(plan.call, "Value") == Some(ip)
                             && Param(plan.call, "Type") == Some(RecordTypeOf(ip).Name()))
  {
    var t := RecordTypeOf(ip).Name();
    match FindCurrent(records, t)
    case Some(i) =>
      CurrentUnique(records, t);
      if records[i].value == ip then Skip
      else Update(AliUpdate(parts, records[i].id, t, ip))
    case None =>
      Create(AliCreate(parts, t, ip))
  }

  /** The `UpdateDomainRecord` request for an existing record. */
  function AliUpdate(parts: DomainParts, id: Option<string>, t: string, ip: string): (call: ApiCall)
    ensures call.action == "UpdateDomainRecord" && Param(call, "RecordId") == id
    ensures ParamNames(call.params) == ["RecordId", "RR", "Type", "Value"]
    ensures Param(call, "RR") == Some(parts.rr) && Param(call, "Value") == Some(ip) && Param(call, "Type") == Some(t)
  {
    var ps := [("RecordId", id), ("RR", Some(parts.rr)), ("Type", Some(t)), ("Value", Some(ip))];
    assert ps[0].0 == "RecordId" && ps[1].0 == "RR" && ps[2].0 == "Type" && ps[3].0 == "Value";
    ApiCall("UpdateDomainRecord", ps)
  }

  /** The `AddDomainRecord` request for a name with no record of the type. */
  function AliCreate(parts: DomainParts, t: string, ip: string): (call: ApiCall)
    ensures call.action == "AddDomainRecord" && Param(call, "DomainName") == Some(parts.domain)
    ensures ParamNames(call.params) == ["DomainName", "RR", "Type", "Value"]
    ensures Param(call, "RR") == Some(parts.rr) && Param(call, "Value") == Some(ip) && Param(call, "Type") == Some(t)
  {
    var ps := [("DomainName", Some(parts.domain)), ("RR", Some(parts.rr)), ("Type", Some(t)), ("Value", Some(ip))];
    assert ps[0].0 == "DomainName" && ps[1].0 == "RR" && ps[2].0 == "Type" && ps[3].0 == "Value";
    ApiCall("AddDomainRecord", ps)
  }

  lemma CurrentUnique(records: seq<DnsRecord>, rtype: string)
    ensures forall i, j :: IsCurrent(records, rtype, i) && IsCurrent(records, rtype, j) ==> i == j
  {
  }

  // ---------------------------------------------------------------------------
  // Tencent Cloud (DNSPod)
  // ---------------------------------------------------------------------------

  /** The `DescribeRecordList` listing: the registrable domain, the record part (as `Subdomain`) and the type. */
  function TencentQuery(domain: string, ip: string): (q: ApiCall)
    ensures q.action == "DescribeRecordList" && ParamNames(q.params) == ["Domain", "Subdomain", "RecordType"]
    ensures && Param(q, "Domain") == Some(SplitDomain(domain).domain)
            && Param(q, "Subdomain") == Some(SplitDomain(domain).rr)
            && Param(q, "RecordType") == Some(RecordTypeOf(ip).Name())
  {
    var parts := SplitDomain(domain);
    var ps := [("Domain", Some(parts.domain)), ("Subdomain", Some(parts.rr)), ("RecordType", Some(RecordTypeOf(ip).Name()))];
    assert ps[0].0 == "Domain" && ps[1].0 == "Subdomain" && ps[2].0 == "RecordType";
    ApiCall("DescribeRecordList", ps)
  }

  /**
   * Tencent writes the record it listed: the domain, the record part (named
   * `Subdomain` in the listing and `SubDomain` in the write) and the type agree.
   */
  lemma TencentQueryMatchesPlan(domain: string, ip: string, records: seq<DnsRecord>)
    ensures var q := TencentQuery(domain, ip);
            var plan := TencentPlan(SplitDomain(domain), ip, records);
            !plan.Skip? ==> && Param(plan.call, "Domain") == Param(q, "Domain")
                            && Param(plan.call, "SubDomain") == Param(q, "Subdomain")
                            && Param(plan.call, "RecordType") == Param(q, "RecordType")
  {
  }

  function TencentPlan(parts: DomainParts, ip: string, records: seq<DnsRecord>): (plan: Plan<ApiCall>)
    ensures var t := RecordTypeOf(ip).Name();
            plan.Skip? <==> exists i :: IsCurrent(records, t, i) && records[i].value == ip
    ensures var t := RecordTypeOf(ip).Name();
            plan.Update? ==> exists i :: IsCurrent(records, t, i) && records[i].value != ip
                                         && plan.call.action == "ModifyRecord"
                                         && Param(plan.call, "RecordId") == records[i].id
    ensures plan.Create? <==> forall j :: 0 <= j < |records| ==> records[j].rtype != RecordTypeOf(ip).Name()
    ensures plan.Create? ==> plan.call.action == "CreateRecord"
    ensures !plan.Skip? ==> (&& Param(plan.call, "Domain") == Some(parts.domain)
                             && Param(plan.call, "SubDomain") == Some(parts.rr)
                             && Param(plan.call, "RecordLine") == Some(DefaultRecordLine)
                             && Param(plan.call, "Value") == Some(ip)
                             && Param(plan.call, "RecordType") == Some(RecordTypeOf(ip).Name()))
  {
    var t := RecordTypeOf(ip).Name();
    match FindCurrent(records, t)
    case Some(i) =>
      CurrentUnique(records, t);
      if records[i].value == ip then Skip
      else Update(TencentModify(parts, records[i].id, t, ip))
    case None =>
      Create(TencentCreate(parts, t, ip))
  }

  /** The `ModifyRecord` request for an existing record. */
  function TencentModify(parts: DomainParts, id: Option<string>, t: string, ip: string): (call: ApiCall)
    ensures call.action == "ModifyRecord" && Param(call, "RecordId") == id
    ensures ParamNames(call.params) == ["Domain", "RecordId", "SubDomain", "RecordType", "RecordLine", "Value"]
    ensures && Param(call, "Domain") == Some(parts.domain) && Param(call, "SubDomain") == Some(parts.rr)
            && Param(call, "RecordLine") == Some(DefaultRecordLine) && Param(call, "Value") == Some(ip)
            && Param(call, "RecordType") == Some(t)
  {
    var ps := [("Domain", Some(parts.domain)), ("RecordId", id), ("SubDomain", Some(parts.rr)),
               ("RecordType", Some(t)), ("RecordLine", Some(DefaultRecordLine)), ("Value", Some(ip))];
    assert && ps[0].0 == "Domain" && ps[1].0 == "RecordId" && ps[2].0 == "SubDomain"
           && ps[3].0 == "RecordType" && ps[4].0 == "RecordLine" && ps[5].0 == "Value";
    assert DistinctKeys(ps);
    ParamAt(ps, 0); ParamAt(ps, 1); ParamAt(ps, 2); ParamAt(ps, 3); ParamAt(ps, 4); ParamAt(ps, 5);
    ApiCall("ModifyRecord", ps)
  }

  /** The `CreateRecord` request for a name with no record of the type. */
  function TencentCreate(parts: DomainParts, t: string, ip: string): (call: ApiCall)
    ensures call.action == "CreateRecord"
    ensures ParamNames(call.params) == ["Domain", "SubDomain", "RecordType", "RecordLine", "Value"]
    ensures && Param(call, "Domain") == Some(parts.domain) && Param(call, "SubDomain") == Some(parts.rr)
            && Param(call, "RecordLine") == Some(DefaultRecordLine) && Param(call, "Value") == Some(ip)
            && Param(call, "RecordType") == Some(t)
  {
    var ps := [("Domain", Some(parts.domain)), ("SubDomain", Some(parts.rr)), ("RecordType", Some(t)),
               ("RecordLine", Some(DefaultRecordLine)), ("Value", Some(ip))];
    assert && ps[0].0 == "Domain" && ps[1].0 == "SubDomain" && ps[2].0 == "RecordType"
           && ps[3].0 == "RecordLine" && ps[4].0 == "Value";
    assert DistinctKeys(ps);
    ParamAt(ps, 0); ParamAt(ps, 1); ParamAt(ps, 2); ParamAt(ps, 3); ParamAt(ps, 4);
    ApiCall("CreateRecord", ps)
  }

  // ---------------------------------------------------------------------------
  // Cloudflare
  // ---------------------------------------------------------------------------

  const CloudflareApi: string := "https://api.cloudflare.com/client/v4"

  /** The JSON body of a record write. */
  datatype RecordBody = RecordBody(rtype: string, name: string, content: string, ttl: int, proxied: bool)

  /** One REST request to the Cloudflare API: method, URL and JSON body; the request headers are not part of it. */
  datatype RestCall = RestCall(verb: string, url: string, body: Option<RecordBody>)

  /** The zone lookup, made only when no zone id is configured: active zones named like the registrable domain. */
  function CloudflareZoneQuery(domain: string): (q: RestCall)
    ensures q.verb == "GET" && q.body.None?
    ensures q.url == CloudflareApi + "/zones?name=" + SplitDomain(domain).domain + "&status=active"
  {
    RestCall("GET", CloudflareApi + "/zones?name=" + SplitDomain(domain).domain + "&status=active", None)
  }

  /** The zone is looked up under a name that is its own apex: splitting it again leaves it whole. */
  lemma ZoneQueryNamesApex(domain: string)
    ensures var zoneName := SplitDomain(domain).domain;
            && CloudflareZoneQuery(domain).url == CloudflareApi + "/zones?name=" + zoneName + "&status=active"
            && SplitDomain(zoneName) == DomainParts("@", zoneName)
  {
    SplitDomainIdempotent(domain);
  }

  /** The zone id from the lookup, or the error the handler throws. */
  function CloudflareZone(lookup: Option<string>): (zone: Result<string, string>)
    ensures zone.Err? <==> lookup.None?
    ensures zone.Err? ==> zone.error == "CF_ZONE_NOT_FOUND"
  {
    match lookup
    case Some(z) => Ok(z)
    case None => Err("CF_ZONE_NOT_FOUND")
  }

  /** The record listing of the zone, filtered on the server by the address's type and the full name. */
  function CloudflareRecordsQuery(zone: string, domain: string, ip: string): (q: RestCall)
    ensures q.verb == "GET" && q.body.None?
    ensures q.url == CloudflareApi + "/zones/" + zone + "/dns_records?type=" + RecordTypeOf(ip).Name() + "&name=" + domain
  {
    RestCall("GET", CloudflareApi + "/zones/" + zone + "/dns_records?type=" + RecordTypeOf(ip).Name() + "&name=" + domain, None)
  }

  /** Cloudflare writes the record it listed: the body's type and name are the listing's filter. */
  lemma CloudflareQueryMatchesPlan(zone: string, domain: string, ip: string, records: seq<DnsRecord>)
    ensures var plan := CloudflarePlan(zone, domain, ip, records);
            !plan.Skip? ==> && plan.call.body.Some?
                            && CloudflareRecordsQuery(zone, domain, ip).url
                                 == CloudflareApi + "/zones/" + zone + "/dns_records?type=" + plan.call.body.value.rtype
                                    + "&name=" + plan.call.body.value.name
  {
  }

  /** The URL of one record; `${undefined}` renders as `undefined`. */
  function RecordUrl(zone: string, id: Option<string>): string {
    CloudflareApi + "/zones/" + zone + "/dns_records/" + id.GetOr("undefined")
  }

  /**
   * The listing is already filtered by type and name on the server, so the handler
   * takes its first entry without looking at the type.
   */
  function CloudflarePlan(zone: string, domain: string, ip: string, records: seq<DnsRecord>): (plan: Plan<RestCall>)
    ensures plan.Skip? <==> |records| > 0 && records[0].value == ip
    ensures plan.Update? ==> && |records| > 0 && records[0].value != ip
                             && plan.call == RestCall("PUT", RecordUrl(zone, records[0].id),
                                                      Some(RecordBody(RecordTypeOf(ip).Name(), domain, ip, 1, records[0].proxied)))
    ensures plan.Create? <==> |records| == 0
    ensures plan.Create? ==> plan.call == RestCall("POST", CloudflareApi + "/zones/" + zone + "/dns_records",
                                                   Some(RecordBody(RecordTypeOf(ip).Name(), domain, ip, 1, false)))
  {
    var t := RecordTypeOf(ip).Name();
    if |records| > 0 then
      var current := records[0];
      if current.value == ip then Skip
      else Update(RestCall("PUT", RecordUrl(zone, current.id), Some(RecordBody(t, domain, ip, 1, current.proxied))))
    else
      Create(RestCall("POST", CloudflareApi + "/zones/" + zone + "/dns_records", Some(RecordBody(t, domain, ip, 1, false))))
  }

  // ---------------------------------------------------------------------------
  // What the provider does with a plan, and convergence
  // ---------------------------------------------------------------------------

  /** No two records share an id, and every record has one. */
  predicate DistinctIds(records: seq<DnsRecord>) {
    && (forall i :: 0 <= i < |records| ==> records[i].id.Some?)
    && (forall i, j :: 0 <= i < j < |records| ==> records[i].id != records[j].id)
  }

  /**
   * The provider's effect of a signed call: an update rewrites the type and value of the
   * record with the given id; a create appends a record with a fresh id.
   */
  function ApplyCall(records: seq<DnsRecord>, plan: Plan<ApiCall>, typeKey: string, freshId: string): (after: seq<DnsRecord>)
    ensures plan.Skip? ==> after == records
    ensures plan.Update? ==> |after| == |records|
  {
    match plan
    case Skip => records
    case Update(call) =>
      seq(|records|, i requires 0 <= i < |records| =>
        if records[i].id.Some? && Param(call, "RecordId") == records[i].id
        then records[i].(rtype := Param(call, typeKey).GetOr(records[i].rtype),
                         value := Param(call, "Value").GetOr(records[i].value))
        else records[i])
    case Create(call) =>
      records + [DnsRecord(Some(freshId), Param(call, typeKey).GetOr(""), Param(call, "Value").GetOr(""), false)]
  }

  /** After the update of the current record, it is still the current record and holds `ip`. */
  lemma UpdatedRecordIsCurrent(records: seq<DnsRecord>, plan: Plan<ApiCall>, typeKey: string, t: string, ip: string, i: int)
    requires DistinctIds(records)
    requires IsCurrent(records, t, i)
    requires plan.Update? && Param(plan.call, "RecordId") == records[i].id
    requires Param(plan.call, typeKey) == Some(t) && Param(plan.call, "Value") == Some(ip)
    ensures var after := ApplyCall(records, plan, typeKey, "");
            IsCurrent(after, t, i) && after[i].value == ip
  {
    var after := ApplyCall(records, plan, typeKey, "");
    forall j | 0 <= j < i
      ensures after[j].rtype != t
    {
      assert records[j].id != records[i].id;
    }
  }

  /** A created record is the only record of its type, so it becomes the current one. */
  lemma CreatedRecordIsCurrent(records: seq<DnsRecord>, plan: Plan<ApiCall>, typeKey: string, t: string, ip: string, freshId: string)
    requires plan.Create?
    requires forall j :: 0 <= j < |records| ==> records[j].rtype != t
    requires Param(plan.call, typeKey) == Some(t) && Param(plan.call, "Value") == Some(ip)
    ensures var after := ApplyCall(records, plan, typeKey, freshId);
            IsCurrent(after, t, |records|) && after[|records|].value == ip
  {
  }

  /** Applying Aliyun's plan and reconciling again finds nothing to do. */
  lemma AliConverges(parts: DomainParts, ip: string, records: seq<DnsRecord>, freshId: string)
    requires DistinctIds(records)
    ensures var after := ApplyCall(records, AliPlan(parts, ip, records), "Type", freshId);
            AliPlan(parts, ip, after) == Skip
  {
    var plan := AliPlan(parts, ip, records);
    var t := RecordTypeOf(ip).Name();
    if plan.Update? {
      var i :| IsCurrent(records, t, i) && records[i].value != ip && Param(plan.call, "RecordId") == records[i].id;
      UpdatedRecordIsCurrent(records, plan, "Type", t, ip, i);
    } else if plan.Create? {
      CreatedRecordIsCurrent(records, plan, "Type", t, ip, freshId);
    }
  }

  /** Applying Tencent's plan and reconciling again finds nothing to do. */
  lemma TencentConverges(parts: DomainParts, ip: string, records: seq<DnsRecord>, freshId: string)
    requires DistinctIds(records)
    ensures var after := ApplyCall(records, TencentPlan(parts, ip, records), "RecordType", freshId);
            TencentPlan(parts, ip, after) == Skip
  {
    var plan := TencentPlan(parts, ip, records);
    var t := RecordTypeOf(ip).Name();
    if plan.Update? {
      var i :| IsCurrent(records, t, i) && records[i].value != ip && Param(plan.call, "RecordId") == records[i].id;
      UpdatedRecordIsCurrent(records, plan, "RecordType", t, ip, i);
    } else if plan.Create? {
      CreatedRecordIsCurrent(records, plan, "RecordType", t, ip, freshId);
    }
  }

  /** Cloudflare's effect of a REST write on the filtered listing. */
  function ApplyRest(zone: string, records: seq<DnsRecord>, plan: Plan<RestCall>, freshId: string): (after: seq<DnsRecord>)
    ensures plan.Skip? ==> after == records
  {
    match plan
    case Skip => records
    case Update(call) =>
      seq(|records|, i requires 0 <= i < |records| =>
        if call.body.Some? && call.url == RecordUrl(zone, records[i].id)
        then records[i].(value := call.body.value.content, proxied := call.body.value.proxied)
        else records[i])
    case Create(call) =>
      var body := call.body.GetOr(RecordBody("", "", "", 1, false));
      records + [DnsRecord(Some(freshId), body.rtype, body.content, body.proxied)]
  }

  /** Applying Cloudflare's plan and reconciling again finds nothing to do; an update keeps `proxied`. */
  lemma CloudflareConverges(zone: string, domain: string, ip: string, records: seq<DnsRecord>, freshId: string)
    ensures var after := ApplyRest(zone, records, CloudflarePlan(zone, domain, ip, records), freshId);
            && CloudflarePlan(zone, domain, ip, after) == Skip
            && (|records| > 0 ==> after[0].proxied == records[0].proxied)
  {
  }
}
