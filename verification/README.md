# edge-ddns-proxy in Dafny

This project models the decision logic of `index.js` from edge-ddns-proxy. That program is an edge function that speaks the DynDNS and EasyDNS update protocols to routers and clients. It translates each update into DNS API calls at Alibaba Cloud DNS ("ali"), Tencent DNSPod ("tencent") or Cloudflare.

The model is functional: immutable datatypes and pure functions over `string` (`seq<char>`) and sequences. One module per file:

| file | module | models |
|---|---|---|
| wrappers.dfy | `Wrappers` | `Option` and `Result` |
| text.dfy | `Text` | The JavaScript string operations the program uses: `startsWith`, `endsWith`, `includes`, `toLowerCase` (ASCII letters), `trim`, one-character `split`, `join`, the `a \|\| b \|\| ''` idiom and UTF-16 `length` |
| hex.dfy | `Hex` | `toHex` |
| domain.dfy | `Domain` | `splitDomain` and its table of multi-label public suffixes. The splitting is stated for any table of label pairs (`SplitLabels`), and `SplitDomain` applies it to the built-in table |
| detect.dfy | `Detect` | `detectProvider` |
| whitelist.dfy | `Whitelist` | `isDomainAllowed` |
| params.dfy | `Params` | `extractParams` |
| signing.dfy | `Signing` | The string construction of `signAndSendV3` for the ACS3-HMAC-SHA256 (Aliyun) and TC3-HMAC-SHA256 (Tencent) schemes, and the `sha256Hex`/`hmacHex` wrappers |
| adapters.dfy | `Adapters` | The reconciliation in `handleAliyun`, `handleTencent` and `handleCloudflare` |
| responses.dfy | `Responses` | `createDDNSResponse` |
| dispatch.dfy | `Dispatch` | The request handler `fetch` |

Several operations are parameters rather than definitions:
- **Crypto:** SHA-256 (FIPS 180-4), HMAC-SHA-256 (RFC 2104) and the UTF-8 encoder are function-typed fields of `Signing.Crypto`.
- **Encoders:** `JSON.stringify` and `URLSearchParams.toString` are fields of `Signing.Encoders`.
- **Clock and nonce:** the time, its ISO rendering and the nonce are a `Signing.Moment`.
- **atob:** the base64 decoder is a function that gives `None` where it would throw.
- **Key-value store:** it is a lookup function, `Dispatch.Kv`.
- **Provider APIs:** the handler behind each provider is a function from the call to a returned status or a thrown message. The record listing a handler reads is a plain sequence of `Adapters.DnsRecord`.

Where the code and its own comments or documentation disagree, the model follows the code:
- **Tencent signed headers.** Tencent signs `content-type;host;x-tc-action` (index.js:347 and 402-403). `Signing.Tc3SignedKeys` proves this.
- **Numeric ids.** An id of five or more ASCII digits is detected as Tencent's (index.js:237). `Detect.NumericIdIsTencent` proves this.
- **No AKID repair.** No step repairs a compact Tencent id by adding an `AKID` prefix.
- **Whitelist suffixes.** The whitelist test is plain `endsWith`, with no label boundary (index.js:259). Leading dots are not removed from the items, although the comment at index.js:247 says they are. `Whitelist.NoLabelBoundary` shows `notexample.com` passing `example.com`.
- **Provider check.** The `!provider` test (index.js:55-57) can never fire, because the provider choice always ends in `'ali'`. `Dispatch.ProviderName` proves the chosen name is never empty.
- **Unknown providers and the cache.** An unknown provider name from the `provider` query parameter is refused only after the cache has been consulted under that name (index.js:59-88). `Dispatch.UnknownProviderRefused` states both outcomes.
- **Missing Cloudflare zone.** The `CF_ZONE_NOT_FOUND` error is an ordinary thrown error. It is answered as a server failure (500), not as `nohost`.
- **Home-page redirect.** The root redirect goes to `https://edge-ddns-proxy.newfuture.cc/` (index.js:33-35), which is the address the code uses.

## Model

| member | source | states |
|---|---|---|
| Domain.Labels | index.js:350-351 | The labels after one trailing dot is dropped are non-empty and dot-free |
| Domain.LabelsOfPieces | index.js:350-351 | For dot-free pieces, the labels of their dot-join are exactly the non-empty pieces, in their order |
| Domain.LabelsTrailingDot | index.js:350 | Plain labels joined with dots and given one trailing dot read back as those labels |
| Domain.LabelsSkipEmpty | index.js:351 | The empty label between two adjacent dots is dropped: `a..b` has the labels of `a.b` |
| Domain.LabelsExample | index.js:350-351 | `..www.example.com.` has the labels `www`, `example`, `com` |
| Domain.SplitDomainNestedExample | test/splitDomain.test.js:17-19 | `test.www.example.co.uk` splits into `rr` `test.www` and `domain` `example.co.uk` |
| Domain.SplitDomainTrailingExample | test/splitDomain.test.js:21-23 | `..www.example.com.` splits into `rr` `www` and `domain` `example.com` |
| Domain.SuffixLengthIsLongest | index.js:355-362 | The loop yields 1 or the length of a table entry that matches the tail and is shorter than the name, and no matching entry is longer |
| Domain.SuffixLengthOnTable | index.js:338-362 | On three or more labels and a table of label pairs, the loop finds a two-label suffix exactly when the last two labels, lower-cased, are a table pair |
| Domain.SplitLabelsCut | index.js:352-371 | The domain is the join of the last `DomainLabelCount` labels: all of them up to two labels, three after a table pair, two otherwise. `rr` is the join of the rest, or `@` |
| Domain.SplitShape | index.js:364-370 | Splitting `domain` at its dots gives the kept labels, and splitting `rr` gives the labels before them |
| Domain.CutRebuilds | index.js:364-368 | Both sides of the cut, split again, give back all labels, and `rr.domain` is the joined name |
| Domain.SplitReconstructs | index.js:352-371 | The record labels followed by the domain labels are exactly the labels, and `rr.domain` is their join |
| Domain.SplitDomainReconstructs | index.js:349-371 | The same for a full name on the built-in table: the labels of `rr` then of `domain` are the name's labels |
| Domain.ApexMarker | index.js:369 | `rr` is `@` exactly when no label precedes the domain, or the only one is `@` itself |
| Domain.LabelsOfJoin | index.js:350-352 | Joining dot-free non-empty labels and taking the labels again is the identity |
| Domain.DomainIsRegistrable | index.js:364-366 | The domain is the join of at most two labels, or of three ending in a table pair |
| Domain.SplitIdempotent | index.js:349-371 | Splitting the registrable domain again yields itself with `rr = @` |
| Domain.SplitDomainIdempotent | index.js:349-371 | The same for a full name on the built-in table |
| Detect.DetectProvider | index.js:234-240 | No provider for two empty strings. Otherwise the three rules in order: `LTAI` plus ten alphanumerics is Aliyun; `AKID` plus ten, or all digits (five or more), is Tencent; a secret or id of 30 or more UTF-16 units is Cloudflare; else none |
| Detect.KeyPrefixDecidesPattern | index.js:236-237 | Checking exactly ten alphanumerics after the prefix decides the unbounded pattern `[a-zA-Z0-9]{10,}` |
| Detect.NumericIdIsTencent | index.js:237 | Any id of five or more digits is Tencent's, whatever the secret |
| Detect.NumericIdExample | index.js:237 | The id `123456` with the secret `abc123token` is Tencent's |
| Detect.ProviderNamed | index.js:73-88 | The provider names of the handler `switch`, read back; an unknown name denotes no provider |
| Whitelist.Entries | index.js:255-256 | One entry per comma-separated piece of the trimmed list. Every entry is comma-free, has no upper-case ASCII letter and no white space at either end |
| Whitelist.AnyAdmits | index.js:259 | True exactly when some entry equals the target, is a suffix of it, or equals `.` plus the target |
| Whitelist.IsDomainAllowed | index.js:251-260 | A blank list allows all. Otherwise a domain is allowed exactly when some non-blank entry admits its lower-cased name |
| Whitelist.AdmittedByNonEmpty | index.js:257-259 | Dropping blank entries keeps exactly the entries that can admit |
| Whitelist.BlankAllowsAll | index.js:252-253 | A whitespace-only list allows every domain |
| Whitelist.SingleEntry | index.js:255-259 | A one-entry list allows exactly what that entry admits |
| Whitelist.NoLabelBoundary | index.js:259 | `example.com` admits `notexample.com` |
| Params.BasicToken | index.js:204 | The token is the text after `Basic ` up to the next space |
| Params.SplitCredentials | index.js:205-207 | Without a colon the whole text is the user and the password is empty. Otherwise the user is colon-free and `user:password` rebuilds the text |
| Params.ColonsStayInPassword | index.js:205-207 | A colon-free user and any password, colons included, are recovered exactly |
| Params.BasicCredentials | index.js:201-212 | An absent header, or one not starting with `Basic `, gives empty credentials |
| Params.ForwardedFor | index.js:225 | `x-forwarded-for` contributes its first comma-separated entry, trimmed |
| Params.ClientIp | index.js:220-228 | The address is the first non-empty of `myip`, `ip`, `addr`, the client address, `cf-connecting-ip`, `x-client-ip`, the forwarded entry and `x-real-ip` |
| Params.Fallback | index.js:214-215 | A credential from the header is kept. Only an empty one falls back to the first non-empty of its two query names |
| Params.ExtractParams | index.js:192-232 | Every field obeys its priority order; the hostname comes from `hostname`, `domain`, `host_id`, `host`, `id` |
| Params.QueryIpWins | index.js:220-228 | A non-empty `myip` beats every header |
| Adapters.PlanStatus | index.js:274-281 | The status is `skipped`, `updated` or `created`, each exactly for its kind of plan |
| Adapters.AliQuery | index.js:271 | The listing is `DescribeSubDomainRecords` with exactly the parameters `SubDomain` and `Type`, in that order: the full name and the address's record type |
| Adapters.AliQueryMatchesPlan | index.js:266-280 | A write has the listing's `Type`, and its `RR` is the record part of the listed name. A create's `DomainName` is that name's registrable domain |
| Adapters.TencentQuery | index.js:285-289 | The listing is `DescribeRecordList` with exactly `Domain`, `Subdomain`, `RecordType` in that order: the two parts of the split and the address's record type |
| Adapters.TencentQueryMatchesPlan | index.js:285-298 | A write's `Domain`, `SubDomain` and `RecordType` equal the listing's `Domain`, `Subdomain` and `RecordType` |
| Adapters.ZoneQueryNamesApex | index.js:304-308 | The zone is looked up under a name whose own split is `@` and the name itself |
| Adapters.CloudflareQueryMatchesPlan | index.js:313-329 | A write carries a body whose type and name are the listing's filter |
| Adapters.RecordTypeOf | index.js:268 | `AAAA` exactly when the address contains `:`, otherwise `A` |
| Adapters.FindCurrent | index.js:272 | The first record of the wanted type, or none when no record has it |
| Adapters.CurrentUnique | index.js:272 | The current record is unique |
| Adapters.AliPlan | index.js:266-282 | Skip exactly when the current record already holds the address. An update of a differing record by its `RecordId`. A create with `DomainName` exactly when no record has the type. Writes carry `RR`, `Type` and `Value` |
| Adapters.AliUpdate | index.js:276 | `UpdateDomainRecord` with exactly the parameters `RecordId`, `RR`, `Type`, `Value` in that order, holding the record id, the record part, the type and the address |
| Adapters.AliCreate | index.js:279 | `AddDomainRecord` with exactly `DomainName`, `RR`, `Type`, `Value` in that order, holding the registrable domain, the record part, the type and the address |
| Adapters.TencentPlan | index.js:284-300 | The same three-way choice, with `Domain`, `SubDomain`, `RecordType`, the default line and `RecordId` on update |
| Adapters.TencentModify | index.js:294 | `ModifyRecord` with exactly `Domain`, `RecordId`, `SubDomain`, `RecordType`, `RecordLine`, `Value` in that order; the line is the default line |
| Adapters.TencentCreate | index.js:297 | `CreateRecord` with exactly `Domain`, `SubDomain`, `RecordType`, `RecordLine`, `Value` in that order; the line is the default line |
| Adapters.CloudflareZone | index.js:306-311 | A missing zone is the `CF_ZONE_NOT_FOUND` error |
| Adapters.CloudflarePlan | index.js:313-330 | The first listed record decides. Skip when it holds the address. Otherwise a PUT to its URL that keeps `proxied` and sets `ttl` 1. With no record, a POST with `proxied` false |
| Adapters.ParamAt | index.js:276-297 | With distinct parameter names, each parameter is found by its own name |
| Adapters.UpdatedRecordIsCurrent | index.js:276 | After the update, the addressed record is still the current one and holds the address |
| Adapters.CreatedRecordIsCurrent | index.js:279 | A created record becomes the current record of its type |
| Adapters.AliConverges | index.js:266-282 | Applying Aliyun's plan and reconciling again gives skip |
| Adapters.TencentConverges | index.js:284-300 | Applying Tencent's plan and reconciling again gives skip |
| Adapters.CloudflareConverges | index.js:313-330 | Applying Cloudflare's plan and reconciling again gives skip; an update keeps `proxied` |
| Hex.ToHex | index.js:436 | Two lower-case hex digits per byte |
| Hex.HexRoundTrip | index.js:436 | The hex rendering reads back to the bytes, high nibble first |
| Hex.HexInjective | index.js:436 | Distinct byte strings render differently |
| Signing.Sha256Hex | index.js:430 | A digest renders as lower-case hex |
| Signing.HmacHex | index.js:435 | A MAC renders as lower-case hex |
| Signing.FormEntries | index.js:381-386 | The form body keeps exactly the parameters with a value, and nothing else |
| Signing.FormEntriesAppend | index.js:381-386 | The entries of two parameter lists are those of the first followed by those of the second, so the kept entries keep the parameters' order |
| Signing.FormEntriesKeepPresent | index.js:382-385 | When every parameter has a value, none is dropped |
| Signing.DropFraction | index.js:393 | A trailing `.digits Z` becomes `Z`; any other string is unchanged |
| Signing.IsoDay | index.js:394 | The day is the text before the first `T`, or all of it when there is none |
| Signing.BaseHeaders | index.js:398-400 | `host` and `content-type` first, then three TC3 headers or five ACS3 headers |
| Signing.BaseHeaderValues | index.js:397-400 | Read by name, `host` and `content-type` hold the host and the scheme's content type. TC3 headers hold the action, the version and the whole-second timestamp. ACS3 headers hold the action, the version, the ISO time without its fraction, the nonce and the body hash |
| Signing.HeaderValue | index.js:405 | The value of the first header with that name |
| Signing.Present | index.js:403 | Tencent's fixed list, filtered in order by presence |
| Signing.PresentAppend | index.js:403 | Filtering a concatenation filters each part, so the kept keys keep the list's order |
| Signing.FilterAcs | index.js:404 | Every kept name is `host`, `content-type` or starts with `x-acs-`, and the kept names are drawn from the input |
| Signing.FilterAcsKeeps | index.js:404 | No name that passes the test is dropped |
| Signing.FilterAcsAllSigned | index.js:404 | A list of names that all pass the test comes through unchanged |
| Signing.Insert | index.js:404 | Insertion keeps the list sorted and adds exactly one element |
| Signing.Sort | index.js:404 | The result is sorted by code point and is a permutation of the input |
| Signing.SortedUnique | index.js:404 | Two sorted permutations of one list are equal, so the sort is determined |
| Signing.StrLeTotal | index.js:404 | The string order is total |
| Signing.StrLeTrans | index.js:404 | The string order is transitive |
| Signing.StrLeAntisymmetric | index.js:404 | The string order is antisymmetric |
| Signing.SignedHeaderKeys | index.js:402-404 | ACS3 keys are sorted, signable and drawn from the lower-cased names, and every signable lower-cased name is among them. TC3 keys are on Tencent's list and present, and every entry of the list that is present is kept |
| Signing.Tc3SignedKeys | index.js:347 | Tencent signs exactly `content-type`, `host`, `x-tc-action` |
| Signing.Acs3SignedKeys | index.js:398-404 | Aliyun signs exactly its seven lower-case headers, sorted |
| Signing.CanonicalHeaderLines | index.js:405 | The header block is one `k:v` line per signed key, in list order, each ending in a newline |
| Signing.CanonicalRequestSplit | index.js:407 | The canonical request's lines are `POST`, `/`, empty, the header block's lines, the key list and the body hash |
| Signing.CanonicalRequestLines | index.js:405-407 | The same, with the header block expanded into its `k:v` lines |
| Signing.ScopeFields | index.js:411 | The scope is the day, `dnspod` and `tc3_request`, separated by `/` |
| Signing.StringToSignLines | index.js:412-418 | The string to sign is the algorithm, then (TC3 only) the seconds and the scope, then the hashed request, one per line |
| Signing.Tc3KeyFollowsScope | index.js:411-415 | The TC3 signing key starts from `TC3` plus the secret and MACs each `/`-separated field of the scope in turn |
| Signing.AuthorizationFields | index.js:416-419 | The Authorization value has three comma-separated fields: the credential, the signed headers and the signature |
| Signing.SignedHeadersAgree | index.js:402-419 | The `SignedHeaders=` field names the keys the canonical request was built from, which are the scheme's fixed list |
| Signing.SignTrace | index.js:397-420 | The body hash and the signature are lower-case hex. The canonical request is built from the signed keys. The string to sign holds the scheme's algorithm, its whole seconds and the scope of the ISO day, and the hash of that canonical request. The signature is its MAC under the scheme's signing key |
| Signing.TraceSignLines | index.js:411-418 | The trace's string to sign reads back line by line: the algorithm, for TC3 the seconds and the scope, then the hash of the trace's canonical request |
| Signing.Sign | index.js:379-422 | The request carries the encoded body and ends with the `Authorization` header |
| Responses.OutcomeOf | index.js:136-137 | `created`, `updated` and `SUCCESS` are successes; `skipped` and `NO_CHANGE` are no-change; three error statuses are named; all else fails |
| Responses.CreateResponse | index.js:126-177 | 200 for success and no-change, 401 for `AUTH_FAIL`, 400 for `NOHOST` and `BAD_INPUT`, 500 otherwise. EasyDNS bodies end in a newline; DynDNS bodies have none unless the address does |
| Responses.DynDnsRoundTrip | index.js:157-176 | A DynDNS client reads back the outcome of every status, and the address from `good` and `nochg` |
| Responses.EasyDnsRoundTrip | index.js:139-156 | An EasyDNS client reads back every outcome; updated and unchanged read the same |
| Responses.CodeIgnoresDialect | index.js:126-177 | The code depends on the status alone |
| Responses.UnknownStatusIsFailure | index.js:153-176 | An unrecognised status is `NOSERVICE` or `911` with 500 |
| Dispatch.ProviderName | index.js:53 | The provider is the detected name, else the requested one, else `ali`; it is never empty |
| Dispatch.DetectionWins | index.js:53 | A detected provider beats the requested one |
| Dispatch.CallFor | index.js:73-88 | Known names select their handler with the credential pair. Cloudflare gets no zone and the password, or the username when the password is empty. Unknown names select none |
| Dispatch.ReplyTo | index.js:89-98 | A thrown error is 401 exactly when its message, lower-cased, names a credential problem, and 500 otherwise |
| Dispatch.Fetch | index.js:29-118 | The root redirect exactly for a browser at `/`. A handler runs only after every check passes and on a cache miss. A request with credentials, a hostname and an address, on the whitelist, that misses the cache under a known provider calls that provider's handler with its credentials. A cache write happens exactly after a cacheable status with a store present, under `DDNS:provider:domain` with TTL 300 |
| Dispatch.HandlerStatusAnswered | index.js:101-113 | Every status a handler returns is cached and answered 200: `good` plus the address after a write, `nochg` plus the address after a skip |
| Dispatch.NoCredentialsIsAuthFail | index.js:41 | No username and no password gives 401 and no handler call |
| Dispatch.MissingDomainIsBadInput | index.js:41-42 | With credentials but no hostname the reply is the `BAD_INPUT` response, before the address and whitelist checks, with no handler call and no cache write |
| Dispatch.MissingIpIsError | index.js:43 | With no address: 500 |
| Dispatch.RejectedDomainIsNoHost | index.js:46-50 | A whitelist rejection gives `nohost` with 400 and no handler call |
| Dispatch.CacheHitSkips | index.js:59-70 | A cached copy of the current address gives `nochg` with 200, no handler call and no write |
| Dispatch.RepeatIsSkipped | index.js:59-109 | After a request that wrote the cache, repeating it against the updated store calls no handler, writes nothing and gives the `skipped` response for the address (200) |
| Dispatch.UnauthorizedMessage | index.js:90-94 | The mixed-case message `401 Unauthorized` is recognised as a credential problem |
| Dispatch.UnknownProviderRefused | index.js:59-88 | An unknown provider gets 401 on a cache miss and 200 on a cache hit, never a handler call |
| Dispatch.CacheKeyInjective | index.js:60 | Cache keys of colon-free provider names determine the provider and the domain |

## Left out

- **HTTP and I/O.** The `Response` objects, `fetch` to the provider APIs, the checks on their answers and the Tencent error envelope (index.js:423-426). The handlers' results enter as parameters.
- **The outermost error catch.** `extractParams` and URL parsing never throw in the model, so this catch (index.js:115-118) has no counterpart.
- **The key-value store's failures.** A failed read counts as a miss. The write and `ctx.waitUntil` are reported as a `Dispatch.CacheWrite`, and a failed write is not modelled.
- **Crypto primitives.** SHA-256, HMAC, `importKey` and `TextEncoder` are uninterpreted parameters. Their internals are outside this model.
- **Clock and randomness.** `Date`, `toISOString` and `Math.random` are inputs in `Signing.Moment`.
- **Library encoders.** `URL` and `URLSearchParams` parsing and encoding, `JSON.stringify` and `atob` are opaque. The query arrives as a map holding the first value of each name.
- **Case conversion.** `toLowerCase` is modelled for ASCII letters only. Non-ASCII letters keep their case.
- **Sort order.** The ACS3 key sort compares code points, not UTF-16 units. The two differ only above U+FFFF, and all the keys are ASCII.
- **Cloudflare request headers.** The `Authorization: Bearer` token header and the JSON content type sent with every Cloudflare request (index.js:303) are not modelled; an `Adapters.RestCall` holds only the method, URL and body.
- **Repeated headers.** Multi-valued headers are not modelled: each header name maps to one string.
- **splitDomain test literals.** Two of the five cases in test/splitDomain.test.js are restated: `Domain.SplitDomainNestedExample` and `Domain.SplitDomainTrailingExample`. The other three (`example.com`, `www.example.com`, `example.co.uk`) are instances of `Domain.SplitLabelsCut` and `Domain.ApexMarker` and are not written out, because concrete names are costly for the verifier.
- **Stand-alone Tencent test files.** The two Tencent test files that carry their own signer are not part of this model, because they never call index.js.
- Signing.Sign: states only where the `Authorization` header sits and which body is sent. The header values and the signature are described by `Signing.SignTrace` and the lemmas about it.
- Params.BasicCredentials: its contract covers only the header-absent and non-`Basic` cases. The decoded case is `Params.SplitCredentials` applied to the `atob` result.
