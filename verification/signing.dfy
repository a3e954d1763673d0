/**
 * The string construction of `signAndSendV3` (index.js): the request body, the
 * header set, the signed-header list, the canonical request, the string to sign
 * and the `Authorization` value of Aliyun's ACS3-HMAC-SHA256 and Tencent Cloud's
 * TC3-HMAC-SHA256 schemes. SHA-256 (FIPS 180-4), HMAC (RFC 2104), UTF-8
 * encoding, JSON and form encoding are parameters; the clock and the nonce are
 * inputs.
 */
module Signing {
  import opened Wrappers
  import opened Text
  import opened Hex

  /** `type === "tencent"` selects TC3; every other caller gets ACS3. */
  datatype Scheme = Acs3 | Tc3

  /** The Web Crypto primitives, kept abstract. `hmac(key, message)` is HMAC-SHA-256. */
  datatype Crypto = Crypto(
    utf8: string -> seq<byte>,
    sha256: seq<byte> -> seq<byte>,
    hmac: (seq<byte>, seq<byte>) -> seq<byte>)

  /** `JSON.stringify` of the parameter object and `URLSearchParams.toString`, kept abstract. */
  datatype Encoders = Encoders(
    json: seq<(string, Option<string>)> -> string,
    form: seq<(string, string)> -> string)

  /**
   * The clock and the nonce: `Date.now()` in milliseconds, the same instant as
   * `toISOString()` renders it, and `Math.random().toString(36).slice(2)`.
   */
  datatype Moment = Moment(millis: nat, iso: string, nonce: string)

  /** One signed call: API host and version, credential pair, action and ordered parameters. */
  datatype SignInput = SignInput(
    host: string, version: string, id: string, key: string,
    action: string, params: seq<(string, Option<string>)>, scheme: Scheme)

  /** Header names and values, in insertion order. */
  type Headers = seq<(string, string)>

  datatype SignedRequest = SignedRequest(headers: Headers, body: string)

  const AliHost: string := "alidns.aliyuncs.com"
  const AliVersion: string := "2015-01-09"
  const TencentHost: string := "dnspod.tencentcloudapi.com"
  const TencentVersion: string := "2021-03-23"

  // ---------------------------------------------------------------------------
  // Primitives
  // ---------------------------------------------------------------------------

  /** `sha256Hex`: the digest of the UTF-8 bytes, in lower-case hex. */
  function Sha256Hex(c: Crypto, s: string): (h: string)
    ensures forall k :: 0 <= k < |h| ==> IsLowerHex(h[k])
  {
    ToHex(c.sha256(c.utf8(s)))
  }

  /** `hmacRaw` with a byte key. */
  function HmacRaw(c: Crypto, key: seq<byte>, s: string): seq<byte> {
    c.hmac(key, c.utf8(s))
  }

  /** `hmacHex`: the MAC in lower-case hex. */
  function HmacHex(c: Crypto, key: seq<byte>, s: string): (h: string)
    ensures forall k :: 0 <= k < |h| ==> IsLowerHex(h[k])
  {
    ToHex(HmacRaw(c, key, s))
  }

  /** No lower-case hex string holds a character outside `[0-9a-f]`. */
  lemma HexFree(h: string, ch: char)
    requires forall k :: 0 <= k < |h| ==> IsLowerHex(h[k])
    requires !IsLowerHex(ch)
    ensures ch !in h
  {
  }

  // ---------------------------------------------------------------------------
  // Body and clock
  // ---------------------------------------------------------------------------

  /** The form entries: parameters whose value is `null`/`undefined` are left out, the rest kept in order. */
  function FormEntries(params: seq<(string, Option<string>)>): (entries: seq<(string, string)>)
    ensures |entries| <= |params|
    ensures forall k :: 0 <= k < |entries| ==> (entries[k].0, Some(entries[k].1)) in params
    ensures forall i :: 0 <= i < |params| && params[i].1.Some? ==> (params[i].0, params[i].1.value) in entries
  {
    if |params| == 0 then []
    else
      var rest := FormEntries(params[1..]);
      assert forall i :: 1 <= i < |params| ==> params[i] == params[1..][i - 1];
      match params[0].1
      case Some(v) => [(params[0].0, v)] + rest
      case None => rest
  }

  /** With every value present, no entry is dropped. */
  lemma {:induction false} FormEntriesKeepPresent(params: seq<(string, Option<string>)>)
    requires forall i :: 0 <= i < |params| ==> params[i].1.Some?
    ensures |FormEntries(params)| == |params|
  {
    if |params| > 0 {
      FormEntriesKeepPresent(params[1..]);
    }
  }

  /**
   * The filter works entry by entry: the form entries of two parameter lists
   * are those of the first followed by those of the second, so the kept
   * entries stay in the order of the parameters.
   */
  lemma {:induction false} FormEntriesAppend(a: seq<(string, Option<string>)>, b: seq<(string, Option<string>)>)
    ensures FormEntries(a + b) == FormEntries(a) + FormEntries(b)
    decreases |a|
  {
    if |a| == 0 {
      assert a + b == b;
    } else {
      assert (a + b)[0] == a[0] && (a + b)[1..] == a[1..] + b;
      FormEntriesAppend(a[1..], b);
      if a[0].1.Some? {
        ConsAssoc((a[0].0, a[0].1.value), FormEntries(a[1..]), FormEntries(b));
      }
    }
  }

  function Body(enc: Encoders, scheme: Scheme, params: seq<(string, Option<string>)>): string {
    match scheme
    case Tc3 => enc.json(params)
    case Acs3 => enc.form(FormEntries(params))
  }

  function ContentType(scheme: Scheme): string {
    match scheme
    case Tc3 => "application/json; charset=utf-8"
    case Acs3 => "application/x-www-form-urlencoded"
  }

  /** `Math.floor(d / 1000)`: whole seconds since the epoch. */
  function Seconds(m: Moment): nat {
    m.millis / 1000
  }

  /** The number of decimal digits at the end of `s`. */
  function TrailingDigits(s: string): (n: nat)
    ensures n <= |s|
    ensures forall k :: |s| - n <= k < |s| ==> IsDigit(s[k])
    ensures n < |s| ==> !IsDigit(s[|s| - n - 1])
  {
    if |s| == 0 || !IsDigit(s[|s| - 1]) then 0 else TrailingDigits(s[..|s| - 1]) + 1
  }

  /** `iso` ends in a dot, one or more digits and `Z`, and the dot is at `p`. */
  predicate FractionAt(iso: string, p: int) {
    && 0 <= p && p + 2 < |iso| && iso[p] == '.' && iso[|iso| - 1] == 'Z'
    && forall k :: p < k < |iso| - 1 ==> IsDigit(iso[k])
  }

  /** `replace(/\.\d+Z$/, "Z")`: the fraction of a second is dropped from an ISO-8601 time. */
  function DropFraction(iso: string): (r: string)
    ensures forall p :: FractionAt(iso, p) ==> r == iso[..p] + "Z"
    ensures (forall p :: !FractionAt(iso, p)) ==> r == iso
  {
    if |iso| == 0 || iso[|iso| - 1] != 'Z' then iso
    else
      var body := iso[..|iso| - 1];
      var n := TrailingDigits(body);
      var p := |body| - n - 1;
      if n >= 1 && p >= 0 && iso[p] == '.' then
        assert FractionAt(iso, p);
        assert forall q :: FractionAt(iso, q) ==> q == p;
        iso[..p] + "Z"
      else
        assert forall q :: !FractionAt(iso, q);
        iso
  }

  /** `toISOString().split('T')[0]`: the calendar day. */
  function IsoDay(iso: string): (day: string)
    ensures 'T' !in day
    ensures 'T' in iso ==> |day| < |iso| && iso[..|day|] == day && iso[|day|] == 'T'
    ensures 'T' !in iso ==> day == iso
  {
    SplitHead(iso, 'T');
    Split(iso, 'T')[0]
  }

  // ---------------------------------------------------------------------------
  // Headers
  // ---------------------------------------------------------------------------

  /** The headers `signAndSendV3` sets before signing, in insertion order. */
  function BaseHeaders(input: SignInput, m: Moment, bodyHash: string): (h: Headers)
    ensures |h| == (if input.scheme == Tc3 then 5 else 7)
    ensures h[0] == ("host", input.host) && h[1] == ("content-type", ContentType(input.scheme))
  {
    [("host", input.host), ("content-type", ContentType(input.scheme))] +
    match input.scheme
    case Tc3 =>
      [("x-tc-action", input.action), ("x-tc-version", input.version), ("x-tc-timestamp", NatToString(Seconds(m)))]
    case Acs3 =>
      [("x-acs-action", input.action), ("x-acs-version", input.version), ("x-acs-date", DropFraction(m.iso)),
       ("x-acs-signature-nonce", m.nonce), ("x-acs-content-sha256", bodyHash)]
  }

  /**
   * Read back by name, the headers hold the host, the content type and the
   * scheme's action, version and clock values: for TC3 the whole-second
   * timestamp, for ACS3 the ISO time without its fraction, the nonce and the
   * body hash.
   */
  lemma BaseHeaderValues(input: SignInput, m: Moment, bodyHash: string)
    ensures var h := BaseHeaders(input, m, bodyHash);
            && HeaderValue(h, "host") == input.host
            && HeaderValue(h, "content-type") == ContentType(input.scheme)
            && (input.scheme == Tc3 ==>
                  && HeaderValue(h, "x-tc-action") == input.action
                  && HeaderValue(h, "x-tc-version") == input.version
                  && HeaderValue(h, "x-tc-timestamp") == NatToString(Seconds(m)))
            && (input.scheme == Acs3 ==>
                  && HeaderValue(h, "x-acs-action") == input.action
                  && HeaderValue(h, "x-acs-version") == input.version
                  && HeaderValue(h, "x-acs-date") == DropFraction(m.iso)
                  && HeaderValue(h, "x-acs-signature-nonce") == m.nonce
                  && HeaderValue(h, "x-acs-content-sha256") == bodyHash)
  {
    var h := BaseHeaders(input, m, bodyHash);
    if input.scheme == Tc3 {
      assert Names(h) == ["host", "content-type", "x-tc-action", "x-tc-version", "x-tc-timestamp"];
      assert DistinctNames(h);
      HeaderValueDistinct(h, 0); HeaderValueDistinct(h, 1); HeaderValueDistinct(h, 2);
      HeaderValueDistinct(h, 3); HeaderValueDistinct(h, 4);
    } else {
      assert Names(h) == AcsHeaderNames;
      assert DistinctNames(h);
      HeaderValueDistinct(h, 0); HeaderValueDistinct(h, 1); HeaderValueDistinct(h, 2);
      HeaderValueDistinct(h, 3); HeaderValueDistinct(h, 4); HeaderValueDistinct(h, 5);
      HeaderValueDistinct(h, 6);
    }
  }

  /** No header name is set twice. */
  predicate DistinctNames(h: Headers) {
    forall i, j :: 0 <= i < j < |h| ==> h[i].0 != h[j].0
  }

  lemma HeaderValueDistinct(h: Headers, k: int)
    requires DistinctNames(h) && 0 <= k < |h|
    ensures HeaderValue(h, h[k].0) == h[k].1
  {
  }

  function Names(h: Headers): (names: seq<string>)
    ensures |names| == |h| && forall k :: 0 <= k < |h| ==> names[k] == h[k].0
  {
    seq(|h|, k requires 0 <= k < |h| => h[k].0)
  }

  /** `headers[name]`, rendered in a template: `undefined` when missing. */
  function HeaderValue(h: Headers, name: string): (v: string)
    ensures forall k :: 0 <= k < |h| && h[k].0 == name && (forall j :: 0 <= j < k ==> h[j].0 != name) ==> v == h[k].1
  {
    if |h| == 0 then "undefined"
    else if h[0].0 == name then h[0].1
    else HeaderValue(h[1..], name)
  }

  const TencentSignedHeaders: seq<string> := ["content-type", "host", "x-tc-action"]

  /** `keys.filter(k => k in headers)`. */
  function Present(keys: seq<string>, names: seq<string>): (r: seq<string>)
    ensures forall k :: 0 <= k < |r| ==> r[k] in keys && r[k] in names
    ensures forall k :: 0 <= k < |keys| && keys[k] in names ==> keys[k] in r
    ensures (forall k :: 0 <= k < |keys| ==> keys[k] in names) ==> r == keys
  {
    if |keys| == 0 then []
    else
      var rest := Present(keys[1..], names);
      assert forall k :: 1 <= k < |keys| ==> keys[k] == keys[1..][k - 1];
      if keys[0] in names then [keys[0]] + rest else rest
  }

  /** The filter keeps the order of the candidate keys: filtering a concatenation filters each part. */
  lemma {:induction false} PresentAppend(a: seq<string>, b: seq<string>, names: seq<string>)
    ensures Present(a + b, names) == Present(a, names) + Present(b, names)
    decreases |a|
  {
    if |a| == 0 {
      assert a + b == b;
    } else {
      assert (a + b)[0] == a[0] && (a + b)[1..] == a[1..] + b;
      PresentAppend(a[1..], b, names);
      if a[0] in names {
        ConsAssoc(a[0], Present(a[1..], names), Present(b, names));
      }
    }
  }

  /** Aliyun signs the `x-acs-*` headers, `host` and `content-type`. */
  predicate AcsSigned(k: string) {
    StartsWith(k, "x-acs-") || k == "host" || k == "content-type"
  }

  function FilterAcs(keys: seq<string>): (r: seq<string>)
    ensures forall k :: 0 <= k < |r| ==> AcsSigned(r[k])
    ensures multiset(r) <= multiset(keys)
  {
    if |keys| == 0 then []
    else
      var rest := FilterAcs(keys[1..]);
      assert keys == [keys[0]] + keys[1..];
      if AcsSigned(keys[0]) then [keys[0]] + rest else rest
  }

  /** No name the filter accepts is dropped. */
  lemma {:induction false} FilterAcsKeeps(keys: seq<string>)
    ensures forall k :: 0 <= k < |keys| && AcsSigned(keys[k]) ==> keys[k] in FilterAcs(keys)
  {
    if |keys| > 0 {
      FilterAcsKeeps(keys[1..]);
      assert forall k :: 1 <= k < |keys| ==> keys[k] == keys[1..][k - 1];
    }
  }

  /** A list of accepted names passes the filter unchanged. */
  lemma {:induction false} FilterAcsAllSigned(keys: seq<string>)
    requires forall k :: 0 <= k < |keys| ==> AcsSigned(keys[k])
    ensures FilterAcs(keys) == keys
  {
    if |keys| > 0 {
      assert forall k :: 0 <= k < |keys[1..]| ==> keys[1..][k] == keys[k + 1];
      FilterAcsAllSigned(keys[1..]);
      SliceAppend(keys, 1);
    }
  }

  // ---------------------------------------------------------------------------
  // Sorting the Aliyun header list
  // ---------------------------------------------------------------------------

  /** JavaScript's default `sort` order on strings, compared character by character. */
  predicate StrLe(a: string, b: string) {
    |a| == 0 || (|b| > 0 && (a[0] < b[0] || (a[0] == b[0] && StrLe(a[1..], b[1..]))))
  }

  lemma {:induction false} StrLeReflexive(a: string)
    ensures StrLe(a, a)
  {
    if |a| > 0 {
      StrLeReflexive(a[1..]);
    }
  }

  lemma {:induction false} StrLeTotal(a: string, b: string)
    ensures StrLe(a, b) || StrLe(b, a)
  {
    if |a| > 0 && |b| > 0 && a[0] == b[0] {
      StrLeTotal(a[1..], b[1..]);
    }
  }

  lemma {:induction false} StrLeTrans(a: string, b: string, c: string)
    requires StrLe(a, b) && StrLe(b, c)
    ensures StrLe(a, c)
  {
    if |a| > 0 && a[0] == b[0] && b[0] == c[0] {
      StrLeTrans(a[1..], b[1..], c[1..]);
    }
  }

  lemma {:induction false} StrLeAntisymmetric(a: string, b: string)
    requires StrLe(a, b) && StrLe(b, a)
    ensures a == b
  {
    if |a| > 0 {
      StrLeAntisymmetric(a[1..], b[1..]);
      assert a == [a[0]] + a[1..] && b == [b[0]] + b[1..];
    }
  }

  predicate Sorted(xs: seq<string>) {
    forall i, j :: 0 <= i < j < |xs| ==> StrLe(xs[i], xs[j])
  }

  function Insert(x: string, xs: seq<string>): (r: seq<string>)
    requires Sorted(xs)
    ensures Sorted(r)
    ensures multiset(r) == multiset(xs) + multiset{x}
    ensures |r| == |xs| + 1
    ensures forall y :: y in r ==> y == x || y in xs
  {
    if |xs| == 0 then [x]
    else if StrLe(x, xs[0]) then
      assert forall j :: 0 < j < |xs| ==> StrLe(x, xs[j]) by {
        forall j | 0 < j < |xs| ensures StrLe(x, xs[j]) {
          StrLeTrans(x, xs[0], xs[j]);
        }
      }
      [x] + xs
    else
      var rest := Insert(x, xs[1..]);
      var r := [xs[0]] + rest;
      assert forall y :: y in rest ==> StrLe(xs[0], y) by {
        forall y | y in rest ensures StrLe(xs[0], y) {
          if y == x {
            StrLeTotal(x, xs[0]);
          } else {
            var m :| 0 <= m < |xs| - 1 && xs[1..][m] == y;
            assert xs[m + 1] == y;
          }
        }
      }
      assert Sorted(r) by {
        forall i, j | 0 <= i < j < |r| ensures StrLe(r[i], r[j]) {
          if i == 0 {
            assert r[j] in rest;
          } else {
            assert r[i] == rest[i - 1] && r[j] == rest[j - 1];
          }
        }
      }
      assert xs == [xs[0]] + xs[1..];
      r
  }

  /** `Array.prototype.sort` without a comparator, as an insertion sort. */
  function Sort(xs: seq<string>): (r: seq<string>)
    ensures Sorted(r)
    ensures multiset(r) == multiset(xs)
  {
    if |xs| == 0 then []
    else
      assert xs == xs[..|xs| - 1] + [xs[|xs| - 1]];
      Insert(xs[|xs| - 1], Sort(xs[..|xs| - 1]))
  }

  /** Two sorted lists with the same elements are the same list: the sort order decides everything. */
  lemma {:induction false} SortedUnique(a: seq<string>, b: seq<string>)
    requires Sorted(a) && Sorted(b) && multiset(a) == multiset(b)
    ensures a == b
  {
    assert |a| == |multiset(a)| == |multiset(b)| == |b|;
    if |a| > 0 {
      SameLeast(a, b);
      SameRest(a, b);
      SortedUnique(a[1..], b[1..]);
      assert forall k :: 1 <= k < |a| ==> a[k] == a[1..][k - 1] && b[k] == b[1..][k - 1];
    }
  }

  /** Sorted lists with the same elements start with the same, least, element. */
  lemma SameLeast(a: seq<string>, b: seq<string>)
    requires Sorted(a) && Sorted(b) && multiset(a) == multiset(b) && |a| > 0
    ensures |b| > 0 && a[0] == b[0]
  {
    assert a[0] in multiset(b);
    assert |b| > 0 && b[0] in multiset(a);
    var i :| 0 <= i < |b| && b[i] == a[0];
    var j :| 0 <= j < |a| && a[j] == b[0];
    assert StrLe(b[0], a[0]) by { if i > 0 { assert StrLe(b[0], b[i]); } else { StrLeReflexive(a[0]); } }
    assert StrLe(a[0], b[0]) by { if j > 0 { assert StrLe(a[0], a[j]); } else { StrLeReflexive(a[0]); } }
    StrLeAntisymmetric(a[0], b[0]);
  }

  lemma SameRest(a: seq<string>, b: seq<string>)
    requires multiset(a) == multiset(b) && |a| > 0 && |b| > 0 && a[0] == b[0]
    ensures multiset(a[1..]) == multiset(b[1..])
  {
    assert a == [a[0]] + a[1..] && b == [b[0]] + b[1..];
    assert multiset(a) == multiset{a[0]} + multiset(a[1..]);
    assert multiset(b) == multiset{b[0]} + multiset(b[1..]);
    assert multiset(a[1..]) == multiset(a) - multiset{a[0]};
    assert multiset(b[1..]) == multiset(b) - multiset{b[0]};
  }

  /** The signed-header names: Tencent's fixed list, or Aliyun's lower-cased, filtered and sorted names. */
  function SignedHeaderKeys(scheme: Scheme, h: Headers): (keys: seq<string>)
    ensures scheme == Acs3 ==> Sorted(keys) && forall k :: 0 <= k < |keys| ==> AcsSigned(keys[k])
    ensures scheme == Acs3 ==> multiset(keys) <= multiset(LowerAll(Names(h)))
    ensures scheme == Acs3 ==> forall n :: n in LowerAll(Names(h)) && AcsSigned(n) ==> n in keys
    ensures scheme == Tc3 ==> forall k :: 0 <= k < |keys| ==> keys[k] in TencentSignedHeaders && keys[k] in Names(h)
    ensures scheme == Tc3 ==>
              forall k :: 0 <= k < |TencentSignedHeaders| && TencentSignedHeaders[k] in Names(h) ==> TencentSignedHeaders[k] in keys
  {
    match scheme
    case Tc3 => Present(TencentSignedHeaders, Names(h))
    case Acs3 =>
      var lowered := LowerAll(Names(h));
      var candidates := FilterAcs(lowered);
      var keys := Sort(candidates);
      AcsKeysComplete(lowered);
      assert forall k :: 0 <= k < |keys| ==> AcsSigned(keys[k]) by {
        forall k | 0 <= k < |keys| ensures AcsSigned(keys[k]) {
          assert keys[k] in multiset(candidates);
          var i :| 0 <= i < |candidates| && candidates[i] == keys[k];
        }
      }
      keys
  }

  /** Sorting the filtered names loses none of the names the filter accepts. */
  lemma AcsKeysComplete(lowered: seq<string>)
    ensures forall n :: n in lowered && AcsSigned(n) ==> n in Sort(FilterAcs(lowered))
  {
    var candidates := FilterAcs(lowered);
    forall n | n in lowered && AcsSigned(n) ensures n in Sort(candidates) {
      var i :| 0 <= i < |lowered| && lowered[i] == n;
      FilterAcsKeeps(lowered);
      assert n in multiset(candidates);
    }
  }

  // ---------------------------------------------------------------------------
  // Canonical request, string to sign, Authorization
  // ---------------------------------------------------------------------------

  function HeaderLine(h: Headers, k: string): string {
    k + ":" + HeaderValue(h, k)
  }

  function HeaderLines(keys: seq<string>, h: Headers): (lines: seq<string>)
    ensures |lines| == |keys| && forall k :: 0 <= k < |keys| ==> lines[k] == HeaderLine(h, keys[k])
  {
    seq(|keys|, k requires 0 <= k < |keys| => HeaderLine(h, keys[k]))
  }

  /** Each line followed by a line break, all concatenated. */
  function Terminated(lines: seq<string>): string {
    if |lines| == 0 then "" else lines[0] + "\n" + Terminated(lines[1..])
  }

  /** `keys.map(k => `${k}:${headers[k]}\n`).join('')`. */
  function CanonicalHeaders(keys: seq<string>, h: Headers): string {
    Terminated(HeaderLines(keys, h))
  }

  /** No header line holds a line break, so each one stays a line of its own. */
  predicate SingleLines(keys: seq<string>, h: Headers) {
    forall k :: 0 <= k < |keys| ==> '\n' !in HeaderLine(h, keys[k])
  }

  /** Terminated lines split back into the lines and a final empty piece. */
  lemma {:induction false} TerminatedLines(lines: seq<string>)
    requires forall k :: 0 <= k < |lines| ==> '\n' !in lines[k]
    ensures Split(Terminated(lines), '\n') == lines + [""]
  {
    if |lines| > 0 {
      var rest := Terminated(lines[1..]);
      assert Split(Terminated(lines), '\n') == [lines[0]] + Split(rest, '\n') by {
        SplitCons(lines[0], '\n', rest);
      }
      assert Split(rest, '\n') == lines[1..] + [""] by {
        TerminatedLines(lines[1..]);
      }
      calc {
        [lines[0]] + (lines[1..] + [""]);
        { ConsAssoc(lines[0], lines[1..], [""]); }
        ([lines[0]] + lines[1..]) + [""];
        { assert [lines[0]] + lines[1..] == lines; }
        lines + [""];
      }
    }
  }

  /** The header block splits back into one `name:value` line per signed name, and a final empty piece. */
  lemma CanonicalHeaderLines(keys: seq<string>, h: Headers)
    requires SingleLines(keys, h)
    ensures Split(CanonicalHeaders(keys, h), '\n') == HeaderLines(keys, h) + [""]
  {
    TerminatedLines(HeaderLines(keys, h));
  }

  /** `[method, "/", "", canHeaders, signedKeys, bodyHash].join('\n')`. */
  function CanonicalRequest(block: string, signedKeys: string, bodyHash: string): string {
    Join(["POST", "/", "", block, signedKeys, bodyHash], "\n")
  }

  /** The canonical request splits into method, path, empty query, the block's own lines, names and hash. */
  lemma CanonicalRequestSplit(block: string, signed: string, bodyHash: string)
    requires '\n' !in signed && '\n' !in bodyHash
    ensures Split(CanonicalRequest(block, signed, bodyHash), '\n') == ["POST", "/", ""] + (Split(block, '\n') + [signed, bodyHash])
  {
    assert ["POST", "/", "", block, signed, bodyHash] == ["POST", "/", ""] + [block] + [signed, bodyHash];
    SplitJoinAround(["POST", "/", ""], block, [signed, bodyHash], '\n');
  }

  /**
   * The canonical request reads back line by line: method, path, empty query, one
   * line per signed header, a blank line, the signed names and the body hash.
   */
  lemma CanonicalRequestLines(keys: seq<string>, h: Headers, bodyHash: string)
    requires SingleLines(keys, h)
    requires forall k :: 0 <= k < |keys| ==> '\n' !in keys[k]
    requires '\n' !in bodyHash
    ensures var signed := Join(keys, ";");
            Split(CanonicalRequest(CanonicalHeaders(keys, h), signed, bodyHash), '\n')
              == ["POST", "/", ""] + (HeaderLines(keys, h) + [""] + [signed, bodyHash])
  {
    var signed := Join(keys, ";");
    var block := CanonicalHeaders(keys, h);
    var lines := HeaderLines(keys, h);
    assert '\n' !in signed by {
      JoinNoChar(keys, ";", '\n');
    }
    CanonicalRequestSplit(block, signed, bodyHash);
    CanonicalHeaderLines(keys, h);
  }

  /** A join holds a character only if a piece or the separator does. */
  lemma {:induction false} JoinNoChar(parts: seq<string>, sep: string, ch: char)
    requires ch !in sep && forall k :: 0 <= k < |parts| ==> ch !in parts[k]
    ensures ch !in Join(parts, sep)
  {
    if |parts| > 1 {
      JoinNoChar(parts[1..], sep, ch);
    }
  }

  /** Tencent's credential scope: `<day>/dnspod/tc3_request`. */
  function Scope(day: string): string {
    Join([day, "dnspod", "tc3_request"], "/")
  }

  /** The scope reads back as day, service and terminator. */
  lemma ScopeFields(day: string)
    requires '/' !in day
    ensures Split(Scope(day), '/') == [day, "dnspod", "tc3_request"]
  {
    SplitJoin([day, "dnspod", "tc3_request"], '/');
  }

  function Algorithm(scheme: Scheme): string {
    match scheme
    case Tc3 => "TC3-HMAC-SHA256"
    case Acs3 => "ACS3-HMAC-SHA256"
  }

  /** The lines of the string to sign: TC3 puts its timestamp and scope between algorithm and hash. */
  function SignLines(scheme: Scheme, seconds: nat, scope: string, requestHash: string): seq<string> {
    match scheme
    case Tc3 => [Algorithm(Tc3), NatToString(seconds), scope, requestHash]
    case Acs3 => [Algorithm(Acs3), requestHash]
  }

  /** The string to sign, one field per line. */
  function StringToSign(scheme: Scheme, seconds: nat, scope: string, requestHash: string): string {
    Join(SignLines(scheme, seconds, scope, requestHash), "\n")
  }

  /** The string to sign reads back line by line. */
  lemma StringToSignLines(scheme: Scheme, seconds: nat, scope: string, requestHash: string)
    requires '\n' !in scope && '\n' !in requestHash
    ensures Split(StringToSign(scheme, seconds, scope, requestHash), '\n') == SignLines(scheme, seconds, scope, requestHash)
  {
    var ts := NatToString(seconds);
    assert '\n' !in ts by { assert !IsDigit('\n'); }
    SplitJoin(SignLines(scheme, seconds, scope, requestHash), '\n');
  }

  /** TC3 key derivation: the secret, prefixed with `TC3`, MACs the day, the service and `tc3_request` in turn. */
  function Tc3SigningKey(c: Crypto, key: string, day: string): seq<byte> {
    var kDate := HmacRaw(c, c.utf8("TC3" + key), day);
    var kService := HmacRaw(c, kDate, "dnspod");
    HmacRaw(c, kService, "tc3_request")
  }

  /** The key the string to sign is MACed with: TC3's derived key, or ACS3's secret as it is. */
  function SigningKey(c: Crypto, scheme: Scheme, key: string, day: string): seq<byte> {
    match scheme
    case Tc3 => Tc3SigningKey(c, key, day)
    case Acs3 => c.utf8(key)
  }

  /** Each field, in order, is MACed with the key the previous step produced. */
  function HmacChain(c: Crypto, key: seq<byte>, fields: seq<string>): seq<byte>
    decreases |fields|
  {
    if |fields| == 0 then key else HmacChain(c, HmacRaw(c, key, fields[0]), fields[1..])
  }

  /**
   * The TC3 key follows the credential scope: starting from `TC3` and the secret,
   * each `/`-separated field of the scope, in order, is MACed into the key.
   */
  lemma Tc3KeyFollowsScope(c: Crypto, key: string, day: string)
    requires '/' !in day
    ensures Tc3SigningKey(c, key, day) == HmacChain(c, c.utf8("TC3" + key), Split(Scope(day), '/'))
  {
    var fields := [day, "dnspod", "tc3_request"];
    assert Split(Scope(day), '/') == fields by { ScopeFields(day); }
    var k0 := c.utf8("TC3" + key);
    var k1 := HmacRaw(c, k0, day);
    var k2 := HmacRaw(c, k1, "dnspod");
    var k3 := HmacRaw(c, k2, "tc3_request");
    calc {
      HmacChain(c, k0, fields);
      { assert fields[0] == day && fields[1..] == ["dnspod", "tc3_request"]; }
      HmacChain(c, k1, ["dnspod", "tc3_request"]);
      { assert ["dnspod", "tc3_request"][1..] == ["tc3_request"]; }
      HmacChain(c, k2, ["tc3_request"]);
      { assert ["tc3_request"][1..] == []; }
      HmacChain(c, k3, []);
      k3;
    }
  }

  /**
   * The credential, signed-header and signature fields of the `Authorization` value.
   * TC3 names the scope in its credential and starts the later fields with a space,
   * so that they read `, SignedHeaders=` and `, Signature=`; ACS3 does not.
   */
  function AuthFields(scheme: Scheme, id: string, scope: string, signed: string, signature: string): seq<string> {
    match scheme
    case Tc3 => [Algorithm(Tc3) + " Credential=" + id + "/" + scope, " SignedHeaders=" + signed, " Signature=" + signature]
    case Acs3 => [Algorithm(Acs3) + " Credential=" + id, "SignedHeaders=" + signed, "Signature=" + signature]
  }

  /** The `Authorization` value: its fields joined by commas. */
  function Authorization(scheme: Scheme, id: string, scope: string, signed: string, signature: string): string {
    Join(AuthFields(scheme, id, scope, signed, signature), ",")
  }

  /** Split at its commas, the `Authorization` value gives back its three fields. */
  lemma AuthorizationFields(scheme: Scheme, id: string, scope: string, signed: string, signature: string)
    requires ',' !in id && ',' !in scope && ',' !in signed && ',' !in signature
    ensures Split(Authorization(scheme, id, scope, signed, signature), ',') == AuthFields(scheme, id, scope, signed, signature)
  {
    var fields := AuthFields(scheme, id, scope, signed, signature);
    assert forall k :: 0 <= k < |fields| ==> ',' !in fields[k] by {
      var alg := Algorithm(scheme);
      assert ',' !in alg;
      NotInConcat(',', alg + " Credential=", id);
      NotInConcat(',', alg + " Credential=" + id, "/");
      NotInConcat(',', alg + " Credential=" + id + "/", scope);
      NotInConcat(',', " SignedHeaders=", signed);
      NotInConcat(',', "SignedHeaders=", signed);
      NotInConcat(',', " Signature=", signature);
      NotInConcat(',', "Signature=", signature);
    }
    SplitJoin(fields, ',');
  }

  // ---------------------------------------------------------------------------
  // The whole signature
  // ---------------------------------------------------------------------------

  /** Every value `signAndSendV3` computes on the way to the signed request. */
  datatype Trace = Trace(
    body: string, bodyHash: string, headers: Headers, keys: seq<string>,
    canonicalRequest: string, stringToSign: string, signature: string, authorization: string)

  function SignTrace(c: Crypto, enc: Encoders, input: SignInput, m: Moment): (t: Trace)
    ensures forall k :: 0 <= k < |t.bodyHash| ==> IsLowerHex(t.bodyHash[k])
    ensures forall k :: 0 <= k < |t.signature| ==> IsLowerHex(t.signature[k])
    ensures t.canonicalRequest == CanonicalRequest(CanonicalHeaders(t.keys, t.headers), Join(t.keys, ";"), t.bodyHash)
    ensures t.stringToSign == StringToSign(input.scheme, Seconds(m), Scope(IsoDay(m.iso)), Sha256Hex(c, t.canonicalRequest))
    ensures t.signature == HmacHex(c, SigningKey(c, input.scheme, input.key, IsoDay(m.iso)), t.stringToSign)
  {
    var body := Body(enc, input.scheme, input.params);
    var bodyHash := Sha256Hex(c, body);
    var headers := BaseHeaders(input, m, bodyHash);
    var keys := SignedHeaderKeys(input.scheme, headers);
    var signed := Join(keys, ";");
    var canReq := CanonicalRequest(CanonicalHeaders(keys, headers), signed, bodyHash);
    var day := IsoDay(m.iso);
    var scope := Scope(day);
    var toSign := StringToSign(input.scheme, Seconds(m), scope, Sha256Hex(c, canReq));
    var signature := HmacHex(c, SigningKey(c, input.scheme, input.key, day), toSign);
    Trace(body, bodyHash, headers, keys, canReq, toSign, signature,
          Authorization(input.scheme, input.id, scope, signed, signature))
  }

  /** `headers["Authorization"] = auth`: the signed headers, with the body they were computed for. */
  function Sign(c: Crypto, enc: Encoders, input: SignInput, m: Moment): (req: SignedRequest)
    ensures |req.headers| >= 1 && req.headers[|req.headers| - 1].0 == "Authorization"
    ensures req.body == Body(enc, input.scheme, input.params)
  {
    var t := SignTrace(c, enc, input, m);
    SignedRequest(t.headers + [("Authorization", t.authorization)], t.body)
  }

  /** A comma in the scope would have to be in the timestamp its day was cut from. */
  lemma ScopeCommaFree(iso: string)
    requires ',' !in iso
    ensures ',' !in Scope(IsoDay(iso))
  {
    var day := IsoDay(iso);
    var ch := ',';
    assert ch !in day by {
      if 'T' in iso {
        assert day == iso[..|day|];
      }
    }
    JoinNoChar([day, "dnspod", "tc3_request"], "/", ch);
  }

  /**
   * The `SignedHeaders=` field of the `Authorization` value names the very keys
   * the canonical request was built from, and those are the scheme's fixed list.
   */
  lemma SignedHeadersAgree(c: Crypto, enc: Encoders, input: SignInput, m: Moment)
    requires ',' !in input.id && ',' !in m.iso
    ensures var t := SignTrace(c, enc, input, m);
            var fields := Split(t.authorization, ',');
            && t.keys == (if input.scheme == Tc3 then TencentSignedHeaders else AcsSignedHeaders)
            && |fields| == 3
            && fields[1] == (if input.scheme == Tc3 then " " else "") + "SignedHeaders=" + Join(t.keys, ";")
  {
    var t := SignTrace(c, enc, input, m);
    TraceParts(c, enc, input, m);
    assert ',' !in t.signature by { HexFree(t.signature, ','); }
    AuthFieldsOf(input, m, t.bodyHash, t.signature);
  }

  /** The same agreement, stated over the parts a trace is built from. */
  lemma AuthFieldsOf(input: SignInput, m: Moment, bodyHash: string, signature: string)
    requires ',' !in input.id && ',' !in m.iso && ',' !in signature
    ensures var keys := SignedHeaderKeys(input.scheme, BaseHeaders(input, m, bodyHash));
            var auth := Authorization(input.scheme, input.id, Scope(IsoDay(m.iso)), Join(keys, ";"), signature);
            var fields := Split(auth, ',');
            && keys == (if input.scheme == Tc3 then TencentSignedHeaders else AcsSignedHeaders)
            && |fields| == 3
            && fields[1] == (if input.scheme == Tc3 then " " else "") + "SignedHeaders=" + Join(keys, ";")
  {
    var keys := SignedHeaderKeys(input.scheme, BaseHeaders(input, m, bodyHash));
    assert keys == (if input.scheme == Tc3 then TencentSignedHeaders else AcsSignedHeaders) by {
      if input.scheme == Tc3 {
        Tc3SignedKeys(input, m, bodyHash);
      } else {
        Acs3SignedKeys(input, m, bodyHash);
      }
    }
    var signed := Join(keys, ";");
    assert ',' !in signed by { SignedKeysCommaFree(input.scheme); }
    var scope := Scope(IsoDay(m.iso));
    assert ',' !in scope by { ScopeCommaFree(m.iso); }
    AuthSignedField(input.scheme, input.id, scope, signed, signature);
  }

  /** The second `Authorization` field is the signed-header list. */
  lemma AuthSignedField(scheme: Scheme, id: string, scope: string, signed: string, signature: string)
    requires ',' !in id && ',' !in scope && ',' !in signed && ',' !in signature
    ensures var fields := Split(Authorization(scheme, id, scope, signed, signature), ',');
            |fields| == 3 && fields[1] == (if scheme == Tc3 then " " else "") + "SignedHeaders=" + signed
  {
    var fields := AuthFields(scheme, id, scope, signed, signature);
    assert Split(Authorization(scheme, id, scope, signed, signature), ',') == fields by {
      AuthorizationFields(scheme, id, scope, signed, signature);
    }
    AuthFieldsSecond(scheme, id, scope, signed, signature);
  }

  lemma AuthFieldsSecond(scheme: Scheme, id: string, scope: string, signed: string, signature: string)
    ensures var fields := AuthFields(scheme, id, scope, signed, signature);
            |fields| == 3 && fields[1] == (if scheme == Tc3 then " " else "") + "SignedHeaders=" + signed
  {
  }

  /** Neither scheme's signed-header list holds a comma. */
  lemma SignedKeysCommaFree(scheme: Scheme)
    ensures ',' !in Join(if scheme == Tc3 then TencentSignedHeaders else AcsSignedHeaders, ";")
  {
    var keys := if scheme == Tc3 then TencentSignedHeaders else AcsSignedHeaders;
    forall k | 0 <= k < |keys| ensures ',' !in keys[k] {
      assert forall j :: 0 <= j < |keys[k]| ==> keys[k][j] == '-' || 'a' <= keys[k][j] <= 'z' || '0' <= keys[k][j] <= '9';
    }
    JoinNoChar(keys, ";", ',');
  }

  /** How the trace's headers, keys and `Authorization` value hang together. */
  lemma TraceParts(c: Crypto, enc: Encoders, input: SignInput, m: Moment)
    ensures var t := SignTrace(c, enc, input, m);
            && t.headers == BaseHeaders(input, m, t.bodyHash)
            && t.keys == SignedHeaderKeys(input.scheme, t.headers)
            && t.authorization == Authorization(input.scheme, input.id, Scope(IsoDay(m.iso)), Join(t.keys, ";"), t.signature)
            && t.stringToSign == StringToSign(input.scheme, Seconds(m), Scope(IsoDay(m.iso)), Sha256Hex(c, t.canonicalRequest))
            && t.signature == HmacHex(c, SigningKey(c, input.scheme, input.key, IsoDay(m.iso)), t.stringToSign)
  {
  }

  /**
   * The string to sign of a trace reads back line by line: the algorithm, for TC3
   * the timestamp and the credential scope, and the hash of the trace's own
   * canonical request.
   */
  lemma TraceSignLines(c: Crypto, enc: Encoders, input: SignInput, m: Moment)
    requires '\n' !in m.iso
    ensures var t := SignTrace(c, enc, input, m);
            Split(t.stringToSign, '\n')
              == SignLines(input.scheme, Seconds(m), Scope(IsoDay(m.iso)), Sha256Hex(c, t.canonicalRequest))
  {
    var t := SignTrace(c, enc, input, m);
    TraceParts(c, enc, input, m);
    SignLinesOf(input.scheme, Seconds(m), m.iso, Sha256Hex(c, t.canonicalRequest));
  }

  /** The same layout, stated over the timestamp and the request hash a string to sign is built from. */
  lemma SignLinesOf(scheme: Scheme, seconds: nat, iso: string, h: string)
    requires '\n' !in iso
    requires forall k :: 0 <= k < |h| ==> IsLowerHex(h[k])
    ensures Split(StringToSign(scheme, seconds, Scope(IsoDay(iso)), h), '\n')
              == SignLines(scheme, seconds, Scope(IsoDay(iso)), h)
  {
    var day := IsoDay(iso);
    var scope := Scope(day);
    assert '\n' !in scope by {
      assert '\n' !in day by {
        if 'T' in iso {
          assert day == iso[..|day|];
        }
      }
      JoinNoChar([day, "dnspod", "tc3_request"], "/", '\n');
    }
    assert '\n' !in h by { HexFree(h, '\n'); }
    StringToSignLines(scheme, seconds, scope, h);
  }

  // ---------------------------------------------------------------------------
  // The signed-header lists of the two schemes
  // ---------------------------------------------------------------------------

  const AcsSignedHeaders: seq<string> :=
    ["content-type", "host", "x-acs-action", "x-acs-content-sha256", "x-acs-date", "x-acs-signature-nonce", "x-acs-version"]

  /** Tencent signs exactly `content-type;host;x-tc-action`, in that order. */
  lemma Tc3SignedKeys(input: SignInput, m: Moment, bodyHash: string)
    requires input.scheme == Tc3
    ensures SignedHeaderKeys(Tc3, BaseHeaders(input, m, bodyHash)) == TencentSignedHeaders
  {
    var names := Names(BaseHeaders(input, m, bodyHash));
    assert names[1] == "content-type" && names[0] == "host" && names[2] == "x-tc-action";
  }

  /** The header names `signAndSendV3` sets for Aliyun, in insertion order. */
  const AcsHeaderNames: seq<string> :=
    ["host", "content-type", "x-acs-action", "x-acs-version", "x-acs-date", "x-acs-signature-nonce", "x-acs-content-sha256"]

  /** Aliyun signs its seven headers, in ascending order. */
  lemma Acs3SignedKeys(input: SignInput, m: Moment, bodyHash: string)
    requires input.scheme == Acs3
    ensures SignedHeaderKeys(Acs3, BaseHeaders(input, m, bodyHash)) == AcsSignedHeaders
  {
    var h := BaseHeaders(input, m, bodyHash);
    assert Names(h) == AcsHeaderNames;
    var keys := SignedHeaderKeys(Acs3, h);
    assert multiset(keys) == multiset(AcsSignedHeaders) by {
      AcsKeysOfNames(h);
      AcsSameNames();
    }
    AcsSortedLiteral();
    SortedUnique(keys, AcsSignedHeaders);
  }

  /** Headers named exactly Aliyun's seven names have those names, in some order, as signed keys. */
  lemma AcsKeysOfNames(h: Headers)
    requires Names(h) == AcsHeaderNames
    ensures multiset(SignedHeaderKeys(Acs3, h)) == multiset(AcsHeaderNames)
  {
    AcsNamesCandidates();
    assert SignedHeaderKeys(Acs3, h) == Sort(FilterAcs(LowerAll(Names(h))));
  }

  /** The seven names are already lower case and all pass Aliyun's filter. */
  lemma AcsNamesCandidates()
    ensures FilterAcs(LowerAll(AcsHeaderNames)) == AcsHeaderNames
  {
    AcsNamesLower();
    AcsNamesSigned();
    FilterAcsAllSigned(AcsHeaderNames);
  }

  lemma AcsNamesLower()
    ensures LowerAll(AcsHeaderNames) == AcsHeaderNames
  {
    var names := AcsHeaderNames;
    forall k | 0 <= k < |names| ensures Lower(names[k]) == names[k] {
      LowerOfLower(names[k]);
    }
  }

  lemma AcsNamesSigned()
    ensures forall k :: 0 <= k < |AcsHeaderNames| ==> AcsSigned(AcsHeaderNames[k])
  {
    var names := AcsHeaderNames;
    forall k | 2 <= k < |names| ensures AcsSigned(names[k]) {
      assert names[k][..6] == "x-acs-";
    }
    assert AcsSigned(names[0]) && AcsSigned(names[1]);
  }

  lemma AcsSameNames()
    ensures multiset(AcsHeaderNames) == multiset(AcsSignedHeaders)
  {
  }

  /** A string is below another when it agrees up to `i` and has the smaller character there. */
  lemma {:induction false} StrLeAt(a: string, b: string, i: nat)
    requires i < |a| && i < |b| && a[..i] == b[..i] && a[i] < b[i]
    ensures StrLe(a, b)
  {
    if i > 0 {
      assert a[0] == a[..i][0] == b[..i][0] == b[0];
      assert a[1..][..i - 1] == a[..i][1..] == b[..i][1..] == b[1..][..i - 1];
      StrLeAt(a[1..], b[1..], i - 1);
    }
  }

  lemma AcsSortedLiteral()
    ensures Sorted(AcsSignedHeaders)
  {
    var a := AcsSignedHeaders;
    AcsNeighbours();
    forall i, j | 0 <= i < j < |a| ensures StrLe(a[i], a[j]) {
      SortedByNeighbours(a, i, j);
    }
  }

  lemma AcsNeighbours()
    ensures forall k :: 0 <= k < |AcsSignedHeaders| - 1 ==> StrLe(AcsSignedHeaders[k], AcsSignedHeaders[k + 1])
  {
    var a := AcsSignedHeaders;
    AcsLeadingNeighbours();
    AcsPrefixedNeighbours();
    forall k | 0 <= k < |a| - 1 ensures StrLe(a[k], a[k + 1]) {
      if k == 0 {} else if k == 1 {} else if k == 2 {} else if k == 3 {} else if k == 4 {} else {}
    }
  }

  lemma AcsLeadingNeighbours()
    ensures StrLe(AcsSignedHeaders[0], AcsSignedHeaders[1]) && StrLe(AcsSignedHeaders[1], AcsSignedHeaders[2])
  {
    var a := AcsSignedHeaders;
    StrLeAt(a[0], a[1], 0);
    StrLeAt(a[1], a[2], 0);
  }

  /** The `x-acs-` names are ordered by their first character after the prefix. */
  lemma AcsPrefixedNeighbours()
    ensures forall k :: 2 <= k < 6 ==> StrLe(AcsSignedHeaders[k], AcsSignedHeaders[k + 1])
  {
    forall k | 2 <= k < 6 ensures StrLe(AcsSignedHeaders[k], AcsSignedHeaders[k + 1]) {
      AcsPrefixedPair(k);
    }
  }

  lemma AcsPrefixedPair(k: int)
    requires 2 <= k < 6
    ensures StrLe(AcsSignedHeaders[k], AcsSignedHeaders[k + 1])
  {
    var a, b := AcsSignedHeaders[k], AcsSignedHeaders[k + 1];
    assert a[..6] == b[..6] && a[6] < b[6] by {
      if k == 2 {} else if k == 3 {} else if k == 4 {} else {}
    }
    StrLeAt(a, b, 6);
  }

  /** Neighbours in order make the whole list sorted. */
  lemma {:induction false} SortedByNeighbours(a: seq<string>, i: int, j: int)
    requires forall k :: 0 <= k < |a| - 1 ==> StrLe(a[k], a[k + 1])
    requires 0 <= i < j < |a|
    ensures StrLe(a[i], a[j])
    decreases j - i
  {
    if j > i + 1 {
      SortedByNeighbours(a, i + 1, j);
      StrLeTrans(a[i], a[i + 1], a[j]);
    }
  }
}
