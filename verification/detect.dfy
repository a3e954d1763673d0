/**
 * `detectProvider` (index.js): the DNS provider guessed from the shape of the
 * credential pair, by three ordered rules; the first that matches wins.
 */
module Detect {
  import opened Wrappers
  import opened Text

  datatype Provider = Ali | Tencent | Cloudflare {

    /** The provider's name as the dispatcher's `switch` and the cache key spell it. */
    function Name(): (n: string)
      ensures n != ""
    {
      match this
      case Ali => "ali"
      case Tencent => "tencent"
      case Cloudflare => "cloudflare"
    }
  }

  /** The provider a name denotes, if any; inverse of `Name`. */
  function ProviderNamed(name: string): (p: Option<Provider>)
    ensures p.Some? ==> p.value.Name() == name
    ensures p.None? ==> forall q: Provider :: q.Name() != name
  {
    if name == "ali" then Some(Ali)
    else if name == "tencent" then Some(Tencent)
    else if name == "cloudflare" then Some(Cloudflare)
    else None
  }

  /** The class `[a-zA-Z0-9]`. */
  predicate IsAsciiAlnum(c: char) {
    ('a' <= c <= 'z') || ('A' <= c <= 'Z') || ('0' <= c <= '9')
  }

  /** `s[start..start + n]` exists and is all `[a-zA-Z0-9]`. */
  predicate AlnumRun(s: string, start: nat, n: nat) {
    start + n <= |s| && forall i :: start <= i < start + n ==> IsAsciiAlnum(s[i])
  }

  /** The regular expression `^<prefix>[a-zA-Z0-9]{10,}`: the prefix, then ten or more alphanumerics. */
  ghost predicate MatchesKeyPattern(s: string, prefix: string) {
    StartsWith(s, prefix) && exists n: nat :: n >= 10 && AlnumRun(s, |prefix|, n)
  }

  /** The same test as the regular expression, decided by looking at exactly ten characters. */
  predicate HasKeyPrefix(s: string, prefix: string) {
    StartsWith(s, prefix) && AlnumRun(s, |prefix|, 10)
  }

  lemma KeyPrefixDecidesPattern(s: string, prefix: string)
    ensures HasKeyPrefix(s, prefix) <==> MatchesKeyPattern(s, prefix)
  {
    if MatchesKeyPattern(s, prefix) {
      var n: nat :| n >= 10 && AlnumRun(s, |prefix|, n);
      assert AlnumRun(s, |prefix|, 10);
    }
  }

  /** The regular expression `^\d{5,}$`: five or more ASCII digits and nothing else. */
  predicate IsNumericId(s: string) {
    |s| >= 5 && forall i :: 0 <= i < |s| ==> IsDigit(s[i])
  }

  function DetectProvider(id: string, key: string): (r: Option<Provider>)
    ensures id == "" && key == "" ==> r == None
    ensures r == Some(Ali) <==> MatchesKeyPattern(id, "LTAI")
    ensures r == Some(Tencent) <==>
              && !MatchesKeyPattern(id, "LTAI")
              && (MatchesKeyPattern(id, "AKID") || IsNumericId(id))
    ensures r == Some(Cloudflare) <==>
              && !MatchesKeyPattern(id, "LTAI")
              && !MatchesKeyPattern(id, "AKID") && !IsNumericId(id)
              && (Utf16Length(key) >= 30 || Utf16Length(id) >= 30)
  {
    KeyPrefixDecidesPattern(id, "LTAI");
    KeyPrefixDecidesPattern(id, "AKID");
    if id == "" && key == "" then None
    else if HasKeyPrefix(id, "LTAI") then Some(Ali)
    else if HasKeyPrefix(id, "AKID") || IsNumericId(id) then Some(Tencent)
    else if (key != "" && Utf16Length(key) >= 30) || (id != "" && Utf16Length(id) >= 30) then Some(Cloudflare)
    else None
  }

  /** An all-digit id of five or more characters is Tencent's, whatever the secret. */
  lemma NumericIdIsTencent(id: string, key: string)
    requires IsNumericId(id)
    ensures DetectProvider(id, key) == Some(Tencent)
  {
    assert !StartsWith(id, "LTAI") by { assert IsDigit(id[0]); }
  }

  /** The repository's own case: a six-digit id with a short secret. */
  lemma NumericIdExample()
    ensures DetectProvider("123456", "abc123token") == Some(Tencent)
  {
    NumericIdIsTencent("123456", "abc123token");
  }
}
