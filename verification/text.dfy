/**
 * The JavaScript string operations the DDNS proxy relies on, over `seq<char>`:
 * `split` on a one-character separator, `join`, `trim`, ASCII `toLowerCase`,
 * `startsWith`/`endsWith`/`includes`, the `||` "first truthy string" idiom,
 * UTF-16 `length`, and decimal rendering of integers.
 */
module Text {

  // ---------------------------------------------------------------------------
  // Prefixes, suffixes, substrings
  // ---------------------------------------------------------------------------

  predicate StartsWith(s: string, prefix: string) {
    |prefix| <= |s| && s[..|prefix|] == prefix
  }

  predicate EndsWith(s: string, suffix: string) {
    |suffix| <= |s| && s[|s| - |suffix|..] == suffix
  }

  /** `pat` occurs in `s` starting at index `i`. */
  predicate OccursAt(s: string, pat: string, i: int) {
    0 <= i && i + |pat| <= |s| && s[i..i + |pat|] == pat
  }

  /** `String.prototype.includes`. */
  predicate Contains(s: string, pat: string) {
    exists i | 0 <= i <= |s| - |pat| :: OccursAt(s, pat, i)
  }

  lemma ContainsWitness(s: string, pat: string, i: int)
    requires OccursAt(s, pat, i)
    ensures Contains(s, pat)
  {
  }

  // ---------------------------------------------------------------------------
  // Case and white space
  // ---------------------------------------------------------------------------

  /** `toLowerCase` restricted to the ASCII letters. */
  function LowerChar(c: char): char {
    if 'A' <= c <= 'Z' then (c as int + 32) as char else c
  }

  function Lower(s: string): (r: string)
    ensures |r| == |s|
    ensures forall i :: 0 <= i < |s| ==> r[i] == LowerChar(s[i])
  {
    seq(|s|, i requires 0 <= i < |s| => LowerChar(s[i]))
  }

  /** A string without upper-case ASCII letters is its own lower case. */
  lemma LowerOfLower(s: string)
    requires forall k :: 0 <= k < |s| ==> !('A' <= s[k] <= 'Z')
    ensures Lower(s) == s
  {
  }

  /** `map(p => p.toLowerCase())`. */
  function LowerAll(parts: seq<string>): (r: seq<string>)
    ensures |r| == |parts|
    ensures forall k :: 0 <= k < |r| ==> r[k] == Lower(parts[k])
  {
    seq(|parts|, k requires 0 <= k < |parts| => Lower(parts[k]))
  }

  /** The code points ECMAScript's `trim` removes: WhiteSpace and LineTerminator. */
  predicate IsSpace(c: char) {
    || c == '\t' || c == '\n' || c == '\U{000B}' || c == '\U{000C}' || c == '\r'
    || c == ' ' || c == '\U{00A0}' || c == '\U{1680}'
    || ('\U{2000}' <= c <= '\U{200A}')
    || c == '\U{2028}' || c == '\U{2029}' || c == '\U{202F}' || c == '\U{205F}'
    || c == '\U{3000}' || c == '\U{FEFF}'
  }

  /** The first index at or after `i` that is not white space, or `|s|`. */
  function LeadingSpaces(s: string, i: nat): (k: nat)
    requires i <= |s|
    ensures i <= k <= |s|
    ensures forall j :: i <= j < k ==> IsSpace(s[j])
    ensures k == |s| || !IsSpace(s[k])
    decreases |s| - i
  {
    if i < |s| && IsSpace(s[i]) then LeadingSpaces(s, i + 1) else i
  }

  /** Moving down from `j`, the end of the last non-space character at or after `lo`, or `lo`. */
  function TrailingEnd(s: string, lo: nat, j: nat): (k: nat)
    requires lo <= j <= |s|
    ensures lo <= k <= j
    ensures forall m :: k <= m < j ==> IsSpace(s[m])
    ensures k == lo || !IsSpace(s[k - 1])
  {
    if j > lo && IsSpace(s[j - 1]) then TrailingEnd(s, lo, j - 1) else j
  }

  /** `r` sits at index `i` of `s` with only white space around it. */
  predicate TrimmedAt(s: string, r: string, i: int) {
    && 0 <= i && i + |r| <= |s|
    && r == s[i..i + |r|]
    && (forall j :: 0 <= j < i ==> IsSpace(s[j]))
    && (forall j :: i + |r| <= j < |s| ==> IsSpace(s[j]))
  }

  /** `String.prototype.trim`: the longest infix with no white space at either end. */
  function Trim(s: string): (r: string)
    ensures exists i | 0 <= i <= |s| - |r| :: TrimmedAt(s, r, i)
    ensures r == [] || (!IsSpace(r[0]) && !IsSpace(r[|r| - 1]))
  {
    var i := LeadingSpaces(s, 0);
    var k := TrailingEnd(s, i, |s|);
    var r := s[i..k];
    assert TrimmedAt(s, r, i);
    r
  }

  // ---------------------------------------------------------------------------
  // split and join
  // ---------------------------------------------------------------------------

  /** Index of the first `c` in `s`. */
  function IndexOf(s: string, c: char): (i: nat)
    requires c in s
    ensures i < |s| && s[i] == c && c !in s[..i]
  {
    if s[0] == c then 0
    else
      var j := IndexOf(s[1..], c);
      assert s[..1 + j] == [s[0]] + s[1..][..j];
      1 + j
  }

  /** `s.split(sep)` for a one-character separator: the maximal separator-free pieces. */
  function Split(s: string, sep: char): (parts: seq<string>)
    ensures |parts| >= 1
    decreases |s|
  {
    if sep !in s then [s]
    else
      var i := IndexOf(s, sep);
      [s[..i]] + Split(s[i + 1..], sep)
  }

  /** A split yields one piece exactly when the separator does not occur. */
  lemma SplitSingle(s: string, sep: char)
    ensures |Split(s, sep)| == 1 <==> sep !in s
  {
  }

  /** No piece of a split holds the separator. */
  lemma {:induction false} SplitFree(s: string, sep: char)
    ensures forall k :: 0 <= k < |Split(s, sep)| ==> sep !in Split(s, sep)[k]
    decreases |s|
  {
    if sep in s {
      var i := IndexOf(s, sep);
      SplitFree(s[i + 1..], sep);
      assert Split(s, sep) == [s[..i]] + Split(s[i + 1..], sep);
    }
  }

  /** `parts.join(sep)`. */
  function Join(parts: seq<string>, sep: string): string {
    if |parts| == 0 then ""
    else if |parts| == 1 then parts[0]
    else parts[0] + sep + Join(parts[1..], sep)
  }

  /** The first piece of a split is everything before the first separator. */
  lemma SplitHead(s: string, sep: char)
    ensures Split(s, sep)[0] == if sep in s then s[..IndexOf(s, sep)] else s
  {
  }

  /** Joining the pieces of a split with the same separator gives back the string. */
  lemma {:induction false} JoinSplit(s: string, sep: char)
    ensures Join(Split(s, sep), [sep]) == s
    decreases |s|
  {
    if sep in s {
      var i := IndexOf(s, sep);
      var rest := Split(s[i + 1..], sep);
      calc {
        Join(Split(s, sep), [sep]);
        Join([s[..i]] + rest, [sep]);
        { JoinCons(s[..i], rest, [sep]); }
        s[..i] + [sep] + Join(rest, [sep]);
        { JoinSplit(s[i + 1..], sep); }
        s[..i] + [sep] + s[i + 1..];
        { Around(s, i); }
        s;
      }
    }
  }

  /** Joining a list with a new first piece puts that piece and a separator in front. */
  lemma JoinCons(a: string, rest: seq<string>, sep: string)
    requires |rest| >= 1
    ensures Join([a] + rest, sep) == a + sep + Join(rest, sep)
  {
    assert ([a] + rest)[1..] == rest;
  }

  /** Concatenation regroups; stated for any element type so that no string facts get in the way. */
  lemma ConsAssoc<T>(h: T, x: seq<T>, y: seq<T>)
    ensures [h] + (x + y) == ([h] + x) + y
  {
  }

  lemma Assoc<T>(x: seq<T>, y: seq<T>, z: seq<T>)
    ensures x + (y + z) == (x + y) + z
  {
  }

  lemma NotInConcat<T>(x: T, a: seq<T>, b: seq<T>)
    requires x !in a && x !in b
    ensures x !in a + b
  {
  }

  /** A list is its prefix followed by the rest. */
  lemma SliceAppend<T>(s: seq<T>, i: int)
    requires 0 <= i <= |s|
    ensures s[..i] + s[i..] == s
  {
  }

  /** A list is what comes before an element, the element, and what comes after. */
  lemma Around<T>(s: seq<T>, i: int)
    requires 0 <= i < |s|
    ensures s[..i] + [s[i]] + s[i + 1..] == s
  {
  }

  /** Dropping the head of a list built by putting one element in front. */
  lemma DropCons<T>(h: T, x: seq<T>)
    ensures ([h] + x)[1..] == x
  {
  }

  /** Everything after the first separator is the join of the remaining pieces. */
  lemma SplitTail(s: string, sep: char)
    requires sep in s
    ensures Join(Split(s, sep)[1..], [sep]) == s[IndexOf(s, sep) + 1..]
  {
    var i := IndexOf(s, sep);
    var ps := Split(s, sep);
    assert |ps| >= 2 by { SplitSingle(s, sep); }
    assert ps[0] == s[..i] by { SplitHead(s, sep); }
    assert s == ps[0] + [sep] + Join(ps[1..], [sep]) by {
      JoinSplit(s, sep);
      JoinCons(ps[0], ps[1..], [sep]);
      SliceAppend(ps, 1);
    }
    CancelPrefix(s, ps[0], sep, Join(ps[1..], [sep]));
  }

  /** What follows a known prefix and one more element is the rest of the list. */
  lemma CancelPrefix<T>(s: seq<T>, a: seq<T>, x: T, b: seq<T>)
    requires s == a + [x] + b
    ensures b == s[|a| + 1..]
  {
  }

  lemma IndexOfAfterFree(a: string, sep: char, b: string)
    requires sep !in a
    ensures IndexOf(a + [sep] + b, sep) == |a|
    decreases |a|
  {
    if |a| > 0 {
      assert (a + [sep] + b)[1..] == a[1..] + [sep] + b;
      IndexOfAfterFree(a[1..], sep, b);
    }
  }

  /** Splitting a join of separator-free pieces gives back the pieces. */
  lemma {:induction false} SplitJoin(parts: seq<string>, sep: char)
    requires |parts| >= 1
    requires forall k :: 0 <= k < |parts| ==> sep !in parts[k]
    ensures Split(Join(parts, [sep]), sep) == parts
    decreases |parts|
  {
    if |parts| > 1 {
      var tail := Join(parts[1..], [sep]);
      calc {
        Split(Join(parts, [sep]), sep);
        Split(parts[0] + [sep] + tail, sep);
        { SplitCons(parts[0], sep, tail); }
        [parts[0]] + Split(tail, sep);
        { SplitJoin(parts[1..], sep); }
        [parts[0]] + parts[1..];
        { SliceAppend(parts, 1); }
        parts;
      }
    }
  }

  /** A separator-free head is the first piece; the rest is split on its own. */
  lemma SplitCons(a: string, sep: char, b: string)
    requires sep !in a
    ensures Split(a + [sep] + b, sep) == [a] + Split(b, sep)
  {
    var s := a + [sep] + b;
    IndexOfAfterFree(a, sep, b);
    assert s[..|a|] == a && s[|a| + 1..] == b;
  }

  /** Splitting at a separator between two strings splits each of them. */
  lemma {:induction false} SplitConcat(a: string, sep: char, b: string)
    ensures Split(a + [sep] + b, sep) == Split(a, sep) + Split(b, sep)
    decreases |a|
  {
    if sep !in a {
      SplitCons(a, sep, b);
      assert Split(a, sep) == [a];
    } else {
      var i := IndexOf(a, sep);
      var head, rest := a[..i], a[i + 1..];
      assert a == head + [sep] + rest;
      SplitConcat(rest, sep, b);
      SplitConcatStep(a, sep, b, head, rest);
    }
  }

  /** One step of `SplitConcat`: peel the first piece off both sides. */
  lemma SplitConcatStep(a: string, sep: char, b: string, head: string, rest: string)
    requires sep !in head && a == head + [sep] + rest
    requires Split(rest + [sep] + b, sep) == Split(rest, sep) + Split(b, sep)
    ensures Split(a + [sep] + b, sep) == Split(a, sep) + Split(b, sep)
  {
    var t := rest + [sep] + b;
    assert Split(a + [sep] + b, sep) == [head] + Split(t, sep) by {
      assert a + [sep] + b == head + [sep] + t;
      SplitCons(head, sep, t);
    }
    assert Split(a, sep) == [head] + Split(rest, sep) by {
      SplitCons(head, sep, rest);
    }
    ConsAssoc(head, Split(rest, sep), Split(b, sep));
  }

  /** Around one piece that may hold separators, a join of separator-free pieces splits back piece by piece. */
  lemma SplitJoinAround(head: seq<string>, mid: string, last: seq<string>, sep: char)
    requires |head| >= 1 && |last| >= 1
    requires forall k :: 0 <= k < |head| ==> sep !in head[k]
    requires forall k :: 0 <= k < |last| ==> sep !in last[k]
    ensures Split(Join(head + [mid] + last, [sep]), sep) == head + (Split(mid, sep) + last)
  {
    JoinAround(head, mid, last, [sep]);
    SplitAround3(head, mid, last, sep);
  }

  lemma JoinAround(head: seq<string>, mid: string, last: seq<string>, sep: string)
    requires |head| >= 1 && |last| >= 1
    ensures Join(head + [mid] + last, sep) == Join(head, sep) + sep + (mid + sep + Join(last, sep))
  {
    JoinAppend(head, [mid] + last, sep);
    JoinAppend([mid], last, sep);
    Assoc(head, [mid], last);
  }

  lemma SplitAround3(head: seq<string>, mid: string, last: seq<string>, sep: char)
    requires |head| >= 1 && |last| >= 1
    requires forall k :: 0 <= k < |head| ==> sep !in head[k]
    requires forall k :: 0 <= k < |last| ==> sep !in last[k]
    ensures Split(Join(head, [sep]) + [sep] + (mid + [sep] + Join(last, [sep])), sep) == head + (Split(mid, sep) + last)
  {
    SplitConcat(Join(head, [sep]), sep, mid + [sep] + Join(last, [sep]));
    SplitJoin(head, sep);
    SplitAfter(mid, last, sep);
  }

  lemma SplitAfter(mid: string, last: seq<string>, sep: char)
    requires |last| >= 1
    requires forall k :: 0 <= k < |last| ==> sep !in last[k]
    ensures Split(mid + [sep] + Join(last, [sep]), sep) == Split(mid, sep) + last
  {
    SplitConcat(mid, sep, Join(last, [sep]));
    SplitJoin(last, sep);
  }

  /** Joining two non-empty lists is joining their joins. */
  lemma {:induction false} JoinAppend(a: seq<string>, b: seq<string>, sep: string)
    requires |a| >= 1 && |b| >= 1
    ensures Join(a + b, sep) == Join(a, sep) + sep + Join(b, sep)
    decreases |a|
  {
    if |a| == 1 {
      assert (a + b)[1..] == b;
    } else {
      assert (a + b)[1..] == a[1..] + b;
      JoinAppend(a[1..], b, sep);
    }
  }

  /** A join of separator-free pieces contains the separator exactly when there are two or more. */
  lemma {:induction false} JoinFree(parts: seq<string>, c: char)
    requires forall k :: 0 <= k < |parts| ==> c !in parts[k]
    ensures c !in Join(parts, [c]) <==> |parts| <= 1
    decreases |parts|
  {
    if |parts| > 1 {
      JoinFree(parts[1..], c);
      assert Join(parts, [c])[|parts[0]|] == c;
    }
  }

  /** `filter(Boolean)` over strings: the non-empty ones, in order. */
  function NonEmpty(xs: seq<string>): (r: seq<string>)
    ensures forall k :: 0 <= k < |r| ==> r[k] != ""
    ensures forall k :: 0 <= k < |r| ==> r[k] in xs
    ensures (forall k :: 0 <= k < |xs| ==> xs[k] != "") ==> r == xs
  {
    if |xs| == 0 then []
    else if xs[0] == "" then NonEmpty(xs[1..])
    else [xs[0]] + NonEmpty(xs[1..])
  }

  /** The filter works piece by piece: the survivors of a concatenation keep their order. */
  lemma {:induction false} NonEmptyAppend(xs: seq<string>, ys: seq<string>)
    ensures NonEmpty(xs + ys) == NonEmpty(xs) + NonEmpty(ys)
    decreases |xs|
  {
    if |xs| > 0 {
      assert (xs + ys)[1..] == xs[1..] + ys;
      NonEmptyAppend(xs[1..], ys);
      if xs[0] != "" {
        ConsAssoc(xs[0], NonEmpty(xs[1..]), NonEmpty(ys));
      }
    } else {
      assert xs + ys == ys;
    }
  }

  // ---------------------------------------------------------------------------
  // The `a || b || ...` idiom on strings
  // ---------------------------------------------------------------------------

  /** `xs[i]` is the first non-empty string of `xs`. */
  predicate FirstNonEmptyAt(xs: seq<string>, i: int) {
    0 <= i < |xs| && xs[i] != "" && forall j :: 0 <= j < i ==> xs[j] == ""
  }

  /** `r` is what `xs[0] || xs[1] || ... || ""` evaluates to. */
  ghost predicate PicksFirst(xs: seq<string>, r: string) {
    || (r == "" && forall j :: 0 <= j < |xs| ==> xs[j] == "")
    || (exists i :: FirstNonEmptyAt(xs, i) && xs[i] == r)
  }

  function FirstNonEmpty(xs: seq<string>): (r: string)
    ensures PicksFirst(xs, r)
  {
    if |xs| == 0 then ""
    else if xs[0] != "" then
      assert FirstNonEmptyAt(xs, 0);
      xs[0]
    else
      var r := FirstNonEmpty(xs[1..]);
      if r == "" then r
      else
        var i :| FirstNonEmptyAt(xs[1..], i) && xs[1..][i] == r;
        assert FirstNonEmptyAt(xs, i + 1);
        r
  }

  /** At most one string is the first non-empty one. */
  lemma PicksFirstUnique(xs: seq<string>, r1: string, r2: string)
    requires PicksFirst(xs, r1) && PicksFirst(xs, r2)
    ensures r1 == r2
  {
    if r1 != "" && r2 != "" {
      var i1 :| FirstNonEmptyAt(xs, i1) && xs[i1] == r1;
      var i2 :| FirstNonEmptyAt(xs, i2) && xs[i2] == r2;
      assert !(i1 < i2) && !(i2 < i1);
    }
  }

  /** `(a1 || ... || an) || (b1 || ... || bm)` is the first non-empty of the whole list. */
  lemma {:induction false} PicksFirstAppend(xs: seq<string>, ys: seq<string>)
    ensures PicksFirst(xs + ys, if FirstNonEmpty(xs) != "" then FirstNonEmpty(xs) else FirstNonEmpty(ys))
  {
    var a := FirstNonEmpty(xs);
    var b := FirstNonEmpty(ys);
    if a != "" {
      var i :| FirstNonEmptyAt(xs, i) && xs[i] == a;
      assert FirstNonEmptyAt(xs + ys, i);
    } else {
      assert forall j :: 0 <= j < |xs| ==> xs[j] == "";
      if b != "" {
        var i :| FirstNonEmptyAt(ys, i) && ys[i] == b;
        assert FirstNonEmptyAt(xs + ys, |xs| + i);
      } else {
        assert forall j :: 0 <= j < |ys| ==> ys[j] == "";
        assert forall j :: 0 <= j < |xs + ys| ==> (xs + ys)[j] == "";
      }
    }
  }

  // ---------------------------------------------------------------------------
  // Lengths and numbers
  // ---------------------------------------------------------------------------

  /** JavaScript's `length`: code points above U+FFFF take two UTF-16 code units. */
  function Utf16Length(s: string): (n: nat)
    ensures |s| <= n <= 2 * |s|
  {
    if |s| == 0 then 0
    else (if s[0] as int > 0xFFFF then 2 else 1) + Utf16Length(s[1..])
  }

  predicate IsDigit(c: char) {
    '0' <= c <= '9'
  }

  /** Decimal rendering of a non-negative integer, as `${n}` produces it. */
  function NatToString(n: nat): (s: string)
    ensures |s| >= 1
    ensures forall k :: 0 <= k < |s| ==> IsDigit(s[k])
    decreases n
  {
    var d := ['0' + (n % 10) as char];
    if n < 10 then d else NatToString(n / 10) + d
  }
}
