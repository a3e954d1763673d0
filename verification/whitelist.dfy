/**
 * `isDomainAllowed` (index.js): the optional comma-separated domain whitelist.
 * Items are trimmed and lower-cased; a domain passes when its lower-cased name
 * equals an item, ends with it (plain `endsWith`, no label boundary), or is the
 * item with its leading dot removed.
 */
module Whitelist {
  import opened Text

  /**
   * Each comma-separated piece of the trimmed list, `trim()`-ed and `toLowerCase()`-d.
   * So every entry is comma-free, has no upper-case ASCII letter and no white
   * space at either end: it is already in the form it is compared in.
   */
  function Entries(config: string): (entries: seq<string>)
    ensures var pieces := Split(Trim(config), ',');
            && |entries| == |pieces|
            && forall k :: 0 <= k < |pieces| ==> entries[k] == Lower(Trim(pieces[k]))
    ensures forall k :: 0 <= k < |entries| ==> IsEntry(entries[k])
  {
    var pieces := Split(Trim(config), ',');
    SplitFree(Trim(config), ',');
    forall k | 0 <= k < |pieces| ensures IsEntry(Lower(Trim(pieces[k]))) {
      EntryShape(pieces[k]);
    }
    seq(|pieces|, k requires 0 <= k < |pieces| => Lower(Trim(pieces[k])))
  }

  /** An entry as the list yields it: no comma, no upper-case ASCII letter, no white space at either end. */
  predicate IsEntry(e: string) {
    && ',' !in e
    && (forall j :: 0 <= j < |e| ==> !('A' <= e[j] <= 'Z'))
    && (e == [] || (!IsSpace(e[0]) && !IsSpace(e[|e| - 1])))
  }

  /** Trimming and lower-casing a comma-free piece gives an entry. */
  lemma EntryShape(piece: string)
    requires ',' !in piece
    ensures IsEntry(Lower(Trim(piece)))
  {
    var t := Trim(piece);
    assert ',' !in t by { TrimInside(piece); }
    var e := Lower(t);
    assert ',' !in e by {
      forall j | 0 <= j < |e| ensures e[j] != ',' {
        assert e[j] == LowerChar(t[j]);
      }
    }
    assert e == [] || (!IsSpace(e[0]) && !IsSpace(e[|e| - 1])) by {
      if e != [] {
        LowerCharKeepsSpace(t[0]);
        LowerCharKeepsSpace(t[|t| - 1]);
      }
    }
  }

  /** Every character of the trimmed text is a character of the text. */
  lemma TrimInside(s: string)
    ensures forall j :: 0 <= j < |Trim(s)| ==> Trim(s)[j] in s
  {
    var t := Trim(s);
    var i :| 0 <= i <= |s| - |t| && TrimmedAt(s, t, i);
    forall j | 0 <= j < |t| ensures t[j] in s {
      assert t[j] == s[i + j];
    }
  }

  /** Lower-casing neither makes nor removes white space. */
  lemma LowerCharKeepsSpace(c: char)
    ensures IsSpace(LowerChar(c)) == IsSpace(c)
  {
  }

  /** The three ways one entry admits a lower-cased domain. */
  predicate Admits(item: string, target: string) {
    target == item || EndsWith(target, item) || "." + target == item
  }

  /** `suffixList.some(...)`. */
  function AnyAdmits(items: seq<string>, target: string): (b: bool)
    ensures b <==> exists k :: 0 <= k < |items| && Admits(items[k], target)
  {
    if |items| == 0 then false
    else if Admits(items[0], target) then true
    else
      var b := AnyAdmits(items[1..], target);
      assert b ==> exists k :: 0 <= k < |items| && Admits(items[k], target) by {
        if b {
          var k :| 0 <= k < |items[1..]| && Admits(items[1..][k], target);
          assert Admits(items[k + 1], target);
        }
      }
      b
  }

  function IsDomainAllowed(domain: string, config: string): (allowed: bool)
    ensures Trim(config) == "" ==> allowed
    ensures Trim(config) != "" ==>
              (allowed <==>
                 exists k :: 0 <= k < |Entries(config)| &&
                   Entries(config)[k] != "" && Admits(Entries(config)[k], Lower(domain)))
  {
    if Trim(config) == "" then true
    else
      var entries := Entries(config);
      AdmittedByNonEmpty(entries, Lower(domain));
      AnyAdmits(NonEmpty(entries), Lower(domain))
  }

  /** Dropping the blank entries (`filter(Boolean)`) keeps exactly the entries that may admit. */
  lemma {:induction false} AdmittedByNonEmpty(xs: seq<string>, target: string)
    ensures AnyAdmits(NonEmpty(xs), target) <==>
              exists k :: 0 <= k < |xs| && xs[k] != "" && Admits(xs[k], target)
  {
    if |xs| > 0 {
      AdmittedByNonEmpty(xs[1..], target);
      var rest := NonEmpty(xs[1..]);
      if xs[0] != "" {
        assert NonEmpty(xs) == [xs[0]] + rest;
        assert AnyAdmits([xs[0]] + rest, target) == (Admits(xs[0], target) || AnyAdmits(rest, target)) by {
          assert ([xs[0]] + rest)[1..] == rest;
        }
      }
      if exists k :: 0 <= k < |xs| && xs[k] != "" && Admits(xs[k], target) {
        var k :| 0 <= k < |xs| && xs[k] != "" && Admits(xs[k], target);
        if k > 0 {
          assert xs[1..][k - 1] == xs[k];
        }
      }
    }
  }

  /** An empty or blank whitelist admits every domain. */
  lemma BlankAllowsAll(domain: string, config: string)
    requires forall k :: 0 <= k < |config| ==> IsSpace(config[k])
    ensures IsDomainAllowed(domain, config)
  {
  }

  lemma TrimUnpadded(s: string)
    requires s == [] || (!IsSpace(s[0]) && !IsSpace(s[|s| - 1]))
    ensures Trim(s) == s
  {
  }

  /** A whitelist of one plain entry admits exactly what that entry admits. */
  lemma SingleEntry(domain: string, item: string)
    requires item != "" && ',' !in item && !IsSpace(item[0]) && !IsSpace(item[|item| - 1])
    requires Lower(item) == item
    ensures IsDomainAllowed(domain, item) <==> Admits(item, Lower(domain))
  {
    TrimUnpadded(item);
    assert Split(item, ',') == [item];
    assert Entries(item) == [item];
  }

  /** Without a label boundary, `notexample.com` passes a whitelist of `example.com`. */
  lemma NoLabelBoundary(domain: string, item: string)
    requires domain == "notexample.com" && item == "example.com"
    ensures IsDomainAllowed(domain, item)
  {
    LowerOfLower(item);
    LowerOfLower(domain);
    SingleEntry(domain, item);
    assert domain[|domain| - |item|..] == item;
  }
}
