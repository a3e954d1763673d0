/**
 * `splitDomain` (index.js): a fully qualified name becomes the record part
 * (`rr`, `"@"` for the apex) and the registrable domain, using a fixed table
 * of two-label public suffixes.
 */
module Domain {
  import opened Text

  datatype DomainParts = DomainParts(rr: string, domain: string)

  /** The multi-label public suffixes the splitter knows; data, extendable by hand. */
  const MultiLevelSuffixes: seq<seq<string>> := [
    ["co", "uk"], ["org", "uk"], ["gov", "uk"], ["ac", "uk"],
    ["com", "cn"], ["net", "cn"], ["org", "cn"], ["gov", "cn"], ["ac", "cn"], ["edu", "cn"],
    ["com", "tw"], ["net", "tw"], ["org", "tw"], ["idv", "tw"], ["gov", "tw"], ["edu", "tw"],
    ["com", "hk"], ["net", "hk"], ["org", "hk"], ["edu", "hk"],
    ["com", "au"], ["net", "au"], ["org", "au"], ["gov", "au"], ["edu", "au"],
    ["co", "jp"], ["ne", "jp"], ["or", "jp"], ["ac", "jp"], ["go", "jp"]
  ]

  /** `full.replace(/\.$/, '')`: one trailing dot goes. */
  function StripTrailingDot(s: string): string {
    if |s| > 0 && s[|s| - 1] == '.' then s[..|s| - 1] else s
  }

  /** No label of the list is empty or holds a dot. */
  predicate PlainLabels(ps: seq<string>) {
    forall k :: 0 <= k < |ps| ==> ps[k] != "" && '.' !in ps[k]
  }

  /** The non-empty dot-separated labels of a name. */
  function Labels(full: string): (parts: seq<string>)
    ensures PlainLabels(parts)
  {
    var pieces := Split(StripTrailingDot(full), '.');
    var parts := NonEmpty(pieces);
    SplitFree(StripTrailingDot(full), '.');
    assert forall k :: 0 <= k < |parts| ==> '.' !in parts[k] by {
      forall k | 0 <= k < |parts| ensures '.' !in parts[k] {
        var j :| 0 <= j < |pieces| && pieces[j] == parts[k];
      }
    }
    parts
  }

  /** Every entry of a suffix table has two labels, as every entry of the built-in one does. */
  predicate PairTable(t: seq<seq<string>>) {
    forall j :: 0 <= j < |t| ==> |t[j]| == 2
  }

  lemma BuiltInTableIsPairs()
    ensures PairTable(MultiLevelSuffixes)
  {
  }

  /** The table entry is shorter than the name and equals its last labels. */
  predicate TailMatches(suffix: seq<string>, labels: seq<string>) {
    |suffix| < |labels| && labels[|labels| - |suffix|..] == suffix
  }

  /**
   * The `for (const suffix of MULTI_LEVEL_TLD_PARTS)` loop: the label count of the
   * longest table entry matching the tail of `labels`, and 1 when none does.
   */
  function SuffixLength(table: seq<seq<string>>, labels: seq<string>): (k: nat)
    ensures k >= 1 && (k == 1 || k < |labels|)
  {
    if |table| == 0 then 1
    else
      var k := SuffixLength(table[..|table| - 1], labels);
      var last := table[|table| - 1];
      if TailMatches(last, labels) && |last| > k then |last| else k
  }

  /** The loop's result is the length of a matching entry (or 1), and no matching entry is longer. */
  lemma {:induction false} SuffixLengthIsLongest(table: seq<seq<string>>, labels: seq<string>)
    ensures var k := SuffixLength(table, labels);
            && (k == 1 || exists j :: 0 <= j < |table| && TailMatches(table[j], labels) && |table[j]| == k)
            && (forall j :: 0 <= j < |table| && TailMatches(table[j], labels) ==> |table[j]| <= k)
  {
    if |table| > 0 {
      var init := table[..|table| - 1];
      SuffixLengthIsLongest(init, labels);
      assert forall j :: 0 <= j < |init| ==> table[j] == init[j];
    }
  }

  /** The record part and the domain either side of a cut in the label list: `slice(0, -n)` and `slice(-n)`. */
  function CutAt(parts: seq<string>, cut: int): DomainParts
    requires 0 <= cut <= |parts|
  {
    DomainParts(if cut == 0 then "@" else Join(parts[..cut], "."), Join(parts[cut..], "."))
  }

  /** `splitDomain` once the labels are known, with the suffix table as a parameter. */
  function SplitLabels(t: seq<seq<string>>, parts: seq<string>): DomainParts {
    if |parts| <= 2 then DomainParts("@", Join(parts, "."))
    else
      var k := SuffixLength(t, LowerAll(parts));
      CutAt(parts, |parts| - (k + 1))
  }

  /** `splitDomain` itself, on the built-in table. */
  function SplitDomain(full: string): DomainParts {
    SplitLabels(MultiLevelSuffixes, Labels(full))
  }

  // ---------------------------------------------------------------------------
  // Reference shape and properties, for any table of label pairs
  // ---------------------------------------------------------------------------

  /** The pair of the last two labels, lower-cased, is an entry of the table. */
  predicate EndsInSuffix(t: seq<seq<string>>, parts: seq<string>) {
    |parts| >= 2 && [Lower(parts[|parts| - 2]), Lower(parts[|parts| - 1])] in t
  }

  /** How many trailing labels form the registrable domain. */
  function DomainLabelCount(t: seq<seq<string>>, parts: seq<string>): nat {
    if |parts| <= 2 then |parts|
    else if EndsInSuffix(t, parts) then 3
    else 2
  }

  /** On a name of three or more labels the table loop finds a 2-label suffix exactly when the tail is listed. */
  lemma {:induction false} SuffixLengthOnTable(t: seq<seq<string>>, parts: seq<string>)
    requires PairTable(t) && |parts| >= 3
    ensures SuffixLength(t, LowerAll(parts)) == if EndsInSuffix(t, parts) then 2 else 1
  {
    var labels := LowerAll(parts);
    var n := |labels|;
    var tail := [Lower(parts[n - 2]), Lower(parts[n - 1])];
    assert labels[n - 2..] == tail;
    SuffixLengthIsLongest(t, labels);
    if EndsInSuffix(t, parts) {
      var j :| 0 <= j < |t| && t[j] == tail;
      assert TailMatches(t[j], labels);
    }
  }

  /** The record part of a result: no labels for the apex marker. */
  function RrLabels(r: DomainParts): seq<string> {
    if r.rr == "@" then [] else Split(r.rr, '.')
  }

  /** The table loop keeps exactly `DomainLabelCount` trailing labels as the domain. */
  lemma SplitLabelsCut(t: seq<seq<string>>, ps: seq<string>)
    requires PairTable(t)
    ensures var cut := |ps| - DomainLabelCount(t, ps);
            && 0 <= cut <= |ps|
            && SplitLabels(t, ps) == CutAt(ps, cut)
  {
    if |ps| > 2 {
      SuffixLengthOnTable(t, ps);
    } else {
      assert ps[0..] == ps;
    }
  }

  /** Both sides of a cut split back into their labels. */
  lemma CutShape(ps: seq<string>, cut: int)
    requires PlainLabels(ps) && 0 <= cut <= |ps|
    ensures cut < |ps| ==> Split(CutAt(ps, cut).domain, '.') == ps[cut..]
    ensures cut > 0 ==> Split(CutAt(ps, cut).rr, '.') == ps[..cut]
  {
    var a, b := ps[..cut], ps[cut..];
    if cut < |ps| {
      assert forall k :: 0 <= k < |b| ==> '.' !in b[k];
      SplitJoin(b, '.');
    }
    if cut > 0 {
      assert forall k :: 0 <= k < |a| ==> '.' !in a[k];
      SplitJoin(a, '.');
    }
  }

  /**
   * The split keeps the last `DomainLabelCount` labels as the domain and the rest,
   * joined, as `rr`; each splits back into its labels.
   */
  lemma SplitShape(t: seq<seq<string>>, ps: seq<string>)
    requires PairTable(t) && PlainLabels(ps)
    ensures var r := SplitLabels(t, ps);
            var cut := |ps| - DomainLabelCount(t, ps);
            && 0 <= cut <= |ps|
            && (|ps| > 0 ==> Split(r.domain, '.') == ps[cut..])
            && (|ps| == 0 ==> r.domain == "")
            && (cut == 0 ==> r.rr == "@")
            && (cut > 0 ==> Split(r.rr, '.') == ps[..cut])
  {
    var cut := |ps| - DomainLabelCount(t, ps);
    assert 0 <= cut <= |ps| && SplitLabels(t, ps) == CutAt(ps, cut) by { SplitLabelsCut(t, ps); }
    var r := CutAt(ps, cut);
    assert (cut < |ps| ==> Split(r.domain, '.') == ps[cut..]) && (cut > 0 ==> Split(r.rr, '.') == ps[..cut]) by {
      CutShape(ps, cut);
    }
    if |ps| > 0 {
      assert cut < |ps| by { SplitLabelsCut(t, ps); }
    }
  }

  /** Cutting a label list and joining both sides keeps every label and rebuilds the joined name. */
  lemma CutRebuilds(ps: seq<string>, cut: int)
    requires PlainLabels(ps)
    requires 0 < cut < |ps| && CutAt(ps, cut).rr != "@"
    ensures RrLabels(CutAt(ps, cut)) + Split(CutAt(ps, cut).domain, '.') == ps
    ensures CutAt(ps, cut).rr + "." + CutAt(ps, cut).domain == Join(ps, ".")
  {
    var a, b := ps[..cut], ps[cut..];
    CutShape(ps, cut);
    assert RrLabels(CutAt(ps, cut)) == a;
    SliceAppend(ps, cut);
    JoinAppend(a, b, ".");
  }

  /** Record labels followed by domain labels are the name's labels, and `rr.domain` rebuilds the name. */
  lemma SplitReconstructs(t: seq<seq<string>>, ps: seq<string>)
    requires PairTable(t) && PlainLabels(ps) && SplitLabels(t, ps).rr != "@"
    ensures var r := SplitLabels(t, ps);
            && RrLabels(r) + Split(r.domain, '.') == ps
            && r.rr + "." + r.domain == Join(ps, ".")
  {
    var cut := |ps| - DomainLabelCount(t, ps);
    assert SplitLabels(t, ps) == CutAt(ps, cut) by { SplitLabelsCut(t, ps); }
    CutRebuilds(ps, cut);
  }

  /** `rr` is `"@"` exactly when no label precedes the domain, or the only one is literally `@`. */
  lemma ApexMarker(t: seq<seq<string>>, ps: seq<string>)
    requires PairTable(t) && PlainLabels(ps)
    ensures var cut := |ps| - DomainLabelCount(t, ps);
            SplitLabels(t, ps).rr == "@" <==> cut <= 0 || ps[..cut] == ["@"]
  {
    var cut := |ps| - DomainLabelCount(t, ps);
    assert SplitLabels(t, ps) == CutAt(ps, cut) by { SplitLabelsCut(t, ps); }
    CutShape(ps, cut);
    if cut > 0 && ps[..cut] == ["@"] {
      assert CutAt(ps, cut).rr == Join(["@"], ".");
    }
  }

  lemma LastCharOfJoin(parts: seq<string>)
    requires |parts| >= 1 && parts[|parts| - 1] != "" && '.' !in parts[|parts| - 1]
    ensures var s := Join(parts, "."); |s| > 0 && s[|s| - 1] != '.'
  {
    if |parts| > 1 {
      JoinAppend(parts[..|parts| - 1], [parts[|parts| - 1]], ".");
      assert parts[..|parts| - 1] + [parts[|parts| - 1]] == parts;
    }
  }

  /** The labels of a joined list of labels are that list. */
  lemma LabelsOfJoin(parts: seq<string>)
    requires PlainLabels(parts)
    ensures Labels(Join(parts, ".")) == parts
  {
    if |parts| == 0 {
      assert Split("", '.') == [""];
    } else {
      LastCharOfJoin(parts);
      SplitJoin(parts, '.');
    }
  }

  /** `Labels` is the filter over the pieces of the name without its trailing dot. */
  lemma LabelsUnfold(s: string)
    ensures Labels(s) == NonEmpty(Split(StripTrailingDot(s), '.'))
  {
  }

  /** The pieces left once the trailing dot of a join is gone: all of them, or all but an empty last one. */
  lemma PiecesOfJoin(xs: seq<string>)
    requires forall k :: 0 <= k < |xs| ==> '.' !in xs[k]
    ensures NonEmpty(Split(StripTrailingDot(Join(xs, ".")), '.')) == NonEmpty(xs)
  {
    if |xs| == 0 || (|xs| == 1 && xs[0] == "") {
      PiecesOfEmptyJoin(xs);
    } else if xs[|xs| - 1] != "" {
      PiecesOfPlainJoin(xs);
    } else {
      PiecesOfDottedJoin(xs);
    }
  }

  /** No pieces, or one empty piece, join to the empty name, which has no labels. */
  lemma PiecesOfEmptyJoin(xs: seq<string>)
    requires |xs| == 0 || (|xs| == 1 && xs[0] == "")
    ensures NonEmpty(Split(StripTrailingDot(Join(xs, ".")), '.')) == NonEmpty(xs)
  {
    assert Join(xs, ".") == "";
    assert Split("", '.') == [""];
    assert NonEmpty([""]) == [];
  }

  /** A join whose last piece is non-empty has no trailing dot and splits back into its pieces. */
  lemma PiecesOfPlainJoin(xs: seq<string>)
    requires |xs| >= 1 && xs[|xs| - 1] != ""
    requires forall k :: 0 <= k < |xs| ==> '.' !in xs[k]
    ensures NonEmpty(Split(StripTrailingDot(Join(xs, ".")), '.')) == NonEmpty(xs)
  {
    LastCharOfJoin(xs);
    SplitJoin(xs, '.');
  }

  /** A join whose last piece is empty ends in the dot that the strip removes. */
  lemma PiecesOfDottedJoin(xs: seq<string>)
    requires |xs| >= 2 && xs[|xs| - 1] == ""
    requires forall k :: 0 <= k < |xs| ==> '.' !in xs[k]
    ensures NonEmpty(Split(StripTrailingDot(Join(xs, ".")), '.')) == NonEmpty(xs)
  {
    SplitOfDottedJoin(xs);
    NonEmptyDropsLast(xs);
  }

  /** Without its trailing dot, a join whose last piece is empty splits into the other pieces. */
  lemma SplitOfDottedJoin(xs: seq<string>)
    requires |xs| >= 2 && xs[|xs| - 1] == ""
    requires forall k :: 0 <= k < |xs| ==> '.' !in xs[k]
    ensures Split(StripTrailingDot(Join(xs, ".")), '.') == xs[..|xs| - 1]
  {
    var init := xs[..|xs| - 1];
    StripDottedJoin(xs);
    assert forall k :: 0 <= k < |init| ==> '.' !in init[k];
    SplitJoin(init, '.');
  }

  /** An empty last piece is filtered out. */
  lemma NonEmptyDropsLast(xs: seq<string>)
    requires |xs| >= 1 && xs[|xs| - 1] == ""
    ensures NonEmpty(xs) == NonEmpty(xs[..|xs| - 1])
  {
    var init := xs[..|xs| - 1];
    assert xs == init + [""];
    NonEmptyAppend(init, [""]);
    assert NonEmpty([""]) == [];
  }

  /** The dot an empty last piece leaves is the one the strip removes. */
  lemma StripDottedJoin(xs: seq<string>)
    requires |xs| >= 2 && xs[|xs| - 1] == ""
    ensures StripTrailingDot(Join(xs, ".")) == Join(xs[..|xs| - 1], ".")
  {
    var init := xs[..|xs| - 1];
    var j := Join(init, ".");
    var s := Join(xs, ".");
    assert s == j + "." by {
      assert xs == init + [""];
      JoinAppend(init, [""], ".");
    }
    assert s[..|s| - 1] == j;
  }

  /**
   * The labels of any dotted name are its non-empty pieces, in order: empty
   * labels are dropped, and so is the empty piece a trailing dot leaves.
   */
  lemma LabelsOfPieces(xs: seq<string>)
    requires forall k :: 0 <= k < |xs| ==> '.' !in xs[k]
    ensures Labels(Join(xs, ".")) == NonEmpty(xs)
  {
    LabelsUnfold(Join(xs, "."));
    PiecesOfJoin(xs);
  }

  /** One trailing dot does not change the labels of a name. */
  lemma LabelsTrailingDot(ps: seq<string>)
    requires PlainLabels(ps)
    ensures Labels(Join(ps, ".") + ".") == ps
  {
    if |ps| == 0 {
      assert Join(["", ""], ".") == ".";
      LabelsOfPieces(["", ""]);
      assert NonEmpty(["", ""]) == [];
    } else {
      assert Join(ps + [""], ".") == Join(ps, ".") + "." by {
        JoinAppend(ps, [""], ".");
      }
      LabelsOfPieces(ps + [""]);
      assert NonEmpty(ps + [""]) == ps by {
        NonEmptyAppend(ps, [""]);
        assert NonEmpty([""]) == [];
      }
    }
  }

  /** An empty label between two dots is dropped: `a..b` has the labels of `a.b`. */
  lemma LabelsSkipEmpty(a: string, b: string)
    ensures Labels(a + ".." + b) == Labels(a + "." + b)
  {
    var xs, ys := Split(a, '.'), Split(b, '.');
    JoinOfSplits(a, b);
    assert Labels(a + "." + b) == NonEmpty(xs + ys) by {
      LabelsOfPieces(xs + ys);
    }
    assert Labels(a + ".." + b) == NonEmpty(xs + [""] + ys) by {
      LabelsOfPieces(xs + [""] + ys);
    }
    NonEmptyDropsEmpty(xs, ys);
  }

  /** The pieces of two names, joined with one or with two dots between them. */
  lemma JoinOfSplits(a: string, b: string)
    ensures var xs, ys := Split(a, '.'), Split(b, '.');
            && (forall k :: 0 <= k < |xs + ys| ==> '.' !in (xs + ys)[k])
            && (forall k :: 0 <= k < |xs + [""] + ys| ==> '.' !in (xs + [""] + ys)[k])
            && Join(xs + ys, ".") == a + "." + b
            && Join(xs + [""] + ys, ".") == a + ".." + b
  {
    var xs, ys := Split(a, '.'), Split(b, '.');
    SplitFree(a, '.');
    SplitFree(b, '.');
    assert Join(xs, ".") == a by { JoinSplit(a, '.'); }
    assert Join(ys, ".") == b by { JoinSplit(b, '.'); }
    assert Join(xs + ys, ".") == a + "." + b by {
      JoinAppend(xs, ys, ".");
    }
    assert Join(xs + [""] + ys, ".") == a + ".." + b by {
      JoinAppend(xs, [""], ".");
      JoinAppend(xs + [""], ys, ".");
    }
  }

  /** An empty piece between two lists is filtered out. */
  lemma NonEmptyDropsEmpty(xs: seq<string>, ys: seq<string>)
    ensures NonEmpty(xs + [""] + ys) == NonEmpty(xs + ys)
  {
    NonEmptyAppend(xs + [""], ys);
    NonEmptyAppend(xs, [""]);
    NonEmptyAppend(xs, ys);
    assert NonEmpty([""]) == [];
    assert NonEmpty(xs) + [] == NonEmpty(xs);
  }

  /** Leading empty labels and the trailing dot of `..www.example.com.` are dropped. */
  lemma LabelsExample(full: string)
    requires full == "..www.example.com."
    ensures Labels(full) == ["www", "example", "com"]
  {
    var xs := ["", "", "www", "example", "com", ""];
    assert Join(xs, ".") == full by { ExamplePieces(); }
    assert Labels(full) == NonEmpty(xs) by { LabelsOfPieces(xs); }
    assert NonEmpty(xs) == ["www", "example", "com"];
  }

  /** The pieces of `..www.example.com.` between its dots. */
  lemma ExamplePieces()
    ensures Join(["", "", "www", "example", "com", ""], ".") == "..www.example.com."
  {
    ExampleLeadingDot();
    JoinCons("", ["", "www", "example", "com", ""], ".");
  }

  /** The pieces of `.www.example.com.` between its dots. */
  lemma ExampleLeadingDot()
    ensures Join(["", "www", "example", "com", ""], ".") == ".www.example.com."
  {
    ExampleTail();
    JoinCons("", ["www", "example", "com", ""], ".");
  }

  /** The pieces of `www.example.com.` between its dots. */
  lemma ExampleTail()
    ensures Join(["www", "example", "com", ""], ".") == "www.example.com."
  {
    JoinCons("com", [""], ".");
    JoinCons("example", ["com", ""], ".");
    JoinCons("www", ["example", "com", ""], ".");
  }

  /** The suffix test looks only at the last two labels, so it survives dropping leading labels. */
  lemma MultiLevelSuffixKept(t: seq<seq<string>>, ps: seq<string>, cut: int)
    requires 0 <= cut <= |ps| - 2 && EndsInSuffix(t, ps)
    ensures EndsInSuffix(t, ps[cut..])
  {
    var ds := ps[cut..];
    var n := |ps|;
    assert ds[|ds| - 2] == ps[n - 2] && ds[|ds| - 1] == ps[n - 1];
    assert [Lower(ds[|ds| - 2]), Lower(ds[|ds| - 1])] == [Lower(ps[n - 2]), Lower(ps[n - 1])];
  }

  /** A label list the split keeps whole: at most two labels, or three ending in a listed suffix. */
  predicate Registrable(t: seq<seq<string>>, ds: seq<string>) {
    |ds| <= 2 || (|ds| == 3 && EndsInSuffix(t, ds))
  }

  /** The domain part is the join of the kept labels, and those form a registrable list. */
  lemma DomainIsRegistrable(t: seq<seq<string>>, ps: seq<string>)
    requires PairTable(t) && PlainLabels(ps)
    ensures var ds := ps[|ps| - DomainLabelCount(t, ps)..];
            && SplitLabels(t, ps).domain == Join(ds, ".")
            && PlainLabels(ds)
            && Registrable(t, ds)
  {
    var cut := |ps| - DomainLabelCount(t, ps);
    assert SplitLabels(t, ps) == CutAt(ps, cut) by { SplitLabelsCut(t, ps); }
    if cut > 0 && |ps| - cut == 3 {
      MultiLevelSuffixKept(t, ps, cut);
    }
  }

  /** A registrable list of plain labels, joined, splits into no record part and itself. */
  lemma RegistrableSplitsWhole(t: seq<seq<string>>, ds: seq<string>)
    requires PairTable(t) && Registrable(t, ds)
    ensures SplitLabels(t, ds) == DomainParts("@", Join(ds, "."))
  {
    if |ds| > 2 {
      assert SplitLabels(t, ds) == CutAt(ds, 0) by { SplitLabelsCut(t, ds); }
      SliceAppend(ds, 0);
    }
  }

  /** Splitting the registrable domain again keeps it whole, with no record part. */
  lemma SplitIdempotent(t: seq<seq<string>>, ps: seq<string>)
    requires PairTable(t) && PlainLabels(ps)
    ensures var d := SplitLabels(t, ps).domain;
            SplitLabels(t, Labels(d)) == DomainParts("@", d)
  {
    var ds := ps[|ps| - DomainLabelCount(t, ps)..];
    DomainIsRegistrable(t, ps);
    LabelsOfJoin(ds);
    RegistrableSplitsWhole(t, ds);
  }

  /** On the built-in table: splitting the domain of a split again gives the apex of that domain. */
  lemma SplitDomainIdempotent(full: string)
    ensures var d := SplitDomain(full).domain;
            SplitDomain(d) == DomainParts("@", d)
  {
    BuiltInTableIsPairs();
    SplitIdempotent(MultiLevelSuffixes, Labels(full));
  }

  /** `test.www.example.co.uk` keeps `co.uk` with the label before it and leaves `test.www` as the record part. */
  lemma SplitDomainNestedExample(full: string)
    requires full == "test.www.example.co.uk"
    ensures SplitDomain(full) == DomainParts("test.www", "example.co.uk")
  {
    var ps := ["test", "www", "example", "co", "uk"];
    assert Labels(full) == ps by { NestedPieces(); LabelsOfJoin(ps); }
    SplitDomainOf(full, ps);
    NestedSplit(ps);
  }

  /** The labels of `test.www.example.co.uk` joined back. */
  lemma NestedPieces()
    ensures Join(["test", "www", "example", "co", "uk"], ".") == "test.www.example.co.uk"
  {
    JoinCons("co", ["uk"], ".");
    JoinCons("example", ["co", "uk"], ".");
    JoinCons("www", ["example", "co", "uk"], ".");
    JoinCons("test", ["www", "example", "co", "uk"], ".");
  }

  /** The labels of `test.www.example.co.uk` end in the listed pair `co.uk`, so three of them form the domain. */
  lemma NestedSplit(ps: seq<string>)
    requires ps == ["test", "www", "example", "co", "uk"]
    ensures SplitLabels(MultiLevelSuffixes, ps) == DomainParts("test.www", "example.co.uk")
  {
    assert EndsInSuffix(MultiLevelSuffixes, ps) by {
      assert Lower("co") == "co" && Lower("uk") == "uk";
      assert MultiLevelSuffixes[0] == ["co", "uk"];
    }
    assert SplitLabels(MultiLevelSuffixes, ps) == CutAt(ps, 2) by {
      BuiltInTableIsPairs();
      SplitLabelsCut(MultiLevelSuffixes, ps);
    }
    NestedCut(ps);
  }

  /** Cutting the labels of `test.www.example.co.uk` after two labels. */
  lemma NestedCut(ps: seq<string>)
    requires ps == ["test", "www", "example", "co", "uk"]
    ensures CutAt(ps, 2) == DomainParts("test.www", "example.co.uk")
  {
    assert ps[..2] == ["test", "www"] && ps[2..] == ["example", "co", "uk"];
    JoinCons("test", ["www"], ".");
    JoinCons("co", ["uk"], ".");
    JoinCons("example", ["co", "uk"], ".");
  }

  /** `..www.example.com.` loses its empty labels and trailing dot, and `com` is no multi-label suffix. */
  lemma SplitDomainTrailingExample(full: string)
    requires full == "..www.example.com."
    ensures SplitDomain(full) == DomainParts("www", "example.com")
  {
    var ps := ["www", "example", "com"];
    assert Labels(full) == ps by { LabelsExample(full); }
    SplitDomainOf(full, ps);
    TrailingSplit(ps);
  }

  /** `example.com` is not a listed pair, so two of the labels `www`, `example`, `com` form the domain. */
  lemma TrailingSplit(ps: seq<string>)
    requires ps == ["www", "example", "com"]
    ensures SplitLabels(MultiLevelSuffixes, ps) == DomainParts("www", "example.com")
  {
    assert !EndsInSuffix(MultiLevelSuffixes, ps) by { ExampleComUnlisted(); }
    assert SplitLabels(MultiLevelSuffixes, ps) == CutAt(ps, 1) by {
      BuiltInTableIsPairs();
      SplitLabelsCut(MultiLevelSuffixes, ps);
    }
    assert ps[..1] == ["www"] && ps[1..] == ["example", "com"];
    JoinCons("example", ["com"], ".");
  }

  lemma ExampleComUnlisted()
    ensures [Lower("example"), Lower("com")] !in MultiLevelSuffixes
  {
    assert Lower("example") == "example" && Lower("com") == "com";
  }

  /** `SplitDomain` depends on a name only through its labels. */
  lemma SplitDomainOf(full: string, ps: seq<string>)
    requires Labels(full) == ps
    ensures SplitDomain(full) == SplitLabels(MultiLevelSuffixes, ps)
  {
  }

  /** On the built-in table: record labels then domain labels are the name's labels, and `rr.domain` is the name. */
  lemma SplitDomainReconstructs(full: string)
    requires SplitDomain(full).rr != "@"
    ensures var r := SplitDomain(full);
            && RrLabels(r) + Split(r.domain, '.') == Labels(full)
            && r.rr + "." + r.domain == Join(Labels(full), ".")
  {
    BuiltInTableIsPairs();
    SplitReconstructs(MultiLevelSuffixes, Labels(full));
  }
}
