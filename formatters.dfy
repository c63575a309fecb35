/** The text renderings of lib/formatters.js. Each formatter builds a list of
    lines (optional lines are dropped, lists are cut to a limit and followed by
    an overflow line) and joins it. */
module Formatters {

  import opened Wrappers
  import opened Text
  import opened Values

  const VersionsLimit: nat := 10
  const AdvisoriesLimit: nat := 10
  const SearchLimit: nat := 20
  const DescriptionWidth: nat := 80

  function Min(a: nat, b: nat): nat { if a < b then a else b }

  // ---- formatNumber ----

  /** n/unit to one decimal, halves rounded up, as toFixed(1) renders it. */
  function Scaled(n: nat, unit: nat): (r: string)
    requires unit > 0
    ensures |r| >= 3 && r[|r| - 2] == '.'
  {
    var tenths := (n * 10 + unit / 2) / unit;
    NatToString(tenths / 10) + "." + [DigitChar(tenths % 10)]
  }

  function FormatNumber(v: Value): (r: string)
    ensures !Truthy(v) ==> r == "0"
  {
    if !Truthy(v) then "0"
    else match v
      case Num(n) =>
        if n >= 1_000_000_000 then Scaled(n, 1_000_000_000) + "B"
        else if n >= 1_000_000 then Scaled(n, 1_000_000) + "M"
        else if n >= 1_000 then Scaled(n, 1_000) + "K"
        else IntToString(n)
      case _ => ToText(v)
  }

  /** Below a thousand a count is written out in full and reads back exactly. */
  lemma FormatNumberSmall(n: nat)
    requires 0 < n < 1000
    ensures IsDigits(FormatNumber(Num(n)))
    ensures DecimalValue(FormatNumber(Num(n))) == n
  {
    NatToStringRoundTrip(n);
  }

  /** From a thousand up a count carries one decimal and its unit letter. */
  lemma FormatNumberLarge(n: nat)
    requires n >= 1000
    ensures EndsWith(FormatNumber(Num(n)), if n >= 1_000_000_000 then "B" else if n >= 1_000_000 then "M" else "K")
    ensures FormatNumber(Num(n))[|FormatNumber(Num(n))| - 3] == '.'
  {
    if n >= 1_000_000_000 {
      var s := Scaled(n, 1_000_000_000);
      assert FormatNumber(Num(n)) == s + "B";
    } else if n >= 1_000_000 {
      var s := Scaled(n, 1_000_000);
      assert FormatNumber(Num(n)) == s + "M";
    } else {
      var s := Scaled(n, 1_000);
      assert FormatNumber(Num(n)) == s + "K";
    }
  }

  // ---- lines.filter(Boolean) ----

  function When(c: bool, line: string): Option<string> {
    if c then Some(line) else None
  }

  /** The lines that survive filter(Boolean): the present, non-empty ones, in order. */
  function Compact(parts: seq<Option<string>>): (r: seq<string>)
    ensures |r| <= |parts|
    ensures forall s :: s in r <==> Some(s) in parts && s != ""
  {
    if parts == [] then []
    else (if parts[0].Some? && parts[0].value != "" then [parts[0].value] else []) + Compact(parts[1..])
  }

  function Ones(c: bool): nat { if c then 1 else 0 }

  lemma {:induction false} CompactAppend(a: seq<Option<string>>, b: seq<Option<string>>)
    ensures Compact(a + b) == Compact(a) + Compact(b)
  {
    if a == [] {
      assert a + b == b;
    } else {
      assert (a + b)[0] == a[0] && (a + b)[1..] == a[1..] + b;
      CompactAppend(a[1..], b);
    }
  }

  function Shown(o: Option<string>): nat {
    if o.Some? && o.value != "" then 1 else 0
  }

  function CountShown(parts: seq<Option<string>>): nat {
    if parts == [] then 0 else Shown(parts[0]) + CountShown(parts[1..])
  }

  lemma {:induction false} CompactLength(parts: seq<Option<string>>)
    ensures |Compact(parts)| == CountShown(parts)
  {
    if parts != [] { CompactLength(parts[1..]); }
  }

  lemma CountShownStep(p: seq<Option<string>>, k: nat)
    requires k < |p|
    ensures CountShown(p[k..]) == Shown(p[k]) + CountShown(p[k + 1..])
  {
    assert p[k..][1..] == p[k + 1..];
  }

  /** The number of lines kept from an eight-line template. */
  lemma Compact8(p: seq<Option<string>>)
    requires |p| == 8
    ensures |Compact(p)| == Shown(p[0]) + Shown(p[1]) + Shown(p[2]) + Shown(p[3]) +
      Shown(p[4]) + Shown(p[5]) + Shown(p[6]) + Shown(p[7])
    ensures Shown(p[0]) == 1 ==> Compact(p)[0] == p[0].value
  {
    CompactLength(p);
    assert p[0..] == p;
    CountShownStep(p, 0); CountShownStep(p, 1); CountShownStep(p, 2); CountShownStep(p, 3);
    CountShownStep(p, 4); CountShownStep(p, 5); CountShownStep(p, 6); CountShownStep(p, 7);
    assert p[8..] == [];
  }

  // ---- formatPackage ----

  /** latest_version, else latest_release_number, else "Unknown". */
  function LatestVersion(pkg: Value): (r: Value)
    ensures Truthy(Get(pkg, "latest_version")) ==> r == Get(pkg, "latest_version")
    ensures !Truthy(Get(pkg, "latest_version")) && Truthy(Get(pkg, "latest_release_number")) ==>
      r == Get(pkg, "latest_release_number")
    ensures !Truthy(Get(pkg, "latest_version")) && !Truthy(Get(pkg, "latest_release_number")) ==>
      r == Str("Unknown")
    ensures Truthy(r)
  {
    Or(Or(Get(pkg, "latest_version"), Get(pkg, "latest_release_number")), Str("Unknown"))
  }

  function PackageHeader(pkg: Value): string {
    ToText(Get(pkg, "ecosystem")) + "/" + ToText(Get(pkg, "name"))
  }

  function PackageParts(pkg: Value): seq<Option<string>> {
    var description := Get(pkg, "description");
    var dependents := Get(pkg, "dependent_packages_count");
    var repository := Get(pkg, "repository_url");
    var homepage := Get(pkg, "homepage");
    [ Some(PackageHeader(pkg)),
      When(Truthy(description), "  " + ToText(description)),
      Some("  License: " + ToText(Or(Get(pkg, "licenses"), Str("Unknown")))),
      Some("  Latest: " + ToText(LatestVersion(pkg))),
      Some("  Downloads: " + FormatNumber(Get(pkg, "downloads"))),
      When(Truthy(dependents), "  Dependents: " + FormatNumber(dependents) + " packages"),
      When(Truthy(repository), "  Repository: " + ToText(repository)),
      When(Truthy(homepage), "  Homepage: " + ToText(homepage)) ]
  }

  function PackageLines(pkg: Value): seq<string> {
    Compact(PackageParts(pkg))
  }

  function FormatPackage(pkg: Value): string {
    Join(PackageLines(pkg), "\n")
  }

  /** The header, license, latest and downloads lines are always there, in that
      order; each of description, dependents, repository and homepage adds a
      line exactly when the field is truthy. */
  lemma PackageLinesShape(pkg: Value)
    ensures |PackageLines(pkg)| == 4 + Ones(Truthy(Get(pkg, "description"))) +
      Ones(Truthy(Get(pkg, "dependent_packages_count"))) + Ones(Truthy(Get(pkg, "repository_url"))) +
      Ones(Truthy(Get(pkg, "homepage")))
    ensures PackageLines(pkg)[0] == PackageHeader(pkg)
  {
    var p := PackageParts(pkg);
    Compact8(p);
    assert Shown(p[0]) == 1 by { assert PackageHeader(pkg) != ""; }
  }

  /** The latest-version line is always present. */
  lemma PackageLatestLine(pkg: Value)
    ensures "  Latest: " + ToText(LatestVersion(pkg)) in PackageLines(pkg)
  {
    var p := PackageParts(pkg);
    assert p[3] == Some("  Latest: " + ToText(LatestVersion(pkg)));
  }

  /** The rendering opens with ecosystem/name. */
  lemma FormatPackageHeader(pkg: Value)
    ensures StartsWith(FormatPackage(pkg), PackageHeader(pkg))
  {
    PackageLinesShape(pkg);
    var lines := PackageLines(pkg);
    if |lines| > 1 {
      assert Join(lines, "\n") == lines[0] + "\n" + Join(lines[1..], "\n");
    }
  }

  // ---- formatVersions ----

  /** published_at up to its first 'T', or "unknown date" when absent. */
  function VersionDate(v: Value): (date: string)
    ensures Truthy(Get(v, "published_at")) ==>
      StartsWith(ToText(Get(v, "published_at")), date) && 'T' !in date
    ensures Truthy(Get(v, "published_at")) ==>
      |date| == |ToText(Get(v, "published_at"))| || ToText(Get(v, "published_at"))[|date|] == 'T'
    ensures !Truthy(Get(v, "published_at")) ==> date == "unknown date"
  {
    var published := Get(v, "published_at");
    if Truthy(published) then Before(ToText(published), 'T') else "unknown date"
  }

  function VersionLine(v: Value): string {
    "  " + ToText(Get(v, "number")) + " (" + VersionDate(v) + ")"
  }

  function MapLines(xs: seq<Value>, line: Value -> string): (r: seq<string>)
    ensures |r| == |xs|
    ensures forall i :: 0 <= i < |xs| ==> r[i] == line(xs[i])
  {
    seq(|xs|, i requires 0 <= i < |xs| => line(xs[i]))
  }

  /** The shown lines and, past the limit, one overflow line. */
  function ListLines(xs: seq<Value>, limit: nat, line: Value -> string, overflow: string): (r: seq<string>)
    ensures |r| == Min(|xs|, limit) + Ones(|xs| > limit)
    ensures forall i :: 0 <= i < Min(|xs|, limit) ==> r[i] == line(xs[i])
    ensures |xs| > limit ==> r[|r| - 1] == overflow
  {
    MapLines(xs[..Min(|xs|, limit)], line) + (if |xs| > limit then [overflow] else [])
  }

  function VersionLines(versions: seq<Value>, limit: nat): seq<string> {
    ListLines(versions, limit, VersionLine, "  ... and " + IntToString(|versions| - limit) + " more versions")
  }

  function FormatVersions(versions: seq<Value>, limit: nat): (r: string)
    ensures versions == [] <==> r == "No versions found."
  {
    if versions == [] then "No versions found."
    else
      var lines := VersionLines(versions, limit);
      if |lines| == 1 then
        assert ')' in VersionLine(versions[0]) && ')' !in "No versions found.";
        lines[0]
      else
        assert Join(lines, "\n") == lines[0] + "\n" + Join(lines[1..], "\n");
        assert '\n' in Join(lines, "\n") && '\n' !in "No versions found.";
        Join(lines, "\n")
  }

  predicate OneLine(s: string) { '\n' !in s }

  /** Without line breaks in the fields, the output has one line per shown
      version, plus the overflow line exactly when there are more than limit. */
  lemma FormatVersionsLineCount(versions: seq<Value>, limit: nat)
    requires versions != [] && limit > 0
    requires forall i :: 0 <= i < |versions| ==>
      OneLine(ToText(Get(versions[i], "number"))) && OneLine(ToText(Get(versions[i], "published_at")))
    ensures Count(FormatVersions(versions, limit), '\n') + 1 == Min(|versions|, limit) + Ones(|versions| > limit)
  {
    var lines := VersionLines(versions, limit);
    forall i | 0 <= i < |lines|
      ensures '\n' !in lines[i]
    {
      if i < Min(|versions|, limit) {
        VersionLineOneLine(versions[i]);
      } else {
        OverflowOneLine("  ... and ", |versions| - limit, " more versions");
      }
    }
    JoinLineCount(lines);
  }

  lemma VersionLineOneLine(v: Value)
    requires OneLine(ToText(Get(v, "number"))) && OneLine(ToText(Get(v, "published_at")))
    ensures OneLine(VersionLine(v))
  {
    var d := VersionDate(v);
    if Truthy(Get(v, "published_at")) {
      assert d == ToText(Get(v, "published_at"))[..|d|];
    }
  }

  lemma {:induction false} DigitsOneLine(s: string)
    requires IsDigits(s)
    ensures OneLine(s)
  {
  }

  lemma OverflowOneLine(before: string, n: int, after: string)
    requires OneLine(before) && OneLine(after)
    ensures OneLine(before + IntToString(n) + after)
  {
    var digits := NatToString(if n < 0 then -n else n);
    DigitsOneLine(digits);
    assert IntToString(n) == digits || IntToString(n) == "-" + digits;
  }

  // ---- formatSearchResults ----

  /** The first 80 characters of a description, as slice(0, 80). */
  function Clip(s: string): (r: string)
    ensures |r| <= DescriptionWidth
    ensures StartsWith(s, r)
    ensures |s| <= DescriptionWidth ==> r == s
    ensures |s| > DescriptionWidth ==> r == s[..DescriptionWidth]
  {
    if |s| <= DescriptionWidth then s else s[..DescriptionWidth]
  }

  function SearchLine(result: Value): string {
    var description := Get(result, "description");
    ToText(Get(result, "ecosystem")) + "/" + ToText(Get(result, "name")) +
      (if Truthy(description) then " - " + Clip(ToText(description)) else "")
  }

  function SearchLines(results: seq<Value>, limit: nat): seq<string> {
    ListLines(results, limit, SearchLine, "... and " + IntToString(|results| - limit) + " more results")
  }

  function FormatSearchResults(results: seq<Value>, limit: nat): (r: string)
    ensures results == [] ==> r == "No packages found."
  {
    if results == [] then "No packages found." else Join(SearchLines(results, limit), "\n")
  }

  /** A result line is its ecosystem/name, then at most 80 description characters. */
  lemma SearchLineWidth(result: Value)
    ensures StartsWith(SearchLine(result), ToText(Get(result, "ecosystem")) + "/" + ToText(Get(result, "name")))
    ensures |SearchLine(result)| <= |ToText(Get(result, "ecosystem")) + "/" + ToText(Get(result, "name"))| + 3 + DescriptionWidth
  {
  }

  lemma FormatSearchResultsLineCount(results: seq<Value>, limit: nat)
    requires results != [] && limit > 0
    requires forall i :: 0 <= i < |results| ==>
      OneLine(SearchLine(results[i]))
    ensures Count(FormatSearchResults(results, limit), '\n') + 1 == Min(|results|, limit) + Ones(|results| > limit)
  {
    var lines := SearchLines(results, limit);
    forall i | Min(|results|, limit) <= i < |lines|
      ensures '\n' !in lines[i]
    {
      OverflowOneLine("... and ", |results| - limit, " more results");
    }
    JoinLineCount(lines);
  }

  // ---- formatAdvisories ----

  /** The elements of xs without repeats, each at its first occurrence
      ([...new Set(xs)]). */
  function Dedupe(xs: seq<Value>): (r: seq<Value>)
    ensures forall x :: x in r <==> x in xs
    ensures |r| <= |xs|
  {
    if xs == [] then []
    else
      var d := Dedupe(xs[..|xs| - 1]);
      assert xs == xs[..|xs| - 1] + [xs[|xs| - 1]];
      if xs[|xs| - 1] in d then d else d + [xs[|xs| - 1]]
  }

  predicate NoRepeats(xs: seq<Value>) {
    forall i, j :: 0 <= i < j < |xs| ==> xs[i] != xs[j]
  }

  /** Position of the first occurrence of x. */
  function FirstAt(xs: seq<Value>, x: Value): (k: nat)
    requires x in xs
    ensures k < |xs| && xs[k] == x && x !in xs[..k]
  {
    if xs[0] == x then 0
    else
      var k := FirstAt(xs[1..], x);
      assert xs[..k + 1] == [xs[0]] + xs[1..][..k];
      k + 1
  }

  lemma FirstAtPrefix(xs: seq<Value>, n: nat, x: Value)
    requires n <= |xs| && x in xs[..n]
    ensures FirstAt(xs, x) == FirstAt(xs[..n], x)
  {
    var k := FirstAt(xs[..n], x);
    assert xs[..n][..k] == xs[..k];
  }

  /** No value twice, and values appear in the order of their first occurrence. */
  lemma {:induction false} DedupeOrder(xs: seq<Value>)
    ensures NoRepeats(Dedupe(xs))
    ensures forall i, j :: 0 <= i < j < |Dedupe(xs)| ==>
      Dedupe(xs)[i] in xs && Dedupe(xs)[j] in xs && FirstAt(xs, Dedupe(xs)[i]) < FirstAt(xs, Dedupe(xs)[j])
  {
    if xs != [] {
      var init := xs[..|xs| - 1];
      var last := xs[|xs| - 1];
      DedupeOrder(init);
      var d := Dedupe(init);
      assert xs[..|xs| - 1] == init;
      forall y | y in d
        ensures y in xs && FirstAt(xs, y) == FirstAt(init, y) < |xs| - 1
      {
        FirstAtPrefix(xs, |xs| - 1, y);
      }
      if last !in d {
        assert last !in init;
        assert FirstAt(xs, last) == |xs| - 1;
        var r := d + [last];
        forall i, j | 0 <= i < j < |r|
          ensures r[i] != r[j] && FirstAt(xs, r[i]) < FirstAt(xs, r[j])
        {
          assert r[i] == d[i];
          if j < |d| {
            assert r[j] == d[j];
          } else {
            assert d[i] in d;
          }
        }
      }
    }
  }

  /** The truthy values of field across the affected-version entries. */
  function Truthful(vs: seq<Value>, field: string): (r: seq<Value>)
    ensures forall x :: x in r ==> Truthy(x)
  {
    if vs == [] then []
    else (if Truthy(Get(vs[0], field)) then [Get(vs[0], field)] else []) + Truthful(vs[1..], field)
  }

  function AffectedVersions(a: Value): seq<Value> {
    AsList(Or(Get(At(Get(a, "packages"), 0), "versions"), Arr([])))
  }

  function TextList(xs: seq<Value>, sep: string): string {
    Join(seq(|xs|, i requires 0 <= i < |xs| => ElementText(xs[i])), sep)
  }

  /** The "Affected" and "Fixed in" lines of one advisory. */
  function RangeLines(vs: seq<Value>): seq<string> {
    if |vs| == 1 then
      var v := vs[0];
      var range := Get(v, "vulnerable_version_range");
      var fix := Get(v, "first_patched_version");
      (if Truthy(range) then ["  Affected: " + ToText(range)] else []) +
      (if Truthy(fix) then ["  Fixed in: " + ToText(fix)] else [])
    else if |vs| > 1 then
      var ranges := TextList(Truthful(vs, "vulnerable_version_range"), " OR ");
      var fixes := Dedupe(Truthful(vs, "first_patched_version"));
      (if ranges != "" then ["  Affected: " + ranges] else []) +
      (if fixes != [] then ["  Fixed in: " + TextList(fixes, ", ")] else [])
    else []
  }

  function AdvisoryBlock(a: Value): string {
    var title := "[" + ToText(Get(a, "severity")) + "] " + ToText(Get(a, "title"));
    Join([title] + RangeLines(AffectedVersions(a)) + ["  " + ToText(Or(Get(a, "url"), Get(a, "uuid")))], "\n")
  }

  /** Every block opens with severity and title and ends with the URL, or the
      uuid when there is no URL. */
  lemma AdvisoryBlockEnds(a: Value)
    ensures StartsWith(AdvisoryBlock(a), "[" + ToText(Get(a, "severity")) + "] " + ToText(Get(a, "title")))
    ensures Truthy(Get(a, "url")) ==> EndsWith(AdvisoryBlock(a), "  " + ToText(Get(a, "url")))
    ensures !Truthy(Get(a, "url")) ==> EndsWith(AdvisoryBlock(a), "  " + ToText(Get(a, "uuid")))
  {
    var title := "[" + ToText(Get(a, "severity")) + "] " + ToText(Get(a, "title"));
    var parts := [title] + RangeLines(AffectedVersions(a)) + ["  " + ToText(Or(Get(a, "url"), Get(a, "uuid")))];
    JoinLast(parts, "\n");
    assert parts[0] == title;
    assert Join(parts, "\n") == title + "\n" + Join(parts[1..], "\n");
  }

  /** With several affected ranges, the fixes line lists each truthy fix once,
      in first-occurrence order. */
  lemma FixesDeduplicated(a: Value)
    requires |AffectedVersions(a)| > 1
    requires Truthful(AffectedVersions(a), "first_patched_version") != []
    ensures "  Fixed in: " + TextList(Dedupe(Truthful(AffectedVersions(a), "first_patched_version")), ", ")
      in RangeLines(AffectedVersions(a))
    ensures NoRepeats(Dedupe(Truthful(AffectedVersions(a), "first_patched_version")))
  {
    var fixes := Truthful(AffectedVersions(a), "first_patched_version");
    DedupeOrder(fixes);
    assert fixes[0] in Dedupe(fixes);
  }

  function AdvisoryLines(advisories: seq<Value>, limit: nat): seq<string> {
    ListLines(advisories, limit, AdvisoryBlock, "... and " + IntToString(|advisories| - limit) + " more advisories")
  }

  function FormatAdvisories(advisories: seq<Value>, limit: nat): (r: string)
    ensures advisories == [] ==> r == "No known security advisories."
  {
    if advisories == [] then "No known security advisories."
    else Join(AdvisoryLines(advisories, limit), "\n\n")
  }

  /** The overflow line closes the text exactly when there are more than limit advisories. */
  lemma AdvisoriesOverflow(advisories: seq<Value>, limit: nat)
    requires |advisories| > limit
    ensures EndsWith(FormatAdvisories(advisories, limit),
      "... and " + IntToString(|advisories| - limit) + " more advisories")
  {
    JoinLast(AdvisoryLines(advisories, limit), "\n\n");
  }

  // ---- formatRepo ----

  /** `typeof repo.host === 'object' ? repo.host?.name : repo.host` (null
      and arrays are objects too). */
  function HostName(repo: Value): (r: Value)
    ensures Get(repo, "host").Obj? ==> r == Get(Get(repo, "host"), "name")
    ensures !Get(repo, "host").Obj? && !Get(repo, "host").Arr? && !Get(repo, "host").Null? ==> r == Get(repo, "host")
  {
    var host := Get(repo, "host");
    match host
    case Obj(_) => Get(host, "name")
    case Arr(_) => Undefined
    case Null => Undefined
    case _ => host
  }

  /** An optional line: tag + text when field is truthy. */
  function Labelled(field: Value, tag: string, text: string): Option<string> {
    When(Truthy(field), tag + text)
  }

  function RepoParts(repo: Value): seq<Option<string>> {
    var fullName := Get(repo, "full_name");
    var host := HostName(repo);
    var language := Get(repo, "language");
    var stars := Get(repo, "stargazers_count");
    var forks := Get(repo, "forks_count");
    var issues := Get(repo, "open_issues_count");
    [ Labelled(fullName, "", ToText(fullName)),
      Labelled(host, "  Host: ", ToText(host)),
      Labelled(language, "  Language: ", ToText(language)),
      Labelled(stars, "  Stars: ", FormatNumber(stars)),
      Labelled(forks, "  Forks: ", FormatNumber(forks)),
      Labelled(issues, "  Open Issues: ", ToText(issues)),
      Labelled(Get(repo, "archived"), "  Status: Archived", ""),
      Labelled(Get(repo, "fork"), "  (Fork)", "") ]
  }

  function FormatRepo(repo: Value, repoUrl: Value): (r: string)
    ensures !Truthy(repo) && Truthy(repoUrl) ==> r == "Repository: " + ToText(repoUrl)
    ensures !Truthy(repo) && !Truthy(repoUrl) ==> r == "No repository metadata available."
  {
    if !Truthy(repo) then
      (if Truthy(repoUrl) then "Repository: " + ToText(repoUrl) else "No repository metadata available.")
    else Join(Compact(RepoParts(repo)), "\n")
  }

  /** With metadata, there is one line per truthy field (a full_name that
      renders as "" gives none). */
  lemma RepoLineCount(repo: Value)
    ensures |Compact(RepoParts(repo))| ==
      Ones(Truthy(Get(repo, "full_name")) && ToText(Get(repo, "full_name")) != "") +
      Ones(Truthy(HostName(repo))) + Ones(Truthy(Get(repo, "language"))) +
      Ones(Truthy(Get(repo, "stargazers_count"))) + Ones(Truthy(Get(repo, "forks_count"))) +
      Ones(Truthy(Get(repo, "open_issues_count"))) + Ones(Truthy(Get(repo, "archived"))) +
      Ones(Truthy(Get(repo, "fork")))
  {
    Compact8(RepoParts(repo));
    var host := HostName(repo);
    LabelledShown(host, "  Host: ", ToText(host));
    LabelledShown(Get(repo, "language"), "  Language: ", ToText(Get(repo, "language")));
    LabelledShown(Get(repo, "stargazers_count"), "  Stars: ", FormatNumber(Get(repo, "stargazers_count")));
    LabelledShown(Get(repo, "forks_count"), "  Forks: ", FormatNumber(Get(repo, "forks_count")));
    LabelledShown(Get(repo, "open_issues_count"), "  Open Issues: ", ToText(Get(repo, "open_issues_count")));
    LabelledShown(Get(repo, "archived"), "  Status: Archived", "");
    LabelledShown(Get(repo, "fork"), "  (Fork)", "");
  }

  lemma LabelledShown(field: Value, tag: string, text: string)
    requires tag != ""
    ensures Shown(Labelled(field, tag, text)) == Ones(Truthy(field))
  {
  }

  /** The archived and fork flags, and an object host's name, appear when set. */
  lemma RepoFlagLines(repo: Value)
    ensures Truthy(Get(repo, "archived")) ==> "  Status: Archived" in Compact(RepoParts(repo))
    ensures Truthy(Get(repo, "fork")) ==> "  (Fork)" in Compact(RepoParts(repo))
    ensures Get(repo, "host").Obj? && Truthy(Get(Get(repo, "host"), "name")) ==>
      "  Host: " + ToText(Get(Get(repo, "host"), "name")) in Compact(RepoParts(repo))
  {
    var p := RepoParts(repo);
    assert "  Status: Archived" + "" == "  Status: Archived" && "  (Fork)" + "" == "  (Fork)";
    assert Truthy(Get(repo, "archived")) ==> p[6] == Some("  Status: Archived");
    assert Truthy(Get(repo, "fork")) ==> p[7] == Some("  (Fork)");
    assert Get(repo, "host").Obj? ==> p[1] == Labelled(HostName(repo), "  Host: ", ToText(HostName(repo)));
  }
}
