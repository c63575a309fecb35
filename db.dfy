/** The local store connector of lib/db.js: choosing the snapshot file, and
    every query as a filter over in-memory rows. A query made while no
    snapshot is loaded answers None (the source's null). */
module Db {

  import opened Wrappers
  import opened Text
  import opened Values
  import opened Sorting

  /** A row, column name to value; a column the row lacks reads as NULL. */
  type Row = map<string, Value>

  /** A loaded snapshot: the tables the queries read, in storage order, and the
      full-text index as a predicate "this packages row matches this MATCH
      expression". */
  datatype Store = Store(
    packages: seq<Row>,
    versions: seq<Row>,
    advisories: seq<Row>,
    repoMetadata: seq<Row>,
    buildInfo: seq<Row>,
    ftsMatch: (string, Row) -> bool)

  const PackageColumns: seq<string> := [
    "id", "ecosystem", "name", "purl", "namespace", "description", "homepage",
    "repository_url", "licenses", "normalized_licenses", "latest_version",
    "versions_count", "downloads", "downloads_period", "dependent_packages_count",
    "dependent_repos_count", "first_release_at", "latest_release_at"]
  const VersionColumns: seq<string> := ["number", "purl", "licenses", "integrity", "published_at", "download_url"]
  const AdvisoryColumns: seq<string> := ["uuid", "url", "title", "description", "severity", "cvss_score", "published_at"]
  const RepoColumns: seq<string> := [
    "owner", "repo_name", "full_name", "host", "language",
    "stargazers_count", "forks_count", "open_issues_count", "archived", "fork"]
  const SearchColumns: seq<string> := [
    "ecosystem", "name", "description", "licenses", "downloads",
    "dependent_packages_count", "repository_url"]
  const DefaultSearchLimit := 20

  function Col(r: Row, c: string): Value {
    if c in r then r[c] else Null
  }

  /** SELECT of the listed columns. */
  function Project(r: Row, cols: seq<string>): (p: Row)
    ensures forall c :: c in p <==> c in cols
    ensures forall c :: c in cols ==> p[c] == Col(r, c)
  {
    map c | c in cols :: Col(r, c)
  }

  /** `column = ?`: a NULL on either side is never equal. */
  predicate SqlEq(column: Value, param: Value) {
    column != Null && column != Undefined && param != Null && param != Undefined && column == param
  }

  /** The first row satisfying p, in storage order (`.get()`). */
  function FirstIndex(rows: seq<Row>, p: Row -> bool): (r: Option<nat>)
    ensures r.Some? ==> r.value < |rows| && p(rows[r.value]) && forall j :: 0 <= j < r.value ==> !p(rows[j])
    ensures r.None? ==> forall j :: 0 <= j < |rows| ==> !p(rows[j])
  {
    if rows == [] then None
    else if p(rows[0]) then Some(0)
    else match FirstIndex(rows[1..], p)
      case None => None
      case Some(k) => assert forall j :: 1 <= j <= k ==> rows[j] == rows[1..][j - 1]; Some(k + 1)
  }

  /** All rows satisfying p, in storage order (`.all()`). */
  function Where(rows: seq<Row>, p: Row -> bool): (r: seq<Row>)
    ensures |r| <= |rows|
    ensures forall x :: x in r <==> x in rows && p(x)
    ensures forall x :: multiset(r)[x] == if p(x) then multiset(rows)[x] else 0
  {
    if rows == [] then []
    else
      assert rows == [rows[0]] + rows[1..];
      (if p(rows[0]) then [rows[0]] else []) + Where(rows[1..], p)
  }

  function ProjectAll(rows: seq<Row>, cols: seq<string>): (r: seq<Row>)
    ensures |r| == |rows|
    ensures forall i :: 0 <= i < |rows| ==> r[i] == Project(rows[i], cols)
  {
    seq(|rows|, i requires 0 <= i < |rows| => Project(rows[i], cols))
  }

  /** A point query: the projection of the first matching row, if any. */
  function PointQuery(rows: seq<Row>, p: Row -> bool, cols: seq<string>): (r: Option<Row>)
    ensures r.None? <==> forall i :: 0 <= i < |rows| ==> !p(rows[i])
    ensures r.Some? ==>
      exists i :: 0 <= i < |rows| && p(rows[i]) && r.value == Project(rows[i], cols) &&
                  (forall j :: 0 <= j < i ==> !p(rows[j]))
  {
    match FirstIndex(rows, p)
    case None => None
    case Some(i) => Some(Project(rows[i], cols))
  }

  predicate PackageIs(ecosystem: Value, name: Value, r: Row) {
    SqlEq(Col(r, "ecosystem"), ecosystem) && SqlEq(Col(r, "name"), name)
  }

  /** SELECT ... FROM packages WHERE ecosystem = ? AND name = ? */
  function GetPackageFromDb(db: Option<Store>, ecosystem: Value, name: Value): (r: Option<Option<Row>>)
    ensures r.None? <==> db.None?
    ensures r.Some? && r.value.None? <==>
      db.Some? && forall i :: 0 <= i < |db.value.packages| ==> !PackageIs(ecosystem, name, db.value.packages[i])
    ensures r.Some? && r.value.Some? ==>
      Col(r.value.value, "ecosystem") == ecosystem && Col(r.value.value, "name") == name &&
      ecosystem != Null && ecosystem != Undefined
    ensures r.Some? && r.value.Some? ==>
      exists i :: 0 <= i < |db.value.packages| &&
                  PackageIs(ecosystem, name, db.value.packages[i]) && r.value.value == Project(db.value.packages[i], PackageColumns) &&
                  (forall j :: 0 <= j < i ==> !PackageIs(ecosystem, name, db.value.packages[j]))
  {
    if db.None? then None
    else
      var row := PointQuery(db.value.packages, (r: Row) => PackageIs(ecosystem, name, r), PackageColumns);
      assert "ecosystem" in PackageColumns && "name" in PackageColumns;
      Some(row)
  }

  predicate PurlIs(purl: Value, r: Row) {
    SqlEq(Col(r, "purl"), purl)
  }

  /** SELECT ... FROM packages WHERE purl = ? */
  function GetPackageByPurl(db: Option<Store>, purl: Value): (r: Option<Option<Row>>)
    ensures r.None? <==> db.None?
    ensures r.Some? && r.value.None? <==>
      db.Some? && forall i :: 0 <= i < |db.value.packages| ==> !PurlIs(purl, db.value.packages[i])
    ensures r.Some? && r.value.Some? ==> Col(r.value.value, "purl") == purl && purl != Null
    ensures r.Some? && r.value.Some? ==>
      exists i :: 0 <= i < |db.value.packages| &&
                  PurlIs(purl, db.value.packages[i]) && r.value.value == Project(db.value.packages[i], PackageColumns) &&
                  (forall j :: 0 <= j < i ==> !PurlIs(purl, db.value.packages[j]))
  {
    if db.None? then None
    else
      var row := PointQuery(db.value.packages, (r: Row) => PurlIs(purl, r), PackageColumns);
      assert "purl" in PackageColumns;
      Some(row)
  }

  predicate OfPackage(packageId: Value, r: Row) {
    SqlEq(Col(r, "package_id"), packageId)
  }

  /** The order of ORDER BY published_at DESC on a TEXT column: later dates
      first, and NULL (smaller than any text in SQLite) last. */
  function Published(r: Row): Option<string> {
    match Col(r, "published_at")
    case Str(s) => Some(s)
    case _ => None
  }

  predicate NewerFirst(a: Row, b: Row) {
    match (Published(a), Published(b))
    case (Some(x), Some(y)) => LexLess(y, x)
    case (Some(_), None) => true
    case _ => false
  }

  lemma NewerFirstIsOrder()
    ensures StrictWeakOrder(NewerFirst)
  {
    forall a: Row
      ensures !NewerFirst(a, a)
    {
      if Published(a).Some? { LexLessIrreflexive(Published(a).value); }
    }
    forall a: Row, b: Row, c: Row | NewerFirst(a, b) && NewerFirst(b, c)
      ensures NewerFirst(a, c)
    {
      if Published(c).Some? {
        LexLessTransitive(Published(c).value, Published(b).value, Published(a).value);
      }
    }
    forall a: Row, b: Row, c: Row | NewerFirst(a, c)
      ensures NewerFirst(a, b) || NewerFirst(b, c)
    {
      if Published(b).Some? && Published(c).Some? {
        var x, y, z := Published(a).value, Published(b).value, Published(c).value;
        LexLessTotal(x, y);
        if LexLess(x, y) { LexLessTransitive(z, x, y); }
      }
    }
  }

  /** SELECT ... FROM versions WHERE package_id = ? ORDER BY published_at DESC */
  function GetVersionsFromDb(db: Option<Store>, packageId: Value): (r: Option<seq<Row>>)
    ensures r.None? <==> db.None?
    ensures r.Some? ==> |r.value| <= |db.value.versions|
  {
    if db.None? then None
    else
      var rows := ProjectAll(Where(db.value.versions, (r: Row) => OfPackage(packageId, r)), VersionColumns);
      Some(Sort(rows, NewerFirst))
  }

  /** The versions of a package are its version rows, newest first. */
  lemma VersionsOrdered(store: Store, packageId: Value)
    ensures Sorted(GetVersionsFromDb(Some(store), packageId).value, NewerFirst)
    ensures multiset(GetVersionsFromDb(Some(store), packageId).value) ==
      multiset(ProjectAll(Where(store.versions, (r: Row) => OfPackage(packageId, r)), VersionColumns))
  {
    var rows := ProjectAll(Where(store.versions, (r: Row) => OfPackage(packageId, r)), VersionColumns);
    NewerFirstIsOrder();
    SortSorted(rows, NewerFirst);
    SortPermutes(rows, NewerFirst);
  }

  /** SELECT ... FROM advisories WHERE package_id = ? */
  function GetAdvisoriesFromDb(db: Option<Store>, packageId: Value): (r: Option<seq<Row>>)
    ensures r.None? <==> db.None?
    ensures r.Some? ==> forall i :: 0 <= i < |r.value| ==>
      exists row :: row in db.value.advisories && OfPackage(packageId, row) && r.value[i] == Project(row, AdvisoryColumns)
    ensures r.Some? ==> r.value == ProjectAll(AdvisoryRows(db.value, packageId), AdvisoryColumns)
  {
    if db.None? then None
    else
      var matching := AdvisoryRows(db.value, packageId);
      var r := ProjectAll(matching, AdvisoryColumns);
      assert forall i :: 0 <= i < |r| ==> matching[i] in matching && r[i] == Project(matching[i], AdvisoryColumns);
      Some(r)
  }

  /** The advisory rows of a package, in storage order. */
  function AdvisoryRows(store: Store, packageId: Value): seq<Row> {
    Where(store.advisories, (r: Row) => OfPackage(packageId, r))
  }

  /** No advisory of the package is left out, and each is reported once per row. */
  lemma AdvisoriesComplete(store: Store, packageId: Value)
    ensures forall row :: row in store.advisories && OfPackage(packageId, row) ==>
      Project(row, AdvisoryColumns) in GetAdvisoriesFromDb(Some(store), packageId).value
    ensures |GetAdvisoriesFromDb(Some(store), packageId).value| == |AdvisoryRows(store, packageId)|
  {
    var matching := AdvisoryRows(store, packageId);
    forall row | row in store.advisories && OfPackage(packageId, row)
      ensures Project(row, AdvisoryColumns) in GetAdvisoriesFromDb(Some(store), packageId).value
    {
      assert row in matching;
      var i :| 0 <= i < |matching| && matching[i] == row;
      assert ProjectAll(matching, AdvisoryColumns)[i] == Project(row, AdvisoryColumns);
    }
  }

  /** SELECT ... FROM repo_metadata WHERE package_id = ? */
  function GetRepoMetadataFromDb(db: Option<Store>, packageId: Value): (r: Option<Option<Row>>)
    ensures r.None? <==> db.None?
    ensures r.Some? && r.value.None? <==>
      db.Some? && forall i :: 0 <= i < |db.value.repoMetadata| ==> !OfPackage(packageId, db.value.repoMetadata[i])
    ensures r.Some? && r.value.Some? ==>
      exists i :: 0 <= i < |db.value.repoMetadata| &&
                  OfPackage(packageId, db.value.repoMetadata[i]) && r.value.value == Project(db.value.repoMetadata[i], RepoColumns) &&
                  (forall j :: 0 <= j < i ==> !OfPackage(packageId, db.value.repoMetadata[j]))
  {
    if db.None? then None
    else Some(PointQuery(db.value.repoMetadata, (r: Row) => OfPackage(packageId, r), RepoColumns))
  }

  // ---- Full-text search and its query quoting ----

  /** query.replace(/"/g, '""') */
  function Doubled(q: string): (r: string)
    ensures |r| == |q| + Count(q, '"')
  {
    if q == [] then []
    else (if q[0] == '"' then "\"\"" else [q[0]]) + Doubled(q[1..])
  }

  /** The MATCH expression: the whole query as one FTS5 string. */
  function FtsQuote(q: string): (r: string)
    ensures |r| == |q| + Count(q, '"') + 2
    ensures r[0] == '"' && r[|r| - 1] == '"'
  {
    "\"" + Doubled(q) + "\""
  }

  /** The body of an FTS5 string, "" read as one quote; None if a lone quote
      would end the string early. */
  function Undoubled(s: string): Option<string>
  {
    if s == [] then Some([])
    else if s[0] == '"' then
      if |s| >= 2 && s[1] == '"' then
        match Undoubled(s[2..]) case None => None case Some(t) => Some("\"" + t)
      else None
    else match Undoubled(s[1..]) case None => None case Some(t) => Some([s[0]] + t)
  }

  /** How FTS5 reads a string token that spans the whole expression. */
  function FtsUnquote(r: string): Option<string>
  {
    if |r| >= 2 && r[0] == '"' && r[|r| - 1] == '"' then Undoubled(r[1..|r| - 1]) else None
  }

  /** Inside the quotes, quote characters come only in adjacent pairs. */
  predicate QuotesPaired(s: string)
  {
    if s == [] then true
    else if s[0] == '"' then |s| >= 2 && s[1] == '"' && QuotesPaired(s[2..])
    else QuotesPaired(s[1..])
  }

  lemma {:induction false} UndoubledDoubled(q: string)
    ensures Undoubled(Doubled(q)) == Some(q)
    ensures QuotesPaired(Doubled(q))
  {
    if q != [] {
      UndoubledDoubled(q[1..]);
      var d := Doubled(q);
      if q[0] == '"' {
        assert d[2..] == Doubled(q[1..]);
      } else {
        assert d[1..] == Doubled(q[1..]);
      }
      assert q == [q[0]] + q[1..];
    }
  }

  lemma {:induction false} DoubledUndoubled(s: string, q: string)
    requires Undoubled(s) == Some(q)
    ensures Doubled(q) == s
  {
    if s != [] {
      if s[0] == '"' {
        var t := Undoubled(s[2..]).value;
        DoubledUndoubled(s[2..], t);
        assert q == "\"" + t;
        assert q[1..] == t;
        assert s == "\"\"" + s[2..];
      } else {
        var t := Undoubled(s[1..]).value;
        DoubledUndoubled(s[1..], t);
        assert q[1..] == t;
        assert s == [s[0]] + s[1..];
      }
    }
  }

  /** Quoting is undone exactly by the FTS5 string reading, and only quoted
      queries read back; so hyphens and other operators stay literal. */
  lemma FtsQuoteRoundTrip(q: string)
    ensures FtsUnquote(FtsQuote(q)) == Some(q)
    ensures QuotesPaired(FtsQuote(q)[1..|FtsQuote(q)| - 1])
  {
    var r := FtsQuote(q);
    assert r[1..|r| - 1] == Doubled(q);
    UndoubledDoubled(q);
  }

  lemma FtsUnquoteInverse(r: string, q: string)
    requires FtsUnquote(r) == Some(q)
    ensures FtsQuote(q) == r
  {
    var body := r[1..|r| - 1];
    DoubledUndoubled(body, q);
    assert r[..1] == "\"" && r[|r| - 1..] == "\"";
    assert r == r[..1] + body + r[|r| - 1..];
  }

  lemma {:induction false} DoubledNoQuote(q: string)
    requires '"' !in q
    ensures Doubled(q) == q
  {
    if q != [] {
      DoubledNoQuote(q[1..]);
      assert q == [q[0]] + q[1..];
    }
  }

  /** A hyphenated name is searched as one phrase, not as a NOT expression. */
  lemma FtsQuoteHyphen()
    ensures FtsQuote("better-sqlite3") == "\"" + "better-sqlite3" + "\""
  {
    DoubledNoQuote("better-sqlite3");
  }

  lemma FtsQuoteEmbedded()
    ensures FtsQuote("a\"b") == "\"a\"\"b\""
  {
    assert Doubled("b") == "b";
    assert Doubled("\"b") == "\"\"b";
  }

  /** `LIMIT ?`: a negative limit means no limit. */
  function Limit(rows: seq<Row>, limit: int): (r: seq<Row>)
    ensures limit >= 0 ==> |r| == if |rows| < limit then |rows| else limit
    ensures limit < 0 ==> r == rows
    ensures r == rows[..|r|]
  {
    if limit < 0 || |rows| <= limit then rows else rows[..limit]
  }

  /** SELECT ... FROM packages JOIN packages_fts ... WHERE packages_fts MATCH ? LIMIT ? */
  function SearchPackagesInDb(db: Option<Store>, query: string, limit: int): (r: Option<seq<Row>>)
    ensures r.None? <==> db.None?
    ensures r.Some? && limit >= 0 ==> |r.value| <= limit
    ensures r.Some? ==> forall i :: 0 <= i < |r.value| ==>
      exists row :: row in db.value.packages && db.value.ftsMatch(FtsQuote(query), row) &&
        r.value[i] == Project(row, SearchColumns)
    ensures r.Some? ==> r.value == Limit(ProjectAll(SearchHits(db.value, query), SearchColumns), limit)
  {
    if db.None? then None
    else
      var store := db.value;
      var matching := SearchHits(store, query);
      var hits := ProjectAll(matching, SearchColumns);
      var r := Limit(hits, limit);
      assert forall i :: 0 <= i < |r| ==> matching[i] in matching && r[i] == Project(matching[i], SearchColumns);
      Some(r)
  }

  /** The packages rows the quoted query matches, in storage order. */
  function SearchHits(store: Store, query: string): seq<Row> {
    Where(store.packages, (r: Row) => store.ftsMatch(FtsQuote(query), r))
  }

  /** The search returns min(limit, matches) rows (every match for a negative
      limit), and misses no match that fits under the limit. */
  lemma SearchCount(store: Store, query: string, limit: int)
    ensures limit < 0 ==> |SearchPackagesInDb(Some(store), query, limit).value| == |SearchHits(store, query)|
    ensures limit >= 0 ==>
      |SearchPackagesInDb(Some(store), query, limit).value| ==
      (if |SearchHits(store, query)| < limit then |SearchHits(store, query)| else limit)
    ensures limit < 0 || |SearchHits(store, query)| <= limit ==>
      forall row :: row in store.packages && store.ftsMatch(FtsQuote(query), row) ==>
        Project(row, SearchColumns) in SearchPackagesInDb(Some(store), query, limit).value
  {
    var matching := SearchHits(store, query);
    var hits := ProjectAll(matching, SearchColumns);
    if limit < 0 || |matching| <= limit {
      assert Limit(hits, limit) == hits;
      forall row | row in store.packages && store.ftsMatch(FtsQuote(query), row)
        ensures Project(row, SearchColumns) in SearchPackagesInDb(Some(store), query, limit).value
      {
        assert row in matching;
        var i :| 0 <= i < |matching| && matching[i] == row;
        assert hits[i] == Project(row, SearchColumns);
      }
    }
  }

  /** SELECT * FROM build_info WHERE id = 1 */
  function GetBuildInfo(db: Option<Store>): (r: Option<Option<Row>>)
    ensures r.None? <==> db.None?
    ensures r.Some? && r.value.Some? ==> r.value.value in db.value.buildInfo && Col(r.value.value, "id") == Num(1)
    ensures r.Some? && r.value.None? <==>
      db.Some? && forall i :: 0 <= i < |db.value.buildInfo| ==> Col(db.value.buildInfo[i], "id") != Num(1)
    ensures r.Some? && r.value.Some? ==>
      exists i :: 0 <= i < |db.value.buildInfo| && r.value.value == db.value.buildInfo[i] &&
                  (forall j :: 0 <= j < i ==> Col(db.value.buildInfo[j], "id") != Num(1))
  {
    if db.None? then None
    else match FirstIndex(db.value.buildInfo, (r: Row) => SqlEq(Col(r, "id"), Num(1)))
      case None => Some(None)
      case Some(i) => Some(Some(db.value.buildInfo[i]))
  }

  // ---- SELECT ecosystem, COUNT(*) ... GROUP BY ecosystem ORDER BY count DESC ----

  datatype EcosystemCount = EcosystemCount(ecosystem: Value, count: nat)

  /** Number of rows whose ecosystem is e (GROUP BY puts NULLs together). */
  function RowsIn(rows: seq<Row>, e: Value): nat
  {
    if rows == [] then 0
    else RowsIn(rows[..|rows| - 1], e) + (if Col(rows[|rows| - 1], "ecosystem") == e then 1 else 0)
  }

  /** Count one more row of ecosystem e. */
  function Tally(groups: seq<EcosystemCount>, e: Value): seq<EcosystemCount>
  {
    if groups == [] then [EcosystemCount(e, 1)]
    else if groups[0].ecosystem == e then [EcosystemCount(e, groups[0].count + 1)] + groups[1..]
    else [groups[0]] + Tally(groups[1..], e)
  }

  /** The groups in order of first occurrence. */
  function Groups(rows: seq<Row>): seq<EcosystemCount>
  {
    if rows == [] then [] else Tally(Groups(rows[..|rows| - 1]), Col(rows[|rows| - 1], "ecosystem"))
  }

  function Total(groups: seq<EcosystemCount>): nat
  {
    if groups == [] then 0 else groups[0].count + Total(groups[1..])
  }

  predicate DistinctKeys(groups: seq<EcosystemCount>) {
    forall i, j :: 0 <= i < j < |groups| ==> groups[i].ecosystem != groups[j].ecosystem
  }

  /** The count recorded for e, 0 when e has no group. */
  function CountFor(groups: seq<EcosystemCount>, e: Value): nat
  {
    if groups == [] then 0
    else if groups[0].ecosystem == e then groups[0].count
    else CountFor(groups[1..], e)
  }

  lemma {:induction false} TallyTotal(groups: seq<EcosystemCount>, e: Value)
    ensures Total(Tally(groups, e)) == Total(groups) + 1
  {
    if groups != [] && groups[0].ecosystem != e {
      TallyTotal(groups[1..], e);
      assert Tally(groups, e)[1..] == Tally(groups[1..], e);
    } else if groups != [] {
      assert Tally(groups, e)[1..] == groups[1..];
    }
  }

  lemma {:induction false} TallyCount(groups: seq<EcosystemCount>, e: Value, k: Value)
    ensures CountFor(Tally(groups, e), k) == CountFor(groups, k) + (if k == e then 1 else 0)
  {
    if groups != [] && groups[0].ecosystem != e {
      TallyCount(groups[1..], e, k);
      assert Tally(groups, e)[1..] == Tally(groups[1..], e);
    } else if groups != [] {
      assert Tally(groups, e)[1..] == groups[1..];
    }
  }

  /** Tally adds no ecosystem other than e. */
  lemma {:induction false} TallyKeys(groups: seq<EcosystemCount>, e: Value, g: EcosystemCount)
    requires g in Tally(groups, e)
    ensures g.ecosystem == e || exists h :: h in groups && h.ecosystem == g.ecosystem
  {
    if groups != [] && groups[0].ecosystem != e {
      var t := Tally(groups[1..], e);
      assert Tally(groups, e) == [groups[0]] + t;
      if g != groups[0] {
        TallyKeys(groups[1..], e, g);
        if g.ecosystem != e {
          var h :| h in groups[1..] && h.ecosystem == g.ecosystem;
          assert h in groups;
        }
      }
    } else if groups != [] {
      assert Tally(groups, e) == [EcosystemCount(e, groups[0].count + 1)] + groups[1..];
      if g.ecosystem != e {
        assert g in groups[1..];
      }
    }
  }

  lemma {:induction false} TallyDistinct(groups: seq<EcosystemCount>, e: Value)
    requires DistinctKeys(groups)
    ensures DistinctKeys(Tally(groups, e))
  {
    if groups != [] && groups[0].ecosystem != e {
      TallyDistinct(groups[1..], e);
      var t := Tally(groups[1..], e);
      assert Tally(groups, e) == [groups[0]] + t;
      forall i, j | 0 <= i < j < |[groups[0]] + t|
        ensures ([groups[0]] + t)[i].ecosystem != ([groups[0]] + t)[j].ecosystem
      {
        if i == 0 {
          var g := t[j - 1];
          TallyKeys(groups[1..], e, g);
          if g.ecosystem != e {
            var h :| h in groups[1..] && h.ecosystem == g.ecosystem;
            var k :| 0 <= k < |groups[1..]| && groups[1..][k] == h;
            assert groups[k + 1] == h;
          }
        } else {
          assert ([groups[0]] + t)[i] == t[i - 1];
        }
      }
    } else if groups != [] {
      var t := Tally(groups, e);
      assert t[1..] == groups[1..];
      forall i, j | 0 <= i < j < |t|
        ensures t[i].ecosystem != t[j].ecosystem
      {
        assert t[j] == groups[j];
        if i > 0 { assert t[i] == groups[i]; }
      }
    }
  }

  /** Grouping loses no row, and each group counts exactly its rows. */
  lemma {:induction false} GroupsSpec(rows: seq<Row>)
    ensures DistinctKeys(Groups(rows))
    ensures Total(Groups(rows)) == |rows|
    ensures forall e :: CountFor(Groups(rows), e) == RowsIn(rows, e)
  {
    if rows != [] {
      GroupsSpec(rows[..|rows| - 1]);
      var e := Col(rows[|rows| - 1], "ecosystem");
      TallyTotal(Groups(rows[..|rows| - 1]), e);
      TallyDistinct(Groups(rows[..|rows| - 1]), e);
      forall k ensures CountFor(Groups(rows), k) == RowsIn(rows, k) {
        TallyCount(Groups(rows[..|rows| - 1]), e, k);
      }
    }
  }

  predicate MoreFirst(a: EcosystemCount, b: EcosystemCount) {
    a.count > b.count
  }

  function GetEcosystemCounts(db: Option<Store>): (r: Option<seq<EcosystemCount>>)
    ensures r.None? <==> db.None?
  {
    if db.None? then None else Some(Sort(Groups(db.value.packages), MoreFirst))
  }

  lemma {:induction false} TotalInsert(x: EcosystemCount, s: seq<EcosystemCount>)
    ensures Total(Insert(x, s, MoreFirst)) == x.count + Total(s)
  {
    if s != [] && MoreFirst(s[0], x) {
      TotalInsert(x, s[1..]);
    }
  }

  lemma {:induction false} TotalSort(s: seq<EcosystemCount>)
    ensures Total(Sort(s, MoreFirst)) == Total(s)
  {
    if s != [] {
      TotalSort(s[1..]);
      TotalInsert(s[0], Sort(s[1..], MoreFirst));
    }
  }

  /** The counts are largest first, hold every ecosystem once, and add up to
      the number of packages. */
  lemma EcosystemCountsSpec(store: Store)
    ensures Sorted(GetEcosystemCounts(Some(store)).value, MoreFirst)
    ensures multiset(GetEcosystemCounts(Some(store)).value) == multiset(Groups(store.packages))
    ensures Total(GetEcosystemCounts(Some(store)).value) == |store.packages|
  {
    var g := Groups(store.packages);
    ByKeyDescIsOrder((x: EcosystemCount) => x.count);
    assert forall a, b :: MoreFirst(a, b) == ByKeyDesc((x: EcosystemCount) => x.count)(a, b);
    SortSorted(g, MoreFirst);
    SortPermutes(g, MoreFirst);
    TotalSort(g);
    GroupsSpec(store.packages);
  }

  // ---- Choosing the snapshot file ----

  const DbFileName := "critical-packages.db"

  /** path.join of an absolute directory and relative parts. */
  function PathJoin(dir: string, parts: seq<string>): string
  {
    Join([dir] + parts, "/")
  }

  /** DB_PATHS: the override (only when set and non-empty), then the file in
      the working directory, then the one under the home directory. */
  function DbPaths(envPath: Option<string>, cwd: string, home: string): (paths: seq<string>)
    ensures Present(envPath) ==> |paths| == 3 && paths[0] == envPath.value
    ensures !Present(envPath) ==> |paths| == 2
    ensures paths[|paths| - 2] == cwd + "/" + DbFileName
    ensures paths[|paths| - 1] == home + "/" + ".ecosystems" + "/" + DbFileName
  {
    var local := PathJoin(cwd, [DbFileName]);
    var user := PathJoin(home, [".ecosystems", DbFileName]);
    assert Join([DbFileName], "/") == DbFileName;
    assert local == cwd + "/" + DbFileName by {
      assert [cwd] + [DbFileName] == [cwd, DbFileName];
      assert [cwd, DbFileName][1..] == [DbFileName];
    }
    assert user == home + "/" + ".ecosystems" + "/" + DbFileName by {
      assert [home] + [".ecosystems", DbFileName] == [home, ".ecosystems", DbFileName];
      assert [home, ".ecosystems", DbFileName][1..] == [".ecosystems", DbFileName];
      assert [".ecosystems", DbFileName][1..] == [DbFileName];
      assert Join([".ecosystems", DbFileName], "/") == ".ecosystems" + "/" + DbFileName;
    }
    (if Present(envPath) then [envPath.value] else []) + [local, user]
  }

  /** What a candidate path holds. */
  datatype FileState =
    | Missing                    // existsSync is false
    | Unopenable(reason: string) // exists, but opening it throws
    | Openable(store: Store)

  type FileSystem = string -> FileState

  /** The first candidate that exists and opens. */
  function FirstOpenable(paths: seq<string>, fs: FileSystem): (r: Option<Store>)
    ensures r.None? <==> forall i :: 0 <= i < |paths| ==> !fs(paths[i]).Openable?
    ensures r.Some? ==>
      exists i :: 0 <= i < |paths| && fs(paths[i]).Openable? && fs(paths[i]).store == r.value &&
                  (forall j :: 0 <= j < i ==> !fs(paths[j]).Openable?)
  {
    if paths == [] then None
    else if fs(paths[0]).Openable? then Some(fs(paths[0]).store)
    else
      var r := FirstOpenable(paths[1..], fs);
      assert forall j :: 1 <= j < |paths| ==> paths[j] == paths[1..][j - 1];
      r
  }

  /** The module-level connection. */
  class Connector {
    var db: Option<Store>

    constructor()
      ensures db.None?
    {
      db := None;
    }

    /** initDatabase: try each candidate in turn and keep the first that opens;
        when none does, the connection is left as it was. */
    method InitDatabase(paths: seq<string>, fs: FileSystem) returns (loaded: Option<Store>)
      modifies this
      ensures loaded == FirstOpenable(paths, fs)
      ensures db == if loaded.Some? then loaded else old(db)
    {
      var i := 0;
      while i < |paths|
        invariant 0 <= i <= |paths|
        invariant FirstOpenable(paths[i..], fs) == FirstOpenable(paths, fs)
        invariant db == old(db)
      {
        assert paths[i..][1..] == paths[i + 1..];
        match fs(paths[i])
        case Openable(store) =>
          db := Some(store);
          return db;
        case _ =>
        i := i + 1;
      }
      return None;
    }
  }
}
