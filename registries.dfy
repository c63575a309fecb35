/** The identifier normaliser of lib/registries.js: the ecosystem/registry
    table, its derived reverse, the case-insensitive lookups and the
    package-URL parser. */
module Registries {

  import opened Wrappers
  import opened Text

  /** The forward table, in the order its entries are written. */
  const Table: seq<(string, string)> := [
    ("npm", "npmjs.org"),
    ("go", "proxy.golang.org"),
    ("docker", "hub.docker.com"),
    ("pypi", "pypi.org"),
    ("nuget", "nuget.org"),
    ("maven", "repo1.maven.org"),
    ("packagist", "packagist.org"),
    ("cargo", "crates.io"),
    ("rubygems", "rubygems.org"),
    ("cocoapods", "cocoapods.org"),
    ("pub", "pub.dev"),
    ("bower", "bower.io"),
    ("cpan", "metacpan.org"),
    ("alpine", "alpine-edge"),
    ("actions", "github actions"),
    ("cran", "cran.r-project.org"),
    ("clojars", "clojars.org"),
    ("conda", "conda-forge.org"),
    ("hex", "hex.pm"),
    ("hackage", "hackage.haskell.org"),
    ("julia", "juliahub.com"),
    ("swiftpm", "swiftpackageindex.com"),
    ("openvsx", "open-vsx.org"),
    ("spack", "spack.io"),
    ("homebrew", "formulae.brew.sh"),
    ("adelie", "pkg.adelielinux.org"),
    ("puppet", "forge.puppet.com"),
    ("deno", "deno.land"),
    ("elm", "package.elm-lang.org"),
    ("vcpkg", "vcpkg.io"),
    ("racket", "pkgs.racket-lang.org"),
    ("bioconductor", "bioconductor.org"),
    ("carthage", "carthage"),
    ("postmarketos", "postmarketos-master"),
    ("elpa", "elpa.gnu.org")
  ]

  /** Object.fromEntries: later entries overwrite earlier ones with the same key. */
  function FromEntries(es: seq<(string, string)>): map<string, string>
  {
    if es == [] then map[] else FromEntries(es[..|es| - 1])[es[|es| - 1].0 := es[|es| - 1].1]
  }

  /** The entries with key and value exchanged. */
  function Swapped(es: seq<(string, string)>): (r: seq<(string, string)>)
    ensures |r| == |es|
    ensures forall i :: 0 <= i < |es| ==> r[i] == (es[i].1, es[i].0)
  {
    seq(|es|, i requires 0 <= i < |es| => (es[i].1, es[i].0))
  }

  /** ECOSYSTEM_REGISTRY_MAP. */
  const ForwardMap: map<string, string> := FromEntries(Table)

  /** REGISTRY_ECOSYSTEM_MAP, derived from the forward table. */
  const ReverseMap: map<string, string> := FromEntries(Swapped(Table))

  /** ecosystemToRegistry: lowercase the ecosystem and look it up; null and
      unknown ecosystems give None. */
  function EcosystemToRegistry(ecosystem: Option<string>): (r: Option<string>)
    ensures ecosystem.None? ==> r.None?
    ensures r.Some? ==> exists i :: 0 <= i < |Table| && Table[i] == (Lower(ecosystem.value), r.value)
    ensures ecosystem.Some? && r.None? ==> forall i :: 0 <= i < |Table| ==> Table[i].0 != Lower(ecosystem.value)
  {
    match ecosystem
    case None => None
    case Some(e) =>
      var key := Lower(e);
      FromEntriesKeys(Table, key);
      if key in ForwardMap then
        FromEntriesValue(Table, key);
        Some(ForwardMap[key])
      else None
  }

  /** registryToEcosystem: the same lookup in the reverse map. */
  function RegistryToEcosystem(registry: Option<string>): (r: Option<string>)
    ensures registry.None? ==> r.None?
    ensures r.Some? ==> exists i :: 0 <= i < |Table| && Table[i] == (r.value, Lower(registry.value))
    ensures registry.Some? && r.None? ==> forall i :: 0 <= i < |Table| ==> Table[i].1 != Lower(registry.value)
  {
    match registry
    case None => None
    case Some(g) =>
      var key := Lower(g);
      FromEntriesKeys(Swapped(Table), key);
      if key in ReverseMap then
        FromEntriesValue(Swapped(Table), key);
        Some(ReverseMap[key])
      else None
  }

  /** A key is bound exactly when some entry carries it. */
  lemma {:induction false} FromEntriesKeys(es: seq<(string, string)>, k: string)
    ensures k in FromEntries(es) <==> exists i :: 0 <= i < |es| && es[i].0 == k
  {
    if es != [] {
      var init := es[..|es| - 1];
      FromEntriesKeys(init, k);
      if k in FromEntries(init) {
        var i :| 0 <= i < |init| && init[i].0 == k;
        assert es[i].0 == k;
      }
      if exists i :: 0 <= i < |es| && es[i].0 == k {
        var i :| 0 <= i < |es| && es[i].0 == k;
        if i < |init| { assert init[i].0 == k; }
      }
    }
  }

  /** A bound key maps to the value of the last entry carrying it. */
  lemma {:induction false} FromEntriesValue(es: seq<(string, string)>, k: string)
    requires k in FromEntries(es)
    ensures exists i :: 0 <= i < |es| && es[i] == (k, FromEntries(es)[k]) &&
                        (forall j :: i < j < |es| ==> es[j].0 != k)
  {
    var init := es[..|es| - 1];
    if es[|es| - 1].0 != k {
      FromEntriesValue(init, k);
      var i :| 0 <= i < |init| && init[i] == (k, FromEntries(init)[k]) &&
               (forall j :: i < j < |init| ==> init[j].0 != k);
      assert es[i] == init[i];
      forall j | i < j < |es| ensures es[j].0 != k {
        if j < |init| { assert es[j] == init[j]; }
      }
    }
  }

  /** With distinct keys, every entry survives in the map. */
  lemma {:induction false} FromEntriesAt(es: seq<(string, string)>, i: nat)
    requires forall a, b :: 0 <= a < b < |es| ==> es[a].0 != es[b].0
    requires i < |es|
    ensures es[i].0 in FromEntries(es) && FromEntries(es)[es[i].0] == es[i].1
  {
    var init := es[..|es| - 1];
    if i < |es| - 1 {
      assert es[i] == init[i];
      FromEntriesAt(init, i);
    }
  }

  /** With distinct keys, the map has one binding per entry. */
  lemma {:induction false} FromEntriesSize(es: seq<(string, string)>)
    requires forall a, b :: 0 <= a < b < |es| ==> es[a].0 != es[b].0
    ensures |FromEntries(es)| == |es|
  {
    if es != [] {
      var init := es[..|es| - 1];
      FromEntriesSize(init);
      FromEntriesKeys(init, es[|es| - 1].0);
    }
  }

  lemma TableKeyDistinct(i: nat, j: nat)
    requires i < j < |Table|
    ensures Table[i].0 != Table[j].0
  {
  }

  lemma TableValueDistinct(i: nat, j: nat)
    requires i < j < |Table|
    ensures Table[i].1 != Table[j].1
  {
  }

  // Lower-case checks of the literal entries, five entries per lemma so that
  // each stays small for the solver.

  lemma TableLower0(i: nat)
    requires 0 <= i < 5
    ensures IsLower(Table[i].0) && IsLower(Table[i].1)
  {
  }

  lemma TableLower1(i: nat)
    requires 5 <= i < 10
    ensures IsLower(Table[i].0) && IsLower(Table[i].1)
  {
  }

  lemma TableLower2(i: nat)
    requires 10 <= i < 15
    ensures IsLower(Table[i].0) && IsLower(Table[i].1)
  {
  }

  lemma TableLower3(i: nat)
    requires 15 <= i < 20
    ensures IsLower(Table[i].0) && IsLower(Table[i].1)
  {
  }

  lemma TableLower4(i: nat)
    requires 20 <= i < 25
    ensures IsLower(Table[i].0) && IsLower(Table[i].1)
  {
  }

  lemma TableLower5(i: nat)
    requires 25 <= i < 30
    ensures IsLower(Table[i].0) && IsLower(Table[i].1)
  {
  }

  lemma TableLower6(i: nat)
    requires 30 <= i < 35
    ensures IsLower(Table[i].0) && IsLower(Table[i].1)
  {
  }

  /** Every ecosystem and every registry in the table is already lower case. */
  lemma TableEntryLower(i: nat)
    requires i < |Table|
    ensures IsLower(Table[i].0) && IsLower(Table[i].1)
  {
    if i < 5 { TableLower0(i); }
    else if i < 10 { TableLower1(i); }
    else if i < 15 { TableLower2(i); }
    else if i < 20 { TableLower3(i); }
    else if i < 25 { TableLower4(i); }
    else if i < 30 { TableLower5(i); }
    else { TableLower6(i); }
  }

  /** All 35 ecosystems are distinct, and so are all 35 registries. */
  lemma TableDistinct()
    ensures |Table| == 35
    ensures forall a, b :: 0 <= a < b < |Table| ==> Table[a].0 != Table[b].0
    ensures forall a, b :: 0 <= a < b < |Table| ==> Swapped(Table)[a].0 != Swapped(Table)[b].0
  {
    forall a, b | 0 <= a < b < |Table| ensures Table[a].0 != Table[b].0 && Swapped(Table)[a].0 != Swapped(Table)[b].0 {
      TableKeyDistinct(a, b);
      TableValueDistinct(a, b);
    }
  }

  /** Both maps hold exactly 35 bindings: the reverse map loses no registry. */
  lemma MapSizes()
    ensures |ForwardMap| == 35 && |ReverseMap| == 35
  {
    TableDistinct();
    FromEntriesSize(Table);
    FromEntriesSize(Swapped(Table));
  }

  /** Every table entry round-trips through both lookups. */
  lemma TableRoundTrip(i: nat)
    requires i < |Table|
    ensures EcosystemToRegistry(Some(Table[i].0)) == Some(Table[i].1)
    ensures RegistryToEcosystem(Some(Table[i].1)) == Some(Table[i].0)
  {
    TableDistinct();
    TableEntryLower(i);
    LowerOfLower(Table[i].0);
    LowerOfLower(Table[i].1);
    FromEntriesAt(Table, i);
    FromEntriesAt(Swapped(Table), i);
  }

  /** The ecosystem lookup ignores ASCII case. */
  lemma CaseInsensitive(s: string)
    ensures EcosystemToRegistry(Some(s)) == EcosystemToRegistry(Some(Lower(s)))
    ensures RegistryToEcosystem(Some(s)) == RegistryToEcosystem(Some(Lower(s)))
  {
    LowerIdempotent(s);
  }

  /** registryToEcosystem succeeds exactly on the (lowercased) registries of the forward table. */
  lemma ReverseDefinedOnForwardValues(r: string)
    ensures RegistryToEcosystem(Some(r)).Some? <==> Lower(r) in ForwardMap.Values
  {
    var key := Lower(r);
    TableDistinct();
    if key in ForwardMap.Values {
      var e :| e in ForwardMap && ForwardMap[e] == key;
      FromEntriesValue(Table, e);
      var i :| 0 <= i < |Table| && Table[i] == (e, key);
      FromEntriesAt(Swapped(Table), i);
    }
    if RegistryToEcosystem(Some(r)).Some? {
      var i :| 0 <= i < |Table| && Table[i] == (RegistryToEcosystem(Some(r)).value, key);
      FromEntriesAt(Table, i);
    }
  }

  /** The test suite's exact-case examples. */
  lemma LookupExamples()
    ensures EcosystemToRegistry(Some("npm")) == Some("npmjs.org")
    ensures EcosystemToRegistry(Some("pypi")) == Some("pypi.org")
    ensures EcosystemToRegistry(Some("rubygems")) == Some("rubygems.org")
  {
    assert Table[0] == ("npm", "npmjs.org") && Table[3] == ("pypi", "pypi.org");
    assert Table[8] == ("rubygems", "rubygems.org");
    TableRoundTrip(0);
    TableRoundTrip(3);
    TableRoundTrip(8);
  }

  /** The test suite's mixed-case examples map like their lower-case forms. */
  lemma MixedCaseExamples()
    ensures EcosystemToRegistry(Some("NPM")) == Some("npmjs.org")
    ensures EcosystemToRegistry(Some("PyPi")) == Some("pypi.org")
  {
    LookupExamples();
    CaseInsensitive("NPM");
    CaseInsensitive("PyPi");
    LowerExamples();
  }

  lemma LowerExamples()
    ensures Lower("NPM") == "npm" && Lower("PyPi") == "pypi"
  {
  }

  // "unknown" is not an ecosystem of the table, checked a third of it at a time.

  lemma NotUnknown0(i: nat)
    requires i < 12
    ensures Table[i].0 != "unknown"
  {
  }

  lemma NotUnknown1(i: nat)
    requires 12 <= i < 24
    ensures Table[i].0 != "unknown"
  {
  }

  lemma NotUnknown2(i: nat)
    requires 24 <= i < 35
    ensures Table[i].0 != "unknown"
  {
  }

  /** The test suite's misses: an unknown ecosystem and null. */
  lemma UnknownExamples()
    ensures EcosystemToRegistry(Some("unknown")) == None
    ensures EcosystemToRegistry(None) == None
  {
    assert Lower("unknown") == "unknown";
    forall i | 0 <= i < |Table| ensures Table[i].0 != "unknown" {
      if i < 12 { NotUnknown0(i); } else if i < 24 { NotUnknown1(i); } else { NotUnknown2(i); }
    }
  }

  /** The parts of a package URL. */
  datatype Purl = Purl(ecosystem: string, name: string, version: Option<string>)

  /** The characters JavaScript's regular-expression `.` does not match. */
  predicate IsLineTerminator(c: char) {
    c == '\n' || c == '\r' || c == '\U{2028}' || c == '\U{2029}'
  }

  predicate NoLineTerminator(s: string) {
    forall i :: 0 <= i < |s| ==> !IsLineTerminator(s[i])
  }

  /** What `^pkg:([^/]+)\/(.+?)(?:@(.+))?$` demands of the captured groups. */
  predicate WellFormed(p: Purl) {
    && p.ecosystem != [] && '/' !in p.ecosystem
    && p.name != [] && NoLineTerminator(p.name)
    && (p.version.Some? ==> p.version.value != [] && NoLineTerminator(p.version.value))
  }

  /** The lazy name group stops at the first '@' (after its first character)
      that leaves a non-empty version: an '@' inside the name is only possible
      as its last character when no version follows. */
  predicate Lazy(p: Purl) {
    forall i :: 1 <= i < |p.name| && p.name[i] == '@' ==> p.version.None? && i == |p.name| - 1
  }

  /** The package URL the parts spell. */
  function Render(p: Purl): string {
    "pkg:" + p.ecosystem + "/" + p.name + (match p.version case None => "" case Some(v) => "@" + v)
  }

  /** Where the lazy name group ends when the part after the first '/' is rest:
      the first '@' at position i or later with something after it, else the end. */
  function NameEnd(rest: string, i: nat): (n: nat)
    requires 1 <= i <= |rest|
    ensures i <= n <= |rest|
    ensures n < |rest| ==> rest[n] == '@' && n + 1 < |rest|
    ensures forall j :: i <= j < n ==> !(rest[j] == '@' && j + 1 < |rest|)
    decreases |rest| - i
  {
    if i == |rest| then i
    else if rest[i] == '@' && i + 1 < |rest| then i
    else NameEnd(rest, i + 1)
  }

  /** parsePurl: None unless the input has the shape of the regular expression;
      on success the parts are well formed, the name is the lazy capture, and
      rendering them gives back the input exactly. */
  function ParsePurl(s: string): (r: Option<Purl>)
    ensures r.Some? ==> WellFormed(r.value) && Lazy(r.value) && Render(r.value) == s
  {
    if !StartsWith(s, "pkg:") then None
    else
      var r := ParseBody(s[4..]);
      assert s == "pkg:" + s[4..];
      r
  }

  /** The match after "pkg:": the ecosystem runs to the first '/'. */
  function ParseBody(body: string): (r: Option<Purl>)
    ensures r.Some? ==> WellFormed(r.value) && Lazy(r.value) && Render(r.value) == "pkg:" + body
  {
    match IndexOf(body, '/')
    case None => None
    case Some(k) =>
      if k == 0 then None
      else
        var r := SplitRest(body[..k], body[k + 1..]);
        assert body == body[..k] + "/" + body[k + 1..];
        r
  }

  /** The match after the first '/': a lazy name and an optional version. */
  function SplitRest(ecosystem: string, rest: string): (r: Option<Purl>)
    requires ecosystem != [] && '/' !in ecosystem
    ensures r.Some? ==> WellFormed(r.value) && Lazy(r.value) && Render(r.value) == "pkg:" + ecosystem + "/" + rest
  {
    if rest == [] || !NoLineTerminator(rest) then None
    else
      var n := NameEnd(rest, 1);
      var p := Purl(ecosystem, rest[..n], if n < |rest| then Some(rest[n + 1..]) else None);
      assert rest == rest[..n] + rest[n..];
      assert n < |rest| ==> rest[n..] == "@" + rest[n + 1..];
      Some(p)
  }

  /** The part of a rendered package URL after its first '/'. */
  function RestOf(p: Purl): string {
    p.name + (match p.version case None => "" case Some(v) => "@" + v)
  }

  lemma RenderShape(p: Purl)
    requires WellFormed(p)
    ensures StartsWith(Render(p), "pkg:")
    ensures Render(p)[4..] == p.ecosystem + "/" + RestOf(p)
  {
    assert Render(p) == "pkg:" + (p.ecosystem + "/" + RestOf(p));
  }

  lemma {:induction false} FirstSlash(a: string, b: string)
    requires '/' !in a
    ensures IndexOf(a + "/" + b, '/') == Some(|a|)
  {
    if a != [] {
      assert (a + "/" + b)[1..] == a[1..] + "/" + b;
      FirstSlash(a[1..], b);
    }
  }

  /** On the rest of a well-formed lazy package URL, the lazy group ends where the name does. */
  lemma NameEndOfRest(p: Purl)
    requires WellFormed(p) && Lazy(p)
    ensures NoLineTerminator(RestOf(p))
    ensures NameEnd(RestOf(p), 1) == |p.name|
  {
    var rest := RestOf(p);
    forall i | 0 <= i < |rest| ensures !IsLineTerminator(rest[i]) {
      if i > |p.name| { assert rest[i] == p.version.value[i - |p.name| - 1]; }
    }
    forall j | 1 <= j < |p.name| ensures !(rest[j] == '@' && j + 1 < |rest|) {
      assert rest[j] == p.name[j];
    }
    if p.version.Some? {
      assert rest[|p.name|] == '@' && |p.name| + 1 < |rest|;
    }
  }

  /** Every well-formed, lazily split package URL is parsed back into its parts. */
  lemma ParseRender(p: Purl)
    requires WellFormed(p) && Lazy(p)
    ensures ParsePurl(Render(p)) == Some(p)
  {
    var rest := RestOf(p);
    RenderShape(p);
    FirstSlash(p.ecosystem, rest);
    var body := p.ecosystem + "/" + rest;
    var k := |p.ecosystem|;
    assert body[..k] == p.ecosystem && body[k + 1..] == rest;
    NameEndOfRest(p);
    SplitRestOfRender(p);
    assert ParseBody(body) == Some(p);
  }

  lemma SplitRestOfRender(p: Purl)
    requires WellFormed(p) && Lazy(p)
    requires NoLineTerminator(RestOf(p)) && NameEnd(RestOf(p), 1) == |p.name|
    ensures SplitRest(p.ecosystem, RestOf(p)) == Some(p)
  {
    var rest := RestOf(p);
    var n := |p.name|;
    assert rest[..n] == p.name;
    assert p.version.Some? ==> rest[n + 1..] == p.version.value;
  }

  /** parsePurl fails exactly on the strings no well-formed package URL renders to. */
  lemma ParsePurlFails(s: string)
    ensures ParsePurl(s).None? <==> forall p :: WellFormed(p) && Lazy(p) ==> Render(p) != s
  {
    if ParsePurl(s).None? {
      forall p | WellFormed(p) && Lazy(p) ensures Render(p) != s {
        ParseRender(p);
      }
    }
  }

  /** The test suite's examples: no version, a version, and a scoped name that
      stays percent-encoded and keeps its '/'. */
  lemma ParseExamples()
    ensures ParsePurl("pkg:npm/lodash") == Some(Purl("npm", "lodash", None))
    ensures ParsePurl("pkg:npm/lodash@4.17.21") == Some(Purl("npm", "lodash", Some("4.17.21")))
    ensures ParsePurl("pkg:npm/%40babel/core@7.0.0") == Some(Purl("npm", "%40babel/core", Some("7.0.0")))
  {
    ParseLodash();
    ParseLodashVersion();
    ParseScoped();
  }

  lemma ParseLodash()
    ensures ParsePurl("pkg:npm/lodash") == Some(Purl("npm", "lodash", None))
  {
    var p := Purl("npm", "lodash", None);
    assert Render(p) == "pkg:npm/lodash";
    ParseRender(p);
  }

  lemma ParseLodashVersion()
    ensures ParsePurl("pkg:npm/lodash@4.17.21") == Some(Purl("npm", "lodash", Some("4.17.21")))
  {
    var p := Purl("npm", "lodash", Some("4.17.21"));
    assert Render(p) == "pkg:npm/lodash@4.17.21";
    ParseRender(p);
  }

  lemma ParseScoped()
    ensures ParsePurl("pkg:npm/%40babel/core@7.0.0") == Some(Purl("npm", "%40babel/core", Some("7.0.0")))
  {
    var p := Purl("npm", "%40babel/core", Some("7.0.0"));
    assert Render(p) == "pkg:npm/%40babel/core@7.0.0";
    ParseRender(p);
  }

  /** The test suite's rejected inputs. */
  lemma RejectExamples()
    ensures ParsePurl("not-a-purl") == None
    ensures ParsePurl("npm/lodash") == None
  {
    assert "not-a-purl"[0] == 'n' && "npm/lodash"[0] == 'n';
    assert !StartsWith("not-a-purl", "pkg:") by { assert "not-a-purl"[..4][0] == 'n'; }
    assert !StartsWith("npm/lodash", "pkg:") by { assert "npm/lodash"[..4][0] == 'n'; }
  }
}
