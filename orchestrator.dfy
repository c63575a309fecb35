/** The tool layer of index.js: getPackage, lookupPackage and the cases of
    handleToolCall. The local store is an explicit optional snapshot and the
    remote API an oracle; every result carries the log of remote calls made
    to compute it, and errors are values instead of exceptions. */
module Orchestrator {

  import opened Wrappers
  import opened Text
  import opened Values
  import opened Registries
  import opened Errors
  import opened Encoding
  import opened Api
  import opened Db
  import opened Formatters
  import opened Sorting

  /** What a tool call sees besides its arguments: the loaded snapshot (if
      any), the remote API, and the package version sent in User-Agent. */
  datatype Env = Env(db: Option<Store>, remote: Remote, version: string)

  /** The tool arguments the core reads; absent (or null) is None. */
  datatype Args = Args(
    ecosystem: Option<string>,
    name: Option<string>,
    purl: Option<string>,
    repositoryUrl: Option<string>,
    query: Option<string>,
    limit: Option<int>,
    page: Option<int>,
    perPage: Option<int>)

  /** Where a package record came from. */
  datatype Found =
    | Local(record: Value)   // { source: "local", ...row }
    | Remote(data: Value)    // { source: "api", data }

  /** A tool's answer: text, or the dependents object. */
  datatype Reply = Text(text: string) | Json(value: Value)

  type Answer<T> = Traced<Result<T, Failure>>

  /** A string argument passed on as a query or SQL parameter. */
  function Param(o: Option<string>): Value {
    match o
    case None => Undefined
    case Some(s) => Str(s)
  }

  function Number(o: Option<int>): Value {
    match o
    case None => Undefined
    case Some(n) => Num(n)
  }

  /** `{ source: "local", ...row }`: the row's own columns win. */
  function LocalRecord(row: Row): (v: Value)
    ensures forall c :: c in row ==> Get(v, c) == row[c]
    ensures "source" !in row ==> Get(v, "source") == Str("local")
  {
    Obj(map["source" := Str("local")] + row)
  }

  function PackagePath(registry: string, name: Option<string>): string {
    "/registries/" + registry + "/packages/" + EncodeUriComponent(TextOf(name))
  }

  /** The local row for (ecosystem, name), when a snapshot is loaded and has one. */
  function LocalPackage(env: Env, ecosystem: Option<string>, name: Option<string>): Option<Row> {
    match GetPackageFromDb(env.db, Param(ecosystem), Param(name))
    case Some(Some(row)) => Some(row)
    case _ => None
  }

  /** A fetch whose value is tagged as coming from the API. */
  function Tagged(fetched: Traced<Result<Value, Failure>>): (t: Answer<Found>)
    ensures t.calls == fetched.calls
    ensures t.result.Ok? <==> fetched.result.Ok?
    ensures t.result.Ok? ==> t.result.value == Remote(fetched.result.value)
    ensures t.result.Err? ==> t.result.error == fetched.result.error
  {
    Traced(if fetched.result.Ok? then Ok(Remote(fetched.result.value)) else Err(fetched.result.error), fetched.calls)
  }

  // ---- getPackage ----

  function GetPackage(env: Env, ecosystem: Option<string>, name: Option<string>): (t: Answer<Found>)
    ensures |t.calls| <= 1
    ensures t.result.Ok? && t.result.value.Local? ==> t.calls == []
  {
    match LocalPackage(env, ecosystem, name)
    case Some(row) => Traced(Ok(Local(LocalRecord(row))), [])
    case None =>
      match EcosystemToRegistry(ecosystem)
      case None => Traced(Err(Mcp(NewInvalidEcosystem(TextOf(ecosystem)))), [])
      case Some(registry) => Tagged(FetchApi(env.remote, env.version, PackagePath(registry, name), [], DefaultTimeoutMs))
  }

  /** A local hit answers with the tagged row and makes no remote call. */
  lemma LocalHitNoCall(env: Env, ecosystem: Option<string>, name: Option<string>)
    requires LocalPackage(env, ecosystem, name).Some?
    ensures GetPackage(env, ecosystem, name) ==
      Traced(Ok(Local(LocalRecord(LocalPackage(env, ecosystem, name).value))), [])
  {
  }

  /** A miss on an ecosystem with no registry fails before any remote call. */
  lemma UnmappedNoCall(env: Env, ecosystem: Option<string>, name: Option<string>)
    requires LocalPackage(env, ecosystem, name).None?
    requires EcosystemToRegistry(ecosystem).None?
    ensures GetPackage(env, ecosystem, name).calls == []
    ensures GetPackage(env, ecosystem, name).result == Err(Mcp(NewInvalidEcosystem(TextOf(ecosystem))))
  {
  }

  /** A miss on a mapped ecosystem makes exactly one call, to the registry's
      package path with the name percent-encoded, and tags success "api". */
  lemma MappedOneCall(env: Env, ecosystem: Option<string>, name: Option<string>)
    requires LocalPackage(env, ecosystem, name).None?
    requires EcosystemToRegistry(ecosystem).Some?
    ensures GetPackage(env, ecosystem, name).calls == [Call(
      "/registries/" + EcosystemToRegistry(ecosystem).value + "/packages/" + EncodeUriComponent(TextOf(name)),
      [], DefaultTimeoutMs)]
    ensures GetPackage(env, ecosystem, name).result.Ok? ==> GetPackage(env, ecosystem, name).result.value.Remote?
    ensures GetPackage(env, ecosystem, name).result == Tagged(FetchApi(env.remote, env.version,
      PackagePath(EcosystemToRegistry(ecosystem).value, name), [], DefaultTimeoutMs)).result
  {
  }

  // ---- lookupPackage ----

  const NoIdentifier := "Provide ecosystem+name, purl, or repository_url"

  /** The local row with this purl, when a snapshot is loaded and has one. */
  function LocalByPurl(env: Env, purl: string): Option<Row> {
    match GetPackageByPurl(env.db, Str(purl))
    case Some(Some(row)) => Some(row)
    case _ => None
  }

  function LookupByPurl(env: Env, purl: string): (t: Answer<Found>)
    ensures |t.calls| <= 1
  {
    match LocalByPurl(env, purl)
    case Some(row) => Traced(Ok(Local(LocalRecord(row))), [])
    case None =>
      match ParsePurl(purl)
      case Some(p) => GetPackage(env, Some(p.ecosystem), Some(p.name))
      case None => Tagged(FetchApi(env.remote, env.version, "/packages/lookup", [("purl", Str(purl))], DefaultTimeoutMs))
  }

  /** purl first, then ecosystem and name, then repository_url. */
  function LookupPackage(env: Env, args: Args): (t: Answer<Found>)
    ensures |t.calls| <= 1
  {
    if Present(args.purl) then LookupByPurl(env, args.purl.value)
    else if Present(args.ecosystem) && Present(args.name) then GetPackage(env, args.ecosystem, args.name)
    else if Present(args.repositoryUrl) then
      Tagged(FetchApi(env.remote, env.version, "/packages/lookup",
        [("repository_url", Str(args.repositoryUrl.value))], DefaultTimeoutMs))
    else Traced(Err(Mcp(NewInvalidInput(NoIdentifier))), [])
  }

  /** A purl found locally answers with the tagged row and calls nothing. */
  lemma PurlLocalHit(env: Env, purl: string)
    requires purl != ""
    requires LocalByPurl(env, purl).Some?
    ensures LookupPackage(env, Args(None, None, Some(purl), None, None, None, None, None)) ==
      Traced(Ok(Local(LocalRecord(LocalByPurl(env, purl).value))), [])
  {
  }

  /** A purl decides the lookup whatever else is given. */
  lemma PurlTakesPrecedence(env: Env, args: Args)
    requires Present(args.purl)
    ensures LookupPackage(env, args) == LookupPackage(env, Args(None, None, args.purl, None, None, None, None, None))
  {
  }

  /** Without a purl, ecosystem and name decide it whatever repository_url is. */
  lemma EcosystemNameNext(env: Env, args: Args)
    requires !Present(args.purl) && Present(args.ecosystem) && Present(args.name)
    ensures LookupPackage(env, args) == GetPackage(env, args.ecosystem, args.name)
  {
  }

  /** Only a repository_url: one lookup call carrying just that parameter. */
  lemma RepositoryUrlLast(env: Env, args: Args)
    requires !Present(args.purl) && !(Present(args.ecosystem) && Present(args.name)) && Present(args.repositoryUrl)
    ensures LookupPackage(env, args).calls ==
      [Call("/packages/lookup", [("repository_url", Str(args.repositoryUrl.value))], DefaultTimeoutMs)]
    ensures LookupPackage(env, args).result == Tagged(FetchApi(env.remote, env.version, "/packages/lookup",
      [("repository_url", Str(args.repositoryUrl.value))], DefaultTimeoutMs)).result
  {
  }

  /** With no identifier the lookup fails with INVALID_INPUT and calls nothing. */
  lemma NoIdentifierFails(env: Env, args: Args)
    requires !Present(args.purl) && !(Present(args.ecosystem) && Present(args.name)) && !Present(args.repositoryUrl)
    ensures LookupPackage(env, args) == Traced(Err(Mcp(NewInvalidInput(NoIdentifier))), [])
    ensures LookupPackage(env, args).result.error.error.code == InvalidInput
  {
  }

  /** A purl missing locally that parses behaves exactly as getPackage on its
      ecosystem and name, local lookup included. */
  lemma ParsedPurlFallsThrough(env: Env, purl: string)
    requires purl != ""
    requires LocalByPurl(env, purl).None?
    requires ParsePurl(purl).Some?
    ensures LookupPackage(env, Args(None, None, Some(purl), None, None, None, None, None)) ==
      GetPackage(env, Some(ParsePurl(purl).value.ecosystem), Some(ParsePurl(purl).value.name))
  {
  }

  /** A purl missing locally that does not parse makes one lookup call with
      only the purl parameter. */
  lemma UnparsedPurlLooksUp(env: Env, purl: string)
    requires purl != ""
    requires LocalByPurl(env, purl).None?
    requires ParsePurl(purl).None?
    ensures LookupPackage(env, Args(None, None, Some(purl), None, None, None, None, None)).calls ==
      [Call("/packages/lookup", [("purl", Str(purl))], DefaultTimeoutMs)]
    ensures LookupPackage(env, Args(None, None, Some(purl), None, None, None, None, None)).result ==
      Tagged(FetchApi(env.remote, env.version, "/packages/lookup", [("purl", Str(purl))], DefaultTimeoutMs)).result
  {
  }

  // ---- Reading API payloads as lists ----

  /** How the formatters read a payload they take `.length` of and then map
      over: arrays are lists; null and undefined throw on `.length`; a
      non-empty string throws at `.map`; any other value reads as an empty
      list (an object with a truthy `length` key is not distinguished). */
  function ShownList(v: Value): (r: Result<seq<Value>, Failure>)
    ensures v.Arr? ==> r == Ok(v.items)
    ensures r.Ok? && !v.Arr? ==> r.value == []
  {
    match v
    case Arr(items) => Ok(items)
    case Null => Err(Foreign("Cannot read properties of null (reading 'length')"))
    case Undefined => Err(Foreign("Cannot read properties of undefined (reading 'length')"))
    case Str(s) => if s == "" then Ok([]) else Err(Foreign("shown.map is not a function"))
    case _ => Ok([])
  }

  function Rows(rows: seq<Row>): (r: seq<Value>)
    ensures |r| == |rows|
    ensures forall i :: 0 <= i < |rows| ==> r[i] == Obj(rows[i])
  {
    seq(|rows|, i requires 0 <= i < |rows| => Obj(rows[i]))
  }

  // ---- list_registries ----

  const RegistriesShown: nat := 30

  /** The comparator's key: b.packages_count - a.packages_count. */
  function PackagesCount(r: Value): int {
    match Get(r, "packages_count")
    case Num(n) => n
    case _ => 0
  }

  function RegistryLine(r: Value): string {
    ToText(Get(r, "ecosystem")) + ": " + ToText(Get(r, "name")) + " (" + FormatNumber(Get(r, "packages_count")) + " packages)"
  }

  function SortedRegistries(registries: seq<Value>): seq<Value> {
    Sort(registries, ByKeyDesc(PackagesCount))
  }

  function RegistriesOverflow(n: nat): string {
    "... and " + IntToString(n - RegistriesShown) + " more registries"
  }

  function RegistriesText(registries: seq<Value>): string {
    var lines := ListLines(SortedRegistries(registries), RegistriesShown, RegistryLine, RegistriesOverflow(|registries|));
    "Available registries:\n\n" + Join(lines, "\n")
  }

  /** The list_registries case: sort, map the first thirty to lines, push the
      overflow line, join. */
  method ListRegistries(registries: seq<Value>) returns (text: string)
    ensures text == RegistriesText(registries)
  {
    var sorted := SortedRegistries(registries);
    var shown := sorted[..Min(|sorted|, RegistriesShown)];
    var lines: seq<string> := [];
    var i := 0;
    while i < |shown|
      invariant 0 <= i <= |shown|
      invariant |lines| == i
      invariant forall k :: 0 <= k < i ==> lines[k] == RegistryLine(shown[k])
    {
      lines := lines + [RegistryLine(shown[i])];
      i := i + 1;
    }
    if |registries| > RegistriesShown {
      lines := lines + [RegistriesOverflow(|registries|)];
    }
    assert lines == ListLines(sorted, RegistriesShown, RegistryLine, RegistriesOverflow(|registries|));
    text := "Available registries:\n\n" + Join(lines, "\n");
  }

  /** The registries shown are the thirty with most packages, largest first;
      the overflow line appears exactly when there are more than thirty. */
  lemma RegistriesListed(registries: seq<Value>)
    ensures Sorted(SortedRegistries(registries), ByKeyDesc(PackagesCount))
    ensures multiset(SortedRegistries(registries)) == multiset(registries)
    ensures |ListLines(SortedRegistries(registries), RegistriesShown, RegistryLine, RegistriesOverflow(|registries|))|
      == Min(|registries|, RegistriesShown) + Ones(|registries| > RegistriesShown)
    ensures forall i :: 0 <= i < Min(|registries|, RegistriesShown) ==>
      ListLines(SortedRegistries(registries), RegistriesShown, RegistryLine, RegistriesOverflow(|registries|))[i]
        == RegistryLine(SortedRegistries(registries)[i])
  {
    ByKeyDescIsOrder(PackagesCount);
    SortSorted(registries, ByKeyDesc(PackagesCount));
    SortPermutes(registries, ByKeyDesc(PackagesCount));
  }

  /** Array.prototype.sort on the payload: only arrays can be sorted. */
  function RegistriesReply(data: Value): Result<Reply, Failure> {
    match data
    case Arr(items) => Ok(Text(RegistriesText(items)))
    case Null => Err(Foreign("Cannot read properties of null (reading 'sort')"))
    case Undefined => Err(Foreign("Cannot read properties of undefined (reading 'sort')"))
    case _ => Err(Foreign("registries.sort is not a function"))
  }

  // ---- get_database_info ----

  const NoDatabaseInfo := "No local database loaded. Using API fallback for all queries."
  const NoDatabaseSearch := "Search requires local database. No database loaded."

  function EcosystemLine(e: EcosystemCount): string {
    "  " + ToText(e.ecosystem) + ": " + NatToString(e.count)
  }

  function DatabaseInfo(store: Store): string {
    var buildInfo := GetBuildInfo(Some(store)).value;
    var ecosystems := GetEcosystemCounts(Some(store)).value;
    var built := Or(if buildInfo.Some? then Get(Obj(buildInfo.value), "built_at") else Undefined, Str("unknown"));
    "Local database loaded:\n  Total packages: " + NatToString(Total(ecosystems)) +
    "\n  Built: " + ToText(built) + "\n\nPackages by ecosystem:\n" +
    Join(seq(|ecosystems|, i requires 0 <= i < |ecosystems| => EcosystemLine(ecosystems[i])), "\n")
  }

  /** The total reported is the number of package rows. */
  lemma DatabaseTotal(store: Store)
    ensures StartsWith(DatabaseInfo(store), "Local database loaded:\n  Total packages: " + NatToString(|store.packages|))
  {
    EcosystemCountsSpec(store);
    var head := "Local database loaded:\n  Total packages: " + NatToString(|store.packages|);
    assert DatabaseInfo(store)[..|head|] == head;
  }

  // ---- handleToolCall ----

  function Heading(what: string, args: Args): string {
    what + " for " + TextOf(args.ecosystem) + "/" + TextOf(args.name)
  }

  function VersionsText(args: Args, versions: seq<Value>): string {
    Heading("Versions", args) + ":\n" + FormatVersions(versions, VersionsLimit)
  }

  function AdvisoriesText(args: Args, count: string, advisories: seq<Value>): string {
    Heading("Security advisories", args) + ": " + count + " found\n\n" + FormatAdvisories(advisories, AdvisoriesLimit)
  }

  function RepositoryText(args: Args, repo: Value, repoUrl: Value): string {
    Heading("Repository", args) + ":\n" + FormatRepo(repo, repoUrl)
  }

  /** Apply f to a successful fetch, keeping the call log. */
  function Then<A, B>(t: Answer<A>, f: A -> Result<B, Failure>): (r: Answer<B>)
    ensures r.calls == t.calls
    ensures t.result.Err? ==> r.result == Err(t.result.error)
  {
    Traced(if t.result.Ok? then f(t.result.value) else Err(t.result.error), t.calls)
  }

  function PackageReply(found: Found): Result<Reply, Failure> {
    match found
    case Local(record) => Ok(Text(FormatPackage(record)))
    case Remote(data) => Ok(Text(FormatPackage(data)))
  }

  function LookupReply(found: Found): Result<Reply, Failure> {
    match found
    case Local(record) => Ok(Text(FormatPackage(record)))
    case Remote(Arr(items)) =>
      Ok(Text(Join(seq(|items|, i requires 0 <= i < |items| => FormatPackage(items[i])), "\n\n---\n\n")))
    case Remote(data) => Ok(Text(FormatPackage(data)))
  }

  function Unmapped(args: Args): Answer<Reply> {
    Traced(Err(Mcp(NewInvalidEcosystem(TextOf(args.ecosystem)))), [])
  }

  function Versions(env: Env, args: Args): Answer<Reply> {
    match LocalPackage(env, args.ecosystem, args.name)
    case Some(row) =>
      var versions := GetVersionsFromDb(env.db, Col(row, "id")).value;
      Traced(Ok(Text(VersionsText(args, Rows(versions)))), [])
    case None =>
      match EcosystemToRegistry(args.ecosystem)
      case None => Unmapped(args)
      case Some(registry) =>
        Then(FetchApi(env.remote, env.version, PackagePath(registry, args.name) + "/versions", [], DefaultTimeoutMs),
          (data: Value) => VersionsReply(args, data))
  }

  function VersionsReply(args: Args, data: Value): Result<Reply, Failure> {
    match ShownList(data)
    case Ok(versions) => Ok(Text(VersionsText(args, versions)))
    case Err(e) => Err(e)
  }

  function Advisories(env: Env, args: Args): Answer<Reply> {
    match LocalPackage(env, args.ecosystem, args.name)
    case Some(row) =>
      var advisories := GetAdvisoriesFromDb(env.db, Col(row, "id")).value;
      Traced(Ok(Text(AdvisoriesText(args, NatToString(|advisories|), Rows(advisories)))), [])
    case None =>
      match EcosystemToRegistry(args.ecosystem)
      case None => Unmapped(args)
      case Some(registry) =>
        Then(FetchApi(env.remote, env.version, PackagePath(registry, args.name), [], DefaultTimeoutMs),
          (data: Value) => AdvisoriesReply(args, data))
  }

  /** `pkgData?.advisories || []`, counted and formatted. */
  function AdvisoriesReply(args: Args, data: Value): Result<Reply, Failure> {
    var advisories := Or(Get(data, "advisories"), Arr([]));
    match ShownList(advisories)
    case Ok(list) => Ok(Text(AdvisoriesText(args, LengthText(advisories), list)))
    case Err(e) => Err(e)
  }

  function Repository(env: Env, args: Args): Answer<Reply> {
    match LocalPackage(env, args.ecosystem, args.name)
    case Some(row) =>
      var repo := GetRepoMetadataFromDb(env.db, Col(row, "id")).value;
      var repoValue := if repo.Some? then Obj(repo.value) else Undefined;
      Traced(Ok(Text(RepositoryText(args, repoValue, Col(row, "repository_url")))), [])
    case None =>
      Then(GetPackage(env, args.ecosystem, args.name),
        (found: Found) =>
          match found
          case Local(_) => Ok(Text(RepositoryText(args, Undefined, Undefined)))
          case Remote(data) => Ok(Text(RepositoryText(args, Get(data, "repo_metadata"), Get(data, "repository_url")))))
  }

  function Dependents(env: Env, args: Args): Answer<Reply> {
    match EcosystemToRegistry(args.ecosystem)
    case None => Unmapped(args)
    case Some(registry) =>
      Then(FetchApi(env.remote, env.version, PackagePath(registry, args.name) + "/dependent_packages",
          [("page", Number(args.page)), ("per_page", Number(args.perPage))], DefaultTimeoutMs),
        (data: Value) => Ok(Json(Obj(map["source" := Str("api"), "dependents" := data]))))
  }

  /** `args.limit || 20` */
  function SearchLimitOf(args: Args): int {
    match args.limit
    case Some(n) => if n != 0 then n else DefaultSearchLimit
    case None => DefaultSearchLimit
  }

  function Search(env: Env, args: Args): Answer<Reply> {
    if env.db.None? then Traced(Ok(Text(NoDatabaseSearch)), [])
    else match args.query
      case None => Traced(Err(Foreign("Cannot read properties of undefined (reading 'replace')")), [])
      case Some(q) =>
        var results := SearchPackagesInDb(env.db, q, SearchLimitOf(args)).value;
        Traced(Ok(Text("Search results for \"" + q + "\":\n\n" + FormatSearchResults(Rows(results), SearchLimit))), [])
  }

  /** handleToolCall for every tool but health_check. */
  function HandleToolCall(env: Env, tool: string, args: Args): (t: Answer<Reply>)
    requires tool != "health_check"
    ensures |t.calls| <= 1
  {
    match tool
    case "get_package" => Then(GetPackage(env, args.ecosystem, args.name), PackageReply)
    case "lookup_package" => Then(LookupPackage(env, args), LookupReply)
    case "get_package_versions" => Versions(env, args)
    case "get_package_advisories" => Advisories(env, args)
    case "get_package_repository" => Repository(env, args)
    case "get_package_dependents" => Dependents(env, args)
    case "search_packages" => Search(env, args)
    case "list_registries" =>
      Then(FetchApi(env.remote, env.version, "/registries", [], DefaultTimeoutMs), RegistriesReply)
    case "get_database_info" =>
      Traced(Ok(Text(if env.db.None? then NoDatabaseInfo else DatabaseInfo(env.db.value))), [])
    case _ => Traced(Err(Mcp(NewInvalidInput("Unknown tool: " + tool))), [])
  }

  /** Versions, advisories and repository answer from the snapshot on a local
      hit, with no remote call. */
  lemma LocalVersions(env: Env, args: Args)
    requires LocalPackage(env, args.ecosystem, args.name).Some?
    ensures HandleToolCall(env, "get_package_versions", args).calls == []
    ensures HandleToolCall(env, "get_package_versions", args).result.Ok?
  {
    assert HandleToolCall(env, "get_package_versions", args) == Versions(env, args);
  }

  lemma LocalAdvisories(env: Env, args: Args)
    requires LocalPackage(env, args.ecosystem, args.name).Some?
    ensures HandleToolCall(env, "get_package_advisories", args).calls == []
    ensures HandleToolCall(env, "get_package_advisories", args).result.Ok?
  {
    assert HandleToolCall(env, "get_package_advisories", args) == Advisories(env, args);
  }

  lemma LocalRepository(env: Env, args: Args)
    requires LocalPackage(env, args.ecosystem, args.name).Some?
    ensures HandleToolCall(env, "get_package_repository", args).calls == []
    ensures HandleToolCall(env, "get_package_repository", args).result.Ok?
  {
    RepositoryFromStore(env, args);
    assert HandleToolCall(env, "get_package_repository", args) == Repository(env, args);
  }

  /** The local branch of get_package_repository answers without calling the API. */
  lemma RepositoryFromStore(env: Env, args: Args)
    requires LocalPackage(env, args.ecosystem, args.name).Some?
    ensures Repository(env, args).calls == []
    ensures Repository(env, args).result.Ok?
  {
  }

  /** Dependents never consult the snapshot: any two snapshots give the same answer. */
  lemma DependentsIgnoreStore(env: Env, other: Option<Store>, args: Args)
    ensures HandleToolCall(env, "get_package_dependents", args) ==
      HandleToolCall(Env(other, env.remote, env.version), "get_package_dependents", args)
  {
    var moved := Env(other, env.remote, env.version);
    assert HandleToolCall(env, "get_package_dependents", args) == Dependents(env, args);
    assert HandleToolCall(moved, "get_package_dependents", args) == Dependents(moved, args);
  }

  /** A fetched package without advisories reports none. */
  lemma RemoteAdvisoriesDefault(args: Args, data: Value)
    requires !Truthy(Get(data, "advisories"))
    ensures AdvisoriesReply(args, data) ==
      Ok(Text(Heading("Security advisories", args) + ": " + "0" + " found\n\n" + "No known security advisories."))
  {
    assert Or(Get(data, "advisories"), Arr([])) == Arr([]);
    assert LengthText(Arr([])) == "0";
  }

  /** A fetched list of advisories is counted in full and formatted. */
  lemma RemoteAdvisoriesListed(args: Args, data: Value)
    requires Get(data, "advisories").Arr?
    ensures AdvisoriesReply(args, data) == Ok(Text(AdvisoriesText(args,
      NatToString(|Get(data, "advisories").items|), Get(data, "advisories").items)))
  {
  }

  /** Without a snapshot, search and database info answer with their notices. */
  lemma NoStoreNotices(env: Env, args: Args)
    requires env.db.None?
    ensures HandleToolCall(env, "search_packages", args) == Traced(Ok(Text(NoDatabaseSearch)), [])
    ensures HandleToolCall(env, "get_database_info", args) == Traced(Ok(Text(NoDatabaseInfo)), [])
  {
  }

  /** Any other tool name fails with INVALID_INPUT naming it. */
  lemma UnknownTool(env: Env, tool: string, args: Args)
    requires tool !in {"get_package", "lookup_package", "get_package_versions", "get_package_advisories",
      "get_package_repository", "get_package_dependents", "search_packages", "list_registries",
      "get_database_info", "health_check"}
    ensures HandleToolCall(env, tool, args) == Traced(Err(Mcp(NewInvalidInput("Unknown tool: " + tool))), [])
  {
  }
}
