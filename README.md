# Package lookup core of ecosystems-mcp, in Dafny

This project models the part of the ecosyste.ms MCP server that answers
"what package is this?". The server looks in a local read-only SQLite
snapshot first and falls back to the remote packages API. The model covers:

- the ecosystem → registry tables and the package-url parser (`registries.dfy`);
- the error taxonomy with its retryability rule and renderings (`errors.dfy`);
- the remote fetch client's request shaping and outcome classification (`api.dfy`);
- the local store connector: choosing the snapshot file, the FTS5 phrase
  quoting, and every query as a filter over in-memory rows (`db.dfy`);
- the text formatters (`formatters.dfy`);
- the tool layer: `getPackage`, `lookupPackage` and the cases of
  `handleToolCall` (`orchestrator.dfy`).

Supporting modules hold JavaScript values and their rendering (`values.dfy`),
string helpers (`text.dfy`), `encodeURIComponent` and form encoding over
UTF-8 (`encoding.dfy`), and a stable sort used for every ORDER BY and
`Array.prototype.sort` (`sorting.dfy`).

Modelling choices:

- The local store is an explicit `Option<Store>`. `None` means that no
  snapshot is loaded. Every query then answers `None`, the source's `null`.
- The remote API is an oracle `Request -> Outcome`. An outcome is an HTTP
  response, an abort by the timer, or another failure. Every orchestrator
  function returns `Traced(result, calls)`: the result, plus the log of the
  `fetchAPI` calls made to compute it. "No remote call" is a statement about
  that log.
- Thrown errors are `Err` values. An `McpError` is `Mcp(e)`. Any other
  exception (a TypeError, a body that is not JSON) is `Foreign(message)`.
- `initDatabase` is a method on a `Connector` class whose `db` field is the
  module-level variable. The file system is an oracle from paths to
  `Missing | Unopenable | Openable(store)`.
- The `list_registries` loop is the method `ListRegistries`. It is proved
  equal to the text function the tool case uses.

Two behaviours of the code worth noting:

- Nothing in `index.js` turns a database exception into `DATABASE_ERROR`.
  `databaseError` exists but is never called there.
- A timeout error's details are the URL. The timeout bound is in its message.

## Model

| member | source | states |
|---|---|---|
| Registries.EcosystemToRegistry | lib/registries.js:43-45 | a result is the registry paired in the table with the lowercased ecosystem; None for null and for ecosystems absent from the table |
| Registries.RegistryToEcosystem | lib/registries.js:47-49 | the same lookup in the reverse table |
| Registries.CaseInsensitive | lib/registries.js:43-45 | the lookup of s equals the lookup of lower(s) |
| Registries.MixedCaseExamples | test/index.test.js:31-34 | "NPM" and "PyPi" map to npmjs.org and pypi.org |
| Registries.LookupExamples | test/index.test.js:19-29 | npm, pypi and rubygems map to their registries |
| Registries.UnknownExamples | test/index.test.js:36-39 | "unknown" and null map to None |
| Registries.TableDistinct | lib/registries.js:1-37 | the table has 35 entries, with 35 distinct ecosystems and 35 distinct registries |
| Registries.MapSizes | lib/registries.js:1-41 | the forward and reverse maps both hold 35 keys |
| Registries.TableRoundTrip | lib/registries.js:1-49 | for each table entry (e, r), e maps to r and r maps back to e |
| Registries.ReverseDefinedOnForwardValues | lib/registries.js:39-41 | registryToEcosystem(r) is defined exactly when lower(r) is a registry of the forward table |
| Registries.FromEntriesKeys | lib/registries.js:39-41 | Object.fromEntries binds exactly the keys of its entries |
| Registries.FromEntries | lib/registries.js:39-41 | no contract; see Registries.FromEntriesKeys and Registries.FromEntriesValue |
| Registries.FromEntriesValue | lib/registries.js:39-41 | a bound key holds the value of its last entry |
| Registries.ParsePurl | lib/registries.js:51-55 | a successful parse is well formed and lazy, and renders back to the input |
| Registries.ParseRender | lib/registries.js:51-55 | every well-formed, lazy purl parses back to itself |
| Registries.ParsePurlFails | lib/registries.js:51-53 | parsing fails exactly when no well-formed, lazy purl renders to the input |
| Registries.ParseLodash | test/index.test.js:43-50 | "pkg:npm/lodash" parses to npm, lodash, no version |
| Registries.ParseLodashVersion | test/index.test.js:52-59 | "pkg:npm/lodash@4.17.21" carries version 4.17.21 |
| Registries.ParseScoped | test/index.test.js:61-68 | "pkg:npm/%40babel/core@7.0.0" keeps the name undecoded, with its '/' |
| Registries.RejectExamples | test/index.test.js:70-73 | "not-a-purl" and "npm/lodash" do not parse |
| Errors.CodeNameRoundTrip | lib/errors.js:1-15 | each code's string names that code and no other |
| Errors.NewInvalidEcosystem | lib/errors.js:43-49 | code INVALID_ECOSYSTEM, message "Unknown ecosystem: " + e, details list the supported ecosystems, not retryable |
| Errors.NewPackageNotFound | lib/errors.js:51-56 | code PACKAGE_NOT_FOUND, message "Package not found: ecosystem/name", no details, not retryable |
| Errors.NewApiError | lib/errors.js:58-66 | code API_ERROR, details the URL, retryable exactly when status >= 500 or status == 429 |
| Errors.NewApiTimeout | lib/errors.js:68-75 | code API_TIMEOUT, details the URL, always retryable, message naming the bound in ms |
| Errors.NewDatabaseError | lib/errors.js:77-82 | code DATABASE_ERROR, message "Database error: " + message, no details, not retryable |
| Errors.NewInvalidInput | lib/errors.js:84-89 | code INVALID_INPUT, the given message, not retryable |
| Errors.JsonRoundTrip | lib/errors.js:26-33 | toJSON keeps all four fields: reading them back gives the same error |
| Errors.ToJson | lib/errors.js:26-33 | no contract; see Errors.JsonRoundTrip |
| Errors.ToStringShape | lib/errors.js:35-40 | in each of the four cases the line is exactly "[code] message", then " (details)" exactly when details are non-empty, then " - may retry" exactly when retryable |
| Errors.ToString | lib/errors.js:35-40 | no contract; see Errors.ToStringShape and Errors.ToStringCode |
| Errors.ToStringCode | lib/errors.js:35-36 | the code can be read back from the rendered line |
| Api.CleanPath | lib/api.js:15-16 | one leading '/' is removed; a path without one is unchanged |
| Api.CleanPathRemovesOne | lib/api.js:16 | only one slash is removed, whatever follows it |
| Api.KeptParamsAppend | lib/api.js:18-22 | parameter filtering distributes over concatenation, so order is kept |
| Api.KeptParamsMembers | lib/api.js:18-22 | a (key, text) pair is sent exactly when some parameter has that key and a value other than undefined, null and "" |
| Api.AppendSearchParams | lib/api.js:18-22 | the forEach loop appends exactly the kept parameters, in order |
| Api.RequestUrl | lib/api.js:17-22 | the URL starts with API_BASE + "/" + the cleaned path; it is exactly that when no parameter is kept, and otherwise continues with "?" and the query of exactly the kept parameters |
| Api.Classify | lib/api.js:36-45 | success exactly for a 2xx response with a JSON body; MCP errors exactly for a non-2xx status or an abort, with the URL as details; other failures are passed on |
| Api.ClassifyRetryable | lib/api.js:36-44 | a classified error is retryable exactly for an abort, a status >= 500 or 429; an abort gives API_TIMEOUT, a status gives API_ERROR |
| Api.Headers | lib/api.js:29-32 | no contract; the headers are stated literally in Api.FetchApi |
| Api.FetchApi | lib/api.js:14-49 | each fetch logs exactly one call with its path, parameters and timeout; the remote is asked for the built URL with the headers Accept: application/json and User-Agent "ecosystems-mcp/" + version and the timeout bound, and the result is that answer as Classify reads it |
| Api.StatusExamples | lib/api.js:36-45 | 503 is a retryable API error, 404 is not, and a timeout after the default 30000 ms is retryable |
| Sorting.SortPermutes | lib/db.js:60 | sorting keeps exactly the input's elements |
| Sorting.SortSorted | lib/db.js:60 | under a strict weak order, the sorted list is in order |
| Db.GetPackageFromDb | lib/db.js:34-43 | None without a snapshot; no row exactly when no package row matches both ecosystem and name (NULL never matches); a hit is the selected columns of the first matching row in storage order |
| Db.GetPackageByPurl | lib/db.js:45-54 | None without a snapshot; no row exactly when no package row has the purl (NULL never matches); a hit is the selected columns of the first such row |
| Db.GetVersionsFromDb | lib/db.js:56-62 | None without a snapshot; never more rows than the versions table |
| Db.VersionsOrdered | lib/db.js:56-62 | the versions are the package's version rows, ordered by published_at descending with NULLs last |
| Db.GetAdvisoriesFromDb | lib/db.js:64-71 | None without a snapshot; each row is a projected advisory of that package, and the result is the projection of all of the package's advisory rows in storage order |
| Db.Where | lib/db.js:66-70 | `.all()` keeps exactly the matching rows, each as often as it occurs in the table |
| Db.AdvisoriesComplete | lib/db.js:64-71 | every advisory row of the package appears in the result, and there is one result per matching row |
| Db.GetRepoMetadataFromDb | lib/db.js:73-80 | None without a snapshot; no row exactly when no repo_metadata row belongs to the package; a hit is the selected columns of the first such row |
| Db.FtsQuote | lib/db.js:87 | the MATCH string is wrapped in double quotes and is |q| + count('"', q) + 2 characters long: one extra character per embedded quote |
| Db.FtsQuoteRoundTrip | lib/db.js:84-87 | reading the quoted string as an FTS5 string gives back the query; inside the quotes, quote characters come only in adjacent pairs |
| Db.FtsUnquoteInverse | lib/db.js:87 | any string that reads back as q is exactly the quoting of q |
| Db.FtsQuoteHyphen | lib/db.js:84-87 | "better-sqlite3" is searched as one quoted phrase |
| Db.FtsQuoteEmbedded | lib/db.js:87 | an embedded quote is doubled |
| Db.SearchPackagesInDb | lib/db.js:82-98 | None without a snapshot; at most limit rows when limit is not negative; each row is a projected package that matches the quoted query; the result is the first limit matches in storage order |
| Db.SearchCount | lib/db.js:82-98 | the search returns min(limit, matches) rows, every match for a negative limit, and misses no match when all of them fit under the limit |
| Db.GetBuildInfo | lib/db.js:100-103 | None without a snapshot; no row exactly when no build_info row has id 1; a hit is the first such row, whole |
| Db.GroupsSpec | lib/db.js:105-112 | grouping by ecosystem loses no row: the groups are distinct, each counts exactly its rows, and the counts add up to the number of packages |
| Db.EcosystemCountsSpec | lib/db.js:105-112 | the counts come largest first, hold every group once, and add up to the number of packages |
| Db.GetEcosystemCounts | lib/db.js:105-112 | None exactly when there is no snapshot; see Db.EcosystemCountsSpec for the counts |
| Db.DbPaths | lib/db.js:6-10 | the candidates are the override (only when set and non-empty), then cwd/critical-packages.db, then home/.ecosystems/critical-packages.db |
| Db.FirstOpenable | lib/db.js:14-28 | the chosen store comes from the first candidate that exists and opens; None exactly when no candidate does |
| Db.Connector.InitDatabase | lib/db.js:12-28 | returns the first openable store and keeps it as the connection; when none opens, the connection is left unchanged |
| Formatters.FormatNumber | lib/formatters.js:1-6 | a falsy value is written "0"; see Formatters.FormatNumberSmall and Formatters.FormatNumberLarge |
| Formatters.FormatNumberSmall | lib/formatters.js:1-6 | a count from 1 to 999 is written in full and reads back exactly |
| Formatters.FormatNumberLarge | lib/formatters.js:3-5 | from 1000 up, a count has one decimal and ends in K, M or B |
| Formatters.Compact | lib/formatters.js:21 | filter(Boolean) keeps exactly the present, non-empty lines |
| Formatters.LatestVersion | lib/formatters.js:10 | latest_version, else latest_release_number, else "Unknown" |
| Formatters.PackageLinesShape | lib/formatters.js:9-22 | four lines are always present; description, dependents, repository and homepage each add one line exactly when truthy; the first line is ecosystem/name |
| Formatters.FormatPackage | lib/formatters.js:8-22 | no contract; see Formatters.PackageLinesShape, Formatters.PackageLatestLine and Formatters.FormatPackageHeader |
| Formatters.PackageLatestLine | lib/formatters.js:15 | the "Latest:" line is always present |
| Formatters.FormatPackageHeader | lib/formatters.js:9-22 | the text opens with ecosystem/name |
| Formatters.VersionDate | lib/formatters.js:77 | the date is published_at up to its first 'T' (all of it when it has none), or "unknown date" when it is absent |
| Formatters.ListLines | lib/formatters.js:75-82 | the first min(n, limit) items, one line each, then the overflow line exactly when n > limit |
| Formatters.FormatVersions | lib/formatters.js:73-74 | "No versions found." exactly for an empty list |
| Formatters.FormatVersionsLineCount | lib/formatters.js:73-84 | when fields have no line breaks, the text has min(n, limit) lines, plus one exactly when n > limit |
| Formatters.Clip | lib/formatters.js:90 | a description of up to 80 characters is kept whole; a longer one is cut to its first 80 |
| Formatters.SearchLineWidth | lib/formatters.js:89-91 | a result line opens with ecosystem/name and is at most 83 characters longer |
| Formatters.FormatSearchResults | lib/formatters.js:86-87 | an empty list gives "No packages found." |
| Formatters.FormatSearchResultsLineCount | lib/formatters.js:86-97 | at most limit result lines, plus the overflow line exactly when n > limit |
| Formatters.Dedupe | lib/formatters.js:45 | the de-duplicated list holds exactly the input's values and is no longer than the input |
| Formatters.DedupeOrder | lib/formatters.js:45 | no value appears twice, and values keep the order of their first occurrence |
| Formatters.FixesDeduplicated | lib/formatters.js:39-47 | with several ranges, the "Fixed in" line lists the truthy fixes once each |
| Formatters.AdvisoryBlockEnds | lib/formatters.js:28-48 | a block opens with [severity] title and ends with the URL, or the uuid when there is no URL |
| Formatters.FormatAdvisories | lib/formatters.js:24-25 | "No known security advisories." for an empty list |
| Formatters.AdvisoriesOverflow | lib/formatters.js:51-54 | past the limit, the text ends with "... and (n - limit) more advisories" |
| Formatters.HostName | lib/formatters.js:59 | an object host renders its name; a scalar host renders itself |
| Formatters.FormatRepo | lib/formatters.js:57-58 | without metadata: "Repository: url", or the no-metadata notice when there is no URL either |
| Formatters.RepoLineCount | lib/formatters.js:60-70 | one line per truthy field |
| Formatters.RepoFlagLines | lib/formatters.js:59-68 | archived, fork and an object host's name produce their lines |
| Orchestrator.LocalRecord | index.js:37 | the tagged record keeps every column of the row, and is tagged "local" unless the row has its own source column |
| Orchestrator.GetPackage | index.js:35-45 | at most one remote call; a local answer makes none |
| Orchestrator.LocalHitNoCall | index.js:35-37 | a local hit answers with the local-tagged row and no remote call |
| Orchestrator.UnmappedNoCall | index.js:39-40 | a local miss on an ecosystem without a registry gives INVALID_ECOSYSTEM and no remote call |
| Orchestrator.MappedOneCall | index.js:42-44 | a local miss on a mapped ecosystem makes exactly one call, to /registries/<registry>/packages/<encoded name>, and the answer is the fetched result, tagged api |
| Orchestrator.LookupPackage | index.js:47-73 | at most one remote call |
| Orchestrator.LookupByPurl | index.js:48-59 | at most one remote call; see Orchestrator.PurlLocalHit, Orchestrator.ParsedPurlFallsThrough and Orchestrator.UnparsedPurlLooksUp |
| Orchestrator.PurlTakesPrecedence | index.js:48 | a purl decides the lookup whatever ecosystem, name and repository_url say |
| Orchestrator.EcosystemNameNext | index.js:61-63 | without a purl, ecosystem and name give exactly getPackage |
| Orchestrator.RepositoryUrlLast | index.js:65-70 | with only a repository_url, one lookup call carrying only that parameter, and the answer is its fetched result |
| Orchestrator.NoIdentifierFails | index.js:72 | with no identifier, INVALID_INPUT and no remote call |
| Orchestrator.PurlLocalHit | index.js:49-50 | a purl found locally answers with the tagged row and no call |
| Orchestrator.ParsedPurlFallsThrough | index.js:49-55 | a parseable purl missing locally behaves exactly as getPackage on its ecosystem and name |
| Orchestrator.UnparsedPurlLooksUp | index.js:57-58 | an unparseable purl missing locally makes one call to /packages/lookup with only the purl parameter, and the answer is its fetched result |
| Orchestrator.ShownList | lib/formatters.js:24-27 | an array payload is read as its elements; any other payload that does not throw reads as an empty list |
| Orchestrator.ListRegistries | index.js:162-172 | the loop builds exactly the text the list_registries case returns |
| Orchestrator.RegistriesListed | index.js:163-171 | registries are sorted by packages_count descending, keeping all of them; at most 30 lines, then the overflow line exactly when there are more than 30 |
| Orchestrator.RegistriesReply | index.js:162-173 | no contract; an array is listed as Orchestrator.RegistriesListed states, and any other payload fails as `.sort` does |
| Orchestrator.DatabaseTotal | index.js:180-186 | the total reported is the number of package rows |
| Orchestrator.DatabaseInfo | index.js:175-186 | no contract; see Orchestrator.DatabaseTotal and Db.EcosystemCountsSpec |
| Orchestrator.HandleToolCall | index.js:75-225 | every tool other than health_check makes at most one remote call |
| Orchestrator.LocalVersions | index.js:96-101 | a local hit answers versions with no remote call |
| Orchestrator.Versions | index.js:96-111 | no contract; see Orchestrator.LocalVersions and Orchestrator.HandleToolCall |
| Orchestrator.LocalAdvisories | index.js:113-119 | a local hit answers advisories with no remote call |
| Orchestrator.Advisories | index.js:113-128 | no contract; see Orchestrator.LocalAdvisories, Orchestrator.RemoteAdvisoriesDefault and Orchestrator.RemoteAdvisoriesListed |
| Orchestrator.LocalRepository | index.js:130-135 | a local hit answers repository with no remote call |
| Orchestrator.Repository | index.js:130-139 | no contract; see Orchestrator.LocalRepository and Orchestrator.RepositoryFromStore |
| Orchestrator.RepositoryFromStore | index.js:130-135 | the local branch answers from the snapshot with no remote call |
| Orchestrator.DependentsIgnoreStore | index.js:141-151 | dependents give the same answer whatever snapshot is loaded |
| Orchestrator.Dependents | index.js:141-151 | no contract; see Orchestrator.DependentsIgnoreStore and Orchestrator.HandleToolCall |
| Orchestrator.RemoteAdvisoriesDefault | index.js:124-127 | a fetched package without advisories reports "0 found" and no advisories |
| Orchestrator.RemoteAdvisoriesListed | index.js:124-127 | a fetched list of advisories is counted in full and formatted |
| Orchestrator.NoStoreNotices | index.js:153-178 | without a snapshot, search and database info answer with their notices and make no call |
| Orchestrator.Search | index.js:153-160 | no contract; see Orchestrator.NoStoreNotices and Db.SearchPackagesInDb |
| Orchestrator.UnknownTool | index.js:222-223 | any other tool name gives INVALID_INPUT "Unknown tool: " + name |

## Left out

- `health_check` (index.js:189-220): it measures wall-clock time and probes the live API. `HandleToolCall` requires another tool name.
- The MCP server wiring, the tool list in `lib/tools.js`, JSON serialisation of replies, and all `console.error` logging.
- `fetch`, `AbortController` and the timers. A request's outcome is an oracle parameter. Clearing the timer is not modelled.
- `new URL` normalisation of the path, for example `..` segments and characters that URL serialisation escapes. The URL string is the base, the cleaned path and the form-encoded query.
- SQLite itself. Rows are in storage order. `.get()` returns the first match in that order. Ties in ORDER BY and the order of full-text hits are modelled as that order, where SQLite leaves them unspecified. FTS5 MATCH semantics are a predicate of the snapshot: the model fixes only the string passed to MATCH. A query that throws inside SQLite is not modelled.
- `existsSync`, `homedir`, `process.cwd` and `process.env` are parameters. Db.DbPaths: `path.join` is modelled as joining with "/" and does not normalise the path.
- Formatters.FormatNumber: from 1000 up it rounds halves up in exact decimal arithmetic, while `toFixed(1)` rounds the binary double, which can differ on a tie (for example 1150). A truthy non-number is rendered with String(), where the source compares it with 1000 after numeric conversion.
- Numbers in JSON payloads are integers (`Num(int)`). Fractional values of fields such as downloads, packages_count or stargazers_count are not modelled.
- Orchestrator.ShownList: an object payload whose `length` key is truthy throws at `.slice` in the source; the model reads every non-array, non-string, non-null payload as an empty list.
- Tool arguments are typed: strings are `Option<string>` and numbers `Option<int>`. An absent and a null argument are both None and both render as "undefined". Arguments of another JSON type are not modelled. An absent SQL parameter is bound as NULL and never matches.
- Orchestrator.PackagesCount: a registry whose packages_count is not a number sorts as 0. The source subtracts the raw values instead, so they coerce: null sorts as 0 as in the model, false and true as 0 and 1, and a numeric string such as "12" as its number. Any other non-number makes the comparator return NaN, and the order is implementation-defined.
- Formatters.VersionDate: a truthy, non-string published_at is split on its String() form, where the source throws a TypeError. Likewise a truthy, non-string description in search results is clipped as text.
- Formatters.AffectedVersions: a truthy, non-array `versions` field is read as empty. A key named "0" on a non-array `packages` value is not read.
- Formatters.Dedupe: `Set` compares objects and arrays by identity. The model compares values structurally, so two equal fix objects are merged.
- Formatting a null or undefined package payload: optional reads give undefined where the source throws a TypeError.
- Null elements of fetched lists are read as objects with no fields. The source throws a TypeError at the first property read of such an element. This covers versions (`v.number`), advisories (`a.severity`), affected packages (`v.vulnerable_version_range`) and registries (`b.packages_count` in the sort, `r.ecosystem` in the line). The model instead gives "undefined" fields. For example, a null version is listed as "  undefined (unknown date)", and a null registry as "undefined: undefined (0 packages)".
- JavaScript prototype keys (for example an ecosystem named "constructor") are absent from the finite maps. `toLowerCase` is ASCII lowercasing. Strings are sequences of code points, not UTF-16 units, so `length` and `slice(0, 80)` count code points.
- Array.prototype.sort works in place on the fetched array. The model sorts a copy; the array is not used afterwards.
