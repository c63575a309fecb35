/** The remote fetch client of lib/api.js: request shaping (path cleaning,
    parameter filtering, headers) and the classification of a request's
    outcome into a value or an error. The network itself is an oracle. */
module Api {

  import opened Wrappers
  import opened Text
  import opened Values
  import opened Errors
  import opened Encoding

  const ApiBase := "https://packages.ecosyste.ms/api/v1"
  const DefaultTimeoutMs := 30000

  function UserAgent(version: string): string {
    "ecosystems-mcp/" + version
  }

  /** The headers every request carries; version is the package's own version. */
  function Headers(version: string): seq<(string, string)>
  {
    [("Accept", "application/json"), ("User-Agent", UserAgent(version))]
  }

  /** The path with one leading '/' removed, so that it is appended to the base. */
  function CleanPath(path: string): (r: string)
    ensures StartsWith(path, "/") ==> "/" + r == path
    ensures !StartsWith(path, "/") ==> r == path
  {
    if StartsWith(path, "/") then path[1..] else path
  }

  /** Exactly one slash is removed, whatever follows it. */
  lemma CleanPathRemovesOne(rest: string)
    ensures CleanPath("/" + rest) == rest
  {
    assert StartsWith("/" + rest, "/");
  }

  /** The parameter values that are sent: all but undefined, null and "". */
  predicate Kept(v: Value) {
    v != Undefined && v != Null && v != Str("")
  }

  /** The (key, text) pairs appended to the query, in their original order;
      URLSearchParams.append converts the value with String(). */
  function KeptParams(params: seq<(string, Value)>): seq<(string, string)>
  {
    if params == [] then [] else Sent(params[0]) + KeptParams(params[1..])
  }

  /** What one parameter contributes to the query. */
  function Sent(param: (string, Value)): seq<(string, string)>
  {
    if Kept(param.1) then [(param.0, ToText(param.1))] else []
  }

  /** The filter distributes over concatenation, so it keeps the original order. */
  lemma {:induction false} KeptParamsAppend(a: seq<(string, Value)>, b: seq<(string, Value)>)
    ensures KeptParams(a + b) == KeptParams(a) + KeptParams(b)
  {
    if a == [] {
      assert a + b == b;
    } else {
      assert (a + b)[0] == a[0] && (a + b)[1..] == a[1..] + b;
      KeptParamsAppend(a[1..], b);
      assert KeptParams(a + b) == Sent(a[0]) + KeptParams(a[1..] + b);
    }
  }

  /** A parameter is sent exactly when its value is kept, and then as its text. */
  lemma {:induction false} KeptParamsMembers(params: seq<(string, Value)>, key: string, text: string)
    ensures (key, text) in KeptParams(params) <==>
      exists i :: 0 <= i < |params| && params[i].0 == key && Kept(params[i].1) && ToText(params[i].1) == text
  {
    if params != [] {
      KeptParamsMembers(params[1..], key, text);
      if exists i :: 0 <= i < |params| && params[i].0 == key && Kept(params[i].1) && ToText(params[i].1) == text {
        var i :| 0 <= i < |params| && params[i].0 == key && Kept(params[i].1) && ToText(params[i].1) == text;
        if i > 0 { assert params[1..][i - 1] == params[i]; }
      }
    }
  }

  /** The forEach of fetchAPI: each kept parameter is appended to the query in turn. */
  method AppendSearchParams(params: seq<(string, Value)>) returns (query: seq<(string, string)>)
    ensures query == KeptParams(params)
  {
    query := [];
    var i := 0;
    while i < |params|
      invariant 0 <= i <= |params|
      invariant query == KeptParams(params[..i])
    {
      var (key, value) := params[i];
      if value != Undefined && value != Null && value != Str("") {
        query := query + [(key, ToText(value))];
      }
      KeptParamsAppend(params[..i], [params[i]]);
      assert params[..i + 1] == params[..i] + [params[i]];
      i := i + 1;
    }
    assert params[..i] == params;
  }

  /** The serialised query: empty when nothing is kept. */
  function QueryText(query: seq<(string, string)>): string
  {
    if query == [] then ""
    else "?" + Join(seq(|query|, i requires 0 <= i < |query| => FormEncode(query[i].0) + "=" + FormEncode(query[i].1)), "&")
  }

  /** The URL of a request: the base, a '/', the cleaned path and the query. */
  function RequestUrl(path: string, params: seq<(string, Value)>): (url: string)
    ensures StartsWith(url, ApiBase + "/" + CleanPath(path))
    ensures KeptParams(params) == [] ==> url == ApiBase + "/" + CleanPath(path)
    ensures KeptParams(params) != [] ==>
              url == ApiBase + "/" + CleanPath(path) + QueryText(KeptParams(params)) && url[|ApiBase + "/" + CleanPath(path)|] == '?'
  {
    var head := ApiBase + "/" + CleanPath(path);
    var url := head + QueryText(KeptParams(params));
    assert url[..|head|] == head;
    url
  }

  /** What an HTTP exchange can end in, as the client sees it. */
  datatype Response = Response(status: int, statusText: string, body: Result<Value, string>)

  datatype Outcome =
    | Responded(response: Response)   // the server answered
    | Aborted                          // the timer fired first and cancelled the request
    | Failed(message: string)          // any other failure (DNS, connection reset, ...)

  /** What is handed to fetch: the URL, the headers, and the timer's bound. */
  datatype Request = Request(url: string, headers: seq<(string, string)>, timeoutMs: int)

  /** The remote API, as an oracle from requests to outcomes. */
  type Remote = Request -> Outcome

  /** One entry of the call log: the arguments fetchAPI was called with. */
  datatype Call = Call(path: string, params: seq<(string, Value)>, timeoutMs: int)

  /** A result together with the remote calls made to compute it, in order. */
  datatype Traced<T> = Traced(result: T, calls: seq<Call>)

  predicate IsOk(status: int) { 200 <= status <= 299 }

  /** The try/catch of fetchAPI: a 2xx answer yields its JSON; any other status
      becomes apiError; an abort becomes apiTimeout; any other error, including
      a body that is not JSON, is passed on unchanged. */
  function Classify(url: string, timeoutMs: int, outcome: Outcome): (r: Result<Value, Failure>)
    ensures r.Ok? <==> outcome.Responded? && IsOk(outcome.response.status) && outcome.response.body.Ok?
    ensures r.Ok? ==> r.value == outcome.response.body.value
    ensures r.Err? && r.error.Mcp? ==> r.error.error.details == Some(url)
    ensures r.Err? && r.error.Mcp? <==> outcome.Aborted? || (outcome.Responded? && !IsOk(outcome.response.status))
  {
    match outcome
    case Responded(Response(status, statusText, body)) =>
      if !IsOk(status) then Err(Mcp(NewApiError(status, statusText, url)))
      else (match body
            case Ok(json) => Ok(json)
            case Err(message) => Err(Foreign(message)))
    case Aborted => Err(Mcp(NewApiTimeout(url, timeoutMs)))
    case Failed(message) => Err(Foreign(message))
  }

  /** Retryability of a classified failure: timeouts, server errors and 429. */
  lemma ClassifyRetryable(url: string, timeoutMs: int, outcome: Outcome)
    requires Classify(url, timeoutMs, outcome).Err?
    requires Classify(url, timeoutMs, outcome).error.Mcp?
    ensures Classify(url, timeoutMs, outcome).error.error.retryable <==>
      outcome.Aborted? || outcome.response.status >= 500 || outcome.response.status == 429
    ensures outcome.Aborted? ==> Classify(url, timeoutMs, outcome).error.error.code == ApiTimeout
    ensures outcome.Responded? ==> Classify(url, timeoutMs, outcome).error.error.code == ApiError
  {
  }

  /** fetchAPI: one call is logged; the oracle sees the built URL, the two
      headers and the bound; its outcome is classified against that URL. */
  function FetchApi(remote: Remote, version: string, path: string, params: seq<(string, Value)>, timeoutMs: int)
    : (t: Traced<Result<Value, Failure>>)
    ensures t.calls == [Call(path, params, timeoutMs)]
    ensures t.result == Classify(RequestUrl(path, params), timeoutMs,
      remote(Request(RequestUrl(path, params),
        [("Accept", "application/json"), ("User-Agent", "ecosystems-mcp/" + version)], timeoutMs)))
  {
    var url := RequestUrl(path, params);
    Traced(Classify(url, timeoutMs, remote(Request(url, Headers(version), timeoutMs))), [Call(path, params, timeoutMs)])
  }

  /** 503 is a retryable API error, 404 is not, and a timeout is retryable
      and names its bound. */
  lemma StatusExamples(url: string, text: string, body: Result<Value, string>)
    ensures Classify(url, DefaultTimeoutMs, Responded(Response(503, text, body))) == Err(Mcp(NewApiError(503, text, url)))
    ensures NewApiError(503, text, url).retryable && !NewApiError(404, text, url).retryable
    ensures Classify(url, DefaultTimeoutMs, Aborted) == Err(Mcp(NewApiTimeout(url, 30000)))
    ensures NewApiTimeout(url, 30000).retryable
  {
  }
}
