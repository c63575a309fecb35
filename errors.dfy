/** The error taxonomy of lib/errors.js: a record of code, message, details and
    retryability, its factories, its JSON form and its one-line rendering. */
module Errors {

  import opened Wrappers
  import opened Text
  import opened Values

  datatype ErrorCode =
    | InvalidEcosystem
    | InvalidInput
    | PackageNotFound
    | DatabaseError
    | InternalError
    | ApiError
    | ApiTimeout
    | ApiUnavailable

  /** The string each code stands for. */
  function CodeName(c: ErrorCode): string
  {
    match c
    case InvalidEcosystem => "INVALID_ECOSYSTEM"
    case InvalidInput => "INVALID_INPUT"
    case PackageNotFound => "PACKAGE_NOT_FOUND"
    case DatabaseError => "DATABASE_ERROR"
    case InternalError => "INTERNAL_ERROR"
    case ApiError => "API_ERROR"
    case ApiTimeout => "API_TIMEOUT"
    case ApiUnavailable => "API_UNAVAILABLE"
  }

  /** The code a name stands for, if any: the inverse of CodeName. */
  function CodeNamed(s: string): (r: Option<ErrorCode>)
    ensures r.Some? ==> CodeName(r.value) == s
  {
    if s == "INVALID_ECOSYSTEM" then Some(InvalidEcosystem)
    else if s == "INVALID_INPUT" then Some(InvalidInput)
    else if s == "PACKAGE_NOT_FOUND" then Some(PackageNotFound)
    else if s == "DATABASE_ERROR" then Some(DatabaseError)
    else if s == "INTERNAL_ERROR" then Some(InternalError)
    else if s == "API_ERROR" then Some(ApiError)
    else if s == "API_TIMEOUT" then Some(ApiTimeout)
    else if s == "API_UNAVAILABLE" then Some(ApiUnavailable)
    else None
  }

  lemma CodeNameRoundTrip(c: ErrorCode)
    ensures CodeNamed(CodeName(c)) == Some(c)
  {
  }

  /** McpError; details is null (None) unless a factory supplies it. */
  datatype McpError = McpError(code: ErrorCode, message: string, details: Option<string>, retryable: bool)

  /** What a lookup can fail with: an McpError, or any other exception, which
      the core passes on unchanged (only its message is kept). */
  datatype Failure = Mcp(error: McpError) | Foreign(message: string)

  /** The constructor with its defaults: no details, not retryable. */
  function Plain(code: ErrorCode, message: string): (e: McpError)
    ensures e.code == code && e.message == message && e.details.None? && !e.retryable
  {
    McpError(code, message, None, false)
  }

  const SupportedHint := "Supported: npm, pypi, rubygems, cargo, go, maven, nuget, packagist, hex, pub, etc."

  function NewInvalidEcosystem(ecosystem: string): (e: McpError)
    ensures e.code == InvalidEcosystem && !e.retryable
    ensures e.message == "Unknown ecosystem: " + ecosystem && e.details == Some(SupportedHint)
  {
    McpError(InvalidEcosystem, "Unknown ecosystem: " + ecosystem, Some(SupportedHint), false)
  }

  function NewPackageNotFound(ecosystem: string, name: string): (e: McpError)
    ensures e.code == PackageNotFound && !e.retryable && e.details.None?
    ensures e.message == "Package not found: " + ecosystem + "/" + name
  {
    Plain(PackageNotFound, "Package not found: " + ecosystem + "/" + name)
  }

  /** An HTTP failure: retryable exactly for server errors (>= 500) and 429. */
  function NewApiError(status: int, statusText: string, url: string): (e: McpError)
    ensures e.code == ApiError && e.details == Some(url)
    ensures e.retryable <==> status >= 500 || status == 429
    ensures e.message == "API error: " + IntToString(status) + " " + statusText
  {
    McpError(ApiError, "API error: " + IntToString(status) + " " + statusText, Some(url), status >= 500 || status == 429)
  }

  /** A request cancelled by its timer: always retryable, carrying the bound. */
  function NewApiTimeout(url: string, timeoutMs: int): (e: McpError)
    ensures e.code == ApiTimeout && e.retryable && e.details == Some(url)
    ensures e.message == "API request timed out after " + IntToString(timeoutMs) + "ms"
  {
    McpError(ApiTimeout, "API request timed out after " + IntToString(timeoutMs) + "ms", Some(url), true)
  }

  function NewDatabaseError(message: string): (e: McpError)
    ensures e.code == DatabaseError && !e.retryable && e.details.None?
    ensures e.message == "Database error: " + message
  {
    Plain(DatabaseError, "Database error: " + message)
  }

  function NewInvalidInput(message: string): (e: McpError)
    ensures e.code == InvalidInput && !e.retryable && e.details.None? && e.message == message
  {
    Plain(InvalidInput, message)
  }

  /** toJSON: the four fields as a plain object. */
  function ToJson(e: McpError): Value
  {
    Obj(map[
      "code" := Str(CodeName(e.code)),
      "message" := Str(e.message),
      "details" := (match e.details case None => Null case Some(d) => Str(d)),
      "retryable" := Bool(e.retryable)])
  }

  /** Reading the four fields back from the object toJSON builds. */
  function FromJson(v: Value): Option<McpError>
  {
    match (Get(v, "code"), Get(v, "message"), Get(v, "details"), Get(v, "retryable"))
    case (Str(c), Str(m), d, Bool(r)) =>
      (match CodeNamed(c)
       case None => None
       case Some(code) =>
         match d
         case Null => Some(McpError(code, m, None, r))
         case Str(t) => Some(McpError(code, m, Some(t), r))
         case _ => None)
    case _ => None
  }

  /** toJSON loses nothing: every field comes back unchanged. */
  lemma JsonRoundTrip(e: McpError)
    ensures FromJson(ToJson(e)) == Some(e)
  {
    CodeNameRoundTrip(e.code);
  }

  /** toString: "[CODE] message", then " (details)" when details is non-empty,
      then " - may retry" when retryable. */
  function ToString(e: McpError): string
  {
    "[" + CodeName(e.code) + "] " + e.message
      + (if e.details.Some? && e.details.value != "" then " (" + e.details.value + ")" else "")
      + (if e.retryable then " - may retry" else "")
  }

  /** The code read back from the head of a rendering: the text between the
      leading '[' and the first ']'. */
  function CodeOfLine(line: string): Option<ErrorCode>
  {
    if line == [] || line[0] != '[' then None
    else match IndexOf(line[1..], ']')
      case None => None
      case Some(k) => CodeNamed(line[1..][..k])
  }

  lemma CodeNamesHaveNoBracket(c: ErrorCode)
    ensures ']' !in CodeName(c)
  {
  }

  /** The one-line rendering keeps the code readable for programmatic retry logic. */
  lemma ToStringCode(e: McpError)
    ensures CodeOfLine(ToString(e)) == Some(e.code)
  {
    var name := CodeName(e.code);
    var line := ToString(e);
    var after := line[1..];
    CodeNamesHaveNoBracket(e.code);
    assert after == name + ("] " + e.message
      + (if e.details.Some? && e.details.value != "" then " (" + e.details.value + ")" else "")
      + (if e.retryable then " - may retry" else ""));
    CloseBracketAfter(name, after);
    assert after[..|name|] == name;
    CodeNameRoundTrip(e.code);
  }

  lemma {:induction false} CloseBracketAfter(name: string, s: string)
    requires ']' !in name && StartsWith(s, name) && |s| > |name| && s[|name|] == ']'
    ensures IndexOf(s, ']') == Some(|name|)
  {
    if name != [] {
      assert ']' !in name[1..];
      assert s[1..][..|name| - 1] == name[1..];
      CloseBracketAfter(name[1..], s[1..]);
    }
  }

  /** The rendering in its four cases: the head "[CODE] message", then
      " (details)" exactly when details are non-empty, then " - may retry"
      exactly when retryable. */
  lemma ToStringShape(e: McpError)
    ensures e.retryable ==> EndsWith(ToString(e), " - may retry")
    ensures !e.retryable && (e.details.None? || e.details.value == "") ==>
      ToString(e) == "[" + CodeName(e.code) + "] " + e.message
    ensures !e.retryable && e.details.Some? && e.details.value != "" ==>
      ToString(e) == "[" + CodeName(e.code) + "] " + e.message + " (" + e.details.value + ")"
    ensures e.retryable && (e.details.None? || e.details.value == "") ==>
      ToString(e) == "[" + CodeName(e.code) + "] " + e.message + " - may retry"
    ensures e.retryable && e.details.Some? && e.details.value != "" ==>
      ToString(e) == "[" + CodeName(e.code) + "] " + e.message + " (" + e.details.value + ")" + " - may retry"
    ensures e.details.Some? && e.details.value != "" ==>
      StartsWith(ToString(e), "[" + CodeName(e.code) + "] " + e.message + " (" + e.details.value + ")")
    ensures StartsWith(ToString(e), "[" + CodeName(e.code) + "] " + e.message)
  {
    var head := "[" + CodeName(e.code) + "] " + e.message;
    var mid := if e.details.Some? && e.details.value != "" then " (" + e.details.value + ")" else "";
    var tail := if e.retryable then " - may retry" else "";
    assert ToString(e) == head + (mid + tail);
    assert ToString(e) == (head + mid) + tail;
  }
}
