/** The part of the handler that runs before any upstream call: the CORS
    response headers and the decision whether to stop early. */
module CorsGate {
  import opened Wrappers

  /** The origins allowed to read responses. */
  const Allowed: seq<string> := ["https://purelyhomecare.carrd.co"]

  type Header = (string, string)

  /** The request's `Origin` header, or the empty string when it is absent. */
  function RequestOrigin(header: Option<string>): string {
    header.GetOr("")
  }

  /** The `Access-Control-Allow-Origin` value: the request origin when it is
      allowed, otherwise the literal "null". */
  function AllowOrigin(allowed: seq<string>, header: Option<string>): (r: string)
    ensures RequestOrigin(header) in allowed ==> r == RequestOrigin(header)
    ensures RequestOrigin(header) !in allowed ==> r == "null"
    ensures r == "null" || r in allowed
  {
    var origin := RequestOrigin(header);
    if origin in allowed then origin else "null"
  }

  /** A request without an `Origin` header is never granted an origin. */
  lemma MissingOriginRejected(header: Option<string>)
    requires header == None || header == Some("")
    ensures AllowOrigin(Allowed, header) == "null"
  {
    assert RequestOrigin(header) == "";
    assert "" != Allowed[0];
  }

  /** The four headers set on every response, in the order they are set. */
  function CorsHeaders(allowed: seq<string>, header: Option<string>): (h: seq<Header>)
    ensures |h| == 4 && h[0] == ("Vary", "Origin")
    ensures h[1] == ("Access-Control-Allow-Origin", AllowOrigin(allowed, header))
    ensures h[1].1 == "null" || h[1].1 in allowed
    ensures h[2] == ("Access-Control-Allow-Methods", "POST, OPTIONS")
    ensures h[3] == ("Access-Control-Allow-Headers", "Content-Type")
  {
    [("Vary", "Origin"),
     ("Access-Control-Allow-Origin", AllowOrigin(allowed, header)),
     ("Access-Control-Allow-Methods", "POST, OPTIONS"),
     ("Access-Control-Allow-Headers", "Content-Type")]
  }

  /** Where a request stops before the upstream call, if it does. */
  datatype Gate = Preflight | MethodNotAllowed | MissingKey | Proceed

  /** `OPENAI_API_KEY` is truthy: set and not empty. */
  predicate HasKey(key: Option<string>): (b: bool)
    ensures !b <==> key in {None, Some("")}
  {
    key.Some? && key.value != ""
  }

  /** The three early exits, checked in order: pre-flight first, then the
      method, then the key. */
  function Admit(verb: string, key: Option<string>): (g: Gate)
    ensures g == Preflight <==> verb == "OPTIONS"
    ensures g == MethodNotAllowed <==> verb != "OPTIONS" && verb != "POST"
    ensures g == MissingKey <==> verb == "POST" && !HasKey(key)
    ensures g == Proceed <==> verb == "POST" && HasKey(key)
  {
    if verb == "OPTIONS" then Preflight
    else if verb != "POST" then MethodNotAllowed
    else if !HasKey(key) then MissingKey
    else Proceed
  }

  /** The status of an early exit. */
  function EarlyStatus(g: Gate): (status: int)
    requires g != Proceed
    ensures g == Preflight ==> 200 <= status < 300
    ensures g != Preflight ==> 400 <= status < 600
  {
    match g
    case Preflight => 204
    case MethodNotAllowed => 405
    case MissingKey => 500
  }
}
