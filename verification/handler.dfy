/** The request handler as a whole: gate, normalise, call upstream once,
    relay. The upstream call is not made here; its reply is an input. */
module Handler {
  import opened Wrappers
  import opened CorsGate
  import opened Messages
  import opened Relay

  /** The `messages` field of the request body: absent (undefined, so it
      defaults to the empty array), an array of entries, or any other value
      (null, a string, a number, a plain object), on which `map` throws. */
  datatype MessagesField = Absent | List(entries: seq<InMessage>) | NotList

  /** The request body as a JSON object. A missing or falsy body reads as an
      object without fields. */
  datatype RequestBody = RequestBody(messages: MessagesField)

  /** What the handler reads of a request. */
  datatype Request = Request(verb: string, origin: Option<string>, body: Option<RequestBody>)

  /** The process-wide configuration: `OPENAI_API_KEY`, the model name and
      the fixed system prompt. */
  datatype Config = Config(apiKey: Option<string>, model: string, system: string)

  /** The one request sent to the completion endpoint. */
  datatype UpstreamRequest = UpstreamRequest(
    bearer: string, model: string, messages: seq<ChatMessage>, temperature: real, stream: bool)

  /** What the completion endpoint answers: whether the response is `ok`,
      whether it has a body, its text when it failed, and the decoded chunks
      of its body in arrival order. */
  datatype UpstreamReply = UpstreamReply(ok: bool, hasBody: bool, errorText: string, chunks: seq<string>)

  datatype Body =
    | NoContent
    | JsonError(error: string, detail: Option<string>)
    | Streamed(fragments: seq<string>)

  /** The response, and the upstream request if one was made. */
  datatype Response = Response(status: int, headers: seq<Header>, body: Body, sent: Option<UpstreamRequest>)

  /** The caller's messages: none when there is no body or the body has no
      `messages` field, the array when there is one, and None (a throw) when
      the field holds anything else. */
  function CallerMessages(body: Option<RequestBody>): (messages: Option<seq<InMessage>>)
    ensures body == None ==> messages == Some([])
    ensures body.Some? && body.value.messages.Absent? ==> messages == Some([])
    ensures body.Some? && body.value.messages.List? ==> messages == Some(body.value.messages.entries)
    ensures messages == None <==> body.Some? && body.value.messages.NotList?
  {
    match body
    case None => Some([])
    case Some(b) =>
      match b.messages
      case Absent => Some([])
      case List(entries) => Some(entries)
      case NotList => None
  }

  /** The message list sent upstream for a request body, or None when
      building it throws. */
  function Outbound(system: string, body: Option<RequestBody>): (r: Option<seq<ChatMessage>>)
    ensures r.Some? <==> CallerMessages(body).Some? && ChatMessages(system, CallerMessages(body).value).Some?
    ensures r.Some? ==> r == ChatMessages(system, CallerMessages(body).value)
  {
    var messages := CallerMessages(body);
    if messages.None? then None else ChatMessages(system, messages.value)
  }

  const ContentType: Header := ("Content-Type", "text/plain; charset=utf-8")

  /** The handler. Every response carries the CORS headers; the gate decides
      the early exits, and no upstream request is made on any of them. A
      conversation that throws while being built ends in the catch-all 500,
      also without an upstream request. */
  method Handle(config: Config, req: Request, reply: UpstreamReply, extract: Extractor)
    returns (resp: Response)
    ensures |resp.headers| >= 4 && resp.headers[..4] == CorsHeaders(Allowed, req.origin)
    ensures req.verb == "OPTIONS" ==> resp == Response(204, CorsHeaders(Allowed, req.origin), NoContent, None)
    ensures req.verb != "OPTIONS" && req.verb != "POST" ==>
              resp.status == 405 && resp.body == JsonError("Method not allowed", None) && resp.sent == None
    ensures req.verb == "POST" && !HasKey(config.apiKey) ==>
              resp.status == 500 && resp.body == JsonError("Missing OPENAI_API_KEY", None) && resp.sent == None
    ensures req.verb == "POST" && HasKey(config.apiKey) && Outbound(config.system, req.body).None? ==>
              resp.status == 500 && resp.body == JsonError("Server error", None) && resp.sent == None
    ensures resp.sent.Some? <==>
              req.verb == "POST" && HasKey(config.apiKey) && Outbound(config.system, req.body).Some?
    ensures resp.sent.Some? ==>
              resp.sent.value.bearer == config.apiKey.value &&
              resp.sent.value.model == config.model &&
              Some(resp.sent.value.messages) == Outbound(config.system, req.body) &&
              resp.sent.value.temperature == 0.3 && resp.sent.value.stream
    ensures resp.sent.Some? && !(reply.ok && reply.hasBody) ==>
              resp.status == 502 && resp.body == JsonError("Upstream error", Some(reply.errorText))
    ensures resp.sent.Some? && reply.ok && reply.hasBody ==>
              resp.status == 200 && resp.headers == CorsHeaders(Allowed, req.origin) + [ContentType] &&
              resp.body == Streamed(Relayed(Concat(reply.chunks), extract))
  {
    var headers := CorsHeaders(Allowed, req.origin);
    var gate := Admit(req.verb, config.apiKey);
    match gate {
      case Preflight =>
        return Response(EarlyStatus(gate), headers, NoContent, None);
      case MethodNotAllowed =>
        return Response(EarlyStatus(gate), headers, JsonError("Method not allowed", None), None);
      case MissingKey =>
        return Response(EarlyStatus(gate), headers, JsonError("Missing OPENAI_API_KEY", None), None);
      case Proceed =>
    }
    var chatMessages := Outbound(config.system, req.body);
    if chatMessages.None? {
      return Response(500, headers, JsonError("Server error", None), None);
    }
    var sent := UpstreamRequest(config.apiKey.value, config.model, chatMessages.value, 0.3, true);
    if !reply.ok || !reply.hasBody {
      return Response(502, headers, JsonError("Upstream error", Some(reply.errorText)), Some(sent));
    }
    var written, _, _ := RelayStream(reply.chunks, extract);
    resp := Response(200, headers + [ContentType], Streamed(written), Some(sent));
  }
}
