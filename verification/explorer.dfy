/** The MCP Explorer relay. Each HTTP handler of the explorer sends one JSON-RPC
    2.0 request to the upstream MCP server, decodes the reply (plain JSON, or one
    Server-Sent-Events `data: ` line holding JSON) and answers the browser with a
    `{success, ...}` envelope. The process-wide session, the upstream URL and the
    session id, is threaded through the handlers as an explicit value; the
    upstream server and the JSON decoder are parameters. */
module Explorer {
  import opened Wrappers
  import opened Strings
  import opened PyValue
  import Headers

  // ---------------------------------------------------------------------------
  // Decoding the upstream reply
  // ---------------------------------------------------------------------------

  /** The SSE data-field prefix; the space is part of it. */
  const DataPrefix := "data: "

  predicate IsDataLine(line: string) {
    StartsWith(line, DataPrefix)
  }

  /** `json.loads`: the decoded value, or the decoder's error message. */
  type Decoder = string -> Result<Json, string>

  /** Index of the first data line at or after `from`. */
  function FirstDataLine(lines: seq<string>, from: nat): (r: Option<nat>)
    requires from <= |lines|
    ensures r.Some? ==> from <= r.value < |lines| && IsDataLine(lines[r.value])
    ensures r.Some? ==> forall j :: from <= j < r.value ==> !IsDataLine(lines[j])
    ensures r.None? ==> forall j :: from <= j < |lines| ==> !IsDataLine(lines[j])
    decreases |lines| - from
  {
    if from == |lines| then None
    else if IsDataLine(lines[from]) then Some(from)
    else FirstDataLine(lines, from + 1)
  }

  /** The text `parse_sse_response` hands to the JSON decoder: of the body's
      lines (split on '\n'), the first one that starts with `data: `, without
      that prefix; the whole body when no line does. */
  function SsePayload(body: string): (p: string)
    ensures var lines := Split(body, '\n');
            forall k :: 0 <= k < |lines| && IsDataLine(lines[k])
                        && (forall j :: 0 <= j < k ==> !IsDataLine(lines[j]))
                        ==> p == lines[k][|DataPrefix|..]
    ensures var lines := Split(body, '\n');
            (forall k :: 0 <= k < |lines| ==> !IsDataLine(lines[k])) ==> p == body
  {
    var lines := Split(body, '\n');
    match FirstDataLine(lines, 0)
    case Some(k) => lines[k][|DataPrefix|..]
    case None => body
  }

  /** `parse_sse_response`: decode the payload; a decoder error is an exception. */
  function ParseSse(body: string, decode: Decoder): (r: Result<Json, PyError>)
    ensures decode(SsePayload(body)).Success? ==> r == Success(decode(SsePayload(body)).value)
    ensures decode(SsePayload(body)).Failure? ==> r == Failure(DecodeError(decode(SsePayload(body)).error))
  {
    match decode(SsePayload(body))
    case Success(v) => Success(v)
    case Failure(m) => Failure(DecodeError(m))
  }

  /** Only the exact prefix `data: ` marks a data line: `data:` without the
      space, or the prefix after any leading whitespace character `c`, does not. */
  lemma DataLinePrefixIsExact(x: string, c: char)
    ensures IsDataLine("data:" + x) <==> StartsWith(x, " ")
    ensures IsSpace(c) ==> !IsDataLine([c] + x)
  {
    var line := "data:" + x;
    if |x| > 0 {
      assert line[..6] == "data:" + [x[0]];
      assert x[..1] == [x[0]];
      assert DataPrefix == "data:" + [' '];
      assert |DataPrefix| == 6;
      if x[0] != ' ' {
        assert line[5] != DataPrefix[5];
      }
    } else {
      assert |line| == 5;
    }
    assert ([c] + x)[0] == c;
  }

  /** The payload of a body whose first data line is known. */
  lemma PayloadOfLines(body: string, lines: seq<string>, k: nat, x: string)
    requires Split(body, '\n') == lines
    requires k < |lines| && lines[k] == DataPrefix + x
    requires forall j :: 0 <= j < k ==> !IsDataLine(lines[j])
    ensures SsePayload(body) == x
  {
    assert lines[k][..|DataPrefix|] == DataPrefix;
    assert lines[k][|DataPrefix|..] == x;
  }

  /** A data line holding `x` (which has no line break) has no line break either. */
  lemma DataLineIsOneLine(x: string)
    requires '\n' !in x
    ensures '\n' !in DataPrefix + x
    ensures Split(DataPrefix + x, '\n') == [DataPrefix + x]
    ensures IsDataLine(DataPrefix + x) && (DataPrefix + x)[|DataPrefix|..] == x
  {
    var line := DataPrefix + x;
    assert forall c :: c in line ==> c in DataPrefix || c in x;
    SplitWithoutSep(line, '\n');
    assert line[..|DataPrefix|] == DataPrefix;
  }

  /** The same JSON text, sent as a plain body or framed as one SSE event, is
      handed to the decoder unchanged. */
  lemma PlainAndFramedAgree(json: string)
    requires '\n' !in json
    requires !IsDataLine(json)
    ensures SsePayload(json) == json
    ensures SsePayload(DataPrefix + json) == json
    ensures SsePayload("event: message\n" + DataPrefix + json + "\n\n") == json
  {
    SplitWithoutSep(json, '\n');
    DataLineIsOneLine(json);
    PayloadOfLines(DataPrefix + json, [DataPrefix + json], 0, json);
    var event := "event: message";
    assert '\n' !in event;
    assert !IsDataLine(event) by {
      assert event[0] != DataPrefix[0];
    }
    LinesThenRest([event, DataPrefix + json], "\n");
    assert Join([event, DataPrefix + json], "\n") + "\n" + "\n"
           == "event: message\n" + DataPrefix + json + "\n\n";
    PayloadAfter("event: message\n" + DataPrefix + json + "\n\n", [event], json, Split("\n", '\n'));
  }

  /** Whatever the decoder, a plain JSON body and the same text framed as one
      SSE event parse to the same value or fail with the same error. */
  lemma FramingDoesNotMatter(json: string, decode: Decoder)
    requires '\n' !in json
    requires !IsDataLine(json)
    ensures ParseSse(DataPrefix + json, decode) == ParseSse(json, decode)
    ensures ParseSse("event: message\n" + DataPrefix + json + "\n\n", decode) == ParseSse(json, decode)
  {
    PlainAndFramedAgree(json);
  }

  /** The lines of some whole lines followed by an arbitrary rest. */
  lemma LinesThenRest(lines: seq<string>, rest: string)
    requires |lines| > 0
    requires forall i :: 0 <= i < |lines| ==> '\n' !in lines[i]
    ensures Split(Join(lines, "\n") + "\n" + rest, '\n') == lines + Split(rest, '\n')
  {
    SplitJoin(lines, '\n');
    SplitAround(Join(lines, "\n"), '\n', rest);
    assert Join(lines, "\n") + "\n" + rest == Join(lines, "\n") + ['\n'] + rest;
  }

  /** Only the first data line counts: when the body's lines are some lines that
      are not data lines, then a data line holding `x`, then anything at all,
      the payload is `x`, whatever data lines follow. */
  lemma PayloadAfter(body: string, before: seq<string>, x: string, tail: seq<string>)
    requires Split(body, '\n') == before + [DataPrefix + x] + tail
    requires forall i :: 0 <= i < |before| ==> !IsDataLine(before[i])
    ensures SsePayload(body) == x
  {
    var all := before + [DataPrefix + x] + tail;
    assert forall j :: 0 <= j < |before| ==> all[j] == before[j];
    PayloadOfLines(body, all, |before|, x);
  }

  // ---------------------------------------------------------------------------
  // Session and request headers
  // ---------------------------------------------------------------------------

  /** The relay's only state: `MCP_SERVER_URL` (whatever JSON value a `connect`
      request supplied; a string at startup) and `MCP_SESSION_ID`. */
  datatype Session = Session(serverUrl: Json, sessionId: Option<string>)

  /** `create_app(server_url)`: the URL from the command line, no session yet. */
  function Startup(url: string): Session {
    Session(JStr(url), None)
  }

  /** Python truthiness of the stored session id. */
  predicate HasSessionId(sid: Option<string>) {
    sid.Some? && |sid.value| > 0
  }

  const AcceptValue := "text/event-stream, application/json"
  const ContentTypeValue := "application/json"
  const SessionHeader := "MCP-Session-ID"

  type RequestHeaders = map<string, string>

  /** The headers every request carries. */
  function BaseHeaders(): (h: RequestHeaders)
    ensures h.Keys == {"Accept", "Content-Type"}
    ensures h["Accept"] == AcceptValue && h["Content-Type"] == ContentTypeValue
  {
    map["Accept" := AcceptValue, "Content-Type" := ContentTypeValue]
  }

  /** `get_headers_with_session`. */
  function SessionHeaders(sid: Option<string>): (h: RequestHeaders)
    ensures "Accept" in h && h["Accept"] == AcceptValue
    ensures "Content-Type" in h && h["Content-Type"] == ContentTypeValue
    ensures SessionHeader in h <==> HasSessionId(sid)
    ensures SessionHeader in h ==> h[SessionHeader] == sid.value
    ensures h.Keys <= {"Accept", "Content-Type", SessionHeader}
  {
    if HasSessionId(sid) then BaseHeaders()[SessionHeader := sid.value] else BaseHeaders()
  }

  // ---------------------------------------------------------------------------
  // JSON-RPC requests
  // ---------------------------------------------------------------------------

  /** The seven proxied operations. */
  datatype Endpoint = Connect | ListPrompts | ListTools | ListResources | CallTool | GetPrompt | ReadResource {

    /** The fixed JSON-RPC `id` of the endpoint. */
    function RpcId(): int {
      match this
      case Connect => 1
      case ListPrompts => 2
      case ListTools => 3
      case ListResources => 4
      case CallTool => 5
      case GetPrompt => 6
      case ReadResource => 7
    }

    function RpcMethod(): string {
      match this
      case Connect => "initialize"
      case ListPrompts => "prompts/list"
      case ListTools => "tools/list"
      case ListResources => "resources/list"
      case CallTool => "tools/call"
      case GetPrompt => "prompts/get"
      case ReadResource => "resources/read"
    }

    predicate IsList() {
      ListPrompts? || ListTools? || ListResources?
    }

    /** Whether the handler reads a JSON request body. */
    predicate ReadsBody() {
      !IsList()
    }

    /** The envelope key under which a successful handler returns its payload. */
    function PayloadKey(): string {
      match this
      case Connect => "sessionId"
      case ListPrompts => "prompts"
      case ListTools => "tools"
      case ListResources => "resources"
      case _ => "result"
    }
  }

  const ProtocolVersion := "2024-11-05"

  const InitializeParams: Json :=
    JObj([("protocolVersion", JStr(ProtocolVersion)),
          ("capabilities", JObj([])),
          ("clientInfo", JObj([("name", JStr("mcp-explorer")), ("version", JStr("1.0.0"))]))])

  /** The `initialize` request `connect` sends. */
  const InitializeRequest: Json := RpcRequest(1, "initialize", Some(InitializeParams))

  /** A JSON-RPC 2.0 request object; `params` is omitted when absent. */
  function RpcRequest(id: int, rpcMethod: string, params: Option<Json>): (r: Json)
    ensures HasKey(r, "jsonrpc") && Field(r, "jsonrpc") == JStr("2.0")
    ensures HasKey(r, "id") && Field(r, "id") == JInt(id)
    ensures HasKey(r, "method") && Field(r, "method") == JStr(rpcMethod)
    ensures HasKey(r, "params") <==> params.Some?
    ensures HasKey(r, "params") ==> Field(r, "params") == params.value
  {
    var fields := [("jsonrpc", JStr("2.0")), ("id", JInt(id)), ("method", JStr(rpcMethod))]
                  + (if params.Some? then [("params", params.value)] else []);
    assert "params"[0] != "method"[0];
    FindKeyFirst(fields, "jsonrpc", 0, 0);
    FindKeyFirst(fields, "id", 0, 1);
    FindKeyFirst(fields, "method", 0, 2);
    if params.Some? then
      FindKeyFirst(fields, "params", 0, 3);
      JObj(fields)
    else
      JObj(fields)
  }

  /** The `params` a handler forwards, read from its request body `data`. */
  function Params(ep: Endpoint, data: Json): Result<Option<Json>, PyError> {
    match ep
    case Connect => Success(Some(InitializeParams))
    case CallTool | GetPrompt =>
      var name :- Get(data, "name", JNull);
      var arguments :- Get(data, "arguments", JObj([]));
      Success(Some(JObj([("name", name), ("arguments", arguments)])))
    case ReadResource =>
      var uri :- Get(data, "uri", JNull);
      Success(Some(JObj([("uri", uri)])))
    case _ => Success(None)
  }

  function Request(ep: Endpoint, data: Json): Result<Json, PyError> {
    var params :- Params(ep, data);
    Success(RpcRequest(ep.RpcId(), ep.RpcMethod(), params))
  }

  // ---------------------------------------------------------------------------
  // Envelopes
  // ---------------------------------------------------------------------------

  function Ok(key: string, payload: Json): Json {
    JObj([("success", JBool(true)), (key, payload)])
  }

  function Fail(message: string): Json {
    JObj([("success", JBool(false)), ("error", JStr(message))])
  }

  predicate Succeeded(reply: Json) {
    HasKey(reply, "success") && Field(reply, "success") == JBool(true)
  }

  /** What `connect` reports as the session id: the stored one, or `active`. */
  function ReportedSessionId(s: Session): string {
    if HasSessionId(s.sessionId) then s.sessionId.value else "active"
  }

  /** The payload a handler extracts from a reply that has a `result`. */
  function Payload(ep: Endpoint, resp: Json): Result<Json, PyError>
    requires !ep.Connect?
  {
    var result :- Subscript(resp, "result");
    if ep.IsList() then Get(result, ep.PayloadKey(), JArr([])) else Success(result)
  }

  /** The envelope a handler builds from the decoded reply `resp`; `s` is the
      session at that moment. */
  function Envelope(ep: Endpoint, s: Session, resp: Json): (reply: Json)
    ensures resp.JObj? && !HasKey(resp, "result") ==> reply == Fail(Str(resp))
    ensures resp.JObj? ==> (Succeeded(reply) <==> HasKey(resp, "result") && (ep.IsList() ==> Field(resp, "result").JObj?))
    ensures Succeeded(reply) && ep.Connect? ==> reply == Ok("sessionId", JStr(ReportedSessionId(s)))
    ensures resp.JObj? && ep.IsList() && HasKey(resp, "result") && !Field(resp, "result").JObj?
            ==> reply == Fail(ErrorText(NoAttribute(Field(resp, "result"), "get")))
  {
    match Contains(resp, "result")
    case Failure(e) => Fail(ErrorText(e))
    case Success(false) => Fail(Str(resp))
    case Success(true) =>
      if ep.Connect? then Ok("sessionId", JStr(ReportedSessionId(s)))
      else
        match Payload(ep, resp)
        case Success(p) => Ok(ep.PayloadKey(), p)
        case Failure(e) => Fail(ErrorText(e))
  }

  // ---------------------------------------------------------------------------
  // Handlers
  // ---------------------------------------------------------------------------

  /** What the upstream did with one POST: no answer at all, or response
      headers followed by the body text or the reason reading it failed. */
  datatype Exchange = Unreachable(reason: string) | Reply(headers: Headers.HeaderList, body: Result<string, string>)

  /** The upstream MCP server, given the URL, the request and its headers. */
  type Upstream = (Json, Json, RequestHeaders) -> Exchange

  /** The request a handler actually sent. */
  datatype Outgoing = Outgoing(url: Json, request: Json, headers: RequestHeaders)

  /** The state after a handler ran, what it sent upstream (if anything), and its answer. */
  datatype Outcome = Outcome(session: Session, sent: Option<Outgoing>, reply: Json)

  /** `connect`'s update before it sends: a truthy `serverUrl` replaces the URL
      and clears the session id; a missing or falsy one changes nothing. */
  function Retarget(s: Session, data: Json): (r: Result<Session, PyError>)
    ensures data.JObj? ==> r.Success?
    ensures !data.JObj? ==> r == Failure(NoAttribute(data, "get"))
    ensures r.Success? && HasKey(data, "serverUrl") && Truthy(Field(data, "serverUrl"))
            ==> r.value == Session(Field(data, "serverUrl"), None)
    ensures r.Success? && !(HasKey(data, "serverUrl") && Truthy(Field(data, "serverUrl"))) ==> r.value == s
  {
    var url :- Get(data, "serverUrl", JNull);
    if Truthy(url) then Success(Session(url, None)) else Success(s)
  }

  /** The session id an upstream reply carries, if it carries a non-empty one. */
  function ReplySessionId(hs: Headers.HeaderList): Option<string> {
    match Headers.Lookup(hs, "mcp-session-id")
    case Some(v) => if |v| > 0 then Some(v) else None
    case None => None
  }

  /** `connect` keeps a session id the upstream sends and otherwise leaves the stored one. */
  function StoreSessionId(s: Session, hs: Headers.HeaderList): (r: Session)
    ensures r.serverUrl == s.serverUrl
    ensures ReplySessionId(hs).Some? ==> r.sessionId == ReplySessionId(hs)
    ensures ReplySessionId(hs).None? ==> r.sessionId == s.sessionId
  {
    match ReplySessionId(hs)
    case Some(v) => s.(sessionId := Some(v))
    case None => s
  }

  /** One request to one of the seven handlers. `body` is the browser's request
      body as `request.json()` reads it (the list handlers never read it). */
  function Handle(ep: Endpoint, s: Session, body: Result<Json, string>, post: Upstream, decode: Decoder): (o: Outcome)
    ensures !ep.Connect? ==> o.session == s
    ensures o.sent.Some? && ep.Connect? ==> o.sent.value.headers == BaseHeaders()
    ensures o.sent.Some? && !ep.Connect? ==> o.sent.value.headers == SessionHeaders(s.sessionId)
    ensures o.sent.Some? ==> o.sent.value.url == o.session.serverUrl
    ensures o.sent.Some? ==> HasKey(o.sent.value.request, "id") && Field(o.sent.value.request, "id") == JInt(ep.RpcId())
    ensures o.sent.Some? ==> HasKey(o.sent.value.request, "method") && Field(o.sent.value.request, "method") == JStr(ep.RpcMethod())
    ensures o.sent.Some? && ep.IsList() ==> o.sent.value.request == RpcRequest(ep.RpcId(), ep.RpcMethod(), None)
    ensures Succeeded(o.reply) ==> o.sent.Some?
    ensures o.sent.None? ==> o.session == s
    ensures ep.ReadsBody() ==> (o.sent.Some? <==> body.Success? && body.value.JObj?)
    ensures !ep.ReadsBody() ==> o.sent.Some?
    ensures ep.ReadsBody() && body.Failure? ==> o.reply == Fail(body.error)
    ensures ep.ReadsBody() && body.Success? && !body.value.JObj?
            ==> o.reply == Fail(ErrorText(NoAttribute(body.value, "get")))
    ensures o.sent.Some? ==>
              match post(o.sent.value.url, o.sent.value.request, o.sent.value.headers)
              case Unreachable(m) => o.reply == Fail(m)
              case Reply(_, Failure(m)) => o.reply == Fail(m)
              case Reply(_, Success(text)) =>
                match decode(SsePayload(text))
                case Success(resp) => o.reply == Envelope(ep, o.session, resp)
                case Failure(m) => o.reply == Fail(m)
  {
    if ep.ReadsBody() && body.Failure? then Outcome(s, None, Fail(body.error))
    else
      var data := if ep.ReadsBody() then body.value else JObj([]);
      match (if ep.Connect? then Retarget(s, data) else Success(s))
      case Failure(e) => Outcome(s, None, Fail(ErrorText(e)))
      case Success(s1) =>
        match Request(ep, data)
        case Failure(e) => Outcome(s1, None, Fail(ErrorText(e)))
        case Success(request) =>
          var headers := if ep.Connect? then BaseHeaders() else SessionHeaders(s1.sessionId);
          var out := Outgoing(s1.serverUrl, request, headers);
          match post(s1.serverUrl, request, headers)
          case Unreachable(reason) => Outcome(s1, Some(out), Fail(reason))
          case Reply(hs, text) =>
            var s2 := if ep.Connect? then StoreSessionId(s1, hs) else s1;
            match text
            case Failure(reason) => Outcome(s2, Some(out), Fail(reason))
            case Success(t) =>
              match ParseSse(t, decode)
              case Failure(e) => Outcome(s2, Some(out), Fail(ErrorText(e)))
              case Success(resp) => Outcome(s2, Some(out), Envelope(ep, s2, resp))
  }

  // ---------------------------------------------------------------------------
  // Properties of the handlers
  // ---------------------------------------------------------------------------

  /** What the upstream answered to the request a handler sent. */
  function Answer(o: Outcome, post: Upstream): Exchange
    requires o.sent.Some?
  {
    post(o.sent.value.url, o.sent.value.request, o.sent.value.headers)
  }

  /** Before any `connect`, a proxied request goes to the URL given at
      startup and carries no session header. */
  lemma StartupHasNoSession(url: string, ep: Endpoint, body: Result<Json, string>, post: Upstream, decode: Decoder)
    requires !ep.Connect?
    ensures var o := Handle(ep, Startup(url), body, post, decode);
            o.sent.Some? ==> && o.sent.value.url == JStr(url)
                             && o.sent.value.headers == SessionHeaders(None)
                             && SessionHeader !in o.sent.value.headers
  {
  }

  /** `connect` always sends the same `initialize` request, and never with a
      session header, whatever session is stored. */
  lemma ConnectSendsInitialize(s: Session, data: Json, post: Upstream, decode: Decoder)
    requires data.JObj?
    ensures var o := Handle(Connect, s, Success(data), post, decode);
            && o.sent.Some?
            && o.sent.value.request == InitializeRequest
            && SessionHeader !in o.sent.value.headers
  {
  }

  /** `connect` with a truthy `serverUrl` targets that URL, and the session id
      it ends with comes from the new server's reply or is cleared. */
  lemma ConnectReplacesTarget(s: Session, data: Json, post: Upstream, decode: Decoder)
    requires HasKey(data, "serverUrl") && Truthy(Field(data, "serverUrl"))
    ensures var o := Handle(Connect, s, Success(data), post, decode);
            && o.sent.Some?
            && o.sent.value.url == Field(data, "serverUrl")
            && o.session.serverUrl == Field(data, "serverUrl")
            && o.session.sessionId == (match Answer(o, post)
                                       case Reply(hs, _) => ReplySessionId(hs)
                                       case Unreachable(_) => None)
  {
  }

  /** `connect` without a truthy `serverUrl` keeps the URL, and keeps the stored
      session id unless the reply brings a new one. */
  lemma ConnectKeepsTarget(s: Session, data: Json, post: Upstream, decode: Decoder)
    requires data.JObj?
    requires !(HasKey(data, "serverUrl") && Truthy(Field(data, "serverUrl")))
    ensures var o := Handle(Connect, s, Success(data), post, decode);
            && o.sent.Some?
            && o.sent.value.url == s.serverUrl
            && o.session.serverUrl == s.serverUrl
            && o.session.sessionId == (match Answer(o, post)
                                       case Reply(hs, _) => if ReplySessionId(hs).Some? then ReplySessionId(hs) else s.sessionId
                                       case Unreachable(_) => s.sessionId)
  {
  }

  /** The session id in the reply headers is stored before the body is looked
      at: even an `initialize` whose body fails to decode, or has no `result`,
      leaves it stored. */
  lemma SessionIdStoredBeforeBody(s: Session, body: Result<Json, string>, post: Upstream, decode: Decoder)
    ensures var o := Handle(Connect, s, body, post, decode);
            o.sent.Some? && Answer(o, post).Reply? && ReplySessionId(Answer(o, post).headers).Some?
            ==> o.session.sessionId == ReplySessionId(Answer(o, post).headers)
  {
  }

  /** A session id obtained by `connect` is sent with every later proxied request. */
  lemma SessionCarriedForward(s: Session, body: Result<Json, string>, post: Upstream, decode: Decoder,
                              ep: Endpoint, body2: Result<Json, string>, post2: Upstream, decode2: Decoder)
    requires !ep.Connect?
    ensures var o := Handle(Connect, s, body, post, decode);
            var o2 := Handle(ep, o.session, body2, post2, decode2);
            o.sent.Some? && Answer(o, post).Reply? && ReplySessionId(Answer(o, post).headers).Some? && o2.sent.Some?
            ==> && SessionHeader in o2.sent.value.headers
                && o2.sent.value.headers[SessionHeader] == ReplySessionId(Answer(o, post).headers).value
  {
    SessionIdStoredBeforeBody(s, body, post, decode);
  }

  /** `tools/call` and `prompts/get` forward the browser's `name` and
      `arguments` unchanged, `resources/read` its `uri`. */
  lemma ForwardsParams(ep: Endpoint, s: Session, data: Json, post: Upstream, decode: Decoder)
    requires ep.CallTool? || ep.GetPrompt? || ep.ReadResource?
    requires data.JObj?
    ensures var o := Handle(ep, s, Success(data), post, decode);
            && o.sent.Some?
            && o.sent.value.request
               == RpcRequest(ep.RpcId(), ep.RpcMethod(),
                             Some(if ep.ReadResource? then JObj([("uri", FieldOr(data, "uri", JNull))])
                                  else JObj([("name", FieldOr(data, "name", JNull)), ("arguments", FieldOr(data, "arguments", JObj([])))])))
  {
    var params := if ep.ReadResource? then JObj([("uri", FieldOr(data, "uri", JNull))])
                  else JObj([("name", FieldOr(data, "name", JNull)), ("arguments", FieldOr(data, "arguments", JObj([])))]);
    assert Params(ep, data) == Success(Some(params));
    assert Request(ep, data) == Success(RpcRequest(ep.RpcId(), ep.RpcMethod(), Some(params)));
  }

  /** `tools/call`, `prompts/get` and `resources/read` answer with the
      upstream's `result` unchanged. */
  lemma ResultVerbatim(ep: Endpoint, s: Session, resp: Json)
    requires ep.CallTool? || ep.GetPrompt? || ep.ReadResource?
    requires HasKey(resp, "result")
    ensures Envelope(ep, s, resp) == Ok("result", Field(resp, "result"))
  {
  }

  /** The list handlers answer with the named list of the `result`, or `[]`. */
  lemma ListDefaultsToEmpty(ep: Endpoint, s: Session, resp: Json)
    requires ep.IsList()
    requires HasKey(resp, "result") && Field(resp, "result").JObj?
    ensures var result := Field(resp, "result");
            Envelope(ep, s, resp)
            == Ok(ep.PayloadKey(), if HasKey(result, ep.PayloadKey()) then Field(result, ep.PayloadKey()) else JArr([]))
  {
  }

  /** A JSON-RPC error reply never yields a successful envelope. */
  lemma ErrorReplyFails(ep: Endpoint, s: Session, resp: Json)
    requires HasKey(resp, "error") && !HasKey(resp, "result")
    ensures !Succeeded(Envelope(ep, s, resp))
    ensures Envelope(ep, s, resp) == Fail(Str(resp))
  {
  }
}
