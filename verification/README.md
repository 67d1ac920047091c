# A verified model of the MCP lab's relay, helpers and small servers

This project models, in Dafny, the pieces of original logic in a teaching
repository about the Model Context Protocol (MCP):

- **MCP Explorer relay** (`explorer.dfy`, module `Explorer`). A browser UI talks
  to seven HTTP handlers. Each handler sends one JSON-RPC 2.0 request to an
  upstream MCP server and decodes the reply. A reply is either plain JSON, or
  the first Server-Sent-Events line that starts with `data: `. The handler then
  answers with a `{success, …}` envelope. The relay's global state is the
  upstream URL and the MCP session id. Here it is an explicit `Session` value
  that `Handle` takes and returns. The upstream server (URL, request and headers
  in; no answer, or response headers followed by the body text or the reason
  reading it failed) and `json.loads` are function parameters.
- **Agent helpers** (`agent.dfy`, module `AgentHelpers`):
  - `last_number`: a left-to-right scan for `-?\d+(?:\.\d+)?` that keeps the
    last match;
  - `tool_text`;
  - `format_args`.
- **Summarizer servers** (`summarizer.dfy`, module `Summarizer`):
  - `extract_text`, the content normaliser the two servers share;
  - the choice between Ollama's `results` and `message` reply shapes;
  - the latency server's timing suffixes;
  - its `ping` tool (`Summarizer.Ping`, which always answers `pong`).

  The Ollama reply and the measured milliseconds are parameters.
- **Authorization** (`auth.dfy`, `secure.dfy`, modules `AuthServer` and
  `SecureServer`):
  - the token endpoint's credential check against the client registry;
  - the claims of an issued token;
  - the introspection mapping;
  - the bearer-token middleware in front of the secured calculator, and its
    `add` tool.

  JWT signing and verification are function parameters, and time is an integer
  number of seconds.
- **Travel server rules** (`travel.dfy`, module `Travel`): currency-code
  normalisation and validation, and the `ALLOWED_ORIGINS` CORS list.
- **Versioned calculator** (`calc.dfy`, modules `Calc` for `lab4/server.py` and
  `CalcV2` for `lab4/server_v2.py`).

Shared modules:

- `Wrappers`: `Option` and `Result`.
- `Strings`: the Python string operations the sources use. These are
  `startswith`, `in`, `split` on one character, `join`, `isdigit`, `int`,
  `str(int)`, `strip` and ASCII `upper`. ASCII lower-casing is used only to
  model the letter-case-insensitive header map of the HTTP client.
- `Headers`: case-insensitive header lookup and the HTTP error record.
- `PyValue`: decoded JSON values and the Python operations applied to them.
  These are truthiness, `str`/`repr`, `key in v`, `v[key]`, `v[0]`, `.get`, and
  the exceptions they raise.

JSON objects are association lists in insertion order, because `repr` prints
dicts in that order. A lookup finds the first field with the key.

Three points where the relay behaves differently from a first reading of it:

- The session id in an `initialize` reply's headers is stored **before** the
  reply body is read. So a failed `initialize` (a body that cannot be read or
  decoded, or no `result`) still updates it.
- `connect` replaces the URL and clears the session id only when the request
  body's `serverUrl` is truthy. Otherwise both stay as they were. That update
  happens before the request is sent, and a failed `connect` does not undo it.
- Non-dict replies follow Python's semantics. For a decoded list, `'result' in
  reply` tests list membership. For a decoded string it is a substring test.
  For a number it raises `TypeError`, which the handler reports as its error.

## Model

| member | source | states |
|---|---|---|
| Explorer.SsePayload | scripts/mcp_explorer.py:589-600 | The text handed to the decoder is the first line (split on `\n`) that starts with `data: `, minus those six characters. When no line starts that way, it is the whole body. |
| Explorer.ParseSse | scripts/mcp_explorer.py:589-600 | The decoder's value for the payload is the parsed reply. A decoder error becomes the exception carrying its message. |
| Explorer.FramingDoesNotMatter | scripts/mcp_explorer.py:589-600 | For every decoder, a plain JSON body, a bare `data: ` line and an `event: message` frame holding the same text parse to the same value, or fail with the same error. |
| Explorer.DataLinePrefixIsExact | scripts/mcp_explorer.py:595 | `data:` followed by `x` is a data line exactly when `x` starts with a space. A line that starts with any whitespace character is never a data line. |
| Explorer.PayloadAfter | scripts/mcp_explorer.py:594-597 | Only the first data line counts. Whatever follows it, including more data lines, is never consulted. |
| Explorer.PlainAndFramedAgree | scripts/mcp_explorer.py:594-600 | One JSON text reaches the decoder unchanged in three forms: as a plain body, as a bare `data: ` line, or framed as an SSE `event: message` block. |
| Explorer.BaseHeaders | scripts/mcp_explorer.py:649-652 | `initialize` is sent with exactly the `Accept` and `Content-Type` headers, with the values `text/event-stream, application/json` and `application/json`. |
| Explorer.SessionHeaders | scripts/mcp_explorer.py:603-613 | The header set always has the `Accept` and `Content-Type` values. It has `MCP-Session-ID` exactly when a non-empty session id is stored, and then that id. It has no other header. |
| Explorer.RpcRequest | scripts/mcp_explorer.py:634-646 | A request object has `jsonrpc` "2.0", the given `id` and `method`, and a `params` member exactly when params are given. |
| Explorer.Retarget | scripts/mcp_explorer.py:624-631 | A truthy `serverUrl` in a dict body replaces the URL and clears the session id. A missing or falsy one leaves the session unchanged. A body that is not a dict raises `AttributeError` for `get`. |
| Explorer.StoreSessionId | scripts/mcp_explorer.py:656-659 | A non-empty `mcp-session-id` response header, in any letter case, becomes the stored id. Without one the stored id is kept. The URL never changes. |
| Explorer.Envelope | scripts/mcp_explorer.py:663-691 | For a dict reply, success holds exactly when it has `result`, and for the list handlers that `result` must be a dict. A dict without `result` yields `success: false` with the reply's `str`. A successful `connect` reports the stored id, or `active`. A list handler whose `result` is not a dict answers with the `AttributeError` for `get`. |
| Explorer.Handle | scripts/mcp_explorer.py:616-886 | Only `connect` changes the session. It sends only the base headers, and the other handlers send the session headers. Every request goes to the session's URL and carries the endpoint's fixed `id` and `method`. A list handler sends exactly `{"jsonrpc": "2.0", "id", "method"}`, with no `params`. A handler that reads a body sends a request exactly when the body parses to a dict; otherwise it answers `success: false` with the parse error or the `get` error, and leaves the session as it was. Once sent, an unreachable upstream or an unreadable body is answered with its reason, an undecodable payload with the decoder's message, and a decoded reply with its envelope. |
| Explorer.StartupHasNoSession | scripts/mcp_explorer.py:894-897 | Before any `connect`, a proxied request goes to the URL given to `create_app` and carries no `MCP-Session-ID` header, since the id starts unset. |
| Explorer.ConnectSendsInitialize | scripts/mcp_explorer.py:633-655 | `connect` always sends the same `initialize` request (id 1, protocol version 2024-11-05), and never with a session header. |
| Explorer.ConnectReplacesTarget | scripts/mcp_explorer.py:624-659 | A truthy `serverUrl` is where `initialize` is sent and the URL kept afterwards. The session id afterwards is only what the new server's reply supplies. |
| Explorer.ConnectKeepsTarget | scripts/mcp_explorer.py:624-659 | Without a truthy `serverUrl`, the URL is kept. The stored session id is kept unless the reply brings a new one. |
| Explorer.SessionIdStoredBeforeBody | scripts/mcp_explorer.py:656-666 | A session id in the reply headers is stored whatever happens to the reply body: read failure, decode failure, or no `result`. |
| Explorer.SessionCarriedForward | scripts/mcp_explorer.py:656-682 | After a `connect` whose reply brought a session id, the next proxied request carries that id in `MCP-Session-ID`. |
| Explorer.ForwardsParams | scripts/mcp_explorer.py:765-872 | `tools/call` and `prompts/get` forward the body's `name` (default null) and `arguments` (default `{}`) unchanged. `resources/read` forwards its `uri`. |
| Explorer.ResultVerbatim | scripts/mcp_explorer.py:795-799 | A successful call, get or read returns the upstream `result` unchanged. |
| Explorer.ListDefaultsToEmpty | scripts/mcp_explorer.py:685-689 | A list handler returns the named member of `result`, or `[]` when that member is absent. |
| Explorer.ErrorReplyFails | scripts/mcp_explorer.py:690-691 | A JSON-RPC error reply without `result` yields `success: false` with the stringified reply. |
| Headers.Lookup | scripts/mcp_explorer.py:657 | A header is found exactly when some field has its name in any letter case. Its value is that of the first such field. |
| Headers.LookupIgnoresCase | scripts/mcp_explorer.py:657 | The two spellings `mcp-session-id` and `MCP-Session-ID` find the same field, so the `or` of the two lookups is a single lookup. |
| AgentHelpers.MatchAt | lab1/agent_mcp.py:10 | A match starts at a position exactly when a digit, or a minus sign followed by a digit, is there. The matched span is a number token, and no longer span from that position is one, so the greedy match is the longest token there. |
| AgentHelpers.Matches | lab1/agent_mcp.py:10 | The scan's spans are in order and non-overlapping, and each is the match at its start position. |
| AgentHelpers.NoStartBeforeFirst | lab1/agent_mcp.py:10 | No match could begin before the scan's first span, or anywhere when the scan finds none. |
| AgentHelpers.NoStartBetween | lab1/agent_mcp.py:10 | No match could begin between two successive spans of the scan. |
| AgentHelpers.NoStartAfterLast | lab1/agent_mcp.py:10 | No match could begin after the scan's last span. |
| AgentHelpers.FindNumbers | lab1/agent_mcp.py:10 | `findall` returns, in order, the text of every span of the scan, and each is a number token. |
| AgentHelpers.MatchesIffDigit | lab1/agent_mcp.py:10-11 | The scan finds some match exactly when a digit lies ahead. |
| AgentHelpers.NoDigitAfterLastMatch | lab1/agent_mcp.py:10-11 | No digit follows the last match. |
| AgentHelpers.MatchesLeftMaximal | lab1/agent_mcp.py:10 | No match starts in the middle of a longer number: a match that starts with a digit is not preceded by a digit or a minus sign. |
| AgentHelpers.LastSpan | lab1/agent_mcp.py:10-11 | The last match exists exactly when the text has a digit. It is the last span of the scan: the match at its start, a number token, with no digit and no possible match after it. |
| AgentHelpers.LastNumber | lab1/agent_mcp.py:9-11 | A text without digits is returned unchanged. Otherwise the result is the text of the scan's last span. |
| AgentHelpers.FractionIsPartOfTheMatch | lab1/agent_mcp.py:10-11 | `1.5` gives `1.5`, not `5`. |
| AgentHelpers.SecondDotStartsAfresh | lab1/agent_mcp.py:10-11 | `1.2.3` gives `3`: the scan resumes after `1.2`. |
| AgentHelpers.SignedWithoutFraction | lab1/agent_mcp.py:10-11 | `=-4.` gives `-4`: the sign is kept and a dot without a digit after it is not. |
| AgentHelpers.ToolText | lab1/agent_mcp.py:14-17 | The first item's `text` exactly when the result is a non-empty list whose first item is a dict with `text`. Otherwise the `str` of the result. |
| AgentHelpers.ToolTextOfContent | lab1/agent_mcp.py:14-17 | A plain string passes through, and an MCP content list yields its first block's text. |
| AgentHelpers.ConvertFields | lab1/agent_mcp.py:25-30 | The converted dict has the same keys in the same order. Each non-empty all-digit string value becomes its integer (the CPython digit limit is under "## Left out"), and every other value is unchanged. |
| AgentHelpers.FormatArgs | lab1/agent_mcp.py:24-31 | Falsy arguments (`None`, `{}`) print as `{}`. A dict prints as the `repr` of its converted copy. Any other value raises `AttributeError` for `items`. |
| AgentHelpers.ConvertedDigitsPrintTheSame | lab1/agent_mcp.py:26-28 | A converted canonical digit string prints as the same digits. Empty and negative strings stay strings. |
| Summarizer.StripAll | lab5/llama_tool_server.py:49 | Stripping the collected texts succeeds exactly when all are strings, and yields their strips in order. Otherwise it fails on the first non-string with `AttributeError` for `strip`. |
| Summarizer.ExtractText | lab5/llama_tool_server.py:31-52 | A string is stripped, and a dict with `text` yields that text stripped. A non-empty list yields its items' stripped texts joined by newlines. An empty list and every other value yield their `str`. |
| Summarizer.ExtractTextLines | lab5/llama_tool_server.py:41-49 | For text blocks without line breaks, splitting the result on newlines gives back each block's stripped text, one per block, in order. |
| Summarizer.ExtractTextIdempotent | lab5/llama_tool_server.py:31-52 | Outside the list case, normalising an already normalised text changes nothing. |
| Summarizer.Ping | lab5/latency_server.py:18-20 | The health check always answers `pong`. |
| Summarizer.SelectContent | lab5/llama_tool_server.py:54-63 | With a truthy `results` in a dict reply, the selection succeeds exactly when `results` is a list whose first item is a dict with a dict (or absent) `message`, and then takes its `content`. Otherwise the error `summarize` hits is stated: a dict `results` raises `KeyError(0)`; a boolean or number raises the "object is not subscriptable" `TypeError`; a string, a non-dict first item or a non-dict `message` raises the `get` `AttributeError`. Without a truthy `results`, a dict `message` supplies `content`, and failing that the fallback is chosen. A reply that is not a dict: `null`, a boolean or a number raises the "is not iterable" `TypeError`. A list or string holding `results` or `message` raises the indexing `TypeError`. Any other list or string falls back. |
| Summarizer.LlamaSummary | lab5/llama_tool_server.py:54-63 | The answer is the normalised selected content, `(unexpected format) ` followed by the reply's `str` on the fallback, or the selection's error. |
| Summarizer.LatencySummary | lab5/latency_server.py:67-80 | The normalised selected content followed by `\n\n( took Nms)`, or the fallback text followed by `  (took Nms)`, or the selection's or normalisation's error. |
| Summarizer.ResultsTakePriority | lab5/llama_tool_server.py:55-56 | A readable `results` list is used even when `message` exists. The summary is its first item's `message.content` normalised, defaulting to the empty string. |
| Summarizer.MessageWhenNoResults | lab5/llama_tool_server.py:58-60 | Without a truthy `results`, the summary is a dict `message`'s `content` normalised. |
| Summarizer.FallbackOtherwise | lab5/llama_tool_server.py:62-63 | A dict reply with neither is answered with `(unexpected format) ` followed by its `str`. |
| Summarizer.ResultsDecide | lab5/llama_tool_server.py:55-56 | Two replies with the same truthy `results` get the same answer, whatever else they hold. |
| Summarizer.LatencyExtendsLlama | lab5/latency_server.py:67-80 | The latency server succeeds and fails on the same replies as the plain server, with the same error. Its answer is the plain server's answer followed by `\n\n( took Nms)`, or by `  (took Nms)` on the fallback. |
| AuthServer.AccessClaims | lab3/auth_server.py:28-36 | The claims name the client as subject and `mcp-lab` as audience, and expire 3600 seconds after issue. Space-free scopes can be read back from the scope claim by splitting on spaces. |
| AuthServer.ScopesRoundTrip | lab3/auth_server.py:32 | Splitting the space-joined scopes on spaces gives the scopes back. |
| AuthServer.PayloadFields | lab3/auth_server.py:30-36 | The signed payload holds the claims' subject, scope and expiry under `sub`, `scope` and `exp`. |
| AuthServer.IssueToken | lab3/auth_server.py:40-54 | A token is issued exactly for a registered client presenting its own secret. Anything else is a 401 "Invalid client credentials". An issued reply is a `bearer` token that expires in 3600 seconds and signs that client's claims. |
| AuthServer.Introspect | lab3/auth_server.py:57-74 | A token that does not verify gives exactly `{active: False}`. A verified payload with `sub`, `scope` and `exp` gives `active: True` with the three copied. A payload missing one of them raises `KeyError` for the first missing one, in the order `sub`, `scope`, `exp`. |
| AuthServer.IssuedTokenIsActive | lab3/auth_server.py:28-74 | When verification returns what was signed, a freshly issued token introspects as active with the client, its joined scopes and an expiry one hour after issue. |
| AuthServer.DemoClient | lab3/auth_server.py:18-23 | The demo client's tokens carry the scope `calc:add`. Only the secret `demopass` is accepted for it, and no other client id is accepted. |
| SecureServer.BearerToken | lab3/secure_server.py:35 | The checked token is the strip of what follows the `Bearer ` prefix. |
| SecureServer.Dispatch | lab3/secure_server.py:29-42 | Ungated paths pass unchecked. On a gated path, a missing header or one not starting with exactly `Bearer ` gives 401 "Missing token". Otherwise the request passes exactly when the token verifies, else 401 "Token invalid: " with the error text. |
| SecureServer.ForwardIff | lab3/secure_server.py:29-42 | A request passes exactly when its path is not gated, or its bearer token verifies. Every refusal raises `HTTPException(401, …)`. |
| SecureServer.GateIsLiteral | lab3/secure_server.py:30-33 | The gate is a plain prefix test, so `/mcpx` is gated and `/health` is not. A lower-case `bearer` scheme or a missing header is refused as a missing token. |
| SecureServer.PaddedTokenChecked | lab3/secure_server.py:35-38 | Any whitespace before and after the token leaves the decision unchanged. |
| SecureServer.Add | lab3/secure_server.py:50-52 | The sum, from which subtracting either operand gives the other. |
| Travel.ConvertCurrency | lab2/mcp_travel_server.py:47-54 | A code is accepted exactly when its upper-cased form is EUR, JPY or GBP. The result's currency is that upper-cased code, with its table rate. Any other code raises `ValueError` "Unsupported currency: " followed by the upper-cased code. |
| Travel.ConvertIgnoresCase | lab2/mcp_travel_server.py:51-52 | Codes that differ only in letter case convert alike. |
| Travel.ConvertedCodeIsStable | lab2/mcp_travel_server.py:51-54 | The currency a conversion reports is itself accepted, with the same result. |
| Travel.ConvertExamples | lab2/mcp_travel_server.py:50-53 | `eur` and `JpY` are accepted as EUR and JPY, and `usd` is refused as USD. |
| Travel.AllowedOrigins | lab2/mcp_travel_server.py:18-23 | An unset or empty variable gives exactly `["*"]`. A non-empty one gives comma-free pieces that join back with commas into the variable's value. |
| Travel.OriginsRoundTrip | lab2/mcp_travel_server.py:18-20 | A list of comma-free origins, written joined by commas, is read back as the same list. |
| Travel.OriginsKeepSpacesAndEmpties | lab2/mcp_travel_server.py:19-20 | The pieces are not trimmed, and empty pieces are kept: `a, b,` gives `a`, ` b` and the empty string. |
| Calc.SubImplV1 | lab4/server.py:9-10 | The difference, which added to the second operand gives the first. |
| Calc.SubV1 | lab4/server.py:13-15 | The `sub_v1` tool computes the v1 difference. |
| Calc.Sub | lab4/server.py:18-21 | The `sub` alias computes the v1 difference. |
| Calc.SubIsV1 | lab4/server.py:9-21 | The alias agrees with `sub_v1` everywhere, is zero on equal operands and is anti-symmetric. |
| CalcV2.SubImplV1 | lab4/server_v2.py:9-10 | The first operand minus the second. |
| CalcV2.SubImplV2 | lab4/server_v2.py:12-13 | The second operand minus the first. |
| CalcV2.SubV1 | lab4/server_v2.py:16-18 | The `sub_v1` tool computes the v1 difference. |
| CalcV2.SubV2 | lab4/server_v2.py:20-22 | The `sub_v2` tool computes the v2 difference. |
| CalcV2.Sub | lab4/server_v2.py:25-28 | The `sub` alias computes the v2 difference. |
| CalcV2.AliasFollowsV2 | lab4/server_v2.py:9-28 | v2 is the negation of v1. The alias agrees with `sub_v2` everywhere, and differs from `sub_v1` exactly when the operands differ. |
| Strings.Strip | lab5/llama_tool_server.py:34 | The strip is a slice of the input with only whitespace outside it and none at its ends. |
| Strings.StripUnique | lab5/llama_tool_server.py:34 | Any string meeting that description is the strip. |
| Strings.Split | lab2/mcp_travel_server.py:20 | Splitting on one character gives at least one piece, none containing the separator, and the pieces join back into the input. |
| Strings.SplitJoin | lab2/mcp_travel_server.py:20 | Splitting undoes joining when no piece contains the separator. |
| Strings.NatToString | lab5/latency_server.py:72 | The decimal spelling of the milliseconds has no leading zero and reads back as the same number. |
| Strings.CanonicalRoundTrip | lab1/agent_mcp.py:27-28 | `int` then `str` gives back a digit string without a leading zero. |
| Strings.Upper | lab2/mcp_travel_server.py:51 | Upper-casing keeps the length, leaves no ASCII lower-case letter, and changes only such letters. |

## Left out

- The explorer's embedded HTML/JavaScript page (`index_handler`), route
  registration, the command line and `web.run_app`. Of `create_app`, only the
  state it sets up is modelled, as `Explorer.Startup`.
  `get_server_url_handler` only echoes the stored URL.
- The network: the upstream MCP server is the `Upstream` parameter. An
  exception raised before the response headers arrive (connection refused, an
  unusable URL) is its `Unreachable` answer. One raised while reading the body
  is a `Reply` whose body is that failure. Both carry the text `str(e)` would
  give.
- `json.loads` and `request.json()` are parameters. JSON floats are not
  represented. A JSON text with a repeated key keeps all its fields, and a
  lookup sees the first, whereas Python keeps the last.
- Concurrency: the handlers are sequential transitions of one `Session` value.
  The unguarded race on the two globals between interleaved requests is not
  represented.
- Explorer.Envelope: for replies that are not JSON objects it follows Python's
  operators, but its contract only states the behaviour for object replies.
- Headers.Lookup: the two lookups `or`-ed together in the source are one
  case-insensitive lookup. That is equivalent because the header map ignores
  case.
- `repr` and `str` print strings between single quotes without escaping. Python
  switches to double quotes or escapes for strings holding quotes, backslashes
  or control characters.
- `str.isdigit`, `upper`, `lower` and the regular-expression class `\d` are
  modelled on ASCII only. Python also treats other Unicode digits and letters,
  so `last_number` of a text whose only digit is a non-ASCII one (`a٣`) gives
  that digit in Python and the whole text here.
- Error messages follow CPython 3.11 wording.
- AgentHelpers.ConvertFields: every all-digit string is converted, whatever its
  length. CPython 3.11 and later refuse `int()` on strings of more than 4300
  digits with a `ValueError`, by default. The model has no such limit,
  because the limit is a configurable interpreter setting and its message
  text differs between versions.
- AgentHelpers.FormatArgs: for the same reason, it succeeds on a dict holding
  a digit string of more than 4300 digits, where CPython raises `ValueError`.
- The summarizer's Ollama HTTP call, `raise_for_status`, and reading the
  response as JSON: the decoded reply is a parameter. The duration is a natural
  number of milliseconds; the float clock arithmetic is not modelled.
- Summarizer.ExtractText: `getattr(item, "text", …)` on a list item always
  falls back to `str(item)`, since decoded JSON values have no attributes.
  Tuples cannot occur in decoded JSON.
- JWT encoding and decoding, HS256, the shared secret, and `datetime.utcnow`:
  signing and verification are parameters, and time is integer seconds.
- The token endpoint's form parsing (a missing field is a framework 422) and
  the `uvicorn` startup of every server.
- The travel server's `distance_between`, the converted amount
  `round(amount_usd * rate, 2)`, the `major_cities` resource and the
  `recommend_sightseeing` prompt. All are floating point or constant data.
  The rates are kept as whole hundredths.
- The CORS middleware itself: only the origin list it is given is modelled.
- The `-> str` annotation on `sub_v2`: the tool returns the integer difference
  unchanged.
