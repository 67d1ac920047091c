/** The secured calculator server: a middleware in front of the MCP endpoint
    lets a request through only with a bearer token that verifies, and the one
    tool adds two integers. Token verification (signature, algorithm, audience
    and expiry) is an oracle that yields either success or the error text. */
module SecureServer {
  import opened Wrappers
  import opened Strings
  import opened Headers

  /** Paths that start with this are gated. */
  const GatedPrefix := "/mcp"
  const BearerPrefix := "Bearer "

  /** `jwt.decode(token, …)`: `Success` when the token verifies, else the
      text of the raised error. */
  type TokenCheck = string -> Result<(), string>

  /** What the middleware does with a request. */
  datatype Decision = Forward | Reject(error: HttpException)

  predicate IsGated(path: string) {
    StartsWith(path, GatedPrefix)
  }

  /** `request.headers.get("authorization", "")` */
  function Authorization(headers: HeaderList): string {
    Lookup(headers, "authorization").GetOr("")
  }

  /** The token of a bearer header: the prefix removed, then whitespace stripped. */
  function BearerToken(auth: string): (t: string)
    requires StartsWith(auth, BearerPrefix)
    ensures auth == BearerPrefix + auth[|BearerPrefix|..]
    ensures IsStripOf(t, auth[|BearerPrefix|..])
  {
    Strip(auth[|BearerPrefix|..])
  }

  /** `AuthMiddleware.dispatch` */
  function Dispatch(path: string, headers: HeaderList, check: TokenCheck): (d: Decision)
    ensures !IsGated(path) ==> d == Forward
    ensures IsGated(path) && !StartsWith(Authorization(headers), BearerPrefix)
            ==> d == Reject(HttpException(401, "Missing token"))
    ensures IsGated(path) && StartsWith(Authorization(headers), BearerPrefix)
            ==> match check(BearerToken(Authorization(headers)))
                case Success(_) => d == Forward
                case Failure(message) => d == Reject(HttpException(401, "Token invalid: " + message))
  {
    if IsGated(path) then
      var auth := Authorization(headers);
      if !StartsWith(auth, BearerPrefix) then
        Reject(HttpException(401, "Missing token"))
      else
        match check(BearerToken(auth))
        case Success(_) => Forward
        case Failure(message) => Reject(HttpException(401, "Token invalid: " + message))
    else
      Forward
  }

  /** A request reaches the server exactly when its path is not gated, or it
      carries a bearer header whose token verifies; every refusal raises
      `HTTPException(401, …)`. */
  lemma ForwardIff(path: string, headers: HeaderList, check: TokenCheck)
    ensures Dispatch(path, headers, check) == Forward
            <==> !IsGated(path)
                 || (StartsWith(Authorization(headers), BearerPrefix)
                     && check(BearerToken(Authorization(headers))).Success?)
    ensures Dispatch(path, headers, check).Reject? ==> Dispatch(path, headers, check).error.status == 401
  {
  }

  /** The prefix test is on characters only: `/mcpx` is gated as well, and the
      scheme must be spelt `Bearer ` exactly. */
  lemma GateIsLiteral(token: string, check: TokenCheck)
    ensures IsGated("/mcpx")
    ensures !IsGated("/health")
    ensures Dispatch("/mcp", [("Authorization", "bearer " + token)], check)
            == Reject(HttpException(401, "Missing token"))
    ensures Dispatch("/mcp", [], check) == Reject(HttpException(401, "Missing token"))
  {
    assert "/health"[1] != GatedPrefix[1];
    var hs := [("Authorization", "bearer " + token)];
    assert SameName(hs[0].0, "authorization");
    assert Authorization(hs) == "bearer " + token;
    assert ("bearer " + token)[0] != BearerPrefix[0];
  }

  /** Whitespace around the token does not matter: whatever whitespace `p`
      and `q` pad it with, verification is asked about the same token. */
  lemma PaddedTokenChecked(path: string, p: string, token: string, q: string, check: TokenCheck)
    requires forall k :: 0 <= k < |p| ==> IsSpace(p[k])
    requires forall k :: 0 <= k < |q| ==> IsSpace(q[k])
    requires |token| == 0 || (!IsSpace(token[0]) && !IsSpace(token[|token| - 1]))
    ensures Dispatch(path, [("authorization", BearerPrefix + p + token + q)], check)
            == Dispatch(path, [("authorization", BearerPrefix + token)], check)
  {
    var padded := BearerPrefix + (p + token + q);
    var plain := BearerPrefix + token;
    assert BearerPrefix + p + token + q == padded;
    SingleHeader(padded);
    SingleHeader(plain);
    BearerOf(token);
    BearerOf(p + token + q);
    StripPadding(p, token, q);
  }

  /** A lone `authorization` field is what the middleware reads. */
  lemma SingleHeader(value: string)
    ensures Authorization([("authorization", value)]) == value
  {
    assert SameName("authorization", "authorization");
  }

  /** A value after the bearer prefix is what gets stripped. */
  lemma BearerOf(rest: string)
    ensures StartsWith(BearerPrefix + rest, BearerPrefix)
    ensures BearerToken(BearerPrefix + rest) == Strip(rest)
  {
    assert (BearerPrefix + rest)[..|BearerPrefix|] == BearerPrefix;
    assert (BearerPrefix + rest)[|BearerPrefix|..] == rest;
  }

  /** Stripping removes the padding and nothing else. */
  lemma StripPadding(p: string, token: string, q: string)
    requires forall k :: 0 <= k < |p| ==> IsSpace(p[k])
    requires forall k :: 0 <= k < |q| ==> IsSpace(q[k])
    requires |token| == 0 || (!IsSpace(token[0]) && !IsSpace(token[|token| - 1]))
    ensures Strip(p + token + q) == token
    ensures Strip(token) == token
  {
    var rest := p + token + q;
    var a, b := |p|, |p| + |token|;
    assert rest[a..b] == token;
    assert forall k :: 0 <= k < a ==> rest[k] == p[k];
    assert forall k :: b <= k < |rest| ==> rest[k] == q[k - b];
    assert IsStripOf(token, rest);
    StripUnique(token, rest);
    StripKeeps(token);
  }

  /** The `add` tool. */
  function Add(a: int, b: int): (r: int)
    ensures r - b == a && r - a == b
  {
    a + b
  }
}
