/** The lab's OAuth-style authorization server: the `/token` endpoint checks a
    client's credentials against a fixed registry and issues a signed access
    token; `/introspect` reports whether a token verifies and, if so, its
    subject, scope and expiry. Signing and verification (HS256 with the shared
    secret and the audience check) are oracles, and the clock is an integer
    number of seconds passed in. */
module AuthServer {
  import opened Wrappers
  import opened Strings
  import opened PyValue
  import opened Headers

  const Audience := "mcp-lab"
  /** Lifetime of an access token, in seconds. */
  const ExpiresIn: nat := 3600

  /** A registered client: its secret and the scopes its tokens carry. */
  datatype Client = Client(secret: string, scopes: seq<string>)

  /** The fake client registry. */
  const Registry: map<string, Client> := map["demo-client" := Client("demopass", ["calc:add"])]

  /** The claims of an access token; times are seconds since the epoch. */
  datatype Claims = Claims(sub: string, scope: string, aud: string, iat: int, exp: int)

  /** Signs a payload into a compact token. */
  type Signer = Json -> string
  /** Checks a token's signature, algorithm, audience and expiry and yields the
      fields of its payload object, or the reason it was rejected. */
  type Verifier = string -> Result<seq<(string, Json)>, string>

  /** The claims `_create_access_token` puts in a token issued at `now`. */
  function AccessClaims(sub: string, scopes: seq<string>, now: int): (c: Claims)
    ensures c.sub == sub && c.aud == Audience
    ensures c.iat == now && c.exp == c.iat + ExpiresIn
    ensures |scopes| > 0 && (forall i :: 0 <= i < |scopes| ==> ' ' !in scopes[i]) ==> Split(c.scope, ' ') == scopes
  {
    ScopesRoundTrip(scopes);
    Claims(sub, Join(scopes, " "), Audience, now, now + ExpiresIn)
  }

  /** Scope names without spaces come back out of the space-joined scope claim. */
  lemma ScopesRoundTrip(scopes: seq<string>)
    ensures |scopes| > 0 && (forall i :: 0 <= i < |scopes| ==> ' ' !in scopes[i]) ==> Split(Join(scopes, " "), ' ') == scopes
  {
    if |scopes| > 0 && (forall i :: 0 <= i < |scopes| ==> ' ' !in scopes[i]) {
      SplitJoin(scopes, ' ');
    }
  }

  /** The claims as the JSON object that is signed. */
  function Payload(c: Claims): Json {
    JObj([("sub", JStr(c.sub)), ("scope", JStr(c.scope)), ("aud", JStr(c.aud)),
          ("iat", JInt(c.iat)), ("exp", JInt(c.exp))])
  }

  /** Reading the subject, scope and expiry back out of a payload. */
  lemma PayloadFields(c: Claims)
    ensures HasKey(Payload(c), "sub") && Field(Payload(c), "sub") == JStr(c.sub)
    ensures HasKey(Payload(c), "scope") && Field(Payload(c), "scope") == JStr(c.scope)
    ensures HasKey(Payload(c), "exp") && Field(Payload(c), "exp") == JInt(c.exp)
  {
    var fs := Payload(c).fields;
    FindKeyFirst(fs, "sub", 0, 0);
    assert "sub"[0] != "scope"[1];
    FindKeyFirst(fs, "scope", 0, 1);
    assert "exp"[0] != "sub"[0] && "exp"[0] != "scope"[0] && "exp"[0] != "aud"[0] && "exp"[0] != "iat"[0];
    FindKeyFirst(fs, "exp", 0, 4);
  }

  /** `token(form)`: the client id and secret of the form grant, checked
      against the registry; a match yields a bearer token that lives one hour. */
  function IssueToken(clientId: string, secret: string, now: int, sign: Signer): (r: Result<Json, HttpException>)
    ensures r.Success? <==> clientId in Registry && Registry[clientId].secret == secret
    ensures r.Failure? ==> r.error == HttpException(401, "Invalid client credentials")
    ensures r.Success? ==>
              r.value == JObj([("access_token", JStr(sign(Payload(AccessClaims(clientId, Registry[clientId].scopes, now))))),
                               ("token_type", JStr("bearer")),
                               ("expires_in", JInt(ExpiresIn))])
  {
    if clientId !in Registry || Registry[clientId].secret != secret then
      Failure(HttpException(401, "Invalid client credentials"))
    else
      var token := sign(Payload(AccessClaims(clientId, Registry[clientId].scopes, now)));
      Success(JObj([("access_token", JStr(token)), ("token_type", JStr("bearer")), ("expires_in", JInt(ExpiresIn))]))
  }

  const Inactive: Json := JObj([("active", JBool(false))])

  /** `introspect(token)`: `{active: False}` for a token that does not verify;
      otherwise `active` with the subject, scope and expiry of its payload, read
      in that order, so that a payload without one of them raises `KeyError`
      for the first one missing. */
  function Introspect(token: string, verify: Verifier): (r: Result<Json, PyError>)
    ensures verify(token).Failure? ==> r == Success(Inactive)
    ensures verify(token).Success? ==>
              var p := JObj(verify(token).value);
              && (!HasKey(p, "sub") ==> r == Failure(KeyError(JStr("sub"))))
              && (HasKey(p, "sub") && !HasKey(p, "scope") ==> r == Failure(KeyError(JStr("scope"))))
              && (HasKey(p, "sub") && HasKey(p, "scope") && !HasKey(p, "exp") ==> r == Failure(KeyError(JStr("exp"))))
              && (HasKey(p, "sub") && HasKey(p, "scope") && HasKey(p, "exp") ==>
                    r == Success(JObj([("active", JBool(true)), ("sub", Field(p, "sub")),
                                       ("scope", Field(p, "scope")), ("exp", Field(p, "exp"))])))
  {
    match verify(token)
    case Failure(_) => Success(Inactive)
    case Success(fields) =>
      var p := JObj(fields);
      var sub :- Subscript(p, "sub");
      var scope :- Subscript(p, "scope");
      var exp :- Subscript(p, "exp");
      Success(JObj([("active", JBool(true)), ("sub", sub), ("scope", scope), ("exp", exp)]))
  }

  /** A token the server issued introspects as active, with the client as
      subject, the client's scopes and an expiry one hour after issue — as long
      as verification gives back what was signed. */
  lemma IssuedTokenIsActive(clientId: string, secret: string, now: int, sign: Signer, verify: Verifier)
    requires clientId in Registry && Registry[clientId].secret == secret
    ensures IssueToken(clientId, secret, now, sign).Success?
    ensures var p := Payload(AccessClaims(clientId, Registry[clientId].scopes, now));
            var token := IssueToken(clientId, secret, now, sign).value.fields[0].1.s;
            verify(sign(p)) == Success(p.fields)
            ==> Introspect(token, verify)
                == Success(JObj([("active", JBool(true)), ("sub", JStr(clientId)),
                                 ("scope", JStr(Join(Registry[clientId].scopes, " "))), ("exp", JInt(now + ExpiresIn))]))
  {
    PayloadFields(AccessClaims(clientId, Registry[clientId].scopes, now));
  }

  /** The demo client's tokens carry the single scope `calc:add`; any other
      secret, or any other client, is turned away. */
  lemma DemoClient(secret: string, other: string, now: int, sign: Signer)
    ensures AccessClaims("demo-client", Registry["demo-client"].scopes, now).scope == "calc:add"
    ensures IssueToken("demo-client", secret, now, sign).Success? <==> secret == "demopass"
    ensures other != "demo-client" ==> IssueToken(other, secret, now, sign).Failure?
  {
  }
}
