/** The records of the OAuth 2.0 authorization server and the checks on them that
    involve no store: scopes, client registration, PKCE and expiry. Times are
    nanoseconds. */
module OAuthDomain {
  import opened Text
  import opened Wrappers

  datatype Result<T> = Success(value: T) | Failure(error: Error)

  datatype Error =
    | InvalidInput | InvalidScope | InvalidClient | InvalidRedirectURI | InvalidGrant | InvalidCodeChallenge
    | UnsupportedResponseType | UnsupportedGrantType | ExpiredCode | StoreFailed
    | TokenInvalid | TokenRevoked | TokenExpired

  const SECOND := 1_000_000_000
  const ACCESS_TTL := 15 * 60 * SECOND
  const REFRESH_TTL := 30 * 24 * 60 * 60 * SECOND
  const CODE_TTL := 10 * 60 * SECOND

  const MCP_SCOPES: seq<string> := ["mcp:search", "mcp:documents:read", "mcp:sources:list"]

  // ---- scope lists -------------------------------------------------------

  /** JSON as the scope field may come. */
  datatype Json = JString(text: string) | JArray(items: seq<string>) | JOther

  /** ScopeList.MarshalJSON. */
  function MarshalScopes(scopes: seq<string>): Json {
    JString(Join(scopes, ' '))
  }

  /** ScopeList.UnmarshalJSON. */
  function UnmarshalScopes(j: Json): Option<seq<string>> {
    match j
    case JString(text) => Some(if text == "" then [] else Fields(text))
    case JArray(items) => Some(items)
    case JOther => None
  }

  predicate ScopeWords(scopes: seq<string>) {
    AllWords(scopes, IsSpace)
  }

  /** Fields undoes Join with a space exactly for lists of non-empty, blank-free
      names, so exactly those survive a round trip through JSON. */
  lemma ScopesRoundTrip(scopes: seq<string>)
    ensures Fields(Join(scopes, ' ')) == scopes <==> ScopeWords(scopes)
    ensures UnmarshalScopes(MarshalScopes(scopes)) == Some(scopes) <==> ScopeWords(scopes)
  {
    WordsOfJoin(scopes, ' ', IsSpace);
    if Join(scopes, ' ') == "" {
      assert Fields("") == [];
    }
  }

  /** From JSON: a string gives its words, an array its items, anything else nothing. */
  lemma UnmarshalMeans(text: string, items: seq<string>)
    ensures UnmarshalScopes(JString(text)).Some?
    ensures AllWords(UnmarshalScopes(JString(text)).value, IsSpace)
    ensures Fields(Join(UnmarshalScopes(JString(text)).value, ' ')) == Fields(text)
    ensures UnmarshalScopes(JArray(items)) == Some(items) && UnmarshalScopes(JOther).None?
  {
    assert Fields("") == [];
    WordsAreWords(text, IsSpace);
    WordsOfJoin(Fields(text), ' ', IsSpace);
  }

  lemma McpScopesAreWords(scopes: seq<string>)
    requires forall x :: x in scopes ==> x in MCP_SCOPES
    ensures ScopeWords(scopes)
  {
    assert IsWord("mcp:search", IsSpace);
    assert IsWord("mcp:documents:read", IsSpace);
    assert IsWord("mcp:sources:list", IsSpace);
  }

  /** The separators of splitScopes. */
  predicate IsScopeSeparator(c: char) { c == ' ' || c == ',' }

  lemma WordThenSeparator(w: string, c: char, rest: string)
    requires (forall x :: x in w ==> !IsScopeSeparator(x)) && IsScopeSeparator(c)
    ensures Words(w + [c] + rest, IsScopeSeparator) ==
            (if w == "" then [] else [w]) + Words(rest, IsScopeSeparator)
  {
    var s := w + [c] + rest;
    assert s == w + ([c] + rest) && ([c] + rest)[1..] == rest;
    if w == "" {
      assert s == [c] + rest;
    } else {
      FirstWordThen(w, [c] + rest, IsScopeSeparator);
      assert s[|w|..] == [c] + rest && s[0] == w[0];
    }
  }

  /** What is left to split, when the word collected so far is put back in front. */
  function Pending(current: string, scope: string, i: nat): (words: seq<string>)
    requires i <= |scope|
  {
    Words(current + scope[i..], IsScopeSeparator)
  }

  lemma PendingStep(current: string, scope: string, i: nat)
    requires i < |scope| && forall c :: c in current ==> !IsScopeSeparator(c)
    ensures Pending(current, scope, i) ==
            if IsScopeSeparator(scope[i]) then
              (if current == "" then [] else [current]) + Pending("", scope, i + 1)
            else Pending(current + [scope[i]], scope, i + 1)
  {
    var c, rest := scope[i], scope[i + 1..];
    assert current + scope[i..] == current + [c] + rest;
    assert "" + rest == rest;
    if IsScopeSeparator(c) {
      WordThenSeparator(current, c, rest);
    }
  }

  lemma PendingAtStart(scope: string)
    ensures Pending("", scope, 0) == Words(scope, IsScopeSeparator)
  {
    assert "" + scope[0..] == scope;
  }

  lemma PendingAtEnd(current: string, scope: string)
    requires forall c :: c in current ==> !IsScopeSeparator(c)
    ensures Pending(current, scope, |scope|) == if current == "" then [] else [current]
  {
    LastWord(current);
    assert current + scope[|scope|..] == current;
  }

  lemma LastWord(w: string)
    requires forall c :: c in w ==> !IsScopeSeparator(c)
    ensures Words(w, IsScopeSeparator) == if w == "" then [] else [w]
  {
    if w != "" {
      FirstWordThen(w, "", IsScopeSeparator);
      assert w + "" == w && w[|w|..] == "";
    }
  }

  /** splitScopes, with its growing word and list. */
  method SplitScopes(scope: string) returns (scopes: seq<string>)
    ensures scopes == Words(scope, IsScopeSeparator)
  {
    scopes := [];
    if scope == "" {
      return;
    }
    var current := "";
    PendingAtStart(scope);
    for i := 0 to |scope|
      invariant forall c :: c in current ==> !IsScopeSeparator(c)
      invariant scopes + Pending(current, scope, i) == Words(scope, IsScopeSeparator)
    {
      PendingStep(current, scope, i);
      if scope[i] == ' ' || scope[i] == ',' {
        if current != "" {
          scopes := scopes + [current];
          current := "";
        }
      } else {
        current := current + [scope[i]];
      }
    }
    PendingAtEnd(current, scope);
    if current != "" {
      scopes := scopes + [current];
    }
  }

  /** splitScopes inverts joining with a space or with a comma, exactly for lists of
      non-empty names without either. */
  lemma SplitScopesInverts(scopes: seq<string>, d: char)
    requires IsScopeSeparator(d)
    ensures Words(Join(scopes, d), IsScopeSeparator) == scopes <==> AllWords(scopes, IsScopeSeparator)
  {
    WordsOfJoin(scopes, d, IsScopeSeparator);
  }

  // ---- clients -----------------------------------------------------------

  datatype Client = Client(
    secretHash: string,
    name: string,
    redirectURIs: seq<string>,
    grantTypes: seq<string>,
    responseTypes: seq<string>,
    scopes: seq<string>,
    applicationType: string,
    authMethod: string,
    active: bool)

  predicate IsPublic(c: Client) { c.authMethod == "none" }

  /** OAuthClient.ValidateScopes: the requested scopes the client may not have. */
  method ValidateScopes(c: Client, requested: seq<string>) returns (invalid: seq<string>)
    ensures forall x :: x in invalid <==> x in requested && x !in c.scopes
    ensures invalid == [] <==> forall x :: x in requested ==> x in c.scopes
  {
    invalid := [];
    for i := 0 to |requested|
      invariant forall x :: x in invalid <==> x in requested[..i] && x !in c.scopes
    {
      assert requested[..i + 1] == requested[..i] + [requested[i]];
      if requested[i] !in c.scopes {
        invalid := invalid + [requested[i]];
      }
    }
    assert requested[..|requested|] == requested;
    assert invalid != [] ==> invalid[0] in invalid;
  }

  datatype RegistrationRequest = RegistrationRequest(
    name: string,
    redirectURIs: seq<string>,
    grantTypes: seq<string>,
    responseTypes: seq<string>,
    scopes: seq<string>,
    applicationType: string,
    authMethod: string)

  /** The client a registration creates, after section 2 of RFC 7591: absent fields
      take their defaults, unknown scopes and methods are refused. */
  function Registered(req: RegistrationRequest, secretHash: string): Result<Client> {
    var grantTypes := if req.grantTypes == [] then ["authorization_code"] else req.grantTypes;
    var responseTypes := if req.responseTypes == [] then ["code"] else req.responseTypes;
    var scopes := if req.scopes == [] then MCP_SCOPES else req.scopes;
    var applicationType := if req.applicationType == "" then "native" else req.applicationType;
    var authMethod := if req.authMethod == "" then "none" else req.authMethod;
    if req.name == "" || req.redirectURIs == [] then Failure(InvalidInput)
    else if exists x :: x in scopes && x !in MCP_SCOPES then Failure(InvalidScope)
    else if applicationType != "native" && applicationType != "web" then Failure(InvalidInput)
    else if authMethod != "none" && authMethod != "client_secret_post" then Failure(InvalidInput)
    else
      Success(Client(if authMethod == "none" then "" else secretHash, req.name, req.redirectURIs, grantTypes,
                     responseTypes, scopes, applicationType, authMethod, true))
  }

  /** What a registration answers: the secret is shown here only, and only to a
      confidential client; the issue time is in seconds. */
  datatype Registration = Registration(clientID: string, clientSecret: string, client: Client, issuedAt: int)

  // ---- codes and tokens --------------------------------------------------

  datatype Code = Code(
    clientID: string,
    userID: string,
    redirectURI: string,
    scopes: seq<string>,
    codeChallenge: string,
    resource: string,
    createdAt: int,
    expiresAt: int,
    used: bool)

  datatype Access = Access(
    clientID: string,
    userID: string,
    scopes: seq<string>,
    audience: string,
    expiresAt: int,
    revoked: bool)

  datatype Refresh = Refresh(
    accessID: string,
    clientID: string,
    userID: string,
    scopes: seq<string>,
    audience: string,
    expiresAt: int,
    revoked: bool,
    rotatedTo: string)

  /** OAuthRefreshToken.IsValid. */
  predicate IsValid(r: Refresh, now: int) {
    now <= r.expiresAt && !r.revoked && r.rotatedTo == ""
  }

  datatype AuthorizeRequest = AuthorizeRequest(
    responseType: string,
    clientID: string,
    redirectURI: string,
    scope: string,
    codeChallenge: string,
    codeChallengeMethod: string,
    resource: string)

  /** AuthorizeRequest.ParseScopes. */
  function ParseScopes(req: AuthorizeRequest): seq<string> {
    if req.scope == "" then [] else Fields(req.scope)
  }

  datatype TokenRequest = TokenRequest(
    code: string,
    redirectURI: string,
    clientID: string,
    clientSecret: string,
    codeVerifier: string,
    refreshToken: string,
    resource: string)

  /** The server's settings and the cryptography it calls: the base64url SHA-256 of
      a verifier, and the comparison of a secret with its hash. */
  datatype Config = Config(
    serverURL: string,
    s256: string -> string,
    secretMatches: (string, string) -> bool)

  /** validatePKCE, after section 4.6 of RFC 7636. */
  predicate ValidatePKCE(cfg: Config, verifier: string, challenge: string) {
    verifier != "" && challenge != "" && cfg.s256(verifier) == challenge
  }

  /** The code an authorization request creates, or the reason it is refused. */
  function Authorized(clients: map<string, Client>, userID: string, req: AuthorizeRequest, now: int): Result<Code> {
    if req.responseType != "code" then Failure(UnsupportedResponseType)
    else if req.codeChallengeMethod != "S256" then Failure(InvalidCodeChallenge)
    else if req.codeChallenge == "" then Failure(InvalidCodeChallenge)
    else if req.clientID !in clients then Failure(InvalidClient)
    else
      var client := clients[req.clientID];
      if !client.active then Failure(InvalidClient)
      else if req.redirectURI !in client.redirectURIs then Failure(InvalidRedirectURI)
      else if "authorization_code" !in client.grantTypes then Failure(UnsupportedGrantType)
      else
        var requested := if ParseScopes(req) == [] then client.scopes else ParseScopes(req);
        if exists x :: x in requested && x !in client.scopes then Failure(InvalidScope)
        else
          Success(Code(req.clientID, userID, req.redirectURI, requested, req.codeChallenge, req.resource,
                       now, now + CODE_TTL, false))
  }

  /** The checks on a redeemed code, in the order they are made (section 4.1.3 of
      RFC 6749); None when all pass. */
  function CodeCheck(cfg: Config, req: TokenRequest, row: Code, now: int): Option<Error> {
    if now > row.expiresAt then Some(ExpiredCode)
    else if row.clientID != req.clientID then Some(InvalidClient)
    else if row.redirectURI != req.redirectURI then Some(InvalidRedirectURI)
    else if !ValidatePKCE(cfg, req.codeVerifier, row.codeChallenge) then Some(InvalidCodeChallenge)
    else None
  }

  function RefreshCheck(req: TokenRequest, row: Refresh, now: int): Option<Error> {
    if !IsValid(row, now) then Some(InvalidGrant)
    else if row.clientID != req.clientID then Some(InvalidClient)
    else None
  }

  /** Client lookup and, for confidential clients, the secret. */
  function ClientCheck(cfg: Config, clients: map<string, Client>, req: TokenRequest): Option<Error> {
    if req.clientID !in clients then Some(InvalidClient)
    else if IsPublic(clients[req.clientID]) then None
    else if req.clientSecret == "" then Some(InvalidClient)
    else if !cfg.secretMatches(clients[req.clientID].secretHash, req.clientSecret) then Some(InvalidClient)
    else None
  }

  /** The audience of the tokens for a code (section 2 of RFC 8707). */
  function Audience(cfg: Config, req: TokenRequest, row: Code): string {
    if req.resource != "" then req.resource
    else if row.resource != "" then row.resource
    else cfg.serverURL
  }

  // ---- bearer tokens -----------------------------------------------------

  /** JWT claims; `iat` and `exp` are whole seconds. */
  datatype Claims = Claims(jti: string, sub: string, clientID: string, scope: string, aud: string, iat: int, exp: int)

  /** A bearer string: a JWT signed with the server's key, or anything else. */
  datatype Bearer = Jwt(claims: Claims) | Opaque(text: string)

  /** generateAccessToken. */
  function ClaimsOf(jti: string, t: Access, now: int): Claims {
    Claims(jti, t.userID, t.clientID, Join(t.scopes, ' '), t.audience, now / SECOND, t.expiresAt / SECOND)
  }

  /** parseAccessToken: the library also refuses a token from its `exp` second on. */
  function Parse(b: Bearer, now: int): Option<Claims> {
    if b.Jwt? && now < b.claims.exp * SECOND then Some(b.claims) else None
  }
}
