/** What clients and users of the authorization server get for what they ask: the
    grant of an authorization request, the scopes, audience and lifetime of every token
    that descends from it, and the reach of a revocation, each in terms of the
    requests alone. */
module OAuthPromises {
  import opened OAuthDomain
  import opened OAuthGrants
  import opened OAuthSafety
  import opened OAuthServer
  import opened Text
  import opened Wrappers

  const MINUTE := 60 * 1_000_000_000
  const DAY := 24 * 60 * MINUTE

  // ---- registration ------------------------------------------------------

  /** A registration succeeds exactly for a named client with a redirect URI whose
      scopes, application type and authentication method, as far as given, are known. */
  lemma RegistrationSucceedsIff(r: RegistrationRequest, secretHash: string)
    ensures Registered(r, secretHash).Success? <==>
              && r.name != "" && r.redirectURIs != []
              && (forall x :: x in r.scopes ==> x in {"mcp:search", "mcp:documents:read", "mcp:sources:list"})
              && r.applicationType in {"", "native", "web"}
              && r.authMethod in {"", "none", "client_secret_post"}
  {
    assert forall x :: x in MCP_SCOPES <==> x in {"mcp:search", "mcp:documents:read", "mcp:sources:list"};
    var scopes := if r.scopes == [] then MCP_SCOPES else r.scopes;
    assert (exists x :: x in scopes && x !in MCP_SCOPES) <==> exists x :: x in r.scopes && x !in MCP_SCOPES;
  }

  /** The client is what was asked for, with the documented default for what was not;
      it holds a secret exactly when it is confidential. */
  lemma RegistrationKeepsRequest(r: RegistrationRequest, secretHash: string)
    requires Registered(r, secretHash).Success?
    ensures var c := Registered(r, secretHash).value;
            && c.name == r.name && c.redirectURIs == r.redirectURIs && c.active
            && (if r.grantTypes != [] then c.grantTypes == r.grantTypes else c.grantTypes == ["authorization_code"])
            && (if r.responseTypes != [] then c.responseTypes == r.responseTypes else c.responseTypes == ["code"])
            && (if r.scopes != [] then c.scopes == r.scopes
                else c.scopes == ["mcp:search", "mcp:documents:read", "mcp:sources:list"])
            && (if r.applicationType != "" then c.applicationType == r.applicationType
                else c.applicationType == "native")
            && (if r.authMethod != "" then c.authMethod == r.authMethod else c.authMethod == "none")
            && c.secretHash == (if r.authMethod == "client_secret_post" then secretHash else "")
  {
  }

  /** An unknown scope is answered by its own error, anything else amiss by another. */
  lemma RegistrationRefusals(r: RegistrationRequest, secretHash: string)
    ensures var x := Registered(r, secretHash);
            && (x == Failure(InvalidScope) <==>
                  && r.name != "" && r.redirectURIs != []
                  && exists y :: y in r.scopes && y !in {"mcp:search", "mcp:documents:read", "mcp:sources:list"})
            && (x.Failure? ==> x.error == InvalidScope || x.error == InvalidInput)
  {
    assert forall y :: y in MCP_SCOPES <==> y in {"mcp:search", "mcp:documents:read", "mcp:sources:list"};
    var scopes := if r.scopes == [] then MCP_SCOPES else r.scopes;
    assert (exists y :: y in scopes && y !in MCP_SCOPES) <==> exists y :: y in r.scopes && y !in MCP_SCOPES;
  }

  // ---- authorization -----------------------------------------------------

  /** Authorize succeeds exactly for an active client with the code grant, one of its
      redirect URIs, an S256 challenge, and scopes it has. */
  lemma AuthorizeSucceedsIff(clients: map<string, Client>, userID: string, a: AuthorizeRequest, now: int)
    ensures Authorized(clients, userID, a, now).Success? <==>
              && a.responseType == "code" && a.codeChallengeMethod == "S256" && a.codeChallenge != ""
              && a.clientID in clients && clients[a.clientID].active
              && a.redirectURI in clients[a.clientID].redirectURIs
              && "authorization_code" in clients[a.clientID].grantTypes
              && forall x :: x in Fields(a.scope) ==> x in clients[a.clientID].scopes
  {
    assert Fields("") == [];
  }

  /** What is amiss decides the error, in this order: the response type, the challenge,
      the client, its redirect URI, its grant, its scopes. */
  lemma AuthorizeRefusals(clients: map<string, Client>, userID: string, a: AuthorizeRequest, now: int)
    ensures var x := Authorized(clients, userID, a, now);
            var challenged := a.codeChallengeMethod == "S256" && a.codeChallenge != "";
            var known := a.clientID in clients && clients[a.clientID].active;
            && (x == Failure(UnsupportedResponseType) <==> a.responseType != "code")
            && (x == Failure(InvalidCodeChallenge) <==> a.responseType == "code" && !challenged)
            && (x == Failure(InvalidClient) <==> a.responseType == "code" && challenged && !known)
            && (x == Failure(InvalidRedirectURI) <==>
                  a.responseType == "code" && challenged && known
                  && a.redirectURI !in clients[a.clientID].redirectURIs)
            && (x == Failure(UnsupportedGrantType) <==>
                  a.responseType == "code" && challenged && known
                  && a.redirectURI in clients[a.clientID].redirectURIs
                  && "authorization_code" !in clients[a.clientID].grantTypes)
            && (x == Failure(InvalidScope) <==>
                  a.responseType == "code" && challenged && known
                  && a.redirectURI in clients[a.clientID].redirectURIs
                  && "authorization_code" in clients[a.clientID].grantTypes
                  && exists y :: y in Fields(a.scope) && y !in clients[a.clientID].scopes)
  {
    assert Fields("") == [];
  }

  /** The scopes asked for: the words of the request, without any the client's own. */
  predicate Asked(scopes: seq<string>, a: AuthorizeRequest, client: Client) {
    && (Fields(a.scope) != [] ==> scopes == Fields(a.scope))
    && (Fields(a.scope) == [] ==> scopes == client.scopes)
  }

  /** The code is what was asked for, unused and good for ten minutes. */
  lemma CodeIsAsRequested(clients: map<string, Client>, userID: string, a: AuthorizeRequest, now: int)
    requires Authorized(clients, userID, a, now).Success?
    ensures var c := Authorized(clients, userID, a, now).value;
            && a.clientID in clients && Asked(c.scopes, a, clients[a.clientID])
            && c.clientID == a.clientID && c.userID == userID && c.redirectURI == a.redirectURI
            && c.codeChallenge == a.codeChallenge && c.resource == a.resource
            && c.createdAt == now && c.expiresAt == now + 10 * MINUTE && !c.used
  {
    assert Fields("") == [];
  }

  /** A request for a list of scope names is granted just that list. */
  lemma RequestedWordsAreGranted(clients: map<string, Client>, userID: string, a: AuthorizeRequest, now: int,
                                 names: seq<string>)
    requires Authorized(clients, userID, a, now).Success? && a.scope == Join(names, ' ')
    requires ScopeWords(names) && names != []
    ensures Authorized(clients, userID, a, now).value.scopes == names
  {
    ScopesRoundTrip(names);
    CodeIsAsRequested(clients, userID, a, now);
  }

  /** Every stored code goes back to a successful Authorize of the run. */
  lemma {:induction false} CodesAreAuthorized(cfg: Config, s0: State, es: seq<Event>, s: State, id: string)
    returns (i: nat, u: State)
    requires Inv(cfg, s0) && Run(cfg, s0, es) == Some(s) && id in s.books.codes && id !in s0.books.codes
    ensures i < |es| && es[i].Authorize? && es[i].id == id && Run(cfg, s0, es[..i]) == Some(u)
    ensures Authorized(u.books.clients, es[i].userID, es[i].authorization, u.books.now).Success?
    ensures CodeGrows(Authorized(u.books.clients, es[i].userID, es[i].authorization, u.books.now).value,
                      s.books.codes[id])
    ensures es[i].authorization.clientID in u.books.clients && Keeps(u.books.clients, s.books.clients)
    decreases |es|
  {
    var e, t := es[0], Step(cfg, s0, es[0]);
    StepKeepsInv(cfg, s0, e);
    RunKeepsInv(cfg, t, es[1..], s);
    if id in t.books.codes {
      NewCode(cfg, s0, e, id);
      i, u := 0, s0;
      assert es[..0] == [];
    } else {
      var k;
      k, u := CodesAreAuthorized(cfg, t, es[1..], s, id);
      i := k + 1;
      PrefixRun(cfg, s0, es, k, u);
    }
  }

  lemma {:induction false} PrefixRun(cfg: Config, s: State, es: seq<Event>, k: nat, u: State)
    requires es != [] && Enabled(s, es[0]) && k < |es[1..]|
    requires Run(cfg, Step(cfg, s, es[0]), es[1..][..k]) == Some(u)
    ensures Run(cfg, s, es[..k + 1]) == Some(u)
  {
    assert es[..k + 1][0] == es[0] && es[..k + 1][1..] == es[1..][..k];
  }

  lemma NewCode(cfg: Config, s: State, e: Event, id: string)
    requires Enabled(s, e) && id !in s.books.codes && id in Step(cfg, s, e).books.codes
    ensures e.Authorize? && e.id == id
    ensures Authorized(s.books.clients, e.userID, e.authorization, s.books.now).Success?
    ensures Step(cfg, s, e).books.codes[id] ==
              Authorized(s.books.clients, e.userID, e.authorization, s.books.now).value
    ensures e.authorization.clientID in s.books.clients && Step(cfg, s, e).books.clients == s.books.clients
  {
    if !e.Authorize? { CodeStoreKept(cfg, s, e, id); }
  }

  lemma CodeStoreKept(cfg: Config, s: State, e: Event, id: string)
    requires Enabled(s, e) && !e.Authorize? && id !in s.books.codes
    ensures id !in Step(cfg, s, e).books.codes
  {
    if e.StoreAccess? || e.StoreRefresh? {
      StoresKeepCodes(cfg, s, e);
    } else if e.Rotate? || e.Crash? {
      EndsKeepCodes(cfg, s, e);
    } else if e.FetchRefresh? || e.Check? || e.LoadClient? {
      ChecksKeepCodes(cfg, s, e);
    } else {
      OthersKeepCodes(cfg, s, e, id);
    }
  }

  lemma StoresKeepCodes(cfg: Config, s: State, e: Event)
    requires Enabled(s, e) && (e.StoreAccess? || e.StoreRefresh?)
    ensures Step(cfg, s, e).books.codes == s.books.codes
  {
  }

  lemma EndsKeepCodes(cfg: Config, s: State, e: Event)
    requires Enabled(s, e) && (e.Rotate? || e.Crash?)
    ensures Step(cfg, s, e).books.codes == s.books.codes
  {
  }

  lemma ChecksKeepCodes(cfg: Config, s: State, e: Event)
    requires Enabled(s, e) && (e.FetchRefresh? || e.Check? || e.LoadClient?)
    ensures Step(cfg, s, e).books.codes == s.books.codes
  {
  }

  lemma OthersKeepCodes(cfg: Config, s: State, e: Event, id: string)
    requires Enabled(s, e) && (e.Tick? || e.Register? || e.Redeem? || e.Revoke?) && id !in s.books.codes
    ensures id !in Step(cfg, s, e).books.codes
  {
    if e.Register? {
      assert WithClient(s.books, e.id, e.registration, e.secretHash).codes == s.books.codes;
    } else if e.Revoke? {
      assert WithRevocation(s.books, e.bearer).codes == s.books.codes;
    }
  }

  // ---- tokens ------------------------------------------------------------

  /** A token request names this server, or names nothing and neither did, or so did,
      the authorization request. */
  predicate MeantForUs(cfg: Config, asked: string, authorized: string) {
    if asked != "" then asked == cfg.serverURL else authorized == "" || authorized == cfg.serverURL
  }

  /** From the two requests to the token, over every run: a signed token goes back to
      an Authorize event `es[i]` and to what the redeeming token request showed (the
      evidence for its code). It validates exactly while its `exp` second has not begun
      and it is not revoked, provided the requests meant it for this server; and it
      then names the user of the authorization, its client, and the scopes asked for. */
  lemma TokenIsAsRequested(cfg: Config, start: nat, es: seq<Event>, s: State, c: Claims) returns (i: nat, u: State)
    requires ReachedBy(cfg, start, es, s) && c in s.books.issued
    ensures i < |es| && es[i].Authorize? && Run(cfg, Initial(start), es[..i]) == Some(u)
    ensures c.jti in s.books.origin && s.books.origin[c.jti] == es[i].id && es[i].id in s.books.evidence
    ensures c.jti in s.books.access && es[i].authorization.clientID in u.books.clients
    ensures var a, asked := es[i].authorization, s.books.evidence[es[i].id].resource;
            && Addressed(cfg, c.aud, asked, a.resource)
            && (Validate(cfg, s.books, Jwt(c)).Success? <==>
                  && MeantForUs(cfg, asked, a.resource)
                  && s.books.now < c.exp * SECOND && !s.books.access[c.jti].revoked)
            && (Validate(cfg, s.books, Jwt(c)).Success? ==>
                  var info := Validate(cfg, s.books, Jwt(c)).value;
                  && info.userID == es[i].userID && info.clientID == a.clientID && info.audience == cfg.serverURL
                  && info.clientName == u.books.clients[a.clientID].name
                  && Asked(info.scopes, a, u.books.clients[a.clientID]))
  {
    InvInitially(cfg, start);
    ReachedInv(cfg, start, es, s);
    ValidExactlyWhileLive(cfg, start, es, s, c);
    assert IssuedOK(s.books, c) && AccessOK(cfg, s.books, c.jti);
    var code := s.books.origin[c.jti];
    i, u := CodesAreAuthorized(cfg, Initial(start), es, s, code);
    CodeIsAsRequested(u.books.clients, es[i].userID, es[i].authorization, u.books.now);
  }

  /** The same for every refresh token, through all rotations: user, client, scopes and
      audience are those of the authorization and the redeeming request. */
  lemma RefreshTokenIsAsRequested(cfg: Config, start: nat, es: seq<Event>, s: State, r: string)
    returns (i: nat, u: State)
    requires ReachedBy(cfg, start, es, s) && r in s.books.refresh
    ensures i < |es| && es[i].Authorize? && Run(cfg, Initial(start), es[..i]) == Some(u)
    ensures r in s.books.lineage && s.books.lineage[r].code == es[i].id && es[i].id in s.books.evidence
    ensures es[i].authorization.clientID in u.books.clients
    ensures var a, t := es[i].authorization, s.books.refresh[r];
            && t.userID == es[i].userID && t.clientID == a.clientID
            && Asked(t.scopes, a, u.books.clients[a.clientID])
            && Addressed(cfg, t.audience, s.books.evidence[es[i].id].resource, a.resource)
  {
    InvInitially(cfg, start);
    ReachedInv(cfg, start, es, s);
    assert RefreshOK(cfg, s.books, r);
    i, u := CodesAreAuthorized(cfg, Initial(start), es, s, s.books.lineage[r].code);
    CodeIsAsRequested(u.books.clients, es[i].userID, es[i].authorization, u.books.now);
  }

  /** An answer to a code request: the claims are signed, the evidence for the code is
      what this very request shows, and the response states the scopes of the claims. */
  lemma AnswerShowsRequest(cfg: Config, start: nat, es: seq<Event>, s: State, h: nat)
    requires ReachedBy(cfg, start, es, s) && h in s.answers && s.answers[h].Tokens?
    ensures var x := s.answers[h];
            && x.claims in s.books.issued && x.claims.jti in s.books.origin && x.scope == x.claims.scope
            && (!x.refreshing ==>
                  && s.books.origin[x.claims.jti] == x.req.code && x.req.code in s.books.evidence
                  && s.books.evidence[x.req.code].resource == x.req.resource
                  && s.books.evidence[x.req.code].redirectURI == x.req.redirectURI
                  && s.books.evidence[x.req.code].verifier == x.req.codeVerifier)
  {
    ReachedInv(cfg, start, es, s);
    assert AnswerOK(s.books, s.answers[h]);
  }

  /** Why a bearer string is refused: revoked and unexpired is told apart from everything
      else amiss. */
  lemma ValidationRefusals(cfg: Config, start: nat, es: seq<Event>, s: State, c: Claims)
    requires ReachedBy(cfg, start, es, s) && c in s.books.issued
    ensures c.jti in s.books.access
    ensures Validate(cfg, s.books, Jwt(c)) == Failure(TokenRevoked) <==>
              s.books.now < c.exp * SECOND && s.books.access[c.jti].revoked
    ensures Validate(cfg, s.books, Jwt(c)).Failure? && Validate(cfg, s.books, Jwt(c)).error != TokenRevoked ==>
              Validate(cfg, s.books, Jwt(c)).error == TokenInvalid
  {
    ReachedInv(cfg, start, es, s);
    assert IssuedOK(s.books, c);
  }

  lemma OthersAreInvalid(cfg: Config, b: Books, text: string)
    ensures Validate(cfg, b, Opaque(text)) == Failure(TokenInvalid)
  {
  }

  // ---- lifetimes ---------------------------------------------------------

  /** An access token stored now is good for fifteen minutes. */
  lemma AccessLives(cfg: Config, start: nat, es: seq<Event>, s: State, h: nat, id: string, fs: seq<Event>, t: State)
    requires ReachedBy(cfg, start, es, s) && Enabled(s, StoreAccess(h, id))
    requires Run(cfg, Step(cfg, s, StoreAccess(h, id)), fs) == Some(t)
    ensures id in t.books.access && t.books.access[id].expiresAt == s.books.now + 15 * MINUTE
    ensures forall c :: c in t.books.issued && c.jti == id ==> c.exp == (s.books.now + 15 * MINUTE) / SECOND
  {
    var u := Step(cfg, s, StoreAccess(h, id));
    ReachedInv(cfg, start, es, s);
    StepKeepsInv(cfg, s, StoreAccess(h, id));
    RunKeepsInv(cfg, u, fs, t);
    assert AccessGrows(u.books.access[id], t.books.access[id]);
    forall c | c in t.books.issued && c.jti == id ensures c.exp == t.books.access[id].expiresAt / SECOND {
      assert IssuedOK(t.books, c);
    }
  }

  /** A refresh token stored now is valid for thirty days, unless it is revoked or
      replaced before. */
  lemma RefreshLives(cfg: Config, start: nat, es: seq<Event>, s: State, h: nat, id: string, fs: seq<Event>, t: State)
    requires ReachedBy(cfg, start, es, s) && Enabled(s, StoreRefresh(h, id))
    requires Run(cfg, Step(cfg, s, StoreRefresh(h, id)), fs) == Some(t)
    ensures id in t.books.refresh
    ensures IsValid(t.books.refresh[id], t.books.now) <==>
              && t.books.now <= s.books.now + 30 * DAY
              && !t.books.refresh[id].revoked && t.books.refresh[id].rotatedTo == ""
  {
    var u := Step(cfg, s, StoreRefresh(h, id));
    ReachedInv(cfg, start, es, s);
    StepKeepsInv(cfg, s, StoreRefresh(h, id));
    RunKeepsInv(cfg, u, fs, t);
    RefreshStoredNow(cfg, s, h, id);
    GrownRefresh(u.books, t.books, id);
  }

  /** It starts out valid. */
  lemma RefreshStoredNow(cfg: Config, s: State, h: nat, id: string)
    requires Enabled(s, StoreRefresh(h, id))
    ensures var b := Step(cfg, s, StoreRefresh(h, id)).books;
            && id in b.refresh && b.refresh[id].expiresAt == s.books.now + 30 * DAY
            && b.now == s.books.now && IsValid(b.refresh[id], b.now)
  {
  }

  lemma GrownRefresh(a: Books, b: Books, id: string)
    requires Extends(a, b) && id in a.refresh
    ensures id in b.refresh && b.refresh[id].expiresAt == a.refresh[id].expiresAt
  {
  }

  // ---- revocation --------------------------------------------------------

  /** Revoking an unexpired access token revokes that row and nothing else. */
  lemma RevocationOfJwt(x: Books, c: Claims)
    ensures var y := WithRevocation(x, Jwt(c));
            && y == x.(access := y.access) && y.access.Keys == x.access.Keys
            && (forall id :: id in x.access ==>
                  y.access[id] == if c.jti == id && x.now < c.exp * SECOND
                                  then x.access[id].(revoked := true) else x.access[id])
  {
    if x.now < c.exp * SECOND && c.jti in x.access {
      assert WithRevocation(x, Jwt(c)) == x.(access := x.access[c.jti := x.access[c.jti].(revoked := true)]);
    } else {
      assert WithRevocation(x, Jwt(c)) == x;
    }
  }

  /** Revoking any other text revokes the refresh token of that id, if there is one,
      and nothing else. */
  lemma RevocationOfText(x: Books, text: string)
    ensures var y := WithRevocation(x, Opaque(text));
            && y == x.(refresh := y.refresh) && y.refresh.Keys == x.refresh.Keys
            && (forall r :: r in x.refresh ==>
                  y.refresh[r] == if text == r then x.refresh[r].(revoked := true) else x.refresh[r])
  {
    if text in x.refresh {
      assert WithRevocation(x, Opaque(text)) == x.(refresh := x.refresh[text := x.refresh[text].(revoked := true)]);
    } else {
      assert WithRevocation(x, Opaque(text)) == x;
    }
  }

  // ---- time and failures -------------------------------------------------

  /** The clock moves on its own; a handler that stops is answered with a store failure
      and leaves the stores as they are. */
  lemma TimeAndFailures(cfg: Config, s: State, to: nat, h: nat)
    ensures Enabled(s, Tick(to)) ==> Step(cfg, s, Tick(to)) == s.(books := s.books.(now := to))
    ensures Enabled(s, Crash(h)) ==>
              var t := Step(cfg, s, Crash(h));
              t.books == s.books && h !in t.flights && h in t.answers && t.answers[h] == Refused(StoreFailed)
  {
  }
}
