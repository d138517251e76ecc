/** The authorization server's handlers as they run against their stores. Every
    handler's effect is a run of the state machine, so what holds along all runs of
    the machine holds of the stores. */
module OAuthService {
  import opened OAuthDomain
  import opened OAuthGrants
  import OAuthPromises
  import opened OAuthRotation
  import opened OAuthServer
  import opened OAuthTurns
  import Text
  import opened Wrappers

  /** The answer to an authorization-code request, from the books before it. */
  function CodeOutcome(cfg: Config, b: Books, req: TokenRequest, accessID: string, refreshID: string): Answer {
    if !Redeemable(b, req.code) then Refused(InvalidGrant)
    else
      var f := CodeFlight(req, b.codes[req.code].(used := true), Fetched);
      Outcome(cfg, b, f, accessID, refreshID)
  }

  /** The answer to a refresh request, from the books before it. */
  function RefreshOutcome(cfg: Config, b: Books, req: TokenRequest, accessID: string, refreshID: string): Answer {
    if req.refreshToken !in b.refresh then Refused(InvalidGrant)
    else Outcome(cfg, b, RefreshFlight(req, b.refresh[req.refreshToken], Fetched), accessID, refreshID)
  }

  function Outcome(cfg: Config, b: Books, f: Flight, accessID: string, refreshID: string): Answer {
    match FlightCheck(cfg, b.now, f)
    case Some(e) => Refused(e)
    case None =>
      match ClientCheck(cfg, b.clients, f.req)
      case Some(e) => Refused(e)
      case None => Grant(f, NewClaims(cfg, b.now, f, accessID), refreshID)
  }

  /** A code just granted is exchanged for tokens, at any time up to ten minutes later,
      exactly when the request shows its client, its redirect URI and a verifier of
      its challenge, and the client passes; the tokens are the granting user's, for
      the scopes asked for and whom the two requests meant them for, and live fifteen
      minutes. */
  lemma ExchangeSucceedsIff(cfg: Config, b: Books, id: string, userID: string, a: AuthorizeRequest, later: nat,
                            req: TokenRequest, accessID: string, refreshID: string)
    requires id !in b.codes && Authorized(b.clients, userID, a, b.now).Success? && later >= b.now && req.code == id
    ensures var t := WithCode(b, id, userID, a).(now := later);
            var answer := CodeOutcome(cfg, t, req, accessID, refreshID);
            && (answer.Tokens? <==>
                  && later <= b.now + 10 * 60 * SECOND
                  && req.clientID == a.clientID && req.redirectURI == a.redirectURI
                  && req.codeVerifier != "" && cfg.s256(req.codeVerifier) == a.codeChallenge
                  && ClientCheck(cfg, b.clients, req) == None)
            && (answer.Tokens? ==>
                  && answer.claims.sub == userID && answer.claims.clientID == a.clientID
                  && answer.claims.jti == accessID && answer.refreshID == refreshID
                  && answer.scope == answer.claims.scope
                  && (Text.Fields(a.scope) != [] ==> Text.Fields(answer.scope) == Text.Fields(a.scope))
                  && (Text.Fields(a.scope) == [] ==>
                        answer.scope == Text.Join(b.clients[a.clientID].scopes, ' '))
                  && Addressed(cfg, answer.claims.aud, req.resource, a.resource)
                  && answer.claims.iat == later / SECOND && answer.claims.exp == answer.claims.iat + 15 * 60)
  {
    OAuthPromises.CodeIsAsRequested(b.clients, userID, a, b.now);
    Text.WordsAreWords(a.scope, Text.IsSpace);
    ScopesRoundTrip(Text.Fields(a.scope));
    var code := Authorized(b.clients, userID, a, b.now).value;
    var t := b.(codes := b.codes[id := code], now := later);
    assert WithCode(b, id, userID, a).(now := later) == t && Redeemable(t, id);
    var f := CodeFlight(req, code.(used := true), Fetched);
    assert CodeOutcome(cfg, t, req, accessID, refreshID) == Outcome(cfg, t, f, accessID, refreshID);
    assert NewClaims(cfg, later, f, accessID).scope == Text.Join(code.scopes, ' ');
  }

  /** A refresh request is answered with tokens exactly when its token is stored,
      neither expired nor revoked nor replaced, belongs to the client named, and the
      client passes; the tokens carry the row's user, scopes and audience on. */
  lemma RefreshSucceedsIff(cfg: Config, b: Books, req: TokenRequest, accessID: string, refreshID: string)
    ensures var answer, r := RefreshOutcome(cfg, b, req, accessID, refreshID), req.refreshToken;
            && (answer.Tokens? <==>
                  && r in b.refresh && b.now <= b.refresh[r].expiresAt
                  && !b.refresh[r].revoked && b.refresh[r].rotatedTo == ""
                  && req.clientID == b.refresh[r].clientID && ClientCheck(cfg, b.clients, req) == None)
            && (answer.Tokens? ==>
                  && answer.claims.sub == b.refresh[r].userID && answer.claims.clientID == b.refresh[r].clientID
                  && answer.claims.aud == b.refresh[r].audience && answer.claims.jti == accessID
                  && answer.scope == answer.claims.scope == Text.Join(b.refresh[r].scopes, ' ')
                  && answer.claims.iat == b.now / SECOND && answer.claims.exp == answer.claims.iat + 15 * 60
                  && answer.refreshID == refreshID)
  {
  }

  /** What is amiss with a code request decides the error, in this order: the code, its
      age, its client, its redirect URI, its challenge, and the client's credentials. */
  lemma ExchangeRefusals(cfg: Config, b: Books, req: TokenRequest, accessID: string, refreshID: string)
    ensures var x := CodeOutcome(cfg, b, req, accessID, refreshID);
            var stored := req.code in b.codes && !b.codes[req.code].used;
            && (x == Refused(InvalidGrant) <==> !stored)
            && (stored ==>
                  var c := b.codes[req.code];
                  var uri := c.redirectURI == req.redirectURI;
                  var proof := req.codeVerifier != "" && c.codeChallenge != ""
                               && cfg.s256(req.codeVerifier) == c.codeChallenge;
                  var passes := ClientCheck(cfg, b.clients, req) == None;
                  && (x == Refused(ExpiredCode) <==> b.now > c.expiresAt)
                  && (x == Refused(InvalidRedirectURI) <==>
                        b.now <= c.expiresAt && c.clientID == req.clientID && !uri)
                  && (x == Refused(InvalidCodeChallenge) <==>
                        b.now <= c.expiresAt && c.clientID == req.clientID && uri && !proof)
                  && (x == Refused(InvalidClient) <==>
                        b.now <= c.expiresAt && (c.clientID != req.clientID || (uri && proof && !passes)))
                  && (x.Tokens? <==> b.now <= c.expiresAt && c.clientID == req.clientID && uri && proof && passes))
  {
  }

  /** A refresh token that cannot serve is an invalid grant, a client that may not use
      it an invalid client. */
  lemma RefreshRefusals(cfg: Config, b: Books, req: TokenRequest, accessID: string, refreshID: string)
    ensures var x, r := RefreshOutcome(cfg, b, req, accessID, refreshID), req.refreshToken;
            var good := r in b.refresh && b.now <= b.refresh[r].expiresAt && !b.refresh[r].revoked
                        && b.refresh[r].rotatedTo == "";
            && (x == Refused(InvalidGrant) <==> !good)
            && (x == Refused(InvalidClient) <==>
                  good && (b.refresh[r].clientID != req.clientID || ClientCheck(cfg, b.clients, req).Some?))
            && (x.Tokens? || x == Refused(InvalidGrant) || x == Refused(InvalidClient))
  {
  }

  /** A client passes the check exactly when it is registered and public, or shows a
      secret matching the hash it is registered with. */
  lemma ClientPassesIff(cfg: Config, clients: map<string, Client>, req: TokenRequest)
    ensures ClientCheck(cfg, clients, req) == None <==>
              && req.clientID in clients
              && (clients[req.clientID].authMethod == "none"
                  || (req.clientSecret != "" && cfg.secretMatches(clients[req.clientID].secretHash, req.clientSecret)))
  {
  }

  class Server {
    const cfg: Config
    const start: nat
    var now: nat
    var clients: map<string, Client>
    var codes: map<string, Code>
    var access: map<string, Access>
    var refresh: map<string, Refresh>
    ghost var machine: State
    ghost var calls: seq<seq<Event>>

    /** The stores are the books of the machine. */
    ghost predicate Valid()
      reads this
    {
      && machine.books.now == now && machine.books.clients == clients && machine.books.codes == codes
      && machine.books.access == access && machine.books.refresh == refresh
    }

    /** All calls so far came one after another. */
    ghost predicate Serving()
      reads this
    {
      Valid() && Served(cfg, start, calls, machine)
    }

    constructor (cfg: Config, now: nat)
      ensures Valid() && Serving() && machine == Initial(now) && this.cfg == cfg
    {
      this.cfg, this.start, this.now, calls := cfg, now, now, [];
      clients, codes, access, refresh := map[], map[], map[], map[];
      machine := Initial(now);
    }

    /** The machine takes the step that the stores have just taken. */
    ghost method Follow(s0: State, es: seq<Event>, e: Event) returns (es': seq<Event>)
      requires Run(cfg, s0, es) == Some(machine) && Enabled(machine, e)
      modifies this`machine
      ensures machine == Step(cfg, old(machine), e) && Run(cfg, s0, es') == Some(machine) && es' == es + [e]
    {
      RunSnoc(cfg, s0, es, e);
      es' := es + [e];
      machine := Step(cfg, machine, e);
    }

    /** A finished call joins the calls so far. */
    ghost method Note(m: State, es: seq<Event>)
      requires Run(cfg, m, es) == Some(machine) && OneCall(es) && machine.flights == m.flights
      modifies this`calls
      ensures Served(cfg, start, old(calls), m) ==> Served(cfg, start, calls, machine)
    {
      if Served(cfg, start, calls, m) {
        ServedSnoc(cfg, start, calls, m, es, machine);
      }
      calls := calls + [es];
    }

    /** The machine follows a call that is one event. */
    ghost method NoteEvent(e: Event)
      requires Enabled(machine, e) && !e.Crash? && Step(cfg, machine, e).flights == machine.flights
      modifies this`machine, this`calls
      ensures machine == Step(cfg, old(machine), e)
      ensures Served(cfg, start, old(calls), old(machine)) ==> Served(cfg, start, calls, machine)
    {
      var m := machine;
      assert Run(cfg, m, []) == Some(machine);
      var es := Follow(m, [], e);
      Note(m, es);
    }

    /** Any amount of time passes. */
    method Wait()
      requires Valid()
      modifies this`now, this`machine, this`calls
      ensures Valid() && now >= old(now) && machine == Step(cfg, old(machine), Tick(now))
      ensures old(Serving()) ==> Serving()
    {
      var later :| later >= now;
      now := later;
      NoteEvent(Tick(later));
    }

    // ---- registration and authorization ----------------------------------

    /** The loop over the requested scopes. */
    method KnownScopes(scopes: seq<string>) returns (known: bool)
      ensures known <==> forall x :: x in scopes ==> x in MCP_SCOPES
    {
      for i := 0 to |scopes|
        invariant forall x :: x in scopes[..i] ==> x in MCP_SCOPES
      {
        if scopes[i] !in MCP_SCOPES {
          return false;
        }
      }
      return true;
    }

    method RegisterClient(id: string, r: RegistrationRequest, secret: string, secretHash: string)
      returns (answer: Result<Registration>)
      requires Valid() && id !in clients
      modifies this`clients, this`machine, this`calls
      ensures Valid() && machine == Step(cfg, old(machine), Register(id, r, secretHash))
      ensures old(Serving()) ==> Serving()
      ensures match Registered(r, secretHash)
              case Failure(e) => answer == Failure(e) && clients == old(clients)
              case Success(c) =>
                && clients == old(clients)[id := c]
                && answer == Success(Registration(id, if IsPublic(c) then "" else secret, c, now / SECOND))
    {
      var client := NewClient(r, secretHash);
      match client {
        case Failure(e) =>
          answer := Failure(e);
        case Success(c) =>
          clients := clients[id := c];
          var plainSecret := if c.authMethod == "client_secret_post" then secret else "";
          answer := Success(Registration(id, plainSecret, c, now / SECOND));
      }
      NoteEvent(Register(id, r, secretHash));
    }

    /** The defaults and checks of RegisterClient. */
    method NewClient(r: RegistrationRequest, secretHash: string) returns (answer: Result<Client>)
      ensures answer == Registered(r, secretHash)
    {
      answer := Failure(InvalidInput);
      if r.name != "" && |r.redirectURIs| != 0 {
        var grantTypes := if |r.grantTypes| == 0 then ["authorization_code"] else r.grantTypes;
        var responseTypes := if |r.responseTypes| == 0 then ["code"] else r.responseTypes;
        var scopes := if |r.scopes| == 0 then MCP_SCOPES else r.scopes;
        var known := KnownScopes(scopes);
        var applicationType := if r.applicationType == "" then "native" else r.applicationType;
        var authMethod := if r.authMethod == "" then "none" else r.authMethod;
        if !known {
          answer := Failure(InvalidScope);
        } else if (applicationType == "native" || applicationType == "web")
                  && (authMethod == "none" || authMethod == "client_secret_post") {
          var hash := if authMethod == "client_secret_post" then secretHash else "";
          answer := Success(Client(hash, r.name, r.redirectURIs, grantTypes, responseTypes, scopes, applicationType,
                                   authMethod, true));
        }
      }
    }

    method Authorize(id: string, userID: string, r: AuthorizeRequest) returns (answer: Result<string>)
      requires Valid() && id !in codes
      modifies this`codes, this`machine, this`calls
      ensures Valid() && machine == Step(cfg, old(machine), Event.Authorize(id, userID, r))
      ensures old(Serving()) ==> Serving()
      ensures var granted := Authorized(clients, userID, r, now);
              && answer == (if granted.Success? then Success(id) else Failure(granted.error))
              && codes == if granted.Success? then old(codes)[id := granted.value] else old(codes)
    {
      answer := Failure(InvalidClient);
      if r.responseType != "code" {
        answer := Failure(UnsupportedResponseType);
      } else if r.codeChallengeMethod != "S256" || r.codeChallenge == "" {
        answer := Failure(InvalidCodeChallenge);
      } else if r.clientID in clients && clients[r.clientID].active {
        answer := AuthorizeFor(id, userID, r, clients[r.clientID]);
      }
      NoteEvent(Event.Authorize(id, userID, r));
    }

    /** The part of Authorize after the client is found. */
    method AuthorizeFor(id: string, userID: string, r: AuthorizeRequest, client: Client)
      returns (answer: Result<string>)
      requires r.responseType == "code" && r.codeChallengeMethod == "S256" && r.codeChallenge != ""
      requires r.clientID in clients && clients[r.clientID] == client && client.active
      modifies this`codes
      ensures var granted := Authorized(clients, userID, r, now);
              && answer == (if granted.Success? then Success(id) else Failure(granted.error))
              && codes == if granted.Success? then old(codes)[id := granted.value] else old(codes)
    {
      if r.redirectURI !in client.redirectURIs {
        return Failure(InvalidRedirectURI);
      }
      if "authorization_code" !in client.grantTypes {
        return Failure(UnsupportedGrantType);
      }
      var requested := ParseScopes(r);
      if |requested| == 0 {
        requested := client.scopes;
      }
      var invalid := ValidateScopes(client, requested);
      if |invalid| > 0 {
        return Failure(InvalidScope);
      }
      codes := codes[id := Code(r.clientID, userID, r.redirectURI, requested, r.codeChallenge, r.resource,
                                now, now + CODE_TTL, false)];
      return Success(id);
    }

    // ---- store calls -----------------------------------------------------

    method GetAndMarkUsed(ghost h: nat, req: TokenRequest) returns (row: Option<Code>)
      requires Valid() && Enabled(machine, Redeem(h, req))
      modifies this`codes, this`machine
      ensures Valid() && machine == Step(cfg, old(machine), Redeem(h, req))
      ensures row.Some? <==> Redeemable(old(machine.books), req.code)
      ensures row.Some? ==> h in machine.flights && machine.flights[h] == CodeFlight(req, row.value, Fetched)
      ensures row.Some? ==> row.value == old(codes)[req.code].(used := true)
    {
      row := None;
      if req.code in codes && !codes[req.code].used {
        codes := codes[req.code := codes[req.code].(used := true)];
        row := Some(codes[req.code]);
      }
      machine := Step(cfg, machine, Redeem(h, req));
    }

    method SaveAccessToken(ghost h: nat, id: string, row: Access)
      requires Valid() && Enabled(machine, StoreAccess(h, id)) && row == NewAccess(cfg, now, machine.flights[h])
      modifies this`access, this`machine
      ensures Valid() && machine == Step(cfg, old(machine), StoreAccess(h, id))
    {
      access := access[id := row];
      machine := Step(cfg, machine, StoreAccess(h, id));
    }

    method SaveRefreshToken(ghost h: nat, id: string, row: Refresh)
      requires Valid() && Enabled(machine, StoreRefresh(h, id))
      requires row == NewRefresh(cfg, now, machine.flights[h], machine.flights[h].stage.claims.jti)
      modifies this`refresh, this`machine
      ensures Valid() && machine == Step(cfg, old(machine), StoreRefresh(h, id))
    {
      refresh := refresh[id := row];
      machine := Step(cfg, machine, StoreRefresh(h, id));
    }

    method RotateRefreshToken(ghost h: nat, prev: string, next: string)
      requires Valid() && Enabled(machine, Rotate(h))
      requires prev == machine.flights[h].req.refreshToken && next == machine.flights[h].stage.refreshID
      modifies this`refresh, this`machine
      ensures Valid() && machine == Step(cfg, old(machine), Rotate(h))
      ensures var f := old(machine.flights[h]);
              && machine.flights == old(machine.flights) - {h}
              && machine.answers == old(machine.answers)[h := Grant(f, f.stage.claims, f.stage.refreshID)]
    {
      if prev in refresh {
        refresh := refresh[prev := refresh[prev].(rotatedTo := next, revoked := true)];
      }
      machine := Step(cfg, machine, Rotate(h));
    }

    // ---- the checks between store calls ----------------------------------

    method CheckCode(req: TokenRequest, row: Code) returns (failure: Option<Error>)
      ensures failure == CodeCheck(cfg, req, row, now)
    {
      if now > row.expiresAt {
        return Some(ExpiredCode);
      }
      if row.clientID != req.clientID {
        return Some(InvalidClient);
      }
      if row.redirectURI != req.redirectURI {
        return Some(InvalidRedirectURI);
      }
      if !ValidatePKCE(cfg, req.codeVerifier, row.codeChallenge) {
        return Some(InvalidCodeChallenge);
      }
      return None;
    }

    method CheckRefresh(req: TokenRequest, row: Refresh) returns (failure: Option<Error>)
      ensures failure == RefreshCheck(req, row, now)
    {
      if now > row.expiresAt || row.revoked || row.rotatedTo != "" {
        return Some(InvalidGrant);
      }
      if row.clientID != req.clientID {
        return Some(InvalidClient);
      }
      return None;
    }

    method CheckClient(req: TokenRequest) returns (failure: Option<Error>)
      ensures failure == ClientCheck(cfg, clients, req)
    {
      if req.clientID !in clients {
        return Some(InvalidClient);
      }
      var client := clients[req.clientID];
      if !IsPublic(client) {
        if req.clientSecret == "" || !cfg.secretMatches(client.secretHash, req.clientSecret) {
          return Some(InvalidClient);
        }
      }
      return None;
    }

    method PickAudience(req: TokenRequest, row: Code) returns (audience: string)
      ensures audience == Audience(cfg, req, row)
    {
      audience := req.resource;
      if audience == "" {
        audience := row.resource;
      }
      if audience == "" {
        audience := cfg.serverURL;
      }
    }

    // ---- the grant handlers ----------------------------------------------

    /** Everything after the row is fetched, up to the two stored tokens. */
    method IssueTokens(ghost h: nat, req: TokenRequest, userID: string, scopes: seq<string>, audience: string,
                       accessID: string, refreshID: string, ghost s0: State, ghost es0: seq<Event>)
      returns (failure: Option<Error>, claims: Claims, ghost es: seq<Event>)
      requires Valid() && Run(cfg, s0, es0) == Some(machine) && es0 != [] && OneCall(es0)
      requires h in machine.flights && machine.flights[h].stage == Verified && h !in machine.answers
      requires machine.flights[h].req == req && UserOf(machine.flights[h]) == userID
      requires ScopesOf(machine.flights[h]) == scopes && AudienceOf(cfg, machine.flights[h]) == audience
      requires accessID !in access && refreshID !in refresh && refreshID != ""
      modifies this`access, this`refresh, this`machine
      ensures Valid() && Run(cfg, s0, es) == Some(machine) && es != [] && OneCall(es)
      ensures failure == ClientCheck(cfg, clients, req)
      ensures var f := old(machine.flights[h]);
              && claims == NewClaims(cfg, now, f, accessID)
              && (failure.Some? ==> machine == Finish(old(machine), h, Refused(failure.value)))
              && (failure == None && f.CodeFlight? ==>
                    && machine.flights == old(machine.flights) - {h}
                    && machine.answers == old(machine.answers)[h := Grant(f, claims, refreshID)])
              && (failure == None && f.RefreshFlight? ==>
                    && machine.flights == old(machine.flights)[h := Staged(f, Rotating(claims, refreshID))]
                    && machine.answers == old(machine.answers))
    {
      var row := Access(req.clientID, userID, scopes, audience, now + ACCESS_TTL, false);
      claims := ClaimsOf(accessID, row, now);
      failure := CheckClient(req);
      es := Follow(s0, es0, LoadClient(h));
      if failure.Some? {
        return;
      }
      es := StoreTokens(h, accessID, row, refreshID, s0, es);
    }

    /** The access token, then the refresh token with the same data. */
    method StoreTokens(ghost h: nat, accessID: string, row: Access, refreshID: string, ghost s0: State,
                       ghost es0: seq<Event>)
      returns (ghost es: seq<Event>)
      requires Valid() && Run(cfg, s0, es0) == Some(machine) && es0 != [] && OneCall(es0)
      requires h in machine.flights && machine.flights[h].stage == Cleared
      requires row == NewAccess(cfg, now, machine.flights[h])
      requires accessID !in access && refreshID !in refresh && refreshID != ""
      modifies this`access, this`refresh, this`machine
      ensures Valid() && Run(cfg, s0, es) == Some(machine) && es != [] && OneCall(es)
      ensures var f, claims := old(machine.flights[h]), ClaimsOf(accessID, row, now);
              && (f.CodeFlight? ==>
                    && machine.flights == old(machine.flights) - {h}
                    && machine.answers == old(machine.answers)[h := Grant(f, claims, refreshID)])
              && (f.RefreshFlight? ==>
                    && machine.flights == old(machine.flights)[h := Staged(f, Rotating(claims, refreshID))]
                    && machine.answers == old(machine.answers))
    {
      RunSnoc(cfg, s0, es0, StoreAccess(h, accessID));
      es := es0 + [StoreAccess(h, accessID)];
      SaveAccessToken(h, accessID, row);
      RunSnoc(cfg, s0, es, StoreRefresh(h, refreshID));
      es := es + [StoreRefresh(h, refreshID)];
      var expiresAt := now + REFRESH_TTL;
      var next := Refresh(accessID, row.clientID, row.userID, row.scopes, row.audience, expiresAt, false, "");
      SaveRefreshToken(h, refreshID, next);
    }

    method HandleAuthorizationCodeGrant(ghost h: nat, req: TokenRequest, accessID: string, refreshID: string)
      returns (answer: Answer, ghost es: seq<Event>)
      requires Valid() && Enabled(machine, Redeem(h, req))
      requires accessID !in access && refreshID !in refresh && refreshID != ""
      modifies this`codes, this`access, this`refresh, this`machine
      ensures Valid() && Run(cfg, old(machine), es) == Some(machine) && OneCall(es)
      ensures answer == CodeOutcome(cfg, old(machine.books), req, accessID, refreshID)
      ensures machine.flights == old(machine.flights) && machine.answers == old(machine.answers)[h := answer]
    {
      ghost var s0 := machine;
      RunSnoc(cfg, s0, [], Redeem(h, req));
      es := [Redeem(h, req)];
      assert [] + es == es;
      var row := GetAndMarkUsed(h, req);
      if row == None {
        return Refused(InvalidGrant), es;
      }
      answer, es := CodeRow(h, req, row.value, accessID, refreshID, s0, es);
    }

    /** The code handler once it has its row. */
    method CodeRow(ghost h: nat, req: TokenRequest, row: Code, accessID: string, refreshID: string,
                   ghost s0: State, ghost es0: seq<Event>)
      returns (answer: Answer, ghost es: seq<Event>)
      requires Valid() && Run(cfg, s0, es0) == Some(machine) && es0 != [] && OneCall(es0) && h !in machine.answers
      requires h in machine.flights && machine.flights[h] == CodeFlight(req, row, Fetched)
      requires accessID !in access && refreshID !in refresh && refreshID != ""
      modifies this`access, this`refresh, this`machine
      ensures Valid() && Run(cfg, s0, es) == Some(machine) && es != [] && OneCall(es)
      ensures answer == Outcome(cfg, old(machine.books), old(machine.flights[h]), accessID, refreshID)
      ensures machine.flights == old(machine.flights) - {h} && machine.answers == old(machine.answers)[h := answer]
    {
      var failure := CheckCode(req, row);
      es := Follow(s0, es0, Check(h));
      if failure.Some? {
        return Refused(failure.value), es;
      }
      var audience := PickAudience(req, row);
      var claims;
      failure, claims, es := IssueTokens(h, req, row.userID, row.scopes, audience, accessID, refreshID, s0, es);
      if failure.Some? {
        return Refused(failure.value), es;
      }
      answer := Tokens(req, false, claims, refreshID, Text.Join(row.scopes, ' '));
    }

    method HandleRefreshTokenGrant(ghost h: nat, req: TokenRequest, accessID: string, refreshID: string)
      returns (answer: Answer, ghost es: seq<Event>)
      requires Valid() && Enabled(machine, FetchRefresh(h, req))
      requires accessID !in access && refreshID !in refresh && refreshID != ""
      modifies this`access, this`refresh, this`machine
      ensures Valid() && Run(cfg, old(machine), es) == Some(machine) && OneCall(es)
      ensures answer == RefreshOutcome(cfg, old(machine.books), req, accessID, refreshID)
      ensures machine.flights == old(machine.flights) && machine.answers == old(machine.answers)[h := answer]
    {
      ghost var s0 := machine;
      assert Run(cfg, s0, []) == Some(machine);
      es := Follow(s0, [], FetchRefresh(h, req));
      if req.refreshToken !in refresh {
        return Refused(InvalidGrant), es;
      }
      answer, es := RefreshRow(h, req, refresh[req.refreshToken], accessID, refreshID, s0, es);
    }

    /** The refresh handler once it has its row. */
    method RefreshRow(ghost h: nat, req: TokenRequest, row: Refresh, accessID: string, refreshID: string,
                      ghost s0: State, ghost es0: seq<Event>)
      returns (answer: Answer, ghost es: seq<Event>)
      requires Valid() && Run(cfg, s0, es0) == Some(machine) && es0 != [] && OneCall(es0) && h !in machine.answers
      requires h in machine.flights && machine.flights[h] == RefreshFlight(req, row, Fetched)
      requires accessID !in access && refreshID !in refresh && refreshID != ""
      modifies this`access, this`refresh, this`machine
      ensures Valid() && Run(cfg, s0, es) == Some(machine) && es != [] && OneCall(es)
      ensures answer == Outcome(cfg, old(machine.books), old(machine.flights[h]), accessID, refreshID)
      ensures machine.flights == old(machine.flights) - {h} && machine.answers == old(machine.answers)[h := answer]
    {
      var failure;
      failure, es := VerifyRefresh(h, req, row, s0, es0);
      if failure.Some? {
        return Refused(failure.value), es;
      }
      var claims;
      failure, claims, es := IssueTokens(h, req, row.userID, row.scopes, row.audience, accessID, refreshID, s0, es);
      if failure.Some? {
        return Refused(failure.value), es;
      }
      RunSnoc(cfg, s0, es, Rotate(h));
      es := es + [Rotate(h)];
      RotateRefreshToken(h, req.refreshToken, refreshID);
      answer := Tokens(req, true, claims, refreshID, Text.Join(row.scopes, ' '));
    }

    /** The checks on the row. */
    method VerifyRefresh(ghost h: nat, req: TokenRequest, row: Refresh, ghost s0: State, ghost es0: seq<Event>)
      returns (failure: Option<Error>, ghost es: seq<Event>)
      requires Valid() && Run(cfg, s0, es0) == Some(machine) && es0 != [] && OneCall(es0) && h !in machine.answers
      requires h in machine.flights && machine.flights[h] == RefreshFlight(req, row, Fetched)
      modifies this`machine
      ensures Valid() && Run(cfg, s0, es) == Some(machine) && es != [] && OneCall(es)
      ensures failure == RefreshCheck(req, row, now)
      ensures machine ==
              if failure.Some? then Finish(old(machine), h, Refused(failure.value)) else At(old(machine), h, Verified)
    {
      failure := CheckRefresh(req, row);
      es := Follow(s0, es0, Check(h));
    }

    /** Token: the grant types. */
    method Token(ghost h: nat, grantType: string, req: TokenRequest, accessID: string, refreshID: string)
      returns (answer: Answer, ghost es: seq<Event>)
      requires Valid() && h !in machine.flights && h !in machine.answers
      requires accessID !in access && refreshID !in refresh && refreshID != ""
      modifies this`codes, this`access, this`refresh, this`machine, this`calls
      ensures Valid() && Run(cfg, old(machine), es) == Some(machine)
      ensures old(Serving()) ==> Serving()
      ensures answer ==
              if grantType == "authorization_code" then
                CodeOutcome(cfg, old(machine.books), req, accessID, refreshID)
              else if grantType == "refresh_token" then
                RefreshOutcome(cfg, old(machine.books), req, accessID, refreshID)
              else Refused(UnsupportedGrantType)
    {
      ghost var m := machine;
      if grantType == "authorization_code" {
        answer, es := HandleAuthorizationCodeGrant(h, req, accessID, refreshID);
      } else if grantType == "refresh_token" {
        answer, es := HandleRefreshTokenGrant(h, req, accessID, refreshID);
      } else {
        es := [];
        answer := Refused(UnsupportedGrantType);
      }
      Note(m, es);
    }

    // ---- revocation and validation ---------------------------------------

    method Revoke(bearer: Bearer)
      requires Valid() && Enabled(machine, Event.Revoke(bearer))
      modifies this`access, this`refresh, this`machine, this`calls
      ensures Valid() && machine == Step(cfg, old(machine), Event.Revoke(bearer))
      ensures old(Serving()) ==> Serving()
    {
      var token := Parse(bearer, now);
      if token.Some? {
        if token.value.jti in access {
          access := access[token.value.jti := access[token.value.jti].(revoked := true)];
        }
      } else if bearer.Opaque? && bearer.text in refresh {
        refresh := refresh[bearer.text := refresh[bearer.text].(revoked := true)];
      }
      NoteEvent(Event.Revoke(bearer));
    }

    method ValidateAccessToken(bearer: Bearer) returns (answer: Result<TokenInfo>)
      requires Valid()
      ensures answer == Validate(cfg, machine.books, bearer)
    {
      var token := Parse(bearer, now);
      if token == None || token.value.jti !in access {
        return Failure(TokenInvalid);
      }
      var claims, stored := token.value, access[token.value.jti];
      if stored.revoked {
        return Failure(TokenRevoked);
      }
      if now > stored.expiresAt {
        return Failure(TokenExpired);
      }
      var scopes := Text.Fields(claims.scope);
      if claims.aud != cfg.serverURL {
        return Failure(TokenInvalid);
      }
      var clientName := "";
      if claims.clientID in clients {
        clientName := clients[claims.clientID].name;
      }
      return Success(TokenInfo(claims.sub, claims.clientID, clientName, scopes, claims.aud));
    }
  }

  /** A server that serves one call after another keeps every chain of refresh tokens a
      line, with at most one valid token. */
  lemma ServingGivesLines(server: Server, a: string, b: string)
    requires server.Serving()
    ensures Linear(server.machine)
    ensures a in server.refresh && b in server.refresh && a != b
            && IsValid(server.refresh[a], server.now) && IsValid(server.refresh[b], server.now) ==>
              var lineage := server.machine.books.lineage;
              a in lineage && b in lineage && lineage[a].code != lineage[b].code
  {
    SerialCallsGiveLines(server.cfg, server.start, server.calls, server.machine, a, b);
  }
}
