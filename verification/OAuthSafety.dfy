/** The guarantees of the authorization server over whole runs, in every
    interleaving of its handlers. */
module OAuthSafety {
  import opened OAuthDomain
  import opened OAuthServer
  import opened OAuthGrants
  import opened Wrappers

  lemma StepKeepsAnswers(cfg: Config, s: State, e: Event)
    requires HandlersOK(cfg, s) && Enabled(s, e)
    ensures Keeps(s.answers, Step(cfg, s, e).answers)
  {
  }

  /** Along every run the invariant stays, answers are final, and `used`, `revoked`
      and "has been rotated" only move forward. */
  lemma {:induction false} RunKeepsInv(cfg: Config, s: State, es: seq<Event>, t: State)
    requires Inv(cfg, s) && Run(cfg, s, es) == Some(t)
    ensures Inv(cfg, t) && Extends(s.books, t.books) && Keeps(s.answers, t.answers)
    decreases |es|
  {
    if es != [] {
      var u := Step(cfg, s, es[0]);
      StepKeepsInv(cfg, s, es[0]);
      StepKeepsAnswers(cfg, s, es[0]);
      RunKeepsInv(cfg, u, es[1..], t);
      ExtendsTrans(s.books, u.books, t.books);
    }
  }

  lemma ReachedInv(cfg: Config, start: nat, es: seq<Event>, s: State)
    requires ReachedBy(cfg, start, es, s)
    ensures Inv(cfg, s)
  {
    InvInitially(cfg, start);
    RunKeepsInv(cfg, Initial(start), es, s);
  }

  // ---- clients stay as registered ----------------------------------------

  lemma RegisterStores(cfg: Config, s: State, id: string, r: RegistrationRequest, secretHash: string)
    requires Enabled(s, Register(id, r, secretHash)) && Registered(r, secretHash).Success?
    ensures Step(cfg, s, Register(id, r, secretHash)).books.clients ==
            s.books.clients[id := Registered(r, secretHash).value]
  {
  }

  lemma ClientStays(cfg: Config, s: State, es: seq<Event>, t: State, id: string)
    requires Inv(cfg, s) && Run(cfg, s, es) == Some(t) && id in s.books.clients
    ensures id in t.books.clients && t.books.clients[id] == s.books.clients[id]
  {
    RunKeepsInv(cfg, s, es, t);
  }

  lemma RegisteredClientCheck(cfg: Config, clients: map<string, Client>, r: RegistrationRequest, secretHash: string,
                              req: TokenRequest)
    requires Registered(r, secretHash).Success? && req.clientID in clients
    requires clients[req.clientID] == Registered(r, secretHash).value
    ensures ClientCheck(cfg, clients, req) == None <==>
              || r.authMethod == "" || r.authMethod == "none"
              || (req.clientSecret != "" && cfg.secretMatches(secretHash, req.clientSecret))
  {
  }

  /** From its registration on, however the run goes on, a client passes the check of
      the token endpoint exactly when it is public or shows a secret that matches the
      hash stored for it. */
  lemma RegisteredClientPasses(cfg: Config, s: State, id: string, r: RegistrationRequest, secretHash: string,
                               es: seq<Event>, t: State, req: TokenRequest)
    requires Inv(cfg, s) && Enabled(s, Register(id, r, secretHash)) && Registered(r, secretHash).Success?
    requires Run(cfg, Step(cfg, s, Register(id, r, secretHash)), es) == Some(t) && req.clientID == id
    ensures ClientCheck(cfg, t.books.clients, req) == None <==>
              || r.authMethod == "" || r.authMethod == "none"
              || (req.clientSecret != "" && cfg.secretMatches(secretHash, req.clientSecret))
  {
    StepKeepsInv(cfg, s, Register(id, r, secretHash));
    RegisterStores(cfg, s, id, r, secretHash);
    ClientStays(cfg, Step(cfg, s, Register(id, r, secretHash)), es, t, id);
    RegisteredClientCheck(cfg, t.books.clients, r, secretHash, req);
  }

  // ---- a code is used once -----------------------------------------------

  /** In every run, at most one handler ever answers a code with tokens. */
  lemma OneResponsePerCode(cfg: Config, start: nat, es: seq<Event>, s: State, code: string, h: nat, k: nat)
    requires ReachedBy(cfg, start, es, s)
    requires h in s.answers && AnswersCode(s.answers[h], code)
    requires k in s.answers && AnswersCode(s.answers[k], code)
    ensures h == k
  {
    ReachedInv(cfg, start, es, s);
  }

  /** The code is used, no handler holds it and nothing came of it. */
  ghost predicate Burnt(s: State, code: string) {
    && code in s.books.codes && s.books.codes[code].used
    && Pristine(s.answers, s.books.lineage, code)
    && forall h :: h in s.flights ==> !OnCode(s.flights[h], code)
  }

  lemma BurntStays(cfg: Config, s: State, e: Event, code: string)
    requires Inv(cfg, s) && Enabled(s, e) && Burnt(s, code)
    ensures Burnt(Step(cfg, s, e), code)
  {
    var t := Step(cfg, s, e);
    StepKeepsInv(cfg, s, e);
    assert code in t.books.codes && t.books.codes[code].used;
    BurntFlights(cfg, s, e, code);
    BurntHistory(cfg, s, e, code);
  }

  lemma BurntFlights(cfg: Config, s: State, e: Event, code: string)
    requires Enabled(s, e) && Burnt(s, code)
    ensures forall h :: h in Step(cfg, s, e).flights ==> !OnCode(Step(cfg, s, e).flights[h], code)
  {
  }

  lemma BurntHistory(cfg: Config, s: State, e: Event, code: string)
    requires HandlersOK(cfg, s) && Enabled(s, e) && Burnt(s, code)
    ensures Pristine(Step(cfg, s, e).answers, Step(cfg, s, e).books.lineage, code)
  {
    if e.StoreRefresh? {
      assert FlightOK(cfg, s.books, s.flights[e.h]) && !OnCode(s.flights[e.h], code);
    }
  }

  lemma {:induction false} BurntForever(cfg: Config, s: State, es: seq<Event>, t: State, code: string)
    requires Inv(cfg, s) && Burnt(s, code) && Run(cfg, s, es) == Some(t)
    ensures Burnt(t, code)
    decreases |es|
  {
    if es != [] {
      StepKeepsInv(cfg, s, es[0]);
      BurntStays(cfg, s, es[0], code);
      BurntForever(cfg, Step(cfg, s, es[0]), es[1..], t, code);
    }
  }

  /** When a handler that redeemed a code ends without tokens, whichever check or
      store call failed, no later run gives tokens for that code. */
  lemma FailedAttemptBurnsCode(cfg: Config, start: nat, es: seq<Event>, s: State, e: Event, h: nat, fs: seq<Event>,
                               t: State)
    requires ReachedBy(cfg, start, es, s) && Enabled(s, e)
    requires h in s.flights && s.flights[h].CodeFlight?
    requires h in Step(cfg, s, e).answers && Step(cfg, s, e).answers[h].Refused?
    requires Run(cfg, Step(cfg, s, e), fs) == Some(t)
    ensures Burnt(t, s.flights[h].req.code)
  {
    ReachedInv(cfg, start, es, s);
    RefusalBurns(cfg, s, e, h);
    StepKeepsInv(cfg, s, e);
    BurntForever(cfg, Step(cfg, s, e), fs, t, s.flights[h].req.code);
  }

  lemma RefusalBurns(cfg: Config, s: State, e: Event, h: nat)
    requires Inv(cfg, s) && Enabled(s, e) && h in s.flights && s.flights[h].CodeFlight?
    requires h in Step(cfg, s, e).answers && Step(cfg, s, e).answers[h].Refused?
    ensures Burnt(Step(cfg, s, e), s.flights[h].req.code)
  {
    var code, t := s.flights[h].req.code, Step(cfg, s, e);
    assert FlightOK(cfg, s.books, s.flights[h]) && h !in s.answers;
    RefusedStep(cfg, s, e, h);
    assert Pristine(s.answers, s.books.lineage, code);
  }

  /** Only its own failing step refuses a handler. */
  lemma RefusedStep(cfg: Config, s: State, e: Event, h: nat)
    requires Enabled(s, e) && h in s.flights && s.flights[h].CodeFlight? && h !in s.answers
    requires h in Step(cfg, s, e).answers && Step(cfg, s, e).answers[h].Refused?
    ensures Step(cfg, s, e) == Finish(s, h, Step(cfg, s, e).answers[h])
  {
  }

  // ---- where tokens come from --------------------------------------------

  /** The data are those of one consumed code; the scopes lie within the client's and
      within the three MCP scopes; and the code was redeemed with its redirect URI
      and the S256 verifier of its challenge within ten minutes of `Authorize`. */
  ghost predicate GrantedBy(cfg: Config, b: Books, code: string,
                            clientID: string, userID: string, scopes: seq<string>, audience: string) {
    && Carries(cfg, b, code, clientID, userID, scopes, audience)
    && clientID in b.clients
    && b.codes[code].redirectURI in b.clients[clientID].redirectURIs
    && (forall x :: x in scopes ==> x in b.clients[clientID].scopes)
    && (forall x :: x in scopes ==> x in MCP_SCOPES)
  }

  lemma CarriedIsGranted(cfg: Config, b: Books, code: string, cl: string, u: string, sc: seq<string>, aud: string)
    requires RowsOK(cfg, b) && Carries(cfg, b, code, cl, u, sc, aud)
    ensures GrantedBy(cfg, b, code, cl, u, sc, aud)
  {
    assert CodeOK(b, b.codes[code]) && ClientOK(b.clients[cl]);
  }

  /** Every access token ever stored descends from one consumed code. */
  lemma AccessTokensAreGranted(cfg: Config, start: nat, es: seq<Event>, s: State, id: string)
    requires ReachedBy(cfg, start, es, s) && id in s.books.access
    ensures id in s.books.origin
    ensures var t := s.books.access[id];
            GrantedBy(cfg, s.books, s.books.origin[id], t.clientID, t.userID, t.scopes, t.audience)
  {
    ReachedInv(cfg, start, es, s);
    assert AccessOK(cfg, s.books, id);
    var t := s.books.access[id];
    CarriedIsGranted(cfg, s.books, s.books.origin[id], t.clientID, t.userID, t.scopes, t.audience);
  }

  /** So does every refresh token, through all rotations. */
  lemma RefreshTokensAreGranted(cfg: Config, start: nat, es: seq<Event>, s: State, r: string)
    requires ReachedBy(cfg, start, es, s) && r in s.books.refresh
    ensures r in s.books.lineage
    ensures var t := s.books.refresh[r];
            && GrantedBy(cfg, s.books, s.books.lineage[r].code, t.clientID, t.userID, t.scopes, t.audience)
            && t.accessID in s.books.access && t.accessID in s.books.origin
            && s.books.origin[t.accessID] == s.books.lineage[r].code
  {
    ReachedInv(cfg, start, es, s);
    assert RefreshOK(cfg, s.books, r);
    var t := s.books.refresh[r];
    CarriedIsGranted(cfg, s.books, s.books.lineage[r].code, t.clientID, t.userID, t.scopes, t.audience);
  }

  /** A rotation passes user, client, scopes and audience on unchanged. */
  lemma RotationPassesGrantOn(cfg: Config, start: nat, es: seq<Event>, s: State, h: nat)
    requires ReachedBy(cfg, start, es, s)
    requires h in s.answers && s.answers[h].Tokens? && s.answers[h].refreshing
    ensures var shown, next := s.answers[h].req.refreshToken, s.answers[h].refreshID;
            && shown in s.books.refresh && next in s.books.refresh
            && var x, y := s.books.refresh[shown], s.books.refresh[next];
            x.userID == y.userID && x.clientID == y.clientID && x.scopes == y.scopes && x.audience == y.audience
  {
    ReachedInv(cfg, start, es, s);
    var a := s.answers[h];
    assert AnswerOK(s.books, a);
    assert LineageOK(s.books, a.refreshID) && LineageOK(s.books, a.req.refreshToken);
    assert RefreshOK(cfg, s.books, a.refreshID) && RefreshOK(cfg, s.books, a.req.refreshToken);
  }

  // ---- validation --------------------------------------------------------

  /** A signed token validates exactly while its audience is this server, its whole
      `exp` second has not begun and it is not revoked; the answer names the user,
      client and scopes of the code it came from. */
  lemma ValidExactlyWhileLive(cfg: Config, start: nat, es: seq<Event>, s: State, c: Claims)
    requires ReachedBy(cfg, start, es, s) && c in s.books.issued
    ensures c.jti in s.books.access && c.jti in s.books.origin && s.books.origin[c.jti] in s.books.codes
    ensures c.exp == s.books.access[c.jti].expiresAt / SECOND <= c.iat + 15 * 60 && c.iat * SECOND <= s.books.now
    ensures Validate(cfg, s.books, Jwt(c)).Success? <==>
              c.aud == cfg.serverURL && s.books.now < c.exp * SECOND && !s.books.access[c.jti].revoked
    ensures Validate(cfg, s.books, Jwt(c)).Success? ==>
              var info, code := Validate(cfg, s.books, Jwt(c)).value, s.books.codes[s.books.origin[c.jti]];
              info.userID == code.userID && info.clientID == code.clientID && info.scopes == code.scopes
  {
    ReachedInv(cfg, start, es, s);
    assert IssuedOK(s.books, c) && AccessOK(cfg, s.books, c.jti);
    AccessTokensAreGranted(cfg, start, es, s, c.jti);
    var t := s.books.access[c.jti];
    McpScopesAreWords(t.scopes);
    ScopesRoundTrip(t.scopes);
  }

  predicate RevokesAccess(e: Event, id: string) {
    e.Revoke? && e.bearer.Jwt? && e.bearer.claims.jti == id
  }

  lemma RevocationIsExplicit(cfg: Config, s: State, e: Event, id: string)
    requires Enabled(s, e) && id in s.books.access && !RevokesAccess(e, id)
    ensures id in Step(cfg, s, e).books.access && Step(cfg, s, e).books.access[id] == s.books.access[id]
  {
    if e.Revoke? {
      OtherRevocation(s.books, e.bearer, id);
    } else if !e.StoreAccess? {
      AccessUntouched(cfg, s, e);
    }
  }

  lemma OtherRevocation(b: Books, bearer: Bearer, id: string)
    requires id in b.access && !(bearer.Jwt? && bearer.claims.jti == id)
    ensures var t := WithRevocation(b, bearer); id in t.access && t.access[id] == b.access[id]
  {
  }

  lemma AccessUntouched(cfg: Config, s: State, e: Event)
    requires Enabled(s, e) && !e.Revoke? && !e.StoreAccess?
    ensures Step(cfg, s, e).books.access == s.books.access
  {
    if e.Register? {
      assert WithClient(s.books, e.id, e.registration, e.secretHash).access == s.books.access;
    } else if e.Authorize? {
      assert WithCode(s.books, e.id, e.userID, e.authorization).access == s.books.access;
    }
  }

  /** A token with the server's own audience stays valid at every later time before
      its `exp` second, whatever happens, unless someone revokes it; and it names
      the same user, client and scopes. */
  lemma {:induction false} StaysValid(cfg: Config, start: nat, es: seq<Event>, s: State, fs: seq<Event>, t: State,
                                      c: Claims)
    requires ReachedBy(cfg, start, es, s) && Run(cfg, s, fs) == Some(t)
    requires Validate(cfg, s.books, Jwt(c)).Success? && c in s.books.issued
    requires forall e :: e in fs ==> !RevokesAccess(e, c.jti)
    ensures Validate(cfg, t.books, Jwt(c)).Success? <==> t.books.now < c.exp * SECOND
    ensures Validate(cfg, t.books, Jwt(c)).Success? ==>
              Validate(cfg, t.books, Jwt(c)).value == Validate(cfg, s.books, Jwt(c)).value
  {
    ReachedInv(cfg, start, es, s);
    RunKeepsInv(cfg, s, fs, t);
    RunAppend(cfg, Initial(start), es, fs);
    ValidExactlyWhileLive(cfg, start, es, s, c);
    ValidExactlyWhileLive(cfg, start, es + fs, t, c);
    UnrevokedStays(cfg, s, fs, t, c.jti);
    assert IssuedOK(s.books, c);
    AccessTokensAreGranted(cfg, start, es, s, c.jti);
  }

  lemma {:induction false} UnrevokedStays(cfg: Config, s: State, fs: seq<Event>, t: State, id: string)
    requires id in s.books.access && Run(cfg, s, fs) == Some(t)
    requires forall e :: e in fs ==> !RevokesAccess(e, id)
    ensures id in t.books.access && t.books.access[id] == s.books.access[id]
    decreases |fs|
  {
    if fs != [] {
      RevocationIsExplicit(cfg, s, fs[0], id);
      UnrevokedStays(cfg, Step(cfg, s, fs[0]), fs[1..], t, id);
    }
  }

  // ---- revocation --------------------------------------------------------

  /** Once `Revoke` has reached the store, no later validation accepts the token. */
  lemma RevokedAccessStaysRefused(cfg: Config, start: nat, es: seq<Event>, s: State, c: Claims, fs: seq<Event>,
                                  t: State)
    requires ReachedBy(cfg, start, es, s) && Enabled(s, Revoke(Jwt(c)))
    requires Run(cfg, Step(cfg, s, Revoke(Jwt(c))), fs) == Some(t)
    ensures Validate(cfg, t.books, Jwt(c)).Failure?
  {
    ReachedInv(cfg, start, es, s);
    var u := Step(cfg, s, Revoke(Jwt(c)));
    StepKeepsInv(cfg, s, Revoke(Jwt(c)));
    RunKeepsInv(cfg, u, fs, t);
    assert IssuedOK(s.books, c);
    if s.books.now < c.exp * SECOND {
      assert u.books.access[c.jti].revoked;
      assert AccessGrows(u.books.access[c.jti], t.books.access[c.jti]);
    }
  }

  /** Handlers outside `known` have not got past the check with token `r`. */
  ghost predicate ShutOut(s: State, r: string, known: set<nat>) {
    && r in s.books.refresh && s.books.refresh[r].revoked
    && (forall h :: h in s.flights && h !in known
                    && s.flights[h].RefreshFlight? && s.flights[h].req.refreshToken == r ==>
          s.flights[h].token.revoked && s.flights[h].stage == Fetched)
    && (forall h :: h in s.answers && h !in known && s.answers[h].Tokens? && s.answers[h].refreshing ==>
          s.answers[h].req.refreshToken != r)
  }

  lemma ShutOutFlights(cfg: Config, s: State, e: Event, r: string, known: set<nat>)
    requires Enabled(s, e) && ShutOut(s, r, known)
    ensures var t := Step(cfg, s, e);
            forall h :: h in t.flights && h !in known
                        && t.flights[h].RefreshFlight? && t.flights[h].req.refreshToken == r ==>
              t.flights[h].token.revoked && t.flights[h].stage == Fetched
  {
    if e.Check? && s.flights[e.h].RefreshFlight? {
      assert s.flights[e.h].token.revoked ==> FlightCheck(cfg, s.books.now, s.flights[e.h]).Some?;
    }
  }

  lemma ShutOutAnswers(cfg: Config, s: State, e: Event, r: string, known: set<nat>)
    requires Enabled(s, e) && ShutOut(s, r, known)
    ensures var t := Step(cfg, s, e);
            forall h :: h in t.answers && h !in known && t.answers[h].Tokens? && t.answers[h].refreshing ==>
              t.answers[h].req.refreshToken != r
  {
  }

  lemma {:induction false} ShutOutForever(cfg: Config, s: State, fs: seq<Event>, t: State, r: string, known: set<nat>)
    requires Inv(cfg, s) && ShutOut(s, r, known) && Run(cfg, s, fs) == Some(t)
    ensures ShutOut(t, r, known)
    decreases |fs|
  {
    if fs != [] {
      var u := Step(cfg, s, fs[0]);
      StepKeepsInv(cfg, s, fs[0]);
      assert RefreshGrows(s.books.refresh[r], u.books.refresh[r]);
      ShutOutFlights(cfg, s, fs[0], r, known);
      ShutOutAnswers(cfg, s, fs[0], r, known);
      ShutOutForever(cfg, u, fs[1..], t, r, known);
    }
  }

  /** Once a refresh token is revoked or rotated in the store, no handler that starts
      later is ever answered with tokens for it. */
  lemma RevokedRefreshStaysRefused(cfg: Config, start: nat, es: seq<Event>, s: State, r: string, fs: seq<Event>,
                                   t: State, h: nat)
    requires ReachedBy(cfg, start, es, s) && r in s.books.refresh && s.books.refresh[r].revoked
    requires Run(cfg, s, fs) == Some(t)
    requires h !in s.flights && h !in s.answers
    ensures h in t.answers && t.answers[h].Tokens? && t.answers[h].refreshing ==> t.answers[h].req.refreshToken != r
  {
    ReachedInv(cfg, start, es, s);
    ShutOutForever(cfg, s, fs, t, r, s.flights.Keys + s.answers.Keys);
  }

  /** A refresh token that has been exchanged is revoked and points at a successor, and
      a handler that starts after the exchange never gets tokens for it again. */
  lemma ExchangedRefreshIsSpent(cfg: Config, start: nat, es: seq<Event>, s: State, h: nat, fs: seq<Event>, t: State,
                                k: nat)
    requires ReachedBy(cfg, start, es, s) && h in s.answers && s.answers[h].Tokens? && s.answers[h].refreshing
    requires Run(cfg, s, fs) == Some(t) && k !in s.flights && k !in s.answers
    ensures var r := s.answers[h].req.refreshToken;
            && r in s.books.refresh && s.books.refresh[r].revoked && s.books.refresh[r].rotatedTo != ""
            && (k in t.answers && t.answers[k].Tokens? && t.answers[k].refreshing ==>
                 t.answers[k].req.refreshToken != r)
  {
    ReachedInv(cfg, start, es, s);
    assert AnswerOK(s.books, s.answers[h]);
    RevokedRefreshStaysRefused(cfg, start, es, s, s.answers[h].req.refreshToken, fs, t, k);
  }
}
