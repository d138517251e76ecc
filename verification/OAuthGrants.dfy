/** What every run of the authorization server keeps: a code is answered with tokens
    at most once, and every token carries what one redeemed code granted. */
module OAuthGrants {
  import opened Text
  import opened OAuthDomain
  import opened OAuthServer
  import opened Wrappers

  // ---- rows only grow ----------------------------------------------------

  /** Equal up to `used`, which only rises. */
  predicate CodeGrows(a: Code, b: Code) {
    a.(used := b.used) == b && (a.used ==> b.used)
  }

  predicate AccessGrows(a: Access, b: Access) {
    a.(revoked := b.revoked) == b && (a.revoked ==> b.revoked)
  }

  predicate RefreshGrows(a: Refresh, b: Refresh) {
    && a.(revoked := b.revoked, rotatedTo := b.rotatedTo) == b
    && (a.revoked ==> b.revoked)
    && (a.rotatedTo != "" ==> b.rotatedTo != "")
  }

  ghost predicate Keeps<K(!new), V>(a: map<K, V>, b: map<K, V>) {
    forall k :: k in a ==> k in b && b[k] == a[k]
  }

  /** Later books keep every row and record of earlier ones; `used`, `revoked` and
      "has been rotated" only move forward. */
  ghost predicate Extends(a: Books, b: Books) {
    && a.now <= b.now
    && Keeps(a.clients, b.clients)
    && (forall c :: c in a.codes ==> c in b.codes && CodeGrows(a.codes[c], b.codes[c]))
    && (forall id :: id in a.access ==> id in b.access && AccessGrows(a.access[id], b.access[id]))
    && (forall r :: r in a.refresh ==> r in b.refresh && RefreshGrows(a.refresh[r], b.refresh[r]))
    && Keeps(a.evidence, b.evidence)
    && Keeps(a.origin, b.origin)
    && Keeps(a.lineage, b.lineage)
    && a.issued <= b.issued
  }

  lemma ExtendsTrans(a: Books, b: Books, c: Books)
    requires Extends(a, b) && Extends(b, c)
    ensures Extends(a, c)
  {
  }

  // ---- the books are in order --------------------------------------------

  ghost predicate ClientOK(c: Client) {
    forall x :: x in c.scopes ==> x in MCP_SCOPES
  }

  /** A stored code names a registered client, one of its redirect URIs and scopes
      within its scopes, holds a challenge and lives ten minutes. */
  ghost predicate CodeOK(b: Books, c: Code) {
    && c.clientID in b.clients
    && c.redirectURI in b.clients[c.clientID].redirectURIs
    && (forall x :: x in c.scopes ==> x in b.clients[c.clientID].scopes)
    && c.codeChallenge != ""
    && c.expiresAt == c.createdAt + CODE_TTL
    && c.createdAt <= b.now
  }

  /** The code was redeemed with the redirect URI it was issued for and a verifier
      of its challenge, within ten minutes of its issue. */
  predicate Proven(cfg: Config, c: Code, ev: Evidence) {
    && c.used
    && ev.redirectURI == c.redirectURI
    && ValidatePKCE(cfg, ev.verifier, c.codeChallenge)
    && c.createdAt <= ev.checkedAt <= c.createdAt + CODE_TTL
  }

  /** Whom a token is for: the resource of the token request, without one that of the
      authorization request, without either this server (section 2 of RFC 8707). */
  predicate Addressed(cfg: Config, audience: string, asked: string, authorized: string) {
    && (asked != "" ==> audience == asked)
    && (asked == "" && authorized != "" ==> audience == authorized)
    && (asked == "" && authorized == "" ==> audience == cfg.serverURL)
  }

  /** The token data are those of the redeemed code, for whom it was asked. */
  predicate Carries(cfg: Config, b: Books, code: string,
                    clientID: string, userID: string, scopes: seq<string>, audience: string) {
    && code in b.codes && code in b.evidence && Proven(cfg, b.codes[code], b.evidence[code])
    && clientID == b.codes[code].clientID
    && userID == b.codes[code].userID
    && scopes == b.codes[code].scopes
    && Addressed(cfg, audience, b.evidence[code].resource, b.codes[code].resource)
  }

  predicate AccessOK(cfg: Config, b: Books, id: string) {
    id in b.access && id in b.origin &&
    var t := b.access[id];
    Carries(cfg, b, b.origin[id], t.clientID, t.userID, t.scopes, t.audience)
  }

  predicate RefreshOK(cfg: Config, b: Books, r: string) {
    r in b.refresh && r in b.lineage && r != "" &&
    var t := b.refresh[r];
    && Carries(cfg, b, b.lineage[r].code, t.clientID, t.userID, t.scopes, t.audience)
    && t.accessID in b.access && t.accessID in b.origin && b.origin[t.accessID] == b.lineage[r].code
  }

  predicate LineageOK(b: Books, r: string) {
    r in b.lineage && r in b.refresh &&
    var l := b.lineage[r];
    if l.parent == "" then l.depth == 0
    else l.parent in b.lineage && b.lineage[l.parent].code == l.code && l.depth == b.lineage[l.parent].depth + 1
  }

  /** A signed claim set matches its stored row and lives at most fifteen minutes. */
  predicate IssuedOK(b: Books, c: Claims) {
    c.jti in b.access &&
    var t := b.access[c.jti];
    c.sub == t.userID && c.clientID == t.clientID && c.scope == Join(t.scopes, ' ') && c.aud == t.audience
    && c.exp == t.expiresAt / SECOND <= c.iat + 15 * 60 && c.iat <= b.now / SECOND
  }

  ghost predicate RowsOK(cfg: Config, b: Books) {
    && (forall id {:trigger ClientOK(b.clients[id])} :: id in b.clients ==> ClientOK(b.clients[id]))
    && (forall c {:trigger CodeOK(b, b.codes[c])} :: c in b.codes ==> CodeOK(b, b.codes[c]))
    && (forall c :: c in b.evidence ==> c in b.codes && b.codes[c].used)
    && (forall id {:trigger AccessOK(cfg, b, id)} :: id in b.access ==> AccessOK(cfg, b, id))
    && (forall id :: id in b.origin ==> id in b.access)
    && (forall r {:trigger RefreshOK(cfg, b, r)} :: r in b.refresh ==> RefreshOK(cfg, b, r))
    && (forall r {:trigger LineageOK(b, r)} :: r in b.lineage ==> LineageOK(b, r))
    && (forall c {:trigger IssuedOK(b, c)} :: c in b.issued ==> IssuedOK(b, c))
  }

  /** Extension keeps every statement about a row. */
  lemma RowKept(cfg: Config, a: Books, b: Books)
    requires Extends(a, b)
    ensures forall c :: CodeOK(a, c) ==> CodeOK(b, c)
    ensures forall code, cl, u, sc, aud :: Carries(cfg, a, code, cl, u, sc, aud) ==>
              Carries(cfg, b, code, cl, u, sc, aud)
    ensures forall id :: AccessOK(cfg, a, id) ==> AccessOK(cfg, b, id)
    ensures forall r :: RefreshOK(cfg, a, r) ==> RefreshOK(cfg, b, r)
    ensures forall r :: LineageOK(a, r) ==> LineageOK(b, r)
    ensures forall c :: IssuedOK(a, c) ==> IssuedOK(b, c)
  {
  }

  /** Only new rows need an argument: the old ones stay in order. */
  lemma OldRowsStay(cfg: Config, a: Books, b: Books)
    requires RowsOK(cfg, a) && Extends(a, b)
    requires forall id :: id in b.clients && id !in a.clients ==> ClientOK(b.clients[id])
    requires forall c :: c in b.codes && c !in a.codes ==> CodeOK(b, b.codes[c])
    requires forall c :: c in b.evidence && c !in a.evidence ==> c in b.codes && b.codes[c].used
    requires forall id :: id in b.access && id !in a.access ==> AccessOK(cfg, b, id)
    requires forall id :: id in b.origin && id !in a.origin ==> id in b.access
    requires forall r :: r in b.refresh && r !in a.refresh ==> RefreshOK(cfg, b, r)
    requires forall r :: r in b.lineage && r !in a.lineage ==> LineageOK(b, r)
    requires forall c :: c in b.issued && c !in a.issued ==> IssuedOK(b, c)
    ensures RowsOK(cfg, b)
  {
    RowKept(cfg, a, b);
    forall c | c in b.codes ensures CodeOK(b, b.codes[c]) {
      if c in a.codes {
        assert CodeOK(a, a.codes[c]) && CodeGrows(a.codes[c], b.codes[c]);
      }
    }
  }

  lemma WithClientExtends(b: Books, id: string, r: RegistrationRequest, secretHash: string)
    requires id !in b.clients
    ensures Extends(b, WithClient(b, id, r, secretHash))
  {
    match Registered(r, secretHash)
    case Failure(_) =>
    case Success(c) => NewClientExtends(b, id, c);
  }

  lemma NewClientExtends(b: Books, id: string, c: Client)
    requires id !in b.clients
    ensures Extends(b, b.(clients := b.clients[id := c]))
  {
  }

  lemma WithClientOK(cfg: Config, b: Books, id: string, r: RegistrationRequest, secretHash: string)
    requires RowsOK(cfg, b) && id !in b.clients
    ensures RowsOK(cfg, WithClient(b, id, r, secretHash))
  {
    WithClientExtends(b, id, r, secretHash);
    match Registered(r, secretHash)
    case Failure(_) =>
    case Success(c) => assert ClientOK(c); OldRowsStay(cfg, b, b.(clients := b.clients[id := c]));
  }

  lemma WithCodeExtends(b: Books, id: string, userID: string, a: AuthorizeRequest)
    requires id !in b.codes
    ensures Extends(b, WithCode(b, id, userID, a))
  {
    match Authorized(b.clients, userID, a, b.now)
    case Failure(_) =>
    case Success(c) => NewCodeExtends(b, id, c);
  }

  lemma NewCodeExtends(b: Books, id: string, c: Code)
    requires id !in b.codes
    ensures Extends(b, b.(codes := b.codes[id := c]))
  {
  }

  lemma AuthorizedIsOK(b: Books, userID: string, a: AuthorizeRequest)
    ensures var r := Authorized(b.clients, userID, a, b.now); r.Success? ==> CodeOK(b, r.value)
  {
  }

  lemma WithCodeOK(cfg: Config, b: Books, id: string, userID: string, a: AuthorizeRequest)
    requires RowsOK(cfg, b) && id !in b.codes
    ensures RowsOK(cfg, WithCode(b, id, userID, a))
  {
    WithCodeExtends(b, id, userID, a);
    AuthorizedIsOK(b, userID, a);
    OldRowsStay(cfg, b, WithCode(b, id, userID, a));
  }

  lemma WithUsedExtends(b: Books, code: string)
    requires code in b.codes
    ensures Extends(b, WithUsed(b, code))
  {
  }

  lemma RefreshSetExtends(b: Books, r: string, row: Refresh)
    requires r in b.refresh && RefreshGrows(b.refresh[r], row)
    ensures Extends(b, b.(refresh := b.refresh[r := row]))
  {
  }

  lemma AccessSetExtends(b: Books, id: string, row: Access)
    requires id in b.access && AccessGrows(b.access[id], row)
    ensures Extends(b, b.(access := b.access[id := row]))
  {
  }

  lemma WithRotationExtends(b: Books, prev: string, next: string)
    requires next != ""
    ensures Extends(b, WithRotation(b, prev, next))
  {
    if prev in b.refresh {
      RefreshSetExtends(b, prev, b.refresh[prev].(rotatedTo := next, revoked := true));
    }
  }

  lemma WithRevocationExtends(b: Books, bearer: Bearer)
    ensures Extends(b, WithRevocation(b, bearer))
  {
    match Parse(bearer, b.now)
    case Some(c) =>
      if c.jti in b.access { AccessSetExtends(b, c.jti, b.access[c.jti].(revoked := true)); }
    case None =>
      if bearer.Opaque? && bearer.text in b.refresh {
        RefreshSetExtends(b, bearer.text, b.refresh[bearer.text].(revoked := true));
      }
  }

  /** Books with the rows and records of earlier ones, apart from the flags. */
  ghost predicate SameKeys(a: Books, b: Books) {
    && b.clients == a.clients && b.evidence == a.evidence && b.origin == a.origin && b.lineage == a.lineage
    && b.issued == a.issued
    && (forall c :: c in b.codes ==> c in a.codes)
    && (forall id :: id in b.access ==> id in a.access)
    && (forall r :: r in b.refresh ==> r in a.refresh)
  }

  lemma SameKeysOK(cfg: Config, a: Books, b: Books)
    requires RowsOK(cfg, a) && Extends(a, b) && SameKeys(a, b)
    ensures RowsOK(cfg, b)
  {
    OldRowsStay(cfg, a, b);
  }

  lemma WithEvidenceExtends(cfg: Config, b: Books, f: Flight)
    requires f.CodeFlight? ==> f.req.code !in b.evidence
    ensures Extends(b, WithEvidence(cfg, b, f))
  {
  }

  lemma WithEvidenceOK(cfg: Config, b: Books, f: Flight)
    requires RowsOK(cfg, b) && Extends(b, WithEvidence(cfg, b, f))
    requires f.CodeFlight? ==> f.req.code in b.codes && b.codes[f.req.code].used
    ensures RowsOK(cfg, WithEvidence(cfg, b, f))
  {
    OldRowsStay(cfg, b, WithEvidence(cfg, b, f));
  }

  // ---- the handlers are in order -----------------------------------------

  predicate Signed(b: Books, c: Claims, code: string) {
    c in b.issued && c.jti in b.origin && b.origin[c.jti] == code
  }

  /** The evidence for the code is what the request shows. */
  predicate Shown(b: Books, req: TokenRequest) {
    req.code in b.evidence &&
    var ev := b.evidence[req.code];
    ev.redirectURI == req.redirectURI && ev.verifier == req.codeVerifier && ev.resource == req.resource
  }

  predicate CodeFlightOK(cfg: Config, b: Books, f: Flight)
    requires f.CodeFlight?
  {
    && f.req.code in b.codes && b.codes[f.req.code] == f.code && f.code.used
    && (f.stage != Fetched ==>
          && Carries(cfg, b, f.req.code, f.req.clientID, UserOf(f), ScopesOf(f), AudienceOf(cfg, f))
          && Shown(b, f.req))
    && (f.stage.Stored? ==>
          Signed(b, f.stage.claims, f.req.code) && f.stage.claims.scope == Join(f.code.scopes, ' '))
    && !f.stage.Rotating?
  }

  predicate RefreshFlightOK(b: Books, f: Flight)
    requires f.RefreshFlight?
  {
    var r := f.req.refreshToken;
    && r in b.refresh && r in b.lineage && r != "" && RefreshGrows(f.token, b.refresh[r])
    && (f.stage != Fetched ==>
          f.token.clientID == f.req.clientID && !f.token.revoked && f.token.rotatedTo == "")
    && (f.stage.Stored? || f.stage.Rotating? ==>
          Signed(b, f.stage.claims, b.lineage[r].code) && f.stage.claims.scope == Join(f.token.scopes, ' '))
    && (f.stage.Rotating? ==>
          f.stage.refreshID in b.lineage && f.stage.refreshID != ""
          && b.lineage[f.stage.refreshID] == Lineage(b.lineage[r].code, r, b.lineage[r].depth + 1))
  }

  predicate FlightOK(cfg: Config, b: Books, f: Flight) {
    if f.CodeFlight? then CodeFlightOK(cfg, b, f) else RefreshFlightOK(b, f)
  }

  /** An answer with tokens hands out a signed access token and a stored refresh
      token of the same code: the code's first, or a successor of the one shown,
      which is revoked and rotated by then. */
  predicate AnswerOK(b: Books, a: Answer) {
    a.Tokens? ==>
      && a.refreshID in b.lineage
      && Signed(b, a.claims, b.lineage[a.refreshID].code)
      && (if a.refreshing then
            && b.lineage[a.refreshID].parent == a.req.refreshToken != "" && a.req.refreshToken in b.refresh
            && b.refresh[a.req.refreshToken].revoked && b.refresh[a.req.refreshToken].rotatedTo != ""
          else b.lineage[a.refreshID] == Lineage(a.req.code, "", 0) && Shown(b, a.req))
      && a.scope == a.claims.scope
  }

  lemma FlightKept(cfg: Config, a: Books, b: Books, f: Flight)
    requires Extends(a, b) && FlightOK(cfg, a, f)
    ensures FlightOK(cfg, b, f)
  {
    RowKept(cfg, a, b);
  }

  lemma AnswerKept(x: Books, y: Books, a: Answer)
    requires Extends(x, y) && AnswerOK(x, a)
    ensures AnswerOK(y, a)
  {
  }

  /** The data a handler past its checks works with are those of its code. */
  lemma FlightCarries(cfg: Config, b: Books, f: Flight)
    requires RowsOK(cfg, b) && FlightOK(cfg, b, f) && f.stage != Fetched
    ensures Carries(cfg, b, CodeOf(b, f), f.req.clientID, UserOf(f), ScopesOf(f), AudienceOf(cfg, f))
  {
    if f.RefreshFlight? {
      assert RefreshOK(cfg, b, f.req.refreshToken);
    }
  }

  /** A passed check on a redeemed code leaves proof of it. */
  lemma CheckProves(cfg: Config, b: Books, f: Flight)
    requires RowsOK(cfg, b) && FlightOK(cfg, b, f) && f.stage == Fetched && FlightCheck(cfg, b.now, f) == None
    requires Extends(b, WithEvidence(cfg, b, f))
    ensures FlightOK(cfg, WithEvidence(cfg, b, f), Staged(f, Verified))
  {
    var t := WithEvidence(cfg, b, f);
    if f.CodeFlight? {
      assert CodeOK(b, f.code);
      assert Proven(cfg, f.code, t.evidence[f.req.code]);
    }
  }

  lemma WithAccessExtends(cfg: Config, b: Books, f: Flight, id: string)
    requires id !in b.access && id !in b.origin
    ensures Extends(b, WithAccess(cfg, b, f, id))
  {
  }

  lemma NewAccessOK(cfg: Config, b: Books, f: Flight, id: string)
    requires Carries(cfg, b, CodeOf(b, f), f.req.clientID, UserOf(f), ScopesOf(f), AudienceOf(cfg, f))
    ensures AccessOK(cfg, WithAccess(cfg, b, f, id), id)
    ensures IssuedOK(WithAccess(cfg, b, f, id), NewClaims(cfg, b.now, f, id))
  {
  }

  lemma WithAccessOK(cfg: Config, b: Books, f: Flight, id: string)
    requires RowsOK(cfg, b) && FlightOK(cfg, b, f) && f.stage == Cleared
    requires Extends(b, WithAccess(cfg, b, f, id))
    ensures RowsOK(cfg, WithAccess(cfg, b, f, id))
    ensures FlightOK(cfg, WithAccess(cfg, b, f, id), Staged(f, Stored(NewClaims(cfg, b.now, f, id))))
  {
    FlightCarries(cfg, b, f);
    NewAccessOK(cfg, b, f, id);
    FlightKept(cfg, b, WithAccess(cfg, b, f, id), f);
    OldRowsStay(cfg, b, WithAccess(cfg, b, f, id));
  }

  lemma WithRefreshExtends(cfg: Config, b: Books, f: Flight, id: string, accessID: string)
    requires id !in b.refresh && id !in b.lineage
    ensures Extends(b, WithRefresh(cfg, b, f, id, accessID))
  {
  }

  lemma NewRefreshOK(cfg: Config, b: Books, f: Flight, id: string)
    requires id != "" && f.stage.Stored? && FlightOK(cfg, b, f)
               && Extends(b, WithRefresh(cfg, b, f, id, f.stage.claims.jti))
    requires Carries(cfg, b, CodeOf(b, f), f.req.clientID, UserOf(f), ScopesOf(f), AudienceOf(cfg, f))
    requires IssuedOK(b, f.stage.claims)
    ensures RefreshOK(cfg, WithRefresh(cfg, b, f, id, f.stage.claims.jti), id)
    ensures LineageOK(WithRefresh(cfg, b, f, id, f.stage.claims.jti), id)
  {
    RowKept(cfg, b, WithRefresh(cfg, b, f, id, f.stage.claims.jti));
  }

  lemma WithRefreshOK(cfg: Config, b: Books, f: Flight, id: string)
    requires RowsOK(cfg, b) && FlightOK(cfg, b, f) && f.stage.Stored? && id != ""
    requires Extends(b, WithRefresh(cfg, b, f, id, f.stage.claims.jti))
    ensures RowsOK(cfg, WithRefresh(cfg, b, f, id, f.stage.claims.jti))
  {
    FlightCarries(cfg, b, f);
    assert IssuedOK(b, f.stage.claims);
    NewRefreshOK(cfg, b, f, id);
    OldRowsStay(cfg, b, WithRefresh(cfg, b, f, id, f.stage.claims.jti));
  }

  lemma CodeGrantOK(cfg: Config, b: Books, f: Flight, id: string)
    requires f.CodeFlight? && f.stage.Stored? && FlightOK(cfg, b, f)
    requires Extends(b, WithRefresh(cfg, b, f, id, f.stage.claims.jti))
    ensures AnswerOK(WithRefresh(cfg, b, f, id, f.stage.claims.jti), Grant(f, f.stage.claims, id))
  {
  }

  lemma RefreshGrantOK(cfg: Config, b: Books, f: Flight, id: string)
    requires f.RefreshFlight? && f.stage.Stored? && FlightOK(cfg, b, f) && id != ""
    requires Extends(b, WithRefresh(cfg, b, f, id, f.stage.claims.jti))
    ensures FlightOK(cfg, WithRefresh(cfg, b, f, id, f.stage.claims.jti), Staged(f, Rotating(f.stage.claims, id)))
  {
    FlightKept(cfg, b, WithRefresh(cfg, b, f, id, f.stage.claims.jti), f);
  }

  ghost predicate HandlersOK(cfg: Config, s: State) {
    && (forall h :: h in s.flights ==> h !in s.answers)
    && (forall h {:trigger FlightOK(cfg, s.books, s.flights[h])} :: h in s.flights ==>
         FlightOK(cfg, s.books, s.flights[h]))
    && (forall h {:trigger AnswerOK(s.books, s.answers[h])} :: h in s.answers ==> AnswerOK(s.books, s.answers[h]))
  }

  predicate OnCode(f: Flight, code: string) {
    f.CodeFlight? && f.req.code == code
  }

  predicate AnswersCode(a: Answer, code: string) {
    a.Tokens? && !a.refreshing && a.req.code == code
  }

  /** No token has come of the code. */
  ghost predicate Pristine(answers: map<nat, Answer>, lineage: map<string, Lineage>, code: string) {
    && (forall h :: h in answers ==> !AnswersCode(answers[h], code))
    && (forall r :: r in lineage ==> lineage[r].code != code)
  }

  ghost predicate OneHandler(flights: map<nat, Flight>) {
    forall h, k :: h in flights && k in flights && flights[h].CodeFlight? && flights[k].CodeFlight? ==>
      flights[h].req.code == flights[k].req.code ==> h == k
  }

  ghost predicate NothingYet(s: State) {
    forall h :: h in s.flights && s.flights[h].CodeFlight? ==>
      && Pristine(s.answers, s.books.lineage, s.flights[h].req.code)
      && (s.flights[h].stage == Fetched ==> s.flights[h].req.code !in s.books.evidence)
  }

  ghost predicate OneAnswer(answers: map<nat, Answer>) {
    forall h, k, code :: h in answers && k in answers
                         && AnswersCode(answers[h], code) && AnswersCode(answers[k], code) ==>
      h == k
  }

  ghost predicate OneRoot(lineage: map<string, Lineage>) {
    forall r, q :: r in lineage && q in lineage && lineage[r].depth == 0 && lineage[q].depth == 0 ==>
      lineage[r].code == lineage[q].code ==> r == q
  }

  /** A code belongs to at most one handler, from which everything comes. */
  ghost predicate SingleUse(s: State) {
    OneHandler(s.flights) && NothingYet(s) && OneAnswer(s.answers) && OneRoot(s.books.lineage)
  }

  ghost predicate Inv(cfg: Config, s: State) {
    RowsOK(cfg, s.books) && HandlersOK(cfg, s) && SingleUse(s)
  }

  lemma InvInitially(cfg: Config, now: nat)
    ensures Inv(cfg, Initial(now))
  {
  }

  // ---- every step keeps the invariant ------------------------------------

  /** A change to the books alone. */
  lemma BooksKeepHandlers(cfg: Config, s: State, b: Books)
    requires HandlersOK(cfg, s) && Extends(s.books, b)
    ensures HandlersOK(cfg, s.(books := b))
  {
    forall h | h in s.flights ensures FlightOK(cfg, b, s.flights[h]) {
      FlightKept(cfg, s.books, b, s.flights[h]);
    }
    forall h | h in s.answers ensures AnswerOK(b, s.answers[h]) {
      AnswerKept(s.books, b, s.answers[h]);
    }
  }

  lemma BooksKeepInv(cfg: Config, s: State, b: Books)
    requires Inv(cfg, s) && Extends(s.books, b) && RowsOK(cfg, b)
    requires b.lineage == s.books.lineage && b.evidence == s.books.evidence
    ensures Inv(cfg, s.(books := b))
  {
    BooksKeepHandlers(cfg, s, b);
  }

  lemma FinishKeepsHandlers(cfg: Config, s: State, h: nat, a: Answer)
    requires HandlersOK(cfg, s) && h !in s.answers && AnswerOK(s.books, a)
    ensures HandlersOK(cfg, Finish(s, h, a))
  {
  }

  lemma RefusalKeepsSingleUse(s: State, h: nat, e: Error)
    requires SingleUse(s) && h !in s.answers
    ensures SingleUse(Finish(s, h, Refused(e)))
  {
    var t := Finish(s, h, Refused(e));
    assert forall k :: k in t.flights ==> k in s.flights && t.flights[k] == s.flights[k];
    assert forall k, code :: k in t.answers && AnswersCode(t.answers[k], code) ==>
        k in s.answers && t.answers[k] == s.answers[k];
    assert NothingYet(t);
  }

  lemma RefusalKeepsInv(cfg: Config, s: State, h: nat, e: Error)
    requires Inv(cfg, s) && h !in s.answers
    ensures Inv(cfg, Finish(s, h, Refused(e)))
  {
    FinishKeepsHandlers(cfg, s, h, Refused(e));
    RefusalKeepsSingleUse(s, h, e);
  }

  lemma AtKeepsHandlers(cfg: Config, s: State, h: nat, stage: Stage)
    requires HandlersOK(cfg, s) && h in s.flights && FlightOK(cfg, s.books, Staged(s.flights[h], stage))
    ensures HandlersOK(cfg, At(s, h, stage))
  {
  }

  lemma AtKeepsSingleUse(s: State, h: nat, stage: Stage)
    requires SingleUse(s) && h in s.flights && stage != Fetched
    ensures SingleUse(At(s, h, stage))
  {
    var t := At(s, h, stage);
    assert forall k :: k in t.flights ==> k in s.flights && t.flights[k].req == s.flights[k].req;
    assert NothingYet(t);
  }

  lemma AtKeepsInv(cfg: Config, s: State, h: nat, stage: Stage)
    requires Inv(cfg, s) && h in s.flights && stage != Fetched
    requires FlightOK(cfg, s.books, Staged(s.flights[h], stage))
    ensures Inv(cfg, At(s, h, stage))
  {
    AtKeepsHandlers(cfg, s, h, stage);
    AtKeepsSingleUse(s, h, stage);
  }

  /** Nothing has come of an unused code. */
  lemma UnusedIsPristine(cfg: Config, s: State, code: string)
    requires Inv(cfg, s) && Redeemable(s.books, code)
    ensures Pristine(s.answers, s.books.lineage, code) && code !in s.books.evidence
    ensures forall h :: h in s.flights ==> !OnCode(s.flights[h], code)
  {
    forall r | r in s.books.lineage ensures s.books.lineage[r].code != code {
      assert LineageOK(s.books, r) && RefreshOK(cfg, s.books, r);
    }
    forall h | h in s.answers ensures !AnswersCode(s.answers[h], code) {
      assert AnswerOK(s.books, s.answers[h]);
    }
    forall h | h in s.flights ensures !OnCode(s.flights[h], code) {
      assert FlightOK(cfg, s.books, s.flights[h]);
    }
  }

  lemma RedeemKeepsInv(cfg: Config, s: State, h: nat, req: TokenRequest)
    requires Inv(cfg, s) && Enabled(s, Redeem(h, req))
    ensures Extends(s.books, AfterRedeem(s, h, req).books) && Inv(cfg, AfterRedeem(s, h, req))
  {
    if Redeemable(s.books, req.code) {
      RedemptionKeepsInv(cfg, s, h, req);
    } else {
      RefusalKeepsInv(cfg, s, h, InvalidGrant);
    }
  }

  lemma RedemptionKeepsInv(cfg: Config, s: State, h: nat, req: TokenRequest)
    requires Inv(cfg, s) && Enabled(s, Redeem(h, req)) && Redeemable(s.books, req.code)
    ensures Extends(s.books, AfterRedeem(s, h, req).books) && Inv(cfg, AfterRedeem(s, h, req))
  {
    var b := WithUsed(s.books, req.code);
    WithUsedExtends(s.books, req.code);
    SameKeysOK(cfg, s.books, b);
    UnusedIsPristine(cfg, s, req.code);
    BooksKeepInv(cfg, s, b);
    NewFlightKeepsInv(cfg, s.(books := b), h, CodeFlight(req, b.codes[req.code], Fetched));
  }

  /** A handler starts; if it redeemed a code, nothing has come of that code. */
  lemma NewFlightKeepsInv(cfg: Config, s: State, h: nat, f: Flight)
    requires Inv(cfg, s) && h !in s.flights && h !in s.answers && FlightOK(cfg, s.books, f)
    requires f.CodeFlight? ==>
               && Pristine(s.answers, s.books.lineage, f.req.code) && f.req.code !in s.books.evidence
               && forall k :: k in s.flights ==> !OnCode(s.flights[k], f.req.code)
    ensures Inv(cfg, s.(flights := s.flights[h := f]))
  {
    var t := s.(flights := s.flights[h := f]);
    assert HandlersOK(cfg, t);
    assert NothingYet(t) && OneHandler(t.flights);
  }

  lemma FetchRefreshKeepsInv(cfg: Config, s: State, h: nat, req: TokenRequest)
    requires Inv(cfg, s) && Enabled(s, FetchRefresh(h, req))
    ensures Extends(s.books, AfterFetchRefresh(s, h, req).books) && Inv(cfg, AfterFetchRefresh(s, h, req))
  {
    if req.refreshToken in s.books.refresh {
      assert RefreshOK(cfg, s.books, req.refreshToken);
      NewFlightKeepsInv(cfg, s, h, RefreshFlight(req, s.books.refresh[req.refreshToken], Fetched));
    } else {
      RefusalKeepsInv(cfg, s, h, InvalidGrant);
    }
  }

  /** A code handler that passes its check notes the evidence. */
  lemma EvidenceKeepsSingleUse(cfg: Config, s: State, h: nat)
    requires SingleUse(s) && h in s.flights
    ensures SingleUse(At(s.(books := WithEvidence(cfg, s.books, s.flights[h])), h, Verified))
  {
    var t := At(s.(books := WithEvidence(cfg, s.books, s.flights[h])), h, Verified);
    assert forall k :: k in t.flights ==> k in s.flights && t.flights[k].req == s.flights[k].req;
    assert NothingYet(t);
  }

  lemma PassedCheckKeepsInv(cfg: Config, s: State, h: nat)
    requires Inv(cfg, s) && Enabled(s, Check(h)) && FlightCheck(cfg, s.books.now, s.flights[h]) == None
    ensures Extends(s.books, AfterCheck(cfg, s, h).books) && Inv(cfg, AfterCheck(cfg, s, h))
  {
    var f := s.flights[h];
    assert FlightOK(cfg, s.books, f);
    WithEvidenceExtends(cfg, s.books, f);
    WithEvidenceOK(cfg, s.books, f);
    CheckProves(cfg, s.books, f);
    BooksKeepHandlers(cfg, s, WithEvidence(cfg, s.books, f));
    AtKeepsHandlers(cfg, s.(books := WithEvidence(cfg, s.books, f)), h, Verified);
    EvidenceKeepsSingleUse(cfg, s, h);
  }

  lemma CheckKeepsInv(cfg: Config, s: State, h: nat)
    requires Inv(cfg, s) && Enabled(s, Check(h))
    ensures Extends(s.books, AfterCheck(cfg, s, h).books) && Inv(cfg, AfterCheck(cfg, s, h))
  {
    match FlightCheck(cfg, s.books.now, s.flights[h])
    case Some(e) => RefusalKeepsInv(cfg, s, h, e);
    case None => PassedCheckKeepsInv(cfg, s, h);
  }

  lemma LoadClientKeepsInv(cfg: Config, s: State, h: nat)
    requires Inv(cfg, s) && Enabled(s, LoadClient(h))
    ensures Extends(s.books, AfterLoadClient(cfg, s, h).books) && Inv(cfg, AfterLoadClient(cfg, s, h))
  {
    match ClientCheck(cfg, s.books.clients, s.flights[h].req)
    case Some(e) => RefusalKeepsInv(cfg, s, h, e);
    case None => ClearingKeepsInv(cfg, s, h);
  }

  lemma ClearingKeepsInv(cfg: Config, s: State, h: nat)
    requires Inv(cfg, s) && Enabled(s, LoadClient(h))
    ensures Extends(s.books, At(s, h, Cleared).books) && Inv(cfg, At(s, h, Cleared))
  {
    ClearedOK(cfg, s.books, s.flights[h]);
    AtKeepsInv(cfg, s, h, Cleared);
  }

  lemma ClearedOK(cfg: Config, b: Books, f: Flight)
    requires FlightOK(cfg, b, f) && f.stage == Verified
    ensures FlightOK(cfg, b, Staged(f, Cleared))
  {
  }

  lemma StoreAccessKeepsInv(cfg: Config, s: State, h: nat, id: string)
    requires Inv(cfg, s) && Enabled(s, StoreAccess(h, id))
    ensures Extends(s.books, AfterStoreAccess(cfg, s, h, id).books) && Inv(cfg, AfterStoreAccess(cfg, s, h, id))
  {
    var f := s.flights[h];
    var b := WithAccess(cfg, s.books, f, id);
    WithAccessExtends(cfg, s.books, f, id);
    WithAccessOK(cfg, s.books, f, id);
    BooksKeepInv(cfg, s, b);
    AtKeepsInv(cfg, s.(books := b), h, Stored(NewClaims(cfg, s.books.now, f, id)));
  }

  lemma RotateKeepsInv(cfg: Config, s: State, h: nat)
    requires Inv(cfg, s) && Enabled(s, Rotate(h))
    ensures Extends(s.books, AfterRotate(s, h).books) && Inv(cfg, AfterRotate(s, h))
  {
    var f := s.flights[h];
    assert FlightOK(cfg, s.books, f);
    var b := WithRotation(s.books, f.req.refreshToken, f.stage.refreshID);
    WithRotationExtends(s.books, f.req.refreshToken, f.stage.refreshID);
    SameKeysOK(cfg, s.books, b);
    BooksKeepInv(cfg, s, b);
    FlightKept(cfg, s.books, b, f);
    var a := Grant(f, f.stage.claims, f.stage.refreshID);
    FinishKeepsHandlers(cfg, s.(books := b), h, a);
    RotationKeepsSingleUse(s.(books := b), h, a);
  }

  lemma RotationKeepsSingleUse(s: State, h: nat, a: Answer)
    requires SingleUse(s) && h !in s.answers && a.Tokens? && a.refreshing
    ensures SingleUse(Finish(s, h, a))
  {
    var t := Finish(s, h, a);
    assert forall k :: k in t.flights ==> k in s.flights && t.flights[k] == s.flights[k];
    assert forall k, code :: k in t.answers && AnswersCode(t.answers[k], code) ==>
        k in s.answers && t.answers[k] == s.answers[k];
    assert NothingYet(t);
  }

  lemma StoreRefreshKeepsInv(cfg: Config, s: State, h: nat, id: string)
    requires Inv(cfg, s) && Enabled(s, StoreRefresh(h, id))
    ensures Extends(s.books, AfterStoreRefresh(cfg, s, h, id).books) && Inv(cfg, AfterStoreRefresh(cfg, s, h, id))
  {
    var f := s.flights[h];
    var b := WithRefresh(cfg, s.books, f, id, f.stage.claims.jti);
    assert id in s.books.lineage ==> LineageOK(s.books, id);
    WithRefreshExtends(cfg, s.books, f, id, f.stage.claims.jti);
    WithRefreshOK(cfg, s.books, f, id);
    BooksKeepHandlers(cfg, s, b);
    if f.CodeFlight? {
      CodeGrantOK(cfg, s.books, f, id);
      FinishKeepsHandlers(cfg, s.(books := b), h, Grant(f, f.stage.claims, id));
      RootKeepsSingleUse(cfg, s, h, id);
    } else {
      RefreshGrantOK(cfg, s.books, f, id);
      AtKeepsHandlers(cfg, s.(books := b), h, Rotating(f.stage.claims, id));
      SuccessorKeepsSingleUse(cfg, s, h, id);
    }
  }

  lemma RootKeepsSingleUse(cfg: Config, s: State, h: nat, id: string)
    requires SingleUse(s) && h in s.flights && s.flights[h].stage.Stored? && s.flights[h].CodeFlight?
    requires h !in s.answers && id !in s.books.lineage
    ensures SingleUse(AfterStoreRefresh(cfg, s, h, id))
  {
    var f, t := s.flights[h], AfterStoreRefresh(cfg, s, h, id);
    assert t.books.lineage == s.books.lineage[id := Lineage(f.req.code, "", 0)];
    assert Pristine(s.answers, s.books.lineage, f.req.code);
    assert forall k :: k in t.flights ==> k in s.flights && t.flights[k] == s.flights[k] && k != h;
    assert NothingYet(t);
  }

  lemma SuccessorKeepsSingleUse(cfg: Config, s: State, h: nat, id: string)
    requires SingleUse(s) && h in s.flights && s.flights[h].stage.Stored? && s.flights[h].RefreshFlight?
    requires s.flights[h].req.refreshToken in s.books.lineage && id !in s.books.lineage
    ensures SingleUse(AfterStoreRefresh(cfg, s, h, id))
  {
    var f, t := s.flights[h], AfterStoreRefresh(cfg, s, h, id);
    var parent := s.books.lineage[f.req.refreshToken];
    assert t.books.lineage == s.books.lineage[id := Lineage(parent.code, f.req.refreshToken, parent.depth + 1)];
    assert forall k :: k in t.flights && t.flights[k].CodeFlight? ==> k in s.flights && t.flights[k] == s.flights[k];
    assert NothingYet(t);
  }

  /** Every step extends the books and keeps the invariant. */
  lemma StepKeepsInv(cfg: Config, s: State, e: Event)
    requires Inv(cfg, s) && Enabled(s, e)
    ensures Extends(s.books, Step(cfg, s, e).books) && Inv(cfg, Step(cfg, s, e))
  {
    match e
    case Tick(_) => AmbientKeepsInv(cfg, s, e);
    case Register(_, _, _) => AmbientKeepsInv(cfg, s, e);
    case Authorize(_, _, _) => AmbientKeepsInv(cfg, s, e);
    case Revoke(_) => AmbientKeepsInv(cfg, s, e);
    case Redeem(h, req) => RedeemKeepsInv(cfg, s, h, req);
    case FetchRefresh(h, req) => FetchRefreshKeepsInv(cfg, s, h, req);
    case Check(h) => CheckKeepsInv(cfg, s, h);
    case LoadClient(h) => LoadClientKeepsInv(cfg, s, h);
    case StoreAccess(h, id) => StoreAccessKeepsInv(cfg, s, h, id);
    case StoreRefresh(h, id) => StoreRefreshKeepsInv(cfg, s, h, id);
    case Rotate(h) => RotateKeepsInv(cfg, s, h);
    case Crash(h) => RefusalKeepsInv(cfg, s, h, StoreFailed);
  }

  lemma AmbientKeepsInv(cfg: Config, s: State, e: Event)
    requires Inv(cfg, s) && Enabled(s, e) && (e.Tick? || e.Register? || e.Authorize? || e.Revoke?)
    ensures Extends(s.books, Step(cfg, s, e).books) && Inv(cfg, Step(cfg, s, e))
  {
    AmbientBooksOK(cfg, s, e);
    AmbientHistory(cfg, s, e);
    BooksKeepInv(cfg, s, Step(cfg, s, e).books);
  }

  lemma AmbientBooksOK(cfg: Config, s: State, e: Event)
    requires RowsOK(cfg, s.books) && Enabled(s, e) && (e.Tick? || e.Register? || e.Authorize? || e.Revoke?)
    ensures Extends(s.books, Step(cfg, s, e).books) && RowsOK(cfg, Step(cfg, s, e).books)
  {
    if e.Tick? {
      LaterOK(cfg, s.books, e.to);
    } else if e.Register? {
      WithClientExtends(s.books, e.id, e.registration, e.secretHash);
      WithClientOK(cfg, s.books, e.id, e.registration, e.secretHash);
    } else if e.Authorize? {
      WithCodeExtends(s.books, e.id, e.userID, e.authorization);
      WithCodeOK(cfg, s.books, e.id, e.userID, e.authorization);
    } else {
      WithRevocationOK(cfg, s.books, e.bearer);
    }
  }

  lemma LaterExtends(b: Books, to: nat)
    requires to >= b.now
    ensures Extends(b, b.(now := to)) && SameKeys(b, b.(now := to))
  {
  }

  lemma LaterOK(cfg: Config, b: Books, to: nat)
    requires RowsOK(cfg, b) && to >= b.now
    ensures Extends(b, b.(now := to)) && RowsOK(cfg, b.(now := to))
  {
    LaterExtends(b, to);
    SameKeysOK(cfg, b, b.(now := to));
  }

  lemma WithRevocationSameKeys(b: Books, bearer: Bearer)
    ensures SameKeys(b, WithRevocation(b, bearer))
  {
  }

  lemma WithRevocationOK(cfg: Config, b: Books, bearer: Bearer)
    requires RowsOK(cfg, b)
    ensures Extends(b, WithRevocation(b, bearer)) && RowsOK(cfg, WithRevocation(b, bearer))
  {
    WithRevocationExtends(b, bearer);
    WithRevocationSameKeys(b, bearer);
    SameKeysOK(cfg, b, WithRevocation(b, bearer));
  }

  lemma AmbientHistory(cfg: Config, s: State, e: Event)
    requires Enabled(s, e) && (e.Tick? || e.Register? || e.Authorize? || e.Revoke?)
    ensures var t := Step(cfg, s, e);
            && t == s.(books := t.books)
            && t.books.lineage == s.books.lineage && t.books.evidence == s.books.evidence
  {
  }
}
