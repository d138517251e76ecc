/** The authorization server as a state machine. Both grant handlers are cut at
    their store calls, so any number of them interleave with each other and with
    registrations, authorizations and revocations. `GetAndMarkUsed` is one atomic
    step. Ids and codes are fresh, and no token is forged. */
module OAuthServer {
  import opened Text
  import opened OAuthDomain
  import opened Wrappers

  /** How far a grant handler has come: it has fetched its row; passed the checks on
      it; passed the client check; stored the access token; stored a refreshed
      token but not yet rotated the old one. */
  datatype Stage =
    | Fetched
    | Verified
    | Cleared
    | Stored(claims: Claims)
    | Rotating(claims: Claims, refreshID: string)

  /** A grant handler at work, with the row it fetched. */
  datatype Flight =
    | CodeFlight(req: TokenRequest, code: Code, stage: Stage)
    | RefreshFlight(req: TokenRequest, token: Refresh, stage: Stage)

  datatype Answer =
    | Tokens(req: TokenRequest, refreshing: bool, claims: Claims, refreshID: string, scope: string)
    | Refused(error: Error)

  /** What the request that redeemed a code presented, and when it was checked. */
  datatype Evidence = Evidence(redirectURI: string, verifier: string, checkedAt: int, resource: string)

  /** Where a refresh token comes from: its code, the token it replaces ("" for
      the first one of a code), and how many replacements led to it. */
  datatype Lineage = Lineage(code: string, parent: string, depth: nat)

  /** The clock, the four stores, and a history: evidence per code, the code behind
      every access token, the lineage of every refresh token, and all claims ever
      signed. */
  datatype Books = Books(
    now: nat,
    clients: map<string, Client>,
    codes: map<string, Code>,
    access: map<string, Access>,
    refresh: map<string, Refresh>,
    evidence: map<string, Evidence>,
    origin: map<string, string>,
    lineage: map<string, Lineage>,
    issued: set<Claims>)

  /** The books, the handlers at work, and the answers given. */
  datatype State = State(books: Books, flights: map<nat, Flight>, answers: map<nat, Answer>)

  function Initial(now: nat): State {
    State(Books(now, map[], map[], map[], map[], map[], map[], map[], {}), map[], map[])
  }

  datatype Event =
    | Tick(to: nat)
    | Register(id: string, registration: RegistrationRequest, secretHash: string)
    | Authorize(id: string, userID: string, authorization: AuthorizeRequest)
    | Redeem(h: nat, req: TokenRequest)
    | FetchRefresh(h: nat, req: TokenRequest)
    | Check(h: nat)
    | LoadClient(h: nat)
    | StoreAccess(h: nat, id: string)
    | StoreRefresh(h: nat, id: string)
    | Rotate(h: nat)
    | Crash(h: nat)
    | Revoke(bearer: Bearer)

  // ---- what a handler works with -----------------------------------------

  function UserOf(f: Flight): string { if f.CodeFlight? then f.code.userID else f.token.userID }

  function ScopesOf(f: Flight): seq<string> { if f.CodeFlight? then f.code.scopes else f.token.scopes }

  function AudienceOf(cfg: Config, f: Flight): string {
    if f.CodeFlight? then Audience(cfg, f.req, f.code) else f.token.audience
  }

  /** The code a handler's grant descends from. */
  function CodeOf(b: Books, f: Flight): string {
    if f.CodeFlight? then f.req.code
    else if f.req.refreshToken in b.lineage then b.lineage[f.req.refreshToken].code
    else ""
  }

  function NewAccess(cfg: Config, now: nat, f: Flight): Access {
    Access(f.req.clientID, UserOf(f), ScopesOf(f), AudienceOf(cfg, f), now + ACCESS_TTL, false)
  }

  function NewClaims(cfg: Config, now: nat, f: Flight, id: string): Claims {
    ClaimsOf(id, NewAccess(cfg, now, f), now)
  }

  function NewRefresh(cfg: Config, now: nat, f: Flight, accessID: string): Refresh {
    Refresh(accessID, f.req.clientID, UserOf(f), ScopesOf(f), AudienceOf(cfg, f), now + REFRESH_TTL, false, "")
  }

  /** The lineage of the refresh token a handler stores. */
  function NewLineage(b: Books, f: Flight): Lineage {
    if f.CodeFlight? || f.req.refreshToken !in b.lineage then Lineage(CodeOf(b, f), "", 0)
    else Lineage(CodeOf(b, f), f.req.refreshToken, b.lineage[f.req.refreshToken].depth + 1)
  }

  function FlightCheck(cfg: Config, now: nat, f: Flight): Option<Error> {
    if f.CodeFlight? then CodeCheck(cfg, f.req, f.code, now) else RefreshCheck(f.req, f.token, now)
  }

  // ---- what one step does to the books -----------------------------------

  function WithClient(b: Books, id: string, r: RegistrationRequest, secretHash: string): Books {
    match Registered(r, secretHash)
    case Success(c) => b.(clients := b.clients[id := c])
    case Failure(_) => b
  }

  function WithCode(b: Books, id: string, userID: string, a: AuthorizeRequest): Books {
    match Authorized(b.clients, userID, a, b.now)
    case Success(c) => b.(codes := b.codes[id := c])
    case Failure(_) => b
  }

  /** GetAndMarkUsed finds a code only while it is unused. */
  predicate Redeemable(b: Books, code: string) {
    code in b.codes && !b.codes[code].used
  }

  function WithUsed(b: Books, code: string): Books
    requires code in b.codes
  {
    b.(codes := b.codes[code := b.codes[code].(used := true)])
  }

  function WithEvidence(cfg: Config, b: Books, f: Flight): Books {
    if f.CodeFlight? then
      b.(evidence := b.evidence[f.req.code :=
           Evidence(f.req.redirectURI, f.req.codeVerifier, b.now, f.req.resource)])
    else b
  }

  function WithAccess(cfg: Config, b: Books, f: Flight, id: string): Books {
    b.(access := b.access[id := NewAccess(cfg, b.now, f)],
       origin := b.origin[id := CodeOf(b, f)],
       issued := b.issued + {NewClaims(cfg, b.now, f, id)})
  }

  function WithRefresh(cfg: Config, b: Books, f: Flight, id: string, accessID: string): Books {
    b.(refresh := b.refresh[id := NewRefresh(cfg, b.now, f, accessID)],
       lineage := b.lineage[id := NewLineage(b, f)])
  }

  /** RotateRefreshToken sets the successor and also revokes the row. */
  function WithRotation(b: Books, prev: string, next: string): Books {
    if prev in b.refresh then
      b.(refresh := b.refresh[prev := b.refresh[prev].(rotatedTo := next, revoked := true)])
    else b
  }

  /** Revocation, after section 2 of RFC 7009: a parsing JWT revokes its access
      token, any other string the refresh token of that id; the text of an expired
      JWT is the id of no refresh token. */
  function WithRevocation(b: Books, bearer: Bearer): Books {
    match Parse(bearer, b.now)
    case Some(c) =>
      if c.jti in b.access then b.(access := b.access[c.jti := b.access[c.jti].(revoked := true)]) else b
    case None =>
      if bearer.Opaque? && bearer.text in b.refresh then
        b.(refresh := b.refresh[bearer.text := b.refresh[bearer.text].(revoked := true)])
      else b
  }

  // ---- steps -------------------------------------------------------------

  function Staged(f: Flight, stage: Stage): Flight {
    f.(stage := stage)
  }

  function At(s: State, h: nat, stage: Stage): State
    requires h in s.flights
  {
    s.(flights := s.flights[h := Staged(s.flights[h], stage)])
  }

  function Finish(s: State, h: nat, a: Answer): State {
    s.(flights := s.flights - {h}, answers := s.answers[h := a])
  }

  function Grant(f: Flight, claims: Claims, refreshID: string): Answer {
    Tokens(f.req, f.RefreshFlight?, claims, refreshID, Join(ScopesOf(f), ' '))
  }

  function AfterRedeem(s: State, h: nat, req: TokenRequest): State {
    if Redeemable(s.books, req.code) then
      var b := WithUsed(s.books, req.code);
      s.(books := b, flights := s.flights[h := CodeFlight(req, b.codes[req.code], Fetched)])
    else Finish(s, h, Refused(InvalidGrant))
  }

  function AfterFetchRefresh(s: State, h: nat, req: TokenRequest): State {
    if req.refreshToken in s.books.refresh then
      s.(flights := s.flights[h := RefreshFlight(req, s.books.refresh[req.refreshToken], Fetched)])
    else Finish(s, h, Refused(InvalidGrant))
  }

  function AfterCheck(cfg: Config, s: State, h: nat): State
    requires h in s.flights
  {
    match FlightCheck(cfg, s.books.now, s.flights[h])
    case Some(e) => Finish(s, h, Refused(e))
    case None => At(s.(books := WithEvidence(cfg, s.books, s.flights[h])), h, Verified)
  }

  function AfterLoadClient(cfg: Config, s: State, h: nat): State
    requires h in s.flights
  {
    match ClientCheck(cfg, s.books.clients, s.flights[h].req)
    case Some(e) => Finish(s, h, Refused(e))
    case None => At(s, h, Cleared)
  }

  function AfterStoreAccess(cfg: Config, s: State, h: nat, id: string): State
    requires h in s.flights
  {
    var f := s.flights[h];
    At(s.(books := WithAccess(cfg, s.books, f, id)), h, Stored(NewClaims(cfg, s.books.now, f, id)))
  }

  function AfterStoreRefresh(cfg: Config, s: State, h: nat, id: string): State
    requires h in s.flights && s.flights[h].stage.Stored?
  {
    var f := s.flights[h];
    var stored := s.(books := WithRefresh(cfg, s.books, f, id, f.stage.claims.jti));
    if f.CodeFlight? then Finish(stored, h, Grant(f, f.stage.claims, id))
    else At(stored, h, Rotating(f.stage.claims, id))
  }

  function AfterRotate(s: State, h: nat): State
    requires h in s.flights && s.flights[h].stage.Rotating?
  {
    var f := s.flights[h];
    Finish(s.(books := WithRotation(s.books, f.req.refreshToken, f.stage.refreshID)), h,
           Grant(f, f.stage.claims, f.stage.refreshID))
  }

  predicate Enabled(s: State, e: Event) {
    match e
    case Tick(to) => to >= s.books.now
    case Register(id, _, _) => id !in s.books.clients
    case Authorize(id, _, _) => id !in s.books.codes
    case Redeem(h, _) => h !in s.flights && h !in s.answers
    case FetchRefresh(h, _) => h !in s.flights && h !in s.answers
    case Check(h) => h in s.flights && s.flights[h].stage == Fetched
    case LoadClient(h) => h in s.flights && s.flights[h].stage == Verified
    case StoreAccess(h, id) => h in s.flights && s.flights[h].stage == Cleared && id !in s.books.access
    case StoreRefresh(h, id) => h in s.flights && s.flights[h].stage.Stored? && id !in s.books.refresh && id != ""
    case Rotate(h) => h in s.flights && s.flights[h].stage.Rotating?
    case Crash(h) => h in s.flights
    case Revoke(bearer) => bearer.Jwt? ==> bearer.claims in s.books.issued
  }

  function Step(cfg: Config, s: State, e: Event): State
    requires Enabled(s, e)
  {
    match e
    case Tick(to) => s.(books := s.books.(now := to))
    case Register(id, r, secretHash) => s.(books := WithClient(s.books, id, r, secretHash))
    case Authorize(id, userID, a) => s.(books := WithCode(s.books, id, userID, a))
    case Redeem(h, req) => AfterRedeem(s, h, req)
    case FetchRefresh(h, req) => AfterFetchRefresh(s, h, req)
    case Check(h) => AfterCheck(cfg, s, h)
    case LoadClient(h) => AfterLoadClient(cfg, s, h)
    case StoreAccess(h, id) => AfterStoreAccess(cfg, s, h, id)
    case StoreRefresh(h, id) => AfterStoreRefresh(cfg, s, h, id)
    case Rotate(h) => AfterRotate(s, h)
    case Crash(h) => Finish(s, h, Refused(StoreFailed))
    case Revoke(bearer) => s.(books := WithRevocation(s.books, bearer))
  }

  function Run(cfg: Config, s: State, es: seq<Event>): Option<State>
    decreases |es|
  {
    if es == [] then Some(s)
    else if Enabled(s, es[0]) then Run(cfg, Step(cfg, s, es[0]), es[1..])
    else None
  }

  /** The state `s` is reached by the run `es` from an empty server. */
  predicate ReachedBy(cfg: Config, start: nat, es: seq<Event>, s: State) {
    Run(cfg, Initial(start), es) == Some(s)
  }

  lemma {:induction false} RunAppend(cfg: Config, s: State, es: seq<Event>, fs: seq<Event>)
    ensures Run(cfg, s, es + fs) ==
            if Run(cfg, s, es).Some? then Run(cfg, Run(cfg, s, es).value, fs) else None
    decreases |es|
  {
    if es == [] {
      assert es + fs == fs;
    } else if Enabled(s, es[0]) {
      assert (es + fs)[1..] == es[1..] + fs;
      RunAppend(cfg, Step(cfg, s, es[0]), es[1..], fs);
    }
  }

  lemma RunSnoc(cfg: Config, s: State, es: seq<Event>, e: Event)
    requires Run(cfg, s, es).Some? && Enabled(Run(cfg, s, es).value, e)
    ensures Run(cfg, s, es + [e]) == Some(Step(cfg, Run(cfg, s, es).value, e))
  {
    RunAppend(cfg, s, es, [e]);
    assert [e][1..] == [];
  }

  // ---- validation of a bearer token --------------------------------------

  datatype TokenInfo = TokenInfo(userID: string, clientID: string, clientName: string, scopes: seq<string>,
                                 audience: string)

  /** ValidateAccessToken. */
  function Validate(cfg: Config, b: Books, bearer: Bearer): Result<TokenInfo> {
    match Parse(bearer, b.now)
    case None => Failure(TokenInvalid)
    case Some(c) =>
      if c.jti !in b.access then Failure(TokenInvalid)
      else if b.access[c.jti].revoked then Failure(TokenRevoked)
      else if b.now > b.access[c.jti].expiresAt then Failure(TokenExpired)
      else if c.aud != cfg.serverURL then Failure(TokenInvalid)
      else
        Success(TokenInfo(c.sub, c.clientID, if c.clientID in b.clients then b.clients[c.clientID].name else "",
                          Fields(c.scope), c.aud))
  }
}
