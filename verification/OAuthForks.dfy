/** What unsafe steps do: from every reachable state with a valid token, two handlers
    that overlap on it leave two valid tokens in its place, and so does a handler that
    stops before it links a successor, once the old token is shown again. Both happen:
    the last part runs an empty server into either. */
module OAuthForks {
  import opened OAuthChains
  import opened OAuthDomain
  import opened OAuthGrants
  import opened OAuthRotation
  import opened OAuthSafety
  import opened OAuthServer
  import opened Wrappers

  // ---- a refresh that completes ------------------------------------------

  /** What a completed refresh leaves in the books. */
  function Refreshed(cfg: Config, b: Books, f: Flight, accessID: string, refreshID: string): Books {
    var stored := WithRefresh(cfg, WithAccess(cfg, b, f, accessID), f, refreshID, accessID);
    WithRotation(stored, f.req.refreshToken, refreshID)
  }

  /** One event in front of a run. */
  lemma {:induction false} Prepend(cfg: Config, s: State, e: Event, es: seq<Event>) returns (fs: seq<Event>)
    requires Enabled(s, e)
    ensures Run(cfg, s, fs) == Run(cfg, Step(cfg, s, e), es)
  {
    fs := [e] + es;
    assert fs[0] == e && fs[1..] == es;
  }

  lemma StageDoesNotMatter(cfg: Config, b: Books, f: Flight, stage: Stage, id: string, accessID: string)
    ensures WithAccess(cfg, b, Staged(f, stage), id) == WithAccess(cfg, b, f, id)
    ensures WithRefresh(cfg, b, Staged(f, stage), id, accessID) == WithRefresh(cfg, b, f, id, accessID)
    ensures NewClaims(cfg, b.now, Staged(f, stage), id) == NewClaims(cfg, b.now, f, id)
  {
  }

  /** Checks that pass. */
  lemma {:induction false} Admission(cfg: Config, s: State, h: nat, es: seq<Event>) returns (fs: seq<Event>)
    requires h in s.flights && s.flights[h].RefreshFlight? && s.flights[h].stage == Fetched
    requires FlightCheck(cfg, s.books.now, s.flights[h]) == None
    requires ClientCheck(cfg, s.books.clients, s.flights[h].req) == None
    ensures Run(cfg, s, fs) == Run(cfg, At(s, h, Cleared), es)
  {
    var s1 := At(s, h, Verified);
    assert s1.flights[h := Staged(s1.flights[h], Cleared)] == s.flights[h := Staged(s.flights[h], Cleared)];
    fs := Prepend(cfg, s1, LoadClient(h), es);
    fs := Prepend(cfg, s, Check(h), fs);
  }

  /** Both new tokens stored, the old one not yet rotated. */
  function Issued(cfg: Config, s: State, h: nat, f: Flight, accessID: string, refreshID: string): State {
    State(WithRefresh(cfg, WithAccess(cfg, s.books, f, accessID), f, refreshID, accessID),
          s.flights[h := Staged(f, Rotating(NewClaims(cfg, s.books.now, f, accessID), refreshID))], s.answers)
  }

  /** A completed refresh. */
  function Done(cfg: Config, s: State, h: nat, f: Flight, accessID: string, refreshID: string): State {
    State(Refreshed(cfg, s.books, f, accessID, refreshID), s.flights - {h},
          s.answers[h := Grant(f, NewClaims(cfg, s.books.now, f, accessID), refreshID)])
  }

  lemma AccessStored(cfg: Config, s: State, h: nat, f: Flight, accessID: string)
    requires h in s.flights && s.flights[h] == Staged(f, Cleared) && accessID !in s.books.access
    ensures Step(cfg, s, StoreAccess(h, accessID)) ==
              State(WithAccess(cfg, s.books, f, accessID),
                    s.flights[h := Staged(f, Stored(NewClaims(cfg, s.books.now, f, accessID)))], s.answers)
  {
    StageDoesNotMatter(cfg, s.books, f, Cleared, accessID, accessID);
  }

  lemma RefreshStored(cfg: Config, s: State, h: nat, f: Flight, claims: Claims, refreshID: string)
    requires h in s.flights && s.flights[h] == Staged(f, Stored(claims)) && refreshID !in s.books.refresh
    requires refreshID != ""
    ensures var t := Step(cfg, s, StoreRefresh(h, refreshID));
            && t.books == WithRefresh(cfg, s.books, f, refreshID, claims.jti)
            && t.flights ==
                 (if f.RefreshFlight? then s.flights[h := Staged(f, Rotating(claims, refreshID))] else s.flights - {h})
            && t.answers == if f.RefreshFlight? then s.answers else s.answers[h := Grant(f, claims, refreshID)]
  {
    StageDoesNotMatter(cfg, s.books, f, Stored(claims), refreshID, claims.jti);
  }

  lemma {:induction false} Issue(cfg: Config, s: State, h: nat, f: Flight, accessID: string, refreshID: string,
                                 es: seq<Event>)
    returns (fs: seq<Event>)
    requires f.RefreshFlight? && h in s.flights && s.flights[h] == Staged(f, Cleared)
    requires accessID !in s.books.access && refreshID !in s.books.refresh && refreshID != ""
    ensures Run(cfg, s, fs) == Run(cfg, Issued(cfg, s, h, f, accessID, refreshID), es)
  {
    AccessStored(cfg, s, h, f, accessID);
    var s1 := Step(cfg, s, StoreAccess(h, accessID));
    RefreshStored(cfg, s1, h, f, NewClaims(cfg, s.books.now, f, accessID), refreshID);
    assert Step(cfg, s1, StoreRefresh(h, refreshID)) == Issued(cfg, s, h, f, accessID, refreshID);
    fs := Prepend(cfg, s1, StoreRefresh(h, refreshID), es);
    fs := Prepend(cfg, s, StoreAccess(h, accessID), fs);
  }

  /** A handler whose row is valid and whose client is accepted stores both tokens. */
  lemma {:induction false} RefreshIssues(cfg: Config, s: State, h: nat, f: Flight, accessID: string, refreshID: string,
                                         es: seq<Event>)
    returns (fs: seq<Event>)
    requires h in s.flights && s.flights[h] == f && f.RefreshFlight? && f.stage == Fetched
    requires FlightCheck(cfg, s.books.now, f) == None && ClientCheck(cfg, s.books.clients, f.req) == None
    requires accessID !in s.books.access && refreshID !in s.books.refresh && refreshID != ""
    ensures Run(cfg, s, fs) == Run(cfg, Issued(cfg, s, h, f, accessID, refreshID), es)
  {
    var s1 := At(s, h, Cleared);
    assert Issued(cfg, s1, h, f, accessID, refreshID) == Issued(cfg, s, h, f, accessID, refreshID);
    fs := Issue(cfg, s1, h, f, accessID, refreshID, es);
    fs := Admission(cfg, s, h, fs);
  }

  /** Such a handler completes. */
  lemma {:induction false} RefreshCompletes(cfg: Config, s: State, h: nat, f: Flight, accessID: string,
                                            refreshID: string)
    returns (fs: seq<Event>)
    requires h in s.flights && s.flights[h] == f && f.RefreshFlight? && f.stage == Fetched
    requires FlightCheck(cfg, s.books.now, f) == None && ClientCheck(cfg, s.books.clients, f.req) == None
    requires accessID !in s.books.access && refreshID !in s.books.refresh && refreshID != ""
    ensures Run(cfg, s, fs) == Some(Done(cfg, s, h, f, accessID, refreshID))
  {
    var s2 := Issued(cfg, s, h, f, accessID, refreshID);
    Concluded(cfg, s2, h, f, NewClaims(cfg, s.books.now, f, accessID), refreshID);
    assert s2.flights - {h} == s.flights - {h};
    fs := Prepend(cfg, s2, Rotate(h), []);
    fs := RefreshIssues(cfg, s, h, f, accessID, refreshID, fs);
  }

  lemma Concluded(cfg: Config, s: State, h: nat, f: Flight, claims: Claims, refreshID: string)
    requires f.RefreshFlight? && h in s.flights && s.flights[h] == Staged(f, Rotating(claims, refreshID))
    ensures Step(cfg, s, Rotate(h)) ==
              State(WithRotation(s.books, f.req.refreshToken, refreshID), s.flights - {h},
                    s.answers[h := Grant(f, claims, refreshID)])
  {
  }

  /** A handler that runs undisturbed exchanges a valid token. */
  lemma {:induction false} ValidTokenIsExchanged(cfg: Config, s: State, req: TokenRequest, h: nat, x: string, r: string)
    returns (fs: seq<Event>, t: State)
    requires req.refreshToken in s.books.refresh
    requires RefreshCheck(req, s.books.refresh[req.refreshToken], s.books.now) == None
    requires ClientCheck(cfg, s.books.clients, req) == None
    requires h !in s.flights && h !in s.answers && x !in s.books.access && r !in s.books.refresh && r != ""
    ensures var f := RefreshFlight(req, s.books.refresh[req.refreshToken], Fetched);
            Run(cfg, s, fs) == Some(t) && t == Done(cfg, s, h, f, x, r)
  {
    var f := RefreshFlight(req, s.books.refresh[req.refreshToken], Fetched);
    var s1 := s.(flights := s.flights[h := f]);
    t := Done(cfg, s, h, f, x, r);
    assert s1.flights - {h} == s.flights - {h};
    fs := RefreshCompletes(cfg, s1, h, f, x, r);
    fs := Prepend(cfg, s, FetchRefresh(h, req), fs);
  }

  // ---- two handlers on one token -----------------------------------------

  /** A second refresh of the same row leaves the first new token as it is. */
  lemma TwoChildren(cfg: Config, b: Books, f: Flight, x: string, y: string, r: string, q: string)
    requires f.RefreshFlight? && f.req.refreshToken in b.refresh && f.req.refreshToken in b.lineage
    requires r != q && r !in b.refresh && q !in b.refresh && r !in b.lineage && q !in b.lineage
    ensures var t := Refreshed(cfg, Refreshed(cfg, b, f, x, r), f, y, q);
            && r in t.refresh && q in t.refresh && r in t.lineage && q in t.lineage
            && IsValid(t.refresh[r], t.now) && IsValid(t.refresh[q], t.now)
            && t.lineage[r] == t.lineage[q] && t.lineage[r].parent == f.req.refreshToken
  {
  }

  lemma RefreshedKeys(cfg: Config, b: Books, f: Flight, accessID: string, refreshID: string)
    ensures var t := Refreshed(cfg, b, f, accessID, refreshID);
            && t.now == b.now && t.clients == b.clients
            && (forall id :: id in t.access ==> id in b.access || id == accessID)
            && (forall id :: id in t.refresh ==> id in b.refresh || id == refreshID)
  {
  }

  /** Two handlers that hold the same valid row complete one after the other. */
  lemma {:induction false} OneThenOther(cfg: Config, s: State, f: Flight, h: nat, k: nat,
                                        x: string, y: string, r: string, q: string)
    returns (fs: seq<Event>, t: State)
    requires h != k && h in s.flights && k in s.flights && s.flights[h] == f && s.flights[k] == f
    requires f.RefreshFlight? && f.stage == Fetched
    requires FlightCheck(cfg, s.books.now, f) == None && ClientCheck(cfg, s.books.clients, f.req) == None
    requires x != y && x !in s.books.access && y !in s.books.access
    requires r != q && r !in s.books.refresh && q !in s.books.refresh && r != "" && q != ""
    ensures Run(cfg, s, fs) == Some(t) && t.flights == s.flights - {h} - {k}
    ensures t.books == Refreshed(cfg, Refreshed(cfg, s.books, f, x, r), f, y, q)
  {
    var s1 := Done(cfg, s, h, f, x, r);
    RefreshedKeys(cfg, s.books, f, x, r);
    t := Done(cfg, s1, k, f, y, q);
    var es := RefreshCompletes(cfg, s, h, f, x, r);
    var es' := RefreshCompletes(cfg, s1, k, f, y, q);
    RunAppend(cfg, s, es, es');
    fs := es + es';
  }

  lemma {:induction false} BothFetch(cfg: Config, s: State, f: Flight, h: nat, k: nat, es: seq<Event>)
    returns (fs: seq<Event>)
    requires h != k && h !in s.flights && h !in s.answers && k !in s.flights && k !in s.answers
    requires f.RefreshFlight? && f.stage == Fetched && f.req.refreshToken in s.books.refresh
    requires f.token == s.books.refresh[f.req.refreshToken]
    ensures Run(cfg, s, fs) == Run(cfg, s.(flights := s.flights[h := f][k := f]), es)
  {
    fs := Prepend(cfg, s.(flights := s.flights[h := f]), FetchRefresh(k, f.req), es);
    fs := Prepend(cfg, s, FetchRefresh(h, f.req), fs);
  }

  /** From every reachable state with a valid token, two overlapping handlers with the
      credentials of its client leave two valid tokens in its place, and the chain is
      no line any more. */
  lemma {:induction false} OverlapForks(cfg: Config, start: nat, es: seq<Event>, s: State, req: TokenRequest, h: nat,
                                        k: nat, x: string, y: string, r: string, q: string)
    returns (fs: seq<Event>, t: State)
    requires ReachedBy(cfg, start, es, s)
    requires req.refreshToken in s.books.refresh
    requires RefreshCheck(req, s.books.refresh[req.refreshToken], s.books.now) == None
    requires ClientCheck(cfg, s.books.clients, req) == None
    requires h != k
    requires h !in s.flights && h !in s.answers && k !in s.flights && k !in s.answers
    requires x != y && x !in s.books.access && y !in s.books.access
    requires r != q && r !in s.books.refresh && q !in s.books.refresh && r != "" && q != ""
    ensures Run(cfg, s, fs) == Some(t) && t.flights == s.flights
    ensures TwoValidTokens(t, r, q, req.refreshToken) && !Linear(t)
  {
    ReachedInv(cfg, start, es, s);
    StoredHasLineage(cfg, s.books, req.refreshToken);
    FreshId(cfg, s.books, r);
    FreshId(cfg, s.books, q);
    var f := RefreshFlight(req, s.books.refresh[req.refreshToken], Fetched);
    fs, t := BothRun(cfg, s, f, h, k, x, y, r, q);
    TwoChildren(cfg, s.books, f, x, y, r, q);
    SharedPositionIsNoLine(t, r, q, req.refreshToken);
  }

  lemma StoredHasLineage(cfg: Config, b: Books, r: string)
    requires RowsOK(cfg, b) && r in b.refresh
    ensures r in b.lineage
  {
    assert RefreshOK(cfg, b, r);
  }

  lemma SharedPositionIsNoLine(s: State, r: string, q: string, parent: string)
    requires TwoValidTokens(s, r, q, parent)
    ensures !Linear(s)
  {
  }

  lemma {:induction false} BothRun(cfg: Config, s: State, f: Flight, h: nat, k: nat, x: string, y: string, r: string,
                                   q: string)
    returns (fs: seq<Event>, t: State)
    requires f.RefreshFlight? && f.stage == Fetched && f.req.refreshToken in s.books.refresh
    requires f.token == s.books.refresh[f.req.refreshToken]
    requires RefreshCheck(f.req, f.token, s.books.now) == None && ClientCheck(cfg, s.books.clients, f.req) == None
    requires h != k && h !in s.flights && h !in s.answers && k !in s.flights && k !in s.answers
    requires x != y && x !in s.books.access && y !in s.books.access
    requires r != q && r !in s.books.refresh && q !in s.books.refresh && r != "" && q != ""
    ensures Run(cfg, s, fs) == Some(t) && t.flights == s.flights
    ensures t.books == Refreshed(cfg, Refreshed(cfg, s.books, f, x, r), f, y, q)
  {
    var s1 := s.(flights := s.flights[h := f][k := f]);
    fs, t := OneThenOther(cfg, s1, f, h, k, x, y, r, q);
    fs := BothFetch(cfg, s, f, h, k, fs);
    assert t.flights == s.flights;
  }

  /** Two different valid tokens at one position, both made to replace `parent`. */
  predicate TwoValidTokens(s: State, r: string, q: string, parent: string) {
    && r != q && r in s.books.refresh && q in s.books.refresh && r in s.books.lineage && q in s.books.lineage
    && IsValid(s.books.refresh[r], s.books.now) && IsValid(s.books.refresh[q], s.books.now)
    && s.books.lineage[r] == s.books.lineage[q] && s.books.lineage[r].parent == parent
  }

  // ---- a torn rotation ---------------------------------------------------

  /** A handler stops between its last two store calls, from a state whose chains are
      lines: the old token stays unlinked beside its successor, and each of the two is
      valid exactly when it is neither revoked nor expired. */
  lemma TornRotation(cfg: Config, start: nat, es: seq<Event>, s: State, h: nat)
    requires ReachedBy(cfg, start, es, s) && Linear(s) && h in s.flights && s.flights[h].stage.Rotating?
    ensures var t, r, q := Step(cfg, s, Crash(h)), s.flights[h].req.refreshToken, s.flights[h].stage.refreshID;
            && !Linear(t) && !Succeeded(t, r)
            && r != q && r in t.books.refresh && q in t.books.refresh && q in t.books.lineage
            && t.books.lineage[q].parent == r && t.books.refresh[r].rotatedTo == ""
            && (forall x :: x == r || x == q ==>
                  (IsValid(t.books.refresh[x], t.books.now) <==>
                     !t.books.refresh[x].revoked && t.books.now <= t.books.refresh[x].expiresAt))
  {
    ReachedRotations(cfg, start, es, s);
    TearBreaksLines(cfg, s, h);
    RotatingIsKnown(cfg, s, h);
    var r, q := s.flights[h].req.refreshToken, s.flights[h].stage.refreshID;
    assert LineageOK(s.books, q) && LinkOK(s.books, r) && LinkOK(s.books, q);
  }

  /** After the tear the old token, while neither revoked nor expired, is exchanged a
      second time by any handler with its client's credentials: its two successors
      share a position, and the first stays as valid as it was. */
  lemma {:induction false} TornTokenServesAgain(cfg: Config, start: nat, es: seq<Event>, s: State, h: nat,
                                                req: TokenRequest, k: nat, x: string, p: string)
    returns (fs: seq<Event>, u: State)
    requires ReachedBy(cfg, start, es, s) && Linear(s) && h in s.flights && s.flights[h].stage.Rotating?
    requires req.refreshToken == s.flights[h].req.refreshToken && req.refreshToken in s.books.refresh
    requires !s.books.refresh[req.refreshToken].revoked && s.books.now <= s.books.refresh[req.refreshToken].expiresAt
    requires s.books.refresh[req.refreshToken].clientID == req.clientID
    requires ClientCheck(cfg, s.books.clients, req) == None
    requires k !in s.flights && k !in s.answers && x !in s.books.access && p !in s.books.refresh && p != ""
    ensures var t, q := Step(cfg, s, Crash(h)), s.flights[h].stage.refreshID;
            && Run(cfg, t, fs) == Some(u) && k in u.answers && u.answers[k].Tokens? && u.answers[k].refreshID == p
            && q in s.books.refresh && q in u.books.refresh && u.books.refresh[q] == s.books.refresh[q]
            && (IsValid(s.books.refresh[q], s.books.now) ==> TwoValidTokens(u, q, p, req.refreshToken))
  {
    TornRotation(cfg, start, es, s, h);
    TornTokenKnown(cfg, start, es, s, h, p);
    var t := Step(cfg, s, Crash(h));
    fs, u := ValidTokenIsExchanged(cfg, t, req, k, x, p);
    var f := RefreshFlight(req, t.books.refresh[req.refreshToken], Fetched);
    OneMore(cfg, t.books, f, x, p, s.flights[h].stage.refreshID);
  }

  lemma TornTokenKnown(cfg: Config, start: nat, es: seq<Event>, s: State, h: nat, p: string)
    requires ReachedBy(cfg, start, es, s) && h in s.flights && s.flights[h].stage.Rotating? && p !in s.books.refresh
    ensures var r, q := s.flights[h].req.refreshToken, s.flights[h].stage.refreshID;
            && r in s.books.lineage && q in s.books.lineage && p !in s.books.lineage
            && s.books.lineage[q] == Lineage(s.books.lineage[r].code, r, s.books.lineage[r].depth + 1)
  {
    ReachedInv(cfg, start, es, s);
    RotatingIsKnown(cfg, s, h);
    FreshId(cfg, s.books, p);
  }

  /** A completed refresh adds one valid token and changes no row but the one shown. */
  lemma OneMore(cfg: Config, b: Books, f: Flight, x: string, p: string, q: string)
    requires f.RefreshFlight? && f.req.refreshToken in b.refresh && f.req.refreshToken in b.lineage
    requires p !in b.refresh && p !in b.lineage && q in b.refresh && q in b.lineage && q != f.req.refreshToken
    ensures var t, l := Refreshed(cfg, b, f, x, p), b.lineage[f.req.refreshToken];
            && t.now == b.now
            && q in t.refresh && t.refresh[q] == b.refresh[q] && q in t.lineage && t.lineage[q] == b.lineage[q]
            && p in t.refresh && IsValid(t.refresh[p], t.now)
            && p in t.lineage && t.lineage[p] == Lineage(l.code, f.req.refreshToken, l.depth + 1)
  {
  }

  // ---- both happen -------------------------------------------------------

  /** What a completed code exchange leaves in the books. */
  function Exchanged(cfg: Config, b: Books, f: Flight, x: string, r: string): Books
    requires f.req.code in b.codes
  {
    WithRefresh(cfg, WithAccess(cfg, WithEvidence(cfg, WithUsed(b, f.req.code), f), f, x), f, r, x)
  }

  /** A code handler that runs undisturbed on a request that passes every check. */
  lemma {:induction false} CodeIsExchanged(cfg: Config, s: State, req: TokenRequest, h: nat, x: string, r: string)
    returns (fs: seq<Event>, t: State)
    requires Redeemable(s.books, req.code) && h !in s.flights && h !in s.answers
    requires CodeCheck(cfg, req, s.books.codes[req.code], s.books.now) == None
    requires ClientCheck(cfg, s.books.clients, req) == None
    requires x !in s.books.access && r !in s.books.refresh && r != ""
    ensures var f := CodeFlight(req, s.books.codes[req.code].(used := true), Fetched);
            && Run(cfg, s, fs) == Some(t) && t.flights == s.flights && t.answers.Keys == s.answers.Keys + {h}
            && t.books == Exchanged(cfg, s.books, f, x, r)
  {
    var f := CodeFlight(req, s.books.codes[req.code].(used := true), Fetched);
    CodeAdmitted(cfg, s, req, h);
    var s1 := AfterRedeem(s, h, req);
    var s2 := AfterCheck(cfg, s1, h);
    var s3 := AfterLoadClient(cfg, s2, h);
    fs, t := StoreBoth(cfg, s3, h, f, x, r);
    fs := Prepend(cfg, s2, LoadClient(h), fs);
    fs := Prepend(cfg, s1, Check(h), fs);
    fs := Prepend(cfg, s, Redeem(h, req), fs);
    assert t.flights == s.flights;
  }

  lemma CodeAdmitted(cfg: Config, s: State, req: TokenRequest, h: nat)
    requires Redeemable(s.books, req.code) && h !in s.flights && h !in s.answers
    requires CodeCheck(cfg, req, s.books.codes[req.code], s.books.now) == None
    requires ClientCheck(cfg, s.books.clients, req) == None
    ensures var f := CodeFlight(req, s.books.codes[req.code].(used := true), Fetched);
            var s1 := AfterRedeem(s, h, req);
            && h in s1.flights && s1.flights[h].stage == Fetched
            && var s2 := AfterCheck(cfg, s1, h);
            && h in s2.flights && s2.flights[h].stage == Verified
            && var s3 := AfterLoadClient(cfg, s2, h);
            && s3.books == WithEvidence(cfg, WithUsed(s.books, req.code), f)
            && s3.flights == s.flights[h := Staged(f, Cleared)] && s3.answers == s.answers
  {
  }

  lemma {:induction false} StoreBoth(cfg: Config, s: State, h: nat, f: Flight, x: string, r: string)
    returns (fs: seq<Event>, t: State)
    requires f.CodeFlight? && h in s.flights && s.flights[h] == Staged(f, Cleared)
    requires x !in s.books.access && r !in s.books.refresh && r != ""
    ensures Run(cfg, s, fs) == Some(t) && t.flights == s.flights - {h} && t.answers.Keys == s.answers.Keys + {h}
    ensures t.books == WithRefresh(cfg, WithAccess(cfg, s.books, f, x), f, r, x)
  {
    AccessStored(cfg, s, h, f, x);
    var s1 := Step(cfg, s, StoreAccess(h, x));
    RefreshStored(cfg, s1, h, f, NewClaims(cfg, s.books.now, f, x), r);
    t := Step(cfg, s1, StoreRefresh(h, r));
    fs := Prepend(cfg, s1, StoreRefresh(h, r), []);
    fs := Prepend(cfg, s, StoreAccess(h, x), fs);
    assert t.flights == s.flights - {h};
  }

  const CLIENT := Client("", "app", ["app:/done"], ["authorization_code"], ["code"], MCP_SCOPES, "native", "none", true)

  /** A public client registers and a user authorizes it. */
  lemma {:induction false} FirstCode(cfg: Config, verifier: string) returns (es: seq<Event>, s: State)
    requires verifier != "" && cfg.s256(verifier) != ""
    ensures ReachedBy(cfg, 0, es, s) && s.flights == map[] && s.answers == map[]
    ensures s.books == Initial(0).books.(
              clients := map["client" := CLIENT],
              codes := map["code" :=
                Code("client", "user", "app:/done", MCP_SCOPES, cfg.s256(verifier), "", 0, CODE_TTL, false)])
  {
    var r := RegistrationRequest("app", ["app:/done"], [], [], [], "", "");
    var a := AuthorizeRequest("code", "client", "app:/done", "", cfg.s256(verifier), "S256", "");
    assert Registered(r, "") == Success(CLIENT);
    var s1 := Step(cfg, Initial(0), Register("client", r, ""));
    assert s1.books.clients == map["client" := CLIENT];
    assert "app:/done" in CLIENT.redirectURIs && "authorization_code" in CLIENT.grantTypes;
    s := Step(cfg, s1, Authorize("code", "user", a));
    es := Prepend(cfg, s1, Authorize("code", "user", a), []);
    es := Prepend(cfg, Initial(0), Register("client", r, ""), es);
  }

  const REFRESH := TokenRequest("", "", "client", "", "", "first", "")

  /** The client exchanges the code: its first refresh token can be exchanged in turn. */
  lemma {:induction false} FirstToken(cfg: Config, verifier: string) returns (es: seq<Event>, s: State)
    requires verifier != "" && cfg.s256(verifier) != ""
    ensures ReachedBy(cfg, 0, es, s) && s.flights == map[] && s.answers.Keys == {0}
    ensures s.books.lineage == map["first" := Lineage("code", "", 0)]
    ensures s.books.refresh.Keys == {"first"} && s.books.access.Keys == {"access"}
    ensures RefreshCheck(REFRESH, s.books.refresh["first"], s.books.now) == None
    ensures ClientCheck(cfg, s.books.clients, REFRESH) == None && Linear(s)
  {
    var req := TokenRequest("code", "app:/done", "client", "", verifier, "", "");
    var before, s0 := FirstCode(cfg, verifier);
    var fs;
    fs, s := CodeIsExchanged(cfg, s0, req, 0, "access", "first");
    es := before + fs;
    RunAppend(cfg, Initial(0), before, fs);
  }

  /** Some run leaves two valid tokens at one position of a chain. */
  lemma ForksHappen(cfg: Config, verifier: string) returns (es: seq<Event>, s: State)
    requires verifier != "" && cfg.s256(verifier) != ""
    ensures ReachedBy(cfg, 0, es, s) && TwoValidTokens(s, "second", "third", "first") && !Linear(s)
  {
    var before, s0 := FirstToken(cfg, verifier);
    var fs;
    fs, s := OverlapForks(cfg, 0, before, s0, REFRESH, 1, 2, "b", "c", "second", "third");
    es := before + fs;
    RunAppend(cfg, Initial(0), before, fs);
  }

  /** Some run tears a rotation, and the same two tokens come of it. */
  lemma {:induction false} TearsHappen(cfg: Config, verifier: string)
    returns (es: seq<Event>, s: State, fs: seq<Event>, u: State)
    requires verifier != "" && cfg.s256(verifier) != ""
    ensures ReachedBy(cfg, 0, es, s) && Linear(s) && 1 in s.flights && s.flights[1].stage.Rotating?
    ensures Run(cfg, Step(cfg, s, Crash(1)), fs) == Some(u) && TwoValidTokens(u, "second", "third", "first")
  {
    var before, s0 := FirstToken(cfg, verifier);
    var mid;
    mid, s := Rotate1(cfg, s0);
    es := before + mid;
    RunAppend(cfg, Initial(0), before, mid);
    fs, u := TornTokenServesAgain(cfg, 0, es, s, 1, REFRESH, 2, "c", "third");
  }

  /** A handler stores the second token and has yet to link it. */
  lemma {:induction false} Rotate1(cfg: Config, s: State) returns (es: seq<Event>, t: State)
    requires s.flights == map[] && s.answers.Keys == {0} && s.books.lineage == map["first" := Lineage("code", "", 0)]
    requires s.books.refresh.Keys == {"first"} && s.books.access.Keys == {"access"}
    requires RefreshCheck(REFRESH, s.books.refresh["first"], s.books.now) == None
    requires ClientCheck(cfg, s.books.clients, REFRESH) == None
    ensures Run(cfg, s, es) == Some(t) && Linear(t) && t.flights.Keys == {1} && t.answers == s.answers
    ensures t.flights[1].stage.Rotating? && t.flights[1].stage.refreshID == "second" && t.flights[1].req == REFRESH
    ensures t.books.refresh.Keys == {"first", "second"} && t.books.access.Keys == {"access", "b"}
    ensures t.books.now == s.books.now && t.books.clients == s.books.clients
    ensures t.books.refresh["first"] == s.books.refresh["first"] && IsValid(t.books.refresh["second"], t.books.now)
  {
    var f := RefreshFlight(REFRESH, s.books.refresh["first"], Fetched);
    es := HalfRefresh(cfg, s, f, 1, "b", "second");
    t := Issued(cfg, s, 1, f, "b", "second");
    SecondStored(cfg, s, f);
    TwoInLine(t, 1);
  }

  lemma {:induction false} HalfRefresh(cfg: Config, s: State, f: Flight, h: nat, x: string, r: string)
    returns (es: seq<Event>)
    requires f.RefreshFlight? && f.stage == Fetched && f.req.refreshToken in s.books.refresh
    requires f.token == s.books.refresh[f.req.refreshToken]
    requires RefreshCheck(f.req, f.token, s.books.now) == None && ClientCheck(cfg, s.books.clients, f.req) == None
    requires h !in s.flights && h !in s.answers && x !in s.books.access && r !in s.books.refresh && r != ""
    ensures Run(cfg, s, es) == Some(Issued(cfg, s, h, f, x, r))
  {
    var s1 := s.(flights := s.flights[h := f]);
    assert Issued(cfg, s1, h, f, x, r).flights == Issued(cfg, s, h, f, x, r).flights;
    es := RefreshIssues(cfg, s1, h, f, x, r, []);
    es := Prepend(cfg, s, FetchRefresh(h, f.req), es);
  }

  lemma SecondStored(cfg: Config, s: State, f: Flight)
    requires f.RefreshFlight? && f.req == REFRESH && s.books.lineage == map["first" := Lineage("code", "", 0)]
    requires s.books.refresh.Keys == {"first"} && s.books.access.Keys == {"access"}
    ensures var b := Issued(cfg, s, 1, f, "b", "second").books;
            && b.lineage == map["first" := Lineage("code", "", 0), "second" := Lineage("code", "first", 1)]
            && b.refresh.Keys == {"first", "second"} && b.access.Keys == {"access", "b"}
            && b.now == s.books.now && b.clients == s.books.clients
            && b.refresh["first"] == s.books.refresh["first"] && IsValid(b.refresh["second"], b.now)
  {
  }

  lemma TwoInLine(t: State, h: nat)
    requires t.books.lineage == map["first" := Lineage("code", "", 0), "second" := Lineage("code", "first", 1)]
    requires h in t.flights && OnToken(t.flights[h], "first") && t.flights[h].stage.Rotating?
    ensures Linear(t)
  {
    assert InRotation(t.flights, "first");
    forall q | q in t.books.lineage ensures ParentSucceeded(t, q) {
      assert q == "first" || q == "second";
    }
  }
}
