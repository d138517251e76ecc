/** The shape refresh rotation gives to refresh tokens in every run: a forest with one
    root per consumed code, whatever handlers do to each other. */
module OAuthChains {
  import opened OAuthDomain
  import opened OAuthServer
  import opened OAuthGrants
  import opened OAuthSafety
  import opened Wrappers

  // ---- links -------------------------------------------------------------

  /** A row that points at a successor is revoked, and the successor was made to
      replace it. */
  predicate LinkOK(b: Books, r: string) {
    r in b.refresh &&
    var next := b.refresh[r].rotatedTo;
    next != "" ==> next in b.lineage && b.lineage[next].parent == r && b.refresh[r].revoked
  }

  ghost predicate LinksOK(b: Books) {
    forall r {:trigger LinkOK(b, r)} :: r in b.refresh ==> LinkOK(b, r)
  }

  lemma RotateSetsLink(cfg: Config, s: State, h: nat, r: string)
    requires HandlersOK(cfg, s) && LinksOK(s.books) && Enabled(s, Rotate(h)) && r in s.books.refresh
    ensures LinkOK(AfterRotate(s, h).books, r)
  {
    assert FlightOK(cfg, s.books, s.flights[h]) && LinkOK(s.books, r);
  }

  lemma RefreshUntouched(cfg: Config, s: State, e: Event)
    requires Enabled(s, e) && !e.Rotate? && !e.StoreRefresh? && !e.Revoke?
    ensures Step(cfg, s, e).books.refresh == s.books.refresh
  {
    if e.Register? {
      assert WithClient(s.books, e.id, e.registration, e.secretHash).refresh == s.books.refresh;
    } else if e.Authorize? {
      assert WithCode(s.books, e.id, e.userID, e.authorization).refresh == s.books.refresh;
    }
  }

  lemma RevocationSetsNoLink(b: Books, bearer: Bearer, r: string)
    requires r in b.refresh
    ensures r in WithRevocation(b, bearer).refresh
    ensures WithRevocation(b, bearer).refresh[r].rotatedTo == b.refresh[r].rotatedTo
  {
  }

  /** Only a rotation changes where an existing row points. */
  lemma OthersKeepLink(cfg: Config, s: State, e: Event, r: string)
    requires Enabled(s, e) && !e.Rotate? && r in s.books.refresh
    ensures r in Step(cfg, s, e).books.refresh
    ensures Step(cfg, s, e).books.refresh[r].rotatedTo == s.books.refresh[r].rotatedTo
  {
    if e.Revoke? {
      RevocationSetsNoLink(s.books, e.bearer, r);
    } else if e.StoreRefresh? {
      StoreKeepsRow(cfg, s, e.h, e.id, r);
    } else {
      RefreshUntouched(cfg, s, e);
    }
  }

  lemma StoreKeepsRow(cfg: Config, s: State, h: nat, id: string, r: string)
    requires Enabled(s, StoreRefresh(h, id)) && r in s.books.refresh
    ensures r in Step(cfg, s, StoreRefresh(h, id)).books.refresh
    ensures Step(cfg, s, StoreRefresh(h, id)).books.refresh[r] == s.books.refresh[r]
  {
  }

  /** A new row points nowhere. */
  lemma NewRowsUnlinked(cfg: Config, s: State, e: Event, r: string)
    requires Enabled(s, e) && r !in s.books.refresh && r in Step(cfg, s, e).books.refresh
    ensures e.StoreRefresh? && r == e.id && Step(cfg, s, e).books.refresh[r].rotatedTo == ""
  {
    if e.Revoke? {
      RevocationAddsNoRow(s.books, e.bearer, r);
    } else if e.Rotate? {
      RotationAddsNoRow(s, e.h, r);
    } else if e.StoreRefresh? {
      StoreAddsUnlinked(cfg, s, e.h, e.id, r);
    } else {
      RefreshUntouched(cfg, s, e);
    }
  }

  lemma RotationAddsNoRow(s: State, h: nat, r: string)
    requires Enabled(s, Rotate(h)) && r !in s.books.refresh
    ensures r !in AfterRotate(s, h).books.refresh
  {
  }

  lemma StoreAddsUnlinked(cfg: Config, s: State, h: nat, id: string, r: string)
    requires h in s.flights && s.flights[h].stage.Stored?
    requires r !in s.books.refresh && r in AfterStoreRefresh(cfg, s, h, id).books.refresh
    ensures r == id && AfterStoreRefresh(cfg, s, h, id).books.refresh[r].rotatedTo == ""
  {
    StoreBooks(cfg, s, h, id);
  }

  lemma StoreBooks(cfg: Config, s: State, h: nat, id: string)
    requires h in s.flights && s.flights[h].stage.Stored?
    ensures AfterStoreRefresh(cfg, s, h, id).books ==
              WithRefresh(cfg, s.books, s.flights[h], id, s.flights[h].stage.claims.jti)
  {
  }

  lemma RevocationAddsNoRow(b: Books, bearer: Bearer, r: string)
    requires r !in b.refresh
    ensures r !in WithRevocation(b, bearer).refresh
  {
  }

  lemma StepKeepsLinks(cfg: Config, s: State, e: Event)
    requires Inv(cfg, s) && LinksOK(s.books) && Enabled(s, e)
    ensures LinksOK(Step(cfg, s, e).books)
  {
    StepKeepsInv(cfg, s, e);
    var t := Step(cfg, s, e);
    forall r | r in t.books.refresh ensures LinkOK(t.books, r) {
      if r !in s.books.refresh {
        NewRowsUnlinked(cfg, s, e, r);
      } else if e.Rotate? {
        RotateSetsLink(cfg, s, e.h, r);
      } else {
        OthersKeepLink(cfg, s, e, r);
        LinkKept(s.books, t.books, r);
      }
    }
  }

  lemma LinkKept(a: Books, b: Books, r: string)
    requires Extends(a, b) && LinksOK(a) && r in a.refresh && r in b.refresh
    requires b.refresh[r].rotatedTo == a.refresh[r].rotatedTo
    ensures LinkOK(b, r)
  {
    assert LinkOK(a, r);
  }

  lemma {:induction false} RunKeepsLinks(cfg: Config, s: State, es: seq<Event>, t: State)
    requires Inv(cfg, s) && LinksOK(s.books) && Run(cfg, s, es) == Some(t)
    ensures LinksOK(t.books)
    decreases |es|
  {
    if es != [] {
      StepKeepsInv(cfg, s, es[0]);
      StepKeepsLinks(cfg, s, es[0]);
      RunKeepsLinks(cfg, Step(cfg, s, es[0]), es[1..], t);
    }
  }

  /** `n` times to the successor. */
  function Follow(b: Books, r: string, n: nat): Option<string>
    decreases n
  {
    if n == 0 then Some(r)
    else if r in b.refresh && b.refresh[r].rotatedTo != "" then Follow(b, b.refresh[r].rotatedTo, n - 1)
    else None
  }

  ghost predicate LineagesOK(b: Books) {
    forall r {:trigger LineageOK(b, r)} :: r in b.lineage ==> LineageOK(b, r)
  }

  lemma LinkGoesDeeper(b: Books, r: string)
    requires LineagesOK(b) && LinkOK(b, r) && r != "" && r in b.lineage && b.refresh[r].rotatedTo != ""
    ensures var q := b.refresh[r].rotatedTo;
            q in b.lineage && b.lineage[q].code == b.lineage[r].code && b.lineage[q].depth == b.lineage[r].depth + 1
  {
    assert LineageOK(b, b.refresh[r].rotatedTo);
  }

  lemma {:induction false} FollowGoesDeeper(b: Books, r: string, n: nat)
    requires LineagesOK(b) && LinksOK(b) && "" !in b.lineage && r in b.lineage && Follow(b, r, n).Some?
    ensures var q := Follow(b, r, n).value;
            q in b.lineage && b.lineage[q].code == b.lineage[r].code && b.lineage[q].depth == b.lineage[r].depth + n
    decreases n
  {
    if n > 0 {
      assert LineageOK(b, r) && LinkOK(b, r);
      LinkGoesDeeper(b, r);
      FollowGoesDeeper(b, b.refresh[r].rotatedTo, n - 1);
    }
  }

  lemma NoEmptyId(cfg: Config, b: Books)
    requires RowsOK(cfg, b)
    ensures LineagesOK(b) && "" !in b.lineage
  {
    forall r | r in b.lineage ensures LineageOK(b, r) && r != "" {
      assert LineageOK(b, r);
      assert RefreshOK(cfg, b, r);
    }
  }

  /** In every run, in any interleaving: no token has two predecessors, following
      successors stays within the tokens of one code and never comes back. */
  lemma LinksFormForest(cfg: Config, start: nat, es: seq<Event>, s: State, r: string, q: string, n: nat)
    requires ReachedBy(cfg, start, es, s) && r in s.books.refresh && q in s.books.refresh
    ensures s.books.refresh[r].rotatedTo == s.books.refresh[q].rotatedTo != "" ==> r == q
    ensures n > 0 ==> Follow(s.books, r, n) != Some(r)
    ensures Follow(s.books, r, n) == Some(q) ==>
              r in s.books.lineage && q in s.books.lineage && s.books.lineage[r].code == s.books.lineage[q].code
  {
    ReachedInv(cfg, start, es, s);
    InvInitially(cfg, start);
    RunKeepsLinks(cfg, Initial(start), es, s);
    assert LinkOK(s.books, r) && LinkOK(s.books, q) && RefreshOK(cfg, s.books, r);
    NoEmptyId(cfg, s.books);
    if Follow(s.books, r, n).Some? {
      FollowGoesDeeper(s.books, r, n);
    }
  }

  /** The first token of the chain a token is in. */
  ghost function Root(b: Books, r: string): string
    requires r in b.lineage && LineagesOK(b)
    decreases b.lineage[r].depth
  {
    assert LineageOK(b, r);
    if b.lineage[r].parent == "" then r else Root(b, b.lineage[r].parent)
  }

  lemma {:induction false} RootIsFirst(b: Books, r: string)
    requires r in b.lineage && LineagesOK(b)
    ensures Root(b, r) in b.lineage && b.lineage[Root(b, r)] == Lineage(b.lineage[r].code, "", 0)
    decreases b.lineage[r].depth
  {
    assert LineageOK(b, r);
    if b.lineage[r].parent != "" {
      RootIsFirst(b, b.lineage[r].parent);
    }
  }

  /** Every token goes back to the one first token of its code, and that code is
      consumed: two tokens share their root exactly when they share their code. */
  lemma OneRootPerCode(cfg: Config, start: nat, es: seq<Event>, s: State, r: string, q: string)
    requires ReachedBy(cfg, start, es, s) && r in s.books.refresh && q in s.books.refresh
    ensures r in s.books.lineage && q in s.books.lineage && LineagesOK(s.books)
    ensures Root(s.books, r) == Root(s.books, q) <==> s.books.lineage[r].code == s.books.lineage[q].code
    ensures s.books.lineage[r].code in s.books.codes && s.books.codes[s.books.lineage[r].code].used
  {
    ReachedInv(cfg, start, es, s);
    assert RefreshOK(cfg, s.books, r) && RefreshOK(cfg, s.books, q);
    RootIsFirst(s.books, r);
    RootIsFirst(s.books, q);
  }
}
