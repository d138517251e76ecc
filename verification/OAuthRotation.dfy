/** When refresh rotation gives linear chains. A run leaves every chain a line exactly
    when no handler stored a successor for a token that already had one, and none
    stopped between storing a successor and linking it. Handlers that take turns on a
    token, and above all handlers that run one after another, meet that condition. */
module OAuthRotation {
  import opened OAuthChains
  import opened OAuthDomain
  import opened OAuthGrants
  import opened OAuthSafety
  import opened OAuthServer
  import opened Wrappers

  predicate OnToken(f: Flight, r: string) {
    f.RefreshFlight? && f.req.refreshToken == r
  }

  /** A handler has stored the successor of `r` but not yet linked it. */
  predicate InRotation(flights: map<nat, Flight>, r: string) {
    exists h :: h in flights && OnToken(flights[h], r) && flights[h].stage.Rotating?
  }

  /** The row points at a successor, or a handler is about to make it do so. */
  predicate Succeeded(s: State, r: string) {
    (r in s.books.refresh && s.books.refresh[r].rotatedTo != "") || InRotation(s.flights, r)
  }

  /** A code and a position in its chain name one token. */
  ghost predicate Ranked(lineage: map<string, Lineage>) {
    forall a, b :: a in lineage && b in lineage ==>
      lineage[a].code == lineage[b].code && lineage[a].depth == lineage[b].depth ==> a == b
  }

  predicate ParentSucceeded(s: State, q: string) {
    q in s.books.lineage && (s.books.lineage[q].parent != "" ==> Succeeded(s, s.books.lineage[q].parent))
  }

  /** Every token that was replaced has a successor. */
  ghost predicate Replaced(s: State) {
    forall q {:trigger ParentSucceeded(s, q)} :: q in s.books.lineage ==> ParentSucceeded(s, q)
  }

  /** The tokens of every code form one line. */
  ghost predicate Linear(s: State) {
    Ranked(s.books.lineage) && Replaced(s)
  }

  /** What keeps lines: a handler stores a successor only for a token that has none,
      linked or under way, and once it has, it does not stop before linking it. The
      token's row shows a linked successor; one under way is in no row. */
  predicate Safe(s: State, e: Event) {
    && (e.StoreRefresh? && e.h in s.flights && s.flights[e.h].RefreshFlight? ==>
          !Succeeded(s, s.flights[e.h].req.refreshToken))
    && (e.Crash? && e.h in s.flights ==> !s.flights[e.h].stage.Rotating?)
  }

  predicate SafeRun(cfg: Config, s: State, es: seq<Event>)
    decreases |es|
  {
    es != [] && Enabled(s, es[0]) ==> Safe(s, es[0]) && SafeRun(cfg, Step(cfg, s, es[0]), es[1..])
  }

  // ---- how one step moves handlers ---------------------------------------

  predicate Handles(e: Event, h: nat) {
    !e.Tick? && !e.Register? && !e.Authorize? && !e.Revoke? && e.h == h
  }

  lemma OthersStay(cfg: Config, s: State, e: Event, k: nat)
    requires Enabled(s, e) && !Handles(e, k)
    ensures k in Step(cfg, s, e).flights <==> k in s.flights
    ensures k in s.flights ==> Step(cfg, s, e).flights[k] == s.flights[k]
  {
  }

  lemma RotatingStays(cfg: Config, s: State, e: Event, h: nat)
    requires Enabled(s, e) && h in s.flights && s.flights[h].stage.Rotating? && e != Rotate(h) && e != Crash(h)
    ensures h in Step(cfg, s, e).flights && Step(cfg, s, e).flights[h] == s.flights[h]
  {
    OthersStay(cfg, s, e, h);
  }

  lemma RotatingComesFrom(cfg: Config, s: State, e: Event, h: nat)
    requires Enabled(s, e) && h in Step(cfg, s, e).flights && Step(cfg, s, e).flights[h].stage.Rotating?
    ensures h in s.flights
    ensures if e.StoreRefresh? && e.h == h then
              s.flights[h].RefreshFlight?
              && Step(cfg, s, e).flights[h] == Staged(s.flights[h], Rotating(s.flights[h].stage.claims, e.id))
            else Step(cfg, s, e).flights[h] == s.flights[h]
  {
    if !Handles(e, h) {
      OthersStay(cfg, s, e, h);
    }
  }

  // ---- pending links -----------------------------------------------------

  /** A successor under way belongs to one handler and no row points at it yet. */
  ghost predicate Pending(s: State) {
    && (forall h, k :: h in s.flights && k in s.flights
                       && s.flights[h].stage.Rotating? && s.flights[k].stage.Rotating? ==>
          s.flights[h].stage.refreshID == s.flights[k].stage.refreshID ==> h == k)
    && (forall h, r :: h in s.flights && s.flights[h].stage.Rotating? && r in s.books.refresh ==>
          s.books.refresh[r].rotatedTo != s.flights[h].stage.refreshID)
  }

  /** Everything that always holds about rotation. */
  ghost predicate Rotations(cfg: Config, s: State) {
    Inv(cfg, s) && LinksOK(s.books) && Pending(s)
  }

  lemma RotatingIsKnown(cfg: Config, s: State, h: nat)
    requires HandlersOK(cfg, s) && h in s.flights && s.flights[h].stage.Rotating?
    ensures s.flights[h].RefreshFlight?
    ensures var r, q := s.flights[h].req.refreshToken, s.flights[h].stage.refreshID;
            && r in s.books.lineage && r in s.books.refresh && r != "" && q != "" && q in s.books.lineage
            && s.books.lineage[q] == Lineage(s.books.lineage[r].code, r, s.books.lineage[r].depth + 1)
  {
    assert FlightOK(cfg, s.books, s.flights[h]);
  }

  lemma FreshId(cfg: Config, b: Books, id: string)
    requires RowsOK(cfg, b) && id !in b.refresh
    ensures id !in b.lineage
  {
    assert id in b.lineage ==> LineageOK(b, id);
  }

  lemma PendingHandlers(cfg: Config, s: State, e: Event, h: nat, k: nat)
    requires Rotations(cfg, s) && Enabled(s, e)
    requires h in Step(cfg, s, e).flights && Step(cfg, s, e).flights[h].stage.Rotating?
    requires k in Step(cfg, s, e).flights && Step(cfg, s, e).flights[k].stage.Rotating?
    requires Step(cfg, s, e).flights[h].stage.refreshID == Step(cfg, s, e).flights[k].stage.refreshID
    ensures h == k
  {
    RotatingComesFrom(cfg, s, e, h);
    RotatingComesFrom(cfg, s, e, k);
    if h != k && e.StoreRefresh? {
      var other := if e.h == h then k else h;
      if e.h == h || e.h == k {
        RotatingIsKnown(cfg, s, other);
        FreshId(cfg, s.books, e.id);
      }
    }
  }

  lemma PendingRows(cfg: Config, s: State, e: Event, h: nat, r: string)
    requires Rotations(cfg, s) && Enabled(s, e)
    requires h in Step(cfg, s, e).flights && Step(cfg, s, e).flights[h].stage.Rotating?
    requires r in Step(cfg, s, e).books.refresh
    ensures Step(cfg, s, e).books.refresh[r].rotatedTo != Step(cfg, s, e).flights[h].stage.refreshID
  {
    RotatingComesFrom(cfg, s, e, h);
    SuccessorNamed(cfg, s, e, h);
    if r !in s.books.refresh {
      NewRowsUnlinked(cfg, s, e, r);
    } else if e.Rotate? {
      RotationLinks(s, e.h, r);
    } else {
      OthersKeepLink(cfg, s, e, r);
      LinkIsOld(cfg, s.books, r);
    }
  }

  lemma SuccessorNamed(cfg: Config, s: State, e: Event, h: nat)
    requires Inv(cfg, s) && Enabled(s, e) && h in Step(cfg, s, e).flights && Step(cfg, s, e).flights[h].stage.Rotating?
    ensures Step(cfg, s, e).flights[h].stage.refreshID != ""
  {
    StepKeepsInv(cfg, s, e);
    RotatingIsKnown(cfg, Step(cfg, s, e), h);
  }

  lemma RotationLinks(s: State, h: nat, r: string)
    requires Enabled(s, Rotate(h)) && r in s.books.refresh
    ensures r in AfterRotate(s, h).books.refresh
    ensures AfterRotate(s, h).books.refresh[r].rotatedTo ==
              if r == s.flights[h].req.refreshToken then s.flights[h].stage.refreshID else s.books.refresh[r].rotatedTo
  {
  }

  /** A row points at a stored token, so at none that is stored only now. */
  lemma LinkIsOld(cfg: Config, b: Books, r: string)
    requires RowsOK(cfg, b) && LinksOK(b) && r in b.refresh
    ensures b.refresh[r].rotatedTo == "" || b.refresh[r].rotatedTo in b.refresh
  {
    assert LinkOK(b, r);
    assert b.refresh[r].rotatedTo != "" ==> LineageOK(b, b.refresh[r].rotatedTo);
  }

  lemma StepKeepsRotations(cfg: Config, s: State, e: Event)
    requires Rotations(cfg, s) && Enabled(s, e)
    ensures Rotations(cfg, Step(cfg, s, e))
  {
    var t := Step(cfg, s, e);
    StepKeepsInv(cfg, s, e);
    StepKeepsLinks(cfg, s, e);
    forall h, k | h in t.flights && k in t.flights && t.flights[h].stage.Rotating? && t.flights[k].stage.Rotating?
                  && t.flights[h].stage.refreshID == t.flights[k].stage.refreshID
      ensures h == k
    {
      PendingHandlers(cfg, s, e, h, k);
    }
    forall h, r | h in t.flights && t.flights[h].stage.Rotating? && r in t.books.refresh
      ensures t.books.refresh[r].rotatedTo != t.flights[h].stage.refreshID
    {
      PendingRows(cfg, s, e, h, r);
    }
  }

  lemma {:induction false} RunKeepsRotations(cfg: Config, s: State, es: seq<Event>, t: State)
    requires Rotations(cfg, s) && Run(cfg, s, es) == Some(t)
    ensures Rotations(cfg, t)
    decreases |es|
  {
    if es != [] {
      StepKeepsRotations(cfg, s, es[0]);
      RunKeepsRotations(cfg, Step(cfg, s, es[0]), es[1..], t);
    }
  }

  lemma ReachedRotations(cfg: Config, start: nat, es: seq<Event>, s: State)
    requires ReachedBy(cfg, start, es, s)
    ensures Rotations(cfg, Initial(start)) && Rotations(cfg, s)
  {
    InvInitially(cfg, start);
    RunKeepsRotations(cfg, Initial(start), es, s);
  }

  // ---- successors come and stay ------------------------------------------

  /** Unless a handler is torn off its rotation, a successor stays. */
  lemma SuccessorStays(cfg: Config, s: State, e: Event, r: string)
    requires Inv(cfg, s) && Enabled(s, e) && Succeeded(s, r) && (e.Crash? ==> !s.flights[e.h].stage.Rotating?)
    ensures Succeeded(Step(cfg, s, e), r)
  {
    var t := Step(cfg, s, e);
    StepKeepsInv(cfg, s, e);
    if r in s.books.refresh && s.books.refresh[r].rotatedTo != "" {
      assert RefreshGrows(s.books.refresh[r], t.books.refresh[r]);
    } else {
      var h :| h in s.flights && OnToken(s.flights[h], r) && s.flights[h].stage.Rotating?;
      if e == Rotate(h) {
        RotatingIsKnown(cfg, s, h);
      } else {
        RotatingStays(cfg, s, e, h);
        assert OnToken(t.flights[h], r);
      }
    }
  }

  /** A stored token gets a successor only when a handler stores one for it. */
  lemma SuccessorComes(cfg: Config, s: State, e: Event, r: string)
    requires HandlersOK(cfg, s) && Enabled(s, e) && r in s.books.refresh && Succeeded(Step(cfg, s, e), r)
    requires !(e.StoreRefresh? && OnToken(s.flights[e.h], r))
    ensures Succeeded(s, r)
  {
    var t := Step(cfg, s, e);
    if InRotation(t.flights, r) {
      var h :| h in t.flights && OnToken(t.flights[h], r) && t.flights[h].stage.Rotating?;
      RotatingComesFrom(cfg, s, e, h);
      assert OnToken(s.flights[h], r);
    } else if e.Rotate? {
      RotatingIsKnown(cfg, s, e.h);
      assert r == s.flights[e.h].req.refreshToken ==> OnToken(s.flights[e.h], r);
    } else {
      OthersKeepLink(cfg, s, e, r);
    }
  }

  /** A succeeded token has been replaced. */
  lemma SuccessorIsChild(cfg: Config, s: State, r: string) returns (q: string)
    requires Rotations(cfg, s) && Succeeded(s, r)
    ensures r != "" && q in s.books.lineage && s.books.lineage[q].parent == r
    ensures (r in s.books.refresh && s.books.refresh[r].rotatedTo == q)
            || exists h :: h in s.flights && OnToken(s.flights[h], r) && s.flights[h].stage.Rotating?
                           && s.flights[h].stage.refreshID == q
  {
    if r in s.books.refresh && s.books.refresh[r].rotatedTo != "" {
      q := s.books.refresh[r].rotatedTo;
      assert LinkOK(s.books, r) && RefreshOK(cfg, s.books, r);
    } else {
      var h :| h in s.flights && OnToken(s.flights[h], r) && s.flights[h].stage.Rotating?;
      RotatingIsKnown(cfg, s, h);
      q := s.flights[h].stage.refreshID;
    }
  }

  // ---- one step ----------------------------------------------------------

  lemma LineageUntouched(cfg: Config, s: State, e: Event)
    requires Enabled(s, e) && !e.StoreRefresh?
    ensures Step(cfg, s, e).books.lineage == s.books.lineage
  {
    if e.Register? || e.Authorize? || e.Revoke? || e.Tick? {
      AmbientHistory(cfg, s, e);
    }
  }

  /** Every parent is one position up in the same chain. */
  ghost predicate Parented(lineage: map<string, Lineage>) {
    forall q {:trigger lineage[q].parent} :: q in lineage ==>
      var p := lineage[q].parent;
      if p == "" then lineage[q].depth == 0
      else p in lineage && lineage[p].code == lineage[q].code && lineage[q].depth == lineage[p].depth + 1
  }

  lemma AllParented(cfg: Config, b: Books)
    requires RowsOK(cfg, b)
    ensures Parented(b.lineage)
  {
    forall q | q in b.lineage ensures LineageOK(b, q) {
      assert LineageOK(b, q);
    }
  }

  /** A successor of `r` keeps positions unique exactly when it is the first. */
  lemma RankedIff(lineage: map<string, Lineage>, r: string, id: string)
    requires Ranked(lineage) && Parented(lineage) && r in lineage && r != "" && id !in lineage
    ensures Ranked(lineage[id := Lineage(lineage[r].code, r, lineage[r].depth + 1)]) <==> Childless(lineage, r)
  {
    var after := lineage[id := Lineage(lineage[r].code, r, lineage[r].depth + 1)];
    if q :| q in lineage && lineage[q].parent == r {
      assert after[q].code == after[id].code && after[q].depth == after[id].depth && q != id;
    }
  }

  /** Positions once shared stay shared. */
  lemma NeverRankedAgain(cfg: Config, s: State, e: Event)
    requires Inv(cfg, s) && Enabled(s, e) && !Ranked(s.books.lineage)
    ensures !Ranked(Step(cfg, s, e).books.lineage)
  {
    var a, b :| a in s.books.lineage && b in s.books.lineage && a != b
                && s.books.lineage[a].code == s.books.lineage[b].code
                && s.books.lineage[a].depth == s.books.lineage[b].depth;
    LineageGrows(cfg, s, e, a);
    LineageGrows(cfg, s, e, b);
  }

  lemma SuccessorStep(cfg: Config, s: State, h: nat, id: string)
    requires HandlersOK(cfg, s) && Enabled(s, StoreRefresh(h, id)) && s.flights[h].RefreshFlight?
    ensures var r, t := s.flights[h].req.refreshToken, AfterStoreRefresh(cfg, s, h, id);
            && r in s.books.lineage && r in s.books.refresh && r != ""
            && t.books.lineage ==
                 s.books.lineage[id := Lineage(s.books.lineage[r].code, r, s.books.lineage[r].depth + 1)]
            && InRotation(t.flights, r)
  {
    assert FlightOK(cfg, s.books, s.flights[h]);
    var t := AfterStoreRefresh(cfg, s, h, id);
    assert OnToken(t.flights[h], s.flights[h].req.refreshToken);
  }

  lemma SuccessorRanked(cfg: Config, s: State, h: nat, id: string)
    requires Inv(cfg, s) && Ranked(s.books.lineage) && Enabled(s, StoreRefresh(h, id)) && s.flights[h].RefreshFlight?
    ensures Ranked(AfterStoreRefresh(cfg, s, h, id).books.lineage) <==>
              Childless(s.books.lineage, s.flights[h].req.refreshToken)
  {
    SuccessorStep(cfg, s, h, id);
    AllParented(cfg, s.books);
    FreshId(cfg, s.books, id);
    RankedIff(s.books.lineage, s.flights[h].req.refreshToken, id);
  }

  ghost predicate Childless(lineage: map<string, Lineage>, r: string) {
    forall q :: q in lineage ==> lineage[q].parent != r
  }

  /** Storing a successor keeps lines exactly when the token had none. */
  lemma StoreKeepsLinesIff(cfg: Config, s: State, h: nat, id: string)
    requires Rotations(cfg, s) && Linear(s) && Enabled(s, StoreRefresh(h, id)) && s.flights[h].RefreshFlight?
    ensures Linear(AfterStoreRefresh(cfg, s, h, id)) <==> !Succeeded(s, s.flights[h].req.refreshToken)
  {
    var r, t := s.flights[h].req.refreshToken, AfterStoreRefresh(cfg, s, h, id);
    SuccessorStep(cfg, s, h, id);
    SuccessorRanked(cfg, s, h, id);
    if Succeeded(s, r) {
      var q := SuccessorIsChild(cfg, s, r);
      assert !Childless(s.books.lineage, r);
    } else {
      forall q | q in s.books.lineage ensures s.books.lineage[q].parent != r {
        assert ParentSucceeded(s, q);
      }
      forall q | q in t.books.lineage ensures ParentSucceeded(t, q) {
        if q != id {
          ParentStays(cfg, s, StoreRefresh(h, id), q);
        }
      }
    }
  }

  lemma ParentStays(cfg: Config, s: State, e: Event, q: string)
    requires Inv(cfg, s) && Replaced(s) && Enabled(s, e) && (e.Crash? ==> !s.flights[e.h].stage.Rotating?)
    requires q in s.books.lineage
    ensures ParentSucceeded(Step(cfg, s, e), q)
  {
    LineageGrows(cfg, s, e, q);
    assert ParentSucceeded(s, q);
    if s.books.lineage[q].parent != "" {
      SuccessorStays(cfg, s, e, s.books.lineage[q].parent);
    }
  }

  lemma LineageGrows(cfg: Config, s: State, e: Event, q: string)
    requires Inv(cfg, s) && Enabled(s, e) && q in s.books.lineage
    ensures q in Step(cfg, s, e).books.lineage && Step(cfg, s, e).books.lineage[q] == s.books.lineage[q]
  {
    if e.StoreRefresh? {
      FreshId(cfg, s.books, e.id);
    } else {
      LineageUntouched(cfg, s, e);
    }
  }

  /** The first token of a code starts a line of its own. */
  lemma RootKeepsLines(cfg: Config, s: State, h: nat, id: string)
    requires Inv(cfg, s) && Linear(s) && Enabled(s, StoreRefresh(h, id)) && s.flights[h].CodeFlight?
    ensures Linear(AfterStoreRefresh(cfg, s, h, id))
  {
    var code, t := s.flights[h].req.code, AfterStoreRefresh(cfg, s, h, id);
    assert Pristine(s.answers, s.books.lineage, code);
    FreshId(cfg, s.books, id);
    assert t.books.lineage == s.books.lineage[id := Lineage(code, "", 0)];
    forall q | q in t.books.lineage ensures ParentSucceeded(t, q) {
      if q != id {
        ParentStays(cfg, s, StoreRefresh(h, id), q);
      }
    }
  }

  lemma OnlyChild(cfg: Config, b: Books, q: string)
    requires RowsOK(cfg, b) && Ranked(b.lineage) && q in b.lineage && b.lineage[q].parent != ""
    ensures forall p :: p in b.lineage && b.lineage[p].parent == b.lineage[q].parent ==> p == q
  {
    AllParented(cfg, b);
  }

  /** A handler torn off its rotation leaves a replaced token without a successor. */
  lemma TearBreaksLines(cfg: Config, s: State, h: nat)
    requires Rotations(cfg, s) && Linear(s) && h in s.flights && s.flights[h].stage.Rotating?
    ensures !Succeeded(Step(cfg, s, Crash(h)), s.flights[h].req.refreshToken)
    ensures !Linear(Step(cfg, s, Crash(h)))
  {
    var r, next, t := s.flights[h].req.refreshToken, s.flights[h].stage.refreshID, Step(cfg, s, Crash(h));
    RotatingIsKnown(cfg, s, h);
    StepKeepsRotations(cfg, s, Crash(h));
    OnlyChild(cfg, s.books, next);
    if Succeeded(t, r) {
      var q := SuccessorIsChild(cfg, t, r);
      assert false;
    }
    assert !ParentSucceeded(t, next);
  }

  /** From lines, a step leads to lines exactly when it is safe. */
  lemma StepKeepsLinesIff(cfg: Config, s: State, e: Event)
    requires Rotations(cfg, s) && Linear(s) && Enabled(s, e)
    ensures Linear(Step(cfg, s, e)) <==> Safe(s, e)
  {
    if e.StoreRefresh? {
      if s.flights[e.h].RefreshFlight? {
        StoreKeepsLinesIff(cfg, s, e.h, e.id);
      } else {
        RootKeepsLines(cfg, s, e.h, e.id);
      }
    } else if e.Crash? && s.flights[e.h].stage.Rotating? {
      TearBreaksLines(cfg, s, e.h);
    } else {
      LineageUntouched(cfg, s, e);
      forall q | q in s.books.lineage ensures ParentSucceeded(Step(cfg, s, e), q) {
        ParentStays(cfg, s, e, q);
      }
    }
  }

  /** Lines once broken are never mended: a missing successor can only be made up for
      by a second one. */
  lemma BrokenStaysBroken(cfg: Config, s: State, e: Event)
    requires Rotations(cfg, s) && !Linear(s) && Enabled(s, e)
    ensures !Linear(Step(cfg, s, e))
  {
    if Ranked(s.books.lineage) {
      var q :| q in s.books.lineage && !ParentSucceeded(s, q);
      MissingStaysMissing(cfg, s, e, q);
    } else {
      NeverRankedAgain(cfg, s, e);
    }
  }

  lemma MissingStaysMissing(cfg: Config, s: State, e: Event, q: string)
    requires Rotations(cfg, s) && Ranked(s.books.lineage) && Enabled(s, e)
    requires q in s.books.lineage && !ParentSucceeded(s, q)
    ensures !Linear(Step(cfg, s, e))
  {
    var r, t := s.books.lineage[q].parent, Step(cfg, s, e);
    ParentStored(cfg, s.books, q);
    LineageGrows(cfg, s, e, q);
    if e.StoreRefresh? && OnToken(s.flights[e.h], r) {
      SuccessorRanked(cfg, s, e.h, e.id);
    } else {
      NoSuccessorComes(cfg, s, e, r);
      assert !ParentSucceeded(t, q);
    }
  }

  lemma ParentStored(cfg: Config, b: Books, q: string)
    requires RowsOK(cfg, b) && q in b.lineage && b.lineage[q].parent != ""
    ensures b.lineage[q].parent in b.refresh
  {
    assert LineageOK(b, q);
    assert LineageOK(b, b.lineage[q].parent);
  }

  lemma NoSuccessorComes(cfg: Config, s: State, e: Event, r: string)
    requires HandlersOK(cfg, s) && Enabled(s, e) && r in s.books.refresh && !Succeeded(s, r)
    requires !(e.StoreRefresh? && OnToken(s.flights[e.h], r))
    ensures !Succeeded(Step(cfg, s, e), r)
  {
    if Succeeded(Step(cfg, s, e), r) {
      SuccessorComes(cfg, s, e, r);
    }
  }

  // ---- whole runs --------------------------------------------------------

  lemma {:induction false} BrokenForever(cfg: Config, s: State, es: seq<Event>, t: State)
    requires Rotations(cfg, s) && !Linear(s) && Run(cfg, s, es) == Some(t)
    ensures !Linear(t)
    decreases |es|
  {
    if es != [] {
      StepKeepsRotations(cfg, s, es[0]);
      BrokenStaysBroken(cfg, s, es[0]);
      BrokenForever(cfg, Step(cfg, s, es[0]), es[1..], t);
    }
  }

  lemma {:induction false} RunKeepsLinesIff(cfg: Config, s: State, es: seq<Event>, t: State)
    requires Rotations(cfg, s) && Linear(s) && Run(cfg, s, es) == Some(t)
    ensures Linear(t) <==> SafeRun(cfg, s, es)
    decreases |es|
  {
    if es != [] {
      var u := Step(cfg, s, es[0]);
      StepKeepsRotations(cfg, s, es[0]);
      StepKeepsLinesIff(cfg, s, es[0]);
      if Linear(u) {
        RunKeepsLinesIff(cfg, u, es[1..], t);
      } else {
        BrokenForever(cfg, u, es[1..], t);
      }
    }
  }

  /** The exact condition: after any run, in any interleaving, the tokens of every code
      form one line if and only if every step of the run was safe. */
  lemma LinearIff(cfg: Config, start: nat, es: seq<Event>, s: State)
    requires ReachedBy(cfg, start, es, s)
    ensures Linear(s) <==> SafeRun(cfg, Initial(start), es)
  {
    ReachedRotations(cfg, start, es, s);
    RunKeepsLinesIff(cfg, Initial(start), es, s);
  }

  // ---- what a line is ----------------------------------------------------

  /** Two tokens of a code share no position, and the earlier one has a successor. */
  predicate InLine(s: State, a: string, b: string) {
    a in s.books.lineage && b in s.books.lineage &&
    var x, y := s.books.lineage[a], s.books.lineage[b];
    x.code == y.code ==> (x.depth == y.depth ==> a == b) && (x.depth < y.depth ==> Succeeded(s, a))
  }

  lemma {:induction false} EarlierSucceeded(s: State, a: string, b: string)
    requires Linear(s) && Parented(s.books.lineage) && a in s.books.lineage && b in s.books.lineage
    requires s.books.lineage[a].code == s.books.lineage[b].code && s.books.lineage[a].depth < s.books.lineage[b].depth
    ensures Succeeded(s, a)
    decreases s.books.lineage[b].depth
  {
    var p := s.books.lineage[b].parent;
    assert ParentSucceeded(s, b);
    if s.books.lineage[a].depth < s.books.lineage[p].depth {
      EarlierSucceeded(s, a, p);
    }
  }

  /** Linear, said of all tokens: every two of one code stand in line. */
  lemma LinearMeans(cfg: Config, s: State)
    requires Inv(cfg, s)
    ensures Linear(s) <==> forall a, b :: a in s.books.lineage && b in s.books.lineage ==> InLine(s, a, b)
  {
    AllParented(cfg, s.books);
    if Linear(s) {
      forall a, b | a in s.books.lineage && b in s.books.lineage ensures InLine(s, a, b) {
        LinearStandsInLine(s, a, b);
      }
    }
    if forall a, b :: a in s.books.lineage && b in s.books.lineage ==> InLine(s, a, b) {
      InLineIsLinear(s);
    }
  }

  lemma LinearStandsInLine(s: State, a: string, b: string)
    requires Linear(s) && Parented(s.books.lineage) && a in s.books.lineage && b in s.books.lineage
    ensures InLine(s, a, b)
  {
    if s.books.lineage[a].code == s.books.lineage[b].code && s.books.lineage[a].depth < s.books.lineage[b].depth {
      EarlierSucceeded(s, a, b);
    }
  }

  lemma InLineIsLinear(s: State)
    requires Parented(s.books.lineage)
    requires forall a, b :: a in s.books.lineage && b in s.books.lineage ==> InLine(s, a, b)
    ensures Linear(s)
  {
    forall q | q in s.books.lineage ensures ParentSucceeded(s, q) {
      var p := s.books.lineage[q].parent;
      assert p != "" ==> InLine(s, p, q);
    }
    forall a, b | a in s.books.lineage && b in s.books.lineage
                  && s.books.lineage[a].code == s.books.lineage[b].code
                  && s.books.lineage[a].depth == s.books.lineage[b].depth
      ensures a == b
    {
      assert InLine(s, a, b);
    }
  }

  /** In a line each token points at the next or is about to, and of two valid tokens
      the earlier is just being rotated: a chain at rest has at most one valid token. */
  lemma LinesHaveOneHead(cfg: Config, s: State, a: string, b: string)
    requires Rotations(cfg, s) && Linear(s) && a in s.books.refresh && b in s.books.refresh
    ensures a in s.books.lineage && b in s.books.lineage
    ensures var x, y := s.books.lineage[a], s.books.lineage[b];
            x.code == y.code ==>
              && (x.depth == y.depth ==> a == b)
              && (x.depth + 1 == y.depth ==> s.books.refresh[a].rotatedTo == b || InRotation(s.flights, a))
              && (IsValid(s.books.refresh[a], s.books.now) && IsValid(s.books.refresh[b], s.books.now) ==>
                    a == b || InRotation(s.flights, a) || InRotation(s.flights, b))
  {
    assert RefreshOK(cfg, s.books, a) && RefreshOK(cfg, s.books, b);
    LinearMeans(cfg, s);
    assert InLine(s, a, b) && InLine(s, b, a);
    assert LinkOK(s.books, a);
    NoEmptyId(cfg, s.books);
    if s.books.refresh[a].rotatedTo != "" {
      LinkGoesDeeper(s.books, a);
    }
  }
}
