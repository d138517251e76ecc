/** Handlers that take turns on a token only make safe steps, so their chains are lines;
    handlers that run one after another, as written, take turns on everything. */
module OAuthTurns {
  import opened OAuthChains
  import opened OAuthDomain
  import opened OAuthGrants
  import opened OAuthRotation
  import opened OAuthSafety
  import opened OAuthServer
  import opened Wrappers

  /** No handler starts on a token while another holds it, and none stops in between
      storing a successor and linking it. */
  predicate Orderly(s: State, e: Event) {
    && (e.FetchRefresh? ==> forall h :: h in s.flights ==> !OnToken(s.flights[h], e.req.refreshToken))
    && (e.Crash? && e.h in s.flights ==> !s.flights[e.h].stage.Rotating?)
  }

  predicate OrderlyRun(cfg: Config, s: State, es: seq<Event>)
    decreases |es|
  {
    es != [] && Enabled(s, es[0]) ==> Orderly(s, es[0]) && OrderlyRun(cfg, Step(cfg, s, es[0]), es[1..])
  }

  // ---- taking turns is safe ----------------------------------------------

  /** A token has at most one handler, and what that handler read about rotation is
      still so. */
  ghost predicate Alone(s: State) {
    && (forall h, k, r :: h in s.flights && k in s.flights && OnToken(s.flights[h], r) && OnToken(s.flights[k], r) ==>
         h == k)
    && (forall h {:trigger Current(s, h)} :: h in s.flights ==> Current(s, h))
  }

  predicate Current(s: State, h: nat) {
    h in s.flights &&
    var f := s.flights[h];
    f.RefreshFlight? ==>
      f.req.refreshToken in s.books.refresh && f.token.rotatedTo == s.books.refresh[f.req.refreshToken].rotatedTo
  }

  lemma RefresherComesFrom(cfg: Config, s: State, e: Event, h: nat)
    requires Enabled(s, e) && h in Step(cfg, s, e).flights && Step(cfg, s, e).flights[h].RefreshFlight?
    ensures var f := Step(cfg, s, e).flights[h];
            if e.FetchRefresh? && e.h == h then
              e.req == f.req && f.req.refreshToken in s.books.refresh && f.token == s.books.refresh[f.req.refreshToken]
            else
              h in s.flights && s.flights[h].RefreshFlight? && s.flights[h].req == f.req
                  && s.flights[h].token == f.token
  {
    if !Handles(e, h) {
      OthersStay(cfg, s, e, h);
    }
  }

  lemma RotationEnds(s: State, h: nat)
    requires Enabled(s, Rotate(h))
    ensures h !in AfterRotate(s, h).flights
  {
  }

  lemma StaysCurrent(cfg: Config, s: State, e: Event, h: nat)
    requires HandlersOK(cfg, s) && Alone(s) && Enabled(s, e) && h in Step(cfg, s, e).flights
    ensures Current(Step(cfg, s, e), h)
  {
    var t := Step(cfg, s, e);
    if t.flights[h].RefreshFlight? {
      RefresherComesFrom(cfg, s, e, h);
      var r := t.flights[h].req.refreshToken;
      if e.Rotate? {
        RotationEnds(s, e.h);
        assert Current(s, h);
        RotatingIsKnown(cfg, s, e.h);
        assert OnToken(s.flights[h], r) && OnToken(s.flights[e.h], s.flights[e.h].req.refreshToken);
        RotationLinks(s, e.h, r);
      } else {
        assert h in s.flights ==> Current(s, h);
        OthersKeepLink(cfg, s, e, r);
      }
    }
  }

  lemma StaysAlone(cfg: Config, s: State, e: Event, h: nat, k: nat, r: string)
    requires Alone(s) && Enabled(s, e) && Orderly(s, e)
    requires h in Step(cfg, s, e).flights && k in Step(cfg, s, e).flights
    requires OnToken(Step(cfg, s, e).flights[h], r) && OnToken(Step(cfg, s, e).flights[k], r)
    ensures h == k
  {
    RefresherComesFrom(cfg, s, e, h);
    RefresherComesFrom(cfg, s, e, k);
    assert h in s.flights ==> OnToken(s.flights[h], r) || (e.FetchRefresh? && e.h == h);
    assert k in s.flights ==> OnToken(s.flights[k], r) || (e.FetchRefresh? && e.h == k);
  }

  lemma StepKeepsAlone(cfg: Config, s: State, e: Event)
    requires HandlersOK(cfg, s) && Alone(s) && Enabled(s, e) && Orderly(s, e)
    ensures Alone(Step(cfg, s, e))
  {
    var t := Step(cfg, s, e);
    forall h, k, r | h in t.flights && k in t.flights && OnToken(t.flights[h], r) && OnToken(t.flights[k], r)
      ensures h == k
    {
      StaysAlone(cfg, s, e, h, k, r);
    }
    forall h | h in t.flights ensures Current(t, h) {
      StaysCurrent(cfg, s, e, h);
    }
  }

  lemma OrderlyIsSafe(cfg: Config, s: State, e: Event)
    requires HandlersOK(cfg, s) && Alone(s) && Enabled(s, e) && Orderly(s, e)
    ensures Safe(s, e)
  {
    if e.StoreRefresh? && s.flights[e.h].RefreshFlight? {
      var r := s.flights[e.h].req.refreshToken;
      assert FlightOK(cfg, s.books, s.flights[e.h]) && Current(s, e.h) && OnToken(s.flights[e.h], r);
    }
  }

  lemma {:induction false} OrderlyRunsAreSafe(cfg: Config, s: State, es: seq<Event>)
    requires Inv(cfg, s) && Alone(s) && OrderlyRun(cfg, s, es)
    ensures SafeRun(cfg, s, es)
    decreases |es|
  {
    if es != [] && Enabled(s, es[0]) {
      StepKeepsInv(cfg, s, es[0]);
      OrderlyIsSafe(cfg, s, es[0]);
      StepKeepsAlone(cfg, s, es[0]);
      OrderlyRunsAreSafe(cfg, Step(cfg, s, es[0]), es[1..]);
    }
  }

  /** Turn-taking is enough for lines; it is not needed, since a handler that gives up
      before it stores a successor does no harm. */
  lemma OrderlyRunsGiveLines(cfg: Config, start: nat, es: seq<Event>, s: State)
    requires ReachedBy(cfg, start, es, s) && OrderlyRun(cfg, Initial(start), es)
    ensures Linear(s)
  {
    InvInitially(cfg, start);
    OrderlyRunsAreSafe(cfg, Initial(start), es);
    LinearIff(cfg, start, es, s);
  }

  // ---- one handler after another -----------------------------------------

  /** The events of one handler that runs to its end, or of any other call. */
  predicate OneCall(es: seq<Event>) {
    forall n :: 0 <= n < |es| ==> !es[n].Crash? && (n > 0 ==> !es[n].FetchRefresh?)
  }

  /** Calls that each start when no handler is at work. */
  ghost predicate Serial(cfg: Config, s: State, calls: seq<seq<Event>>)
    decreases |calls|
  {
    calls != [] ==>
      && OneCall(calls[0]) && Run(cfg, s, calls[0]).Some?
      && Run(cfg, s, calls[0]).value.flights == map[]
      && Serial(cfg, Run(cfg, s, calls[0]).value, calls[1..])
  }

  function Flatten(calls: seq<seq<Event>>): seq<Event> {
    if calls == [] then [] else calls[0] + Flatten(calls[1..])
  }

  lemma {:induction false} RestIsOrderly(cfg: Config, s: State, es: seq<Event>)
    requires forall n :: 0 <= n < |es| ==> !es[n].Crash? && !es[n].FetchRefresh?
    ensures OrderlyRun(cfg, s, es)
    decreases |es|
  {
    if es != [] && Enabled(s, es[0]) {
      RestIsOrderly(cfg, Step(cfg, s, es[0]), es[1..]);
    }
  }

  lemma OneCallIsOrderly(cfg: Config, s: State, es: seq<Event>)
    requires OneCall(es) && s.flights == map[]
    ensures OrderlyRun(cfg, s, es)
  {
    if es != [] && Enabled(s, es[0]) {
      RestIsOrderly(cfg, Step(cfg, s, es[0]), es[1..]);
    }
  }

  lemma {:induction false} OrderlyAppend(cfg: Config, s: State, es: seq<Event>, fs: seq<Event>)
    requires OrderlyRun(cfg, s, es) && Run(cfg, s, es).Some? && OrderlyRun(cfg, Run(cfg, s, es).value, fs)
    ensures OrderlyRun(cfg, s, es + fs)
    decreases |es|
  {
    if es == [] {
      assert es + fs == fs;
    } else {
      assert (es + fs)[0] == es[0] && (es + fs)[1..] == es[1..] + fs;
      OrderlyAppend(cfg, Step(cfg, s, es[0]), es[1..], fs);
    }
  }

  lemma {:induction false} SerialIsOrderly(cfg: Config, s: State, calls: seq<seq<Event>>)
    requires s.flights == map[] && Serial(cfg, s, calls)
    ensures OrderlyRun(cfg, s, Flatten(calls))
    decreases |calls|
  {
    if calls != [] {
      OneCallIsOrderly(cfg, s, calls[0]);
      SerialIsOrderly(cfg, Run(cfg, s, calls[0]).value, calls[1..]);
      OrderlyAppend(cfg, s, calls[0], Flatten(calls[1..]));
    }
  }

  /** The calls lead from an empty server to `m`, which has no handler at work. */
  ghost predicate Served(cfg: Config, start: nat, calls: seq<seq<Event>>, m: State) {
    Serial(cfg, Initial(start), calls) && ReachedBy(cfg, start, Flatten(calls), m) && m.flights == map[]
  }

  lemma {:induction false} SerialSnoc(cfg: Config, s: State, calls: seq<seq<Event>>, es: seq<Event>, m: State)
    requires Serial(cfg, s, calls) && Run(cfg, s, Flatten(calls)).Some? && OneCall(es)
    requires Run(cfg, Run(cfg, s, Flatten(calls)).value, es) == Some(m) && m.flights == map[]
    ensures Serial(cfg, s, calls + [es]) && Run(cfg, s, Flatten(calls + [es])) == Some(m)
    decreases |calls|
  {
    if calls == [] {
      assert calls + [es] == [es] && [es][1..] == [] && es + Flatten([]) == es;
      assert Serial(cfg, m, []);
    } else {
      var t := Run(cfg, s, calls[0]).value;
      assert (calls + [es])[0] == calls[0] && (calls + [es])[1..] == calls[1..] + [es];
      RunAppend(cfg, s, calls[0], Flatten(calls[1..]));
      SerialSnoc(cfg, t, calls[1..], es, m);
      RunAppend(cfg, s, calls[0], Flatten(calls[1..] + [es]));
    }
  }

  /** One more call. */
  lemma ServedSnoc(cfg: Config, start: nat, calls: seq<seq<Event>>, m: State, es: seq<Event>, t: State)
    requires Served(cfg, start, calls, m) && OneCall(es) && Run(cfg, m, es) == Some(t) && t.flights == m.flights
    ensures Served(cfg, start, calls + [es], t)
  {
    SerialSnoc(cfg, Initial(start), calls, es, t);
  }

  /** Calls that run one after another leave every chain a line with at most one valid
      token. */
  lemma SerialCallsGiveLines(cfg: Config, start: nat, calls: seq<seq<Event>>, s: State, a: string, b: string)
    requires Served(cfg, start, calls, s)
    ensures Linear(s)
    ensures a in s.books.refresh && b in s.books.refresh && a != b
            && IsValid(s.books.refresh[a], s.books.now) && IsValid(s.books.refresh[b], s.books.now) ==>
              a in s.books.lineage && b in s.books.lineage && s.books.lineage[a].code != s.books.lineage[b].code
  {
    SerialIsOrderly(cfg, Initial(start), calls);
    OrderlyRunsGiveLines(cfg, start, Flatten(calls), s);
    ReachedRotations(cfg, start, Flatten(calls), s);
    if a in s.books.refresh && b in s.books.refresh {
      LinesHaveOneHead(cfg, s, a, b);
    }
  }
}
