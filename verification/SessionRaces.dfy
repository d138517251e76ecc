/** The calls of both services cut at their store calls: any number of them interleave,
    store calls fail, and handlers stop. A run keeps every session backed, or about to
    be ended, exactly when each of its steps meets a condition that the code does not
    check. Calls that run one after another meet it and are the calls of Sessions. */
module SessionRaces {
  import opened Sessions
  import opened Wrappers

  // ---- state -------------------------------------------------------------

  /** How far RefreshToken is: the session read, the user too, the old session's
      deletion tried. */
  datatype Stage = Found | Known(user: User, at: int) | Cleared(user: User, at: int)

  /** A call under way, with what it has read. Changing is Update, SetPassword and
      ChangePassword: the row to write, whether the user's sessions are to end, and
      whether a failure to end them is reported. */
  datatype Flight =
    | LoggingIn(op: Op, userID: string, user: User, at: int)
    | Refreshing(op: Op, sid: string, session: Session, stage: Stage)
    | Changing(op: Op, id: string, row: User, revokes: bool, strict: bool, written: bool)
    | Deleting(op: Op, id: string, cleared: bool)

  datatype Answer = Answer(op: Op, reply: Reply)

  datatype System = System(base: State, flights: map<nat, Flight>, answers: map<nat, Answer>)

  /** A call that is one store call, the first read of a longer call, its next store
      call, which may fail, and a handler that stops. */
  datatype Event =
    | Whole(op: Op)
    | Begin(h: nat, op: Op)
    | Next(h: nat, ok: bool)
    | Crash(h: nat)

  datatype Admission = Refused(reply: Reply) | Admitted(flight: Flight)

  predicate IsWhole(op: Op) {
    op.Tick? || op.Create? || op.Logout? || op.LogoutAll?
  }

  /** The ids a call draws are new when they are stored. */
  predicate FreshIds(s: State, f: Flight) {
    && (f.LoggingIn? ==> f.op.LogIn? && f.op.sessionID !in s.usedSessionIDs
                         && f.op.refreshToken !in s.usedRefreshTokens)
    && (f.Refreshing? ==> f.op.Refresh? && f.op.newSessionID !in s.usedSessionIDs
                          && f.op.newRefreshToken !in s.usedRefreshTokens)
  }

  predicate Enabled(s: System, e: Event) {
    match e
    case Whole(op) => IsWhole(op) && Possible(s.base, op)
    case Begin(h, op) => h !in s.flights && h !in s.answers && !IsWhole(op) && Possible(s.base, op)
    case Next(h, _) => h in s.flights && FreshIds(s.base, s.flights[h])
    case Crash(h) => h in s.flights
  }

  /** The checks up to and on the first read. */
  function Admit(cfg: Config, s: State, op: Op): Admission
    requires !IsWhole(op) && Possible(s, op)
  {
    match op
    case LogIn(_, _, found, _, _) =>
      var r := AfterLogIn(cfg, s, op).1;
      if r.Failed? then Refused(r) else Admitted(LoggingIn(op, found.value, s.users[found.value], s.now))
    case Refresh(rt, found, _, _) =>
      if rt == "" || found.None? then Refused(Failed(TokenInvalid))
      else if s.now > s.sessions[found.value].expiresAt then Refused(Failed(TokenExpired))
      else Admitted(Refreshing(op, found.value, s.sessions[found.value], Found))
    case Update(id, _, _, newActive) =>
      var r := AfterUpdate(cfg, s, op).1;
      if r.Failed? then Refused(r)
      else Admitted(Changing(op, id, UpdatedRow(cfg, s.users[id], op), newActive == Some(false), false, false))
    case SetPassword(id, _, hash) =>
      var r := AfterSetPassword(cfg, s, op).1;
      if r.Failed? then Refused(r)
      else Admitted(Changing(op, id, s.users[id].(passwordHash := hash), true, true, false))
    case ChangePassword(id, _, _, hash) =>
      var r := AfterChangePassword(cfg, s, op).1;
      if r.Failed? then Refused(r)
      else Admitted(Changing(op, id, s.users[id].(passwordHash := hash), true, true, false))
    case Delete(id) =>
      var r := AfterDelete(cfg, s, id).1;
      if r.Failed? then Refused(r) else Admitted(Deleting(op, id, false))
  }

  // ---- steps -------------------------------------------------------------

  function Finish(s: System, base: State, h: nat, reply: Reply): System
    requires h in s.flights
  {
    System(base, s.flights - {h}, s.answers[h := Answer(s.flights[h].op, reply)])
  }

  function LoginOf(s: State, sid: string): Login {
    if sid in s.logins then s.logins[sid] else Login("", "", "")
  }

  /** A session store that lives beside the users table refers to it: it takes no
      session without a user row and drops sessions with the row. */
  predicate Saves(linked: bool, s: State, userID: string, ok: bool) {
    ok && (linked ==> userID in s.users)
  }

  /** A handler whose next call stores a session: the last step of login and refresh. */
  predicate IsSaver(f: Flight) {
    f.LoggingIn? || (f.Refreshing? && f.stage.Cleared?)
  }

  function Owner(f: Flight): string
    requires IsSaver(f)
  {
    if f.LoggingIn? then f.userID else f.session.userID
  }

  function NewID(f: Flight): string
    requires IsSaver(f) && (f.LoggingIn? ==> f.op.LogIn?) && (f.Refreshing? ==> f.op.Refresh?)
  {
    if f.LoggingIn? then f.op.sessionID else f.op.newSessionID
  }

  function NewToken(f: Flight): string
    requires IsSaver(f) && (f.LoggingIn? ==> f.op.LogIn?) && (f.Refreshing? ==> f.op.Refresh?)
  {
    if f.LoggingIn? then f.op.refreshToken else f.op.newRefreshToken
  }

  /** The login that the session to be stored goes back to. */
  function Behind(s: State, f: Flight): Login
    requires IsSaver(f) && (f.LoggingIn? ==> f.op.LogIn?)
  {
    if f.LoggingIn? then Login(f.userID, f.op.password, f.user.passwordHash) else LoginOf(s, f.sid)
  }

  function SaveNew(s: State, f: Flight): State
    requires IsSaver(f) && FreshIds(s, f)
  {
    var (user, at) := if f.LoggingIn? then (f.user, f.at) else (f.stage.user, f.stage.at);
    SaveSession(s, Owner(f), user, at, NewID(f), NewToken(f), Behind(s, f))
  }

  function NextSave(linked: bool, s: System, h: nat, ok: bool): System
    requires h in s.flights && IsSaver(s.flights[h]) && FreshIds(s.base, s.flights[h])
  {
    var f := s.flights[h];
    if !Saves(linked, s.base, Owner(f), ok) then Finish(s, s.base, h, Failed(StoreFailed))
    else
      var (user, at) := if f.LoggingIn? then (f.user, f.at) else (f.stage.user, f.stage.at);
      Finish(s, SaveNew(s.base, f), h, Answered(Owner(f), user, at, NewID(f), NewToken(f)))
  }

  /** The earlier store calls of RefreshToken: the user, then the old session's
      deletion, whose failure is passed over. */
  function NextRefresh(s: System, h: nat, ok: bool): System
    requires h in s.flights && s.flights[h].Refreshing? && !IsSaver(s.flights[h])
  {
    var f := s.flights[h];
    match f.stage
    case Found =>
      if !ok then Finish(s, s.base, h, Failed(StoreFailed))
      else if f.session.userID !in s.base.users then Finish(s, s.base, h, Failed(NotFound))
      else s.(flights := s.flights[h := f.(stage := Known(s.base.users[f.session.userID], s.base.now))])
    case Known(user, at) =>
      System(if ok then RemoveSession(s.base, f.sid) else s.base, s.flights[h := f.(stage := Cleared(user, at))],
             s.answers)
  }

  function NextChange(s: System, h: nat, ok: bool): System
    requires h in s.flights && s.flights[h].Changing?
  {
    var f := s.flights[h];
    if f.written then
      Finish(s, if ok then RemoveSessionsOf(s.base, f.id) else s.base, h,
             if ok || !f.strict then Done else Failed(StoreFailed))
    else if !ok then Finish(s, s.base, h, Failed(StoreFailed))
    else
      var base := s.base.(users := s.base.users[f.id := f.row]);
      if f.revokes then System(base, s.flights[h := f.(written := true)], s.answers) else Finish(s, base, h, Done)
  }

  function NextDelete(linked: bool, s: System, h: nat, ok: bool): System
    requires h in s.flights && s.flights[h].Deleting?
  {
    var f := s.flights[h];
    if !f.cleared then
      System(if ok then RemoveSessionsOf(s.base, f.id) else s.base, s.flights[h := f.(cleared := true)], s.answers)
    else if !ok then Finish(s, s.base, h, Failed(StoreFailed))
    else if f.id !in s.base.users then Finish(s, s.base, h, Failed(NotFound))
    else
      var kept := if linked then RemoveSessionsOf(s.base, f.id) else s.base;
      Finish(s, kept.(users := s.base.users - {f.id}), h, Done)
  }

  function Step(cfg: Config, linked: bool, s: System, e: Event): System
    requires Enabled(s, e)
  {
    match e
    case Whole(op) => s.(base := Apply(cfg, s.base, op).0)
    case Begin(h, op) =>
      (match Admit(cfg, s.base, op)
       case Refused(r) => s.(answers := s.answers[h := Answer(op, r)])
       case Admitted(f) => s.(flights := s.flights[h := f]))
    case Next(h, ok) =>
      (match s.flights[h]
       case LoggingIn(_, _, _, _) => NextSave(linked, s, h, ok)
       case Refreshing(_, _, _, stage) => if stage.Cleared? then NextSave(linked, s, h, ok) else NextRefresh(s, h, ok)
       case Changing(_, _, _, _, _, _) => NextChange(s, h, ok)
       case Deleting(_, _, _) => NextDelete(linked, s, h, ok))
    case Crash(h) => s.(flights := s.flights - {h})
  }

  function Run(cfg: Config, linked: bool, s: System, es: seq<Event>): Option<System>
    decreases |es|
  {
    if es == [] then Some(s)
    else if Enabled(s, es[0]) then Run(cfg, linked, Step(cfg, linked, s, es[0]), es[1..])
    else None
  }

  function Initial(now: int): System {
    System(Empty(now), map[], map[])
  }

  // ---- what single steps answer ------------------------------------------

  /** A store call that fails changes no store. Refresh passes over it when it was to
      delete the old session, Delete when it was to end the user's sessions, Update when
      it was to end those of a user it has deactivated; any other ends the call with an
      error. */
  lemma FailedCallDoes(cfg: Config, linked: bool, s: System, h: nat)
    requires Enabled(s, Next(h, false))
    ensures var t, f := Step(cfg, linked, s, Next(h, false)), s.flights[h];
            var passedOver := (f.Refreshing? && f.stage.Known?) || (f.Deleting? && !f.cleared);
            && t.base == s.base
            && (h in t.flights <==> passedOver)
            && (passedOver ==> t.answers == s.answers)
            && (!passedOver ==>
                  t.answers == s.answers[h := Answer(f.op, if f.Changing? && f.written && !f.strict then Done
                                                           else Failed(StoreFailed))])
  {
  }

  /** Of calls under way only those on a user who is gone by now fail without a store
      failure: Refresh and Delete report it; a login, and a refresh past its reads, only
      notice if sessions are linked to users. The others are done with their last call. */
  lemma WorkingCallDoes(cfg: Config, linked: bool, s: System, h: nat)
    requires Enabled(s, Next(h, true))
    ensures var t, f := Step(cfg, linked, s, Next(h, true)), s.flights[h];
            match f
            case LoggingIn(op, userID, _, _) =>
              h in t.answers && (t.answers[h].reply.LoggedIn? <==> linked ==> userID in s.base.users)
            case Refreshing(op, _, session, stage) =>
              (match stage
               case Found =>
                 if session.userID in s.base.users then h in t.flights && t.flights[h].stage.Known?
                 else h !in t.flights && t.answers[h].reply == Failed(NotFound)
               case Known(_, _) => h in t.flights && t.flights[h].stage.Cleared? && f.sid !in t.base.sessions
               case Cleared(_, _) =>
                 h in t.answers && (t.answers[h].reply.LoggedIn? <==> linked ==> session.userID in s.base.users))
            case Changing(op, id, row, revokes, _, written) =>
              && (h !in t.flights <==> written || !revokes)
              && (h !in t.flights ==> t.answers[h].reply == Done)
              && (!written ==> t.base.users == s.base.users[id := row] && t.base.sessions == s.base.sessions)
              && (written ==> t.base.users == s.base.users
                              && forall x :: x in t.base.sessions ==> t.base.sessions[x].userID != id)
            case Deleting(op, id, cleared) =>
              if cleared then
                && h !in t.flights && id !in t.base.users
                && t.answers[h].reply == (if id in s.base.users then Done else Failed(NotFound))
              else h in t.flights && forall x :: x in t.base.sessions ==> t.base.sessions[x].userID != id
  {
  }

  // ---- what a session goes back to ---------------------------------------

  /** The login is the user's, and its password passed. */
  predicate LoginFits(cfg: Config, login: Login, userID: string) {
    login.userID == userID && cfg.verify(login.password, login.passwordHash)
  }

  predicate SessionTraced(cfg: Config, s: State, sid: string)
    requires sid in s.sessions
  {
    sid in s.logins && LoginFits(cfg, s.logins[sid], s.sessions[sid].userID)
  }

  predicate FlightTraced(cfg: Config, s: State, f: Flight) {
    match f
    case LoggingIn(op, _, user, _) => op.LogIn? && cfg.verify(op.password, user.passwordHash)
    case Refreshing(op, sid, session, _) =>
      op.Refresh? && sid in s.logins && LoginFits(cfg, s.logins[sid], session.userID)
    case Changing(_, _, _, revokes, _, written) => written ==> revokes
    case Deleting(_, _, _) => true
  }

  /** In every run: sessions, stored or held, go back to a login that passed. */
  ghost predicate Traced(cfg: Config, s: System) {
    && (forall sid {:trigger SessionTraced(cfg, s.base, sid)} :: sid in s.base.sessions ==>
          SessionTraced(cfg, s.base, sid))
    && (forall h {:trigger FlightTraced(cfg, s.base, s.flights[h])} :: h in s.flights ==>
          FlightTraced(cfg, s.base, s.flights[h]))
    && s.base.logins.Keys <= s.base.usedSessionIDs
  }

  /** The step stores a session. */
  predicate Opens(linked: bool, s: System, e: Event) {
    && e.Next? && e.h in s.flights && IsSaver(s.flights[e.h])
    && Saves(linked, s.base, Owner(s.flights[e.h]), e.ok)
  }

  /** No other step adds or changes a session or its login. */
  lemma RowsKept(cfg: Config, linked: bool, s: System, e: Event)
    requires Enabled(s, e) && !Opens(linked, s, e)
    ensures var a, b := s.base, Step(cfg, linked, s, e).base;
            && a.logins == b.logins && a.usedSessionIDs == b.usedSessionIDs
            && (forall sid :: sid in b.sessions ==> sid in a.sessions && b.sessions[sid] == a.sessions[sid])
  {
    if e.Whole? { WholeRowsKept(cfg, s.base, e.op); }
  }

  lemma WholeRowsKept(cfg: Config, s: State, op: Op)
    requires IsWhole(op) && Possible(s, op)
    ensures var t := Apply(cfg, s, op).0;
            && s.logins == t.logins && s.usedSessionIDs == t.usedSessionIDs
            && (forall sid :: sid in t.sessions ==> sid in s.sessions && t.sessions[sid] == s.sessions[sid])
  {
  }

  lemma OpensOne(cfg: Config, linked: bool, s: System, e: Event)
    requires Enabled(s, e) && Opens(linked, s, e)
    ensures Step(cfg, linked, s, e).base == SaveNew(s.base, s.flights[e.h])
    ensures Step(cfg, linked, s, e).flights == s.flights - {e.h}
  {
  }

  lemma StepKeepsTraced(cfg: Config, linked: bool, s: System, e: Event)
    requires Traced(cfg, s) && Enabled(s, e)
    ensures Traced(cfg, Step(cfg, linked, s, e))
  {
    var t := Step(cfg, linked, s, e);
    if Opens(linked, s, e) {
      OpensOne(cfg, linked, s, e);
      assert FlightTraced(cfg, s.base, s.flights[e.h]);
    } else {
      RowsKept(cfg, linked, s, e);
    }
    forall sid | sid in t.base.sessions ensures SessionTraced(cfg, t.base, sid) {
      assert sid in s.base.sessions ==> SessionTraced(cfg, s.base, sid);
    }
    forall k | k in t.flights ensures FlightTraced(cfg, t.base, t.flights[k]) {
      FlightsTraced(cfg, linked, s, e, k);
    }
  }

  lemma FlightsTraced(cfg: Config, linked: bool, s: System, e: Event, k: nat)
    requires Traced(cfg, s) && Enabled(s, e) && k in Step(cfg, linked, s, e).flights
    ensures FlightTraced(cfg, s.base, Step(cfg, linked, s, e).flights[k])
  {
    assert k in s.flights ==> FlightTraced(cfg, s.base, s.flights[k]);
    if e.Begin? && e.h == k { AdmitTraced(cfg, s, e.op); }
  }

  lemma AdmitTraced(cfg: Config, s: System, op: Op)
    requires Traced(cfg, s) && !IsWhole(op) && Possible(s.base, op) && Admit(cfg, s.base, op).Admitted?
    ensures FlightTraced(cfg, s.base, Admit(cfg, s.base, op).flight)
  {
    if op.Refresh? {
      assert SessionTraced(cfg, s.base, op.found.value);
    }
  }

  // ---- sound states ------------------------------------------------------

  /** A handler that has written a user row and is about to end the user's sessions. */
  predicate Ends(f: Flight, userID: string) {
    f.Changing? && f.written && f.id == userID
  }

  ghost predicate Ending(flights: map<nat, Flight>, userID: string) {
    exists h :: h in flights && Ends(flights[h], userID)
  }

  /** The session is backed, or its end is under way. */
  ghost predicate Covered(cfg: Config, s: System, sid: string)
    requires sid in s.base.sessions
  {
    Backed(cfg, s.base, sid) || Ending(s.flights, s.base.sessions[sid].userID)
  }

  ghost predicate Sound(cfg: Config, s: System) {
    forall sid {:trigger Covered(cfg, s, sid)} :: sid in s.base.sessions ==> Covered(cfg, s, sid)
  }

  /** With no call under way every session is backed. */
  lemma SoundAtRest(cfg: Config, s: System, sid: string)
    requires Sound(cfg, s) && s.flights == map[] && sid in s.base.sessions
    ensures Backed(cfg, s.base, sid)
  {
    assert Covered(cfg, s, sid);
  }

  // ---- safe steps --------------------------------------------------------

  /** The user is there, active, and has this password hash: one look at the row. */
  predicate Current(s: State, userID: string, hash: string) {
    userID in s.users && s.users[userID].active && s.users[userID].passwordHash == hash
  }

  predicate HasSessions(s: State, userID: string) {
    exists sid :: sid in s.sessions && s.sessions[sid].userID == userID
  }

  /** Every session of the user was opened with the hash in the user's row. */
  predicate AllCurrent(s: State, userID: string) {
    forall sid :: sid in s.sessions && s.sessions[sid].userID == userID ==>
      Current(s, userID, LoginOf(s, sid).passwordHash)
  }

  /** What makes a step harmless. A session is stored while its user is active with the
      hash the session goes back to; a row written over sessions that stay leaves the
      hash and Active as they are; sessions that are to end do end, unless all of them
      go back to the row as it is; a row is deleted after the last session. Each holds
      too while another handler is about to end the user's sessions. */
  ghost predicate Safe(linked: bool, s: System, e: Event)
    requires Enabled(s, e)
  {
    match e
    case Whole(_) => true
    case Begin(_, _) => true
    case Next(h, ok) =>
      var f := s.flights[h];
      if IsSaver(f) then
        Saves(linked, s.base, Owner(f), ok) ==>
          Current(s.base, Owner(f), Behind(s.base, f).passwordHash) || Ending(s.flights, Owner(f))
      else if f.Changing? && !f.written then
        ok && !f.revokes && HasSessions(s.base, f.id) && !Ending(s.flights, f.id) ==>
          f.row.active && Current(s.base, f.id, f.row.passwordHash)
      else if f.Changing? then !ok ==> Ending(s.flights - {h}, f.id) || AllCurrent(s.base, f.id)
      else if f.Deleting? && f.cleared then
        ok && !linked && f.id in s.base.users ==> !HasSessions(s.base, f.id) || Ending(s.flights, f.id)
      else true
    case Crash(h) =>
      var f := s.flights[h];
      f.Changing? && f.written ==> Ending(s.flights - {h}, f.id) || AllCurrent(s.base, f.id)
  }

  lemma BackedIff(cfg: Config, s: System, sid: string)
    requires Traced(cfg, s) && sid in s.base.sessions
    ensures Backed(cfg, s.base, sid) <==>
              Current(s.base, s.base.sessions[sid].userID, LoginOf(s.base, sid).passwordHash)
  {
    assert SessionTraced(cfg, s.base, sid);
  }

  // ---- who ends what -----------------------------------------------------

  lemma EndingWithout(flights: map<nat, Flight>, h: nat, userID: string)
    requires h in flights
    ensures Ending(flights, userID) <==> Ending(flights - {h}, userID) || Ends(flights[h], userID)
  {
    if Ending(flights, userID) && !Ends(flights[h], userID) {
      var k :| k in flights && Ends(flights[k], userID);
      assert k in flights - {h} && (flights - {h})[k] == flights[k];
    }
    if Ending(flights - {h}, userID) {
      var k :| k in flights - {h} && Ends((flights - {h})[k], userID);
      assert flights[k] == (flights - {h})[k];
    }
  }

  lemma EndingWith(flights: map<nat, Flight>, h: nat, f: Flight, userID: string)
    ensures Ending(flights[h := f], userID) <==> Ending(flights - {h}, userID) || Ends(f, userID)
  {
    EndingWithout(flights[h := f], h, userID);
    assert flights[h := f] - {h} == flights - {h};
  }

  /** A session and its user's row that a step leaves alone. */
  lemma CoveredSame(cfg: Config, s: System, t: System, sid: string, u: string)
    requires sid in s.base.sessions && sid in t.base.sessions && s.base.sessions[sid] == t.base.sessions[sid]
    requires sid in s.base.logins && sid in t.base.logins && s.base.logins[sid] == t.base.logins[sid]
    requires u == s.base.sessions[sid].userID && (Ending(s.flights, u) <==> Ending(t.flights, u))
    requires u in s.base.users <==> u in t.base.users
    requires u in s.base.users ==> s.base.users[u] == t.base.users[u]
    ensures Covered(cfg, s, sid) <==> Covered(cfg, t, sid)
  {
  }

  // ---- one step ----------------------------------------------------------

  /** A step after which no session, user row or ending handler is worse off. */
  lemma QuietKeepsSound(cfg: Config, s: System, t: System)
    requires Traced(cfg, s) && Sound(cfg, s) && t.base.logins == s.base.logins
    requires forall sid :: sid in t.base.sessions ==>
               sid in s.base.sessions && t.base.sessions[sid] == s.base.sessions[sid]
    requires forall u :: u in s.base.users ==> u in t.base.users && t.base.users[u] == s.base.users[u]
    requires forall h :: h in s.flights && s.flights[h].Changing? && s.flights[h].written ==>
               h in t.flights && t.flights[h] == s.flights[h]
    ensures Sound(cfg, t)
  {
    forall sid | sid in t.base.sessions ensures Covered(cfg, t, sid) {
      assert Covered(cfg, s, sid);
      var u := s.base.sessions[sid].userID;
      if Ending(s.flights, u) {
        var h :| h in s.flights && Ends(s.flights[h], u);
        assert Ends(t.flights[h], u);
      }
    }
  }

  /** A session is stored for a user row read earlier. */
  lemma OpenSoundIff(cfg: Config, linked: bool, s: System, h: nat)
    requires Traced(cfg, s) && Sound(cfg, s) && Enabled(s, Next(h, true)) && Opens(linked, s, Next(h, true))
    ensures Sound(cfg, Step(cfg, linked, s, Next(h, true))) <==>
              Current(s.base, Owner(s.flights[h]), Behind(s.base, s.flights[h]).passwordHash)
              || Ending(s.flights, Owner(s.flights[h]))
  {
    var t, f := Step(cfg, linked, s, Next(h, true)), s.flights[h];
    OpensOne(cfg, linked, s, Next(h, true));
    assert FlightTraced(cfg, s.base, f);
    forall u ensures Ending(t.flights, u) <==> Ending(s.flights, u) { EndingWithout(s.flights, h, u); }
    forall sid | sid in t.base.sessions && sid != NewID(f) ensures Covered(cfg, t, sid) {
      assert Covered(cfg, s, sid) && SessionTraced(cfg, s.base, sid);
      CoveredSame(cfg, s, t, sid, s.base.sessions[sid].userID);
    }
    NewIsBacked(cfg, s.base, f);
    assert Covered(cfg, t, NewID(f)) <==>
           Current(s.base, Owner(f), Behind(s.base, f).passwordHash) || Ending(s.flights, Owner(f));
  }

  lemma NewIsBacked(cfg: Config, s: State, f: Flight)
    requires IsSaver(f) && FreshIds(s, f) && FlightTraced(cfg, s, f)
    ensures NewID(f) in SaveNew(s, f).sessions && SaveNew(s, f).sessions[NewID(f)].userID == Owner(f)
    ensures Backed(cfg, SaveNew(s, f), NewID(f)) <==> Current(s, Owner(f), Behind(s, f).passwordHash)
  {
  }

  /** A user row is written and the handler ends the user's sessions next. */
  lemma RevokingWriteKeepsSound(cfg: Config, s: System, t: System, h: nat, id: string, row: User, f: Flight)
    requires Traced(cfg, s) && Sound(cfg, s) && h in s.flights && Ends(f, id)
    requires !(s.flights[h].Changing? && s.flights[h].written)
    requires t.base == s.base.(users := s.base.users[id := row]) && t.flights == s.flights[h := f]
    ensures Sound(cfg, t)
  {
    forall u ensures Ending(t.flights, u) <==> Ending(s.flights, u) || u == id {
      EndingWith(s.flights, h, f, u);
      EndingWithout(s.flights, h, u);
    }
    forall sid | sid in t.base.sessions ensures Covered(cfg, t, sid) {
      assert Covered(cfg, s, sid) && SessionTraced(cfg, s.base, sid);
      if s.base.sessions[sid].userID != id {
        CoveredSame(cfg, s, t, sid, s.base.sessions[sid].userID);
      }
    }
  }

  /** A user row is written and the user's sessions stay. */
  lemma WriteSoundIff(cfg: Config, s: System, t: System, h: nat, id: string, row: User)
    requires Traced(cfg, s) && Sound(cfg, s) && h in s.flights && !(s.flights[h].Changing? && s.flights[h].written)
    requires t.base == s.base.(users := s.base.users[id := row]) && t.flights == s.flights - {h}
    ensures Sound(cfg, t) <==>
              (HasSessions(s.base, id) && !Ending(s.flights, id) ==>
                 row.active && Current(s.base, id, row.passwordHash))
  {
    forall u ensures Ending(t.flights, u) <==> Ending(s.flights, u) { EndingWithout(s.flights, h, u); }
    forall sid | sid in t.base.sessions && s.base.sessions[sid].userID != id ensures Covered(cfg, t, sid) {
      assert Covered(cfg, s, sid) && SessionTraced(cfg, s.base, sid);
      CoveredSame(cfg, s, t, sid, s.base.sessions[sid].userID);
    }
    forall sid | sid in t.base.sessions && s.base.sessions[sid].userID == id
      ensures Covered(cfg, t, sid) <==>
                Ending(s.flights, id) || (row.active && Current(s.base, id, row.passwordHash))
    {
      assert Covered(cfg, s, sid) && SessionTraced(cfg, s.base, sid);
    }
    if HasSessions(s.base, id) {
      var sid :| sid in s.base.sessions && s.base.sessions[sid].userID == id;
      assert Sound(cfg, t) ==> Covered(cfg, t, sid);
    }
  }

  /** The sessions of a user are deleted as announced. */
  lemma EndKeepsSound(cfg: Config, s: System, t: System, h: nat, id: string)
    requires Traced(cfg, s) && Sound(cfg, s) && h in s.flights && Ends(s.flights[h], id)
    requires t.base == RemoveSessionsOf(s.base, id) && t.flights == s.flights - {h}
    ensures Sound(cfg, t)
  {
    forall sid | sid in t.base.sessions ensures Covered(cfg, t, sid) {
      assert Covered(cfg, s, sid) && SessionTraced(cfg, s.base, sid);
      EndingWithout(s.flights, h, s.base.sessions[sid].userID);
      CoveredSame(cfg, s, t, sid, s.base.sessions[sid].userID);
    }
  }

  /** They are not: the deletion fails, or the handler stops before it. */
  lemma LostEndSoundIff(cfg: Config, s: System, t: System, h: nat, id: string)
    requires Traced(cfg, s) && Sound(cfg, s) && h in s.flights && Ends(s.flights[h], id)
    requires t.base == s.base && t.flights == s.flights - {h}
    ensures Sound(cfg, t) <==> Ending(s.flights - {h}, id) || AllCurrent(s.base, id)
  {
    forall sid | sid in t.base.sessions && s.base.sessions[sid].userID != id ensures Covered(cfg, t, sid) {
      assert Covered(cfg, s, sid) && SessionTraced(cfg, s.base, sid);
      EndingWithout(s.flights, h, s.base.sessions[sid].userID);
      CoveredSame(cfg, s, t, sid, s.base.sessions[sid].userID);
    }
    forall sid | sid in t.base.sessions && s.base.sessions[sid].userID == id
      ensures Covered(cfg, t, sid) <==>
                Ending(s.flights - {h}, id) || Current(s.base, id, LoginOf(s.base, sid).passwordHash)
    {
      BackedIff(cfg, s, sid);
    }
    if Sound(cfg, t) && !Ending(s.flights - {h}, id) {
      forall sid | sid in s.base.sessions && s.base.sessions[sid].userID == id
        ensures Current(s.base, id, LoginOf(s.base, sid).passwordHash)
      {
        assert Covered(cfg, t, sid);
      }
    }
  }

  /** A user row is deleted; sessions that refer to it go too, others do not. */
  lemma DropSoundIff(cfg: Config, linked: bool, s: System, t: System, h: nat, id: string)
    requires Traced(cfg, s) && Sound(cfg, s) && h in s.flights && !(s.flights[h].Changing? && s.flights[h].written)
    requires t.flights == s.flights - {h}
    requires t.base == (if linked then RemoveSessionsOf(s.base, id) else s.base).(users := s.base.users - {id})
    ensures Sound(cfg, t) <==> (!linked ==> !HasSessions(s.base, id) || Ending(s.flights, id))
  {
    forall u ensures Ending(t.flights, u) <==> Ending(s.flights, u) { EndingWithout(s.flights, h, u); }
    forall sid | sid in t.base.sessions && s.base.sessions[sid].userID != id ensures Covered(cfg, t, sid) {
      assert Covered(cfg, s, sid) && SessionTraced(cfg, s.base, sid);
      CoveredSame(cfg, s, t, sid, s.base.sessions[sid].userID);
    }
    forall sid | sid in t.base.sessions && s.base.sessions[sid].userID == id
      ensures Covered(cfg, t, sid) <==> Ending(s.flights, id)
    {
    }
    if !linked && HasSessions(s.base, id) {
      var sid :| sid in s.base.sessions && s.base.sessions[sid].userID == id;
      assert Sound(cfg, t) ==> Covered(cfg, t, sid);
    }
  }

  lemma ChangeSoundIff(cfg: Config, linked: bool, s: System, h: nat, ok: bool)
    requires Traced(cfg, s) && Sound(cfg, s) && Enabled(s, Next(h, ok)) && s.flights[h].Changing?
    ensures Sound(cfg, Step(cfg, linked, s, Next(h, ok))) <==> Safe(linked, s, Next(h, ok))
  {
    var t, f := Step(cfg, linked, s, Next(h, ok)), s.flights[h];
    if f.written {
      if ok {
        EndKeepsSound(cfg, s, t, h, f.id);
      } else {
        LostEndSoundIff(cfg, s, t, h, f.id);
      }
    } else if !ok {
      QuietKeepsSound(cfg, s, t);
    } else if f.revokes {
      RevokingWriteKeepsSound(cfg, s, t, h, f.id, f.row, f.(written := true));
    } else {
      WriteSoundIff(cfg, s, t, h, f.id, f.row);
    }
  }

  lemma DeleteSoundIff(cfg: Config, linked: bool, s: System, h: nat, ok: bool)
    requires Traced(cfg, s) && Sound(cfg, s) && Enabled(s, Next(h, ok)) && s.flights[h].Deleting?
    ensures Sound(cfg, Step(cfg, linked, s, Next(h, ok))) <==> Safe(linked, s, Next(h, ok))
  {
    var t, f := Step(cfg, linked, s, Next(h, ok)), s.flights[h];
    if f.cleared && ok && f.id in s.base.users {
      DropSoundIff(cfg, linked, s, t, h, f.id);
    } else {
      QuietKeepsSound(cfg, s, t);
    }
  }

  lemma SaveSoundIff(cfg: Config, linked: bool, s: System, h: nat, ok: bool)
    requires Traced(cfg, s) && Sound(cfg, s) && Enabled(s, Next(h, ok))
    requires s.flights[h].LoggingIn? || s.flights[h].Refreshing?
    ensures Sound(cfg, Step(cfg, linked, s, Next(h, ok))) <==> Safe(linked, s, Next(h, ok))
  {
    if Opens(linked, s, Next(h, ok)) {
      OpenSoundIff(cfg, linked, s, h);
    } else {
      RowsKept(cfg, linked, s, Next(h, ok));
      QuietKeepsSound(cfg, s, Step(cfg, linked, s, Next(h, ok)));
    }
  }

  lemma CrashSoundIff(cfg: Config, linked: bool, s: System, h: nat)
    requires Traced(cfg, s) && Sound(cfg, s) && Enabled(s, Crash(h))
    ensures Sound(cfg, Step(cfg, linked, s, Crash(h))) <==> Safe(linked, s, Crash(h))
  {
    var f := s.flights[h];
    if f.Changing? && f.written {
      LostEndSoundIff(cfg, s, Step(cfg, linked, s, Crash(h)), h, f.id);
    } else {
      QuietKeepsSound(cfg, s, Step(cfg, linked, s, Crash(h)));
    }
  }

  /** A step keeps every session backed, or about to be ended, exactly when it is safe. */
  lemma StepSoundIff(cfg: Config, linked: bool, s: System, e: Event)
    requires Traced(cfg, s) && Sound(cfg, s) && Enabled(s, e)
    ensures Sound(cfg, Step(cfg, linked, s, e)) <==> Safe(linked, s, e)
  {
    match e
    case Whole(op) =>
      WholeRowsKept(cfg, s.base, op);
      QuietKeepsSound(cfg, s, Step(cfg, linked, s, e));
    case Begin(_, _) => QuietKeepsSound(cfg, s, Step(cfg, linked, s, e));
    case Next(h, ok) =>
      if s.flights[h].Changing? {
        ChangeSoundIff(cfg, linked, s, h, ok);
      } else if s.flights[h].Deleting? {
        DeleteSoundIff(cfg, linked, s, h, ok);
      } else {
        SaveSoundIff(cfg, linked, s, h, ok);
      }
    case Crash(h) => CrashSoundIff(cfg, linked, s, h);
  }

  // ---- runs --------------------------------------------------------------

  ghost predicate SafeRun(cfg: Config, linked: bool, s: System, es: seq<Event>)
    decreases |es|
  {
    es != [] && Enabled(s, es[0]) ==>
      Safe(linked, s, es[0]) && SafeRun(cfg, linked, Step(cfg, linked, s, es[0]), es[1..])
  }

  /** Every state on the way is sound. */
  ghost predicate SoundRun(cfg: Config, linked: bool, s: System, es: seq<Event>)
    decreases |es|
  {
    Sound(cfg, s)
    && (es != [] && Enabled(s, es[0]) ==> SoundRun(cfg, linked, Step(cfg, linked, s, es[0]), es[1..]))
  }

  lemma {:induction false} SoundRunIffFrom(cfg: Config, linked: bool, s: System, es: seq<Event>)
    requires Traced(cfg, s) && Sound(cfg, s)
    ensures SoundRun(cfg, linked, s, es) <==> SafeRun(cfg, linked, s, es)
    decreases |es|
  {
    if es != [] && Enabled(s, es[0]) {
      var t := Step(cfg, linked, s, es[0]);
      StepSoundIff(cfg, linked, s, es[0]);
      StepKeepsTraced(cfg, linked, s, es[0]);
      if Sound(cfg, t) {
        SoundRunIffFrom(cfg, linked, t, es[1..]);
      }
    }
  }

  /** From empty stores, in any interleaving and with any failures, every session is
      backed or about to be ended all along the run exactly when every step was safe. */
  lemma SoundRunIff(cfg: Config, linked: bool, start: int, es: seq<Event>)
    ensures SoundRun(cfg, linked, Initial(start), es) <==> SafeRun(cfg, linked, Initial(start), es)
  {
    SoundRunIffFrom(cfg, linked, Initial(start), es);
  }

  // ---- calls one after another -------------------------------------------

  /** One safe event in front of a safe run. */
  lemma {:induction false} Prepend(cfg: Config, linked: bool, s: System, e: Event, es: seq<Event>)
    returns (fs: seq<Event>)
    requires Enabled(s, e) && Safe(linked, s, e) && SafeRun(cfg, linked, Step(cfg, linked, s, e), es)
    ensures Run(cfg, linked, s, fs) == Run(cfg, linked, Step(cfg, linked, s, e), es) && SafeRun(cfg, linked, s, fs)
  {
    fs := [e] + es;
    assert fs[0] == e && fs[1..] == es;
  }

  lemma {:induction false} RunAppend(cfg: Config, linked: bool, s: System, es: seq<Event>, fs: seq<Event>)
    requires Run(cfg, linked, s, es).Some?
    ensures Run(cfg, linked, s, es + fs) == Run(cfg, linked, Run(cfg, linked, s, es).value, fs)
    ensures SafeRun(cfg, linked, s, es) && SafeRun(cfg, linked, Run(cfg, linked, s, es).value, fs) ==>
              SafeRun(cfg, linked, s, es + fs)
    decreases |es|
  {
    if es == [] {
      assert es + fs == fs;
    } else {
      RunAppend(cfg, linked, Step(cfg, linked, s, es[0]), es[1..], fs);
      assert (es + fs)[0] == es[0] && (es + fs)[1..] == es[1..] + fs;
    }
  }

  /** The state after a call that ran alone. */
  function Served(cfg: Config, s: System, h: nat, op: Op): System
    requires Possible(s.base, op)
  {
    System(Apply(cfg, s.base, op).0, map[], s.answers[h := Answer(op, Apply(cfg, s.base, op).1)])
  }

  predicate Idle(s: System, h: nat, op: Op) {
    s.flights == map[] && h !in s.answers && !IsWhole(op) && Possible(s.base, op)
  }

  /** The last store call of a handler that runs alone. */
  lemma {:induction false} Last(cfg: Config, linked: bool, s: System, h: nat, t: System) returns (es: seq<Event>)
    requires Enabled(s, Next(h, true)) && Safe(linked, s, Next(h, true)) && Step(cfg, linked, s, Next(h, true)) == t
    ensures Run(cfg, linked, s, es) == Some(t) && SafeRun(cfg, linked, s, es)
  {
    es := Prepend(cfg, linked, s, Next(h, true), []);
  }

  lemma {:induction false} LogInAlone(cfg: Config, linked: bool, s: System, h: nat, op: Op) returns (es: seq<Event>)
    requires Idle(s, h, op) && op.LogIn? && Admit(cfg, s.base, op).Admitted?
    ensures Run(cfg, linked, s, es) == Some(Served(cfg, s, h, op)) && SafeRun(cfg, linked, s, es)
  {
    var s1 := Step(cfg, linked, s, Begin(h, op));
    assert s1.flights - {h} == map[];
    es := Last(cfg, linked, s1, h, Served(cfg, s, h, op));
    es := Prepend(cfg, linked, s, Begin(h, op), es);
  }

  lemma {:induction false} RefreshAlone(cfg: Config, linked: bool, s: System, h: nat, op: Op) returns (es: seq<Event>)
    requires Idle(s, h, op) && op.Refresh? && Admit(cfg, s.base, op).Admitted? && Sound(cfg, s)
    ensures Run(cfg, linked, s, es) == Some(Served(cfg, s, h, op)) && SafeRun(cfg, linked, s, es)
  {
    SoundAtRest(cfg, s, op.found.value);
    var s1 := Step(cfg, linked, s, Begin(h, op));
    var s2 := Step(cfg, linked, s1, Next(h, true));
    var s3 := Step(cfg, linked, s2, Next(h, true));
    assert s3.flights - {h} == map[];
    es := Last(cfg, linked, s3, h, Served(cfg, s, h, op));
    es := Prepend(cfg, linked, s2, Next(h, true), es);
    es := Prepend(cfg, linked, s1, Next(h, true), es);
    es := Prepend(cfg, linked, s, Begin(h, op), es);
  }

  predicate IsChange(op: Op) {
    op.Update? || op.SetPassword? || op.ChangePassword?
  }

  lemma {:induction false} RevokingChangeAlone(cfg: Config, linked: bool, s: System, h: nat, op: Op)
    returns (es: seq<Event>)
    requires Idle(s, h, op) && IsChange(op) && Admit(cfg, s.base, op).Admitted? && Admit(cfg, s.base, op).flight.revokes
    ensures Run(cfg, linked, s, es) == Some(Served(cfg, s, h, op)) && SafeRun(cfg, linked, s, es)
  {
    var s1 := Step(cfg, linked, s, Begin(h, op));
    var s2 := Step(cfg, linked, s1, Next(h, true));
    assert s2.flights - {h} == map[];
    es := Last(cfg, linked, s2, h, Served(cfg, s, h, op));
    es := Prepend(cfg, linked, s1, Next(h, true), es);
    es := Prepend(cfg, linked, s, Begin(h, op), es);
  }

  lemma {:induction false} PlainUpdateAlone(cfg: Config, linked: bool, s: System, h: nat, op: Op)
    returns (es: seq<Event>)
    requires Idle(s, h, op) && op.Update? && op.newActive != Some(false) && Sound(cfg, s)
    requires Admit(cfg, s.base, op).Admitted?
    ensures Run(cfg, linked, s, es) == Some(Served(cfg, s, h, op)) && SafeRun(cfg, linked, s, es)
  {
    var s1 := Step(cfg, linked, s, Begin(h, op));
    assert s1.flights - {h} == map[];
    if HasSessions(s.base, op.id) {
      var sid :| sid in s.base.sessions && s.base.sessions[sid].userID == op.id;
      SoundAtRest(cfg, s, sid);
    }
    es := Last(cfg, linked, s1, h, Served(cfg, s, h, op));
    es := Prepend(cfg, linked, s, Begin(h, op), es);
  }

  lemma {:induction false} DeleteAlone(cfg: Config, linked: bool, s: System, h: nat, op: Op) returns (es: seq<Event>)
    requires Idle(s, h, op) && op.Delete? && Admit(cfg, s.base, op).Admitted?
    ensures Run(cfg, linked, s, es) == Some(Served(cfg, s, h, op)) && SafeRun(cfg, linked, s, es)
  {
    var s1 := Step(cfg, linked, s, Begin(h, op));
    var s2 := Step(cfg, linked, s1, Next(h, true));
    assert s2.flights - {h} == map[];
    assert RemoveSessionsOf(s2.base, op.id) == s2.base;
    es := Last(cfg, linked, s2, h, Served(cfg, s, h, op));
    es := Prepend(cfg, linked, s1, Next(h, true), es);
    es := Prepend(cfg, linked, s, Begin(h, op), es);
  }

  /** A call that runs alone, with no failing store, is one call of Sessions, and safe. */
  lemma {:induction false} CallAlone(cfg: Config, linked: bool, s: System, h: nat, op: Op) returns (es: seq<Event>)
    requires Idle(s, h, op) && Sound(cfg, s)
    ensures Run(cfg, linked, s, es) == Some(Served(cfg, s, h, op)) && SafeRun(cfg, linked, s, es)
  {
    if Admit(cfg, s.base, op).Refused? {
      RefusedAlike(cfg, s.base, op);
      es := Prepend(cfg, linked, s, Begin(h, op), []);
    } else if op.LogIn? {
      es := LogInAlone(cfg, linked, s, h, op);
    } else if op.Refresh? {
      es := RefreshAlone(cfg, linked, s, h, op);
    } else if op.Delete? {
      es := DeleteAlone(cfg, linked, s, h, op);
    } else if op.Update? && op.newActive != Some(false) {
      es := PlainUpdateAlone(cfg, linked, s, h, op);
    } else {
      es := RevokingChangeAlone(cfg, linked, s, h, op);
    }
  }

  lemma RefusedAlike(cfg: Config, s: State, op: Op)
    requires !IsWhole(op) && Possible(s, op) && Admit(cfg, s, op).Refused?
    ensures Apply(cfg, s, op) == (s, Admit(cfg, s, op).reply)
  {
  }

  /** Every run of Sessions is a safe run of this machine, from the same stores to the
      same stores: what Sessions proves holds of calls that run one after another. */
  lemma {:induction false} SerialCallsAreSafe(cfg: Config, linked: bool, s: System, ops: seq<Op>)
    returns (es: seq<Event>, t: System)
    requires s.flights == map[] && Traced(cfg, s) && Sound(cfg, s) && Sessions.Run(cfg, s.base, ops).Some?
    ensures Run(cfg, linked, s, es) == Some(t) && SafeRun(cfg, linked, s, es)
    ensures t.flights == map[] && t.base == Sessions.Run(cfg, s.base, ops).value
    decreases |ops|
  {
    if ops == [] {
      es, t := [], s;
    } else {
      var first, u := OneCall(cfg, linked, s, ops[0]);
      var rest;
      rest, t := SerialCallsAreSafe(cfg, linked, u, ops[1..]);
      es := first + rest;
      RunAppend(cfg, linked, s, first, rest);
    }
  }

  lemma {:induction false} OneCall(cfg: Config, linked: bool, s: System, op: Op) returns (es: seq<Event>, t: System)
    requires s.flights == map[] && Traced(cfg, s) && Sound(cfg, s) && Possible(s.base, op)
    ensures Run(cfg, linked, s, es) == Some(t) && SafeRun(cfg, linked, s, es)
    ensures t.flights == map[] && t.base == Apply(cfg, s.base, op).0 && Traced(cfg, t) && Sound(cfg, t)
  {
    if IsWhole(op) {
      es := Prepend(cfg, linked, s, Whole(op), []);
      t := Step(cfg, linked, s, Whole(op));
    } else {
      var h := AboveAll(s.answers.Keys);
      es := CallAlone(cfg, linked, s, h, op);
      t := Served(cfg, s, h, op);
    }
    RunKeepsTraced(cfg, linked, s, es);
    SafeRunEndsSound(cfg, linked, s, es);
  }

  /** Some handler number is unused. */
  lemma {:induction false} AboveAll(used: set<nat>) returns (m: nat)
    ensures forall k :: k in used ==> k < m
    decreases used
  {
    if used == {} {
      m := 0;
    } else {
      var k :| k in used;
      var rest := used - {k};
      assert forall x :: x in used ==> x == k || x in rest;
      m := AboveAll(rest);
      if m <= k {
        m := k + 1;
      }
    }
  }

  lemma {:induction false} RunKeepsTraced(cfg: Config, linked: bool, s: System, es: seq<Event>)
    requires Traced(cfg, s) && Run(cfg, linked, s, es).Some?
    ensures Traced(cfg, Run(cfg, linked, s, es).value)
    decreases |es|
  {
    if es != [] {
      StepKeepsTraced(cfg, linked, s, es[0]);
      RunKeepsTraced(cfg, linked, Step(cfg, linked, s, es[0]), es[1..]);
    }
  }

  lemma {:induction false} SafeRunEndsSound(cfg: Config, linked: bool, s: System, es: seq<Event>)
    requires Traced(cfg, s) && Sound(cfg, s) && SafeRun(cfg, linked, s, es) && Run(cfg, linked, s, es).Some?
    ensures Sound(cfg, Run(cfg, linked, s, es).value)
    decreases |es|
  {
    if es != [] {
      StepSoundIff(cfg, linked, s, es[0]);
      StepKeepsTraced(cfg, linked, s, es[0]);
      SafeRunEndsSound(cfg, linked, Step(cfg, linked, s, es[0]), es[1..]);
    }
  }

  // ---- what goes wrong between two calls ---------------------------------

  lemma {:induction false} RunThree(cfg: Config, linked: bool, s: System, a: Event, b: Event, c: Event)
    returns (es: seq<Event>)
    requires Enabled(s, a) && Enabled(Step(cfg, linked, s, a), b)
    requires Enabled(Step(cfg, linked, Step(cfg, linked, s, a), b), c)
    ensures Run(cfg, linked, s, es) ==
              Some(Step(cfg, linked, Step(cfg, linked, Step(cfg, linked, s, a), b), c))
  {
    var u := Step(cfg, linked, s, a);
    es := Cons(cfg, linked, Step(cfg, linked, u, b), c, []);
    es := Cons(cfg, linked, u, b, es);
    es := Cons(cfg, linked, s, a, es);
  }

  lemma {:induction false} Cons(cfg: Config, linked: bool, s: System, e: Event, es: seq<Event>)
    returns (fs: seq<Event>)
    requires Enabled(s, e)
    ensures Run(cfg, linked, s, fs) == Run(cfg, linked, Step(cfg, linked, s, e), es)
  {
    fs := [e] + es;
    assert fs[0] == e && fs[1..] == es;
  }

  /** A request to deactivate a user of the team. */
  predicate Deactivates(cfg: Config, s: State, op: Op, userID: string) {
    op.Update? && op.id == userID && op.newActive == Some(false)
    && userID in s.users && s.users[userID].teamID == cfg.teamID
  }

  /** An administrator deactivates a user while other calls are under way; the deletion
      of the sessions succeeds or fails. Either way the answer is Done. */
  lemma {:induction false} Deactivation(cfg: Config, linked: bool, s: System, k: nat, op: Op, userID: string, ok: bool)
    returns (es: seq<Event>, t: System)
    requires Deactivates(cfg, s.base, op, userID) && k !in s.flights && k !in s.answers
    ensures Run(cfg, linked, s, es) == Some(t) && t.flights == s.flights
    ensures t.answers == s.answers[k := Answer(op, Done)]
    ensures userID in t.base.users && !t.base.users[userID].active
    ensures t.base == (if ok then RemoveSessionsOf(s.base, userID) else s.base).(users := t.base.users)
  {
    es := RunThree(cfg, linked, s, Begin(k, op), Next(k, true), Next(k, ok));
    t := Run(cfg, linked, s, es).value;
    assert t.flights == s.flights;
  }

  /** Update passes over a failure to end the sessions: the user is inactive, the
      administrator is told it worked, and every session is still accepted. */
  lemma {:induction false} FailedRevocation(cfg: Config, linked: bool, s: System, k: nat, op: Op, userID: string)
    returns (es: seq<Event>, t: System)
    requires Deactivates(cfg, s.base, op, userID) && k !in s.flights && k !in s.answers
    ensures Run(cfg, linked, s, es) == Some(t) && k in t.answers && t.answers[k].reply == Done
    ensures userID in t.base.users && !t.base.users[userID].active
    ensures forall token :: ValidateToken(t.base, token) == ValidateToken(s.base, token)
  {
    es, t := Deactivation(cfg, linked, s, k, op, userID, false);
  }

  /** A refresh that can serve: the token finds a live session of a stored user. */
  predicate Serves(s: State, op: Op) {
    && op.Refresh? && Possible(s, op) && op.refreshToken != "" && op.found.Some?
    && s.now <= s.sessions[op.found.value].expiresAt && s.sessions[op.found.value].userID in s.users
  }

  /** The last two store calls of a refresh, whatever happened since it read the user. */
  lemma {:induction false} RefreshEnds(cfg: Config, linked: bool, s: System, h: nat, user: User, at: int)
    returns (es: seq<Event>, t: System)
    requires h in s.flights && s.flights[h].Refreshing? && s.flights[h].stage == Known(user, at)
    requires FreshIds(s.base, s.flights[h]) && s.flights[h].session.userID in s.base.users
    ensures var f := s.flights[h];
            && Run(cfg, linked, s, es) == Some(t) && t.flights == s.flights - {h}
            && t.answers == s.answers[h := Answer(f.op, Answered(f.session.userID, user, at, f.op.newSessionID,
                                                                 f.op.newRefreshToken))]
            && t.base == SaveSession(RemoveSession(s.base, f.sid), f.session.userID, user, at, f.op.newSessionID,
                                     f.op.newRefreshToken, LoginOf(s.base, f.sid))
  {
    var u := Step(cfg, linked, s, Next(h, true));
    t := Step(cfg, linked, u, Next(h, true));
    assert t.flights == s.flights - {h};
    es := Cons(cfg, linked, u, Next(h, true), []);
    es := Cons(cfg, linked, s, Next(h, true), es);
  }

  /** The first two. */
  lemma {:induction false} RefreshBegins(cfg: Config, linked: bool, s: System, h: nat, op: Op)
    returns (es: seq<Event>, t: System)
    requires Serves(s.base, op) && h !in s.flights && h !in s.answers
    ensures var sid := op.found.value;
            var session := s.base.sessions[sid];
            && Run(cfg, linked, s, es) == Some(t)
            && t == s.(flights := s.flights[h := Refreshing(op, sid, session,
                                                            Known(s.base.users[session.userID], s.base.now))])
  {
    var u := Step(cfg, linked, s, Begin(h, op));
    t := Step(cfg, linked, u, Next(h, true));
    assert t.flights == s.flights[h := t.flights[h]];
    es := Cons(cfg, linked, u, Next(h, true), []);
    es := Cons(cfg, linked, s, Begin(h, op), es);
  }

  lemma JustIssuedIsAccepted(s: State, userID: string, user: User, sid: string, rt: string, login: Login)
    ensures ValidateToken(SaveSession(s, userID, user, s.now, sid, rt, login),
                          Signed(ClaimsAt(userID, user, s.now, sid))).Accepted?
  {
  }

  /** From every state with a live session: a deactivation that runs in full between a
      refresh's read of the user and its store call succeeds, and yet the inactive user
      holds a session whose token is accepted. */
  lemma {:induction false} RefreshOutlivesDeactivation(cfg: Config, linked: bool, s: System, h: nat, refresh: Op,
                                                       k: nat, update: Op)
    returns (es: seq<Event>, t: System)
    requires Serves(s.base, refresh) && h != k
    requires Deactivates(cfg, s.base, update, s.base.sessions[refresh.found.value].userID)
    requires h !in s.flights && h !in s.answers && k !in s.flights && k !in s.answers
    ensures var userID := s.base.sessions[refresh.found.value].userID;
            && Run(cfg, linked, s, es) == Some(t)
            && userID in t.base.users && !t.base.users[userID].active
            && k in t.answers && t.answers[k].reply == Done
            && h in t.answers && t.answers[h].reply.LoggedIn? && t.answers[h].reply.userID == userID
            && ValidateToken(t.base, t.answers[h].reply.token).Accepted?
  {
    var sid := refresh.found.value;
    var session := s.base.sessions[sid];
    var user := s.base.users[session.userID];
    var first, u := RefreshBegins(cfg, linked, s, h, refresh);
    var mid, v := Deactivation(cfg, linked, u, k, update, session.userID, true);
    var last;
    last, t := RefreshEnds(cfg, linked, v, h, user, s.base.now);
    JustIssuedIsAccepted(RemoveSession(v.base, sid), session.userID, user, refresh.newSessionID,
        refresh.newRefreshToken, LoginOf(v.base, sid));
    RunAppend(cfg, linked, u, mid, last);
    RunAppend(cfg, linked, s, first, mid + last);
    es := first + (mid + last);
  }

  /** Two refreshes of one session that have both read the user run to their ends. */
  lemma {:induction false} BothEnd(cfg: Config, linked: bool, s: System, h: nat, k: nat, user: User, at: int)
    returns (es: seq<Event>, t: System)
    requires h != k && h in s.flights && k in s.flights && s.flights[h].Refreshing? && s.flights[k].Refreshing?
    requires FreshIds(s.base, s.flights[h]) && FreshIds(s.base, s.flights[k])
    requires s.flights[h].stage == s.flights[k].stage == Known(user, at) && s.flights[h].sid == s.flights[k].sid
    requires s.flights[h].session == s.flights[k].session && s.flights[h].session.userID in s.base.users
    requires s.flights[h].op.newSessionID != s.flights[k].op.newSessionID
    requires s.flights[h].op.newRefreshToken != s.flights[k].op.newRefreshToken
    requires s.flights[h].sid != s.flights[h].op.newSessionID
    ensures Run(cfg, linked, s, es) == Some(t)
    ensures h in t.answers && t.answers[h].reply.LoggedIn? && k in t.answers && t.answers[k].reply.LoggedIn?
    ensures s.flights[h].op.newSessionID in t.base.sessions && s.flights[k].op.newSessionID in t.base.sessions
  {
    var first, u := RefreshEnds(cfg, linked, s, h, user, at);
    var last;
    last, t := RefreshEnds(cfg, linked, u, k, user, at);
    RunAppend(cfg, linked, s, first, last);
    es := first + last;
  }

  lemma {:induction false} BothBegin(cfg: Config, linked: bool, s: System, h: nat, a: Op, k: nat, b: Op)
    returns (es: seq<Event>, t: System)
    requires Serves(s.base, a) && Serves(s.base, b) && a.found == b.found
    requires h != k && h !in s.flights && h !in s.answers && k !in s.flights && k !in s.answers
    ensures var session := s.base.sessions[a.found.value];
            var stage := Known(s.base.users[session.userID], s.base.now);
            && Run(cfg, linked, s, es) == Some(t)
            && t == s.(flights := s.flights[h := Refreshing(a, a.found.value, session, stage)]
                                           [k := Refreshing(b, a.found.value, session, stage)])
  {
    var first, u := RefreshBegins(cfg, linked, s, h, a);
    var last;
    last, t := RefreshBegins(cfg, linked, u, k, b);
    RunAppend(cfg, linked, s, first, last);
    es := first + last;
  }

  /** Two refreshes that both read the session before either deletes it both serve: one
      refresh token, two live sessions. */
  lemma {:induction false} TwoRefreshesServe(cfg: Config, linked: bool, s: System, h: nat, a: Op, k: nat, b: Op)
    returns (es: seq<Event>, t: System)
    requires Traced(cfg, s) && Serves(s.base, a) && Serves(s.base, b) && a.found == b.found
    requires a.newSessionID != b.newSessionID && a.newRefreshToken != b.newRefreshToken
    requires h != k && h !in s.flights && h !in s.answers && k !in s.flights && k !in s.answers
    ensures a.refreshToken == b.refreshToken && Run(cfg, linked, s, es) == Some(t)
    ensures h in t.answers && t.answers[h].reply.LoggedIn? && k in t.answers && t.answers[k].reply.LoggedIn?
    ensures a.newSessionID in t.base.sessions && b.newSessionID in t.base.sessions
  {
    var sid := a.found.value;
    assert SessionTraced(cfg, s.base, sid);
    var first, u := BothBegin(cfg, linked, s, h, a, k, b);
    var last;
    last, t := BothEnd(cfg, linked, u, h, k, s.base.users[s.base.sessions[sid].userID], s.base.now);
    RunAppend(cfg, linked, s, first, last);
    es := first + last;
  }

  // ---- it happens --------------------------------------------------------

  /** A user is created and logs in. */
  lemma {:induction false} FirstLogin(cfg: Config, linked: bool)
    returns (es: seq<Event>, s: System)
    requires cfg.verify("password", "hash") && cfg.lower(cfg.trim("a@b.c")) != ""
    ensures Run(cfg, linked, Initial(0), es) == Some(s) && Traced(cfg, s) && s.flights == map[]
    ensures "user" in s.base.users && s.base.users["user"].teamID == cfg.teamID
    ensures s.base.sessions.Keys == {"first"} && s.base.sessions["first"].userID == "user"
    ensures s.base.sessions["first"].refreshToken == "refresh1" && s.base.now <= s.base.sessions["first"].expiresAt
    ensures s.base.usedSessionIDs == {"first"} && s.base.usedRefreshTokens == {"refresh1"}
  {
    var create := Create("user", "a@b.c", "password", "hash", "name", "member", false);
    var first, u := OneCall(cfg, linked, Initial(0), create);
    var user := User(cfg.lower(cfg.trim("a@b.c")), "hash", cfg.trim("name"), "member", cfg.teamID, true);
    assert u.base == Empty(0).(users := map["user" := user]);
    var login := LogIn(user.email, "password", Some("user"), "first", "refresh1");
    var last;
    last, s := OneCall(cfg, linked, u, login);
    RunAppend(cfg, linked, Initial(0), first, last);
    es := first + last;
  }

  /** Some run from empty stores leaves an inactive user with an accepted token. */
  lemma {:induction false} InactiveUsersGetIn(cfg: Config, linked: bool) returns (es: seq<Event>, t: System, h: nat)
    requires cfg.verify("password", "hash") && cfg.lower(cfg.trim("a@b.c")) != ""
    ensures Run(cfg, linked, Initial(0), es) == Some(t) && h in t.answers && t.answers[h].reply.LoggedIn?
    ensures "user" in t.base.users && !t.base.users["user"].active && t.answers[h].reply.userID == "user"
    ensures ValidateToken(t.base, t.answers[h].reply.token).Accepted?
  {
    var first, s := FirstLogin(cfg, linked);
    h := AboveAll(s.answers.Keys);
    var refresh := Refresh("refresh1", Some("first"), "second", "refresh2");
    assert "first" in s.base.sessions;
    var last;
    last, t := RefreshOutlivesDeactivation(cfg, linked, s, h, refresh, h + 1, Update("user", None, None, Some(false)));
    RunAppend(cfg, linked, Initial(0), first, last);
    es := first + last;
  }

  // ---- who can still redeem a spent token --------------------------------

  predicate Redeems(op: Op, rt: string) {
    op.Refresh? && op.refreshToken == rt
  }

  predicate Redeemed(s: System, h: nat, rt: string) {
    h in s.answers && Redeems(s.answers[h].op, rt) && s.answers[h].reply.LoggedIn?
  }

  predicate Holds(s: System, h: nat, rt: string) {
    h in s.flights && Redeems(s.flights[h].op, rt)
  }

  lemma SpentStays(cfg: Config, linked: bool, s: System, e: Event, rt: string)
    requires Enabled(s, e) && SpentRefresh(s.base, rt)
    ensures SpentRefresh(Step(cfg, linked, s, e).base, rt)
  {
    if Opens(linked, s, e) {
      OpensOne(cfg, linked, s, e);
    } else {
      RowsKept(cfg, linked, s, e);
      TokensKept(cfg, linked, s, e);
    }
  }

  lemma TokensKept(cfg: Config, linked: bool, s: System, e: Event)
    requires Enabled(s, e) && !Opens(linked, s, e)
    ensures Step(cfg, linked, s, e).base.usedRefreshTokens == s.base.usedRefreshTokens
  {
    if e.Whole? { WholeTokensKept(cfg, s.base, e.op); }
  }

  lemma WholeTokensKept(cfg: Config, s: State, op: Op)
    requires IsWhole(op) && Possible(s, op)
    ensures Apply(cfg, s, op).0.usedRefreshTokens == s.usedRefreshTokens
  {
  }

  /** A store call moves its own handler on, or answers it. */
  lemma NextMovesOne(cfg: Config, linked: bool, s: System, h: nat, ok: bool)
    requires Enabled(s, Next(h, ok))
    ensures var t := Step(cfg, linked, s, Next(h, ok));
            && (t.flights == s.flights - {h}
                || exists f: Flight :: f.op == s.flights[h].op && t.flights == s.flights[h := f])
            && (t.answers == s.answers || exists r: Reply :: t.answers == s.answers[h := Answer(s.flights[h].op, r)])
  {
    var t, f := Step(cfg, linked, s, Next(h, ok)), s.flights[h];
    if h in t.flights {
      assert t.flights[h].op == f.op && t.flights == s.flights[h := t.flights[h]];
    }
    if t.answers != s.answers {
      var r := t.answers[h].reply;
      assert t.answers == s.answers[h := Answer(f.op, r)];
    }
  }

  lemma SpentIsRefused(cfg: Config, s: State, op: Op, rt: string)
    requires !IsWhole(op) && Possible(s, op) && SpentRefresh(s, rt) && Redeems(op, rt)
    ensures Admit(cfg, s, op).Refused? && Admit(cfg, s, op).reply.Failed?
  {
  }

  lemma AdmittedOp(cfg: Config, s: State, op: Op)
    requires !IsWhole(op) && Possible(s, op) && Admit(cfg, s, op).Admitted?
    ensures Admit(cfg, s, op).flight.op == op
  {
  }

  lemma HolderStep(cfg: Config, linked: bool, s: System, e: Event, rt: string, h: nat)
    requires Enabled(s, e) && SpentRefresh(s.base, rt)
    ensures Holds(Step(cfg, linked, s, e), h, rt) ==> Holds(s, h, rt)
    ensures Redeemed(Step(cfg, linked, s, e), h, rt) ==> Redeemed(s, h, rt) || Holds(s, h, rt)
  {
    match e
    case Whole(_) =>
    case Begin(k, op) =>
      if Admit(cfg, s.base, op).Admitted? { AdmittedOp(cfg, s.base, op); }
      if Redeems(op, rt) { SpentIsRefused(cfg, s.base, op, rt); }
    case Next(k, ok) => NextMovesOne(cfg, linked, s, k, ok);
    case Crash(_) =>
  }

  /** Once no session holds a refresh token any more, only handlers that had read the
      session before can still be served with it. */
  lemma {:induction false} OnlyHoldersServe(cfg: Config, linked: bool, s: System, es: seq<Event>, t: System, rt: string,
                                            h: nat)
    requires Run(cfg, linked, s, es) == Some(t) && SpentRefresh(s.base, rt)
    ensures Redeemed(t, h, rt) ==> Redeemed(s, h, rt) || Holds(s, h, rt)
    decreases |es|
  {
    if es != [] {
      SpentStays(cfg, linked, s, es[0], rt);
      HolderStep(cfg, linked, s, es[0], rt, h);
      OnlyHoldersServe(cfg, linked, Step(cfg, linked, s, es[0]), es[1..], t, rt, h);
    }
  }
}
