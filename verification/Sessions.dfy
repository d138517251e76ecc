/** Users and sessions across the auth and the user service. RefreshToken never
    looks at the Active flag; an invariant over both services shows that sessions
    still only ever belong to active users who logged in with their current
    password. Here calls run one after another and stores do not fail;
    SessionRaces cuts them at their store calls. */
module Sessions {
  import opened Wrappers

  datatype Error =
    | InvalidInput | InvalidCredentials | Unauthorized | NotFound | AlreadyExists
    | TokenInvalid | TokenExpired | SessionNotFound | StoreFailed

  const ROLES := {"admin", "member", "viewer"}

  const SECOND := 1_000_000_000
  const TOKEN_TTL := 24 * 60 * 60 * SECOND

  datatype User = User(email: string, passwordHash: string, name: string, role: string, teamID: string, active: bool)

  /** The claims of a JWT; `expiresAt` is in whole seconds, other times in nanoseconds. */
  datatype Claims = Claims(userID: string, email: string, role: string, teamID: string, sessionID: string,
                           expiresAt: int)

  /** A bearer string: either one the auth adapter signed, or anything else. */
  datatype Token = Signed(claims: Claims) | Other(text: string)

  datatype Session = Session(userID: string, token: Token, refreshToken: string, expiresAt: int)

  /** The password login a session goes back to. */
  datatype Login = Login(userID: string, password: string, passwordHash: string)

  datatype State = State(
    now: int,
    users: map<string, User>,
    sessions: map<string, Session>,
    logins: map<string, Login>,        // session id to its login
    usedSessionIDs: set<string>,
    usedRefreshTokens: set<string>,
    issued: set<Claims>)

  /** What the services rest on: the password check, Go's trimming and lower-casing,
      and the team the user service is for. */
  datatype Config = Config(
    verify: (string, string) -> bool,
    trim: string -> string,
    lower: string -> string,
    teamID: string)

  datatype Reply =
    | Failed(error: Error)
    | Done
    | LoggedIn(userID: string, token: Token, refreshToken: string, expiresAt: int)

  /** The calls; identifiers, refresh tokens and hashes are drawn by the caller, and
      `userID` in Login and `sessionID` in Refresh are what the store lookup yields. */
  datatype Op =
    | Tick(now: int)
    | Create(id: string, email: string, password: string, passwordHash: string, name: string, role: string, taken: bool)
    | Update(id: string, newName: Option<string>, newRole: Option<string>, newActive: Option<bool>)
    | Delete(id: string)
    | SetPassword(id: string, password: string, passwordHash: string)
    | LogIn(email: string, password: string, found: Option<string>, sessionID: string, refreshToken: string)
    | Refresh(refreshToken: string, found: Option<string>, newSessionID: string, newRefreshToken: string)
    | Logout(token: Token)
    | LogoutAll(id: string)
    | ChangePassword(id: string, current: string, password: string, passwordHash: string)

  /** Lookups answer truthfully and random values are new. */
  predicate Possible(s: State, op: Op) {
    match op
    case Tick(now) => now >= s.now
    case Create(id, email, _, _, _, _, taken) =>
      id !in s.users && (taken <==> exists u :: u in s.users && s.users[u].email == email)
    case LogIn(email, _, found, sid, rt) =>
      && (found.Some? ==> found.value in s.users && s.users[found.value].email == email)
      && (found.None? ==> forall u :: u in s.users ==> s.users[u].email != email)
      && sid !in s.usedSessionIDs && rt !in s.usedRefreshTokens
    case Refresh(rt, found, sid, newRt) =>
      && (found.Some? ==> found.value in s.sessions && s.sessions[found.value].refreshToken == rt)
      && (found.None? ==> forall x :: x in s.sessions ==> s.sessions[x].refreshToken != rt)
      && sid !in s.usedSessionIDs && newRt !in s.usedRefreshTokens
    case _ => true
  }

  // ---- the stores --------------------------------------------------------

  function RemoveSessionsOf(s: State, userID: string): State {
    s.(sessions := map x | x in s.sessions && s.sessions[x].userID != userID :: s.sessions[x])
  }

  function RemoveSession(s: State, id: string): State {
    s.(sessions := s.sessions - {id})
  }

  /** The claims for a user row read at the time `at`. */
  function ClaimsAt(userID: string, u: User, at: int, sid: string): Claims {
    Claims(userID, u.email, u.role, u.teamID, sid, (at + TOKEN_TTL) / SECOND)
  }

  /** A new session for a user read at the time `at`, descending from `login`. */
  function SaveSession(s: State, userID: string, u: User, at: int, sid: string, rt: string, login: Login): State {
    var c := ClaimsAt(userID, u, at, sid);
    s.(sessions := s.sessions[sid := Session(userID, Signed(c), rt, at + TOKEN_TTL)],
       logins := s.logins[sid := login],
       usedSessionIDs := s.usedSessionIDs + {sid},
       usedRefreshTokens := s.usedRefreshTokens + {rt},
       issued := s.issued + {c})
  }

  function Answered(userID: string, u: User, at: int, sid: string, rt: string): Reply {
    LoggedIn(userID, Signed(ClaimsAt(userID, u, at, sid)), rt, at + TOKEN_TTL)
  }

  function OpenSession(s: State, userID: string, sid: string, rt: string, login: Login): State
    requires userID in s.users
  {
    SaveSession(s, userID, s.users[userID], s.now, sid, rt, login)
  }

  function Opened(s: State, userID: string, sid: string, rt: string): Reply
    requires userID in s.users
  {
    Answered(userID, s.users[userID], s.now, sid, rt)
  }

  /** The adapter's ParseToken, whose JWT library refuses a token from its `exp` second on. */
  function ParseToken(token: Token, now: int): Option<Claims> {
    if token.Signed? && now < token.claims.expiresAt * SECOND then Some(token.claims) else None
  }

  // ---- the effect of each call -------------------------------------------

  function AfterCreate(cfg: Config, s: State, op: Op): (State, Reply)
    requires op.Create?
  {
    if op.email == "" || op.password == "" || op.name == "" || op.role !in ROLES then (s, Failed(InvalidInput))
    else if op.taken then (s, Failed(AlreadyExists))
    else
      var u := User(cfg.lower(cfg.trim(op.email)), op.passwordHash, cfg.trim(op.name), op.role, cfg.teamID, true);
      (s.(users := s.users[op.id := u]), Done)
  }

  /** The row as Update changes it. */
  function UpdatedRow(cfg: Config, u: User, op: Op): User
    requires op.Update?
  {
    var u1 := if op.newName.Some? then u.(name := cfg.trim(op.newName.value)) else u;
    var u2 := if op.newRole.Some? then u1.(role := op.newRole.value) else u1;
    if op.newActive.Some? then u2.(active := op.newActive.value) else u2
  }

  function AfterUpdate(cfg: Config, s: State, op: Op): (State, Reply)
    requires op.Update?
  {
    if op.id !in s.users || s.users[op.id].teamID != cfg.teamID then (s, Failed(NotFound))
    else
      var t := s.(users := s.users[op.id := UpdatedRow(cfg, s.users[op.id], op)]);
      (if op.newActive == Some(false) then RemoveSessionsOf(t, op.id) else t, Done)
  }

  function AfterDelete(cfg: Config, s: State, id: string): (State, Reply) {
    if id !in s.users || s.users[id].teamID != cfg.teamID then (s, Failed(NotFound))
    else (RemoveSessionsOf(s, id).(users := s.users - {id}), Done)
  }

  function WithPassword(s: State, id: string, hash: string): State
    requires id in s.users
  {
    RemoveSessionsOf(s.(users := s.users[id := s.users[id].(passwordHash := hash)]), id)
  }

  function AfterSetPassword(cfg: Config, s: State, op: Op): (State, Reply)
    requires op.SetPassword?
  {
    if op.password == "" then (s, Failed(InvalidInput))
    else if op.id !in s.users || s.users[op.id].teamID != cfg.teamID then (s, Failed(NotFound))
    else (WithPassword(s, op.id, op.passwordHash), Done)
  }

  function AfterChangePassword(cfg: Config, s: State, op: Op): (State, Reply)
    requires op.ChangePassword?
  {
    if op.current == "" || op.password == "" then (s, Failed(InvalidInput))
    else if op.id !in s.users then (s, Failed(NotFound))
    else if !cfg.verify(op.current, s.users[op.id].passwordHash) then (s, Failed(InvalidCredentials))
    else (WithPassword(s, op.id, op.passwordHash), Done)
  }

  function AfterLogIn(cfg: Config, s: State, op: Op): (State, Reply)
    requires op.LogIn? && Possible(s, op)
  {
    if op.email == "" || op.password == "" then (s, Failed(InvalidInput))
    else if op.found.None? then (s, Failed(InvalidCredentials))
    else
      var u := s.users[op.found.value];
      if !u.active then (s, Failed(Unauthorized))
      else if !cfg.verify(op.password, u.passwordHash) then (s, Failed(InvalidCredentials))
      else
        (OpenSession(s, op.found.value, op.sessionID, op.refreshToken,
            Login(op.found.value, op.password, u.passwordHash)),
         Opened(s, op.found.value, op.sessionID, op.refreshToken))
  }

  function AfterRefresh(s: State, op: Op): (State, Reply)
    requires op.Refresh? && Possible(s, op)
  {
    if op.refreshToken == "" || op.found.None? then (s, Failed(TokenInvalid))
    else
      var session := s.sessions[op.found.value];
      if s.now > session.expiresAt then (s, Failed(TokenExpired))
      else if session.userID !in s.users then (s, Failed(NotFound))
      else
        var login := if op.found.value in s.logins then s.logins[op.found.value] else Login("", "", "");
        (OpenSession(RemoveSession(s, op.found.value), session.userID, op.newSessionID, op.newRefreshToken, login),
         Opened(s, session.userID, op.newSessionID, op.newRefreshToken))
  }

  function Apply(cfg: Config, s: State, op: Op): (State, Reply)
    requires Possible(s, op)
  {
    match op
    case Tick(now) => (s.(now := now), Done)
    case Create(_, _, _, _, _, _, _) => AfterCreate(cfg, s, op)
    case Update(_, _, _, _) => AfterUpdate(cfg, s, op)
    case Delete(id) => AfterDelete(cfg, s, id)
    case SetPassword(_, _, _) => AfterSetPassword(cfg, s, op)
    case LogIn(_, _, _, _, _) => AfterLogIn(cfg, s, op)
    case Refresh(_, _, _, _) => AfterRefresh(s, op)
    case Logout(token) =>
      (match ParseToken(token, s.now) case Some(c) => RemoveSession(s, c.sessionID) case None => s, Done)
    case LogoutAll(id) => (RemoveSessionsOf(s, id), Done)
    case ChangePassword(_, _, _, _) => AfterChangePassword(cfg, s, op)
  }

  datatype Verdict = Rejected(error: Error) | Accepted(userID: string, role: string, sessionID: string)

  /** ValidateToken: it looks at the session, never at the user. */
  function ValidateToken(s: State, token: Token): Verdict {
    match ParseToken(token, s.now)
    case None => Rejected(TokenInvalid)
    case Some(c) =>
      if s.now / SECOND > c.expiresAt then Rejected(TokenExpired)
      else if c.sessionID !in s.sessions then Rejected(SessionNotFound)
      else if s.now > s.sessions[c.sessionID].expiresAt then Rejected(TokenExpired)
      else Accepted(c.userID, c.role, c.sessionID)
  }

  // ---- the invariant -----------------------------------------------------

  /** The session's user exists, is active, and logged in with the password whose
      hash is stored now. */
  predicate Backed(cfg: Config, s: State, sid: string)
    requires sid in s.sessions
  {
    var u := s.sessions[sid].userID;
    && u in s.users
    && s.users[u].active
    && sid in s.logins
    && s.logins[sid].userID == u
    && s.logins[sid].passwordHash == s.users[u].passwordHash
    && cfg.verify(s.logins[sid].password, s.users[u].passwordHash)
  }

  predicate Inv(cfg: Config, s: State) {
    && (forall sid :: sid in s.sessions ==>
          Backed(cfg, s, sid) && sid in s.usedSessionIDs && s.sessions[sid].refreshToken in s.usedRefreshTokens)
    && (forall x, y :: x in s.sessions && y in s.sessions ==>
          s.sessions[x].refreshToken == s.sessions[y].refreshToken ==> x == y)
    && (forall c :: c in s.issued ==>
          && c.sessionID in s.usedSessionIDs
          && (c.sessionID in s.sessions ==>
                && s.sessions[c.sessionID].userID == c.userID
                && s.sessions[c.sessionID].expiresAt >= c.expiresAt * SECOND))
    && (forall c, d :: c in s.issued && d in s.issued && c.sessionID == d.sessionID ==> c == d)
  }

  function Empty(now: int): State {
    State(now, map[], map[], map[], {}, {}, {})
  }

  lemma OpenKeepsInv(cfg: Config, s: State, userID: string, sid: string, rt: string, login: Login)
    requires Inv(cfg, s) && userID in s.users && s.users[userID].active
    requires sid !in s.usedSessionIDs && rt !in s.usedRefreshTokens
    requires login.userID == userID && login.passwordHash == s.users[userID].passwordHash
    requires cfg.verify(login.password, login.passwordHash)
    ensures Inv(cfg, OpenSession(s, userID, sid, rt, login))
  {
    var t := OpenSession(s, userID, sid, rt, login);
    forall x | x in t.sessions ensures Backed(cfg, t, x) {
      assert x != sid ==> Backed(cfg, s, x);
    }
  }

  lemma RemoveKeepsInv(cfg: Config, s: State, sid: string)
    requires Inv(cfg, s)
    ensures Inv(cfg, RemoveSession(s, sid))
  {
    var t := RemoveSession(s, sid);
    forall x | x in t.sessions ensures Backed(cfg, t, x) { assert Backed(cfg, s, x); }
  }

  /** Whatever happens to one user is harmless once that user's sessions are gone. */
  lemma UserChangeKeepsInv(cfg: Config, s: State, t: State, id: string)
    requires Inv(cfg, s)
    requires t.sessions == RemoveSessionsOf(s, id).sessions
    requires forall u :: u != id && u in s.users ==> u in t.users && t.users[u] == s.users[u]
    requires t.logins == s.logins && t.issued == s.issued
    requires t.usedSessionIDs == s.usedSessionIDs && t.usedRefreshTokens == s.usedRefreshTokens
    ensures Inv(cfg, t)
  {
    forall x | x in t.sessions ensures Backed(cfg, t, x) { assert Backed(cfg, s, x); }
  }

  /** So is a change that leaves every user's hash and Active flag in place. */
  lemma HarmlessKeepsInv(cfg: Config, s: State, t: State)
    requires Inv(cfg, s)
    requires t.sessions == s.sessions
    requires forall u :: u in s.users && s.users[u].active ==>
               u in t.users && t.users[u].active && t.users[u].passwordHash == s.users[u].passwordHash
    requires t.logins == s.logins && t.issued == s.issued
    requires t.usedSessionIDs == s.usedSessionIDs && t.usedRefreshTokens == s.usedRefreshTokens
    ensures Inv(cfg, t)
  {
    forall x | x in t.sessions ensures Backed(cfg, t, x) { assert Backed(cfg, s, x); }
  }

  lemma UserCallKeepsInv(cfg: Config, s: State, op: Op)
    requires Inv(cfg, s) && Possible(s, op)
    requires op.Create? || op.Update? || op.Delete? || op.SetPassword? || op.ChangePassword?
    ensures Inv(cfg, Apply(cfg, s, op).0)
  {
    var t := Apply(cfg, s, op).0;
    if t == s {
    } else if op.Create? || (op.Update? && op.newActive != Some(false)) {
      HarmlessKeepsInv(cfg, s, t);
    } else {
      UserChangeKeepsInv(cfg, s, t, op.id);
    }
  }

  lemma ApplyKeepsInv(cfg: Config, s: State, op: Op)
    requires Inv(cfg, s) && Possible(s, op)
    ensures Inv(cfg, Apply(cfg, s, op).0)
  {
    var t := Apply(cfg, s, op).0;
    match op {
      case Tick(_) => HarmlessKeepsInv(cfg, s, t);
      case LogIn(_, password, found, sid, rt) =>
        if t != s {
          OpenKeepsInv(cfg, s, found.value, sid, rt, Login(found.value, password, s.users[found.value].passwordHash));
        }
      case Refresh(_, found, sid, rt) =>
        if t != s {
          assert Backed(cfg, s, found.value);
          RemoveKeepsInv(cfg, s, found.value);
          OpenKeepsInv(cfg, RemoveSession(s, found.value), s.sessions[found.value].userID, sid, rt,
              s.logins[found.value]);
        }
      case Logout(token) => if ParseToken(token, s.now).Some? { RemoveKeepsInv(cfg, s, token.claims.sessionID); }
      case LogoutAll(id) => UserChangeKeepsInv(cfg, s, t, id);
      case _ => UserCallKeepsInv(cfg, s, op);
    }
  }

  // ---- runs --------------------------------------------------------------

  function Run(cfg: Config, s: State, ops: seq<Op>): Option<State>
    decreases |ops|
  {
    if ops == [] then Some(s)
    else if Possible(s, ops[0]) then Run(cfg, Apply(cfg, s, ops[0]).0, ops[1..])
    else None
  }

  lemma {:induction false} InvOnRuns(cfg: Config, s: State, ops: seq<Op>)
    requires Inv(cfg, s) && Run(cfg, s, ops).Some?
    ensures Inv(cfg, Run(cfg, s, ops).value)
    decreases |ops|
  {
    if ops != [] {
      ApplyKeepsInv(cfg, s, ops[0]);
      InvOnRuns(cfg, Apply(cfg, s, ops[0]).0, ops[1..]);
    }
  }

  /** On every run from empty stores, each stored session belongs to an existing
      active user and descends from a login with the current password. */
  lemma SessionsAreBacked(cfg: Config, start: int, ops: seq<Op>, sid: string)
    requires Run(cfg, Empty(start), ops).Some? && sid in Run(cfg, Empty(start), ops).value.sessions
    ensures Backed(cfg, Run(cfg, Empty(start), ops).value, sid)
  {
    InvOnRuns(cfg, Empty(start), ops);
  }

  /** A token that was issued and is accepted names an active user with a session
      going back to the current password, though ValidateToken consults no user. */
  lemma AcceptedTokensAreBacked(cfg: Config, start: int, ops: seq<Op>, c: Claims)
    requires Run(cfg, Empty(start), ops).Some?
    ensures var s := Run(cfg, Empty(start), ops).value;
            c in s.issued && ValidateToken(s, Signed(c)).Accepted? ==>
              && c.sessionID in s.sessions && Backed(cfg, s, c.sessionID)
              && s.sessions[c.sessionID].userID == c.userID == ValidateToken(s, Signed(c)).userID
  {
    InvOnRuns(cfg, Empty(start), ops);
  }

  /** A refresh serves a token exactly when a live session holds the refresh token;
      its user is then active, which RefreshToken does not check. */
  lemma RefreshServesActiveUsers(cfg: Config, start: int, ops: seq<Op>, op: Op)
    requires Run(cfg, Empty(start), ops).Some? && op.Refresh? && Possible(Run(cfg, Empty(start), ops).value, op)
    ensures var s := Run(cfg, Empty(start), ops).value;
            var r := Apply(cfg, s, op).1;
            && (r.LoggedIn? <==>
                 op.refreshToken != "" && op.found.Some? && s.now <= s.sessions[op.found.value].expiresAt)
            && (r.LoggedIn? ==> r.userID in s.users && s.users[r.userID].active)
  {
    InvOnRuns(cfg, Empty(start), ops);
    var s := Run(cfg, Empty(start), ops).value;
    assert op.found.Some? ==> Backed(cfg, s, op.found.value);
  }

  // ---- what ends for good ------------------------------------------------

  /** A session id or refresh token that was used and is no longer stored. */
  predicate SpentSession(s: State, sid: string) {
    sid in s.usedSessionIDs && sid !in s.sessions
  }

  predicate SpentRefresh(s: State, rt: string) {
    rt in s.usedRefreshTokens && forall x :: x in s.sessions ==> s.sessions[x].refreshToken != rt
  }

  lemma SpentStaysSpent(cfg: Config, s: State, op: Op, sid: string, rt: string)
    requires Possible(s, op)
    ensures SpentSession(s, sid) ==> SpentSession(Apply(cfg, s, op).0, sid)
    ensures SpentRefresh(s, rt) ==> SpentRefresh(Apply(cfg, s, op).0, rt)
  {
  }

  lemma {:induction false} SpentOnRuns(cfg: Config, s: State, ops: seq<Op>, sid: string, rt: string)
    requires Run(cfg, s, ops).Some?
    ensures SpentSession(s, sid) ==> SpentSession(Run(cfg, s, ops).value, sid)
    ensures SpentRefresh(s, rt) ==> SpentRefresh(Run(cfg, s, ops).value, rt)
    decreases |ops|
  {
    if ops != [] {
      SpentStaysSpent(cfg, s, ops[0], sid, rt);
      SpentOnRuns(cfg, Apply(cfg, s, ops[0]).0, ops[1..], sid, rt);
    }
  }

  lemma {:induction false} HistoryGrows(cfg: Config, s: State, ops: seq<Op>)
    requires Run(cfg, s, ops).Some?
    ensures s.now <= Run(cfg, s, ops).value.now && s.issued <= Run(cfg, s, ops).value.issued
    decreases |ops|
  {
    if ops != [] {
      HistoryStep(cfg, s, ops[0]);
      HistoryGrows(cfg, Apply(cfg, s, ops[0]).0, ops[1..]);
    }
  }

  lemma HistoryStep(cfg: Config, s: State, op: Op)
    requires Possible(s, op)
    ensures s.now <= Apply(cfg, s, op).0.now && s.issued <= Apply(cfg, s, op).0.issued
  {
  }

  /** After Logout no later state accepts any token of that session, even if the token
      shown had expired and Logout therefore did nothing. A token that still parsed
      took the session with it. */
  lemma LogoutIsFinal(cfg: Config, start: int, before: seq<Op>, c: Claims, after: seq<Op>)
    requires Run(cfg, Empty(start), before).Some? && c in Run(cfg, Empty(start), before).value.issued
    requires Run(cfg, Apply(cfg, Run(cfg, Empty(start), before).value, Logout(Signed(c))).0, after).Some?
    ensures var s := Run(cfg, Empty(start), before).value;
            var t := Run(cfg, Apply(cfg, s, Logout(Signed(c))).0, after).value;
            && (forall d :: d in t.issued && d.sessionID == c.sessionID ==> ValidateToken(t, Signed(d)).Rejected?)
            && (s.now < c.expiresAt * SECOND ==> c.sessionID !in t.sessions)
  {
    InvOnRuns(cfg, Empty(start), before);
    var s := Run(cfg, Empty(start), before).value;
    ApplyKeepsInv(cfg, s, Logout(Signed(c)));
    var u := Apply(cfg, s, Logout(Signed(c))).0;
    InvOnRuns(cfg, u, after);
    HistoryGrows(cfg, u, after);
    SpentOnRuns(cfg, u, after, c.sessionID, "");
  }

  /** A refresh token serves once: after a successful refresh no later refresh with it
      succeeds, and the replaced session's tokens are rejected for good. */
  lemma RefreshIsSingleUse(cfg: Config, start: int, before: seq<Op>, op: Op, after: seq<Op>, again: Op)
    requires Run(cfg, Empty(start), before).Some?
    requires op.Refresh? && Possible(Run(cfg, Empty(start), before).value, op)
    requires Apply(cfg, Run(cfg, Empty(start), before).value, op).1.LoggedIn?
    requires Run(cfg, Apply(cfg, Run(cfg, Empty(start), before).value, op).0, after).Some?
    ensures var t := Run(cfg, Apply(cfg, Run(cfg, Empty(start), before).value, op).0, after).value;
            && (again.Refresh? && again.refreshToken == op.refreshToken && Possible(t, again) ==>
                 Apply(cfg, t, again).1.Failed?)
            && (forall d: Claims :: d.sessionID == op.found.value ==> ValidateToken(t, Signed(d)).Rejected?)
  {
    var s := Run(cfg, Empty(start), before).value;
    InvOnRuns(cfg, Empty(start), before);
    var t := Apply(cfg, s, op).0;
    assert Backed(cfg, s, op.found.value);
    assert SpentSession(t, op.found.value);
    assert SpentRefresh(t, op.refreshToken);
    SpentOnRuns(cfg, t, after, op.found.value, op.refreshToken);
  }

  // ---- the services ------------------------------------------------------

  /** The user and session stores behind both services. */
  class Services {
    const cfg: Config
    var now: int
    var users: map<string, User>
    var sessions: map<string, Session>
    ghost var logins: map<string, Login>
    ghost var usedSessionIDs: set<string>
    ghost var usedRefreshTokens: set<string>
    ghost var issued: set<Claims>

    ghost function View(): State
      reads this
    {
      State(now, users, sessions, logins, usedSessionIDs, usedRefreshTokens, issued)
    }

    constructor (cfg: Config, now: int)
      ensures this.cfg == cfg && View() == Empty(now)
    {
      this.cfg, this.now, users, sessions := cfg, now, map[], map[];
      logins, usedSessionIDs, usedRefreshTokens, issued := map[], {}, {}, {};
    }

    /** SessionStore.DeleteByUser. */
    method DeleteByUser(userID: string)
      modifies this`sessions
      ensures View() == RemoveSessionsOf(old(View()), userID)
    {
      sessions := map x | x in sessions && sessions[x].userID != userID :: sessions[x];
    }

    /** SessionStore.Delete. */
    method DeleteSession(id: string)
      modifies this`sessions
      ensures View() == RemoveSession(old(View()), id)
    {
      sessions := sessions - {id};
    }

    /** The tail shared by Authenticate and RefreshToken. */
    method SaveNewSession(userID: string, sid: string, rt: string, ghost login: Login) returns (r: Reply)
      requires userID in users
      modifies this`sessions, this`logins, this`usedSessionIDs, this`usedRefreshTokens, this`issued
      ensures View() == OpenSession(old(View()), userID, sid, rt, login)
      ensures r == Opened(old(View()), userID, sid, rt)
    {
      var user := users[userID];
      var claims := Claims(userID, user.email, user.role, user.teamID, sid, (now + TOKEN_TTL) / SECOND);
      var token := Signed(claims);
      var expiresAt := now + TOKEN_TTL;
      sessions := sessions[sid := Session(userID, token, rt, expiresAt)];
      logins := logins[sid := login];
      usedSessionIDs := usedSessionIDs + {sid};
      usedRefreshTokens := usedRefreshTokens + {rt};
      issued := issued + {claims};
      return LoggedIn(userID, token, rt, expiresAt);
    }

    method Authenticate(email: string, password: string, found: Option<string>, sid: string, rt: string)
      returns (r: Reply)
      requires Possible(View(), LogIn(email, password, found, sid, rt))
      modifies this
      ensures (View(), r) == AfterLogIn(cfg, old(View()), LogIn(email, password, found, sid, rt))
    {
      if email == "" || password == "" {
        return Failed(InvalidInput);
      }
      if found.None? {
        return Failed(InvalidCredentials);
      }
      var user := users[found.value];
      if !user.active {
        return Failed(Unauthorized);
      }
      if !cfg.verify(password, user.passwordHash) {
        return Failed(InvalidCredentials);
      }
      r := SaveNewSession(found.value, sid, rt, Login(found.value, password, user.passwordHash));
    }

    method RefreshToken(refreshToken: string, found: Option<string>, sid: string, rt: string) returns (r: Reply)
      requires Possible(View(), Refresh(refreshToken, found, sid, rt))
      modifies this
      ensures (View(), r) == AfterRefresh(old(View()), Refresh(refreshToken, found, sid, rt))
    {
      if refreshToken == "" {
        return Failed(TokenInvalid);
      }
      if found.None? {
        return Failed(TokenInvalid);
      }
      var session := sessions[found.value];
      if now > session.expiresAt {
        return Failed(TokenExpired);
      }
      if session.userID !in users {
        return Failed(NotFound);
      }
      ghost var login := if found.value in logins then logins[found.value] else Login("", "", "");
      DeleteSession(found.value);
      r := SaveNewSession(session.userID, sid, rt, login);
    }

    method LogoutToken(token: Token)
      modifies this
      ensures (View(), Done) == Apply(cfg, old(View()), Logout(token))
    {
      var claims := ParseToken(token, now);
      if claims.Some? {
        DeleteSession(claims.value.sessionID);
      }
    }

    method ChangeOwnPassword(userID: string, current: string, password: string, newHash: string) returns (r: Reply)
      modifies this
      ensures (View(), r) == AfterChangePassword(cfg, old(View()), ChangePassword(userID, current, password, newHash))
    {
      if current == "" || password == "" {
        return Failed(InvalidInput);
      }
      if userID !in users {
        return Failed(NotFound);
      }
      var user := users[userID];
      if !cfg.verify(current, user.passwordHash) {
        return Failed(InvalidCredentials);
      }
      users := users[userID := user.(passwordHash := newHash)];
      DeleteByUser(userID);
      return Done;
    }

    method CreateUser(id: string, email: string, password: string, hash: string, name: string, role: string,
                      taken: bool)
      returns (r: Reply)
      requires Possible(View(), Create(id, email, password, hash, name, role, taken))
      modifies this
      ensures (View(), r) == AfterCreate(cfg, old(View()), Create(id, email, password, hash, name, role, taken))
    {
      if email == "" || password == "" || name == "" || role !in ROLES {
        return Failed(InvalidInput);
      }
      if taken {
        return Failed(AlreadyExists);
      }
      users := users[id := User(cfg.lower(cfg.trim(email)), hash, cfg.trim(name), role, cfg.teamID, true)];
      return Done;
    }

    method UpdateUser(id: string, name: Option<string>, role: Option<string>, active: Option<bool>) returns (r: Reply)
      modifies this
      ensures (View(), r) == AfterUpdate(cfg, old(View()), Update(id, name, role, active))
    {
      if id !in users || users[id].teamID != cfg.teamID {
        return Failed(NotFound);
      }
      var user := users[id];
      if name.Some? {
        user := user.(name := cfg.trim(name.value));
      }
      if role.Some? {
        user := user.(role := role.value);
      }
      if active.Some? {
        user := user.(active := active.value);
      }
      users := users[id := user];
      if active.Some? && !active.value {
        DeleteByUser(id);
      }
      return Done;
    }

    method DeleteUser(id: string) returns (r: Reply)
      modifies this
      ensures (View(), r) == AfterDelete(cfg, old(View()), id)
    {
      if id !in users || users[id].teamID != cfg.teamID {
        return Failed(NotFound);
      }
      DeleteByUser(id);
      users := users - {id};
      return Done;
    }

    method SetUserPassword(id: string, password: string, hash: string) returns (r: Reply)
      modifies this
      ensures (View(), r) == AfterSetPassword(cfg, old(View()), SetPassword(id, password, hash))
    {
      if password == "" {
        return Failed(InvalidInput);
      }
      if id !in users || users[id].teamID != cfg.teamID {
        return Failed(NotFound);
      }
      users := users[id := users[id].(passwordHash := hash)];
      DeleteByUser(id);
      return Done;
    }
  }
}
