/** What the calls of Sessions do, told from outside: which fields of which user change,
    which password a user logs in with, when a session ends, and how long its token is
    accepted. */
module SessionPromises {
  import opened Sessions
  import opened Wrappers

  const DAY := 24 * 60 * 60 * 1_000_000_000

  // ---- users -------------------------------------------------------------

  /** Only the user `id` differs, and only in the row given. */
  predicate OneRow(s: State, t: State, id: string, row: User) {
    && id in t.users && t.users[id] == row && t.users.Keys == s.users.Keys + {id}
    && (forall u :: u in s.users && u != id ==> t.users[u] == s.users[u])
  }

  /** The rows are equal but for the password hash. */
  predicate NewHash(a: User, b: User, hash: string) {
    && b.passwordHash == hash
    && b.email == a.email && b.name == a.name && b.role == a.role && b.teamID == a.teamID && b.active == a.active
  }

  predicate InTeam(cfg: Config, s: State, id: string) {
    id in s.users && s.users[id].teamID == cfg.teamID
  }

  /** An administrator's password change: it is done exactly for a user of the team and
      a non-empty password, and then that user has the new hash and no session. */
  lemma SetPasswordDoes(cfg: Config, s: State, op: Op)
    requires op.SetPassword?
    ensures var (t, r) := Apply(cfg, s, op);
            && (r == Done <==> op.password != "" && InTeam(cfg, s, op.id))
            && (r != Done ==> t == s)
            && (r == Done ==>
                  && OneRow(s, t, op.id, t.users[op.id]) && NewHash(s.users[op.id], t.users[op.id], op.passwordHash)
                  && forall x :: x in t.sessions <==> x in s.sessions && s.sessions[x].userID != op.id)
  {
  }

  /** A user's own change also needs the current password. */
  lemma ChangePasswordDoes(cfg: Config, s: State, op: Op)
    requires op.ChangePassword?
    ensures var (t, r) := Apply(cfg, s, op);
            && (r == Done <==>
                  && op.current != "" && op.password != "" && op.id in s.users
                  && cfg.verify(op.current, s.users[op.id].passwordHash))
            && (r != Done ==> t == s)
            && (r == Done ==>
                  && OneRow(s, t, op.id, t.users[op.id]) && NewHash(s.users[op.id], t.users[op.id], op.passwordHash)
                  && forall x :: x in t.sessions <==> x in s.sessions && s.sessions[x].userID != op.id)
  {
  }

  /** Update changes the fields it is given and no others. */
  lemma UpdateDoes(cfg: Config, s: State, op: Op)
    requires op.Update?
    ensures var (t, r) := Apply(cfg, s, op);
            && (r == Done <==> InTeam(cfg, s, op.id))
            && (r != Done ==> t == s)
            && (r == Done ==>
                  && OneRow(s, t, op.id, t.users[op.id])
                  && var a, b := s.users[op.id], t.users[op.id];
                  && (match op.newName case Some(n) => b.name == cfg.trim(n) case None => b.name == a.name)
                  && (match op.newRole case Some(x) => b.role == x case None => b.role == a.role)
                  && (match op.newActive case Some(x) => b.active == x case None => b.active == a.active)
                  && b.email == a.email && b.passwordHash == a.passwordHash && b.teamID == a.teamID)
  {
  }

  /** A created user is active, in the team, with the trimmed name and the trimmed,
      lower-cased address. */
  lemma CreateDoes(cfg: Config, s: State, op: Op)
    requires op.Create? && Possible(s, op)
    ensures var (t, r) := Apply(cfg, s, op);
            && (r == Done <==>
                  && op.email != "" && op.password != "" && op.name != "" && op.role in {"admin", "member", "viewer"}
                  && forall u :: u in s.users ==> s.users[u].email != op.email)
            && (r != Done ==> t == s)
            && (r == Done ==>
                  && OneRow(s, t, op.id, t.users[op.id]) && t.sessions == s.sessions
                  && var u := t.users[op.id];
                  && u.active && u.teamID == cfg.teamID && u.role == op.role && u.passwordHash == op.passwordHash
                  && u.name == cfg.trim(op.name) && u.email == cfg.lower(cfg.trim(op.email)))
  {
  }

  /** Deleting removes the user and every session of that user, and nothing else. */
  lemma DeleteDoes(cfg: Config, s: State, op: Op)
    requires op.Delete?
    ensures var (t, r) := Apply(cfg, s, op);
            && (r == Done <==> InTeam(cfg, s, op.id))
            && (r != Done ==> t == s)
            && (r == Done ==>
                  && t.users.Keys == s.users.Keys - {op.id}
                  && (forall u :: u in t.users ==> t.users[u] == s.users[u])
                  && forall x :: x in t.sessions <==> x in s.sessions && s.sessions[x].userID != op.id)
  {
  }

  // ---- the password given last -------------------------------------------

  /** The call gives the user a password. */
  predicate Gives(op: Op, id: string) {
    (op.Create? || op.SetPassword? || op.ChangePassword?) && op.id == id
  }

  /** The hash that the last successful creation or password change of the user gave,
      None while there is no such user; `last` is the one before `ops`. */
  function GivenLast(cfg: Config, s: State, ops: seq<Op>, id: string, last: Option<string>): Option<string>
    requires Run(cfg, s, ops).Some?
    decreases |ops|
  {
    if ops == [] then last
    else
      var (t, r) := Apply(cfg, s, ops[0]);
      var next := if r != Done then last
                  else if Gives(ops[0], id) then Some(ops[0].passwordHash)
                  else if ops[0].Delete? && ops[0].id == id then None
                  else last;
      GivenLast(cfg, t, ops[1..], id, next)
  }

  predicate HasHash(s: State, id: string, hash: Option<string>) {
    match hash case Some(h) => id in s.users && s.users[id].passwordHash == h case None => id !in s.users
  }

  lemma StepGives(cfg: Config, s: State, op: Op, id: string, last: Option<string>)
    requires Possible(s, op) && HasHash(s, id, last)
    ensures var (t, r) := Apply(cfg, s, op);
            HasHash(t, id, if r != Done then last
                           else if Gives(op, id) then Some(op.passwordHash)
                           else if op.Delete? && op.id == id then None
                           else last)
  {
    if op.SetPassword? {
      SetPasswordDoes(cfg, s, op);
    } else if op.ChangePassword? {
      ChangePasswordDoes(cfg, s, op);
    } else if op.Update? {
      UpdateDoes(cfg, s, op);
    }
  }

  lemma {:induction false} HashIsGivenLast(cfg: Config, s: State, ops: seq<Op>, id: string, last: Option<string>)
    requires Run(cfg, s, ops).Some? && HasHash(s, id, last)
    ensures HasHash(Run(cfg, s, ops).value, id, GivenLast(cfg, s, ops, id, last))
    decreases |ops|
  {
    if ops != [] {
      var (t, r) := Apply(cfg, s, ops[0]);
      StepGives(cfg, s, ops[0], id, last);
      HashIsGivenLast(cfg, t, ops[1..], id,
          if r != Done then last
          else if Gives(ops[0], id) then Some(ops[0].passwordHash)
          else if ops[0].Delete? && ops[0].id == id then None
          else last);
    }
  }

  /** On every run from empty stores, a login succeeds exactly when the address is some
      active user's and the password passes against the hash that user was given last;
      it is then that user's. */
  lemma LoginSucceedsIff(cfg: Config, start: int, ops: seq<Op>, op: Op)
    requires Run(cfg, Empty(start), ops).Some? && op.LogIn? && Possible(Run(cfg, Empty(start), ops).value, op)
    ensures var s := Run(cfg, Empty(start), ops).value;
            var r := Apply(cfg, s, op).1;
            && (r.LoggedIn? <==>
                  && op.email != "" && op.password != "" && op.found.Some? && s.users[op.found.value].active
                  && GivenLast(cfg, Empty(start), ops, op.found.value, None).Some?
                  && cfg.verify(op.password, GivenLast(cfg, Empty(start), ops, op.found.value, None).value))
            && (r.LoggedIn? ==> r.userID == op.found.value)
            && (r == Failed(Unauthorized) <==>
                  op.email != "" && op.password != "" && op.found.Some? && !s.users[op.found.value].active)
  {
    if op.found.Some? { HashIsGivenLast(cfg, Empty(start), ops, op.found.value, None); }
  }

  // ---- refusals ----------------------------------------------------------

  /** A refused call changes nothing. A login is refused for an empty field, then for a
      user who is not active, and otherwise without saying whether address or password
      were wrong. */
  lemma LoginRefusals(cfg: Config, s: State, op: Op)
    requires op.LogIn? && Possible(s, op) && !Apply(cfg, s, op).1.LoggedIn?
    ensures var (t, r) := Apply(cfg, s, op);
            && t == s
            && r == Failed(if op.email == "" || op.password == "" then InvalidInput
                           else if op.found.Some? && !s.users[op.found.value].active then Unauthorized
                           else InvalidCredentials)
  {
  }

  /** A refresh is refused for a token no session has, for a session past its time, or
      for a user who is gone. */
  lemma RefreshRefusals(cfg: Config, s: State, op: Op)
    requires op.Refresh? && Possible(s, op) && !Apply(cfg, s, op).1.LoggedIn?
    ensures var (t, r) := Apply(cfg, s, op);
            && t == s
            && r.Failed? && r.error in {TokenInvalid, TokenExpired, NotFound}
            && (r.error == TokenInvalid <==>
                  || op.refreshToken == ""
                  || forall x :: x in s.sessions ==> s.sessions[x].refreshToken != op.refreshToken)
            && (r.error != TokenInvalid ==>
                  && op.found.Some? && op.found.value in s.sessions
                  && (r.error == TokenExpired <==> s.now > s.sessions[op.found.value].expiresAt)
                  && (r.error == NotFound ==> s.sessions[op.found.value].userID !in s.users))
  {
  }

  /** The calls on users name what is wrong: an empty or unknown field first, then a
      user who is not there, or not of the team, then a wrong password or an address
      that is taken. */
  lemma UserRefusals(cfg: Config, s: State, op: Op)
    requires op.Create? || op.Update? || op.Delete? || op.SetPassword? || op.ChangePassword?
    requires Possible(s, op) && Apply(cfg, s, op).1 != Done
    ensures var r := Apply(cfg, s, op).1;
            var malformed := match op
              case Create(_, email, password, _, name, role, _) =>
                email == "" || password == "" || name == "" || role !in {"admin", "member", "viewer"}
              case SetPassword(_, password, _) => password == ""
              case ChangePassword(_, current, password, _) => current == "" || password == ""
              case _ => false;
            r == Failed(if malformed then InvalidInput
                        else if op.Create? then AlreadyExists
                        else if op.ChangePassword? && op.id in s.users then InvalidCredentials
                        else NotFound)
  {
  }

  /** A token is refused as invalid unless it is signed and its last second has not
      begun, then for a session that is gone, then for one past its time. */
  lemma ValidationRefusals(s: State, token: Token)
    requires ValidateToken(s, token).Rejected?
    ensures var e := ValidateToken(s, token).error;
            && (e == TokenInvalid <==> !token.Signed? || s.now >= token.claims.expiresAt * 1_000_000_000)
            && (e != TokenInvalid ==>
                  && (e == SessionNotFound <==> token.claims.sessionID !in s.sessions)
                  && (e == TokenExpired <==>
                        token.claims.sessionID in s.sessions && s.now > s.sessions[token.claims.sessionID].expiresAt))
  {
  }

  /** Time passes without touching any store. */
  lemma TickDoes(cfg: Config, s: State, now: int)
    requires now >= s.now
    ensures var t := Apply(cfg, s, Tick(now)).0;
            t.now == now && t.users == s.users && t.sessions == s.sessions && t.issued == s.issued
  {
  }

  // ---- sessions ----------------------------------------------------------

  /** A login or refresh that succeeds opens one session for a day, whose token names
      the user's address, role and team as they are, and is accepted at once. */
  lemma LoggedInOpens(cfg: Config, s: State, op: Op)
    requires Inv(cfg, s) && Possible(s, op) && Apply(cfg, s, op).1.LoggedIn?
    ensures op.LogIn? || op.Refresh?
    ensures var (t, r) := Apply(cfg, s, op);
            var sid := if op.LogIn? then op.sessionID else op.newSessionID;
            && sid !in s.sessions && sid in t.sessions && r.userID in s.users && t.users == s.users
            && t.sessions[sid] == Session(r.userID, r.token, r.refreshToken, s.now + DAY) && r.expiresAt == s.now + DAY
            && r.refreshToken == (if op.LogIn? then op.refreshToken else op.newRefreshToken)
            && r.token.Signed? && r.token.claims in t.issued && r.token.claims.sessionID == sid
            && r.token.claims.expiresAt == (s.now + DAY) / 1_000_000_000
            && var u := s.users[r.userID];
            && r.token.claims.email == u.email && r.token.claims.role == u.role && r.token.claims.teamID == u.teamID
            && ValidateToken(t, r.token) == Accepted(r.userID, u.role, sid)
  {
  }

  /** Exactly which calls end a session: a logout with its unexpired token, a refresh of
      it, and what ends every session of its user. Any other call leaves it as it is. */
  lemma SessionEndsIff(cfg: Config, s: State, op: Op, sid: string)
    requires Inv(cfg, s) && Possible(s, op) && sid in s.sessions
    ensures var (t, r) := Apply(cfg, s, op);
            var userID := s.sessions[sid].userID;
            && (sid !in t.sessions <==>
                  || (op.Logout? && op.token.Signed? && op.token.claims.sessionID == sid
                      && s.now < op.token.claims.expiresAt * 1_000_000_000)
                  || (op.Refresh? && r.LoggedIn? && op.found == Some(sid))
                  || (op.LogoutAll? && op.id == userID)
                  || (r == Done && (op.Delete? || op.SetPassword? || op.ChangePassword?) && op.id == userID)
                  || (r == Done && op.Update? && op.newActive == Some(false) && op.id == userID))
            && (sid in t.sessions ==> t.sessions[sid] == s.sessions[sid])
  {
  }

  /** On every run, a token that was issued is accepted exactly while its session is
      stored and its last second has not begun, with the user and role it was issued
      for. */
  lemma AcceptedExactly(cfg: Config, start: int, ops: seq<Op>, c: Claims)
    requires Run(cfg, Empty(start), ops).Some? && c in Run(cfg, Empty(start), ops).value.issued
    ensures var s := Run(cfg, Empty(start), ops).value;
            && (ValidateToken(s, Signed(c)).Accepted? <==>
                  c.sessionID in s.sessions && s.now < c.expiresAt * 1_000_000_000)
            && (ValidateToken(s, Signed(c)).Accepted? ==>
                  ValidateToken(s, Signed(c)) == Accepted(c.userID, c.role, c.sessionID))
  {
    InvOnRuns(cfg, Empty(start), ops);
  }

  /** A string that is no signed token is never accepted. */
  lemma OthersAreRejected(s: State, text: string)
    ensures ValidateToken(s, Other(text)) == Rejected(TokenInvalid)
  {
  }
}
