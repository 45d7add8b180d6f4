/** `RefreshToken` and `Logout` of internal/service/auth_service.go as calls on
    the repository object, and the proof that an undisturbed call is one of the
    runs of the step system. */
module AuthService {
  import opened Wrappers
  import opened SessionStore
  import opened RefreshProtocol
  import opened RefreshTheorems

  datatype AuthError = InvalidToken | TokenExpired | Storage(error: StoreError)

  /** The clock readings of one call: decision, new row, pruning. */
  datatype Clock = Clock(decide: Time, build: Time, prune: Time)

  /** `issueRotatedToken` on a table that other requests may have changed since
      `row` was read: a lost race falls back to inserting a sibling when there is
      a grace window. `newId` is the key minted for the successor, `userFound`
      whether the account still exists. */
  function IssueCall(c: Config, t: Table, token: Id, row: Session, rotate: bool, at: Clock, newId: Id, userFound: bool):
      (r: (Table, Result<Id, AuthError>))
    ensures r.1.Ok? ==> userFound && newId !in t
    ensures r.1.Err? ==> r.0 == t
  {
    if !userFound then (t, Err(InvalidToken)) else
    var next := BuildSession(row.family, row.user, row.absoluteExpiresAt, at.build, c.window);
    var replaced := if rotate then Rotated(t, token, newId, next) else Inserted(t, newId, next);
    if replaced == Err(AlreadyRotated) && c.grace == 0 then (t, Err(InvalidToken)) else
    match if replaced == Err(AlreadyRotated) then Inserted(t, newId, next) else replaced
    case Ok(t') => (WithoutExpired(t', row.user, at.prune), Ok(newId))
    case Err(e) => (t, Err(Storage(e)))
  }

  /** Table and answer of a whole call that nothing interleaves with. */
  function RefreshCall(c: Config, t: Table, token: Id, at: Clock, newId: Id, userFound: bool):
      (r: (Table, Result<Id, AuthError>))
    ensures r.1.Ok? ==> token in t && Decide(c, token, t[token], at.decide).Issuing?
  {
    if token !in t then (t, Err(InvalidToken)) else
    var row := t[token];
    match Decide(c, token, row, at.decide)
    case Revoking(family) =>
      (WithoutFamily(t, family), Err(if at.decide > row.absoluteExpiresAt then TokenExpired else InvalidToken))
    case Dropping(_) => (WithoutId(t, token), Err(TokenExpired))
    case Issuing(_, _, rotate, _) => IssueCall(c, t, token, row, rotate, at, newId, userFound)
  }

  /** Rows but the exchanged and the new one are as they were, or expired ones of
      the user that pruning took; the exchanged one got its stamp iff it is to be
      replaced and had none. */
  ghost predicate Successor(t: Table, t': Table, token: Id, stamped: bool, newId: Id, next: Session, prune: Time) {
    && (forall id :: id in t' && id != newId ==> id in t)
    && (forall id :: id in t && id !in t' ==> t[id].user == next.user && Expired(t[id], prune))
    && (forall id :: id in t && id in t' && id != token ==> t'[id] == t[id])
    && (token in t && token in t' ==>
          t'[token] == if stamped then t[token].(rotation := Some(Rotation(next.createdAt, newId))) else t[token])
    && (if Expired(next, prune) then newId !in t' else newId in t' && t'[newId] == next)
  }

  /** Issuing on a table that others may have changed: it fails, changing nothing,
      iff the account is gone or the race is lost without a grace window. */
  lemma IssueOutcome(
    c: Config, t: Table, token: Id, row: Session, rotate: bool, at: Clock, newId: Id, userFound: bool)
    requires newId !in t && newId != token
    ensures var (t', r) := IssueCall(c, t, token, row, rotate, at, newId, userFound);
      var won := token in t && t[token].rotation.None?;
      var next := BuildSession(row.family, row.user, row.absoluteExpiresAt, at.build, c.window);
      && (r == Ok(newId) <==> userFound && (!rotate || won || c.grace > 0))
      && (r != Ok(newId) ==> r == Err(InvalidToken) && t' == t)
      && (r == Ok(newId) ==> Successor(t, t', token, rotate && won, newId, next, at.prune))
  {
  }

  predicate Honourable(c: Config, row: Session, now: Time) {
    now <= row.absoluteExpiresAt &&
    match row.rotation
    case None => now <= row.expiresAt
    case Some(rotation) => c.grace > 0 && now <= rotation.at + c.grace
  }

  /** An undisturbed refresh, told by what was presented: the answer, and the table
      after it. */
  lemma RefreshOutcome(c: Config, t: Table, token: Id, at: Clock, newId: Id, userFound: bool)
    requires newId !in t && newId != token
    ensures var (t', r) := RefreshCall(c, t, token, at, newId, userFound);
      if token !in t then r == Err(InvalidToken) && t' == t
      else
        var row := t[token];
        var next := BuildSession(row.family, row.user, row.absoluteExpiresAt, at.build, c.window);
        if Honourable(c, row, at.decide) then
          if userFound then r == Ok(newId) && Successor(t, t', token, row.rotation.None?, newId, next, at.prune)
          else r == Err(InvalidToken) && t' == t
        else if at.decide > row.absoluteExpiresAt then r == Err(TokenExpired) && LessFamily(t, t', row.family)
        else if row.rotation.Some? then r == Err(InvalidToken) && LessFamily(t, t', row.family)
        else r == Err(TokenExpired) && t' == t - {token}
  {
    if token in t && Honourable(c, t[token], at.decide) {
      IssueOutcome(c, t, token, t[token], t[token].rotation.None?, at, newId, userFound);
    }
  }

  class Service {
    const config: Config
    const sessionRepo: SessionRepository

    constructor (config: Config, sessionRepo: SessionRepository)
      ensures this.config == config && this.sessionRepo == sessionRepo
    {
      this.config := config;
      this.sessionRepo := sessionRepo;
    }

    method RefreshToken(token: Id, at: Clock, newId: Id, userFound: bool) returns (r: Result<Id, AuthError>)
      modifies sessionRepo
      ensures (sessionRepo.sessions, r) ==
        RefreshCall(config, old(sessionRepo.sessions), token, at, newId, userFound)
    {
      var found := sessionRepo.GetSessionByRefreshToken(token);
      if found.None? {
        return Err(InvalidToken);
      }
      var session := found.value;
      if at.decide > session.absoluteExpiresAt {
        sessionRepo.DeleteByFamilyID(session.family);
        return Err(TokenExpired);
      }
      if session.rotation.Some? {
        if config.grace > 0 && at.decide <= session.rotation.value.at + config.grace {
          r := IssueRotatedToken(token, session, false, at, newId, userFound);
          return;
        }
        sessionRepo.DeleteByFamilyID(session.family);
        return Err(InvalidToken);
      }
      if at.decide > session.expiresAt {
        sessionRepo.DeleteSession(token);
        return Err(TokenExpired);
      }
      r := IssueRotatedToken(token, session, true, at, newId, userFound);
    }

    method IssueRotatedToken(token: Id, current: Session, rotate: bool, at: Clock, newId: Id, userFound: bool)
        returns (r: Result<Id, AuthError>)
      modifies sessionRepo
      ensures (sessionRepo.sessions, r) ==
        IssueCall(config, old(sessionRepo.sessions), token, current, rotate, at, newId, userFound)
    {
      if !userFound {
        return Err(InvalidToken);
      }
      var next := BuildSession(current.family, current.user, current.absoluteExpiresAt, at.build, config.window);
      var written;
      if rotate {
        written := sessionRepo.RotateSession(token, newId, next);
        if written == Err(AlreadyRotated) {
          if config.grace <= 0 {
            return Err(InvalidToken);
          }
          written := sessionRepo.CreateSession(newId, next);
        }
      } else {
        written := sessionRepo.CreateSession(newId, next);
      }
      if written.Err? {
        return Err(Storage(written.error));
      }
      var _ := sessionRepo.DeleteExpired(current.user, at.prune);
      return Ok(newId);
    }

    method Logout(user: nat, token: Id)
      modifies sessionRepo
      ensures var t := old(sessionRepo.sessions);
        sessionRepo.sessions ==
          if token in t && t[token].user == user then WithoutFamily(t, t[token].family) else t
      ensures var t := old(sessionRepo.sessions);
        if token in t && t[token].user == user then LessFamily(t, sessionRepo.sessions, t[token].family)
        else sessionRepo.sessions == t
    {
      var found := sessionRepo.GetSessionByRefreshToken(token);
      if found.None? || found.value.user != user {
        return;
      }
      sessionRepo.DeleteByFamilyID(found.value.family);
    }
  }

  /** Building and writing, from the decision to issue onwards. */
  lemma WriteIsARun(c: Config, s: State, r: nat, t: Time) returns (run: seq<Action>, s': State)
    requires Inv(c, s) && r in s.requests && s.requests[r].Issuing? && s.requests[r].decided == s.now
    requires s.requests[r].token in s.table && s.table[s.requests[r].token] == s.requests[r].row
    requires s.requests[r].rotate == s.requests[r].row.rotation.None?
    requires s.now <= t <= s.now + c.latency
    ensures Run(c, s, run, s') && s.nextId in s'.stored && s'.now == t
    ensures r in s'.requests && s'.requests[r] == Pruning(s.requests[r].row.user)
    ensures var row := s.requests[r].row;
      var next := BuildSession(row.family, row.user, row.absoluteExpiresAt, t, c.window);
      Ok(s'.table) == if s.requests[r].rotate then Rotated(s.table, s.requests[r].token, s.nextId, next)
                      else Inserted(s.table, s.nextId, next)
  {
    assert forall id :: id in s.table ==> CopyOk(c, s, id, s.table[id]);
    assert forall id :: id in s.issued ==> IssueOk(c, s, id, s.issued[id]);
    assert s.nextId !in s.table;
    var s3 := Apply(c, s, Tick(t - s.now));
    var s4 := Apply(c, s3, Advance(r));
    s' := Apply(c, s4, Advance(r));
    run := RunBefore(c, s4, Advance(r), [], s');
    run := RunBefore(c, s3, Advance(r), run, s');
    run := RunBefore(c, s, Tick(t - s.now), run, s');
  }

  lemma PruneIsARun(c: Config, s: State, r: nat, t: Time) returns (run: seq<Action>, s': State)
    requires r in s.requests && s.requests[r].Pruning? && s.now <= t
    ensures Run(c, s, run, s') && s'.stored == s.stored
    ensures s'.table == WithoutExpired(s.table, s.requests[r].user, t)
  {
    var s1 := Apply(c, s, Tick(t - s.now));
    s' := Apply(c, s1, Advance(r));
    run := RunBefore(c, s1, Advance(r), [], s');
    run := RunBefore(c, s, Tick(t - s.now), run, s');
  }

  lemma IssueIsARun(c: Config, s: State, r: nat, at: Clock) returns (run: seq<Action>, s': State)
    requires Inv(c, s) && r in s.requests && s.requests[r].Issuing? && s.requests[r].decided == s.now
    requires s.requests[r].token in s.table && s.table[s.requests[r].token] == s.requests[r].row
    requires s.requests[r].rotate == s.requests[r].row.rotation.None?
    requires s.now <= at.build <= at.prune && at.build <= s.now + c.latency
    ensures Run(c, s, run, s') && s.nextId in s'.stored
    ensures var q := s.requests[r];
      IssueCall(c, s.table, q.token, q.row, q.rotate, at, s.nextId, true) == (s'.table, Ok(s.nextId))
  {
    var m, more;
    run, m := WriteIsARun(c, s, r, at.build);
    more, s' := PruneIsARun(c, m, r, at.prune);
    RunsCompose(c, s, run, m, more, s');
    run := run + more;
  }

  lemma LookupIsARun(c: Config, s: State, r: nat, token: Id) returns (s': State)
    requires Inv(c, s) && r !in s.requests && token in s.table
    ensures Inv(c, s') && Run(c, s, [Refresh(r, token), Advance(r)], s')
    ensures r in s'.requests && s'.requests[r] == Decide(c, token, s.table[token], s.now)
    ensures s'.table == s.table && s'.now == s.now && s'.nextId == s.nextId
  {
    var s1 := Apply(c, s, Refresh(r, token));
    StepKeepsInv(c, s, Refresh(r, token));
    StepKeepsInv(c, s1, Advance(r));
    s' := Apply(c, s1, Advance(r));
    var run := RunBefore(c, s1, Advance(r), [], s');
    run := RunBefore(c, s, Refresh(r, token), run, s');
    assert run == [Refresh(r, token), Advance(r)];
  }

  lemma RefusalIsARun(c: Config, s: State, r: nat) returns (run: seq<Action>, s': State)
    requires r in s.requests && (s.requests[r].Revoking? || s.requests[r].Dropping?)
    ensures Run(c, s, run, s')
    ensures s'.table == if s.requests[r].Revoking? then WithoutFamily(s.table, s.requests[r].family)
                        else WithoutId(s.table, s.requests[r].token)
  {
    s' := Apply(c, s, Advance(r));
    run := RunBefore(c, s, Advance(r), [], s');
  }

  /** The undisturbed call is the run that looks up, decides, builds, writes and
      prunes, with the clock moving in between as it did for the call. */
  lemma RefreshCallIsARun(c: Config, s: State, r: nat, token: Id, at: Clock) returns (run: seq<Action>, s': State)
    requires Inv(c, s) && r !in s.requests
    requires at.decide == s.now <= at.build <= at.prune && at.build <= at.decide + c.latency
    ensures Run(c, s, run, s')
    ensures s'.table == RefreshCall(c, s.table, token, at, s.nextId, true).0
    ensures RefreshCall(c, s.table, token, at, s.nextId, true).1.Ok? ==> s.nextId in s'.stored
  {
    if token !in s.table {
      s' := s;
      run := RunBefore(c, s, Refresh(r, token), [], s);
      return;
    }
    var m := LookupIsARun(c, s, r, token);
    var more;
    if m.requests[r].Issuing? {
      more, s' := IssueIsARun(c, m, r, at);
    } else {
      more, s' := RefusalIsARun(c, m, r);
    }
    RunsCompose(c, s, [Refresh(r, token), Advance(r)], m, more, s');
    run := [Refresh(r, token), Advance(r)] + more;
  }

  /** So is an undisturbed logout: the family of the caller's own token goes, and a
      foreign or unknown token changes nothing. */
  lemma LogoutIsARun(c: Config, s: State, r: nat, token: Id, user: nat) returns (run: seq<Action>, s': State)
    requires r !in s.requests
    ensures Run(c, s, run, s') && |run| > 0 && run[0] == Logout(r, token, user) && run[1..] <= [Advance(r)]
    ensures if token in s.table && s.table[token].user == user
            then LessFamily(s.table, s'.table, s.table[token].family) else s'.table == s.table
  {
    var m := Apply(c, s, Logout(r, token, user));
    if r in m.requests {
      s' := Apply(c, m, Advance(r));
      run := RunBefore(c, m, Advance(r), [], s');
    } else {
      run, s' := [], m;
    }
    run := RunBefore(c, s, Logout(r, token, user), run, s');
  }
}
