/** The sessions table (internal/repository/session_repository.go) and the rows
    the auth service builds for it (internal/service/auth_service.go).

    A row's id and the hash of its refresh token are minted together from fresh
    random data, so both are unique and one number stands for the two of them.
    Every repository call is one atomic statement or transaction. */
module SessionStore {
  import opened Wrappers

  type Id = nat
  type Time = nat

  /** The write-once stamp `rotated_at` / `replaced_by`. */
  datatype Rotation = Rotation(at: Time, replacedBy: Id)

  datatype Session = Session(
    family: Id,
    user: nat,
    createdAt: Time,
    expiresAt: Time,
    absoluteExpiresAt: Time,
    rotation: Option<Rotation>)

  type Table = map<Id, Session>

  datatype StoreError = AlreadyRotated | DuplicateKey

  /** The part of a row no statement ever updates. */
  predicate SameMint(a: Session, b: Session) {
    a.(rotation := None) == b.(rotation := None)
  }

  /** `buildSession`: the sliding deadline never outlives the absolute one. */
  function BuildSession(family: Id, user: nat, absolute: Time, now: Time, window: nat): (s: Session)
    ensures s == Session(family, user, now, s.expiresAt, absolute, None)
    ensures s.expiresAt <= absolute && s.expiresAt <= now + window
    ensures s.expiresAt == absolute || s.expiresAt == now + window
  {
    var sliding := now + window;
    Session(family, user, now, if sliding > absolute then absolute else sliding, absolute, None)
  }

  function Inserted(t: Table, id: Id, s: Session): Result<Table, StoreError> {
    if id in t then Err(DuplicateKey) else Ok(t[id := s])
  }

  /** The transaction of `RotateSession`: compare-and-set, then insert. */
  function Rotated(t: Table, current: Id, id: Id, next: Session): Result<Table, StoreError> {
    if current !in t || t[current].rotation.Some? then
      Err(AlreadyRotated)
    else
      Inserted(t[current := t[current].(rotation := Some(Rotation(next.createdAt, id)))], id, next)
  }

  function WithoutId(t: Table, id: Id): Table {
    t - {id}
  }

  function WithoutFamily(t: Table, family: Id): Table {
    map id | id in t && t[id].family != family :: t[id]
  }

  function WithoutUser(t: Table, user: nat): Table {
    map id | id in t && t[id].user != user :: t[id]
  }

  predicate Expired(s: Session, now: Time) {
    s.expiresAt < now || s.absoluteExpiresAt < now
  }

  function WithoutExpired(t: Table, user: nat, now: Time): Table {
    map id | id in t && !(t[id].user == user && Expired(t[id], now)) :: t[id]
  }

  /** Exactly the rows of one family are gone, and the others are as they were. */
  ghost predicate LessFamily(t: Table, t': Table, family: Id) {
    && (forall id :: id in t' <==> id in t && t[id].family != family)
    && (forall id :: id in t' ==> t'[id] == t[id])
  }

  predicate FamilyEmpty(t: Table, family: Id) {
    forall id :: id in t ==> t[id].family != family
  }

  /** The repository object: one field, the table, changed by every method. */
  class SessionRepository {
    var sessions: Table

    constructor ()
      ensures sessions == map[]
    {
      sessions := map[];
    }

    method CreateSession(id: Id, s: Session) returns (r: Result<(), StoreError>)
      modifies this
      ensures r == if id in old(sessions) then Err(DuplicateKey) else Ok(())
      ensures sessions == if r.Ok? then old(sessions)[id := s] else old(sessions)
    {
      if id in sessions {
        return Err(DuplicateKey);
      }
      sessions := sessions[id := s];
      return Ok(());
    }

    method GetSessionByRefreshToken(token: Id) returns (r: Option<Session>)
      ensures r.Some? <==> token in sessions
      ensures r.Some? ==> r.value == sessions[token]
    {
      if token in sessions {
        return Some(sessions[token]);
      }
      return None;
    }

    method RotateSession(current: Id, id: Id, next: Session) returns (r: Result<(), StoreError>)
      modifies this
      ensures match Rotated(old(sessions), current, id, next)
              case Ok(t) => r == Ok(()) && sessions == t
              case Err(e) => r == Err(e) && sessions == old(sessions)
    {
      if current !in sessions || sessions[current].rotation.Some? {
        return Err(AlreadyRotated);
      }
      var before := sessions;
      sessions := sessions[current := sessions[current].(rotation := Some(Rotation(next.createdAt, id)))];
      if id in sessions {
        sessions := before; // the transaction rolls back
        return Err(DuplicateKey);
      }
      sessions := sessions[id := next];
      return Ok(());
    }

    method DeleteSession(token: Id)
      modifies this
      ensures sessions == WithoutId(old(sessions), token)
      ensures forall id :: id in sessions <==> id in old(sessions) && id != token
      ensures forall id :: id in sessions ==> sessions[id] == old(sessions)[id]
    {
      sessions := sessions - {token};
    }

    method DeleteByUserID(user: nat) returns (removed: nat)
      modifies this
      ensures sessions == WithoutUser(old(sessions), user)
      ensures forall id :: id in sessions <==> id in old(sessions) && old(sessions)[id].user != user
      ensures forall id :: id in sessions ==> sessions[id] == old(sessions)[id]
      ensures removed == |old(sessions)| - |sessions|
    {
      var doomed := set id | id in sessions && sessions[id].user == user;
      DeleteRows(sessions, doomed);
      sessions := sessions - doomed;
      removed := |doomed|;
    }

    method DeleteByFamilyID(family: Id)
      modifies this
      ensures sessions == WithoutFamily(old(sessions), family)
      ensures LessFamily(old(sessions), sessions, family) && FamilyEmpty(sessions, family)
    {
      sessions := sessions - (set id | id in sessions && sessions[id].family == family);
    }

    method DeleteAll() returns (removed: nat)
      modifies this
      ensures sessions == map[] && removed == |old(sessions)|
    {
      removed := |sessions|;
      sessions := map[];
    }

    method DeleteExpired(user: nat, now: Time) returns (removed: nat)
      modifies this
      ensures sessions == WithoutExpired(old(sessions), user, now)
      ensures forall id :: id in sessions <==> id in old(sessions) && (old(sessions)[id].user == user ==>
        now <= old(sessions)[id].expiresAt && now <= old(sessions)[id].absoluteExpiresAt)
      ensures forall id :: id in sessions ==> sessions[id] == old(sessions)[id]
      ensures removed == |old(sessions)| - |sessions|
    {
      var doomed := set id | id in sessions && sessions[id].user == user && Expired(sessions[id], now);
      DeleteRows(sessions, doomed);
      sessions := sessions - doomed;
      removed := |doomed|;
    }
  }

  lemma DeleteRows(t: Table, doomed: set<Id>)
    requires doomed <= t.Keys
    ensures |t - doomed| == |t| - |doomed|
  {
    assert (t - doomed).Keys == t.Keys - doomed;
    assert |(t - doomed).Keys| == |t.Keys| - |doomed|;
  }
}
