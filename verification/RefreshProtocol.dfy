/** Refresh-token rotation as a step system (internal/service/auth_service.go).

    A request is interleaved with every other one between any two of its
    database calls and clock readings. In-flight requests are part of the state,
    so a row read by a request can be rotated, pruned or revoked before the
    request writes. The rotation scheme is the one of section 4.14.2 of
    RFC 9700. */
module RefreshProtocol {
  import opened Wrappers
  import opened SessionStore

  /** `window`, `cap` and `grace` are the configured periods. `latency` bounds
      how long a request may take between deciding to issue a token and reading
      the clock for the new row; 0 is "each refresh at a single instant". */
  datatype Config = Config(window: nat, cap: nat, grace: nat, latency: nat)

  /** What a request has already learnt, and hence what it does next. */
  datatype Request =
    | Looked(token: Id, row: Session)                           // row read, nothing decided
    | Issuing(token: Id, row: Session, rotate: bool, decided: Time) // may mint a successor
    | Rotating(token: Id, id: Id, next: Session)                // successor built, to replace token
    | Inserting(id: Id, next: Session)                          // row built, to be inserted as it is
    | Revoking(family: Id)                                      // DeleteByFamilyID comes next
    | Dropping(token: Id)                                       // DeleteSession comes next
    | Pruning(user: nat)                                        // DeleteExpired comes next
    | Opening(user: nat, at: Time)                              // login, absolute deadline read

  /** Who logged in to open a family, and when. */
  datatype Opened = Opened(user: nat, at: Time)

  /** The last four fields are history: every row ever built, the login behind
      every family, the ids that were ever in the table and the families that
      ever had a row there. */
  datatype State = State(
    now: Time,
    table: Table,
    requests: map<nat, Request>,
    nextId: Id,
    issued: Table,
    logins: map<Id, Opened>,
    stored: set<Id>,
    started: set<Id>)

  const Init := State(0, map[], map[], 0, map[], map[], {}, {})

  datatype Action =
    | Tick(d: nat)
    | Login(r: nat, user: nat)
    | Refresh(r: nat, token: Id)
    | Logout(r: nat, token: Id, user: nat)
    | Advance(r: nat)            // the next call of request r
    | Abort(r: nat)              // r fails: database error, deleted account, crash
    | DeleteUser(user: nat)      // password change, account deletion, admin revocation
    | DeleteAll

  /** `RefreshToken` between its lookup and its next database call. */
  function Decide(c: Config, token: Id, row: Session, now: Time): Request {
    if now > row.absoluteExpiresAt then
      Revoking(row.family)
    else if row.rotation.Some? then
      if c.grace > 0 && now <= row.rotation.value.at + c.grace then
        Issuing(token, row, false, now)
      else
        Revoking(row.family)
    else if now > row.expiresAt then
      Dropping(token)
    else
      Issuing(token, row, true, now)
  }

  predicate Enabled(c: Config, s: State, a: Action) {
    match a
    case Tick(_) => true
    case Login(r, _) => r !in s.requests
    case Refresh(r, _) => r !in s.requests
    case Logout(r, _, _) => r !in s.requests
    case Advance(r) => r in s.requests &&
      (s.requests[r].Issuing? ==> s.now <= s.requests[r].decided + c.latency)
    case Abort(r) => r in s.requests
    case DeleteUser(_) => true
    case DeleteAll => true
  }

  function Apply(c: Config, s: State, a: Action): State
    requires Enabled(c, s, a)
  {
    match a
    case Tick(d) => s.(now := s.now + d)
    case Login(r, user) => s.(requests := s.requests[r := Opening(user, s.now)])
    case Refresh(r, token) =>
      if token in s.table then s.(requests := s.requests[r := Looked(token, s.table[token])]) else s
    case Logout(r, token, user) =>
      if token in s.table && s.table[token].user == user then
        s.(requests := s.requests[r := Revoking(s.table[token].family)])
      else s
    case Advance(r) => Advanced(c, s, r, s.requests[r])
    case Abort(r) => s.(requests := s.requests - {r})
    case DeleteUser(user) => s.(table := WithoutUser(s.table, user))
    case DeleteAll => s.(table := map[])
  }

  /** One call of request r, which has got as far as q. */
  function Advanced(c: Config, s: State, r: nat, q: Request): State {
    match q
    case Looked(token, row) => s.(requests := s.requests[r := Decide(c, token, row, s.now)])
    case Issuing(token, row, rotate, _) =>
      var next := BuildSession(row.family, row.user, row.absoluteExpiresAt, s.now, c.window);
      Minted(s, r, next, if rotate then Rotating(token, s.nextId, next) else Inserting(s.nextId, next))
    case Opening(user, at) =>
      var next := BuildSession(s.nextId, user, at + c.cap, s.now, c.window);
      Minted(s, r, next, Inserting(s.nextId, next)).(logins := s.logins[s.nextId := Opened(user, at)])
    case Rotating(token, id, next) =>
      (match Rotated(s.table, token, id, next)
       case Ok(t) => Stored(s, r, t, id, next)
       case Err(AlreadyRotated) =>
         if c.grace == 0 then s.(requests := s.requests - {r})
         else s.(requests := s.requests[r := Inserting(id, next)])
       case Err(DuplicateKey) => s.(requests := s.requests - {r}))
    case Inserting(id, next) =>
      (match Inserted(s.table, id, next)
       case Ok(t) => Stored(s, r, t, id, next)
       case Err(_) => s.(requests := s.requests - {r}))
    case Revoking(family) => Deleted(s, r, WithoutFamily(s.table, family))
    case Dropping(token) => Deleted(s, r, WithoutId(s.table, token))
    case Pruning(user) => Deleted(s, r, WithoutExpired(s.table, user, s.now))
  }

  function Minted(s: State, r: nat, next: Session, q: Request): State {
    s.(requests := s.requests[r := q], nextId := s.nextId + 1, issued := s.issued[s.nextId := next])
  }

  function Stored(s: State, r: nat, t: Table, id: Id, next: Session): State {
    s.(table := t, requests := s.requests[r := Pruning(next.user)], stored := s.stored + {id},
      started := s.started + {next.family})
  }

  function Deleted(s: State, r: nat, t: Table): State {
    s.(table := t, requests := s.requests - {r})
  }

  /** s' is reached from s by performing the actions in order. */
  predicate Run(c: Config, s: State, run: seq<Action>, s': State)
    decreases |run|
  {
    if run == [] then s == s'
    else Enabled(c, s, run[0]) && Run(c, Apply(c, s, run[0]), run[1..], s')
  }

  ghost predicate Reachable(c: Config, s: State) {
    exists run :: Run(c, Init, run, s)
  }

  // ----- The inductive invariant -----

  ghost predicate HistoryOk(c: Config, s: State) {
    && (forall f :: f in s.logins ==> f < s.nextId)
    && (forall f :: f in s.started ==> f < s.nextId)
    && (forall id :: id in s.stored ==> id in s.issued)
    && (forall id :: id in s.issued ==> IssueOk(c, s, id, s.issued[id]))
  }

  /** A built row inherits user and absolute deadline from its family's login. */
  ghost predicate IssueOk(c: Config, s: State, id: Id, row: Session) {
    && id < s.nextId
    && row.family in s.logins
    && s.logins[row.family].user == row.user
    && s.logins[row.family].at <= row.createdAt <= s.now
    && row == BuildSession(row.family, row.user, s.logins[row.family].at + c.cap, row.createdAt, c.window)
  }

  ghost predicate CopyOk(c: Config, s: State, id: Id, row: Session) {
    && id in s.stored && id in s.issued && SameMint(row, s.issued[id]) && row.family in s.started
    && (row.rotation.Some? ==> row.createdAt <= row.rotation.value.at <= row.expiresAt + c.latency)
  }

  ghost predicate TableOk(c: Config, s: State) {
    forall id :: id in s.table ==> CopyOk(c, s, id, s.table[id])
  }

  ghost predicate RequestOk(c: Config, s: State, q: Request) {
    match q
    case Looked(token, row) => CopyOk(c, s, token, row)
    case Issuing(token, row, rotate, decided) =>
      && CopyOk(c, s, token, row)
      && (rotate ==> decided <= row.expiresAt)
      && (!rotate ==> c.grace > 0)
    case Rotating(token, id, next) =>
      && Pending(s, id, next) && next.family in s.started && next.family != id
      && token in s.stored && token in s.issued && next.family == s.issued[token].family
      && s.issued[token].createdAt <= next.createdAt <= s.issued[token].expiresAt + c.latency
    case Inserting(id, next) =>
      && Pending(s, id, next)
      && (if next.family == id then id !in s.started else c.grace > 0 && next.family in s.started)
    case Opening(_, at) => at <= s.now
    case Dropping(token) => token in s.issued && s.issued[token].expiresAt < s.now
    case _ => true
  }

  ghost predicate Pending(s: State, id: Id, next: Session) {
    id !in s.stored && id in s.issued && s.issued[id] == next
  }

  predicate Minting(q: Request) {
    q.Rotating? || q.Inserting?
  }

  ghost predicate RequestsOk(c: Config, s: State) {
    && (forall r :: r in s.requests ==> RequestOk(c, s, s.requests[r]))
    && (forall r, p :: (r in s.requests && p in s.requests && r != p &&
          Minting(s.requests[r]) && Minting(s.requests[p])) ==> s.requests[r].id != s.requests[p].id)
  }

  ghost predicate Inv(c: Config, s: State) {
    HistoryOk(c, s) && TableOk(c, s) && RequestsOk(c, s)
  }

  /** Rows and requests stay sound as long as the history stays and time passes. */
  lemma FactsSurvive(c: Config, s: State, s': State)
    requires s'.issued == s.issued && s'.logins == s.logins && s'.nextId == s.nextId
    requires s'.stored == s.stored && s'.started == s.started && s.now <= s'.now
    ensures forall id, row :: IssueOk(c, s, id, row) ==> IssueOk(c, s', id, row)
    ensures forall id, row :: CopyOk(c, s, id, row) ==> CopyOk(c, s', id, row)
    ensures forall q :: RequestOk(c, s, q) ==> RequestOk(c, s', q)
  {
  }

  /** Rows and requests may vanish at any time. */
  lemma ShrinkKeepsInv(c: Config, s: State, s': State)
    requires Inv(c, s)
    requires s' == s.(table := s'.table, requests := s'.requests)
    requires forall id :: id in s'.table ==> id in s.table && s'.table[id] == s.table[id]
    requires forall r :: r in s'.requests ==> r in s.requests && s'.requests[r] == s.requests[r]
    ensures Inv(c, s')
  {
    FactsSurvive(c, s, s');
  }

  /** A request moves on without touching the table or minting a row. */
  lemma MoveKeepsInv(c: Config, s: State, r: nat, q: Request)
    requires Inv(c, s) && RequestOk(c, s, q)
    requires Minting(q) ==> r in s.requests && Minting(s.requests[r]) && q.id == s.requests[r].id
    ensures Inv(c, s.(requests := s.requests[r := q]))
  {
    FactsSurvive(c, s, s.(requests := s.requests[r := q]));
  }

  /** What every row and request but the minting one needs of the new state. */
  lemma OthersSurviveMint(c: Config, s: State, s': State)
    requires Inv(c, s)
    requires s'.stored == s.stored && s'.started == s.started && s'.now == s.now && s'.nextId == s.nextId + 1
    requires s.nextId in s'.issued && s'.issued == s.issued[s.nextId := s'.issued[s.nextId]]
    requires forall f :: f in s.logins ==> f in s'.logins && s'.logins[f] == s.logins[f]
    ensures forall id :: id in s.issued ==> id != s.nextId && IssueOk(c, s', id, s.issued[id])
    ensures forall id :: id in s.table ==> CopyOk(c, s', id, s.table[id])
    ensures forall x :: x in s.requests ==> RequestOk(c, s', s.requests[x])
    ensures forall x :: x in s.requests && Minting(s.requests[x]) ==> s.requests[x].id != s.nextId
  {
    forall id | id in s.issued
      ensures id != s.nextId && IssueOk(c, s', id, s.issued[id])
    {
      assert IssueOk(c, s, id, s.issued[id]);
    }
    forall id | id in s.table
      ensures CopyOk(c, s', id, s.table[id])
    {
      assert CopyOk(c, s, id, s.table[id]);
    }
    forall x | x in s.requests
      ensures RequestOk(c, s', s.requests[x])
      ensures Minting(s.requests[x]) ==> s.requests[x].id != s.nextId
    {
      assert RequestOk(c, s, s.requests[x]);
    }
  }

  lemma MintKeepsInv(c: Config, s: State, r: nat, next: Session, q: Request, s': State)
    requires Inv(c, s)
    requires s' == Minted(s, r, next, q).(logins := s'.logins)
    requires forall f :: f in s.logins ==> f in s'.logins && s'.logins[f] == s.logins[f]
    requires s'.logins.Keys <= s.logins.Keys + {s.nextId}
    requires IssueOk(c, s', s.nextId, next)
    requires Minting(q) && q.id == s.nextId && RequestOk(c, s', q)
    ensures Inv(c, s')
  {
    OthersSurviveMint(c, s, s');
  }

  /** The only step that adds a row: the table gains `id`, and at most one other
      row changes, by receiving its rotation stamp. */
  lemma StoreKeepsInv(c: Config, s: State, r: nat, t: Table, id: Id, next: Session)
    requires Inv(c, s) && r in s.requests && Minting(s.requests[r]) && s.requests[r].id == id
    requires Pending(s, id, next) && (next.family == id || next.family in s.started)
    requires forall x :: x in t ==>
      (x == id && t[x] == next) ||
      (x in s.table && SameMint(t[x], s.table[x]) &&
       (t[x].rotation.Some? ==> t[x].createdAt <= t[x].rotation.value.at <= t[x].expiresAt + c.latency))
    ensures Inv(c, Stored(s, r, t, id, next))
  {
    var s' := Stored(s, r, t, id, next);
    forall x | x in s'.issued ensures IssueOk(c, s', x, s'.issued[x]) {
      assert IssueOk(c, s, x, s.issued[x]);
    }
    forall x | x in t ensures CopyOk(c, s', x, t[x]) {
      if x == id && t[x] == next {
        assert IssueOk(c, s, id, next);
      } else {
        assert CopyOk(c, s, x, s.table[x]);
      }
    }
    forall x | x in s'.requests ensures RequestOk(c, s', s'.requests[x]) {
      if x != r {
        assert RequestOk(c, s, s.requests[x]);
      }
    }
  }

  lemma MintingAdvanceKeepsInv(c: Config, s: State, r: nat)
    requires Inv(c, s) && Enabled(c, s, Advance(r))
    requires s.requests[r].Issuing? || s.requests[r].Opening?
    ensures Inv(c, Apply(c, s, Advance(r)))
  {
    var s' := Apply(c, s, Advance(r));
    assert RequestOk(c, s, s.requests[r]);
    match s.requests[r] {
      case Issuing(token, row, rotate, _) =>
        assert IssueOk(c, s, token, s.issued[token]);
        MintKeepsInv(c, s, r, s'.issued[s.nextId], s'.requests[r], s');
      case Opening(user, at) =>
        MintKeepsInv(c, s, r, s'.issued[s.nextId], s'.requests[r], s');
    }
  }

  lemma RotatingAdvanceKeepsInv(c: Config, s: State, r: nat, t: Table)
    requires Inv(c, s) && Enabled(c, s, Advance(r)) && s.requests[r].Rotating?
    requires Rotated(s.table, s.requests[r].token, s.requests[r].id, s.requests[r].next) == Ok(t)
    ensures Inv(c, Apply(c, s, Advance(r)))
  {
    var Rotating(token, id, next) := s.requests[r];
    assert RequestOk(c, s, s.requests[r]);
    assert CopyOk(c, s, token, s.table[token]);
    forall x | x in t && x != id
      ensures x in s.table && SameMint(t[x], s.table[x])
      ensures t[x].rotation.Some? ==> t[x].createdAt <= t[x].rotation.value.at <= t[x].expiresAt + c.latency
    {
      assert CopyOk(c, s, x, s.table[x]);
    }
    StoreKeepsInv(c, s, r, t, id, next);
  }

  lemma InsertingAdvanceKeepsInv(c: Config, s: State, r: nat)
    requires Inv(c, s) && Enabled(c, s, Advance(r)) && s.requests[r].Inserting?
    ensures Inv(c, Apply(c, s, Advance(r)))
  {
    var Inserting(id, next) := s.requests[r];
    assert RequestOk(c, s, s.requests[r]);
    assert forall x :: x in s.table ==> CopyOk(c, s, x, s.table[x]);
    StoreKeepsInv(c, s, r, s.table[id := next], id, next);
  }

  lemma AdvanceKeepsInv(c: Config, s: State, r: nat)
    requires Inv(c, s) && Enabled(c, s, Advance(r))
    ensures Inv(c, Apply(c, s, Advance(r)))
  {
    match s.requests[r] {
      case Looked(token, row) =>
        assert RequestOk(c, s, s.requests[r]);
        MoveKeepsInv(c, s, r, Decide(c, token, row, s.now));
      case Issuing(_, _, _, _) => MintingAdvanceKeepsInv(c, s, r);
      case Opening(_, _) => MintingAdvanceKeepsInv(c, s, r);
      case Rotating(token, id, next) =>
        match Rotated(s.table, token, id, next) {
          case Ok(t) => RotatingAdvanceKeepsInv(c, s, r, t);
          case Err(e) =>
            if e.AlreadyRotated? && c.grace > 0 {
              assert RequestOk(c, s, s.requests[r]);
              MoveKeepsInv(c, s, r, Inserting(id, next));
            } else {
              ShrinkKeepsInv(c, s, Apply(c, s, Advance(r)));
            }
        }
      case Inserting(_, _) => InsertingAdvanceKeepsInv(c, s, r);
      case _ => ShrinkKeepsInv(c, s, Apply(c, s, Advance(r)));
    }
  }

  lemma TickKeepsInv(c: Config, s: State, d: nat)
    requires Inv(c, s)
    ensures Inv(c, s.(now := s.now + d))
  {
    FactsSurvive(c, s, s.(now := s.now + d));
  }

  lemma StepKeepsInv(c: Config, s: State, a: Action)
    requires Inv(c, s) && Enabled(c, s, a)
    ensures Inv(c, Apply(c, s, a))
  {
    match a {
      case Tick(d) => TickKeepsInv(c, s, d);
      case Login(r, user) => MoveKeepsInv(c, s, r, Opening(user, s.now));
      case Refresh(r, token) =>
        if token in s.table { MoveKeepsInv(c, s, r, Looked(token, s.table[token])); }
      case Logout(r, token, user) =>
        if token in s.table { MoveKeepsInv(c, s, r, Revoking(s.table[token].family)); }
      case Advance(r) => AdvanceKeepsInv(c, s, r);
      case _ => ShrinkKeepsInv(c, s, Apply(c, s, a));
    }
  }
}
