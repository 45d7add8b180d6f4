/** What every interleaving of logins, refreshes, logouts, revocations and
    pruning keeps (internal/service/auth_service.go,
    internal/repository/session_repository.go). */
module RefreshTheorems {
  import opened Wrappers
  import opened SessionStore
  import opened RefreshProtocol

  lemma {:induction false} RunKeepsInv(c: Config, s: State, run: seq<Action>, s': State)
    requires Inv(c, s) && Run(c, s, run, s')
    ensures Inv(c, s')
    decreases |run|
  {
    if run != [] {
      StepKeepsInv(c, s, run[0]);
      RunKeepsInv(c, Apply(c, s, run[0]), run[1..], s');
    }
  }

  lemma ReachableInv(c: Config, s: State)
    requires Reachable(c, s)
    ensures Inv(c, s)
  {
    var run :| Run(c, Init, run, s);
    RunKeepsInv(c, Init, run, s);
  }

  // ----- Families share one user and one absolute deadline -----

  lemma FamilyShares(c: Config, s: State, a: Id, b: Id)
    requires Reachable(c, s) && a in s.table && b in s.table
    requires s.table[a].family == s.table[b].family
    ensures s.table[a].user == s.table[b].user
    ensures s.table[a].absoluteExpiresAt == s.table[b].absoluteExpiresAt
    ensures s.table[a].expiresAt <= s.table[a].absoluteExpiresAt
    ensures s.table[a].family in s.logins
    ensures var login := s.logins[s.table[a].family];
      s.table[a].user == login.user && s.table[a].absoluteExpiresAt == login.at + c.cap
  {
    ReachableInv(c, s);
    assert CopyOk(c, s, a, s.table[a]) && CopyOk(c, s, b, s.table[b]);
    assert IssueOk(c, s, a, s.issued[a]) && IssueOk(c, s, b, s.issued[b]);
  }

  // ----- One leaf per family, exactly without a grace window -----

  ghost predicate SingleLeaf(t: Table) {
    forall a, b :: (a in t && b in t && t[a].family == t[b].family &&
      t[a].rotation.None? && t[b].rotation.None?) ==> a == b
  }

  lemma RotationKeepsSingleLeaf(t: Table, current: Id, id: Id, next: Session)
    requires SingleLeaf(t) && Rotated(t, current, id, next).Ok?
    requires next.family == t[current].family
    ensures SingleLeaf(Rotated(t, current, id, next).value)
  {
    var t' := Rotated(t, current, id, next).value;
    assert t'[id] == next && (current != id ==> t'[current].rotation.Some?);
    assert forall x :: x in t' && x != id && x != current ==> x in t && t'[x] == t[x];
  }

  lemma StepKeepsSingleLeaf(c: Config, s: State, a: Action)
    requires Inv(c, s) && Enabled(c, s, a) && SingleLeaf(s.table) && c.grace == 0
    ensures SingleLeaf(Apply(c, s, a).table)
  {
    if a.Advance? {
      assert RequestOk(c, s, s.requests[a.r]);
      match s.requests[a.r] {
        case Rotating(token, id, next) =>
          if Rotated(s.table, token, id, next).Ok? {
            assert CopyOk(c, s, token, s.table[token]);
            RotationKeepsSingleLeaf(s.table, token, id, next);
          }
        case Inserting(id, next) =>
          forall x | x in s.table ensures s.table[x].family != next.family {
            assert CopyOk(c, s, x, s.table[x]);
          }
        case _ =>
      }
    }
  }

  lemma {:induction false} RunKeepsSingleLeaf(c: Config, s: State, run: seq<Action>, s': State)
    requires Inv(c, s) && Run(c, s, run, s') && SingleLeaf(s.table) && c.grace == 0
    ensures SingleLeaf(s'.table)
    decreases |run|
  {
    if run != [] {
      StepKeepsInv(c, s, run[0]);
      StepKeepsSingleLeaf(c, s, run[0]);
      RunKeepsSingleLeaf(c, Apply(c, s, run[0]), run[1..], s');
    }
  }

  /** User 7 logs in at time 0. */
  lemma LoggedIn(c: Config) returns (run: seq<Action>, s: State)
    ensures var root := BuildSession(0, 7, c.cap, 0, c.window);
      s == State(0, map[0 := root], map[0 := Pruning(7)], 1, map[0 := root], map[0 := Opened(7, 0)], {0}, {0})
    ensures Run(c, Init, run, s)
  {
    var s1 := Apply(c, Init, Login(0, 7));
    var s2 := Apply(c, s1, Advance(0));
    s := Apply(c, s2, Advance(0));
    run := RunBefore(c, s2, Advance(0), [], s);
    run := RunBefore(c, s1, Advance(0), run, s);
    run := RunBefore(c, Init, Login(0, 7), run, s);
  }

  /** Requests 1 and 2 read the row; request 1 rotates it. */
  lemma FirstRotates(c: Config, s: State) returns (run: seq<Action>, s': State)
    requires var root := BuildSession(0, 7, c.cap, 0, c.window);
      s == State(0, map[0 := root], map[0 := Pruning(7)], 1, map[0 := root], map[0 := Opened(7, 0)], {0}, {0})
    ensures var root := BuildSession(0, 7, c.cap, 0, c.window);
      && s'.now == 0 && s'.nextId == 2
      && s'.table == map[0 := root.(rotation := Some(Rotation(0, 1))), 1 := root]
      && 2 in s'.requests && s'.requests[2] == Looked(0, root) && 3 !in s'.requests && 4 !in s'.requests
    ensures Run(c, s, run, s')
  {
    var s1 := Apply(c, s, Refresh(1, 0));
    var s2 := Apply(c, s1, Refresh(2, 0));
    var s3 := Apply(c, s2, Advance(1));
    assert s3.requests[1].Issuing?;
    var s4 := Apply(c, s3, Advance(1));
    s' := Apply(c, s4, Advance(1));
    run := RunBefore(c, s4, Advance(1), [], s');
    run := RunBefore(c, s3, Advance(1), run, s');
    run := RunBefore(c, s2, Advance(1), run, s');
    run := RunBefore(c, s1, Refresh(2, 0), run, s');
    run := RunBefore(c, s, Refresh(1, 0), run, s');
  }

  /** Request 2, told that it lost the race, inserts a sibling. */
  lemma SecondInserts(c: Config, s: State, root: Session) returns (run: seq<Action>, s': State)
    requires c.grace > 0 && root == BuildSession(0, 7, c.cap, 0, c.window) && s.now == 0 && s.nextId == 2
    requires s.table == map[0 := root.(rotation := Some(Rotation(0, 1))), 1 := root]
    requires 2 in s.requests && s.requests[2] == Looked(0, root)
    ensures Run(c, s, run, s') && 1 in s'.table && 2 in s'.table && s'.table[1] == s'.table[2] == root
  {
    var s1 := Apply(c, s, Advance(2));
    assert s1.requests[2].Issuing?;
    var s2 := Apply(c, s1, Advance(2));
    var s3 := Apply(c, s2, Advance(2));
    assert s3.requests[2] == Inserting(2, root);
    s' := Apply(c, s3, Advance(2));
    run := RunBefore(c, s3, Advance(2), [], s');
    run := RunBefore(c, s2, Advance(2), run, s');
    run := RunBefore(c, s1, Advance(2), run, s');
    run := RunBefore(c, s, Advance(2), run, s');
  }

  /** Two requests read the same row; one rotates it, the other inserts a
      sibling: two usable tokens in one family. */
  lemma RaceMakesSibling(c: Config) returns (run: seq<Action>, s: State)
    requires c.grace > 0
    ensures Run(c, Init, run, s) && !SingleLeaf(s.table)
  {
    var root := BuildSession(0, 7, c.cap, 0, c.window);
    var s1, s2, first, second;
    run, s1 := LoggedIn(c);
    first, s2 := FirstRotates(c, s1);
    second, s := SecondInserts(c, s2, root);
    RunsCompose(c, Init, run, s1, first, s2);
    RunsCompose(c, Init, run + first, s2, second, s);
    run := run + first + second;
    assert s.table[1].rotation.None? && s.table[2].rotation.None?;
  }

  lemma {:induction false} RunsCompose(c: Config, s: State, run: seq<Action>, m: State, more: seq<Action>, s': State)
    requires Run(c, s, run, m) && Run(c, m, more, s')
    ensures Run(c, s, run + more, s')
    decreases |run|
  {
    if run == [] {
      assert run + more == more;
    } else {
      RunsCompose(c, Apply(c, s, run[0]), run[1..], m, more, s');
      assert (run + more)[1..] == run[1..] + more;
    }
  }

  lemma RunBefore(c: Config, s: State, a: Action, run: seq<Action>, s': State) returns (longer: seq<Action>)
    requires Enabled(c, s, a) && Run(c, Apply(c, s, a), run, s')
    ensures longer == [a] + run && Run(c, s, longer, s')
  {
    longer := [a] + run;
    assert longer[1..] == run;
  }

  /** In every run of a deployment each family has at most one token that was
      never exchanged, if and only if no grace window is configured. */
  lemma SingleLeafIffNoGrace(c: Config)
    ensures (forall s :: Reachable(c, s) ==> SingleLeaf(s.table)) <==> c.grace == 0
  {
    if c.grace == 0 {
      forall s | Reachable(c, s) ensures SingleLeaf(s.table) {
        var run :| Run(c, Init, run, s);
        RunKeepsSingleLeaf(c, Init, run, s);
      }
    } else {
      var run, s := RaceMakesSibling(c);
      assert Reachable(c, s);
    }
  }

  // ----- Rotation stamps are write-once and rows never come back -----

  /** Of the rows stored by the time of s, those left in s' were already there,
      with the same fields and, once stamped, the same stamp. */
  ghost predicate Settled(s: State, s': State) {
    && s.stored <= s'.stored
    && forall id :: id in s.stored && id in s'.table ==>
         id in s.table && SameMint(s.table[id], s'.table[id]) &&
         (s.table[id].rotation.Some? ==> s'.table[id].rotation == s.table[id].rotation)
  }

  lemma StepSettles(c: Config, s: State, a: Action)
    requires Inv(c, s) && Enabled(c, s, a)
    ensures Settled(s, Apply(c, s, a))
  {
    if a.Advance? {
      assert RequestOk(c, s, s.requests[a.r]);
    }
  }

  lemma {:induction false} RunSettles(c: Config, s: State, run: seq<Action>, s': State)
    requires Inv(c, s) && Run(c, s, run, s')
    ensures Settled(s, s')
    decreases |run|
  {
    if run != [] {
      var m := Apply(c, s, run[0]);
      StepSettles(c, s, run[0]);
      StepKeepsInv(c, s, run[0]);
      RunSettles(c, m, run[1..], s');
    }
  }

  // ----- Which rows go -----

  predicate PastDeadline(row: Session, now: Time) {
    row.expiresAt < now || row.absoluteExpiresAt < now
  }

  /** The step deletes this row: its family, its user, its token or everything is
      to go, or it is an expired one of the user being pruned. */
  predicate Takes(s: State, a: Action, id: Id) {
    id in s.table &&
    match a
    case DeleteUser(user) => s.table[id].user == user
    case DeleteAll => true
    case Advance(r) => r in s.requests &&
      (match s.requests[r]
       case Revoking(family) => s.table[id].family == family
       case Dropping(token) => id == token
       case Pruning(user) => s.table[id].user == user && PastDeadline(s.table[id], s.now)
       case _ => false)
    case _ => false
  }

  /** Some step of the run takes the row. */
  predicate TakenDuring(c: Config, s: State, run: seq<Action>, id: Id)
    decreases |run|
  {
    run != [] && Enabled(c, s, run[0]) &&
    (Takes(s, run[0], id) || TakenDuring(c, Apply(c, s, run[0]), run[1..], id))
  }

  lemma StepTakes(c: Config, s: State, a: Action, id: Id)
    requires Enabled(c, s, a) && id in s.table
    ensures id !in Apply(c, s, a).table <==> Takes(s, a, id)
  {
  }

  lemma StoredStays(c: Config, s: State, a: Action, id: Id)
    requires Inv(c, s) && Enabled(c, s, a) && id in s.table
    ensures id in Apply(c, s, a).stored
  {
    assert CopyOk(c, s, id, s.table[id]);
  }

  lemma {:induction false} NotTakenWhenAbsent(c: Config, s: State, run: seq<Action>, s': State, id: Id)
    requires Inv(c, s) && Run(c, s, run, s') && id in s.stored && id !in s.table
    ensures id !in s'.table && !TakenDuring(c, s, run, id)
    decreases |run|
  {
    if run != [] {
      StepKeepsInv(c, s, run[0]);
      StepSettles(c, s, run[0]);
      NotTakenWhenAbsent(c, Apply(c, s, run[0]), run[1..], s', id);
    }
  }

  /** Over every run a row goes iff one of the steps takes it; what is done to
      other families and users never touches it. */
  lemma {:induction false} GoneIffTaken(c: Config, s: State, run: seq<Action>, s': State, id: Id)
    requires Inv(c, s) && Run(c, s, run, s') && id in s.table
    ensures id !in s'.table <==> TakenDuring(c, s, run, id)
    decreases |run|
  {
    if run != [] {
      var m := Apply(c, s, run[0]);
      StepKeepsInv(c, s, run[0]);
      StepTakes(c, s, run[0], id);
      StoredStays(c, s, run[0], id);
      if id in m.table {
        GoneIffTaken(c, m, run[1..], s', id);
      } else {
        NotTakenWhenAbsent(c, m, run[1..], s', id);
      }
    }
  }

  // ----- A revoked family stays revoked, exactly when no insert is in flight -----

  /** Request q could still give family f a row, were the clock to stop. */
  predicate CanInsert(c: Config, s: State, q: Request, f: Id) {
    c.grace > 0 &&
    match q
    case Looked(token, row) => row.family == f && Decide(c, token, row, s.now).Issuing?
    case Issuing(_, row, _, decided) => row.family == f && s.now <= decided + c.latency
    case Rotating(_, _, next) => next.family == f
    case Inserting(_, next) => next.family == f
    case _ => false
  }

  predicate InsertInFlight(c: Config, s: State, f: Id) {
    exists r :: r in s.requests && CanInsert(c, s, s.requests[r], f)
  }

  /** f had a row and has none now, as after a logout, replay, expiry or
      revocation. */
  ghost predicate Emptied(s: State, f: Id) {
    f in s.started && FamilyEmpty(s.table, f)
  }

  lemma AdvanceKeepsEmptied(c: Config, s: State, r: nat, f: Id)
    requires Inv(c, s) && Enabled(c, s, Advance(r)) && Emptied(s, f) && !CanInsert(c, s, s.requests[r], f)
    ensures Emptied(Apply(c, s, Advance(r)), f)
    ensures var s' := Apply(c, s, Advance(r));
      r in s'.requests ==> !CanInsert(c, s', s'.requests[r], f)
  {
    assert RequestOk(c, s, s.requests[r]);
    if s.requests[r].Rotating? {
      assert forall x :: x in s.table ==> CopyOk(c, s, x, s.table[x]);
    }
  }

  /** Requests that make no progress do not become dangerous as time passes. */
  lemma OthersStayHarmless(c: Config, s: State, s': State, f: Id)
    requires !InsertInFlight(c, s, f) && s.now <= s'.now
    requires forall r :: r in s'.requests ==>
      (r in s.requests && s'.requests[r] == s.requests[r]) || !CanInsert(c, s', s'.requests[r], f)
    ensures !InsertInFlight(c, s', f)
  {
    forall r | r in s'.requests ensures !CanInsert(c, s', s'.requests[r], f) {
      assert r in s.requests ==> !CanInsert(c, s, s.requests[r], f);
    }
  }

  lemma StoringTouchesOne(c: Config, s: State, r: nat)
    requires Enabled(c, s, Advance(r)) && Minting(s.requests[r])
    ensures var s' := Apply(c, s, Advance(r));
      && s'.now == s.now
      && forall x :: x in s'.requests && x != r ==> x in s.requests && s'.requests[x] == s.requests[x]
  {
  }

  lemma AdvanceTouchesOne(c: Config, s: State, r: nat)
    requires Enabled(c, s, Advance(r))
    ensures var s' := Apply(c, s, Advance(r));
      && s'.now == s.now
      && forall x :: x in s'.requests && x != r ==> x in s.requests && s'.requests[x] == s.requests[x]
  {
    if Minting(s.requests[r]) {
      StoringTouchesOne(c, s, r);
    }
  }

  lemma StepKeepsEmptied(c: Config, s: State, a: Action, f: Id)
    requires Inv(c, s) && Enabled(c, s, a) && Emptied(s, f) && !InsertInFlight(c, s, f)
    ensures Emptied(Apply(c, s, a), f) && !InsertInFlight(c, Apply(c, s, a), f)
  {
    match a {
      case Advance(r) =>
        AdvanceKeepsEmptied(c, s, r, f);
        AdvanceTouchesOne(c, s, r);
      case _ =>
    }
    OthersStayHarmless(c, s, Apply(c, s, a), f);
  }

  lemma {:induction false} RunKeepsEmptied(c: Config, s: State, run: seq<Action>, s': State, f: Id)
    requires Inv(c, s) && Run(c, s, run, s') && Emptied(s, f) && !InsertInFlight(c, s, f)
    ensures Emptied(s', f)
    decreases |run|
  {
    if run != [] {
      StepKeepsInv(c, s, run[0]);
      StepKeepsEmptied(c, s, run[0], f);
      RunKeepsEmptied(c, Apply(c, s, run[0]), run[1..], s', f);
    }
  }

  /** Letting such a request go on, alone, revives the family. */
  lemma InFlightRevives(c: Config, s: State, r: nat, f: Id) returns (run: seq<Action>, s': State)
    requires Inv(c, s) && Emptied(s, f) && r in s.requests && CanInsert(c, s, s.requests[r], f)
    ensures Run(c, s, run, s') && !FamilyEmpty(s'.table, f)
    decreases CallsLeft(s.requests[r])
  {
    var m := Apply(c, s, Advance(r));
    assert RequestOk(c, s, s.requests[r]);
    assert forall x :: x in s.table ==> CopyOk(c, s, x, s.table[x]);
    if s.requests[r].Inserting? {
      assert m.table[s.requests[r].id].family == f;
      run, s' := [], m;
    } else {
      StepKeepsInv(c, s, Advance(r));
      run, s' := InFlightRevives(c, m, r, f);
    }
    run := RunBefore(c, s, Advance(r), run, s');
  }

  function CallsLeft(q: Request): nat {
    if q.Looked? then 3 else if q.Issuing? then 2 else if q.Rotating? then 1 else 0
  }

  ghost predicate CanRevive(c: Config, s: State, f: Id) {
    exists run, s' :: Run(c, s, run, s') && !FamilyEmpty(s'.table, f)
  }

  /** `RotateSession` answers "no matching row" for a deleted row as for a
      rotated one, so with a grace window a request that read its row before the
      revocation falls back to inserting a sibling. Nothing else can bring a
      revoked family back. */
  lemma RevivalIffInFlight(c: Config, s: State, f: Id)
    requires Reachable(c, s) && Emptied(s, f)
    ensures CanRevive(c, s, f) <==> InsertInFlight(c, s, f)
  {
    ReachableInv(c, s);
    if InsertInFlight(c, s, f) {
      var r :| r in s.requests && CanInsert(c, s, s.requests[r], f);
      var run, s' := InFlightRevives(c, s, r, f);
    } else if CanRevive(c, s, f) {
      var run, s' :| Run(c, s, run, s') && !FamilyEmpty(s'.table, f);
      RunKeepsEmptied(c, s, run, s', f);
    }
  }

  lemma NoGraceNoRevival(c: Config, s: State, f: Id)
    requires Reachable(c, s) && Emptied(s, f) && c.grace == 0
    ensures !CanRevive(c, s, f)
  {
    RevivalIffInFlight(c, s, f);
  }

  /** The other branch is real: for every positive grace period some run revives
      a family after its owner logged out of it. */
  lemma LogoutCanBeUndone(c: Config) returns (s: State)
    requires c.grace > 0
    ensures Reachable(c, s) && Emptied(s, 0) && CanRevive(c, s, 0)
  {
    var run, s1 := LoggedIn(c);
    var s2 := Apply(c, s1, Refresh(1, 0));
    var s3 := Apply(c, s2, Logout(2, 0, 7));
    s := Apply(c, s3, Advance(2));
    assert s.table == map[];
    assert CanInsert(c, s, s.requests[1], 0);
    var more := RunBefore(c, s3, Advance(2), [], s);
    more := RunBefore(c, s2, Logout(2, 0, 7), more, s);
    more := RunBefore(c, s1, Refresh(1, 0), more, s);
    RunsCompose(c, Init, run, s1, more, s);
    RevivalIffInFlight(c, s, 0);
  }

  // ----- How long a token is honoured -----

  /** A request that looked up `token` and decides now is served. */
  predicate Honoured(c: Config, s: State, r: nat) {
    r in s.requests && s.requests[r].Looked? &&
    Decide(c, s.requests[r].token, s.requests[r].row, s.now).Issuing?
  }

  /** No token is honoured after its family's login plus the absolute cap, nor
      after its row's creation plus sliding window, grace and request latency. */
  lemma HonouredInTime(c: Config, s: State, r: nat)
    requires Reachable(c, s) && Honoured(c, s, r)
    ensures var row := s.requests[r].row;
      && row.family in s.logins
      && s.now <= s.logins[row.family].at + c.cap
      && s.now <= row.createdAt + c.window + c.latency + c.grace
      && (row.rotation.None? ==> s.now <= row.createdAt + c.window)
  {
    ReachableInv(c, s);
    assert RequestOk(c, s, s.requests[r]);
    var Looked(token, row) := s.requests[r];
    assert IssueOk(c, s, token, s.issued[token]);
  }

  /** Once every row ever issued in a family is older than that, no later
      moment of any run honours any of its tokens: nothing new can be minted. */
  ghost predicate Idle(c: Config, s: State, f: Id) {
    && f in s.started
    && (forall id :: id in s.issued && s.issued[id].family == f ==>
          s.issued[id].createdAt + c.window + c.latency + c.grace < s.now)
    && (forall r :: r in s.requests && s.requests[r].Issuing? && s.requests[r].row.family == f ==>
          s.requests[r].decided + c.latency < s.now)
  }

  lemma DecisionIsNotIdle(c: Config, s: State, q: Request, f: Id)
    requires Inv(c, s) && Idle(c, s, f) && q.Looked? && RequestOk(c, s, q) && q.row.family == f
    ensures !Decide(c, q.token, q.row, s.now).Issuing?
  {
    assert IssueOk(c, s, q.token, s.issued[q.token]);
  }

  /** Issuing requests and issued rows of the family are the old ones. */
  predicate NothingNew(s: State, s': State, f: Id) {
    && s.now <= s'.now && f in s'.started
    && (forall id :: id in s'.issued && s'.issued[id].family == f ==> id in s.issued && s.issued[id] == s'.issued[id])
    && (forall r :: r in s'.requests && s'.requests[r].Issuing? && s'.requests[r].row.family == f ==>
          r in s.requests && s'.requests[r] == s.requests[r])
  }

  lemma NothingNewKeepsIdle(c: Config, s: State, s': State, f: Id)
    requires Idle(c, s, f) && NothingNew(s, s', f)
    ensures Idle(c, s', f)
  {
  }

  lemma MintingKeepsIdle(c: Config, s: State, r: nat, f: Id)
    requires Inv(c, s) && Enabled(c, s, Advance(r)) && Idle(c, s, f)
    requires s.requests[r].Issuing? || s.requests[r].Opening?
    ensures Idle(c, Apply(c, s, Advance(r)), f)
  {
    assert f < s.nextId;
    NothingNewKeepsIdle(c, s, Apply(c, s, Advance(r)), f);
  }

  lemma StoringKeepsIdle(c: Config, s: State, r: nat, f: Id)
    requires Enabled(c, s, Advance(r)) && Idle(c, s, f)
    requires s.requests[r].Rotating? || s.requests[r].Inserting?
    ensures Idle(c, Apply(c, s, Advance(r)), f)
  {
    NothingNewKeepsIdle(c, s, Apply(c, s, Advance(r)), f);
  }

  lemma AdvanceKeepsIdle(c: Config, s: State, r: nat, f: Id)
    requires Inv(c, s) && Enabled(c, s, Advance(r)) && Idle(c, s, f)
    ensures Idle(c, Apply(c, s, Advance(r)), f)
  {
    var q := s.requests[r];
    assert RequestOk(c, s, q);
    match q {
      case Looked(_, _) =>
        if q.row.family == f {
          DecisionIsNotIdle(c, s, q, f);
        }
      case Issuing(_, _, _, _) => MintingKeepsIdle(c, s, r, f);
      case Opening(_, _) => MintingKeepsIdle(c, s, r, f);
      case Rotating(_, _, _) => StoringKeepsIdle(c, s, r, f);
      case Inserting(_, _) => StoringKeepsIdle(c, s, r, f);
      case _ =>
    }
  }

  lemma StepKeepsIdle(c: Config, s: State, a: Action, f: Id)
    requires Inv(c, s) && Enabled(c, s, a) && Idle(c, s, f)
    ensures Idle(c, Apply(c, s, a), f)
  {
    match a {
      case Advance(r) => AdvanceKeepsIdle(c, s, r, f);
      case _ =>
    }
  }

  lemma {:induction false} IdleFamilyIsDead(c: Config, s: State, run: seq<Action>, s': State, f: Id)
    requires Inv(c, s) && Run(c, s, run, s') && Idle(c, s, f)
    ensures forall r :: Honoured(c, s', r) ==> s'.requests[r].row.family != f
    decreases |run|
  {
    if run == [] {
      forall r | Honoured(c, s, r) ensures s.requests[r].row.family != f {
        assert RequestOk(c, s, s.requests[r]);
        assert IssueOk(c, s, s.requests[r].token, s.issued[s.requests[r].token]);
      }
    } else {
      StepKeepsInv(c, s, run[0]);
      StepKeepsIdle(c, s, run[0], f);
      IdleFamilyIsDead(c, Apply(c, s, run[0]), run[1..], s', f);
    }
  }
}
