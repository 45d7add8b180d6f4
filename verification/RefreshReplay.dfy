/** Replay detection: how long an exchanged token stays recognisable, what
    presenting it again does, and which tokens housekeeping takes away too early
    (internal/service/auth_service.go, internal/repository/session_repository.go). */
module RefreshReplay {
  import opened Wrappers
  import opened SessionStore
  import opened RefreshProtocol
  import opened RefreshTheorems

  // ----- A row stays until its deadline, unless its family goes -----

  predicate Holds(t: Table, id: Id, f: Id, deadline: Time) {
    id in t && t[id].family == f && t[id].expiresAt == deadline
  }

  lemma AdvanceRetains(c: Config, s: State, r: nat, id: Id)
    requires Inv(c, s) && Enabled(c, s, Advance(r)) && id in s.table && s.now <= s.table[id].expiresAt
    ensures var t := Apply(c, s, Advance(r)).table;
      Holds(t, id, s.table[id].family, s.table[id].expiresAt) || FamilyEmpty(t, s.table[id].family)
  {
    assert RequestOk(c, s, s.requests[r]);
    assert CopyOk(c, s, id, s.table[id]) && IssueOk(c, s, id, s.issued[id]);
  }

  /** The rows of a family go together when their user's rows go. */
  lemma DeleteUserRetains(c: Config, s: State, user: nat, id: Id)
    requires Inv(c, s) && id in s.table
    ensures id in WithoutUser(s.table, user) || FamilyEmpty(WithoutUser(s.table, user), s.table[id].family)
  {
    forall x | x in s.table && s.table[x].family == s.table[id].family
      ensures s.table[x].user == s.table[id].user
    {
      assert CopyOk(c, s, x, s.table[x]) && CopyOk(c, s, id, s.table[id]);
      assert IssueOk(c, s, x, s.issued[x]) && IssueOk(c, s, id, s.issued[id]);
    }
  }

  lemma StepRetains(c: Config, s: State, a: Action, id: Id)
    requires Inv(c, s) && Enabled(c, s, a) && id in s.table && Apply(c, s, a).now <= s.table[id].expiresAt
    ensures var t := Apply(c, s, a).table;
      Holds(t, id, s.table[id].family, s.table[id].expiresAt) || FamilyEmpty(t, s.table[id].family)
  {
    match a {
      case Advance(r) => AdvanceRetains(c, s, r, id);
      case DeleteUser(user) => DeleteUserRetains(c, s, user, id);
      case _ =>
    }
  }

  lemma {:induction false} ClockOnlyAdvances(c: Config, s: State, run: seq<Action>, s': State)
    requires Run(c, s, run, s')
    ensures s.now <= s'.now && s.started <= s'.started && s.stored <= s'.stored
    decreases |run|
  {
    if run != [] {
      ClockOnlyAdvances(c, Apply(c, s, run[0]), run[1..], s');
    }
  }

  /** The family has no row at some moment of the run. */
  ghost predicate EmptiedDuring(c: Config, s: State, run: seq<Action>, f: Id)
    decreases |run|
  {
    FamilyEmpty(s.table, f) ||
    (run != [] && Enabled(c, s, run[0]) && EmptiedDuring(c, Apply(c, s, run[0]), run[1..], f))
  }

  lemma GoneForGood(c: Config, s: State, run: seq<Action>, s': State, id: Id)
    requires Inv(c, s) && Run(c, s, run, s') && id in s.stored && id !in s.table
    ensures id !in s'.table
  {
    RunSettles(c, s, run, s');
  }

  /** Before its deadline a row is gone iff its whole family was, at some moment. */
  lemma {:induction false} GoneIffEmptied(c: Config, s: State, run: seq<Action>, s': State, id: Id)
    requires Inv(c, s) && Run(c, s, run, s') && id in s.table && s'.now <= s.table[id].expiresAt
    ensures id !in s'.table <==> EmptiedDuring(c, s, run, s.table[id].family)
    decreases |run|
  {
    assert !FamilyEmpty(s.table, s.table[id].family);
    if run != [] {
      var m := Apply(c, s, run[0]);
      ClockOnlyAdvances(c, m, run[1..], s');
      StepKeepsInv(c, s, run[0]);
      StepRetains(c, s, run[0], id);
      if id in m.table {
        GoneIffEmptied(c, m, run[1..], s', id);
      } else {
        StoredStays(c, s, run[0], id);
        GoneForGood(c, m, run[1..], s', id);
      }
    }
  }

  // ----- Revivals -----

  /** At some moment of the run the family is without rows and a request that can
      still insert one is in flight. */
  ghost predicate InsertAtEmptying(c: Config, s: State, run: seq<Action>, f: Id)
    decreases |run|
  {
    (Emptied(s, f) && InsertInFlight(c, s, f)) ||
    (run != [] && Enabled(c, s, run[0]) && InsertAtEmptying(c, Apply(c, s, run[0]), run[1..], f))
  }

  /** The family was emptied during the run and has rows again at its end. */
  ghost predicate Revived(c: Config, s: State, run: seq<Action>, s': State, f: Id) {
    EmptiedDuring(c, s, run, f) && !FamilyEmpty(s'.table, f)
  }

  lemma {:induction false} RevivalNeedsInsert(c: Config, s: State, run: seq<Action>, s': State, f: Id)
    requires Inv(c, s) && Run(c, s, run, s') && f in s.started && Revived(c, s, run, s', f)
    ensures InsertAtEmptying(c, s, run, f)
    decreases |run|
  {
    if FamilyEmpty(s.table, f) {
      if !InsertInFlight(c, s, f) {
        RunKeepsEmptied(c, s, run, s', f);
      }
    } else {
      StepKeepsInv(c, s, run[0]);
      ClockOnlyAdvances(c, s, [run[0]], Apply(c, s, run[0]));
      RevivalNeedsInsert(c, Apply(c, s, run[0]), run[1..], s', f);
    }
  }

  lemma {:induction false} NoGraceNoInsert(c: Config, s: State, run: seq<Action>, f: Id)
    requires c.grace == 0
    ensures !InsertAtEmptying(c, s, run, f)
    decreases |run|
  {
    if run != [] && Enabled(c, s, run[0]) {
      NoGraceNoInsert(c, Apply(c, s, run[0]), run[1..], f);
    }
  }

  // ----- Presenting a token again -----

  /** The token, if it is stored, is not honoured now. */
  predicate Refused(c: Config, s: State, token: Id) {
    token in s.table ==> !Decide(c, token, s.table[token], s.now).Issuing?
  }

  /** Request r presents the token and acts on the decision at once. */
  function Presented(c: Config, s: State, r: nat, token: Id): State
    requires r !in s.requests && Refused(c, s, token)
  {
    var looked := Apply(c, s, Refresh(r, token));
    if token !in s.table then looked
    else Apply(c, Apply(c, looked, Advance(r)), Advance(r))
  }

  lemma PresentedIsARun(c: Config, s: State, r: nat, token: Id) returns (run: seq<Action>)
    requires r !in s.requests && Refused(c, s, token)
    ensures Run(c, s, run, Presented(c, s, r, token))
  {
    var s' := Presented(c, s, r, token);
    var looked := Apply(c, s, Refresh(r, token));
    if token !in s.table {
      run := RunBefore(c, s, Refresh(r, token), [], s');
    } else {
      run := RunBefore(c, Apply(c, looked, Advance(r)), Advance(r), [], s');
      run := RunBefore(c, looked, Advance(r), run, s');
      run := RunBefore(c, s, Refresh(r, token), run, s');
    }
  }

  lemma ReplayOfStored(c: Config, s: State, r: nat, token: Id)
    requires r !in s.requests && token in s.table && s.table[token].rotation.Some?
    requires s.now > s.table[token].rotation.value.at + c.grace
    ensures Refused(c, s, token) && FamilyEmpty(Presented(c, s, r, token).table, s.table[token].family)
  {
    assert Decide(c, token, s.table[token], s.now) == Revoking(s.table[token].family);
  }

  /** The token was exchanged at s, and is presented at s' past its grace window,
      while its row has not reached its deadline. */
  ghost predicate Replay(c: Config, s: State, run: seq<Action>, s': State, r: nat, token: Id) {
    && Run(c, s, run, s') && token in s.table && s.table[token].rotation.Some? && r !in s'.requests
    && s.table[token].rotation.value.at + c.grace < s'.now <= s.table[token].expiresAt
  }

  /** A replay ends with the family gone, unless the family was revived since the
      exchange; then it goes unnoticed. */
  lemma ReplayCaughtIff(c: Config, s: State, run: seq<Action>, s': State, r: nat, token: Id)
    requires Inv(c, s) && Replay(c, s, run, s', r, token)
    ensures var f := s.table[token].family;
      && Refused(c, s', token)
      && (FamilyEmpty(Presented(c, s', r, token).table, f) <==> !Revived(c, s, run, s', f))
      && (Revived(c, s, run, s', f) ==> Presented(c, s', r, token) == s' && InsertAtEmptying(c, s, run, f))
  {
    var f := s.table[token].family;
    GoneIffEmptied(c, s, run, s', token);
    assert CopyOk(c, s, token, s.table[token]);
    RunSettles(c, s, run, s');
    if token in s'.table {
      ReplayOfStored(c, s', r, token);
    } else if !FamilyEmpty(s'.table, f) {
      RevivalNeedsInsert(c, s, run, s', f);
    }
  }

  /** Every replay in every run of a deployment is caught. */
  ghost predicate CatchesReplays(c: Config) {
    forall s, run, s', r, token :: Reachable(c, s) && Replay(c, s, run, s', r, token) ==>
      Refused(c, s', token) && FamilyEmpty(Presented(c, s', r, token).table, s.table[token].family)
  }

  /** A request that read the row before it was revoked inserts all the same. */
  lemma LoserInserts(c: Config, s: State, root: Session) returns (run: seq<Action>, s': State)
    requires c.grace > 0 && root == BuildSession(0, 7, c.cap, 0, c.window) && s.now == 0
    requires s.table == map[] && 2 in s.requests && s.requests[2] == Looked(0, root)
    ensures Run(c, s, run, s') && s'.table == map[s.nextId := root] && s'.now == 0
    ensures s'.stored == s.stored + {s.nextId} && s'.issued == s.issued[s.nextId := root]
    ensures forall r :: r != 2 ==> (r in s.requests <==> r in s'.requests)
  {
    var s1 := Apply(c, s, Advance(2));
    assert s1.requests[2] == Issuing(0, root, true, 0);
    var s2 := Apply(c, s1, Advance(2));
    var s3 := Apply(c, s2, Advance(2));
    assert s3.requests[2] == Inserting(s.nextId, root);
    s' := Apply(c, s3, Advance(2));
    run := RunBefore(c, s3, Advance(2), [], s');
    run := RunBefore(c, s2, Advance(2), run, s');
    run := RunBefore(c, s1, Advance(2), run, s');
    run := RunBefore(c, s, Advance(2), run, s');
  }

  /** With token 0 exchanged and the loser of that race still in flight, the user
      logs out; the loser inserts, and a later replay of token 0 finds nothing. */
  lemma ReplayMissed(c: Config, s: State, root: Session) returns (run: seq<Action>, s': State)
    requires 0 < c.grace < c.window && c.grace < c.cap && root == BuildSession(0, 7, c.cap, 0, c.window)
    requires s.now == 0 && s.nextId == 2 && 3 !in s.requests && 4 !in s.requests
    requires s.table == map[0 := root.(rotation := Some(Rotation(0, 1))), 1 := root]
    requires 2 in s.requests && s.requests[2] == Looked(0, root)
    ensures Replay(c, s, run, s', 4, 0) && 0 !in s'.table && !FamilyEmpty(s'.table, 0)
  {
    var s1 := Apply(c, s, Logout(3, 0, 7));
    var s2 := Apply(c, s1, Advance(3));
    assert s2.table == map[];
    var out := RunBefore(c, s1, Advance(3), [], s2);
    out := RunBefore(c, s, Logout(3, 0, 7), out, s2);
    var insert, s3 := LoserInserts(c, s2, root);
    assert s3.table[2].family == 0;
    s' := Apply(c, s3, Tick(c.grace + 1));
    var wait := RunBefore(c, s3, Tick(c.grace + 1), [], s');
    RunsCompose(c, s, out, s2, insert, s3);
    RunsCompose(c, s, out + insert, s3, wait, s');
    run := out + insert + wait;
  }

  /** With grace or sliding window or cap at or below it, no moment lies after a
      token's grace window and before its deadline. */
  lemma NoRoomForReplay(c: Config, s: State, run: seq<Action>, s': State, r: nat, token: Id)
    requires Inv(c, s) && Replay(c, s, run, s', r, token)
    ensures c.grace < c.window && c.grace < c.cap
  {
    assert CopyOk(c, s, token, s.table[token]);
    assert IssueOk(c, s, token, s.issued[token]);
  }

  /** Replay detection is complete exactly without a grace window, or with one so
      long that a token can only be replayed inside it or after its deadline. */
  lemma CatchesReplaysIff(c: Config)
    ensures CatchesReplays(c) <==> c.grace == 0 || c.window <= c.grace || c.cap <= c.grace
  {
    if c.grace == 0 || c.window <= c.grace || c.cap <= c.grace {
      forall s, run, s', r, token | Reachable(c, s) && Replay(c, s, run, s', r, token)
        ensures Refused(c, s', token) && FamilyEmpty(Presented(c, s', r, token).table, s.table[token].family)
      {
        ReachableInv(c, s);
        NoRoomForReplay(c, s, run, s', r, token);
        ReplayCaughtIff(c, s, run, s', r, token);
        NoGraceNoInsert(c, s, run, s.table[token].family);
      }
    } else {
      var root := BuildSession(0, 7, c.cap, 0, c.window);
      var login, s0 := LoggedIn(c);
      var race, s := FirstRotates(c, s0);
      RunsCompose(c, Init, login, s0, race, s);
      assert Reachable(c, s);
      var run, s' := ReplayMissed(c, s, root);
      assert Presented(c, s', 4, 0) == s';
    }
  }

  // ----- Every stored token, exchanged or not -----

  /** Every row ever stored is there until its deadline, unless its family is gone. */
  ghost predicate Retains(s: State) {
    forall id :: id in s.stored && id in s.issued ==>
      s.issued[id].family in s.started &&
      (s.now <= s.issued[id].expiresAt ==> id in s.table || FamilyEmpty(s.table, s.issued[id].family))
  }

  lemma StoreKeepsRetains(c: Config, s: State, r: nat)
    requires Inv(c, s) && Enabled(c, s, Advance(r)) && Retains(s) && c.grace == 0
    requires s.requests[r].Rotating? || s.requests[r].Inserting?
    ensures Retains(Apply(c, s, Advance(r)))
  {
    var q, s' := s.requests[r], Apply(c, s, Advance(r));
    assert RequestOk(c, s, q);
    if q.Rotating? && Rotated(s.table, q.token, q.id, q.next).Ok? {
      assert CopyOk(c, s, q.token, s.table[q.token]);
    }
    forall id | id in s'.stored && id in s'.issued && s'.now <= s'.issued[id].expiresAt
      ensures id in s'.table || FamilyEmpty(s'.table, s'.issued[id].family)
    {
      if id != q.id && id !in s.table {
        assert FamilyEmpty(s.table, s.issued[id].family);
      }
    }
  }

  predicate Storing(s: State, a: Action) {
    a.Advance? && a.r in s.requests && (s.requests[a.r].Rotating? || s.requests[a.r].Inserting?)
  }

  lemma OtherStepsOnlyRemove(c: Config, s: State, a: Action)
    requires Enabled(c, s, a) && !Storing(s, a)
    ensures var s' := Apply(c, s, a);
      && s'.stored == s.stored && s'.started == s.started && s.now <= s'.now
      && (forall id :: id in s'.table ==> id in s.table && s'.table[id] == s.table[id])
  {
  }

  lemma StepKeepsRow(c: Config, s: State, a: Action, id: Id)
    requires Inv(c, s) && Enabled(c, s, a) && Retains(s) && !Storing(s, a)
    requires id in s.stored && Apply(c, s, a).now <= s.issued[id].expiresAt
    ensures var t := Apply(c, s, a).table;
      id in t || FamilyEmpty(t, s.issued[id].family)
  {
    OtherStepsOnlyRemove(c, s, a);
    if id in s.table {
      assert CopyOk(c, s, id, s.table[id]);
      StepRetains(c, s, a, id);
    } else {
      assert FamilyEmpty(s.table, s.issued[id].family);
    }
  }

  lemma IssuedIsKept(c: Config, s: State, a: Action, id: Id)
    requires Inv(c, s) && Enabled(c, s, a) && id in s.issued
    ensures id in Apply(c, s, a).issued && Apply(c, s, a).issued[id] == s.issued[id]
  {
    assert IssueOk(c, s, id, s.issued[id]);
  }

  lemma StepKeepsRetains(c: Config, s: State, a: Action)
    requires Inv(c, s) && Enabled(c, s, a) && Retains(s) && c.grace == 0
    ensures Retains(Apply(c, s, a))
  {
    if Storing(s, a) {
      StoreKeepsRetains(c, s, a.r);
    } else {
      var s' := Apply(c, s, a);
      OtherStepsOnlyRemove(c, s, a);
      forall id | id in s'.stored && id in s'.issued
        ensures s'.issued[id].family in s'.started
        ensures s'.now <= s'.issued[id].expiresAt ==> id in s'.table || FamilyEmpty(s'.table, s'.issued[id].family)
      {
        IssuedIsKept(c, s, a, id);
        if s'.now <= s'.issued[id].expiresAt {
          StepKeepsRow(c, s, a, id);
        }
      }
    }
  }

  lemma {:induction false} RunKeepsRetains(c: Config, s: State, run: seq<Action>, s': State)
    requires Inv(c, s) && Run(c, s, run, s') && Retains(s) && c.grace == 0
    ensures Retains(s')
    decreases |run|
  {
    if run != [] {
      StepKeepsInv(c, s, run[0]);
      StepKeepsRetains(c, s, run[0]);
      RunKeepsRetains(c, Apply(c, s, run[0]), run[1..], s');
    }
  }

  lemma ReadThenLogout(c: Config, s: State) returns (run: seq<Action>, s': State)
    requires var root := BuildSession(0, 7, c.cap, 0, c.window);
      s == State(0, map[0 := root], map[0 := Pruning(7)], 1, map[0 := root], map[0 := Opened(7, 0)], {0}, {0})
    ensures Run(c, s, run, s')
    ensures s' == s.(table := map[], requests := s.requests[2 := Looked(0, s.table[0])])
  {
    var s1 := Apply(c, s, Refresh(2, 0));
    var s2 := Apply(c, s1, Logout(3, 0, 7));
    s' := Apply(c, s2, Advance(3));
    assert s'.table == map[];
    assert s'.requests == s.requests[2 := Looked(0, s.table[0])];
    run := RunBefore(c, s2, Advance(3), [], s');
    run := RunBefore(c, s1, Logout(3, 0, 7), run, s');
    run := RunBefore(c, s, Refresh(2, 0), run, s');
  }

  /** Request 2 reads token 0, the user logs out, and request 2 is served by a
      sibling: token 0 is unknown before its deadline, yet its family lives on. */
  lemma TokenForgotten(c: Config) returns (s: State)
    requires c.grace > 0
    ensures Reachable(c, s) && 0 in s.stored && 0 in s.issued && s.now <= s.issued[0].expiresAt
    ensures 0 !in s.table && !FamilyEmpty(s.table, s.issued[0].family)
    ensures 9 !in s.requests && Presented(c, s, 9, 0) == s
  {
    var login, s0 := LoggedIn(c);
    var out, s3 := ReadThenLogout(c, s0);
    var insert;
    insert, s := LoserInserts(c, s3, BuildSession(0, 7, c.cap, 0, c.window));
    RunsCompose(c, Init, login, s0, out, s3);
    RunsCompose(c, Init, login + out, s3, insert, s);
    assert s.table[1].family == 0;
  }

  /** A deployment keeps every token of a living family recognisable until its
      deadline, in every run, iff it has no grace window. */
  lemma RetainsIffNoGrace(c: Config)
    ensures (forall s :: Reachable(c, s) ==> Retains(s)) <==> c.grace == 0
  {
    if c.grace == 0 {
      forall s | Reachable(c, s) ensures Retains(s) {
        var run :| Run(c, Init, run, s);
        RunKeepsRetains(c, Init, run, s);
      }
    } else {
      var s := TokenForgotten(c);
    }
  }

  /** Presenting any token that was ever stored, before its deadline and after its
      exchange, ends with its family gone for good, when there is no grace window. */
  lemma ReplayKillsFamily(c: Config, s: State, r: nat, token: Id)
    requires Reachable(c, s) && c.grace == 0 && r !in s.requests
    requires token in s.stored && token in s.issued && s.now <= s.issued[token].expiresAt
    requires token in s.table ==> s.table[token].rotation.Some? && s.now > s.table[token].rotation.value.at
    ensures Refused(c, s, token)
    ensures var f := s.issued[token].family;
      FamilyEmpty(Presented(c, s, r, token).table, f) && !CanRevive(c, Presented(c, s, r, token), f)
  {
    ReachableInv(c, s);
    RetainsIffNoGrace(c);
    var f := s.issued[token].family;
    if token in s.table {
      assert CopyOk(c, s, token, s.table[token]);
      ReplayOfStored(c, s, r, token);
    }
    var run := PresentedIsARun(c, s, r, token);
    var s' := Presented(c, s, r, token);
    ClockOnlyAdvances(c, s, run, s');
    RunKeepsInv(c, s, run, s');
    if CanRevive(c, s', f) {
      var more, s'' :| Run(c, s', more, s'') && !FamilyEmpty(s''.table, f);
      RunKeepsEmptied(c, s', more, s'', f);
    }
  }

  // ----- Housekeeping that deletes single rows -----

  /** Request r is about to delete a row whose token would still be honoured:
      by pruning, or by dropping a row that it read before it was rotated. */
  predicate DropsRedeemable(c: Config, s: State, r: nat, id: Id) {
    && r in s.requests && (s.requests[r].Pruning? || s.requests[r].Dropping?)
    && id in s.table && id !in Apply(c, s, Advance(r)).table
    && Decide(c, id, s.table[id], s.now).Issuing?
  }

  /** It is one rotated so late that its grace window outlasts its sliding
      deadline; a row that was never rotated is not dropped too early. */
  lemma DropsRedeemableIff(c: Config, s: State, r: nat, id: Id)
    requires Reachable(c, s) && r in s.requests && id in s.table
    ensures DropsRedeemable(c, s, r, id) <==>
      var row := s.table[id];
      && (s.requests[r] == Dropping(id) || (s.requests[r] == Pruning(row.user) && row.expiresAt < s.now))
      && s.now <= row.absoluteExpiresAt
      && c.grace > 0 && row.rotation.Some? && s.now <= row.rotation.value.at + c.grace
  {
    ReachableInv(c, s);
    assert RequestOk(c, s, s.requests[r]);
    assert CopyOk(c, s, id, s.table[id]);
    assert IssueOk(c, s, id, s.issued[id]);
  }

  /** User 7's only token is exchanged at the last moment of its window. */
  lemma ExchangedLate(c: Config, s: State, root: Session) returns (run: seq<Action>, s': State)
    requires c.cap > c.window && root == BuildSession(0, 7, c.cap, 0, c.window)
    requires s.now == 0 && s.nextId == 1 && s.table == map[0 := root] && 1 !in s.requests
    ensures Run(c, s, run, s') && s'.now == c.window + 1 && s'.nextId == 2
    ensures s'.table.Keys == {0, 1} && s'.table[0] == root.(rotation := Some(Rotation(c.window, 1)))
    ensures forall r :: r != 1 ==>
      (r in s'.requests <==> r in s.requests) && (r in s.requests ==> s'.requests[r] == s.requests[r])
  {
    var s2 := Apply(c, s, Refresh(1, 0));
    var s3 := Apply(c, s2, Tick(c.window));
    var s4 := Apply(c, s3, Advance(1));
    assert s4.requests[1].Issuing?;
    var s5 := Apply(c, s4, Advance(1));
    var s6 := Apply(c, s5, Advance(1));
    s' := Apply(c, s6, Tick(1));
    run := RunBefore(c, s6, Tick(1), [], s');
    run := RunBefore(c, s5, Advance(1), run, s');
    run := RunBefore(c, s4, Advance(1), run, s');
    run := RunBefore(c, s3, Advance(1), run, s');
    run := RunBefore(c, s2, Tick(c.window), run, s');
    run := RunBefore(c, s, Refresh(1, 0), run, s');
  }

  /** The user then logs in elsewhere, and that login prunes. */
  lemma LoginPrunesTooMuch(c: Config) returns (s: State)
    requires c.grace > 0 && c.cap > c.window
    ensures Reachable(c, s) && 2 in s.requests && s.requests[2] == Pruning(7) && DropsRedeemable(c, s, 2, 0)
  {
    var login, s0 := LoggedIn(c);
    var s1 := Apply(c, s0, Advance(0));
    assert s1.table == s0.table;
    var exchange, s2 := ExchangedLate(c, s1, BuildSession(0, 7, c.cap, 0, c.window));
    var s3 := Apply(c, s2, Login(2, 7));
    var s4 := Apply(c, s3, Advance(2));
    s := Apply(c, s4, Advance(2));
    assert s.requests[2] == Pruning(7) && s.table[0] == s2.table[0];
    var more := RunBefore(c, s4, Advance(2), [], s);
    more := RunBefore(c, s3, Advance(2), more, s);
    more := RunBefore(c, s2, Login(2, 7), more, s);
    RunsCompose(c, s1, exchange, s2, more, s);
    var run := RunBefore(c, s0, Advance(0), exchange + more, s);
    RunsCompose(c, Init, login, s0, run, s);
  }

  /** A refresh that looked the token up before the exchange decides to drop it. */
  lemma RefreshDropsTooMuch(c: Config) returns (s: State)
    requires c.grace > 0 && c.cap > c.window
    ensures Reachable(c, s) && 2 in s.requests && s.requests[2] == Dropping(0) && DropsRedeemable(c, s, 2, 0)
  {
    var login, s0 := LoggedIn(c);
    var s1 := Apply(c, s0, Refresh(2, 0));
    var exchange, s2 := ExchangedLate(c, s1, BuildSession(0, 7, c.cap, 0, c.window));
    s := Apply(c, s2, Advance(2));
    assert s.requests[2] == Dropping(0) && s.table[0] == s2.table[0];
    var more := RunBefore(c, s2, Advance(2), [], s);
    RunsCompose(c, s1, exchange, s2, more, s);
    var run := RunBefore(c, s0, Refresh(2, 0), exchange + more, s);
    RunsCompose(c, Init, login, s0, run, s);
  }

  ghost predicate HousekeepingIsHarmless(c: Config) {
    forall s, r, id :: Reachable(c, s) ==> !DropsRedeemable(c, s, r, id)
  }

  /** `DeleteExpired` and the expired-leaf branch of a refresh are meant to delete
      only rows whose token could no longer be redeemed. A deployment keeps to that
      in every run iff it has no grace window, or an absolute cap that leaves no
      time after the sliding one. */
  lemma HousekeepingIsHarmlessIff(c: Config)
    ensures HousekeepingIsHarmless(c) <==> c.grace == 0 || c.cap <= c.window
  {
    if c.grace > 0 && c.cap > c.window {
      var s := LoginPrunesTooMuch(c);
    } else {
      forall s, r, id | Reachable(c, s) ensures !DropsRedeemable(c, s, r, id) {
        ReachableInv(c, s);
        if r in s.requests && id in s.table {
          DropsRedeemableIff(c, s, r, id);
          assert RequestOk(c, s, s.requests[r]);
          assert CopyOk(c, s, id, s.table[id]);
          assert IssueOk(c, s, id, s.issued[id]);
        }
      }
    }
  }
}
