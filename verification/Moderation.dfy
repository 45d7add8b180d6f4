/** What every run of reports, decisions and deletions keeps. */
module Moderation {
  import opened Wrappers
  import opened ModerationStore

  /** `checked` holds the report requests that passed their checks and have not
      inserted yet. */
  datatype State = State(store: Store, checked: map<nat, (nat, nat)>, nextPost: nat)

  const Init := State(Store(map[], map[], [], 0), map[], 0)

  datatype Action =
    | Publish(author: nat)
    | Delete(post: nat)
    | Check(r: nat, post: nat, reporter: nat)
    | Insert(r: nat)
    | Drop(r: nat)
    | Judge(post: nat, admin: nat, verb: Verb)

  /** A failed call changes nothing. */
  function Kept(s: State, r: Result<Store, ModerationError>): State {
    if r.Ok? then s.(store := r.value) else s
  }

  function Apply(s: State, a: Action): State {
    match a
    case Publish(author) =>
      s.(store := s.store.(posts := s.store.posts[s.nextPost := Post(Some(author), false)]),
         nextPost := s.nextPost + 1)
    case Delete(post) => s.(store := DeletePost(s.store, post))
    case Check(r, post, reporter) =>
      if r !in s.checked && CheckReport(s.store, post, reporter).Ok? then
        s.(checked := s.checked[r := (post, reporter)])
      else s
    case Insert(r) =>
      if r in s.checked then
        Kept(s, CreateReport(s.store, s.checked[r].0, s.checked[r].1)).(checked := s.checked - {r})
      else s
    case Drop(r) => s.(checked := s.checked - {r})
    case Judge(post, admin, verb) => Kept(s, Moderate(s.store, post, admin, verb))
  }

  function Run(s: State, run: seq<Action>): State
    decreases |run|
  {
    if run == [] then s else Run(Apply(s, run[0]), run[1..])
  }

  // ----- The audit log -----

  /** The hide and unhide rows of one post, oldest first. */
  function Flags(actions: seq<Record>, post: nat): seq<Verb> {
    if actions == [] then [] else
    var last := actions[|actions| - 1];
    var earlier := Flags(actions[..|actions| - 1], post);
    if last.post == Some(post) && last.verb in {Hide, Unhide} then earlier + [last.verb] else earlier
  }

  lemma FlagsAppend(actions: seq<Record>, record: Record, post: nat)
    ensures Flags(actions + [record], post) ==
      Flags(actions, post) + (if record.post == Some(post) && record.verb in {Hide, Unhide} then [record.verb] else [])
  {
    assert (actions + [record])[..|actions|] == actions;
  }

  lemma {:induction false} FlagsUnlink(actions: seq<Record>, deleted: nat, post: nat)
    requires deleted != post
    ensures Flags(Unlink(actions, deleted), post) == Flags(actions, post)
  {
    if actions != [] {
      var n := |actions| - 1;
      FlagsUnlink(actions[..n], deleted, post);
      assert Unlink(actions, deleted)[..n] == Unlink(actions[..n], deleted);
    }
  }

  lemma {:induction false} NoFlags(actions: seq<Record>, post: nat)
    requires forall i :: 0 <= i < |actions| ==> actions[i].post != Some(post)
    ensures Flags(actions, post) == []
  {
    if actions != [] {
      NoFlags(actions[..|actions| - 1], post);
    }
  }

  /** hide, unhide, hide, unhide, ... */
  predicate Alternating(flags: seq<Verb>) {
    forall i :: 0 <= i < |flags| ==> flags[i] == if i % 2 == 0 then Hide else Unhide
  }

  // ----- The invariant -----

  /** The log alternates and decides the flag: hidden iff the last row hid it. */
  ghost predicate LogOk(s: State) {
    && (forall p :: p in s.store.posts ==> p < s.nextPost)
    && (forall i :: 0 <= i < |s.store.actions| && s.store.actions[i].post.Some? ==>
          s.store.actions[i].post.value < s.nextPost)
    && (forall p :: p in s.store.posts ==> PostOk(s.store, p))
  }

  ghost predicate PostOk(s: Store, p: nat)
    requires p in s.posts
  {
    var flags := Flags(s.actions, p);
    Alternating(flags) && (s.posts[p].hidden <==> flags != [] && flags[|flags| - 1] == Hide)
  }

  /** An open report has no decision; a closed one names the hide or dismiss row
      of its own post that closed it. */
  predicate ReportOk(s: Store, r: Report) {
    && r.post in s.posts
    && match r.action
       case None => r.status == Pending
       case Some(a) =>
         && a < |s.actions| && s.actions[a].post == Some(r.post)
         && r.status == (if s.actions[a].verb == Hide then Resolved else Dismissed)
         && s.actions[a].verb in {Hide, Dismiss}
  }

  ghost predicate ReportsOk(s: State) {
    && (forall id :: id in s.store.reports ==> id < s.store.nextReport && ReportOk(s.store, s.store.reports[id]))
    && (forall a, b :: (a in s.store.reports && b in s.store.reports &&
          s.store.reports[a].status == Pending && s.store.reports[b].status == Pending &&
          s.store.reports[a].post == s.store.reports[b].post &&
          s.store.reports[a].reporter == s.store.reports[b].reporter) ==> a == b)
  }

  predicate ClosedBy(s: Store, id: nat, action: nat) {
    id in s.reports && s.reports[id].action == Some(action)
  }

  /** Every dismissal of a post that still exists closed a report. */
  ghost predicate DismissalsOk(s: State) {
    forall a :: 0 <= a < |s.store.actions| && s.store.actions[a].verb == Dismiss && s.store.actions[a].post.Some? ==>
      exists id :: ClosedBy(s.store, id, a)
  }

  ghost predicate Inv(s: State) {
    LogOk(s) && ReportsOk(s) && DismissalsOk(s)
  }

  /** One more row on the log, with the flag of its post following it. */
  lemma RowKeepsPost(s: Store, s': Store, record: Record, p: nat)
    requires p in s.posts && p in s'.posts && PostOk(s, p) && s'.actions == s.actions + [record]
    requires record.post == Some(p) && record.verb == Hide ==> !s.posts[p].hidden && s'.posts[p].hidden
    requires record.post == Some(p) && record.verb == Unhide ==> s.posts[p].hidden && !s'.posts[p].hidden
    requires record.post != Some(p) || record.verb !in {Hide, Unhide} ==> s'.posts[p].hidden == s.posts[p].hidden
    ensures PostOk(s', p)
  {
    FlagsAppend(s.actions, record, p);
  }

  lemma JudgeKeepsLog(s: State, post: nat, admin: nat, verb: Verb)
    requires LogOk(s)
    ensures LogOk(Apply(s, Judge(post, admin, verb)))
  {
    var s' := Apply(s, Judge(post, admin, verb));
    if Moderate(s.store, post, admin, verb).Ok? {
      forall p | p in s'.store.posts ensures PostOk(s'.store, p) {
        assert PostOk(s.store, p);
        RowKeepsPost(s.store, s'.store, Record(Some(post), s.store.posts[post].author, admin, verb), p);
      }
    }
  }

  lemma DeleteKeepsLog(s: State, post: nat)
    requires LogOk(s)
    ensures LogOk(Apply(s, Delete(post)))
  {
    var s' := Apply(s, Delete(post));
    forall p | p in s'.store.posts ensures PostOk(s'.store, p) {
      assert PostOk(s.store, p);
      FlagsUnlink(s.store.actions, post, p);
    }
  }

  lemma StepKeepsLog(s: State, a: Action)
    requires LogOk(s)
    ensures LogOk(Apply(s, a))
  {
    match a {
      case Publish(_) =>
        var s' := Apply(s, a);
        NoFlags(s.store.actions, s.nextPost);
        assert forall p :: p in s.store.posts ==> PostOk(s.store, p);
        forall p | p in s'.store.posts ensures PostOk(s'.store, p) {}
      case Delete(post) => DeleteKeepsLog(s, post);
      case Judge(post, admin, verb) => JudgeKeepsLog(s, post, admin, verb);
      case _ =>
        var s' := Apply(s, a);
        assert forall p :: p in s.store.posts ==> PostOk(s.store, p);
        forall p | p in s'.store.posts ensures PostOk(s'.store, p) {}
    }
  }

  lemma InsertKeepsReports(s: State, r: nat)
    requires ReportsOk(s)
    ensures ReportsOk(Apply(s, Insert(r)))
  {
    if r in s.checked {
      var (post, reporter) := s.checked[r];
      if post in s.store.posts && !PendingBy(s.store.reports, post, reporter) {
        assert forall id :: id in s.store.reports ==> ReportOk(s.store, s.store.reports[id]);
        assert forall id :: id in s.store.reports ==>
          !(IsPending(s.store.reports, id, post) && s.store.reports[id].reporter == reporter);
      }
    }
  }

  lemma JudgeKeepsReports(s: State, post: nat, admin: nat, verb: Verb)
    requires ReportsOk(s)
    ensures ReportsOk(Apply(s, Judge(post, admin, verb)))
  {
    var s' := Apply(s, Judge(post, admin, verb));
    forall id | id in s'.store.reports
      ensures id < s'.store.nextReport && ReportOk(s'.store, s'.store.reports[id])
    {
      assert ReportOk(s.store, s.store.reports[id]);
    }
  }

  lemma DeleteKeepsReports(s: State, post: nat)
    requires ReportsOk(s)
    ensures ReportsOk(Apply(s, Delete(post)))
  {
    var s' := Apply(s, Delete(post));
    forall id | id in s'.store.reports
      ensures ReportOk(s'.store, s'.store.reports[id])
    {
      assert s'.store.reports[id] == s.store.reports[id] && s.store.reports[id].post != post;
      assert ReportOk(s.store, s.store.reports[id]);
    }
  }

  lemma StepKeepsReports(s: State, a: Action)
    requires LogOk(s) && ReportsOk(s)
    ensures ReportsOk(Apply(s, a))
  {
    match a {
      case Insert(r) => InsertKeepsReports(s, r);
      case Judge(post, admin, verb) => JudgeKeepsReports(s, post, admin, verb);
      case Delete(post) => DeleteKeepsReports(s, post);
      case _ =>
        assert forall id :: id in s.store.reports ==> ReportOk(s.store, s.store.reports[id]);
    }
  }

  lemma OldDismissalKept(s: State, a: Action, n: nat)
    requires LogOk(s) && ReportsOk(s) && DismissalsOk(s) && n < |s.store.actions|
    requires Apply(s, a).store.actions[n].verb == Dismiss && Apply(s, a).store.actions[n].post.Some?
    ensures exists id :: ClosedBy(Apply(s, a).store, id, n)
  {
    var s' := Apply(s, a);
    assert s.store.actions[n].verb == Dismiss && s.store.actions[n].post == s'.store.actions[n].post;
    var id :| ClosedBy(s.store, id, n);
    assert ReportOk(s.store, s.store.reports[id]);
    ClosedStays(s, a, id, n);
  }

  /** A closed report of a post that still exists stays closed by the same row. */
  lemma ClosedStays(s: State, a: Action, id: nat, n: nat)
    requires ReportsOk(s) && ClosedBy(s.store, id, n) && ReportOk(s.store, s.store.reports[id])
    requires a.Delete? ==> s.store.reports[id].post != a.post
    ensures ClosedBy(Apply(s, a).store, id, n)
  {
  }

  lemma NewDismissalCloses(s: State, a: Action, n: nat)
    requires |s.store.actions| <= n < |Apply(s, a).store.actions| && Apply(s, a).store.actions[n].verb == Dismiss
    ensures exists id :: ClosedBy(Apply(s, a).store, id, n)
  {
    var id :| id in s.store.reports && IsPending(s.store.reports, id, a.post);
    assert ClosedBy(Apply(s, a).store, id, n);
  }

  lemma StepKeepsDismissals(s: State, a: Action)
    requires LogOk(s) && ReportsOk(s) && DismissalsOk(s)
    ensures DismissalsOk(Apply(s, a))
  {
    var s' := Apply(s, a);
    forall n | 0 <= n < |s'.store.actions| && s'.store.actions[n].verb == Dismiss && s'.store.actions[n].post.Some?
      ensures exists id :: ClosedBy(s'.store, id, n)
    {
      if n < |s.store.actions| {
        OldDismissalKept(s, a, n);
      } else {
        NewDismissalCloses(s, a, n);
      }
    }
  }

  lemma StepKeepsInv(s: State, a: Action)
    requires Inv(s)
    ensures Inv(Apply(s, a))
  {
    StepKeepsLog(s, a);
    StepKeepsReports(s, a);
    StepKeepsDismissals(s, a);
  }

  lemma {:induction false} RunKeepsInv(s: State, run: seq<Action>)
    requires Inv(s)
    ensures Inv(Run(s, run))
    decreases |run|
  {
    if run != [] {
      StepKeepsInv(s, run[0]);
      RunKeepsInv(Apply(s, run[0]), run[1..]);
    }
  }

  // ----- The theorems, for every run from the empty store -----

  lemma HiddenIffLastFlagHides(run: seq<Action>, p: nat)
    requires p in Run(Init, run).store.posts
    ensures var s := Run(Init, run).store; var flags := Flags(s.actions, p);
      Alternating(flags) && (s.posts[p].hidden <==> |flags| % 2 == 1)
  {
    RunKeepsInv(Init, run);
    assert PostOk(Run(Init, run).store, p);
  }

  lemma ReportsAreConsistent(run: seq<Action>)
    ensures ReportsOk(Run(Init, run)) && DismissalsOk(Run(Init, run))
  {
    RunKeepsInv(Init, run);
  }

  /** A closed report is never reopened, reassigned or changed; it can only
      disappear with its post. The log only grows, apart from losing the link
      to deleted posts. */
  ghost predicate Settled(s: Store, s': Store) {
    && s.nextReport <= s'.nextReport && |s.actions| <= |s'.actions|
    && (forall id :: id in s'.reports && id < s.nextReport ==>
          id in s.reports && (s.reports[id].status != Pending ==> s'.reports[id] == s.reports[id]))
    && (forall i :: 0 <= i < |s.actions| ==> s'.actions[i].(post := None) == s.actions[i].(post := None))
  }

  lemma JudgeSettles(s: State, post: nat, admin: nat, verb: Verb)
    requires ReportsOk(s)
    ensures Settled(s.store, Apply(s, Judge(post, admin, verb)).store)
  {
  }

  lemma StepSettles(s: State, a: Action)
    requires Inv(s)
    ensures Settled(s.store, Apply(s, a).store)
  {
    match a {
      case Judge(post, admin, verb) => JudgeSettles(s, post, admin, verb);
      case _ =>
    }
  }

  lemma SettledTransitive(a: Store, b: Store, c: Store)
    requires Settled(a, b) && Settled(b, c)
    ensures Settled(a, c)
  {
    forall i | 0 <= i < |a.actions|
      ensures c.actions[i].(post := None) == a.actions[i].(post := None)
    {
      assert b.actions[i].(post := None) == a.actions[i].(post := None);
    }
  }

  lemma {:induction false} RunSettles(s: State, run: seq<Action>)
    requires Inv(s)
    ensures Settled(s.store, Run(s, run).store)
    decreases |run|
  {
    if run != [] {
      var m := Apply(s, run[0]);
      StepSettles(s, run[0]);
      StepKeepsInv(s, run[0]);
      RunSettles(m, run[1..]);
      SettledTransitive(s.store, m.store, Run(m, run[1..]).store);
    }
  }

  // ----- Hidden posts and pending reports -----

  predicate InFlight(s: State, post: nat) {
    exists r :: r in s.checked && s.checked[r].0 == post
  }

  /** Nobody can be waiting for a decision on a hidden post, now or once the
      requests in flight have finished. */
  ghost predicate Clean(s: State) {
    forall p :: p in s.store.posts && s.store.posts[p].hidden ==>
      !HasPending(s.store.reports, p) && !InFlight(s, p)
  }

  /** Hiding a post while a report on it is between its check and its insert is
      the one step that loses this, and it always does. */
  predicate HidesUnderReport(s: State, a: Action) {
    a.Judge? && a.verb == Hide && Moderate(s.store, a.post, a.admin, Hide).Ok? && InFlight(s, a.post)
  }

  lemma StepKeepsCleanIff(s: State, a: Action)
    requires Inv(s) && Clean(s)
    ensures Clean(Apply(s, a)) <==> !HidesUnderReport(s, a)
  {
    var s' := Apply(s, a);
    if HidesUnderReport(s, a) {
      assert s'.store.posts[a.post].hidden && InFlight(s', a.post);
    } else {
      forall p | p in s'.store.posts && s'.store.posts[p].hidden
        ensures !HasPending(s'.store.reports, p) && !InFlight(s', p)
      {
        StepKeepsPostClean(s, a, p);
      }
    }
  }

  lemma HideLeavesQuiet(s: State, post: nat, admin: nat)
    requires Moderate(s.store, post, admin, Hide).Ok? && !InFlight(s, post)
    ensures var s' := Apply(s, Judge(post, admin, Hide));
      !HasPending(s'.store.reports, post) && !InFlight(s', post)
  {
    assert forall r :: r in s.checked ==> s.checked[r].0 != post;
  }

  lemma StepKeepsPostClean(s: State, a: Action, p: nat)
    requires Inv(s) && Clean(s) && !HidesUnderReport(s, a)
    requires p in Apply(s, a).store.posts && Apply(s, a).store.posts[p].hidden
    ensures !HasPending(Apply(s, a).store.reports, p) && !InFlight(Apply(s, a), p)
  {
    if p in s.store.posts && s.store.posts[p].hidden {
      StepKeepsQuiet(s, a, p);
    } else {
      assert a.Judge? && a.post == p && a.verb == Hide;
      HideLeavesQuiet(s, p, a.admin);
    }
  }

  /** A report in flight on a hidden post still lands there. */
  lemma InFlightLands(s: State, p: nat) returns (r: nat)
    requires p in s.store.posts && s.store.posts[p].hidden && InFlight(s, p)
    ensures r in s.checked
    ensures var s' := Apply(s, Insert(r)).store;
      p in s'.posts && s'.posts[p].hidden && HasPending(s'.reports, p)
  {
    r :| r in s.checked && s.checked[r].0 == p;
    var s' := Apply(s, Insert(r)).store;
    var reporter := s.checked[r].1;
    if PendingBy(s.store.reports, p, reporter) {
      var id :| id in s.store.reports && IsPending(s.store.reports, id, p);
      assert IsPending(s'.reports, id, p);
    } else {
      assert IsPending(s'.reports, s.store.nextReport, p);
    }
  }

  /** The post stays hidden from s to the end of the run. */
  predicate StaysHidden(s: State, run: seq<Action>, p: nat)
    decreases |run|
  {
    && p in s.store.posts && s.store.posts[p].hidden
    && (run == [] || StaysHidden(Apply(s, run[0]), run[1..], p))
  }

  /** Some run gives the post a pending report while it stays hidden. */
  ghost predicate CanGetPending(s: State, p: nat) {
    exists run :: StaysHidden(s, run, p) && HasPending(Run(s, run).store.reports, p)
  }

  lemma StepKeepsQuiet(s: State, a: Action, p: nat)
    requires p in s.store.posts && s.store.posts[p].hidden && p in Apply(s, a).store.posts
    requires !HasPending(s.store.reports, p) && !InFlight(s, p)
    ensures !HasPending(Apply(s, a).store.reports, p) && !InFlight(Apply(s, a), p)
  {
    assert forall id :: id in s.store.reports ==> !IsPending(s.store.reports, id, p);
    assert forall r :: r in s.checked ==> s.checked[r].0 != p;
  }

  lemma {:induction false} RunKeepsQuiet(s: State, run: seq<Action>, p: nat)
    requires StaysHidden(s, run, p) && !HasPending(s.store.reports, p) && !InFlight(s, p)
    ensures !HasPending(Run(s, run).store.reports, p)
    decreases |run|
  {
    if run != [] {
      StepKeepsQuiet(s, run[0], p);
      RunKeepsQuiet(Apply(s, run[0]), run[1..], p);
    }
  }

  /** While a post stays hidden it can come to have a pending report iff it has one
      already or a report on it is between its check and its insert. */
  lemma PendingWhileHiddenIff(s: State, p: nat)
    requires p in s.store.posts && s.store.posts[p].hidden
    ensures CanGetPending(s, p) <==> HasPending(s.store.reports, p) || InFlight(s, p)
  {
    if HasPending(s.store.reports, p) {
      assert StaysHidden(s, [], p) && HasPending(Run(s, []).store.reports, p);
    } else if InFlight(s, p) {
      var r := InFlightLands(s, p);
      var run := [Insert(r)];
      assert run[1..] == [];
      assert StaysHidden(s, run, p) && Run(s, run) == Apply(s, Insert(r));
    } else if CanGetPending(s, p) {
      var run :| StaysHidden(s, run, p) && HasPending(Run(s, run).store.reports, p);
      RunKeepsQuiet(s, run, p);
    }
  }

  /** So of all steps from a clean state, exactly the hides under a report open the
      way to a pending report on a hidden post. */
  lemma HideUnderReportIff(s: State, a: Action)
    requires Inv(s) && Clean(s)
    ensures var s' := Apply(s, a);
      HidesUnderReport(s, a) <==>
      exists p :: p in s'.store.posts && s'.store.posts[p].hidden && CanGetPending(s', p)
  {
    var s' := Apply(s, a);
    StepKeepsCleanIff(s, a);
    forall p | p in s'.store.posts && s'.store.posts[p].hidden
      ensures CanGetPending(s', p) <==> HasPending(s'.store.reports, p) || InFlight(s', p)
    {
      PendingWhileHiddenIff(s', p);
    }
  }

  /** The check and the insert of `ReportPost` taken as one step. */
  predicate Undisturbed(run: seq<Action>)
    decreases |run|
  {
    if run == [] then true
    else if run[0].Check? then |run| > 1 && run[1] == Insert(run[0].r) && Undisturbed(run[2..])
    else Undisturbed(run[1..])
  }

  /** When every report inserts right after its checks, a hidden post never has
      a pending report. */
  lemma {:induction false} UndisturbedIsClean(s: State, run: seq<Action>)
    requires Inv(s) && Clean(s) && s.checked == map[] && Undisturbed(run)
    ensures Clean(Run(s, run)) && Run(s, run).checked == map[]
    decreases |run|
  {
    if run != [] {
      var m := Apply(s, run[0]);
      StepKeepsCleanIff(s, run[0]);
      StepKeepsInv(s, run[0]);
      if run[0].Check? {
        StepKeepsCleanIff(m, run[1]);
        StepKeepsInv(m, run[1]);
        assert run[1..][1..] == run[2..] && run[1..][0] == run[1];
        UndisturbedIsClean(Apply(m, run[1]), run[2..]);
      } else {
        UndisturbedIsClean(m, run[1..]);
      }
    }
  }

  /** With the two calls apart, a hide in between leaves a pending report on a
      hidden post. */
  lemma HideBetweenCheckAndInsert() returns (run: seq<Action>)
    ensures var s := Run(Init, run).store;
      0 in s.posts && s.posts[0].hidden && HasPending(s.reports, 0)
  {
    run := [Publish(1), Check(0, 0, 2), Judge(0, 3, Hide), Insert(0)];
    var s1 := Apply(Init, run[0]);
    var s2 := Apply(s1, run[1]);
    var s3 := Apply(s2, run[2]);
    var s4 := Apply(s3, run[3]);
    assert s3.store.reports == map[];
    assert IsPending(s4.store.reports, 0, 0);
    assert run[1..][1..][1..][1..] == [];
    assert Run(Init, run) == s4;
  }
}
