/** What moderation does to whom: posts and reports go only when a post is deleted,
    nobody's report stands on their own post, and the audit log is the list of the
    decisions taken (internal/service/post_report_service.go,
    internal/repository/post_report_repository.go). */
module ModerationLog {
  import opened Wrappers
  import opened ModerationStore
  import opened Moderation

  // ----- What goes with a post -----

  ghost predicate PostsOld(s: State) {
    && (forall p :: p in s.store.posts ==> p < s.nextPost)
    && (forall r :: r in s.checked ==> s.checked[r].0 < s.nextPost)
  }

  lemma StepKeepsPostsOld(s: State, a: Action)
    requires PostsOld(s)
    ensures PostsOld(Apply(s, a)) && s.nextPost <= Apply(s, a).nextPost
  {
  }

  lemma StepKeepsPost(s: State, a: Action, p: nat)
    requires PostsOld(s) && p < s.nextPost
    ensures p in Apply(s, a).store.posts <==> p in s.store.posts && a != Delete(p)
    ensures p in Apply(s, a).store.posts ==> Apply(s, a).store.posts[p].author == s.store.posts[p].author
  {
  }

  /** A post goes iff it is deleted, never comes back and keeps its author. */
  lemma {:induction false} PostGoneIffDeleted(s: State, run: seq<Action>, p: nat)
    requires PostsOld(s) && p < s.nextPost
    ensures p in Run(s, run).store.posts <==> p in s.store.posts && Delete(p) !in run
    ensures p in Run(s, run).store.posts ==> Run(s, run).store.posts[p].author == s.store.posts[p].author
    decreases |run|
  {
    if run != [] {
      StepKeepsPostsOld(s, run[0]);
      StepKeepsPost(s, run[0], p);
      PostGoneIffDeleted(Apply(s, run[0]), run[1..], p);
      assert run == [run[0]] + run[1..];
    }
  }

  predicate SameParties(a: Report, b: Report) {
    a.post == b.post && a.reporter == b.reporter
  }

  lemma StepKeepsReport(s: State, a: Action, id: nat)
    requires id in s.store.reports && id < s.store.nextReport
    ensures var s' := Apply(s, a).store;
      && (id !in s'.reports <==> a == Delete(s.store.reports[id].post))
      && (id in s'.reports ==> SameParties(s'.reports[id], s.store.reports[id]))
  {
  }

  /** A report goes iff its post is deleted; it keeps its post and its reporter. */
  lemma {:induction false} ReportGoneIffPostDeleted(s: State, run: seq<Action>, id: nat)
    requires Inv(s) && id in s.store.reports
    ensures var post := s.store.reports[id].post;
      && (id in Run(s, run).store.reports <==> Delete(post) !in run)
      && (id in Run(s, run).store.reports ==> SameParties(Run(s, run).store.reports[id], s.store.reports[id]))
    decreases |run|
  {
    if run != [] {
      var m := Apply(s, run[0]);
      StepKeepsInv(s, run[0]);
      StepKeepsReport(s, run[0], id);
      if id in m.store.reports {
        ReportGoneIffPostDeleted(m, run[1..], id);
      } else {
        StepSettles(s, run[0]);
        RunSettles(m, run[1..]);
      }
      assert run == [run[0]] + run[1..];
    }
  }

  // ----- Nobody reports their own post -----

  predicate IsAuthor(posts: map<nat, Post>, post: nat, user: nat) {
    post in posts && posts[post].author == Some(user)
  }

  ghost predicate NoOwnReports(s: State) {
    && (forall id :: id in s.store.reports ==>
          !IsAuthor(s.store.posts, s.store.reports[id].post, s.store.reports[id].reporter))
    && (forall r :: r in s.checked ==> !IsAuthor(s.store.posts, s.checked[r].0, s.checked[r].1))
  }

  lemma StepKeepsAuthor(s: State, a: Action, post: nat, user: nat)
    requires PostsOld(s) && post < s.nextPost && !IsAuthor(s.store.posts, post, user)
    ensures !IsAuthor(Apply(s, a).store.posts, post, user)
  {
    StepKeepsPost(s, a, post);
  }

  lemma StepKeepsOldReports(s: State, a: Action)
    requires Inv(s) && PostsOld(s) && NoOwnReports(s)
    ensures forall id :: id in s.store.reports && id in Apply(s, a).store.reports ==>
      var report := Apply(s, a).store.reports[id];
      !IsAuthor(Apply(s, a).store.posts, report.post, report.reporter)
  {
    forall id | id in s.store.reports && id in Apply(s, a).store.reports
      ensures var report := Apply(s, a).store.reports[id];
        !IsAuthor(Apply(s, a).store.posts, report.post, report.reporter)
    {
      assert ReportOk(s.store, s.store.reports[id]);
      StepKeepsReport(s, a, id);
      StepKeepsAuthor(s, a, s.store.reports[id].post, s.store.reports[id].reporter);
    }
  }

  lemma StepKeepsChecked(s: State, a: Action)
    requires PostsOld(s) && NoOwnReports(s)
    ensures forall r :: r in Apply(s, a).checked ==>
      !IsAuthor(Apply(s, a).store.posts, Apply(s, a).checked[r].0, Apply(s, a).checked[r].1)
  {
  }

  lemma StepKeepsNoOwnReports(s: State, a: Action)
    requires Inv(s) && PostsOld(s) && NoOwnReports(s)
    ensures NoOwnReports(Apply(s, a))
  {
    StepKeepsOldReports(s, a);
    StepKeepsChecked(s, a);
    assert forall id :: id in Apply(s, a).store.reports && id !in s.store.reports ==> a.Insert?;
  }

  lemma {:induction false} RunKeepsNoOwnReports(s: State, run: seq<Action>)
    requires Inv(s) && PostsOld(s) && NoOwnReports(s)
    ensures NoOwnReports(Run(s, run))
    decreases |run|
  {
    if run != [] {
      StepKeepsInv(s, run[0]);
      StepKeepsPostsOld(s, run[0]);
      StepKeepsNoOwnReports(s, run[0]);
      RunKeepsNoOwnReports(Apply(s, run[0]), run[1..]);
    }
  }

  /** In every run no report is by the author of its post. */
  lemma NobodyReportsThemselves(run: seq<Action>, id: nat)
    requires id in Run(Init, run).store.reports
    ensures var s := Run(Init, run).store;
      !IsAuthor(s.posts, s.reports[id].post, s.reports[id].reporter)
  {
    RunKeepsNoOwnReports(Init, run);
  }

  // ----- The audit log -----

  /** A decision the post allows: hide what is visible, unhide what is hidden,
      dismiss what somebody waits for. */
  predicate Allowed(s: Store, post: nat, verb: Verb) {
    post in s.posts &&
    match verb
    case Hide => !s.posts[post].hidden
    case Unhide => s.posts[post].hidden
    case Dismiss => HasPending(s.reports, post)
    case Unknown(_) => false
  }

  /** The decisions of a run that were allowed, with the author at that time. */
  function Decisions(s: State, run: seq<Action>): seq<Record>
    decreases |run|
  {
    if run == [] then [] else DecisionOf(s, run[0]) + Decisions(Apply(s, run[0]), run[1..])
  }

  function DecisionOf(s: State, a: Action): seq<Record> {
    if a.Judge? && Allowed(s.store, a.post, a.verb) then
      [Record(Some(a.post), s.store.posts[a.post].author, a.admin, a.verb)]
    else []
  }

  /** The row as it reads once only these posts are left. */
  function Current(record: Record, posts: set<nat>): Record {
    if record.post.Some? && record.post.value !in posts then record.(post := None) else record
  }

  predicate LogIs(actions: seq<Record>, records: seq<Record>, posts: set<nat>) {
    |actions| == |records| && forall i :: 0 <= i < |records| ==> actions[i] == Current(records[i], posts)
  }

  ghost predicate Linked(s: State) {
    forall i :: 0 <= i < |s.store.actions| && s.store.actions[i].post.Some? ==>
      s.store.actions[i].post.value in s.store.posts
  }

  lemma StepLogs(s: State, a: Action)
    requires PostsOld(s) && Linked(s)
    ensures Linked(Apply(s, a))
    ensures LogIs(Apply(s, a).store.actions, s.store.actions + DecisionOf(s, a), Apply(s, a).store.posts.Keys)
  {
  }

  lemma LogsCompose(
    actions: seq<Record>, records: seq<Record>, posts: set<nat>,
    more: seq<Record>, later: seq<Record>, posts': set<nat>)
    requires LogIs(actions, records, posts) && LogIs(later, actions + more, posts')
    requires forall i :: 0 <= i < |records| && records[i].post.Some? && records[i].post.value !in posts ==>
      records[i].post.value !in posts'
    ensures LogIs(later, records + more, posts')
  {
  }

  /** Over every run the log grows by exactly the decisions that were allowed, in
      their order, each naming post, author, administrator and verb; a row loses
      its link iff its post is deleted. */
  lemma {:induction false} LogIsTheDecisions(s: State, run: seq<Action>)
    requires PostsOld(s) && Linked(s)
    ensures var s' := Run(s, run);
      LogIs(s'.store.actions, s.store.actions + Decisions(s, run), s'.store.posts.Keys)
    decreases |run|
  {
    if run == [] {
      assert s.store.actions + [] == s.store.actions;
    } else {
      var a, m, s' := run[0], Apply(s, run[0]), Run(s, run);
      StepKeepsPostsOld(s, a);
      StepLogs(s, a);
      LogIsTheDecisions(m, run[1..]);
      var records := s.store.actions + DecisionOf(s, a);
      forall i | 0 <= i < |records| && records[i].post.Some? && records[i].post.value !in m.store.posts.Keys
        ensures records[i].post.value !in s'.store.posts.Keys
      {
        PostGoneIffDeleted(m, run[1..], records[i].post.value);
      }
      LogsCompose(m.store.actions, records, m.store.posts.Keys, Decisions(m, run[1..]), s'.store.actions,
        s'.store.posts.Keys);
      assert records + Decisions(m, run[1..]) == s.store.actions + (DecisionOf(s, a) + Decisions(m, run[1..]));
    }
  }
}
