/** Post reports and moderation decisions: the tables and transactions of
    internal/repository/post_report_repository.go and the guards of
    internal/service/post_report_service.go. Validation of UUID syntax is not
    part of this model; `nat` keys stand for valid ones. */
module ModerationStore {
  import opened Wrappers

  datatype Status = Pending | Resolved | Dismissed

  datatype Verb = Hide | Unhide | Dismiss | Unknown(name: string)

  datatype Post = Post(author: Option<nat>, hidden: bool)

  datatype Report = Report(post: nat, reporter: nat, status: Status, action: Option<nat>)

  /** One audit row; `post` becomes None when the post is deleted. */
  datatype Record = Record(post: Option<nat>, author: Option<nat>, admin: nat, verb: Verb)

  datatype ModerationError =
    | PostNotFound | AlreadyHidden | NotHidden | NoPendingReports | UnknownAction | CannotReportOwnPost

  /** Audit rows are numbered by position: they are never deleted. */
  datatype Store = Store(posts: map<nat, Post>, reports: map<nat, Report>, actions: seq<Record>, nextReport: nat)

  predicate IsPending(reports: map<nat, Report>, id: nat, post: nat) {
    id in reports && reports[id].post == post && reports[id].status == Pending
  }

  predicate HasPending(reports: map<nat, Report>, post: nat) {
    exists id :: id in reports && IsPending(reports, id, post)
  }

  predicate PendingBy(reports: map<nat, Report>, post: nat, reporter: nat) {
    exists id :: id in reports && IsPending(reports, id, post) && reports[id].reporter == reporter
  }

  /** `ReportPost` up to its insert. */
  function CheckReport(s: Store, post: nat, reporter: nat): (r: Result<(), ModerationError>) {
    if post !in s.posts || s.posts[post].hidden then Err(PostNotFound)
    else if s.posts[post].author == Some(reporter) then Err(CannotReportOwnPost)
    else Ok(())
  }

  /** Insert or ignore on the partial unique index; the foreign key refuses a
      post deleted in the meantime. */
  function CreateReport(s: Store, post: nat, reporter: nat): (r: Result<Store, ModerationError>) {
    if post !in s.posts then Err(PostNotFound)
    else if PendingBy(s.reports, post, reporter) then Ok(s)
    else Ok(s.(reports := s.reports[s.nextReport := Report(post, reporter, Pending, None)],
               nextReport := s.nextReport + 1))
  }

  function ClosePending(reports: map<nat, Report>, post: nat, status: Status, action: nat): map<nat, Report> {
    map id | id in reports ::
      if IsPending(reports, id, post) then reports[id].(status := status, action := Some(action)) else reports[id]
  }

  function Moderate(s: Store, post: nat, admin: nat, verb: Verb): (r: Result<Store, ModerationError>) {
    if post !in s.posts then Err(PostNotFound) else
    var actions := s.actions + [Record(Some(post), s.posts[post].author, admin, verb)];
    match verb
    case Hide =>
      if s.posts[post].hidden then Err(AlreadyHidden)
      else Ok(s.(posts := s.posts[post := s.posts[post].(hidden := true)], actions := actions,
                 reports := ClosePending(s.reports, post, Resolved, |s.actions|)))
    case Unhide =>
      if !s.posts[post].hidden then Err(NotHidden)
      else Ok(s.(posts := s.posts[post := s.posts[post].(hidden := false)], actions := actions))
    case Dismiss =>
      if !HasPending(s.reports, post) then Err(NoPendingReports)
      else Ok(s.(actions := actions, reports := ClosePending(s.reports, post, Dismissed, |s.actions|)))
    case Unknown(_) => Err(UnknownAction)
  }

  /** Deleting a post cascades to its reports and unlinks its audit rows. */
  function DeletePost(s: Store, post: nat): Store {
    s.(posts := s.posts - {post},
       reports := (map id | id in s.reports && s.reports[id].post != post :: s.reports[id]),
       actions := Unlink(s.actions, post))
  }

  function Unlink(actions: seq<Record>, post: nat): (r: seq<Record>)
    ensures |r| == |actions|
    ensures forall i :: 0 <= i < |r| ==>
      r[i] == if actions[i].post == Some(post) then actions[i].(post := None) else actions[i]
  {
    seq(|actions|, i requires 0 <= i < |actions| =>
      if actions[i].post == Some(post) then actions[i].(post := None) else actions[i])
  }

  class PostReportRepository {
    var posts: map<nat, Post>
    var reports: map<nat, Report>
    var actions: seq<Record>
    var nextReport: nat

    ghost function View(): Store reads this {
      Store(posts, reports, actions, nextReport)
    }

    constructor ()
      ensures View() == Store(map[], map[], [], 0)
    {
      posts, reports, actions, nextReport := map[], map[], [], 0;
    }

    method Create(post: nat, reporter: nat) returns (r: Result<(), ModerationError>)
      modifies this
      ensures match CreateReport(old(View()), post, reporter)
              case Ok(s) => r == Ok(()) && View() == s
              case Err(e) => r == Err(e) && View() == old(View())
    {
      if post !in posts {
        return Err(PostNotFound);
      }
      if PendingBy(reports, post, reporter) {
        return Ok(());
      }
      reports := reports[nextReport := Report(post, reporter, Pending, None)];
      nextReport := nextReport + 1;
      return Ok(());
    }

    /** One decision: state check, audit row, flag, pending reports. */
    method Decide(post: nat, admin: nat, verb: Verb) returns (r: Result<(), ModerationError>)
      modifies this
      ensures match Moderate(old(View()), post, admin, verb)
              case Ok(s) => r == Ok(()) && View() == s
              case Err(e) => r == Err(e) && View() == old(View())
    {
      if post !in posts {
        return Err(PostNotFound);
      }
      match verb {
        case Hide =>
          if posts[post].hidden { return Err(AlreadyHidden); }
        case Unhide =>
          if !posts[post].hidden { return Err(NotHidden); }
        case Dismiss =>
          if !HasPending(reports, post) { return Err(NoPendingReports); }
        case Unknown(_) => return Err(UnknownAction);
      }
      var record := |actions|;
      actions := actions + [Record(Some(post), posts[post].author, admin, verb)];
      match verb {
        case Hide =>
          posts := posts[post := posts[post].(hidden := true)];
          Close(post, Resolved, record);
        case Unhide =>
          posts := posts[post := posts[post].(hidden := false)];
        case Dismiss =>
          Close(post, Dismissed, record);
        case Unknown(_) =>
      }
      return Ok(());
    }

    method Close(post: nat, status: Status, record: nat)
      modifies this`reports
      ensures reports == ClosePending(old(reports), post, status, record)
      ensures reports.Keys == old(reports).Keys
      ensures status != Pending ==> !HasPending(reports, post)
      ensures forall id :: id in reports && !IsPending(old(reports), id, post) ==> reports[id] == old(reports)[id]
      ensures forall id :: id in reports && IsPending(old(reports), id, post) ==>
        reports[id] == Report(post, old(reports)[id].reporter, status, Some(record))
    {
      reports := map id | id in reports ::
        if IsPending(reports, id, post) then reports[id].(status := status, action := Some(record))
        else reports[id];
    }
  }
}
