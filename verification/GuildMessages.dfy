/** Cursor pages over a channel's messages (internal/service/guild_channel_service.go,
    internal/repository/guild_channel_repository.go): walking the pages while
    others post and delete, against the whole history. */
module GuildMessages {
  import opened Wrappers

  /** uuidv7 ids, by their order. */
  type Id = nat

  datatype Message = Message(channel: string, author: string, content: string)
  datatype Row = Row(id: Id, message: Message)
  datatype Page = Page(rows: seq<Row>, hasMore: bool, nextBefore: Option<Id>)
  datatype Error = InvalidMessageCursor | MessageNotFound | NoAccess

  /** The `before` parameter: absent, not a UUID, or an id. */
  datatype Cursor = Latest | Malformed | Before(id: Id)

  type Table = map<Id, Message>

  /** The channel's ids below the cursor. */
  function Older(table: Table, channel: string, before: Option<Id>): set<Id> {
    set id | id in table && table[id].channel == channel && (before.None? || id < before.value)
  }

  // ----- ORDER BY id DESC LIMIT n -----

  lemma {:induction false} GreatestExists(ids: set<Id>)
    requires ids != {}
    ensures exists m :: m in ids && forall x :: x in ids ==> x <= m
    decreases |ids|
  {
    var m :| m in ids;
    var others := ids - {m};
    assert forall x :: x in ids ==> x == m || x in others;
    if others != {} {
      GreatestExists(others);
      var k :| k in others && forall x :: x in others ==> x <= k;
      var top := if k < m then m else k;
      assert top in ids;
    }
  }

  function Greatest(ids: set<Id>): (m: Id)
    requires ids != {}
    ensures m in ids && forall x :: x in ids ==> x <= m
  {
    GreatestExists(ids);
    var m :| m in ids && forall x :: x in ids ==> x <= m;
    m
  }

  function Newest(ids: set<Id>, limit: nat): seq<Id> {
    if ids == {} || limit == 0 then []
    else [Greatest(ids)] + Newest(ids - {Greatest(ids)}, limit - 1)
  }

  predicate Descending(ids: seq<Id>) {
    forall i, j :: 0 <= i < j < |ids| ==> ids[i] > ids[j]
  }

  /** `page` is the part of `ids` from its last id up, in descending order. */
  predicate IsTop(page: seq<Id>, ids: set<Id>, limit: nat) {
    && Descending(page)
    && |page| == (if |ids| <= limit then |ids| else limit)
    && (forall x :: x in page ==> x in ids)
    && (forall x :: x in ids ==> (x in page <==> |ids| <= limit || (page != [] && x >= page[|page| - 1])))
  }

  lemma TopExtends(m: Id, rest: seq<Id>, ids: set<Id>, limit: nat)
    requires m in ids && limit > 0 && (forall x :: x in ids ==> x <= m)
    requires IsTop(rest, ids - {m}, limit - 1)
    ensures IsTop([m] + rest, ids, limit)
  {
    var page := [m] + rest;
    assert |ids - {m}| == |ids| - 1;
    forall i, j | 0 <= i < j < |page| ensures page[i] > page[j] {
      assert rest[j - 1] in rest;
    }
    forall x | x in ids
      ensures x in page <==> |ids| <= limit || x >= page[|page| - 1]
    {
      assert x in page <==> x == m || x in rest;
      assert x != m ==> x in ids - {m};
      assert rest != [] ==> page[|page| - 1] == rest[|rest| - 1] && rest[|rest| - 1] in rest;
    }
  }

  /** What ordering and limiting mean. */
  lemma {:induction false} NewestIsTheTop(ids: set<Id>, limit: nat)
    ensures IsTop(Newest(ids, limit), ids, limit)
  {
    if ids != {} && limit != 0 {
      var m := Greatest(ids);
      NewestIsTheTop(ids - {m}, limit - 1);
      TopExtends(m, Newest(ids - {m}, limit - 1), ids, limit);
    }
  }

  lemma {:induction false} OneExtraRow(ids: set<Id>, limit: nat)
    ensures |ids| <= limit ==> Newest(ids, limit + 1) == Newest(ids, limit)
    ensures |ids| > limit ==>
      |Newest(ids, limit + 1)| == limit + 1 && Newest(ids, limit + 1)[..limit] == Newest(ids, limit)
    decreases limit
  {
    if ids != {} && limit != 0 {
      OneExtraRow(ids - {Greatest(ids)}, limit - 1);
    }
  }

  function RowsOf(table: Table, ids: seq<Id>): seq<Row>
    requires forall id :: id in ids ==> id in table
  {
    seq(|ids|, i requires 0 <= i < |ids| => Row(ids[i], table[ids[i]]))
  }

  /** The page a reader gets: the newest rows below the cursor, whether older
      ones exist, and the cursor for those. */
  ghost predicate IsPage(page: Page, table: Table, channel: string, before: Option<Id>, limit: nat) {
    var ids := Newest(Older(table, channel, before), limit);
    && |page.rows| == |ids|
    && (forall i :: 0 <= i < |ids| ==> page.rows[i].id == ids[i])
    && (forall i :: 0 <= i < |ids| ==> ids[i] in table && page.rows[i].message == table[ids[i]])
    && (page.hasMore <==> |Older(table, channel, before)| > limit)
    && page.nextBefore == (if page.hasMore && ids != [] then Some(ids[|ids| - 1]) else None)
  }

  /** The rows that filtering, sorting and taking yields. */
  predicate IsQuery(rows: seq<Row>, table: Table, channel: string, before: Option<Id>, limit: nat) {
    var ids := Newest(Older(table, channel, before), limit);
    && |rows| == |ids|
    && forall i :: 0 <= i < |ids| ==> ids[i] in table && rows[i] == Row(ids[i], table[ids[i]])
  }

  class GuildChannelRepository {
    var messages: Table

    constructor ()
      ensures messages == map[]
    {
      messages := map[];
    }

    /** `id` comes from the database default, so it is new. */
    method CreateMessage(id: Id, message: Message)
      requires id !in messages
      modifies this
      ensures messages == old(messages)[id := message]
    {
      messages := messages[id := message];
    }

    method UpdateMessageContent(channel: string, id: Id, content: string) returns (r: Result<(), Error>)
      modifies this
      ensures var found := id in old(messages) && old(messages)[id].channel == channel;
        && (r.Ok? <==> found)
        && (r.Err? ==> r.error == MessageNotFound && messages == old(messages))
        && (found ==> messages == old(messages)[id := old(messages)[id].(content := content)])
    {
      if id !in messages || messages[id].channel != channel {
        return Err(MessageNotFound);
      }
      messages := messages[id := messages[id].(content := content)];
      return Ok(());
    }

    method DeleteMessage(channel: string, id: Id) returns (r: Result<(), Error>)
      modifies this
      ensures var found := id in old(messages) && old(messages)[id].channel == channel;
        && (r.Ok? <==> found)
        && (r.Err? ==> r.error == MessageNotFound && messages == old(messages))
        && (found ==> messages == old(messages) - {id})
    {
      if id !in messages || messages[id].channel != channel {
        return Err(MessageNotFound);
      }
      messages := messages - {id};
      return Ok(());
    }

    /** The query: filter, sort, take. */
    function ListMessages(channel: string, before: Option<Id>, limit: nat): (rows: seq<Row>)
      reads this
      ensures IsQuery(rows, messages, channel, before, limit)
    {
      var ids := Older(messages, channel, before);
      NewestIsTheTop(ids, limit);
      RowsOf(messages, Newest(ids, limit))
    }
  }

  lemma FullPage(rows: seq<Row>, table: Table, channel: string, before: Option<Id>, limit: nat)
    requires limit > 0 && IsQuery(rows, table, channel, before, limit + 1) && |rows| > limit
    ensures IsPage(Page(rows[..limit], true, Some(rows[limit - 1].id)), table, channel, before, limit)
  {
    var ids := Older(table, channel, before);
    var longer, shown := Newest(ids, limit + 1), Newest(ids, limit);
    OneExtraRow(ids, limit);
    NewestIsTheTop(ids, limit + 1);
    assert |shown| == limit && forall i :: 0 <= i < limit ==> shown[i] == longer[i];
  }

  lemma LastPage(rows: seq<Row>, table: Table, channel: string, before: Option<Id>, limit: nat)
    requires limit > 0 && IsQuery(rows, table, channel, before, limit + 1) && |rows| <= limit
    ensures IsPage(Page(rows, false, None), table, channel, before, limit)
  {
    OneExtraRow(Older(table, channel, before), limit);
  }

  lemma ExtraRowMakesPage(rows: seq<Row>, table: Table, channel: string, before: Option<Id>, limit: nat)
    requires limit > 0 && IsQuery(rows, table, channel, before, limit + 1)
    ensures IsPage(
      if |rows| > limit then Page(rows[..limit], true, Some(rows[limit - 1].id)) else Page(rows, false, None),
      table, channel, before, limit)
  {
    if |rows| > limit {
      FullPage(rows, table, channel, before, limit);
    } else {
      LastPage(rows, table, channel, before, limit);
    }
  }

  /** The service: one row more than asked for tells whether an older page exists. */
  method ListMessages(
    repo: GuildChannelRepository, channel: string, access: Result<(), Error>, before: Cursor, limit: nat)
    returns (r: Result<Page, Error>)
    requires 1 <= limit <= 100
    ensures before.Malformed? ==> r == Err(InvalidMessageCursor)
    ensures !before.Malformed? && access.Err? ==> r == Err(access.error)
    ensures !before.Malformed? && access.Ok? ==>
      && r.Ok?
      && IsPage(r.value, repo.messages, channel, if before.Before? then Some(before.id) else None, limit)
  {
    if before.Malformed? {
      return Err(InvalidMessageCursor);
    }
    if access.Err? {
      return Err(access.error);
    }
    var cursor := if before.Before? then Some(before.id) else None;
    var messages := repo.ListMessages(channel, cursor, limit + 1);
    ExtraRowMakesPage(messages, repo.messages, channel, cursor, limit);
    if |messages| > limit {
      messages := messages[..limit];
      return Ok(Page(messages, true, Some(messages[|messages| - 1].id)));
    }
    return Ok(Page(messages, false, None));
  }

  // ----- A reader walking back through a changing channel -----

  datatype Walk = Walk(
    table: Table,
    issued: Id,          // every id handed out so far is below this
    cursor: Option<Id>,  // the last page's next_before
    done: bool,          // the last page said there is no more
    seen: seq<Id>)       // ids returned so far, in order

  datatype Event =
    | Create(id: Id, message: Message)
    | Edit(id: Id, content: string)
    | Delete(id: Id)
    | Fetch(limit: nat)

  predicate Enabled(walk: Walk, event: Event) {
    match event
    case Create(id, _) => id !in walk.table
    case Edit(id, _) => id in walk.table
    case Delete(id) => true
    case Fetch(limit) => !walk.done && 1 <= limit <= 100
  }

  function Fetched(channel: string, walk: Walk, limit: nat): Walk {
    var ids := Older(walk.table, channel, walk.cursor);
    var page := Newest(ids, limit);
    if |ids| > limit && page != [] then
      walk.(seen := walk.seen + page, cursor := Some(page[|page| - 1]))
    else
      walk.(seen := walk.seen + page, done := true)
  }

  function Apply(channel: string, walk: Walk, event: Event): Walk
    requires Enabled(walk, event)
  {
    match event
    case Create(id, message) =>
      walk.(table := walk.table[id := message], issued := if id < walk.issued then walk.issued else id + 1)
    case Edit(id, content) =>
      walk.(table := walk.table[id := walk.table[id].(content := content)])
    case Delete(id) =>
      walk.(table := walk.table - {id})
    case Fetch(limit) => Fetched(channel, walk, limit)
  }

  /** Fetching is what the service does with the walk's cursor. */
  lemma FetchIsListMessages(channel: string, walk: Walk, limit: nat, page: Page)
    requires Enabled(walk, Fetch(limit)) && IsPage(page, walk.table, channel, walk.cursor, limit)
    ensures var next := Apply(channel, walk, Fetch(limit));
      && |next.seen| == |walk.seen| + |page.rows|
      && next.seen[..|walk.seen|] == walk.seen
      && (forall i :: 0 <= i < |page.rows| ==> next.seen[|walk.seen| + i] == page.rows[i].id)
      && next.done == !page.hasMore
      && (page.hasMore ==> page.nextBefore.Some? && next.cursor == page.nextBefore)
  {
    NewestIsTheTop(Older(walk.table, channel, walk.cursor), limit);
  }

  ghost predicate Runs(channel: string, walk: Walk, events: seq<Event>)
    decreases |events|, 0
  {
    events == [] ||
    (var n := |events| - 1;
     Runs(channel, walk, events[..n]) && Enabled(After(channel, walk, events[..n]), events[n]))
  }

  ghost function After(channel: string, walk: Walk, events: seq<Event>): Walk
    requires Runs(channel, walk, events)
    decreases |events|, 1
  {
    if events == [] then walk
    else Apply(channel, After(channel, walk, events[..|events| - 1]), events[|events| - 1])
  }

  predicate Starts(walk: Walk) {
    walk.cursor.None? && !walk.done && walk.seen == [] && forall id :: id in walk.table ==> id < walk.issued
  }

  predicate InChannel(table: Table, channel: string, id: Id) {
    id in table && table[id].channel == channel
  }

  /** In the channel at the start and after every event. */
  ghost predicate PresentThroughout(channel: string, walk: Walk, events: seq<Event>, id: Id)
    requires Runs(channel, walk, events)
  {
    && InChannel(walk.table, channel, id)
    && (events == [] || PresentThroughout(channel, walk, events[..|events| - 1], id))
    && InChannel(After(channel, walk, events).table, channel, id)
  }

  /** The walk has returned everything from the cursor up, and nothing below it. */
  predicate Orderly(walk: Walk) {
    && Descending(walk.seen)
    && (walk.cursor.Some? ==> walk.seen != [])
    && (walk.cursor.None? && !walk.done ==> walk.seen == [])
    && (walk.cursor.Some? && !walk.done ==> walk.cursor.value == walk.seen[|walk.seen| - 1])
  }

  lemma FetchKeepsOrder(channel: string, walk: Walk, limit: nat)
    requires Enabled(walk, Fetch(limit)) && Orderly(walk)
    ensures Orderly(Fetched(channel, walk, limit))
  {
    var ids := Older(walk.table, channel, walk.cursor);
    var page := Newest(ids, limit);
    NewestIsTheTop(ids, limit);
    assert forall j :: 0 <= j < |page| ==> page[j] in page && page[j] in ids;
  }

  /** Ids are returned in strictly descending order, so none is returned twice. */
  lemma {:induction false} WalkDescends(channel: string, walk: Walk, events: seq<Event>)
    requires Starts(walk) && Runs(channel, walk, events)
    ensures Orderly(After(channel, walk, events))
  {
    if events != [] {
      var n := |events| - 1;
      WalkDescends(channel, walk, events[..n]);
      if events[n].Fetch? {
        FetchKeepsOrder(channel, After(channel, walk, events[..n]), events[n].limit);
      }
    }
  }

  predicate Passed(walk: Walk, id: Id) {
    walk.done || (walk.cursor.Some? && id >= walk.cursor.value)
  }

  lemma FetchPasses(channel: string, walk: Walk, limit: nat, id: Id)
    requires Enabled(walk, Fetch(limit)) && Orderly(walk)
    requires InChannel(walk.table, channel, id)
    requires id in walk.seen <==> Passed(walk, id)
    ensures id in Fetched(channel, walk, limit).seen <==> Passed(Fetched(channel, walk, limit), id)
  {
    NewestIsTheTop(Older(walk.table, channel, walk.cursor), limit);
  }

  /** A message that stays in the channel is returned iff the walk has passed it;
      once the walk is done, every such message has been returned, exactly once. */
  lemma {:induction false} StayersAreReturned(channel: string, walk: Walk, events: seq<Event>, id: Id)
    requires Starts(walk) && Runs(channel, walk, events)
    requires PresentThroughout(channel, walk, events, id)
    ensures id in After(channel, walk, events).seen <==> Passed(After(channel, walk, events), id)
  {
    if events != [] {
      var n := |events| - 1;
      StayersAreReturned(channel, walk, events[..n], id);
      if events[n].Fetch? {
        WalkDescends(channel, walk, events[..n]);
        FetchPasses(channel, After(channel, walk, events[..n]), events[n].limit, id);
      }
    }
  }

  function Items(ids: seq<Id>): set<Id> {
    set id | id in ids
  }

  lemma {:induction false} ItemsOfDescending(ids: seq<Id>)
    requires Descending(ids)
    ensures |Items(ids)| == |ids|
  {
    if ids != [] {
      ItemsOfDescending(ids[1..]);
      assert Items(ids) == {ids[0]} + Items(ids[1..]);
    }
  }

  lemma SubsetSize(a: set<Id>, b: set<Id>)
    requires a <= b
    ensures |b - a| == |b| - |a|
  {
    assert b == a + (b - a);
  }

  lemma LastIsLeast(ids: seq<Id>, x: Id)
    requires Descending(ids) && x in ids
    ensures x >= ids[|ids| - 1]
  {
  }

  lemma BelowTheTop(page: seq<Id>, ids: set<Id>, limit: nat)
    requires limit > 0 && IsTop(page, ids, limit)
    ensures page == [] ==> ids == {}
    ensures page != [] ==> (|ids| > limit <==> exists x :: x in ids && x < page[|page| - 1])
  {
    if |ids| > limit {
      ItemsOfDescending(page);
      SubsetSize(Items(page), ids);
      var x :| x in ids - Items(page);
      assert x in ids && x !in page;
    } else if page != [] {
      forall x | x in ids ensures x >= page[|page| - 1] {
        LastIsLeast(page, x);
      }
    }
  }

  /** `has_more` is exact: set iff the channel holds a row older than the page. */
  lemma MoreIffOlderRemain(page: Page, table: Table, channel: string, before: Option<Id>, limit: nat)
    requires limit > 0 && IsPage(page, table, channel, before, limit)
    ensures page.hasMore <==>
      page.rows != [] && Older(table, channel, Some(page.rows[|page.rows| - 1].id)) != {}
  {
    var ids := Older(table, channel, before);
    var shown := Newest(ids, limit);
    NewestIsTheTop(ids, limit);
    BelowTheTop(shown, ids, limit);
    if shown != [] {
      var last := shown[|shown| - 1];
      assert page.rows[|page.rows| - 1].id == last && last in ids;
      forall x
        ensures x in Older(table, channel, Some(last)) <==> x in ids && x < last
      {
      }
    }
  }

  predicate Shown(page: Page, id: Id) {
    exists i :: 0 <= i < |page.rows| && page.rows[i].id == id
  }

  /** A page shows messages of the channel below the cursor and no others, newest
      first, leaving none out but, when there are more, older ones that the next
      cursor admits. */
  lemma PageIsOfTheChannel(page: Page, table: Table, channel: string, before: Option<Id>, limit: nat)
    requires limit > 0 && IsPage(page, table, channel, before, limit)
    ensures forall i :: 0 <= i < |page.rows| ==>
      var row := page.rows[i];
      InChannel(table, channel, row.id) && (before.Some? ==> row.id < before.value) && row.message == table[row.id]
    ensures forall i, j :: 0 <= i < j < |page.rows| ==> page.rows[i].id > page.rows[j].id
    ensures |page.rows| <= limit && (page.hasMore <==> page.nextBefore.Some?)
    ensures forall id: Id :: InChannel(table, channel, id) && (before.Some? ==> id < before.value) ==>
      Shown(page, id) || (page.hasMore && id < page.nextBefore.value)
    ensures page.hasMore ==> exists id: Id :: InChannel(table, channel, id) && id < page.nextBefore.value
  {
    var ids := Older(table, channel, before);
    var shown := Newest(ids, limit);
    NewestIsTheTop(ids, limit);
    BelowTheTop(shown, ids, limit);
    forall i | 0 <= i < |page.rows| ensures page.rows[i].id == shown[i] && shown[i] in ids {
      assert shown[i] in shown;
    }
    forall id | id in ids ensures Shown(page, id) || (page.hasMore && id < page.nextBefore.value) {
      if id in shown {
        var i :| 0 <= i < |shown| && shown[i] == id;
        assert page.rows[i].id == id;
      }
    }
    if page.hasMore {
      var x :| x in ids && x < shown[|shown| - 1];
      assert InChannel(table, channel, x);
    }
  }

  // ----- Arrivals do not shift the pages -----

  /** Every message created during the run has a newer id than any before it. */
  ghost predicate OnlyNewerArrive(channel: string, walk: Walk, events: seq<Event>)
    requires Runs(channel, walk, events)
  {
    events == [] ||
    (var n := |events| - 1;
     && OnlyNewerArrive(channel, walk, events[..n])
     && (events[n].Create? ==> events[n].id >= After(channel, walk, events[..n]).issued))
  }

  predicate CursorIsOld(walk: Walk) {
    && (walk.cursor.Some? ==> walk.cursor.value < walk.issued)
    && (forall id :: id in walk.table ==> id < walk.issued)
  }

  lemma StepKeepsCursorOld(channel: string, walk: Walk, event: Event)
    requires Enabled(walk, event) && CursorIsOld(walk)
    ensures CursorIsOld(Apply(channel, walk, event))
  {
    if event.Fetch? {
      NewestIsTheTop(Older(walk.table, channel, walk.cursor), event.limit);
    }
  }

  /** What is still to come was there when the walk began. */
  predicate Snapshot(channel: string, start: Walk, walk: Walk) {
    && CursorIsOld(walk)
    && (walk.done || walk.cursor.Some?)
    && Items(walk.seen) <= Older(start.table, channel, None)
    && (!walk.done ==> Older(walk.table, channel, walk.cursor) <= Older(start.table, channel, None))
  }

  lemma StepKeepsSnapshot(channel: string, start: Walk, walk: Walk, event: Event)
    requires Snapshot(channel, start, walk) && Enabled(walk, event)
    requires event.Create? ==> event.id >= walk.issued
    ensures Snapshot(channel, start, Apply(channel, walk, event))
  {
    StepKeepsCursorOld(channel, walk, event);
    if event.Fetch? {
      NewestIsTheTop(Older(walk.table, channel, walk.cursor), event.limit);
    }
  }

  lemma FirstPageIsSnapshot(channel: string, start: Walk, limit: nat)
    requires Starts(start) && Enabled(start, Fetch(limit))
    ensures Snapshot(channel, start, Apply(channel, start, Fetch(limit)))
  {
    StepKeepsCursorOld(channel, start, Fetch(limit));
    NewestIsTheTop(Older(start.table, channel, None), limit);
  }

  /** Messages posted after the first page was read never enter the walk. */
  lemma {:induction false} ArrivalsDoNotShiftPages(channel: string, start: Walk, events: seq<Event>)
    requires Starts(start) && Runs(channel, start, events)
    requires events != [] && events[0].Fetch? && OnlyNewerArrive(channel, start, events)
    ensures Snapshot(channel, start, After(channel, start, events))
  {
    var n := |events| - 1;
    if n == 0 {
      assert events == [Fetch(events[0].limit)];
      assert events[..0] == [];
      FirstPageIsSnapshot(channel, start, events[0].limit);
    } else {
      ArrivalsDoNotShiftPages(channel, start, events[..n]);
      StepKeepsSnapshot(channel, start, After(channel, start, events[..n]), events[n]);
    }
  }

  // ----- Termination -----

  function Remaining(channel: string, walk: Walk): nat {
    if walk.done then 0 else 1 + |Older(walk.table, channel, walk.cursor)|
  }

  lemma Shrinks(a: set<Id>, b: set<Id>)
    requires a <= b
    ensures |a| <= |b|
    ensures a != b ==> |a| < |b|
  {
    SubsetSize(a, b);
    assert a != b ==> b - a != {};
  }

  /** Once the first page is read, each fetch brings the end closer and nothing moves it away. */
  lemma StepGetsCloser(channel: string, walk: Walk, event: Event)
    requires Enabled(walk, event) && CursorIsOld(walk) && walk.cursor.Some?
    requires event.Create? ==> event.id >= walk.issued
    ensures var next := Apply(channel, walk, event);
      Remaining(channel, next) + (if event.Fetch? then 1 else 0) <= Remaining(channel, walk)
  {
    var next := Apply(channel, walk, event);
    var ids := Older(walk.table, channel, walk.cursor);
    if event.Fetch? {
      NewestIsTheTop(ids, event.limit);
      var page := Newest(ids, event.limit);
      if !next.done {
        assert page[|page| - 1] in ids && page[|page| - 1] !in Older(next.table, channel, next.cursor);
        Shrinks(Older(next.table, channel, next.cursor), ids);
      }
    } else {
      Shrinks(Older(next.table, channel, next.cursor), ids);
    }
  }

  function Fetches(events: seq<Event>): nat {
    if events == [] then 0 else Fetches(events[..|events| - 1]) + if events[|events| - 1].Fetch? then 1 else 0
  }

  /** However the channel changes, the rest of a walk is at most one fetch per row below its cursor, and one more. */
  lemma {:induction false} WalkIsBounded(channel: string, walk: Walk, events: seq<Event>)
    requires Runs(channel, walk, events) && CursorIsOld(walk) && walk.cursor.Some?
    requires OnlyNewerArrive(channel, walk, events)
    ensures var after := After(channel, walk, events);
      && CursorIsOld(after) && after.cursor.Some?
      && Fetches(events) + Remaining(channel, after) <= Remaining(channel, walk)
  {
    if events != [] {
      var n := |events| - 1;
      WalkIsBounded(channel, walk, events[..n]);
      var before := After(channel, walk, events[..n]);
      StepKeepsCursorOld(channel, before, events[n]);
      StepGetsCloser(channel, before, events[n]);
    }
  }
}
