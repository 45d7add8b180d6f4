/** The in-memory fixed-window limiter (internal/middleware/rate_limit.go): a
    table with a cap and eviction, against a reference that looks at one
    identifier's own requests and never forgets. Times are nanoseconds. */
module RateLimit {
  import opened Wrappers

  const MAX_TRACKED_VISITORS: nat := 10_000
  const SECOND: int := 1_000_000_000

  datatype Limits = Limits(max: int, window: int)
  datatype Visitor = Visitor(count: int, windowEnds: int)
  datatype Hit = Hit(identifier: string, now: int)

  type Table = map<string, Visitor>

  // ----- One request -----

  function Lookup(table: Table, identifier: string): Option<Visitor> {
    if identifier in table then Some(table[identifier]) else None
  }

  predicate Expired(visitor: Visitor, now: int) {
    visitor.windowEnds <= now
  }

  predicate Grants(limits: Limits, visitor: Option<Visitor>, now: int) {
    visitor.None? || Expired(visitor.value, now) || visitor.value.count < limits.max
  }

  /** What is known of a visitor after its request at `now`. */
  function Counted(limits: Limits, visitor: Option<Visitor>, now: int): Visitor {
    if visitor.None? || Expired(visitor.value, now) then Visitor(1, now + limits.window)
    else if visitor.value.count < limits.max then visitor.value.(count := visitor.value.count + 1)
    else visitor.value
  }

  function Unexpired(table: Table, now: int): Table {
    map identifier | identifier in table && !Expired(table[identifier], now) :: table[identifier]
  }

  /** The table a newcomer finds: swept first if it is full. */
  function Swept(table: Table, now: int): Table {
    if |table| >= MAX_TRACKED_VISITORS then Unexpired(table, now) else table
  }

  /** A newcomer is let through uncounted because the table is full of live visitors. */
  predicate Untracked(table: Table, hit: Hit) {
    hit.identifier !in table && |Swept(table, hit.now)| >= MAX_TRACKED_VISITORS
  }

  function After(limits: Limits, table: Table, hit: Hit): Table {
    var counted := Counted(limits, Lookup(table, hit.identifier), hit.now);
    if hit.identifier in table then table[hit.identifier := counted]
    else if Untracked(table, hit) then Swept(table, hit.now)
    else Swept(table, hit.now)[hit.identifier := counted]
  }

  /** The whole seconds promised in the Retry-After header. */
  function HeaderSeconds(retryAfter: int): int
    requires retryAfter > 0
  {
    if retryAfter / SECOND > 1 then retryAfter / SECOND else 1
  }

  class FixedWindowStore {
    var visitors: Table

    constructor ()
      ensures visitors == map[]
    {
      visitors := map[];
    }

    method Cleanup(now: int)
      modifies this
      ensures visitors == Unexpired(old(visitors), now)
    {
      var rest := visitors.Keys;
      while rest != {}
        invariant rest <= visitors.Keys
        invariant visitors == map id | id in old(visitors) && (id in rest || !Expired(old(visitors)[id], now))
                                  :: old(visitors)[id]
        decreases |rest|
      {
        var identifier :| identifier in rest;
        rest := rest - {identifier};
        if visitors[identifier].windowEnds <= now {
          visitors := visitors - {identifier};
        }
      }
    }

    method AdmitLocked(identifier: string, now: int, window: int)
      requires identifier !in visitors
      modifies this
      ensures visitors ==
        if Untracked(old(visitors), Hit(identifier, now)) then Swept(old(visitors), now)
        else Swept(old(visitors), now)[identifier := Visitor(1, now + window)]
    {
      if |visitors| >= MAX_TRACKED_VISITORS {
        Cleanup(now);
      }
      if |visitors| >= MAX_TRACKED_VISITORS {
        return;
      }
      visitors := visitors[identifier := Visitor(1, now + window)];
    }

    method Allow(identifier: string, limits: Limits, now: int) returns (allowed: bool, retryAfter: int)
      modifies this
      ensures visitors == After(limits, old(visitors), Hit(identifier, now))
      ensures allowed <==> Grants(limits, Lookup(old(visitors), identifier), now)
      ensures retryAfter == if allowed then 0 else old(visitors)[identifier].windowEnds - now
      ensures var before := old(visitors);
        var known := identifier in before && now < before[identifier].windowEnds;
        && (!known ==> allowed && (identifier in visitors ==> visitors[identifier] == Visitor(1, now + limits.window)))
        && (known && allowed ==>
          visitors == before[identifier := Visitor(before[identifier].count + 1, before[identifier].windowEnds)])
        && (known && !allowed ==> visitors == before && retryAfter > 0)
    {
      var ok := identifier in visitors;
      if !ok || visitors[identifier].windowEnds <= now {
        if !ok {
          AdmitLocked(identifier, now, limits.window);
        } else {
          visitors := visitors[identifier := Visitor(1, now + limits.window)];
        }
        return true, 0;
      }
      var visitor := visitors[identifier];
      if visitor.count >= limits.max {
        return false, visitor.windowEnds - now;
      }
      visitors := visitors[identifier := visitor.(count := visitor.count + 1)];
      return true, 0;
    }

    /** The middleware: None hands the request on, Some is a refusal with its header. */
    method Handle(identifier: string, limits: Limits, now: int) returns (refusal: Option<int>)
      modifies this
      ensures limits.max <= 0 || limits.window <= 0 ==> refusal.None? && visitors == old(visitors)
      ensures limits.max > 0 && limits.window > 0 ==>
        && visitors == After(limits, old(visitors), Hit(identifier, now))
        && (refusal.None? <==> Grants(limits, Lookup(old(visitors), identifier), now))
        && (refusal.Some? ==>
          refusal.value == HeaderSeconds(old(visitors)[identifier].windowEnds - now))
    {
      if limits.max <= 0 || limits.window <= 0 {
        return None;
      }
      var allowed, retryAfter := Allow(identifier, limits, now);
      if !allowed {
        var seconds := retryAfter / SECOND;
        return Some(if seconds > 1 then seconds else 1);
      }
      return None;
    }
  }

  // ----- Runs -----

  predicate Monotone(hits: seq<Hit>) {
    forall i, j :: 0 <= i < j < |hits| ==> hits[i].now <= hits[j].now
  }

  /** The table after serving all of `hits`, starting empty. */
  function TableAfter(limits: Limits, hits: seq<Hit>): Table {
    if hits == [] then map[]
    else After(limits, TableAfter(limits, hits[..|hits| - 1]), hits[|hits| - 1])
  }

  /** The answer to request `i` of the run. */
  predicate Granted(limits: Limits, hits: seq<Hit>, i: nat)
    requires i < |hits|
  {
    Grants(limits, Lookup(TableAfter(limits, hits[..i]), hits[i].identifier), hits[i].now)
  }

  /** No request of `identifier` was let through untracked. */
  predicate AlwaysTracked(limits: Limits, hits: seq<Hit>, identifier: string) {
    forall i :: 0 <= i < |hits| && hits[i].identifier == identifier ==>
      !Untracked(TableAfter(limits, hits[..i]), hits[i])
  }

  /** The reference: an identifier's current window, from its own requests only. */
  function Window(limits: Limits, hits: seq<Hit>, identifier: string): Option<Visitor> {
    if hits == [] then None
    else
      var before := Window(limits, hits[..|hits| - 1], identifier);
      var last := hits[|hits| - 1];
      if last.identifier == identifier then Some(Counted(limits, before, last.now)) else before
  }

  predicate GrantedByWindow(limits: Limits, hits: seq<Hit>, i: nat)
    requires i < |hits|
  {
    Grants(limits, Window(limits, hits[..i], hits[i].identifier), hits[i].now)
  }

  /** The map never exceeds its cap. */
  lemma {:induction false} TableIsBounded(limits: Limits, hits: seq<Hit>)
    ensures |TableAfter(limits, hits)| <= MAX_TRACKED_VISITORS
  {
    if hits != [] {
      var before := TableAfter(limits, hits[..|hits| - 1]);
      var hit := hits[|hits| - 1];
      TableIsBounded(limits, hits[..|hits| - 1]);
      assert Unexpired(before, hit.now).Keys <= before.Keys;
      CardinalityOfSubset(Unexpired(before, hit.now).Keys, before.Keys);
      if hit.identifier in before {
        assert After(limits, before, hit).Keys == before.Keys;
      }
    }
  }

  lemma {:induction false} CardinalityOfSubset<T>(a: set<T>, b: set<T>)
    requires a <= b
    ensures |a| <= |b|
    decreases b
  {
    if b != {} {
      var x :| x in b;
      CardinalityOfSubset(a - {x}, b - {x});
    }
  }

  /** The table holds the reference's window, or has dropped an expired one. */
  predicate Agrees(entry: Option<Visitor>, window: Option<Visitor>, now: int) {
    entry == window || (entry.None? && Expired(window.value, now))
  }

  /** Other identifiers' requests never touch a live window. */
  lemma {:induction false} TableAgrees(limits: Limits, hits: seq<Hit>, identifier: string, now: int)
    requires Monotone(hits) && (hits != [] ==> hits[|hits| - 1].now <= now)
    requires AlwaysTracked(limits, hits, identifier)
    ensures Agrees(Lookup(TableAfter(limits, hits), identifier), Window(limits, hits, identifier), now)
  {
    if hits != [] {
      var init, last := hits[..|hits| - 1], hits[|hits| - 1];
      assert forall i :: 0 <= i < |init| ==> init[..i] == hits[..i];
      TableAgrees(limits, init, identifier, last.now);
    }
  }

  /** Whatever the others do, and however often the table is swept, a visitor who
      is always tracked gets the reference's answers. */
  lemma CappedAnswersLikeUnbounded(limits: Limits, hits: seq<Hit>, i: nat)
    requires i < |hits| && Monotone(hits)
    requires AlwaysTracked(limits, hits[..i], hits[i].identifier)
    ensures Granted(limits, hits, i) <==> GrantedByWindow(limits, hits, i)
  {
    TableAgrees(limits, hits[..i], hits[i].identifier, hits[i].now);
  }

  // ----- What a window is -----

  /** The request that opened the identifier's last window: its first one, or its
      first at or after the end of the window before. Only the times count. */
  function Opener(window: int, hits: seq<Hit>, identifier: string): (opener: Option<nat>)
    ensures opener.Some? ==> opener.value < |hits| && hits[opener.value].identifier == identifier
  {
    if hits == [] then None
    else
      var n := |hits| - 1;
      var before := Opener(window, hits[..n], identifier);
      if hits[n].identifier != identifier then before
      else if before.None? || hits[n].now >= hits[before.value].now + window then Some(n)
      else before
  }

  /** How many of the requests `from` to `end - 1` were the identifier's and granted. */
  function GrantedAmong(limits: Limits, hits: seq<Hit>, identifier: string, from: nat, end: nat): nat
    requires end <= |hits|
    decreases end
  {
    if end <= from then 0
    else
      GrantedAmong(limits, hits, identifier, from, end - 1) +
      if hits[end - 1].identifier == identifier && Granted(limits, hits, end - 1) then 1 else 0
  }

  lemma {:induction false} GrantedAmongPrefix(
    limits: Limits, hits: seq<Hit>, n: nat, identifier: string, from: nat, end: nat)
    requires end <= n <= |hits|
    ensures GrantedAmong(limits, hits[..n], identifier, from, end) == GrantedAmong(limits, hits, identifier, from, end)
    decreases end
  {
    if from < end {
      GrantedAmongPrefix(limits, hits, n, identifier, from, end - 1);
      assert hits[..n][..end - 1] == hits[..end - 1];
    }
  }

  /** The time since the opener, with the grants since then. */
  function SinceOpener(limits: Limits, hits: seq<Hit>, identifier: string): Option<Visitor> {
    match Opener(limits.window, hits, identifier)
    case None => None
    case Some(opener) =>
      Some(Visitor(GrantedAmong(limits, hits, identifier, opener, |hits|), hits[opener].now + limits.window))
  }

  lemma SinceOpenerStep(limits: Limits, hits: seq<Hit>, identifier: string)
    requires hits != []
    ensures var n := |hits| - 1; var before := SinceOpener(limits, hits[..n], identifier);
      if hits[n].identifier != identifier then SinceOpener(limits, hits, identifier) == before
      else (Granted(limits, hits, n) <==> Grants(limits, before, hits[n].now)) ==>
        SinceOpener(limits, hits, identifier) == Some(Counted(limits, before, hits[n].now))
  {
    var n := |hits| - 1;
    assert GrantedAmong(limits, hits, identifier, n, n) == 0;
    match Opener(limits.window, hits[..n], identifier) {
      case None =>
      case Some(opener) => GrantedAmongPrefix(limits, hits, n, identifier, opener, n);
    }
  }

  lemma {:induction false} WindowIsItsOpener(limits: Limits, hits: seq<Hit>, identifier: string)
    requires Monotone(hits) && AlwaysTracked(limits, hits, identifier)
    ensures Window(limits, hits, identifier) == SinceOpener(limits, hits, identifier)
  {
    if hits != [] {
      var n := |hits| - 1;
      assert forall i :: 0 <= i < n ==> hits[..n][..i] == hits[..i];
      WindowIsItsOpener(limits, hits[..n], identifier);
      SinceOpenerStep(limits, hits, identifier);
      if hits[n].identifier == identifier {
        CappedAnswersLikeUnbounded(limits, hits, n);
      }
    }
  }

  /** A visitor who is always tracked is let in iff the request opens a window or
      fewer than `max` of its requests were granted since the one that opened the
      current window; a refusal names the time until that window's end. */
  lemma GrantedIffRoomInWindow(limits: Limits, hits: seq<Hit>, i: nat)
    requires i < |hits| && Monotone(hits)
    requires AlwaysTracked(limits, hits[..i], hits[i].identifier)
    ensures var who, table := hits[i].identifier, TableAfter(limits, hits[..i]);
      var opener := Opener(limits.window, hits[..i + 1], who);
      && opener.Some?
      && var granted := GrantedAmong(limits, hits, who, opener.value, i);
      && (Granted(limits, hits, i) <==> opener.value == i || granted < limits.max)
      && (limits.max > 0 ==> (Granted(limits, hits, i) <==> granted < limits.max))
      && (!Granted(limits, hits, i) ==>
            who in table && table[who].windowEnds == hits[opener.value].now + limits.window)
  {
    var who := hits[i].identifier;
    assert hits[..i + 1][..i] == hits[..i];
    WindowIsItsOpener(limits, hits[..i], who);
    TableAgrees(limits, hits[..i], who, hits[i].now);
    var before := Opener(limits.window, hits[..i], who);
    if before.Some? {
      GrantedAmongPrefix(limits, hits, i, who, before.value, i);
    }
  }

  lemma {:induction false} TracksOnlyVisitors(limits: Limits, hits: seq<Hit>, identifiers: set<string>)
    requires forall i :: 0 <= i < |hits| ==> hits[i].identifier in identifiers
    ensures TableAfter(limits, hits).Keys <= identifiers
  {
    if hits != [] {
      TracksOnlyVisitors(limits, hits[..|hits| - 1], identifiers);
    }
  }

  /** With at most 10,000 identifiers in play nobody goes untracked. */
  lemma FewVisitorsAreTracked(limits: Limits, hits: seq<Hit>, identifiers: set<string>, identifier: string)
    requires forall i :: 0 <= i < |hits| ==> hits[i].identifier in identifiers
    requires |identifiers| <= MAX_TRACKED_VISITORS
    ensures AlwaysTracked(limits, hits, identifier)
  {
    forall i | 0 <= i < |hits| && hits[i].identifier == identifier
      ensures !Untracked(TableAfter(limits, hits[..i]), hits[i])
    {
      var table := TableAfter(limits, hits[..i]);
      TracksOnlyVisitors(limits, hits[..i], identifiers);
      if identifier !in table {
        var swept := Swept(table, hits[i].now);
        assert swept.Keys <= identifiers - {identifier};
        CardinalityOfSubset(swept.Keys, identifiers - {identifier});
      }
    }
  }

  // ----- At most twice the limit in one window's time -----

  /** The granted requests of `identifier` with `from <= now <= to`. */
  function Grantings(limits: Limits, hits: seq<Hit>, identifier: string, from: int, to: int): nat {
    if hits == [] then 0
    else
      var n := |hits| - 1;
      Grantings(limits, hits[..n], identifier, from, to) +
      if hits[n].identifier == identifier && from <= hits[n].now <= to && Granted(limits, hits, n) then 1 else 0
  }

  /** How many grants from `from` on the current window still admits. */
  function GrantBound(limits: Limits, window: Option<Visitor>, from: int): int {
    if window.None? || window.value.windowEnds <= from then 0
    else if window.value.windowEnds - limits.window <= from then window.value.count
    else limits.max + window.value.count
  }

  lemma {:induction false} GrantsAreBounded(limits: Limits, hits: seq<Hit>, identifier: string, from: int, to: int)
    requires limits.max > 0 && limits.window > 0
    requires Monotone(hits) && AlwaysTracked(limits, hits, identifier)
    ensures var window := Window(limits, hits, identifier);
      && (window.Some? ==> 1 <= window.value.count <= limits.max)
      && (window.Some? ==> window.value.windowEnds - 2 * limits.window <= from ==>
        Grantings(limits, hits, identifier, from, to) <= GrantBound(limits, window, from))
      && (window.None? ==> Grantings(limits, hits, identifier, from, to) == 0)
  {
    if hits != [] {
      var n := |hits| - 1;
      assert forall i :: 0 <= i < n ==> hits[..n][..i] == hits[..i];
      GrantsAreBounded(limits, hits[..n], identifier, from, to);
      if hits[n].identifier == identifier {
        CappedAnswersLikeUnbounded(limits, hits, n);
      }
    }
  }

  /** No more than twice the limit is granted in any stretch of one window's length. */
  lemma {:induction false} AtMostTwiceTheLimit(
    limits: Limits, hits: seq<Hit>, identifier: string, from: int, to: int)
    requires limits.max > 0 && limits.window > 0 && to <= from + limits.window
    requires Monotone(hits) && AlwaysTracked(limits, hits, identifier)
    ensures Grantings(limits, hits, identifier, from, to) <= 2 * limits.max
  {
    if hits != [] {
      var n := |hits| - 1;
      assert forall i :: 0 <= i < n ==> hits[..n][..i] == hits[..i];
      AtMostTwiceTheLimit(limits, hits[..n], identifier, from, to);
      GrantsAreBounded(limits, hits, identifier, from, to);
      if hits[n].identifier == identifier {
        WindowStartsByNow(limits, hits, identifier);
      }
    }
  }

  lemma {:induction false} WindowStartsByNow(limits: Limits, hits: seq<Hit>, identifier: string)
    requires limits.window > 0 && Monotone(hits) && hits != []
    ensures var window := Window(limits, hits, identifier);
      window.Some? ==> window.value.windowEnds <= hits[|hits| - 1].now + limits.window
  {
    if |hits| > 1 {
      WindowStartsByNow(limits, hits[..|hits| - 1], identifier);
    }
  }

  /** `max` requests at once, and `max` more when the window ends. */
  function TwoBursts(limits: Limits, identifier: string): seq<Hit>
    requires limits.max > 0
  {
    seq(2 * limits.max, i requires 0 <= i < 2 * limits.max =>
      Hit(identifier, if i < limits.max then 0 else limits.window))
  }

  function BurstTable(limits: Limits, identifier: string, k: nat): Table {
    if k == 0 then map[]
    else if k <= limits.max then map[identifier := Visitor(k, limits.window)]
    else map[identifier := Visitor(k - limits.max, 2 * limits.window)]
  }

  lemma BurstStep(limits: Limits, identifier: string, k: nat)
    requires limits.max > 0 && limits.window > 0 && k < 2 * limits.max
    ensures var table, hit := BurstTable(limits, identifier, k), TwoBursts(limits, identifier)[k];
      && Grants(limits, Lookup(table, identifier), hit.now)
      && After(limits, table, hit) == BurstTable(limits, identifier, k + 1)
  {
  }

  lemma {:induction false} BurstsAreGranted(limits: Limits, identifier: string, k: nat)
    requires limits.max > 0 && limits.window > 0 && k <= 2 * limits.max
    ensures var hits := TwoBursts(limits, identifier)[..k];
      && Grantings(limits, hits, identifier, 0, limits.window) == k
      && TableAfter(limits, hits) == BurstTable(limits, identifier, k)
  {
    if k > 0 {
      BurstsAreGranted(limits, identifier, k - 1);
      BurstStep(limits, identifier, k - 1);
      var hits := TwoBursts(limits, identifier)[..k];
      assert hits[..k - 1] == TwoBursts(limits, identifier)[..k - 1];
      assert hits[k - 1] == TwoBursts(limits, identifier)[k - 1];
    }
  }

  /** The bound is met: two bursts at the ends of one window's time are all granted. */
  lemma TwiceTheLimitIsReached(limits: Limits, identifier: string)
    requires limits.max > 0 && limits.window > 0
    ensures Grantings(limits, TwoBursts(limits, identifier), identifier, 0, limits.window) == 2 * limits.max
  {
    BurstsAreGranted(limits, identifier, 2 * limits.max);
    var hits := TwoBursts(limits, identifier);
    assert hits[..|hits|] == hits;
  }

  // ----- Waiting -----

  /** Since a refusal whose window ends at `ends`, the entry is either still there
      or was dropped after its end. */
  predicate Waiting(table: Table, identifier: string, limits: Limits, ends: int, now: int) {
    if identifier in table then table[identifier].windowEnds == ends && table[identifier].count >= limits.max
    else ends <= now
  }

  lemma {:induction false} StillWaiting(
    limits: Limits, hits: seq<Hit>, refused: nat, identifier: string, ends: int)
    requires refused < |hits| && Monotone(hits)
    requires hits[refused].identifier == identifier && !Granted(limits, hits, refused)
    requires ends == TableAfter(limits, hits[..refused])[identifier].windowEnds
    requires forall k :: refused < k < |hits| && hits[k].identifier == identifier ==> hits[k].now < ends
    ensures Waiting(TableAfter(limits, hits), identifier, limits, ends, hits[|hits| - 1].now)
    decreases |hits|
  {
    var n := |hits| - 1;
    if refused < n {
      assert hits[..n][..refused] == hits[..refused];
      StillWaiting(limits, hits[..n], refused, identifier, ends);
    }
  }

  /** After a refusal, the visitor's next request is granted iff it has waited at
      least `retryAfter`, whatever happened in between. */
  lemma GrantedIffWaited(limits: Limits, hits: seq<Hit>, refused: nat, next: nat)
    requires refused < next < |hits| && Monotone(hits)
    requires hits[refused].identifier == hits[next].identifier && !Granted(limits, hits, refused)
    requires forall k :: refused < k < next ==> hits[k].identifier != hits[next].identifier
    ensures
      var retryAfter := TableAfter(limits, hits[..refused])[hits[refused].identifier].windowEnds - hits[refused].now;
      && retryAfter > 0
      && (Granted(limits, hits, next) <==> hits[next].now >= hits[refused].now + retryAfter)
  {
    assert hits[..next][..refused] == hits[..refused];
    var ends := TableAfter(limits, hits[..refused])[hits[refused].identifier].windowEnds;
    StillWaiting(limits, hits[..next], refused, hits[next].identifier, ends);
  }

  /** The header rounds down, so a client that waits exactly as told is let in
      iff the wait was at most a second or a whole number of seconds. */
  lemma HeaderIsEnoughIff(limits: Limits, hits: seq<Hit>, refused: nat, next: nat)
    requires refused < next < |hits| && Monotone(hits)
    requires hits[refused].identifier == hits[next].identifier && !Granted(limits, hits, refused)
    requires forall k :: refused < k < next ==> hits[k].identifier != hits[next].identifier
    ensures
      var retryAfter := TableAfter(limits, hits[..refused])[hits[refused].identifier].windowEnds - hits[refused].now;
      && retryAfter > 0
      && (hits[next].now == hits[refused].now + HeaderSeconds(retryAfter) * SECOND ==>
        (Granted(limits, hits, next) <==> retryAfter <= SECOND || retryAfter % SECOND == 0))
  {
    GrantedIffWaited(limits, hits, refused, next);
  }

  /** With one request per second and a half, the header says one second, and a
      client that waits exactly that long is refused again. */
  lemma HeaderFallsShort()
    ensures var limits, hits := Limits(1, 1_500_000_000), [Hit("a", 0), Hit("a", 0), Hit("a", SECOND)];
      && Granted(limits, hits, 0) && !Granted(limits, hits, 1) && !Granted(limits, hits, 2)
      && TableAfter(limits, hits[..1]) == map["a" := Visitor(1, 1_500_000_000)]
      && HeaderSeconds(1_500_000_000) == 1
  {
    var limits, hits := Limits(1, 1_500_000_000), [Hit("a", 0), Hit("a", 0), Hit("a", SECOND)];
    assert hits[..0] == [] && hits[..1] == [hits[0]] && [hits[0]][..0] == [];
    assert TableAfter(limits, hits[..1]) == map["a" := Visitor(1, 1_500_000_000)];
    HeaderIsEnoughIff(limits, hits, 1, 2);
  }
}
