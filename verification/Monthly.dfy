/** The month range of the holdings chart: parsed by
    internal/handler/holding_handler.go, walked by internal/service/holding_service.go.
    Amounts are reals; formatting is not modelled. */
module Monthly {
  import opened Wrappers

  const MIN_HOLDING_YEAR := 1990
  const MAX_RANGE_MONTHS := 240

  datatype Error = InvalidRange | RangeTooLarge | RepositoryFailure

  datatype YearMonth = YearMonth(year: int, month: int)

  /** Months on one line: a year later is twelve further. */
  function Index(at: YearMonth): int {
    12 * at.year + at.month
  }

  predicate IsMonth(at: YearMonth) {
    1 <= at.month <= 12
  }

  lemma IndexIsInjective(a: YearMonth, b: YearMonth)
    requires IsMonth(a) && IsMonth(b)
    ensures Index(a) == Index(b) <==> a == b
    ensures Index(a) < Index(b) <==> a.year < b.year || (a.year == b.year && a.month < b.month)
  {
  }

  // ----- The query -----

  /** `latest` is the start of the query, `oldest` its end. */
  datatype Query = Query(latest: YearMonth, oldest: YearMonth)

  /** A query parameter: missing, not an integer, or an integer. */
  datatype Param = Absent | NotANumber | Number(value: int)

  datatype Params = Params(startMonth: Param, startYear: Param, endMonth: Param, endYear: Param)

  predicate ValidMonth(p: Param) {
    p.Number? && 1 <= p.value <= 12
  }

  /** A bad month is ignored; a bad year is refused. */
  predicate BadYear(p: Param, thisYear: int) {
    p.NotANumber? || (p.Number? && !(MIN_HOLDING_YEAR <= p.value <= thisYear + 1))
  }

  method PrevNMonths(month: int, year: int, n: nat) returns (m: int, y: int)
    requires 1 <= month <= 12
    ensures 1 <= m <= 12 && 12 * y + m == 12 * year + month - n
  {
    m, y := month, year;
    for i := 0 to n
      invariant 1 <= m <= 12 && 12 * y + m == 12 * year + month - i
    {
      if m == 1 {
        m := 12;
        y := y - 1;
      } else {
        m := m - 1;
      }
    }
  }

  /** The start the parameters name, with the current month and year as defaults. */
  function Start(now: YearMonth, params: Params): YearMonth {
    YearMonth(
      if params.startYear.Number? then params.startYear.value else now.year,
      if ValidMonth(params.startMonth) then params.startMonth.value else now.month)
  }

  /** Where the end lies: eleven months before the start unless half of it is named. */
  function EndIndex(now: YearMonth, params: Params): int {
    var start := Start(now, params);
    if !ValidMonth(params.endMonth) && params.endYear.Absent? then Index(start) - 11
    else
      12 * (if params.endYear.Number? then params.endYear.value else start.year)
      + (if ValidMonth(params.endMonth) then params.endMonth.value else start.month)
  }

  method ParseMonthlyQuery(now: YearMonth, params: Params) returns (r: Result<Query, Error>)
    requires IsMonth(now)
    ensures BadYear(params.startYear, now.year) || BadYear(params.endYear, now.year) ==> r == Err(InvalidRange)
    ensures !BadYear(params.startYear, now.year) && !BadYear(params.endYear, now.year) ==>
      var start, end := Index(Start(now, params)), EndIndex(now, params);
      && r.Ok? && IsMonth(r.value.latest) && IsMonth(r.value.oldest)
      && Index(r.value.latest) == (if end > start then end else start)
      && Index(r.value.oldest) == (if end > start then start else end)
  {
    var startMonth, startYear, endMonth, endYear := now.month, now.year, now.month, now.year;
    var hasEndMonth, hasEndYear := false, false;
    if ValidMonth(params.startMonth) {
      startMonth := params.startMonth.value;
    }
    if !params.startYear.Absent? {
      if BadYear(params.startYear, now.year) {
        return Err(InvalidRange);
      }
      startYear := params.startYear.value;
    }
    if ValidMonth(params.endMonth) {
      endMonth := params.endMonth.value;
      hasEndMonth := true;
    }
    if !params.endYear.Absent? {
      if BadYear(params.endYear, now.year) {
        return Err(InvalidRange);
      }
      endYear := params.endYear.value;
      hasEndYear := true;
    }
    if !hasEndMonth && !hasEndYear {
      endMonth, endYear := PrevNMonths(startMonth, startYear, 11);
    } else {
      if !hasEndMonth {
        endMonth := startMonth;
      }
      if !hasEndYear {
        endYear := startYear;
      }
    }
    var latest, oldest := YearMonth(startYear, startMonth), YearMonth(endYear, endMonth);
    if oldest.year > latest.year || (oldest.year == latest.year && oldest.month > latest.month) {
      latest, oldest := oldest, latest;
    }
    return Ok(Query(latest, oldest));
  }

  // ----- The walk -----

  datatype Sums = Sums(invested: real, current: real, count: int)

  const NOTHING := Sums(0.0, 0.0, 0)

  function Plus(a: Sums, b: Sums): Sums {
    Sums(a.invested + b.invested, a.current + b.current, a.count + b.count)
  }

  /** A row of the repository's answer, and an entry of the service's. */
  datatype Row = Row(at: YearMonth, sums: Sums)

  function RowMap(rows: seq<Row>): map<YearMonth, Row> {
    if rows == [] then map[]
    else RowMap(rows[..|rows| - 1])[rows[|rows| - 1].at := rows[|rows| - 1]]
  }

  function EntryFor(rows: seq<Row>, at: YearMonth): Row {
    if at in RowMap(rows) then RowMap(rows)[at] else Row(at, NOTHING)
  }

  predicate Inverted(q: Query) {
    q.oldest.year > q.latest.year || (q.oldest.year == q.latest.year && q.oldest.month > q.latest.month)
  }

  function Span(q: Query): int {
    Index(q.latest) - Index(q.oldest)
  }

  /** The entry of the month at `index`: its row, or zeros. */
  predicate IsEntry(entry: Row, rows: seq<Row>, index: int) {
    IsMonth(entry.at) && Index(entry.at) == index && entry == EntryFor(rows, entry.at)
  }

  lemma {:induction false} RowMapHoldsRows(rows: seq<Row>, at: YearMonth)
    ensures at in RowMap(rows) ==> RowMap(rows)[at] in rows && RowMap(rows)[at].at == at
  {
    if rows != [] {
      RowMapHoldsRows(rows[..|rows| - 1], at);
    }
  }

  /** Consecutive months from the oldest to the latest, each with its row or zeros. */
  method GetMonthlyData(q: Query, data: Result<seq<Row>, Error>) returns (r: Result<seq<Row>, Error>)
    requires IsMonth(q.latest) && IsMonth(q.oldest)
    ensures Inverted(q) ==> r == Err(InvalidRange)
    ensures !Inverted(q) && Span(q) > MAX_RANGE_MONTHS ==> r == Err(RangeTooLarge)
    ensures !Inverted(q) && Span(q) <= MAX_RANGE_MONTHS && data.Err? ==> r == Err(data.error)
    ensures !Inverted(q) && Span(q) <= MAX_RANGE_MONTHS && data.Ok? ==>
      && r.Ok? && |r.value| == Span(q) + 1
      && forall i :: 0 <= i < |r.value| ==> IsEntry(r.value[i], data.value, Index(q.oldest) + i)
  {
    if q.oldest.year > q.latest.year || (q.oldest.year == q.latest.year && q.oldest.month > q.latest.month) {
      return Err(InvalidRange);
    }
    var spanMonths := (q.latest.year - q.oldest.year) * 12 + (q.latest.month - q.oldest.month);
    if spanMonths > MAX_RANGE_MONTHS {
      return Err(RangeTooLarge);
    }
    if data.Err? {
      return Err(data.error);
    }
    var dataMap: map<YearMonth, Row> := map[];
    for k := 0 to |data.value|
      invariant dataMap == RowMap(data.value[..k])
    {
      assert data.value[..k + 1][..k] == data.value[..k];
      dataMap := dataMap[data.value[k].at := data.value[k]];
    }
    assert data.value[..|data.value|] == data.value;
    var result: seq<Row> := [];
    var cur := q.oldest;
    while true
      invariant IsMonth(cur) && Index(cur) == Index(q.oldest) + |result| <= Index(q.latest)
      invariant forall i :: 0 <= i < |result| ==> IsEntry(result[i], data.value, Index(q.oldest) + i)
      decreases Index(q.latest) - Index(cur)
    {
      RowMapHoldsRows(data.value, cur);
      if cur in dataMap {
        result := result + [dataMap[cur]];
      } else {
        result := result + [Row(cur, NOTHING)];
      }
      if cur == q.latest {
        break;
      }
      IndexIsInjective(cur, q.latest);
      cur := cur.(month := cur.month + 1);
      if cur.month > 12 {
        cur := YearMonth(cur.year + 1, 1);
      }
    }
    return Ok(result);
  }

  // ----- Against the holdings themselves -----

  datatype Holding = Holding(user: string, at: YearMonth, invested: real, current: real)

  function ValueOf(h: Holding): Sums {
    Sums(h.invested, h.current, 1)
  }

  /** The sums over the user's holdings dated from `low` to `high`. */
  function Total(holdings: seq<Holding>, user: string, low: int, high: int): Sums {
    if holdings == [] then NOTHING
    else
      var before := Total(holdings[..|holdings| - 1], user, low, high);
      var last := holdings[|holdings| - 1];
      if last.user == user && low <= Index(last.at) <= high then Plus(before, ValueOf(last)) else before
  }

  function Sum(rows: seq<Row>): Sums {
    if rows == [] then NOTHING else Plus(Sum(rows[..|rows| - 1]), rows[|rows| - 1].sums)
  }

  /** The repository's grouped query: one row for each month of the range in which
      the user holds anything, with that month's sums. */
  ghost predicate IsGrouped(rows: seq<Row>, holdings: seq<Holding>, user: string, low: int, high: int) {
    && (forall i :: 0 <= i < |rows| ==> IsMonth(rows[i].at))
    && (forall i :: 0 <= i < |rows| ==>
          rows[i].sums == Total(holdings, user, Index(rows[i].at), Index(rows[i].at)))
    && (forall at ::
          (IsMonth(at) && low <= Index(at) <= high && Total(holdings, user, Index(at), Index(at)).count != 0) ==>
          at in RowMap(rows))
  }

  lemma {:induction false} NoHoldingsNoSum(holdings: seq<Holding>, user: string, low: int, high: int)
    ensures Total(holdings, user, low, high).count >= 0
    ensures Total(holdings, user, low, high).count == 0 ==> Total(holdings, user, low, high) == NOTHING
  {
    if holdings != [] {
      NoHoldingsNoSum(holdings[..|holdings| - 1], user, low, high);
    }
  }

  /** Each entry is the sum of its month's holdings. */
  lemma EntryIsTheMonth(
    entry: Row, rows: seq<Row>, holdings: seq<Holding>, user: string, low: int, high: int, index: int)
    requires IsGrouped(rows, holdings, user, low, high) && low <= index <= high && IsEntry(entry, rows, index)
    ensures entry.sums == Total(holdings, user, index, index)
  {
    RowMapHoldsRows(rows, entry.at);
    NoHoldingsNoSum(holdings, user, index, index);
  }

  lemma {:induction false} TotalOneMore(holdings: seq<Holding>, user: string, low: int, high: int)
    requires low <= high
    ensures Total(holdings, user, low, high) ==
      Plus(Total(holdings, user, low, high - 1), Total(holdings, user, high, high))
  {
    if holdings != [] {
      TotalOneMore(holdings[..|holdings| - 1], user, low, high);
    }
  }

  lemma {:induction false} EmptyRange(holdings: seq<Holding>, user: string, low: int)
    ensures Total(holdings, user, low, low - 1) == NOTHING
  {
    if holdings != [] {
      EmptyRange(holdings[..|holdings| - 1], user, low);
    }
  }

  lemma {:induction false} MonthsAddUp(entries: seq<Row>, holdings: seq<Holding>, user: string, low: int)
    requires forall i :: 0 <= i < |entries| ==> entries[i].sums == Total(holdings, user, low + i, low + i)
    ensures Sum(entries) == Total(holdings, user, low, low + |entries| - 1)
  {
    if entries == [] {
      EmptyRange(holdings, user, low);
    } else {
      MonthsAddUp(entries[..|entries| - 1], holdings, user, low);
      TotalOneMore(holdings, user, low, low + |entries| - 1);
    }
  }

  /** Conservation: consecutive entries together are exactly the user's holdings in
      their months, counted and summed once each. */
  lemma EntriesAddUp(
    entries: seq<Row>, rows: seq<Row>, holdings: seq<Holding>, user: string, low: int, high: int)
    requires |entries| == high - low + 1
    requires IsGrouped(rows, holdings, user, low, high)
    requires forall i :: 0 <= i < |entries| ==> IsEntry(entries[i], rows, low + i)
    ensures Sum(entries) == Total(holdings, user, low, high)
  {
    forall i | 0 <= i < |entries|
      ensures entries[i].sums == Total(holdings, user, low + i, low + i)
    {
      EntryIsTheMonth(entries[i], rows, holdings, user, low, high, low + i);
    }
    MonthsAddUp(entries, holdings, user, low);
  }

  // ----- The endpoint -----

  function Low(now: YearMonth, params: Params): int {
    var start, end := Index(Start(now, params)), EndIndex(now, params);
    if end < start then end else start
  }

  function High(now: YearMonth, params: Params): int {
    var start, end := Index(Start(now, params)), EndIndex(now, params);
    if end < start then start else end
  }

  predicate BadYears(now: YearMonth, params: Params) {
    BadYear(params.startYear, now.year) || BadYear(params.endYear, now.year)
  }

  /** The chart endpoint: no parsed query is inverted; only a wide one is refused,
      an omitted end gives twelve months, each entry carries its month's row or
      zeros, and together they are the user's holdings in the range. */
  method MonthlyEndpoint(now: YearMonth, params: Params, data: Result<seq<Row>, Error>)
    returns (r: Result<seq<Row>, Error>)
    requires IsMonth(now)
    ensures BadYears(now, params) ==> r == Err(InvalidRange)
    ensures !BadYears(now, params) && High(now, params) - Low(now, params) > MAX_RANGE_MONTHS ==>
      r == Err(RangeTooLarge)
    ensures !BadYears(now, params) && High(now, params) - Low(now, params) <= MAX_RANGE_MONTHS && data.Err? ==>
      r == Err(data.error)
    ensures !BadYears(now, params) && High(now, params) - Low(now, params) <= MAX_RANGE_MONTHS && data.Ok? ==>
      && r.Ok? && |r.value| == High(now, params) - Low(now, params) + 1
      && (forall i :: 0 <= i < |r.value| ==> IsEntry(r.value[i], data.value, Low(now, params) + i))
      && (forall holdings, user :: IsGrouped(data.value, holdings, user, Low(now, params), High(now, params)) ==>
            Sum(r.value) == Total(holdings, user, Low(now, params), High(now, params)))
    ensures !BadYears(now, params) && !ValidMonth(params.endMonth) && params.endYear.Absent? ==>
      High(now, params) - Low(now, params) + 1 == 12
  {
    var q := ParseMonthlyQuery(now, params);
    if q.Err? {
      return Err(q.error);
    }
    IndexIsInjective(q.value.latest, q.value.oldest);
    IndexIsInjective(q.value.oldest, q.value.latest);
    r := GetMonthlyData(q.value, data);
    if r.Ok? {
      ghost var low, high := Low(now, params), High(now, params);
      forall holdings, user | IsGrouped(data.value, holdings, user, low, high)
        ensures Sum(r.value) == Total(holdings, user, low, high)
      {
        EntriesAddUp(r.value, data.value, holdings, user, low, high);
      }
    }
  }
}
