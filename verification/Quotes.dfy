/** Market quotes: normalised symbols, batched fetching and the cache in front
    (internal/platform/market/rapidapi_quote.go, cached_quote.go). A price source
    answers each symbol on its own; caching and batching must not show. */
module Quotes {
  import opened Wrappers

  const MAX_SYMBOLS_PER_REQUEST: nat := 50

  type Prices = map<string, real>

  /** One request to the provider. */
  type Fetch = seq<string> -> Result<Prices, string>

  // ----- Symbols -----

  /** `canon` is trimming and upper-casing; doing it twice changes nothing. */
  ghost predicate CanonFacts(canon: string -> string) {
    forall s :: canon(canon(s)) == canon(s)
  }

  function Normalized(canon: string -> string, symbols: seq<string>): seq<string> {
    if symbols == [] then []
    else
      var before := Normalized(canon, symbols[..|symbols| - 1]);
      var symbol := canon(symbols[|symbols| - 1]);
      if symbol == "" || symbol in before then before else before + [symbol]
  }

  method NormalizeSymbols(canon: string -> string, symbols: seq<string>) returns (normalized: seq<string>)
    ensures normalized == Normalized(canon, symbols)
  {
    var seen: set<string> := {};
    normalized := [];
    for i := 0 to |symbols|
      invariant normalized == Normalized(canon, symbols[..i])
      invariant forall s :: s in seen <==> s in normalized
    {
      assert symbols[..i + 1][..i] == symbols[..i];
      var symbol := canon(symbols[i]);
      if symbol == "" || symbol in seen {
        continue;
      }
      seen := seen + {symbol};
      normalized := normalized + [symbol];
    }
    assert symbols[..|symbols|] == symbols;
  }

  predicate Distinct<T(==)>(list: seq<T>) {
    forall i, j :: 0 <= i < j < |list| ==> list[i] != list[j]
  }

  /** Each canonical form appears once, and nothing else does. */
  lemma {:induction false} NormalizedIsTheSet(canon: string -> string, symbols: seq<string>)
    ensures Distinct(Normalized(canon, symbols))
    ensures forall s :: s in Normalized(canon, symbols) <==>
      s != "" && exists i :: 0 <= i < |symbols| && canon(symbols[i]) == s
  {
    if symbols != [] {
      var n := |symbols| - 1;
      NormalizedIsTheSet(canon, symbols[..n]);
      assert forall i :: 0 <= i < n ==> canon(symbols[..n][i]) == canon(symbols[i]);
    }
  }

  /** Where the canonical form first appears. */
  function FirstAt(canon: string -> string, symbols: seq<string>, symbol: string): (i: nat)
    ensures i <= |symbols| && (i < |symbols| ==> canon(symbols[i]) == symbol)
    ensures forall j :: 0 <= j < i ==> canon(symbols[j]) != symbol
  {
    if symbols == [] || canon(symbols[0]) == symbol then 0 else 1 + FirstAt(canon, symbols[1..], symbol)
  }

  lemma FirstAtSnoc(canon: string -> string, symbols: seq<string>, symbol: string)
    requires symbols != []
    ensures var n := |symbols| - 1;
      var before := FirstAt(canon, symbols[..n], symbol);
      FirstAt(canon, symbols, symbol) ==
        if before < n then before else if canon(symbols[n]) == symbol then n else n + 1
  {
    var n := |symbols| - 1;
    assert forall j :: 0 <= j < n ==> symbols[..n][j] == symbols[j];
  }

  lemma ListedIsFound(canon: string -> string, symbols: seq<string>, symbol: string)
    ensures symbol != "" ==> (symbol in Normalized(canon, symbols) <==> FirstAt(canon, symbols, symbol) < |symbols|)
  {
    NormalizedIsTheSet(canon, symbols);
  }

  lemma ListedFormStays(canon: string -> string, symbols: seq<string>, symbol: string)
    requires symbols != [] && symbol != "" && symbol in Normalized(canon, symbols[..|symbols| - 1])
    ensures FirstAt(canon, symbols, symbol) == FirstAt(canon, symbols[..|symbols| - 1], symbol) < |symbols| - 1
  {
    ListedIsFound(canon, symbols[..|symbols| - 1], symbol);
    FirstAtSnoc(canon, symbols, symbol);
  }

  lemma NewFormIsLast(canon: string -> string, symbols: seq<string>)
    requires symbols != [] && canon(symbols[|symbols| - 1]) != ""
    requires canon(symbols[|symbols| - 1]) !in Normalized(canon, symbols[..|symbols| - 1])
    ensures FirstAt(canon, symbols, canon(symbols[|symbols| - 1])) == |symbols| - 1
  {
    var symbol := canon(symbols[|symbols| - 1]);
    ListedIsFound(canon, symbols[..|symbols| - 1], symbol);
    FirstAtSnoc(canon, symbols, symbol);
  }

  predicate InOrder(places: seq<nat>) {
    forall i, j :: 0 <= i < j < |places| ==> places[i] < places[j]
  }

  /** Where the listed forms first appear. */
  function Places(canon: string -> string, symbols: seq<string>, list: seq<string>): seq<nat> {
    seq(|list|, i requires 0 <= i < |list| => FirstAt(canon, symbols, list[i]))
  }

  /** Forms come in the order in which they first appear. */
  lemma {:induction false} NormalizedKeepsOrder(canon: string -> string, symbols: seq<string>)
    ensures InOrder(Places(canon, symbols, Normalized(canon, symbols)))
    ensures forall i :: 0 <= i < |Normalized(canon, symbols)| ==>
      FirstAt(canon, symbols, Normalized(canon, symbols)[i]) < |symbols|
  {
    if symbols != [] {
      var n := |symbols| - 1;
      var before := Normalized(canon, symbols[..n]);
      NormalizedKeepsOrder(canon, symbols[..n]);
      NormalizedIsTheSet(canon, symbols[..n]);
      forall i | 0 <= i < |before|
        ensures Places(canon, symbols, before)[i] == Places(canon, symbols[..n], before)[i] < n
      {
        assert before[i] in before;
        ListedFormStays(canon, symbols, before[i]);
      }
      var symbol := canon(symbols[n]);
      if symbol != "" && symbol !in before {
        NewFormIsLast(canon, symbols);
        assert Places(canon, symbols, before + [symbol]) == Places(canon, symbols, before) + [n];
      }
    }
  }

  predicate Canonical(canon: string -> string, symbols: seq<string>) {
    Distinct(symbols) && forall i :: 0 <= i < |symbols| ==> symbols[i] != "" && canon(symbols[i]) == symbols[i]
  }

  lemma {:induction false} CanonicalIsNormalized(canon: string -> string, symbols: seq<string>)
    requires Canonical(canon, symbols)
    ensures Normalized(canon, symbols) == symbols
  {
    if symbols != [] {
      var n := |symbols| - 1;
      CanonicalIsNormalized(canon, symbols[..n]);
      assert symbols == symbols[..n] + [symbols[n]];
    }
  }

  lemma NormalizedIsCanonical(canon: string -> string, symbols: seq<string>)
    requires CanonFacts(canon)
    ensures Canonical(canon, Normalized(canon, symbols))
  {
    NormalizedIsTheSet(canon, symbols);
    var normalized := Normalized(canon, symbols);
    forall k | 0 <= k < |normalized|
      ensures normalized[k] != "" && canon(normalized[k]) == normalized[k]
    {
      assert normalized[k] in normalized;
      var i :| 0 <= i < |symbols| && canon(symbols[i]) == normalized[k];
    }
  }

  /** So normalising again, as the inner client does, changes nothing. */
  lemma {:induction false} NormalizeIdempotent(canon: string -> string, symbols: seq<string>)
    requires CanonFacts(canon)
    ensures Normalized(canon, Normalized(canon, symbols)) == Normalized(canon, symbols)
  {
    NormalizedIsCanonical(canon, symbols);
    CanonicalIsNormalized(canon, Normalized(canon, symbols));
  }

  // ----- Batches -----

  function BatchEnd(length: nat, start: nat): nat {
    if start + MAX_SYMBOLS_PER_REQUEST < length then start + MAX_SYMBOLS_PER_REQUEST else length
  }

  function Batches<T>(list: seq<T>, start: nat): seq<seq<T>>
    requires start <= |list|
    decreases |list| - start
  {
    if start == |list| then []
    else [list[start..BatchEnd(|list|, start)]] + Batches(list, BatchEnd(|list|, start))
  }

  function Flattened<T>(batches: seq<seq<T>>): seq<T> {
    if batches == [] then [] else batches[0] + Flattened(batches[1..])
  }

  /** The batches cut the list into consecutive pieces of 1 to 50. */
  lemma {:induction false} BatchesPartition<T>(list: seq<T>, start: nat)
    requires start <= |list|
    ensures Flattened(Batches(list, start)) == list[start..]
    ensures forall k :: 0 <= k < |Batches(list, start)| ==>
      1 <= |Batches(list, start)[k]| <= MAX_SYMBOLS_PER_REQUEST
    decreases |list| - start
  {
    if start < |list| {
      var end := BatchEnd(|list|, start);
      BatchesPartition(list, end);
      assert Batches(list, start)[1..] == Batches(list, end);
      assert list[start..] == list[start..end] + list[end..];
    }
  }

  /** The answers of the batches, later ones written over earlier ones. */
  function FetchedAll(fetch: Fetch, batches: seq<seq<string>>): Result<Prices, string> {
    if batches == [] then Ok(map[])
    else
      match fetch(batches[0])
      case Err(error) => Err(error)
      case Ok(first) =>
        match FetchedAll(fetch, batches[1..])
        case Err(error) => Err(error)
        case Ok(rest) => Ok(first + rest)
  }

  function Direct(canon: string -> string, fetch: Fetch, symbols: seq<string>): Result<Prices, string> {
    FetchedAll(fetch, Batches(Normalized(canon, symbols), 0))
  }

  lemma FetchedFrom(fetch: Fetch, list: seq<string>, start: nat)
    requires start < |list|
    ensures var end := BatchEnd(|list|, start);
      var rest := FetchedAll(fetch, Batches(list, end));
      FetchedAll(fetch, Batches(list, start)) ==
        match fetch(list[start..end])
        case Err(error) => Err(error)
        case Ok(first) => if rest.Err? then rest else Ok(first + rest.value)
  {
    assert Batches(list, start)[1..] == Batches(list, BatchEnd(|list|, start));
  }

  predicate Extends(total: Result<Prices, string>, quotes: Prices, rest: Result<Prices, string>) {
    match rest
    case Err(error) => total == Err(error)
    case Ok(prices) => total == Ok(quotes + prices)
  }

  /** `RapidAPIQuoteClient.GetQuotes`. */
  method FetchQuotes(canon: string -> string, fetch: Fetch, symbols: seq<string>)
    returns (r: Result<Prices, string>)
    ensures r == Direct(canon, fetch, symbols)
  {
    var normalized := NormalizeSymbols(canon, symbols);
    if |normalized| == 0 {
      return Ok(map[]);
    }
    var quotes: Prices := map[];
    var start := 0;
    ghost var all := Direct(canon, fetch, symbols);
    assert all.Ok? ==> quotes + all.value == all.value;
    while start < |normalized|
      invariant start <= |normalized|
      invariant Extends(Direct(canon, fetch, symbols), quotes, FetchedAll(fetch, Batches(normalized, start)))
    {
      var end := BatchEnd(|normalized|, start);
      FetchedFrom(fetch, normalized, start);
      var batch := fetch(normalized[start..end]);
      if batch.Err? {
        return Err(batch.error);
      }
      ghost var rest := FetchedAll(fetch, Batches(normalized, end));
      assert rest.Ok? ==> quotes + (batch.value + rest.value) == (quotes + batch.value) + rest.value;
      quotes := quotes + batch.value;
      start := end;
    }
    assert quotes + map[] == quotes;
    return Ok(quotes);
  }

  // ----- The cache -----

  /** Which keys the cache service answers for during one call. */
  datatype Reach = Reach(readable: set<string>, writable: set<string>)

  /** The cache answers for this symbol. */
  predicate Held(cache: Prices, reach: Reach, symbol: string) {
    symbol in reach.readable && symbol in cache && cache[symbol] > 0.0
  }

  function Hits(cache: Prices, reach: Reach, symbols: seq<string>): Prices {
    map s | s in symbols && s in cache && s in reach.readable && cache[s] > 0.0 :: cache[s]
  }

  function Missing(hits: Prices, symbols: seq<string>): seq<string> {
    if symbols == [] then []
    else
      Missing(hits, symbols[..|symbols| - 1]) +
      if symbols[|symbols| - 1] in hits then [] else [symbols[|symbols| - 1]]
  }

  function Positive(prices: Prices): Prices {
    map s | s in prices && prices[s] > 0.0 :: prices[s]
  }

  function Writable(prices: Prices, reach: Reach): Prices {
    map s | s in prices && s in reach.writable :: prices[s]
  }

  lemma StoredOneMore(base: Prices, done: Prices, symbol: string, price: real, reach: Reach)
    ensures base + done[symbol := price] == (base + done)[symbol := price]
    ensures base + Writable(done[symbol := price], reach) ==
      if symbol in reach.writable then (base + Writable(done, reach))[symbol := price]
      else base + Writable(done, reach)
  {
    if symbol !in reach.writable {
      assert Writable(done[symbol := price], reach) == Writable(done, reach);
    } else {
      assert Writable(done[symbol := price], reach) == Writable(done, reach)[symbol := price];
    }
  }

  datatype Outcome = Outcome(result: Result<Prices, string>, cache: Prices)

  /** One call through the cache: what it returns and what the cache holds after. */
  function Cached(
    canon: string -> string, fetch: Fetch, enabled: bool, cache: Prices, reach: Reach, symbols: seq<string>): Outcome
  {
    var normalized := Normalized(canon, symbols);
    if normalized == [] then Outcome(Ok(map[]), cache)
    else if !enabled then Outcome(Direct(canon, fetch, normalized), cache)
    else
      var hits := Hits(cache, reach, normalized);
      var missing := Missing(hits, normalized);
      if missing == [] then Outcome(Ok(hits), cache)
      else
        match Direct(canon, fetch, missing)
        case Err(error) => Outcome(if hits != map[] then Ok(hits) else Err(error), cache)
        case Ok(fetched) =>
          Outcome(Ok(hits + Positive(fetched)), cache + Writable(Positive(fetched), reach))
  }

  class CachedQuoteClient {
    const canon: string -> string
    const inner: Fetch
    const enabled: bool  // a cache is configured and its ttl is positive
    var cache: Prices

    constructor (canon: string -> string, inner: Fetch, enabled: bool)
      ensures this.canon == canon && this.inner == inner && this.enabled == enabled && cache == map[]
    {
      this.canon, this.inner, this.enabled := canon, inner, enabled;
      cache := map[];
    }

    /** The lookup loop: what the cache answers, and what is left to fetch. */
    method Lookup(symbols: seq<string>, reach: Reach) returns (results: Prices, missingSymbols: seq<string>)
      ensures results == Hits(cache, reach, symbols)
      ensures missingSymbols == Missing(results, symbols)
      ensures forall s :: s in results <==> s in symbols && Held(cache, reach, s)
      ensures forall s :: s in results ==> results[s] == cache[s]
    {
      results, missingSymbols := map[], [];
      for i := 0 to |symbols|
        invariant results == Hits(cache, reach, symbols[..i])
        invariant missingSymbols == Missing(Hits(cache, reach, symbols), symbols[..i])
      {
        assert symbols[..i + 1][..i] == symbols[..i];
        var symbol := symbols[i];
        if symbol in cache && symbol in reach.readable && cache[symbol] > 0.0 {
          results := results[symbol := cache[symbol]];
        } else {
          missingSymbols := missingSymbols + [symbol];
        }
      }
      assert symbols[..|symbols|] == symbols;
    }

    method GetQuotes(symbols: seq<string>, reach: Reach) returns (r: Result<Prices, string>)
      modifies this
      ensures Outcome(r, cache) == Cached(canon, inner, enabled, old(cache), reach, symbols)
    {
      var normalized := NormalizeSymbols(canon, symbols);
      if |normalized| == 0 {
        return Ok(map[]);
      }
      if !enabled {
        r := FetchQuotes(canon, inner, normalized);
        return;
      }
      var results, missingSymbols := Lookup(normalized, reach);
      if |missingSymbols| == 0 {
        return Ok(results);
      }
      var fetched := FetchQuotes(canon, inner, missingSymbols);
      if fetched.Err? {
        if |results| > 0 {
          return Ok(results);
        }
        return Err(fetched.error);
      }
      results := StoreFetched(fetched.value, reach, results);
      return Ok(results);
    }

    method StoreFetched(fetched: Prices, reach: Reach, hits: Prices) returns (results: Prices)
      modifies this
      ensures results == hits + Positive(fetched)
      ensures cache == old(cache) + Writable(Positive(fetched), reach)
      ensures forall s :: s in fetched && fetched[s] > 0.0 ==> s in results && results[s] == fetched[s]
      ensures forall s :: s in fetched && fetched[s] > 0.0 && s in reach.writable ==>
        s in cache && cache[s] == fetched[s]
    {
      results := hits;
      var rest := fetched.Keys;
      ghost var done: Prices := map[];
      while rest != {}
        invariant rest <= fetched.Keys
        invariant forall s :: s in done <==> s in fetched && s !in rest && fetched[s] > 0.0
        invariant forall s :: s in done ==> done[s] == fetched[s]
        invariant results == hits + done
        invariant cache == old(cache) + Writable(done, reach)
        decreases |rest|
      {
        var symbol :| symbol in rest;
        rest := rest - {symbol};
        var price := fetched[symbol];
        if price <= 0.0 {
          continue;
        }
        StoredOneMore(hits, done, symbol, price, reach);
        StoredOneMore(old(cache), done, symbol, price, reach);
        done := done[symbol := price];
        results := results[symbol := price];
        if symbol in reach.writable {
          cache := cache[symbol := price];
        }
      }
      assert done == Positive(fetched);
    }
  }

  // ----- Caching and batching do not show -----

  /** The provider answers each symbol from `source`, with positive prices. */
  ghost predicate AnswersFrom(fetch: Fetch, source: Prices) {
    && (forall s :: s in source ==> source[s] > 0.0)
    && (forall batch :: fetch(batch).Ok? ==> fetch(batch).value == Priced(source, batch))
  }

  /** The pointwise answer. */
  function Priced(source: Prices, symbols: seq<string>): Prices {
    map s | s in source && s in symbols :: source[s]
  }

  predicate Consistent(cache: Prices, source: Prices) {
    forall s :: s in cache && cache[s] > 0.0 ==> s in source && source[s] == cache[s]
  }

  lemma PricedJoins(source: Prices, a: seq<string>, b: seq<string>)
    ensures Priced(source, a) + Priced(source, b) == Priced(source, a + b)
  {
  }

  lemma {:induction false} FetchedAllIsPriced(fetch: Fetch, source: Prices, batches: seq<seq<string>>)
    requires AnswersFrom(fetch, source) && FetchedAll(fetch, batches).Ok?
    ensures FetchedAll(fetch, batches).value == Priced(source, Flattened(batches))
  {
    if batches != [] {
      FetchedAllIsPriced(fetch, source, batches[1..]);
      PricedJoins(source, batches[0], Flattened(batches[1..]));
    }
  }

  /** Batched fetching is the pointwise answer on the normalised symbols. */
  lemma DirectIsPriced(canon: string -> string, fetch: Fetch, source: Prices, symbols: seq<string>)
    requires AnswersFrom(fetch, source) && Direct(canon, fetch, symbols).Ok?
    ensures Direct(canon, fetch, symbols).value == Priced(source, Normalized(canon, symbols))
  {
    var normalized := Normalized(canon, symbols);
    BatchesPartition(normalized, 0);
    assert normalized[0..] == normalized;
    FetchedAllIsPriced(fetch, source, Batches(normalized, 0));
  }

  lemma {:induction false} MissingIsTheRest(hits: Prices, symbols: seq<string>)
    requires Distinct(symbols)
    ensures forall s :: s in Missing(hits, symbols) <==> s in symbols && s !in hits
    ensures Distinct(Missing(hits, symbols))
  {
    if symbols != [] {
      var n := |symbols| - 1;
      MissingIsTheRest(hits, symbols[..n]);
      assert symbols == symbols[..n] + [symbols[n]];
      assert forall k :: 0 <= k < |Missing(hits, symbols[..n])| ==> Missing(hits, symbols[..n])[k] in symbols[..n];
    }
  }

  lemma MissingIsNormalized(canon: string -> string, hits: Prices, symbols: seq<string>)
    requires Canonical(canon, symbols)
    ensures Normalized(canon, Missing(hits, symbols)) == Missing(hits, symbols)
  {
    MissingIsTheRest(hits, symbols);
    var missing := Missing(hits, symbols);
    assert forall k :: 0 <= k < |missing| ==> missing[k] in missing && missing[k] in symbols;
    CanonicalIsNormalized(canon, missing);
  }

  lemma HitsAndMissing(source: Prices, hits: Prices, symbols: seq<string>)
    requires Distinct(symbols)
    requires forall s :: s in hits ==> s in symbols && s in source && source[s] == hits[s]
    requires forall s :: s in source ==> source[s] > 0.0
    ensures hits + Positive(Priced(source, Missing(hits, symbols))) == Priced(source, symbols)
  {
    MissingIsTheRest(hits, symbols);
  }

  lemma WritesAreRight(cache: Prices, fetched: Prices, reach: Reach, source: Prices)
    requires Consistent(cache, source) && fetched.Items <= source.Items
    ensures Consistent(cache + Writable(fetched, reach), source)
  {
    forall s | s in Writable(fetched, reach)
      ensures s in source && source[s] == fetched[s]
    {
      assert (s, fetched[s]) in fetched.Items;
    }
  }

  lemma PricedItems(source: Prices, symbols: seq<string>)
    ensures Priced(source, symbols).Items <= source.Items
  {
    forall item | item in Priced(source, symbols).Items
      ensures item in source.Items
    {
      assert item.0 in source && source[item.0] == item.1;
    }
  }

  /** The lookup missed something and the provider answered. */
  lemma FilledFromProvider(
    canon: string -> string, fetch: Fetch, source: Prices, cache: Prices, reach: Reach, normalized: seq<string>)
    requires AnswersFrom(fetch, source) && Consistent(cache, source) && Canonical(canon, normalized)
    requires Direct(canon, fetch, Missing(Hits(cache, reach, normalized), normalized)).Ok?
    ensures var hits := Hits(cache, reach, normalized);
      var fetched := Positive(Direct(canon, fetch, Missing(hits, normalized)).value);
      && hits + fetched == Priced(source, normalized)
      && Consistent(cache + Writable(fetched, reach), source)
  {
    var hits := Hits(cache, reach, normalized);
    var missing := Missing(hits, normalized);
    MissingIsNormalized(canon, hits, normalized);
    DirectIsPriced(canon, fetch, source, missing);
    HitsAndMissing(source, hits, normalized);
    PricedItems(source, missing);
    assert Positive(Priced(source, missing)) == Priced(source, missing);
    WritesAreRight(cache, Priced(source, missing), reach, source);
  }

  lemma HitsAreRight(cache: Prices, reach: Reach, source: Prices, symbols: seq<string>)
    requires Consistent(cache, source)
    ensures Hits(cache, reach, symbols).Items <= Priced(source, symbols).Items
  {
    var hits := Hits(cache, reach, symbols);
    forall item | item in hits.Items
      ensures item in Priced(source, symbols).Items
    {
      assert item.0 in hits && hits[item.0] == item.1;
      assert item.0 in Priced(source, symbols) && Priced(source, symbols)[item.0] == item.1;
    }
  }

  lemma NothingMissing(cache: Prices, reach: Reach, source: Prices, symbols: seq<string>)
    requires Consistent(cache, source) && Distinct(symbols)
    requires Missing(Hits(cache, reach, symbols), symbols) == []
    ensures Hits(cache, reach, symbols) == Priced(source, symbols)
  {
    MissingIsTheRest(Hits(cache, reach, symbols), symbols);
    assert forall s :: s in symbols ==> s !in Missing(Hits(cache, reach, symbols), symbols);
  }

  /** Whatever the cache holds and reaches, when the provider does not fail a call
      answers exactly the pointwise prices of the normalised symbols, as a direct
      call does; and the cache stays right for the next call. */
  lemma CacheDoesNotShow(
    canon: string -> string, fetch: Fetch, source: Prices,
    enabled: bool, cache: Prices, reach: Reach, symbols: seq<string>)
    requires CanonFacts(canon) && AnswersFrom(fetch, source) && Consistent(cache, source)
    requires forall batch :: fetch(batch).Ok?
    ensures var outcome := Cached(canon, fetch, enabled, cache, reach, symbols);
      && outcome.result == Ok(Priced(source, Normalized(canon, symbols)))
      && outcome.result == Direct(canon, fetch, symbols)
      && Consistent(outcome.cache, source)
  {
    var normalized := Normalized(canon, symbols);
    var missing := Missing(Hits(cache, reach, normalized), normalized);
    NormalizedIsCanonical(canon, symbols);
    CanonicalIsNormalized(canon, normalized);
    NoErrors(fetch, Batches(normalized, 0));
    DirectIsPriced(canon, fetch, source, symbols);
    NoErrors(fetch, Batches(Normalized(canon, missing), 0));
    if missing == [] {
      NothingMissing(cache, reach, source, normalized);
    } else {
      FilledFromProvider(canon, fetch, source, cache, reach, normalized);
    }
  }

  /** When the provider may fail, every price returned is still right and the cache
      stays right; an answer is partial only when it is exactly the cached part,
      and an error is returned only when nothing was cached. */
  lemma FailuresAreHonest(
    canon: string -> string, fetch: Fetch, source: Prices, cache: Prices, reach: Reach, symbols: seq<string>)
    requires CanonFacts(canon) && AnswersFrom(fetch, source) && Consistent(cache, source)
    ensures var outcome := Cached(canon, fetch, true, cache, reach, symbols);
      var normalized := Normalized(canon, symbols);
      && Consistent(outcome.cache, source)
      && (outcome.result.Ok? ==> outcome.result.value.Items <= Priced(source, normalized).Items)
      && (outcome.result.Ok? && outcome.result.value != Priced(source, normalized) ==>
           outcome.result.value == Hits(cache, reach, normalized) != map[])
      && (outcome.result.Err? ==> Hits(cache, reach, normalized) == map[])
  {
    var normalized := Normalized(canon, symbols);
    var missing := Missing(Hits(cache, reach, normalized), normalized);
    NormalizedIsCanonical(canon, symbols);
    HitsAreRight(cache, reach, source, normalized);
    if missing == [] {
      NothingMissing(cache, reach, source, normalized);
    } else if Direct(canon, fetch, missing).Ok? {
      FilledFromProvider(canon, fetch, source, cache, reach, normalized);
    }
  }

  lemma {:induction false} NoErrors(fetch: Fetch, batches: seq<seq<string>>)
    requires forall batch :: fetch(batch).Ok?
    ensures FetchedAll(fetch, batches).Ok?
  {
    if batches != [] {
      NoErrors(fetch, batches[1..]);
    }
  }

  // ----- What the cache is for -----

  /** A provider that is down. */
  ghost predicate Down(fetch: Fetch) {
    forall batch :: fetch(batch).Err?
  }

  lemma {:induction false} NotInHits(hits: Prices, symbols: seq<string>)
    ensures forall s :: s in Missing(hits, symbols) <==> s in symbols && s !in hits
  {
    if symbols != [] {
      NotInHits(hits, symbols[..|symbols| - 1]);
      assert symbols == symbols[..|symbols| - 1] + [symbols[|symbols| - 1]];
    }
  }

  lemma DownMeansNoAnswer(canon: string -> string, fetch: Fetch, symbols: seq<string>)
    requires Down(fetch) && Normalized(canon, symbols) != []
    ensures Direct(canon, fetch, symbols).Err?
  {
    var normalized := Normalized(canon, symbols);
    FetchedFrom(fetch, normalized, 0);
  }

  /** While the provider is down a call answers with the cached prices of the symbols
      asked for, all of them and no others, and fails iff there are none; nothing is
      written. */
  lemma CacheAnswersWhenDown(
    canon: string -> string, fetch: Fetch, cache: Prices, reach: Reach, symbols: seq<string>)
    requires CanonFacts(canon) && Down(fetch)
    ensures var outcome := Cached(canon, fetch, true, cache, reach, symbols);
      var normalized := Normalized(canon, symbols);
      && outcome.cache == cache
      && (outcome.result.Err? <==> normalized != [] && forall s :: s in normalized ==> !Held(cache, reach, s))
      && (outcome.result.Ok? ==> forall s ::
            (s in outcome.result.value <==> s in normalized && Held(cache, reach, s)) &&
            (s in outcome.result.value ==> outcome.result.value[s] == cache[s]))
  {
    var normalized := Normalized(canon, symbols);
    var hits := Hits(cache, reach, normalized);
    NormalizedIsCanonical(canon, symbols);
    NotInHits(hits, normalized);
    MissingIsNormalized(canon, hits, normalized);
    if Missing(hits, normalized) != [] {
      DownMeansNoAnswer(canon, fetch, Missing(hits, normalized));
    } else if normalized != [] {
      assert normalized[0] in normalized && normalized[0] !in Missing(hits, normalized);
    }
  }

  /** What the cache holds after a call that the provider answered. */
  lemma CacheAfterCall(
    canon: string -> string, fetch: Fetch, source: Prices, cache: Prices, reach: Reach, normalized: seq<string>)
    requires AnswersFrom(fetch, source) && Canonical(canon, normalized) && forall batch :: fetch(batch).Ok?
    ensures var missing := Missing(Hits(cache, reach, normalized), normalized);
      Cached(canon, fetch, true, cache, reach, normalized).cache ==
        cache + Writable(Positive(Priced(source, missing)), reach)
  {
    var missing := Missing(Hits(cache, reach, normalized), normalized);
    CanonicalIsNormalized(canon, normalized);
    MissingIsNormalized(canon, Hits(cache, reach, normalized), normalized);
    if missing == [] {
      assert cache + Writable(Positive(Priced(source, missing)), reach) == cache;
    } else {
      NoErrors(fetch, Batches(missing, 0));
      DirectIsPriced(canon, fetch, source, missing);
    }
  }

  lemma PricedIsHeld(
    source: Prices, cache: Prices, reach: Reach, later: Reach, normalized: seq<string>, symbol: string)
    requires Consistent(cache, source) && symbol in normalized && symbol in source && source[symbol] > 0.0
    requires symbol in reach.writable && symbol in later.readable
    ensures var missing := Missing(Hits(cache, reach, normalized), normalized);
      Held(cache + Writable(Positive(Priced(source, missing)), reach), later, symbol)
  {
    NotInHits(Hits(cache, reach, normalized), normalized);
  }

  lemma HeldPrices(answer: Prices, cache: Prices, later: Reach, source: Prices, normalized: seq<string>)
    requires Consistent(cache, source)
    requires forall s :: s in answer <==> s in normalized && Held(cache, later, s)
    requires forall s :: s in answer ==> s in cache && answer[s] == cache[s]
    requires forall s :: s in normalized && s in source ==> Held(cache, later, s)
    ensures answer == Priced(source, normalized)
  {
  }

  lemma FetchedIsHeld(
    canon: string -> string, fetch: Fetch, source: Prices, cache: Prices, reach: Reach, later: Reach,
    symbols: seq<string>)
    requires CanonFacts(canon) && AnswersFrom(fetch, source) && Consistent(cache, source)
    requires forall batch :: fetch(batch).Ok?
    requires forall s :: s in Normalized(canon, symbols) ==> s in reach.writable && s in later.readable
    ensures forall s :: s in Normalized(canon, symbols) && s in source ==>
      Held(Cached(canon, fetch, true, cache, reach, symbols).cache, later, s)
  {
    var normalized := Normalized(canon, symbols);
    NormalizedIsCanonical(canon, symbols);
    CanonicalIsNormalized(canon, normalized);
    CacheAfterCall(canon, fetch, source, cache, reach, normalized);
    forall s | s in normalized && s in source
      ensures Held(Cached(canon, fetch, true, cache, reach, symbols).cache, later, s)
    {
      PricedIsHeld(source, cache, reach, later, normalized, s);
    }
  }

  /** What one call has fetched and could store, the next can read: with the
      provider down it returns the same prices. */
  lemma SecondCallNeedsNoProvider(
    canon: string -> string, fetch: Fetch, down: Fetch, source: Prices, cache: Prices, reach: Reach, later: Reach,
    symbols: seq<string>)
    requires CanonFacts(canon) && AnswersFrom(fetch, source) && Consistent(cache, source)
    requires (forall batch :: fetch(batch).Ok?) && Down(down)
    requires forall s :: s in Normalized(canon, symbols) ==> s in reach.writable && s in later.readable
    ensures var first := Cached(canon, fetch, true, cache, reach, symbols);
      var second := Cached(canon, down, true, first.cache, later, symbols);
      first.result.Ok? && (first.result.value != map[] ==> second.result == first.result)
  {
    var normalized := Normalized(canon, symbols);
    var first := Cached(canon, fetch, true, cache, reach, symbols);
    CacheDoesNotShow(canon, fetch, source, true, cache, reach, symbols);
    FetchedIsHeld(canon, fetch, source, cache, reach, later, symbols);
    if first.result.value != map[] {
      DownCallReturns(canon, down, source, first.cache, later, symbols);
    }
  }

  lemma DownCallReturns(
    canon: string -> string, down: Fetch, source: Prices, cache: Prices, later: Reach, symbols: seq<string>)
    requires CanonFacts(canon) && Down(down) && Consistent(cache, source)
    requires forall s :: s in Normalized(canon, symbols) && s in source ==> Held(cache, later, s)
    requires Priced(source, Normalized(canon, symbols)) != map[]
    ensures Cached(canon, down, true, cache, later, symbols).result == Ok(Priced(source, Normalized(canon, symbols)))
  {
    var normalized := Normalized(canon, symbols);
    CacheAnswersWhenDown(canon, down, cache, later, symbols);
    var s :| s in Priced(source, normalized);
    assert s in normalized && Held(cache, later, s);
    HeldPrices(Cached(canon, down, true, cache, later, symbols).result.value, cache, later, source, normalized);
  }

  /** Through the cache, whatever the provider answers, only positive prices are
      returned and only such are stored. */
  lemma OnlyPositivePrices(
    canon: string -> string, fetch: Fetch, cache: Prices, reach: Reach, symbols: seq<string>)
    ensures var outcome := Cached(canon, fetch, true, cache, reach, symbols);
      && (outcome.result.Ok? ==> forall s :: s in outcome.result.value ==> outcome.result.value[s] > 0.0)
      && (forall s :: s in outcome.cache ==> (s in cache && outcome.cache[s] == cache[s]) || outcome.cache[s] > 0.0)
      && cache.Keys <= outcome.cache.Keys
  {
  }
}
