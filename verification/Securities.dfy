// The security list: fetched market by market in pages, cached, then filtered,
// sorted and paged locally.
module Securities {
  import opened Wrappers
  import opened Bars

  const PAGE_SIZE: nat := 800
  const UINT32: nat := 0x1_0000_0000

  // A row of an upstream table, and the same row with its market.
  datatype Item = Item(code: string, data: int)
  datatype Info = Info(symbol: Symbol, data: int)

  datatype Query = Query(markets: seq<string>, symbols: seq<Symbol>, start: nat, count: nat, refresh: bool)

  const DEFAULT_MARKETS: seq<string> := ["SH", "SZ", "BJ"]
  const KNOWN_MARKETS: seq<string> := ["SH", "SZ", "BJ", "HK", "US"]

  // The upstream: one table a market, small enough for 32-bit offsets.
  ghost predicate Fits(up: string -> seq<Item>) {
    forall m :: |up(m)| < UINT32
  }

  // --- Paged fetching

  function Least(a: nat, b: nat): nat {
    if a < b then a else b
  }

  function Window(table: seq<Item>, start: nat, count: nat): seq<Item> {
    table[Least(start, |table|)..Least(start + count, |table|)]
  }

  method Wrap(offset: nat) returns (wrapped: nat)
    ensures offset < UINT32 ==> wrapped == offset
  {
    wrapped := offset % UINT32;
  }

  // One turn of the page loop, on what has been collected so far.
  lemma WindowTurn(table: seq<Item>, out: seq<Item>, offset: nat, size: nat, more: nat, whole: seq<Item>)
    requires out + Window(table, offset, size + more) == whole
    ensures var page := Window(table, offset, size);
            if |page| < size then out + page == whole
            else out + page + Window(table, offset + size, more) == whole && (offset + size <= |table| || size == 0)
  {
    var page, rest := Window(table, offset, size), Window(table, offset + size, more);
    assert Window(table, offset, size + more) == page + rest;
    assert out + (page + rest) == out + page + rest;
    assert |page| < size ==> rest == [] && out + page + [] == out + page;
  }

  // Asks the upstream for the page at `offset`; a short one ends the walk.
  method FetchPage(table: seq<Item>, out: seq<Item>, offset: nat, size: nat, ghost more: nat, ghost whole: seq<Item>)
    returns (grown: seq<Item>, next: nat, ended: bool)
    requires |table| < UINT32 && size > 0 && out + Window(table, offset, size + more) == whole
    ensures if ended then grown == whole else grown + Window(table, next, more) == whole
  {
    WindowTurn(table, out, offset, size, more, whole);
    var page := Window(table, offset, size);
    grown := out + page;
    ended := |page| < size;
    next := Wrap(offset + size);
  }

  lemma WindowOfNone(table: seq<Item>, out: seq<Item>, offset: nat)
    ensures out + Window(table, offset, 0) == out
  {
  }

  method FetchSecurityRange(table: seq<Item>, start: nat, count: nat) returns (out: seq<Item>)
    requires |table| < UINT32
    ensures out == Window(table, start, count)
  {
    out := [];
    var remaining: nat := count;
    var offset: nat := start;
    var ended: bool;
    ghost var whole := Window(table, start, count);
    while remaining > 0
      invariant out + Window(table, offset, remaining) == whole
    {
      var pageSize := if remaining > PAGE_SIZE then PAGE_SIZE else remaining;
      remaining := remaining - pageSize;
      out, offset, ended := FetchPage(table, out, offset, pageSize, remaining, whole);
      if ended {
        return;
      }
    }
    WindowOfNone(table, out, offset);
  }

  // Without a count the start is ignored and the whole table is fetched; the loop
  // ends because a table ends, before the 32-bit offset could wrap.
  method FetchSecurities(table: seq<Item>, start: nat, count: nat) returns (out: seq<Item>)
    requires |table| < UINT32
    ensures out == RowsOf(table, start, count)
  {
    if count > 0 {
      out := FetchSecurityRange(table, start, count);
      return;
    }
    out := [];
    var offset: nat := 0;
    while true
      invariant offset <= |table| && out == table[..offset]
      decreases |table| - offset
    {
      var page := FetchSecurityRange(table, offset, PAGE_SIZE);
      out := out + page;
      if |page| < PAGE_SIZE {
        break;
      }
      offset := Wrap(offset + PAGE_SIZE);
    }
  }

  function Tagged(market: string, items: seq<Item>): seq<Info> {
    seq(|items|, i requires 0 <= i < |items| => Info(Symbol(market, items[i].code), items[i].data))
  }

  lemma TaggedByIndex(market: string, items: seq<Item>, i: nat)
    requires i < |items|
    ensures |Tagged(market, items)| == |items|
    ensures Tagged(market, items)[i].symbol.market == market && Tagged(market, items)[i].symbol.code == items[i].code
    ensures Tagged(market, items)[i].data == items[i].data
  {
  }

  function Tables(up: string -> seq<Item>, markets: seq<string>): seq<Info> {
    if markets == [] then []
    else Tables(up, markets[..|markets| - 1]) + Tagged(markets[|markets| - 1], up(markets[|markets| - 1]))
  }

  // The rows asked for of one table: without a count, all of them.
  function RowsOf(table: seq<Item>, start: nat, count: nat): seq<Item> {
    if count > 0 then Window(table, start, count) else table
  }

  lemma RowsOfIsPage(table: seq<Item>, start: nat, count: nat)
    ensures IsPage(RowsOf(table, start, count), table, if count > 0 then start else 0, count)
  {
  }

  function Pages(up: string -> seq<Item>, markets: seq<string>, start: nat, count: nat): seq<Info> {
    if markets == [] then []
    else
      var n := |markets| - 1;
      Pages(up, markets[..n], start, count) + Tagged(markets[n], RowsOf(up(markets[n]), start, count))
  }

  lemma PagesNext(up: string -> seq<Item>, markets: seq<string>, start: nat, count: nat, i: nat)
    requires i < |markets|
    ensures Pages(up, markets[..i + 1], start, count)
         == Pages(up, markets[..i], start, count) + Tagged(markets[i], RowsOf(up(markets[i]), start, count))
  {
    assert markets[..i + 1][..i] == markets[..i];
  }

  lemma {:induction false} PagesAreTables(up: string -> seq<Item>, markets: seq<string>, start: nat)
    ensures Pages(up, markets, start, 0) == Tables(up, markets)
  {
    if markets != [] {
      PagesAreTables(up, markets[..|markets| - 1], start);
    }
  }

  function OrDefault(markets: seq<string>): seq<string> {
    if markets == [] then DEFAULT_MARKETS else markets
  }

  function ProviderList(up: Option<string -> seq<Item>>, markets: seq<string>): Result<seq<Info>, Error> {
    if up.None? then Failure(UpstreamUnavailable)
    else if exists m :: m in OrDefault(markets) && m !in KNOWN_MARKETS then Failure(InvalidRequest)
    else Success(Tables(up.value, OrDefault(markets)))
  }

  function ProviderPages(up: Option<string -> seq<Item>>, markets: seq<string>, start: nat, count: nat)
    : Result<seq<Info>, Error>
  {
    if up.None? then Failure(UpstreamUnavailable)
    else if exists m :: m in OrDefault(markets) && m !in KNOWN_MARKETS then Failure(InvalidRequest)
    else Success(Pages(up.value, OrDefault(markets), start, count))
  }

  // The provider's list, with start and count for each market; None when no client
  // can be had. Without a count, that is the list of whole markets.
  method ProviderGetSecurityInfo(up: Option<string -> seq<Item>>, markets: seq<string>, start: nat, count: nat)
    returns (r: Result<seq<Info>, Error>)
    requires up.Some? ==> Fits(up.value)
    ensures r == ProviderPages(up, markets, start, count)
    ensures count == 0 ==> r == ProviderList(up, markets)
  {
    var list := markets;
    if |list| == 0 {
      list := DEFAULT_MARKETS;
    }
    if up.None? {
      return Failure(UpstreamUnavailable);
    }
    var out := [];
    for i := 0 to |list|
      invariant forall m | m in list[..i] :: m in KNOWN_MARKETS
      invariant out == Pages(up.value, list[..i], start, count)
    {
      assert list[..i + 1] == list[..i] + [list[i]];
      if list[i] !in KNOWN_MARKETS {
        assert list[i] in list;
        return Failure(InvalidRequest);
      }
      PagesNext(up.value, list, start, count, i);
      var securities := FetchSecurities(up.value(list[i]), start, count);
      out := out + Tagged(list[i], securities);
    }
    assert list[..|list|] == list;
    PagesAreTables(up.value, list, start);
    r := Success(out);
  }

  // --- What is fetched for a query

  // The markets of the symbols, each once, in order of appearance.
  function MarketsOf(symbols: seq<Symbol>): (markets: seq<string>)
    ensures forall m :: m in markets <==> m != "" && exists s :: s in symbols && s.market == m
    ensures forall i, j | 0 <= i < j < |markets| :: markets[i] != markets[j]
  {
    if symbols == [] then []
    else
      var n := |symbols| - 1;
      var rest := MarketsOf(symbols[..n]);
      assert symbols == symbols[..n] + [symbols[n]];
      if symbols[n].market == "" || symbols[n].market in rest then rest else rest + [symbols[n].market]
  }

  function FetchMarkets(q: Query): seq<string> {
    if q.markets == [] then MarketsOf(q.symbols) else q.markets
  }

  method SecurityFetchQuery(q: Query) returns (markets: seq<string>)
    ensures markets == FetchMarkets(q)
  {
    markets := q.markets;
    if |markets| == 0 && |q.symbols| > 0 {
      var seen: set<string> := {};
      for i := 0 to |q.symbols|
        invariant markets == MarketsOf(q.symbols[..i])
        invariant forall m :: m in seen <==> m in markets
      {
        assert q.symbols[..i + 1][..i] == q.symbols[..i];
        var market := q.symbols[i].market;
        if market == "" || market in seen {
          continue;
        }
        seen := seen + {market};
        markets := markets + [market];
      }
      assert q.symbols[..|q.symbols|] == q.symbols;
    }
  }

  // --- Sorting by market and code

  // Order of strings, byte by byte.
  predicate Before(a: string, b: string) {
    b != "" && (a == "" || a[0] < b[0] || (a[0] == b[0] && Before(a[1..], b[1..])))
  }

  predicate Less(s: Symbol, t: Symbol) {
    Before(s.market, t.market) || (s.market == t.market && Before(s.code, t.code))
  }

  // One turn of a stable sort.
  function Insert(sorted: seq<Info>, x: Info): seq<Info> {
    if sorted == [] then [x]
    else
      var n := |sorted| - 1;
      if Less(x.symbol, sorted[n].symbol) then Insert(sorted[..n], x) + [sorted[n]] else sorted + [x]
  }

  // sort.SliceStable by market, then code.
  function Sort(items: seq<Info>): seq<Info> {
    if items == [] then [] else Insert(Sort(items[..|items| - 1]), items[|items| - 1])
  }

  // --- Filtering and paging

  predicate Keeps(q: Query, s: Symbol) {
    (q.markets == [] || s.market in q.markets) && (q.symbols == [] || s in q.symbols)
  }

  function Select(items: seq<Info>, q: Query): seq<Info> {
    if items == [] then []
    else
      var n := |items| - 1;
      var rest := Select(items[..n], q);
      if Keeps(q, items[n].symbol) then rest + [items[n]] else rest
  }

  function Cut(items: seq<Info>, start: nat, count: nat): seq<Info> {
    if start > |items| then []
    else items[start..if count > 0 && start + count < |items| then start + count else |items|]
  }

  lemma CutIsPage(items: seq<Info>, start: nat, count: nat)
    ensures IsPage(Cut(items, start, count), items, start, count)
  {
  }

  function Filtered(items: seq<Info>, q: Query): Result<seq<Info>, Error> {
    if exists s :: s in q.symbols && !ValidSymbol(s) then Failure(InvalidRequest)
    else Success(Cut(Sort(Select(items, q)), q.start, q.count))
  }

  method FilterSecurityInfo(items: seq<Info>, q: Query) returns (r: Result<seq<Info>, Error>)
    ensures r == Filtered(items, q)
  {
    for i := 0 to |q.symbols|
      invariant forall s | s in q.symbols[..i] :: ValidSymbol(s)
    {
      assert q.symbols[..i + 1] == q.symbols[..i] + [q.symbols[i]];
      if !ValidSymbol(q.symbols[i]) {
        assert q.symbols[i] in q.symbols;
        return Failure(InvalidRequest);
      }
    }
    assert q.symbols[..|q.symbols|] == q.symbols;
    var out := [];
    for i := 0 to |items|
      invariant out == Select(items[..i], q)
    {
      assert items[..i + 1][..i] == items[..i];
      if |q.markets| > 0 && items[i].symbol.market !in q.markets {
        continue;
      }
      if |q.symbols| > 0 && items[i].symbol !in q.symbols {
        continue;
      }
      out := out + [items[i]];
    }
    assert items[..|items|] == items;
    out := Sort(out);
    if q.start > |out| {
      return Success([]);
    }
    var to := |out|;
    if q.count > 0 && q.start + q.count < to {
      to := q.start + q.count;
    }
    r := Success(out[q.start..to]);
  }

  // --- The service

  // The cache key is the sorted list of fetched markets: their multiset.
  type Cache = map<multiset<string>, seq<Info>>

  // The list a query is answered from: the cached one, or a fetched one.
  function Source(cache: Option<Cache>, hit: bool, up: Option<string -> seq<Item>>, q: Query): Result<seq<Info>, Error> {
    var key := multiset(FetchMarkets(q));
    if cache.Some? && !q.refresh && hit && key in cache.value then Success(cache.value[key])
    else ProviderList(up, FetchMarkets(q))
  }

  function Answer(cache: Option<Cache>, hit: bool, up: Option<string -> seq<Item>>, q: Query): Result<seq<Info>, Error> {
    match Source(cache, hit, up, q)
    case Failure(e) => Failure(e)
    case Success(items) => Filtered(items, q)
  }

  function CacheAfter(cache: Option<Cache>, hit: bool, up: Option<string -> seq<Item>>, q: Query): Option<Cache> {
    match Source(cache, hit, up, q)
    case Failure(_) => cache
    case Success(items) =>
      if cache.None? then None else Some(cache.value[multiset(FetchMarkets(q)) := items])
  }

  class SecurityService {
    var cache: Option<Cache>

    constructor (withCache: bool)
      ensures cache == if withCache then Some(map[]) else None
    {
      cache := if withCache then Some(map[]) else None;
    }

    // hit says whether a cached list, if there is one, has not expired.
    method GetSecurityInfo(up: Option<string -> seq<Item>>, hit: bool, q: Query) returns (r: Result<seq<Info>, Error>)
      requires up.Some? ==> Fits(up.value)
      modifies this
      ensures r == Answer(old(cache), hit, up, q)
      ensures cache == CacheAfter(old(cache), hit, up, q)
    {
      var markets := SecurityFetchQuery(q);
      var key := multiset(markets);
      if cache.Some? && !q.refresh {
        if hit && key in cache.value {
          assert cache.value[key := cache.value[key]] == cache.value;
          r := FilterSecurityInfo(cache.value[key], q);
          return;
        }
      }
      var fetched := ProviderGetSecurityInfo(up, markets, 0, 0);
      if fetched.Failure? {
        return Failure(fetched.error);
      }
      if cache.Some? {
        cache := Some(cache.value[key := fetched.value]);
      }
      r := FilterSecurityInfo(fetched.value, q);
    }
  }
}
