// Fetching whole markets and then filtering, sorting and paging locally, against
// doing so over the upstream tables directly.
module SecurityLaws {
  import opened Wrappers
  import opened Bars
  import opened Securities

  // --- The order is a total order

  lemma {:induction false} BeforeIsTotal(a: string, b: string)
    ensures !(Before(a, b) && Before(b, a))
    ensures Before(a, b) || Before(b, a) || a == b
  {
    if a != "" && b != "" && a[0] == b[0] {
      BeforeIsTotal(a[1..], b[1..]);
      assert a == [a[0]] + a[1..] && b == [b[0]] + b[1..];
    }
  }

  lemma {:induction false} BeforeIsTransitive(a: string, b: string, c: string)
    requires Before(a, b) && Before(b, c)
    ensures Before(a, c)
  {
    if a != "" && b != "" && c != "" && a[0] == b[0] == c[0] {
      BeforeIsTransitive(a[1..], b[1..], c[1..]);
    }
  }

  // a comes before b in the order of strings: they agree up to some place, where a ends
  // or has the smaller character.
  ghost predicate Precedes(a: string, b: string) {
    exists i :: DiffersAt(a, b, i)
  }

  predicate DiffersAt(a: string, b: string, i: int) {
    0 <= i <= |a| && i < |b| && a[..i] == b[..i] && (i == |a| || a[i] < b[i])
  }

  lemma AgreeBefore(a: string, b: string, i: int)
    requires DiffersAt(a, b, i)
    ensures i > 0 ==> a[0] == b[0]
  {
    assert i > 0 ==> a[..i][0] == a[0] && b[..i][0] == b[0];
  }

  lemma {:induction false} BeforeMeaning(a: string, b: string)
    ensures Before(a, b) <==> Precedes(a, b)
  {
    if b == "" || a == "" || a[0] != b[0] {
      if b != "" && (a == "" || a[0] < b[0]) {
        assert DiffersAt(a, b, 0);
      }
      if i :| DiffersAt(a, b, i) {
        AgreeBefore(a, b, i);
      }
    } else {
      BeforeMeaning(a[1..], b[1..]);
      if Before(a[1..], b[1..]) {
        var i :| DiffersAt(a[1..], b[1..], i);
        assert a[..i + 1] == [a[0]] + a[1..][..i] && b[..i + 1] == [b[0]] + b[1..][..i];
        assert DiffersAt(a, b, i + 1);
      }
      if i :| DiffersAt(a, b, i) {
        assert a[1..][..i - 1] == a[..i][1..] && b[1..][..i - 1] == b[..i][1..];
        assert DiffersAt(a[1..], b[1..], i - 1);
      }
    }
  }

  lemma LessIsTotal(s: Symbol, t: Symbol)
    ensures !(Less(s, t) && Less(t, s))
    ensures Less(s, t) || Less(t, s) || s == t
  {
    BeforeIsTotal(s.market, t.market);
    BeforeIsTotal(s.code, t.code);
  }

  lemma LessIsTransitive(s: Symbol, t: Symbol, u: Symbol)
    requires Less(s, t) && Less(t, u)
    ensures Less(s, u)
  {
    if Before(s.market, t.market) && Before(t.market, u.market) {
      BeforeIsTransitive(s.market, t.market, u.market);
    }
    if Before(s.code, t.code) && Before(t.code, u.code) {
      BeforeIsTransitive(s.code, t.code, u.code);
    }
  }

  // --- A sorted list is determined by what it holds for each symbol

  // The rows of one symbol, in list order.
  function Group(items: seq<Info>, s: Symbol): seq<Info> {
    if items == [] then []
    else
      var n := |items| - 1;
      if items[n].symbol == s then Group(items[..n], s) + [items[n]] else Group(items[..n], s)
  }

  ghost predicate Ordered(items: seq<Info>) {
    forall i, j | 0 <= i < j < |items| :: !Less(items[j].symbol, items[i].symbol)
  }

  lemma {:induction false} GroupMembers(items: seq<Info>, s: Symbol)
    ensures forall x :: x in Group(items, s) <==> x in items && x.symbol == s
  {
    if items != [] {
      GroupMembers(items[..|items| - 1], s);
      assert items == items[..|items| - 1] + [items[|items| - 1]];
    }
  }

  lemma {:induction false} GroupConcat(a: seq<Info>, b: seq<Info>, s: Symbol)
    ensures Group(a + b, s) == Group(a, s) + Group(b, s)
  {
    if b == [] {
      assert a + b == a;
    } else {
      assert (a + b)[..|a + b| - 1] == a + b[..|b| - 1];
      GroupConcat(a, b[..|b| - 1], s);
    }
  }

  // The last symbol of one ordered list is the last of another with the same groups.
  lemma SameLast(a: seq<Info>, b: seq<Info>)
    requires Ordered(a) && Ordered(b) && a != []
    requires forall s :: Group(a, s) == Group(b, s)
    ensures b != [] && a[|a| - 1] == b[|b| - 1]
  {
    var x := a[|a| - 1];
    GroupMembers(a, x.symbol);
    GroupMembers(b, x.symbol);
    assert x in b;
    var y := b[|b| - 1];
    GroupMembers(a, y.symbol);
    GroupMembers(b, y.symbol);
    assert y in a;
    NotLessThanMember(a, y);
    NotLessThanMember(b, x);
    LessIsTotal(x.symbol, y.symbol);
    assert Group(a, x.symbol)[|Group(a, x.symbol)| - 1] == x;
    assert Group(b, y.symbol)[|Group(b, y.symbol)| - 1] == y;
  }

  lemma NotLessThanMember(items: seq<Info>, x: Info)
    requires Ordered(items) && x in items
    ensures !Less(items[|items| - 1].symbol, x.symbol)
  {
    LessIsTotal(x.symbol, x.symbol);
  }

  lemma {:induction false} SameGroups(a: seq<Info>, b: seq<Info>)
    requires Ordered(a) && Ordered(b) && forall s :: Group(a, s) == Group(b, s)
    ensures a == b
  {
    if a == [] {
      if b != [] {
        SameLast(b, a);
      }
    } else {
      SameLast(a, b);
      var n, m := |a| - 1, |b| - 1;
      forall s
        ensures Group(a[..n], s) == Group(b[..m], s)
      {
        assert Group(a, s) == Group(b, s);
        assert a[n].symbol == s ==> Group(a, s)[..|Group(a, s)| - 1] == Group(a[..n], s);
        assert b[m].symbol == s ==> Group(b, s)[..|Group(b, s)| - 1] == Group(b[..m], s);
      }
      SameGroups(a[..n], b[..m]);
      assert a == a[..n] + [a[n]] && b == b[..m] + [b[m]];
    }
  }

  // --- Sorting orders, and keeps the rows of each symbol as they were

  lemma {:induction false} InsertOrders(sorted: seq<Info>, x: Info)
    requires Ordered(sorted)
    ensures Ordered(Insert(sorted, x))
    ensures forall y | y in Insert(sorted, x) :: y == x || y in sorted
  {
    if sorted != [] {
      var n := |sorted| - 1;
      if Less(x.symbol, sorted[n].symbol) {
        InsertOrders(sorted[..n], x);
        LessIsTotal(x.symbol, sorted[n].symbol);
        var inner := Insert(sorted[..n], x);
        assert forall i | 0 <= i < |inner| :: inner[i] in inner;
      } else {
        forall i | 0 <= i <= n
          ensures !Less(x.symbol, sorted[i].symbol)
        {
          NotLessLower(sorted[i].symbol, sorted[n].symbol, x.symbol);
          LessIsTotal(x.symbol, x.symbol);
        }
      }
    }
  }

  lemma NotLessLower(s: Symbol, t: Symbol, u: Symbol)
    requires (s == t || !Less(t, s)) && !Less(u, t)
    ensures !Less(u, s)
  {
    LessIsTotal(s, t);
    LessIsTotal(t, u);
    if Less(u, s) && Less(s, t) {
      LessIsTransitive(u, s, t);
    }
  }

  lemma {:induction false} InsertGroup(sorted: seq<Info>, x: Info, s: Symbol)
    ensures Group(Insert(sorted, x), s) == Group(sorted, s) + if x.symbol == s then [x] else []
  {
    if sorted != [] {
      var n := |sorted| - 1;
      if Less(x.symbol, sorted[n].symbol) {
        InsertGroup(sorted[..n], x, s);
        LessIsTotal(x.symbol, x.symbol);
        var inner := Insert(sorted[..n], x);
        assert (inner + [sorted[n]])[..|inner|] == inner;
      } else {
        assert (sorted + [x])[..|sorted|] == sorted;
      }
    }
  }

  lemma {:induction false} SortMeaning(items: seq<Info>)
    ensures Ordered(Sort(items))
    ensures forall s :: Group(Sort(items), s) == Group(items, s)
  {
    if items != [] {
      var n := |items| - 1;
      SortMeaning(items[..n]);
      InsertOrders(Sort(items[..n]), items[n]);
      forall s
        ensures Group(Sort(items), s) == Group(items, s)
      {
        InsertGroup(Sort(items[..n]), items[n], s);
      }
    }
  }

  lemma {:induction false} SelectGroup(items: seq<Info>, q: Query, s: Symbol)
    ensures Group(Select(items, q), s) == if Keeps(q, s) then Group(items, s) else []
  {
    if items != [] {
      var n := |items| - 1;
      SelectGroup(items[..n], q, s);
      var rest := Select(items[..n], q);
      assert (rest + [items[n]])[..|rest|] == rest;
    }
  }

  // --- Which markets are fetched

  // Market m turns up first, among the symbols, at symbol i.
  ghost predicate FirstAt(symbols: seq<Symbol>, m: string, i: int) {
    0 <= i < |symbols| && symbols[i].market == m && forall j | 0 <= j < i :: symbols[j].market != m
  }

  // Market m turns up before market o.
  ghost predicate InTurn(symbols: seq<Symbol>, m: string, o: string) {
    exists i, j :: i < j && FirstAt(symbols, m, i) && FirstAt(symbols, o, j)
  }

  lemma {:induction false} MarketsInOrder(symbols: seq<Symbol>, a: nat, b: nat) returns (i: int, j: int)
    requires a < b < |MarketsOf(symbols)|
    ensures i < j && FirstAt(symbols, MarketsOf(symbols)[a], i) && FirstAt(symbols, MarketsOf(symbols)[b], j)
  {
    var n := |symbols| - 1;
    var rest := MarketsOf(symbols[..n]);
    if b < |rest| {
      i, j := MarketsInOrder(symbols[..n], a, b);
    } else {
      i := FirstOf(symbols[..n], a);
      j := n;
      NewAtTheEnd(symbols, b);
    }
  }

  lemma NewAtTheEnd(symbols: seq<Symbol>, b: nat)
    requires symbols != [] && |MarketsOf(symbols[..|symbols| - 1])| <= b < |MarketsOf(symbols)|
    ensures FirstAt(symbols, MarketsOf(symbols)[b], |symbols| - 1)
  {
    var n := |symbols| - 1;
    assert forall x | 0 <= x < n :: symbols[x] in symbols[..n];
  }

  lemma FirstOf(symbols: seq<Symbol>, a: nat) returns (i: int)
    requires a < |MarketsOf(symbols)|
    ensures FirstAt(symbols, MarketsOf(symbols)[a], i)
  {
    var m := MarketsOf(symbols)[a];
    assert m in MarketsOf(symbols);
    i := 0;
    while symbols[i].market != m
      invariant 0 <= i < |symbols| && forall j | 0 <= j < i :: symbols[j].market != m
      invariant exists j :: i <= j < |symbols| && symbols[j].market == m
      decreases |symbols| - i
    {
      i := i + 1;
    }
  }

  // The markets asked for, as they are; or else those of the symbols, each once, in the
  // order in which they turn up.
  lemma FetchMeaning(q: Query)
    ensures q.markets != [] ==> FetchMarkets(q) == q.markets
    ensures q.markets == [] ==>
              && (forall m :: m in FetchMarkets(q) <==> m != "" && exists s :: s in q.symbols && s.market == m)
              && (forall a, b | 0 <= a < b < |FetchMarkets(q)| :: FetchMarkets(q)[a] != FetchMarkets(q)[b])
              && (forall a, b | 0 <= a < b < |FetchMarkets(q)| ::
                    InTurn(q.symbols, FetchMarkets(q)[a], FetchMarkets(q)[b]))
  {
    if q.markets == [] {
      forall a, b | 0 <= a < b < |FetchMarkets(q)|
        ensures InTurn(q.symbols, FetchMarkets(q)[a], FetchMarkets(q)[b])
      {
        var i, j := MarketsInOrder(q.symbols, a, b);
      }
    }
  }

  // --- What whole markets contain

  // The upstream rows of one symbol.
  function Rows(up: string -> seq<Item>, s: Symbol): seq<Info> {
    Group(Tagged(s.market, up(s.market)), s)
  }

  function Times(n: nat, rows: seq<Info>): seq<Info> {
    if n == 0 then [] else Times(n - 1, rows) + rows
  }

  lemma {:induction false} TaggedElsewhere(market: string, items: seq<Item>, s: Symbol)
    requires s.market != market
    ensures Group(Tagged(market, items), s) == []
  {
    if items != [] {
      TaggedElsewhere(market, items[..|items| - 1], s);
      assert Tagged(market, items)[..|items| - 1] == Tagged(market, items[..|items| - 1]);
    }
  }

  lemma {:induction false} TablesGroup(up: string -> seq<Item>, markets: seq<string>, s: Symbol)
    ensures Group(Tables(up, markets), s) == Times(multiset(markets)[s.market], Rows(up, s))
  {
    if markets != [] {
      var n := |markets| - 1;
      var last := Tagged(markets[n], up(markets[n]));
      TablesGroup(up, markets[..n], s);
      GroupConcat(Tables(up, markets[..n]), last, s);
      OneMoreMarket(markets, s.market);
      if markets[n] != s.market {
        TaggedElsewhere(markets[n], up(markets[n]), s);
      }
    }
  }

  lemma OneMoreMarket(markets: seq<string>, m: string)
    requires markets != []
    ensures var n := |markets| - 1;
            multiset(markets)[m] == multiset(markets[..n])[m] + if markets[n] == m then 1 else 0
  {
    assert markets == markets[..|markets| - 1] + [markets[|markets| - 1]];
  }

  lemma {:induction false} TimesLength(n: nat, rows: seq<Info>)
    requires rows != []
    ensures |Times(n, rows)| >= n && (n > 1 ==> |Times(n, rows)| > |rows|)
  {
    if n > 0 {
      TimesLength(n - 1, rows);
    }
  }

  // --- The rewriting is exact

  // The query with the default markets written out.
  function Explicit(q: Query): Query {
    if q.markets == [] && q.symbols == [] then q.(markets := DEFAULT_MARKETS) else q
  }

  // Filter and sort over all upstream tables.
  function Direct(up: string -> seq<Item>, q: Query): seq<Info> {
    Sort(Select(Tables(up, KNOWN_MARKETS), Explicit(q)))
  }

  // Filter and sort over what the service fetches.
  function Rewritten(up: string -> seq<Item>, q: Query): seq<Info> {
    Sort(Select(Tables(up, OrDefault(FetchMarkets(q))), q))
  }

  // Symbols are valid and the markets asked for exist.
  ghost predicate WellFormed(q: Query) {
    && (forall s | s in q.symbols :: ValidSymbol(s))
    && forall m | m in FetchMarkets(q) :: m in KNOWN_MARKETS
  }

  // A market asked for twice has no row that the query keeps.
  ghost predicate NoRepeatedRows(up: string -> seq<Item>, q: Query) {
    forall s | Keeps(q, s) && multiset(FetchMarkets(q))[s.market] > 1 :: Rows(up, s) == []
  }

  lemma {:induction false} OnceEach(markets: seq<string>, m: string)
    requires forall i, j | 0 <= i < j < |markets| :: markets[i] != markets[j]
    ensures multiset(markets)[m] == if m in markets then 1 else 0
  {
    if markets != [] {
      OnceEach(markets[..|markets| - 1], m);
      OneMoreMarket(markets, m);
    }
  }

  lemma RewrittenGroup(up: string -> seq<Item>, q: Query, s: Symbol)
    ensures Group(Rewritten(up, q), s)
         == if Keeps(q, s) then Times(multiset(OrDefault(FetchMarkets(q)))[s.market], Rows(up, s)) else []
  {
    var items := Tables(up, OrDefault(FetchMarkets(q)));
    SortMeaning(Select(items, q));
    SelectGroup(items, q, s);
    TablesGroup(up, OrDefault(FetchMarkets(q)), s);
  }

  lemma DirectGroup(up: string -> seq<Item>, q: Query, s: Symbol)
    ensures Group(Direct(up, q), s)
         == if Keeps(Explicit(q), s) && s.market in KNOWN_MARKETS then Rows(up, s) else []
  {
    var items := Tables(up, KNOWN_MARKETS);
    SortMeaning(Select(items, Explicit(q)));
    SelectGroup(items, Explicit(q), s);
    KnownGroup(up, s);
  }

  lemma KnownGroup(up: string -> seq<Item>, s: Symbol)
    ensures Group(Tables(up, KNOWN_MARKETS), s) == if s.market in KNOWN_MARKETS then Rows(up, s) else []
  {
    TablesGroup(up, KNOWN_MARKETS, s);
    OnceEach(KNOWN_MARKETS, s.market);
    assert Times(1, Rows(up, s)) == Rows(up, s);
  }

  // How often a symbol's market is fetched: once, unless it was asked for repeatedly.
  lemma FetchedHowOften(q: Query, s: Symbol)
    requires WellFormed(q) && Keeps(q, s)
    ensures var n := multiset(OrDefault(FetchMarkets(q)))[s.market];
            && (Keeps(Explicit(q), s) && s.market in KNOWN_MARKETS ==> n >= 1)
            && (!(Keeps(Explicit(q), s) && s.market in KNOWN_MARKETS) ==> n == 0)
            && (FetchMarkets(q) == [] ==> n <= 1)
  {
    if q.markets == [] && q.symbols == [] {
      OnceEach(DEFAULT_MARKETS, s.market);
    } else if q.markets == [] {
      assert s.market in MarketsOf(q.symbols);
    }
  }

  // Before paging, the service's answer is the direct one exactly when no market
  // with a row that the query keeps is asked for twice.
  lemma RewriteExactWhen(up: string -> seq<Item>, q: Query)
    requires WellFormed(q)
    ensures Rewritten(up, q) == Direct(up, q) <==> NoRepeatedRows(up, q)
  {
    SortMeaning(Select(Tables(up, OrDefault(FetchMarkets(q))), q));
    SortMeaning(Select(Tables(up, KNOWN_MARKETS), Explicit(q)));
    if NoRepeatedRows(up, q) {
      forall s
        ensures Group(Rewritten(up, q), s) == Group(Direct(up, q), s)
      {
        SameGroupOnce(up, q, s);
      }
      SameGroups(Rewritten(up, q), Direct(up, q));
    }
    if Rewritten(up, q) == Direct(up, q) {
      forall s | Keeps(q, s) && multiset(FetchMarkets(q))[s.market] > 1
        ensures Rows(up, s) == []
      {
        RewrittenGroup(up, q, s);
        DirectGroup(up, q, s);
        if Rows(up, s) != [] {
          TimesLength(multiset(FetchMarkets(q))[s.market], Rows(up, s));
        }
      }
    }
  }

  lemma SameGroupOnce(up: string -> seq<Item>, q: Query, s: Symbol)
    requires WellFormed(q) && NoRepeatedRows(up, q)
    ensures Group(Rewritten(up, q), s) == Group(Direct(up, q), s)
  {
    RewrittenGroup(up, q, s);
    DirectGroup(up, q, s);
    if Keeps(q, s) {
      FetchedHowOften(q, s);
      var n := multiset(OrDefault(FetchMarkets(q)))[s.market];
      if n == 1 {
        assert Times(1, Rows(up, s)) == Rows(up, s);
      } else if n > 1 {
        TimesNothing(n);
      }
    }
  }

  lemma {:induction false} TimesNothing(n: nat)
    ensures Times(n, []) == []
  {
    if n > 0 {
      TimesNothing(n - 1);
    }
  }

  // --- The direct result, row by row

  // Where a table has a row.
  function Places(items: seq<Item>, y: Item): set<nat> {
    set i: nat | i < |items| && items[i] == y
  }

  // Which rows of the upstream table of its market are x.
  function Sources(up: string -> seq<Item>, x: Info): set<nat> {
    Places(up(x.symbol.market), Item(x.symbol.code, x.data))
  }

  lemma {:induction false} CountInGroup(items: seq<Info>, x: Info)
    ensures multiset(Group(items, x.symbol))[x] == multiset(items)[x]
  {
    if items != [] {
      var n := |items| - 1;
      CountInGroup(items[..n], x);
      assert items == items[..n] + [items[n]];
    }
  }

  lemma {:induction false} CountTagged(market: string, items: seq<Item>, x: Info)
    requires x.symbol.market == market
    ensures multiset(Tagged(market, items))[x] == |Places(items, Item(x.symbol.code, x.data))|
  {
    if items == [] {
      assert Places([], Item(x.symbol.code, x.data)) == {};
    } else {
      var n := |items| - 1;
      CountTagged(market, items[..n], x);
      OneMorePlace(items, Item(x.symbol.code, x.data));
      assert Tagged(market, items) == Tagged(market, items[..n]) + [Info(Symbol(market, items[n].code), items[n].data)];
    }
  }

  lemma OneMorePlace(items: seq<Item>, y: Item)
    requires items != []
    ensures var n := |items| - 1;
            |Places(items, y)| == |Places(items[..n], y)| + if items[n] == y then 1 else 0
  {
    var n := |items| - 1;
    assert Places(items, y) == Places(items[..n], y) + if items[n] == y then {n} else {};
  }

  // The markets whose rows are listed: those asked for, or else all known ones for the
  // symbols given, or else the three default ones.
  predicate Listed(q: Query, market: string) {
    if q.markets != [] then market in q.markets && market in ["SH", "SZ", "BJ", "HK", "US"]
    else if q.symbols != [] then market in ["SH", "SZ", "BJ", "HK", "US"]
    else market in ["SH", "SZ", "BJ"]
  }

  // Ordered by market, and by code within a market.
  ghost predicate InListOrder(items: seq<Info>) {
    forall i, j | 0 <= i < j < |items| ::
      && !Precedes(items[j].symbol.market, items[i].symbol.market)
      && (items[j].symbol.market == items[i].symbol.market ==> !Precedes(items[j].symbol.code, items[i].symbol.code))
  }

  lemma OrderedInList(items: seq<Info>)
    requires Ordered(items)
    ensures InListOrder(items)
  {
    forall i, j | 0 <= i < j < |items|
      ensures !Precedes(items[j].symbol.market, items[i].symbol.market)
      ensures items[j].symbol.market == items[i].symbol.market ==> !Precedes(items[j].symbol.code, items[i].symbol.code)
    {
      BeforeMeaning(items[j].symbol.market, items[i].symbol.market);
      BeforeMeaning(items[j].symbol.code, items[i].symbol.code);
      assert !Less(items[j].symbol, items[i].symbol);
    }
  }

  // The direct result has every row as often as the upstream table of its market has
  // it, if the market is listed and the symbol asked for, and no other; in list order.
  lemma DirectMeaning(up: string -> seq<Item>, q: Query, x: Info)
    ensures InListOrder(Direct(up, q))
    ensures multiset(Direct(up, q))[x] ==
            if Listed(q, x.symbol.market) && (q.symbols == [] || x.symbol in q.symbols) then |Sources(up, x)| else 0
  {
    SortMeaning(Select(Tables(up, KNOWN_MARKETS), Explicit(q)));
    OrderedInList(Direct(up, q));
    DirectGroup(up, q, x.symbol);
    CountInGroup(Direct(up, q), x);
    CountInGroup(Tagged(x.symbol.market, up(x.symbol.market)), x);
    CountTagged(x.symbol.market, up(x.symbol.market), x);
  }

  // In particular for distinct markets, and for none given.
  lemma DistinctMarketsAreExact(up: string -> seq<Item>, q: Query)
    requires WellFormed(q) && forall i, j | 0 <= i < j < |q.markets| :: q.markets[i] != q.markets[j]
    ensures Answer(None, false, Some(up), q) == Success(Cut(Direct(up, q), q.start, q.count))
  {
    assert NoRepeatedRows(up, q) by {
      NoneTwice(FetchMarkets(q));
    }
    RewriteExactWhen(up, q);
    AnswerIsRewritten(up, q);
  }

  // So for distinct markets the answer is a page of a list, in list order, that has the
  // upstream's rows of the listed markets and the symbols asked for.
  lemma AnswerInPlain(up: string -> seq<Item>, q: Query, x: Info) returns (items: seq<Info>)
    requires WellFormed(q) && forall i, j | 0 <= i < j < |q.markets| :: q.markets[i] != q.markets[j]
    ensures Answer(None, false, Some(up), q).Success?
    ensures IsPage(Answer(None, false, Some(up), q).value, items, q.start, q.count)
    ensures items == Direct(up, q) && InListOrder(items)
    ensures multiset(items)[x] ==
            if Listed(q, x.symbol.market) && (q.symbols == [] || x.symbol in q.symbols) then |Sources(up, x)| else 0
  {
    items := Direct(up, q);
    DistinctMarketsAreExact(up, q);
    DirectMeaning(up, q, x);
    CutIsPage(items, q.start, q.count);
  }

  // Without a cache, a query is refused exactly if a market asked for is unknown or a
  // symbol is incomplete; and it fails if the upstream cannot be reached.
  lemma RefusedExactlyWhen(up: string -> seq<Item>, q: Query)
    ensures Answer(None, false, None, q) == Failure(UpstreamUnavailable)
    ensures Answer(None, false, Some(up), q).Failure? ==> Answer(None, false, Some(up), q).error == InvalidRequest
    ensures Answer(None, false, Some(up), q).Failure? <==>
            || (exists m :: m in FetchMarkets(q) && m !in ["SH", "SZ", "BJ", "HK", "US"])
            || (exists s :: s in q.symbols && (s.market == "" || s.code == ""))
  {
    assert forall s | s in q.symbols :: ValidSymbol(s) <==> s.market != "" && s.code != "";
  }

  lemma AnswerIsRewritten(up: string -> seq<Item>, q: Query)
    requires WellFormed(q)
    ensures Answer(None, false, Some(up), q) == Success(Cut(Rewritten(up, q), q.start, q.count))
  {
    assert forall m | m in OrDefault(FetchMarkets(q)) :: m in KNOWN_MARKETS;
  }

  lemma NoneTwice(markets: seq<string>)
    requires forall i, j | 0 <= i < j < |markets| :: markets[i] != markets[j]
    ensures forall m :: multiset(markets)[m] <= 1
  {
    forall m
      ensures multiset(markets)[m] <= 1
    {
      OnceEach(markets, m);
    }
  }

  // --- The cache makes no difference

  ghost predicate Fetched(up: string -> seq<Item>, key: multiset<string>, items: seq<Info>, markets: seq<string>) {
    && multiset(markets) == key && items == Tables(up, OrDefault(markets))
    && forall m | m in OrDefault(markets) :: m in KNOWN_MARKETS
  }

  ghost predicate CacheGood(up: string -> seq<Item>, cache: Cache) {
    forall key | key in cache :: exists markets :: Fetched(up, key, cache[key], markets)
  }

  // Lists of the same markets in any order sort to the same answer.
  lemma OrderOfMarkets(up: string -> seq<Item>, a: seq<string>, b: seq<string>, q: Query)
    requires multiset(a) == multiset(b)
    ensures Filtered(Tables(up, OrDefault(a)), q) == Filtered(Tables(up, OrDefault(b)), q)
  {
    assert |a| == |multiset(a)| == |multiset(b)| == |b|;
    var x, y := Select(Tables(up, OrDefault(a)), q), Select(Tables(up, OrDefault(b)), q);
    SortMeaning(x);
    SortMeaning(y);
    forall s
      ensures Group(Sort(x), s) == Group(Sort(y), s)
    {
      SelectGroup(Tables(up, OrDefault(a)), q, s);
      SelectGroup(Tables(up, OrDefault(b)), q, s);
      TablesGroup(up, OrDefault(a), s);
      TablesGroup(up, OrDefault(b), s);
    }
    SameGroups(Sort(x), Sort(y));
  }

  // Which markets can be listed does not depend on their order.
  lemma ListableInAnyOrder(up: string -> seq<Item>, a: seq<string>, b: seq<string>)
    requires multiset(a) == multiset(b) && forall m | m in OrDefault(a) :: m in KNOWN_MARKETS
    ensures ProviderList(Some(up), b) == Success(Tables(up, OrDefault(b)))
  {
    assert |a| == |multiset(a)| == |multiset(b)| == |b|;
    forall m | m in OrDefault(b)
      ensures m in KNOWN_MARKETS
    {
      assert m in b ==> m in multiset(b);
      assert m in multiset(a) ==> m in a;
    }
  }

  // With a cache filled from the same upstream, whatever has expired, the answer is
  // the one without a cache, except exactly when the cache does not serve the query
  // and the upstream cannot be reached.
  lemma CacheIsTransparent(up: string -> seq<Item>, cache: Cache, hit: bool, reachable: bool, q: Query)
    requires CacheGood(up, cache)
    ensures var reach := if reachable then Some(up) else None;
            var served := !q.refresh && hit && multiset(FetchMarkets(q)) in cache;
            Answer(Some(cache), hit, reach, q) ==
            if served || reachable then Answer(None, false, Some(up), q) else Failure(UpstreamUnavailable)
  {
    var key := multiset(FetchMarkets(q));
    if !q.refresh && hit && key in cache {
      var markets :| Fetched(up, key, cache[key], markets);
      OrderOfMarkets(up, markets, FetchMarkets(q), q);
      ListableInAnyOrder(up, markets, FetchMarkets(q));
    }
  }

  // What was answered is kept: the next query with the same markets, unless it asks for
  // a refresh or the entry has expired, needs no upstream.
  lemma NextQueryIsServed(up: string -> seq<Item>, cache: Cache, hit: bool, q: Query, next: Query)
    requires CacheGood(up, cache) && Answer(Some(cache), hit, Some(up), q).Success?
    requires !next.refresh && multiset(FetchMarkets(next)) == multiset(FetchMarkets(q))
    ensures var after := CacheAfter(Some(cache), hit, Some(up), q);
            after.Some? && Answer(after, true, None, next) == Answer(None, false, Some(up), next)
  {
    CacheStaysGood(up, cache, hit, true, q);
    var after := CacheAfter(Some(cache), hit, Some(up), q).value;
    assert multiset(FetchMarkets(next)) in after;
    CacheIsTransparent(up, after, true, false, next);
  }

  lemma ListIsFetched(up: string -> seq<Item>, markets: seq<string>, items: seq<Info>)
    requires ProviderList(Some(up), markets) == Success(items)
    ensures Fetched(up, multiset(markets), items, markets)
  {
  }

  lemma CacheStaysGood(up: string -> seq<Item>, cache: Cache, hit: bool, reachable: bool, q: Query)
    requires CacheGood(up, cache)
    ensures var reach := if reachable then Some(up) else None;
            CacheGood(up, CacheAfter(Some(cache), hit, reach, q).value)
  {
    var reach := if reachable then Some(up) else None;
    var key := multiset(FetchMarkets(q));
    var cached := !q.refresh && hit && key in cache;
    var r := Source(Some(cache), hit, reach, q);
    if r.Success? && !cached {
      ListIsFetched(up, FetchMarkets(q), r.value);
      assert CacheAfter(Some(cache), hit, reach, q).value == cache[key := r.value];
    } else {
      assert r.Success? ==> cache[key := r.value] == cache;
      assert CacheAfter(Some(cache), hit, reach, q).value == cache;
    }
  }
}
