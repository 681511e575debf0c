// What the local-first query answers, over any run of requests, when the upstream is
// a fixed series of daily bars stamped with their days.
module MarketLaws {
  import opened Wrappers
  import opened Bars
  import opened BarStore
  import opened Gaps
  import opened KLinePages
  import opened MarketData

  // --- The upstream and the invariant

  ghost predicate DaySeries(s: seq<Bar>, k: Series) {
    && Increasing(s) && ValidSymbol(k.symbol) && k.period == Day && k.adjust != Unset
    && forall b | b in s :: b.series == k && b.time > 0 && Midnight(b.time) == b.time
  }

  // Bars of the series, in time order.
  ghost predicate Part(bars: seq<Bar>, s: seq<Bar>) {
    Increasing(bars) && forall b | b in bars :: b in s
  }

  ghost predicate StoreGood(st: State, s: seq<Bar>, k: Series) {
    st.store.Some? ==> Part(Held(st.store.value, k), s)
  }

  ghost predicate EntryGood(bars: seq<Bar>, s: seq<Bar>, from: int, to: int) {
    Part(bars, s) && forall b | b in bars :: from <= b.time <= to
  }

  // Cached answers to whole date ranges hold bars of those ranges.
  ghost predicate CacheGood(st: State, s: seq<Bar>, k: Series) {
    st.cache.Some? ==>
      forall key | key in st.cache.value && key.series == k && key.start == 0 && key.count == 0 && key.from > 0 && key.to > 0
        :: EntryGood(st.cache.value[key], s, key.from, key.to)
  }

  ghost predicate Good(st: State, s: seq<Bar>, k: Series) {
    StoreGood(st, s, k) && CacheGood(st, s, k)
  }

  // --- Bars of one series

  lemma SameTimeSameBar(s: seq<Bar>, a: Bar, b: Bar)
    requires Increasing(s) && a in s && b in s && a.time == b.time
    ensures a == b
  {
  }

  // Merging lists of bars of one series is uniting them.
  lemma MergeUnites(left: seq<Bar>, right: seq<Bar>, s: seq<Bar>)
    requires Increasing(s) && (forall b | b in left :: b in s) && forall b | b in right :: b in s
    ensures Part(Merge(left, right), s)
    ensures forall b :: b in Merge(left, right) <==> b in left || b in right
  {
    var merged := Merge(left, right);
    MergeMeaning(left, right);
    forall b
      ensures b in merged <==> b in left || b in right
    {
      DistinctHolds(merged, b);
      AtIsMember(left, b.time);
      AtIsMember(right, b.time);
      assert At(merged, b.time) == if At(right, b.time).Some? then At(right, b.time) else At(left, b.time);
      if b in left || b in right {
        SameTimeSameBar(s, b, At(merged, b.time).value);
      }
    }
  }

  lemma StoredIsPart(p: Tables, k: Series, remote: seq<Bar>, s: seq<Bar>)
    requires Increasing(s) && Part(Held(p, k), s) && forall b | b in remote :: b in s
    ensures Part(Held(Stored(p, k, remote), k), s)
    ensures forall b :: b in Held(Stored(p, k, remote), k) <==> b in Held(p, k) || b in remote
  {
    MergeUnites(Held(p, k), remote, s);
  }

  lemma LocalIsPart(st: State, k: Series, req: Request, s: seq<Bar>)
    requires StoreGood(st, s, k)
    ensures Part(LocalAll(st, k, req), s) && Part(Local(st, k, req), s)
    ensures forall b :: b in Local(st, k, req) <==>
              st.store.Some? && b in Held(st.store.value, k)
              && InRange(b.time, 0, req.endDate) && InRange(b.time, Midnight(req.startDate), req.endDate)
  {
    if st.store.Some? {
      WithinKeeps(Held(st.store.value, k), 0, req.endDate);
    }
    WithinKeeps(LocalAll(st, k, req), Midnight(req.startDate), req.endDate);
  }

  // Day stamps do not see the time of day of the end date.
  lemma ByDay(b: Bar, startDate: int, endDate: int)
    requires Midnight(b.time) == b.time && Midnight(startDate) > 0 && Midnight(endDate) > 0
    ensures InRange(b.time, Midnight(startDate), endDate) <==> Midnight(startDate) <= b.time <= Midnight(endDate)
  {
    MidnightOf(startDate);
    MidnightOf(endDate);
    if b.time <= endDate {
      MidnightMonotone(b.time, endDate);
    }
  }

  // --- Requests for a whole date range

  ghost predicate WholeRange(req: Request) {
    req.start == 0 && req.count == 0 && Midnight(req.startDate) > 0 && Midnight(req.endDate) > 0
  }

  ghost predicate Wanted(b: Bar, req: Request) {
    InRange(b.time, Midnight(req.startDate), req.endDate)
  }

  ghost predicate AllWanted(bars: seq<Bar>, req: Request) {
    forall b | b in bars :: Wanted(b, req)
  }

  lemma WantedByDay(s: seq<Bar>, k: Series, req: Request)
    requires DaySeries(s, k) && WholeRange(req)
    ensures forall b | b in s :: Wanted(b, req) <==> Midnight(req.startDate) <= b.time <= Midnight(req.endDate)
  {
    forall b | b in s
      ensures Wanted(b, req) <==> Midnight(req.startDate) <= b.time <= Midnight(req.endDate)
    {
      ByDay(b, req.startDate, req.endDate);
    }
  }

  lemma WantedIsEntry(bars: seq<Bar>, s: seq<Bar>, k: Series, req: Request)
    requires DaySeries(s, k) && WholeRange(req) && Part(bars, s) && AllWanted(bars, req)
    ensures EntryGood(bars, s, Midnight(req.startDate), Midnight(req.endDate))
  {
    WantedByDay(s, k, req);
  }

  lemma MergedIsPart(st: State, k: Series, req: Request, s: seq<Bar>, remote: seq<Bar>)
    requires Increasing(s) && StoreGood(st, s, k) && forall b | b in remote :: b in s
    ensures var merged := Merge(Local(st, k, req), Filter(remote, req.startDate, req.endDate));
            && Part(merged, s) && AllWanted(merged, req)
            && forall b :: b in merged <==> b in Local(st, k, req) || (b in remote && Wanted(b, req))
  {
    LocalIsPart(st, k, req, s);
    WithinKeeps(remote, Midnight(req.startDate), req.endDate);
    MergeUnites(Local(st, k, req), Filter(remote, req.startDate, req.endDate), s);
  }

  // --- Every request keeps the invariant

  lemma PutEntry(st: State, s: seq<Bar>, k: Series, req: Request, bars: seq<Bar>)
    requires DaySeries(s, k) && CacheGood(st, s, k)
    requires WholeRange(req) ==> Part(bars, s) && AllWanted(bars, req)
    ensures CacheGood(st.(cache := Cached(st.cache, KeyOf(k, req), bars)), s, k)
  {
    if WholeRange(req) {
      WantedIsEntry(bars, s, k, req);
    }
  }

  lemma LocalReplyKeepsGood(st: State, k: Series, req: Request, s: seq<Bar>)
    requires DaySeries(s, k) && Good(st, s, k)
    ensures Good(LocalReply(st, k, req).state, s, k)
  {
    LocalIsPart(st, k, req, s);
    SliceAll(Local(st, k, req));
    PutEntry(st, s, k, req, Slice(Local(st, k, req), req.start, req.count));
  }

  lemma GapReplyKeepsGood(st: State, k: Series, req: Request, w: World, s: seq<Bar>)
    requires DaySeries(s, k) && Good(st, s, k) && w.up(k) == s && st.store.Some?
    requires GapsFor(LocalAll(st, k, req), k.period, req) != []
    ensures Good(GapReply(st, k, req, w).state, s, k)
  {
    var gaps := GapsFor(LocalAll(st, k, req), k.period, req);
    GapBarsFrom(s, req, gaps);
    FillKeepsGood(st, k, req, s, GapBars(s, req, gaps));
  }

  // Storing fetched bars and caching what they are merged into.
  lemma FillKeepsGood(st: State, k: Series, req: Request, s: seq<Bar>, remote: seq<Bar>)
    requires DaySeries(s, k) && Good(st, s, k) && st.store.Some? && forall b | b in remote :: b in s
    ensures var merged := Slice(Merge(Local(st, k, req), Filter(remote, req.startDate, req.endDate)), req.start, req.count);
            && StoreGood(st.(store := Some(Stored(st.store.value, k, remote))), s, k)
            && CacheGood(st.(cache := Cached(st.cache, KeyOf(k, req), merged)), s, k)
  {
    StoredIsPart(st.store.value, k, remote, s);
    MergedIsPart(st, k, req, s, remote);
    var merged := Merge(Local(st, k, req), Filter(remote, req.startDate, req.endDate));
    SliceAll(merged);
    PutEntry(st, s, k, req, Slice(merged, req.start, req.count));
  }

  // Callers with one key ask for the same days.
  lemma SameKeySameDays(s: seq<Bar>, k: Series, req: Request, leading: Request)
    requires DaySeries(s, k) && WholeRange(req) && KeyOf(k, leading) == KeyOf(k, req)
    ensures WholeRange(leading) && forall b | b in s :: Wanted(b, leading) <==> Wanted(b, req)
  {
    WantedByDay(s, k, req);
    WantedByDay(s, k, leading);
  }

  // So it does not matter whose load a request for a whole range is answered by.
  lemma SharedLoadIsOwn(s: seq<Bar>, k: Series, req: Request, leading: Request)
    requires DaySeries(s, k) && WholeRange(req) && KeyOf(k, leading) == KeyOf(k, req)
    ensures ProviderBars(s, leading) == ProviderBars(s, req)
  {
    SameKeySameDays(s, k, req, leading);
    RangeIsExact(s, req);
    RangeIsExact(s, leading);
    NewestInSeries(s);
    SameElements(ProviderBars(s, leading), ProviderBars(s, req));
  }

  lemma FullReplyKeepsGood(st: State, k: Series, req: Request, w: World, s: seq<Bar>)
    requires DaySeries(s, k) && Good(st, s, k) && w.up(k) == s
    ensures Good(FullReply(st, k, req, w).state, s, k)
  {
    var remote := ProviderBars(s, Leading(k, req, w));
    ProviderBarsFrom(s, Leading(k, req, w));
    if st.store.Some? {
      StoredIsPart(st.store.value, k, remote, s);
    }
    if WholeRange(req) {
      SharedLoadIsOwn(s, k, req, Leading(k, req, w));
      RangeIsExact(s, req);
    }
    PutEntry(st, s, k, req, remote);
  }

  // A request for one series leaves the bars and the cached answers of all others.
  ghost predicate TouchesOnly(st: State, t: State, j: Series) {
    && t.store.Some? == st.store.Some? && t.cache.Some? == st.cache.Some?
    && (st.store.Some? ==> forall k | k != j :: Held(t.store.value, k) == Held(st.store.value, k))
    && (st.cache.Some? ==> forall key: CacheKey | key.series != j && key in t.cache.value ::
          key in st.cache.value && t.cache.value[key] == st.cache.value[key])
  }

  lemma GapReplyTouchesOnly(st: State, j: Series, req: Request, w: World)
    requires st.store.Some? && GapsFor(LocalAll(st, j, req), j.period, req) != []
    ensures TouchesOnly(st, GapReply(st, j, req, w).state, j)
  {
  }

  lemma FullReplyTouchesOnly(st: State, j: Series, req: Request, w: World)
    ensures TouchesOnly(st, FullReply(st, j, req, w).state, j)
  {
  }

  lemma OtherSeries(st: State, j: Series, req: Request, w: World, s: seq<Bar>, k: Series)
    requires j != k && Good(st, s, k)
    ensures Good(MarketData.Query(st, j, req, w).state, s, k)
  {
    var t := MarketData.Query(st, j, req, w).state;
    assert TouchesOnly(st, t, j) by {
      if GapPath(st, j, req) {
        GapReplyTouchesOnly(st, j, req, w);
      }
      FullReplyTouchesOnly(st, j, req, w);
    }
  }

  lemma QueryKeepsGood(st: State, j: Series, req: Request, w: World, s: seq<Bar>, k: Series)
    requires DaySeries(s, k) && Good(st, s, k) && w.up(k) == s
    ensures Good(MarketData.Query(st, j, req, w).state, s, k)
  {
    if j != k {
      OtherSeries(st, j, req, w, s, k);
    } else if CachePath(st, k, req, w) {
    } else if LocalPath(st, k, req) {
      LocalReplyKeepsGood(st, k, req, s);
    } else if GapPath(st, k, req) {
      GapReplyKeepsGood(st, k, req, w, s);
    } else {
      FullReplyKeepsGood(st, k, req, w, s);
    }
  }

  // --- What an answer contains, and what it may leave out

  // b is in the answer, or lies between two of its bars at most 21 days apart, or
  // comes after its last bar when the range ends at most 21 days after that.
  ghost predicate Bridged(answer: seq<Bar>, b: Bar, req: Request) {
    exists a :: a in answer && BridgedFrom(answer, a, b, req)
  }

  ghost predicate BridgedFrom(answer: seq<Bar>, a: Bar, b: Bar, req: Request) {
    && a.time <= b.time
    && (HasBarUpTo(answer, b.time, a.time + 21 * DAY)
        || ((forall c | c in answer :: c.time <= a.time) && Midnight(req.endDate) <= a.time + 21 * DAY))
  }

  ghost predicate HasBarUpTo(bars: seq<Bar>, from: int, to: int) {
    exists c :: c in bars && from <= c.time <= to
  }

  // The answer holds bars of the series within the dates, in time order and each
  // once, and every upstream bar within the walk's reach that it lacks is bridged.
  ghost predicate Faithful(answer: seq<Bar>, s: seq<Bar>, req: Request) {
    && Part(answer, s) && AllWanted(answer, req)
    && forall b | b in Newest(s, 66317) && Wanted(b, req) :: Bridged(answer, b, req)
  }

  lemma PresentIsBridged(answer: seq<Bar>, b: Bar, req: Request)
    requires b in answer
    ensures Bridged(answer, b, req)
  {
    assert HasBarUpTo(answer, b.time, b.time + MAX_DAILY_BAR_GAP);
    assert BridgedFrom(answer, b, b, req);
  }

  lemma NewestInSeries(s: seq<Bar>)
    ensures forall b | b in Newest(s, REACH) :: b in s
  {
  }

  ghost predicate HasBarAt(bars: seq<Bar>, req: Request, time: int) {
    exists b :: b in bars && Wanted(b, req) && b.time == time
  }

  // The day list that the gaps of `bars` are computed from.
  lemma RangeDays(bars: seq<Bar>, s: seq<Bar>, k: Series, req: Request) returns (days: seq<int>)
    requires DaySeries(s, k) && WholeRange(req) && Part(bars, s)
    requires Midnight(req.startDate) <= Midnight(req.endDate)
    ensures var start, end := Midnight(req.startDate), Midnight(req.endDate);
            && DayList(days) && (forall i | 0 <= i < |days| :: start <= days[i] <= end)
            && GapsFor(bars, k.period, req) == RangeGaps(days, start, end)
            && (forall i | 0 <= i < |days| :: HasBarAt(bars, req, days[i]))
            && (forall b | b in bars && Wanted(b, req) :: days != [] && b.time <= days[|days| - 1])
  {
    var start, end := Midnight(req.startDate), Midnight(req.endDate);
    MidnightOf(req.startDate);
    MidnightOf(req.endDate);
    var inRange := Filter(bars, start, end);
    WantedInRange(bars, s, k, req);
    InRangeDays(inRange, start, end);
    days := Days(inRange);
    DayStamps(inRange);
    TimesOf(inRange, days, bars, req);
  }

  lemma WantedInRange(bars: seq<Bar>, s: seq<Bar>, k: Series, req: Request)
    requires DaySeries(s, k) && WholeRange(req) && Part(bars, s)
    ensures var start, end := Midnight(req.startDate), Midnight(req.endDate);
            var inRange := Filter(bars, start, end);
            && Increasing(inRange)
            && (forall b :: b in inRange <==> b in bars && Wanted(b, req))
            && forall b | b in inRange :: start <= b.time <= end && Midnight(b.time) == b.time
  {
    MidnightOf(req.startDate);
    WithinKeeps(bars, Midnight(req.startDate), Midnight(req.endDate));
    WantedByDay(s, k, req);
  }

  lemma DayStamps(bars: seq<Bar>)
    requires forall b | b in bars :: Midnight(b.time) == b.time
    ensures forall i | 0 <= i < |bars| :: Days(bars)[i] == bars[i].time
  {
    assert forall i | 0 <= i < |bars| :: bars[i] in bars;
  }

  lemma TimesOf(inRange: seq<Bar>, days: seq<int>, bars: seq<Bar>, req: Request)
    requires Increasing(inRange) && |days| == |inRange| && forall i | 0 <= i < |days| :: days[i] == inRange[i].time
    requires forall b :: b in inRange <==> b in bars && Wanted(b, req)
    ensures forall i | 0 <= i < |days| :: HasBarAt(bars, req, days[i])
    ensures forall b | b in bars && Wanted(b, req) :: days != [] && b.time <= days[|days| - 1]
  {
    forall i | 0 <= i < |days|
      ensures HasBarAt(bars, req, days[i])
    {
      assert inRange[i] in inRange;
    }
    forall b | b in bars && Wanted(b, req)
      ensures days != [] && b.time <= days[|days| - 1]
    {
      var i :| 0 <= i < |inRange| && inRange[i] == b;
    }
  }

  // A day after the last one and outside all gaps has no gap after it.
  lemma NoGapAfterLast(days: seq<int>, start: int, end: int, d: int)
    requires DayList(days) && days != [] && days[|days| - 1] < d <= end && Midnight(d) == d
    requires Outside(d, RangeGaps(days, start, end))
    ensures forall g | g in RangeGaps(days, start, end) :: g.end < days[|days| - 1]
    ensures end <= days[|days| - 1] + MAX_DAILY_BAR_GAP
  {
    var n := |days|;
    InnerSound(days, n);
    MidnightsApart(days[n - 1], d);
    assert Trail(days, end) == [] by {
      var trail := Gap(days[n - 1] + DAY, end);
      assert trail !in RangeGaps(days, start, end);
      assert trail in Trail(days, end) ==> trail in RangeGaps(days, start, end);
    }
    assert RangeGaps(days, start, end) == Lead(days, start) + Inner(days, n);
  }

  // The days around one outside all gaps, by their places in the day list; `next` is
  // that of the next day present, if any.
  lemma NeighbourDays(days: seq<int>, start: int, end: int, d: int) returns (i: nat, next: Option<nat>)
    requires DayList(days) && 0 < start <= end && Midnight(start) == start && Midnight(end) == end
    requires forall i | 0 <= i < |days| :: start <= days[i] <= end
    requires start <= d <= end && Midnight(d) == d && Outside(d, RangeGaps(days, start, end))
    ensures i < |days| && days[i] <= d
    ensures next.Some? ==> next.value < |days| && d <= days[next.value] <= days[i] + MAX_DAILY_BAR_GAP
    ensures next.None? ==>
              && i == |days| - 1 && end <= days[i] + MAX_DAILY_BAR_GAP
              && forall g | g in RangeGaps(days, start, end) :: g.end < days[i]
  {
    i := GapsComplete(days, start, end, d);
    if days[i] == d {
      next := Some(i);
    } else if i + 1 < |days| {
      next := Some(i + 1);
    } else {
      NoGapAfterLast(days, start, end, d);
      next := None;
    }
  }

  // A day outside all gaps has a wanted local bar on or before it, and the next one
  // or else the end of the range within 21 days of that.
  lemma LocalNeighbours(bars: seq<Bar>, s: seq<Bar>, k: Series, req: Request, d: int) returns (a: Bar, next: Option<Bar>)
    requires DaySeries(s, k) && WholeRange(req) && Part(bars, s)
    requires Midnight(d) == d && Midnight(req.startDate) <= d <= Midnight(req.endDate)
    requires Outside(d, GapsFor(bars, k.period, req))
    ensures a in bars && Wanted(a, req) && a.time <= d
    ensures next.Some? ==> next.value in bars && Wanted(next.value, req) && d <= next.value.time <= a.time + MAX_DAILY_BAR_GAP
    ensures next.None? ==>
              && Midnight(req.endDate) <= a.time + MAX_DAILY_BAR_GAP
              && (forall g | g in GapsFor(bars, k.period, req) :: g.end < a.time)
              && forall x | x in bars && Wanted(x, req) :: x.time <= a.time
  {
    var start, end := Midnight(req.startDate), Midnight(req.endDate);
    MidnightOf(req.startDate);
    MidnightOf(req.endDate);
    var days := RangeDays(bars, s, k, req);
    var i, j := NeighbourDays(days, start, end, d);
    a := BarAt(bars, req, days[i]);
    if j.Some? {
      var c := BarAt(bars, req, days[j.value]);
      next := Some(c);
    } else {
      next := None;
    }
  }

  lemma BarAt(bars: seq<Bar>, req: Request, time: int) returns (b: Bar)
    requires HasBarAt(bars, req, time)
    ensures b in bars && Wanted(b, req) && b.time == time
  {
    b :| b in bars && Wanted(b, req) && b.time == time;
  }

  // An answer that has the local bars, and otherwise only bars out of their gaps,
  // bridges every bar whose day is outside the gaps.
  lemma BridgedOutsideGaps(bars: seq<Bar>, answer: seq<Bar>, s: seq<Bar>, k: Series, req: Request, b: Bar)
    requires DaySeries(s, k) && WholeRange(req) && Part(bars, s) && b in s && Wanted(b, req)
    requires forall x | x in bars && Wanted(x, req) :: x in answer
    requires forall x | x in answer :: (x in bars && Wanted(x, req)) || !Outside(x.time, GapsFor(bars, k.period, req))
    requires Outside(b.time, GapsFor(bars, k.period, req))
    ensures Bridged(answer, b, req)
  {
    ByDay(b, req.startDate, req.endDate);
    var a, next := LocalNeighbours(bars, s, k, req, b.time);
    assert BridgedFrom(answer, a, b, req) by {
      if next.Some? {
        assert next.value in answer && HasBarUpTo(answer, b.time, a.time + MAX_DAILY_BAR_GAP);
      } else {
        forall c | c in answer
          ensures c.time <= a.time
        {
        }
      }
    }
  }

  // Without gaps, what is there answers the request.
  lemma CoveredIsFaithful(bars: seq<Bar>, s: seq<Bar>, k: Series, req: Request)
    requires DaySeries(s, k) && WholeRange(req) && Part(bars, s)
    requires GapsFor(bars, k.period, req) == []
    ensures forall answer | Part(answer, s) && AllWanted(answer, req)
              && (forall x :: x in answer <==> x in bars && Wanted(x, req)) :: Faithful(answer, s, req)
  {
    NewestInSeries(s);
    forall answer, b | Part(answer, s) && AllWanted(answer, req)
        && (forall x :: x in answer <==> x in bars && Wanted(x, req)) && b in Newest(s, REACH) && Wanted(b, req)
      ensures Bridged(answer, b, req)
    {
      BridgedOutsideGaps(bars, answer, s, k, req, b);
    }
  }

  // --- The four paths

  lemma CacheAnswerFaithful(st: State, k: Series, req: Request, w: World, s: seq<Bar>)
    requires DaySeries(s, k) && Good(st, s, k) && WholeRange(req) && CachePath(st, k, req, w)
    ensures MarketData.Query(st, k, req, w).answer.Success?
    ensures Faithful(MarketData.Query(st, k, req, w).answer.value, s, req)
  {
    var bars := st.cache.value[KeyOf(k, req)];
    assert EntryGood(bars, s, Midnight(req.startDate), Midnight(req.endDate));
    WantedByDay(s, k, req);
    CoveredIsFaithful(bars, s, k, req);
    SliceAll(bars);
  }

  lemma LocalAnswerFaithful(st: State, k: Series, req: Request, s: seq<Bar>)
    requires DaySeries(s, k) && StoreGood(st, s, k) && WholeRange(req) && LocalPath(st, k, req)
    ensures Faithful(LocalReply(st, k, req).answer.value, s, req)
  {
    LocalIsPart(st, k, req, s);
    WithinKeeps(LocalAll(st, k, req), Midnight(req.startDate), req.endDate);
    CoveredIsFaithful(LocalAll(st, k, req), s, k, req);
    SliceAll(Local(st, k, req));
  }

  lemma FullAnswerFaithful(st: State, k: Series, req: Request, w: World, s: seq<Bar>)
    requires DaySeries(s, k) && w.up(k) == s && WholeRange(req) && FullReply(st, k, req, w).answer.Success?
    ensures Faithful(FullReply(st, k, req, w).answer.value, s, req)
    ensures FullReply(st, k, req, w).answer.value == Filter(Newest(s, REACH), req.startDate, req.endDate)
  {
    SharedLoadIsOwn(s, k, req, Leading(k, req, w));
    RangeIsExact(s, req);
    ProviderBarsFrom(s, req);
    SliceAll(ProviderBars(s, req));
    var answer := ProviderBars(s, req);
    forall b | b in Newest(s, REACH) && Wanted(b, req)
      ensures Bridged(answer, b, req)
    {
      PresentIsBridged(answer, b, req);
    }
  }

  lemma {:induction false} InnerStarts(days: seq<int>, n: nat)
    requires DayList(days) && n <= |days|
    ensures forall g | g in Inner(days, n) :: Midnight(g.start) == g.start
  {
    if n > 1 {
      InnerStarts(days, n - 1);
    }
  }

  lemma TrailStarts(days: seq<int>, end: int)
    requires DayList(days) && days != []
    ensures forall g | g in Trail(days, end) :: Midnight(g.start) == g.start
  {
  }

  lemma RangeGapStarts(days: seq<int>, start: int, end: int)
    requires DayList(days) && Midnight(start) == start
    ensures forall g | g in RangeGaps(days, start, end) :: Midnight(g.start) == g.start
  {
    if days != [] {
      InnerStarts(days, |days|);
      TrailStarts(days, end);
      assert forall g | g in Lead(days, start) :: g.start == start;
    }
  }

  lemma GapsAreDays(bars: seq<Bar>, s: seq<Bar>, k: Series, req: Request)
    requires DaySeries(s, k) && WholeRange(req) && Part(bars, s)
    ensures forall g | g in GapsFor(bars, k.period, req) ::
              Midnight(g.start) == g.start && Midnight(req.startDate) <= g.start <= g.end <= Midnight(req.endDate)
  {
    var start, end := Midnight(req.startDate), Midnight(req.endDate);
    MidnightOf(req.startDate);
    MidnightOf(req.endDate);
    if start <= end {
      var days := RangeDays(bars, s, k, req);
      RangeGapStarts(days, start, end);
      GapsSound(days, start, end);
    }
  }

  // What is fetched for a list of gaps: the upstream bars within reach in them.
  lemma {:induction false} GapBarsContents(s: seq<Bar>, req: Request, gaps: seq<Gap>)
    requires Increasing(s) && forall g | g in gaps :: 0 < g.start <= g.end && Midnight(g.start) == g.start
    ensures forall b :: b in GapBars(s, req, gaps) <==> b in Newest(s, REACH) && !Outside(b.time, gaps)
  {
    if gaps != [] {
      var n := |gaps| - 1;
      assert gaps == gaps[..n] + [gaps[n]];
      GapBarsContents(s, req, gaps[..n]);
      RangeIsExact(s, GapRequest(req, gaps[n]));
    }
  }

  // The answer after a gap fill holds exactly the local bars and the upstream bars
  // within reach whose day lies in a gap.
  lemma GapAnswerContents(st: State, k: Series, req: Request, w: World, s: seq<Bar>)
    requires DaySeries(s, k) && StoreGood(st, s, k) && w.up(k) == s && WholeRange(req) && st.store.Some?
    requires GapsFor(LocalAll(st, k, req), k.period, req) != [] && GapReply(st, k, req, w).answer.Success?
    ensures var answer := GapReply(st, k, req, w).answer.value;
            var gaps := GapsFor(LocalAll(st, k, req), k.period, req);
            && Part(answer, s) && AllWanted(answer, req)
            && forall b :: b in answer <==>
                 b in Local(st, k, req) || (b in Newest(s, REACH) && Wanted(b, req) && !Outside(b.time, gaps))
  {
    var gaps := GapsFor(LocalAll(st, k, req), k.period, req);
    var remote := GapBars(s, req, gaps);
    LocalIsPart(st, k, req, s);
    GapsAreDays(LocalAll(st, k, req), s, k, req);
    GapBarsContents(s, req, gaps);
    GapBarsFrom(s, req, gaps);
    MergedIsPart(st, k, req, s, remote);
    SliceAll(Merge(Local(st, k, req), Filter(remote, req.startDate, req.endDate)));
  }

  lemma GapAnswerFaithful(st: State, k: Series, req: Request, w: World, s: seq<Bar>)
    requires DaySeries(s, k) && StoreGood(st, s, k) && w.up(k) == s && WholeRange(req) && st.store.Some?
    requires GapsFor(LocalAll(st, k, req), k.period, req) != [] && GapReply(st, k, req, w).answer.Success?
    ensures Faithful(GapReply(st, k, req, w).answer.value, s, req)
  {
    var all := LocalAll(st, k, req);
    var answer := GapReply(st, k, req, w).answer.value;
    GapAnswerContents(st, k, req, w, s);
    LocalIsPart(st, k, req, s);
    WithinKeeps(all, Midnight(req.startDate), req.endDate);
    NewestInSeries(s);
    forall b | b in Newest(s, REACH) && Wanted(b, req)
      ensures Bridged(answer, b, req)
    {
      if Outside(b.time, GapsFor(all, k.period, req)) {
        BridgedOutsideGaps(all, answer, s, k, req, b);
      } else {
        PresentIsBridged(answer, b, req);
      }
    }
  }

  // Whichever path answers a request for a whole range, the answer is faithful.
  lemma AnswerIsFaithful(st: State, k: Series, req: Request, w: World, s: seq<Bar>)
    requires DaySeries(s, k) && Good(st, s, k) && w.up(k) == s && WholeRange(req)
    requires MarketData.Query(st, k, req, w).answer.Success?
    ensures Faithful(MarketData.Query(st, k, req, w).answer.value, s, req)
  {
    if CachePath(st, k, req, w) {
      CacheAnswerFaithful(st, k, req, w, s);
    } else if LocalPath(st, k, req) {
      LocalAnswerFaithful(st, k, req, s);
    } else if GapPath(st, k, req) {
      GapAnswerFaithful(st, k, req, w, s);
    } else {
      FullAnswerFaithful(st, k, req, w, s);
    }
  }

  // --- Runs of requests

  datatype Call = Call(series: Series, req: Request, world: World)

  function Fresh(withStore: bool, withCache: bool): State {
    State(if withStore then Some(map[]) else None, if withCache then Some(map[]) else None)
  }

  function AfterCalls(st: State, calls: seq<Call>): State {
    if calls == [] then st
    else
      var c := calls[|calls| - 1];
      MarketData.Query(AfterCalls(st, calls[..|calls| - 1]), MarketData.Defaulted(c.series), c.req, c.world).state
  }

  // Every call of the run meets the same upstream series; other series, failures,
  // cache expiry and the clock are free.
  ghost predicate FixedUpstream(calls: seq<Call>, s: seq<Bar>, k: Series) {
    forall i | 0 <= i < |calls| :: calls[i].world.up(k) == s
  }

  // Over any run of requests, for this series and others, the store and the cached
  // ranges hold bars of the upstream series only, in time order.
  lemma {:induction false} RunKeepsGood(st: State, calls: seq<Call>, s: seq<Bar>, k: Series)
    requires DaySeries(s, k) && Good(st, s, k) && FixedUpstream(calls, s, k)
    ensures Good(AfterCalls(st, calls), s, k)
  {
    if calls != [] {
      var n := |calls| - 1;
      RunKeepsGood(st, calls[..n], s, k);
      var c := calls[n];
      QueryKeepsGood(AfterCalls(st, calls[..n]), MarketData.Defaulted(c.series), c.req, c.world, s, k);
    }
  }

  // After any run of requests, whatever path answers, a request for a whole range
  // that succeeds is answered with bars of the upstream series within the dates, in
  // time order and each once, and every bar it lacks lies between two of its bars at
  // most 21 days apart, or after its last one, which is at most 21 days from the end.
  lemma EveryAnswerIsFaithful(withStore: bool, withCache: bool, calls: seq<Call>, c: Call, s: seq<Bar>, k: Series)
    requires DaySeries(s, k) && FixedUpstream(calls + [c], s, k)
    requires MarketData.Defaulted(c.series) == k && WholeRange(c.req)
    ensures var st := AfterCalls(Fresh(withStore, withCache), calls);
            && (st.store.Some? ==> Part(Held(st.store.value, k), s))
            && var r := MarketData.Query(st, k, c.req, c.world);
               r.answer.Success? ==> Faithful(r.answer.value, s, c.req)
  {
    assert (calls + [c])[|calls|] == c;
    assert forall i | 0 <= i < |calls| :: (calls + [c])[i] == calls[i];
    var st := AfterCalls(Fresh(withStore, withCache), calls);
    RunKeepsGood(Fresh(withStore, withCache), calls, s, k);
    if MarketData.Query(st, k, c.req, c.world).answer.Success? {
      AnswerIsFaithful(st, k, c.req, c.world, s);
    }
  }

  // A forced refresh leaves nothing out: its answer is exactly the requested range.
  lemma RefreshIsExact(st: State, k: Series, req: Request, w: World, s: seq<Bar>)
    requires DaySeries(s, k) && w.up(k) == s && WholeRange(req) && req.forceRefresh
    requires MarketData.Query(st, k, req, w).answer.Success?
    ensures MarketData.Query(st, k, req, w).answer.value == Filter(Newest(s, REACH), req.startDate, req.endDate)
  {
    FullAnswerFaithful(st, k, req, w, s);
  }

  // --- Asking again

  lemma DayOf(bars: seq<Bar>, s: seq<Bar>, k: Series, req: Request, a: Bar) returns (i: nat)
    requires DaySeries(s, k) && WholeRange(req) && Part(bars, s) && a in bars && Wanted(a, req)
    ensures var days := RequestDays(bars, req);
            i < |days| && days[i] == a.time
  {
    var inRange := Filter(bars, Midnight(req.startDate), Midnight(req.endDate));
    WantedInRange(bars, s, k, req);
    DayStamps(inRange);
    i :| 0 <= i < |inRange| && inRange[i] == a;
  }

  lemma RequestDaysOrdered(bars: seq<Bar>, s: seq<Bar>, k: Series, req: Request)
    requires DaySeries(s, k) && WholeRange(req) && Part(bars, s)
    ensures Ordered(RequestDays(bars, req))
    ensures forall i | 0 <= i < |RequestDays(bars, req)| :: HasBarAt(bars, req, RequestDays(bars, req)[i])
  {
    var inRange := Filter(bars, Midnight(req.startDate), Midnight(req.endDate));
    WantedInRange(bars, s, k, req);
    DayStamps(inRange);
    TimesOf(inRange, Days(inRange), bars, req);
  }

  lemma GapsOfRequest(bars: seq<Bar>, s: seq<Bar>, k: Series, req: Request)
    requires DaySeries(s, k) && WholeRange(req)
    ensures GapsFor(bars, k.period, req) ==
            if Midnight(req.startDate) > Midnight(req.endDate) then []
            else RangeGaps(RequestDays(bars, req), Midnight(req.startDate), Midnight(req.endDate))
  {
    MidnightOf(0);
  }

  lemma OutsideBetween(bars: seq<Bar>, s: seq<Bar>, k: Series, req: Request, a: Bar, c: Bar, d: int)
    requires DaySeries(s, k) && WholeRange(req) && Part(bars, s)
    requires a in bars && Wanted(a, req) && c in bars && Wanted(c, req)
    requires a.time <= d <= c.time <= a.time + MAX_DAILY_BAR_GAP
    ensures Outside(d, GapsFor(bars, k.period, req))
  {
    GapsOfRequest(bars, s, k, req);
    RequestDaysOrdered(bars, s, k, req);
    var i := DayOf(bars, s, k, req, a);
    var j := DayOf(bars, s, k, req, c);
    CloseIsOutside(RequestDays(bars, req), Midnight(req.startDate), Midnight(req.endDate), i, j, d);
  }

  lemma OutsideAfterLast(bars: seq<Bar>, s: seq<Bar>, k: Series, req: Request, a: Bar, d: int)
    requires DaySeries(s, k) && WholeRange(req) && Part(bars, s)
    requires a in bars && Wanted(a, req) && (forall c | c in bars :: c.time <= a.time)
    requires a.time <= d && Midnight(req.endDate) <= a.time + MAX_DAILY_BAR_GAP
    ensures Outside(d, GapsFor(bars, k.period, req))
  {
    GapsOfRequest(bars, s, k, req);
    LastDay(bars, s, k, req, a);
    LastIsOutside(RequestDays(bars, req), Midnight(req.startDate), Midnight(req.endDate), d);
  }

  lemma LastDay(bars: seq<Bar>, s: seq<Bar>, k: Series, req: Request, a: Bar)
    requires DaySeries(s, k) && WholeRange(req) && Part(bars, s)
    requires a in bars && Wanted(a, req) && forall c | c in bars :: c.time <= a.time
    ensures var days := RequestDays(bars, req);
            Ordered(days) && days != [] && days[|days| - 1] == a.time
  {
    RequestDaysOrdered(bars, s, k, req);
    var i := DayOf(bars, s, k, req, a);
    var b := BarAt(bars, req, RequestDays(bars, req)[|RequestDays(bars, req)| - 1]);
  }

  // A bar that is bridged by the bars at hand lies in none of their gaps.
  lemma BridgedIsOutside(bars: seq<Bar>, s: seq<Bar>, k: Series, req: Request, b: Bar)
    requires DaySeries(s, k) && WholeRange(req) && Part(bars, s) && AllWanted(bars, req)
    requires Bridged(bars, b, req)
    ensures Outside(b.time, GapsFor(bars, k.period, req))
  {
    var a :| a in bars && BridgedFrom(bars, a, b, req);
    if HasBarUpTo(bars, b.time, a.time + MAX_DAILY_BAR_GAP) {
      var c :| c in bars && b.time <= c.time <= a.time + MAX_DAILY_BAR_GAP;
      OutsideBetween(bars, s, k, req, a, c, b.time);
    } else {
      OutsideAfterLast(bars, s, k, req, a, b.time);
    }
  }

  // Gaps are computed from the bars within the dates only.
  lemma GapsOfWanted(all: seq<Bar>, bars: seq<Bar>, s: seq<Bar>, k: Series, req: Request)
    requires DaySeries(s, k) && WholeRange(req) && Part(all, s) && Part(bars, s)
    requires forall b :: b in bars <==> b in all && Wanted(b, req)
    ensures GapsFor(all, k.period, req) == GapsFor(bars, k.period, req)
  {
    WantedInRange(all, s, k, req);
    WantedInRange(bars, s, k, req);
    SameElements(Filter(all, Midnight(req.startDate), Midnight(req.endDate)),
                 Filter(bars, Midnight(req.startDate), Midnight(req.endDate)));
  }

  // A store that holds a faithful answer to a request for a whole range.
  ghost predicate Settled(st: State, k: Series, req: Request, s: seq<Bar>) {
    && st.store.Some? && StoreGood(st, s, k) && LocalAll(st, k, req) != []
    && Midnight(req.startDate) <= Midnight(req.endDate) && Faithful(Local(st, k, req), s, req)
  }

  lemma LocalIsWanted(st: State, k: Series, req: Request, s: seq<Bar>)
    requires StoreGood(st, s, k)
    ensures forall b :: b in Local(st, k, req) <==> b in LocalAll(st, k, req) && Wanted(b, req)
  {
    WithinKeeps(LocalAll(st, k, req), Midnight(req.startDate), req.endDate);
  }

  // There, every fetch of a gap comes back with nothing.
  lemma NothingLeftInGaps(st: State, k: Series, req: Request, s: seq<Bar>, b: Bar)
    requires DaySeries(s, k) && WholeRange(req) && Settled(st, k, req, s)
    requires b in Newest(s, REACH) && Wanted(b, req)
    ensures Outside(b.time, GapsFor(LocalAll(st, k, req), k.period, req))
  {
    LocalIsPart(st, k, req, s);
    LocalIsWanted(st, k, req, s);
    NewestInSeries(s);
    GapsOfWanted(LocalAll(st, k, req), Local(st, k, req), s, k, req);
    BridgedIsOutside(Local(st, k, req), s, k, req, b);
  }

  lemma NoGapsMeansCovered(st: State, k: Series, req: Request, s: seq<Bar>)
    requires DaySeries(s, k) && WholeRange(req) && Settled(st, k, req, s) && !req.forceRefresh
    ensures LocalPath(st, k, req) || GapPath(st, k, req)
  {
    var all := LocalAll(st, k, req);
    LocalIsPart(st, k, req, s);
    LocalIsWanted(st, k, req, s);
    if GapsFor(all, k.period, req) == [] {
      SomeWanted(all, s, k, req);
      StartsInTime(all, s, k, req);
    }
  }

  // Without any wanted bar, the whole range would be a gap.
  lemma SomeWanted(all: seq<Bar>, s: seq<Bar>, k: Series, req: Request)
    requires DaySeries(s, k) && WholeRange(req) && Part(all, s)
    requires Midnight(req.startDate) <= Midnight(req.endDate) && GapsFor(all, k.period, req) == []
    ensures RequestDays(all, req) != [] && HasBarAt(all, req, RequestDays(all, req)[0])
    ensures exists b :: b in all && Wanted(b, req)
  {
    GapsOfRequest(all, s, k, req);
    RequestDaysOrdered(all, s, k, req);
  }

  lemma StartsInTime(all: seq<Bar>, s: seq<Bar>, k: Series, req: Request)
    requires DaySeries(s, k) && WholeRange(req) && Part(all, s)
    requires Midnight(req.startDate) <= Midnight(req.endDate) && GapsFor(all, k.period, req) == []
    ensures StartsBy(all, req.startDate)
  {
    var start, end := Midnight(req.startDate), Midnight(req.endDate);
    SomeWanted(all, s, k, req);
    GapsOfRequest(all, s, k, req);
    assert Lead(RequestDays(all, req), start) == [];
    assert all[0] in all;
  }

  lemma StoreAfter(st: State, k: Series, req: Request, s: seq<Bar>, remote: seq<Bar>, t: State)
    requires DaySeries(s, k) && StoreGood(st, s, k) && st.store.Some? && forall b | b in remote :: b in s
    requires t.store == Some(Stored(st.store.value, k, remote))
    ensures StoreGood(t, s, k)
    ensures forall b :: b in Local(t, k, req) <==> b in Local(st, k, req) || (b in remote && Wanted(b, req))
    ensures forall b | b in Local(t, k, req) :: b in LocalAll(t, k, req)
  {
    StoredIsPart(st.store.value, k, remote, s);
    LocalIsPart(st, k, req, s);
    LocalIsPart(t, k, req, s);
    LocalIsWanted(t, k, req, s);
  }

  lemma GapFillSettles(st: State, k: Series, req: Request, w: World, s: seq<Bar>)
    requires DaySeries(s, k) && StoreGood(st, s, k) && w.up(k) == s && WholeRange(req)
    requires GapPath(st, k, req) && GapReply(st, k, req, w).answer.Success?
    ensures Settled(GapReply(st, k, req, w).state, k, req, s)
    ensures Local(GapReply(st, k, req, w).state, k, req) == GapReply(st, k, req, w).answer.value
  {
    var gaps := GapsFor(LocalAll(st, k, req), k.period, req);
    var remote := GapBars(s, req, gaps);
    var t := GapReply(st, k, req, w).state;
    var answer := GapReply(st, k, req, w).answer.value;
    GapBarsFrom(s, req, gaps);
    StoreAfter(st, k, req, s, remote, t);
    LocalIsPart(t, k, req, s);
    MergedIsPart(st, k, req, s, remote);
    SliceAll(Merge(Local(st, k, req), Filter(remote, req.startDate, req.endDate)));
    SameElements(Local(t, k, req), answer);
    GapAnswerFaithful(st, k, req, w, s);
    GapsOfRequest(LocalAll(st, k, req), s, k, req);
    StaysNonEmpty(st, k, req, s, remote, t);
  }

  lemma StaysNonEmpty(st: State, k: Series, req: Request, s: seq<Bar>, remote: seq<Bar>, t: State)
    requires DaySeries(s, k) && StoreGood(st, s, k) && st.store.Some? && forall b | b in remote :: b in s
    requires t.store == Some(Stored(st.store.value, k, remote)) && LocalAll(st, k, req) != []
    ensures LocalAll(t, k, req) != []
  {
    StoredIsPart(st.store.value, k, remote, s);
    WithinKeeps(Held(st.store.value, k), 0, req.endDate);
    WithinKeeps(Held(t.store.value, k), 0, req.endDate);
    assert LocalAll(st, k, req)[0] in LocalAll(st, k, req);
    assert LocalAll(st, k, req)[0] in LocalAll(t, k, req);
  }

  lemma LocalAnswerSettles(st: State, k: Series, req: Request, s: seq<Bar>)
    requires DaySeries(s, k) && StoreGood(st, s, k) && WholeRange(req) && st.store.Some? && LocalPath(st, k, req)
    ensures Settled(LocalReply(st, k, req).state, k, req, s)
    ensures Local(LocalReply(st, k, req).state, k, req) == LocalReply(st, k, req).answer.value
  {
    LocalAnswerFaithful(st, k, req, s);
    LocalIsPart(st, k, req, s);
    SliceAll(Local(st, k, req));
    var b := Local(st, k, req)[0];
    assert b in Local(st, k, req);
    ByDay(b, req.startDate, req.endDate);
  }

  lemma FullFetchStores(st: State, k: Series, req: Request, w: World, s: seq<Bar>)
    requires DaySeries(s, k) && StoreGood(st, s, k) && w.up(k) == s && WholeRange(req) && st.store.Some?
    requires FullReply(st, k, req, w).answer.Success?
    ensures var t := FullReply(st, k, req, w).state;
            var answer := FullReply(st, k, req, w).answer.value;
            && StoreGood(t, s, k) && answer != [] && t.store.Some?
            && (forall b | b in answer :: b in Local(t, k, req) && b in LocalAll(t, k, req))
            && (forall b :: b in Local(t, k, req) <==> b in Local(st, k, req) || b in answer)
            && forall b :: b in answer <==> b in Newest(s, REACH) && Wanted(b, req)
  {
    var remote := ProviderBars(s, req);
    SharedLoadIsOwn(s, k, req, Leading(k, req, w));
    ProviderBarsFrom(s, req);
    StoreAfter(st, k, req, s, remote, FullReply(st, k, req, w).state);
    FullAnswerFaithful(st, k, req, w, s);
    WithinKeeps(Newest(s, REACH), Midnight(req.startDate), req.endDate);
    RangeIsExact(s, req);
  }

  // A store with all there is within reach is settled.
  lemma CompleteIsSettled(t: State, k: Series, req: Request, s: seq<Bar>, answer: seq<Bar>)
    requires DaySeries(s, k) && WholeRange(req) && StoreGood(t, s, k) && t.store.Some? && answer != []
    requires forall b | b in answer :: b in s && Wanted(b, req) && b in Local(t, k, req) && b in LocalAll(t, k, req)
    requires forall b | b in Newest(s, REACH) && Wanted(b, req) :: b in answer
    ensures Settled(t, k, req, s)
  {
    LocalIsPart(t, k, req, s);
    assert answer[0] in answer;
    ByDay(answer[0], req.startDate, req.endDate);
    forall b | b in Newest(s, REACH) && Wanted(b, req)
      ensures Bridged(Local(t, k, req), b, req)
    {
      PresentIsBridged(Local(t, k, req), b, req);
    }
  }

  // A full fetch stores all there is within reach, on top of what was stored before:
  // the range is then stored exactly as answered, unless the store held bars of it
  // from beyond the reach.
  lemma FullFetchSettles(st: State, k: Series, req: Request, w: World, s: seq<Bar>)
    requires DaySeries(s, k) && StoreGood(st, s, k) && w.up(k) == s && WholeRange(req) && st.store.Some?
    requires FullReply(st, k, req, w).answer.Success?
    ensures Settled(FullReply(st, k, req, w).state, k, req, s)
    ensures Local(FullReply(st, k, req, w).state, k, req) == FullReply(st, k, req, w).answer.value
            <==> forall b | b in Local(st, k, req) :: b in Newest(s, REACH)
  {
    var t := FullReply(st, k, req, w).state;
    var answer := FullReply(st, k, req, w).answer.value;
    FullFetchStores(st, k, req, w, s);
    NewestInSeries(s);
    CompleteIsSettled(t, k, req, s, answer);
    FullAnswerFaithful(st, k, req, w, s);
    StoredBesides(st, k, req, s, t, answer);
  }

  lemma StoredBesides(st: State, k: Series, req: Request, s: seq<Bar>, t: State, answer: seq<Bar>)
    requires Increasing(s) && StoreGood(st, s, k) && StoreGood(t, s, k) && Increasing(answer)
    requires forall b :: b in answer <==> b in Newest(s, REACH) && Wanted(b, req)
    requires forall b :: b in Local(t, k, req) <==> b in Local(st, k, req) || b in answer
    ensures Local(t, k, req) == answer <==> forall b | b in Local(st, k, req) :: b in Newest(s, REACH)
  {
    LocalIsPart(t, k, req, s);
    LocalIsWanted(st, k, req, s);
    if forall b | b in Local(st, k, req) :: b in Newest(s, REACH) {
      SameElements(Local(t, k, req), answer);
    }
  }

  // A request that is not forced fetches everything only if the store has no bar at
  // all up to its end date: bars without a gap in the range would have answered it.
  lemma FullFetchOnlyOnEmpty(st: State, k: Series, req: Request, w: World, s: seq<Bar>)
    requires DaySeries(s, k) && StoreGood(st, s, k) && w.up(k) == s && WholeRange(req) && !req.forceRefresh
    requires !LocalPath(st, k, req) && !GapPath(st, k, req) && FullReply(st, k, req, w).answer.Success?
    ensures LocalAll(st, k, req) == []
  {
    if LocalAll(st, k, req) != [] {
      RangeNotEmpty(st, k, req, w, s);
      LocalIsPart(st, k, req, s);
      LocalIsWanted(st, k, req, s);
      SomeWanted(LocalAll(st, k, req), s, k, req);
      StartsInTime(LocalAll(st, k, req), s, k, req);
      assert false;
    }
  }

  lemma RangeNotEmpty(st: State, k: Series, req: Request, w: World, s: seq<Bar>)
    requires DaySeries(s, k) && w.up(k) == s && WholeRange(req) && FullReply(st, k, req, w).answer.Success?
    ensures Midnight(req.startDate) <= Midnight(req.endDate)
  {
    SharedLoadIsOwn(s, k, req, Leading(k, req, w));
    RangeIsExact(s, req);
    ProviderBarsFrom(s, req);
    var b := ProviderBars(s, req)[0];
    assert b in ProviderBars(s, req);
    ByDay(b, req.startDate, req.endDate);
  }

  // From such a store, every successful answer to that request is the one it holds,
  // and the store goes on holding it.
  lemma SettledAnswers(st: State, k: Series, req: Request, w: World, s: seq<Bar>)
    requires DaySeries(s, k) && WholeRange(req) && Settled(st, k, req, s) && w.up(k) == s
    requires !req.forceRefresh && !CachePath(st, k, req, w)
    requires MarketData.Query(st, k, req, w).answer.Success?
    ensures MarketData.Query(st, k, req, w).answer.value == Local(st, k, req)
    ensures Settled(MarketData.Query(st, k, req, w).state, k, req, s)
    ensures Local(MarketData.Query(st, k, req, w).state, k, req) == Local(st, k, req)
  {
    NoGapsMeansCovered(st, k, req, s);
    if LocalPath(st, k, req) {
      LocalIsPart(st, k, req, s);
      SliceAll(Local(st, k, req));
      LocalAnswerSettles(st, k, req, s);
    } else {
      GapFillSettles(st, k, req, w, s);
      GapFillAddsNothing(st, k, req, w, s);
    }
  }

  lemma GapFillAddsNothing(st: State, k: Series, req: Request, w: World, s: seq<Bar>)
    requires DaySeries(s, k) && WholeRange(req) && Settled(st, k, req, s) && w.up(k) == s
    requires GapPath(st, k, req) && GapReply(st, k, req, w).answer.Success?
    ensures GapReply(st, k, req, w).answer.value == Local(st, k, req)
  {
    LocalIsPart(st, k, req, s);
    GapAnswerContents(st, k, req, w, s);
    var answer := GapReply(st, k, req, w).answer.value;
    forall b | b in answer
      ensures b in Local(st, k, req)
    {
      if b in Newest(s, REACH) {
        NothingLeftInGaps(st, k, req, s, b);
      }
    }
    SameElements(answer, Local(st, k, req));
  }

  lemma FirstAnswerSettles(st: State, k: Series, req: Request, w: World, s: seq<Bar>)
    requires DaySeries(s, k) && Good(st, s, k) && w.up(k) == s && WholeRange(req) && st.store.Some?
    requires !req.forceRefresh && !CachePath(st, k, req, w)
    requires MarketData.Query(st, k, req, w).answer.Success?
    ensures var first := MarketData.Query(st, k, req, w);
            Settled(first.state, k, req, s) && Local(first.state, k, req) == first.answer.value
  {
    if LocalPath(st, k, req) {
      LocalAnswerSettles(st, k, req, s);
    } else if GapPath(st, k, req) {
      GapFillSettles(st, k, req, w, s);
    } else {
      FullFetchSettles(st, k, req, w, s);
      FullFetchOnlyOnEmpty(st, k, req, w, s);
    }
  }

  // The first answer is what it put into the cache, if anything; and what it left
  // there was no answer to this request unless it had expired.
  lemma FirstAnswerCached(st: State, k: Series, req: Request, w: World, again: World)
    requires WholeRange(req) && !CachePath(st, k, req, w) && MarketData.Query(st, k, req, w).answer.Success?
    requires var first := MarketData.Query(st, k, req, w);
             CachePath(first.state, k, req, again) && (first.state.cache == st.cache ==> w.unexpired)
    ensures var first := MarketData.Query(st, k, req, w);
            first.state.cache.value[KeyOf(k, req)] == first.answer.value
  {
    if !LocalPath(st, k, req) && !GapPath(st, k, req) {
      SliceAll(ProviderBars(w.up(k), Leading(k, req, w)));
    }
  }

  // Asking again: once a request for a whole range has been answered from the store
  // or the upstream, the store holds of the range exactly that answer; and asking for
  // it again is answered the same and leaves it so, any number of times. (When the
  // second answer comes from the cache, an entry that the first request found expired
  // must not count as fresh again.)
  lemma AskingAgain(st: State, k: Series, req: Request, w: World, again: World, s: seq<Bar>)
    requires DaySeries(s, k) && Good(st, s, k) && w.up(k) == again.up(k) == s && WholeRange(req) && st.store.Some?
    requires !req.forceRefresh && !CachePath(st, k, req, w)
    requires MarketData.Query(st, k, req, w).answer.Success?
    ensures var first := MarketData.Query(st, k, req, w);
            var second := MarketData.Query(first.state, k, req, again);
            && Settled(first.state, k, req, s) && Local(first.state, k, req) == first.answer.value
            && (second.answer.Success? && !CachePath(first.state, k, req, again) ==>
                  second.answer == first.answer && Settled(second.state, k, req, s)
                  && Local(second.state, k, req) == first.answer.value)
            && (CachePath(first.state, k, req, again) && (first.state.cache == st.cache ==> w.unexpired) ==>
                  second.answer == first.answer && second.state == first.state)
  {
    var first := MarketData.Query(st, k, req, w);
    FirstAnswerSettles(st, k, req, w, s);
    if CachePath(first.state, k, req, again) {
      if first.state.cache == st.cache ==> w.unexpired {
        FirstAnswerCached(st, k, req, w, again);
        SliceAll(first.answer.value);
      }
    } else if MarketData.Query(first.state, k, req, again).answer.Success? {
      SettledAnswers(first.state, k, req, again, s);
    }
  }
}
