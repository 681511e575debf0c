// K-line queries with a start and a count, told bar by bar: what page of what is
// answered, when an answer needs no upstream, what is left for the next query, and
// what is asked of the backfill queue when the upstream does not deliver.
module MarketAnswers {
  import opened Wrappers
  import opened Bars
  import opened BarStore
  import opened Gaps
  import opened KLinePages
  import opened MarketData
  import opened MarketLaws
  import BackfillQueue
  import Coverage

  // The request without paging.
  function Whole(req: Request): Request {
    req.(start := 0, count := 0)
  }

  // --- Which page is answered

  // What the store has for the dates of a request, in time order.
  ghost predicate StoredFor(items: seq<Bar>, st: State, k: Series, req: Request) {
    && Increasing(items)
    && forall b :: b in items <==>
         && st.store.Some? && b in Held(st.store.value, k)
         && (Midnight(req.startDate) == 0 || Midnight(req.startDate) <= b.time)
         && (req.endDate == 0 || b.time <= req.endDate)
  }

  lemma LocalIsStored(st: State, k: Series, req: Request)
    requires st.store.Some? ==> Increasing(Held(st.store.value, k))
    ensures StoredFor(Local(st, k, req), st, k, req)
  {
    if st.store.Some? {
      WithinKeeps(Held(st.store.value, k), 0, req.endDate);
    }
    FilterMeaning(LocalAll(st, k, req), req.startDate, req.endDate);
  }

  // An answer from the store is a page of the stored bars within the dates.
  lemma LocalAnswerByIndex(st: State, k: Series, req: Request, w: World) returns (items: seq<Bar>)
    requires ValidSymbol(k.symbol) && k.period != PeriodUnknown
    requires !CachePath(st, k, req, w) && LocalPath(st, k, req)
    requires st.store.Some? ==> Increasing(Held(st.store.value, k))
    ensures StoredFor(items, st, k, req)
    ensures MarketData.Query(st, k, req, w).answer.Success?
    ensures IsPage(MarketData.Query(st, k, req, w).answer.value, items, req.start, req.count)
  {
    items := Local(st, k, req);
    LocalIsStored(st, k, req);
    SliceIsPage(items, req.start, req.count);
  }

  // An answer from the cache is a page of the list cached for the request.
  lemma CacheAnswerByIndex(st: State, k: Series, req: Request, w: World)
    requires ValidSymbol(k.symbol) && k.period != PeriodUnknown && CachePath(st, k, req, w)
    ensures MarketData.Query(st, k, req, w).answer.Success?
    ensures IsPage(MarketData.Query(st, k, req, w).answer.value, st.cache.value[KeyOf(k, req)], req.start, req.count)
  {
    SliceIsPage(st.cache.value[KeyOf(k, req)], req.start, req.count);
  }

  lemma {:induction false} SameGapBars(s: seq<Bar>, req: Request, gaps: seq<Gap>)
    ensures GapBars(s, req, gaps) == GapBars(s, Whole(req), gaps)
  {
    if gaps != [] {
      SameGapBars(s, req, gaps[..|gaps| - 1]);
    }
  }

  // An answer after a gap fill is a page of the answer to the request without paging.
  lemma GapAnswerByIndex(st: State, k: Series, req: Request, w: World)
    requires GapPath(st, k, req) && GapReply(st, k, req, w).answer.Success?
    ensures GapPath(st, k, Whole(req)) && GapReply(st, k, Whole(req), w).answer.Success?
    ensures IsPage(GapReply(st, k, req, w).answer.value, GapReply(st, k, Whole(req), w).answer.value, req.start, req.count)
  {
    var gaps := GapsFor(LocalAll(st, k, req), k.period, req);
    SameGapBars(w.up(k), req, gaps);
    var merged := Merge(Local(st, k, req), Filter(GapBars(w.up(k), req, gaps), req.startDate, req.endDate));
    SliceAll(merged);
    SliceIsPage(merged, req.start, req.count);
  }

  // A page of a page of the same kind skips twice as many.
  ghost predicate IsPageTwice<T>(out: seq<T>, items: seq<T>, start: nat, count: nat) {
    var left := if 2 * start < |items| then |items| - 2 * start else 0;
    var most := if count > start then count - start else 0;
    && |out| == (if count == 0 || left < most then left else most)
    && forall i | 0 <= i < |out| :: out[i] == items[2 * start + i]
  }

  lemma PageTwice<T>(out: seq<T>, mid: seq<T>, items: seq<T>, start: nat, count: nat)
    requires IsPage(mid, items, start, count) && IsPage(out, mid, start, count)
    ensures IsPageTwice(out, items, start, count)
    ensures start == 0 ==> IsPage(out, items, 0, count)
  {
  }

  // A full fetch takes the page twice, at the provider and here: with dates, an answer
  // skips 2 * start of the bars that the dates select, and without a start it is the
  // page asked for. (The load may be run for another caller, with the same paging.)
  lemma FullAnswerByIndex(st: State, k: Series, req: Request, w: World)
    requires var lead := Leading(k, req, w); lead.startDate != 0 || lead.endDate != 0
    requires FullReply(st, k, req, w).answer.Success?
    ensures var items := ProviderBars(w.up(k), Whole(Leading(k, req, w)));
            && IsPageTwice(FullReply(st, k, req, w).answer.value, items, req.start, req.count)
            && (req.start == 0 ==> IsPage(FullReply(st, k, req, w).answer.value, items, 0, req.count))
  {
    var lead := Leading(k, req, w);
    var mid := ProviderBars(w.up(k), lead);
    DatedIsPage(w.up(k), lead);
    SliceIsPage(mid, req.start, req.count);
    PageTwice(Slice(mid, req.start, req.count), mid, ProviderBars(w.up(k), Whole(lead)), req.start, req.count);
  }

  // Without paging, the answer after a gap fill is what the store then has for the dates:
  // where the upstream and the store differ, the upstream wins in both.
  lemma GapAnswerIsWhatIsStored(st: State, k: Series, req: Request, w: World)
    requires GapPath(st, k, req) && GapReply(st, k, req, w).answer.Success? && req.start == 0 && req.count == 0
    requires Increasing(Held(st.store.value, k))
    ensures Local(GapReply(st, k, req, w).state, k, req) == GapReply(st, k, req, w).answer.value
    ensures forall time :: At(GapReply(st, k, req, w).answer.value, time) ==
              var remote := Filter(GapBars(w.up(k), req, GapsFor(LocalAll(st, k, req), k.period, req)), req.startDate, req.endDate);
              if At(remote, time).Some? then At(remote, time) else At(Local(st, k, req), time)
  {
    var remote := GapBars(w.up(k), req, GapsFor(LocalAll(st, k, req), k.period, req));
    var merged := Merge(Local(st, k, req), Filter(remote, req.startDate, req.endDate));
    SliceAll(merged);
    MergeMeaning(Local(st, k, req), Filter(remote, req.startDate, req.endDate));
    StoredThenRead(Held(st.store.value, k), remote, req);
  }

  lemma StoredThenRead(held: seq<Bar>, remote: seq<Bar>, req: Request)
    requires Increasing(held)
    ensures var after := if remote == [] then held else Merge(held, remote);
            Filter(Within(after, 0, req.endDate), req.startDate, req.endDate) ==
            Merge(Filter(Within(held, 0, req.endDate), req.startDate, req.endDate), Filter(remote, req.startDate, req.endDate))
  {
    var lo := Midnight(req.startDate);
    var after := if remote == [] then held else Merge(held, remote);
    WithinTwice(held, lo, req.endDate);
    WithinTwice(after, lo, req.endDate);
    if remote == [] {
      WithinKeeps(held, lo, req.endDate);
      MergeNothing(Within(held, lo, req.endDate));
    } else {
      WithinOfMerge(held, remote, lo, req.endDate);
    }
  }

  // Whatever path answers, a request for `count` bars gets no more than that.
  lemma AnswerIsNoLonger(st: State, k: Series, req: Request, w: World)
    requires req.count > 0 && MarketData.Query(st, k, req, w).answer.Success?
    ensures |MarketData.Query(st, k, req, w).answer.value| <= req.count
  {
    if CachePath(st, k, req, w) {
      CacheAnswerByIndex(st, k, req, w);
    } else if LocalPath(st, k, req) {
      SliceIsPage(Local(st, k, req), req.start, req.count);
    } else if GapPath(st, k, req) {
      GapAnswerByIndex(st, k, req, w);
    } else {
      SliceIsPage(ProviderBars(w.up(k), Leading(k, req, w)), req.start, req.count);
    }
  }

  // And an answer that did not ask the upstream has exactly as many, and comes from bars
  // that begin on the start day or before.
  lemma LocalAnswerIsFull(st: State, k: Series, req: Request, w: World)
    requires ValidSymbol(k.symbol) && k.period != PeriodUnknown
    requires CachePath(st, k, req, w) || LocalPath(st, k, req)
    ensures MarketData.Query(st, k, req, w).answer.Success?
    ensures req.count > 0 ==> |MarketData.Query(st, k, req, w).answer.value| == req.count
    ensures !CachePath(st, k, req, w) && Midnight(req.startDate) != 0 ==>
              st.store.Some? && exists b :: b in Held(st.store.value, k) && Midnight(b.time) <= Midnight(req.startDate)
    ensures CachePath(st, k, req, w) && req.startDate != 0 ==>
              Midnight(st.cache.value[KeyOf(k, req)][0].time) <= Midnight(req.startDate)
  {
    if CachePath(st, k, req, w) {
      CacheAnswerByIndex(st, k, req, w);
    } else {
      SliceIsPage(Local(st, k, req), req.start, req.count);
      FirstIsHeld(st, k, req);
    }
  }

  lemma FirstIsHeld(st: State, k: Series, req: Request)
    requires LocalAll(st, k, req) != []
    ensures st.store.Some? && LocalAll(st, k, req)[0] in Held(st.store.value, k)
  {
    WithinKeeps(Held(st.store.value, k), 0, req.endDate);
    assert LocalAll(st, k, req)[0] in LocalAll(st, k, req);
  }

  // --- When the upstream is not needed

  // What the store has suffices: there are enough bars, they begin early enough, and
  // no day of a daily range is missing.
  ghost predicate StoreSuffices(st: State, k: Series, req: Request) {
    && Local(st, k, req) != []
    && (req.count > 0 ==> req.start + req.count <= |Local(st, k, req)|)
    && (Midnight(req.startDate) != 0 ==>
          0 != Midnight(LocalAll(st, k, req)[0].time) <= Midnight(req.startDate))
    && GapsFor(LocalAll(st, k, req), k.period, req) == []
  }

  // Then an unforced query is answered whatever becomes of the upstream.
  lemma NoUpstreamNeeded(st: State, k: Series, req: Request, w: World)
    requires ValidSymbol(k.symbol) && k.period != PeriodUnknown && !req.forceRefresh
    requires LocalAll(st, k, req) != [] && StoreSuffices(st, k, req)
    ensures MarketData.Query(st, k, req, w).answer.Success?
    ensures MarketData.Query(st, k, req, w).task.None?
  {
  }

  // A list suffices for a request: it has enough bars, they begin early enough, and no
  // day of a daily range is missing.
  ghost predicate ListSuffices(bars: seq<Bar>, k: Series, req: Request) {
    && bars != []
    && (req.count > 0 ==> req.start + req.count <= |bars|)
    && (req.startDate != 0 ==> 0 != Midnight(bars[0].time) <= Midnight(req.startDate))
    && GapsFor(bars, k.period, req) == []
  }

  // Nor is the upstream needed for an unforced query with a cached list that has not
  // expired and suffices; and one that does not suffice is not used.
  lemma CachedListServes(st: State, k: Series, req: Request, w: World)
    requires ValidSymbol(k.symbol) && k.period != PeriodUnknown && !req.forceRefresh && w.unexpired
    requires st.cache.Some? && KeyOf(k, req) in st.cache.value
    ensures CachePath(st, k, req, w) <==> ListSuffices(st.cache.value[KeyOf(k, req)], k, req)
    ensures ListSuffices(st.cache.value[KeyOf(k, req)], k, req) ==>
              MarketData.Query(st, k, req, w) ==
              Reply(Success(Slice(st.cache.value[KeyOf(k, req)], req.start, req.count)), st, None, None)
  {
  }

  // The same but for the cache.
  ghost predicate SameButCache(r: Reply, o: Reply) {
    r.answer == o.answer && r.state.store == o.state.store && r.task == o.task && r.mark == o.mark
  }

  lemma PathsIgnoreCache(st: State, k: Series, req: Request, w: World)
    ensures var none := st.(cache := None);
            && (LocalPath(none, k, req) <==> LocalPath(st, k, req)) && (GapPath(none, k, req) <==> GapPath(st, k, req))
            && SameButCache(LocalReply(st, k, req), LocalReply(none, k, req))
            && SameButCache(FullReply(st, k, req, w), FullReply(none, k, req, w))
            && (GapPath(st, k, req) ==> SameButCache(GapReply(st, k, req, w), GapReply(none, k, req, w)))
  {
    var none := st.(cache := None);
    assert LocalAll(none, k, req) == LocalAll(st, k, req) && Local(none, k, req) == Local(st, k, req);
  }

  // A cached list that has expired, and any for a forced query, is as good as none.
  lemma ExpiredListIsIgnored(st: State, k: Series, req: Request, w: World)
    requires !w.unexpired || req.forceRefresh
    ensures SameButCache(MarketData.Query(st, k, req, w), MarketData.Query(st.(cache := None), k, req, w))
  {
    PathsIgnoreCache(st, k, req, w);
  }

  // So it is not for a query that was answered before, if what was answered suffices
  // and has not expired.
  lemma NextIsServedFromCache(st: State, k: Series, req: Request, w: World, again: World)
    requires WholeRange(req) && !req.forceRefresh && st.cache.Some? && !CachePath(st, k, req, w)
    requires MarketData.Query(st, k, req, w).answer.Success? && again.unexpired
    requires ListSuffices(MarketData.Query(st, k, req, w).answer.value, k, req)
    ensures var first := MarketData.Query(st, k, req, w);
            MarketData.Query(first.state, k, req, again) == Reply(first.answer, first.state, None, None)
  {
    var first := MarketData.Query(st, k, req, w);
    if GapPath(st, k, req) && !LocalPath(st, k, req) {
    } else if !LocalPath(st, k, req) {
      SliceAll(ProviderBars(w.up(k), Leading(k, req, w)));
    }
    assert first.state.cache.value[KeyOf(k, req)] == first.answer.value;
    SliceAll(first.answer.value);
  }

  // What a successful query leaves under its key: the answer, if it came from the store,
  // or after a gap fill if it covers the request; what the provider returned, after a
  // full fetch; and nothing else changes in the cache.
  lemma LeftInCache(st: State, k: Series, req: Request, w: World)
    requires st.cache.Some? && MarketData.Query(st, k, req, w).answer.Success? && !CachePath(st, k, req, w)
    ensures var r := MarketData.Query(st, k, req, w);
            var was, key := st.cache.value, KeyOf(k, req);
            r.state.cache ==
            Some(if LocalPath(st, k, req) then was[key := r.answer.value]
                 else if !GapPath(st, k, req) then was[key := ProviderBars(w.up(k), Leading(k, req, w))]
                 else if CacheCovers(r.answer.value, k.period, req) then was[key := r.answer.value]
                 else was)
  {
  }

  // A load that is running for the same paging and days of the series is shared.
  lemma RunningLoadIsShared(k: Series, req: Request, w: World, running: Request)
    requires w.running == Some(running) && running.start == req.start && running.count == req.count
    requires Midnight(running.startDate) == Midnight(req.startDate) && Midnight(running.endDate) == Midnight(req.endDate)
    ensures Leading(k, req, w) == running
  {
  }

  // A query without an adjustment is one for the plain series.
  lemma UnadjustedIsPlain(k: Series)
    ensures MarketData.Defaulted(k).symbol == k.symbol && MarketData.Defaulted(k).period == k.period
    ensures k.adjust == Unset ==> MarketData.Defaulted(k).adjust == Plain
    ensures k.adjust != Unset ==> MarketData.Defaulted(k) == k
  {
  }

  // --- Refusals and failures

  // A query is refused for its series alone, and then changes nothing.
  lemma RefusedFor(st: State, k: Series, req: Request, w: World)
    requires k.symbol.market == "" || k.symbol.code == "" || k.period == PeriodUnknown
    ensures MarketData.Query(st, k, req, w) == Reply(Failure(InvalidRequest), st, None, None)
  {
  }

  ghost predicate TaskFits(r: Reply, st: State) {
    && (r.task.Some? <==> r.answer == Failure(UpstreamUnavailable) || r.answer == Failure(NoData))
    && (r.answer.Failure? ==> r.state == st && r.mark.None?)
  }

  lemma GapReplyFits(st: State, k: Series, req: Request, w: World)
    requires GapPath(st, k, req)
    ensures TaskFits(GapReply(st, k, req, w), st)
    ensures GapReply(st, k, req, w).answer == Failure(UpstreamUnavailable) <==>
            w.failAt.Some? && w.failAt.value < |GapsFor(LocalAll(st, k, req), k.period, req)|
  {
  }

  lemma FullReplyFits(st: State, k: Series, req: Request, w: World)
    ensures TaskFits(FullReply(st, k, req, w), st)
    ensures FullReply(st, k, req, w).answer == Failure(UpstreamUnavailable) <==> w.failAt == Some(0)
    ensures FullReply(st, k, req, w).answer == Failure(NoData) <==>
            w.failAt != Some(0) && ProviderBars(w.up(k), Leading(k, req, w)) == []
  {
  }

  // A task is asked for exactly when the upstream fails or has nothing, and a query
  // that fails leaves the store and the cache as they were.
  lemma TaskExactlyWhen(st: State, k: Series, req: Request, w: World)
    ensures TaskFits(MarketData.Query(st, k, req, w), st)
  {
    if GapPath(st, k, req) {
      GapReplyFits(st, k, req, w);
    }
    FullReplyFits(st, k, req, w);
  }

  // The task is for the whole range of the gaps, or for the days asked for, at priority
  // 90, in the data set of the series.
  ghost predicate AsksFor(t: BackfillQueue.Task, k: Series, from: int, to: int) {
    && t.work.series == k && t.work.startDate == from && t.work.endDate == to
    && t.work.dataset == (if k.adjust == Qfq || k.adjust == Hfq then "adjusted_kline" else "kline")
    && t.priority == 90 && t.status == BackfillQueue.Pending && t.retries == 0 && t.id == ""
  }

  lemma GapTask(st: State, k: Series, req: Request, w: World)
    requires GapPath(st, k, req) && GapReply(st, k, req, w).task.Some?
    ensures var gaps := GapsFor(LocalAll(st, k, req), k.period, req);
            AsksFor(GapReply(st, k, req, w).task.value, k, gaps[0].start, gaps[|gaps| - 1].end)
  {
  }

  // It covers every gap, so a queue takes it.
  lemma GapTaskCovers(st: State, k: Series, req: Request, w: World)
    requires GapPath(st, k, req) && GapReply(st, k, req, w).task.Some?
    requires Sorted(LocalAll(st, k, req)) && Midnight(req.startDate) > 0
    ensures var t := GapReply(st, k, req, w).task.value;
            && (forall g | g in GapsFor(LocalAll(st, k, req), k.period, req) ::
                  t.work.startDate <= g.start <= g.end <= t.work.endDate)
            && (ValidSymbol(k.symbol) ==> BackfillQueue.Acceptable(t))
  {
    var gaps := GapsFor(LocalAll(st, k, req), k.period, req);
    GapTask(st, k, req, w);
    RequestGapsSpan(LocalAll(st, k, req), req);
    if ValidSymbol(k.symbol) {
      TakesTask(GapReply(st, k, req, w).task.value, k, gaps[0].start, gaps[|gaps| - 1].end);
    }
  }

  lemma TakesTask(t: BackfillQueue.Task, k: Series, from: int, to: int)
    requires AsksFor(t, k, from, to) && 0 < from <= to && ValidSymbol(k.symbol)
    ensures BackfillQueue.Acceptable(t)
  {
  }

  lemma RequestGapsSpan(bars: seq<Bar>, req: Request)
    requires Sorted(bars) && Midnight(req.startDate) > 0 && GapsFor(bars, Day, req) != []
    ensures var gaps := GapsFor(bars, Day, req);
            && 0 < gaps[0].start <= gaps[|gaps| - 1].end
            && forall g | g in gaps :: gaps[0].start <= g.start <= g.end <= gaps[|gaps| - 1].end
  {
    MidnightOf(req.startDate);
    RequestGapsExact(bars, req, Midnight(req.startDate));
    GapsSpan(GapsFor(bars, Day, req), Midnight(req.startDate), Midnight(req.endDate));
  }

  lemma GapsSpan(gaps: seq<Gap>, lo: int, hi: int)
    requires WellPlaced(gaps, lo, hi) && gaps != []
    ensures lo <= gaps[0].start <= gaps[|gaps| - 1].end
    ensures forall g | g in gaps :: gaps[0].start <= g.start <= g.end <= gaps[|gaps| - 1].end
  {
    assert forall i | 0 <= i < |gaps| :: gaps[0].start <= gaps[i].start <= gaps[i].end <= gaps[|gaps| - 1].end;
  }

  lemma FullTask(st: State, k: Series, req: Request, w: World)
    requires FullReply(st, k, req, w).task.Some?
    ensures var t := FullReply(st, k, req, w).task.value;
            var from := if Midnight(req.startDate) != 0 then Midnight(req.startDate) else Midnight(w.now);
            AsksFor(t, k, from, if Midnight(req.endDate) != 0 then Midnight(req.endDate) else from)
  {
  }

  // --- The coverage row of a full fetch

  // It is written, as covered and as of now, exactly if the fetch is stored; for the
  // first day asked for or fetched, with the number of bars fetched.
  lemma MarkExactlyWhen(st: State, k: Series, req: Request, w: World)
    requires ValidSymbol(k.symbol) && k.period != PeriodUnknown
    ensures MarketData.Query(st, k, req, w).mark.Some? <==>
            && !CachePath(st, k, req, w) && !LocalPath(st, k, req) && !GapPath(st, k, req)
            && st.store.Some? && FullReply(st, k, req, w).answer.Success?
    ensures MarketData.Query(st, k, req, w).mark.Some? ==>
              var m := MarketData.Query(st, k, req, w).mark.value;
              var bars := ProviderBars(w.up(k), Leading(k, req, w));
              && bars != [] && m.row.status == "covered" && m.row.rowCount == |bars| && m.row.lastFetch == Some(w.now)
              && m.row.lastError == "" && m.key.series == k
              && (Midnight(req.startDate) != 0 ==> m.key.tradeDate == Midnight(req.startDate))
              && (Midnight(req.startDate) == 0 && Midnight(bars[0].time) != 0 ==> m.key.tradeDate == Midnight(bars[0].time))
  {
  }
}
