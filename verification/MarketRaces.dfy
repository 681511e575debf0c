// Any number of K-line queries at once, for any series. Each step below is one access
// of a query to the cache, the store or the upstream, so that queries see each
// other's half-finished work; a run is any interleaving of them.
module MarketRaces {
  import opened Wrappers
  import opened Bars
  import opened BarStore
  import opened Gaps
  import opened KLinePages
  import opened MarketData
  import opened MarketLaws

  // How far a query has come.
  datatype Pc =
    | Asked
    | Missed                                      // the cache had no answer
    | Covered(local: seq<Bar>)                    // the store had one
    | Gapped(local: seq<Bar>, gaps: seq<Gap>)     // the store had bars with gaps
    | GapsFetched(local: seq<Bar>, remote: seq<Bar>)
    | GapsStored(merged: seq<Bar>)
    | Uncovered                                   // the store was of no use
    | Fetched(remote: seq<Bar>)
    | Kept(remote: seq<Bar>)
    | Answered(answer: Result<seq<Bar>, Error>, fromCache: bool)

  // A query for a series with its adjustment filled in.
  datatype Asker = Asker(series: Series, req: Request, pc: Pc)

  datatype Action =
    | LookInCache | LookInStore
    | FetchGaps | StoreGaps
    | FetchAll | StoreAll
    | CacheAnswer

  predicate CanDo(q: Asker, a: Action) {
    match a
    case LookInCache => q.pc.Asked?
    case LookInStore => q.pc.Missed?
    case FetchGaps => q.pc.Gapped?
    case StoreGaps => q.pc.GapsFetched?
    case FetchAll => q.pc.Uncovered?
    case StoreAll => q.pc.Fetched?
    case CacheAnswer => q.pc.Covered? || q.pc.GapsStored? || q.pc.Kept?
  }

  // --- The accesses

  function Looked(st: State, q: Asker, w: World): Pc {
    if !ValidSymbol(q.series.symbol) || q.series.period == PeriodUnknown then Answered(Failure(InvalidRequest), false)
    else if CachePath(st, q.series, q.req, w)
    then Answered(Success(Slice(st.cache.value[KeyOf(q.series, q.req)], q.req.start, q.req.count)), true)
    else Missed
  }

  function Consulted(st: State, q: Asker): Pc {
    if LocalPath(st, q.series, q.req) then Covered(Slice(Local(st, q.series, q.req), q.req.start, q.req.count))
    else if GapPath(st, q.series, q.req)
    then Gapped(Local(st, q.series, q.req), GapsFor(LocalAll(st, q.series, q.req), q.series.period, q.req))
    else Uncovered
  }

  function GapsCame(q: Asker, w: World): Pc
    requires q.pc.Gapped?
  {
    if w.failAt.Some? && w.failAt.value < |q.pc.gaps| then Answered(Failure(UpstreamUnavailable), false)
    else GapsFetched(q.pc.local, GapBars(w.up(q.series), q.req, q.pc.gaps))
  }

  // The load may be another caller's.
  function AllCame(q: Asker, w: World): Pc {
    var remote := ProviderBars(w.up(q.series), Leading(q.series, q.req, w));
    if w.failAt == Some(0) then Answered(Failure(UpstreamUnavailable), false)
    else if remote == [] then Answered(Failure(NoData), false)
    else Fetched(remote)
  }

  // Storing what was fetched, unless there is no store or it refuses.
  function Put(st: State, k: Series, remote: seq<Bar>): State {
    if st.store.None? || !AllStorable(remote) then st
    else st.(store := Some(Stored(st.store.value, k, remote)))
  }

  function Filled(q: Asker): seq<Bar>
    requires q.pc.GapsFetched?
  {
    Slice(Merge(q.pc.local, Filter(q.pc.remote, q.req.startDate, q.req.endDate)), q.req.start, q.req.count)
  }

  // What a query that is about to cache its answer puts there.
  function ToCache(q: Asker): seq<Bar>
    requires CanDo(q, CacheAnswer)
  {
    match q.pc
    case Covered(local) => local
    case GapsStored(merged) => merged
    case Kept(remote) => remote
  }

  function ToAnswer(q: Asker): seq<Bar>
    requires CanDo(q, CacheAnswer)
  {
    if q.pc.Kept? then Slice(q.pc.remote, q.req.start, q.req.count) else ToCache(q)
  }

  function CachedBy(st: State, q: Asker): State
    requires CanDo(q, CacheAnswer)
  {
    if q.pc.GapsStored? && !CacheCovers(q.pc.merged, q.series.period, q.req) then st
    else st.(cache := Cached(st.cache, KeyOf(q.series, q.req), ToCache(q)))
  }

  // The state after an access, and how far it takes the query.
  function Act(st: State, q: Asker, a: Action, w: World): (State, Pc)
    requires CanDo(q, a)
  {
    match a
    case LookInCache => (st, Looked(st, q, w))
    case LookInStore => (st, Consulted(st, q))
    case FetchGaps => (st, GapsCame(q, w))
    case StoreGaps =>
      (Put(st, q.series, q.pc.remote),
       if AllStorable(q.pc.remote) then GapsStored(Filled(q)) else Answered(Failure(InvalidRequest), false))
    case FetchAll => (st, AllCame(q, w))
    case StoreAll =>
      (Put(st, q.series, q.pc.remote),
       if st.store.None? || AllStorable(q.pc.remote) then Kept(q.pc.remote) else Answered(Failure(InvalidRequest), false))
    case CacheAnswer => (CachedBy(st, q), Answered(Success(ToAnswer(q)), false))
  }

  // --- A query left alone

  function NextAction(q: Asker): Action
    requires !q.pc.Answered?
    ensures CanDo(q, NextAction(q))
  {
    match q.pc
    case Asked => LookInCache
    case Missed => LookInStore
    case Gapped(_, _) => FetchGaps
    case GapsFetched(_, _) => StoreGaps
    case Uncovered => FetchAll
    case Fetched(_) => StoreAll
    case _ => CacheAnswer
  }

  function Alone(st: State, q: Asker, w: World, n: nat): (State, Asker)
    decreases n
  {
    if n == 0 || q.pc.Answered? then (st, q)
    else
      var (t, pc) := Act(st, q, NextAction(q), w);
      Alone(t, q.(pc := pc), w, n - 1)
  }

  lemma AloneStep(st: State, q: Asker, w: World, n: nat)
    requires n > 0 && !q.pc.Answered?
    ensures var (t, pc) := Act(st, q, NextAction(q), w);
            Alone(st, q, w, n) == Alone(t, q.(pc := pc), w, n - 1)
  {
  }

  lemma AloneCaches(st: State, q: Asker, w: World, n: nat)
    requires n > 0 && CanDo(q, CacheAnswer)
    ensures Alone(st, q, w, n) == (CachedBy(st, q), q.(pc := Answered(Success(ToAnswer(q)), false)))
  {
    AloneStep(st, q, w, n);
  }

  lemma AloneStoresAll(st: State, q: Asker, w: World)
    requires q.pc.Fetched?
    ensures var t := Put(st, q.series, q.pc.remote);
            Alone(st, q, w, 2) ==
            if st.store.Some? && !AllStorable(q.pc.remote) then (t, q.(pc := Answered(Failure(InvalidRequest), false)))
            else (CachedBy(t, q.(pc := Kept(q.pc.remote))),
                  q.(pc := Answered(Success(Slice(q.pc.remote, q.req.start, q.req.count)), false)))
  {
    AloneStep(st, q, w, 2);
    if st.store.None? || AllStorable(q.pc.remote) {
      AloneCaches(Put(st, q.series, q.pc.remote), q.(pc := Kept(q.pc.remote)), w, 1);
    }
  }

  lemma AloneStoresGaps(st: State, q: Asker, w: World)
    requires q.pc.GapsFetched?
    ensures var t := Put(st, q.series, q.pc.remote);
            Alone(st, q, w, 2) ==
            if !AllStorable(q.pc.remote) then (t, q.(pc := Answered(Failure(InvalidRequest), false)))
            else (CachedBy(t, q.(pc := GapsStored(Filled(q)))), q.(pc := Answered(Success(Filled(q)), false)))
  {
    AloneStep(st, q, w, 2);
    if AllStorable(q.pc.remote) {
      AloneCaches(Put(st, q.series, q.pc.remote), q.(pc := GapsStored(Filled(q))), w, 1);
    }
  }

  // An answered query, and the state it leaves.
  predicate IsReply(end: (State, Asker), r: Reply) {
    end.0 == r.state && end.1.pc.Answered? && end.1.pc.answer == r.answer
  }

  lemma AloneFillsGaps(st: State, q: Asker, w: World)
    requires GapPath(st, q.series, q.req)
    requires q.pc == Gapped(Local(st, q.series, q.req), GapsFor(LocalAll(st, q.series, q.req), q.series.period, q.req))
    ensures IsReply(Alone(st, q, w, 3), GapReply(st, q.series, q.req, w))
  {
    AloneStep(st, q, w, 3);
    if GapsCame(q, w).GapsFetched? {
      AloneStoresGaps(st, q.(pc := GapsCame(q, w)), w);
    }
  }

  lemma AloneFetchesAll(st: State, q: Asker, w: World)
    requires q.pc == Uncovered
    ensures IsReply(Alone(st, q, w, 3), FullReply(st, q.series, q.req, w))
  {
    AloneStep(st, q, w, 3);
    if AllCame(q, w).Fetched? {
      AloneStoresAll(st, q.(pc := AllCame(q, w)), w);
    }
  }

  lemma AloneConsults(st: State, q: Asker, w: World)
    requires q.pc == Missed && ValidSymbol(q.series.symbol) && q.series.period != PeriodUnknown
    requires !CachePath(st, q.series, q.req, w)
    ensures IsReply(Alone(st, q, w, 4), MarketData.Query(st, q.series, q.req, w))
  {
    var p := q.(pc := Consulted(st, q));
    AloneStep(st, q, w, 4);
    if LocalPath(st, q.series, q.req) {
      AloneCaches(st, p, w, 3);
    } else if GapPath(st, q.series, q.req) {
      AloneFillsGaps(st, p, w);
    } else {
      AloneFetchesAll(st, p, w);
    }
  }

  // With nobody else about, five accesses at most are the query of MarketData.
  lemma AloneIsQuery(st: State, k: Series, req: Request, w: World)
    ensures IsReply(Alone(st, Asker(k, req, Asked), w, 5), MarketData.Query(st, k, req, w))
  {
    var q := Asker(k, req, Asked);
    AloneStep(st, q, w, 5);
    if Looked(st, q, w) == Missed {
      AloneConsults(st, q.(pc := Missed), w);
    }
  }

  // --- Runs

  datatype System = System(state: State, askers: seq<Asker>)

  // `Drop` is the cache losing an entry.
  datatype Step =
    | Arrive(series: Series, req: Request)
    | Drop(key: CacheKey)
    | Go(who: nat, action: Action, world: World)

  predicate Enabled(c: System, step: Step) {
    step.Go? ==> step.who < |c.askers| && CanDo(c.askers[step.who], step.action)
  }

  function Dropped(cache: Option<BarCache>, key: CacheKey): Option<BarCache> {
    if cache.None? then None else Some(cache.value - {key})
  }

  function Do(c: System, step: Step): System
    requires Enabled(c, step)
  {
    match step
    case Arrive(series, req) => c.(askers := c.askers + [Asker(MarketData.Defaulted(series), req, Asked)])
    case Drop(key) => c.(state := c.state.(cache := Dropped(c.state.cache, key)))
    case Go(i, a, w) =>
      var (t, pc) := Act(c.state, c.askers[i], a, w);
      System(t, c.askers[i := c.askers[i].(pc := pc)])
  }

  // Every access meets the same upstream series; everything else is free.
  ghost predicate Meets(step: Step, s: seq<Bar>, k: Series) {
    step.Go? ==> step.world.up(k) == s
  }

  function After(c: System, steps: seq<Step>): (r: Option<System>) {
    if steps == [] then Some(c)
    else
      var before := After(c, steps[..|steps| - 1]);
      if before.Some? && Enabled(before.value, steps[|steps| - 1]) then Some(Do(before.value, steps[|steps| - 1])) else None
  }

  // --- The invariant

  ghost predicate AllIn(bars: seq<Bar>, s: seq<Bar>) {
    forall b | b in bars :: b in s
  }

  ghost predicate Kosher(bars: seq<Bar>, s: seq<Bar>, req: Request) {
    WholeRange(req) ==> Faithful(bars, s, req)
  }

  // Bars and gaps that were read from a good store at some time.
  ghost predicate WasRead(local: seq<Bar>, gaps: seq<Gap>, seen: State, s: seq<Bar>, k: Series, req: Request) {
    && StoreGood(seen, s, k) && seen.store.Some?
    && local == Local(seen, k, req) && gaps == GapsFor(LocalAll(seen, k, req), k.period, req) != []
  }

  // What a query for series k holds on to.
  ghost predicate PcGood(pc: Pc, s: seq<Bar>, k: Series, req: Request) {
    match pc
    case Covered(local) => Kosher(local, s, req)
    case Gapped(local, gaps) => exists seen: State :: WasRead(local, gaps, seen, s, k, req)
    case GapsFetched(local, remote) =>
      && AllIn(local, s) && AllIn(remote, s)
      && Kosher(Merge(local, Filter(remote, req.startDate, req.endDate)), s, req)
    case GapsStored(merged) => Kosher(merged, s, req)
    case Fetched(remote) => AllIn(remote, s) && Kosher(remote, s, req)
    case Kept(remote) => AllIn(remote, s) && Kosher(remote, s, req)
    case Answered(Success(answer), _) => Kosher(answer, s, req)
    case _ => true
  }

  ghost predicate InStore(bars: seq<Bar>, st: State, k: Series) {
    st.store.Some? ==> AllIn(bars, Held(st.store.value, k))
  }

  // What a query has read from the store, or stored, is still there.
  ghost predicate PcStored(pc: Pc, st: State, k: Series) {
    match pc
    case Covered(local) => InStore(local, st, k)
    case Gapped(local, _) => InStore(local, st, k)
    case GapsFetched(local, _) => InStore(local, st, k)
    case GapsStored(merged) => InStore(merged, st, k)
    case Kept(remote) => InStore(remote, st, k)
    case Answered(Success(answer), fromCache) => !fromCache ==> InStore(answer, st, k)
    case _ => true
  }

  ghost predicate AskerGood(q: Asker, st: State, s: seq<Bar>, k: Series) {
    q.series == k ==> PcGood(q.pc, s, k, q.req) && PcStored(q.pc, st, k)
  }

  ghost predicate Inv(c: System, s: seq<Bar>, k: Series) {
    && Good(c.state, s, k)
    && forall i | 0 <= i < |c.askers| :: AskerGood(c.askers[i], c.state, s, k)
  }

  // No access takes bars of the series out of the store.
  ghost predicate StoreGrows(st: State, t: State, k: Series) {
    && st.store.Some? == t.store.Some?
    && (st.store.Some? ==> AllIn(Held(st.store.value, k), Held(t.store.value, k)))
  }

  lemma StoredStays(pc: Pc, st: State, t: State, k: Series)
    requires PcStored(pc, st, k) && StoreGrows(st, t, k)
    ensures PcStored(pc, t, k)
  {
  }

  lemma SliceFrom(bars: seq<Bar>, start: nat, count: nat)
    ensures AllIn(Slice(bars, start, count), bars)
  {
  }

  // A query for another series leaves this one alone.
  lemma OtherAct(st: State, q: Asker, a: Action, w: World, s: seq<Bar>, k: Series)
    requires CanDo(q, a) && q.series != k && Good(st, s, k)
    ensures Good(Act(st, q, a, w).0, s, k) && StoreGrows(st, Act(st, q, a, w).0, k)
  {
    assert TouchesOnly(st, Act(st, q, a, w).0, q.series);
  }

  ghost predicate ActGood(st: State, q: Asker, a: Action, w: World, s: seq<Bar>, k: Series)
    requires CanDo(q, a)
  {
    var (t, pc) := Act(st, q, a, w);
    Good(t, s, k) && StoreGrows(st, t, k) && PcGood(pc, s, k, q.req) && PcStored(pc, t, k)
  }

  ghost predicate Ready(st: State, q: Asker, a: Action, w: World, s: seq<Bar>, k: Series) {
    && CanDo(q, a) && DaySeries(s, k) && Good(st, s, k) && w.up(k) == s
    && q.series == k && PcGood(q.pc, s, k, q.req) && PcStored(q.pc, st, k)
  }

  lemma LookInCacheGood(st: State, q: Asker, w: World, s: seq<Bar>, k: Series)
    requires Ready(st, q, LookInCache, w, s, k)
    ensures ActGood(st, q, LookInCache, w, s, k)
  {
    if Looked(st, q, w).Answered? && Looked(st, q, w).answer.Success? && WholeRange(q.req) {
      CacheAnswerFaithful(st, k, q.req, w, s);
    }
  }

  lemma LookInStoreGood(st: State, q: Asker, w: World, s: seq<Bar>, k: Series)
    requires Ready(st, q, LookInStore, w, s, k)
    ensures ActGood(st, q, LookInStore, w, s, k)
  {
    LocalIsPart(st, k, q.req, s);
    if LocalPath(st, k, q.req) {
      SliceFrom(Local(st, k, q.req), q.req.start, q.req.count);
      if WholeRange(q.req) {
        LocalAnswerFaithful(st, k, q.req, s);
      }
    } else if GapPath(st, k, q.req) {
      assert WasRead(Local(st, k, q.req), GapsFor(LocalAll(st, k, q.req), k.period, q.req), st, s, k, q.req);
    }
  }

  lemma FetchGapsGood(st: State, q: Asker, w: World, s: seq<Bar>, k: Series)
    requires Ready(st, q, FetchGaps, w, s, k)
    ensures ActGood(st, q, FetchGaps, w, s, k)
  {
    var seen: State :| WasRead(q.pc.local, q.pc.gaps, seen, s, k, q.req);
    GapsCameGood(seen, q, w, s, k);
  }

  lemma GapsCameGood(seen: State, q: Asker, w: World, s: seq<Bar>, k: Series)
    requires DaySeries(s, k) && w.up(k) == s && q.series == k && q.pc.Gapped?
    requires WasRead(q.pc.local, q.pc.gaps, seen, s, k, q.req)
    ensures PcGood(GapsCame(q, w), s, k, q.req)
  {
    if GapsCame(q, w).GapsFetched? {
      LocalIsPart(seen, k, q.req, s);
      GapBarsFrom(s, q.req, q.pc.gaps);
      FilledIsKosher(seen, q, w, s, k, GapBars(s, q.req, q.pc.gaps));
    }
  }

  lemma FilledIsKosher(seen: State, q: Asker, w: World, s: seq<Bar>, k: Series, remote: seq<Bar>)
    requires DaySeries(s, k) && w.up(k) == s && q.pc.Gapped? && WasRead(q.pc.local, q.pc.gaps, seen, s, k, q.req)
    requires remote == GapBars(s, q.req, q.pc.gaps)
    ensures Kosher(Merge(q.pc.local, Filter(remote, q.req.startDate, q.req.endDate)), s, q.req)
  {
    if WholeRange(q.req) {
      var calm := w.(failAt := None);
      GapBarsFrom(s, q.req, q.pc.gaps);
      SeriesIsStorable(remote, s, k);
      GapAnswerFaithful(seen, k, q.req, calm, s);
      SliceAll(Merge(q.pc.local, Filter(remote, q.req.startDate, q.req.endDate)));
    }
  }

  lemma SeriesIsStorable(bars: seq<Bar>, s: seq<Bar>, k: Series)
    requires DaySeries(s, k) && AllIn(bars, s)
    ensures AllStorable(bars)
  {
  }

  lemma StoreGapsGood(st: State, q: Asker, w: World, s: seq<Bar>, k: Series)
    requires Ready(st, q, StoreGaps, w, s, k)
    ensures ActGood(st, q, StoreGaps, w, s, k)
  {
    var remote := q.pc.remote;
    var merged := Merge(q.pc.local, Filter(remote, q.req.startDate, q.req.endDate));
    PutGood(st, remote, s, k);
    WithinKeeps(remote, Midnight(q.req.startDate), q.req.endDate);
    MergeUnites(q.pc.local, Filter(remote, q.req.startDate, q.req.endDate), s);
    SliceFrom(merged, q.req.start, q.req.count);
    SliceAll(merged);
  }

  lemma PutGood(st: State, remote: seq<Bar>, s: seq<Bar>, k: Series)
    requires DaySeries(s, k) && Good(st, s, k) && AllIn(remote, s)
    ensures AllStorable(remote)
    ensures Good(Put(st, k, remote), s, k) && StoreGrows(st, Put(st, k, remote), k)
    ensures InStore(remote, Put(st, k, remote), k)
  {
    SeriesIsStorable(remote, s, k);
    if st.store.Some? {
      StoredIsPart(st.store.value, k, remote, s);
    }
  }

  lemma FetchAllGood(st: State, q: Asker, w: World, s: seq<Bar>, k: Series)
    requires Ready(st, q, FetchAll, w, s, k)
    ensures ActGood(st, q, FetchAll, w, s, k)
  {
    ProviderBarsFrom(s, Leading(k, q.req, w));
    if WholeRange(q.req) && AllCame(q, w).Fetched? {
      LoadIsFaithful(q, w, s, k);
    }
  }

  lemma LoadIsFaithful(q: Asker, w: World, s: seq<Bar>, k: Series)
    requires DaySeries(s, k) && w.up(k) == s && q.series == k && WholeRange(q.req) && AllCame(q, w).Fetched?
    ensures Faithful(AllCame(q, w).remote, s, q.req)
  {
    FullAnswerFaithful(State(None, None), k, q.req, w, s);
    SliceAll(ProviderBars(s, Leading(k, q.req, w)));
  }

  lemma StoreAllGood(st: State, q: Asker, w: World, s: seq<Bar>, k: Series)
    requires Ready(st, q, StoreAll, w, s, k)
    ensures ActGood(st, q, StoreAll, w, s, k)
  {
    PutGood(st, q.pc.remote, s, k);
  }

  lemma CacheAnswerGood(st: State, q: Asker, w: World, s: seq<Bar>, k: Series)
    requires Ready(st, q, CacheAnswer, w, s, k)
    ensures ActGood(st, q, CacheAnswer, w, s, k)
  {
    PutEntry(st, s, k, q.req, ToCache(q));
    if q.pc.Kept? {
      SliceFrom(q.pc.remote, q.req.start, q.req.count);
      SliceAll(q.pc.remote);
    }
  }

  lemma OwnAct(st: State, q: Asker, a: Action, w: World, s: seq<Bar>, k: Series)
    requires Ready(st, q, a, w, s, k)
    ensures ActGood(st, q, a, w, s, k)
  {
    match a
    case LookInCache => LookInCacheGood(st, q, w, s, k);
    case LookInStore => LookInStoreGood(st, q, w, s, k);
    case FetchGaps => FetchGapsGood(st, q, w, s, k);
    case StoreGaps => StoreGapsGood(st, q, w, s, k);
    case FetchAll => FetchAllGood(st, q, w, s, k);
    case StoreAll => StoreAllGood(st, q, w, s, k);
    case CacheAnswer => CacheAnswerGood(st, q, w, s, k);
  }

  lemma ActKeepsOthers(c: System, i: nat, t: State, s: seq<Bar>, k: Series)
    requires Inv(c, s, k) && StoreGrows(c.state, t, k)
    ensures forall j | 0 <= j < |c.askers| && j != i :: AskerGood(c.askers[j], t, s, k)
  {
    forall j | 0 <= j < |c.askers| && j != i
      ensures AskerGood(c.askers[j], t, s, k)
    {
      assert AskerGood(c.askers[j], c.state, s, k);
      if c.askers[j].series == k {
        StoredStays(c.askers[j].pc, c.state, t, k);
      }
    }
  }

  lemma GoKeepsInv(c: System, i: nat, a: Action, w: World, s: seq<Bar>, k: Series)
    requires DaySeries(s, k) && Inv(c, s, k) && w.up(k) == s
    requires i < |c.askers| && CanDo(c.askers[i], a)
    ensures Inv(Do(c, Go(i, a, w)), s, k) && StoreGrows(c.state, Do(c, Go(i, a, w)).state, k)
  {
    var q := c.askers[i];
    assert AskerGood(q, c.state, s, k);
    if q.series == k {
      OwnAct(c.state, q, a, w, s, k);
    } else {
      OtherAct(c.state, q, a, w, s, k);
    }
    ActKeepsOthers(c, i, Do(c, Go(i, a, w)).state, s, k);
  }

  lemma DropKeepsInv(c: System, key: CacheKey, s: seq<Bar>, k: Series)
    requires Inv(c, s, k)
    ensures Inv(Do(c, Drop(key)), s, k)
  {
    ActKeepsOthers(c, |c.askers|, Do(c, Drop(key)).state, s, k);
  }

  lemma StepKeepsInv(c: System, step: Step, s: seq<Bar>, k: Series)
    requires DaySeries(s, k) && Inv(c, s, k) && Enabled(c, step) && Meets(step, s, k)
    ensures Inv(Do(c, step), s, k) && StoreGrows(c.state, Do(c, step).state, k)
  {
    match step
    case Arrive(series, req) =>
    case Drop(key) => DropKeepsInv(c, key, s, k);
    case Go(i, a, w) => GoKeepsInv(c, i, a, w, s, k);
  }

  function Start(withStore: bool, withCache: bool): System {
    System(Fresh(withStore, withCache), [])
  }

  lemma {:induction false} RunKeepsInv(withStore: bool, withCache: bool, steps: seq<Step>, s: seq<Bar>, k: Series)
    requires DaySeries(s, k) && forall i | 0 <= i < |steps| :: Meets(steps[i], s, k)
    requires After(Start(withStore, withCache), steps).Some?
    ensures Inv(After(Start(withStore, withCache), steps).value, s, k)
  {
    if steps != [] {
      var n := |steps| - 1;
      RunKeepsInv(withStore, withCache, steps[..n], s, k);
      StepKeepsInv(After(Start(withStore, withCache), steps[..n]).value, steps[n], s, k);
    }
  }

  // However queries for this series and others interleave, share loads, fail, and
  // lose cached answers: every successful answer to a whole date range is faithful,
  // and every bar of an answer that did not come from the cache is in the store from
  // then on, so no query undoes what another has stored.
  lemma RacingAnswersAreFaithful(withStore: bool, withCache: bool, steps: seq<Step>, s: seq<Bar>, k: Series, i: nat)
    requires DaySeries(s, k) && forall j | 0 <= j < |steps| :: Meets(steps[j], s, k)
    requires After(Start(withStore, withCache), steps).Some?
    ensures var c := After(Start(withStore, withCache), steps).value;
            && (c.state.store.Some? ==> Part(Held(c.state.store.value, k), s))
            && (i < |c.askers| && c.askers[i].series == k && c.askers[i].pc.Answered? && c.askers[i].pc.answer.Success? ==>
                  var q := c.askers[i];
                  && (WholeRange(q.req) ==> Faithful(q.pc.answer.value, s, q.req))
                  && (!q.pc.fromCache && c.state.store.Some? ==>
                        forall b | b in q.pc.answer.value :: b in Held(c.state.store.value, k)))
  {
    RunKeepsInv(withStore, withCache, steps, s, k);
    var c := After(Start(withStore, withCache), steps).value;
    if i < |c.askers| {
      assert AskerGood(c.askers[i], c.state, s, k);
    }
  }
}
