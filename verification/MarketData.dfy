// The local-first K-line query: answer from the cache, else from the store, else
// fetch what the store lacks, else fetch everything.
module MarketData {
  import opened Wrappers
  import opened Bars
  import BarStore
  import BackfillQueue
  import Coverage
  import Gaps
  import KLinePages
  import MemoryStore

  // --- What the service sees of the world

  datatype CacheKey = CacheKey(series: Series, start: nat, count: nat, from: int, to: int)
  type BarCache = map<CacheKey, seq<Bar>>

  // The bar tables of the store and the cached answers; either may be missing.
  datatype State = State(store: Option<BarStore.Tables>, cache: Option<BarCache>)

  // One call's surroundings: the upstream, whether a cached answer is still fresh,
  // which fetch of the call fails, if any, the time, and the request of the caller
  // whose load a full fetch finds running, if any.
  datatype World = World(up: Series -> seq<Bar>, unexpired: bool, failAt: Option<nat>, now: int, running: Option<Request>)

  // A row to be written to the coverage table.
  datatype Mark = Mark(key: Coverage.Key, row: Coverage.Row)

  // A call's answer, the state it leaves, the backfill task it asks for and the
  // coverage row it writes.
  datatype Reply = Reply(answer: Result<seq<Bar>, Error>, state: State, task: Option<BackfillQueue.Task>, mark: Option<Mark>)

  function KeyOf(k: Series, req: Request): CacheKey {
    CacheKey(k, req.start, req.count, Midnight(req.startDate), Midnight(req.endDate))
  }

  function Defaulted(k: Series): Series {
    if k.adjust == Unset then k.(adjust := Plain) else k
  }

  // --- Coverage tests

  predicate StartsBy(bars: seq<Bar>, startDate: int) {
    Midnight(startDate) != 0 ==>
      bars != [] && Midnight(bars[0].time) != 0 && Midnight(bars[0].time) <= Midnight(startDate)
  }

  predicate TooFew(bars: seq<Bar>, req: Request) {
    req.count > 0 && req.start + req.count > |bars|
  }

  // localBarsCoverRequest
  predicate LocalCovers(all: seq<Bar>, local: seq<Bar>, period: Period, req: Request) {
    && all != [] && local != []
    && StartsBy(all, req.startDate) && !TooFew(local, req)
    && Gaps.GapsFor(all, period, req) == []
  }

  // cachedBarsCoverRequest
  predicate CacheCovers(bars: seq<Bar>, period: Period, req: Request) {
    && bars != [] && !TooFew(bars, req)
    && (req.startDate != 0 ==> Midnight(bars[0].time) != 0 && Midnight(bars[0].time) <= Midnight(req.startDate))
    && Gaps.GapsFor(bars, period, req) == []
  }

  // --- Backfill tasks

  function DatasetFor(adjust: Adjust): string {
    if adjust == Plain || adjust == Unset then "kline" else "adjusted_kline"
  }

  function TaskFor(k: Series, start: int, end: int, error: string): BackfillQueue.Task {
    BackfillQueue.Task("", BackfillQueue.Work(DatasetFor(k.adjust), k, start, end), 90, BackfillQueue.Pending, 0, error, 0, 0)
  }

  // barTaskRange: the days asked for or, where those are unset, of the bars or else
  // of today.
  function TaskRange(req: Request, bars: seq<Bar>, now: int): (int, int) {
    var first := if bars == [] then 0 else Midnight(bars[0].time);
    var last := if bars == [] then 0 else Midnight(bars[|bars| - 1].time);
    var start := if Midnight(req.startDate) != 0 then Midnight(req.startDate) else first;
    var end := if Midnight(req.endDate) != 0 then Midnight(req.endDate) else last;
    var from := if start == 0 then Midnight(now) else start;
    (from, if end == 0 then from else end)
  }

  // The coverage row that a full fetch leaves.
  function MarkFor(k: Series, start: int, rows: nat, now: int): Mark {
    Mark(Coverage.Key(DatasetFor(k.adjust), k, start), Coverage.Row(Coverage.COVERED, rows, "", "", Some(now), "", 0))
  }

  const UPSTREAM_FAILED: string := "upstream unavailable"

  // --- The paths of a query

  // Storing bars of one series.
  function Stored(p: BarStore.Tables, k: Series, remote: seq<Bar>): BarStore.Tables {
    if remote == [] then p else p[k := Merge(BarStore.Held(p, k), remote)]
  }

  predicate AllStorable(bars: seq<Bar>) {
    forall b | b in bars :: BarStore.Storable(b)
  }

  function Cached(cache: Option<BarCache>, key: CacheKey, bars: seq<Bar>): Option<BarCache> {
    if cache.None? then None else Some(cache.value[key := bars])
  }

  // What the store has up to the end date.
  function LocalAll(s: State, k: Series, req: Request): seq<Bar> {
    if s.store.None? then [] else Within(BarStore.Held(s.store.value, k), 0, req.endDate)
  }

  function Local(s: State, k: Series, req: Request): seq<Bar> {
    Filter(LocalAll(s, k, req), req.startDate, req.endDate)
  }

  function GapRequest(req: Request, g: Gaps.Gap): Request {
    req.(start := 0, count := 0, startDate := g.start, endDate := g.end)
  }

  // The fetched bars of all gaps, in gap order.
  function GapBars(s: seq<Bar>, req: Request, gaps: seq<Gaps.Gap>): seq<Bar> {
    if gaps == [] then []
    else
      var n := |gaps| - 1;
      GapBars(s, req, gaps[..n]) + KLinePages.ProviderBars(s, GapRequest(req, gaps[n]))
  }

  predicate CachePath(s: State, k: Series, req: Request, w: World) {
    var key := KeyOf(k, req);
    s.cache.Some? && !req.forceRefresh && w.unexpired && key in s.cache.value && CacheCovers(s.cache.value[key], k.period, req)
  }

  predicate LocalPath(s: State, k: Series, req: Request) {
    !req.forceRefresh && LocalCovers(LocalAll(s, k, req), Local(s, k, req), k.period, req)
  }

  predicate GapPath(s: State, k: Series, req: Request) {
    !req.forceRefresh && LocalAll(s, k, req) != [] && Gaps.GapsFor(LocalAll(s, k, req), k.period, req) != []
  }

  function Failed(s: State, e: Error): Reply {
    Reply(Failure(e), s, None, None)
  }

  function LocalReply(s: State, k: Series, req: Request): Reply {
    var answer := Slice(Local(s, k, req), req.start, req.count);
    Reply(Success(answer), s.(cache := Cached(s.cache, KeyOf(k, req), answer)), None, None)
  }

  function GapReply(s: State, k: Series, req: Request, w: World): Reply
    requires s.store.Some? && Gaps.GapsFor(LocalAll(s, k, req), k.period, req) != []
  {
    var gaps := Gaps.GapsFor(LocalAll(s, k, req), k.period, req);
    var remote := GapBars(w.up(k), req, gaps);
    if w.failAt.Some? && w.failAt.value < |gaps| then
      Reply(Failure(UpstreamUnavailable), s, Some(TaskFor(k, gaps[0].start, gaps[|gaps| - 1].end, UPSTREAM_FAILED)), None)
    else if !AllStorable(remote) then Failed(s, InvalidRequest)
    else
      var merged := Slice(Merge(Local(s, k, req), Filter(remote, req.startDate, req.endDate)), req.start, req.count);
      Reply(Success(merged),
            State(Some(Stored(s.store.value, k, remote)),
                  if CacheCovers(merged, k.period, req) then Cached(s.cache, KeyOf(k, req), merged) else s.cache),
            None, None)
  }

  // The request that a full fetch is loaded by: callers with one key share a load.
  function Leading(k: Series, req: Request, w: World): Request {
    if w.running.Some? && KeyOf(k, w.running.value) == KeyOf(k, req) then w.running.value else req
  }

  function FullReply(s: State, k: Series, req: Request, w: World): Reply {
    var remote := KLinePages.ProviderBars(w.up(k), Leading(k, req, w));
    if w.failAt == Some(0) then
      var range := TaskRange(req, [], w.now);
      Reply(Failure(UpstreamUnavailable), s, Some(TaskFor(k, range.0, range.1, UPSTREAM_FAILED)), None)
    else if remote == [] then
      var range := TaskRange(req, [], w.now);
      Reply(Failure(NoData), s, Some(TaskFor(k, range.0, range.1, "")), None)
    else if s.store.Some? && !AllStorable(remote) then Failed(s, InvalidRequest)
    else
      Reply(Success(Slice(remote, req.start, req.count)),
            State(if s.store.Some? then Some(Stored(s.store.value, k, remote)) else None,
                  Cached(s.cache, KeyOf(k, req), remote)),
            None,
            if s.store.Some? then Some(MarkFor(k, TaskRange(req, remote, w.now).0, |remote|, w.now)) else None)
  }

  // getBars, for a series with its adjustment filled in.
  function Query(s: State, k: Series, req: Request, w: World): Reply {
    if !ValidSymbol(k.symbol) || k.period == PeriodUnknown then Failed(s, InvalidRequest)
    else if CachePath(s, k, req, w) then
      Reply(Success(Slice(s.cache.value[KeyOf(k, req)], req.start, req.count)), s, None, None)
    else if LocalPath(s, k, req) then LocalReply(s, k, req)
    else if GapPath(s, k, req) then GapReply(s, k, req, w)
    else FullReply(s, k, req, w)
  }

  // --- The service

  lemma PutIsStored(p: BarStore.Tables, k: Series, remote: seq<Bar>, q: BarStore.Tables)
    requires BarStore.IsPut(p, remote, q)
    requires k.adjust != Unset && forall b | b in remote :: b.series == k
    ensures q == Stored(p, k, remote)
  {
    BarStore.AllInGroup(remote, k);
  }

  // Whatever the upstream serves for a series is labelled with it.
  ghost predicate Labelled(up: Series -> seq<Bar>) {
    forall k, b | b in up(k) :: b.series == k
  }

  // Where the upstream is asked, the n-th fetch of a call.
  method Fetch(k: Series, req: Request, w: World, n: nat) returns (r: Result<seq<Bar>, Error>)
    ensures r == if w.failAt == Some(n) then Failure(UpstreamUnavailable) else Success(KLinePages.ProviderBars(w.up(k), req))
  {
    if w.failAt == Some(n) {
      return Failure(UpstreamUnavailable);
    }
    var bars := KLinePages.GetBars(w.up(k), req);
    r := Success(bars);
  }

  method FetchBarGaps(k: Series, req: Request, gaps: seq<Gaps.Gap>, w: World) returns (r: Result<seq<Bar>, Error>)
    ensures r == if w.failAt.Some? && w.failAt.value < |gaps| then Failure(UpstreamUnavailable)
                 else Success(GapBars(w.up(k), req, gaps))
  {
    var out := [];
    for i := 0 to |gaps|
      invariant out == GapBars(w.up(k), req, gaps[..i])
      invariant w.failAt.Some? ==> w.failAt.value >= i
    {
      GapBarsNext(w.up(k), req, gaps, i);
      var bars := Fetch(k, GapRequest(req, gaps[i]), w, i);
      if bars.Failure? {
        return Failure(bars.error);
      }
      out := out + bars.value;
    }
    assert gaps[..|gaps|] == gaps;
    r := Success(out);
  }

  type CoverageRows = map<Coverage.Key, Coverage.Row>

  datatype Whole = Whole(state: State, backlog: Option<BackfillQueue.Queue>, marks: Option<CoverageRows>)

  class MarketDataService {
    // The store and the queue may be one object, and either may be missing.
    const store: MemoryStore.MemoryStore?
    const queue: MemoryStore.MemoryStore?
    var cache: Option<BarCache>

    constructor (store: MemoryStore.MemoryStore?, queue: MemoryStore.MemoryStore?, withCache: bool)
      ensures this.store == store && this.queue == queue
      ensures cache == if withCache then Some(map[]) else None
    {
      this.store, this.queue := store, queue;
      cache := if withCache then Some(map[]) else None;
    }

    function View(): State
      reads this, store
    {
      State(if store == null then None else Some(store.bars), cache)
    }

    function Backlog(): Option<BackfillQueue.Queue>
      reads queue
    {
      if queue == null then None else Some(queue.Backlog())
    }

    // The backlog after a call that asks for the given task, if any.
    function BacklogWith(backlog: Option<BackfillQueue.Queue>, task: Option<BackfillQueue.Task>, now: int)
      : Option<BackfillQueue.Queue>
    {
      if backlog.None? || task.None? || queue == null then backlog
      else Some(BackfillQueue.Enqueue(backlog.value, task.value, queue.stableTaskID, now))
    }

    function Marks(): Option<CoverageRows>
      reads store
    {
      if store == null then None else Some(store.coverage)
    }

    // The coverage table after a call that leaves the given row, if any.
    function MarksWith(marks: Option<CoverageRows>, mark: Option<Mark>): Option<CoverageRows> {
      if marks.None? || mark.None? then marks
      else Some(Coverage.Replace(marks.value, mark.value.key, mark.value.row))
    }

    // Everything a call can change.
    function All(): Whole
      reads this, store, queue
    {
      Whole(View(), Backlog(), Marks())
    }

    // The service as it was, after a call with the given reply.
    function Then(was: Whole, reply: Reply, now: int): Whole {
      Whole(reply.state, BacklogWith(was.backlog, reply.task, now), MarksWith(was.marks, reply.mark))
    }

    function Stores(): set<MemoryStore.MemoryStore> {
      if store == null then {} else {store}
    }

    function Queues(): set<MemoryStore.MemoryStore> {
      if queue == null then {} else {queue}
    }

    // A queue that refuses the task is ignored.
    method EnqueueTask(task: BackfillQueue.Task, now: int)
      modifies Queues()`tasks, Queues()`taskByID, Queues()`taskOrder
      ensures Backlog() == BacklogWith(old(Backlog()), Some(task), now)
    {
      if queue != null {
        var ignored := queue.Enqueue(task, now);
      }
    }

    method StoreBars(k: Series, remote: seq<Bar>) returns (ok: bool)
      requires store != null && k.adjust != Unset && forall b | b in remote :: b.series == k
      modifies Stores()`bars
      ensures ok <==> AllStorable(remote)
      ensures store.bars == if ok then Stored(old(store.bars), k, remote) else old(store.bars)
    {
      ok := store.PutBars(remote);
      if ok {
        PutIsStored(old(store.bars), k, remote, store.bars);
      }
    }

    method CacheBars(key: CacheKey, bars: seq<Bar>)
      modifies this`cache
      ensures cache == Cached(old(cache), key, bars)
    {
      if cache.Some? {
        cache := Some(cache.value[key := bars]);
      }
    }

    method FillGaps(k: Series, req: Request, w: World, local: seq<Bar>, gaps: seq<Gaps.Gap>)
      returns (answer: Result<seq<Bar>, Error>)
      requires store != null && Labelled(w.up) && k.adjust != Unset
      requires local == Local(View(), k, req) && gaps == Gaps.GapsFor(LocalAll(View(), k, req), k.period, req) != []
      modifies this`cache, Stores()`bars, Queues()`tasks, Queues()`taskByID, Queues()`taskOrder
      ensures var reply := GapReply(old(View()), k, req, w);
              answer == reply.answer && All() == Then(old(All()), reply, w.now)
    {
      var remote := FetchBarGaps(k, req, gaps, w);
      if remote.Failure? {
        EnqueueTask(TaskFor(k, gaps[0].start, gaps[|gaps| - 1].end, UPSTREAM_FAILED), w.now);
        return Failure(remote.error);
      }
      GapBarsFrom(w.up(k), req, gaps);
      var ok := StoreBars(k, remote.value);
      if !ok {
        return Failure(InvalidRequest);
      }
      var filtered := FilterBarsByDate(remote.value, req.startDate, req.endDate);
      var merged := MergeBars(local, filtered);
      merged := Slice(merged, req.start, req.count);
      if CacheCovers(merged, k.period, req) {
        CacheBars(KeyOf(k, req), merged);
      }
      answer := Success(merged);
    }

    method FetchAll(k: Series, req: Request, w: World) returns (answer: Result<seq<Bar>, Error>)
      requires Labelled(w.up) && k.adjust != Unset
      modifies this`cache, Stores()`bars, Stores()`coverage, Queues()`tasks, Queues()`taskByID, Queues()`taskOrder
      ensures var reply := FullReply(old(View()), k, req, w);
              answer == reply.answer && All() == Then(old(All()), reply, w.now)
    {
      var remote := Fetch(k, Leading(k, req, w), w, 0);
      var range := TaskRange(req, if remote.Success? then remote.value else [], w.now);
      if remote.Failure? {
        EnqueueTask(TaskFor(k, range.0, range.1, UPSTREAM_FAILED), w.now);
        return Failure(remote.error);
      }
      if |remote.value| == 0 {
        EnqueueTask(TaskFor(k, range.0, range.1, ""), w.now);
        return Failure(NoData);
      }
      KLinePages.ProviderBarsFrom(w.up(k), Leading(k, req, w));
      if store != null {
        var ok := StoreBars(k, remote.value);
        if !ok {
          return Failure(InvalidRequest);
        }
        var mark := MarkFor(k, range.0, |remote.value|, w.now);
        var ignored := store.PutCoverage(mark.key, mark.row);
      }
      CacheBars(KeyOf(k, req), remote.value);
      answer := Success(Slice(remote.value, req.start, req.count));
    }

    // getBars; the series may come without an adjustment.
    method GetBars(series: Series, req: Request, w: World) returns (answer: Result<seq<Bar>, Error>)
      requires Labelled(w.up)
      modifies this`cache, Stores()`bars, Stores()`coverage, Queues()`tasks, Queues()`taskByID, Queues()`taskOrder
      ensures var reply := Query(old(View()), Defaulted(series), req, w);
              answer == reply.answer && All() == Then(old(All()), reply, w.now)
    {
      if !ValidSymbol(series.symbol) {
        return Failure(InvalidRequest);
      }
      if series.period == PeriodUnknown {
        return Failure(InvalidRequest);
      }
      var k := Defaulted(series);
      var key := KeyOf(k, req);
      if cache.Some? && !req.forceRefresh && w.unexpired && key in cache.value {
        if CacheCovers(cache.value[key], k.period, req) {
          return Success(Slice(cache.value[key], req.start, req.count));
        }
      }
      if store != null && !req.forceRefresh {
        var localAll := store.QueryBars(k, 0, req.endDate);
        if localAll.Success? {
          var local := FilterBarsByDate(localAll.value, req.startDate, req.endDate);
          if LocalCovers(localAll.value, local, k.period, req) {
            local := Slice(local, req.start, req.count);
            CacheBars(key, local);
            return Success(local);
          }
          if k.period == Day && req.startDate != 0 && req.endDate != 0 {
            var gaps := Gaps.BarGapsForRequest(localAll.value, k.period, req);
            if |gaps| > 0 {
              answer := FillGaps(k, req, w, local, gaps);
              return;
            }
          }
        }
      }
      answer := FetchAll(k, req, w);
    }
  }

  lemma GapBarsNext(s: seq<Bar>, req: Request, gaps: seq<Gaps.Gap>, i: nat)
    requires i < |gaps|
    ensures GapBars(s, req, gaps[..i + 1])
         == GapBars(s, req, gaps[..i]) + KLinePages.ProviderBars(s, GapRequest(req, gaps[i]))
  {
    assert gaps[..i + 1][..i] == gaps[..i];
  }

  lemma {:induction false} GapBarsFrom(s: seq<Bar>, req: Request, gaps: seq<Gaps.Gap>)
    ensures forall b | b in GapBars(s, req, gaps) :: b in s
  {
    if gaps != [] {
      GapBarsFrom(s, req, gaps[..|gaps| - 1]);
      KLinePages.ProviderBarsFrom(s, GapRequest(req, gaps[|gaps| - 1]));
    }
  }
}
