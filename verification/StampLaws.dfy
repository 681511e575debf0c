// Daily bars stamped within their day. The gaps of a request end at midnights, so a
// bar stamped later on the last day of a gap falls outside what is fetched for it.
module StampLaws {
  import opened Wrappers
  import opened Bars
  import opened Gaps
  import opened KLinePages
  import opened MarketData
  import opened MarketLaws

  // Bars of one daily series in time order, stamped at any time of their days.
  ghost predicate StampedSeries(s: seq<Bar>, k: Series) {
    && Increasing(s) && ValidSymbol(k.symbol) && k.period == Day && k.adjust != Unset
    && forall b | b in s :: b.series == k && b.time > 0
  }

  ghost predicate OnGapDay(b: Bar, gaps: seq<Gap>) {
    !Outside(Midnight(b.time), gaps)
  }

  // Stamped after midnight on the last day of a gap.
  ghost predicate Late(b: Bar, gaps: seq<Gap>) {
    exists g :: g in gaps && Midnight(b.time) == g.end < b.time
  }

  // --- The gaps of a request begin and end at midnights

  lemma {:induction false} InnerMidnights(days: seq<int>, n: nat)
    requires DayList(days) && n <= |days|
    ensures forall g | g in Inner(days, n) :: Midnight(g.start) == g.start && Midnight(g.end) == g.end
  {
    if n > 1 {
      InnerMidnights(days, n - 1);
    }
  }

  lemma RangeMidnights(days: seq<int>, start: int, end: int)
    requires DayList(days) && Midnight(start) == start && Midnight(end) == end
    ensures forall g | g in RangeGaps(days, start, end) :: Midnight(g.start) == g.start && Midnight(g.end) == g.end
  {
    if days != [] {
      InnerMidnights(days, |days|);
      EndMidnights(days, start, end);
    }
  }

  lemma EndMidnights(days: seq<int>, start: int, end: int)
    requires DayList(days) && days != [] && Midnight(start) == start && Midnight(end) == end
    ensures forall g | g in Lead(days, start) :: Midnight(g.start) == g.start && Midnight(g.end) == g.end
    ensures forall g | g in Trail(days, end) :: Midnight(g.start) == g.start && Midnight(g.end) == g.end
  {
    MidnightBeside(days[0]);
    MidnightBeside(days[|days| - 1]);
  }

  lemma MidnightBeside(d: int)
    requires Midnight(d) == d
    ensures Midnight(d - DAY) == d - DAY && Midnight(d + DAY) == d + DAY
  {
  }

  // Proper gaps: non-empty, in order, disjoint, positive, from midnight to midnight.
  ghost predicate ProperGaps(gaps: seq<Gap>, lo: int, hi: int) {
    && 0 < lo && WellPlaced(gaps, lo, hi)
    && forall g | g in gaps :: Midnight(g.start) == g.start && Midnight(g.end) == g.end
  }

  lemma RequestGapsProper(bars: seq<Bar>, req: Request)
    requires Sorted(bars) && 0 < Midnight(req.startDate) <= Midnight(req.endDate)
    ensures ProperGaps(GapsFor(bars, Day, req), Midnight(req.startDate), Midnight(req.endDate))
  {
    var start, end := Midnight(req.startDate), Midnight(req.endDate);
    MidnightOf(req.startDate);
    MidnightOf(req.endDate);
    RequestGapsExact(bars, req, start);
    WithinKeepsSorted(bars, start, end);
    WithinKeeps(bars, start, end);
    InRangeDays(Filter(bars, start, end), start, end);
    RangeMidnights(RequestDays(bars, req), start, end);
  }

  predicate Contains(g: Gap, d: int) {
    g.start <= d <= g.end
  }

  lemma ContainsStamp(g: Gap, t: int)
    requires Midnight(g.start) == g.start && Midnight(g.end) == g.end
    ensures Contains(g, t) <==> Contains(g, Midnight(t)) && !(Midnight(t) == g.end < t)
  {
    MidnightOf(t);
    if g.start <= t {
      MidnightMonotone(g.start, t);
    }
    if Midnight(t) < g.end {
      MidnightsApart(Midnight(t), g.end);
    }
  }

  lemma OneGapADay(gaps: seq<Gap>, lo: int, hi: int, d: int)
    requires WellPlaced(gaps, lo, hi)
    ensures forall g, h | g in gaps && h in gaps && Contains(g, d) && Contains(h, d) :: g == h
  {
  }

  // What is fetched for the gaps has the stamps on their days that are not late.
  lemma FetchedStamps(gaps: seq<Gap>, lo: int, hi: int, b: Bar)
    requires ProperGaps(gaps, lo, hi)
    ensures !Outside(b.time, gaps) <==> OnGapDay(b, gaps) && !Late(b, gaps)
  {
    OneGapADay(gaps, lo, hi, Midnight(b.time));
    forall g | g in gaps
      ensures Contains(g, b.time) <==> Contains(g, Midnight(b.time)) && !(Midnight(b.time) == g.end < b.time)
    {
      ContainsStamp(g, b.time);
    }
    assert !Outside(b.time, gaps) <==> exists g :: g in gaps && Contains(g, b.time);
    assert OnGapDay(b, gaps) <==> exists g :: g in gaps && Contains(g, Midnight(b.time));
    assert forall g | g in gaps && Midnight(b.time) == g.end :: Contains(g, Midnight(b.time));
  }

  // --- What a gap fill answers

  lemma FillContents(st: State, k: Series, req: Request, w: World, s: seq<Bar>)
    requires StampedSeries(s, k) && StoreGood(st, s, k) && w.up(k) == s && WholeRange(req)
    requires GapPath(st, k, req) && GapReply(st, k, req, w).answer.Success?
    ensures var gaps := GapsFor(LocalAll(st, k, req), k.period, req);
            && ProperGaps(gaps, Midnight(req.startDate), Midnight(req.endDate))
            && forall b :: b in GapReply(st, k, req, w).answer.value <==>
                 b in Local(st, k, req) || (b in Newest(s, REACH) && Wanted(b, req) && !Outside(b.time, gaps))
  {
    var gaps := GapsFor(LocalAll(st, k, req), k.period, req);
    var remote := GapBars(s, req, gaps);
    LocalIsPart(st, k, req, s);
    RequestGapsProper(LocalAll(st, k, req), req);
    GapBarsContents(s, req, gaps);
    GapBarsFrom(s, req, gaps);
    MergedIsPart(st, k, req, s, remote);
    SliceAll(Merge(Local(st, k, req), Filter(remote, req.startDate, req.endDate)));
  }

  // Whatever the stamps: of the upstream bars within reach, dates and gap days, the
  // answer lacks exactly those that are late and not in the store.
  lemma FillLacksLateStamps(st: State, k: Series, req: Request, w: World, s: seq<Bar>, b: Bar)
    requires StampedSeries(s, k) && StoreGood(st, s, k) && w.up(k) == s && WholeRange(req)
    requires GapPath(st, k, req) && GapReply(st, k, req, w).answer.Success?
    requires b in Newest(s, REACH) && Wanted(b, req)
    requires OnGapDay(b, GapsFor(LocalAll(st, k, req), k.period, req))
    ensures b !in GapReply(st, k, req, w).answer.value <==>
            Late(b, GapsFor(LocalAll(st, k, req), k.period, req)) && b !in Local(st, k, req)
  {
    FillContents(st, k, req, w, s);
    FetchedStamps(GapsFor(LocalAll(st, k, req), k.period, req), Midnight(req.startDate), Midnight(req.endDate), b);
  }

  // So a gap fill brings in all bars of its days exactly when none that is missing
  // from the store is late. (Bars stamped at midnight never are.)
  lemma FillIsCompleteExactlyWhen(st: State, k: Series, req: Request, w: World, s: seq<Bar>)
    requires StampedSeries(s, k) && StoreGood(st, s, k) && w.up(k) == s && WholeRange(req)
    requires GapPath(st, k, req) && GapReply(st, k, req, w).answer.Success?
    ensures var gaps := GapsFor(LocalAll(st, k, req), k.period, req);
            var answer := GapReply(st, k, req, w).answer.value;
            (forall b | b in Newest(s, REACH) && Wanted(b, req) && OnGapDay(b, gaps) :: b in answer)
            <==> forall b | b in Newest(s, REACH) && Wanted(b, req) && Late(b, gaps) :: b in Local(st, k, req)
  {
    var gaps := GapsFor(LocalAll(st, k, req), k.period, req);
    FillContents(st, k, req, w, s);
    forall b | b in Newest(s, REACH) && Wanted(b, req) && (OnGapDay(b, gaps) || Late(b, gaps))
      ensures b in GapReply(st, k, req, w).answer.value <==> !Late(b, gaps) || b in Local(st, k, req)
      ensures OnGapDay(b, gaps)
    {
      LateIsOnGapDay(gaps, Midnight(req.startDate), Midnight(req.endDate), b);
      FillLacksLateStamps(st, k, req, w, s, b);
    }
  }

  lemma LateIsOnGapDay(gaps: seq<Gap>, lo: int, hi: int, b: Bar)
    requires ProperGaps(gaps, lo, hi) && (OnGapDay(b, gaps) || Late(b, gaps))
    ensures OnGapDay(b, gaps)
  {
  }

  // --- An input for which a bar is lost

  const NOON: int := DAY / 2

  // Day d of a series, stamped at noon.
  function NoonBar(k: Series, d: nat): Bar {
    Bar(k, d * DAY + NOON, 0)
  }

  lemma NoonOf(k: Series, d: nat)
    ensures Midnight(NoonBar(k, d).time) == d * DAY < NoonBar(k, d).time
    ensures Midnight(d * DAY) == d * DAY
  {
    assert (d * DAY + NOON) % DAY == NOON && (d * DAY) % DAY == 0;
  }

  // The upstream has days 39 and 40, the store day 40; days 10 to 45 are asked for.
  function NoonSeries(k: Series): seq<Bar> {
    [NoonBar(k, 39), NoonBar(k, 40)]
  }

  function NoonState(k: Series): State {
    State(Some(map[k := [NoonBar(k, 40)]]), None)
  }

  const NOON_REQUEST: Request := Request(0, 0, 10 * DAY, 45 * DAY, false)

  lemma NoonWithin(k: Series, lo: int, hi: int)
    ensures Within([NoonBar(k, 40)], lo, hi) == if InRange(NoonBar(k, 40).time, lo, hi) then [NoonBar(k, 40)] else []
    ensures Within(NoonSeries(k), lo, hi) ==
            (if InRange(NoonBar(k, 39).time, lo, hi) then [NoonBar(k, 39)] else [])
            + Within([NoonBar(k, 40)], lo, hi)
  {
    WithinConcat([NoonBar(k, 39)], [NoonBar(k, 40)], lo, hi);
    assert NoonSeries(k) == [NoonBar(k, 39)] + [NoonBar(k, 40)];
  }

  lemma NoonLocal(k: Series)
    requires k.period == Day
    ensures LocalAll(NoonState(k), k, NOON_REQUEST) == Local(NoonState(k), k, NOON_REQUEST) == [NoonBar(k, 40)]
    ensures GapsFor([NoonBar(k, 40)], Day, NOON_REQUEST) == [Gap(10 * DAY, 39 * DAY)]
  {
    NoonOf(k, 10);
    NoonOf(k, 40);
    NoonOf(k, 45);
    NoonWithin(k, 0, 45 * DAY);
    NoonWithin(k, 10 * DAY, 45 * DAY);
    NoonDays(k);
  }

  lemma NoonDays(k: Series)
    ensures Days([NoonBar(k, 40)]) == [40 * DAY]
    ensures RangeGaps([40 * DAY], 10 * DAY, 45 * DAY) == [Gap(10 * DAY, 39 * DAY)]
  {
    NoonOf(k, 40);
    assert Inner([40 * DAY], 1) == [];
  }

  lemma NoonFetch(k: Series)
    ensures GapBars(NoonSeries(k), NOON_REQUEST, [Gap(10 * DAY, 39 * DAY)]) == []
  {
    var g := Gap(10 * DAY, 39 * DAY);
    NoonOf(k, 10);
    NoonOf(k, 39);
    NoonOf(k, 40);
    RangeIsExact(NoonSeries(k), GapRequest(NOON_REQUEST, g));
    assert Newest(NoonSeries(k), REACH) == NoonSeries(k);
    NoonWithin(k, g.start, g.end);
    assert GapBars(NoonSeries(k), NOON_REQUEST, [g]) == GapBars(NoonSeries(k), NOON_REQUEST, []) + [];
  }

  lemma NoonPath(k: Series)
    requires k.period == Day
    ensures GapPath(NoonState(k), k, NOON_REQUEST) && !LocalPath(NoonState(k), k, NOON_REQUEST)
  {
    NoonLocal(k);
  }

  lemma NoonGapReply(k: Series, w: World)
    requires k.period == Day && w.up(k) == NoonSeries(k) && w.failAt.None?
    requires GapsFor(LocalAll(NoonState(k), k, NOON_REQUEST), k.period, NOON_REQUEST) != []
    ensures var r := GapReply(NoonState(k), k, NOON_REQUEST, w);
            r.answer == Success([NoonBar(k, 40)]) && r.state == NoonState(k)
  {
    var b := NoonBar(k, 40);
    NoonLocal(k);
    NoonFetch(k);
    SameMerge(b);
    assert Within([], Midnight(NOON_REQUEST.startDate), NOON_REQUEST.endDate) == [];
    assert Slice([b], 0, 0) == [b];
  }

  lemma NoonReply(k: Series, w: World)
    requires ValidSymbol(k.symbol) && k.period == Day && w.up(k) == NoonSeries(k) && w.failAt.None?
    ensures var r := MarketData.Query(NoonState(k), k, NOON_REQUEST, w);
            r.answer == Success([NoonBar(k, 40)]) && r.state == NoonState(k)
  {
    NoonPath(k);
    NoonGapReply(k, w);
  }

  lemma SameMerge(b: Bar)
    ensures Merge([b], []) == [b]
  {
    MergeNothing([b]);
  }

  // The gap from day 10 to day 39 is fetched, but not the bar at noon of day 39: the
  // answer has no bar before day 40, and so does not bridge the one it lacks. The
  // store stays as it was, so asking again gives the same answer.
  lemma NoonBarIsLost(k: Series, w: World)
    requires ValidSymbol(k.symbol) && k.period == Day && k.adjust != Unset
    requires w.up(k) == NoonSeries(k) && w.failAt.None?
    ensures StampedSeries(NoonSeries(k), k) && StoreGood(NoonState(k), NoonSeries(k), k) && WholeRange(NOON_REQUEST)
    ensures var r := MarketData.Query(NoonState(k), k, NOON_REQUEST, w);
            && r.answer == Success([NoonBar(k, 40)]) && r.state == NoonState(k)
            && !Faithful(r.answer.value, NoonSeries(k), NOON_REQUEST)
  {
    NoonOf(k, 10);
    NoonOf(k, 39);
    NoonOf(k, 40);
    NoonOf(k, 45);
    NoonReply(k, w);
    var lost := NoonBar(k, 39);
    assert lost in Newest(NoonSeries(k), REACH) && Wanted(lost, NOON_REQUEST);
    assert !Bridged([NoonBar(k, 40)], lost, NOON_REQUEST);
  }
}
