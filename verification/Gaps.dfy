// Which days of a requested daily range the local bars leave uncovered.
module Gaps {
  import opened Bars

  const MAX_DAILY_BAR_GAP: int := 21 * DAY

  // Both ends are midnights and belong to the gap.
  datatype Gap = Gap(start: int, end: int)

  function Days(bars: seq<Bar>): seq<int> {
    seq(|bars|, i requires 0 <= i < |bars| => Midnight(bars[i].time))
  }

  // The gap between two neighbouring days, if they are too far apart.
  function Between(prev: int, next: int): seq<Gap> {
    if prev != 0 && next != 0 && next > prev && next - prev > MAX_DAILY_BAR_GAP
    then [Gap(prev + DAY, next - DAY)] else []
  }

  // The gaps between neighbours among the first n days.
  function Inner(days: seq<int>, n: nat): seq<Gap>
    requires n <= |days|
  {
    if n <= 1 then [] else Inner(days, n - 1) + Between(days[n - 2], days[n - 1])
  }

  function Lead(days: seq<int>, start: int): seq<Gap>
    requires days != []
  {
    if days[0] > start then [Gap(start, days[0] - DAY)] else []
  }

  function Trail(days: seq<int>, end: int): seq<Gap>
    requires days != []
  {
    var last := days[|days| - 1];
    if end > last && end - last > MAX_DAILY_BAR_GAP then [Gap(last + DAY, end)] else []
  }

  function RangeGaps(days: seq<int>, start: int, end: int): seq<Gap> {
    if days == [] then [Gap(start, end)] else Lead(days, start) + Inner(days, |days|) + Trail(days, end)
  }

  // barGapsForRequest: only daily requests with both dates have gaps.
  function GapsFor(bars: seq<Bar>, period: Period, req: Request): seq<Gap> {
    var start, end := Midnight(req.startDate), Midnight(req.endDate);
    if period != Day || req.startDate == 0 || req.endDate == 0 || start == 0 || end == 0 || end < start then []
    else RangeGaps(Days(Filter(bars, start, end)), start, end)
  }

  method BarGapsForRequest(bars: seq<Bar>, period: Period, req: Request) returns (gaps: seq<Gap>)
    ensures gaps == GapsFor(bars, period, req)
  {
    if period != Day || req.startDate == 0 || req.endDate == 0 {
      return [];
    }
    var start := Midnight(req.startDate);
    var end := Midnight(req.endDate);
    if start == 0 || end == 0 || end < start {
      return [];
    }
    var inRange := FilterBarsByDate(bars, start, end);
    if |inRange| == 0 {
      return [Gap(start, end)];
    }
    gaps := GapsAround(inRange, start, end);
  }

  // One turn of the loop of barGapsForRequest.
  method GapBetween(before: Bar, after: Bar) returns (found: seq<Gap>)
    ensures found == Between(Midnight(before.time), Midnight(after.time))
  {
    var prev := Midnight(before.time);
    var next := Midnight(after.time);
    if prev == 0 || next == 0 || !(next > prev) {
      return [];
    }
    if next - prev > MAX_DAILY_BAR_GAP {
      return [Gap(prev + DAY, next - DAY)];
    }
    found := [];
  }

  lemma OneMoreGap(days: seq<int>, start: int, i: nat)
    requires 0 < i < |days|
    ensures Lead(days, start) + Inner(days, i + 1) == Lead(days, start) + Inner(days, i) + Between(days[i - 1], days[i])
  {
    var a, b, c := Lead(days, start), Inner(days, i), Between(days[i - 1], days[i]);
    assert a + (b + c) == a + b + c;
  }

  // The loop of barGapsForRequest, over the in-range bars.
  method GapsAround(inRange: seq<Bar>, start: int, end: int) returns (gaps: seq<Gap>)
    requires inRange != []
    ensures gaps == RangeGaps(Days(inRange), start, end)
  {
    ghost var days := Days(inRange);
    gaps := [];
    var first := Midnight(inRange[0].time);
    if first > start {
      gaps := gaps + [Gap(start, first - DAY)];
    }
    for i := 1 to |inRange|
      invariant gaps == Lead(days, start) + Inner(days, i)
    {
      var found := GapBetween(inRange[i - 1], inRange[i]);
      assert found == Between(days[i - 1], days[i]);
      OneMoreGap(days, start, i);
      gaps := gaps + found;
    }
    var last := Midnight(inRange[|inRange| - 1].time);
    if end > last && end - last > MAX_DAILY_BAR_GAP {
      gaps := gaps + [Gap(last + DAY, end)];
    }
  }

  // --- Soundness and completeness

  ghost predicate Ordered(days: seq<int>) {
    forall i, j | 0 <= i < j < |days| :: days[i] <= days[j]
  }

  // Positive midnights in time order.
  ghost predicate DayList(days: seq<int>) {
    && (forall i | 0 <= i < |days| :: days[i] > 0 && Midnight(days[i]) == days[i])
    && Ordered(days)
  }

  ghost predicate Outside(d: int, gaps: seq<Gap>) {
    forall g | g in gaps :: d < g.start || g.end < d
  }

  // Gaps are non-empty, in order, disjoint, and lie within [lo, hi].
  ghost predicate WellPlaced(gaps: seq<Gap>, lo: int, hi: int) {
    && (forall i | 0 <= i < |gaps| :: lo <= gaps[i].start <= gaps[i].end <= hi)
    && forall i, j | 0 <= i < j < |gaps| :: gaps[i].end < gaps[j].start
  }

  // Day d is day i itself, or follows it closely: the next day present comes after
  // d and at most 21 days after day i; after the last day, the range ends that close.
  ghost predicate Bridges(days: seq<int>, i: int, d: int, end: int) {
    && 0 <= i < |days| && days[i] <= d
    && (days[i] == d
        || if i + 1 < |days| then d < days[i + 1] <= days[i] + 21 * DAY
           else end <= days[i] + 21 * DAY)
  }

  lemma MidnightsApart(a: int, b: int)
    requires Midnight(a) == a && Midnight(b) == b && a < b
    ensures a + DAY <= b && Midnight(a + DAY) == a + DAY
  {
  }

  lemma MidnightOf(t: int)
    ensures Midnight(t) <= t < Midnight(t) + DAY && Midnight(Midnight(t)) == Midnight(t)
  {
  }

  lemma MidnightMonotone(a: int, b: int)
    requires a <= b
    ensures Midnight(a) <= Midnight(b)
  {
    MidnightOf(a);
    MidnightOf(b);
    if Midnight(b) < Midnight(a) {
      MidnightsApart(Midnight(b), Midnight(a));
    }
  }

  lemma {:induction false} InnerSound(days: seq<int>, n: nat)
    requires Ordered(days) && 0 < n <= |days|
    ensures WellPlaced(Inner(days, n), days[0] + DAY, days[n - 1] - DAY)
  {
    if n > 1 {
      InnerSound(days, n - 1);
      var gap := Between(days[n - 2], days[n - 1]);
      if gap == [] {
        assert Inner(days, n) == Inner(days, n - 1);
      } else {
        PlacedConcat(Inner(days, n - 1), gap, days[0] + DAY, days[n - 2], days[n - 1] - DAY);
      }
    }
  }

  lemma {:induction false} InnerComplete(days: seq<int>, n: nat, d: int) returns (i: int)
    requires DayList(days) && 0 < n <= |days| && Midnight(d) == d
    requires days[0] <= d <= days[n - 1] && Outside(d, Inner(days, n))
    ensures 0 <= i < n && days[i] <= d
    ensures days[i] == d || (i + 1 < n && d < days[i + 1] <= days[i] + MAX_DAILY_BAR_GAP)
  {
    if d == days[n - 1] {
      i := n - 1;
    } else if d < days[n - 2] {
      i := InnerComplete(days, n - 1, d);
    } else {
      i := n - 2;
      LastBetween(days, n, d);
    }
  }

  lemma LastBetween(days: seq<int>, n: nat, d: int)
    requires DayList(days) && 1 < n <= |days| && Midnight(d) == d
    requires days[n - 2] <= d < days[n - 1] && Outside(d, Inner(days, n))
    ensures days[n - 2] == d || days[n - 1] <= days[n - 2] + MAX_DAILY_BAR_GAP
  {
    BetweenIsInner(days, n);
    if d > days[n - 2] {
      MidnightsApart(days[n - 2], d);
      MidnightsApart(d, days[n - 1]);
    }
  }

  lemma BetweenIsInner(days: seq<int>, n: nat)
    requires 1 < n <= |days|
    ensures forall g | g in Between(days[n - 2], days[n - 1]) :: g in Inner(days, n)
  {
  }

  lemma PlacedConcat(a: seq<Gap>, b: seq<Gap>, lo: int, mid: int, hi: int)
    requires WellPlaced(a, lo, mid) && WellPlaced(b, mid + DAY, hi)
    requires a != [] ==> mid <= hi
    requires b != [] ==> lo <= mid + DAY
    ensures WellPlaced(a + b, lo, hi)
  {
  }

  lemma InnerAvoids(days: seq<int>, n: nat)
    requires Ordered(days) && 0 < n <= |days|
    ensures forall i | 0 <= i < |days| :: Outside(days[i], Inner(days, n))
  {
    if n > 1 {
      InnerAvoids(days, n - 1);
    }
  }

  lemma LeadSound(days: seq<int>, start: int)
    requires DayList(days) && days != [] && Midnight(start) == start && start <= days[0]
    ensures WellPlaced(Lead(days, start), start, days[0] - DAY)
    ensures forall i | 0 <= i < |days| :: Outside(days[i], Lead(days, start))
  {
    if days[0] > start {
      MidnightsApart(start, days[0]);
    }
  }

  lemma RangeGapsPlaced(days: seq<int>, start: int, end: int)
    requires Ordered(days) && days != [] && start <= days[0] && days[|days| - 1] <= end
    requires WellPlaced(Lead(days, start), start, days[0] - DAY)
    ensures WellPlaced(RangeGaps(days, start, end), start, end)
  {
    var n := |days|;
    InnerSound(days, n);
    PlacedConcat(Lead(days, start), Inner(days, n), start, days[0] - DAY, days[n - 1]);
    PlacedConcat(Lead(days, start) + Inner(days, n), Trail(days, end), start, days[n - 1], end);
  }

  // The gaps of a range are non-empty, in order, disjoint, within the range, and
  // none contains the day of an in-range bar.
  lemma GapsSound(days: seq<int>, start: int, end: int)
    requires DayList(days) && 0 < start <= end && Midnight(start) == start && Midnight(end) == end
    requires forall i | 0 <= i < |days| :: start <= days[i] <= end
    ensures WellPlaced(RangeGaps(days, start, end), start, end)
    ensures forall i | 0 <= i < |days| :: Outside(days[i], RangeGaps(days, start, end))
  {
    if days != [] {
      LeadSound(days, start);
      InnerAvoids(days, |days|);
      RangeGapsPlaced(days, start, end);
      forall i | 0 <= i < |days|
        ensures Outside(days[i], RangeGaps(days, start, end))
      {
        assert Outside(days[i], Lead(days, start)) && Outside(days[i], Inner(days, |days|));
        assert Outside(days[i], Trail(days, end));
      }
    }
  }

  // Every day of the range outside all gaps has an in-range bar on it, or one before
  // it with the next one, or the end of the range, at most 21 days later.
  lemma GapsComplete(days: seq<int>, start: int, end: int, d: int) returns (i: int)
    requires DayList(days) && 0 < start <= end && Midnight(start) == start && Midnight(end) == end
    requires forall i | 0 <= i < |days| :: start <= days[i] <= end
    requires start <= d <= end && Midnight(d) == d && Outside(d, RangeGaps(days, start, end))
    ensures Bridges(days, i, d, end)
  {
    var n := |days|;
    var gaps := RangeGaps(days, start, end);
    assert days == [] ==> Gap(start, end) in gaps;
    assert days != [] ==>
        && (forall g | g in Lead(days, start) :: g in gaps)
        && (forall g | g in Inner(days, n) :: g in gaps)
        && (forall g | g in Trail(days, end) :: g in gaps);
    if d < days[0] {
      MidnightsApart(d, days[0]);
    }
    if d <= days[n - 1] {
      i := InnerComplete(days, n, d);
    } else {
      i := n - 1;
      MidnightsApart(days[i], d);
    }
  }

  lemma {:induction false} InnerAvoidsClose(days: seq<int>, n: nat, i: nat, j: nat, d: int)
    requires Ordered(days) && n <= |days| && i < |days| && j < |days|
    requires days[i] <= d <= days[j] <= days[i] + MAX_DAILY_BAR_GAP
    ensures Outside(d, Inner(days, n))
  {
    if n > 1 {
      InnerAvoidsClose(days, n - 1, i, j, d);
      if days[n - 2] < d < days[n - 1] {
        assert i <= n - 2 && j >= n - 1;
      }
    }
  }

  // A day between two days present at most 21 days apart is in no gap.
  lemma CloseIsOutside(days: seq<int>, start: int, end: int, i: nat, j: nat, d: int)
    requires Ordered(days) && i < |days| && j < |days|
    requires days[i] <= d <= days[j] <= days[i] + MAX_DAILY_BAR_GAP
    ensures Outside(d, RangeGaps(days, start, end))
  {
    InnerAvoidsClose(days, |days|, i, j, d);
    assert Outside(d, Lead(days, start)) && Outside(d, Trail(days, end));
  }

  // Nor is a day after the last one present when the range ends at most 21 days after it.
  lemma LastIsOutside(days: seq<int>, start: int, end: int, d: int)
    requires Ordered(days) && days != []
    requires days[|days| - 1] <= d && end <= days[|days| - 1] + MAX_DAILY_BAR_GAP
    ensures Outside(d, RangeGaps(days, start, end))
  {
    InnerSound(days, |days|);
    assert Outside(d, Lead(days, start)) && Trail(days, end) == [];
    assert Outside(d, Inner(days, |days|));
  }

  // The gaps are exactly the days that are not bridged.
  lemma GapsExact(days: seq<int>, start: int, end: int, d: int)
    requires DayList(days) && 0 < start <= end && Midnight(start) == start && Midnight(end) == end
    requires forall i | 0 <= i < |days| :: start <= days[i] <= end
    requires start <= d <= end && Midnight(d) == d
    ensures Outside(d, RangeGaps(days, start, end)) <==> exists i :: Bridges(days, i, d, end)
  {
    if Outside(d, RangeGaps(days, start, end)) {
      var i := GapsComplete(days, start, end, d);
    }
    if i :| Bridges(days, i, d, end) {
      if days[i] == d {
        CloseIsOutside(days, start, end, i, i, d);
      } else if i + 1 < |days| {
        CloseIsOutside(days, start, end, i, i + 1, d);
      } else {
        LastIsOutside(days, start, end, d);
      }
    }
  }

  ghost predicate Sorted(bars: seq<Bar>) {
    forall i, j | 0 <= i < j < |bars| :: bars[i].time <= bars[j].time
  }

  // For bars in time order, the in-range days meet the two lemmas above.
  lemma InRangeDays(bars: seq<Bar>, start: int, end: int)
    requires Sorted(bars)
    requires 0 < start <= end && Midnight(start) == start && Midnight(end) == end
    requires forall b | b in bars :: start <= b.time <= end
    ensures DayList(Days(bars))
    ensures forall i | 0 <= i < |bars| :: start <= Days(bars)[i] <= end
  {
    forall i | 0 <= i < |bars|
      ensures Days(bars)[i] > 0 && Midnight(Days(bars)[i]) == Days(bars)[i] && start <= Days(bars)[i] <= end
    {
      assert bars[i] in bars;
      MidnightOf(bars[i].time);
      MidnightMonotone(start, bars[i].time);
      MidnightMonotone(bars[i].time, end);
    }
    forall i, j | 0 <= i < j < |bars|
      ensures Days(bars)[i] <= Days(bars)[j]
    {
      MidnightMonotone(bars[i].time, bars[j].time);
    }
  }

  // The days of the in-range bars of a request.
  function RequestDays(bars: seq<Bar>, req: Request): seq<int> {
    Days(Filter(bars, Midnight(req.startDate), Midnight(req.endDate)))
  }

  // For any bars in time order, whatever their stamps: the gaps of a daily request
  // are non-empty, in order, disjoint and within its dates, none contains the day of
  // an in-range bar, and a day of the range is in none exactly if it is bridged.
  lemma RequestGapsExact(bars: seq<Bar>, req: Request, d: int)
    requires Sorted(bars)
    requires 0 < Midnight(req.startDate) <= d <= Midnight(req.endDate) && Midnight(d) == d
    ensures var gaps := GapsFor(bars, Day, req);
            var days := RequestDays(bars, req);
            && WellPlaced(gaps, Midnight(req.startDate), Midnight(req.endDate))
            && (forall i | 0 <= i < |days| :: Outside(days[i], gaps))
            && (Outside(d, gaps) <==> exists i :: Bridges(days, i, d, Midnight(req.endDate)))
  {
    var start, end := Midnight(req.startDate), Midnight(req.endDate);
    MidnightOf(req.startDate);
    MidnightOf(req.endDate);
    assert Filter(bars, start, end) == Within(bars, start, end);
    WithinKeepsSorted(bars, start, end);
    WithinKeeps(bars, start, end);
    InRangeDays(Filter(bars, start, end), start, end);
    GapsSound(RequestDays(bars, req), start, end);
    GapsExact(RequestDays(bars, req), start, end, d);
  }

  lemma {:induction false} WithinKeepsSorted(bars: seq<Bar>, lo: int, hi: int)
    requires Sorted(bars)
    ensures Sorted(Within(bars, lo, hi))
  {
    if bars != [] {
      var n := |bars| - 1;
      WithinKeepsSorted(bars[..n], lo, hi);
      WithinKeeps(bars[..n], lo, hi);
      assert forall x | x in bars[..n] :: x.time <= bars[n].time;
      var rest := Within(bars[..n], lo, hi);
      assert forall i | 0 <= i < |rest| :: rest[i] in rest;
    }
  }
}
