// K-line bars, dates, and the two list operations everything else is built on:
// filtering by date and merging by timestamp (the later list wins).
module Bars {
  import opened Wrappers

  // Times are nanoseconds of local clock time, counted from the zero time, so that
  // midnights are multiples of DAY; 0 is the zero time.
  const DAY: int := 86_400_000_000_000

  function Midnight(t: int): int {
    t - t % DAY
  }

  // Midnight is the last whole day, of 86400 seconds, at or before a time.
  lemma MidnightMeaning(t: int) returns (day: int)
    ensures Midnight(t) == day * 86_400_000_000_000 <= t < Midnight(t) + 86_400_000_000_000
  {
    day := t / DAY;
  }

  datatype Symbol = Symbol(market: string, code: string)

  datatype Period = PeriodUnknown | Minute(n: nat) | Hour | Day | Week | Month | Quarter | Year

  datatype Adjust = Unset | Plain | Qfq | Hfq

  // What identifies one K-line.
  datatype Series = Series(symbol: Symbol, period: Period, adjust: Adjust)

  datatype Bar = Bar(series: Series, time: int, data: int)

  // A K-line request; zero dates and counts are unset.
  datatype Request = Request(start: nat, count: nat, startDate: int, endDate: int, forceRefresh: bool)

  datatype Error = InvalidRequest | NoData | UpstreamUnavailable

  predicate ValidSymbol(s: Symbol) {
    s.market != "" && s.code != ""
  }

  // --- Filtering by time; a zero bound is no bound

  predicate InRange(t: int, lo: int, hi: int) {
    (lo != 0 ==> lo <= t) && (hi != 0 ==> t <= hi)
  }

  function Within(bars: seq<Bar>, lo: int, hi: int): seq<Bar> {
    if bars == [] then []
    else
      var n := |bars| - 1;
      var rest := Within(bars[..n], lo, hi);
      if InRange(bars[n].time, lo, hi) then rest + [bars[n]] else rest
  }

  // Filtering by date starts at midnight of the start date, but ends at the very
  // time given.
  function Filter(bars: seq<Bar>, startDate: int, endDate: int): seq<Bar> {
    Within(bars, Midnight(startDate), endDate)
  }

  method FilterBarsByDate(bars: seq<Bar>, startDate: int, endDate: int) returns (out: seq<Bar>)
    ensures out == Filter(bars, startDate, endDate)
  {
    var start := Midnight(startDate);
    var end := endDate;
    out := [];
    for i := 0 to |bars|
      invariant out == Within(bars[..i], start, end)
    {
      assert bars[..i + 1][..i] == bars[..i];
      if start != 0 && bars[i].time < start {
        continue;
      }
      if end != 0 && bars[i].time > end {
        continue;
      }
      out := out + [bars[i]];
    }
    assert bars[..|bars|] == bars;
  }

  // Strictly increasing times.
  ghost predicate Increasing(bars: seq<Bar>) {
    forall i, j | 0 <= i < j < |bars| :: bars[i].time < bars[j].time
  }

  lemma {:induction false} WithinKeeps(bars: seq<Bar>, lo: int, hi: int)
    ensures forall b :: b in Within(bars, lo, hi) <==> b in bars && InRange(b.time, lo, hi)
    ensures Increasing(bars) ==> Increasing(Within(bars, lo, hi))
  {
    if bars != [] {
      var n := |bars| - 1;
      WithinKeeps(bars[..n], lo, hi);
      assert bars == bars[..n] + [bars[n]];
    }
  }

  lemma {:induction false} WithinNone(bars: seq<Bar>, lo: int, hi: int)
    requires forall b | b in bars :: !InRange(b.time, lo, hi)
    ensures Within(bars, lo, hi) == []
  {
    if bars != [] {
      WithinNone(bars[..|bars| - 1], lo, hi);
    }
  }

  lemma {:induction false} WithinConcat(a: seq<Bar>, b: seq<Bar>, lo: int, hi: int)
    ensures Within(a + b, lo, hi) == Within(a, lo, hi) + Within(b, lo, hi)
  {
    if b == [] {
      assert a + b == a;
    } else {
      var n := |b| - 1;
      assert (a + b)[..|a + b| - 1] == a + b[..n];
      WithinConcat(a, b[..n], lo, hi);
    }
  }

  // --- The page of an answer that the caller asked for

  function Slice(bars: seq<Bar>, start: nat, count: nat): seq<Bar> {
    if bars == [] then bars
    else if start > |bars| then []
    else bars[start..if count > 0 && start + count < |bars| then start + count else |bars|]
  }

  // `out` is the page of a list that skips `start` items and has at most `count`, or
  // all that are left if count is 0.
  ghost predicate IsPage<T>(out: seq<T>, items: seq<T>, start: nat, count: nat) {
    var left := if start < |items| then |items| - start else 0;
    && |out| == (if count == 0 || left < count then left else count)
    && forall i | 0 <= i < |out| :: out[i] == items[start + i]
  }

  lemma SliceIsPage(bars: seq<Bar>, start: nat, count: nat)
    ensures IsPage(Slice(bars, start, count), bars, start, count)
  {
  }

  // A page of a page skips what both skip.
  lemma PageOfPage<T>(out: seq<T>, mid: seq<T>, items: seq<T>, a: nat, b: nat, count: nat)
    requires IsPage(mid, items, a, count) && IsPage(out, mid, b, count)
    ensures forall i | 0 <= i < |out| :: a + b + i < |items| && out[i] == items[a + b + i]
    ensures count == 0 ==> IsPage(out, items, a + b, 0)
    ensures |out| == if |mid| > b then |mid| - b else 0
  {
  }

  lemma {:induction false} WithinAll(bars: seq<Bar>, lo: int, hi: int)
    requires forall b | b in bars :: InRange(b.time, lo, hi)
    ensures Within(bars, lo, hi) == bars
  {
    if bars != [] {
      WithinAll(bars[..|bars| - 1], lo, hi);
    }
  }

  // What a filter by date keeps, in order: a bar is in range from midnight of the start
  // date to the very end time, where a date that is not set is no bound.
  lemma FilterMeaning(bars: seq<Bar>, startDate: int, endDate: int)
    ensures forall b :: b in Filter(bars, startDate, endDate) <==>
              && b in bars
              && (Midnight(startDate) == 0 || Midnight(startDate) <= b.time)
              && (endDate == 0 || b.time <= endDate)
    ensures Increasing(bars) ==> Increasing(Filter(bars, startDate, endDate))
  {
    WithinKeeps(bars, Midnight(startDate), endDate);
  }

  // --- Merging by timestamp

  // The bar a list holds for a time: of several, the last.
  function At(bars: seq<Bar>, time: int): Option<Bar> {
    if bars == [] then None
    else if bars[|bars| - 1].time == time then Some(bars[|bars| - 1])
    else At(bars[..|bars| - 1], time)
  }

  // Puts a bar into a time-ordered list, replacing the one at its time.
  function Upsert(t: seq<Bar>, b: Bar): seq<Bar> {
    if t == [] then [b]
    else
      var n := |t| - 1;
      if t[n].time < b.time then t + [b]
      else if t[n].time == b.time then t[..n] + [b]
      else Upsert(t[..n], b) + [t[n]]
  }

  // The time-ordered list that holds what `bars` holds for each time.
  function Timeline(bars: seq<Bar>): seq<Bar> {
    if bars == [] then [] else Upsert(Timeline(bars[..|bars| - 1]), bars[|bars| - 1])
  }

  function Merge(left: seq<Bar>, right: seq<Bar>): seq<Bar> {
    Timeline(left + right)
  }

  lemma {:induction false} AtIsMember(bars: seq<Bar>, time: int)
    ensures At(bars, time).Some? ==> At(bars, time).value in bars && At(bars, time).value.time == time
    ensures At(bars, time).None? ==> forall b | b in bars :: b.time != time
  {
    if bars != [] {
      AtIsMember(bars[..|bars| - 1], time);
      assert bars == bars[..|bars| - 1] + [bars[|bars| - 1]];
    }
  }

  // On pairwise different times, a list holds each of its bars.
  lemma {:induction false} DistinctHolds(bars: seq<Bar>, b: Bar)
    requires Distinct(bars)
    ensures b in bars <==> At(bars, b.time) == Some(b)
  {
    if bars != [] {
      var n := |bars| - 1;
      DistinctHolds(bars[..n], b);
      assert bars == bars[..n] + [bars[n]];
    }
  }

  ghost predicate Distinct(bars: seq<Bar>) {
    forall i, j | 0 <= i < j < |bars| :: bars[i].time != bars[j].time
  }

  lemma {:induction false} AtConcat(a: seq<Bar>, b: seq<Bar>, time: int)
    ensures At(a + b, time) == if At(b, time).Some? then At(b, time) else At(a, time)
  {
    if b == [] {
      assert a + b == a;
    } else {
      assert (a + b)[..|a + b| - 1] == a + b[..|b| - 1];
      AtConcat(a, b[..|b| - 1], time);
    }
  }

  lemma {:induction false} UpsertKeepsOrder(t: seq<Bar>, b: Bar)
    requires Increasing(t)
    ensures Increasing(Upsert(t, b))
    ensures forall x | x in Upsert(t, b) :: x == b || x in t
  {
    if t != [] && t[|t| - 1].time > b.time {
      var n := |t| - 1;
      UpsertKeepsOrder(t[..n], b);
      var u := Upsert(t[..n], b);
      assert forall i | 0 <= i < |u| :: u[i] in u;
      assert forall x | x in t[..n] :: x in t && x.time < t[n].time;
    }
  }

  lemma {:induction false} AtUpsert(t: seq<Bar>, b: Bar, time: int)
    requires Increasing(t)
    ensures At(Upsert(t, b), time) == if time == b.time then Some(b) else At(t, time)
  {
    if t != [] {
      var n := |t| - 1;
      var u := Upsert(t, b);
      assert u[..|u| - 1] == if t[n].time < b.time then t else if t[n].time == b.time then t[..n] else Upsert(t[..n], b);
      AtUpsert(t[..n], b, time);
    }
  }

  lemma {:induction false} TimelineMeaning(bars: seq<Bar>)
    ensures Increasing(Timeline(bars))
    ensures forall time :: At(Timeline(bars), time) == At(bars, time)
  {
    if bars != [] {
      TimelineMeaning(bars[..|bars| - 1]);
      var t, b := Timeline(bars[..|bars| - 1]), bars[|bars| - 1];
      UpsertKeepsOrder(t, b);
      forall time
        ensures At(Upsert(t, b), time) == if time == b.time then Some(b) else At(t, time)
      {
        AtUpsert(t, b, time);
      }
    }
  }

  lemma HasElement(b: seq<Bar>)
    requires b != []
    ensures exists x :: x in b
  {
    assert b[0] in b;
  }

  lemma {:induction false} SameElements(a: seq<Bar>, b: seq<Bar>)
    requires Increasing(a) && Increasing(b) && forall x :: x in a <==> x in b
    ensures a == b
  {
    if a == [] {
      if b != [] {
        HasElement(b);
      }
    } else {
      assert a[0] in b;
      var n, m := |a| - 1, |b| - 1;
      assert a[n] in b && b[m] in a;
      forall x
        ensures x in a[..n] <==> x in b[..m]
      {
        assert x in a[..n] <==> x in a && x != a[n] by {
          assert a == a[..n] + [a[n]];
        }
        assert x in b[..m] <==> x in b && x != b[m] by {
          assert b == b[..m] + [b[m]];
        }
      }
      SameElements(a[..n], b[..m]);
      assert a == a[..n] + [a[n]] && b == b[..m] + [b[m]];
    }
  }

  // A time-ordered list is determined by what it holds at each time.
  lemma SameTimeline(a: seq<Bar>, b: seq<Bar>)
    requires Increasing(a) && Increasing(b) && forall time :: At(a, time) == At(b, time)
    ensures a == b
  {
    forall x
      ensures x in a <==> x in b
    {
      DistinctHolds(a, x);
      DistinctHolds(b, x);
    }
    SameElements(a, b);
  }

  // What a merge contains: at every time of either list, one bar, taken from the
  // right list if it has one there.
  lemma MergeMeaning(left: seq<Bar>, right: seq<Bar>)
    ensures Increasing(Merge(left, right))
    ensures forall time :: At(Merge(left, right), time) == if At(right, time).Some? then At(right, time) else At(left, time)
  {
    TimelineMeaning(left + right);
    forall time
      ensures At(left + right, time) == if At(right, time).Some? then At(right, time) else At(left, time)
    {
      AtConcat(left, right, time);
    }
  }

  lemma MergeNothing(bars: seq<Bar>)
    requires Increasing(bars)
    ensures Merge(bars, []) == bars
  {
    MergeMeaning(bars, []);
    SameTimeline(Merge(bars, []), bars);
  }

  // Two merges in a row are one merge of the concatenation.
  lemma MergeTwice(bars: seq<Bar>, a: seq<Bar>, b: seq<Bar>)
    ensures Merge(Merge(bars, a), b) == Merge(bars, a + b)
  {
    MergeMeaning(bars, a);
    MergeMeaning(Merge(bars, a), b);
    MergeMeaning(bars, a + b);
    forall time
      ensures At(a + b, time) == if At(b, time).Some? then At(b, time) else At(a, time)
    {
      AtConcat(a, b, time);
    }
    SameTimeline(Merge(Merge(bars, a), b), Merge(bars, a + b));
  }

  lemma {:induction false} AtOfWithin(bars: seq<Bar>, lo: int, hi: int, time: int)
    ensures At(Within(bars, lo, hi), time) == if InRange(time, lo, hi) then At(bars, time) else None
  {
    if bars != [] {
      AtOfWithin(bars[..|bars| - 1], lo, hi, time);
      var rest := Within(bars[..|bars| - 1], lo, hi);
      assert (rest + [bars[|bars| - 1]])[..|rest|] == rest;
    }
  }

  // Filtering a merge is merging the filtered lists.
  lemma WithinOfMerge(left: seq<Bar>, right: seq<Bar>, lo: int, hi: int)
    ensures Within(Merge(left, right), lo, hi)
         == Merge(Within(left, lo, hi), Within(right, lo, hi))
  {
    var whole := Within(Merge(left, right), lo, hi);
    var parts := Merge(Within(left, lo, hi), Within(right, lo, hi));
    MergeMeaning(left, right);
    MergeMeaning(Within(left, lo, hi), Within(right, lo, hi));
    WithinKeeps(Merge(left, right), lo, hi);
    forall time
      ensures At(whole, time) == At(parts, time)
    {
      AtOfWithin(Merge(left, right), lo, hi, time);
      AtOfWithin(left, lo, hi, time);
      AtOfWithin(right, lo, hi, time);
    }
    SameTimeline(whole, parts);
  }

  // --- The merge as the code runs it: two passes over a map, the map read back in
  // an arbitrary order, and a stable sort

  function InsertByTime(sorted: seq<Bar>, b: Bar): seq<Bar> {
    if sorted == [] || sorted[|sorted| - 1].time <= b.time then sorted + [b]
    else InsertByTime(sorted[..|sorted| - 1], b) + [sorted[|sorted| - 1]]
  }

  // sort.SliceStable by time.
  function SortByTime(bars: seq<Bar>): seq<Bar> {
    if bars == [] then [] else InsertByTime(SortByTime(bars[..|bars| - 1]), bars[|bars| - 1])
  }

  lemma {:induction false} InsertMembers(sorted: seq<Bar>, b: Bar)
    ensures forall x :: x in InsertByTime(sorted, b) <==> x in sorted || x == b
  {
    if sorted != [] && sorted[|sorted| - 1].time > b.time {
      var n := |sorted| - 1;
      InsertMembers(sorted[..n], b);
      assert sorted == sorted[..n] + [sorted[n]];
    }
  }

  lemma {:induction false} InsertKeepsOrder(sorted: seq<Bar>, b: Bar)
    requires Increasing(sorted) && forall i | 0 <= i < |sorted| :: sorted[i].time != b.time
    ensures Increasing(InsertByTime(sorted, b))
  {
    if sorted != [] && sorted[|sorted| - 1].time > b.time {
      var n := |sorted| - 1;
      InsertKeepsOrder(sorted[..n], b);
      InsertMembers(sorted[..n], b);
      var inner := InsertByTime(sorted[..n], b);
      forall i | 0 <= i < |inner|
        ensures inner[i].time < sorted[n].time
      {
        assert inner[i] in inner;
      }
    }
  }

  lemma {:induction false} SortOrders(bars: seq<Bar>)
    requires Distinct(bars)
    ensures Increasing(SortByTime(bars))
    ensures forall x :: x in SortByTime(bars) <==> x in bars
  {
    if bars != [] {
      var n := |bars| - 1;
      SortOrders(bars[..n]);
      assert bars == bars[..n] + [bars[n]];
      var sorted := SortByTime(bars[..n]);
      assert forall i | 0 <= i < |sorted| :: sorted[i] in sorted;
      InsertMembers(sorted, bars[n]);
      InsertKeepsOrder(sorted, bars[n]);
    }
  }

  // A map from times to the bars a list holds for them.
  ghost predicate Maps(m: map<int, Bar>, bars: seq<Bar>) {
    forall time :: At(bars, time) == if time in m then Some(m[time]) else None
  }

  // Whatever the order in which the map is read back, sorting it gives the timeline.
  lemma AnyReadOrder(m: map<int, Bar>, bars: seq<Bar>, read: seq<Bar>)
    requires Maps(m, bars) && Distinct(read)
    requires forall b :: b in read <==> b.time in m && m[b.time] == b
    ensures SortByTime(read) == Timeline(bars)
  {
    SortOrders(read);
    TimelineMeaning(bars);
    forall x
      ensures x in SortByTime(read) <==> x in Timeline(bars)
    {
      DistinctHolds(Timeline(bars), x);
    }
    SameElements(SortByTime(read), Timeline(bars));
  }

  lemma MapsOneMore(m: map<int, Bar>, bars: seq<Bar>, b: Bar)
    requires Maps(m, bars)
    ensures Maps(m[b.time := b], bars + [b])
  {
    assert (bars + [b])[..|bars|] == bars;
  }

  method MergeBars(left: seq<Bar>, right: seq<Bar>) returns (out: seq<Bar>)
    ensures out == Merge(left, right)
  {
    var merged: map<int, Bar> := map[];
    for i := 0 to |left|
      invariant Maps(merged, left[..i])
    {
      MapsOneMore(merged, left[..i], left[i]);
      assert left[..i + 1] == left[..i] + [left[i]];
      merged := merged[left[i].time := left[i]];
    }
    assert left[..|left|] == left && left + right[..0] == left;
    for i := 0 to |right|
      invariant Maps(merged, left + right[..i])
    {
      MapsOneMore(merged, left + right[..i], right[i]);
      assert left + right[..i + 1] == left + right[..i] + [right[i]];
      merged := merged[right[i].time := right[i]];
    }
    assert left + right[..|right|] == left + right;
    out := ReadSorted(merged, left + right);
  }

  // Ranges over the map, in whatever order it yields its entries, and sorts.
  method ReadSorted(m: map<int, Bar>, ghost bars: seq<Bar>) returns (out: seq<Bar>)
    requires Maps(m, bars)
    ensures out == Timeline(bars)
  {
    forall time
      ensures time in m ==> m[time].time == time
    {
      AtIsMember(bars, time);
    }
    var rest := m.Keys;
    out := [];
    while |rest| > 0
      invariant rest <= m.Keys
      invariant Distinct(out)
      invariant forall b :: b in out <==> b.time in m.Keys - rest && m[b.time] == b
      decreases |rest|
    {
      var k :| k in rest;
      assert forall i | 0 <= i < |out| :: out[i] in out;
      out := out + [m[k]];
      rest := rest - {k};
    }
    AnyReadOrder(m, bars, out);
    out := SortByTime(out);
  }
}
