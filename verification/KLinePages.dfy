// The provider's paged walk over an upstream K-line. The upstream is a series in
// time order; it serves pages that count back from the newest bar, addressed by
// 16-bit offsets, and a short page means the end of the data.
module KLinePages {
  import opened Bars

  const MAX_KLINE_COUNT := 799
  const DEFAULT_KLINE_COUNT := 800
  const UINT16 := 0x1_0000

  // 83 full pages: the bars a walk can reach before its offset would overflow.
  const REACH := 83 * MAX_KLINE_COUNT

  // --- The upstream

  // The index of the k-th newest bar, or the start of the data.
  function Back(s: seq<Bar>, k: nat): nat {
    if k >= |s| then 0 else |s| - k
  }

  // The `count` bars that come after skipping the `start` newest, oldest first.
  function Page(s: seq<Bar>, start: nat, count: nat): seq<Bar> {
    s[Back(s, start + count)..Back(s, start)]
  }

  function Newest(s: seq<Bar>, k: nat): seq<Bar> {
    s[Back(s, k)..]
  }

  // --- fetchKLinePage

  function PageSize(remaining: nat): nat {
    if remaining > MAX_KLINE_COUNT then MAX_KLINE_COUNT else remaining
  }

  // 16-bit addition.
  function Add16(a: nat, b: nat): nat {
    if a + b < UINT16 then a + b else (a + b) % UINT16
  }

  // The remaining count and the offset are 16-bit; the offset wraps.
  function PageWalk(s: seq<Bar>, start: nat, remaining: nat): seq<Bar>
    decreases remaining
  {
    if remaining == 0 then []
    else
      var size := PageSize(remaining);
      var page := Page(s, start, size);
      if |page| < size then page
      else page + PageWalk(s, Add16(start, size), remaining - size)
  }

  // One turn of the page loop, on what has been collected so far.
  lemma PageTurn(s: seq<Bar>, out: seq<Bar>, start: nat, remaining: nat, whole: seq<Bar>)
    requires remaining > 0 && out + PageWalk(s, start, remaining) == whole
    ensures var size := PageSize(remaining);
            var page := Page(s, start, size);
            if |page| < size then out + page == whole
            else out + page + PageWalk(s, Add16(start, size), remaining - size) == whole
  {
    var size := PageSize(remaining);
    var page := Page(s, start, size);
    if |page| >= size {
      var rest := PageWalk(s, Add16(start, size), remaining - size);
      assert PageWalk(s, start, remaining) == page + rest;
      Associative(out, page, rest);
    }
  }

  lemma Associative(a: seq<Bar>, b: seq<Bar>, c: seq<Bar>)
    ensures a + b + c == a + (b + c)
  {
  }

  // Asks the upstream for the page at `start`; a short one ends the walk.
  method AskForPage(s: seq<Bar>, out: seq<Bar>, start: nat, remaining: nat, ghost whole: seq<Bar>)
    returns (grown: seq<Bar>, next: nat, left: nat, ended: bool)
    requires remaining > 0 && out + PageWalk(s, start, remaining) == whole
    ensures if ended then grown == whole else grown + PageWalk(s, next, left) == whole && left < remaining
  {
    PageTurn(s, out, start, remaining, whole);
    var pageCount := PageSize(remaining);
    var page := Page(s, start, pageCount);
    grown := out + page;
    ended := |page| < pageCount;
    next := NextOffset(start, pageCount);
    left := remaining - pageCount;
  }

  lemma WalkOfNone(s: seq<Bar>, out: seq<Bar>, start: nat)
    ensures out + PageWalk(s, start, 0) == out
  {
  }

  method FetchKLinePage(s: seq<Bar>, start: nat, count: nat) returns (out: seq<Bar>)
    ensures out == PageWalk(s, start, count)
  {
    out := [];
    var remaining: nat := count;
    var currentStart: nat := start;
    var ended: bool;
    ghost var whole := PageWalk(s, start, count);
    while remaining > 0
      invariant out + PageWalk(s, currentStart, remaining) == whole
    {
      out, currentStart, remaining, ended := AskForPage(s, out, currentStart, remaining, whole);
      if ended {
        return;
      }
    }
    WalkOfNone(s, out, currentStart);
  }

  method NextOffset(start: nat, step: nat) returns (next: nat)
    ensures next == Add16(start, step)
  {
    next := (start + step) % UINT16;
  }

  // --- fetchKLineRange

  // Page k of the walk is asked for at offset 799 * k, as long as that fits 16 bits.
  function RangeWalk(s: seq<Bar>, stop: int, k: nat, out: seq<Bar>): seq<Bar>
    decreases REACH - MAX_KLINE_COUNT * k
  {
    if MAX_KLINE_COUNT * k >= UINT16 then out
    else
      var page := PageWalk(s, MAX_KLINE_COUNT * k, MAX_KLINE_COUNT);
      if page == [] then out
      else if page[0].time <= stop || |page| < MAX_KLINE_COUNT then page + out
      else RangeWalk(s, stop, k + 1, page + out)
  }

  function RangeBars(s: seq<Bar>, startDate: int, endDate: int): seq<Bar> {
    var stop := if startDate != 0 then startDate else endDate;
    if stop == 0 then PageWalk(s, 0, DEFAULT_KLINE_COUNT) else RangeWalk(s, stop, 0, [])
  }

  lemma RangeTurn(s: seq<Bar>, stop: int, k: nat, out: seq<Bar>)
    requires MAX_KLINE_COUNT * k < UINT16
    ensures var page := PageWalk(s, MAX_KLINE_COUNT * k, MAX_KLINE_COUNT);
            RangeWalk(s, stop, k, out) ==
            if page == [] then out
            else if page[0].time <= stop || |page| < MAX_KLINE_COUNT then page + out
            else RangeWalk(s, stop, k + 1, page + out)
  {
  }

  // `offsets` are the offsets passed upstream, after truncation to 16 bits.
  method FetchKLineRange(s: seq<Bar>, startDate: int, endDate: int) returns (out: seq<Bar>, offsets: seq<nat>)
    ensures out == RangeBars(s, startDate, endDate)
    ensures forall i | 0 <= i < |offsets| :: offsets[i] == MAX_KLINE_COUNT * i < UINT16
  {
    var stopDate := startDate;
    if stopDate == 0 {
      stopDate := endDate;
    }
    if stopDate == 0 {
      out := FetchKLinePage(s, 0, DEFAULT_KLINE_COUNT);
      return out, [];
    }
    out, offsets := WalkBack(s, stopDate);
  }

  // One turn of the walk, at 16-bit offset `start`.
  method WalkTurn(s: seq<Bar>, stop: int, start: nat, out: seq<Bar>, ghost k: nat) returns (more: seq<Bar>, done: bool)
    requires start == MAX_KLINE_COUNT * k < UINT16
    ensures RangeWalk(s, stop, k, out) == if done then more else RangeWalk(s, stop, k + 1, more)
  {
    RangeTurn(s, stop, k, out);
    var page := FetchKLinePage(s, start, MAX_KLINE_COUNT);
    if |page| == 0 {
      return out, true;
    }
    var oldest := page[0].time;
    more := page + out;
    done := oldest <= stop || |page| < MAX_KLINE_COUNT;
  }

  // The conversion uint16(start).
  method Truncate(start: nat) returns (offset: nat)
    ensures offset < UINT16 && (start < UINT16 ==> offset == start)
  {
    offset := start % UINT16;
  }

  method WalkBack(s: seq<Bar>, stop: int) returns (out: seq<Bar>, offsets: seq<nat>)
    ensures out == RangeWalk(s, stop, 0, [])
    ensures forall i | 0 <= i < |offsets| :: offsets[i] == MAX_KLINE_COUNT * i < UINT16
  {
    out, offsets := [], [];
    var start: nat := 0;
    ghost var k: nat := 0;
    while start < UINT16
      invariant start == MAX_KLINE_COUNT * k && |offsets| == k
      invariant forall i | 0 <= i < k :: offsets[i] == MAX_KLINE_COUNT * i < UINT16
      invariant RangeWalk(s, stop, k, out) == RangeWalk(s, stop, 0, [])
      decreases REACH - start
    {
      var offset := Truncate(start);
      offsets := offsets + [offset];
      var more, done := WalkTurn(s, stop, offset, out, k);
      out := more;
      if done {
        return;
      }
      k := k + 1;
      start := start + MAX_KLINE_COUNT;
    }
  }

  // --- Provider.getBars

  // What the provider fetches, before filtering and slicing.
  function ItemsFor(s: seq<Bar>, req: Request): seq<Bar> {
    if req.startDate == 0 && req.endDate == 0
    then PageWalk(s, req.start, if req.count == 0 then DEFAULT_KLINE_COUNT else req.count)
    else RangeBars(s, Midnight(req.startDate), Midnight(req.endDate))
  }

  function ProviderBars(s: seq<Bar>, req: Request): seq<Bar> {
    Slice(Filter(ItemsFor(s, req), req.startDate, req.endDate), req.start, req.count)
  }

  method GetBars(s: seq<Bar>, req: Request) returns (out: seq<Bar>)
    ensures out == ProviderBars(s, req)
  {
    var items;
    if req.startDate == 0 && req.endDate == 0 {
      items := FetchKLinePage(s, req.start, if req.count == 0 then DEFAULT_KLINE_COUNT else req.count);
    } else {
      var offsets;
      items, offsets := FetchKLineRange(s, Midnight(req.startDate), Midnight(req.endDate));
    }
    var kept := FilterBarsByDate(items, req.startDate, req.endDate);
    out := Slice(kept, req.start, req.count);
  }

  // --- What a walk returns

  lemma SinglePage(s: seq<Bar>, start: nat, count: nat)
    requires count <= MAX_KLINE_COUNT
    ensures PageWalk(s, start, count) == Page(s, start, count)
  {
  }

  lemma OneMorePage(s: seq<Bar>, start: nat, count: nat)
    ensures Page(s, start, count) + Newest(s, start) == Newest(s, start + count)
  {
    var lo, hi := Back(s, start + count), Back(s, start);
    assert s[lo..hi] + s[hi..] == s[lo..];
  }

  // A list that can end a walk: a run of newest bars, either all the walk can reach
  // or far enough back to get to the stop date.
  ghost predicate Reaches(s: seq<Bar>, stop: int, out: seq<Bar>) {
    && |out| <= REACH && out == Newest(s, |out|)
    && (out == Newest(s, REACH) || (out != [] && out[0].time <= stop))
  }

  lemma WalkReaches(s: seq<Bar>, stop: int)
    ensures Reaches(s, stop, RangeWalk(s, stop, 0, []))
  {
    var n := StopAfter(s, stop, 0);
    RangeWalkStops(s, stop, 0, []);
    NewestReaches(s, stop, n);
  }

  lemma NewestReaches(s: seq<Bar>, stop: int, n: nat)
    requires 0 < n <= 83 && MayStop(s, stop, n)
    ensures Reaches(s, stop, Newest(s, 799 * n))
  {
  }

  // Bars older than the first one of a walk that got to the stop date lie before it.
  lemma ReachedIsEnough(s: seq<Bar>, stop: int, out: seq<Bar>, startDate: int, endDate: int)
    requires Increasing(s) && Reaches(s, stop, out)
    requires stop == Midnight(startDate) != 0
    ensures Filter(out, startDate, endDate) == Filter(Newest(s, REACH), startDate, endDate)
  {
    var all := Newest(s, REACH);
    if out != all {
      var skipped := all[..|all| - |out|];
      assert all == skipped + out;
      forall b | b in skipped
        ensures b.time < out[0].time
      {
        var i :| 0 <= i < |skipped| && skipped[i] == b;
        assert all[i] == b && all[|skipped|] == out[0];
      }
      WithinNone(skipped, stop, endDate);
      WithinConcat(skipped, out, stop, endDate);
    }
  }

  lemma SliceAll(bars: seq<Bar>)
    ensures Slice(bars, 0, 0) == bars
  {
  }

  lemma {:induction false} PageWalkFrom(s: seq<Bar>, start: nat, remaining: nat)
    ensures forall b | b in PageWalk(s, start, remaining) :: b in s
    decreases remaining
  {
    if remaining > 0 {
      var size := PageSize(remaining);
      PageWalkFrom(s, Add16(start, size), remaining - size);
    }
  }

  lemma {:induction false} RangeWalkFrom(s: seq<Bar>, stop: int, k: nat, out: seq<Bar>)
    requires forall b | b in out :: b in s
    ensures forall b | b in RangeWalk(s, stop, k, out) :: b in s
    decreases REACH - MAX_KLINE_COUNT * k
  {
    if MAX_KLINE_COUNT * k < UINT16 {
      PageWalkFrom(s, MAX_KLINE_COUNT * k, MAX_KLINE_COUNT);
      var page := PageWalk(s, MAX_KLINE_COUNT * k, MAX_KLINE_COUNT);
      RangeWalkFrom(s, stop, k + 1, page + out);
    }
  }

  lemma ItemsFrom(s: seq<Bar>, req: Request)
    ensures forall b | b in ItemsFor(s, req) :: b in s
  {
    var startDate, endDate := Midnight(req.startDate), Midnight(req.endDate);
    if req.startDate == 0 && req.endDate == 0 {
      PageWalkFrom(s, req.start, if req.count == 0 then DEFAULT_KLINE_COUNT else req.count);
    } else {
      PageWalkFrom(s, 0, DEFAULT_KLINE_COUNT);
      RangeWalkFrom(s, if startDate != 0 then startDate else endDate, 0, []);
    }
  }

  // Whatever is asked for, the provider returns bars of the series, within the dates.
  lemma ProviderBarsFrom(s: seq<Bar>, req: Request)
    ensures forall b | b in ProviderBars(s, req) :: b in s && InRange(b.time, Midnight(req.startDate), req.endDate)
  {
    ItemsFrom(s, req);
    WithinKeeps(ItemsFor(s, req), Midnight(req.startDate), req.endDate);
  }

  // With a start date, and no paging, the provider returns exactly the bars of the
  // requested range among the newest 66317, in time order and each once.
  lemma RangeIsExact(s: seq<Bar>, req: Request)
    requires Increasing(s) && Midnight(req.startDate) != 0 && req.start == 0 && req.count == 0
    ensures ProviderBars(s, req) == Filter(Newest(s, 66317), req.startDate, req.endDate)
    ensures Increasing(ProviderBars(s, req))
    ensures forall b :: b in ProviderBars(s, req) <==>
              b in Newest(s, 66317) && Midnight(req.startDate) <= b.time && (req.endDate != 0 ==> b.time <= req.endDate)
  {
    var stop := Midnight(req.startDate);
    var walk := RangeWalk(s, stop, 0, []);
    assert Reaches(s, stop, walk) by {
      WalkReaches(s, stop);
    }
    ReachedIsEnough(s, stop, walk, req.startDate, req.endDate);
    RangeProvided(s, req);
    NewestIncreasing(s, REACH);
    WithinKeeps(Newest(s, REACH), stop, req.endDate);
  }

  lemma NewestIncreasing(s: seq<Bar>, k: nat)
    requires Increasing(s)
    ensures Increasing(Newest(s, k))
  {
  }

  lemma RangeProvided(s: seq<Bar>, req: Request)
    requires Midnight(req.startDate) != 0 && req.start == 0 && req.count == 0
    ensures ProviderBars(s, req) == Filter(RangeWalk(s, Midnight(req.startDate), 0, []), req.startDate, req.endDate)
  {
    assert req.startDate != 0;
    SliceAll(Filter(RangeWalk(s, Midnight(req.startDate), 0, []), req.startDate, req.endDate));
  }

  // The walk may stop after n pages: it has all data, all it can reach, or gets to the
  // stop date.
  predicate MayStop(s: seq<Bar>, stop: int, n: nat)
    requires n > 0
  {
    |s| <= 799 * n || n == 83 || s[|s| - 799 * n].time <= stop
  }

  lemma TurnOfPage(s: seq<Bar>, stop: int, k: nat, out: seq<Bar>)
    requires k < 83
    ensures var page := Page(s, 799 * k, 799);
            RangeWalk(s, stop, k, out) ==
            if page == [] then out
            else if page[0].time <= stop || |page| < 799 then page + out
            else RangeWalk(s, stop, k + 1, page + out)
  {
    SinglePage(s, 799 * k, 799);
    RangeTurn(s, stop, k, out);
  }

  lemma WalkEnds(s: seq<Bar>, stop: int, n: nat, out: seq<Bar>)
    requires n == 83 || (n < 83 && |s| == 799 * n)
    ensures RangeWalk(s, stop, n, out) == out
  {
    if n < 83 {
      TurnOfPage(s, stop, n, out);
    }
  }

  lemma PageFacts(s: seq<Bar>, k: nat)
    requires k > 0 ==> 799 * k < |s|
    ensures var page := Page(s, 799 * k, 799);
            && (|page| < 799 <==> |s| < 799 * (k + 1))
            && (page == [] ==> s == [])
            && (|page| == 799 ==> page[0] == s[|s| - 799 * (k + 1)])
            && page + Newest(s, 799 * k) == Newest(s, 799 * (k + 1))
  {
    OneMorePage(s, 799 * k, 799);
  }

  lemma TurnOutcome(s: seq<Bar>, stop: int, k: nat, out: seq<Bar>)
    requires k < 83 && out == Newest(s, 799 * k) && (k > 0 ==> 799 * k < |s|)
    ensures var grown := Newest(s, 799 * (k + 1));
            if MayStop(s, stop, k + 1) then RangeWalk(s, stop, k, out) == grown
            else k + 1 < 83 && 799 * (k + 1) < |s| && RangeWalk(s, stop, k, out) == RangeWalk(s, stop, k + 1, grown)
  {
    var page := Page(s, 799 * k, 799);
    PageFacts(s, k);
    TurnOfPage(s, stop, k, out);
    if |page| == 799 && page[0].time > stop && (k + 1 == 83 || |s| == 799 * (k + 1)) {
      WalkEnds(s, stop, k + 1, page + out);
    }
  }

  // The first page after k at which the walk may stop.
  function StopAfter(s: seq<Bar>, stop: int, k: nat): (n: nat)
    requires k < 83
    ensures k < n <= 83 && MayStop(s, stop, n)
    decreases 83 - k
  {
    if MayStop(s, stop, k + 1) then k + 1 else StopAfter(s, stop, k + 1)
  }

  lemma {:induction false} StopAfterIsLeast(s: seq<Bar>, stop: int, k: nat, j: nat)
    requires k < 83 && k < j < StopAfter(s, stop, k)
    ensures !MayStop(s, stop, j)
    decreases 83 - k
  {
    if j > k + 1 {
      StopAfterIsLeast(s, stop, k + 1, j);
    }
  }

  lemma {:induction false} RangeWalkStops(s: seq<Bar>, stop: int, k: nat, out: seq<Bar>)
    requires k < 83 && out == Newest(s, 799 * k) && (k > 0 ==> 799 * k < |s|)
    ensures RangeWalk(s, stop, k, out) == Newest(s, 799 * StopAfter(s, stop, k))
    decreases 83 - k
  {
    TurnOutcome(s, stop, k, out);
    if !MayStop(s, stop, k + 1) {
      RangeWalkStops(s, stop, k + 1, Newest(s, 799 * (k + 1)));
    }
  }

  // With a date, the walk collects whole pages of 799 back from the newest bar, and no
  // more of them than it needs to get to the start date, or without one to the end
  // date; at most 83.
  lemma RangeWalkIsLeast(s: seq<Bar>, startDate: int, endDate: int) returns (n: nat)
    requires startDate != 0 || endDate != 0
    ensures var stop := if startDate != 0 then startDate else endDate;
            && 0 < n <= 83 && RangeBars(s, startDate, endDate) == Newest(s, 799 * n)
            && MayStop(s, stop, n) && forall j | 0 < j < n :: !MayStop(s, stop, j)
  {
    var stop := if startDate != 0 then startDate else endDate;
    n := StopAfter(s, stop, 0);
    RangeWalkStops(s, stop, 0, []);
    forall j | 0 < j < n
      ensures !MayStop(s, stop, j)
    {
      StopAfterIsLeast(s, stop, 0, j);
    }
  }

  // --- fetchKLinePage without dates

  // The bars after skipping `start`, in the order pages are appended: newest page
  // first. (Offsets here do not wrap.)
  function Unwrapped(s: seq<Bar>, start: nat, remaining: nat): seq<Bar>
    decreases remaining
  {
    if remaining == 0 then []
    else
      var size := PageSize(remaining);
      Page(s, start, size) + Unwrapped(s, start + size, remaining - size)
  }

  lemma PageSplit(s: seq<Bar>, start: nat, a: nat, b: nat)
    ensures Page(s, start, a + b) == Page(s, start + a, b) + Page(s, start, a)
  {
    var lo, mid, hi := Back(s, start + a + b), Back(s, start + a), Back(s, start);
    assert s[lo..hi] == s[lo..mid] + s[mid..hi];
  }

  // The same bars and equally many: a reordering, when the bars of b are distinct.
  ghost predicate SameBars(a: seq<Bar>, b: seq<Bar>) {
    |a| == |b| && forall x :: x in a <==> x in b
  }

  lemma SwapParts(a: seq<Bar>, b: seq<Bar>, c: seq<Bar>)
    requires SameBars(b, c)
    ensures SameBars(a + b, c + a)
  {
  }

  lemma {:induction false} UnwrappedContents(s: seq<Bar>, start: nat, remaining: nat)
    ensures SameBars(Unwrapped(s, start, remaining), Page(s, start, remaining))
    decreases remaining
  {
    if remaining > 0 {
      var size := PageSize(remaining);
      UnwrappedContents(s, start + size, remaining - size);
      PageSplit(s, start, size, remaining - size);
      SwapParts(Page(s, start, size), Unwrapped(s, start + size, remaining - size), Page(s, start + size, remaining - size));
    }
  }

  // Call j of the walk would need an offset beyond 16 bits, with data still there.
  ghost predicate OverflowsAt(s: seq<Bar>, start: nat, count: nat, j: nat) {
    0 < j && MAX_KLINE_COUNT * j < count && UINT16 <= start + MAX_KLINE_COUNT * j <= |s|
  }

  ghost predicate Overflows(s: seq<Bar>, start: nat, count: nat) {
    exists j: nat :: OverflowsAt(s, start, count, j)
  }

  lemma FullPageStep(s: seq<Bar>, start: nat, count: nat)
    requires count > MAX_KLINE_COUNT && start + MAX_KLINE_COUNT < UINT16 && start + MAX_KLINE_COUNT <= |s|
    ensures PageWalk(s, start, count)
         == Page(s, start, MAX_KLINE_COUNT) + PageWalk(s, start + MAX_KLINE_COUNT, count - MAX_KLINE_COUNT)
  {
    FullStep(s, start, count);
  }

  lemma ShiftOverflow(s: seq<Bar>, start: nat, count: nat)
    requires count > MAX_KLINE_COUNT && Overflows(s, start + MAX_KLINE_COUNT, count - MAX_KLINE_COUNT)
    ensures Overflows(s, start, count)
  {
    var j: nat :| OverflowsAt(s, start + MAX_KLINE_COUNT, count - MAX_KLINE_COUNT, j);
    assert OverflowsAt(s, start, count, j + 1);
  }

  lemma ShortUnwrapped(s: seq<Bar>, start: nat, count: nat)
    requires count > 0 && |Page(s, start, PageSize(count))| < PageSize(count)
    ensures PageWalk(s, start, count) == Page(s, start, PageSize(count)) == Unwrapped(s, start, count)
  {
    EmptyBeyond(s, start + PageSize(count), count - PageSize(count));
  }

  lemma FullUnwrapped(s: seq<Bar>, start: nat, count: nat)
    requires count > MAX_KLINE_COUNT
    ensures Unwrapped(s, start, count)
         == Page(s, start, MAX_KLINE_COUNT) + Unwrapped(s, start + MAX_KLINE_COUNT, count - MAX_KLINE_COUNT)
  {
  }

  lemma LastUnwrapped(s: seq<Bar>, start: nat, count: nat)
    requires count <= MAX_KLINE_COUNT
    ensures PageWalk(s, start, count) == Unwrapped(s, start, count)
  {
    SinglePage(s, start, count);
  }

  lemma {:induction false} NoOverflowNoWrap(s: seq<Bar>, start: nat, count: nat)
    requires start < UINT16 && !Overflows(s, start, count)
    ensures PageWalk(s, start, count) == Unwrapped(s, start, count)
    decreases count
  {
    if count <= MAX_KLINE_COUNT {
      LastUnwrapped(s, start, count);
    } else if |s| < start + MAX_KLINE_COUNT {
      ShortUnwrapped(s, start, count);
    } else {
      assert !OverflowsAt(s, start, count, 1);
      FullPageStep(s, start, count);
      FullUnwrapped(s, start, count);
      if Overflows(s, start + MAX_KLINE_COUNT, count - MAX_KLINE_COUNT) {
        ShiftOverflow(s, start, count);
      }
      NoOverflowNoWrap(s, start + MAX_KLINE_COUNT, count - MAX_KLINE_COUNT);
    }
  }

  lemma {:induction false} EmptyBeyond(s: seq<Bar>, start: nat, remaining: nat)
    requires start >= |s|
    ensures Unwrapped(s, start, remaining) == []
    decreases remaining
  {
    if remaining > 0 {
      EmptyBeyond(s, start + PageSize(remaining), remaining - PageSize(remaining));
    }
  }

  // The wrapped second call, at offset w, of a request that starts within a page of
  // the limit.
  lemma SecondCallRestarts(s: seq<Bar>, start: nat, count: nat, w: nat)
    requires start < UINT16 && count > MAX_KLINE_COUNT
    requires start + MAX_KLINE_COUNT == UINT16 + w <= |s|
    ensures s[|s| - 1 - w] in PageWalk(s, start, count)
  {
    WrappedStep(s, start, count, w);
    PageEnds(s, w, PageSize(count - MAX_KLINE_COUNT));
    PageWalkStarts(s, w, count - MAX_KLINE_COUNT);
  }

  lemma WrappedStep(s: seq<Bar>, start: nat, count: nat, w: nat)
    requires start < UINT16 && count > MAX_KLINE_COUNT
    requires start + MAX_KLINE_COUNT == UINT16 + w <= |s|
    ensures PageWalk(s, start, count) == Page(s, start, MAX_KLINE_COUNT) + PageWalk(s, w, count - MAX_KLINE_COUNT)
  {
    WrappedOffset(start, MAX_KLINE_COUNT, w);
    FullStep(s, start, count);
  }

  lemma WrappedOffset(a: nat, b: nat, w: nat)
    requires a + b == UINT16 + w && w < UINT16
    ensures Add16(a, b) == w
  {
  }

  // A full first page.
  lemma FullStep(s: seq<Bar>, start: nat, count: nat)
    requires count > MAX_KLINE_COUNT && start + MAX_KLINE_COUNT <= |s|
    ensures PageWalk(s, start, count)
         == Page(s, start, MAX_KLINE_COUNT) + PageWalk(s, Add16(start, MAX_KLINE_COUNT), count - MAX_KLINE_COUNT)
  {
    assert |Page(s, start, MAX_KLINE_COUNT)| == MAX_KLINE_COUNT;
  }

  lemma PageEnds(s: seq<Bar>, start: nat, count: nat)
    requires start < |s| && count > 0
    ensures s[|s| - 1 - start] in Page(s, start, count)
  {
    var page := Page(s, start, count);
    assert page[|page| - 1] == s[|s| - 1 - start];
  }

  lemma OverflowComesLater(s: seq<Bar>, start: nat, count: nat, j: nat)
    requires j > 1 && OverflowsAt(s, start, count, j) && start + MAX_KLINE_COUNT * (j - 1) < UINT16
    ensures count > MAX_KLINE_COUNT && start + MAX_KLINE_COUNT < UINT16 && start + MAX_KLINE_COUNT <= |s|
    ensures OverflowsAt(s, start + MAX_KLINE_COUNT, count - MAX_KLINE_COUNT, j - 1)
    ensures start + MAX_KLINE_COUNT + MAX_KLINE_COUNT * (j - 2) < UINT16
    ensures start + MAX_KLINE_COUNT + MAX_KLINE_COUNT * (j - 1) == start + MAX_KLINE_COUNT * j
  {
  }

  // The first wrapped call, at offset w, starts over near the newest bar.
  lemma {:induction false} WrappedCallRestarts(s: seq<Bar>, start: nat, count: nat, j: nat, w: nat)
    requires start < UINT16 && OverflowsAt(s, start, count, j)
    requires start + MAX_KLINE_COUNT * (j - 1) < UINT16 && start + MAX_KLINE_COUNT * j == UINT16 + w
    ensures s[|s| - 1 - w] in PageWalk(s, start, count)
    decreases j
  {
    if j == 1 {
      SecondCallRestarts(s, start, count, w);
    } else {
      OverflowComesLater(s, start, count, j);
      WrappedCallRestarts(s, start + MAX_KLINE_COUNT, count - MAX_KLINE_COUNT, j - 1, w);
      LaterInWalk(s, start, count, s[|s| - 1 - w]);
    }
  }

  lemma LaterInWalk(s: seq<Bar>, start: nat, count: nat, b: Bar)
    requires count > MAX_KLINE_COUNT && start + MAX_KLINE_COUNT < UINT16 && start + MAX_KLINE_COUNT <= |s|
    requires b in PageWalk(s, start + MAX_KLINE_COUNT, count - MAX_KLINE_COUNT)
    ensures b in PageWalk(s, start, count)
  {
    FullPageStep(s, start, count);
  }

  lemma PageWalkStarts(s: seq<Bar>, start: nat, remaining: nat)
    requires remaining > 0
    ensures forall b | b in Page(s, start, PageSize(remaining)) :: b in PageWalk(s, start, remaining)
  {
  }

  lemma FirstOverflow(s: seq<Bar>, start: nat, count: nat, j: nat) returns (first: nat)
    requires start < UINT16 && OverflowsAt(s, start, count, j)
    ensures OverflowsAt(s, start, count, first) && start + MAX_KLINE_COUNT * (first - 1) < UINT16
    decreases j
  {
    if start + MAX_KLINE_COUNT * (j - 1) < UINT16 {
      first := j;
    } else {
      first := FirstOverflow(s, start, count, j - 1);
    }
  }

  lemma NotInPage(s: seq<Bar>, start: nat, count: nat, i: nat)
    requires Increasing(s) && Back(s, start) <= i < |s|
    ensures s[i] !in Page(s, start, count)
  {
  }

  // An overflowing request returns a bar from before its window.
  lemma OverflowLeavesWindow(s: seq<Bar>, start: nat, count: nat, j: nat) returns (b: Bar)
    requires Increasing(s) && start < UINT16 && OverflowsAt(s, start, count, j)
    requires count < UINT16
    ensures b in PageWalk(s, start, count) && b !in Page(s, start, count)
  {
    var first := FirstOverflow(s, start, count, j);
    var w := start + MAX_KLINE_COUNT * first - UINT16;
    WrappedCallRestarts(s, start, count, first, w);
    b := s[|s| - 1 - w];
    NotInPage(s, start, count, |s| - 1 - w);
  }

  // A paged request returns each bar of its window once, and nothing else, exactly
  // if its offset does not overflow while data remains. (It cannot overflow when
  // start + count is at most 65536, nor on a series shorter than that.)
  lemma PageWalkIsWindow(s: seq<Bar>, start: nat, count: nat)
    requires Increasing(s) && start < UINT16 && count < UINT16
    ensures SameBars(PageWalk(s, start, count), Page(s, start, count)) <==> !Overflows(s, start, count)
  {
    if Overflows(s, start, count) {
      var j: nat :| OverflowsAt(s, start, count, j);
      var b := OverflowLeavesWindow(s, start, count, j);
      assert !SameBars(PageWalk(s, start, count), Page(s, start, count));
    } else {
      NoOverflowNoWrap(s, start, count);
      UnwrappedContents(s, start, count);
    }
  }

  // The second call's offset has wrapped around to near the newest bar, and gets data.
  predicate SecondWraps(s: seq<Bar>, start: nat) {
    UINT16 <= start + MAX_KLINE_COUNT <= |s|
  }

  // Pages are appended newest first, so the answer is in time order exactly if one
  // page was enough; or if there were two, of which the second wrapped around to
  // newer bars. The default count of 800 is one more than a page.
  lemma PageWalkOrder(s: seq<Bar>, start: nat, count: nat)
    requires Increasing(s) && start < UINT16
    ensures Increasing(PageWalk(s, start, count)) <==>
            count <= MAX_KLINE_COUNT
            || (if SecondWraps(s, start) then count <= 2 * MAX_KLINE_COUNT else |s| <= start + MAX_KLINE_COUNT)
  {
    if count <= MAX_KLINE_COUNT {
      SinglePage(s, start, count);
      PageIncreasing(s, start, count);
    } else if SecondWraps(s, start) {
      WrappedWalkOrder(s, start, count);
    } else {
      StraightWalkOrder(s, start, count);
    }
  }

  lemma PageIncreasing(s: seq<Bar>, start: nat, count: nat)
    requires Increasing(s)
    ensures Increasing(Page(s, start, count))
  {
  }

  lemma ShortWalk(s: seq<Bar>, start: nat, count: nat)
    requires count > MAX_KLINE_COUNT && |s| < start + MAX_KLINE_COUNT
    ensures PageWalk(s, start, count) == Page(s, start, MAX_KLINE_COUNT)
  {
  }

  // Where a walk that finds anything begins.
  lemma WalkBegins(s: seq<Bar>, start: nat, remaining: nat)
    requires remaining > 0 && start < |s|
    ensures PageWalk(s, start, remaining) != []
    ensures PageWalk(s, start, remaining)[0] == s[Back(s, start + PageSize(remaining))]
  {
    var page := Page(s, start, PageSize(remaining));
    assert page != [] && page[0] == s[Back(s, start + PageSize(remaining))];
    assert page <= PageWalk(s, start, remaining);
  }

  lemma WalkBeyond(s: seq<Bar>, start: nat, remaining: nat)
    requires start >= |s|
    ensures PageWalk(s, start, remaining) == []
  {
  }

  // The second call, if any, is for older bars.
  lemma SecondPart(s: seq<Bar>, start: nat, count: nat) returns (rest: seq<Bar>)
    requires Increasing(s) && start < UINT16 && count > MAX_KLINE_COUNT
    requires start + MAX_KLINE_COUNT <= |s| && !SecondWraps(s, start)
    ensures PageWalk(s, start, count) == Page(s, start, MAX_KLINE_COUNT) + rest
    ensures |s| == start + MAX_KLINE_COUNT ==> rest == []
    ensures |s| > start + MAX_KLINE_COUNT ==> rest != [] && rest[0].time < s[Back(s, start + MAX_KLINE_COUNT)].time
  {
    rest := PageWalk(s, start + MAX_KLINE_COUNT, count - MAX_KLINE_COUNT);
    FullPageStep(s, start, count);
    if |s| == start + MAX_KLINE_COUNT {
      WalkBeyond(s, start + MAX_KLINE_COUNT, count - MAX_KLINE_COUNT);
    } else {
      WalkBegins(s, start + MAX_KLINE_COUNT, count - MAX_KLINE_COUNT);
    }
  }

  lemma StraightWalkOrder(s: seq<Bar>, start: nat, count: nat)
    requires Increasing(s) && start < UINT16 && count > MAX_KLINE_COUNT && !SecondWraps(s, start)
    ensures Increasing(PageWalk(s, start, count)) <==> |s| <= start + MAX_KLINE_COUNT
  {
    PageIncreasing(s, start, MAX_KLINE_COUNT);
    if |s| < start + MAX_KLINE_COUNT {
      ShortWalk(s, start, count);
    } else {
      var rest := SecondPart(s, start, count);
      ThenOrder(Page(s, start, MAX_KLINE_COUNT), rest);
    }
  }

  lemma ThenOrder(page: seq<Bar>, rest: seq<Bar>)
    requires Increasing(page) && page != [] && (rest != [] ==> rest[0].time < page[0].time)
    ensures Increasing(page + rest) <==> rest == []
  {
    if rest == [] {
      assert page + rest == page;
    } else {
      OlderFollows(page, rest);
    }
  }

  lemma OlderFollows(page: seq<Bar>, rest: seq<Bar>)
    requires page != [] && rest != [] && rest[0].time < page[0].time
    ensures !Increasing(page + rest)
  {
    assert (page + rest)[0] == page[0] && (page + rest)[|page|] == rest[0];
  }

  // The second call starts over near the newest bar, so a third one is for older
  // bars than those.
  lemma WrappedPart(s: seq<Bar>, start: nat, count: nat) returns (rest: seq<Bar>)
    requires Increasing(s) && start < UINT16 && count > MAX_KLINE_COUNT && SecondWraps(s, start)
    ensures PageWalk(s, start, count) == Page(s, start, MAX_KLINE_COUNT) + rest
    ensures if count <= 2 * MAX_KLINE_COUNT
            then rest == Page(s, start + MAX_KLINE_COUNT - UINT16, count - MAX_KLINE_COUNT)
            else !Increasing(rest)
  {
    var w := start + MAX_KLINE_COUNT - UINT16;
    rest := PageWalk(s, w, count - MAX_KLINE_COUNT);
    WrappedStep(s, start, count, w);
    if count <= 2 * MAX_KLINE_COUNT {
      SinglePage(s, w, count - MAX_KLINE_COUNT);
    } else {
      StraightWalkOrder(s, w, count - MAX_KLINE_COUNT);
    }
  }

  lemma WrappedWalkOrder(s: seq<Bar>, start: nat, count: nat)
    requires Increasing(s) && start < UINT16 && count > MAX_KLINE_COUNT && SecondWraps(s, start)
    ensures Increasing(PageWalk(s, start, count)) <==> count <= 2 * MAX_KLINE_COUNT
  {
    var rest := WrappedPart(s, start, count);
    if count <= 2 * MAX_KLINE_COUNT {
      NewerFollows(s, start, MAX_KLINE_COUNT, start + MAX_KLINE_COUNT - UINT16, count - MAX_KLINE_COUNT);
    } else {
      SuffixOrder(Page(s, start, MAX_KLINE_COUNT), rest);
    }
  }

  lemma NewerFollows(s: seq<Bar>, start: nat, size: nat, w: nat, more: nat)
    requires Increasing(s) && w + more <= start
    ensures Increasing(Page(s, start, size) + Page(s, w, more))
  {
  }

  lemma SuffixOrder(page: seq<Bar>, rest: seq<Bar>)
    requires !Increasing(rest)
    ensures !Increasing(page + rest)
  {
    var i, j :| 0 <= i < j < |rest| && rest[i].time >= rest[j].time;
    assert (page + rest)[|page| + i] == rest[i] && (page + rest)[|page| + j] == rest[j];
  }

  lemma {:induction false} WalkIsNoLonger(s: seq<Bar>, start: nat, remaining: nat)
    ensures |PageWalk(s, start, remaining)| <= remaining
    decreases remaining
  {
    if remaining > 0 {
      var size := PageSize(remaining);
      if |Page(s, start, size)| >= size {
        WalkIsNoLonger(s, Add16(start, size), remaining - size);
      }
    }
  }

  // Without dates, the provider asks for the window of `count` bars, or of 800, behind
  // the `start` newest, and then takes the page of those that skips `start` once more.
  lemma UndatedIsPage(s: seq<Bar>, req: Request)
    requires req.startDate == 0 && req.endDate == 0
    ensures IsPage(ProviderBars(s, req), PageWalk(s, req.start, if req.count == 0 then 800 else req.count), req.start, req.count)
  {
    var items := ItemsFor(s, req);
    WithinAll(items, 0, 0);
    SliceIsPage(items, req.start, req.count);
  }

  // So with no start it returns the newest bars: `count` of them or 800, each once, and
  // in time order as long as they fit a page.
  lemma UndatedIsNewest(s: seq<Bar>, req: Request)
    requires Increasing(s) && req.startDate == 0 && req.endDate == 0 && req.start == 0 && req.count < UINT16
    ensures var n := if req.count == 0 then 800 else req.count;
            && SameBars(ProviderBars(s, req), Newest(s, n))
            && (n <= 799 ==> ProviderBars(s, req) == Newest(s, n))
  {
    var n := if req.count == 0 then 800 else req.count;
    UndatedIsPage(s, req);
    WalkIsNoLonger(s, 0, n);
    WholeIsPage(ProviderBars(s, req), PageWalk(s, 0, n), req.count);
    NewestByPages(s, n);
  }

  lemma WholeIsPage(out: seq<Bar>, items: seq<Bar>, count: nat)
    requires IsPage(out, items, 0, count) && (count == 0 || |items| <= count)
    ensures out == items
  {
  }

  lemma NewestByPages(s: seq<Bar>, n: nat)
    requires Increasing(s) && n < UINT16
    ensures SameBars(PageWalk(s, 0, n), Newest(s, n))
    ensures n <= 799 ==> PageWalk(s, 0, n) == Newest(s, n)
  {
    assert Page(s, 0, n) == Newest(s, n);
    NothingOverflows(s, n);
    PageWalkIsWindow(s, 0, n);
    if n <= 799 {
      SinglePage(s, 0, n);
    }
  }

  lemma NothingOverflows(s: seq<Bar>, n: nat)
    requires n < UINT16
    ensures !Overflows(s, 0, n)
  {
  }

  // With a date, start and count only cut a page out of what the dates select.
  lemma DatedIsPage(s: seq<Bar>, req: Request)
    requires req.startDate != 0 || req.endDate != 0
    ensures IsPage(ProviderBars(s, req), ProviderBars(s, req.(start := 0, count := 0)), req.start, req.count)
  {
    var kept := Filter(ItemsFor(s, req), req.startDate, req.endDate);
    SliceAll(kept);
    SliceIsPage(kept, req.start, req.count);
  }
}
