// The bar tables of the in-memory history store, as values.
module BarStore {
  import opened Wrappers
  import opened Bars

  type Tables = map<Series, seq<Bar>>

  // PutBars files a bar without adjustment under the plain one.
  function Normal(b: Bar): Bar {
    if b.series.adjust == Unset then b.(series := b.series.(adjust := Plain)) else b
  }

  predicate Storable(b: Bar) {
    ValidSymbol(b.series.symbol) && b.series.period != PeriodUnknown && b.time != 0
  }

  // The bars of a batch that belong to one series, in batch order.
  function GroupOf(bars: seq<Bar>, k: Series): seq<Bar> {
    if bars == [] then []
    else
      var n := |bars| - 1;
      var rest := GroupOf(bars[..n], k);
      if Normal(bars[n]).series == k then rest + [Normal(bars[n])] else rest
  }

  function Held(tables: Tables, k: Series): seq<Bar> {
    if k in tables then tables[k] else []
  }

  // q holds what p held, with the batch merged in series by series; only series
  // of the batch get a table.
  ghost predicate IsPut(p: Tables, bars: seq<Bar>, q: Tables) {
    && (forall k :: k in q <==> k in p || GroupOf(bars, k) != [])
    && forall k | k in q :: q[k] == if GroupOf(bars, k) == [] then p[k] else Merge(Held(p, k), GroupOf(bars, k))
  }

  // The timeline of one series, as QueryBars reads it.
  function Query(tables: Tables, k: Series, start: int, end: int): Result<seq<Bar>, Error> {
    var out := Within(Held(tables, k), start, end);
    if out == [] then Failure(NoData) else Success(out)
  }

  ghost predicate TimeOrdered(tables: Tables) {
    forall k | k in tables :: Increasing(tables[k])
  }

  // --- Laws

  // A bar can be stored unless its symbol is incomplete or its period or time missing.
  lemma NotStorableExactlyWhen(b: Bar)
    ensures !Storable(b) <==>
            b.series.symbol.market == "" || b.series.symbol.code == "" || b.series.period == PeriodUnknown || b.time == 0
  {
  }

  // x is the last bar of the batch for that time of the series, a bar without an
  // adjustment counting as a plain one.
  ghost predicate LastFor(bars: seq<Bar>, k: Series, time: int, x: Bar, i: int) {
    && 0 <= i < |bars| && For(bars[i], k, time) && x == Bar(k, time, bars[i].data)
    && forall j | i < j < |bars| :: !For(bars[j], k, time)
  }

  predicate For(b: Bar, k: Series, time: int) {
    && b.time == time && b.series.symbol == k.symbol && b.series.period == k.period
    && (b.series.adjust == k.adjust || (b.series.adjust == Unset && k.adjust == Plain))
    && k.adjust != Unset
  }

  lemma {:induction false} GroupHolds(bars: seq<Bar>, k: Series, time: int) returns (i: int)
    ensures At(GroupOf(bars, k), time).Some? ==> LastFor(bars, k, time, At(GroupOf(bars, k), time).value, i)
    ensures At(GroupOf(bars, k), time).None? ==> forall j | 0 <= j < |bars| :: !For(bars[j], k, time)
  {
    i := -1;
    if bars != [] {
      var n := |bars| - 1;
      var b, rest := Normal(bars[n]), GroupOf(bars[..n], k);
      assert For(bars[n], k, time) <==> b.series == k && b.time == time;
      if b.series == k {
        assert (rest + [b])[..|rest|] == rest;
      }
      if b.series == k && b.time == time {
        i := n;
      } else {
        i := GroupHolds(bars[..n], k, time);
      }
    }
  }

  // After a batch, the store has for every time of every series the last bar of the
  // batch for it, and where there is none what it had.
  lemma PutMeaning(p: Tables, bars: seq<Bar>, q: Tables, k: Series, time: int) returns (i: int)
    requires IsPut(p, bars, q)
    ensures (At(Held(q, k), time).Some? && LastFor(bars, k, time, At(Held(q, k), time).value, i))
            || (At(Held(q, k), time) == At(Held(p, k), time) && forall j | 0 <= j < |bars| :: !For(bars[j], k, time))
  {
    i := GroupHolds(bars, k, time);
    if GroupOf(bars, k) != [] {
      MergeMeaning(Held(p, k), GroupOf(bars, k));
    }
  }

  // What is read: the bars of the series within the times, in order, or no data if
  // there is none.
  lemma QueryMeaning(tables: Tables, k: Series, start: int, end: int)
    ensures Query(tables, k, start, end).Failure? ==>
              Query(tables, k, start, end).error == NoData
              && forall b | b in Held(tables, k) :: !((start == 0 || start <= b.time) && (end == 0 || b.time <= end))
    ensures Query(tables, k, start, end).Success? ==>
              var out := Query(tables, k, start, end).value;
              && out != []
              && (forall b :: b in out <==> b in Held(tables, k) && (start == 0 || start <= b.time) && (end == 0 || b.time <= end))
              && (Increasing(Held(tables, k)) ==> Increasing(out))
  {
    WithinKeeps(Held(tables, k), start, end);
    var out := Within(Held(tables, k), start, end);
    if out == [] {
      forall b | b in Held(tables, k)
        ensures !((start == 0 || start <= b.time) && (end == 0 || b.time <= end))
      {
        assert b !in out;
      }
    }
  }

  lemma {:induction false} GroupConcat(a: seq<Bar>, b: seq<Bar>, k: Series)
    ensures GroupOf(a + b, k) == GroupOf(a, k) + GroupOf(b, k)
  {
    if b == [] {
      assert a + b == a;
    } else {
      assert (a + b)[..|a + b| - 1] == a + b[..|b| - 1];
      GroupConcat(a, b[..|b| - 1], k);
    }
  }

  lemma {:induction false} GroupMembers(bars: seq<Bar>, k: Series)
    ensures forall x :: x in GroupOf(bars, k) <==> x.series == k && exists b :: b in bars && Normal(b) == x
  {
    if bars != [] {
      var n := |bars| - 1;
      GroupMembers(bars[..n], k);
      assert bars == bars[..n] + [bars[n]];
    }
  }

  lemma PutKeepsOrder(p: Tables, bars: seq<Bar>, q: Tables)
    requires TimeOrdered(p) && IsPut(p, bars, q)
    ensures TimeOrdered(q)
  {
    forall k | k in q
      ensures Increasing(q[k])
    {
      MergeMeaning(Held(p, k), GroupOf(bars, k));
    }
  }

  // Storing two batches is storing their concatenation.
  lemma PutTwice(p: Tables, a: seq<Bar>, mid: Tables, b: seq<Bar>, q: Tables)
    requires IsPut(p, a, mid) && IsPut(mid, b, q)
    ensures IsPut(p, a + b, q)
  {
    forall k
      ensures k in q <==> k in p || GroupOf(a + b, k) != []
      ensures k in q ==> q[k] == if GroupOf(a + b, k) == [] then p[k] else Merge(Held(p, k), GroupOf(a + b, k))
    {
      GroupConcat(a, b, k);
      if GroupOf(b, k) == [] {
        assert GroupOf(a, k) + GroupOf(b, k) == GroupOf(a, k);
      } else if GroupOf(a, k) == [] {
        assert GroupOf(a, k) + GroupOf(b, k) == GroupOf(b, k);
      } else {
        MergeTwice(Held(p, k), GroupOf(a, k), GroupOf(b, k));
      }
    }
  }

  // Storing the same batch again changes nothing.
  lemma PutIdempotent(p: Tables, a: seq<Bar>, q: Tables)
    requires TimeOrdered(p) && IsPut(p, a, q)
    ensures IsPut(q, a, q)
  {
    forall k | k in q
      ensures q[k] == if GroupOf(a, k) == [] then q[k] else Merge(Held(q, k), GroupOf(a, k))
    {
      MergeMeaning(Held(p, k), GroupOf(a, k));
      MergeMeaning(Held(q, k), GroupOf(a, k));
      if GroupOf(a, k) != [] {
        SameTimeline(q[k], Merge(Held(q, k), GroupOf(a, k)));
      }
    }
  }

  // Answering from a merge of what was found locally with what was fetched is
  // answering from the store after the fetched bars have been put into it.
  lemma MergedAnswerIsQuery(p: Tables, remote: seq<Bar>, q: Tables, k: Series, startDate: int, endDate: int)
    requires TimeOrdered(p) && IsPut(p, remote, q)
    requires forall b | b in remote :: b.series == k && b.series.adjust != Unset
    ensures Merge(Filter(Within(Held(p, k), 0, endDate), startDate, endDate), Filter(remote, startDate, endDate))
         == Filter(Within(Held(q, k), 0, endDate), startDate, endDate)
  {
    AllInGroup(remote, k);
    var lo := Midnight(startDate);
    WithinTwice(Held(p, k), lo, endDate);
    WithinTwice(Held(q, k), lo, endDate);
    if remote == [] {
      WithinKeeps(Held(p, k), lo, endDate);
      MergeNothing(Within(Held(p, k), lo, endDate));
    } else {
      WithinOfMerge(Held(p, k), remote, lo, endDate);
    }
  }

  lemma {:induction false} AllInGroup(bars: seq<Bar>, k: Series)
    requires forall b | b in bars :: b.series == k && b.series.adjust != Unset
    ensures GroupOf(bars, k) == bars
    ensures forall m | m != k :: GroupOf(bars, m) == []
  {
    if bars != [] {
      AllInGroup(bars[..|bars| - 1], k);
    }
  }

  lemma {:induction false} WithinTwice(bars: seq<Bar>, lo: int, hi: int)
    ensures Within(Within(bars, 0, hi), lo, hi) == Within(bars, lo, hi)
  {
    if bars != [] {
      var n := |bars| - 1;
      WithinTwice(bars[..n], lo, hi);
      var rest := Within(bars[..n], 0, hi);
      assert (rest + [bars[n]])[..|rest|] == rest;
    }
  }
}
