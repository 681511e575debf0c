// The in-memory history store: its bar tables and its backfill queue, updated in
// place. Each method is proved against the value-level operations of BarStore and
// BackfillQueue.
module MemoryStore {
  import opened Wrappers
  import opened Bars
  import BarStore
  import BackfillQueue
  import Coverage

  class MemoryStore {
    var coverage: map<Coverage.Key, Coverage.Row>
    var bars: BarStore.Tables
    var tasks: map<BackfillQueue.Work, BackfillQueue.Task>
    var taskByID: map<string, BackfillQueue.Work>
    var taskOrder: seq<BackfillQueue.Work>
    const stableTaskID: BackfillQueue.Work -> string

    constructor (stableTaskID: BackfillQueue.Work -> string)
      ensures coverage == map[] && bars == map[] && Backlog() == BackfillQueue.Queue(map[], map[], [])
      ensures this.stableTaskID == stableTaskID
    {
      coverage, bars := map[], map[];
      tasks, taskByID, taskOrder := map[], map[], [];
      this.stableTaskID := stableTaskID;
    }

    function Backlog(): BackfillQueue.Queue
      reads this
    {
      BackfillQueue.Queue(tasks, taskByID, taskOrder)
    }

    // --- Coverage

    method PutCoverage(k: Coverage.Key, row: Coverage.Row) returns (err: Option<Error>)
      modifies this`coverage
      ensures coverage == Coverage.Replace(old(coverage), k, row)
      ensures err == if ValidSymbol(k.series.symbol) then None else Some(InvalidRequest)
    {
      if !ValidSymbol(k.series.symbol) {
        return Some(InvalidRequest);
      }
      var status := row.status;
      if status == "" {
        status := Coverage.COVERED;
      }
      coverage := coverage[k.(tradeDate := Midnight(k.tradeDate)) := row.(status := status)];
      err := None;
    }

    // --- Bars

    method PutBars(batch: seq<Bar>) returns (ok: bool)
      modifies this`bars
      ensures ok <==> forall b | b in batch :: BarStore.Storable(b)
      ensures if ok then BarStore.IsPut(old(bars), batch, bars) else bars == old(bars)
    {
      if |batch| == 0 {
        return true;
      }
      var grouped: BarStore.Tables;
      ok, grouped := Grouped(batch);
      if !ok {
        return;
      }
      var was := bars;
      var rest := grouped.Keys;
      while |rest| > 0
        invariant rest <= grouped.Keys
        invariant forall k :: k in bars <==> k in was || k in grouped.Keys - rest
        invariant forall k | k in bars ::
                    bars[k] == if k in grouped.Keys - rest then Merge(BarStore.Held(was, k), grouped[k]) else was[k]
        decreases |rest|
      {
        var k :| k in rest;
        var merged := MergeBars(BarStore.Held(bars, k), grouped[k]);
        bars := bars[k := merged];
        rest := rest - {k};
      }
    }

    // The batch sorted into its series; a bar that cannot be stored rejects it all.
    static method Grouped(batch: seq<Bar>) returns (ok: bool, grouped: BarStore.Tables)
      ensures ok <==> forall b | b in batch :: BarStore.Storable(b)
      ensures ok ==> forall k :: BarStore.GroupOf(batch, k) == BarStore.Held(grouped, k) && (k in grouped <==> BarStore.Held(grouped, k) != [])
    {
      grouped := map[];
      for i := 0 to |batch|
        invariant forall b | b in batch[..i] :: BarStore.Storable(b)
        invariant forall k :: BarStore.GroupOf(batch[..i], k) == BarStore.Held(grouped, k)
        invariant forall k | k in grouped :: grouped[k] != []
      {
        assert batch[..i + 1][..i] == batch[..i] && batch[..i + 1] == batch[..i] + [batch[i]];
        assert batch[i] in batch;
        if !ValidSymbol(batch[i].series.symbol) {
          return false, grouped;
        }
        if batch[i].series.period == PeriodUnknown || batch[i].time == 0 {
          return false, grouped;
        }
        var bar := BarStore.Normal(batch[i]);
        grouped := grouped[bar.series := BarStore.Held(grouped, bar.series) + [bar]];
      }
      assert batch[..|batch|] == batch;
      ok := true;
    }

    method QueryBars(k: Series, start: int, end: int) returns (r: Result<seq<Bar>, Error>)
      ensures r == if !ValidSymbol(k.symbol) || k.period == PeriodUnknown then Failure(InvalidRequest)
                   else BarStore.Query(bars, if k.adjust == Unset then k.(adjust := Plain) else k, start, end)
    {
      if !ValidSymbol(k.symbol) {
        return Failure(InvalidRequest);
      }
      if k.period == PeriodUnknown {
        return Failure(InvalidRequest);
      }
      var series := if k.adjust == Unset then k.(adjust := Plain) else k;
      var items := BarStore.Held(bars, series);
      if |items| == 0 {
        return Failure(NoData);
      }
      var out := [];
      for i := 0 to |items|
        invariant out == Within(items[..i], start, end)
      {
        assert items[..i + 1][..i] == items[..i];
        if start != 0 && items[i].time < start {
          continue;
        }
        if end != 0 && items[i].time > end {
          continue;
        }
        out := out + [items[i]];
      }
      assert items[..|items|] == items;
      if |out| == 0 {
        return Failure(NoData);
      }
      r := Success(out);
    }

    // --- The backfill queue

    method Enqueue(t: BackfillQueue.Task, now: int) returns (r: Result<(BackfillQueue.Task, bool), Error>)
      modifies this`tasks, this`taskByID, this`taskOrder
      ensures Backlog() == BackfillQueue.Enqueue(old(Backlog()), t, stableTaskID, now)
      ensures r == BackfillQueue.EnqueueReply(old(Backlog()), t, stableTaskID, now)
    {
      if !ValidSymbol(t.work.series.symbol) {
        return Failure(InvalidRequest);
      }
      if t.work.dataset == "" || t.work.startDate == 0 || t.work.endDate == 0 || t.work.endDate < t.work.startDate {
        return Failure(InvalidRequest);
      }
      var task := BackfillQueue.Normalised(t);
      var key := task.work;
      if key in tasks {
        return Success((tasks[key], false));
      }
      if task.id == "" {
        task := task.(id := stableTaskID(key));
      }
      if task.createdAt == 0 {
        task := task.(createdAt := now);
      }
      task := task.(updatedAt := now);
      tasks := tasks[key := task];
      taskByID := taskByID[task.id := key];
      taskOrder := taskOrder + [key];
      r := Success((task, true));
    }

    method Next(now: int) returns (r: Option<BackfillQueue.Task>)
      requires BackfillQueue.Valid(Backlog())
      modifies this`tasks
      ensures Backlog() == BackfillQueue.Next(old(Backlog()), now)
      ensures r == var best := BackfillQueue.Pick(old(Backlog()));
                   if best.None? then None
                   else Some(BackfillQueue.Claimed(BackfillQueue.TaskAt(old(Backlog()), best.value), now))
    {
      var bestIndex := -1;
      var best := BackfillQueue.ZERO_TASK;
      for i := 0 to |taskOrder|
        invariant -1 <= bestIndex < |taskOrder|
        invariant BackfillQueue.Best(Backlog(), i) == if bestIndex == -1 then None else Some(bestIndex)
        invariant bestIndex != -1 ==> best == BackfillQueue.TaskAt(Backlog(), bestIndex)
      {
        var task := tasks[taskOrder[i]];
        if task.status != BackfillQueue.Pending && task.status != BackfillQueue.Retrying {
          continue;
        }
        if bestIndex == -1 || task.priority > best.priority
           || (task.priority == best.priority && task.createdAt < best.createdAt) {
          bestIndex := i;
          best := task;
        }
      }
      if bestIndex == -1 {
        return None;
      }
      best := best.(status := BackfillQueue.Running, updatedAt := now);
      tasks := tasks[taskOrder[bestIndex] := best];
      r := Some(best);
    }

    method Update(t: BackfillQueue.Task, now: int) returns (err: Option<Error>)
      modifies this`tasks
      ensures Backlog() == BackfillQueue.Update(old(Backlog()), t, now)
      ensures err == BackfillQueue.UpdateReply(old(Backlog()), t)
    {
      if t.id == "" {
        return Some(InvalidRequest);
      }
      if t.id !in taskByID {
        return Some(NoData);
      }
      tasks := tasks[taskByID[t.id] := t.(updatedAt := now)];
      err := None;
    }
  }
}
