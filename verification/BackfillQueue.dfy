// The backfill queue of the in-memory history store, as values: what each call does
// to it, in which order it hands work out, and what any run of calls keeps.
module BackfillQueue {
  import opened Wrappers
  import opened Bars

  datatype Status = Unspecified | Pending | Running | Done | Failed | Retrying

  // What identifies a piece of work: one task is kept for each.
  datatype Work = Work(dataset: string, series: Series, startDate: int, endDate: int)

  datatype Task = Task(id: string, work: Work, priority: int, status: Status, retries: nat,
                       error: string, createdAt: int, updatedAt: int)

  datatype Queue = Queue(tasks: map<Work, Task>, byID: map<string, Work>, order: seq<Work>)

  ghost predicate Valid(q: Queue) {
    && (forall i, j | 0 <= i < j < |q.order| :: q.order[i] != q.order[j])
    && (forall w :: w in q.tasks <==> w in q.order)
    && forall id | id in q.byID :: q.byID[id] in q.tasks && q.tasks[q.byID[id]].id == id
  }

  // --- Enqueue

  predicate Acceptable(t: Task) {
    && ValidSymbol(t.work.series.symbol)
    && t.work.dataset != "" && t.work.startDate != 0 && t.work.endDate != 0
    && t.work.startDate <= t.work.endDate
  }

  function Normalised(t: Task): Task {
    var series := if t.work.series.adjust == Unset then t.work.series.(adjust := Plain) else t.work.series;
    t.(status := if t.status == Unspecified then Pending else t.status,
       work := Work(t.work.dataset, series, Midnight(t.work.startDate), Midnight(t.work.endDate)))
  }

  // The task as stored: without an id it gets the stable one of its work.
  function Created(t: Task, idOf: Work -> string, now: int): Task {
    var n := Normalised(t);
    n.(id := if n.id == "" then idOf(n.work) else n.id,
       createdAt := if n.createdAt == 0 then now else n.createdAt,
       updatedAt := now)
  }

  function Enqueue(q: Queue, t: Task, idOf: Work -> string, now: int): Queue {
    var n := Created(t, idOf, now);
    if !Acceptable(t) || n.work in q.tasks then q
    else Queue(q.tasks[n.work := n], q.byID[n.id := n.work], q.order + [n.work])
  }

  // The stored task, and whether this call created it.
  function EnqueueReply(q: Queue, t: Task, idOf: Work -> string, now: int): Result<(Task, bool), Error> {
    var n := Created(t, idOf, now);
    if !Acceptable(t) then Failure(InvalidRequest)
    else if n.work in q.tasks then Success((q.tasks[n.work], false))
    else Success((n, true))
  }

  // --- Next

  predicate Eligible(t: Task) {
    t.status == Pending || t.status == Retrying
  }

  predicate Better(a: Task, b: Task) {
    a.priority > b.priority || (a.priority == b.priority && a.createdAt < b.createdAt)
  }

  // What a lookup of unknown work yields.
  const ZERO_TASK := Task("", Work("", Series(Symbol("", ""), PeriodUnknown, Unset), 0, 0), 0, Unspecified, 0, "", 0, 0)

  function TaskAt(q: Queue, i: nat): Task
    requires i < |q.order|
  {
    if q.order[i] in q.tasks then q.tasks[q.order[i]] else ZERO_TASK
  }

  // Position i is handed out ahead of position j: higher priority, then created
  // earlier, then enqueued earlier.
  predicate Ahead(q: Queue, i: nat, j: nat)
    requires i < |q.order| && j < |q.order|
  {
    Better(TaskAt(q, i), TaskAt(q, j)) || (!Better(TaskAt(q, j), TaskAt(q, i)) && i < j)
  }

  // What the scan holds after the first n positions.
  function Best(q: Queue, n: nat): (best: Option<nat>)
    requires n <= |q.order|
    ensures best.Some? ==> best.value < n && Eligible(TaskAt(q, best.value))
  {
    if n == 0 then None
    else
      var best := Best(q, n - 1);
      var t := TaskAt(q, n - 1);
      if Eligible(t) && (best.None? || Better(t, TaskAt(q, best.value))) then Some(n - 1) else best
  }

  // The position Next takes.
  function Pick(q: Queue): (best: Option<nat>)
    ensures best.Some? ==> best.value < |q.order| && Eligible(TaskAt(q, best.value))
  {
    Best(q, |q.order|)
  }

  function Claimed(t: Task, now: int): Task {
    t.(status := Running, updatedAt := now)
  }

  function Next(q: Queue, now: int): Queue {
    match Pick(q)
    case None => q
    case Some(i) => q.(tasks := q.tasks[q.order[i] := Claimed(TaskAt(q, i), now)])
  }

  // --- Update

  function Update(q: Queue, t: Task, now: int): Queue {
    if t.id == "" || t.id !in q.byID then q
    else q.(tasks := q.tasks[q.byID[t.id] := t.(updatedAt := now)])
  }

  function UpdateReply(q: Queue, t: Task): Option<Error> {
    if t.id == "" then Some(InvalidRequest) else if t.id !in q.byID then Some(NoData) else None
  }

  // --- What becomes of what the caller gave

  // A task is refused exactly if its symbol, dataset or dates are missing or its dates
  // are the wrong way round.
  lemma RefusedExactlyWhen(q: Queue, t: Task, idOf: Work -> string, now: int)
    ensures EnqueueReply(q, t, idOf, now).Failure? <==>
            || t.work.series.symbol.market == "" || t.work.series.symbol.code == "" || t.work.dataset == ""
            || t.work.startDate == 0 || t.work.endDate == 0 || t.work.endDate < t.work.startDate
    ensures EnqueueReply(q, t, idOf, now).Failure? ==>
              EnqueueReply(q, t, idOf, now).error == InvalidRequest && Enqueue(q, t, idOf, now) == q
  {
  }

  // The work a task is about: whole days, and the plain series where no adjustment
  // is given.
  ghost predicate IsWorkOf(w: Work, given: Work) {
    && w.dataset == given.dataset && w.series.symbol == given.series.symbol && w.series.period == given.series.period
    && w.series.adjust == (if given.series.adjust == Unset then Plain else given.series.adjust)
    && w.startDate <= given.startDate < w.startDate + 86_400_000_000_000 && w.startDate % 86_400_000_000_000 == 0
    && w.endDate <= given.endDate < w.endDate + 86_400_000_000_000 && w.endDate % 86_400_000_000_000 == 0
  }

  // The stored task keeps what the caller gave and fills in what is missing.
  ghost predicate KeepsGiven(stored: Task, t: Task, idOf: Work -> string, now: int) {
    && stored.priority == t.priority && stored.retries == t.retries && stored.error == t.error
    && stored.status == (if t.status == Unspecified then Pending else t.status)
    && stored.createdAt == (if t.createdAt == 0 then now else t.createdAt) && stored.updatedAt == now
    && stored.id == (if t.id == "" then idOf(stored.work) else t.id)
  }

  // New work is queued last, as a task that keeps what the caller gave; known work is
  // reported as it is and changes nothing.
  lemma EnqueueTouches(q: Queue, t: Task, idOf: Work -> string, now: int) returns (w: Work)
    requires EnqueueReply(q, t, idOf, now).Success?
    ensures IsWorkOf(w, t.work)
    ensures w in q.tasks ==>
              EnqueueReply(q, t, idOf, now) == Success((q.tasks[w], false)) && Enqueue(q, t, idOf, now) == q
    ensures w !in q.tasks ==>
              var stored := EnqueueReply(q, t, idOf, now).value.0;
              && EnqueueReply(q, t, idOf, now).value.1 && stored.work == w && KeepsGiven(stored, t, idOf, now)
              && Enqueue(q, t, idOf, now) == Queue(q.tasks[w := stored], q.byID[stored.id := w], q.order + [w])
  {
    w := Normalised(t).work;
    var from := MidnightMeaning(t.work.startDate);
    var to := MidnightMeaning(t.work.endDate);
  }

  // A task handed out is the stored one, running as of now; nothing else changes.
  lemma NextTouches(q: Queue, now: int)
    requires Valid(q) && Pick(q).Some?
    ensures var w := q.order[Pick(q).value];
            && w in q.tasks
            && Next(q, now) == q.(tasks := q.tasks[w := q.tasks[w].(status := Running, updatedAt := now)])
  {
  }

  // An accepted update replaces the task of that id by the one given, as of now.
  lemma UpdateTouches(q: Queue, t: Task, now: int)
    ensures UpdateReply(q, t) == (if t.id == "" then Some(InvalidRequest) else if t.id in q.byID then None else Some(NoData))
    ensures UpdateReply(q, t).Some? ==> Update(q, t, now) == q
    ensures UpdateReply(q, t).None? ==>
              Update(q, t, now) == q.(tasks := q.tasks[q.byID[t.id] :=
                                                 Task(t.id, t.work, t.priority, t.status, t.retries, t.error, t.createdAt, now)])
  {
  }

  // --- Which task Next takes

  // The scan takes the one eligible task that is ahead of all the others.
  lemma {:induction false} BestIsAhead(q: Queue, n: nat)
    requires Valid(q) && n <= |q.order|
    ensures Best(q, n).None? ==> forall j | 0 <= j < n :: !Eligible(TaskAt(q, j))
    ensures Best(q, n).Some? ==>
              forall j | 0 <= j < n && j != Best(q, n).value && Eligible(TaskAt(q, j)) :: Ahead(q, Best(q, n).value, j)
  {
    if n > 0 {
      BestIsAhead(q, n - 1);
    }
  }

  // The positions handed out by calls of Next at the given times.
  ghost function Drain(q: Queue, nows: seq<int>): (taken: seq<nat>)
    requires Valid(q)
    ensures |taken| <= |nows|
    ensures forall a | 0 <= a < |taken| :: taken[a] < |q.order|
    decreases |nows|
  {
    if nows == [] || Pick(q).None? then []
    else [Pick(q).value] + Drain(Next(q, nows[0]), nows[1..])
  }

  // What a list of positions must be to empty the queue properly: eligible, each
  // once, in hand-out order.
  ghost predicate InOrder(q: Queue, taken: seq<nat>)
    requires Valid(q)
  {
    && (forall a | 0 <= a < |taken| :: taken[a] < |q.order| && Eligible(TaskAt(q, taken[a])))
    && forall a, b | 0 <= a < b < |taken| :: taken[a] != taken[b] && Ahead(q, taken[a], taken[b])
  }

  ghost predicate TakesAll(q: Queue, taken: seq<nat>)
    requires Valid(q)
  {
    forall k: nat | k < |q.order| && Eligible(TaskAt(q, k)) :: k in taken
  }

  // Repeated calls of Next hand out eligible tasks only, each at most once, by
  // priority, creation time and insertion; and when one of the calls comes back
  // empty-handed, all of them have been handed out.
  lemma {:induction false} DrainIsSortedAndComplete(q: Queue, nows: seq<int>)
    requires Valid(q)
    ensures InOrder(q, Drain(q, nows))
    ensures |Drain(q, nows)| < |nows| ==> TakesAll(q, Drain(q, nows))
    decreases |nows|
  {
    BestIsAhead(q, |q.order|);
    if nows != [] && Pick(q).Some? {
      var p := Next(q, nows[0]);
      DrainIsSortedAndComplete(p, nows[1..]);
      OneMoreTaken(q, nows[0], Drain(p, nows[1..]));
    }
  }

  lemma OneMoreTaken(q: Queue, now: int, rest: seq<nat>)
    requires Valid(q) && Pick(q).Some? && InOrder(Next(q, now), rest)
    ensures InOrder(q, [Pick(q).value] + rest)
    ensures TakesAll(Next(q, now), rest) ==> TakesAll(q, [Pick(q).value] + rest)
  {
    RestIsBehind(q, now, rest);
    RestInOrder(q, now, rest);
    FirstInOrder(q, Pick(q).value, rest);
    if TakesAll(Next(q, now), rest) {
      RestTakesOthers(q, now, rest);
    }
  }

  lemma RestInOrder(q: Queue, now: int, rest: seq<nat>)
    requires Valid(q) && Pick(q).Some? && InOrder(Next(q, now), rest)
    requires forall a | 0 <= a < |rest| :: rest[a] < |q.order| && rest[a] != Pick(q).value && Eligible(TaskAt(q, rest[a]))
    ensures InOrder(q, rest)
  {
    OthersUntouched(q, now);
    OrderUntouched(q, now);
  }

  lemma FirstInOrder(q: Queue, i: nat, rest: seq<nat>)
    requires Valid(q) && i < |q.order| && Eligible(TaskAt(q, i)) && InOrder(q, rest)
    requires forall a | 0 <= a < |rest| :: rest[a] != i && Ahead(q, i, rest[a])
    ensures InOrder(q, [i] + rest)
  {
    var taken := [i] + rest;
    assert forall a | 0 < a < |taken| :: taken[a] == rest[a - 1];
  }

  lemma RestTakesOthers(q: Queue, now: int, rest: seq<nat>)
    requires Valid(q) && Pick(q).Some? && Valid(Next(q, now)) && TakesAll(Next(q, now), rest)
    ensures TakesAll(q, [Pick(q).value] + rest)
  {
    var taken := [Pick(q).value] + rest;
    OthersUntouched(q, now);
    forall k: nat | k < |q.order| && Eligible(TaskAt(q, k))
      ensures k in taken
    {
      if k == Pick(q).value {
        assert taken[0] == k;
      } else {
        assert Eligible(TaskAt(Next(q, now), k)) && k in rest;
      }
    }
  }

  lemma RestIsBehind(q: Queue, now: int, rest: seq<nat>)
    requires Valid(q) && Pick(q).Some? && InOrder(Next(q, now), rest)
    ensures forall a | 0 <= a < |rest| ::
              && rest[a] < |q.order| && rest[a] != Pick(q).value
              && Eligible(TaskAt(q, rest[a])) && Ahead(q, Pick(q).value, rest[a])
  {
    BestIsAhead(q, |q.order|);
    OthersUntouched(q, now);
  }

  lemma OthersUntouched(q: Queue, now: int)
    requires Valid(q) && Pick(q).Some?
    ensures Valid(Next(q, now)) && Next(q, now).order == q.order
    ensures TaskAt(Next(q, now), Pick(q).value).status == Running
    ensures forall j: nat | j < |q.order| && j != Pick(q).value :: TaskAt(Next(q, now), j) == TaskAt(q, j)
  {
  }

  // Handing out a task does not change its priority or its creation time.
  lemma OrderUntouched(q: Queue, now: int)
    requires Valid(q) && Pick(q).Some?
    ensures Next(q, now).order == q.order
    ensures forall j: nat, k: nat | j < |q.order| && k < |q.order| :: Ahead(Next(q, now), j, k) <==> Ahead(q, j, k)
  {
    OthersUntouched(q, now);
    var i := Pick(q).value;
    assert TaskAt(Next(q, now), i) == Claimed(TaskAt(q, i), now);
    forall j: nat, k: nat | j < |q.order| && k < |q.order|
      ensures Ahead(Next(q, now), j, k) <==> Ahead(q, j, k)
    {
      SameRank(q, now, j);
      SameRank(q, now, k);
    }
  }

  lemma SameRank(q: Queue, now: int, j: nat)
    requires Valid(q) && Pick(q).Some? && j < |q.order|
    ensures Next(q, now).order == q.order
    ensures TaskAt(Next(q, now), j).priority == TaskAt(q, j).priority
    ensures TaskAt(Next(q, now), j).createdAt == TaskAt(q, j).createdAt
  {
    OthersUntouched(q, now);
  }

  // --- Runs

  datatype Call = CallEnqueue(task: Task, now: int) | CallNext(now: int) | CallUpdate(task: Task, now: int)

  function Step(q: Queue, c: Call, idOf: Work -> string): Queue {
    match c
    case CallEnqueue(t, now) => Enqueue(q, t, idOf, now)
    case CallNext(now) => Next(q, now)
    case CallUpdate(t, now) => Update(q, t, now)
  }

  function After(q: Queue, calls: seq<Call>, idOf: Work -> string): Queue {
    if calls == [] then q
    else Step(After(q, calls[..|calls| - 1], idOf), calls[|calls| - 1], idOf)
  }

  lemma StepKeepsValid(q: Queue, c: Call, idOf: Work -> string)
    requires Valid(q)
    ensures Valid(Step(q, c, idOf))
  {
    match c
    case CallEnqueue(t, now) => EnqueueKeepsValid(q, t, idOf, now);
    case CallNext(now) =>
    case CallUpdate(t, now) =>
  }

  lemma EnqueueKeepsValid(q: Queue, t: Task, idOf: Work -> string, now: int)
    requires Valid(q)
    ensures Valid(Enqueue(q, t, idOf, now))
  {
  }

  // In any run, every known piece of work has one task and one place in the order.
  lemma {:induction false} RunKeepsValid(q: Queue, calls: seq<Call>, idOf: Work -> string)
    requires Valid(q)
    ensures Valid(After(q, calls, idOf))
  {
    if calls != [] {
      RunKeepsValid(q, calls[..|calls| - 1], idOf);
      StepKeepsValid(After(q, calls[..|calls| - 1], idOf), calls[|calls| - 1], idOf);
    }
  }

  // The queue before call k of a run.
  function Before(q: Queue, calls: seq<Call>, idOf: Work -> string, k: nat): Queue
    requires k <= |calls|
  {
    After(q, calls[..k], idOf)
  }

  lemma BeforeNext(q: Queue, calls: seq<Call>, idOf: Work -> string, k: nat)
    requires k < |calls|
    ensures Before(q, calls, idOf, k + 1) == Step(Before(q, calls, idOf, k), calls[k], idOf)
  {
    assert calls[..k + 1][..k] == calls[..k];
  }

  predicate HandsOut(q: Queue, c: Call, w: Work) {
    c.CallNext? && Pick(q).Some? && q.order[Pick(q).value] == w
  }

  // An Update that puts the work back to pending or retrying.
  predicate Requeues(q: Queue, c: Call, w: Work) {
    && c.CallUpdate? && c.task.id != "" && c.task.id in q.byID && q.byID[c.task.id] == w
    && Eligible(c.task)
  }

  // In any run, a piece of work handed out twice was put back in between.
  lemma HandedOutOnce(q: Queue, calls: seq<Call>, idOf: Work -> string, i: nat, j: nat, w: Work) returns (k: nat)
    requires i < j < |calls|
    requires HandsOut(Before(q, calls, idOf, i), calls[i], w)
    requires HandsOut(Before(q, calls, idOf, j), calls[j], w)
    ensures i < k < j && Requeues(Before(q, calls, idOf, k), calls[k], w)
  {
    k := PutBack(q, calls, idOf, i, j, w);
  }

  lemma {:induction false} PutBack(q: Queue, calls: seq<Call>, idOf: Work -> string, i: nat, j: nat, w: Work)
    returns (k: nat)
    requires i < j <= |calls|
    requires HandsOut(Before(q, calls, idOf, i), calls[i], w)
    requires w in Before(q, calls, idOf, j).tasks && Eligible(Before(q, calls, idOf, j).tasks[w])
    ensures i < k < j && Requeues(Before(q, calls, idOf, k), calls[k], w)
    decreases j
  {
    var p := Before(q, calls, idOf, j - 1);
    BeforeNext(q, calls, idOf, j - 1);
    StaysKnown(q, calls, idOf, i, j - 1, w);
    if Requeues(p, calls[j - 1], w) {
      NotAtOnce(p, calls[j - 1], w);
      k := j - 1;
    } else {
      EligibleBefore(p, calls[j - 1], idOf, w);
      k := PutBack(q, calls, idOf, i, j - 1, w);
    }
  }

  lemma NotAtOnce(q: Queue, c: Call, w: Work)
    requires Requeues(q, c, w)
    ensures !HandsOut(q, c, w)
  {
  }

  // Nothing but being put back makes a known task eligible.
  lemma EligibleBefore(q: Queue, c: Call, idOf: Work -> string, w: Work)
    requires w in q.tasks && !Requeues(q, c, w)
    requires w in Step(q, c, idOf).tasks && Eligible(Step(q, c, idOf).tasks[w])
    ensures Eligible(q.tasks[w]) && !HandsOut(q, c, w)
  {
  }

  lemma {:induction false} StaysKnown(q: Queue, calls: seq<Call>, idOf: Work -> string, i: nat, j: nat, w: Work)
    requires i <= j <= |calls|
    requires w in Before(q, calls, idOf, i).tasks
    ensures w in Before(q, calls, idOf, j).tasks
    decreases j
  {
    if i < j {
      StaysKnown(q, calls, idOf, i, j - 1, w);
      BeforeNext(q, calls, idOf, j - 1);
    }
  }

  // --- What the tasks say they are about

  // Every task is kept under the work it names.
  ghost predicate Labelled(q: Queue) {
    forall w | w in q.tasks :: q.tasks[w].work == w
  }

  // An accepted Update whose task names other work than the one it replaces.
  predicate Relabels(q: Queue, c: Call) {
    c.CallUpdate? && c.task.id != "" && c.task.id in q.byID && c.task.work != q.byID[c.task.id]
  }

  // A call keeps the labels exactly if it does not relabel a task.
  lemma LabelsKeptExactlyWhen(q: Queue, c: Call, idOf: Work -> string)
    requires Valid(q) && Labelled(q)
    ensures Labelled(Step(q, c, idOf)) <==> !Relabels(q, c)
  {
    if Relabels(q, c) {
      var w := q.byID[c.task.id];
      assert Step(q, c, idOf).tasks[w].work == c.task.work;
    }
  }

  // No call among the first n relabels a task.
  ghost predicate KeepsLabels(q: Queue, calls: seq<Call>, idOf: Work -> string, n: nat)
    requires n <= |calls|
  {
    forall k | 0 <= k < n :: !Relabels(Before(q, calls, idOf, k), calls[k])
  }

  lemma {:induction false} RunKeepsLabels(q: Queue, calls: seq<Call>, idOf: Work -> string, n: nat)
    requires Valid(q) && Labelled(q) && n <= |calls| && KeepsLabels(q, calls, idOf, n)
    ensures Valid(Before(q, calls, idOf, n)) && Labelled(Before(q, calls, idOf, n))
  {
    if n > 0 {
      RunKeepsLabels(q, calls, idOf, n - 1);
      BeforeNext(q, calls, idOf, n - 1);
      StepKeepsValid(Before(q, calls, idOf, n - 1), calls[n - 1], idOf);
      LabelsKeptExactlyWhen(Before(q, calls, idOf, n - 1), calls[n - 1], idOf);
    }
  }

  // The task that a call returns to a worker.
  function Given(q: Queue, c: Call): Option<Task> {
    if c.CallNext? && Pick(q).Some? then Some(Claimed(TaskAt(q, Pick(q).value), c.now)) else None
  }

  // A task that names other work than it is kept under was last relabelled by some
  // call before.
  lemma {:induction false} WasRelabelled(q: Queue, calls: seq<Call>, idOf: Work -> string, j: nat, x: Work) returns (k: nat)
    requires Labelled(q) && j <= |calls|
    requires x in Before(q, calls, idOf, j).tasks && Before(q, calls, idOf, j).tasks[x].work != x
    ensures k < j && Relabels(Before(q, calls, idOf, k), calls[k])
    ensures calls[k].task.work == Before(q, calls, idOf, j).tasks[x].work
    decreases j
  {
    BeforeNext(q, calls, idOf, j - 1);
    var p := Before(q, calls, idOf, j - 1);
    if x in p.tasks && p.tasks[x].work == Before(q, calls, idOf, j).tasks[x].work {
      k := WasRelabelled(q, calls, idOf, j - 1, x);
    } else {
      OnlyUpdatesRename(p, calls[j - 1], idOf, x);
      k := j - 1;
    }
  }

  lemma OnlyUpdatesRename(q: Queue, c: Call, idOf: Work -> string, x: Work)
    requires x in Step(q, c, idOf).tasks && Step(q, c, idOf).tasks[x].work != x
    requires x in q.tasks ==> q.tasks[x].work != Step(q, c, idOf).tasks[x].work
    ensures Relabels(q, c) && c.task.work == Step(q, c, idOf).tasks[x].work
  {
  }

  lemma KeptUnder(q: Queue, c: Call) returns (x: Work)
    requires Valid(q) && Given(q, c).Some?
    ensures HandsOut(q, c, x) && x in q.tasks && q.tasks[x].work == Given(q, c).value.work
  {
    x := q.order[Pick(q).value];
  }

  // Workers given tasks about the same work twice were given it because a call put it
  // back in between, or because a call before relabelled a task to that work.
  lemma GivenTwiceWhy(q: Queue, calls: seq<Call>, idOf: Work -> string, i: nat, j: nat, w: Work) returns (k: nat, x: Work)
    requires Valid(q) && Labelled(q) && i < j < |calls|
    requires Given(Before(q, calls, idOf, i), calls[i]).Some? && Given(Before(q, calls, idOf, i), calls[i]).value.work == w
    requires Given(Before(q, calls, idOf, j), calls[j]).Some? && Given(Before(q, calls, idOf, j), calls[j]).value.work == w
    ensures (i < k < j && Requeues(Before(q, calls, idOf, k), calls[k], x)
             && x in Before(q, calls, idOf, i).tasks && Before(q, calls, idOf, i).tasks[x].work == w)
            || (k < j && Relabels(Before(q, calls, idOf, k), calls[k]) && calls[k].task.work == w)
  {
    RunKeepsValid(q, calls[..i], idOf);
    RunKeepsValid(q, calls[..j], idOf);
    x := KeptUnder(Before(q, calls, idOf, i), calls[i]);
    var y := KeptUnder(Before(q, calls, idOf, j), calls[j]);
    if x == y {
      k := HandedOutOnce(q, calls, idOf, i, j, x);
    } else if x != w {
      k := WasRelabelled(q, calls, idOf, i, x);
    } else {
      k := WasRelabelled(q, calls, idOf, j, y);
    }
  }

  // So while no call relabels a task, only putting work back lets it be given again.
  lemma GivenOnce(q: Queue, calls: seq<Call>, idOf: Work -> string, i: nat, j: nat, w: Work) returns (k: nat)
    requires Valid(q) && Labelled(q) && i < j < |calls| && KeepsLabels(q, calls, idOf, j)
    requires Given(Before(q, calls, idOf, i), calls[i]).Some? && Given(Before(q, calls, idOf, i), calls[i]).value.work == w
    requires Given(Before(q, calls, idOf, j), calls[j]).Some? && Given(Before(q, calls, idOf, j), calls[j]).value.work == w
    ensures i < k < j && Requeues(Before(q, calls, idOf, k), calls[k], w)
  {
    var x;
    k, x := GivenTwiceWhy(q, calls, idOf, i, j, w);
    RunKeepsLabels(q, calls, idOf, i);
  }

  // --- Which relabellings let work be given twice

  // What calls of Next at the given times return, until one comes back empty-handed.
  function Handout(q: Queue, nows: seq<int>): (tasks: seq<Task>)
    decreases |nows|
  {
    if nows == [] || Given(q, CallNext(nows[0])).None? then []
    else [Given(q, CallNext(nows[0])).value] + Handout(Next(q, nows[0]), nows[1..])
  }

  lemma RestUntouched(q: Queue, now: int, nows: seq<int>)
    requires Valid(q) && Pick(q).Some?
    ensures Valid(Next(q, now))
    ensures forall a | 0 <= a < |Drain(Next(q, now), nows)| ::
              var i := Drain(Next(q, now), nows)[a];
              i < |q.order| && TaskAt(Next(q, now), i) == TaskAt(q, i)
  {
    OthersUntouched(q, now);
    DrainIsSortedAndComplete(Next(q, now), nows);
    RestIsBehind(q, now, Drain(Next(q, now), nows));
  }

  // The tasks at the given positions, claimed one after the other.
  ghost predicate AreClaimed(q: Queue, tasks: seq<Task>, taken: seq<nat>, nows: seq<int>) {
    && |tasks| == |taken| <= |nows|
    && forall a | 0 <= a < |taken| :: taken[a] < |q.order| && tasks[a] == Claimed(TaskAt(q, taken[a]), nows[a])
  }

  // What is handed out are the drained tasks, claimed.
  lemma {:induction false} HandoutIsDrain(q: Queue, nows: seq<int>)
    requires Valid(q)
    ensures AreClaimed(q, Handout(q, nows), Drain(q, nows), nows)
    decreases |nows|
  {
    if nows != [] && Pick(q).Some? {
      FirstHandout(q, nows);
      HandoutIsDrain(Next(q, nows[0]), nows[1..]);
      RestUntouched(q, nows[0], nows[1..]);
      OneMoreClaimed(q, nows, Handout(Next(q, nows[0]), nows[1..]), Drain(Next(q, nows[0]), nows[1..]));
    }
  }

  lemma OneMoreClaimed(q: Queue, nows: seq<int>, tasks: seq<Task>, taken: seq<nat>)
    requires nows != [] && Pick(q).Some? && AreClaimed(Next(q, nows[0]), tasks, taken, nows[1..])
    requires forall a | 0 <= a < |taken| :: taken[a] < |q.order| && TaskAt(Next(q, nows[0]), taken[a]) == TaskAt(q, taken[a])
    ensures AreClaimed(q, [Claimed(TaskAt(q, Pick(q).value), nows[0])] + tasks, [Pick(q).value] + taken, nows)
  {
  }

  lemma FirstHandout(q: Queue, nows: seq<int>)
    requires Valid(q) && nows != [] && Pick(q).Some?
    ensures Valid(Next(q, nows[0]))
    ensures Handout(q, nows) == [Claimed(TaskAt(q, Pick(q).value), nows[0])] + Handout(Next(q, nows[0]), nows[1..])
    ensures Drain(q, nows) == [Pick(q).value] + Drain(Next(q, nows[0]), nows[1..])
  {
    OthersUntouched(q, nows[0]);
  }

  // Position i holds an eligible task about work w.
  predicate AboutAt(q: Queue, i: nat, w: Work) {
    i < |q.order| && Eligible(TaskAt(q, i)) && TaskAt(q, i).work == w
  }

  ghost predicate TwiceAbout(tasks: seq<Task>, w: Work) {
    exists a, b :: 0 <= a < b < |tasks| && tasks[a].work == w && tasks[b].work == w
  }

  ghost predicate TwiceQueued(q: Queue, w: Work) {
    exists i: nat, j: nat :: i != j && AboutAt(q, i, w) && AboutAt(q, j, w)
  }

  lemma HandedOutAt(q: Queue, nows: seq<int>, w: Work, i: nat) returns (a: nat)
    requires Valid(q) && |Handout(q, nows)| < |nows| && AboutAt(q, i, w)
    ensures a < |Drain(q, nows)| == |Handout(q, nows)|
    ensures Drain(q, nows)[a] == i && Handout(q, nows)[a].work == w
  {
    DrainIsSortedAndComplete(q, nows);
    HandoutIsDrain(q, nows);
    assert i in Drain(q, nows);
    a :| 0 <= a < |Drain(q, nows)| && Drain(q, nows)[a] == i;
  }

  lemma HandedOutFrom(q: Queue, nows: seq<int>, a: nat) returns (i: nat)
    requires Valid(q) && a < |Handout(q, nows)|
    ensures a < |Drain(q, nows)| && Drain(q, nows)[a] == i && AboutAt(q, i, Handout(q, nows)[a].work)
  {
    DrainIsSortedAndComplete(q, nows);
    HandoutIsDrain(q, nows);
    i := Drain(q, nows)[a];
  }

  lemma GivenTwiceIsQueuedTwice(q: Queue, nows: seq<int>, a: nat, b: nat, w: Work)
    requires Valid(q) && a < b < |Handout(q, nows)|
    requires Handout(q, nows)[a].work == w && Handout(q, nows)[b].work == w
    ensures TwiceQueued(q, w)
  {
    var i := HandedOutFrom(q, nows, a);
    var j := HandedOutFrom(q, nows, b);
    DrainIsSortedAndComplete(q, nows);
  }

  lemma QueuedTwiceIsGivenTwice(q: Queue, nows: seq<int>, i: nat, j: nat, w: Work)
    requires Valid(q) && |Handout(q, nows)| < |nows| && i != j && AboutAt(q, i, w) && AboutAt(q, j, w)
    ensures TwiceAbout(Handout(q, nows), w)
  {
    var a := HandedOutAt(q, nows, w, i);
    var b := HandedOutAt(q, nows, w, j);
  }

  // By the time Next comes back empty-handed, tasks about the same work have been
  // given out twice exactly if two eligible tasks were about it.
  lemma HandoutTwiceWhen(q: Queue, nows: seq<int>, w: Work)
    requires Valid(q) && |Handout(q, nows)| < |nows|
    ensures TwiceAbout(Handout(q, nows), w) <==> TwiceQueued(q, w)
  {
    var tasks := Handout(q, nows);
    if a: nat, b: nat :| a < b < |tasks| && tasks[a].work == w && tasks[b].work == w {
      GivenTwiceIsQueuedTwice(q, nows, a, b, w);
    }
    if i: nat, j: nat :| i != j && AboutAt(q, i, w) && AboutAt(q, j, w) {
      QueuedTwiceIsGivenTwice(q, nows, i, j, w);
    }
  }

  // --- From what the callers gave to the order of the hand-out

  // Given out one after the other, not necessarily in a row.
  ghost predicate GivenInOrder(tasks: seq<Task>, first: Work, second: Work) {
    exists a, b :: 0 <= a < b < |tasks| && tasks[a].work == first && tasks[b].work == second
  }

  lemma AheadIsGivenFirst(q: Queue, nows: seq<int>, i: nat, j: nat)
    requires Valid(q) && |Handout(q, nows)| < |nows| && i < |q.order| && j < |q.order| && i != j
    requires Eligible(TaskAt(q, i)) && Eligible(TaskAt(q, j)) && Ahead(q, i, j)
    ensures GivenInOrder(Handout(q, nows), TaskAt(q, i).work, TaskAt(q, j).work)
  {
    var a := HandedOutAt(q, nows, TaskAt(q, i).work, i);
    var b := HandedOutAt(q, nows, TaskAt(q, j).work, j);
    DrainIsSortedAndComplete(q, nows);
    TakenInOrder(q, Drain(q, nows), a, b);
  }

  lemma TakenInOrder(q: Queue, taken: seq<nat>, a: nat, b: nat)
    requires Valid(q) && InOrder(q, taken) && a < |taken| && b < |taken| && taken[a] != taken[b]
    requires Ahead(q, taken[a], taken[b])
    ensures a < b
  {
    NotAheadBack(q, taken[a], taken[b]);
  }

  lemma NotAheadBack(q: Queue, i: nat, j: nat)
    requires i < |q.order| && j < |q.order| && i != j && Ahead(q, i, j)
    ensures !Ahead(q, j, i)
  {
  }

  // Which of two pending tasks, enqueued one after the other, goes first: the one with
  // the higher priority; then the one created earlier; then the one enqueued earlier.
  predicate SecondGoesFirst(a: Task, nowA: int, b: Task, nowB: int) {
    var createdA, createdB := if a.createdAt == 0 then nowA else a.createdAt, if b.createdAt == 0 then nowB else b.createdAt;
    b.priority > a.priority || (b.priority == a.priority && createdB < createdA)
  }

  predicate GivenPending(t: Task) {
    t.status == Unspecified || t.status == Pending || t.status == Retrying
  }

  lemma TwoEnqueued(q: Queue, a: Task, nowA: int, b: Task, nowB: int, idOf: Work -> string) returns (u: Work, v: Work, p: Queue)
    requires Valid(q) && GivenPending(a) && GivenPending(b)
    requires EnqueueReply(q, a, idOf, nowA).Success? && EnqueueReply(q, a, idOf, nowA).value.1
    requires var mid := Enqueue(q, a, idOf, nowA);
             EnqueueReply(mid, b, idOf, nowB).Success? && EnqueueReply(mid, b, idOf, nowB).value.1
    ensures p == Enqueue(Enqueue(q, a, idOf, nowA), b, idOf, nowB) && Valid(p)
    ensures IsWorkOf(u, a.work) && IsWorkOf(v, b.work)
    ensures var n := |q.order|;
            && |p.order| == n + 2 && TaskAt(p, n).work == u && TaskAt(p, n + 1).work == v
            && Eligible(TaskAt(p, n)) && Eligible(TaskAt(p, n + 1))
            && (if SecondGoesFirst(a, nowA, b, nowB) then Ahead(p, n + 1, n) else Ahead(p, n, n + 1))
  {
    u := EnqueueTouches(q, a, idOf, nowA);
    var mid := Enqueue(q, a, idOf, nowA);
    v := EnqueueTouches(mid, b, idOf, nowB);
    p := Enqueue(mid, b, idOf, nowB);
    EnqueueKeepsValid(q, a, idOf, nowA);
    EnqueueKeepsValid(mid, b, idOf, nowB);
    var n := |q.order|;
    assert p.order[n] == u && p.order[n + 1] == v;
  }

  // Of two new pending tasks, the one that goes first by what the callers gave is
  // given out first, whatever else is queued.
  lemma PriorityDecides(q: Queue, a: Task, nowA: int, b: Task, nowB: int, idOf: Work -> string, nows: seq<int>)
    returns (u: Work, v: Work)
    requires Valid(q) && GivenPending(a) && GivenPending(b)
    requires EnqueueReply(q, a, idOf, nowA).Success? && EnqueueReply(q, a, idOf, nowA).value.1
    requires var mid := Enqueue(q, a, idOf, nowA);
             && EnqueueReply(mid, b, idOf, nowB).Success? && EnqueueReply(mid, b, idOf, nowB).value.1
             && |Handout(Enqueue(mid, b, idOf, nowB), nows)| < |nows|
    ensures IsWorkOf(u, a.work) && IsWorkOf(v, b.work)
    ensures var given := Handout(Enqueue(Enqueue(q, a, idOf, nowA), b, idOf, nowB), nows);
            if SecondGoesFirst(a, nowA, b, nowB) then GivenInOrder(given, v, u) else GivenInOrder(given, u, v)
  {
    var p;
    u, v, p := TwoEnqueued(q, a, nowA, b, nowB, idOf);
    var n := |q.order|;
    if SecondGoesFirst(a, nowA, b, nowB) {
      AheadIsGivenFirst(p, nows, n + 1, n);
    } else {
      AheadIsGivenFirst(p, nows, n, n + 1);
    }
  }

  // After a relabelling, the tasks about its work are the relabelled one and the one
  // kept under that work, if there is one.
  lemma RelabelledAbout(q: Queue, c: Call, idOf: Work -> string, i: nat)
    requires Valid(q) && Labelled(q) && Relabels(q, c) && i < |q.order|
    ensures var p := Step(q, c, idOf);
            p.order == q.order
            && (AboutAt(p, i, c.task.work) <==>
                  (q.order[i] == q.byID[c.task.id] && Eligible(c.task))
                  || (q.order[i] == c.task.work && Eligible(q.tasks[c.task.work])))
  {
  }

  lemma RelabelledQueuedTwice(q: Queue, c: Call, idOf: Work -> string)
    requires Valid(q) && Labelled(q) && Relabels(q, c)
    ensures TwiceQueued(Step(q, c, idOf), c.task.work)
            <==> Eligible(c.task) && c.task.work in q.tasks && Eligible(q.tasks[c.task.work])
  {
    var p := Step(q, c, idOf);
    var u, w := q.byID[c.task.id], c.task.work;
    if Eligible(c.task) && w in q.tasks && Eligible(q.tasks[w]) {
      var i :| 0 <= i < |q.order| && q.order[i] == u;
      var j :| 0 <= j < |q.order| && q.order[j] == w;
      RelabelledAbout(q, c, idOf, i);
      RelabelledAbout(q, c, idOf, j);
    }
    if i: nat, j: nat :| i != j && AboutAt(p, i, w) && AboutAt(p, j, w) {
      assert p.order == q.order;
      RelabelledAbout(q, c, idOf, i);
      RelabelledAbout(q, c, idOf, j);
      DistinctPlaces(q, i, j);
    }
  }

  lemma DistinctPlaces(q: Queue, i: nat, j: nat)
    requires Valid(q) && i < |q.order| && j < |q.order| && i != j
    ensures q.order[i] != q.order[j]
  {
    assert q.order[if i < j then i else j] != q.order[if i < j then j else i];
  }

  // A relabelling Update lets the workers who call next be given tasks about its work
  // twice, with nothing put back, exactly if it makes its task eligible and the task
  // kept under that work is eligible too.
  lemma RelabelledIsGivenTwiceWhen(q: Queue, c: Call, idOf: Work -> string, nows: seq<int>)
    requires Valid(q) && Labelled(q) && Relabels(q, c) && |Handout(Step(q, c, idOf), nows)| < |nows|
    ensures TwiceAbout(Handout(Step(q, c, idOf), nows), c.task.work)
            <==> Eligible(c.task) && c.task.work in q.tasks && Eligible(q.tasks[c.task.work])
  {
    StepKeepsValid(q, c, idOf);
    HandoutTwiceWhen(Step(q, c, idOf), nows, c.task.work);
    RelabelledQueuedTwice(q, c, idOf);
  }

  // Once work has been enqueued, asking for it again after any run of calls,
  // whatever the times of day and with or without the default adjustment, reports
  // the task kept for it and changes nothing; and unless a call relabelled it, the
  // task is about that work.
  lemma OneTaskPerWork(q: Queue, t: Task, calls: seq<Call>, again: Task, idOf: Work -> string, now: int, later: int)
    requires Acceptable(t) && Acceptable(again) && Normalised(t).work == Normalised(again).work
    ensures var p := After(Enqueue(q, t, idOf, now), calls, idOf);
            && Normalised(t).work in p.tasks
            && Enqueue(p, again, idOf, later) == p
            && EnqueueReply(p, again, idOf, later) == Success((p.tasks[Normalised(t).work], false))
            && (Valid(q) && Labelled(q) && KeepsLabels(Enqueue(q, t, idOf, now), calls, idOf, |calls|) ==>
                  p.tasks[Normalised(t).work].work == Normalised(again).work)
  {
    var first := Enqueue(q, t, idOf, now);
    StaysKnown(first, calls, idOf, 0, |calls|, Normalised(t).work);
    assert calls[..|calls|] == calls && calls[..0] == [];
    if Valid(q) && Labelled(q) && KeepsLabels(first, calls, idOf, |calls|) {
      StepKeepsValid(q, CallEnqueue(t, now), idOf);
      LabelsKeptExactlyWhen(q, CallEnqueue(t, now), idOf);
      RunKeepsLabels(first, calls, idOf, |calls|);
    }
  }

  // Every task can still be updated through its own id.
  ghost predicate Updatable(q: Queue) {
    forall w | w in q.tasks :: q.tasks[w].id in q.byID && q.byID[q.tasks[w].id] == w
  }

  // A new task leaves all tasks updatable exactly when its id is not in use: an id
  // in use moves to the new task, and the old one is out of reach.
  lemma IdInUseShadows(q: Queue, t: Task, idOf: Work -> string, now: int)
    requires Valid(q) && Updatable(q) && Acceptable(t) && Normalised(t).work !in q.tasks
    ensures Updatable(Enqueue(q, t, idOf, now)) <==> Created(t, idOf, now).id !in q.byID
  {
    var n := Created(t, idOf, now);
    var p := Enqueue(q, t, idOf, now);
    if n.id in q.byID {
      var w := q.byID[n.id];
      assert w in p.tasks && p.tasks[w].id == n.id && p.byID[n.id] == n.work != w;
    }
  }

  // The other calls never take a task out of reach.
  lemma UpdatableKept(q: Queue, c: Call, idOf: Work -> string)
    requires Valid(q) && Updatable(q) && !c.CallEnqueue?
    ensures Updatable(Step(q, c, idOf))
  {
  }
}
