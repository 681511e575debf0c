// What every reachable pool state satisfies, and what becomes of a lease over a
// whole run of the pool.
module PoolLaws {
  import opened Wrappers
  import opened Ring
  import opened PoolModel

  // --- Counting busy clients

  lemma {:induction false} BusyAfterUpdate(slots: seq<Slot>, k: nat, s: Slot)
    requires k < |slots|
    ensures Busy(slots[k := s]) + (if slots[k].inUse then 1 else 0)
         == Busy(slots) + (if s.inUse then 1 else 0)
  {
    var n := |slots| - 1;
    if k == n {
      assert slots[k := s][..n] == slots[..n];
    } else {
      assert slots[k := s][..n] == slots[..n][k := s];
      BusyAfterUpdate(slots[..n], k, s);
    }
  }

  lemma {:induction false} NoneBusy(slots: seq<Slot>)
    requires forall i | 0 <= i < |slots| :: !slots[i].inUse
    ensures Busy(slots) == 0
  {
    if slots != [] {
      NoneBusy(slots[..|slots| - 1]);
    }
  }

  lemma {:induction false} BusyClientCounted(slots: seq<Slot>, k: nat)
    requires k < |slots| && slots[k].inUse
    ensures Busy(slots) >= 1
  {
    BusyAfterUpdate(slots, k, slots[k].(inUse := false));
  }

  lemma {:induction false} OnlyBusyClient(slots: seq<Slot>, i: nat, j: nat)
    requires i < |slots| && j < |slots| && slots[i].inUse && slots[j].inUse
    requires Busy(slots) == 1
    ensures i == j
  {
    if i != j {
      var freed := slots[i := slots[i].(inUse := false)];
      BusyAfterUpdate(slots, i, freed[i]);
      BusyClientCounted(freed, j);
    }
  }

  // --- The host invariant

  ghost predicate HostInv(h: Host, cfg: Config) {
    && CursorOk(h)
    && h.inFlight == Busy(h.slots)
    && (h.halfOpenInFlight ==> h.circuit == HalfOpen && h.inFlight == 1)
    && (h.circuit == Closed ==> h.consecutiveFailures < cfg.failureThreshold)
    && (h.circuit != Closed ==> h.openUntil.Some?)
    && (h.circuit == Open ==> h.consecutiveSuccesses == 0)
    && (h.circuit == HalfOpen ==> h.consecutiveSuccesses < cfg.halfOpenThreshold)
  }

  lemma GrantKeepsInv(h: Host, cfg: Config, k: nat)
    requires HostInv(h, cfg) && CanAcquire(h) && k < |h.slots| && !h.slots[k].inUse
    ensures HostInv(GrantSlot(h, k), cfg)
  {
    BusyAfterUpdate(h.slots, k, Slot(true, h.slots[k].generation + 1));
  }

  // The clamp after the decrement is never needed.
  lemma ReleaseKeepsInv(h: Host, cfg: Config, k: nat)
    requires HostInv(h, cfg) && k < |h.slots| && h.slots[k].inUse
    ensures HostInv(ReleaseSlot(h, k), cfg)
    ensures ReleaseSlot(h, k).inFlight == h.inFlight - 1
  {
    BusyClientCounted(h.slots, k);
    BusyAfterUpdate(h.slots, k, h.slots[k].(inUse := false));
  }

  // --- The pool invariant

  ghost predicate PoolInv(p: Pool, cfg: Config) {
    CursorsOk(p) && forall i {:trigger HostInv(p.hosts[i], cfg)} | 0 <= i < |p.hosts| :: HostInv(p.hosts[i], cfg)
  }

  // What one Acquire turn does, host by host.
  lemma AcquireByHost(p: Pool, now: int)
    requires CursorsOk(p)
    ensures var (q, t) := Acquire(p, now);
            && |q.hosts| == |p.hosts| && q.closing == p.closing && q.closed == p.closed
            && (t.None? ==>
                  && q == p.(hosts := RefreshAll(p.hosts, now))
                  && forall i | 0 <= i < |p.hosts| :: !Available(p.hosts[i], now))
            && (t.Some? ==>
                  var c := t.value.host;
                  var k := t.value.slot;
                  && c < |p.hosts| && Available(p.hosts[c], now)
                  && k < |p.hosts[c].slots| && !p.hosts[c].slots[k].inUse
                  && t.value.generation == p.hosts[c].slots[k].generation + 1
                  && q.hosts[c] == GrantSlot(Refresh(p.hosts[c], now), k)
                  && q.nextHost == Wrap(c + 1, |p.hosts|)
                  && forall i | 0 <= i < |p.hosts| && i != c ::
                       && (q.hosts[i] == p.hosts[i] || q.hosts[i] == Refresh(p.hosts[i], now))
                       && (Available(p.hosts[i], now) ==>
                             Dist(p.nextHost, c, |p.hosts|) <= Dist(p.nextHost, i, |p.hosts|)))
  {
    ChooseFindsHost(p, now);
    if Choose(p, now).Some? {
      var c := Choose(p, now).value;
      NextIdleFindsSlot(Refresh(p.hosts[c], now));
    }
  }

  lemma RefreshKeepsInv(h: Host, cfg: Config, now: int)
    requires ValidConfig(cfg) && HostInv(h, cfg)
    ensures HostInv(Refresh(h, now), cfg)
  {
  }

  lemma ReportsKeepInv(h: Host, cfg: Config, now: int)
    requires ValidConfig(cfg) && HostInv(h, cfg)
    ensures HostInv(Succeed(h, now, cfg), cfg) && HostInv(Fail(h, now, cfg), cfg)
  {
  }

  lemma AcquireKeepsInv(p: Pool, cfg: Config, now: int)
    requires ValidConfig(cfg) && PoolInv(p, cfg)
    ensures PoolInv(Acquire(p, now).0, cfg)
  {
    AcquireByHost(p, now);
    var (q, t) := Acquire(p, now);
    forall i | 0 <= i < |q.hosts|
      ensures HostInv(q.hosts[i], cfg)
    {
      RefreshKeepsInv(p.hosts[i], cfg, now);
      if t.Some? && t.value.host == i {
        GrantKeepsInv(Refresh(p.hosts[i], now), cfg, t.value.slot);
      }
    }
  }

  lemma ApplyKeepsInv(p: Pool, cfg: Config, e: Event)
    requires ValidConfig(cfg) && PoolInv(p, cfg)
    ensures PoolInv(Apply(p, cfg, e).0, cfg)
  {
    match e
    case Take(now) => AcquireKeepsInv(p, cfg, now);
    case Return(t) =>
      if t.host < |p.hosts| && Releasable(p.hosts[t.host], t.slot, t.generation) {
        ReleaseKeepsInv(p.hosts[t.host], cfg, t.slot);
      }
    case ReportSuccess(k, now) =>
      if k < |p.hosts| {
        ReportsKeepInv(p.hosts[k], cfg, now);
      }
    case ReportFailure(k, now) =>
      if k < |p.hosts| {
        ReportsKeepInv(p.hosts[k], cfg, now);
      }
    case Snapshot(now) =>
      forall i | 0 <= i < |p.hosts|
        ensures HostInv(Refresh(p.hosts[i], now), cfg)
      {
        RefreshKeepsInv(p.hosts[i], cfg, now);
      }
  }

  // --- What a lease does to its host

  lemma {:induction false} NoneBusyWhen(slots: seq<Slot>)
    ensures Busy(slots) == 0 <==> forall j | 0 <= j < |slots| :: !slots[j].inUse
  {
    if slots != [] {
      NoneBusyWhen(slots[..|slots| - 1]);
    }
  }

  // A host may serve a lease at a time exactly if it has an idle client and either its
  // circuit is closed, or it is half-open by then and no lease is out.
  lemma AvailableExactlyWhen(h: Host, cfg: Config, now: int)
    requires ValidConfig(cfg) && HostInv(h, cfg)
    ensures Available(h, now) <==>
            && (exists j | 0 <= j < |h.slots| :: !h.slots[j].inUse)
            && match h.circuit
               case Closed => true
               case HalfOpen => forall j | 0 <= j < |h.slots| :: !h.slots[j].inUse
               case Open => h.openUntil.value <= now && forall j | 0 <= j < |h.slots| :: !h.slots[j].inUse
    ensures Refresh(h, now).circuit ==
            if h.circuit == Open && h.openUntil.value <= now then HalfOpen else h.circuit
  {
    NoneBusyWhen(h.slots);
  }

  // The client taken is the idle one nearest to the host's cursor, which moves just
  // past it; it is in use with the next generation, and nothing else of the host
  // changes but its in-flight count and, on a half-open one, the probe flag.
  lemma GrantTouches(p: Pool, cfg: Config, now: int)
    requires ValidConfig(cfg) && PoolInv(p, cfg) && Acquire(p, now).1.Some?
    ensures var (q, t) := Acquire(p, now);
            var c, k := t.value.host, t.value.slot;
            && c < |p.hosts| == |q.hosts| && k < |p.hosts[c].slots| == |q.hosts[c].slots| && p.hosts[c].nextClient < |p.hosts[c].slots|
            && var h, r := Refresh(p.hosts[c], now), q.hosts[c];
               && !h.slots[k].inUse && r.slots[k] == Slot(true, h.slots[k].generation + 1) && t.value.generation == r.slots[k].generation
               && (forall j | 0 <= j < |h.slots| && j != k :: r.slots[j] == h.slots[j])
               && (forall j | 0 <= j < |h.slots| && !h.slots[j].inUse ::
                     Dist(h.nextClient, k, |h.slots|) <= Dist(h.nextClient, j, |h.slots|))
               && r.nextClient == (if k + 1 == |h.slots| then 0 else k + 1)
               && r.inFlight == h.inFlight + 1 && (r.halfOpenInFlight <==> r.circuit == HalfOpen)
               && r == h.(slots := r.slots, nextClient := r.nextClient, inFlight := r.inFlight,
                          halfOpenInFlight := r.halfOpenInFlight)
  {
    AcquireByHost(p, now);
    ChooseFindsHost(p, now);
    var c := Choose(p, now).value;
    assert HostInv(p.hosts[c], cfg);
    NextIdleFindsSlot(Refresh(p.hosts[c], now));
  }

  // A lease returned makes its client idle, with its generation, and ends a probe;
  // nothing else changes.
  lemma ReturnTouches(p: Pool, cfg: Config, t: Ticket)
    requires ValidConfig(cfg) && PoolInv(p, cfg) && Apply(p, cfg, Return(t)).1 == Returned
    ensures var q := Apply(p, cfg, Return(t)).0;
            && t.host < |p.hosts| == |q.hosts| && t.slot < |p.hosts[t.host].slots|
            && p.hosts[t.host].slots[t.slot] == Slot(true, t.generation)
            && var h, r := p.hosts[t.host], q.hosts[t.host];
               && r == h.(slots := h.slots[t.slot := Slot(false, t.generation)], inFlight := h.inFlight - 1, halfOpenInFlight := false)
               && q == p.(hosts := p.hosts[t.host := r])
  {
    assert HostInv(p.hosts[t.host], cfg);
    ReleaseKeepsInv(p.hosts[t.host], cfg, t.slot);
  }

  // A snapshot half-opens every open circuit whose time is up, and changes nothing else
  // but what belongs to that.
  lemma SnapshotTouches(p: Pool, cfg: Config, now: int, i: nat)
    requires ValidConfig(cfg) && PoolInv(p, cfg) && i < |p.hosts|
    ensures var q := Apply(p, cfg, Snapshot(now)).0;
            && |q.hosts| == |p.hosts| && q == p.(hosts := q.hosts)
            && q.hosts[i] == if p.hosts[i].circuit == Open && p.hosts[i].openUntil.Some? && p.hosts[i].openUntil.value <= now
                             then p.hosts[i].(circuit := HalfOpen, halfOpenInFlight := false, consecutiveSuccesses := 0)
                             else p.hosts[i]
  {
    assert HostInv(p.hosts[i], cfg);
  }

  // --- Runs

  // The pool after a sequence of critical sections, in the order the mutex admits them.
  ghost function After(p: Pool, cfg: Config, es: seq<Event>): (q: Pool)
    requires ValidConfig(cfg) && PoolInv(p, cfg)
    ensures PoolInv(q, cfg)
  {
    if es == [] then p
    else
      var mid := After(p, cfg, es[..|es| - 1]);
      ApplyKeepsInv(mid, cfg, es[|es| - 1]);
      Apply(mid, cfg, es[|es| - 1]).0
  }

  // The pool in which event i of a run executes, and what that event answers.
  ghost function Before(p: Pool, cfg: Config, es: seq<Event>, i: nat): Pool
    requires ValidConfig(cfg) && PoolInv(p, cfg) && i <= |es|
  {
    After(p, cfg, es[..i])
  }

  ghost function Answer(p: Pool, cfg: Config, es: seq<Event>, i: nat): Outcome
    requires ValidConfig(cfg) && PoolInv(p, cfg) && i < |es|
  {
    Apply(Before(p, cfg, es, i), cfg, es[i]).1
  }

  lemma BeforeStep(p: Pool, cfg: Config, es: seq<Event>, i: nat)
    requires ValidConfig(cfg) && PoolInv(p, cfg) && i < |es|
    ensures Before(p, cfg, es, i + 1) == Apply(Before(p, cfg, es, i), cfg, es[i]).0
  {
    assert es[..i + 1][..i] == es[..i];
  }

  lemma FreshPoolInv(sizes: seq<nat>, cfg: Config)
    requires ValidConfig(cfg)
    ensures PoolInv(FreshPool(sizes), cfg)
  {
    forall i | 0 <= i < |sizes|
      ensures HostInv(FreshPool(sizes).hosts[i], cfg)
    {
      NoneBusy(FreshHost(sizes[i]).slots);
    }
  }

  // In every reachable state each host's inFlight is its number of busy clients,
  // a half-open probe is the host's only lease, and a closed circuit has not yet
  // seen the failure threshold.
  lemma ReachableInv(sizes: seq<nat>, cfg: Config, es: seq<Event>, k: nat)
    requires ValidConfig(cfg) && k < |sizes|
    ensures PoolInv(FreshPool(sizes), cfg)
    ensures var p := After(FreshPool(sizes), cfg, es);
            && |p.hosts| == |sizes|
            && |p.hosts[k].slots| == sizes[k]
            && p.hosts[k].inFlight == Busy(p.hosts[k].slots)
            && (p.hosts[k].halfOpenInFlight ==> p.hosts[k].circuit == HalfOpen && p.hosts[k].inFlight == 1)
            && (p.hosts[k].circuit == Closed ==> p.hosts[k].consecutiveFailures < cfg.failureThreshold)
  {
    FreshPoolInv(sizes, cfg);
    ShapeKept(FreshPool(sizes), cfg, es);
    assert HostInv(After(FreshPool(sizes), cfg, es).hosts[k], cfg);
  }

  ghost predicate SameShape(p: Pool, q: Pool) {
    && |q.hosts| == |p.hosts|
    && forall i | 0 <= i < |p.hosts| :: |q.hosts[i].slots| == |p.hosts[i].slots|
  }

  lemma ApplyKeepsShape(p: Pool, cfg: Config, e: Event)
    requires CursorsOk(p)
    ensures SameShape(p, Apply(p, cfg, e).0)
  {
    match e
    case Take(now) => AcquireByHost(p, now);
    case Return(t) =>
    case _ => ReportsKeepSlots(p, cfg, e);
  }

  // Reports and snapshots touch no client.
  lemma ReportsKeepSlots(p: Pool, cfg: Config, e: Event)
    requires CursorsOk(p) && !e.Take? && !e.Return?
    ensures |Apply(p, cfg, e).0.hosts| == |p.hosts|
    ensures forall i | 0 <= i < |p.hosts| :: Apply(p, cfg, e).0.hosts[i].slots == p.hosts[i].slots
  {
  }

  lemma {:induction false} ShapeKept(p: Pool, cfg: Config, es: seq<Event>)
    requires ValidConfig(cfg) && PoolInv(p, cfg)
    ensures SameShape(p, After(p, cfg, es))
  {
    if es != [] {
      var n := |es| - 1;
      ShapeKept(p, cfg, es[..n]);
      ApplyKeepsShape(After(p, cfg, es[..n]), cfg, es[n]);
    }
  }

  lemma {:induction false} NeverClosing(p: Pool, cfg: Config, es: seq<Event>)
    requires ValidConfig(cfg) && PoolInv(p, cfg)
    ensures After(p, cfg, es).closing == p.closing && After(p, cfg, es).closed == p.closed
  {
    if es != [] {
      NeverClosing(p, cfg, es[..|es| - 1]);
      if es[|es| - 1].Take? {
        AcquireByHost(After(p, cfg, es[..|es| - 1]), es[|es| - 1].now);
      }
    }
  }

  // --- Leases over a run

  ghost predicate Live(p: Pool, t: Ticket) {
    t.host < |p.hosts| && Releasable(p.hosts[t.host], t.slot, t.generation)
  }

  // t was granted at some time, and is now returned or superseded.
  ghost predicate Spent(p: Pool, t: Ticket) {
    && t.host < |p.hosts| && t.slot < |p.hosts[t.host].slots|
    && t.generation <= p.hosts[t.host].slots[t.slot].generation
    && !Live(p, t)
  }

  lemma ApplyRaisesGenerations(p: Pool, cfg: Config, e: Event, i: nat, k: nat)
    requires CursorsOk(p) && i < |p.hosts| && k < |p.hosts[i].slots|
    ensures SameShape(p, Apply(p, cfg, e).0)
    ensures var s := p.hosts[i].slots[k];
            var s' := Apply(p, cfg, e).0.hosts[i].slots[k];
            && s'.generation >= s.generation
            && (s'.inUse && !s.inUse ==> s'.generation > s.generation)
  {
    match e
    case Take(now) =>
      ApplyKeepsShape(p, cfg, e);
      AcquireByHost(p, now);
    case Return(t) => ReturnKeepsGenerations(p, cfg, t, i, k);
    case _ => ReportsKeepSlots(p, cfg, e);
  }

  lemma ReturnKeepsGenerations(p: Pool, cfg: Config, t: Ticket, i: nat, k: nat)
    requires CursorsOk(p) && i < |p.hosts| && k < |p.hosts[i].slots|
    ensures SameShape(p, Apply(p, cfg, Return(t)).0)
    ensures var s := p.hosts[i].slots[k];
            Apply(p, cfg, Return(t)).0.hosts[i].slots[k] in {s, s.(inUse := false)}
  {
  }

  lemma SpentStaysSpent(p: Pool, cfg: Config, e: Event, t: Ticket)
    requires CursorsOk(p) && Spent(p, t)
    ensures Spent(Apply(p, cfg, e).0, t)
  {
    ApplyRaisesGenerations(p, cfg, e, t.host, t.slot);
    if e.Take? {
      AcquireByHost(p, e.now);
    }
  }

  lemma {:induction false} SpentForever(p: Pool, cfg: Config, es: seq<Event>, t: Ticket)
    requires ValidConfig(cfg) && PoolInv(p, cfg) && Spent(p, t)
    ensures Spent(After(p, cfg, es), t)
  {
    if es != [] {
      var n := |es| - 1;
      SpentForever(p, cfg, es[..n], t);
      SpentStaysSpent(After(p, cfg, es[..n]), cfg, es[n], t);
    }
  }

  // Splitting a run in two.
  lemma {:induction false} AfterConcat(p: Pool, cfg: Config, a: seq<Event>, b: seq<Event>)
    requires ValidConfig(cfg) && PoolInv(p, cfg)
    ensures After(p, cfg, a + b) == After(After(p, cfg, a), cfg, b)
  {
    if b == [] {
      assert a + b == a;
    } else {
      var n := |b| - 1;
      assert (a + b)[..|a + b| - 1] == a + b[..n];
      AfterConcat(p, cfg, a, b[..n]);
    }
  }

  lemma BeforeSplit(p: Pool, cfg: Config, es: seq<Event>, i: nat, j: nat)
    requires ValidConfig(cfg) && PoolInv(p, cfg) && i <= j <= |es|
    ensures Before(p, cfg, es, j) == After(Before(p, cfg, es, i), cfg, es[i..j])
  {
    assert es[..j] == es[..i] + es[i..j];
    AfterConcat(p, cfg, es[..i], es[i..j]);
  }

  lemma {:induction false} GenerationsOnlyRise(p: Pool, cfg: Config, es: seq<Event>, i: nat, k: nat)
    requires ValidConfig(cfg) && PoolInv(p, cfg) && i < |p.hosts| && k < |p.hosts[i].slots|
    ensures SameShape(p, After(p, cfg, es))
    ensures After(p, cfg, es).hosts[i].slots[k].generation >= p.hosts[i].slots[k].generation
  {
    ShapeKept(p, cfg, es);
    if es != [] {
      var n := |es| - 1;
      GenerationsOnlyRise(p, cfg, es[..n], i, k);
      ApplyRaisesGenerations(After(p, cfg, es[..n]), cfg, es[n], i, k);
    }
  }

  // After its grant, a lease's client never falls back to an earlier generation.
  lemma GrantedGenerationBound(p: Pool, cfg: Config, es: seq<Event>, g: nat, j: nat, t: Ticket)
    requires ValidConfig(cfg) && PoolInv(p, cfg) && g < j <= |es|
    requires Answer(p, cfg, es, g) == Granted(t)
    ensures var q := Before(p, cfg, es, j);
            && t.host < |q.hosts| && t.slot < |q.hosts[t.host].slots|
            && t.generation <= q.hosts[t.host].slots[t.slot].generation
  {
    BeforeStep(p, cfg, es, g);
    AcquireByHost(Before(p, cfg, es, g), es[g].now);
    BeforeSplit(p, cfg, es, g + 1, j);
    GenerationsOnlyRise(Before(p, cfg, es, g + 1), cfg, es[g + 1..j], t.host, t.slot);
  }

  // Once a granted lease is spent, every later release of it fails and changes nothing.
  lemma SpentReleaseFails(p: Pool, cfg: Config, es: seq<Event>, i: nat, j: nat, t: Ticket)
    requires ValidConfig(cfg) && PoolInv(p, cfg) && i <= j < |es|
    requires Spent(Before(p, cfg, es, i), t) && es[j] == Return(t)
    ensures Answer(p, cfg, es, j) == LeaseReleased
    ensures Before(p, cfg, es, j + 1) == Before(p, cfg, es, j)
  {
    BeforeSplit(p, cfg, es, i, j);
    SpentForever(Before(p, cfg, es, i), cfg, es[i..j], t);
    BeforeStep(p, cfg, es, j);
  }

  // A second release of the same lease fails and changes nothing, whatever
  // happened in between (the client may have been leased again).
  lemma SecondReleaseFails(p: Pool, cfg: Config, es: seq<Event>, g: nat, i: nat, j: nat, t: Ticket)
    requires ValidConfig(cfg) && PoolInv(p, cfg) && g < i < j < |es|
    requires Answer(p, cfg, es, g) == Granted(t)
    requires es[i] == Return(t) && es[j] == Return(t)
    ensures Answer(p, cfg, es, j) == LeaseReleased
    ensures Before(p, cfg, es, j + 1) == Before(p, cfg, es, j)
  {
    GrantedGenerationBound(p, cfg, es, g, i, t);
    ReturnedReleaseFails(p, cfg, es, i, j, t);
  }

  lemma ReturnSpends(p: Pool, cfg: Config, t: Ticket)
    requires CursorsOk(p) && t.host < |p.hosts| && t.slot < |p.hosts[t.host].slots|
    requires t.generation <= p.hosts[t.host].slots[t.slot].generation
    ensures Spent(Apply(p, cfg, Return(t)).0, t)
  {
  }

  lemma ReturnedReleaseFails(p: Pool, cfg: Config, es: seq<Event>, i: nat, j: nat, t: Ticket)
    requires ValidConfig(cfg) && PoolInv(p, cfg) && i < j < |es|
    requires es[i] == Return(t) && es[j] == Return(t)
    requires var q := Before(p, cfg, es, i);
             && t.host < |q.hosts| && t.slot < |q.hosts[t.host].slots|
             && t.generation <= q.hosts[t.host].slots[t.slot].generation
    ensures Answer(p, cfg, es, j) == LeaseReleased
    ensures Before(p, cfg, es, j + 1) == Before(p, cfg, es, j)
  {
    BeforeStep(p, cfg, es, i);
    ReturnSpends(Before(p, cfg, es, i), cfg, t);
    SpentReleaseFails(p, cfg, es, i + 1, j, t);
  }

  lemma GrantSupersedes(p: Pool, cfg: Config, e: Event, t: Ticket, u: Ticket)
    requires CursorsOk(p) && Apply(p, cfg, e).1 == Granted(u)
    requires u.host == t.host < |p.hosts| && u.slot == t.slot < |p.hosts[t.host].slots|
    requires t.generation <= p.hosts[t.host].slots[t.slot].generation
    ensures Spent(Apply(p, cfg, e).0, t)
  {
    AcquireByHost(p, e.now);
  }

  // A lease whose client has been granted again is stale: releasing it fails
  // and changes nothing, so it never returns the newer lease.
  lemma StaleReleaseFails(p: Pool, cfg: Config, es: seq<Event>, g: nat, h: nat, j: nat, t: Ticket, u: Ticket)
    requires ValidConfig(cfg) && PoolInv(p, cfg) && g < h < j < |es|
    requires Answer(p, cfg, es, g) == Granted(t) && Answer(p, cfg, es, h) == Granted(u)
    requires u.host == t.host && u.slot == t.slot && es[j] == Return(t)
    ensures Answer(p, cfg, es, j) == LeaseReleased
    ensures Before(p, cfg, es, j + 1) == Before(p, cfg, es, j)
  {
    GrantedGenerationBound(p, cfg, es, g, h, t);
    SupersededReleaseFails(p, cfg, es, h, j, t, u);
  }

  lemma SupersededReleaseFails(p: Pool, cfg: Config, es: seq<Event>, h: nat, j: nat, t: Ticket, u: Ticket)
    requires ValidConfig(cfg) && PoolInv(p, cfg) && h < j < |es|
    requires Answer(p, cfg, es, h) == Granted(u) && u.host == t.host && u.slot == t.slot && es[j] == Return(t)
    requires var q := Before(p, cfg, es, h);
             && t.host < |q.hosts| && t.slot < |q.hosts[t.host].slots|
             && t.generation <= q.hosts[t.host].slots[t.slot].generation
    ensures Answer(p, cfg, es, j) == LeaseReleased
    ensures Before(p, cfg, es, j + 1) == Before(p, cfg, es, j)
  {
    BeforeStep(p, cfg, es, h);
    GrantSupersedes(Before(p, cfg, es, h), cfg, es[h], t, u);
    SpentReleaseFails(p, cfg, es, h + 1, j, t);
  }

  // No two grants of a run hand out the same lease.
  lemma GrantsAreDistinct(p: Pool, cfg: Config, es: seq<Event>, i: nat, j: nat)
    requires ValidConfig(cfg) && PoolInv(p, cfg) && i < j < |es|
    requires Answer(p, cfg, es, i).Granted? && Answer(p, cfg, es, j).Granted?
    ensures Answer(p, cfg, es, i) != Answer(p, cfg, es, j)
  {
    GrantedGenerationBound(p, cfg, es, i, j, Answer(p, cfg, es, i).ticket);
    AcquireByHost(Before(p, cfg, es, j), es[j].now);
  }

  // At most one lease of a client can be released at any moment.
  lemma OneLiveLeasePerClient(p: Pool, t: Ticket, u: Ticket)
    requires Live(p, t) && Live(p, u) && t.host == u.host && t.slot == u.slot
    ensures t == u
  {
  }

  // --- Conservation

  ghost function TotalInFlight(hosts: seq<Host>): int {
    if hosts == [] then 0 else TotalInFlight(hosts[..|hosts| - 1]) + hosts[|hosts| - 1].inFlight
  }

  ghost function TotalIdle(hosts: seq<Host>): nat {
    if hosts == [] then 0 else TotalIdle(hosts[..|hosts| - 1]) + Idle(hosts[|hosts| - 1].slots)
  }

  ghost function TotalClients(hosts: seq<Host>): nat {
    if hosts == [] then 0 else TotalClients(hosts[..|hosts| - 1]) + |hosts[|hosts| - 1].slots|
  }

  lemma {:induction false} IdleOrBusy(slots: seq<Slot>)
    ensures Idle(slots) + Busy(slots) == |slots|
  {
    if slots != [] {
      IdleOrBusy(slots[..|slots| - 1]);
    }
  }

  // The totals of a health view add up: every client is idle or leased.
  lemma {:induction false} TotalsAddUp(hosts: seq<Host>, cfg: Config)
    requires forall i | 0 <= i < |hosts| :: HostInv(hosts[i], cfg)
    ensures TotalClients(hosts) == TotalIdle(hosts) + TotalInFlight(hosts)
  {
    if hosts != [] {
      TotalsAddUp(hosts[..|hosts| - 1], cfg);
      IdleOrBusy(hosts[|hosts| - 1].slots);
    }
  }

  lemma {:induction false} TotalAfterUpdate(hosts: seq<Host>, k: nat, h: Host)
    requires k < |hosts|
    ensures TotalInFlight(hosts[k := h]) == TotalInFlight(hosts) - hosts[k].inFlight + h.inFlight
  {
    var n := |hosts| - 1;
    if k == n {
      assert hosts[k := h][..n] == hosts[..n];
    } else {
      assert hosts[k := h][..n] == hosts[..n][k := h];
      TotalAfterUpdate(hosts[..n], k, h);
    }
  }

  lemma {:induction false} TotalSame(a: seq<Host>, b: seq<Host>)
    requires |a| == |b| && forall i | 0 <= i < |a| :: a[i].inFlight == b[i].inFlight
    ensures TotalInFlight(a) == TotalInFlight(b)
  {
    if a != [] {
      TotalSame(a[..|a| - 1], b[..|b| - 1]);
    }
  }

  function Weight(o: Outcome): int {
    match o
    case Granted(_) => 1
    case Returned => -1
    case _ => 0
  }

  ghost function NetLeases(p: Pool, cfg: Config, es: seq<Event>): int
    requires ValidConfig(cfg) && PoolInv(p, cfg)
  {
    if es == [] then 0
    else NetLeases(p, cfg, es[..|es| - 1]) + Weight(Answer(p, cfg, es, |es| - 1))
  }

  lemma TotalOneMore(a: seq<Host>, b: seq<Host>, k: nat)
    requires k < |a| == |b| && b[k].inFlight == a[k].inFlight + 1
    requires forall i | 0 <= i < |a| && i != k :: a[i].inFlight == b[i].inFlight
    ensures TotalInFlight(b) == TotalInFlight(a) + 1
  {
    TotalAfterUpdate(b, k, a[k]);
    TotalSame(a, b[k := a[k]]);
  }

  lemma AcquireMovesTotal(p: Pool, now: int)
    requires CursorsOk(p)
    ensures TotalInFlight(Acquire(p, now).0.hosts)
         == TotalInFlight(p.hosts) + (if Acquire(p, now).1.Some? then 1 else 0)
  {
    AcquireByHost(p, now);
    var (q, t) := Acquire(p, now);
    if t.None? {
      TotalSame(p.hosts, q.hosts);
    } else {
      TotalOneMore(p.hosts, q.hosts, t.value.host);
    }
  }

  lemma ReturnMovesTotal(p: Pool, cfg: Config, t: Ticket)
    requires ValidConfig(cfg) && PoolInv(p, cfg)
    ensures TotalInFlight(Apply(p, cfg, Return(t)).0.hosts) == TotalInFlight(p.hosts) + Weight(Apply(p, cfg, Return(t)).1)
  {
    if Live(p, t) {
      ReleaseKeepsInv(p.hosts[t.host], cfg, t.slot);
      TotalAfterUpdate(p.hosts, t.host, ReleaseSlot(p.hosts[t.host], t.slot));
    }
  }

  lemma ReportMovesNothing(p: Pool, cfg: Config, k: nat, now: int)
    requires k < |p.hosts|
    ensures TotalInFlight(p.hosts[k := Succeed(p.hosts[k], now, cfg)]) == TotalInFlight(p.hosts)
    ensures TotalInFlight(p.hosts[k := Fail(p.hosts[k], now, cfg)]) == TotalInFlight(p.hosts)
  {
    TotalAfterUpdate(p.hosts, k, Succeed(p.hosts[k], now, cfg));
    TotalAfterUpdate(p.hosts, k, Fail(p.hosts[k], now, cfg));
  }

  lemma ApplyMovesTotal(p: Pool, cfg: Config, e: Event)
    requires ValidConfig(cfg) && PoolInv(p, cfg)
    ensures TotalInFlight(Apply(p, cfg, e).0.hosts) == TotalInFlight(p.hosts) + Weight(Apply(p, cfg, e).1)
  {
    match e
    case Take(now) => AcquireMovesTotal(p, now);
    case Return(t) => ReturnMovesTotal(p, cfg, t);
    case ReportSuccess(k, now) =>
      if k < |p.hosts| {
        ReportMovesNothing(p, cfg, k, now);
      }
    case ReportFailure(k, now) =>
      if k < |p.hosts| {
        ReportMovesNothing(p, cfg, k, now);
      }
    case Snapshot(now) => TotalSame(p.hosts, RefreshAll(p.hosts, now));
  }

  // Leases are conserved: over any run, leases in flight at the end are those in
  // flight at the start, plus grants, minus successful releases.
  lemma {:induction false} LeasesConserved(p: Pool, cfg: Config, es: seq<Event>)
    requires ValidConfig(cfg) && PoolInv(p, cfg)
    ensures TotalInFlight(After(p, cfg, es).hosts) == TotalInFlight(p.hosts) + NetLeases(p, cfg, es)
  {
    if es != [] {
      var n := |es| - 1;
      LeasesConserved(p, cfg, es[..n]);
      ApplyMovesTotal(After(p, cfg, es[..n]), cfg, es[n]);
    }
  }

  // --- The half-open probe

  // t is its host's only outstanding lease, and the circuit is not closed.
  ghost predicate Probing(p: Pool, t: Ticket) {
    && Live(p, t)
    && p.hosts[t.host].circuit != Closed
    && Busy(p.hosts[t.host].slots) == 1
  }

  lemma ProbeTake(p: Pool, cfg: Config, now: int, t: Ticket)
    requires PoolInv(p, cfg) && Probing(p, t)
    ensures Probing(Acquire(p, now).0, t)
  {
    assert HostInv(p.hosts[t.host], cfg);
    AcquireByHost(p, now);
  }

  lemma ProbeReturn(p: Pool, cfg: Config, u: Ticket, t: Ticket)
    requires PoolInv(p, cfg) && Probing(p, t)
    ensures var q := Apply(p, cfg, Return(u)).0;
            Live(q, t) ==> Probing(q, t)
  {
    if Live(p, u) && u.host == t.host {
      OnlyBusyClient(p.hosts[t.host].slots, t.slot, u.slot);
    }
  }

  lemma ProbeStep(p: Pool, cfg: Config, e: Event, t: Ticket)
    requires ValidConfig(cfg) && PoolInv(p, cfg) && Probing(p, t)
    ensures var q := Apply(p, cfg, e).0;
            Live(q, t) && q.hosts[t.host].circuit != Closed ==> Probing(q, t)
  {
    match e
    case Take(now) => ProbeTake(p, cfg, now, t);
    case Return(u) => ProbeReturn(p, cfg, u, t);
    case ReportSuccess(k, now) =>
    case ReportFailure(k, now) =>
    case Snapshot(now) =>
  }

  // t can be released, and its host's circuit is not closed.
  ghost predicate Pending(p: Pool, t: Ticket) {
    Live(p, t) && p.hosts[t.host].circuit != Closed
  }

  lemma {:induction false} ProbeRun(p: Pool, cfg: Config, es: seq<Event>, i: nat, j: nat, t: Ticket)
    requires ValidConfig(cfg) && PoolInv(p, cfg) && i <= j <= |es|
    requires Probing(Before(p, cfg, es, i), t)
    requires forall n | i <= n <= j :: Pending(Before(p, cfg, es, n), t)
    ensures Probing(Before(p, cfg, es, j), t)
    decreases j
  {
    if i < j {
      ProbeRun(p, cfg, es, i, j - 1, t);
      assert Pending(Before(p, cfg, es, j), t);
      ProbeNext(p, cfg, es, j - 1, t);
    }
  }

  lemma ProbeNext(p: Pool, cfg: Config, es: seq<Event>, j: nat, t: Ticket)
    requires ValidConfig(cfg) && PoolInv(p, cfg) && j < |es|
    requires Probing(Before(p, cfg, es, j), t) && Pending(Before(p, cfg, es, j + 1), t)
    ensures Probing(Before(p, cfg, es, j + 1), t)
  {
    BeforeStep(p, cfg, es, j);
    ProbeStep(Before(p, cfg, es, j), cfg, es[j], t);
  }

  lemma ProbeStarts(p: Pool, cfg: Config, es: seq<Event>, g: nat, t: Ticket)
    requires ValidConfig(cfg) && PoolInv(p, cfg) && g < |es|
    requires Answer(p, cfg, es, g) == Granted(t) && t.host < |Before(p, cfg, es, g).hosts|
    requires Refresh(Before(p, cfg, es, g).hosts[t.host], es[g].now).circuit == HalfOpen
    requires Pending(Before(p, cfg, es, g + 1), t)
    ensures Probing(Before(p, cfg, es, g + 1), t)
  {
    BeforeStep(p, cfg, es, g);
    GrantedFromHalfOpen(Before(p, cfg, es, g), cfg, es[g].now, t);
  }

  lemma GrantedFromHalfOpen(p: Pool, cfg: Config, now: int, t: Ticket)
    requires ValidConfig(cfg) && PoolInv(p, cfg) && Acquire(p, now).1 == Some(t) && t.host < |p.hosts|
    requires Refresh(p.hosts[t.host], now).circuit == HalfOpen && Pending(Acquire(p, now).0, t)
    ensures Probing(Acquire(p, now).0, t)
  {
    AcquireByHost(p, now);
    AcquireKeepsInv(p, cfg, now);
    assert HostInv(p.hosts[t.host], cfg) && HostInv(Acquire(p, now).0.hosts[t.host], cfg);
  }

  // A lease granted from a half-open host stays that host's only outstanding
  // lease until it is released or the circuit closes, whatever other callers
  // report, release, snapshot or acquire in between.
  lemma ProbeIsExclusive(p: Pool, cfg: Config, es: seq<Event>, g: nat, j: nat, t: Ticket, u: Ticket)
    requires ValidConfig(cfg) && PoolInv(p, cfg) && g < j <= |es|
    requires Answer(p, cfg, es, g) == Granted(t) && t.host < |Before(p, cfg, es, g).hosts|
    requires Refresh(Before(p, cfg, es, g).hosts[t.host], es[g].now).circuit == HalfOpen
    requires forall n | g < n <= j :: Pending(Before(p, cfg, es, n), t)
    ensures var q := Before(p, cfg, es, j);
            && Live(q, t) && q.hosts[t.host].inFlight == 1
            && (Live(q, u) && u.host == t.host ==> u == t)
  {
    ProbeStarts(p, cfg, es, g, t);
    ProbeRun(p, cfg, es, g + 1, j, t);
    var q := Before(p, cfg, es, j);
    assert HostInv(q.hosts[t.host], cfg);
    if Live(q, u) && u.host == t.host {
      OnlyBusyClient(q.hosts[t.host].slots, t.slot, u.slot);
    }
  }
}
