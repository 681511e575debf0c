// The leased client pool as values: what every mutex-held section of
// internal/source/pool.go does to the pool's state. SourcePool's classes are
// proved against these functions; the laws are in the modules PoolLaws,
// PoolFairness, Breaker and PoolDrain.
module PoolModel {
  import opened Wrappers
  import opened Ring

  datatype Circuit = Closed | Open | HalfOpen

  datatype Config = Config(failureThreshold: int, halfOpenThreshold: int, openTimeout: int)

  // NewPool replaces zero settings by positive defaults and refuses negative ones.
  ghost predicate ValidConfig(cfg: Config) {
    cfg.failureThreshold > 0 && cfg.halfOpenThreshold > 0 && cfg.openTimeout > 0
  }

  datatype Slot = Slot(inUse: bool, generation: nat)

  // The zero time of the source is None.
  datatype Host = Host(
    slots: seq<Slot>,
    nextClient: nat,
    inFlight: int,
    circuit: Circuit,
    halfOpenInFlight: bool,
    successCount: nat,
    failureCount: nat,
    consecutiveFailures: nat,
    consecutiveSuccesses: nat,
    openedAt: Option<int>,
    openUntil: Option<int>)

  // What a host remembers of its reports for the health view alone.
  datatype Notes = Notes(lastError: string, lastFailureAt: Option<int>, lastSuccessAt: Option<int>)

  datatype Pool = Pool(hosts: seq<Host>, nextHost: nat, closing: bool, closed: bool)

  // A lease: the client it names, and the client's generation when it was granted.
  datatype Ticket = Ticket(host: nat, slot: nat, generation: nat)

  // --- Circuit helpers of one host

  function Refresh(h: Host, now: int): Host {
    if h.circuit != Open || h.openUntil.None? || now < h.openUntil.value then h
    else h.(circuit := HalfOpen, halfOpenInFlight := false, consecutiveSuccesses := 0)
  }

  function Trip(h: Host, now: int, timeout: int): Host {
    h.(circuit := Open, halfOpenInFlight := false, consecutiveSuccesses := 0,
    openedAt := Some(now), openUntil := Some(now + timeout))
  }

  function Reset(h: Host): Host {
    h.(circuit := Closed, halfOpenInFlight := false, consecutiveFailures := 0, consecutiveSuccesses := 0,
    openedAt := None, openUntil := None)
  }

  predicate CanAcquire(h: Host) {
    && |h.slots| > 0
    && match h.circuit
       case Closed => true
       case HalfOpen => !h.halfOpenInFlight && h.inFlight == 0
       case Open => false
  }

  // --- Idle clients of one host

  function IdleFlags(slots: seq<Slot>): seq<bool> {
    seq(|slots|, i requires 0 <= i < |slots| => !slots[i].inUse)
  }

  predicate HasIdle(h: Host) {
    exists i | 0 <= i < |h.slots| :: !h.slots[i].inUse
  }

  function NextIdle(h: Host): Option<nat>
    requires CursorOk(h)
  {
    Scan(IdleFlags(h.slots), h.nextClient)
  }

  // The client scan fails only on a fully busy host, and otherwise picks the idle
  // client nearest to the cursor.
  lemma NextIdleFindsSlot(h: Host)
    requires CursorOk(h)
    ensures NextIdle(h).Some? <==> HasIdle(h)
    ensures NextIdle(h).Some? ==>
              var k := NextIdle(h).value;
              && k < |h.slots| && !h.slots[k].inUse
              && forall j | 0 <= j < |h.slots| && !h.slots[j].inUse ::
                   Dist(h.nextClient, k, |h.slots|) <= Dist(h.nextClient, j, |h.slots|)
  {
    var ok := IdleFlags(h.slots);
    ScanFindsNearest(ok, h.nextClient);
    assert HasIdle(h) <==> exists i | 0 <= i < |ok| :: ok[i] by {
      if HasIdle(h) {
        var i :| 0 <= i < |h.slots| && !h.slots[i].inUse;
        assert ok[i];
      }
    }
    forall j | 0 <= j < |h.slots| && !h.slots[j].inUse && NextIdle(h).Some?
      ensures Dist(h.nextClient, NextIdle(h).value, |h.slots|) <= Dist(h.nextClient, j, |h.slots|)
    {
      assert ok[j];
    }
  }

  predicate CursorOk(h: Host) {
    |h.slots| == 0 || h.nextClient < |h.slots|
  }

  function Busy(slots: seq<Slot>): nat {
    if slots == [] then 0
    else Busy(slots[..|slots| - 1]) + (if slots[|slots| - 1].inUse then 1 else 0)
  }

  function Idle(slots: seq<Slot>): nat {
    if slots == [] then 0
    else Idle(slots[..|slots| - 1]) + (if slots[|slots| - 1].inUse then 0 else 1)
  }

  // --- One lease taken from, or returned to, a host

  function GrantSlot(h: Host, k: nat): Host
    requires k < |h.slots|
  {
    h.(nextClient := Wrap(k + 1, |h.slots|),
    slots := h.slots[k := Slot(true, h.slots[k].generation + 1)],
    inFlight := h.inFlight + 1,
    halfOpenInFlight := h.halfOpenInFlight || h.circuit == HalfOpen)
  }

  predicate Releasable(h: Host, k: nat, generation: nat) {
    k < |h.slots| && h.slots[k].inUse && h.slots[k].generation == generation
  }

  function ReleaseSlot(h: Host, k: nat): Host
    requires k < |h.slots|
  {
    h.(slots := h.slots[k := h.slots[k].(inUse := false)],
    inFlight := if h.inFlight - 1 < 0 then 0 else h.inFlight - 1,
    halfOpenInFlight := h.halfOpenInFlight && h.circuit != HalfOpen)
  }

  // --- Health reports

  function Succeed(h: Host, now: int, cfg: Config): Host {
    var r := Refresh(h, now).(successCount := h.successCount + 1, consecutiveFailures := 0);
    match r.circuit
    case HalfOpen =>
      var q := r.(halfOpenInFlight := false, consecutiveSuccesses := r.consecutiveSuccesses + 1);
      if q.consecutiveSuccesses >= cfg.halfOpenThreshold then Reset(q) else q
    case Closed => r.(consecutiveSuccesses := 0)
    case Open => r
  }

  function Fail(h: Host, now: int, cfg: Config): Host {
    var r := Refresh(h, now);
    var q := r.(failureCount := r.failureCount + 1, consecutiveFailures := r.consecutiveFailures + 1,
    consecutiveSuccesses := 0, halfOpenInFlight := false);
    if q.circuit != Closed || q.consecutiveFailures >= cfg.failureThreshold
    then Trip(q, now, cfg.openTimeout) else q
  }

  // --- The scan over hosts

  ghost predicate CursorsOk(p: Pool) {
    && (|p.hosts| == 0 || p.nextHost < |p.hosts|)
    && forall i | 0 <= i < |p.hosts| :: CursorOk(p.hosts[i])
  }

  predicate Available(h: Host, now: int) {
    CanAcquire(Refresh(h, now)) && HasIdle(h)
  }

  function AvailableFlags(hosts: seq<Host>, now: int): seq<bool> {
    seq(|hosts|, i requires 0 <= i < |hosts| => Available(hosts[i], now))
  }

  // The host the scan settles on, if any.
  function Choose(p: Pool, now: int): Option<nat>
    requires |p.hosts| == 0 || p.nextHost < |p.hosts|
  {
    Scan(AvailableFlags(p.hosts, now), p.nextHost)
  }

  // The host scan fails only if no host is available, and otherwise picks the
  // available host nearest to the cursor.
  lemma ChooseFindsHost(p: Pool, now: int)
    requires |p.hosts| == 0 || p.nextHost < |p.hosts|
    ensures Choose(p, now).None? <==> forall k | 0 <= k < |p.hosts| :: !Available(p.hosts[k], now)
    ensures Choose(p, now).Some? ==>
              var c := Choose(p, now).value;
              && c < |p.hosts| && Available(p.hosts[c], now)
              && forall k | 0 <= k < |p.hosts| && Available(p.hosts[k], now) ::
                   Dist(p.nextHost, c, |p.hosts|) <= Dist(p.nextHost, k, |p.hosts|)
  {
    var ok := AvailableFlags(p.hosts, now);
    ScanFindsNearest(ok, p.nextHost);
    assert forall k | 0 <= k < |ok| :: ok[k] == Available(p.hosts[k], now);
  }

  // A scan half-opens the due circuits of the hosts it looks at, and of no others.
  function RefreshFirst(p: Pool, now: int, steps: nat): seq<Host>
    requires |p.hosts| == 0 || p.nextHost < |p.hosts|
  {
    seq(|p.hosts|, i requires 0 <= i < |p.hosts| =>
      if Dist(p.nextHost, i, |p.hosts|) < steps then Refresh(p.hosts[i], now) else p.hosts[i])
  }

  function RefreshAll(hosts: seq<Host>, now: int): seq<Host> {
    seq(|hosts|, i requires 0 <= i < |hosts| => Refresh(hosts[i], now))
  }

  // One turn of Acquire's loop past the closing check: the pool afterwards, and
  // the lease if a client was found.
  ghost function Acquire(p: Pool, now: int): (Pool, Option<Ticket>)
    requires CursorsOk(p)
  {
    match Choose(p, now)
    case None => (p.(hosts := RefreshAll(p.hosts, now)), None)
    case Some(c) =>
      ChooseFindsHost(p, now);
      var n := |p.hosts|;
      var seen := RefreshFirst(p, now, Dist(p.nextHost, c, n) + 1);
      NextIdleFindsSlot(seen[c]);
      var k := NextIdle(seen[c]).value;
      (p.(hosts := seen[c := GrantSlot(seen[c], k)], nextHost := Wrap(c + 1, n)),
       Some(Ticket(c, k, seen[c].slots[k].generation + 1)))
  }

  // The scan one host at a time, as the loop runs it.
  function Probe(h: Host, now: int): (Host, Option<nat>)
    requires CursorOk(h)
  {
    var r := Refresh(h, now);
    if CanAcquire(r) && NextIdle(r).Some?
    then
      NextIdleFindsSlot(r);
      (r.(nextClient := Wrap(NextIdle(r).value + 1, |r.slots|)), NextIdle(r))
    else (r, None)
  }

  // --- The wake-up time computed after a failed scan

  predicate Waiting(h: Host) {
    h.circuit == Open && h.openUntil.Some? && HasIdle(h)
  }

  function NextWakeFrom(hosts: seq<Host>, i: nat, now: int, wake: Option<int>): Option<int>
    requires i <= |hosts|
    decreases |hosts| - i
  {
    if i == |hosts| then wake
    else if !Waiting(hosts[i]) then NextWakeFrom(hosts, i + 1, now, wake)
    else if hosts[i].openUntil.value <= now then Some(now)
    else if wake.None? || hosts[i].openUntil.value < wake.value
    then NextWakeFrom(hosts, i + 1, now, hosts[i].openUntil)
    else NextWakeFrom(hosts, i + 1, now, wake)
  }

  function NextWake(hosts: seq<Host>, now: int): Option<int> {
    NextWakeFrom(hosts, 0, now, None)
  }

  // --- Whole-pool steps

  // One mutex-held section that a caller can run.
  datatype Event =
    | Take(now: int)
    | Return(ticket: Ticket)
    | ReportSuccess(host: nat, now: int)
    | ReportFailure(host: nat, now: int)
    | Snapshot(now: int)

  datatype Outcome =
    | Granted(ticket: Ticket)
    | NothingIdle
    | PoolClosed
    | Returned
    | LeaseReleased
    | InvalidLease
    | Recorded
    | UnknownHost

  ghost function Apply(p: Pool, cfg: Config, e: Event): (Pool, Outcome)
    requires CursorsOk(p)
  {
    match e
    case Take(now) =>
      if p.closed || p.closing then (p, PoolClosed)
      else
        var (q, t) := Acquire(p, now);
        (q, if t.Some? then Granted(t.value) else NothingIdle)
    case Return(t) =>
      if t.host >= |p.hosts| || t.slot >= |p.hosts[t.host].slots| then (p, InvalidLease)
      else if !Releasable(p.hosts[t.host], t.slot, t.generation) then (p, LeaseReleased)
      else (p.(hosts := p.hosts[t.host := ReleaseSlot(p.hosts[t.host], t.slot)]), Returned)
    case ReportSuccess(k, now) =>
      if k >= |p.hosts| then (p, UnknownHost)
      else (p.(hosts := p.hosts[k := Succeed(p.hosts[k], now, cfg)]), Recorded)
    case ReportFailure(k, now) =>
      if k >= |p.hosts| then (p, UnknownHost)
      else (p.(hosts := p.hosts[k := Fail(p.hosts[k], now, cfg)]), Recorded)
    case Snapshot(now) => (p.(hosts := RefreshAll(p.hosts, now)), Recorded)
  }

  // --- Fresh pools

  function FreshHost(clients: nat): Host {
    Host(seq(clients, i => Slot(false, 0)), 0, 0, Closed, false, 0, 0, 0, 0, None, None)
  }

  function FreshPool(sizes: seq<nat>): Pool {
    Pool(seq(|sizes|, i requires 0 <= i < |sizes| => FreshHost(sizes[i])), 0, false, false)
  }
}
