// The pool's objects, updated in place as internal/source/pool.go updates them.
// Each method is one mutex-held section (or a helper that runs inside one), and
// is proved against the function of PoolModel it implements.
module SourcePool {
  import opened Wrappers
  import opened Ring
  import M = PoolModel
  import L = PoolLaws
  import D = PoolDrain

  class HostPool<T> {
    const address: string
    const clients: seq<T>         // the vendor clients, in creation order
    var slots: seq<M.Slot>        // inUse and generation of each
    var nextClient: nat
    var inFlight: int
    var circuit: M.Circuit
    var halfOpenInFlight: bool
    var successCount: nat
    var failureCount: nat
    var consecutiveFailures: nat
    var consecutiveSuccesses: nat
    var lastError: string
    var lastFailureAt: Option<int>
    var lastSuccessAt: Option<int>
    var openedAt: Option<int>
    var openUntil: Option<int>

    constructor (address: string, clients: seq<T>)
      ensures this.address == address && this.clients == clients
      ensures Valid() && View() == M.FreshHost(|clients|) && Notes() == M.Notes("", None, None)
    {
      this.address := address;
      this.clients := clients;
      slots := seq(|clients|, i => M.Slot(false, 0));
      nextClient, inFlight := 0, 0;
      circuit, halfOpenInFlight := M.Closed, false;
      successCount, failureCount, consecutiveFailures, consecutiveSuccesses := 0, 0, 0, 0;
      lastError, lastFailureAt, lastSuccessAt := "", None, None;
      openedAt, openUntil := None, None;
    }

    ghost predicate Valid()
      reads this
    {
      |slots| == |clients| && (|clients| == 0 || nextClient < |clients|)
    }

    function View(): M.Host
      reads this
    {
      M.Host(slots, nextClient, inFlight, circuit, halfOpenInFlight, successCount, failureCount,
             consecutiveFailures, consecutiveSuccesses, openedAt, openUntil)
    }

    // What a host remembers for its health view only: nothing is decided by it.
    function Notes(): M.Notes
      reads this
    {
      M.Notes(lastError, lastFailureAt, lastSuccessAt)
    }

    method RefreshCircuit(now: int)
      modifies `circuit, `halfOpenInFlight, `consecutiveSuccesses
      ensures View() == M.Refresh(old(View()), now)
    {
      if circuit != M.Open || openUntil.None? || now < openUntil.value {
        return;
      }
      circuit := M.HalfOpen;
      halfOpenInFlight := false;
      consecutiveSuccesses := 0;
    }

    method OpenCircuit(now: int, timeout: int)
      modifies `circuit, `halfOpenInFlight, `consecutiveSuccesses, `openedAt, `openUntil
      ensures View() == M.Trip(old(View()), now, timeout)
    {
      circuit := M.Open;
      halfOpenInFlight := false;
      consecutiveSuccesses := 0;
      openedAt := Some(now);
      openUntil := Some(now + timeout);
    }

    method CloseCircuit()
      modifies `circuit, `halfOpenInFlight, `consecutiveFailures, `consecutiveSuccesses, `openedAt, `openUntil
      ensures View() == M.Reset(old(View()))
    {
      circuit := M.Closed;
      halfOpenInFlight := false;
      consecutiveFailures := 0;
      consecutiveSuccesses := 0;
      openedAt := None;
      openUntil := None;
    }

    // The number of idle clients, which the wake-up and the health snapshot use.
    method IdleClients() returns (idle: nat)
      ensures idle == M.Idle(slots)
      ensures idle > 0 <==> M.HasIdle(View())
    {
      idle := 0;
      for i := 0 to |slots|
        invariant idle == M.Idle(slots[..i])
        invariant idle > 0 <==> exists j | 0 <= j < i :: !slots[j].inUse
      {
        assert slots[..i + 1][..i] == slots[..i];
        if !slots[i].inUse {
          idle := idle + 1;
        }
      }
      assert slots[..|slots|] == slots;
    }

    // The client scan of NextIdleClient: round robin from the cursor on.
    method FindIdle() returns (k: Option<nat>)
      requires Valid()
      ensures k == M.NextIdle(View())
    {
      M.NextIdleFindsSlot(View());
      var n := |slots|;
      for i := 0 to n
        invariant forall j | 0 <= j < n && Dist(nextClient, j, n) < i :: slots[j].inUse
      {
        var index := Lap(nextClient + i, n);
        if !slots[index].inUse {
          return Some(index);
        }
      }
      k := None;
    }

    method NextIdleClient() returns (k: Option<nat>)
      requires Valid()
      modifies `nextClient
      ensures Valid() && M.NextIdle(old(View())) == k
      ensures k.None? ==> nextClient == old(nextClient)
      ensures k.Some? ==> k.value < |slots| && nextClient == Wrap(k.value + 1, |slots|)
    {
      k := FindIdle();
      M.NextIdleFindsSlot(View());
      if k.Some? {
        nextClient := Lap(k.value + 1, |slots|);
      }
    }

    method CountSuccess(noted: int)
      modifies `successCount, `consecutiveFailures, `lastError, `lastSuccessAt
      ensures View() == old(View()).(successCount := old(successCount) + 1, consecutiveFailures := 0)
      ensures Notes() == M.Notes("", old(lastFailureAt), Some(noted))
    {
      successCount := successCount + 1;
      consecutiveFailures := 0;
      lastError := "";
      lastSuccessAt := Some(noted);
    }

    method CountFailure(error: Option<string>, now: int)
      modifies `failureCount, `consecutiveFailures, `consecutiveSuccesses, `halfOpenInFlight, `lastError, `lastFailureAt
      ensures View() == old(View()).(failureCount := old(failureCount) + 1,
                                     consecutiveFailures := old(consecutiveFailures) + 1,
                                     consecutiveSuccesses := 0, halfOpenInFlight := false)
      ensures Notes() == M.Notes(if error.Some? then error.value else "", Some(now), old(lastSuccessAt))
    {
      failureCount := failureCount + 1;
      consecutiveFailures := consecutiveFailures + 1;
      consecutiveSuccesses := 0;
      halfOpenInFlight := false;
      lastFailureAt := Some(now);
      lastError := "";
      if error.Some? {
        lastError := error.value;
      }
    }

    // The clock is read again for the time noted.
    method RecordSuccess(now: int, noted: int, cfg: M.Config)
      modifies this
      ensures View() == M.Succeed(old(View()), now, cfg)
      ensures Notes() == M.Notes("", old(lastFailureAt), Some(noted))
    {
      RefreshCircuit(now);
      CountSuccess(noted);
      if circuit == M.HalfOpen {
        halfOpenInFlight := false;
        consecutiveSuccesses := consecutiveSuccesses + 1;
        if consecutiveSuccesses >= cfg.halfOpenThreshold {
          CloseCircuit();
        }
      } else if circuit == M.Closed {
        consecutiveSuccesses := 0;
      }
    }

    method RecordFailure(error: Option<string>, now: int, cfg: M.Config)
      modifies this
      ensures View() == M.Fail(old(View()), now, cfg)
      ensures Notes() == M.Notes(if error.Some? then error.value else "", Some(now), old(lastSuccessAt))
    {
      RefreshCircuit(now);
      CountFailure(error, now);
      if circuit != M.Closed || consecutiveFailures >= cfg.failureThreshold {
        OpenCircuit(now, cfg.openTimeout);
      }
    }

    // Marks client k as leased.
    method GrantClient(k: nat)
      requires k < |slots|
      modifies `slots, `inFlight, `halfOpenInFlight
      ensures View() == Granted(old(View()), k)
    {
      slots := slots[k := M.Slot(true, slots[k].generation + 1)];
      inFlight := inFlight + 1;
      if circuit == M.HalfOpen {
        halfOpenInFlight := true;
      }
    }

    // Takes client k back.
    method ReleaseClient(k: nat)
      requires k < |slots|
      modifies `slots, `inFlight, `halfOpenInFlight
      ensures View() == M.ReleaseSlot(old(View()), k)
    {
      slots := slots[k := slots[k].(inUse := false)];
      inFlight := inFlight - 1;
      if inFlight < 0 {
        inFlight := 0;
      }
      if circuit == M.HalfOpen {
        halfOpenInFlight := false;
      }
    }

    // The host's part of a health view.
    method State() returns (state: HostState)
      requires Valid()
      ensures state == StateOf(address, View(), Notes())
    {
      var idle := IdleClients();
      state := HostState(address, circuit, M.CanAcquire(View()), |clients|, idle, inFlight, successCount, failureCount,
                         consecutiveFailures, consecutiveSuccesses, lastError, lastFailureAt, lastSuccessAt,
                         openedAt, openUntil);
    }

    // One turn of the host scan: half-opens the circuit if it is due, and looks
    // for an idle client if the host may serve one.
    method Probe(now: int) returns (k: Option<nat>)
      requires Valid()
      modifies `circuit, `halfOpenInFlight, `consecutiveSuccesses, `nextClient
      ensures Valid() && (View(), k) == M.Probe(old(View()), now)
      ensures k.Some? ==> k.value < |slots|
    {
      RefreshCircuit(now);
      k := None;
      if M.CanAcquire(View()) {
        k := NextIdleClient();
      }
    }
  }

  datatype HostState = HostState(
    address: string, circuit: M.Circuit, healthy: bool, totalClients: nat, idleClients: nat, inFlight: int,
    successCount: nat, failureCount: nat, consecutiveFailures: nat, consecutiveSuccesses: nat,
    lastError: string, lastFailureAt: Option<int>, lastSuccessAt: Option<int>,
    openedAt: Option<int>, openUntil: Option<int>)

  datatype HealthView = HealthView(
    closing: bool, closed: bool, totalClients: nat, idleClients: nat, inFlight: int, hosts: seq<HostState>)

  function StateOf(address: string, h: M.Host, n: M.Notes): HostState {
    HostState(address, h.circuit, M.CanAcquire(h), |h.slots|, M.Idle(h.slots), h.inFlight, h.successCount, h.failureCount,
              h.consecutiveFailures, h.consecutiveSuccesses, n.lastError, n.lastFailureAt, n.lastSuccessAt,
              h.openedAt, h.openUntil)
  }

  // A host is shown healthy exactly if it has clients and its circuit is closed, or
  // half-open with no lease out; and its clients are those idle and those leased.
  lemma HealthMeaning(address: string, h: M.Host, n: M.Notes, cfg: M.Config)
    requires M.ValidConfig(cfg) && L.HostInv(h, cfg)
    ensures var s := StateOf(address, h, n);
            && s.address == address && s.circuit == h.circuit && s.inFlight == h.inFlight
            && s.totalClients == |h.slots| == s.idleClients + s.inFlight
            && (s.healthy <==> h.slots != [] && (h.circuit == M.Closed
                                                 || (h.circuit == M.HalfOpen && forall j | 0 <= j < |h.slots| :: !h.slots[j].inUse)))
            && s.successCount == h.successCount && s.failureCount == h.failureCount
            && s.consecutiveFailures == h.consecutiveFailures && s.consecutiveSuccesses == h.consecutiveSuccesses
            && s.lastError == n.lastError && s.lastFailureAt == n.lastFailureAt && s.lastSuccessAt == n.lastSuccessAt
            && s.openedAt == h.openedAt && s.openUntil == h.openUntil
  {
    L.IdleOrBusy(h.slots);
    L.NoneBusyWhen(h.slots);
  }

  // What the caller holds. Its fields are private to the package: a lease that
  // names a pool was granted by it.
  datatype Lease<T> = Lease(client: Option<T>, pool: Pool?<T>, host: HostPool?<T>, slot: nat, generation: nat)

  datatype Turn<T> =
    | Leased(lease: Lease<T>)
    | PoolIsClosed
    | ContextIsDone
    | MustWait(wake: Option<int>)

  // Settings as the caller gives them; zero means the default.
  datatype Settings = Settings(
    hosts: seq<(string, int)>,      // address and number of clients
    clientsPerHost: int,
    minReadyClients: int,
    failureThreshold: int,
    halfOpenSuccessThreshold: int,
    openTimeout: int)

  const DEFAULT_CLIENTS_PER_HOST := 1
  const DEFAULT_FAILURE_THRESHOLD := 3
  const DEFAULT_HALF_OPEN_THRESHOLD := 1
  const DEFAULT_OPEN_TIMEOUT := 30_000_000_000      // 30 seconds in nanoseconds

  datatype BuildError =
    | BadSettings
    | ContextEnded
    | AddressRequired(index: nat)
    | DuplicateAddress(index: nat)
    | NegativeClients(index: nat)
    | FactoryFailed(host: nat, client: nat)
    | TooFewReady(ready: nat)

  function OrDefault(x: int, default: int): int {
    if x == 0 then default else x
  }

  // A setting is used as given, unless it is zero.
  predicate Settles(given: int, default: int, used: int) {
    used > 0 && (given != 0 ==> used == given) && (given == 0 ==> used == default)
  }

  function Normalize(s: Settings): (r: Result<(nat, M.Config), BuildError>)
    ensures r.Success? <==>
              && s.hosts != [] && s.minReadyClients >= 0 && s.clientsPerHost >= 0
              && s.failureThreshold >= 0 && s.halfOpenSuccessThreshold >= 0 && s.openTimeout >= 0
    ensures r.Success? ==>
              var (perHost, cfg) := r.value;
              && M.ValidConfig(cfg)
              && Settles(s.clientsPerHost, DEFAULT_CLIENTS_PER_HOST, perHost)
              && Settles(s.failureThreshold, DEFAULT_FAILURE_THRESHOLD, cfg.failureThreshold)
              && Settles(s.halfOpenSuccessThreshold, DEFAULT_HALF_OPEN_THRESHOLD, cfg.halfOpenThreshold)
              && Settles(s.openTimeout, DEFAULT_OPEN_TIMEOUT, cfg.openTimeout)
  {
    var perHost := OrDefault(s.clientsPerHost, DEFAULT_CLIENTS_PER_HOST);
    var cfg := M.Config(OrDefault(s.failureThreshold, DEFAULT_FAILURE_THRESHOLD),
                        OrDefault(s.halfOpenSuccessThreshold, DEFAULT_HALF_OPEN_THRESHOLD),
                        OrDefault(s.openTimeout, DEFAULT_OPEN_TIMEOUT));
    if s.minReadyClients < 0 || s.hosts == [] || perHost < 0
       || cfg.failureThreshold < 0 || cfg.halfOpenThreshold < 0 || cfg.openTimeout < 0
    then Failure(BadSettings)
    else Success((perHost, cfg))
  }

  function HostSize(i: nat, address: string, count: int, perHost: nat, taken: set<string>): (r: Result<nat, BuildError>)
    ensures r.Success? <==> address != "" && address !in taken && count >= 0
    ensures r.Success? ==> r.value == OrDefault(count, perHost)
    ensures r == Failure(AddressRequired(i)) <==> address == ""
    ensures r == Failure(DuplicateAddress(i)) <==> address != "" && address in taken
    ensures r == Failure(NegativeClients(i)) <==> address != "" && address !in taken && count < 0
  {
    if address == "" then Failure(AddressRequired(i))
    else if address in taken then Failure(DuplicateAddress(i))
    else if count < 0 then Failure(NegativeClients(i))
    else Success(OrDefault(count, perHost))
  }

  // How a Close call goes on after its first section, and after one turn of the drain.
  datatype CloseStart = AlreadyClosed(err: seq<int>) | WaitForOwner | OwnDrain

  datatype DrainTurn<T> = HandedOff | StillBusy | Drained(clients: seq<T>)

  class Pool<T> {
    const cfg: M.Config
    const hosts: seq<HostPool<T>>
    const hostIndex: map<string, HostPool<T>>
    var nextHost: nat
    var closing: bool
    var closeRunning: bool
    var closed: bool
    var closeErr: seq<int>

    constructor (cfg: M.Config, hosts: seq<HostPool<T>>, hostIndex: map<string, HostPool<T>>, ghost wanted: seq<(string, int)>)
      requires Indexed(hosts, hostIndex, wanted)
      ensures Valid() && View() == M.FreshPool(Sizes(hosts))
      ensures this.cfg == cfg && this.hosts == hosts && this.hostIndex == hostIndex
      ensures nextHost == 0 && !closing && !closeRunning && !closed && closeErr == []
    {
      this.cfg, this.hosts, this.hostIndex := cfg, hosts, hostIndex;
      nextHost, closing, closeRunning, closed, closeErr := 0, false, false, false, [];
    }

    // The clients of one host. A client made just before the context ended is not
    // kept, but is handed back to be closed. `made` logs what the factory yields.
    static method MakeClients(host: nat, wanted: nat, factory: (nat, nat) -> Option<T>, checks: nat, skipFailures: bool)
      returns (clients: seq<T>, error: Option<BuildError>, spare: Option<T>, live: nat, ghost made: seq<T>)
      ensures made == clients + Listing(spare) && (spare.Some? ==> error == Some(ContextEnded))
      ensures error.None? ==> clients == Yield(factory, host, wanted) && (!skipFailures ==> |clients| == wanted)
      ensures error.None? ==> checks == live + 2 * wanted
      ensures error == Some(ContextEnded) ==> checks < 2 * wanted
      ensures error.Some? && error != Some(ContextEnded) ==>
                error.value.FactoryFailed? && error.value.host == host && factory(host, error.value.client).None? && !skipFailures
    {
      clients, error, spare, live, made := [], None, None, checks, [];
      for j := 0 to wanted
        invariant error.None? && spare.None? && made == clients && checks == live + 2 * j
        invariant clients == Yield(factory, host, j) && (!skipFailures ==> |clients| == j)
      {
        if live == 0 {
          return clients, Some(ContextEnded), None, live, made;
        }
        live := live - 1;
        var client := factory(host, j);
        made := made + Listing(client);
        if live == 0 {
          return clients, Some(ContextEnded), client, live, made;
        }
        live := live - 1;
        if client.None? {
          if skipFailures {
            continue;
          }
          return clients, Some(FactoryFailed(host, j)), None, live, made;
        }
        clients := clients + [client.value];
      }
    }

    // The first n clients of a host, without those that cannot be made.
    static function Yield(factory: (nat, nat) -> Option<T>, host: nat, n: nat): seq<T> {
      if n == 0 then [] else Yield(factory, host, n - 1) + Listing(factory(host, n - 1))
    }

    // Where none fails, the factory's clients are taken in order.
    static lemma {:induction false} YieldByIndex(factory: (nat, nat) -> Option<T>, host: nat, n: nat)
      requires forall j: nat | j < n :: factory(host, j).Some?
      ensures |Yield(factory, host, n)| == n
      ensures forall j | 0 <= j < n :: factory(host, j) == Some(Yield(factory, host, n)[j])
    {
      if n > 0 {
        YieldByIndex(factory, host, n - 1);
      }
    }

    // How often the context is looked at for the first n hosts.
    static function Looks(settings: Settings, perHost: nat, n: nat): nat
      requires n <= |settings.hosts|
    {
      if n == 0 then 0
      else
        var wanted := OrDefault(settings.hosts[n - 1].1, perHost);
        Looks(settings, perHost, n - 1) + 1 + if wanted > 0 then 2 * wanted else 0
    }

    static lemma {:induction false} LooksAddUp(settings: Settings, perHost: nat, i: nat, n: nat)
      requires i <= n <= |settings.hosts|
      ensures Looks(settings, perHost, i) <= Looks(settings, perHost, n)
    {
      if i < n {
        LooksAddUp(settings, perHost, i, n - 1);
      }
    }

    // What an error of the construction says is so.
    static ghost predicate IsCause(error: BuildError, settings: Settings, perHost: nat, factory: (nat, nat) -> Option<T>, checks: nat) {
      match error
      case BadSettings => false
      case ContextEnded => checks <= Looks(settings, perHost, |settings.hosts|)
      case AddressRequired(i) => i < |settings.hosts| && settings.hosts[i].0 == ""
      case DuplicateAddress(i) =>
        i < |settings.hosts| && exists j | 0 <= j < i :: settings.hosts[j].0 == settings.hosts[i].0
      case NegativeClients(i) => i < |settings.hosts| && settings.hosts[i].1 < 0
      case FactoryFailed(i, j) => factory(i, j).None? && settings.minReadyClients <= 0
      case TooFewReady(n) => n < settings.minReadyClients
    }

    // A host's clients are those the factory yields for the number given or else the
    // default; all of them, where no client may be skipped.
    static ghost predicate Staffed(settings: Settings, perHost: nat, factory: (nat, nat) -> Option<T>, i: nat, clients: seq<T>)
      requires i < |settings.hosts|
    {
      var wanted := OrDefault(settings.hosts[i].1, perHost);
      wanted >= 0 && clients == Yield(factory, i, wanted) && (settings.minReadyClients <= 0 ==> |clients| == wanted)
    }

    static ghost function Addresses(settings: Settings, n: nat): set<string>
      requires n <= |settings.hosts|
    {
      set j | 0 <= j < n :: settings.hosts[j].0
    }

    static ghost predicate DistinctAddresses(settings: Settings, n: nat)
      requires n <= |settings.hosts|
    {
      forall j, k | 0 <= j < k < n :: settings.hosts[j].0 != settings.hosts[k].0
    }

    static lemma OneMoreAddress(settings: Settings, i: nat)
      requires i < |settings.hosts| && DistinctAddresses(settings, i) && settings.hosts[i].0 !in Addresses(settings, i)
      ensures DistinctAddresses(settings, i + 1)
      ensures Addresses(settings, i + 1) == Addresses(settings, i) + {settings.hosts[i].0}
    {
      assert forall j | 0 <= j < i :: settings.hosts[j].0 in Addresses(settings, i);
    }

    // One host: its clients, kept even when something fails. `taken` are the addresses
    // of the hosts before it.
    static method GatherHost(settings: Settings, perHost: nat, factory: (nat, nat) -> Option<T>, i: nat, live: nat,
                             taken: set<string>, ghost checks: nat)
      returns (clients: seq<T>, error: Option<BuildError>, spare: Option<T>, left: nat, ghost made: seq<T>)
      requires i < |settings.hosts| && taken == Addresses(settings, i) && checks == live + Looks(settings, perHost, i)
      ensures made == clients + Listing(spare)
      ensures error.None? ==>
                && spare.None? && settings.hosts[i].0 !in taken && Staffed(settings, perHost, factory, i, clients)
                && checks == left + Looks(settings, perHost, i + 1)
      ensures error.Some? ==> IsCause(error.value, settings, perHost, factory, checks)
    {
      var (address, count) := settings.hosts[i];
      LooksAddUp(settings, perHost, i + 1, |settings.hosts|);
      if live == 0 {
        return [], Some(ContextEnded), None, 0, [];
      }
      var wanted := HostSize(i, address, count, perHost, taken);
      if wanted.Failure? {
        return [], Some(wanted.error), None, live - 1, [];
      }
      clients, error, spare, left, made := MakeClients(i, wanted.value, factory, live - 1, settings.minReadyClients > 0);
    }

    // The clients of every host, made in order until something fails, when those of
    // the last host may be incomplete. `created` logs what the factory yields.
    static method Gather(settings: Settings, perHost: nat, factory: (nat, nat) -> Option<T>, checks: nat)
      returns (groups: seq<seq<T>>, error: Option<BuildError>, spare: Option<T>, ghost created: seq<T>)
      ensures created == Flat(groups) + Listing(spare)
      ensures error.None? ==> |groups| == |settings.hosts| && spare.None?
      ensures error.None? && settings.minReadyClients > 0 ==> |created| >= settings.minReadyClients
      ensures error.None? ==> DistinctAddresses(settings, |settings.hosts|)
      ensures error.None? ==> forall i | 0 <= i < |groups| :: Staffed(settings, perHost, factory, i, groups[i])
      ensures error.Some? ==> IsCause(error.value, settings, perHost, factory, checks)
    {
      groups, error, spare, created := [], None, None, [];
      var live: nat := checks;
      var taken: set<string> := {};
      for i := 0 to |settings.hosts|
        invariant error.None? && spare.None? && |groups| == i && created == Flat(groups)
        invariant taken == Addresses(settings, i) && checks == live + Looks(settings, perHost, i)
        invariant forall j | 0 <= j < i :: Staffed(settings, perHost, factory, j, groups[j])
        invariant DistinctAddresses(settings, i)
      {
        var clients;
        ghost var made;
        clients, error, spare, live, made := GatherHost(settings, perHost, factory, i, live, taken, checks);
        FlatGrows(groups, clients);
        groups := groups + [clients];
        created := created + made;
        if error.Some? {
          return;
        }
        OneMoreAddress(settings, i);
        taken := taken + {settings.hosts[i].0};
      }
      if live == 0 {
        return groups, Some(ContextEnded), None, created;
      }
      var ready := CountReady(groups);
      if settings.minReadyClients > 0 && ready < settings.minReadyClients {
        error := Some(TooFewReady(ready));
      }
    }

    static method CountReady(groups: seq<seq<T>>) returns (total: nat)
      ensures total == |Flat(groups)|
    {
      total := 0;
      for i := 0 to |groups|
        invariant total == |Flat(groups[..i])|
      {
        assert groups[..i + 1] == groups[..i] + [groups[i]];
        FlatGrows(groups[..i], groups[i]);
        total := total + |groups[i]|;
      }
      assert groups[..|groups|] == groups;
    }

    // closeInitializedClients: calls the close hook of every client kept so far.
    static method CloseInitialized(groups: seq<seq<T>>) returns (hooks: seq<T>)
      ensures hooks == Flat(groups)
    {
      hooks := [];
      for i := 0 to |groups|
        invariant hooks == Flat(groups[..i])
      {
        assert groups[..i + 1] == groups[..i] + [groups[i]];
        FlatGrows(groups[..i], groups[i]);
        for j := 0 to |groups[i]|
          invariant hooks == Flat(groups[..i]) + groups[i][..j]
        {
          hooks := hooks + [groups[i][j]];
        }
      }
      assert groups[..|groups|] == groups;
    }

    static function Listing(client: Option<T>): seq<T> {
      if client.Some? then [client.value] else []
    }

    static lemma FlatGrows(groups: seq<seq<T>>, group: seq<T>)
      ensures Flat(groups + [group]) == Flat(groups) + group
    {
      assert (groups + [group])[..|groups|] == groups;
    }

    static function Flat(groups: seq<seq<T>>): seq<T> {
      if groups == [] then [] else Flat(groups[..|groups| - 1]) + groups[|groups| - 1]
    }

    // Creates all configured clients eagerly. `factory` yields the client for a host
    // and index, or None if it cannot be made; the context passes `checks` of the
    // places that look at it, and has ended from then on. `hooks` are the clients
    // closed on the way out, in order; `created` logs what the factory yields.
    static method NewPool(settings: Settings, factory: (nat, nat) -> Option<T>, checks: nat)
      returns (r: Result<Pool<T>, BuildError>, hooks: seq<T>, ghost created: seq<T>)
      ensures r.Failure? ==> hooks == created
      ensures r == Failure(BadSettings) <==> Normalize(settings).Failure?
      ensures r.Failure? && Normalize(settings).Success? ==>
                IsCause(r.error, settings, Normalize(settings).value.0, factory, checks)
      ensures r.Success? ==>
                var p := r.value;
                && fresh(p) && fresh(p.hosts) && p.Valid() && hooks == []
                && Normalize(settings).Success? && p.cfg == Normalize(settings).value.1
                && |p.hosts| == |settings.hosts| > 0
                && (forall i | 0 <= i < |p.hosts| :: p.hosts[i].address == settings.hosts[i].0)
                && (forall i | 0 <= i < |p.hosts| ::
                      Staffed(settings, Normalize(settings).value.0, factory, i, p.hosts[i].clients))
                && p.View() == M.FreshPool(Sizes(p.hosts))
                && created == Joined(p.hosts)
                && (settings.minReadyClients > 0 ==> |created| >= settings.minReadyClients)
    {
      hooks, created := [], [];
      var normal := Normalize(settings);
      if normal.Failure? {
        return Failure(normal.error), hooks, created;
      }
      var groups, error, spare;
      groups, error, spare, created := Gather(settings, normal.value.0, factory, checks);
      if error.Some? {
        hooks := CloseInitialized(groups);
        if spare.Some? {
          hooks := hooks + [spare.value];
        }
        return Failure(error.value), hooks, created;
      }
      var hosts, index := Assemble(settings.hosts, groups);
      var p := new Pool(normal.value.1, hosts, index, settings.hosts);
      r := Success(p);
    }

    static method Assemble(wanted: seq<(string, int)>, groups: seq<seq<T>>)
      returns (hosts: seq<HostPool<T>>, index: map<string, HostPool<T>>)
      requires |groups| == |wanted|
      requires forall i, j | 0 <= i < j < |wanted| :: wanted[i].0 != wanted[j].0
      ensures fresh(hosts) && Indexed(hosts, index, wanted) && Joined(hosts) == Flat(groups)
      ensures forall j | 0 <= j < |hosts| :: hosts[j].clients == groups[j]
    {
      hosts := MakeHosts(wanted, groups);
      index := map[];
      for i := 0 to |hosts|
        invariant forall j | 0 <= j < i :: hosts[j].address in index && index[hosts[j].address] == hosts[j]
        invariant forall a | a in index :: index[a] in hosts && index[a].address == a
      {
        index := index[hosts[i].address := hosts[i]];
      }
    }

    static method MakeHosts(wanted: seq<(string, int)>, groups: seq<seq<T>>) returns (hosts: seq<HostPool<T>>)
      requires |groups| == |wanted|
      ensures fresh(hosts) && |hosts| == |wanted| && ValidHosts(hosts) && Joined(hosts) == Flat(groups)
      ensures forall j | 0 <= j < |hosts| :: hosts[j].address == wanted[j].0 && hosts[j].clients == groups[j]
      ensures forall j | 0 <= j < |hosts| :: hosts[j].View() == M.FreshHost(|hosts[j].clients|)
    {
      hosts := [];
      for i := 0 to |wanted|
        invariant |hosts| == i
        invariant forall j | 0 <= j < i :: fresh(hosts[j])
        invariant forall j | 0 <= j < i :: hosts[j].address == wanted[j].0 && hosts[j].clients == groups[j]
        invariant forall j | 0 <= j < i :: hosts[j].View() == M.FreshHost(|groups[j]|)
        invariant forall j, k | 0 <= j < k < i :: hosts[j] != hosts[k]
      {
        var host := new HostPool(wanted[i].0, groups[i]);
        hosts := hosts + [host];
      }
      JoinedIsFlat(hosts, groups);
    }

    static lemma {:induction false} JoinedIsFlat(hosts: seq<HostPool<T>>, groups: seq<seq<T>>)
      requires |hosts| == |groups| && forall j | 0 <= j < |hosts| :: hosts[j].clients == groups[j]
      ensures Joined(hosts) == Flat(groups)
    {
      if hosts != [] {
        JoinedIsFlat(hosts[..|hosts| - 1], groups[..|hosts| - 1]);
      }
    }

    static ghost predicate Indexed(hosts: seq<HostPool<T>>, index: map<string, HostPool<T>>, wanted: seq<(string, int)>)
      reads hosts
    {
      && |hosts| == |wanted| && ValidHosts(hosts)
      && (forall j | 0 <= j < |hosts| :: hosts[j].address == wanted[j].0)
      && (forall j | 0 <= j < |hosts| :: hosts[j].View() == M.FreshHost(|hosts[j].clients|))
      && (forall j | 0 <= j < |hosts| :: hosts[j].address in index && index[hosts[j].address] == hosts[j])
      && (forall a | a in index :: index[a] in hosts && index[a].address == a)
    }

    static function Sizes(hosts: seq<HostPool<T>>): seq<nat> {
      seq(|hosts|, i requires 0 <= i < |hosts| => |hosts[i].clients|)
    }

    // The clients of all hosts, in order.
    static function Joined(hosts: seq<HostPool<T>>): seq<T> {
      if hosts == [] then [] else Joined(hosts[..|hosts| - 1]) + hosts[|hosts| - 1].clients
    }

    static ghost predicate ValidHosts(hosts: seq<HostPool<T>>)
      reads hosts
    {
      (forall i | 0 <= i < |hosts| :: hosts[i].Valid()) && Apart(hosts)
    }

    static ghost predicate Apart(hosts: seq<HostPool<T>>) {
      forall i, j | 0 <= i < j < |hosts| :: hosts[i] != hosts[j]
    }

    // The index finds every host by its address, and nothing else.
    ghost predicate IndexFinds() {
      && (forall i | 0 <= i < |hosts| :: hosts[i].address in hostIndex && hostIndex[hosts[i].address] == hosts[i])
      && (forall a | a in hostIndex :: hostIndex[a] in hosts && hostIndex[a].address == a)
    }

    ghost predicate Valid()
      reads this, hosts
    {
      ValidHosts(hosts) && (|hosts| == 0 || nextHost < |hosts|) && IndexFinds()
    }

    static function ViewsOf(hosts: seq<HostPool<T>>): seq<M.Host>
      reads hosts
    {
      seq(|hosts|, i requires 0 <= i < |hosts| reads hosts => hosts[i].View())
    }

    function View(): M.Pool
      reads this, hosts
    {
      M.Pool(ViewsOf(hosts), nextHost, closing, closed)
    }

    method ProbeHost(c: nat, now: int) returns (k: Option<nat>)
      requires ValidHosts(hosts) && c < |hosts|
      modifies (hosts[c] as HostPool<T>)`circuit, (hosts[c] as HostPool<T>)`halfOpenInFlight
      modifies (hosts[c] as HostPool<T>)`consecutiveSuccesses, (hosts[c] as HostPool<T>)`nextClient
      ensures ValidHosts(hosts) && M.CursorOk(old(ViewsOf(hosts)[c]))
      ensures ViewsOf(hosts) == old(ViewsOf(hosts))[c := M.Probe(old(ViewsOf(hosts)[c]), now).0]
      ensures k == M.Probe(old(ViewsOf(hosts)[c]), now).1
      ensures k.Some? ==> k.value < |hosts[c].slots|
    {
      k := hosts[c].Probe(now);
    }

    // The scan of pool p, i turns on, has found nothing and half-opened the due
    // circuits of the hosts it passed.
    ghost predicate Scanning(p: M.Pool, now: int, i: nat)
      reads this, hosts
    {
      && ValidHosts(hosts) && M.CursorsOk(p) && p.nextHost == nextHost
      && i <= |hosts| == |p.hosts| && PassedOver(p, now, i) && ViewsOf(hosts) == M.RefreshFirst(p, now, i)
    }

    // Turn i of the host scan.
    method ScanTurn(i: nat, now: int, ghost p: M.Pool) returns (c: nat, k: Option<nat>)
      requires i < |hosts| && Scanning(p, now, i)
      modifies hosts`circuit, hosts`halfOpenInFlight, hosts`consecutiveSuccesses, hosts`nextClient
      ensures k.None? ==> Scanning(p, now, i + 1)
      ensures k.Some? ==> ValidHosts(hosts) && Found(p, now, ViewsOf(hosts), Some((c, k.value)))
      ensures k.Some? ==> c < |hosts| && k.value < |hosts[c].slots|
    {
      TurnProbesHost(p, now, i);
      c := Lap(nextHost + i, |hosts|);
      k := ProbeHost(c, now);
    }

    // The scan of NextAvailable: round robin over the hosts, from the cursor on,
    // half-opening due circuits on the way.
    method ScanHosts(now: int) returns (c: nat, k: Option<nat>)
      requires Valid()
      modifies hosts`circuit, hosts`halfOpenInFlight, hosts`consecutiveSuccesses, hosts`nextClient
      ensures ValidHosts(hosts) && M.CursorsOk(old(View()))
      ensures Found(old(View()), now, ViewsOf(hosts), if k.Some? then Some((c, k.value)) else None)
      ensures k.Some? ==> c < |hosts| && k.value < |hosts[c].slots|
    {
      ghost var p := View();
      CursorsOfView();
      ScanStarts(p, now);
      c, k := 0, None;
      var i := 0;
      while i < |hosts|
        invariant 0 <= i <= |hosts| && k.None? && Scanning(p, now, i)
      {
        c, k := ScanTurn(i, now, p);
        if k.Some? {
          return;
        }
        i := i + 1;
      }
      ScanEnds(p, now);
    }

    lemma CursorsOfView()
      requires Valid()
      ensures M.CursorsOk(View())
    {
      assert forall i | 0 <= i < |hosts| :: M.CursorOk(hosts[i].View());
    }

    // Moves both cursors past the client the scan settles on.
    method NextAvailable(now: int) returns (c: nat, k: Option<nat>)
      requires Valid()
      modifies `nextHost, hosts`circuit, hosts`halfOpenInFlight, hosts`consecutiveSuccesses, hosts`nextClient
      ensures Valid() && M.CursorsOk(old(View()))
      ensures ScannedTo(old(View()), View(), now, c, k)
      ensures k.Some? ==> c < |hosts| && k.value < |hosts[c].slots|
    {
      c, k := ScanHosts(now);
      if k.Some? {
        nextHost := Lap(c + 1, |hosts|);
      }
    }

    // Marks client k of host c as leased.
    method Grant(c: nat, k: nat) returns (lease: Lease<T>, ghost t: M.Ticket)
      requires Valid() && c < |hosts| && k < |hosts[c].slots|
      modifies (hosts[c] as HostPool<T>)`slots, (hosts[c] as HostPool<T>)`inFlight
      modifies (hosts[c] as HostPool<T>)`halfOpenInFlight
      ensures Valid() && Holds(lease, t)
      ensures t == M.Ticket(c, k, old(hosts[c].slots[k].generation) + 1)
      ensures View() == old(View()).(hosts := old(View()).hosts[c := Granted(old(hosts[c].View()), k)])
    {
      var host := hosts[c];
      ghost var q := View();
      host.GrantClient(k);
      t := M.Ticket(c, k, host.slots[k].generation);
      lease := Lease(Some(host.clients[k]), this, host, k, host.slots[k].generation);
      assert View() == q.(hosts := q.hosts[c := host.View()]);
    }

    // One turn of Acquire's loop, for a caller whose context may have ended. When it
    // must wait, the wake-up time is computed from the hosts as the scan left them.
    method TryAcquire(ended: bool, now: int) returns (turn: Turn<T>, ghost t: M.Ticket)
      requires Valid()
      modifies `nextHost, hosts`circuit, hosts`halfOpenInFlight, hosts`consecutiveSuccesses, hosts`nextClient
      modifies hosts`slots, hosts`inFlight
      ensures Valid() && M.CursorsOk(old(View()))
      ensures turn.ContextIsDone? <==> ended && !closed && !closing
      ensures if turn.ContextIsDone? then View() == old(View())
              else (View(), OutcomeOf(turn, t)) == M.Apply(old(View()), cfg, M.Take(now))
      ensures turn.Leased? ==> Holds(turn.lease, t)
      ensures turn.MustWait? ==> turn.wake == M.NextWake(View().hosts, now)
    {
      t := M.Ticket(0, 0, 0);
      ghost var p := View();
      CursorsOfView();
      if closed || closing {
        return PoolIsClosed, t;
      }
      if ended {
        return ContextIsDone, t;
      }
      var c, k := NextAvailable(now);
      ScanIsAcquire(p, View(), now, c, k);
      if k.Some? {
        var lease;
        lease, t := Grant(c, k.value);
        return Leased(lease), t;
      }
      var wake := NextWake(now);
      turn := MustWait(wake);
    }

    ghost predicate Holds(l: Lease<T>, t: M.Ticket)
      reads this, hosts
    {
      && l.pool == this && t.host < |hosts| && l.host == hosts[t.host] && l.slot == t.slot && l.generation == t.generation
      && t.slot < |hosts[t.host].clients| && l.client == Some(hosts[t.host].clients[t.slot])
    }

    method NextWake(now: int) returns (wake: Option<int>)
      requires Valid()
      ensures wake == M.NextWake(View().hosts, now)
    {
      wake := None;
      ghost var views := View().hosts;
      for i := 0 to |hosts|
        invariant M.NextWakeFrom(views, i, now, wake) == M.NextWake(views, now)
      {
        var host := hosts[i];
        assert host.View() == views[i];
        var idle := host.IdleClients();
        if host.circuit != M.Open || host.openUntil.None? || idle == 0 {
          continue;
        }
        if host.openUntil.value <= now {
          return Some(now);
        }
        if wake.None? || host.openUntil.value < wake.value {
          wake := host.openUntil;
        }
      }
    }

    method Release(lease: Lease<T>, ghost t: M.Ticket) returns (o: M.Outcome)
      requires Valid() && M.CursorsOk(View())
      requires lease.pool == this && lease.client.Some? ==> Holds(lease, t)
      modifies hosts`slots, hosts`inFlight, hosts`halfOpenInFlight
      ensures Valid()
      ensures lease.pool != this || lease.client.None? ==> o == M.InvalidLease && View() == old(View())
      ensures lease.pool == this && lease.client.Some? ==> (View(), o) == M.Apply(old(View()), cfg, M.Return(t))
    {
      if lease.pool != this || lease.client.None? {
        return M.InvalidLease;
      }
      var host := lease.host;
      var slot := host.slots[lease.slot];
      if !slot.inUse || slot.generation != lease.generation {
        return M.LeaseReleased;
      }
      ghost var q := View();
      host.ReleaseClient(lease.slot);
      assert View() == q.(hosts := q.hosts[t.host := host.View()]);
      o := M.Returned;
    }

    ghost function HostOf(address: string): nat
      requires Valid()
      reads this, hosts
    {
      if address in hostIndex then
        var i :| 0 <= i < |hosts| && hosts[i] == hostIndex[address];
        i
      else |hosts|
    }

    static function NotesOf(hosts: seq<HostPool<T>>): seq<M.Notes>
      reads hosts
    {
      seq(|hosts|, i requires 0 <= i < |hosts| reads hosts => hosts[i].Notes())
    }

    method ReportSuccess(address: string, now: int, noted: int) returns (o: M.Outcome)
      requires Valid() && M.CursorsOk(View())
      modifies hosts
      ensures Valid()
      ensures (View(), o) == M.Apply(old(View()), cfg, M.ReportSuccess(old(HostOf(address)), now))
      ensures var i := old(HostOf(address));
              i < |hosts| ==>
                NotesOf(hosts) == old(NotesOf(hosts))[i := M.Notes("", old(hosts[i].lastFailureAt), Some(noted))]
      ensures old(HostOf(address)) == |hosts| ==> NotesOf(hosts) == old(NotesOf(hosts))
    {
      if address !in hostIndex {
        return M.UnknownHost;
      }
      var host := hostIndex[address];
      ghost var q, notes, i := View(), NotesOf(hosts), HostOf(address);
      host.RecordSuccess(now, noted, cfg);
      assert View() == q.(hosts := q.hosts[i := host.View()]);
      assert NotesOf(hosts) == notes[i := host.Notes()];
      o := M.Recorded;
    }

    method ReportFailure(address: string, error: Option<string>, now: int) returns (o: M.Outcome)
      requires Valid() && M.CursorsOk(View())
      modifies hosts
      ensures Valid()
      ensures (View(), o) == M.Apply(old(View()), cfg, M.ReportFailure(old(HostOf(address)), now))
      ensures var i := old(HostOf(address));
              i < |hosts| ==>
                NotesOf(hosts) == old(NotesOf(hosts))[i := M.Notes(if error.Some? then error.value else "",
                                                                   Some(now), old(hosts[i].lastSuccessAt))]
      ensures old(HostOf(address)) == |hosts| ==> NotesOf(hosts) == old(NotesOf(hosts))
    {
      if address !in hostIndex {
        return M.UnknownHost;
      }
      var host := hostIndex[address];
      ghost var q, notes, i := View(), NotesOf(hosts), HostOf(address);
      host.RecordFailure(error, now, cfg);
      assert View() == q.(hosts := q.hosts[i := host.View()]);
      assert NotesOf(hosts) == notes[i := host.Notes()];
      o := M.Recorded;
    }

    // --- Snapshot and close

    method RefreshHosts(now: int)
      requires ValidHosts(hosts)
      modifies hosts`circuit, hosts`halfOpenInFlight, hosts`consecutiveSuccesses
      ensures ValidHosts(hosts) && ViewsOf(hosts) == M.RefreshAll(old(ViewsOf(hosts)), now)
    {
      ghost var before := ViewsOf(hosts);
      for i := 0 to |hosts|
        invariant ValidHosts(hosts)
        invariant forall j | 0 <= j < |hosts| :: hosts[j].View() == if j < i then M.Refresh(before[j], now) else before[j]
      {
        hosts[i].RefreshCircuit(now);
      }
    }

    method HealthSnapshot(now: int) returns (snapshot: HealthView)
      requires Valid() && M.CursorsOk(View())
      modifies hosts`circuit, hosts`halfOpenInFlight, hosts`consecutiveSuccesses
      ensures Valid() && (View(), M.Recorded) == M.Apply(old(View()), cfg, M.Snapshot(now))
      ensures IsHealthView(snapshot)
    {
      RefreshHosts(now);
      snapshot := Summary();
    }

    // A view that shows every host as it is, and the totals of all.
    ghost predicate IsHealthView(v: HealthView)
      reads this, hosts
    {
      && v.closing == closing && v.closed == closed
      && |v.hosts| == |hosts|
      && (forall i | 0 <= i < |hosts| :: v.hosts[i] == StateOf(hosts[i].address, hosts[i].View(), hosts[i].Notes()))
      && v.inFlight == L.TotalInFlight(ViewsOf(hosts))
      && v.idleClients == L.TotalIdle(ViewsOf(hosts))
      && v.totalClients == L.TotalClients(ViewsOf(hosts))
    }

    method Summary() returns (v: HealthView)
      requires ValidHosts(hosts)
      ensures IsHealthView(v)
    {
      ghost var views := ViewsOf(hosts);
      var states, total, idle, busy := [], 0, 0, 0;
      for i := 0 to |hosts|
        invariant |states| == i
        invariant forall j | 0 <= j < i :: states[j] == StateOf(hosts[j].address, hosts[j].View(), hosts[j].Notes())
        invariant busy == L.TotalInFlight(views[..i]) && idle == L.TotalIdle(views[..i])
        invariant total == L.TotalClients(views[..i])
      {
        assert views[..i + 1][..i] == views[..i];
        var state := hosts[i].State();
        total, idle, busy := total + state.totalClients, idle + state.idleClients, busy + state.inFlight;
        states := states + [state];
      }
      assert views[..|hosts|] == views;
      v := HealthView(closing, closed, total, idle, busy, states);
    }

    method InFlight() returns (total: int)
      ensures total == L.TotalInFlight(ViewsOf(hosts))
    {
      total := 0;
      ghost var views := ViewsOf(hosts);
      for i := 0 to |hosts|
        invariant total == L.TotalInFlight(views[..i])
      {
        assert views[..i + 1][..i] == views[..i];
        total := total + hosts[i].inFlight;
      }
      assert views[..|hosts|] == views;
    }

    // The pool's part of a state of the closing protocol.
    ghost predicate Matches(s: D.State)
      reads this, hosts
    {
      s.pool == View() && s.closeRunning == closeRunning && s.closeErr == closeErr && M.CursorsOk(s.pool)
    }

    // The first section of Close.
    method EnterClose(ghost s: D.State, ghost who: nat) returns (start: CloseStart)
      requires Valid() && Matches(s) && D.Enabled(s, D.Enter(who))
      modifies `closing, `closeRunning
      ensures Valid() && Matches(D.Do(s, cfg, D.Enter(who)))
      ensures D.Do(s, cfg, D.Enter(who)).closers[who].pc ==
              match start
              case AlreadyClosed(err) => D.Answered(D.Finished(err))
              case WaitForOwner => D.Awaiting
              case OwnDrain => D.Draining
    {
      if closed {
        return AlreadyClosed(closeErr);
      }
      if closeRunning {
        return WaitForOwner;
      }
      closing := true;
      closeRunning := true;
      start := OwnDrain;
    }

    // One look of a Close call that waits for another one to finish.
    method AwaitClosed(expired: bool, ghost s: D.State, ghost who: nat) returns (reply: Option<D.Reply>)
      requires Valid() && Matches(s) && D.Enabled(s, D.Await(who)) && s.closers[who].expired == expired
      ensures D.Do(s, cfg, D.Await(who)).closers[who].pc ==
              if reply.Some? then D.Answered(reply.value) else D.Awaiting
    {
      if closed {
        return Some(D.Finished(closeErr));
      }
      if expired {
        return Some(D.ContextEnded);
      }
      reply := None;
    }

    // One look of the drain's owner: it hands the drain over if its context has
    // ended, waits while leases are out, and otherwise copies the clients.
    method DrainSection(expired: bool, ghost s: D.State, ghost who: nat) returns (turn: DrainTurn<T>)
      requires Valid() && Matches(s) && D.Enabled(s, D.Drain(who)) && s.closers[who].expired == expired
      modifies `closing, `closeRunning
      ensures Valid() && Matches(D.Do(s, cfg, D.Drain(who)))
      ensures D.Do(s, cfg, D.Drain(who)).closers[who].pc ==
              match turn
              case HandedOff => D.Answered(D.ContextEnded)
              case StillBusy => D.Draining
              case Drained(_) => D.Closing(D.ClientsOf(s.pool.hosts), 0, [])
      ensures turn.Drained? ==> turn.clients == Joined(hosts) && Listed(D.ClientsOf(s.pool.hosts), turn.clients)
    {
      if expired {
        ScheduleBackgroundClose(s, who);
        return HandedOff;
      }
      turn := ClientsIfDrained();
    }

    // The part of the drain's look that changes nothing.
    method ClientsIfDrained() returns (turn: DrainTurn<T>)
      requires Valid()
      ensures turn == if L.TotalInFlight(ViewsOf(hosts)) > 0 then StillBusy else Drained(Joined(hosts))
      ensures turn.Drained? ==> Listed(D.ClientsOf(ViewsOf(hosts)), turn.clients)
    {
      var inFlight := InFlight();
      if inFlight > 0 {
        return StillBusy;
      }
      var clients := CopyClients();
      turn := Drained(clients);
    }

    method ScheduleBackgroundClose(ghost s: D.State, ghost who: nat)
      requires Valid() && Matches(s) && who < |s.closers|
      modifies `closing, `closeRunning
      ensures Valid() && Matches(D.HandOff(s, who))
    {
      if closed {
        return;
      }
      closing := true;
      closeRunning := true;
    }

    method CopyClients() returns (clients: seq<T>)
      requires Valid()
      ensures clients == Joined(hosts) && Listed(D.ClientsOf(ViewsOf(hosts)), clients)
    {
      clients := [];
      for i := 0 to |hosts|
        invariant clients == Joined(hosts[..i])
      {
        assert hosts[..i + 1][..i] == hosts[..i];
        clients := clients + hosts[i].clients;
      }
      assert hosts[..|hosts|] == hosts && ViewsOf(hosts)[..|hosts|] == ViewsOf(hosts);
      JoinedIsListed(|hosts|);
    }

    // The copied clients are those the protocol lists, in the same order.
    ghost predicate Listed(names: seq<D.Client>, clients: seq<T>)
      reads this, hosts
    {
      && |names| == |clients|
      && forall i | 0 <= i < |names| ::
           names[i].0 < |hosts| && names[i].1 < |hosts[names[i].0].clients| && clients[i] == hosts[names[i].0].clients[names[i].1]
    }

    lemma {:induction false} JoinedIsListed(n: nat)
      requires Valid() && n <= |hosts|
      ensures Listed(D.ClientsOf(ViewsOf(hosts)[..n]), Joined(hosts[..n]))
    {
      if n > 0 {
        JoinedIsListed(n - 1);
        assert ViewsOf(hosts)[..n][..n - 1] == ViewsOf(hosts)[..n - 1];
        assert hosts[..n][..n - 1] == hosts[..n - 1];
      }
    }

    // The last section of finishClose.
    method PublishClose(err: seq<int>, ghost s: D.State, ghost who: nat)
      requires Valid() && Matches(s) && D.Enabled(s, D.Publish(who)) && s.closers[who].pc.err == err
      modifies `closing, `closeRunning, `closed, `closeErr
      ensures Valid() && Matches(D.Do(s, cfg, D.Publish(who)))
    {
      closeErr := err;
      closed := true;
      closing := false;
      closeRunning := false;
    }
  }

  ghost function OutcomeOf<T>(turn: Turn<T>, t: M.Ticket): M.Outcome
    requires !turn.ContextIsDone?
  {
    match turn
    case Leased(_) => M.Granted(t)
    case PoolIsClosed => M.PoolClosed
    case MustWait(_) => M.NothingIdle
  }

  // A granted host whose cursor has already been moved.
  function Granted(h: M.Host, k: nat): M.Host
    requires k < |h.slots|
  {
    h.(slots := h.slots[k := M.Slot(true, h.slots[k].generation + 1)],
    inFlight := h.inFlight + 1,
    halfOpenInFlight := h.halfOpenInFlight || h.circuit == M.HalfOpen)
  }

  // --- The scan loop finds what PoolModel's Acquire says

  ghost predicate PassedOver(p: M.Pool, now: int, i: nat)
    requires M.CursorsOk(p) && i <= |p.hosts|
  {
    forall j | 0 <= j < |p.hosts| && Dist(p.nextHost, j, |p.hosts|) < i :: !M.Available(p.hosts[j], now)
  }

  // The hosts and the client that the scan ends with.
  ghost predicate Found(p: M.Pool, now: int, hosts: seq<M.Host>, found: Option<(nat, nat)>)
    requires M.CursorsOk(p)
  {
    match found
    case None => M.Choose(p, now).None? && hosts == M.RefreshAll(p.hosts, now)
    case Some((c, k)) =>
      && c < |p.hosts| && M.Choose(p, now) == Some(c)
      && M.Probe(p.hosts[c], now).1 == Some(k)
      && hosts == M.RefreshFirst(p, now, Dist(p.nextHost, c, |p.hosts|) + 1)[c := M.Probe(p.hosts[c], now).0]
  }

  // What NextAvailable did to the pool: the scan, and the host cursor.
  ghost predicate ScannedTo(p: M.Pool, q: M.Pool, now: int, c: nat, k: Option<nat>)
    requires M.CursorsOk(p)
  {
    && Found(p, now, q.hosts, if k.Some? then Some((c, k.value)) else None)
    && q == p.(hosts := q.hosts, nextHost := if k.Some? then Wrap(c + 1, |p.hosts|) else p.nextHost)
  }

  lemma ScanStarts(p: M.Pool, now: int)
    requires M.CursorsOk(p)
    ensures PassedOver(p, now, 0) && M.RefreshFirst(p, now, 0) == p.hosts
  {
  }

  lemma ScanEnds(p: M.Pool, now: int)
    requires M.CursorsOk(p) && PassedOver(p, now, |p.hosts|)
    ensures Found(p, now, M.RefreshFirst(p, now, |p.hosts|), None)
  {
    M.ChooseFindsHost(p, now);
    assert M.RefreshFirst(p, now, |p.hosts|) == M.RefreshAll(p.hosts, now);
  }

  // Turn i looks at the host at distance i, which is as it was.
  lemma TurnAt(p: M.Pool, now: int, i: nat) returns (c: nat)
    requires M.CursorsOk(p) && i < |p.hosts|
    ensures c == Wrap(p.nextHost + i, |p.hosts|) < |p.hosts| && Dist(p.nextHost, c, |p.hosts|) == i
    ensures forall j | 0 <= j < |p.hosts| && Dist(p.nextHost, j, |p.hosts|) == i :: j == c
    ensures M.RefreshFirst(p, now, i)[c] == p.hosts[c]
    ensures M.RefreshFirst(p, now, i + 1) == M.RefreshFirst(p, now, i)[c := M.Refresh(p.hosts[c], now)]
  {
    c := Wrap(p.nextHost + i, |p.hosts|);
  }

  lemma ProbeOutcome(h: M.Host, now: int)
    requires M.CursorOk(h)
    ensures M.Probe(h, now).1.Some? <==> M.Available(h, now)
    ensures M.Probe(h, now).1.None? ==> M.Probe(h, now).0 == M.Refresh(h, now)
  {
    M.NextIdleFindsSlot(M.Refresh(h, now));
  }

  lemma TurnProbesHost(p: M.Pool, now: int, i: nat)
    requires M.CursorsOk(p) && i < |p.hosts| && PassedOver(p, now, i)
    ensures var c := Wrap(p.nextHost + i, |p.hosts|);
            var seen := M.RefreshFirst(p, now, i);
            var (h, k) := M.Probe(p.hosts[c], now);
            && c < |p.hosts| && seen[c] == p.hosts[c]
            && (k.None? ==> PassedOver(p, now, i + 1) && seen[c := h] == M.RefreshFirst(p, now, i + 1))
            && (k.Some? ==> Found(p, now, seen[c := h], Some((c, k.value))))
  {
    var c := TurnAt(p, now, i);
    ProbeOutcome(p.hosts[c], now);
    if M.Probe(p.hosts[c], now).1.Some? {
      NearestIsChosen(p, now, c);
      var h := M.Probe(p.hosts[c], now).0;
      assert M.RefreshFirst(p, now, i)[c := h] == M.RefreshFirst(p, now, i + 1)[c := h];
    }
  }

  lemma NearestIsChosen(p: M.Pool, now: int, c: nat)
    requires M.CursorsOk(p) && c < |p.hosts| && M.Available(p.hosts[c], now)
    requires PassedOver(p, now, Dist(p.nextHost, c, |p.hosts|))
    requires forall j | 0 <= j < |p.hosts| && Dist(p.nextHost, j, |p.hosts|) == Dist(p.nextHost, c, |p.hosts|) :: j == c
    ensures M.Choose(p, now) == Some(c)
  {
    M.ChooseFindsHost(p, now);
  }

  lemma FoundIsAcquire(p: M.Pool, now: int, hosts: seq<M.Host>, c: nat, k: nat)
    requires M.CursorsOk(p) && |p.hosts| > 0 && Found(p, now, hosts, Some((c, k)))
    ensures c < |p.hosts| == |hosts| && k < |hosts[c].slots|
    ensures M.Acquire(p, now) ==
            (p.(hosts := hosts[c := Granted(hosts[c], k)], nextHost := Wrap(c + 1, |p.hosts|)),
             Some(M.Ticket(c, k, hosts[c].slots[k].generation + 1)))
  {
    M.ChooseFindsHost(p, now);
    M.NextIdleFindsSlot(M.Refresh(p.hosts[c], now));
    var seen := M.RefreshFirst(p, now, Dist(p.nextHost, c, |p.hosts|) + 1);
    assert seen[c] == M.Refresh(p.hosts[c], now);
    assert M.GrantSlot(seen[c], k) == Granted(hosts[c], k);
    assert seen[c := M.GrantSlot(seen[c], k)] == hosts[c := Granted(hosts[c], k)];
  }

  lemma ScanIsAcquire(p: M.Pool, q: M.Pool, now: int, c: nat, k: Option<nat>)
    requires M.CursorsOk(p) && ScannedTo(p, q, now, c, k)
    ensures k.None? ==> M.Acquire(p, now) == (q, None)
    ensures k.Some? ==>
              && c < |q.hosts| && k.value < |q.hosts[c].slots|
              && M.Acquire(p, now) ==
                 (q.(hosts := q.hosts[c := Granted(q.hosts[c], k.value)]),
                  Some(M.Ticket(c, k.value, q.hosts[c].slots[k.value].generation + 1)))
  {
    if k.Some? {
      FoundIsAcquire(p, now, q.hosts, c, k.value);
    }
  }
}
