// Two whole-run promises of the scan: no available host is passed over for more
// than one lap, and no wake-up is missed while Acquire sleeps.
module PoolFairness {
  import opened Wrappers
  import opened Ring
  import opened PoolModel
  import opened PoolLaws

  // --- Bounded fairness

  function Takes(es: seq<Event>): nat {
    if es == [] then 0 else Takes(es[..|es| - 1]) + (if es[|es| - 1].Take? then 1 else 0)
  }

  ghost predicate GrantedTo(p: Pool, cfg: Config, es: seq<Event>, i: nat, k: nat)
    requires ValidConfig(cfg) && PoolInv(p, cfg) && i < |es|
  {
    Answer(p, cfg, es, i).Granted? && Answer(p, cfg, es, i).ticket.host == k
  }

  // Event i, if it is a scan, finds host k eligible with an idle client.
  ghost predicate AvailableAt(p: Pool, cfg: Config, es: seq<Event>, i: nat, k: nat)
    requires ValidConfig(cfg) && PoolInv(p, cfg) && i < |es|
  {
    es[i].Take? ==> k < |Before(p, cfg, es, i).hosts| && Available(Before(p, cfg, es, i).hosts[k], es[i].now)
  }

  // Every scan of the run does.
  ghost predicate AlwaysAvailable(p: Pool, cfg: Config, es: seq<Event>, k: nat)
    requires ValidConfig(cfg) && PoolInv(p, cfg)
  {
    forall i | 0 <= i < |es| :: AvailableAt(p, cfg, es, i, k)
  }

  // How close the cursor of an open pool has come to k.
  ghost predicate Within(p: Pool, k: nat, steps: int) {
    !p.closing && !p.closed && k < |p.hosts| && p.nextHost < |p.hosts| && Dist(p.nextHost, k, |p.hosts|) <= steps
  }

  ghost predicate Served(p: Pool, cfg: Config, es: seq<Event>, k: nat)
    requires ValidConfig(cfg) && PoolInv(p, cfg)
  {
    exists i | 0 <= i < |es| :: GrantedTo(p, cfg, es, i, k)
  }

  // An acquire that does not go to k moves the cursor at least one step nearer to k.
  lemma CursorStep(p: Pool, cfg: Config, e: Event, k: nat, steps: int)
    requires ValidConfig(cfg) && PoolInv(p, cfg) && Within(p, k, steps)
    requires e.Take? ==> Available(p.hosts[k], e.now)
    ensures var (q, o) := Apply(p, cfg, e);
            && Within(q, k, |q.hosts|)
            && (e.Take? ==> o.Granted?)
            && ((e.Take? && o.ticket.host == k) || Within(q, k, if e.Take? then steps - 1 else steps))
  {
    ApplyKeepsInv(p, cfg, e);
    ApplyKeepsShape(p, cfg, e);
    if e.Take? {
      AcquireByHost(p, e.now);
      var c := Acquire(p, e.now).1.value.host;
      if c != k {
        CursorApproaches(p.nextHost, c, k, |p.hosts|);
      }
    }
  }

  lemma PrefixAgrees(p: Pool, cfg: Config, es: seq<Event>, k: nat)
    requires ValidConfig(cfg) && PoolInv(p, cfg) && es != []
    ensures var n := |es| - 1;
            && (AlwaysAvailable(p, cfg, es, k) ==> AlwaysAvailable(p, cfg, es[..n], k))
            && (Served(p, cfg, es[..n], k) ==> Served(p, cfg, es, k))
            && After(p, cfg, es[..n]) == Before(p, cfg, es, n)
  {
    var n := |es| - 1;
    forall i | 0 <= i < n
      ensures Before(p, cfg, es[..n], i) == Before(p, cfg, es, i)
      ensures AvailableAt(p, cfg, es, i, k) ==> AvailableAt(p, cfg, es[..n], i, k)
    {
      assert es[..n][..i] == es[..i];
    }
    if Served(p, cfg, es[..n], k) {
      var i :| 0 <= i < n && GrantedTo(p, cfg, es[..n], i, k);
      assert GrantedTo(p, cfg, es, i, k);
    }
  }

  // What is known before event n of a run: the host has been served, or the cursor
  // has come nearer with every acquire.
  ghost predicate Nearing(p: Pool, cfg: Config, es: seq<Event>, n: nat, k: nat, steps: int)
    requires ValidConfig(cfg) && PoolInv(p, cfg) && n <= |es|
  {
    var q := Before(p, cfg, es, n);
    Within(q, k, |q.hosts|) && (Served(p, cfg, es, k) || Within(q, k, steps - Takes(es[..n])))
  }

  lemma LastStep(p: Pool, cfg: Config, es: seq<Event>, k: nat, steps: int)
    requires ValidConfig(cfg) && PoolInv(p, cfg) && es != [] && AlwaysAvailable(p, cfg, es, k)
    requires Nearing(p, cfg, es, |es| - 1, k, steps)
    ensures Nearing(p, cfg, es, |es|, k, steps)
  {
    var n := |es| - 1;
    var mid := Before(p, cfg, es, n);
    assert es[..|es|] == es;
    BeforeStep(p, cfg, es, n);
    assert AvailableAt(p, cfg, es, n, k);
    if Served(p, cfg, es, k) {
      CursorStep(mid, cfg, es[n], k, |mid.hosts|);
    } else {
      CursorStep(mid, cfg, es[n], k, steps - Takes(es[..n]));
      assert !GrantedTo(p, cfg, es, n, k);
    }
  }

  lemma {:induction false} ServedOrNearer(p: Pool, cfg: Config, es: seq<Event>, k: nat, steps: int)
    requires ValidConfig(cfg) && PoolInv(p, cfg) && Within(p, k, steps)
    requires AlwaysAvailable(p, cfg, es, k)
    ensures Nearing(p, cfg, es, |es|, k, steps)
  {
    if es == [] {
      assert es[..0] == [];
    } else {
      var n := |es| - 1;
      assert es[..n][..n] == es[..n];
      PrefixAgrees(p, cfg, es, k);
      ServedOrNearer(p, cfg, es[..n], k, steps);
      LastStep(p, cfg, es, k, steps);
    }
  }

  // A host that every scan finds available is served within one lap: among any
  // len(hosts) acquires of an open pool, one goes to it.
  lemma ServedWithinOneLap(p: Pool, cfg: Config, es: seq<Event>, k: nat)
    requires ValidConfig(cfg) && PoolInv(p, cfg) && !p.closing && !p.closed && k < |p.hosts|
    requires AlwaysAvailable(p, cfg, es, k)
    requires Takes(es) >= |p.hosts|
    ensures Served(p, cfg, es, k)
  {
    assert es[..|es|] == es;
    ServedOrNearer(p, cfg, es, k, |p.hosts| - 1);
    WithinLess(After(p, cfg, es), k, |p.hosts| - 1 - Takes(es));
  }

  lemma WithinLess(p: Pool, k: nat, steps: int)
    requires steps < 0
    ensures !Within(p, k, steps)
  {
  }

  // --- The same within a host

  // How many leases of a run are on host k.
  ghost function GrantsOn(p: Pool, cfg: Config, es: seq<Event>, k: nat): nat
    requires ValidConfig(cfg) && PoolInv(p, cfg)
  {
    if es == [] then 0
    else
      var n := |es| - 1;
      GrantsOn(p, cfg, es[..n], k) + if GrantedTo(p, cfg, es, n, k) then 1 else 0
  }

  ghost predicate ClientAt(p: Pool, k: nat, m: nat) {
    k < |p.hosts| && m < |p.hosts[k].slots| && p.hosts[k].nextClient < |p.hosts[k].slots|
  }

  // Client m of host k is idle whenever a lease is granted on the host.
  ghost predicate IdleWhenGranting(p: Pool, cfg: Config, es: seq<Event>, k: nat, m: nat)
    requires ValidConfig(cfg) && PoolInv(p, cfg)
  {
    forall i | 0 <= i < |es| && GrantedTo(p, cfg, es, i, k) ::
      ClientAt(Before(p, cfg, es, i), k, m) && !Before(p, cfg, es, i).hosts[k].slots[m].inUse
  }

  ghost predicate ClientServed(p: Pool, cfg: Config, es: seq<Event>, k: nat, m: nat)
    requires ValidConfig(cfg) && PoolInv(p, cfg)
  {
    exists i | 0 <= i < |es| :: GrantedTo(p, cfg, es, i, k) && Answer(p, cfg, es, i).ticket.slot == m
  }

  ghost predicate ClientWithin(p: Pool, k: nat, m: nat, steps: int) {
    ClientAt(p, k, m) && Dist(p.hosts[k].nextClient, m, |p.hosts[k].slots|) <= steps
  }

  ghost predicate OnHost(o: Outcome, k: nat) {
    o.Granted? && o.ticket.host == k
  }

  lemma OthersKeepCursor(p: Pool, cfg: Config, e: Event, k: nat)
    requires ValidConfig(cfg) && PoolInv(p, cfg) && k < |p.hosts| && !OnHost(Apply(p, cfg, e).1, k)
    ensures SameShape(p, Apply(p, cfg, e).0) && Apply(p, cfg, e).0.hosts[k].nextClient == p.hosts[k].nextClient
  {
    ApplyKeepsShape(p, cfg, e);
    if e.Take? {
      AcquireByHost(p, e.now);
    }
  }

  // A lease on the host that is not for client m brings the host's cursor nearer to m.
  lemma ClientStep(p: Pool, cfg: Config, e: Event, k: nat, m: nat, steps: int)
    requires ValidConfig(cfg) && PoolInv(p, cfg) && ClientWithin(p, k, m, steps)
    requires OnHost(Apply(p, cfg, e).1, k) ==> !p.hosts[k].slots[m].inUse
    ensures var (q, o) := Apply(p, cfg, e);
            && ClientAt(q, k, m)
            && ((OnHost(o, k) && o.ticket.slot == m) || ClientWithin(q, k, m, if OnHost(o, k) then steps - 1 else steps))
  {
    if OnHost(Apply(p, cfg, e).1, k) {
      GrantTouches(p, cfg, e.now);
      var n, c := |p.hosts[k].slots|, Acquire(p, e.now).1.value.slot;
      if c != m {
        CursorApproaches(p.hosts[k].nextClient, c, m, n);
      }
    } else {
      OthersKeepCursor(p, cfg, e, k);
    }
  }

  lemma ClientPrefix(p: Pool, cfg: Config, es: seq<Event>, k: nat, m: nat)
    requires ValidConfig(cfg) && PoolInv(p, cfg) && es != []
    ensures var n := |es| - 1;
            && (IdleWhenGranting(p, cfg, es, k, m) ==> IdleWhenGranting(p, cfg, es[..n], k, m))
            && (ClientServed(p, cfg, es[..n], k, m) ==> ClientServed(p, cfg, es, k, m))
            && After(p, cfg, es[..n]) == Before(p, cfg, es, n)
  {
    var n := |es| - 1;
    forall i | 0 <= i < n
      ensures Before(p, cfg, es[..n], i) == Before(p, cfg, es, i)
      ensures GrantedTo(p, cfg, es[..n], i, k) <==> GrantedTo(p, cfg, es, i, k)
      ensures Answer(p, cfg, es[..n], i) == Answer(p, cfg, es, i)
    {
      assert es[..n][..i] == es[..i];
    }
    if ClientServed(p, cfg, es[..n], k, m) {
      var i :| 0 <= i < n && GrantedTo(p, cfg, es[..n], i, k) && Answer(p, cfg, es[..n], i).ticket.slot == m;
      assert GrantedTo(p, cfg, es, i, k);
    }
  }

  // What is known after a run: the client has been served, or the cursor has come
  // nearer with every lease on its host.
  ghost predicate ClientNearing(p: Pool, cfg: Config, es: seq<Event>, q: Pool, k: nat, m: nat, steps: int)
    requires ValidConfig(cfg) && PoolInv(p, cfg)
  {
    ClientAt(q, k, m) && (ClientServed(p, cfg, es, k, m) || ClientWithin(q, k, m, steps - GrantsOn(p, cfg, es, k)))
  }

  lemma ClientLastStep(p: Pool, cfg: Config, es: seq<Event>, k: nat, m: nat, steps: int)
    requires ValidConfig(cfg) && PoolInv(p, cfg) && es != [] && IdleWhenGranting(p, cfg, es, k, m)
    requires ClientNearing(p, cfg, es[..|es| - 1], Before(p, cfg, es, |es| - 1), k, m, steps)
    ensures ClientNearing(p, cfg, es, After(p, cfg, es), k, m, steps)
  {
    var n := |es| - 1;
    var mid := Before(p, cfg, es, n);
    assert es[..|es|] == es;
    BeforeStep(p, cfg, es, n);
    ClientPrefix(p, cfg, es, k, m);
    assert OnHost(Answer(p, cfg, es, n), k) <==> GrantedTo(p, cfg, es, n, k);
    if ClientServed(p, cfg, es[..n], k, m) {
      ClientStep(mid, cfg, es[n], k, m, |mid.hosts[k].slots|);
    } else {
      ClientStep(mid, cfg, es[n], k, m, steps - GrantsOn(p, cfg, es[..n], k));
    }
  }

  lemma {:induction false} ClientServedOrNearer(p: Pool, cfg: Config, es: seq<Event>, k: nat, m: nat, steps: int)
    requires ValidConfig(cfg) && PoolInv(p, cfg) && ClientWithin(p, k, m, steps) && IdleWhenGranting(p, cfg, es, k, m)
    ensures ClientNearing(p, cfg, es, After(p, cfg, es), k, m, steps)
  {
    if es != [] {
      ClientPrefix(p, cfg, es, k, m);
      ClientServedOrNearer(p, cfg, es[..|es| - 1], k, m, steps);
      ClientLastStep(p, cfg, es, k, m, steps);
    }
  }

  // A client that is idle whenever its host is given a lease gets one of any
  // len(clients) leases of the host.
  lemma ClientServedWithinOneLap(p: Pool, cfg: Config, es: seq<Event>, k: nat, m: nat)
    requires ValidConfig(cfg) && PoolInv(p, cfg) && k < |p.hosts| && m < |p.hosts[k].slots|
    requires IdleWhenGranting(p, cfg, es, k, m)
    requires GrantsOn(p, cfg, es, k) >= |p.hosts[k].slots|
    ensures ClientServed(p, cfg, es, k, m)
  {
    assert HostInv(p.hosts[k], cfg);
    ClientServedOrNearer(p, cfg, es, k, m, |p.hosts[k].slots| - 1);
    ClientWithinLess(After(p, cfg, es), k, m, |p.hosts[k].slots| - 1 - GrantsOn(p, cfg, es, k));
  }

  lemma ClientWithinLess(p: Pool, k: nat, m: nat, steps: int)
    requires steps < 0
    ensures !ClientWithin(p, k, m, steps)
  {
  }

  // An acquire turn of an open pool comes back empty exactly when no host is
  // eligible with an idle client.
  lemma NothingIdleMeansNoneAvailable(p: Pool, cfg: Config, now: int)
    requires ValidConfig(cfg) && PoolInv(p, cfg) && !p.closing && !p.closed
    ensures Apply(p, cfg, Take(now)).1 == NothingIdle <==>
            forall k | 0 <= k < |p.hosts| :: !Available(p.hosts[k], now)
  {
    AcquireByHost(p, now);
  }

  // --- Wake-ups

  ghost predicate PastDue(h: Host, now: int) {
    Waiting(h) && h.openUntil.value <= now
  }

  lemma {:induction false} NextWakeFromIsEarliest(hosts: seq<Host>, i: nat, now: int, wake: Option<int>)
    requires i <= |hosts|
    requires forall j | 0 <= j < i :: !PastDue(hosts[j], now)
    requires wake.None? ==> forall j | 0 <= j < i :: !Waiting(hosts[j])
    requires wake.Some? ==> exists j | 0 <= j < i :: Waiting(hosts[j]) && hosts[j].openUntil == wake
    requires wake.Some? ==> forall j | 0 <= j < i && Waiting(hosts[j]) :: wake.value <= hosts[j].openUntil.value
    ensures var w := NextWakeFrom(hosts, i, now, wake);
            if exists j | 0 <= j < |hosts| :: PastDue(hosts[j], now) then w == Some(now)
            else
              && (w.None? ==> forall j | 0 <= j < |hosts| :: !Waiting(hosts[j]))
              && (w.Some? ==> exists j | 0 <= j < |hosts| :: Waiting(hosts[j]) && hosts[j].openUntil == w)
              && (w.Some? ==> forall j | 0 <= j < |hosts| && Waiting(hosts[j]) :: w.value <= hosts[j].openUntil.value)
    decreases |hosts| - i
  {
    if i < |hosts| {
      if !Waiting(hosts[i]) {
        NextWakeFromIsEarliest(hosts, i + 1, now, wake);
      } else if hosts[i].openUntil.value <= now {
        assert PastDue(hosts[i], now);
      } else if wake.None? || hosts[i].openUntil.value < wake.value {
        NextWakeFromIsEarliest(hosts, i + 1, now, hosts[i].openUntil);
      } else {
        NextWakeFromIsEarliest(hosts, i + 1, now, wake);
      }
    }
  }

  // Right after a failed scan no circuit is past due (so the early return of the
  // wake computation is dead there), and the wake-up is the earliest expiry of an
  // open circuit with an idle client, strictly in the future.
  lemma WakeAfterFailedScan(p: Pool, now: int)
    requires CursorsOk(p) && Acquire(p, now).1.None?
    ensures var hosts := Acquire(p, now).0.hosts;
            var w := NextWake(hosts, now);
            && (forall j | 0 <= j < |hosts| :: !PastDue(hosts[j], now))
            && (w.None? ==> forall j | 0 <= j < |hosts| :: !Waiting(hosts[j]))
            && (w.Some? ==> w.value > now && exists j | 0 <= j < |hosts| :: Waiting(hosts[j]) && hosts[j].openUntil == w)
            && (w.Some? ==> forall j | 0 <= j < |hosts| && Waiting(hosts[j]) :: w.value <= hosts[j].openUntil.value)
  {
    AcquireByHost(p, now);
    NextWakeFromIsEarliest(Acquire(p, now).0.hosts, 0, now, None);
  }

  // t comes before the limit; no limit is never reached.
  ghost predicate Earlier(t: int, limit: Option<int>) {
    limit.None? || t < limit.value
  }

  ghost predicate Quiet(p: Pool, limit: Option<int>) {
    forall i, t | 0 <= i < |p.hosts| && Earlier(t, limit) :: !Available(p.hosts[i], t)
  }

  // A run in which clients only scan or look, all of it before the limit.
  ghost predicate OnlyLooking(es: seq<Event>, limit: Option<int>) {
    forall i | 0 <= i < |es| :: (es[i].Take? || es[i].Snapshot?) && Earlier(es[i].now, limit)
  }

  lemma QuietStep(p: Pool, cfg: Config, e: Event, limit: Option<int>)
    requires ValidConfig(cfg) && PoolInv(p, cfg) && Quiet(p, limit)
    requires OnlyLooking([e], limit)
    ensures Quiet(Apply(p, cfg, e).0, limit) && !Apply(p, cfg, e).1.Granted?
  {
    assert [e][0] == e;
    if e.Take? {
      AcquireByHost(p, e.now);
    }
    var q := Apply(p, cfg, e).0;
    forall i, t | 0 <= i < |q.hosts| && Earlier(t, limit)
      ensures !Available(q.hosts[i], t)
    {
      assert !Available(p.hosts[i], t) && !Available(p.hosts[i], e.now);
    }
  }

  lemma {:induction false} QuietStays(p: Pool, cfg: Config, es: seq<Event>, limit: Option<int>)
    requires ValidConfig(cfg) && PoolInv(p, cfg) && Quiet(p, limit) && OnlyLooking(es, limit)
    ensures Quiet(After(p, cfg, es), limit)
  {
    if es != [] {
      var n := |es| - 1;
      QuietStays(p, cfg, es[..n], limit);
      assert OnlyLooking([es[n]], limit);
      QuietStep(After(p, cfg, es[..n]), cfg, es[n], limit);
    }
  }

  lemma QuietRun(p: Pool, cfg: Config, es: seq<Event>, limit: Option<int>)
    requires ValidConfig(cfg) && PoolInv(p, cfg) && Quiet(p, limit) && OnlyLooking(es, limit)
    ensures forall i | 0 <= i < |es| :: !Answer(p, cfg, es, i).Granted?
  {
    forall i | 0 <= i < |es|
      ensures !Answer(p, cfg, es, i).Granted?
    {
      QuietStays(p, cfg, es[..i], limit);
      assert OnlyLooking([es[i]], limit);
      QuietStep(Before(p, cfg, es, i), cfg, es[i], limit);
    }
  }

  // No missed wake-up: after a scan failed at `now`, no sequence of further scans
  // and snapshots grants anything before the computed wake-up time, or ever if
  // there is none.
  lemma NoMissedWake(p: Pool, cfg: Config, now: int, es: seq<Event>)
    requires ValidConfig(cfg) && PoolInv(p, cfg) && !p.closing && !p.closed
    requires Apply(p, cfg, Take(now)).1 == NothingIdle
    requires OnlyLooking(es, NextWake(Apply(p, cfg, Take(now)).0.hosts, now))
    ensures PoolInv(Apply(p, cfg, Take(now)).0, cfg)
    ensures forall i | 0 <= i < |es| :: !Answer(Apply(p, cfg, Take(now)).0, cfg, es, i).Granted?
  {
    var q := Apply(p, cfg, Take(now)).0;
    var limit := NextWake(q.hosts, now);
    ApplyKeepsInv(p, cfg, Take(now));
    AcquireByHost(p, now);
    WakeAfterFailedScan(p, now);
    forall i, t | 0 <= i < |q.hosts| && Earlier(t, limit)
      ensures !Available(q.hosts[i], t)
    {
      assert !Available(p.hosts[i], now);
    }
    QuietRun(q, cfg, es, limit);
  }

  lemma ExpiringHost(h: Host, cfg: Config, now: int, w: int)
    requires ValidConfig(cfg) && HostInv(h, cfg) && !Available(h, now)
    requires Waiting(Refresh(h, now)) ==> w <= h.openUntil.value
    ensures var r := Refresh(h, now);
            Available(r, w) <==> Waiting(r) && r.openUntil == Some(w) && r.inFlight == 0
  {
    if HasIdle(h) {
      assert |h.slots| > 0;
    }
  }

  // The wake-up is as late as it can be when the expiring host is idle: at that
  // very time the scan succeeds exactly if some host whose circuit expires then
  // has no lease outstanding.
  lemma WakeIsTight(p: Pool, cfg: Config, now: int)
    requires ValidConfig(cfg) && PoolInv(p, cfg) && !p.closing && !p.closed
    requires Apply(p, cfg, Take(now)).1 == NothingIdle
    requires NextWake(Apply(p, cfg, Take(now)).0.hosts, now).Some?
    ensures var q := Apply(p, cfg, Take(now)).0;
            var w := NextWake(q.hosts, now);
            Apply(q, cfg, Take(w.value)).1.Granted? <==>
            exists i | 0 <= i < |q.hosts| ::
              Waiting(q.hosts[i]) && q.hosts[i].openUntil == w && q.hosts[i].inFlight == 0
  {
    var q := Apply(p, cfg, Take(now)).0;
    AcquireByHost(p, now);
    var w := NextWake(RefreshAll(p.hosts, now), now).value;
    ApplyKeepsInv(p, cfg, Take(now));
    WakeAfterFailedScan(p, now);
    forall i | 0 <= i < |q.hosts|
      ensures Available(q.hosts[i], w) <==>
              Waiting(q.hosts[i]) && q.hosts[i].openUntil == Some(w) && q.hosts[i].inFlight == 0
    {
      assert Acquire(p, now).0.hosts[i] == q.hosts[i] == Refresh(p.hosts[i], now);
      ExpiringHost(p.hosts[i], cfg, now, w);
    }
    NothingIdleMeansNoneAvailable(q, cfg, w);
    assert Apply(q, cfg, Take(w)).1.Granted? <==> exists i | 0 <= i < |q.hosts| :: Available(q.hosts[i], w);
  }
}
