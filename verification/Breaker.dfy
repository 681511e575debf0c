// The circuit breaker of a host, against a reference breaker that sees nothing
// but the host's success and failure reports. The pool half-opens circuits
// lazily, whenever a scan, a report or a snapshot happens to look; the reference
// reads the circuit off the clock.
module Breaker {
  import opened Wrappers
  import opened PoolModel
  import opened PoolLaws

  datatype Report = Report(ok: bool, time: int)

  // --- The reference breaker

  datatype Health =
    | Healthy(run: nat)                   // failures since the last success
    | Tripped(until: int, probes: nat)    // successes since the circuit half-opened

  function React(s: Health, r: Report, cfg: Config): Health {
    match s
    case Healthy(run) =>
      if r.ok then Healthy(0)
      else if run + 1 >= cfg.failureThreshold then Tripped(r.time + cfg.openTimeout, 0)
      else Healthy(run + 1)
    case Tripped(until, probes) =>
      if !r.ok then Tripped(r.time + cfg.openTimeout, 0)
      else if r.time < until then s
      else if probes + 1 >= cfg.halfOpenThreshold then Healthy(0)
      else Tripped(until, probes + 1)
  }

  function Fold(rs: seq<Report>, cfg: Config): Health {
    if rs == [] then Healthy(0) else React(Fold(rs[..|rs| - 1], cfg), rs[|rs| - 1], cfg)
  }

  function CircuitAt(s: Health, now: int): Circuit {
    match s
    case Healthy(_) => Closed
    case Tripped(until, _) => if now < until then Open else HalfOpen
  }

  // --- What the reference says, read off the reports alone

  function TrailingFailures(rs: seq<Report>): nat {
    if rs == [] || rs[|rs| - 1].ok then 0 else TrailingFailures(rs[..|rs| - 1]) + 1
  }

  // Successes at the end of the trace that came no earlier than `since`.
  function TrailingProbes(rs: seq<Report>, since: int): nat {
    if rs == [] || !rs[|rs| - 1].ok || rs[|rs| - 1].time < since then 0
    else TrailingProbes(rs[..|rs| - 1], since) + 1
  }

  function LastFailure(rs: seq<Report>): Option<int> {
    if rs == [] then None
    else if !rs[|rs| - 1].ok then Some(rs[|rs| - 1].time)
    else LastFailure(rs[..|rs| - 1])
  }

  ghost predicate InOrder(rs: seq<Report>) {
    forall i, j | 0 <= i < j < |rs| :: rs[i].time <= rs[j].time
  }

  ghost predicate ClosedForm(state: Health, rs: seq<Report>, cfg: Config) {
    match state
    case Healthy(run) => run == TrailingFailures(rs) < cfg.failureThreshold
    case Tripped(until, probes) =>
      && LastFailure(rs).Some? && until == LastFailure(rs).value + cfg.openTimeout
      && probes == TrailingProbes(rs, until) < cfg.halfOpenThreshold
  }

  lemma {:induction false} EarlyReportsAreNoProbes(rs: seq<Report>, since: int)
    requires forall i | 0 <= i < |rs| :: rs[i].time < since
    ensures TrailingProbes(rs, since) == 0
  {
  }

  // The reference state has a closed form: healthy with a run below the
  // threshold, or tripped until one timeout after the last failure, with fewer
  // probes since then than are needed to close.
  lemma {:induction false} FoldMeaning(rs: seq<Report>, cfg: Config)
    requires ValidConfig(cfg) && InOrder(rs)
    ensures ClosedForm(Fold(rs, cfg), rs, cfg)
  {
    if rs != [] {
      var n := |rs| - 1;
      FoldMeaning(rs[..n], cfg);
      var s := Fold(rs[..n], cfg);
      if s.Tripped? && rs[n].ok && rs[n].time < s.until {
        EarlyReportsAreNoProbes(rs[..n], s.until);
      }
    }
  }

  lemma {:induction false} ProbesAreTheLastReports(rs: seq<Report>, since: int, i: nat)
    requires |rs| - TrailingProbes(rs, since) <= i < |rs|
    ensures rs[i].ok && rs[i].time >= since
  {
    if i < |rs| - 1 {
      ProbesAreTheLastReports(rs[..|rs| - 1], since, i);
    }
  }

  // The last n reports are successes that came no earlier than `since`.
  ghost predicate EndsInProbes(rs: seq<Report>, since: int, n: int) {
    n <= |rs| && forall i | |rs| - n <= i < |rs| && 0 <= i :: rs[i].ok && rs[i].time >= since
  }

  // The last n reports are failures.
  ghost predicate EndsInFailures(rs: seq<Report>, n: int) {
    n <= |rs| && forall i | |rs| - n <= i < |rs| && 0 <= i :: !rs[i].ok
  }

  lemma {:induction false} TrailingFailuresMeaning(rs: seq<Report>, n: int)
    ensures EndsInFailures(rs, n) <==> n <= TrailingFailures(rs)
  {
    if rs != [] && n > 0 {
      var m := |rs| - 1;
      TrailingFailuresMeaning(rs[..m], n - 1);
      assert EndsInFailures(rs, n) <==> !rs[m].ok && EndsInFailures(rs[..m], n - 1) by {
        if !rs[m].ok && EndsInFailures(rs[..m], n - 1) {
          assert forall i | |rs| - n <= i < m && 0 <= i :: !rs[..m][i].ok;
        }
        if EndsInFailures(rs, n) {
          assert !rs[m].ok;
          assert forall i | m - (n - 1) <= i < m && 0 <= i :: !rs[i].ok;
        }
      }
    }
  }

  lemma {:induction false} LastFailureMeaning(rs: seq<Report>)
    ensures LastFailure(rs).None? <==> forall i | 0 <= i < |rs| :: rs[i].ok
    ensures LastFailure(rs).Some? ==>
              exists j | 0 <= j < |rs| :: !rs[j].ok && rs[j].time == LastFailure(rs).value
                                          && forall i | j < i < |rs| :: rs[i].ok
  {
    if rs != [] {
      LastFailureMeaning(rs[..|rs| - 1]);
    }
  }

  // A circuit that is not tripped trips exactly when the last failureThreshold
  // reports are all failures.
  lemma TripsExactlyAfterFailures(rs: seq<Report>, r: Report, cfg: Config)
    requires ValidConfig(cfg) && InOrder(rs + [r]) && Fold(rs, cfg).Healthy?
    ensures Fold(rs + [r], cfg).Tripped? <==> EndsInFailures(rs + [r], cfg.failureThreshold)
    ensures Fold(rs + [r], cfg).Tripped? <==> !r.ok && TrailingFailures(rs + [r]) >= cfg.failureThreshold
    ensures Fold(rs + [r], cfg).Tripped? ==> Fold(rs + [r], cfg) == Tripped(r.time + cfg.openTimeout, 0)
  {
    OneMoreReport(rs, r, 0, cfg);
    OneMoreFailure(rs, r, cfg);
    TrailingFailuresMeaning(rs + [r], cfg.failureThreshold);
  }

  lemma OneMoreFailure(rs: seq<Report>, r: Report, cfg: Config)
    requires ValidConfig(cfg) && InOrder(rs + [r]) && Fold(rs, cfg).Healthy?
    ensures Fold(rs, cfg).run + 1 <= cfg.failureThreshold
    ensures TrailingFailures(rs + [r]) == if r.ok then 0 else Fold(rs, cfg).run + 1
  {
    PrefixInOrder(rs, r);
    FoldMeaning(rs, cfg);
    assert (rs + [r])[..|rs|] == rs;
  }

  // And one that is tripped is tripped anew by every failure.
  lemma FailureTripsAnew(rs: seq<Report>, r: Report, cfg: Config)
    requires Fold(rs, cfg).Tripped? && !r.ok
    ensures Fold(rs + [r], cfg) == Tripped(r.time + cfg.openTimeout, 0)
  {
    OneMoreReport(rs, r, 0, cfg);
  }

  // A tripped circuit closes exactly when the last halfOpenThreshold reports are
  // all successes made no earlier than one timeout after the last failure.
  lemma ClosesExactlyAfterProbes(rs: seq<Report>, r: Report, cfg: Config)
    requires ValidConfig(cfg) && InOrder(rs + [r]) && Fold(rs, cfg).Tripped?
    ensures LastFailure(rs).Some?
    ensures var since := LastFailure(rs).value + cfg.openTimeout;
            && (Fold(rs + [r], cfg).Healthy? <==> TrailingProbes(rs + [r], since) == cfg.halfOpenThreshold)
            && (Fold(rs + [r], cfg).Healthy? <==> EndsInProbes(rs + [r], since, cfg.halfOpenThreshold))
  {
    var since := LastFailureOf(rs, r, cfg);
    OneMoreReport(rs, r, since, cfg);
    ProbesAtTheEnd(rs + [r], since);
    if EndsInProbes(rs + [r], since, cfg.halfOpenThreshold) {
      EndIsTrailing(rs + [r], since, cfg.halfOpenThreshold);
    }
    ReactCloses(Fold(rs, cfg), r, rs + [r], since, TrailingProbes(rs + [r], since), cfg);
  }

  lemma LastFailureOf(rs: seq<Report>, r: Report, cfg: Config) returns (since: int)
    requires ValidConfig(cfg) && InOrder(rs + [r]) && Fold(rs, cfg).Tripped?
    ensures LastFailure(rs).Some? && since == LastFailure(rs).value + cfg.openTimeout == Fold(rs, cfg).until
    ensures Fold(rs, cfg).probes == TrailingProbes(rs, since) < cfg.halfOpenThreshold
  {
    PrefixInOrder(rs, r);
    FoldMeaning(rs, cfg);
    since := Fold(rs, cfg).until;
  }

  lemma ReactCloses(s: Health, r: Report, all: seq<Report>, since: int, probes: nat, cfg: Config)
    requires ValidConfig(cfg) && s.Tripped? && s.until == since && s.probes < cfg.halfOpenThreshold
    requires probes == if !r.ok || r.time < since then 0 else s.probes + 1
    requires EndsInProbes(all, since, probes)
    ensures React(s, r, cfg).Healthy? <==> probes == cfg.halfOpenThreshold
    ensures React(s, r, cfg).Healthy? ==> EndsInProbes(all, since, cfg.halfOpenThreshold)
  {
  }

  lemma PrefixInOrder(rs: seq<Report>, r: Report)
    requires InOrder(rs + [r])
    ensures InOrder(rs)
  {
    assert forall i | 0 <= i < |rs| :: (rs + [r])[i] == rs[i];
  }

  lemma OneMoreReport(rs: seq<Report>, r: Report, since: int, cfg: Config)
    ensures Fold(rs + [r], cfg) == React(Fold(rs, cfg), r, cfg)
    ensures TrailingProbes(rs + [r], since) == if !r.ok || r.time < since then 0 else TrailingProbes(rs, since) + 1
  {
    assert (rs + [r])[..|rs|] == rs;
  }

  lemma ProbesAtTheEnd(rs: seq<Report>, since: int)
    ensures EndsInProbes(rs, since, TrailingProbes(rs, since))
  {
    ProbesBounded(rs, since);
    forall i | |rs| - TrailingProbes(rs, since) <= i < |rs|
      ensures rs[i].ok && rs[i].time >= since
    {
      ProbesAreTheLastReports(rs, since, i);
    }
  }

  lemma {:induction false} EndIsTrailing(rs: seq<Report>, since: int, n: nat)
    requires EndsInProbes(rs, since, n)
    ensures TrailingProbes(rs, since) >= n
  {
    if n > 0 {
      assert rs[|rs| - 1].ok && rs[|rs| - 1].time >= since;
      EndIsTrailing(rs[..|rs| - 1], since, n - 1);
    }
  }

  lemma {:induction false} ProbesBounded(rs: seq<Report>, since: int)
    ensures TrailingProbes(rs, since) <= |rs|
  {
    if rs != [] {
      ProbesBounded(rs[..|rs| - 1], since);
    }
  }

  // --- The pool's breaker refines the reference

  // The clock never runs backwards over the run, which lies between start and now.
  ghost predicate Chronological(start: int, es: seq<Event>, now: int) {
    && start <= now
    && (forall i | 0 <= i < |es| && !es[i].Return? :: start <= es[i].now <= now)
    && forall i, j | 0 <= i < j < |es| && !es[i].Return? && !es[j].Return? :: es[i].now <= es[j].now
  }

  ghost predicate Tracks(h: Host, s: Health, now: int, timeout: int) {
    match s
    case Healthy(run) =>
      && h.circuit == Closed && h.consecutiveFailures == run && h.consecutiveSuccesses == 0
      && h.openedAt.None? && h.openUntil.None?
    case Tripped(until, probes) =>
      && h.circuit != Closed && h.openUntil == Some(until) && h.consecutiveSuccesses == probes
      && h.openedAt == Some(until - timeout)
      && (h.circuit == Open ==> probes == 0)
      && (h.circuit == HalfOpen ==> until <= now)
  }

  lemma TracksLater(h: Host, s: Health, last: int, now: int, timeout: int)
    requires Tracks(h, s, last, timeout) && last <= now
    ensures Tracks(h, s, now, timeout)
  {
  }

  lemma ReportsTrack(h: Host, s: Health, last: int, now: int, cfg: Config)
    requires ValidConfig(cfg) && Tracks(h, s, last, cfg.openTimeout) && last <= now
    ensures Tracks(Refresh(h, now), s, now, cfg.openTimeout)
    ensures Tracks(Succeed(h, now, cfg), React(s, Report(true, now), cfg), now, cfg.openTimeout)
    ensures Tracks(Fail(h, now, cfg), React(s, Report(false, now), cfg), now, cfg.openTimeout)
  {
  }

  lemma CircuitTracked(h: Host, s: Health, now: int, timeout: int)
    requires Tracks(h, s, now, timeout)
    ensures Refresh(h, now).circuit == CircuitAt(s, now)
  {
  }

  ghost predicate Reported(h: Host, rs: seq<Report>) {
    && h.consecutiveFailures == TrailingFailures(rs)
    && h.successCount == |Indices(rs, true)| && h.failureCount == |Indices(rs, false)|
  }

  // Which of the reports are successes, or failures.
  function Indices(rs: seq<Report>, ok: bool): set<nat> {
    set i: nat | i < |rs| && rs[i].ok == ok
  }

  lemma OneMoreIndex(rs: seq<Report>, r: Report, ok: bool)
    ensures |Indices(rs + [r], ok)| == |Indices(rs, ok)| + if r.ok == ok then 1 else 0
  {
    var all := rs + [r];
    assert Indices(all, ok) == Indices(rs, ok) + if r.ok == ok then {|rs|} else {};
  }

  // The report, if any, that an event makes about host k.
  function ReportOf(k: nat, e: Event): seq<Report> {
    match e
    case ReportSuccess(host, now) => if host == k then [Report(true, now)] else []
    case ReportFailure(host, now) => if host == k then [Report(false, now)] else []
    case _ => []
  }

  function ReportsOf(k: nat, es: seq<Event>): seq<Report> {
    if es == [] then [] else ReportsOf(k, es[..|es| - 1]) + ReportOf(k, es[|es| - 1])
  }

  // Leases and scans leave a host's breaker as it is, up to a refresh.
  lemma LeasesLeaveBreaker(p: Pool, cfg: Config, e: Event, k: nat)
    requires CursorsOk(p) && k < |p.hosts| && ReportOf(k, e) == []
    ensures SameShape(p, Apply(p, cfg, e).0)
    ensures var h := p.hosts[k];
            var q := Apply(p, cfg, e).0.hosts[k];
            var r := if e.Return? then h else Refresh(h, e.now);
            && (q.circuit, q.openUntil, q.consecutiveSuccesses) in
               {(h.circuit, h.openUntil, h.consecutiveSuccesses), (r.circuit, r.openUntil, r.consecutiveSuccesses)}
            && q.openedAt == h.openedAt && q.consecutiveFailures == h.consecutiveFailures
            && q.successCount == h.successCount && q.failureCount == h.failureCount
  {
    ApplyKeepsShape(p, cfg, e);
    if e.Take? {
      AcquireByHost(p, e.now);
    }
  }

  lemma StepTracks(p: Pool, cfg: Config, e: Event, k: nat, rs: seq<Report>, last: int, now: int)
    requires ValidConfig(cfg) && PoolInv(p, cfg) && k < |p.hosts|
    requires Tracks(p.hosts[k], Fold(rs, cfg), last, cfg.openTimeout) && Reported(p.hosts[k], rs)
    requires last <= now && (!e.Return? ==> e.now == now)
    ensures SameShape(p, Apply(p, cfg, e).0)
    ensures var h := Apply(p, cfg, e).0.hosts[k];
            Tracks(h, Fold(rs + ReportOf(k, e), cfg), now, cfg.openTimeout) && Reported(h, rs + ReportOf(k, e))
  {
    ApplyKeepsShape(p, cfg, e);
    ReportsTrack(p.hosts[k], Fold(rs, cfg), last, now, cfg);
    if ReportOf(k, e) == [] {
      assert rs + ReportOf(k, e) == rs;
      LeasesLeaveBreaker(p, cfg, e, k);
    } else {
      assert (rs + ReportOf(k, e))[..|rs|] == rs;
      OneMoreIndex(rs, ReportOf(k, e)[0], true);
      OneMoreIndex(rs, ReportOf(k, e)[0], false);
    }
  }

  lemma ChronologicalPrefix(start: int, es: seq<Event>, now: int) returns (last: int)
    requires Chronological(start, es, now) && es != []
    ensures Chronological(start, es[..|es| - 1], last)
    ensures last <= now && (!es[|es| - 1].Return? ==> es[|es| - 1].now == last)
  {
    var n := |es| - 1;
    last := if es[n].Return? then now else es[n].now;
  }

  lemma {:induction false} RunTracks(p: Pool, cfg: Config, es: seq<Event>, k: nat, start: int, now: int)
    requires ValidConfig(cfg) && PoolInv(p, cfg) && k < |p.hosts|
    requires Tracks(p.hosts[k], Healthy(0), start, cfg.openTimeout) && Reported(p.hosts[k], [])
    requires Chronological(start, es, now)
    ensures SameShape(p, After(p, cfg, es))
    ensures var h := After(p, cfg, es).hosts[k];
            Tracks(h, Fold(ReportsOf(k, es), cfg), now, cfg.openTimeout) && Reported(h, ReportsOf(k, es))
  {
    ShapeKept(p, cfg, es);
    if es != [] {
      var n := |es| - 1;
      var last := ChronologicalPrefix(start, es, now);
      RunTracks(p, cfg, es[..n], k, start, last);
      var mid, rs := After(p, cfg, es[..n]), ReportsOf(k, es[..n]);
      StepTracks(mid, cfg, es[n], k, rs, last, last);
      assert After(p, cfg, es) == Apply(mid, cfg, es[n]).0 && ReportsOf(k, es) == rs + ReportOf(k, es[n]);
      TracksLater(After(p, cfg, es).hosts[k], Fold(ReportsOf(k, es), cfg), last, now, cfg.openTimeout);
    }
  }

  lemma ReachableTracks(sizes: seq<nat>, cfg: Config, es: seq<Event>, k: nat, start: int, now: int)
    requires ValidConfig(cfg) && k < |sizes| && Chronological(start, es, now)
    ensures PoolInv(FreshPool(sizes), cfg)
    ensures |After(FreshPool(sizes), cfg, es).hosts| == |sizes|
    ensures Tracks(After(FreshPool(sizes), cfg, es).hosts[k], Fold(ReportsOf(k, es), cfg), now, cfg.openTimeout)
    ensures Reported(After(FreshPool(sizes), cfg, es).hosts[k], ReportsOf(k, es))
  {
    FreshPoolInv(sizes, cfg);
    var p := FreshPool(sizes);
    assert p.hosts[k] == FreshHost(sizes[k]);
    assert Indices([], true) == {} && Indices([], false) == {};
    RunTracks(p, cfg, es, k, start, now);
  }

  // The lazily refreshed breaker of a reachable pool agrees at every moment with
  // the reference breaker run on the host's reports alone: scans, snapshots,
  // grants and releases never influence it, its failure counter is the trailing
  // failure run of the whole trace, and its totals count the reports of each kind.
  lemma BreakerRefinesReports(sizes: seq<nat>, cfg: Config, es: seq<Event>, k: nat, start: int, now: int)
    requires ValidConfig(cfg) && k < |sizes|
    requires Chronological(start, es, now)
    ensures PoolInv(FreshPool(sizes), cfg)
    ensures |After(FreshPool(sizes), cfg, es).hosts| == |sizes|
    ensures var h := After(FreshPool(sizes), cfg, es).hosts[k];
            var rs := ReportsOf(k, es);
            && Refresh(h, now).circuit == CircuitAt(Fold(rs, cfg), now)
            && h.consecutiveFailures == TrailingFailures(rs)
            && h.successCount == |Indices(rs, true)| && h.failureCount == |Indices(rs, false)|
  {
    ReachableTracks(sizes, cfg, es, k, start, now);
    CircuitTracked(After(FreshPool(sizes), cfg, es).hosts[k], Fold(ReportsOf(k, es), cfg), now, cfg.openTimeout);
  }

  // A lease is never granted on a host within one timeout of the failure that
  // tripped or re-tripped its circuit.
  lemma OpenHostNeverLeased(sizes: seq<nat>, cfg: Config, es: seq<Event>, start: int, now: int, t: Ticket)
    requires ValidConfig(cfg) && PoolInv(FreshPool(sizes), cfg)
    requires Chronological(start, es, now)
    requires Apply(After(FreshPool(sizes), cfg, es), cfg, Take(now)).1 == Granted(t)
    ensures CircuitAt(Fold(ReportsOf(t.host, es), cfg), now) != Open
  {
    var p := After(FreshPool(sizes), cfg, es);
    AcquireByHost(p, now);
    ShapeKept(FreshPool(sizes), cfg, es);
    BreakerRefinesReports(sizes, cfg, es, t.host, start, now);
  }

  // --- What a report does, and when a lease is to be had, told by the reports alone

  lemma {:induction false} ReportsChronological(k: nat, es: seq<Event>, start: int, now: int)
    requires Chronological(start, es, now)
    ensures InOrder(ReportsOf(k, es)) && forall i | 0 <= i < |ReportsOf(k, es)| :: ReportsOf(k, es)[i].time <= now
    decreases |es|
  {
    if es != [] {
      var last := ChronologicalPrefix(start, es, now);
      ReportsChronological(k, es[..|es| - 1], start, last);
    }
  }

  function ReportEvent(k: nat, ok: bool, now: int): Event {
    if ok then ReportSuccess(k, now) else ReportFailure(k, now)
  }

  // The circuit that a report finds, and the one it leaves: a closed one opens exactly
  // if the last failureThreshold reports are failures, any other opens anew on every
  // failure, and a half-open one closes exactly if the last halfOpenThreshold reports
  // are successes made no earlier than one timeout after the last failure.
  ghost predicate LeavesCircuit(found: Circuit, h: Host, before: seq<Report>, r: Report, cfg: Config) {
    var rs := before + [r];
    match found
    case Closed => h.circuit == if EndsInFailures(rs, cfg.failureThreshold) then Open else Closed
    case Open => h.circuit == Open
    case HalfOpen =>
      if !r.ok then h.circuit == Open
      else
        && LastFailure(before).Some?
        && h.circuit == if EndsInProbes(rs, LastFailure(before).value + cfg.openTimeout, cfg.halfOpenThreshold)
                        then Closed else HalfOpen
  }

  lemma ReportLeavesCircuit(h: Host, q: Host, rs: seq<Report>, r: Report, cfg: Config)
    requires ValidConfig(cfg) && InOrder(rs + [r])
    requires Tracks(h, Fold(rs, cfg), r.time, cfg.openTimeout) && Tracks(q, Fold(rs + [r], cfg), r.time, cfg.openTimeout)
    ensures LeavesCircuit(Refresh(h, r.time).circuit, q, rs, r, cfg)
    ensures !r.ok && q.circuit == Open ==> q.openUntil == Some(r.time + cfg.openTimeout) && q.openedAt == Some(r.time)
  {
    OneMoreReport(rs, r, 0, cfg);
    if Fold(rs, cfg).Healthy? {
      TripsExactlyAfterFailures(rs, r, cfg);
    } else {
      ClosesExactlyAfterProbes(rs, r, cfg);
      var since := LastFailureOf(rs, r, cfg);
      if !r.ok {
        FailureTripsAnew(rs, r, cfg);
      }
    }
  }

  function Told(h: Host, r: Report, cfg: Config): Host {
    if r.ok then Succeed(h, r.time, cfg) else Fail(h, r.time, cfg)
  }

  lemma HostAfterReport(h: Host, rs: seq<Report>, r: Report, cfg: Config)
    requires ValidConfig(cfg) && InOrder(rs) && forall i | 0 <= i < |rs| :: rs[i].time <= r.time
    requires Tracks(h, Fold(rs, cfg), r.time, cfg.openTimeout)
    ensures LeavesCircuit(Refresh(h, r.time).circuit, Told(h, r, cfg), rs, r, cfg)
    ensures !r.ok && Told(h, r, cfg).circuit == Open ==>
              Told(h, r, cfg).openUntil == Some(r.time + cfg.openTimeout) && Told(h, r, cfg).openedAt == Some(r.time)
  {
    ReportsTrack(h, Fold(rs, cfg), r.time, r.time, cfg);
    OneMoreReport(rs, r, 0, cfg);
    assert r == Report(r.ok, r.time);
    ReportLeavesCircuit(h, Told(h, r, cfg), rs, r, cfg);
  }

  lemma ReportTouches(p: Pool, cfg: Config, k: nat, ok: bool, now: int)
    requires CursorsOk(p) && k < |p.hosts|
    ensures Apply(p, cfg, ReportEvent(k, ok, now)) ==
            (p.(hosts := p.hosts[k := Told(p.hosts[k], Report(ok, now), cfg)]), Recorded)
  {
  }

  // In every reachable pool.
  lemma CircuitAfterReport(sizes: seq<nat>, cfg: Config, es: seq<Event>, k: nat, ok: bool, start: int, now: int)
    requires ValidConfig(cfg) && k < |sizes| && Chronological(start, es, now)
    ensures PoolInv(FreshPool(sizes), cfg) && |After(FreshPool(sizes), cfg, es).hosts| == |sizes|
    ensures var p := After(FreshPool(sizes), cfg, es);
            var (q, o) := Apply(p, cfg, ReportEvent(k, ok, now));
            && o == Recorded && |q.hosts| == |sizes|
            && LeavesCircuit(Refresh(p.hosts[k], now).circuit, q.hosts[k], ReportsOf(k, es), Report(ok, now), cfg)
            && (!ok && q.hosts[k].circuit == Open ==>
                  q.hosts[k].openUntil == Some(now + cfg.openTimeout) && q.hosts[k].openedAt == Some(now))
  {
    ReachableTracks(sizes, cfg, es, k, start, now);
    ReportsChronological(k, es, start, now);
    var p := After(FreshPool(sizes), cfg, es);
    ReportTouches(p, cfg, k, ok, now);
    HostAfterReport(p.hosts[k], ReportsOf(k, es), Report(ok, now), cfg);
  }

  // Host k of the pool may serve a lease, by what was reported of it: it is healthy,
  // or its timeout is over and it has no other lease out.
  ghost predicate MayServe(p: Pool, cfg: Config, es: seq<Event>, k: nat, now: int)
    requires k < |p.hosts|
  {
    var slots := p.hosts[k].slots;
    && (exists j | 0 <= j < |slots| :: !slots[j].inUse)
    && match Fold(ReportsOf(k, es), cfg)
       case Healthy(_) => true
       case Tripped(until, _) => until <= now && forall j | 0 <= j < |slots| :: !slots[j].inUse
  }

  // A turn of Acquire grants a lease exactly if some host may serve one.
  lemma GrantedExactlyWhen(sizes: seq<nat>, cfg: Config, es: seq<Event>, start: int, now: int)
    requires ValidConfig(cfg) && Chronological(start, es, now)
    ensures PoolInv(FreshPool(sizes), cfg)
    ensures var p := After(FreshPool(sizes), cfg, es);
            Apply(p, cfg, Take(now)).1.Granted? <==> exists k | 0 <= k < |p.hosts| :: MayServe(p, cfg, es, k, now)
  {
    FreshPoolInv(sizes, cfg);
    NeverClosing(FreshPool(sizes), cfg, es);
    ShapeKept(FreshPool(sizes), cfg, es);
    var p := After(FreshPool(sizes), cfg, es);
    AcquireByHost(p, now);
    forall k | 0 <= k < |p.hosts|
      ensures Available(p.hosts[k], now) <==> MayServe(p, cfg, es, k, now)
    {
      BreakerRefinesReports(sizes, cfg, es, k, start, now);
      AvailableExactlyWhen(p.hosts[k], cfg, now);
    }
  }
}
