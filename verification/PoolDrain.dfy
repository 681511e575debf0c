// Closing the pool: any number of Close calls, each with a context that may end
// at any time, interleaved with lease traffic. A caller whose context ends while
// it owns the drain hands it to a background goroutine. Each step below is one
// mutex-held section, except Hook, which closes one client with the mutex free.
module PoolDrain {
  import opened Wrappers
  import opened PoolModel
  import opened PoolLaws

  // An error joined from the failures of several clients; [] is nil.
  type Err = seq<int>

  datatype Reply = ContextEnded | Finished(err: Err)

  type Client = (nat, nat)

  datatype Pc =
    | Entry
    | Awaiting
    | Draining
    | Closing(clients: seq<Client>, next: nat, err: Err)
    | Answered(reply: Reply)

  datatype Closer = Closer(pc: Pc, background: bool, expired: bool)

  datatype State = State(
    pool: Pool,
    closeRunning: bool,
    closeErr: Err,
    closers: seq<Closer>,
    hooks: seq<Client>)      // close hooks called so far, oldest first

  datatype Step =
    | Use(event: Event)
    | CallClose
    | Expire(who: nat)
    | Enter(who: nat)
    | Await(who: nat)
    | Drain(who: nat)
    | Hook(who: nat, failure: Option<int>)
    | Publish(who: nat)

  // The clients of the pool, host by host.
  function ClientsOf(hosts: seq<Host>): seq<Client> {
    if hosts == [] then []
    else
      var n := |hosts| - 1;
      ClientsOf(hosts[..n]) + seq(|hosts[n].slots|, k => (n, k))
  }

  ghost predicate Enabled(s: State, st: Step) {
    match st
    case Use(_) => true
    case CallClose => true
    case Expire(i) => i < |s.closers| && !s.closers[i].background
    case Enter(i) => i < |s.closers| && s.closers[i].pc.Entry?
    case Await(i) => i < |s.closers| && s.closers[i].pc.Awaiting?
    case Drain(i) => i < |s.closers| && s.closers[i].pc.Draining?
    case Hook(i, _) => i < |s.closers| && s.closers[i].pc.Closing? && s.closers[i].pc.next < |s.closers[i].pc.clients|
    case Publish(i) => i < |s.closers| && s.closers[i].pc.Closing? && s.closers[i].pc.next == |s.closers[i].pc.clients|
  }

  function Goto(s: State, i: nat, pc: Pc): State
    requires i < |s.closers|
  {
    s.(closers := s.closers[i := s.closers[i].(pc := pc)])
  }

  // scheduleBackgroundCloseLocked, followed by the return of the caller's context error.
  function HandOff(s: State, i: nat): State
    requires i < |s.closers|
  {
    var t := Goto(s, i, Answered(ContextEnded));
    if s.pool.closed then t
    else t.(pool := s.pool.(closing := true), closeRunning := true,
         closers := t.closers + [Closer(Draining, true, false)])
  }

  ghost function Do(s: State, cfg: Config, st: Step): State
    requires CursorsOk(s.pool) && Enabled(s, st)
  {
    match st
    case Use(e) => s.(pool := Apply(s.pool, cfg, e).0)
    case CallClose => s.(closers := s.closers + [Closer(Entry, false, false)])
    case Expire(i) => s.(closers := s.closers[i := s.closers[i].(expired := true)])
    case Enter(i) =>
      if s.pool.closed then Goto(s, i, Answered(Finished(s.closeErr)))
      else if s.closeRunning then Goto(s, i, Awaiting)
      else Goto(s, i, Draining).(pool := s.pool.(closing := true), closeRunning := true)
    case Await(i) =>
      if s.pool.closed then Goto(s, i, Answered(Finished(s.closeErr)))
      else if s.closers[i].expired then Goto(s, i, Answered(ContextEnded))
      else s
    case Drain(i) =>
      if s.closers[i].expired then HandOff(s, i)
      else if TotalInFlight(s.pool.hosts) > 0 then s
      else Goto(s, i, Closing(ClientsOf(s.pool.hosts), 0, []))
    case Hook(i, failure) =>
      var pc := s.closers[i].pc;
      var err := if failure.Some? then pc.err + [failure.value] else pc.err;
      Goto(s, i, Closing(pc.clients, pc.next + 1, err)).(hooks := s.hooks + [pc.clients[pc.next]])
    case Publish(i) =>
      var err := s.closers[i].pc.err;
      Goto(s, i, Answered(Finished(err))).(closeErr := err, closeRunning := false,
      pool := s.pool.(closed := true, closing := false))
  }

  // --- The invariant

  predicate Owns(c: Closer) {
    c.pc.Draining? || c.pc.Closing?
  }

  ghost predicate OwnerState(s: State, owner: Option<nat>) {
    match owner
    case None => s.hooks == if s.pool.closed then ClientsOf(s.pool.hosts) else []
    case Some(i) =>
      && i < |s.closers| && Owns(s.closers[i]) && !s.pool.closed
      && match s.closers[i].pc
         case Closing(clients, next, _) =>
           && clients == ClientsOf(s.pool.hosts) && next <= |clients|
           && s.hooks == clients[..next]
           && TotalInFlight(s.pool.hosts) == 0
         case _ => s.hooks == []
  }

  ghost predicate InvWith(s: State, cfg: Config, owner: Option<nat>) {
    && PoolInv(s.pool, cfg)
    && s.closeRunning == s.pool.closing == owner.Some?
    && OwnerState(s, owner)
    && (s.pool.closed ==> TotalInFlight(s.pool.hosts) == 0)
    && (forall i | 0 <= i < |s.closers| && Owns(s.closers[i]) :: owner == Some(i))
    && (forall i | 0 <= i < |s.closers| && s.closers[i].background :: !s.closers[i].expired)
    && (forall i | 0 <= i < |s.closers| && s.closers[i].pc.Answered? && s.closers[i].pc.reply.Finished? ::
          s.pool.closed && s.closers[i].pc.reply.err == s.closeErr)
  }

  function NextOwner(s: State, owner: Option<nat>, st: Step): Option<nat> {
    match st
    case Enter(i) => if s.pool.closed || s.closeRunning then owner else Some(i)
    case Drain(i) => if i < |s.closers| && s.closers[i].expired then Some(|s.closers|) else owner
    case Publish(i) => None
    case _ => owner
  }

  lemma {:induction false} SameClients(p: seq<Host>, q: seq<Host>)
    requires |p| == |q| && forall i | 0 <= i < |p| :: |p[i].slots| == |q[i].slots|
    ensures ClientsOf(p) == ClientsOf(q)
  {
    if p != [] {
      SameClients(p[..|p| - 1], q[..|q| - 1]);
    }
  }

  lemma {:induction false} TotalNonnegative(hosts: seq<Host>, cfg: Config)
    requires forall i | 0 <= i < |hosts| :: HostInv(hosts[i], cfg)
    ensures TotalInFlight(hosts) >= 0
  {
    if hosts != [] {
      TotalNonnegative(hosts[..|hosts| - 1], cfg);
    }
  }

  // A pool whose leases are all in stays so while it is closing or closed.
  lemma UseKeepsDrained(p: Pool, cfg: Config, e: Event)
    requires ValidConfig(cfg) && PoolInv(p, cfg)
    ensures var q := Apply(p, cfg, e).0;
            && PoolInv(q, cfg) && q.closing == p.closing && q.closed == p.closed
            && ClientsOf(q.hosts) == ClientsOf(p.hosts)
            && ((p.closing || p.closed) && TotalInFlight(p.hosts) == 0 ==> TotalInFlight(q.hosts) == 0)
  {
    var q := Apply(p, cfg, e).0;
    ApplyKeepsInv(p, cfg, e);
    ApplyKeepsShape(p, cfg, e);
    ApplyMovesTotal(p, cfg, e);
    SameClients(p.hosts, q.hosts);
    TotalNonnegative(q.hosts, cfg);
    if e.Take? {
      AcquireByHost(p, e.now);
    }
  }

  lemma UseKeepsInv(s: State, cfg: Config, owner: Option<nat>, e: Event)
    requires ValidConfig(cfg) && InvWith(s, cfg, owner)
    ensures InvWith(s.(pool := Apply(s.pool, cfg, e).0), cfg, owner)
  {
    UseKeepsDrained(s.pool, cfg, e);
  }

  lemma EnterKeepsInv(s: State, cfg: Config, owner: Option<nat>, i: nat)
    requires InvWith(s, cfg, owner) && Enabled(s, Enter(i))
    ensures InvWith(Do(s, cfg, Enter(i)), cfg, NextOwner(s, owner, Enter(i)))
  {
  }

  lemma WaitKeepsInv(s: State, cfg: Config, owner: Option<nat>, st: Step)
    requires InvWith(s, cfg, owner) && Enabled(s, st) && (st.CallClose? || st.Expire?)
    ensures InvWith(Do(s, cfg, st), cfg, owner)
  {
  }

  lemma AwaitKeepsInv(s: State, cfg: Config, owner: Option<nat>, i: nat)
    requires InvWith(s, cfg, owner) && Enabled(s, Await(i))
    ensures InvWith(Do(s, cfg, Await(i)), cfg, owner)
  {
  }

  lemma DrainKeepsInv(s: State, cfg: Config, owner: Option<nat>, i: nat)
    requires InvWith(s, cfg, owner) && Enabled(s, Drain(i))
    ensures InvWith(Do(s, cfg, Drain(i)), cfg, NextOwner(s, owner, Drain(i)))
  {
    TotalNonnegative(s.pool.hosts, cfg);
    assert Owns(s.closers[i]);
  }

  lemma HookKeepsInv(s: State, cfg: Config, owner: Option<nat>, i: nat, failure: Option<int>)
    requires InvWith(s, cfg, owner) && Enabled(s, Hook(i, failure))
    ensures InvWith(Do(s, cfg, Hook(i, failure)), cfg, owner)
  {
    assert Owns(s.closers[i]);
    var pc := s.closers[i].pc;
    assert pc.clients[..pc.next + 1] == pc.clients[..pc.next] + [pc.clients[pc.next]];
  }

  lemma PublishKeepsInv(s: State, cfg: Config, owner: Option<nat>, i: nat)
    requires InvWith(s, cfg, owner) && Enabled(s, Publish(i))
    ensures InvWith(Do(s, cfg, Publish(i)), cfg, None)
  {
    assert Owns(s.closers[i]);
    var pc := s.closers[i].pc;
    assert pc.clients[..pc.next] == pc.clients;
  }

  lemma StepKeepsInv(s: State, cfg: Config, owner: Option<nat>, st: Step)
    requires ValidConfig(cfg) && InvWith(s, cfg, owner) && Enabled(s, st)
    ensures InvWith(Do(s, cfg, st), cfg, NextOwner(s, owner, st))
  {
    match st
    case Use(e) => UseKeepsInv(s, cfg, owner, e);
    case Enter(i) => EnterKeepsInv(s, cfg, owner, i);
    case Await(i) => AwaitKeepsInv(s, cfg, owner, i);
    case Drain(i) => DrainKeepsInv(s, cfg, owner, i);
    case Hook(i, failure) => HookKeepsInv(s, cfg, owner, i, failure);
    case Publish(i) => PublishKeepsInv(s, cfg, owner, i);
    case _ => WaitKeepsInv(s, cfg, owner, st);
  }

  // --- Runs

  ghost predicate Inv(s: State, cfg: Config) {
    exists owner: Option<nat> :: InvWith(s, cfg, owner)
  }

  ghost predicate Init(s: State, cfg: Config) {
    && PoolInv(s.pool, cfg) && !s.pool.closing && !s.pool.closed
    && !s.closeRunning && s.closers == [] && s.hooks == []
  }

  // (CursorsOk is what makes a step meaningful; RunKeepsInv shows it always holds.)
  ghost predicate Next(s: State, t: State, cfg: Config, st: Step) {
    CursorsOk(s.pool) && Enabled(s, st) && t == Do(s, cfg, st)
  }

  ghost predicate IsRun(states: seq<State>, steps: seq<Step>, cfg: Config) {
    && |states| == |steps| + 1
    && Init(states[0], cfg)
    && forall i | 0 <= i < |steps| :: Next(states[i], states[i + 1], cfg, steps[i])
  }

  lemma {:induction false} RunKeepsInv(states: seq<State>, steps: seq<Step>, cfg: Config, i: nat)
    requires ValidConfig(cfg) && IsRun(states, steps, cfg) && i <= |steps|
    ensures Inv(states[i], cfg)
  {
    if i == 0 {
      assert InvWith(states[0], cfg, None);
    } else {
      RunKeepsInv(states, steps, cfg, i - 1);
      assert Next(states[i - 1], states[i], cfg, steps[i - 1]);
      var owner :| InvWith(states[i - 1], cfg, owner);
      StepKeepsInv(states[i - 1], cfg, owner, steps[i - 1]);
    }
  }

  // --- What the protocol guarantees

  // While the pool is closing, exactly one closer (caller or background
  // goroutine) owns the drain; at any other time nobody does.
  lemma ExactlyOneOwner(states: seq<State>, steps: seq<Step>, cfg: Config, i: nat)
    requires ValidConfig(cfg) && IsRun(states, steps, cfg) && i <= |steps|
    ensures var s := states[i];
            && (s.pool.closing <==> exists k | 0 <= k < |s.closers| :: Owns(s.closers[k]))
            && (forall k, m | 0 <= k < |s.closers| && 0 <= m < |s.closers| :: Owns(s.closers[k]) && Owns(s.closers[m]) ==> k == m)
            && !(s.pool.closing && s.pool.closed)
  {
    RunKeepsInv(states, steps, cfg, i);
  }

  lemma {:induction false} ClientsDistinct(hosts: seq<Host>)
    ensures forall c | c in ClientsOf(hosts) :: c.0 < |hosts| && c.1 < |hosts[c.0].slots|
    ensures forall i, j | 0 <= i < j < |ClientsOf(hosts)| :: ClientsOf(hosts)[i] != ClientsOf(hosts)[j]
    ensures forall h: nat, k: nat | h < |hosts| && k < |hosts[h].slots| :: (h, k) in ClientsOf(hosts)
  {
    if hosts != [] {
      var n := |hosts| - 1;
      ClientsDistinct(hosts[..n]);
      var last := seq(|hosts[n].slots|, k => (n, k));
      forall h: nat, k: nat | h < |hosts| && k < |hosts[h].slots|
        ensures (h, k) in ClientsOf(hosts)
      {
        if h < n {
          assert (h, k) in ClientsOf(hosts[..n]);
        } else {
          assert last[k] == (h, k);
        }
      }
    }
  }

  predicate Ahead(c: Client, d: Client) {
    c.0 < d.0 || (c.0 == d.0 && c.1 < d.1)
  }

  // Clients are closed host by host, and those of a host in the order they were made.
  lemma {:induction false} ClientsInOrder(hosts: seq<Host>)
    ensures forall i, j | 0 <= i < j < |ClientsOf(hosts)| :: Ahead(ClientsOf(hosts)[i], ClientsOf(hosts)[j])
  {
    if hosts != [] {
      var n := |hosts| - 1;
      ClientsInOrder(hosts[..n]);
      ClientsDistinct(hosts[..n]);
      var before := ClientsOf(hosts[..n]);
      assert forall i | 0 <= i < |before| :: before[i] in before;
    }
  }

  // Whenever the owner has closed some clients, they are the first ones in that order.
  lemma HooksInOrder(states: seq<State>, steps: seq<Step>, cfg: Config, i: nat, a: nat, b: nat)
    requires ValidConfig(cfg) && IsRun(states, steps, cfg) && i <= |steps|
    requires a < b < |states[i].hooks|
    ensures Ahead(states[i].hooks[a], states[i].hooks[b])
  {
    RunKeepsInv(states, steps, cfg, i);
    ClientsInOrder(states[i].pool.hosts);
  }

  lemma {:induction false} DistinctOnce<T>(s: seq<T>, x: T)
    requires forall i, j | 0 <= i < j < |s| :: s[i] != s[j]
    ensures multiset(s)[x] == if x in s then 1 else 0
  {
    if s != [] {
      var n := |s| - 1;
      DistinctOnce(s[..n], x);
      assert s == s[..n] + [s[n]];
    }
  }

  // Each client's close hook runs at most once, and has run exactly once when
  // the pool is closed; only clients of the pool are closed.
  lemma HookRunsOnce(states: seq<State>, steps: seq<Step>, cfg: Config, i: nat, c: Client)
    requires ValidConfig(cfg) && IsRun(states, steps, cfg) && i <= |steps|
    ensures multiset(states[i].hooks)[c] <= 1
    ensures states[i].pool.closed ==>
              (multiset(states[i].hooks)[c] == 1 <==>
               c.0 < |states[i].pool.hosts| && c.1 < |states[i].pool.hosts[c.0].slots|)
  {
    RunKeepsInv(states, steps, cfg, i);
    ClientsDistinct(states[i].pool.hosts);
    DistinctOnce(states[i].hooks, c);
  }

  lemma {:induction false} ZeroTotalMeansIdle(hosts: seq<Host>, cfg: Config, h: nat)
    requires forall i | 0 <= i < |hosts| :: HostInv(hosts[i], cfg)
    requires TotalInFlight(hosts) == 0 && h < |hosts|
    ensures hosts[h].inFlight == 0
  {
    var n := |hosts| - 1;
    TotalNonnegative(hosts[..n], cfg);
    if h < n {
      ZeroTotalMeansIdle(hosts[..n], cfg, h);
    }
  }

  lemma DrainedHasNoLease(p: Pool, cfg: Config, t: Ticket)
    requires PoolInv(p, cfg) && TotalInFlight(p.hosts) == 0
    ensures !Live(p, t)
  {
    if Live(p, t) {
      ZeroTotalMeansIdle(p.hosts, cfg, t.host);
      BusyClientCounted(p.hosts[t.host].slots, t.slot);
    }
  }

  lemma StepKeepsClosing(s: State, t: State, cfg: Config, st: Step)
    requires ValidConfig(cfg) && Inv(s, cfg) && Next(s, t, cfg, st)
    requires s.pool.closing || s.pool.closed
    ensures t.pool.closing || t.pool.closed
    ensures TotalInFlight(s.pool.hosts) == 0 ==> TotalInFlight(t.pool.hosts) == 0
  {
    if st.Use? {
      UseKeepsDrained(s.pool, cfg, st.event);
    }
  }

  lemma {:induction false} ClosingIsForever(states: seq<State>, steps: seq<Step>, cfg: Config, i: nat, j: nat)
    requires ValidConfig(cfg) && IsRun(states, steps, cfg) && i <= j <= |steps|
    requires states[i].pool.closing || states[i].pool.closed
    ensures states[j].pool.closing || states[j].pool.closed
    ensures TotalInFlight(states[i].pool.hosts) == 0 ==> TotalInFlight(states[j].pool.hosts) == 0
  {
    if i < j {
      ClosingIsForever(states, steps, cfg, i, j - 1);
      RunKeepsInv(states, steps, cfg, j - 1);
      StepKeepsClosing(states[j - 1], states[j], cfg, steps[j - 1]);
    }
  }

  // Once any Close call has started closing, no lease is ever granted again.
  lemma NoGrantOnceClosing(states: seq<State>, steps: seq<Step>, cfg: Config, i: nat, j: nat, now: int)
    requires ValidConfig(cfg) && IsRun(states, steps, cfg) && i <= j < |steps|
    requires states[i].pool.closing || states[i].pool.closed
    requires steps[j] == Use(Take(now))
    ensures CursorsOk(states[j].pool)
    ensures Apply(states[j].pool, cfg, Take(now)).1 == PoolClosed
    ensures states[j + 1] == states[j]
  {
    ClosingIsForever(states, steps, cfg, i, j);
    assert Next(states[j], states[j + 1], cfg, steps[j]);
  }

  // A client is closed only while the pool is closing and when no lease is
  // outstanding, and none is outstanding ever after.
  lemma HooksOnlyWhenDrained(states: seq<State>, steps: seq<Step>, cfg: Config, i: nat, j: nat, t: Ticket)
    requires ValidConfig(cfg) && IsRun(states, steps, cfg) && i < |steps| && i <= j <= |steps|
    requires steps[i].Hook?
    ensures states[i].pool.closing
    ensures !Live(states[j].pool, t)
  {
    RunKeepsInv(states, steps, cfg, i);
    RunKeepsInv(states, steps, cfg, j);
    assert Next(states[i], states[i + 1], cfg, steps[i]);
    ClosingIsForever(states, steps, cfg, i, j);
    DrainedHasNoLease(states[j].pool, cfg, t);
  }

  // Close calls that are not cut short by their context agree on the error, and
  // answer only after every client has been closed.
  lemma FinishedClosesAgree(states: seq<State>, steps: seq<Step>, cfg: Config, i: nat, k: nat, m: nat, c: Client)
    requires ValidConfig(cfg) && IsRun(states, steps, cfg) && i <= |steps|
    requires k < |states[i].closers| && states[i].closers[k].pc.Answered? && states[i].closers[k].pc.reply.Finished?
    requires m < |states[i].closers| && states[i].closers[m].pc.Answered? && states[i].closers[m].pc.reply.Finished?
    requires c in ClientsOf(states[i].pool.hosts)
    ensures states[i].closers[k].pc.reply == states[i].closers[m].pc.reply
    ensures states[i].pool.closed && c in states[i].hooks
  {
    RunKeepsInv(states, steps, cfg, i);
  }

  // --- What Close answers

  // The failures of the clients' close hooks among some steps, in order.
  function Failures(steps: seq<Step>): seq<int> {
    if steps == [] then []
    else
      var n := |steps| - 1;
      var rest := Failures(steps[..n]);
      if steps[n].Hook? && steps[n].failure.Some? then rest + [steps[n].failure.value] else rest
  }

  // The failures so far are with the owner, if it has started to close clients, and
  // with the pool once it is closed.
  ghost predicate HasFailures(s: State, failures: seq<int>) {
    && (s.pool.closed ==> s.closeErr == failures)
    && (!s.pool.closed && (forall k | 0 <= k < |s.closers| :: !s.closers[k].pc.Closing?) ==> failures == [])
    && (forall k | 0 <= k < |s.closers| && s.closers[k].pc.Closing? :: s.closers[k].pc.err == failures)
  }

  lemma QuietStepKeepsFailures(s: State, cfg: Config, st: Step, failures: seq<int>)
    requires ValidConfig(cfg) && Inv(s, cfg) && Enabled(s, st) && HasFailures(s, failures)
    requires !st.Hook? && !st.Publish?
    ensures HasFailures(Do(s, cfg, st), failures)
  {
    if st.Use? {
      UseKeepsDrained(s.pool, cfg, st.event);
    }
    var t := Do(s, cfg, st);
    assert forall k | 0 <= k < |s.closers| && s.closers[k].pc.Closing? :: t.closers[k] == s.closers[k] || t.closers[k].pc == s.closers[k].pc;
    if st.Drain? {
      assert Owns(s.closers[st.who]);
    }
  }

  lemma HookAddsFailure(s: State, cfg: Config, i: nat, failure: Option<int>, failures: seq<int>)
    requires ValidConfig(cfg) && Inv(s, cfg) && Enabled(s, Hook(i, failure)) && HasFailures(s, failures)
    ensures HasFailures(Do(s, cfg, Hook(i, failure)), if failure.Some? then failures + [failure.value] else failures)
  {
    assert Owns(s.closers[i]);
    var t := Do(s, cfg, Hook(i, failure));
    assert t.closers[i].pc.Closing?;
  }

  lemma PublishKeepsFailures(s: State, cfg: Config, i: nat, failures: seq<int>)
    requires ValidConfig(cfg) && Inv(s, cfg) && Enabled(s, Publish(i)) && HasFailures(s, failures)
    ensures HasFailures(Do(s, cfg, Publish(i)), failures)
  {
    assert Owns(s.closers[i]);
  }

  lemma StepKeepsFailures(s: State, cfg: Config, steps: seq<Step>, st: Step)
    requires ValidConfig(cfg) && Inv(s, cfg) && Enabled(s, st) && HasFailures(s, Failures(steps))
    ensures HasFailures(Do(s, cfg, st), Failures(steps + [st]))
  {
    assert (steps + [st])[..|steps|] == steps;
    match st
    case Hook(i, failure) => HookAddsFailure(s, cfg, i, failure, Failures(steps));
    case Publish(i) => PublishKeepsFailures(s, cfg, i, Failures(steps));
    case _ => QuietStepKeepsFailures(s, cfg, st, Failures(steps));
  }

  lemma {:induction false} RunHasFailures(states: seq<State>, steps: seq<Step>, cfg: Config, i: nat)
    requires ValidConfig(cfg) && IsRun(states, steps, cfg) && i <= |steps|
    ensures HasFailures(states[i], Failures(steps[..i]))
  {
    if i > 0 {
      RunKeepsInv(states, steps, cfg, i - 1);
      RunHasFailures(states, steps, cfg, i - 1);
      assert Next(states[i - 1], states[i], cfg, steps[i - 1]);
      assert steps[..i] == steps[..i - 1] + [steps[i - 1]];
      StepKeepsFailures(states[i - 1], cfg, steps[..i - 1], steps[i - 1]);
    }
  }

  lemma {:induction false} NoFailuresWhen(steps: seq<Step>)
    ensures Failures(steps) == [] <==> forall j | 0 <= j < |steps| && steps[j].Hook? :: steps[j].failure.None?
  {
    if steps != [] {
      NoFailuresWhen(steps[..|steps| - 1]);
    }
  }

  // A Close call that is not cut short answers with the failures of all the close
  // hooks, in the order they were called: with none exactly if no hook failed.
  lemma CloseAnswersFailures(states: seq<State>, steps: seq<Step>, cfg: Config, i: nat, k: nat)
    requires ValidConfig(cfg) && IsRun(states, steps, cfg) && i <= |steps|
    requires k < |states[i].closers| && states[i].closers[k].pc.Answered? && states[i].closers[k].pc.reply.Finished?
    ensures states[i].closers[k].pc.reply.err == Failures(steps[..i])
    ensures states[i].closers[k].pc.reply.err == [] <==>
            forall j | 0 <= j < i && steps[j].Hook? :: steps[j].failure.None?
  {
    RunKeepsInv(states, steps, cfg, i);
    RunHasFailures(states, steps, cfg, i);
    NoFailuresWhen(steps[..i]);
    assert forall j | 0 <= j < i :: steps[..i][j] == steps[j];
  }

  // Closer k has answered that its context ended.
  predicate GaveUp(s: State, k: nat) {
    k < |s.closers| && s.closers[k].pc == Answered(ContextEnded)
  }

  lemma GivesUpOnlyWhenExpired(s: State, cfg: Config, st: Step, k: nat)
    requires CursorsOk(s.pool) && Enabled(s, st) && !GaveUp(s, k) && GaveUp(Do(s, cfg, st), k)
    ensures k < |s.closers| && s.closers[k].expired && (st == Await(k) || st == Drain(k))
  {
  }

  // A call answers with its context's error only if the context has ended.
  lemma {:induction false} GaveUpAfterExpiry(states: seq<State>, steps: seq<Step>, cfg: Config, i: nat, k: nat)
    requires ValidConfig(cfg) && IsRun(states, steps, cfg) && i <= |steps|
    requires k < |states[i].closers| && (GaveUp(states[i], k) || states[i].closers[k].expired)
    ensures exists j :: 0 <= j < i && steps[j] == Expire(k)
  {
    assert Init(states[0], cfg);
    assert Next(states[i - 1], states[i], cfg, steps[i - 1]);
    var s := states[i - 1];
    if k < |s.closers| && (GaveUp(s, k) || s.closers[k].expired) {
      GaveUpAfterExpiry(states, steps, cfg, i - 1, k);
    } else if GaveUp(states[i], k) {
      GivesUpOnlyWhenExpired(s, cfg, steps[i - 1], k);
    }
  }

  // A look ends the wait of a call that waits for another one exactly if the pool is
  // closed or the context has ended; and that of the owner exactly if no lease is out
  // or its context has ended.
  lemma LooksEndWaits(s: State, cfg: Config, k: nat)
    requires CursorsOk(s.pool) && k < |s.closers|
    ensures s.closers[k].pc.Awaiting? ==>
              (Do(s, cfg, Await(k)).closers[k].pc.Answered? <==> s.pool.closed || s.closers[k].expired)
    ensures s.closers[k].pc.Draining? ==>
              (Do(s, cfg, Drain(k)).closers[k].pc.Draining? <==>
                 !s.closers[k].expired && TotalInFlight(s.pool.hosts) > 0)
    ensures s.closers[k].pc.Draining? && s.closers[k].expired ==> GaveUp(Do(s, cfg, Drain(k)), k)
  {
  }

  // Closer k, if it is a background goroutine, owns the drain or has finished it.
  ghost predicate BackgroundBusy(s: State, k: nat) {
    k < |s.closers| && s.closers[k].background ==> Owns(s.closers[k]) || s.pool.closed
  }

  lemma BackgroundStep(s: State, t: State, cfg: Config, st: Step, k: nat)
    requires ValidConfig(cfg) && Inv(s, cfg) && Next(s, t, cfg, st)
    requires BackgroundBusy(s, k)
    ensures BackgroundBusy(t, k)
  {
    if st.Use? {
      UseKeepsDrained(s.pool, cfg, st.event);
    }
  }

  // The background goroutine is never cut short: until the pool is closed, it owns the drain.
  lemma {:induction false} BackgroundFinishes(states: seq<State>, steps: seq<Step>, cfg: Config, i: nat, k: nat)
    requires ValidConfig(cfg) && IsRun(states, steps, cfg) && i <= |steps|
    ensures BackgroundBusy(states[i], k)
  {
    if i > 0 {
      RunKeepsInv(states, steps, cfg, i - 1);
      BackgroundFinishes(states, steps, cfg, i - 1, k);
      assert Next(states[i - 1], states[i], cfg, steps[i - 1]);
      BackgroundStep(states[i - 1], states[i], cfg, steps[i - 1], k);
    }
  }

  // --- Progress

  predicate OwnersStep(st: Step) {
    st.Drain? || st.Hook? || st.Publish?
  }

  // While the pool is closing, its one owner has a step of its own.
  lemma OwnerCanMove(s: State, cfg: Config) returns (st: Step)
    requires Inv(s, cfg) && s.pool.closing
    ensures OwnersStep(st) && Enabled(s, st)
  {
    var owner: Option<nat> :| InvWith(s, cfg, owner);
    var i := owner.value;
    var pc := s.closers[i].pc;
    st := if pc.Draining? then Drain(i) else if pc.next < |pc.clients| then Hook(i, None) else Publish(i);
  }

  // How many steps of its own an owner has before it at most, once no lease is out:
  // to look, or to hand over and let the background look; a hook for every client;
  // and to publish.
  function StepsLeft(s: State, c: Closer): nat {
    match c.pc
    case Draining => |ClientsOf(s.pool.hosts)| + (if c.background then 2 else 3)
    case Closing(clients, next, _) => if next <= |clients| then |clients| - next + 1 else 0
    case _ => 0
  }

  ghost predicate OwnerWithin(s: State, r: int) {
    forall k | 0 <= k < |s.closers| && Owns(s.closers[k]) :: StepsLeft(s, s.closers[k]) <= r
  }

  lemma OthersDoNotDelay(s: State, cfg: Config, st: Step, r: int)
    requires ValidConfig(cfg) && Inv(s, cfg) && Enabled(s, st) && !OwnersStep(st)
    requires (s.pool.closing || s.pool.closed) && OwnerWithin(s, r)
    ensures OwnerWithin(Do(s, cfg, st), r)
  {
    if st.Use? {
      UseKeepsDrained(s.pool, cfg, st.event);
    }
  }

  lemma OwnerAdvances(s: State, cfg: Config, st: Step, r: int)
    requires Inv(s, cfg) && Enabled(s, st) && OwnersStep(st)
    requires s.pool.closing && TotalInFlight(s.pool.hosts) == 0 && OwnerWithin(s, r)
    ensures r > 0 && OwnerWithin(Do(s, cfg, st), r - 1)
  {
    var owner: Option<nat> :| InvWith(s, cfg, owner);
    var i := owner.value;
    assert Owns(s.closers[st.who]);
    assert st.who == i && StepsLeft(s, s.closers[i]) <= r;
  }

  // How many of the steps i up to j are the owner's.
  function OwnersSteps(steps: seq<Step>, i: nat, j: nat): nat
    requires i <= j <= |steps|
  {
    if i == j then 0 else OwnersSteps(steps, i, j - 1) + (if OwnersStep(steps[j - 1]) then 1 else 0)
  }

  // Step m of a run brings the end nearer if it is the owner's, and else no further.
  ghost predicate NearsEnd(states: seq<State>, steps: seq<Step>, m: nat)
    requires m < |steps| < |states|
  {
    forall r: int | ClosesWithin(states[m], r) :: ClosesWithin(states[m + 1], if OwnersStep(steps[m]) then r - 1 else r)
  }

  lemma DrainedStepNearsEnd(states: seq<State>, steps: seq<Step>, cfg: Config, i: nat, m: nat)
    requires ValidConfig(cfg) && IsRun(states, steps, cfg) && i <= m < |steps|
    requires states[i].pool.closing && TotalInFlight(states[i].pool.hosts) == 0
    ensures NearsEnd(states, steps, m)
  {
    RunKeepsInv(states, steps, cfg, m);
    ClosingIsForever(states, steps, cfg, i, m);
    assert Next(states[m], states[m + 1], cfg, steps[m]);
    forall r: int | ClosesWithin(states[m], r)
      ensures ClosesWithin(states[m + 1], if OwnersStep(steps[m]) then r - 1 else r)
    {
      StepWithin(states[m], cfg, steps[m], r);
    }
  }

  lemma {:induction false} DrainCounts(states: seq<State>, steps: seq<Step>, i: nat, j: nat, r: int)
    requires i <= j <= |steps| < |states| && ClosesWithin(states[i], r)
    requires forall m | i <= m < j :: NearsEnd(states, steps, m)
    ensures ClosesWithin(states[j], r - OwnersSteps(steps, i, j))
  {
    if i < j {
      DrainCounts(states, steps, i, j - 1, r);
      assert NearsEnd(states, steps, j - 1);
    }
  }

  // Whatever else goes on, once the pool is closing and no lease is out, as many
  // steps of its owners as there are clients, and three more, close it.
  lemma DrainCompletes(states: seq<State>, steps: seq<Step>, cfg: Config, i: nat, j: nat)
    requires ValidConfig(cfg) && IsRun(states, steps, cfg) && i <= j <= |steps|
    requires states[i].pool.closing && TotalInFlight(states[i].pool.hosts) == 0
    requires OwnersSteps(steps, i, j) >= |ClientsOf(states[i].pool.hosts)| + 3
    ensures states[j].pool.closed
  {
    var r := |ClientsOf(states[i].pool.hosts)| + 3;
    RunKeepsInv(states, steps, cfg, i);
    StartsWithin(states[i], cfg);
    forall m | i <= m < j
      ensures NearsEnd(states, steps, m)
    {
      DrainedStepNearsEnd(states, steps, cfg, i, m);
    }
    DrainCounts(states, steps, i, j, r);
    RunKeepsInv(states, steps, cfg, j);
    SomeStepsLeft(states[j], cfg, r - OwnersSteps(steps, i, j));
  }

  // The pool is closed, or it is closing and its owner has at most r steps left.
  ghost predicate ClosesWithin(s: State, r: int) {
    s.pool.closed || (s.pool.closing && OwnerWithin(s, r))
  }

  lemma StepWithin(s: State, cfg: Config, st: Step, r: int)
    requires ValidConfig(cfg) && Inv(s, cfg) && Enabled(s, st)
    requires TotalInFlight(s.pool.hosts) == 0 && ClosesWithin(s, r)
    ensures ClosesWithin(Do(s, cfg, st), if OwnersStep(st) then r - 1 else r)
  {
    StepKeepsClosing(s, Do(s, cfg, st), cfg, st);
    if s.pool.closed {
      StaysClosed(s, cfg, st);
    } else if OwnersStep(st) {
      OwnerAdvances(s, cfg, st, r);
    } else {
      OthersDoNotDelay(s, cfg, st, r);
    }
  }

  lemma StartsWithin(s: State, cfg: Config)
    requires Inv(s, cfg) && s.pool.closing
    ensures ClosesWithin(s, |ClientsOf(s.pool.hosts)| + 3)
  {
  }

  lemma StaysClosed(s: State, cfg: Config, st: Step)
    requires ValidConfig(cfg) && Inv(s, cfg) && Enabled(s, st) && s.pool.closed
    ensures Do(s, cfg, st).pool.closed
  {
    if st.Use? {
      UseKeepsDrained(s.pool, cfg, st.event);
    }
  }

  lemma SomeStepsLeft(s: State, cfg: Config, r: int)
    requires Inv(s, cfg) && ClosesWithin(s, r)
    ensures r > 0 || s.pool.closed
  {
    if !s.pool.closed {
      var owner: Option<nat> :| InvWith(s, cfg, owner);
      assert StepsLeft(s, s.closers[owner.value]) > 0;
    }
  }
}
