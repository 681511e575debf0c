// The runtime around a provider that arrives late: one finish hands it over, any
// number of Close calls may run before, during and after that, and the close hook
// handed over with it must run at most once.
module ProviderRuntime {
  import opened Wrappers

  // Providers and hooks are known by number; None is nil.
  datatype Fields = Fields(provider: Option<nat>, closeFn: Option<nat>, closeRequested: bool,
                           done: bool, closeErr: Option<string>)

  // --- The sections under the lock

  function Handed(f: Fields, provider: Option<nat>, closeFn: Option<nat>): Fields {
    f.(provider := provider, closeFn := closeFn)
  }

  function Taken(f: Fields): Fields {
    f.(provider := None, closeFn := None)
  }

  function Current(f: Fields): Option<nat> {
    if f.closeRequested then None else f.provider
  }

  class Runtime {
    var provider: Option<nat>
    var closeFn: Option<nat>
    var closeRequested: bool
    var done: bool
    var closeErr: Option<string>

    constructor ()
      ensures View() == Fields(None, None, false, false, None)
    {
      provider, closeFn, closeRequested, done, closeErr := None, None, false, false, None;
    }

    function View(): Fields
      reads this
    {
      Fields(provider, closeFn, closeRequested, done, closeErr)
    }

    // The methods below are what the steps of the machine do to the fields; s is any
    // state of it that has these fields.

    method HandOver(p: Option<nat>, fn: Option<nat>, ghost s: State) returns (closeAfterFinish: bool)
      requires s.fields == View() && Enabled(s, Finish(p, fn))
      modifies this
      ensures Step(s, Finish(p, fn)).fields == View()
      ensures closeAfterFinish <==> ClosesItself(Step(s, Finish(p, fn)))
    {
      closeAfterFinish := false;
      if closeRequested {
        closeAfterFinish := fn.Some?;
      }
      provider := p;
      closeFn := fn;
    }

    method CloseDone(ghost s: State)
      requires s.fields == View() && Enabled(s, Signal)
      modifies this
      ensures Step(s, Signal).fields == View()
    {
      done := true;
    }

    method GetCurrent() returns (p: Option<nat>)
      ensures p == Current(View())
    {
      if closeRequested {
        return None;
      }
      p := provider;
    }

    method RequestClose(ghost s: State, ghost c: nat)
      requires s.fields == View() && Enabled(s, CloseCalled(c))
      modifies this
      ensures Step(s, CloseCalled(c)).fields == View()
    {
      closeRequested := true;
    }

    method TakeHook(ghost s: State, ghost c: nat) returns (fn: Option<nat>)
      requires s.fields == View() && Enabled(s, TakesHook(c))
      modifies this
      ensures Step(s, TakesHook(c)).fields == View() && Step(s, TakesHook(c)).closers[c] == Took(fn)
    {
      fn := closeFn;
      provider := None;
      closeFn := None;
    }

    // err is what the hook returned, or nil if there was none.
    method StoreError(err: Option<string>, ghost s: State, ghost c: nat)
      requires s.fields == View() && Enabled(s, StoresError(c))
      requires s.closers[c] == HookReturned(err) || (s.closers[c] == Took(None) && err.None?)
      modifies this
      ensures Step(s, StoresError(c)).fields == View() && Step(s, StoresError(c)).closers[c] == Stored(err)
    {
      closeErr := err;
    }

    // What a Close call answers.
    method CloseError(ghost s: State, ghost c: nat) returns (err: Option<string>)
      requires s.fields == View() && Enabled(s, CloseReturns(c))
      ensures Step(s, CloseReturns(c)) == s.(closers := s.closers[c := Returned(err)])
    {
      err := closeErr;
    }
  }

  // --- The machine: finish and any number of Close calls, step by step

  // finish: asked records whether closing had been requested when the provider was
  // handed over.
  datatype Finisher = NotCalled | HandedOver(asked: bool) | Signalled(asked: bool) | Finished(asked: bool)

  datatype Closer =
    | Requested                                // closeRequested is set
    | Blocked                                  // in the inner select: done or the context
    | Passed                                   // done was seen closed
    | Owner                                    // inside closeOnce
    | Took(fn: Option<nat>)
    | InHook
    | HookReturned(err: Option<string>)
    | Stored(err: Option<string>)
    | AfterOnce
    | Returned(err: Option<string>)
    | Expired                                  // returned the error of its context

  datatype Once = Unused | Running(owner: nat) | Used

  // given is the hook handed to finish; starts and ends count the hook's runs.
  // Closer 0 is the Close call that finish itself makes.
  datatype State = State(fields: Fields, finisher: Finisher, closers: map<nat, Closer>, once: Once,
                         given: Option<nat>, starts: nat, ends: nat)

  const START := State(Fields(None, None, false, false, None), NotCalled, map[], Unused, None, 0, 0)

  datatype Event =
    | Finish(provider: Option<nat>, closeFn: Option<nat>)
    | Signal
    | FinishReturns
    | CloseCalled(c: nat)
    | SeesDone(c: nat)
    | Blocks(c: nat)
    | Expires(c: nat)
    | EntersOnce(c: nat)
    | TakesHook(c: nat)
    | HookStarts(c: nat)
    | HookEnds(c: nat, err: Option<string>)
    | StoresError(c: nat)
    | LeavesOnce(c: nat)
    | FindsOnceUsed(c: nat)
    | CloseReturns(c: nat)

  predicate Is(s: State, c: nat, p: Closer) {
    c in s.closers && s.closers[c] == p
  }

  // finish closes the provider itself when closing was requested before it.
  predicate ClosesItself(s: State) {
    s.finisher != NotCalled && s.finisher.asked && s.given.Some?
  }

  predicate Enabled(s: State, ev: Event) {
    match ev
    case Finish(_, _) => s.finisher == NotCalled
    case Signal => s.finisher.HandedOver?
    case FinishReturns =>
      s.finisher.Signalled? && (ClosesItself(s) ==> 0 in s.closers && (s.closers[0].Returned? || s.closers[0].Expired?))
    case CloseCalled(c) => c !in s.closers && (c == 0 ==> s.finisher.Signalled? && ClosesItself(s))
    case SeesDone(c) => s.fields.done && (Is(s, c, Requested) || Is(s, c, Blocked))
    case Blocks(c) => !s.fields.done && Is(s, c, Requested)
    case Expires(c) => Is(s, c, Blocked)
    case EntersOnce(c) => Is(s, c, Passed) && s.once == Unused
    case TakesHook(c) => Is(s, c, Owner)
    case HookStarts(c) => c in s.closers && s.closers[c].Took? && s.closers[c].fn.Some?
    case HookEnds(c, _) => Is(s, c, InHook)
    case StoresError(c) =>
      c in s.closers && (s.closers[c].HookReturned? || s.closers[c] == Took(None))
    case LeavesOnce(c) => c in s.closers && s.closers[c].Stored?
    case FindsOnceUsed(c) => Is(s, c, Passed) && s.once == Used
    case CloseReturns(c) => Is(s, c, AfterOnce)
  }

  function Move(s: State, c: nat, p: Closer): State {
    s.(closers := s.closers[c := p])
  }

  function Step(s: State, ev: Event): State
    requires Enabled(s, ev)
  {
    match ev
    case Finish(p, fn) =>
      s.(fields := Handed(s.fields, p, fn), given := fn, finisher := HandedOver(s.fields.closeRequested))
    case Signal => s.(fields := s.fields.(done := true), finisher := Signalled(s.finisher.asked))
    case FinishReturns => s.(finisher := Finished(s.finisher.asked))
    case CloseCalled(c) => Move(s.(fields := s.fields.(closeRequested := true)), c, Requested)
    case SeesDone(c) => Move(s, c, Passed)
    case Blocks(c) => Move(s, c, Blocked)
    case Expires(c) => Move(s, c, Expired)
    case EntersOnce(c) => Move(s.(once := Running(c)), c, Owner)
    case TakesHook(c) => Move(s.(fields := Taken(s.fields)), c, Took(s.fields.closeFn))
    case HookStarts(c) => Move(s.(starts := s.starts + 1), c, InHook)
    case HookEnds(c, err) => Move(s.(ends := s.ends + 1), c, HookReturned(err))
    case StoresError(c) =>
      var err := if s.closers[c].HookReturned? then s.closers[c].err else None;
      Move(s.(fields := s.fields.(closeErr := err)), c, Stored(err))
    case LeavesOnce(c) => Move(s.(once := Used), c, AfterOnce)
    case FindsOnceUsed(c) => Move(s, c, AfterOnce)
    case CloseReturns(c) => Move(s, c, Returned(s.fields.closeErr))
  }

  // --- The invariant

  function Runs(given: Option<nat>): nat {
    if given.Some? then 1 else 0
  }

  ghost predicate FinisherOk(s: State) {
    && (s.fields.done <==> s.finisher.Signalled? || s.finisher.Finished?)
    && (s.finisher == NotCalled ==> s.given.None? && s.fields.closeFn.None? && s.fields.provider.None?)
    && (0 in s.closers ==>
          && (s.finisher.Signalled? || s.finisher.Finished?) && ClosesItself(s)
          && s.closers[0] != Blocked && s.closers[0] != Expired)
    && (s.finisher.Finished? && ClosesItself(s) ==> 0 in s.closers && s.closers[0].Returned?)
    && (s.finisher != NotCalled && s.finisher.asked ==> s.fields.closeRequested)
  }

  // Inside closeOnce.
  predicate Inside(p: Closer) {
    p.Owner? || p.Took? || p.InHook? || p.HookReturned? || p.Stored?
  }

  ghost predicate CloserOk(s: State, c: nat)
    requires c in s.closers
  {
    var p := s.closers[c];
    && s.fields.closeRequested
    && (p.Requested? || p.Blocked? || p.Expired? || s.fields.done)
    && (Inside(p) <==> s.once == Running(c))
    && (p.AfterOnce? || p.Returned? ==> s.once == Used)
    && (p.Returned? ==> p.err == s.fields.closeErr)
  }

  predicate LetGo(f: Fields) {
    f.provider.None? && f.closeFn.None?
  }

  // How far the hook has got, by where closeOnce stands.
  ghost predicate OnceOk(s: State) {
    match s.once
    case Unused => s.starts == s.ends == 0 && s.fields.closeFn == s.given && s.fields.closeErr.None?
    case Used => s.fields.done && s.starts == s.ends == Runs(s.given) && LetGo(s.fields)
    case Running(c) =>
      && s.fields.done
      && c in s.closers
      && match s.closers[c]
         case Owner => s.starts == s.ends == 0 && s.fields.closeFn == s.given
         case Took(fn) => s.starts == s.ends == 0 && fn == s.given && LetGo(s.fields)
         case InHook => s.starts == 1 && s.ends == 0 && s.given.Some? && LetGo(s.fields)
         case HookReturned(_) => s.starts == s.ends == 1 && s.given.Some? && LetGo(s.fields)
         case Stored(err) => s.starts == s.ends == Runs(s.given) && err == s.fields.closeErr && LetGo(s.fields)
         case _ => false
  }

  ghost predicate Inv(s: State) {
    FinisherOk(s) && OnceOk(s) && forall c | c in s.closers :: CloserOk(s, c)
  }

  // finish and its shutdown step.
  lemma FinishKeepsInv(s: State, ev: Event)
    requires Inv(s) && Enabled(s, ev) && (ev.Finish? || ev.Signal? || ev.FinishReturns?)
    ensures Inv(Step(s, ev))
  {
    var t := Step(s, ev);
    forall c | c in t.closers
      ensures CloserOk(t, c)
    {
      assert CloserOk(s, c);
    }
  }

  // What one Close call does does not concern the others.
  ghost predicate OnlyMoves(s: State, t: State, c: nat) {
    && (forall b | b != c :: (b in t.closers <==> b in s.closers) && (b in s.closers ==> t.closers[b] == s.closers[b]))
    && t.fields.done == s.fields.done
    && (s.fields.closeRequested ==> t.fields.closeRequested)
  }

  lemma OthersStayOk(s: State, t: State, c: nat)
    requires Inv(s) && OnlyMoves(s, t, c)
    requires (forall b | b != c :: t.once == Running(b) <==> s.once == Running(b)) && (s.once == Used ==> t.once == Used)
    requires t.fields.closeErr == s.fields.closeErr || s.once != Used
    ensures forall b | b in t.closers && b != c :: CloserOk(t, b)
  {
    forall b | b in t.closers && b != c
      ensures CloserOk(t, b)
    {
      assert CloserOk(s, b);
    }
  }

  // A Close call that starts, or waits for finish.
  lemma WaitKeepsInv(s: State, ev: Event, c: nat)
    requires Inv(s) && Enabled(s, ev) && ev in {CloseCalled(c), Blocks(c), Expires(c)}
    ensures Inv(Step(s, ev))
  {
    assert c in s.closers ==> CloserOk(s, c);
    OthersStayOk(s, Step(s, ev), c);
  }

  // A Close call that passes the wait, or closeOnce.
  lemma PassKeepsInv(s: State, ev: Event, c: nat)
    requires Inv(s) && Enabled(s, ev) && ev in {SeesDone(c), FindsOnceUsed(c), CloseReturns(c)}
    ensures Inv(Step(s, ev))
  {
    assert CloserOk(s, c);
    OthersStayOk(s, Step(s, ev), c);
  }

  // The Close call that enters closeOnce, up to the hook.
  lemma TakeKeepsInv(s: State, ev: Event, c: nat)
    requires Inv(s) && Enabled(s, ev) && ev in {EntersOnce(c), TakesHook(c), HookStarts(c)}
    ensures Inv(Step(s, ev))
  {
    assert CloserOk(s, c);
    OthersStayOk(s, Step(s, ev), c);
  }

  // And from the end of the hook on.
  lemma LeaveKeepsInv(s: State, ev: Event, c: nat)
    requires Inv(s) && Enabled(s, ev)
    requires (ev.HookEnds? && ev.c == c) || ev in {StoresError(c), LeavesOnce(c)}
    ensures Inv(Step(s, ev))
  {
    assert CloserOk(s, c);
    OthersStayOk(s, Step(s, ev), c);
  }

  lemma StepKeepsInv(s: State, ev: Event)
    requires Inv(s) && Enabled(s, ev)
    ensures Inv(Step(s, ev))
  {
    if ev.Finish? || ev.Signal? || ev.FinishReturns? {
      FinishKeepsInv(s, ev);
    } else if ev.EntersOnce? || ev.TakesHook? || ev.HookStarts? {
      TakeKeepsInv(s, ev, ev.c);
    } else if ev.HookEnds? || ev.StoresError? || ev.LeavesOnce? {
      LeaveKeepsInv(s, ev, ev.c);
    } else if ev.CloseCalled? || ev.Blocks? || ev.Expires? {
      WaitKeepsInv(s, ev, ev.c);
    } else {
      PassKeepsInv(s, ev, ev.c);
    }
  }

  // --- Runs

  function After(evs: seq<Event>): Option<State> {
    if evs == [] then Some(START)
    else
      var before := After(evs[..|evs| - 1]);
      if before.Some? && Enabled(before.value, evs[|evs| - 1]) then Some(Step(before.value, evs[|evs| - 1])) else None
  }

  lemma {:induction false} ReachableInv(evs: seq<Event>)
    requires After(evs).Some?
    ensures Inv(After(evs).value)
  {
    if evs != [] {
      ReachableInv(evs[..|evs| - 1]);
      StepKeepsInv(After(evs[..|evs| - 1]).value, evs[|evs| - 1]);
    }
  }

  lemma HookRunsAtMostOnce(evs: seq<Event>)
    requires After(evs).Some?
    ensures After(evs).value.ends <= After(evs).value.starts <= Runs(After(evs).value.given)
  {
    ReachableInv(evs);
  }

  // A Close call that does not give up on its context returns only once the hook, if
  // there is one, has run to its end; and all such calls return the same error.
  lemma CloseWaitsForTheHook(evs: seq<Event>, c: nat)
    requires After(evs).Some? && c in After(evs).value.closers && After(evs).value.closers[c].Returned?
    ensures After(evs).value.ends == Runs(After(evs).value.given)
    ensures After(evs).value.closers[c].err == After(evs).value.fields.closeErr
  {
    ReachableInv(evs);
    assert CloserOk(After(evs).value, c);
  }

  // From the taking of the hook on, the runtime holds on to neither provider nor hook.
  lemma ClosedLetsGo(evs: seq<Event>, c: nat)
    requires After(evs).Some? && c in After(evs).value.closers
    requires var p := After(evs).value.closers[c];
             p.Took? || p.InHook? || p.HookReturned? || p.Stored? || p.AfterOnce? || p.Returned?
    ensures After(evs).value.fields.provider.None? && After(evs).value.fields.closeFn.None?
  {
    ReachableInv(evs);
    assert CloserOk(After(evs).value, c);
  }

  // What has become of the error the hook ended with.
  ghost predicate CarriesError(s: State, err: Option<string>) {
    match s.once
    case Unused => false
    case Used => s.fields.closeErr == err
    case Running(c) => c in s.closers && (s.closers[c] == HookReturned(err) || s.closers[c] == Stored(err))
  }

  lemma StepCarriesError(s: State, ev: Event, err: Option<string>)
    requires Inv(s) && Enabled(s, ev) && s.given.Some? && s.ends == 1 && CarriesError(s, err)
    ensures Step(s, ev).ends == 1 ==> CarriesError(Step(s, ev), err)
  {
    forall c | c in s.closers
      ensures CloserOk(s, c)
    {
    }
  }

  lemma HookEndCarriesError(s: State, ev: Event)
    requires Inv(s) && Enabled(s, ev) && s.ends == 0 && Step(s, ev).ends == 1
    ensures s.given.Some? ==> ev.HookEnds? && CarriesError(Step(s, ev), ev.err)
  {
    if ev.HookEnds? {
      assert CloserOk(s, ev.c);
    }
  }

  lemma {:induction false} HookErrorIsCarried(evs: seq<Event>) returns (k: nat)
    requires After(evs).Some? && After(evs).value.given.Some? && After(evs).value.ends == 1
    ensures k < |evs| && evs[k].HookEnds? && CarriesError(After(evs).value, evs[k].err)
  {
    var before := After(evs[..|evs| - 1]).value;
    var ev := evs[|evs| - 1];
    ReachableInv(evs[..|evs| - 1]);
    ReachableInv(evs);
    if before.ends == 1 && before.given.Some? {
      k := HookErrorIsCarried(evs[..|evs| - 1]);
      StepCarriesError(before, ev, evs[k].err);
    } else {
      HookEndCarriesError(before, ev);
      k := |evs| - 1;
    }
  }

  // A Close call that does not give up answers with the error that the hook returned,
  // and with none if there was no hook.
  lemma CloseAnswersTheHooksError(evs: seq<Event>, c: nat) returns (k: nat)
    requires After(evs).Some? && c in After(evs).value.closers && After(evs).value.closers[c].Returned?
    ensures After(evs).value.given.None? ==> After(evs).value.closers[c].err.None?
    ensures After(evs).value.given.Some? ==>
              k < |evs| && evs[k].HookEnds? && After(evs).value.closers[c].err == evs[k].err
  {
    k := 0;
    var s := After(evs).value;
    ReachableInv(evs);
    assert CloserOk(s, c);
    CloseWaitsForTheHook(evs, c);
    if s.given.Some? {
      k := HookErrorIsCarried(evs);
    } else {
      NoHookNoError(evs);
    }
  }

  lemma {:induction false} NoHookNoError(evs: seq<Event>)
    requires After(evs).Some? && After(evs).value.given.None?
    ensures After(evs).value.fields.closeErr.None?
  {
    if evs != [] {
      var before := After(evs[..|evs| - 1]).value;
      ReachableInv(evs[..|evs| - 1]);
      if evs[|evs| - 1].StoresError? {
        assert CloserOk(before, evs[|evs| - 1].c);
      }
      NoHookNoError(evs[..|evs| - 1]);
    }
  }

  // The hand-over of p and fn is what counts, until a Close call is made.
  ghost predicate HandedOverIs(s: State, p: Option<nat>, fn: Option<nat>) {
    && s.finisher != NotCalled && s.given == fn
    && (s.closers == map[] ==> !s.fields.closeRequested && Current(s.fields) == p)
  }

  lemma HandedOverStays(s: State, ev: Event, p: Option<nat>, fn: Option<nat>)
    requires Inv(s) && Enabled(s, ev) && HandedOverIs(s, p, fn)
    ensures HandedOverIs(Step(s, ev), p, fn)
  {
  }

  lemma FinishHandsOver(s: State, p: Option<nat>, fn: Option<nat>)
    requires Inv(s) && Enabled(s, Finish(p, fn)) && (s.closers == map[] ==> !s.fields.closeRequested)
    ensures HandedOverIs(Step(s, Finish(p, fn)), p, fn)
  {
  }

  // Until a Close call is made, the provider is the one that finish handed over, and
  // there is none before; and the hook is the one handed over with it.
  lemma {:induction false} CurrentIsHandedOver(evs: seq<Event>) returns (k: nat)
    requires After(evs).Some?
    ensures After(evs).value.finisher == NotCalled ==>
              Current(After(evs).value.fields) == None && forall i | 0 <= i < |evs| :: !evs[i].Finish?
    ensures After(evs).value.finisher != NotCalled ==>
              k < |evs| && evs[k].Finish? && HandedOverIs(After(evs).value, evs[k].provider, evs[k].closeFn)
  {
    k := 0;
    ReachableInv(evs);
    if evs != [] {
      var n := |evs| - 1;
      var before := After(evs[..n]).value;
      k := CurrentIsHandedOver(evs[..n]);
      ReachableInv(evs[..n]);
      if evs[n].Finish? {
        k := n;
        NoCallNoRequest(evs[..n]);
        FinishHandsOver(before, evs[n].provider, evs[n].closeFn);
      } else if before.finisher != NotCalled {
        HandedOverStays(before, evs[n], evs[k].provider, evs[k].closeFn);
      }
    }
  }

  lemma {:induction false} NoCallNoRequest(evs: seq<Event>)
    requires After(evs).Some?
    ensures After(evs).value.closers == map[] ==> !After(evs).value.fields.closeRequested
  {
    if evs != [] {
      NoCallNoRequest(evs[..|evs| - 1]);
    }
  }

  // When closing was requested before the provider was handed over, the hook has
  // run by the time finish returns.
  lemma EarlyRequestIsServed(evs: seq<Event>)
    requires After(evs).Some? && After(evs).value.finisher == Finished(true)
    ensures After(evs).value.ends == Runs(After(evs).value.given)
  {
    ReachableInv(evs);
    var s := After(evs).value;
    if s.given.Some? {
      assert CloserOk(s, 0);
    }
  }

  // After a Close call, no caller ever gets the provider again.
  lemma {:induction false} NothingAfterRequest(evs: seq<Event>, more: seq<Event>, c: nat)
    requires After(evs).Some? && c in After(evs).value.closers && After(evs + more).Some?
    ensures Current(After(evs + more).value.fields) == None
    ensures c in After(evs + more).value.closers
  {
    if more == [] {
      assert evs + more == evs;
    } else {
      assert (evs + more)[..|evs + more| - 1] == evs + more[..|more| - 1];
      NothingAfterRequest(evs, more[..|more| - 1], c);
    }
    ReachableInv(evs + more);
    assert CloserOk(After(evs + more).value, c);
  }

  // Everything that was called has returned.
  predicate Quiet(s: State) {
    s.finisher.Finished? && forall c | c in s.closers :: s.closers[c].Returned? || s.closers[c].Expired?
  }

  // When all is quiet, the hook has run exactly if closing was requested before the
  // provider was handed over, or some Close call did not give up on its context.
  lemma HookRanExactlyWhen(evs: seq<Event>)
    requires After(evs).Some? && Quiet(After(evs).value) && After(evs).value.given.Some?
    ensures var s := After(evs).value;
            s.ends == 1 <==> s.finisher.asked || exists c :: c in s.closers && s.closers[c].Returned?
  {
    ReachableInv(evs);
    var s := After(evs).value;
    if s.once == Used {
      UsedByReturned(evs);
    }
    forall c | c in s.closers
      ensures CloserOk(s, c)
    {
    }
  }

  // closeOnce is used up by a call that goes on to return.
  lemma {:induction false} UsedByReturned(evs: seq<Event>)
    requires After(evs).Some? && After(evs).value.once == Used
    ensures SomeCloserLeft(After(evs).value)
  {
    var before := After(evs[..|evs| - 1]).value;
    if before.once == Used {
      UsedByReturned(evs[..|evs| - 1]);
    }
    LeftStays(before, evs[|evs| - 1]);
  }

  ghost predicate SomeCloserLeft(s: State) {
    exists c :: c in s.closers && (s.closers[c].AfterOnce? || s.closers[c].Returned?)
  }

  lemma LeftStays(s: State, ev: Event)
    requires Enabled(s, ev) && Step(s, ev).once == Used && (s.once == Used ==> SomeCloserLeft(s))
    ensures SomeCloserLeft(Step(s, ev))
  {
    var t := Step(s, ev);
    if s.once == Used {
      var c :| c in s.closers && (s.closers[c].AfterOnce? || s.closers[c].Returned?);
      assert c in t.closers;
    } else {
      assert ev.c in t.closers;
    }
  }

  lemma OneMore(evs: seq<Event>, ev: Event)
    requires After(evs).Some? && Enabled(After(evs).value, ev)
    ensures After(evs + [ev]) == Some(Step(After(evs).value, ev))
  {
    assert (evs + [ev])[..|evs|] == evs;
  }

  // So the hook need not run although Close was called and everything has returned:
  // the call can give up between the hand-over and the closing of done.
  lemma HookMayNeverRun() returns (evs: seq<Event>)
    ensures After(evs).Some? && Quiet(After(evs).value) && After(evs).value.given.Some?
    ensures After(evs).value.fields.closeRequested && After(evs).value.ends == 0
  {
    evs := [];
    OneMore(evs, Finish(Some(7), Some(9)));
    evs := evs + [Finish(Some(7), Some(9))];
    OneMore(evs, CloseCalled(1));
    evs := evs + [CloseCalled(1)];
    OneMore(evs, Blocks(1));
    evs := evs + [Blocks(1)];
    OneMore(evs, Expires(1));
    evs := evs + [Expires(1)];
    OneMore(evs, Signal);
    evs := evs + [Signal];
    OneMore(evs, FinishReturns);
    evs := evs + [FinishReturns];
  }

  // Once finish has been called nobody waits for ever: while a call has not
  // returned, some call can move without a context running out.
  lemma SomeoneCanMove(evs: seq<Event>) returns (ev: Event)
    requires After(evs).Some? && After(evs).value.finisher != NotCalled && !Quiet(After(evs).value)
    ensures Enabled(After(evs).value, ev) && !ev.Expires? && (ev.CloseCalled? ==> ev.c == 0)
  {
    ReachableInv(evs);
    var s := After(evs).value;
    if s.finisher.HandedOver? {
      return Signal;
    }
    if forall c | c in s.closers :: s.closers[c].Returned? || s.closers[c].Expired? {
      return if ClosesItself(s) && 0 !in s.closers then CloseCalled(0) else FinishReturns;
    }
    var c :| c in s.closers && !s.closers[c].Returned? && !s.closers[c].Expired?;
    assert CloserOk(s, c);
    var mover := if s.closers[c].Passed? && s.once.Running? then s.once.owner else c;
    assert CloserOk(s, mover);
    ev := match s.closers[mover]
      case Requested => SeesDone(mover)
      case Blocked => SeesDone(mover)
      case Passed => if s.once == Used then FindsOnceUsed(mover) else EntersOnce(mover)
      case Owner => TakesHook(mover)
      case Took(fn) => if fn.Some? then HookStarts(mover) else StoresError(mover)
      case InHook => HookEnds(mover, None)
      case HookReturned(_) => StoresError(mover)
      case Stored(_) => LeavesOnce(mover)
      case AfterOnce => CloseReturns(mover);
  }
}
