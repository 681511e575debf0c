// The singleflight group: any number of concurrent Do calls for the same key share
// one load. Each step below is one critical section or one unlocked action of Do, and
// a run is any interleaving of them.
module SingleFlight {
  import opened Wrappers

  // What a load returns: a value and perhaps an error.
  datatype Outcome = Outcome(value: string, err: Option<string>)

  // One shared load: its result, and whether the wait group has been released.
  datatype Entry = Entry(key: string, outcome: Option<Outcome>, done: bool)

  // What the callers share: the entries made so far and the map of current calls.
  datatype Shared = Shared(calls: map<string, nat>, entries: seq<Entry>)

  // --- The critical sections and actions on shared state

  function Joined(s: Shared, key: string): Shared {
    if key in s.calls then s
    else Shared(s.calls[key := |s.entries|], s.entries + [Entry(key, None, false)])
  }

  function Written(s: Shared, e: nat, o: Outcome): Shared
    requires e < |s.entries|
  {
    s.(entries := s.entries[e := s.entries[e].(outcome := Some(o))])
  }

  function Released(s: Shared, e: nat): Shared
    requires e < |s.entries|
  {
    s.(entries := s.entries[e := s.entries[e].(done := true)])
  }

  // Deletes whatever entry the map has for the key.
  function Forgotten(s: Shared, key: string): Shared {
    s.(calls := s.calls - {key})
  }

  // --- The group itself

  class Call {
    var outcome: Option<Outcome>
    var done: bool

    constructor ()
      ensures outcome.None? && !done
    {
      outcome, done := None, false;
    }
  }

  class Group {
    var calls: map<string, Call>
    // The calls made so far with their keys, and where the current ones are in it.
    ghost var made: seq<Call>
    ghost var keys: seq<string>
    ghost var index: map<string, nat>

    constructor ()
      ensures Valid() && View() == Shared(map[], []) && fresh(made)
    {
      calls := map[];
      made, keys, index := [], [], map[];
    }

    ghost predicate Valid()
      reads this
    {
      && |keys| == |made|
      && (forall i, j | 0 <= i < j < |made| :: made[i] != made[j])
      && index.Keys == calls.Keys
      && forall k | k in calls :: index[k] < |made| && made[index[k]] == calls[k]
    }

    ghost function View(): Shared
      reads this, made
      requires Valid()
    {
      Shared(index, seq(|made|, i requires 0 <= i < |made| reads this, made requires Valid() =>
                          Entry(keys[i], made[i].outcome, made[i].done)))
    }

    // The first critical section: find the call for the key, or start one.
    method Join(key: string) returns (call: Call, leader: bool)
      requires Valid()
      modifies this
      ensures Valid() && View() == Joined(old(View()), key)
      ensures leader <==> key !in old(calls)
      ensures key in calls && call == calls[key] && (leader ==> fresh(call))
      ensures made == if leader then old(made) + [call] else old(made)
    {
      if key in calls {
        return calls[key], false;
      }
      call := new Call();
      calls := calls[key := call];
      index := index[key := |made|];
      made, keys := made + [call], keys + [key];
      leader := true;
    }

    // The leader stores the result of its load.
    method Write(call: Call, o: Outcome, ghost e: nat)
      requires Valid() && e < |made| && made[e] == call
      modifies call
      ensures Valid() && View() == Written(old(View()), e, o)
    {
      call.outcome := Some(o);
    }

    // The leader releases the wait group.
    method Done(call: Call, ghost e: nat)
      requires Valid() && e < |made| && made[e] == call
      modifies call
      ensures Valid() && View() == Released(old(View()), e)
    {
      call.done := true;
    }

    // The second critical section.
    method Forget(key: string)
      requires Valid()
      modifies this
      ensures Valid() && View() == Forgotten(old(View()), key) && made == old(made)
    {
      calls := calls - {key};
      index := index - {key};
    }
  }

  // --- The machine of all callers

  // Where a caller is. A leader goes Loading, HasResult, Announced, Left, Returned;
  // a follower Waiting, Returned; a caller without a key Alone, Returned.
  datatype Phase =
    | Alone
    | Waiting(e: nat)
    | Loading(e: nat)
    | HasResult(e: nat)
    | Announced(e: nat)
    | Left(e: nat)
    | Returned(result: Outcome, shared: bool, entry: Option<nat>)

  // Callers are numbered; leaders[e] is the caller that made entry e.
  datatype State = State(shared: Shared, callers: map<nat, Phase>, leaders: seq<nat>)

  datatype Event =
    | Cancelled(caller: nat, err: string)           // the context had ended on entry
    | Enter(caller: nat, key: string)
    | AloneFinishes(caller: nat, outcome: Outcome)
    | LoadFinishes(caller: nat, outcome: Outcome)
    | Announce(caller: nat)
    | Forget(caller: nat)
    | Leave(caller: nat)
    | Wake(caller: nat)

  predicate At(s: State, c: nat, p: Phase) {
    c in s.callers && s.callers[c] == p
  }

  predicate Enabled(s: State, ev: Event) {
    match ev
    case Cancelled(c, _) => c !in s.callers
    case Enter(c, _) => c !in s.callers
    case AloneFinishes(c, _) => c in s.callers && s.callers[c].Alone?
    case LoadFinishes(c, _) => c in s.callers && s.callers[c].Loading? && s.callers[c].e < |s.shared.entries|
    case Announce(c) => c in s.callers && s.callers[c].HasResult? && s.callers[c].e < |s.shared.entries|
    case Forget(c) => c in s.callers && s.callers[c].Announced? && s.callers[c].e < |s.shared.entries|
    case Leave(c) =>
      && c in s.callers && s.callers[c].Left? && s.callers[c].e < |s.shared.entries|
      && s.shared.entries[s.callers[c].e].outcome.Some?
    case Wake(c) =>
      && c in s.callers && s.callers[c].Waiting? && s.callers[c].e < |s.shared.entries|
      && s.shared.entries[s.callers[c].e].done && s.shared.entries[s.callers[c].e].outcome.Some?
  }

  function Move(s: State, c: nat, p: Phase): State {
    s.(callers := s.callers[c := p])
  }

  function Step(s: State, ev: Event): State
    requires Enabled(s, ev)
  {
    match ev
    case Cancelled(c, err) => Move(s, c, Returned(Outcome("", Some(err)), false, None))
    case Enter(c, key) =>
      if key == "" then Move(s, c, Alone)
      else if key in s.shared.calls then Move(s, c, Waiting(s.shared.calls[key]))
      else State(Joined(s.shared, key), s.callers[c := Loading(|s.shared.entries|)], s.leaders + [c])
    case AloneFinishes(c, o) => Move(s, c, Returned(o, false, None))
    case LoadFinishes(c, o) =>
      var e := s.callers[c].e;
      Move(s.(shared := Written(s.shared, e, o)), c, HasResult(e))
    case Announce(c) =>
      var e := s.callers[c].e;
      Move(s.(shared := Released(s.shared, e)), c, Announced(e))
    case Forget(c) =>
      var e := s.callers[c].e;
      Move(s.(shared := Forgotten(s.shared, s.shared.entries[e].key)), c, Left(e))
    case Leave(c) =>
      var e := s.callers[c].e;
      Move(s, c, Returned(s.shared.entries[e].outcome.value, false, Some(e)))
    case Wake(c) =>
      var e := s.callers[c].e;
      Move(s, c, Returned(s.shared.entries[e].outcome.value, true, Some(e)))
  }

  // --- What every reachable state satisfies

  // The leader of entry e is somewhere on its way, and the entry looks accordingly.
  ghost predicate LeaderOk(s: State, e: nat)
    requires e < |s.shared.entries| == |s.leaders|
  {
    var entry, l := s.shared.entries[e], s.leaders[e];
    && l in s.callers
    && match s.callers[l]
       case Loading(x) => x == e && !entry.done && entry.outcome.None? && Current(s, e)
       case HasResult(x) => x == e && !entry.done && entry.outcome.Some? && Current(s, e)
       case Announced(x) => x == e && entry.done && entry.outcome.Some? && Current(s, e)
       case Left(x) => x == e && entry.done && entry.outcome.Some?
       case Returned(o, shared, x) => x == Some(e) && !shared && entry.done && entry.outcome == Some(o)
       case _ => false
  }

  ghost predicate Current(s: State, e: nat)
    requires e < |s.shared.entries|
  {
    s.shared.entries[e].key in s.shared.calls && s.shared.calls[s.shared.entries[e].key] == e
  }

  // Whether the leader of entry e still holds the entry in the map.
  predicate Holding(p: Phase) {
    p.Loading? || p.HasResult? || p.Announced?
  }

  ghost predicate CallerOk(s: State, c: nat)
    requires |s.shared.entries| == |s.leaders| && c in s.callers
  {
    match s.callers[c]
    case Alone => true
    case Waiting(e) => e < |s.leaders|
    case Returned(o, shared, x) =>
      && (shared ==> x.Some?)
      && (x.Some? ==> && x.value < |s.leaders| && s.shared.entries[x.value].outcome == Some(o)
                      && s.shared.entries[x.value].done && (!shared ==> s.leaders[x.value] == c))
    case p => p.e < |s.leaders| && s.leaders[p.e] == c
  }

  ghost predicate Inv(s: State) {
    && |s.shared.entries| == |s.leaders|
    && (forall k | k in s.shared.calls ::
          && s.shared.calls[k] < |s.leaders|
          && s.shared.entries[s.shared.calls[k]].key == k
          && s.leaders[s.shared.calls[k]] in s.callers
          && Holding(s.callers[s.leaders[s.shared.calls[k]]]))
    && (forall e: nat | e < |s.leaders| :: LeaderOk(s, e))
    && forall c | c in s.callers :: CallerOk(s, c)
  }

  const START := State(Shared(map[], []), map[], [])

  lemma EnterKeepsInv(s: State, c: nat, key: string)
    requires Inv(s) && Enabled(s, Enter(c, key))
    ensures Inv(Step(s, Enter(c, key)))
  {
    var t := Step(s, Enter(c, key));
    forall e: nat | e < |t.leaders|
      ensures LeaderOk(t, e)
    {
      assert e < |s.leaders| ==> LeaderOk(s, e);
    }
  }

  lemma LoadStepKeepsInv(s: State, ev: Event)
    requires Inv(s) && Enabled(s, ev) && (ev.LoadFinishes? || ev.Announce?)
    ensures Inv(Step(s, ev))
  {
    var c := ev.caller;
    assert CallerOk(s, c) && LeaderOk(s, s.callers[c].e);
    var t := Step(s, ev);
    forall x: nat | x < |t.leaders|
      ensures LeaderOk(t, x)
    {
      assert LeaderOk(s, x);
    }
    forall d | d in t.callers
      ensures CallerOk(t, d)
    {
      assert d in s.callers && CallerOk(s, d);
    }
  }

  lemma LeavingStepKeepsInv(s: State, ev: Event)
    requires Inv(s) && Enabled(s, ev) && (ev.Forget? || ev.Leave?)
    ensures Inv(Step(s, ev))
  {
    var c := ev.caller;
    assert CallerOk(s, c) && LeaderOk(s, s.callers[c].e);
    var t := Step(s, ev);
    forall x: nat | x < |t.leaders|
      ensures LeaderOk(t, x)
    {
      assert LeaderOk(s, x);
    }
    forall k | k in t.shared.calls
      ensures Holding(t.callers[t.leaders[t.shared.calls[k]]])
    {
      assert LeaderOk(s, s.shared.calls[k]);
    }
  }

  // The steps of a caller that leads no entry.
  lemma OtherStepKeepsInv(s: State, ev: Event)
    requires Inv(s) && Enabled(s, ev) && (ev.Cancelled? || ev.AloneFinishes? || ev.Wake?)
    ensures Inv(Step(s, ev))
  {
    var t := Step(s, ev);
    forall e: nat | e < |t.leaders|
      ensures LeaderOk(t, e)
    {
      assert LeaderOk(s, e);
    }
  }

  lemma StepKeepsInv(s: State, ev: Event)
    requires Inv(s) && Enabled(s, ev)
    ensures Inv(Step(s, ev))
  {
    match ev
    case Enter(c, key) => EnterKeepsInv(s, c, key);
    case LoadFinishes(_, _) => LoadStepKeepsInv(s, ev);
    case Announce(_) => LoadStepKeepsInv(s, ev);
    case Forget(_) => LeavingStepKeepsInv(s, ev);
    case Leave(_) => LeavingStepKeepsInv(s, ev);
    case _ => OtherStepKeepsInv(s, ev);
  }

  // --- Runs

  // The state after a run, if each event was enabled when it came.
  function After(evs: seq<Event>): Option<State> {
    if evs == [] then Some(START)
    else
      var before := After(evs[..|evs| - 1]);
      if before.Some? && Enabled(before.value, evs[|evs| - 1]) then Some(Step(before.value, evs[|evs| - 1])) else None
  }

  lemma {:induction false} ReachableInv(evs: seq<Event>)
    requires After(evs).Some?
    ensures Inv(After(evs).value)
  {
    if evs != [] {
      ReachableInv(evs[..|evs| - 1]);
      StepKeepsInv(After(evs[..|evs| - 1]).value, evs[|evs| - 1]);
    }
  }

  // At most one load per key runs at a time.
  lemma OneLoadPerKey(evs: seq<Event>, c: nat, d: nat)
    requires After(evs).Some?
    ensures var s := After(evs).value;
            forall x: nat, y: nat | x < |s.shared.entries| && y < |s.shared.entries| && At(s, c, Loading(x)) && At(s, d, Loading(y))
              :: s.shared.entries[x].key == s.shared.entries[y].key ==> c == d
  {
    ReachableInv(evs);
    var s := After(evs).value;
    forall x: nat, y: nat | x < |s.shared.entries| && y < |s.shared.entries| && At(s, c, Loading(x)) && At(s, d, Loading(y))
      ensures s.shared.entries[x].key == s.shared.entries[y].key ==> c == d
    {
      assert CallerOk(s, c) && CallerOk(s, d) && LeaderOk(s, x) && LeaderOk(s, y);
    }
  }

  // A caller that joins a call joins one whose leader has not returned yet: nobody
  // is ever given the result of a call that was over before they came.
  lemma FollowersJoinRunningCalls(evs: seq<Event>, c: nat, key: string)
    requires After(evs).Some? && Enabled(After(evs).value, Enter(c, key)) && key != "" && key in After(evs).value.shared.calls
    ensures var s := After(evs).value;
            var e := s.shared.calls[key];
            && At(Step(s, Enter(c, key)), c, Waiting(e))
            && e < |s.leaders| == |s.shared.entries| && s.leaders[e] in s.callers && Holding(s.callers[s.leaders[e]])
            && s.shared.entries[e].key == key
  {
    ReachableInv(evs);
  }

  // What a leader deletes is its own entry, and nothing else.
  lemma LeadersForgetTheirOwn(evs: seq<Event>, c: nat)
    requires After(evs).Some? && Enabled(After(evs).value, Forget(c))
    ensures var s := After(evs).value;
            var e := s.callers[c].e;
            var t := Step(s, Forget(c));
            && e < |s.shared.entries| && Current(s, e)
            && (forall k :: k in t.shared.calls <==> k in s.shared.calls && s.shared.calls[k] != e)
            && forall k | k in t.shared.calls :: t.shared.calls[k] == s.shared.calls[k]
  {
    ReachableInv(evs);
    var s := After(evs).value;
    assert CallerOk(s, c) && LeaderOk(s, s.callers[c].e);
  }

  // A follower stays with the entry it found until it returns from it.
  lemma {:induction false} FollowsItsEntry(evs: seq<Event>, more: seq<Event>, c: nat, e: nat)
    requires After(evs).Some? && At(After(evs).value, c, Waiting(e)) && After(evs + more).Some?
    ensures Follows(After(evs + more).value, c, e)
  {
    if more == [] {
      assert evs + more == evs;
    } else {
      assert (evs + more)[..|evs + more| - 1] == evs + more[..|more| - 1];
      FollowsItsEntry(evs, more[..|more| - 1], c, e);
      GoesOnFollowing(After(evs + more[..|more| - 1]).value, more[|more| - 1], c, e);
    }
  }

  // c waits for entry e, or has returned its result as shared.
  predicate Follows(s: State, c: nat, e: nat) {
    c in s.callers
    && (s.callers[c] == Waiting(e) || (s.callers[c].Returned? && s.callers[c].shared && s.callers[c].entry == Some(e)))
  }

  lemma GoesOnFollowing(s: State, ev: Event, c: nat, e: nat)
    requires Enabled(s, ev) && Follows(s, c, e)
    ensures Follows(Step(s, ev), c, e)
  {
  }

  // The result of an entry is the outcome of its leader's load.
  lemma {:induction false} ResultComesFromTheLoad(evs: seq<Event>, e: nat) returns (k: nat)
    requires After(evs).Some?
    requires e < |After(evs).value.shared.entries| == |After(evs).value.leaders|
    requires After(evs).value.shared.entries[e].outcome.Some?
    ensures k < |evs| && evs[k] == LoadFinishes(After(evs).value.leaders[e], After(evs).value.shared.entries[e].outcome.value)
  {
    var before := After(evs[..|evs| - 1]).value;
    var last := evs[|evs| - 1];
    ReachableInv(evs[..|evs| - 1]);
    if last.LoadFinishes? && before.callers[last.caller].e == e {
      k := |evs| - 1;
      assert CallerOk(before, last.caller);
    } else {
      k := ResultComesFromTheLoad(evs[..|evs| - 1], e);
    }
  }

  // Every caller that found or made entry e returns the value and the error of the
  // one load that was run for it; only followers are told that it was shared.
  lemma SharedResult(evs: seq<Event>, c: nat) returns (k: nat)
    requires After(evs).Some? && c in After(evs).value.callers
    requires After(evs).value.callers[c].Returned? && After(evs).value.callers[c].entry.Some?
    ensures var s := After(evs).value;
            var p := s.callers[c];
            && p.entry.value < |s.leaders|
            && k < |evs| && evs[k] == LoadFinishes(s.leaders[p.entry.value], p.result)
            && (p.shared <==> s.leaders[p.entry.value] != c)
  {
    ReachableInv(evs);
    var s := After(evs).value;
    assert CallerOk(s, c) && LeaderOk(s, s.callers[c].entry.value);
    k := ResultComesFromTheLoad(evs, s.callers[c].entry.value);
  }

  // The key that a caller came with, if it came in by Enter.
  lemma {:induction false} CameWith(evs: seq<Event>, c: nat) returns (k: nat)
    requires After(evs).Some? && c in After(evs).value.callers
    ensures k < |evs| && ((evs[k].Enter? || evs[k].Cancelled?) && evs[k].caller == c)
    ensures evs[k].Enter? && evs[k].key == "" ==>
              var p := After(evs).value.callers[c]; p.Alone? || (p.Returned? && p.entry.None?)
    ensures evs[k].Enter? && evs[k].key != "" ==>
              InEntryOf(After(evs).value, c, evs[k].key)
    ensures evs[k].Cancelled? ==>
              After(evs).value.callers[c] == Returned(Outcome("", Some(evs[k].err)), false, None)
  {
    var n := |evs| - 1;
    var before := After(evs[..n]).value;
    ReachableInv(evs[..n]);
    if c in before.callers {
      k := CameWith(evs[..n], c);
      StaysInEntry(before, evs[n], c);
    } else {
      k := n;
      EntersEntry(before, evs[n], c);
    }
  }

  // c is somewhere in an entry of that key.
  ghost predicate InEntryOf(s: State, c: nat, key: string) {
    && c in s.callers
    && EntryOf(s.callers[c]).Some? && EntryOf(s.callers[c]).value < |s.shared.entries|
    && s.shared.entries[EntryOf(s.callers[c]).value].key == key
  }

  function EntryOf(p: Phase): Option<nat> {
    match p
    case Alone => None
    case Returned(_, _, entry) => entry
    case _ => Some(p.e)
  }

  lemma StaysInEntry(s: State, ev: Event, c: nat)
    requires Inv(s) && Enabled(s, ev) && c in s.callers
    ensures c in Step(s, ev).callers
    ensures s.callers[c].Returned? ==> Step(s, ev).callers[c] == s.callers[c]
    ensures s.callers[c].Alone? ==> var p := Step(s, ev).callers[c]; p.Alone? || (p.Returned? && p.entry.None?)
    ensures forall key | InEntryOf(s, c, key) :: InEntryOf(Step(s, ev), c, key)
  {
  }

  lemma EntersEntry(s: State, ev: Event, c: nat)
    requires Inv(s) && Enabled(s, ev) && c !in s.callers && c in Step(s, ev).callers
    ensures (ev.Enter? || ev.Cancelled?) && ev.caller == c
    ensures ev.Enter? && ev.key == "" ==> Step(s, ev).callers[c] == Alone
    ensures ev.Enter? && ev.key != "" ==> InEntryOf(Step(s, ev), c, ev.key)
    ensures ev.Cancelled? ==> Step(s, ev).callers[c] == Returned(Outcome("", Some(ev.err)), false, None)
  {
  }

  // A caller that returns without an entry was turned away with its context's error,
  // or had no key and returns what its own load gave; and it is not told that the
  // result was shared.
  lemma {:induction false} ReturnedAlone(evs: seq<Event>, c: nat) returns (k: nat)
    requires After(evs).Some? && c in After(evs).value.callers
    requires After(evs).value.callers[c].Returned? && After(evs).value.callers[c].entry.None?
    ensures var p := After(evs).value.callers[c];
            && k < |evs| && !p.shared
            && ((evs[k] == AloneFinishes(c, p.result))
                || (evs[k].Cancelled? && evs[k].caller == c && p.result == Outcome("", Some(evs[k].err))))
  {
    var n := |evs| - 1;
    var before := After(evs[..n]).value;
    if c in before.callers && before.callers[c].Returned? {
      assert After(evs).value.callers[c] == before.callers[c];
      k := ReturnedAlone(evs[..n], c);
    } else {
      k := n;
    }
  }

  // Nobody waits for ever: while a caller is inside Do, some caller can move.
  lemma SomeoneCanMove(evs: seq<Event>, c: nat) returns (ev: Event)
    requires After(evs).Some? && c in After(evs).value.callers && !After(evs).value.callers[c].Returned?
    ensures Enabled(After(evs).value, ev) && !ev.Enter? && !ev.Cancelled?
  {
    ReachableInv(evs);
    var s := After(evs).value;
    assert CallerOk(s, c);
    var mover := c;
    if s.callers[c].Waiting? && !s.shared.entries[s.callers[c].e].done {
      mover := s.leaders[s.callers[c].e];
    }
    assert s.callers[c].Waiting? ==> LeaderOk(s, s.callers[c].e);
    assert CallerOk(s, mover);
    match s.callers[mover]
    case Alone => ev := AloneFinishes(mover, Outcome("", None));
    case Loading(_) => ev := LoadFinishes(mover, Outcome("", None));
    case HasResult(_) => ev := Announce(mover);
    case Announced(_) => ev := Forget(mover);
    case Left(e) =>
      assert LeaderOk(s, e);
      ev := Leave(mover);
    case Waiting(_) => ev := Wake(mover);
  }

  // And once everybody has returned, the map is empty: no call is left behind.
  lemma NoCallLeftBehind(evs: seq<Event>)
    requires After(evs).Some? && forall c | c in After(evs).value.callers :: After(evs).value.callers[c].Returned?
    ensures After(evs).value.shared.calls == map[]
  {
    ReachableInv(evs);
  }
}
