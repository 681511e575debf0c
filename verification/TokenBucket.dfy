// The token bucket that limits API requests. Tokens are real numbers; times are
// integer nanoseconds.
module TokenBucket {
  import opened Wrappers

  datatype Bucket = Bucket(rate: real, capacity: real, tokens: real, lastRefill: int)

  ghost predicate Valid(b: Bucket) {
    b.rate > 0.0 && b.capacity >= 1.0 && 0.0 <= b.tokens <= b.capacity
  }

  // The tokens that arrive in a stretch of time.
  function Gain(rate: real, elapsed: int): real {
    elapsed as real / 1_000_000_000.0 * rate
  }

  function Refill(b: Bucket, now: int): Bucket {
    if now > b.lastRefill then
      var tokens := b.tokens + Gain(b.rate, now - b.lastRefill);
      b.(tokens := if tokens > b.capacity then b.capacity else tokens, lastRefill := now)
    else b
  }

  function Ask(b: Bucket, now: int): (Bucket, bool) {
    var r := Refill(b, now);
    if r.tokens < 1.0 then (r, false) else (r.(tokens := r.tokens - 1.0), true)
  }

  // A rate that is not positive disables the limiter; a burst that is not positive
  // defaults to the rate.
  function New(rps: int, burst: int, now: int): (b: Option<Bucket>)
    ensures b.None? <==> rps <= 0
    ensures b.Some? ==>
              && Valid(b.value) && b.value.tokens == b.value.capacity && b.value.lastRefill == now
              && b.value.rate == rps as real
              && (burst > 0 ==> b.value.capacity == burst as real)
              && (burst <= 0 ==> b.value.capacity == b.value.rate)
  {
    if rps <= 0 then None
    else
      var capacity := (if burst <= 0 then rps else burst) as real;
      Some(Bucket(rps as real, capacity, capacity, now))
  }

  class RateLimiter {
    const rate: real
    const capacity: real
    var tokens: real
    var lastRefill: int

    constructor (rate: real, capacity: real, now: int)
      ensures View() == Bucket(rate, capacity, capacity, now)
    {
      this.rate, this.capacity, tokens, lastRefill := rate, capacity, capacity, now;
    }

    function View(): Bucket
      reads this
    {
      Bucket(rate, capacity, tokens, lastRefill)
    }

    method Allow(now: int) returns (ok: bool)
      modifies this
      ensures (View(), ok) == Ask(old(View()), now)
    {
      var elapsed := now - lastRefill;
      if elapsed > 0 {
        tokens := tokens + elapsed as real / 1_000_000_000.0 * rate;
        if tokens > capacity {
          tokens := capacity;
        }
        lastRefill := now;
      }
      if tokens < 1.0 {
        return false;
      }
      tokens := tokens - 1.0;
      ok := true;
    }
  }

  method NewRateLimiter(rps: int, burst: int, now: int) returns (l: RateLimiter?)
    ensures (if l == null then None else Some(l.View())) == New(rps, burst, now)
    ensures l != null ==> fresh(l)
  {
    if rps <= 0 {
      return null;
    }
    var size := burst;
    if size <= 0 {
      size := rps;
    }
    l := new RateLimiter(rps as real, size as real, now);
  }

  // A missing limiter lets everything through.
  method AllowVia(l: RateLimiter?, now: int) returns (ok: bool)
    modifies l
    ensures if l == null then ok else (l.View(), ok) == Ask(old(l.View()), now)
  {
    if l == null {
      return true;
    }
    ok := l.Allow(now);
  }

  // --- Traces of requests

  function After(b: Bucket, times: seq<int>): Bucket {
    if times == [] then b else Ask(After(b, times[..|times| - 1]), times[|times| - 1]).0
  }

  // How many of the requests are let through.
  function Admitted(b: Bucket, times: seq<int>): nat {
    if times == [] then 0
    else
      var n := |times| - 1;
      Admitted(b, times[..n]) + if Ask(After(b, times[..n]), times[n]).1 then 1 else 0
  }

  ghost predicate Nondecreasing(times: seq<int>) {
    forall i, j | 0 <= i < j < |times| :: times[i] <= times[j]
  }

  lemma GainAdds(rate: real, a: int, b: int)
    ensures Gain(rate, a + b) == Gain(rate, a) + Gain(rate, b)
  {
    var x, y := a as real / 1_000_000_000.0, b as real / 1_000_000_000.0;
    assert (a + b) as real / 1_000_000_000.0 == x + y;
    assert (x + y) * rate == x * rate + y * rate;
  }

  lemma GainMonotone(rate: real, a: int, b: int)
    requires rate > 0.0 && a <= b
    ensures Gain(rate, a) <= Gain(rate, b)
    ensures Gain(rate, 0) == 0.0
  {
    var x, y := a as real / 1_000_000_000.0, b as real / 1_000_000_000.0;
    assert x <= y;
    assert (y - x) * rate >= 0.0;
    assert (y - x) * rate == y * rate - x * rate;
  }

  // Tokens stay between nothing and the burst.
  lemma RefillKeepsValid(b: Bucket, now: int)
    requires Valid(b)
    ensures Valid(Refill(b, now)) && Refill(b, now).lastRefill == if now > b.lastRefill then now else b.lastRefill
    ensures Refill(b, now).tokens <= b.tokens + Gain(b.rate, Refill(b, now).lastRefill - b.lastRefill)
    ensures b.tokens <= Refill(b, now).tokens
  {
    GainMonotone(b.rate, 0, Refill(b, now).lastRefill - b.lastRefill);
  }

  lemma {:induction false} AfterKeepsValid(b: Bucket, times: seq<int>)
    requires Valid(b)
    ensures Valid(After(b, times)) && After(b, times).rate == b.rate && After(b, times).capacity == b.capacity
  {
    if times != [] {
      AfterKeepsValid(b, times[..|times| - 1]);
      RefillKeepsValid(After(b, times[..|times| - 1]), times[|times| - 1]);
    }
  }

  // What has been let through was paid for by tokens that were there or arrived.
  lemma {:induction false} EveryAdmissionIsPaid(b: Bucket, times: seq<int>)
    requires Valid(b)
    ensures Admitted(b, times) as real + After(b, times).tokens
         <= b.tokens + Gain(b.rate, After(b, times).lastRefill - b.lastRefill)
    ensures b.lastRefill <= After(b, times).lastRefill
  {
    GainMonotone(b.rate, 0, 0);
    if times != [] {
      var n := |times| - 1;
      var before := After(b, times[..n]);
      EveryAdmissionIsPaid(b, times[..n]);
      AfterKeepsValid(b, times[..n]);
      RefillKeepsValid(before, times[n]);
      GainAdds(b.rate, before.lastRefill - b.lastRefill, Refill(before, times[n]).lastRefill - before.lastRefill);
    }
  }

  // The first request of a window refills the bucket up to its own time first.
  lemma {:induction false} RefillFirst(b: Bucket, now: int, rest: seq<int>)
    ensures After(b, [now] + rest) == After(Refill(b, now), [now] + rest)
    ensures Admitted(b, [now] + rest) == Admitted(Refill(b, now), [now] + rest)
  {
    var times := [now] + rest;
    if rest == [] {
      assert times[..0] == [];
    } else {
      assert times[..|times| - 1] == [now] + rest[..|rest| - 1];
      RefillFirst(b, now, rest[..|rest| - 1]);
    }
  }

  lemma WindowGain(b: Bucket, times: seq<int>)
    requires Valid(b) && times != [] && Nondecreasing(times) && b.lastRefill <= times[0]
    ensures Admitted(b, times) as real <= b.capacity + Gain(b.rate, times[|times| - 1] - times[0])
  {
    var r := Refill(b, times[0]);
    RefillKeepsValid(b, times[0]);
    RefillBeforeAll(b, times);
    WithinCapacity(r, times);
    LastRefillIsLast(r, times);
  }

  // A rate is per second, and a second is a thousand million nanoseconds.
  lemma GainPerSecond(rate: real, elapsed: int)
    ensures Gain(rate, elapsed) * 1_000_000_000.0 == rate * elapsed as real
  {
    var seconds := elapsed as real / 1_000_000_000.0;
    assert seconds * 1_000_000_000.0 == elapsed as real;
    assert seconds * rate * 1_000_000_000.0 == rate * (seconds * 1_000_000_000.0);
  }

  // In any stretch of requests, whatever came before, no more are let through than
  // the burst plus what is earned at the rate a second over the length of the stretch,
  // which is given in nanoseconds.
  lemma WindowBound(b: Bucket, times: seq<int>, length: int) returns (earned: real)
    requires Valid(b) && times != [] && Nondecreasing(times) && b.lastRefill <= times[0]
    requires length == times[|times| - 1] - times[0]
    ensures earned * 1_000_000_000.0 == b.rate * length as real
    ensures Admitted(b, times) as real <= b.capacity + earned
  {
    earned := Gain(b.rate, length);
    GainPerSecond(b.rate, length);
    WindowGain(b, times);
  }

  lemma InPlainNumbers(seen: real, size: real, rate: real, length: int)
    requires seen <= size + Gain(rate, length)
    ensures (seen - size) * 1_000_000_000.0 <= rate * length as real
  {
    GainPerSecond(rate, length);
  }

  // A call is let through exactly if the tokens there are, together with those that
  // have arrived at the rate a second since the last refill, make up one.
  lemma AllowedExactlyWhen(b: Bucket, now: int)
    requires Valid(b) && b.lastRefill <= now
    ensures Ask(b, now).1 <==> b.tokens * 1_000_000_000.0 + b.rate * (now - b.lastRefill) as real >= 1_000_000_000.0
    ensures Ask(b, now).0.lastRefill == now
    ensures Ask(b, now).0.rate == b.rate && Ask(b, now).0.capacity == b.capacity
  {
    var gain := Gain(b.rate, now - b.lastRefill);
    GainPerSecond(b.rate, now - b.lastRefill);
    assert (b.tokens + gain) * 1_000_000_000.0 == b.tokens * 1_000_000_000.0 + gain * 1_000_000_000.0;
    assert b.tokens + gain >= 1.0 <==> (b.tokens + gain) * 1_000_000_000.0 >= 1_000_000_000.0;
  }

  // What is left: what was there and has arrived, cut off at the burst, less the one
  // token of an admitted call.
  lemma TokensLeft(b: Bucket, now: int)
    requires Valid(b) && b.lastRefill <= now
    ensures var had := b.tokens * 1_000_000_000.0 + b.rate * (now - b.lastRefill) as real;
            var full := b.capacity * 1_000_000_000.0;
            (Ask(b, now).0.tokens + if Ask(b, now).1 then 1.0 else 0.0) * 1_000_000_000.0 == if had > full then full else had
  {
    var gain := Gain(b.rate, now - b.lastRefill);
    GainPerSecond(b.rate, now - b.lastRefill);
    assert (b.tokens + gain) * 1_000_000_000.0 == b.tokens * 1_000_000_000.0 + gain * 1_000_000_000.0;
    assert b.tokens + gain > b.capacity <==> (b.tokens + gain) * 1_000_000_000.0 > b.capacity * 1_000_000_000.0;
  }

  // A clock that has stepped back refills nothing.
  lemma NothingArrivesBackwards(b: Bucket, now: int)
    requires now <= b.lastRefill
    ensures Ask(b, now).1 <==> b.tokens >= 1.0
    ensures Ask(b, now).0 == b.(tokens := b.tokens - if Ask(b, now).1 then 1.0 else 0.0)
  {
  }

  // An emptied bucket lets the next call through once the rate has earned a token.
  lemma EmptiedBucketWaits(b: Bucket, now: int)
    requires Valid(b) && b.tokens == 0.0 && b.lastRefill <= now
    ensures Ask(b, now).1 <==> (now - b.lastRefill) as real * b.rate >= 1_000_000_000.0
  {
    AllowedExactlyWhen(b, now);
    assert b.rate * (now - b.lastRefill) as real == (now - b.lastRefill) as real * b.rate;
  }

  lemma RefillBeforeAll(b: Bucket, times: seq<int>)
    requires times != []
    ensures Admitted(Refill(b, times[0]), times) == Admitted(b, times)
  {
    assert times == [times[0]] + times[1..];
    RefillFirst(b, times[0], times[1..]);
  }

  lemma WithinCapacity(b: Bucket, times: seq<int>)
    requires Valid(b)
    ensures Admitted(b, times) as real <= b.capacity + Gain(b.rate, After(b, times).lastRefill - b.lastRefill)
  {
    EveryAdmissionIsPaid(b, times);
    AfterKeepsValid(b, times);
  }

  lemma {:induction false} LastRefillIsLast(b: Bucket, times: seq<int>)
    requires times != [] && Nondecreasing(times) && b.lastRefill <= times[0]
    ensures After(b, times).lastRefill == times[|times| - 1]
  {
    var n := |times| - 1;
    if n > 0 {
      LastRefillIsLast(b, times[..n]);
    }
  }

  // For a limiter from its creation on: any window of any run of requests.
  lemma AnyWindow(rps: int, burst: int, start: int, before: seq<int>, window: seq<int>)
    requires rps > 0 && window != [] && Nondecreasing([start] + before + window)
    ensures var b := New(rps, burst, start).value;
            var seen := Admitted(After(b, before), window);
            (seen - if burst <= 0 then rps else burst) * 1_000_000_000 <= rps * (window[|window| - 1] - window[0])
  {
    var b := New(rps, burst, start).value;
    AfterKeepsValid(b, before);
    WindowFollows(b, before, window);
    WindowGain(After(b, before), window);
    InWholeNumbers(Admitted(After(b, before), window), if burst <= 0 then rps else burst, rps, window[|window| - 1] - window[0]);
  }

  lemma RealProduct(a: int, b: int)
    ensures (a * b) as real == a as real * b as real
  {
  }

  lemma InWholeNumbers(seen: int, size: int, rps: int, length: int)
    requires seen as real <= size as real + Gain(rps as real, length)
    ensures (seen - size) * 1_000_000_000 <= rps * length
  {
    InPlainNumbers(seen as real, size as real, rps as real, length);
    RealProduct(rps, length);
    RealProduct(seen - size, 1_000_000_000);
  }

  lemma WindowFollows(b: Bucket, before: seq<int>, window: seq<int>)
    requires window != [] && Nondecreasing([b.lastRefill] + before + window)
    ensures Nondecreasing(window) && After(b, before).lastRefill <= window[0]
  {
    var n := |before|;
    var times := [b.lastRefill] + before + window;
    forall i, j | 0 <= i < j < |window|
      ensures window[i] <= window[j]
    {
      assert times[1 + n + i] <= times[1 + n + j];
    }
    assert times[n] <= times[n + 1] == window[0];
    if before != [] {
      assert times[0] <= times[1] == before[0];
      forall i, j | 0 <= i < j < n
        ensures before[i] <= before[j]
      {
        assert times[1 + i] <= times[1 + j];
      }
      LastRefillIsLast(b, before);
    }
  }

  // A full bucket lets a burst through, however fast it comes.
  lemma {:induction false} BurstIsAdmitted(b: Bucket, times: seq<int>)
    requires Valid(b) && |times| as real <= b.tokens
    ensures Admitted(b, times) == |times|
    ensures After(b, times).tokens >= b.tokens - |times| as real
  {
    if times != [] {
      var n := |times| - 1;
      BurstIsAdmitted(b, times[..n]);
      AfterKeepsValid(b, times[..n]);
      RefillKeepsValid(After(b, times[..n]), times[n]);
    }
  }

  lemma Earned(rate: real, elapsed: int)
    requires elapsed as real * rate >= 1_000_000_000.0
    ensures Gain(rate, elapsed) >= 1.0
  {
    GainPerSecond(rate, elapsed);
  }

  // Requests spaced so that a token arrives in between are all let through.
  lemma SpacedCallsAreAdmitted(b: Bucket, times: seq<int>)
    requires Valid(b) && b.tokens >= 1.0 && (times != [] ==> b.lastRefill <= times[0]) && Nondecreasing(times)
    requires forall i | 0 < i < |times| :: (times[i] - times[i - 1]) as real * b.rate >= 1_000_000_000.0
    ensures Admitted(b, times) == |times|
  {
    forall i | 0 < i < |times|
      ensures Gain(b.rate, times[i] - times[i - 1]) >= 1.0
    {
      Earned(b.rate, times[i] - times[i - 1]);
    }
    SpacedByGain(b, times);
  }

  lemma {:induction false} SpacedByGain(b: Bucket, times: seq<int>)
    requires Valid(b) && b.tokens >= 1.0 && (times != [] ==> b.lastRefill <= times[0]) && Nondecreasing(times)
    requires forall i | 0 < i < |times| :: Gain(b.rate, times[i] - times[i - 1]) >= 1.0
    ensures Admitted(b, times) == |times|
  {
    if times != [] {
      var n := |times| - 1;
      SpacedByGain(b, times[..n]);
      AfterKeepsValid(b, times[..n]);
      RefillKeepsValid(After(b, times[..n]), times[n]);
      if n > 0 {
        LastRefillIsLast(b, times[..n]);
        assert Gain(b.rate, times[n] - times[n - 1]) >= 1.0;
      }
    }
  }

  // --- The reference: a bucket that is also refilled at arbitrary other times

  datatype Event = Tick(now: int) | Request(now: int)

  ghost predicate InTime(b: Bucket, es: seq<Event>) {
    && (forall i | 0 <= i < |es| :: b.lastRefill <= es[i].now)
    && forall i, j | 0 <= i < j < |es| :: es[i].now <= es[j].now
  }

  // Refills at every event; returns the answers to the requests.
  function Eager(b: Bucket, es: seq<Event>): seq<bool>
    decreases |es|
  {
    if es == [] then []
    else match es[0]
      case Tick(now) => Eager(Refill(b, now), es[1..])
      case Request(now) => [Ask(b, now).1] + Eager(Ask(b, now).0, es[1..])
  }

  // Looks at the requests only.
  function Lazy(b: Bucket, es: seq<Event>): seq<bool>
    decreases |es|
  {
    if es == [] then []
    else match es[0]
      case Tick(_) => Lazy(b, es[1..])
      case Request(now) => [Ask(b, now).1] + Lazy(Ask(b, now).0, es[1..])
  }

  lemma RefillTwice(b: Bucket, t: int, u: int)
    requires Valid(b) && b.lastRefill <= t <= u
    ensures Refill(Refill(b, t), u) == Refill(b, u)
  {
    GainAdds(b.rate, t - b.lastRefill, u - t);
    GainMonotone(b.rate, 0, u - t);
    GainMonotone(b.rate, 0, t - b.lastRefill);
  }

  // Refilling only when asked makes no difference to any answer: not against a
  // bucket refilled at any other times as well.
  lemma {:induction false} LazyIsEager(lazy: Bucket, eager: Bucket, es: seq<Event>)
    requires Valid(lazy) && Valid(eager) && InTime(eager, es)
    requires lazy.lastRefill <= eager.lastRefill && eager == Refill(lazy, eager.lastRefill)
    ensures Lazy(lazy, es) == Eager(eager, es)
    decreases |es|
  {
    if es != [] {
      var now := es[0].now;
      RefillTwice(lazy, eager.lastRefill, now);
      RefillKeepsValid(eager, now);
      RestInTime(eager, es);
      match es[0] {
        case Tick(_) => LazyIsEager(lazy, Refill(eager, now), es[1..]);
        case Request(_) =>
          assert Ask(lazy, now) == Ask(eager, now);
          LazyIsEager(Ask(eager, now).0, Ask(eager, now).0, es[1..]);
      }
    }
  }

  lemma RestInTime(b: Bucket, es: seq<Event>)
    requires Valid(b) && InTime(b, es) && es != []
    ensures InTime(Refill(b, es[0].now), es[1..]) && InTime(Ask(b, es[0].now).0, es[1..])
  {
  }

  lemma TicksDoNotMatter(b: Bucket, es: seq<Event>)
    requires Valid(b) && InTime(b, es)
    ensures Lazy(b, es) == Eager(b, es)
  {
    LazyIsEager(b, b, es);
  }
}
