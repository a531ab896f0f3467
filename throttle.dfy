/** The throttled HTTP client: every call waits until at least the minimum
    interval has passed since the previous call returned, then delegates to
    the inner client. Time is an abstract monotonic clock counted in
    nanoseconds from Go's zero time; what the environment decides (how much
    longer than asked a sleep lasts, how long the inner call takes, what it
    returns) is passed in. */
module Throttle {
  import opened GoStrconv

  /** Go's zero `time.Time`, the value `last` starts at. */
  const ZeroInstant := 0

  /** A `time.Duration`: a signed 64-bit count of nanoseconds. */
  predicate IsDuration(d: int) {
    MinInt64 <= d <= MaxInt64
  }

  /** `now.Sub(last)`: the difference, saturated to the range of a
      `time.Duration`. */
  function Elapsed(now: int, last: int): (e: int)
    ensures IsDuration(e)
    ensures IsDuration(now - last) ==> e == now - last
    ensures now - last > MaxInt64 ==> e == MaxInt64
    ensures now - last < MinInt64 ==> e == MinInt64
  {
    if now - last > MaxInt64 then MaxInt64
    else if now - last < MinInt64 then MinInt64
    else now - last
  }

  /** The sleep `Do` asks for before delegating: `minInterval - elapsed`
      when less than `minInterval` has elapsed, nothing otherwise. */
  function Wait(minInterval: int, last: int, now: int): (w: nat)
    requires IsDuration(minInterval) && now >= last
    ensures w > 0 <==> now - last < minInterval
    ensures w > 0 ==> now + w == last + minInterval
    ensures now + w >= last + minInterval
    ensures w <= if minInterval > 0 then minInterval else 0
  {
    var elapsed := Elapsed(now, last);
    if elapsed < minInterval then minInterval - elapsed else 0
  }

  /** Each inner call starts at least `d` after the one before it. */
  predicate Spaced(starts: seq<int>, d: int) {
    forall k :: 0 < k < |starts| ==> starts[k] >= starts[k - 1] + d
  }

  /** `ThrottledClient` of pkg/http and `HttpClient` of pkg/internal/throttle,
      whose logic is the same. Calls are serialised by the mutex, so the
      model takes them one after the other. */
  class ThrottledClient<Outcome> {
    const minInterval: int
    /** When the previous inner call returned. */
    var last: int
    /** When each inner call started, in call order. */
    ghost var starts: seq<int>

    ghost predicate Valid()
      reads this
    {
      IsDuration(minInterval)
      && Spaced(starts, minInterval)
      && (|starts| == 0 ==> last == ZeroInstant)
      && (|starts| > 0 ==> last >= starts[|starts| - 1] && starts[0] >= ZeroInstant)
    }

    /** `NewThrottledClient(minInterval)`: `last` is the zero time. */
    constructor (minInterval: int)
      requires IsDuration(minInterval)
      ensures Valid()
      ensures this.minInterval == minInterval && last == ZeroInstant && starts == []
    {
      this.minInterval := minInterval;
      last := ZeroInstant;
      starts := [];
    }

    /** `Do`: at `now`, sleep for `Wait` (the sleep lasts `overrun` longer
        than asked), run the inner call, which takes `duration` and yields
        `inner`, remember when it returned, and pass its outcome on. */
    method Do(now: int, overrun: nat, duration: nat, inner: Outcome) returns (r: Outcome)
      requires Valid() && now >= last
      modifies this
      ensures Valid()
      ensures r == inner
      ensures var start := now + Wait(minInterval, old(last), now) + overrun;
        starts == old(starts) + [start] && last == start + duration
      ensures starts[|starts| - 1] >= old(last) + minInterval
    {
      var elapsed := Elapsed(now, last);
      var clock := now;
      if elapsed < minInterval {
        clock := clock + (minInterval - elapsed);
      }
      clock := clock + overrun;
      starts := starts + [clock];
      r := inner;
      last := clock + duration;
    }
  }

  // ---------------------------------------------------------------------
  // Properties

  /** The first call of a client finds `last` at the zero time, so it does
      not wait once `minInterval` has passed since then (real clocks are two
      thousand years past it). */
  lemma FirstCallDoesNotWait(minInterval: int, now: int)
    requires IsDuration(minInterval) && now >= ZeroInstant + minInterval && now >= ZeroInstant
    ensures Wait(minInterval, ZeroInstant, now) == 0
  {
  }

  /** Calls spaced by `d` span at least `d` once per gap. */
  lemma {:induction false} SpacedSpan(starts: seq<int>, d: int)
    requires |starts| > 0 && Spaced(starts, d)
    ensures starts[|starts| - 1] - starts[0] >= (|starts| - 1) * d
  {
    if |starts| > 1 {
      var init := starts[..|starts| - 1];
      assert Spaced(init, d) by {
        forall k | 0 < k < |init| ensures init[k] >= init[k - 1] + d {
          assert init[k] == starts[k] && init[k - 1] == starts[k - 1];
        }
      }
      SpacedSpan(init, d);
      assert starts[|starts| - 1] >= starts[|starts| - 2] + d;
    }
  }

  /** Calls one after the other through one client, the first no earlier
      than `t0`: call k comes `gaps[k]` after the previous one returned (after
      `t0` for the first), its sleep overruns by `overruns[k]` and its inner
      call takes `durations[k]`. The inner client runs once per call, and the
      last call ends at least (n - 1) · minInterval after `t0`. */
  method Burst<Outcome>(minInterval: int, t0: int, gaps: seq<nat>, overruns: seq<nat>, durations: seq<nat>,
                        inner: Outcome) returns (c: ThrottledClient<Outcome>, end: int)
    requires IsDuration(minInterval) && t0 >= ZeroInstant
    requires |gaps| > 0 && |overruns| == |gaps| && |durations| == |gaps|
    ensures |c.starts| == |gaps|
    ensures end == c.last && end - t0 >= (|gaps| - 1) * minInterval
  {
    c := new ThrottledClient(minInterval);
    var i := 0;
    while i < |gaps|
      invariant 0 <= i <= |gaps|
      invariant c.Valid() && c.minInterval == minInterval && |c.starts| == i
      invariant i == 0 ==> c.last == ZeroInstant
      invariant i > 0 ==> c.starts[0] >= t0
    {
      var now := (if i == 0 then t0 else c.last) + gaps[i];
      var r := c.Do(now, overruns[i], durations[i], inner);
      i := i + 1;
    }
    SpacedSpan(c.starts, minInterval);
    end := c.last;
  }
}
