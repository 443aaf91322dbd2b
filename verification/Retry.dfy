/** Bounded retries with capped, jittered backoff under a wall-clock budget. The clock, the random
    source and the attempt are functions of a world they pass on, so an adversary may decide them. */
module Retry {
  import opened Wrappers

  /** Backoffs and budget in milliseconds. */
  datatype Policy = Policy(maxAttempts: int, initialBackoff: int, maxBackoff: int, multiplier: real, jitter: real,
                           budget: int)

  predicate ValidPolicy(p: Policy) {
    0 <= p.initialBackoff <= p.maxBackoff && p.multiplier >= 1.0 && 0.0 <= p.jitter <= 1.0 && p.budget >= 0
  }

  const NANOS_PER_MILLI := 1_000_000
  const EXHAUSTED := Error("protocol", "retry driver exhausted attempts")

  function Min(a: int, b: int): int {
    if a < b then a else b
  }

  /** Conversion to an integer drops the fraction. */
  function Truncated(x: real): int {
    if x >= 0.0 then x.Floor else -(-x).Floor
  }

  // ---- backoff ----

  /** initial * multiplier^(k-1) */
  function Raw(p: Policy, k: nat): real {
    if k <= 1 then p.initialBackoff as real else Raw(p, k - 1) * p.multiplier
  }

  function Backoff(p: Policy, retryIndex: int): int {
    Min(Truncated(Raw(p, if retryIndex < 1 then 1 else retryIndex)), p.maxBackoff)
  }

  method BackoffFor(p: Policy, retryIndex: int) returns (backoff: int)
    requires ValidPolicy(p)
    ensures backoff == Backoff(p, retryIndex)
  {
    var index: nat := if retryIndex < 1 then 1 else retryIndex;
    var raw := p.initialBackoff as real;
    var i := 1;
    while i < index
      invariant 1 <= i <= index && raw == Raw(p, i)
    {
      raw := raw * p.multiplier;
      i := i + 1;
      if raw >= p.maxBackoff as real {
        RawGrows(p, i, index);
        return p.maxBackoff;
      }
    }
    RawGrows(p, 1, index);
    var capped := Min(Truncated(raw), p.maxBackoff);
    return if capped < 0 then 0 else capped;
  }

  lemma ProductIsPositive(x: real, y: real)
    requires x >= 0.0 && y >= 0.0
    ensures x * y >= 0.0
  {
  }

  lemma ProductGrows(x: real, m: real)
    requires x >= 0.0 && m >= 1.0
    ensures x * m >= x
  {
    ProductIsPositive(x, m - 1.0);
    assert x * m == x * (m - 1.0) + x;
  }

  lemma {:induction false} RawIsPositive(p: Policy, k: nat)
    requires ValidPolicy(p)
    ensures Raw(p, k) >= p.initialBackoff as real >= 0.0
  {
    if k > 1 {
      RawIsPositive(p, k - 1);
      ProductGrows(Raw(p, k - 1), p.multiplier);
    }
  }

  lemma {:induction false} RawGrows(p: Policy, j: nat, k: nat)
    requires ValidPolicy(p) && 1 <= j <= k
    ensures 0.0 <= p.initialBackoff as real <= Raw(p, j) <= Raw(p, k)
  {
    RawIsPositive(p, j);
    if j < k {
      RawGrows(p, j, k - 1);
      RawIsPositive(p, k - 1);
      ProductGrows(Raw(p, k - 1), p.multiplier);
    }
  }

  /** Backoffs never shrink, start at the initial backoff and never exceed the cap. */
  lemma {:induction false} BackoffGrows(p: Policy, j: int, k: int)
    requires ValidPolicy(p) && j <= k
    ensures p.initialBackoff == Backoff(p, 1) <= Backoff(p, j) <= Backoff(p, k) <= p.maxBackoff
  {
    RawGrows(p, if j < 1 then 1 else j, if k < 1 then 1 else k);
  }

  /** The backoff before retry k as documented: min(initial * multiplier^k, cap). */
  function DocumentedBackoff(p: Policy, k: nat): real {
    if Raw(p, k + 1) < p.maxBackoff as real then Raw(p, k + 1) else p.maxBackoff as real
  }

  lemma {:induction false} ConstantRaw(p: Policy, k: nat)
    requires p.multiplier == 1.0 || p.initialBackoff == 0
    ensures Raw(p, k) == p.initialBackoff as real
  {
    if k > 1 {
      ConstantRaw(p, k - 1);
    }
  }

  /** The code's power is one short of the documented one: the two agree for every retry if and only if
      the backoff cannot grow at all. */
  lemma {:induction false} BackoffIsDocumentedIff(p: Policy)
    requires ValidPolicy(p)
    ensures (forall k: nat :: k >= 1 ==> Backoff(p, k) as real == DocumentedBackoff(p, k))
       <==> p.multiplier == 1.0 || p.initialBackoff == 0 || p.initialBackoff == p.maxBackoff
  {
    var grows := !(p.multiplier == 1.0 || p.initialBackoff == 0 || p.initialBackoff == p.maxBackoff);
    if grows {
      FirstBackoffDiffers(p);
      assert Backoff(p, 1) as real != DocumentedBackoff(p, 1);
    } else {
      forall k: nat | k >= 1 ensures Backoff(p, k) as real == DocumentedBackoff(p, k) {
        FlatBackoff(p, k);
      }
    }
  }

  lemma {:induction false} FirstBackoffDiffers(p: Policy)
    requires ValidPolicy(p) && p.multiplier != 1.0 && p.initialBackoff != 0 && p.initialBackoff != p.maxBackoff
    ensures Backoff(p, 1) as real < DocumentedBackoff(p, 1)
  {
    var raw := Raw(p, 2);
    RawIsPositive(p, 1);
    assert raw == Raw(p, 1) * p.multiplier;
    ProductIsLarger(Raw(p, 1), p.multiplier);
    BackoffGrows(p, 1, 1);
    assert raw > p.initialBackoff as real;
  }

  lemma ProductIsLarger(x: real, m: real)
    requires x > 0.0 && m > 1.0
    ensures x * m > x
  {
    assert x * (m - 1.0) > 0.0;
    assert x * m == x * (m - 1.0) + x;
  }

  lemma {:induction false} FlatBackoff(p: Policy, k: nat)
    requires ValidPolicy(p) && k >= 1
             && (p.multiplier == 1.0 || p.initialBackoff == 0 || p.initialBackoff == p.maxBackoff)
    ensures Backoff(p, k) as real == DocumentedBackoff(p, k)
  {
    if p.initialBackoff == p.maxBackoff {
      RawIsPositive(p, k);
      RawIsPositive(p, k + 1);
    } else {
      ConstantRaw(p, k);
      ConstantRaw(p, k + 1);
    }
  }

  /** The default policy waits 100 ms before its first retry, not the documented 200. */
  lemma {:induction false} DefaultBackoffDiffers()
    ensures var p := Policy(3, 100, 2000, 2.0, 0.5, 5000);
            ValidPolicy(p) && Backoff(p, 1) == 100 && DocumentedBackoff(p, 1) == 200.0
  {
    assert Raw(Policy(3, 100, 2000, 2.0, 0.5, 5000), 2) == 200.0;
  }

  // ---- jitter ----

  function ClampedDraw(u: real): real {
    if u < 0.0 then 0.0 else if u > 0.999999 then 0.999999 else u
  }

  function Shrunk(raw: real, jitter: real, u: real): real {
    raw * (1.0 - jitter * u)
  }

  function Jittered(p: Policy, raw: int, u: real): int {
    var jittered := Truncated(Shrunk(raw as real, p.jitter, ClampedDraw(u)));
    if jittered < 0 then 0 else jittered
  }

  lemma ShrinkingIsMonotone(raw: real, jitter: real, u: real, v: real)
    requires raw >= 0.0 && jitter >= 0.0 && u <= v
    ensures Shrunk(raw, jitter, v) <= Shrunk(raw, jitter, u)
  {
    ProductIsPositive(jitter, v - u);
    assert jitter * (v - u) == jitter * v - jitter * u;
    ProductIsPositive(raw, jitter * v - jitter * u);
    assert raw * (jitter * v - jitter * u) == raw * (1.0 - jitter * u) - raw * (1.0 - jitter * v);
  }

  lemma ShrunkIsPositive(raw: real, jitter: real, u: real)
    requires raw >= 0.0 && 0.0 <= jitter <= 1.0 && 0.0 <= u <= 1.0
    ensures 0.0 <= Shrunk(raw, jitter, u) <= raw == Shrunk(raw, jitter, 0.0)
  {
    ProductIsPositive(jitter, 1.0 - u);
    assert jitter * (1.0 - u) == jitter - jitter * u;
    ProductIsPositive(raw, 1.0 - jitter * u);
    ShrinkingIsMonotone(raw, jitter, 0.0, u);
  }

  /** What the documentation gives as the shortest delay: raw * (1 - jitter). */
  function DocumentedFloor(p: Policy, raw: nat): real {
    Shrunk(raw as real, p.jitter, 1.0)
  }

  /** The delay of the largest draw, before it is cut to whole milliseconds. */
  function ShortestDelay(p: Policy, raw: nat): real {
    Shrunk(raw as real, p.jitter, 0.999999)
  }

  lemma JitterBounds(p: Policy, raw: nat, u: real)
    requires ValidPolicy(p)
    ensures 0 <= Jittered(p, raw, u) <= raw
    ensures Jittered(p, raw, u) as real > DocumentedFloor(p, raw) - 1.0
  {
    hide Shrunk;
    ShrunkIsPositive(raw as real, p.jitter, ClampedDraw(u));
    ShrinkingIsMonotone(raw as real, p.jitter, ClampedDraw(u), 1.0);
  }

  lemma TruncationIsMonotone(x: real, y: real)
    requires x <= y
    ensures Truncated(x) <= Truncated(y)
  {
  }

  lemma LargestDrawWaitsLeast(p: Policy, raw: nat, u: real)
    requires ValidPolicy(p)
    ensures Jittered(p, raw, 0.999999) == ShortestDelay(p, raw).Floor <= Jittered(p, raw, u)
  {
    hide Shrunk;
    ShrunkIsPositive(raw as real, p.jitter, 0.999999);
    ShrinkingIsMonotone(raw as real, p.jitter, ClampedDraw(u), 0.999999);
    TruncationIsMonotone(ShortestDelay(p, raw), Shrunk(raw as real, p.jitter, ClampedDraw(u)));
  }

  predicate Within(n: int, low: real, high: real) {
    low <= n as real <= high
  }

  ghost predicate FloorHolds(p: Policy, raw: nat) {
    forall u: real :: Jittered(p, raw, u) as real >= DocumentedFloor(p, raw)
  }

  /** The documented floor holds for every draw if and only if a whole number of milliseconds lies
      between raw * (1 - jitter) and raw * (1 - 0.999999 * jitter); else cutting to whole milliseconds
      takes the largest draw below it. */
  lemma JitterFloorIff(p: Policy, raw: nat)
    requires ValidPolicy(p)
    ensures FloorHolds(p, raw) <==> exists n :: Within(n, DocumentedFloor(p, raw), ShortestDelay(p, raw))
  {
    hide Jittered, DocumentedFloor, ShortestDelay;
    LargestDrawWaitsLeast(p, raw, 0.0);
    if n :| Within(n, DocumentedFloor(p, raw), ShortestDelay(p, raw)) {
      assert ShortestDelay(p, raw).Floor >= n;
      forall u: real ensures Jittered(p, raw, u) as real >= DocumentedFloor(p, raw) {
        LargestDrawWaitsLeast(p, raw, u);
      }
    }
    if FloorHolds(p, raw) {
      assert Jittered(p, raw, 0.999999) as real >= DocumentedFloor(p, raw);
      assert Within(Jittered(p, raw, 0.999999), DocumentedFloor(p, raw), ShortestDelay(p, raw));
    }
  }

  /** A draw below the documented range. */
  lemma JitterFloorFails()
    ensures var p := Policy(3, 1, 2000, 2.0, 0.5, 5000);
            ValidPolicy(p) && (Jittered(p, 1, 0.9) as real) < DocumentedFloor(p, 1)
  {
    assert 1.0 * (1.0 - 0.5 * 0.9) == 0.55;
    assert (0.55 as real).Floor == 0;
  }

  // ---- the retry loop ----

  /** What an attempt, the clock and the random source do to the world. An attempt also says whether
      its error may be retried. Time points are in nanoseconds. */
  datatype Env<!W, !T> = Env(
    attempt: W -> (W, Result<T>, bool),
    now: W -> (W, int),
    random: W -> (W, real),
    sleep: (W, int) -> W)

  /** The world left behind, the answer, the attempts made and the milliseconds of sleep asked for. */
  datatype Outcome<W, T> = Outcome(world: W, result: Result<T>, attempts: nat, slept: int)

  function Delay(p: Policy, index: int, u: real, remaining: int): int {
    var delay := Jittered(p, Backoff(p, index + 1), u);
    if delay * NANOS_PER_MILLI > remaining then remaining / NANOS_PER_MILLI else delay
  }

  /** The attempts from the one with the given index on. */
  function RetryFrom<W, T>(p: Policy, env: Env<W, T>, w: W, deadline: int, index: nat): Outcome<W, T>
    decreases p.maxAttempts - index
  {
    if index >= p.maxAttempts then Outcome(w, Err(EXHAUSTED), 0, 0)
    else
      var (w1, result, retryable) := env.attempt(w);
      if result.Ok? || index + 1 >= p.maxAttempts || !retryable then Outcome(w1, result, 1, 0)
      else
        var (w2, failedAt) := env.now(w1);
        if failedAt >= deadline then Outcome(w2, result, 1, 0)
        else
          var (w3, u) := env.random(w2);
          var delay := Delay(p, index, u, deadline - failedAt);
          var rest := RetryFrom(p, env, env.sleep(w3, delay), deadline, index + 1);
          Outcome(rest.world, rest.result, 1 + rest.attempts, delay + rest.slept)
  }

  function Retried<W, T>(p: Policy, env: Env<W, T>, w: W): Outcome<W, T> {
    var (w1, start) := env.now(w);
    RetryFrom(p, env, w1, start + p.budget * NANOS_PER_MILLI, 0)
  }

  method WithRetries<W, T>(p: Policy, env: Env<W, T>, w: W)
    returns (world: W, result: Result<T>, ghost attempts: nat, ghost slept: int)
    requires ValidPolicy(p)
    ensures world == Retried(p, env, w).world && result == Retried(p, env, w).result
    ensures attempts == Retried(p, env, w).attempts && slept == Retried(p, env, w).slept
  {
    var w1, start := env.now(w).0, env.now(w).1;
    var deadline := start + p.budget * NANOS_PER_MILLI;
    world, attempts, slept := w1, 0, 0;
    var index := 0;
    while index < p.maxAttempts
      invariant 0 <= index && (index == 0 || index <= p.maxAttempts)
      invariant var rest := RetryFrom(p, env, world, deadline, index);
                Retried(p, env, w) == Outcome(rest.world, rest.result, attempts + rest.attempts, slept + rest.slept)
    {
      var (afterAttempt, answer, retryable) := env.attempt(world);
      attempts := attempts + 1;
      var lastAttempt := index + 1 >= p.maxAttempts;
      if answer.Ok? || lastAttempt || !retryable {
        return afterAttempt, answer, attempts, slept;
      }
      var (afterReading, failedAt) := env.now(afterAttempt);
      if failedAt >= deadline {
        return afterReading, answer, attempts, slept;
      }
      var raw := BackoffFor(p, index + 1);
      var (afterDraw, u) := env.random(afterReading);
      var delay := Jittered(p, raw, u);
      var remaining := deadline - failedAt;
      if delay * NANOS_PER_MILLI > remaining {
        delay := remaining / NANOS_PER_MILLI;
      }
      world := env.sleep(afterDraw, delay);
      slept := slept + delay;
      index := index + 1;
    }
    result := Err(EXHAUSTED);
  }

  /** One turn of the loop: either this attempt's answer is final, or the rest follows after a clock
      reading, a draw and a sleep: the jittered backoff of this retry if what remains of the budget
      allows it, and else all the whole milliseconds that remain. */
  lemma {:induction false} Turn<W, T>(p: Policy, env: Env<W, T>, w: W, deadline: int, index: nat)
    returns (more: bool, millis: int)
    requires index < p.maxAttempts
    ensures var (w1, result, again) := env.attempt(w);
            more <==> result.Err? && again && index + 1 < p.maxAttempts && env.now(w1).1 < deadline
    ensures var r := RetryFrom(p, env, w, deadline, index);
            var (w1, result, again) := env.attempt(w);
            if more then
              var rest := RetryFrom(p, env, env.sleep(env.random(env.now(w1).0).0, millis), deadline, index + 1);
              again && result.Err? && r.world == rest.world && r.result == rest.result
              && r.attempts == 1 + rest.attempts && r.slept == millis + rest.slept
            else
              r.result == result && r.attempts == 1 && r.slept == 0
              && (r.world == w1 || (result.Err? && again && r.world == env.now(w1).0))
    ensures more ==>
              var (w2, failedAt) := env.now(env.attempt(w).0);
              var backoff := Jittered(p, Backoff(p, index + 1), env.random(w2).1);
              if backoff * NANOS_PER_MILLI <= deadline - failedAt then millis == backoff
              else millis * NANOS_PER_MILLI <= deadline - failedAt < (millis + 1) * NANOS_PER_MILLI
  {
    var (w1, result, again) := env.attempt(w);
    var failedAt := env.now(w1).1;
    more := !(result.Ok? || index + 1 >= p.maxAttempts || !again || failedAt >= deadline);
    millis := Delay(p, index, env.random(env.now(w1).0).1, deadline - failedAt);
  }

  /** The backoffs of `count` retries, the first of them numbered `first`, added up. */
  function Backoffs(p: Policy, first: nat, count: nat): int
    decreases count
  {
    if count == 0 then 0 else Backoff(p, first) + Backoffs(p, first + 1, count - 1)
  }

  /** An attempt that always fails in a way that may be retried, and a clock that stands still. */
  ghost predicate FailsForEver<W(!new), T>(env: Env<W, T>, time: int) {
    && (forall w {:trigger env.attempt(w)} :: env.attempt(w).1.Err? && env.attempt(w).2)
    && (forall w {:trigger env.now(w)} :: env.now(w).1 == time)
  }

  lemma {:induction false} UnjitteredIsRaw(p: Policy, raw: nat, u: real)
    requires p.jitter == 0.0
    ensures Jittered(p, raw, u) == raw
  {
    assert Shrunk(raw as real, 0.0, ClampedDraw(u)) == raw as real;
  }

  lemma {:induction false} BackoffsArePositive(p: Policy, first: nat, count: nat)
    requires ValidPolicy(p)
    ensures Backoffs(p, first, count) >= 0
    decreases count
  {
    if count > 0 {
      BackoffGrows(p, first, first);
      BackoffsArePositive(p, first + 1, count - 1);
    }
  }

  lemma {:induction false} FailingSleeps<W(!new), T>(p: Policy, env: Env<W, T>, w: W, deadline: int, index: nat,
                                                     time: int)
    requires ValidPolicy(p) && p.jitter == 0.0 && FailsForEver(env, time) && index < p.maxAttempts
    requires time < deadline && Backoffs(p, index + 1, p.maxAttempts - index - 1) * NANOS_PER_MILLI <= deadline - time
    ensures var r := RetryFrom(p, env, w, deadline, index);
            && r.attempts == p.maxAttempts - index && r.result.Err?
            && r.slept == Backoffs(p, index + 1, p.maxAttempts - index - 1)
    decreases p.maxAttempts - index
  {
    hide Backoff, Jittered, RetryFrom;
    var more, millis := Turn(p, env, w, deadline, index);
    if more {
      BackoffGrows(p, index + 1, index + 1);
      BackoffsArePositive(p, index + 2, p.maxAttempts - index - 2);
      UnjitteredIsRaw(p, Backoff(p, index + 1), env.random(env.now(env.attempt(w).0).0).1);
      var next := env.sleep(env.random(env.now(env.attempt(w).0).0).0, millis);
      FailingSleeps(p, env, next, deadline, index + 1, time);
    }
  }

  /** What a lasting failure costs: without jitter, and with a budget for it, all attempts are made, and
      the sleep is exactly the backoffs of retries 1 to maxAttempts - 1. */
  lemma {:induction false} LastingFailureSleeps<W(!new), T>(p: Policy, env: Env<W, T>, w: W, time: int)
    requires ValidPolicy(p) && p.jitter == 0.0 && FailsForEver(env, time) && p.maxAttempts >= 1
    requires p.budget > 0 && Backoffs(p, 1, p.maxAttempts - 1) <= p.budget
    ensures var r := Retried(p, env, w);
            r.attempts == p.maxAttempts && r.slept == Backoffs(p, 1, p.maxAttempts - 1) && r.result.Err?
  {
    hide RetryFrom;
    FailingSleeps(p, env, env.now(w).0, time + p.budget * NANOS_PER_MILLI, 0, time);
  }

  // ---- bounds ----

  /** Attempts lie in 1..maxAttempts and the answer is an attempt's own, exactly when at least one
      attempt is allowed; otherwise nothing is attempted and the driver's own error is the answer. */
  lemma {:induction false} AttemptsAreBounded<W, T>(p: Policy, env: Env<W, T>, w: W, deadline: int, index: nat)
    ensures var r := RetryFrom(p, env, w, deadline, index);
            if index < p.maxAttempts
            then 1 <= r.attempts <= p.maxAttempts - index && exists v :: env.attempt(v).1 == r.result
            else r == Outcome(w, Err(EXHAUSTED), 0, 0)
    decreases p.maxAttempts - index
  {
    if index < p.maxAttempts {
      var (w1, result, retryable) := env.attempt(w);
      var (w2, failedAt) := env.now(w1);
      var (w3, u) := env.random(w2);
      if !(result.Ok? || index + 1 >= p.maxAttempts || !retryable || failedAt >= deadline) {
        AttemptsAreBounded(p, env, env.sleep(w3, Delay(p, index, u, deadline - failedAt)), deadline, index + 1);
      } else {
        assert env.attempt(w).1 == result;
      }
    }
  }

  /** `measure` grows by at most `most` in an attempt and not at all in between. */
  ghost predicate GrowsPerAttempt<W(!new), T>(env: Env<W, T>, measure: W -> int, most: int) {
    && (forall w {:trigger env.attempt(w)} :: measure(env.attempt(w).0) <= measure(w) + most)
    && (forall w {:trigger env.now(w)} :: measure(env.now(w).0) <= measure(w))
    && (forall w {:trigger env.random(w)} :: measure(env.random(w).0) <= measure(w))
    && (forall w, d {:trigger env.sleep(w, d)} :: measure(env.sleep(w, d)) <= measure(w))
  }

  lemma ProductOfSuccessor(n: nat, m: int)
    ensures (1 + n) * m == m + n * m
  {
  }

  lemma {:induction false} GrowthIsPerAttempt<W(!new), T>(p: Policy, env: Env<W, T>, w: W, deadline: int, index: nat,
                                                          measure: W -> int, most: int)
    requires GrowsPerAttempt(env, measure, most)
    ensures var r := RetryFrom(p, env, w, deadline, index);
            measure(r.world) <= measure(w) + r.attempts * most
    decreases p.maxAttempts - index
  {
    if index < p.maxAttempts {
      var more, millis := Turn(p, env, w, deadline, index);
      if more {
        var next := env.sleep(env.random(env.now(env.attempt(w).0).0).0, millis);
        GrowthIsPerAttempt(p, env, next, deadline, index + 1, measure, most);
        ProductOfSuccessor(RetryFrom(p, env, next, deadline, index + 1).attempts, most);
      }
    }
  }

  /** The clock never runs backwards, shows no time later than the world's, and a sleep of d
      milliseconds takes at least that long. */
  ghost predicate Monotone<W(!new), T>(env: Env<W, T>, time: W -> int) {
    && (forall w {:trigger env.attempt(w)} :: time(w) <= time(env.attempt(w).0))
    && (forall w {:trigger env.now(w)} :: time(w) <= env.now(w).1 <= time(env.now(w).0))
    && (forall w {:trigger env.random(w)} :: time(w) <= time(env.random(w).0))
    && (forall w, d: nat {:trigger env.sleep(w, d)} :: time(w) + d * NANOS_PER_MILLI <= time(env.sleep(w, d)))
  }

  lemma DelayFits(p: Policy, index: nat, u: real, remaining: nat)
    requires ValidPolicy(p)
    ensures 0 <= Delay(p, index, u, remaining) && Delay(p, index, u, remaining) * NANOS_PER_MILLI <= remaining
  {
    BackoffGrows(p, 1, index + 1);
    JitterBounds(p, Backoff(p, index + 1), u);
  }

  lemma {:induction false} SleepFitsDeadline<W(!new), T>(p: Policy, env: Env<W, T>, w: W, deadline: int, index: nat,
                                                         time: W -> int)
    requires ValidPolicy(p) && Monotone(env, time)
    ensures var slept := RetryFrom(p, env, w, deadline, index).slept;
            0 <= slept && slept * NANOS_PER_MILLI <= if time(w) < deadline then deadline - time(w) else 0
    decreases p.maxAttempts - index
  {
    if index < p.maxAttempts {
      var (w1, result, retryable) := env.attempt(w);
      var (w2, failedAt) := env.now(w1);
      var (w3, u) := env.random(w2);
      assert time(w) <= time(w1) <= failedAt <= time(w2) <= time(w3);
      if !(result.Ok? || index + 1 >= p.maxAttempts || !retryable || failedAt >= deadline) {
        var delay := Delay(p, index, u, deadline - failedAt);
        DelayFits(p, index, u, deadline - failedAt);
        SleepFitsDeadline(p, env, env.sleep(w3, delay), deadline, index + 1, time);
      }
    }
  }

  /** For any monotone clock the sleep asked for never exceeds the budget. */
  lemma {:induction false} SleepFitsBudget<W(!new), T>(p: Policy, env: Env<W, T>, w: W, time: W -> int)
    requires ValidPolicy(p) && Monotone(env, time)
    ensures 0 <= Retried(p, env, w).slept <= p.budget
  {
    var (w1, start) := env.now(w);
    SleepFitsDeadline(p, env, w1, start + p.budget * NANOS_PER_MILLI, 0, time);
    BudgetInMillis(Retried(p, env, w).slept, p.budget, start, time(w1));
  }

  lemma BudgetInMillis(slept: int, budget: nat, start: int, now: int)
    requires start <= now
    requires var deadline := start + budget * NANOS_PER_MILLI;
             slept * NANOS_PER_MILLI <= if now < deadline then deadline - now else 0
    ensures slept <= budget
  {
  }

  /** With one attempt allowed, or no budget, nothing is retried. */
  lemma {:induction false} NoBudgetNoRetry<W(!new), T>(p: Policy, env: Env<W, T>, w: W, time: W -> int)
    requires Monotone(env, time) && (p.maxAttempts <= 1 || p.budget <= 0)
    ensures Retried(p, env, w).attempts <= 1
  {
  }
}
