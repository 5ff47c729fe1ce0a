/**
 * Rate limiting: one token bucket per agent and one per Forge, both of which must admit.
 *
 * Rows of `rate_limit_bucket` are values; the table is a map that the methods of
 * `RateLimiter` update. An `acquire` transaction locks the agent row and then the Forge
 * row until it commits, so every interleaving of transactions is a sequence of `Event`s.
 */
module Limits {
  import opened Wrappers

  const DEFAULT_AGENT_RPS := 5.0
  const DEFAULT_AGENT_BURST := 10.0

  type AgentId = nat
  type ForgeId = string

  datatype Key = AgentKey(agent: AgentId) | ForgeKey(forge: ForgeId)

  function Min(x: real, y: real): real { if x <= y then x else y }

  function Max(x: real, y: real): real { if x >= y then x else y }

  /** What `elapsed` seconds at `rho` per second make of `tokens`, up to `cap`. */
  function Refill(tokens: real, elapsed: real, rho: real, cap: real): real {
    Min(cap, tokens + elapsed * rho)
  }

  datatype Bucket = Bucket(tokens: real, max: real, rate: real, lastRefill: real,
                           factor: real, until: Option<real>) {
    /** The table's CHECK constraints. */
    predicate Valid() {
      0.0 <= tokens <= max && 0.0 < max && 0.0 < rate && 0.0 < factor <= 1.0
    }

    predicate ThrottledAt(now: real) { until.Some? && until.value > now }

    function ThrottledRate(): real { rate * factor }

    function EffectiveRate(now: real): real {
      if ThrottledAt(now) then ThrottledRate() else rate
    }

    /** Tokens on hand at `now`: all the time since the last write is credited at the rate in force now. */
    function Available(now: real): real {
      Refill(tokens, now - lastRefill, EffectiveRate(now), max)
    }

    /** The row one acquire writes, admitted or not. */
    function Written(now: real): Bucket {
      var refilled := Available(now);
      this.(tokens := if refilled >= 1.0 then refilled - 1.0 else refilled, lastRefill := now)
    }
  }

  type Table = map<Key, Bucket>

  datatype Event =
    | Ensure(key: Key, rps: real, burst: real)
    | Acquire(agent: AgentId, forge: ForgeId)
    | Throttle(agent: AgentId, factor: real, seconds: int)
    | Configure(key: Key, max: real, rate: real)

  datatype Outcome = Done | Rejected | Admitted | AgentRefused | ForgeRefused

  /** `Rejected` is a CHECK constraint of the table refusing the proposed row, conflict or not. */
  function Ensured(t: Table, now: real, key: Key, rps: real, burst: real): (Table, Outcome) {
    if rps <= 0.0 || burst <= 0.0 then (t, Rejected)
    else if key in t then (t, Done)
    else (t[key := Bucket(burst, burst, rps, now, 1.0, None)], Done)
  }

  function Acquired(t: Table, now: real, agent: AgentId, forge: ForgeId): (Table, Outcome) {
    var a, f := AgentKey(agent), ForgeKey(forge);
    if a !in t || t[a].Available(now) < 1.0 then (t, AgentRefused)
    else
      var debited := t[a := t[a].Written(now)];
      if f !in t then (debited, ForgeRefused)
      else
        (debited[f := t[f].Written(now)],
         if t[f].Available(now) < 1.0 then ForgeRefused else Admitted)
  }

  function Throttled(t: Table, now: real, agent: AgentId, factor: real, seconds: int): (Table, Outcome) {
    var a, end := AgentKey(agent), now + seconds as real;
    if factor <= 0.0 || factor > 1.0 then (t, Rejected)
    else if a in t then
      var b := t[a];
      var until := match b.until case None => now case Some(u) => u;
      (t[a := b.(factor := Min(b.factor, factor), until := Some(Max(until, end)))], Done)
    else
      (t[a := Bucket(DEFAULT_AGENT_BURST, DEFAULT_AGENT_BURST, DEFAULT_AGENT_RPS, now, factor, Some(end))],
       Done)
  }

  function Configured(t: Table, now: real, key: Key, max: real, rate: real): (Table, Outcome) {
    if max <= 0.0 || rate <= 0.0 then (t, Rejected)
    else if key !in t then (t[key := Bucket(max, max, rate, now, 1.0, None)], Done)
    else if t[key].tokens > max then (t, Rejected)
    else (t[key := t[key].(max := max, rate := rate)], Done)
  }

  function Apply(t: Table, now: real, e: Event): (Table, Outcome) {
    match e
    case Ensure(key, rps, burst) => Ensured(t, now, key, rps, burst)
    case Acquire(agent, forge) => Acquired(t, now, agent, forge)
    case Throttle(agent, factor, seconds) => Throttled(t, now, agent, factor, seconds)
    case Configure(key, max, rate) => Configured(t, now, key, max, rate)
  }

  // ---------------------------------------------------------------- runs

  datatype Timed = Timed(at: real, ev: Event)

  function After(t: Table, run: seq<Timed>): Table
    decreases |run|
  {
    if run == [] then t else After(Apply(t, run[0].at, run[0].ev).0, run[1..])
  }

  /** Commit order never goes back in time. */
  ghost predicate Ordered(start: real, run: seq<Timed>)
    decreases |run|
  {
    run != [] ==> start <= run[0].at && Ordered(run[0].at, run[1..])
  }

  ghost predicate WellFormed(t: Table, now: real) {
    forall k :: k in t ==> t[k].Valid() && t[k].lastRefill <= now
  }

  /** How many times `run` takes a token from `key`, read off the outcomes alone. */
  function Debits(t: Table, run: seq<Timed>, key: Key): nat
    decreases |run|
  {
    if run == [] then 0 else
      var (next, outcome) := Apply(t, run[0].at, run[0].ev);
      (if Charges(run[0].ev, outcome, key) then 1 else 0) + Debits(next, run[1..], key)
  }

  /** An admitted call costs both buckets one token; a call the Forge ceiling refuses still costs its agent one. */
  predicate Charges(e: Event, outcome: Outcome, key: Key) {
    e.Acquire? &&
    match key
    case AgentKey(agent) => e.agent == agent && (outcome == Admitted || outcome == ForgeRefused)
    case ForgeKey(forge) => e.forge == forge && outcome == Admitted
  }

  /** `cap` and `rho` bound the size and the rate in force of `key`'s bucket at every event of the run. */
  ghost predicate LimitsWithin(t: Table, run: seq<Timed>, key: Key, cap: real, rho: real)
    decreases |run|
  {
    run != [] ==>
      var next := Apply(t, run[0].at, run[0].ev).0;
      && (key in t ==> t[key].max <= cap && t[key].EffectiveRate(run[0].at) <= rho)
      && (key in next ==> next[key].max <= cap)
      && LimitsWithin(next, run[1..], key, cap, rho)
  }

  // ------------------------------------------------ well-formedness of every reachable table

  lemma ProductIsNonnegative(x: real, y: real)
    requires 0.0 <= x && 0.0 <= y
    ensures 0.0 <= x * y
  {
  }

  lemma ElapsedSplits(last: real, from: real, now: real, rho: real)
    ensures (now - last) * rho == (from - last) * rho + rho * (now - from)
  {
  }

  lemma ProductsGrow(x: real, y: real, z: real)
    requires 0.0 <= z && x <= y
    ensures x * z <= y * z
  {
    ProductIsNonnegative(y - x, z);
    assert (y - x) * z == y * z - x * z;
  }

  lemma RateIsPositive(b: Bucket, now: real)
    requires b.Valid()
    ensures 0.0 < b.EffectiveRate(now) <= b.rate
  {
    ProductsGrow(b.factor, 1.0, b.rate);
    assert b.rate * b.factor == b.factor * b.rate;
  }

  lemma ThrottledRateWithin(b: Bucket, high: real)
    requires b.Valid() && b.factor <= high
    ensures 0.0 <= b.ThrottledRate() <= high * b.rate
  {
    ProductIsNonnegative(b.rate, b.factor);
    ProductsGrow(b.factor, high, b.rate);
  }

  lemma RefillWithin(tokens: real, elapsed: real, rho: real, cap: real)
    requires 0.0 <= tokens && 0.0 <= elapsed && 0.0 <= rho && 0.0 <= cap
    ensures 0.0 <= Refill(tokens, elapsed, rho, cap) <= cap
    ensures Min(tokens, cap) <= Refill(tokens, elapsed, rho, cap)
  {
    ProductIsNonnegative(elapsed, rho);
  }

  lemma RefillNothing(tokens: real, rho: real, cap: real)
    ensures Refill(tokens, 0.0, rho, cap) == Min(cap, tokens)
  {
  }

  lemma RefillMonotone(tokens: real, elapsed: real, rho: real, cap: real, rho': real, cap': real)
    requires 0.0 <= elapsed && rho <= rho' && cap <= cap'
    ensures Refill(tokens, elapsed, rho, cap) <= Refill(tokens, elapsed, rho', cap')
  {
    ProductsGrow(rho, rho', elapsed);
    assert elapsed * rho == rho * elapsed && elapsed * rho' == rho' * elapsed;
  }

  /** Refilling in two steps is refilling once: nothing is gained or lost by an intermediate write. */
  lemma RefillComposes(tokens: real, first: real, second: real, rho: real, cap: real)
    requires 0.0 <= first && 0.0 <= second && 0.0 <= rho
    ensures Refill(Refill(tokens, first, rho, cap), second, rho, cap) == Refill(tokens, first + second, rho, cap)
  {
    ProductIsNonnegative(second, rho);
    assert (first + second) * rho == first * rho + second * rho;
  }

  lemma WrittenIsValid(b: Bucket, now: real)
    requires b.Valid() && b.lastRefill <= now
    ensures b.Written(now).Valid() && 0.0 <= b.Available(now) <= b.max
  {
    RateIsPositive(b, now);
    RefillWithin(b.tokens, now - b.lastRefill, b.EffectiveRate(now), b.max);
  }

  lemma StepKeepsWellFormed(t: Table, now: real, e: Event)
    requires WellFormed(t, now)
    ensures WellFormed(Apply(t, now, e).0, now)
  {
    var t' := Apply(t, now, e).0;
    forall k | k in t' ensures t'[k].Valid() && t'[k].lastRefill <= now {
      if k in t {
        WrittenIsValid(t[k], now);
      }
    }
  }

  lemma {:induction false} RunKeepsWellFormed(t: Table, start: real, run: seq<Timed>)
    requires WellFormed(t, start) && Ordered(start, run)
    ensures WellFormed(After(t, run), if run == [] then start else run[|run| - 1].at)
    decreases |run|
  {
    if run != [] {
      StepKeepsWellFormed(t, run[0].at, run[0].ev);
      RunKeepsWellFormed(Apply(t, run[0].at, run[0].ev).0, run[0].at, run[1..]);
    }
  }

  lemma {:induction false} AfterSplits(t: Table, run: seq<Timed>, more: seq<Timed>)
    ensures After(t, run + more) == After(After(t, run), more)
    decreases |run|
  {
    if run == [] {
      assert run + more == more;
    } else {
      assert (run + more)[1..] == run[1..] + more;
      AfterSplits(Apply(t, run[0].at, run[0].ev).0, run[1..], more);
    }
  }

  lemma {:induction false} OrderedSplits(start: real, run: seq<Timed>, i: nat)
    requires Ordered(start, run) && i <= |run|
    ensures Ordered(start, run[..i])
    ensures Ordered(if i == 0 then start else run[i - 1].at, run[i..])
    ensures i < |run| ==> (if i == 0 then start else run[i - 1].at) <= run[i].at
    decreases |run|
  {
    if i > 0 {
      OrderedSplits(run[0].at, run[1..], i - 1);
      assert run[..i][1..] == run[1..][..i - 1];
      assert run[i..] == run[1..][i - 1..];
    }
  }

  // ------------------------------------------------ what each event does, in the stored columns

  /** What the columns make of the time since the last write: `tokens + elapsed * rate`, throttled or not. */
  function Inflow(b: Bucket, now: real): real {
    if b.until.Some? && b.until.value > now then b.tokens + (now - b.lastRefill) * (b.rate * b.factor)
    else b.tokens + (now - b.lastRefill) * b.rate
  }

  predicate HasToken(b: Bucket, now: real) { b.max >= 1.0 && Inflow(b, now) >= 1.0 }

  /** A bucket refills at its rate up to its size. */
  lemma AvailableIs(b: Bucket, now: real)
    ensures b.Available(now) == if Inflow(b, now) <= b.max then Inflow(b, now) else b.max
    ensures b.Available(now) >= 1.0 <==> HasToken(b, now)
  {
    var elapsed, rho := now - b.lastRefill, b.EffectiveRate(now);
    if b.ThrottledAt(now) {
      assert rho == b.rate * b.factor;
      assert elapsed * rho == elapsed * (b.rate * b.factor);
    } else {
      assert rho == b.rate;
      assert elapsed * rho == elapsed * b.rate;
    }
    assert Inflow(b, now) == b.tokens + elapsed * rho;
  }

  /** The row an attempt at `now` leaves: refilled, dated, and a token lighter if one was there. */
  predicate Attempt(before: Bucket, after: Bucket, now: real) {
    && after == before.(tokens := after.tokens, lastRefill := now)
    && after.tokens == (if Inflow(before, now) <= before.max then Inflow(before, now) else before.max)
                       - (if HasToken(before, now) then 1.0 else 0.0)
  }

  lemma WrittenIsAnAttempt(b: Bucket, now: real)
    ensures Attempt(b, b.Written(now), now)
  {
    AvailableIs(b, now);
  }

  /**
   * A call is admitted exactly when both buckets exist and hold a token; an agent without one is
   * refused at no cost, and one the Forge refuses has paid its own token.
   */
  lemma AcquireTakesEffect(t: Table, now: real, agent: AgentId, forge: ForgeId)
    ensures var (next, outcome) := Apply(t, now, Acquire(agent, forge));
            var a, f := AgentKey(agent), ForgeKey(forge);
            && next.Keys == t.Keys && (forall k :: k in t && k != a && k != f ==> next[k] == t[k])
            && (outcome == AgentRefused <==> !(a in t && HasToken(t[a], now)))
            && (outcome == Admitted <==> a in t && HasToken(t[a], now) && f in t && HasToken(t[f], now))
            && outcome in {AgentRefused, ForgeRefused, Admitted}
            && (outcome == AgentRefused ==> next == t)
            && (outcome != AgentRefused ==> Attempt(t[a], next[a], now) && (f in t ==> Attempt(t[f], next[f], now)))
  {
    var a, f := AgentKey(agent), ForgeKey(forge);
    if a in t {
      AvailableIs(t[a], now);
      WrittenIsAnAttempt(t[a], now);
    }
    if f in t {
      AvailableIs(t[f], now);
      WrittenIsAnAttempt(t[f], now);
    }
  }

  /** Ensuring makes a full, unthrottled bucket where there was none, and changes no other. */
  lemma EnsureTakesEffect(t: Table, now: real, key: Key, rps: real, burst: real)
    ensures var (next, outcome) := Apply(t, now, Ensure(key, rps, burst));
            && (outcome == Rejected <==> rps <= 0.0 || burst <= 0.0) && (outcome == Rejected || outcome == Done)
            && (forall k :: k in t ==> k in next && next[k] == t[k])
            && next.Keys == t.Keys + (if outcome == Done then {key} else {})
            && (outcome == Done && key !in t ==>
                  && next[key].tokens == burst && next[key].max == burst && next[key].rate == rps
                  && next[key].lastRefill == now && next[key].factor == 1.0 && next[key].until.None?)
  {
  }

  /** A throttle takes the smaller factor and the later end, and makes the agent's bucket if it has none. */
  lemma ThrottleTakesEffect(t: Table, now: real, agent: AgentId, factor: real, seconds: int)
    ensures var (next, outcome) := Apply(t, now, Throttle(agent, factor, seconds));
            var key := AgentKey(agent);
            && (outcome == Rejected <==> factor <= 0.0 || factor > 1.0) && (outcome == Rejected || outcome == Done)
            && (outcome == Rejected ==> next == t)
            && (forall k :: k in t && k != key ==> k in next && next[k] == t[k])
            && (outcome == Done ==>
                  && next.Keys == t.Keys + {key} && next[key].until.Some?
                  && (key in t ==>
                        && next[key] == t[key].(factor := next[key].factor, until := next[key].until)
                        && next[key].factor in {factor, t[key].factor}
                        && next[key].factor <= factor && next[key].factor <= t[key].factor
                        && var began := if t[key].until.Some? then t[key].until.value else now;
                           && now + seconds as real <= next[key].until.value && began <= next[key].until.value
                           && next[key].until.value in {now + seconds as real, began})
                  && (key !in t ==>
                        next[key] == Bucket(10.0, 10.0, 5.0, now, factor, Some(now + seconds as real))))
  {
  }

  /** Re-provisioning resizes and re-rates, and hands nobody a token. */
  lemma ConfigureTakesEffect(t: Table, now: real, key: Key, max: real, rate: real)
    ensures var (next, outcome) := Apply(t, now, Configure(key, max, rate));
            && (outcome == Rejected <==> max <= 0.0 || rate <= 0.0 || (key in t && t[key].tokens > max))
            && (outcome == Rejected || outcome == Done) && (outcome == Rejected ==> next == t)
            && (forall k :: k in t && k != key ==> k in next && next[k] == t[k])
            && (outcome == Done ==>
                  && next.Keys == t.Keys + {key} && next[key].max == max && next[key].rate == rate
                  && (key in t ==> next[key] == t[key].(max := max, rate := rate))
                  && (key !in t ==> next[key] == Bucket(max, max, rate, now, 1.0, None)))
  {
  }

  // ------------------------------------------------ the rate bound

  /** What a bucket refilled at `rho` per second gains between two moments. */
  ghost function Accrued(rho: real, from: real, to: real): real { rho * (to - from) }

  /** The most `key` could still pay out at `now` if it were refilled at `rho` up to `cap`. */
  ghost function Allowance(t: Table, now: real, key: Key, cap: real, rho: real): real {
    if key in t then Refill(t[key].tokens, now - t[key].lastRefill, rho, cap) else cap
  }

  lemma AllowanceGrowsAtRho(t: Table, from: real, now: real, key: Key, cap: real, rho: real)
    requires from <= now && 0.0 <= rho
    ensures Allowance(t, now, key, cap, rho) <= Allowance(t, from, key, cap, rho) + Accrued(rho, from, now)
  {
    ProductIsNonnegative(rho, now - from);
    if key in t {
      ElapsedSplits(t[key].lastRefill, from, now, rho);
    }
  }

  lemma AllowanceIsNonnegative(t: Table, now: real, key: Key, cap: real, rho: real)
    requires WellFormed(t, now) && 0.0 <= rho && 0.0 <= cap
    ensures 0.0 <= Allowance(t, now, key, cap, rho) <= cap
  {
    if key in t {
      RefillWithin(t[key].tokens, now - t[key].lastRefill, rho, cap);
    }
  }

  /** The potential argument, one event at a time: whatever the event pays out, the allowance loses. */
  lemma StepSpendsAllowance(t: Table, now: real, e: Event, key: Key, cap: real, rho: real)
    requires WellFormed(t, now) && 0.0 <= rho
    requires key in t ==> t[key].max <= cap && t[key].EffectiveRate(now) <= rho
    requires key in Apply(t, now, e).0 ==> Apply(t, now, e).0[key].max <= cap
    ensures var (next, outcome) := Apply(t, now, e);
            (if Charges(e, outcome, key) then 1.0 else 0.0) + Allowance(next, now, key, cap, rho)
              <= Allowance(t, now, key, cap, rho)
  {
    if key in t {
      var b := t[key];
      WrittenIsValid(b, now);
      RefillMonotone(b.tokens, now - b.lastRefill, b.EffectiveRate(now), b.max, rho, cap);
      RefillNothing(b.Written(now).tokens, rho, cap);
    }
    if key in Apply(t, now, e).0 && key !in t {
      RefillNothing(Apply(t, now, e).0[key].tokens, rho, cap);
    }
  }

  lemma RhoSplits(rho: real, from: real, now: real, end: real)
    ensures Accrued(rho, from, end) == Accrued(rho, from, now) + Accrued(rho, now, end)
  {
  }

  lemma {:induction false} SegmentBound(t: Table, from: real, run: seq<Timed>, key: Key, cap: real, rho: real)
    requires run != [] && WellFormed(t, from) && Ordered(from, run) && 0.0 <= rho && 0.0 <= cap
    requires LimitsWithin(t, run, key, cap, rho)
    ensures Debits(t, run, key) as real
              <= Allowance(t, from, key, cap, rho) + Accrued(rho, from, run[|run| - 1].at)
    decreases |run|
  {
    var now, e, end := run[0].at, run[0].ev, run[|run| - 1].at;
    var (next, outcome) := Apply(t, now, e);
    var head := if Charges(e, outcome, key) then 1.0 else 0.0;
    assert head + Allowance(next, now, key, cap, rho)
           <= Allowance(t, from, key, cap, rho) + Accrued(rho, from, now) by {
      AllowanceGrowsAtRho(t, from, now, key, cap, rho);
      WellFormedLater(t, from, now);
      StepSpendsAllowance(t, now, e, key, cap, rho);
    }
    assert WellFormed(next, now) by {
      WellFormedLater(t, from, now);
      StepKeepsWellFormed(t, now, e);
    }
    if |run| == 1 {
      assert Debits(t, run, key) as real == head;
      AllowanceIsNonnegative(next, now, key, cap, rho);
    } else {
      SegmentBound(next, now, run[1..], key, cap, rho);
      RhoSplits(rho, from, now, end);
    }
  }

  lemma WellFormedLater(t: Table, from: real, now: real)
    requires WellFormed(t, from) && from <= now
    ensures WellFormed(t, now)
  {
  }

  /**
   * The rate bound over any window of any run: whatever the interleaving, one bucket pays out
   * at most `cap` at once plus `rho` per second of the window.
   */
  lemma WindowBound(t: Table, start: real, run: seq<Timed>, i: nat, j: nat, key: Key, cap: real, rho: real)
    requires WellFormed(t, start) && Ordered(start, run) && i < j <= |run| && 0.0 <= rho && 0.0 <= cap
    requires LimitsWithin(After(t, run[..i]), run[i..j], key, cap, rho)
    ensures Debits(After(t, run[..i]), run[i..j], key) as real <= cap + Accrued(rho, run[i].at, run[j - 1].at)
  {
    var here, from := After(t, run[..i]), run[i].at;
    WindowIsOrdered(t, start, run, i, j);
    SegmentBound(here, from, run[i..j], key, cap, rho);
    AllowanceIsNonnegative(here, from, key, cap, rho);
    assert run[i..j][j - i - 1] == run[j - 1];
  }

  lemma WindowIsOrdered(t: Table, start: real, run: seq<Timed>, i: nat, j: nat)
    requires WellFormed(t, start) && Ordered(start, run) && i < j <= |run|
    ensures WellFormed(After(t, run[..i]), run[i].at) && Ordered(run[i].at, run[i..j])
  {
    OrderedSplits(start, run, i);
    RunKeepsWellFormed(t, start, run[..i]);
    var before := if i == 0 then start else run[i - 1].at;
    WellFormedLater(After(t, run[..i]), before, run[i].at);
    assert Ordered(run[i].at, run[i..]);
    OrderedSplits(run[i].at, run[i..], j - i);
    assert run[i..][..j - i] == run[i..j];
  }

  /** No event of the run reconfigures `key`. */
  ghost predicate Unconfigured(run: seq<Timed>, key: Key) {
    forall k :: 0 <= k < |run| ==> !(run[k].ev.Configure? && run[k].ev.key == key)
  }

  /** Ensuring, acquiring and throttling never change a bucket's size or refill rate, and never delete it. */
  lemma {:induction false} LimitsAreFixed(t: Table, run: seq<Timed>, key: Key)
    requires key in t && Unconfigured(run, key)
    ensures key in After(t, run)
    ensures After(t, run)[key].max == t[key].max && After(t, run)[key].rate == t[key].rate
    decreases |run|
  {
    if run != [] {
      assert Unconfigured(run[1..], key);
      LimitsAreFixed(Apply(t, run[0].at, run[0].ev).0, run[1..], key);
    }
  }

  lemma {:induction false} OwnLimitsHold(t: Table, start: real, run: seq<Timed>, key: Key)
    requires WellFormed(t, start) && Ordered(start, run) && Unconfigured(run, key)
    requires key in After(t, run)
    ensures LimitsWithin(t, run, key, After(t, run)[key].max, After(t, run)[key].rate)
    decreases |run|
  {
    if run != [] {
      var now := run[0].at;
      var next := Apply(t, now, run[0].ev).0;
      assert Unconfigured(run[1..], key);
      if key in t {
        LimitsAreFixed(t, run, key);
        RateIsPositive(t[key], now);
      }
      if key in next {
        LimitsAreFixed(next, run[1..], key);
      }
      WellFormedLater(t, start, now);
      StepKeepsWellFormed(t, now, run[0].ev);
      OwnLimitsHold(next, now, run[1..], key);
    }
  }

  /** The largest size a bucket has anywhere in the run; nothing where it never exists. */
  function PeakSize(t: Table, run: seq<Timed>, key: Key): real
    decreases |run|
  {
    var here := if key in t then t[key].max else 0.0;
    if run == [] then here else Max(here, PeakSize(Apply(t, run[0].at, run[0].ev).0, run[1..], key))
  }

  /** The largest refill rate it has. */
  function PeakRate(t: Table, run: seq<Timed>, key: Key): real
    decreases |run|
  {
    var here := if key in t then t[key].rate else 0.0;
    if run == [] then here else Max(here, PeakRate(Apply(t, run[0].at, run[0].ev).0, run[1..], key))
  }

  lemma {:induction false} PeaksAreLimits(t: Table, start: real, run: seq<Timed>, key: Key, cap: real, rho: real)
    requires WellFormed(t, start) && Ordered(start, run)
    requires PeakSize(t, run, key) <= cap && PeakRate(t, run, key) <= rho
    ensures LimitsWithin(t, run, key, cap, rho) && (run != [] && key in t ==> 0.0 <= cap && 0.0 <= rho)
    decreases |run|
  {
    if run != [] {
      var now := run[0].at;
      var next := Apply(t, now, run[0].ev).0;
      if key in t {
        RateIsPositive(t[key], now);
      }
      WellFormedLater(t, start, now);
      StepKeepsWellFormed(t, now, run[0].ev);
      PeaksAreLimits(next, now, run[1..], key, cap, rho);
    }
  }

  lemma {:induction false} PeaksAreNonnegative(t: Table, start: real, run: seq<Timed>, key: Key)
    requires WellFormed(t, start)
    ensures 0.0 <= PeakSize(t, run, key) && 0.0 <= PeakRate(t, run, key)
  {
    if key in t {
      assert t[key].Valid();
    }
  }

  /**
   * Calls admitted to one Forge (or charged to one agent) in any window of any run, by any number
   * of agents and across any reconfigurations: at most the largest size the bucket had plus its
   * largest refill rate times the window.
   */
  lemma RateBound(t: Table, start: real, run: seq<Timed>, i: nat, j: nat, key: Key)
    requires WellFormed(t, start) && Ordered(start, run) && i < j <= |run|
    ensures var here := After(t, run[..i]);
            Debits(here, run[i..j], key) as real
              <= PeakSize(here, run[i..j], key) + Accrued(PeakRate(here, run[i..j], key), run[i].at, run[j - 1].at)
  {
    var here := After(t, run[..i]);
    WindowIsOrdered(t, start, run, i, j);
    PeaksAreNonnegative(here, run[i].at, run[i..j], key);
    PeaksAreLimits(here, run[i].at, run[i..j], key, PeakSize(here, run[i..j], key), PeakRate(here, run[i..j], key));
    WindowBound(t, start, run, i, j, key, PeakSize(here, run[i..j], key), PeakRate(here, run[i..j], key));
  }

  /**
   * In a window that does not reconfigure the bucket those are its own: at most the bucket's size
   * plus its refill rate times the window.
   */
  lemma FixedRateBound(t: Table, start: real, run: seq<Timed>, i: nat, j: nat, key: Key)
    requires WellFormed(t, start) && Ordered(start, run) && i < j <= |run|
    requires Unconfigured(run[i..j], key)
    ensures var end := After(t, run[..j]);
            if key in end then
              Debits(After(t, run[..i]), run[i..j], key) as real
                <= end[key].max + Accrued(end[key].rate, run[i].at, run[j - 1].at)
            else Debits(After(t, run[..i]), run[i..j], key) == 0
  {
    var here, end := After(t, run[..i]), After(t, run[..j]);
    assert run[..j] == run[..i] + run[i..j];
    AfterSplits(t, run[..i], run[i..j]);
    WindowIsOrdered(t, start, run, i, j);
    if key in end {
      RunKeepsWellFormed(here, run[i].at, run[i..j]);
      OwnLimitsHold(here, run[i].at, run[i..j], key);
      WindowBound(t, start, run, i, j, key, end[key].max, end[key].rate);
    } else {
      NoBucketNoDebits(here, run[i..j], key);
    }
  }

  lemma {:induction false} NoBucketNoDebits(t: Table, run: seq<Timed>, key: Key)
    requires key !in After(t, run) && Unconfigured(run, key)
    ensures key !in t && Debits(t, run, key) == 0
    decreases |run|
  {
    if key in t {
      LimitsAreFixed(t, run, key);
    }
    if run != [] {
      assert Unconfigured(run[1..], key);
      NoBucketNoDebits(Apply(t, run[0].at, run[0].ev).0, run[1..], key);
    }
  }

  // ------------------------------------------------ throttling

  predicate EndsNoEarlier(before: Option<real>, after: Option<real>) {
    before.Some? ==> after.Some? && before.value <= after.value
  }

  /** No order of violations, bucket creations, acquires and re-provisionings softens or shortens a throttle. */
  lemma {:induction false} ThrottleOnlyTightens(t: Table, run: seq<Timed>, key: Key)
    requires key in t
    ensures key in After(t, run)
    ensures After(t, run)[key].factor <= t[key].factor
    ensures EndsNoEarlier(t[key].until, After(t, run)[key].until)
    decreases |run|
  {
    if run != [] {
      ThrottleOnlyTightens(Apply(t, run[0].at, run[0].ev).0, run[1..], key);
    }
  }

  /** The smallest of `factor` and the factors of the agent's throttles the table accepted. */
  function Harshest(t: Table, run: seq<Timed>, agent: AgentId, factor: real): real
    decreases |run|
  {
    if run == [] then factor else
      var (next, outcome) := Apply(t, run[0].at, run[0].ev);
      var e := run[0].ev;
      Harshest(next, run[1..], agent,
               if e.Throttle? && e.agent == agent && outcome == Done then Min(factor, e.factor) else factor)
  }

  /** A bucket's factor is exactly the harshest throttle its agent ever drew, expired ones included. */
  lemma {:induction false} FactorIsTheHarshest(t: Table, run: seq<Timed>, agent: AgentId)
    requires AgentKey(agent) in After(t, run)
    requires AgentKey(agent) in t ==> t[AgentKey(agent)].factor <= 1.0
    ensures After(t, run)[AgentKey(agent)].factor
            == Harshest(t, run, agent, if AgentKey(agent) in t then t[AgentKey(agent)].factor else 1.0)
    decreases |run|
  {
    if run != [] {
      FactorIsTheHarshest(Apply(t, run[0].at, run[0].ev).0, run[1..], agent);
    }
  }

  lemma ThrottledRateFalls(b: Bucket, later: Bucket, now: real)
    requires b.Valid() && later.Valid() && later.rate == b.rate && later.factor <= b.factor
    ensures later.ThrottledRate() <= b.ThrottledRate()
    ensures b.until.Some? && now < b.until.value ==> b.EffectiveRate(now) == b.ThrottledRate()
  {
    ProductsGrow(later.factor, b.factor, b.rate);
    assert later.rate * later.factor == later.factor * b.rate && b.rate * b.factor == b.factor * b.rate;
  }

  /** Nothing but a reconfiguration softens a bucket, resizes it or drops it. */
  lemma StepTightens(t: Table, now: real, e: Event, key: Key)
    requires key in t && !(e.Configure? && e.key == key)
    ensures var next := Apply(t, now, e).0;
            && key in next && next[key].max == t[key].max && next[key].rate == t[key].rate
            && next[key].factor <= t[key].factor && EndsNoEarlier(t[key].until, next[key].until)
  {
  }

  lemma {:induction false} ThrottledLimits(t: Table, start: real, run: seq<Timed>, key: Key, end: real)
    requires WellFormed(t, start) && Ordered(start, run) && Unconfigured(run, key)
    requires key in t && t[key].until.Some? && end <= t[key].until.value
    requires forall k :: 0 <= k < |run| ==> run[k].at < end
    ensures LimitsWithin(t, run, key, t[key].max, t[key].ThrottledRate())
    decreases |run|
  {
    if run != [] {
      var now := run[0].at;
      var next := Apply(t, now, run[0].ev).0;
      StepTightens(t, now, run[0].ev, key);
      WellFormedLater(t, start, now);
      StepKeepsWellFormed(t, now, run[0].ev);
      assert Unconfigured(run[1..], key);
      ThrottledLimits(next, now, run[1..], key, end);
      ThrottledRateFalls(t[key], next[key], now);
      LimitsLoosen(next, run[1..], key, next[key].max, next[key].ThrottledRate(), t[key].ThrottledRate());
    }
  }

  lemma {:induction false} LimitsLoosen(t: Table, run: seq<Timed>, key: Key, cap: real, rho: real, rho': real)
    requires LimitsWithin(t, run, key, cap, rho) && rho <= rho'
    ensures LimitsWithin(t, run, key, cap, rho')
    decreases |run|
  {
    if run != [] {
      LimitsLoosen(Apply(t, run[0].at, run[0].ev).0, run[1..], key, cap, rho, rho');
    }
  }

  /** A run that ends before the throttle does is bounded by the throttled rate, or by any rate above it. */
  lemma ThrottledRunBound(t: Table, start: real, run: seq<Timed>, key: Key, end: real, rho: real)
    requires WellFormed(t, start) && Ordered(start, run) && run != [] && Unconfigured(run, key)
    requires key in t && t[key].until.Some? && end <= t[key].until.value
    requires (forall k :: 0 <= k < |run| ==> run[k].at < end) && t[key].ThrottledRate() <= rho && 0.0 <= rho
    ensures Debits(t, run, key) as real <= t[key].max + Accrued(rho, run[0].at, run[|run| - 1].at)
  {
    ThrottledLimits(t, start, run, key, end);
    LimitsLoosen(t, run, key, t[key].max, t[key].ThrottledRate(), rho);
    assert run[..0] == [] && run[0..|run|] == run;
    WindowBound(t, start, run, 0, |run|, key, t[key].max, rho);
  }

  /** Inside a window that ends before the throttle does, the throttled rate is the bound. */
  lemma ThrottledRateBound(t: Table, start: real, run: seq<Timed>, i: nat, j: nat, key: Key, end: real)
    requires WellFormed(t, start) && Ordered(start, run) && i < j <= |run|
    requires Unconfigured(run[i..j], key)
    requires key in After(t, run[..i]) && After(t, run[..i])[key].until == Some(end)
    requires forall k :: i <= k < j ==> run[k].at < end
    ensures var b := After(t, run[..i])[key];
            Debits(After(t, run[..i]), run[i..j], key) as real
              <= b.max + Accrued(b.ThrottledRate(), run[i].at, run[j - 1].at)
  {
    var here := After(t, run[..i]);
    WindowIsOrdered(t, start, run, i, j);
    ThrottledLimits(here, run[i].at, run[i..j], key, end);
    assert here[key].Valid();
    RateIsPositive(here[key], run[i].at);
    assert here[key].EffectiveRate(run[i].at) == here[key].ThrottledRate();
    WindowBound(t, start, run, i, j, key, here[key].max, here[key].ThrottledRate());
  }

  /**
   * Once a throttle of `factor` for `seconds` is recorded, whether or not the bucket existed, no
   * later events let the agent refill faster than that factor of its rate until the time is up.
   */
  lemma ThrottleHolds(t: Table, now: real, agent: AgentId, factor: real, seconds: int, run: seq<Timed>, at: real)
    requires WellFormed(t, now) && Ordered(now, run) && 0.0 < factor <= 1.0
    requires now <= at < now + seconds as real
    ensures var after := After(Throttled(t, now, agent, factor, seconds).0, run);
            AgentKey(agent) in after
            && after[AgentKey(agent)].EffectiveRate(at) <= factor * after[AgentKey(agent)].rate
  {
    var key, slowed := AgentKey(agent), Throttled(t, now, agent, factor, seconds).0;
    var after := After(slowed, run);
    ThrottleOnlyTightens(slowed, run, key);
    StepKeepsWellFormed(t, now, Throttle(agent, factor, seconds));
    RunKeepsWellFormed(slowed, now, run);
    var b := after[key];
    assert b.ThrottledAt(at);
    assert b.Valid();
    ThrottledRateWithin(b, factor);
  }

  // ------------------------------------------------ nobody who waits is refused

  /** The call asks this bucket for a token. */
  predicate Asks(e: Event, key: Key) {
    e.Acquire? && (key == AgentKey(e.agent) || key == ForgeKey(e.forge))
  }

  /** The call is refused by this bucket. */
  predicate RefusedBy(e: Event, outcome: Outcome, key: Key) {
    && e.Acquire?
    && ((key == AgentKey(e.agent) && outcome == AgentRefused) || (key == ForgeKey(e.forge) && outcome == ForgeRefused))
  }

  function RefusalsBy(t: Table, run: seq<Timed>, key: Key): nat
    decreases |run|
  {
    if run == [] then 0 else
      var (next, outcome) := Apply(t, run[0].at, run[0].ev);
      (if RefusedBy(run[0].ev, outcome, key) then 1 else 0) + RefusalsBy(next, run[1..], key)
  }

  /** Whoever asks this bucket asks at least `gap` seconds after the last one did. */
  ghost predicate Spaced(run: seq<Timed>, key: Key, last: real, gap: real)
    decreases |run|
  {
    run != [] ==>
      && (Asks(run[0].ev, key) ==> run[0].at - last >= gap)
      && Spaced(run[1..], key, if Asks(run[0].ev, key) then run[0].at else last, gap)
  }

  /** The event throttles or reconfigures the bucket. */
  predicate Disturbs(e: Event, key: Key) {
    (e.Configure? && e.key == key) || (e.Throttle? && key == AgentKey(e.agent))
  }

  /** A bucket of at least one token, unthrottled, that refills one in `gap` seconds. */
  predicate Patient(b: Bucket, now: real, gap: real) {
    b.Valid() && b.max >= 1.0 && gap * b.rate >= 1.0 && (b.until.None? || b.until.value <= now)
  }

  lemma WaitingFillsAToken(b: Bucket, now: real, gap: real)
    requires Patient(b, now, gap) && now - b.lastRefill >= gap
    ensures HasToken(b, now)
  {
    ProductsGrow(gap, now - b.lastRefill, b.rate);
  }

  lemma StepLeavesPatient(t: Table, now: real, e: Event, key: Key, last: real, gap: real)
    requires WellFormed(t, now) && key in t && !Disturbs(e, key) && Patient(t[key], now, gap)
    requires t[key].lastRefill <= last <= now
    ensures var next := Apply(t, now, e).0;
            && key in next && Patient(next[key], now, gap) && next[key].lastRefill <= if Asks(e, key) then now else last
  {
    var next := Apply(t, now, e).0;
    StepKeepsWellFormed(t, now, e);
    assert key in next && next[key].max == t[key].max && next[key].rate == t[key].rate;
    assert next[key].until == t[key].until;
  }

  lemma SpacedCallIsNotRefused(t: Table, now: real, e: Event, key: Key, last: real, gap: real)
    requires key in t && Patient(t[key], now, gap) && t[key].lastRefill <= last
    requires Asks(e, key) ==> now - last >= gap
    ensures !RefusedBy(e, Apply(t, now, e).1, key)
  {
    if Asks(e, key) {
      WaitingFillsAToken(t[key], now, gap);
      AcquireTakesEffect(t, now, e.agent, e.forge);
    }
  }

  /**
   * Whatever everybody else does, a bucket of at least one token, unthrottled and left alone, refuses
   * nobody who asks when the time to refill one has passed since anybody last asked it.
   */
  lemma {:induction false} SpacedCallsAreNeverRefused(t: Table, start: real, run: seq<Timed>, key: Key, last: real,
                                                      gap: real)
    requires WellFormed(t, start) && Ordered(start, run)
    requires key in t && Patient(t[key], start, gap) && t[key].lastRefill <= last <= start
    requires Spaced(run, key, last, gap) && forall k :: 0 <= k < |run| ==> !Disturbs(run[k].ev, key)
    ensures RefusalsBy(t, run, key) == 0
    decreases |run|
  {
    if run != [] {
      var now, e := run[0].at, run[0].ev;
      WellFormedLater(t, start, now);
      StepKeepsWellFormed(t, now, e);
      StepLeavesPatient(t, now, e, key, last, gap);
      SpacedCallIsNotRefused(t, now, e, key, last, gap);
      SpacedCallsAreNeverRefused(Apply(t, now, e).0, now, run[1..], key, if Asks(e, key) then now else last, gap);
    }
  }

  // ------------------------------------------------ conservation

  /** How far an acquire lowers what `key` has available at that instant. */
  function Drop(t: Table, now: real, e: Event, key: Key): real {
    var next := Apply(t, now, e).0;
    if e.Acquire? && key in t && key in next then t[key].Available(now) - next[key].Available(now) else 0.0
  }

  function Drops(t: Table, run: seq<Timed>, key: Key): real
    decreases |run|
  {
    if run == [] then 0.0 else
      Drop(t, run[0].at, run[0].ev, key) + Drops(Apply(t, run[0].at, run[0].ev).0, run[1..], key)
  }

  lemma StepConservesTokens(t: Table, now: real, e: Event, key: Key)
    requires WellFormed(t, now)
    ensures Drop(t, now, e, key) == if Charges(e, Apply(t, now, e).1, key) then 1.0 else 0.0
  {
    if e.Acquire? && key in t {
      var b := t[key];
      WrittenIsValid(b, now);
      RefillNothing(b.Written(now).tokens, b.EffectiveRate(now), b.max);
      assert b.Written(now).Available(now) == b.Written(now).tokens;
    }
  }

  /**
   * Token conservation: what leaves a bucket is exactly one token per charged call. An agent's
   * withdrawals are its admitted calls plus its Forge-ceiling refusals; a Forge's are the calls
   * admitted to it; a refused agent is charged nothing.
   */
  lemma {:induction false} TokensAreConserved(t: Table, start: real, run: seq<Timed>, key: Key)
    requires WellFormed(t, start) && Ordered(start, run)
    ensures Drops(t, run, key) == Debits(t, run, key) as real
    decreases |run|
  {
    if run != [] {
      var now := run[0].at;
      WellFormedLater(t, start, now);
      StepConservesTokens(t, now, run[0].ev, key);
      StepKeepsWellFormed(t, now, run[0].ev);
      TokensAreConserved(Apply(t, now, run[0].ev).0, now, run[1..], key);
    }
  }

  // ------------------------------------------------ committed refusals are invisible

  /** The bucket after attempts at `times`, every one of them written. */
  function Attempted(b: Bucket, times: seq<real>): Bucket
    decreases |times|
  {
    if times == [] then b else Attempted(b.Written(times[0]), times[1..])
  }

  /** Those of `times` at which a token was there to take. */
  function AdmittedTimes(b: Bucket, times: seq<real>): seq<real>
    decreases |times|
  {
    if times == [] then [] else
      (if b.Available(times[0]) >= 1.0 then [times[0]] else []) + AdmittedTimes(b.Written(times[0]), times[1..])
  }

  ghost predicate Ascending(from: real, times: seq<real>)
    decreases |times|
  {
    times != [] ==> from <= times[0] && Ascending(times[0], times[1..])
  }

  /** Unthrottled buckets that agree on what is available from `from` on. */
  ghost predicate SameFrom(b: Bucket, c: Bucket, from: real) {
    && b.Valid() && c.Valid() && b.max == c.max && b.rate == c.rate
    && b.lastRefill <= from && c.lastRefill <= from && !b.ThrottledAt(from) && !c.ThrottledAt(from)
    && b.Available(from) == c.Available(from)
  }

  lemma SameLater(b: Bucket, c: Bucket, from: real, now: real)
    requires SameFrom(b, c, from) && from <= now
    ensures SameFrom(b, c, now)
  {
    RefillComposes(b.tokens, from - b.lastRefill, now - from, b.rate, b.max);
    RefillComposes(c.tokens, from - c.lastRefill, now - from, c.rate, c.max);
    assert b.Available(now) == Refill(b.Available(from), now - from, b.rate, b.max);
    assert c.Available(now) == Refill(c.Available(from), now - from, c.rate, c.max);
  }

  lemma WritesAgree(b: Bucket, c: Bucket, now: real)
    requires SameFrom(b, c, now)
    ensures SameFrom(b.Written(now), c.Written(now), now)
    ensures b.Available(now) < 1.0 ==> SameFrom(b.Written(now), c, now)
  {
    WrittenIsValid(b, now);
    WrittenIsValid(c, now);
    RefillNothing(b.Written(now).tokens, b.rate, b.max);
    RefillNothing(c.Written(now).tokens, c.rate, c.max);
  }

  lemma {:induction false} KeptAttemptsAgree(b: Bucket, c: Bucket, from: real, times: seq<real>, end: real)
    requires SameFrom(b, c, from) && Ascending(from, times)
    requires from <= end && forall k :: 0 <= k < |times| ==> times[k] <= end
    ensures var kept := AdmittedTimes(b, times);
            AdmittedTimes(c, kept) == kept && SameFrom(Attempted(b, times), Attempted(c, kept), end)
    decreases |times|
  {
    if times == [] {
      SameLater(b, c, from, end);
    } else {
      var now, rest := times[0], times[1..];
      SameLater(b, c, from, now);
      WritesAgree(b, c, now);
      assert forall k :: 0 <= k < |rest| ==> rest[k] == times[k + 1];
      if b.Available(now) >= 1.0 {
        KeptAttemptsAgree(b.Written(now), c.Written(now), now, rest, end);
        var kept := AdmittedTimes(b, times);
        assert kept[0] == now && kept[1..] == AdmittedTimes(b.Written(now), rest);
      } else {
        KeptAttemptsAgree(b.Written(now), c, now, rest, end);
        assert AdmittedTimes(b, times) == AdmittedTimes(b.Written(now), rest);
      }
    }
  }

  /**
   * Writing a refusal down is invisible: striking every refused attempt on an unthrottled bucket
   * leaves the other attempts admitted and the same tokens available ever after.
   */
  lemma RefusalsAreInvisible(b: Bucket, times: seq<real>, end: real)
    requires b.Valid() && !b.ThrottledAt(b.lastRefill) && Ascending(b.lastRefill, times)
    requires b.lastRefill <= end && forall k :: 0 <= k < |times| ==> times[k] <= end
    ensures var kept := AdmittedTimes(b, times);
            && AdmittedTimes(b, kept) == kept
            && Attempted(b, kept).Available(end) == Attempted(b, times).Available(end)
  {
    KeptAttemptsAgree(b, b, b.lastRefill, times, end);
  }

  // ------------------------------------------------ and so are a run's

  /** The same event with a Forge's refusal left unwritten; the agent's debit is committed as ever. */
  function Unwritten(t: Table, now: real, e: Event): (Table, Outcome) {
    var (next, outcome) := Apply(t, now, e);
    if e.Acquire? && outcome == ForgeRefused && ForgeKey(e.forge) in t
    then (next[ForgeKey(e.forge) := t[ForgeKey(e.forge)]], outcome)
    else (next, outcome)
  }

  function Outcomes(t: Table, run: seq<Timed>): seq<Outcome>
    decreases |run|
  {
    if run == [] then [] else
      var (next, outcome) := Apply(t, run[0].at, run[0].ev);
      [outcome] + Outcomes(next, run[1..])
  }

  function UnwrittenRun(t: Table, run: seq<Timed>): (Table, seq<Outcome>)
    decreases |run|
  {
    if run == [] then (t, []) else
      var (next, outcome) := Unwritten(t, run[0].at, run[0].ev);
      var (end, outcomes) := UnwrittenRun(next, run[1..]);
      (end, [outcome] + outcomes)
  }

  /** The tables hold the same agents' rows, and Forges' rows that agree on what is available from `now` on. */
  ghost predicate Alike(t: Table, u: Table, now: real) {
    && t.Keys == u.Keys
    && (forall agent :: AgentKey(agent) in t ==> u[AgentKey(agent)] == t[AgentKey(agent)])
    && (forall forge :: ForgeKey(forge) in t ==> SameFrom(t[ForgeKey(forge)], u[ForgeKey(forge)], now))
  }

  lemma AlikeLater(t: Table, u: Table, from: real, now: real)
    requires Alike(t, u, from) && from <= now
    ensures Alike(t, u, now)
  {
    forall forge | ForgeKey(forge) in t ensures SameFrom(t[ForgeKey(forge)], u[ForgeKey(forge)], now) {
      SameLater(t[ForgeKey(forge)], u[ForgeKey(forge)], from, now);
    }
  }

  lemma AcquireKeepsAlike(t: Table, u: Table, now: real, agent: AgentId, forge: ForgeId)
    requires Alike(t, u, now)
    ensures var (next, outcome) := Apply(t, now, Acquire(agent, forge));
            var (other, same) := Unwritten(u, now, Acquire(agent, forge));
            same == outcome && Alike(next, other, now)
  {
    if ForgeKey(forge) in t {
      WritesAgree(t[ForgeKey(forge)], u[ForgeKey(forge)], now);
    }
  }

  lemma NewBucketIsSame(burst: real, rps: real, now: real)
    requires 0.0 < burst && 0.0 < rps
    ensures var b := Bucket(burst, burst, rps, now, 1.0, None); SameFrom(b, b, now)
  {
  }

  lemma StepKeepsAlike(t: Table, u: Table, now: real, e: Event)
    requires Alike(t, u, now) && !(e.Configure? && e.key.ForgeKey?)
    ensures var (next, outcome) := Apply(t, now, e);
            var (other, same) := Unwritten(u, now, e);
            same == outcome && Alike(next, other, now)
  {
    match e
    case Acquire(agent, forge) => AcquireKeepsAlike(t, u, now, agent, forge);
    case Ensure(_, rps, burst) => if rps > 0.0 && burst > 0.0 { NewBucketIsSame(burst, rps, now); }
    case _ =>
  }

  /**
   * Over whole runs too, writing a Forge's refusals down is invisible: leaving every one of them
   * unwritten changes the outcome of no call and, ever after, what no bucket has available.
   */
  lemma {:induction false} UnwrittenRefusalsAgree(t: Table, u: Table, start: real, run: seq<Timed>, end: real)
    requires Alike(t, u, start) && Ordered(start, run) && (if run == [] then start else run[|run| - 1].at) <= end
    requires forall i :: 0 <= i < |run| ==> !(run[i].ev.Configure? && run[i].ev.key.ForgeKey?)
    ensures UnwrittenRun(u, run).1 == Outcomes(t, run) && Alike(After(t, run), UnwrittenRun(u, run).0, end)
    decreases |run|
  {
    if run == [] {
      AlikeLater(t, u, start, end);
    } else {
      var now, e := run[0].at, run[0].ev;
      AlikeLater(t, u, start, now);
      StepKeepsAlike(t, u, now, e);
      assert run[1..] != [] ==> run[1..][|run[1..]| - 1] == run[|run| - 1];
      if run[1..] == [] {
        assert now <= end;
      }
      UnwrittenRefusalsAgree(Apply(t, now, e).0, Unwritten(u, now, e).0, now, run[1..], end);
    }
  }

  /** The same from any table that throttles no Forge, as none the broker reaches does. */
  lemma {:induction false} ForgeRefusalsAreInvisible(t: Table, start: real, run: seq<Timed>, end: real, key: Key)
    requires WellFormed(t, start) && (forall forge :: ForgeKey(forge) in t ==> t[ForgeKey(forge)].until.None?)
    requires Ordered(start, run) && (if run == [] then start else run[|run| - 1].at) <= end
    requires forall i :: 0 <= i < |run| ==> !(run[i].ev.Configure? && run[i].ev.key.ForgeKey?)
    ensures var (unwritten, outcomes) := UnwrittenRun(t, run);
            && outcomes == Outcomes(t, run) && unwritten.Keys == After(t, run).Keys
            && (key in unwritten ==> unwritten[key].Available(end) == After(t, run)[key].Available(end))
  {
    assert Alike(t, t, start);
    UnwrittenRefusalsAgree(t, t, start, run, end);
    if key.ForgeKey? && key in After(t, run) {
      assert SameFrom(After(t, run)[key], UnwrittenRun(t, run).0[key], end);
    }
  }

  lemma {:induction false} NoForgeIsThrottled(t: Table, run: seq<Timed>)
    requires forall forge :: ForgeKey(forge) in t ==> t[ForgeKey(forge)].until.None?
    ensures forall forge :: ForgeKey(forge) in After(t, run) ==> After(t, run)[ForgeKey(forge)].until.None?
    decreases |run|
  {
    if run != [] {
      NoForgeIsThrottled(Apply(t, run[0].at, run[0].ev).0, run[1..]);
    }
  }

  /** From the empty table on, every table any run reaches is well formed and throttles no Forge. */
  lemma {:induction false} ReachableTablesAreWellFormed(start: real, run: seq<Timed>)
    requires Ordered(start, run)
    ensures WellFormed(After(map[], run), if run == [] then start else run[|run| - 1].at)
    ensures forall forge :: ForgeKey(forge) in After(map[], run) ==> After(map[], run)[ForgeKey(forge)].until.None?
  {
    RunKeepsWellFormed(map[], start, run);
    NoForgeIsThrottled(map[], run);
  }

  // ------------------------------------------------ the table as the broker updates it

  datatype Refusal = BucketMissing | LimitExceeded(available: real, effectiveRate: real)

  datatype BucketState = BucketState(key: Key, remaining: real, max: real, effectiveRate: real)

  class RateLimiter {
    var buckets: Table

    constructor ()
      ensures buckets == map[]
    {
      buckets := map[];
    }

    /** `INSERT ... ON CONFLICT DO NOTHING`; false is a CHECK constraint refusing the row. */
    method EnsureBucket(key: Key, rps: real, burst: real, now: real) returns (ok: bool)
      modifies this
      ensures (buckets, if ok then Done else Rejected) == Ensured(old(buckets), now, key, rps, burst)
    {
      if rps <= 0.0 || burst <= 0.0 {
        return false;
      }
      if key !in buckets {
        buckets := buckets[key := Bucket(burst, burst, rps, now, 1.0, None)];
      }
      return true;
    }

    /** The locking `UPDATE ... RETURNING`: the row is written whether or not a token was there. */
    method AcquireOne(key: Key, now: real) returns (r: Result<BucketState, Refusal>)
      modifies this
      ensures key !in old(buckets) ==> r == Err(BucketMissing) && buckets == old(buckets)
      ensures key in old(buckets) ==> buckets == old(buckets)[key := old(buckets)[key].Written(now)]
      ensures key in old(buckets) ==> (r.Ok? <==> old(buckets)[key].Available(now) >= 1.0)
      ensures r.Ok? ==> r.value == BucketState(key, buckets[key].tokens, old(buckets)[key].max,
                                               old(buckets)[key].EffectiveRate(now))
      ensures key in old(buckets) && r.Err? ==>
                r.error == LimitExceeded(buckets[key].tokens, old(buckets)[key].EffectiveRate(now))
      ensures key in old(buckets) ==>
                (r.Ok? <==> HasToken(old(buckets)[key], now)) && Attempt(old(buckets)[key], buckets[key], now)
    {
      if key !in buckets {
        return Err(BucketMissing);
      }
      var b := buckets[key];
      AvailableIs(b, now);
      var available := b.Available(now);
      var remaining := if available >= 1.0 then available - 1.0 else available;
      buckets := buckets[key := b.(tokens := remaining, lastRefill := now)];
      if available < 1.0 {
        return Err(LimitExceeded(available, b.EffectiveRate(now)));
      }
      return Ok(BucketState(key, remaining, b.max, b.EffectiveRate(now)));
    }

    /**
     * One token from the agent, then one from the Forge. The buckets are ensured in a transaction
     * of their own at `now`; the debits follow at `later`. An agent refusal rolls that second
     * transaction back, a Forge refusal commits it.
     */
    method Acquire(agent: AgentId, forge: ForgeId, agentRps: real, agentBurst: real,
                   forgeRps: real, forgeBurst: real, now: real, later: real)
      returns (outcome: Outcome)
      modifies this
      ensures var valid := agentRps > 0.0 && agentBurst > 0.0 && forgeRps > 0.0 && forgeBurst > 0.0;
              if !valid then outcome == Rejected && buckets == old(buckets)
              else
                var ensured := After(old(buckets), [Timed(now, Ensure(AgentKey(agent), agentRps, agentBurst)),
                                                    Timed(now, Ensure(ForgeKey(forge), forgeRps, forgeBurst))]);
                (buckets, outcome) == Acquired(ensured, later, agent, forge)
      ensures outcome != Rejected && AgentKey(agent) in old(buckets) && ForgeKey(forge) in old(buckets) ==>
                (outcome == Admitted <==> HasToken(old(buckets)[AgentKey(agent)], later)
                                          && HasToken(old(buckets)[ForgeKey(forge)], later))
    {
      var before := buckets;
      var agentOk := EnsureBucket(AgentKey(agent), agentRps, agentBurst, now);
      if !agentOk {
        return Rejected;
      }
      label agentEnsured:
      var forgeOk := EnsureBucket(ForgeKey(forge), forgeRps, forgeBurst, now);
      if !forgeOk {
        buckets := before;
        return Rejected;
      }
      var committed := buckets;
      ghost var first := [Timed(now, Ensure(AgentKey(agent), agentRps, agentBurst))];
      ghost var second := [Timed(now, Ensure(ForgeKey(forge), forgeRps, forgeBurst))];
      AfterSplits(before, first, second);
      assert After(before, first) == old@agentEnsured(buckets);
      assert After(before, first + second) == committed;

      var fromAgent := AcquireOne(AgentKey(agent), later);
      if fromAgent.Err? {
        buckets := committed;
        return AgentRefused;
      }
      var fromForge := AcquireOne(ForgeKey(forge), later);
      outcome := if fromForge.Err? then ForgeRefused else Admitted;
    }

    /** The throttling upsert: extends and tightens, never shortens, and creates the bucket if there is none. */
    method ThrottleAgent(agent: AgentId, factor: real, seconds: int, now: real) returns (ok: bool)
      modifies this
      ensures (buckets, if ok then Done else Rejected) == Throttled(old(buckets), now, agent, factor, seconds)
    {
      if factor <= 0.0 || factor > 1.0 {
        return false;
      }
      var key, end := AgentKey(agent), now + seconds as real;
      if key in buckets {
        var b := buckets[key];
        var until := if b.until.Some? then b.until.value else now;
        buckets := buckets[key := b.(factor := Min(b.factor, factor), until := Some(Max(until, end)))];
      } else {
        buckets := buckets[key := Bucket(DEFAULT_AGENT_BURST, DEFAULT_AGENT_BURST, DEFAULT_AGENT_RPS,
                                         now, factor, Some(end))];
      }
      return true;
    }
  }
}
