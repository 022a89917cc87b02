/** The token bucket: lazily refilled when it is polled, drained and put to sleep by a penalty.

    Tokens are reals (rounding is not modelled) and clock readings are whole milliseconds. */
module RateLimit {
  import opened Options
  import opened Numbers

  type Time = int
  type Amount = r: real | 0.0 <= r

  const MS_PER_MINUTE: real := 60000.0

  datatype Bucket = Bucket(rpm: Amount, capacity: Amount, tokens: real, lastRefillMs: Time) {
    function RefillPerMs(): Amount {
      rpm / MS_PER_MINUTE
    }
  }

  /** How long a refused caller is told to wait; a bucket that never refills says forever. */
  datatype Wait = After(ms: int) | Forever

  datatype AcquireResult = Granted(tokensRemaining: real) | Denied(tokensRemaining: real, retryAfter: Wait) | NoBucket

  function Elapsed(from: Time, to: Time): nat {
    if to <= from then 0 else to - from
  }

  function Fresh(rpm: Amount, capacity: Option<Amount>, now: Time): Bucket {
    var size := if capacity.Some? then capacity.value else rpm;
    Bucket(rpm, size, size, now)
  }

  /** The level a poll at `t` finds. */
  function Refilled(b: Bucket, t: Time): real {
    Min(b.capacity, b.tokens + Elapsed(b.lastRefillMs, t) as real * b.RefillPerMs())
  }

  function Polled(b: Bucket, t: Time): Bucket {
    var level := Refilled(b, t);
    b.(tokens := if level >= 1.0 then level - 1.0 else level, lastRefillMs := t)
  }

  function Verdict(b: Bucket, t: Time): AcquireResult {
    var level := Refilled(b, t);
    if level >= 1.0 then Granted(level - 1.0)
    else Denied(level, if b.rpm == 0.0 then Forever else After(Ceil((1.0 - level) / b.RefillPerMs())))
  }

  function Penalized(b: Bucket, retryAfterMs: int, t: Time): Bucket {
    b.(tokens := 0.0, lastRefillMs := t + retryAfterMs)
  }

  // ---------- what configuring and penalizing mean for later polls ----------

  /** The level that a poll found, by its answer. */
  function Found(r: AcquireResult): real
    requires !r.NoBucket?
  {
    if r.Granted? then r.tokensRemaining + 1.0 else r.tokensRemaining
  }

  /** Until the pause is over nothing is granted and the level is zero; from then on the bucket fills from
      empty at its rate. */
  ghost predicate Paused(b: Bucket, rpm: Amount, capacity: Amount, until: Time) {
    && b.rpm == rpm && b.capacity == capacity
    && (forall t | t <= until :: Verdict(b, t).Denied? && Verdict(b, t).tokensRemaining == 0.0)
    && (forall t | until <= t :: Found(Verdict(b, t)) == Min(capacity, Added(rpm, t - until)))
  }

  /** What a rate per minute adds in `ms` milliseconds. */
  function Added(rpm: Amount, ms: int): real {
    rpm / 60000.0 * ms as real
  }

  lemma FillsFromEmpty(b: Bucket, t: Time)
    requires b.tokens == 0.0 && b.lastRefillMs <= t
    ensures Found(Verdict(b, t)) == Min(b.capacity, Added(b.rpm, t - b.lastRefillMs))
  {
  }

  lemma EmptyUntil(b: Bucket, t: Time)
    requires b.tokens == 0.0 && t <= b.lastRefillMs
    ensures Verdict(b, t).Denied? && Verdict(b, t).tokensRemaining == 0.0
  {
    assert Elapsed(b.lastRefillMs, t) == 0;
  }

  lemma EmptyIsPaused(b: Bucket)
    requires b.tokens == 0.0
    ensures Paused(b, b.rpm, b.capacity, b.lastRefillMs)
  {
    forall t | t <= b.lastRefillMs ensures Verdict(b, t).Denied? && Verdict(b, t).tokensRemaining == 0.0 {
      EmptyUntil(b, t);
    }
    forall t | b.lastRefillMs <= t ensures Found(Verdict(b, t)) == Min(b.capacity, Added(b.rpm, t - b.lastRefillMs)) {
      FillsFromEmpty(b, t);
    }
  }

  lemma PenalizedIsPaused(b: Bucket, retryAfterMs: int, at: Time)
    ensures Paused(Penalized(b, retryAfterMs, at), b.rpm, b.capacity, at + retryAfterMs)
  {
    EmptyIsPaused(Penalized(b, retryAfterMs, at));
  }

  /** Of this rate and size, and full from the start however little time has passed. */
  ghost predicate Full(b: Bucket, rpm: Amount, size: Amount, now: Time) {
    && b.rpm == rpm && b.capacity == size && b.lastRefillMs == now
    && forall t :: Found(Verdict(b, t)) == size
  }

  lemma FreshIsFull(rpm: Amount, capacity: Option<Amount>, now: Time)
    ensures Full(Fresh(rpm, capacity, now), rpm, if capacity.Some? then capacity.value else rpm, now)
  {
    var b := Fresh(rpm, capacity, now);
    forall t ensures Found(Verdict(b, t)) == b.capacity {
      MulMono(b.RefillPerMs(), 0, Elapsed(b.lastRefillMs, t));
    }
  }

  class TokenBucketLimiter {
    var buckets: map<string, Bucket>

    constructor ()
      ensures buckets == map[]
    {
      buckets := map[];
    }

    method Configure(modelId: string, rpm: Amount, capacity: Option<Amount>, now: Time)
      modifies this
      ensures buckets == old(buckets)[modelId := Fresh(rpm, capacity, now)]
      ensures Full(buckets[modelId], rpm, if capacity.Some? then capacity.value else rpm, now)
    {
      FreshIsFull(rpm, capacity, now);
      var size := if capacity.Some? then capacity.value else rpm;
      buckets := buckets[modelId := Bucket(rpm, size, size, now)];
    }

    method Acquire(modelId: string, now: Time) returns (r: AcquireResult)
      modifies this
      ensures modelId !in old(buckets) ==> r == NoBucket && buckets == old(buckets)
      ensures modelId in old(buckets) ==>
                && r == Verdict(old(buckets)[modelId], now)
                && buckets == old(buckets)[modelId := Polled(old(buckets)[modelId], now)]
    {
      if modelId !in buckets {
        return NoBucket;
      }
      var state := buckets[modelId];
      var elapsed := if now - state.lastRefillMs > 0 then now - state.lastRefillMs else 0;
      var refilled := Min(state.capacity, state.tokens + elapsed as real * state.RefillPerMs());
      state := state.(tokens := refilled, lastRefillMs := now);
      if state.tokens >= 1.0 {
        state := state.(tokens := state.tokens - 1.0);
        buckets := buckets[modelId := state];
        return Granted(state.tokens);
      }
      buckets := buckets[modelId := state];
      var deficit := 1.0 - state.tokens;
      r := Denied(state.tokens, if state.rpm == 0.0 then Forever else After(Ceil(deficit / state.RefillPerMs())));
    }

    method Penalize(modelId: string, retryAfterMs: int, now: Time)
      modifies this
      ensures buckets == if modelId in old(buckets)
                         then old(buckets)[modelId := Penalized(old(buckets)[modelId], retryAfterMs, now)]
                         else old(buckets)
      ensures modelId in old(buckets) ==>
        modelId in buckets
        && Paused(buckets[modelId], old(buckets)[modelId].rpm, old(buckets)[modelId].capacity, now + retryAfterMs)
    {
      if modelId in buckets {
        PenalizedIsPaused(buckets[modelId], retryAfterMs, now);
        buckets := buckets[modelId := buckets[modelId].(tokens := 0.0, lastRefillMs := now + retryAfterMs)];
      }
    }
  }

  // ---------- operation sequences on one bucket ----------

  /** Providers parse `retry-after` to a non-negative number. */
  datatype BucketOp = Poll(at: Time) | Penalty(at: Time, retryAfterMs: nat)

  function ApplyOp(b: Bucket, op: BucketOp): Bucket {
    match op
    case Poll(t) => Polled(b, t)
    case Penalty(t, retryAfterMs) => Penalized(b, retryAfterMs, t)
  }

  function AfterOps(b: Bucket, ops: seq<BucketOp>): Bucket {
    if ops == [] then b else ApplyOp(AfterOps(b, ops[..|ops| - 1]), ops[|ops| - 1])
  }

  predicate Grants(b: Bucket, op: BucketOp) {
    op.Poll? && Verdict(b, op.at).Granted?
  }

  /** The times at which the bucket granted a token, in order. */
  function GrantTimes(b: Bucket, ops: seq<BucketOp>): seq<Time> {
    if ops == [] then [] else
      var before, op := ops[..|ops| - 1], ops[|ops| - 1];
      GrantTimes(b, before) + (if Grants(AfterOps(b, before), op) then [op.at] else [])
  }

  function CountIn(times: seq<Time>, a: Time, b: Time): nat {
    if times == [] then 0 else
      CountIn(times[..|times| - 1], a, b) + (if a <= times[|times| - 1] <= b then 1 else 0)
  }

  predicate Chronological(ops: seq<BucketOp>) {
    forall i, j | 0 <= i < j < |ops| :: ops[i].at <= ops[j].at
  }

  predicate Sound(b: Bucket) {
    0.0 <= b.tokens <= b.capacity
  }

  // ---------- the window bound ----------

  lemma MulMono(rate: Amount, x: int, y: int)
    requires x <= y
    ensures rate * x as real <= rate * y as real
  {
  }

  lemma MulSplit(rate: real, x: int, y: int)
    ensures rate * (x + y) as real == rate * x as real + rate * y as real
  {
  }

  lemma AddedMono(rpm: Amount, x: int, y: int)
    requires x <= y
    ensures Added(rpm, x) <= Added(rpm, y)
  {
    MulMono(rpm / MS_PER_MINUTE, x, y);
  }

  lemma AddedSplit(rpm: Amount, x: int, y: int)
    ensures Added(rpm, x + y) == Added(rpm, x) + Added(rpm, y)
  {
    MulSplit(rpm / MS_PER_MINUTE, x, y);
  }

  lemma LevelAdded(b: Bucket, t: Time)
    requires Sound(b)
    ensures Refilled(b, t) <= b.capacity && Refilled(b, t) <= b.tokens + Added(b.rpm, Elapsed(b.lastRefillMs, t))
    ensures Sound(Polled(b, t))
  {
    LevelBound(b, t);
  }

  lemma LevelBound(b: Bucket, t: Time)
    requires Sound(b)
    ensures b.tokens <= Refilled(b, t) <= b.capacity
    ensures Refilled(b, t) <= b.tokens + b.RefillPerMs() * Elapsed(b.lastRefillMs, t) as real
    ensures Sound(Polled(b, t))
  {
    MulMono(b.RefillPerMs(), 0, Elapsed(b.lastRefillMs, t));
  }

  lemma {:induction false} OpsKeepShape(b: Bucket, ops: seq<BucketOp>)
    requires Sound(b)
    ensures var r := AfterOps(b, ops); Sound(r) && r.rpm == b.rpm && r.capacity == b.capacity
    ensures ops != [] ==> ops[|ops| - 1].at <= AfterOps(b, ops).lastRefillMs
  {
    if ops != [] {
      OpsKeepShape(b, ops[..|ops| - 1]);
      if ops[|ops| - 1].Poll? {
        LevelBound(AfterOps(b, ops[..|ops| - 1]), ops[|ops| - 1].at);
      }
    }
  }

  /** A full bucket plus what the rate adds in `ms` milliseconds. */
  function Supply(rpm: Amount, capacity: Amount, ms: int): real {
    capacity + Added(rpm, ms)
  }

  lemma SupplyAtLeastCapacity(rpm: Amount, capacity: Amount, ms: nat)
    ensures Supply(rpm, capacity, ms) >= capacity
  {
    AddedMono(rpm, 0, ms);
  }

  /** Grants so far in a window, against what the bucket can have supplied since the window opened. */
  ghost predicate Account(b: Bucket, now: Time, count: nat, from: Time, to: Time) {
    && count as real <= Supply(b.rpm, b.capacity, to - from)
    && (now < from ==> count == 0)
    && (from <= now <= to ==> count as real + b.tokens <= Supply(b.rpm, b.capacity, now - from))
  }

  /** The level found at `t`, together with the grants before, is still within the supply since `from`. */
  lemma SupplyAt(b: Bucket, now: Time, count: nat, from: Time, to: Time, t: Time)
    requires Sound(b) && now <= t && now <= b.lastRefillMs && from <= t <= to
    requires Account(b, now, count, from, to)
    ensures count as real + Refilled(b, t) <= Supply(b.rpm, b.capacity, t - from)
  {
    LevelAdded(b, t);
    SupplyAtLeastCapacity(b.rpm, b.capacity, t - from);
    if from <= now {
      AddedMono(b.rpm, Elapsed(b.lastRefillMs, t), t - now);
      AddedSplit(b.rpm, now - from, t - now);
    }
  }

  lemma PollKeepsAccount(b: Bucket, now: Time, count: nat, from: Time, to: Time, t: Time)
    requires Sound(b) && from <= to && now <= t && now <= b.lastRefillMs
    requires Account(b, now, count, from, to)
    ensures Account(Polled(b, t), t, count + (if Refilled(b, t) >= 1.0 && from <= t <= to then 1 else 0), from, to)
  {
    LevelAdded(b, t);
    if from <= t <= to {
      SupplyAt(b, now, count, from, to, t);
      AddedMono(b.rpm, t - from, to - from);
    }
  }

  lemma PenaltyKeepsAccount(b: Bucket, now: Time, count: nat, from: Time, to: Time, t: Time, retryAfterMs: nat)
    requires Sound(b) && from <= to && now <= t
    requires Account(b, now, count, from, to)
    ensures Account(Penalized(b, retryAfterMs, t), t, count, from, to)
  {
    if from <= t <= to {
      SupplyAtLeastCapacity(b.rpm, b.capacity, t - from);
      if from <= now {
        AddedMono(b.rpm, now - from, t - from);
      }
    }
  }

  lemma CountAppend(times: seq<Time>, t: Time, a: Time, b: Time)
    ensures CountIn(times + [t], a, b) == CountIn(times, a, b) + (if a <= t <= b then 1 else 0)
  {
    assert (times + [t])[..|times|] == times;
  }

  lemma FirstOpAccount(b: Bucket, op: BucketOp, from: Time, to: Time)
    requires Sound(b) && from <= to
    ensures Account(ApplyOp(b, op), op.at, if Grants(b, op) && from <= op.at <= to then 1 else 0, from, to)
  {
    SupplyAtLeastCapacity(b.rpm, b.capacity, to - from);
    LevelAdded(b, op.at);
    if from <= op.at {
      SupplyAtLeastCapacity(b.rpm, b.capacity, op.at - from);
    }
  }

  lemma NextOpAccount(b: Bucket, now: Time, count: nat, op: BucketOp, from: Time, to: Time)
    requires Sound(b) && from <= to && now <= op.at && now <= b.lastRefillMs
    requires Account(b, now, count, from, to)
    ensures Account(ApplyOp(b, op), op.at, count + (if Grants(b, op) && from <= op.at <= to then 1 else 0), from, to)
  {
    match op
    case Poll(t) => PollKeepsAccount(b, now, count, from, to, t);
    case Penalty(t, retryAfterMs) => PenaltyKeepsAccount(b, now, count, from, to, t, retryAfterMs);
  }

  lemma {:induction false} AccountHolds(b: Bucket, ops: seq<BucketOp>, from: Time, to: Time)
    requires Sound(b) && Chronological(ops) && from <= to && ops != []
    ensures Account(AfterOps(b, ops), ops[|ops| - 1].at, CountIn(GrantTimes(b, ops), from, to), from, to)
    decreases |ops|
  {
    var n := |ops| - 1;
    var before, op := ops[..n], ops[n];
    var times := GrantTimes(b, before);
    CountAppend(times, op.at, from, to);
    assert times + [] == times;
    OpsKeepShape(b, before);
    if before == [] {
      FirstOpAccount(b, op, from, to);
    } else {
      AccountHolds(b, before, from, to);
      NextOpAccount(AfterOps(b, before), before[n - 1].at, CountIn(times, from, to), op, from, to);
    }
  }

  lemma FreshIsSound(rpm: Amount, capacity: Option<Amount>, now: Time)
    ensures Sound(Fresh(rpm, capacity, now))
  {
  }

  /** However polls and penalties mix, a bucket grants in any window no more than its capacity plus what
      the configured rate supplies over the window. */
  lemma WindowBound(b: Bucket, ops: seq<BucketOp>, from: Time, to: Time)
    requires Sound(b) && Chronological(ops) && from <= to
    ensures CountIn(GrantTimes(b, ops), from, to) as real <= Supply(b.rpm, b.capacity, to - from)
  {
    if ops != [] {
      AccountHolds(b, ops, from, to);
      OpsKeepShape(b, ops);
    } else {
      SupplyAtLeastCapacity(b.rpm, b.capacity, to - from);
    }
  }
}
