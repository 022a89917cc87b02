/** The lazy bucket against the bucket it stands for, which adds its tokens every millisecond. */
module RateLimitRefinement {
  import opened Numbers
  import opened RateLimit

  /** A bucket that is refilled at every tick of the clock. */
  datatype EagerBucket = EagerBucket(rpm: Amount, capacity: Amount, tokens: real, clock: Time)

  function Tick(e: EagerBucket): EagerBucket {
    e.(tokens := Min(e.capacity, e.tokens + e.rpm / MS_PER_MINUTE), clock := e.clock + 1)
  }

  function Advance(e: EagerBucket, t: Time): (r: EagerBucket)
    decreases t - e.clock
  {
    if t <= e.clock then e else Advance(Tick(e), t)
  }

  function Take(e: EagerBucket): EagerBucket {
    if e.tokens >= 1.0 then e.(tokens := e.tokens - 1.0) else e
  }

  /** A verdict and the level it leaves. */
  datatype Answer = Answer(granted: bool, left: real)

  /** What the eager bucket answers to the polls at `times`. */
  function EagerAnswers(e: EagerBucket, times: seq<Time>): seq<Answer>
    decreases |times|
  {
    if times == [] then [] else
      var there := Advance(e, times[0]);
      [Answer(there.tokens >= 1.0, Take(there).tokens)] + EagerAnswers(Take(there), times[1..])
  }

  function LazyAnswers(b: Bucket, times: seq<Time>): seq<Answer>
    decreases |times|
  {
    if times == [] then [] else
      var r := Verdict(b, times[0]);
      [Answer(r.Granted?, r.tokensRemaining)] + LazyAnswers(Polled(b, times[0]), times[1..])
  }

  predicate Ascending(start: Time, times: seq<Time>) {
    && (forall i | 0 <= i < |times| :: start <= times[i])
    && forall i, j | 0 <= i < j < |times| :: times[i] <= times[j]
  }

  function Eagerly(b: Bucket): EagerBucket {
    EagerBucket(b.rpm, b.capacity, b.tokens, b.lastRefillMs)
  }

  /** Adding in one go what `n` capped additions give. */
  lemma {:induction false} AdvanceInOneGo(e: EagerBucket, t: Time)
    requires e.clock <= t && e.tokens <= e.capacity
    ensures Advance(e, t)
         == EagerBucket(e.rpm, e.capacity,
                        Min(e.capacity, e.tokens + (t - e.clock) as real * (e.rpm / MS_PER_MINUTE)), t)
    decreases t - e.clock
  {
    if e.clock < t {
      AdvanceInOneGo(Tick(e), t);
      var rate: Amount := e.rpm / MS_PER_MINUTE;
      MulSplit(rate, 1, t - e.clock - 1);
      MulMono(rate, 0, t - e.clock - 1);
      assert 1 + (t - e.clock - 1) == t - e.clock;
    }
  }

  lemma PollRefines(b: Bucket, t: Time)
    requires Sound(b) && b.lastRefillMs <= t
    ensures Advance(Eagerly(b), t).tokens == Refilled(b, t)
    ensures Take(Advance(Eagerly(b), t)) == Eagerly(Polled(b, t))
  {
    AdvanceInOneGo(Eagerly(b), t);
  }

  /** Without penalties the lazy bucket grants and denies exactly as the eager one, with the same level left. */
  lemma {:induction false} LazyRefinesEager(b: Bucket, times: seq<Time>)
    requires Sound(b) && Ascending(b.lastRefillMs, times)
    ensures LazyAnswers(b, times) == EagerAnswers(Eagerly(b), times)
    decreases |times|
  {
    if times != [] {
      var t := times[0];
      PollRefines(b, t);
      LevelBound(b, t);
      LazyRefinesEager(Polled(b, t), times[1..]);
    }
  }

  // ---------- denied polls ----------

  lemma RefillInTwoSteps(b: Bucket, t: Time, later: Time)
    requires Sound(b) && b.lastRefillMs <= t <= later && Verdict(b, t).Denied?
    ensures Refilled(Polled(b, t), later) == Refilled(b, later)
  {
    var rate := b.RefillPerMs();
    MulSplit(rate, t - b.lastRefillMs, later - t);
    MulMono(rate, 0, later - t);
    MulMono(rate, 0, t - b.lastRefillMs);
    assert (t - b.lastRefillMs) + (later - t) == later - b.lastRefillMs;
  }

  /** A denied poll leaves every later level as it would have been exactly when it does not fall into the
      pause of a penalty, or the bucket could not fill during that pause anyway. */
  lemma DeniedPollIsIdleExactlyWhen(b: Bucket, t: Time)
    requires Sound(b) && Verdict(b, t).Denied?
    ensures (forall later: Time :: t <= later ==> Refilled(Polled(b, t), later) == Refilled(b, later))
       <==> b.lastRefillMs <= t || b.rpm == 0.0 || b.tokens == b.capacity
  {
    if b.lastRefillMs <= t {
      forall later: Time | t <= later ensures Refilled(Polled(b, t), later) == Refilled(b, later) {
        RefillInTwoSteps(b, t, later);
      }
    } else if b.rpm == 0.0 || b.tokens == b.capacity {
      forall later: Time | t <= later ensures Refilled(Polled(b, t), later) == Refilled(b, later) {
        LevelBound(b, later);
        LevelBound(b, t);
        LevelBound(Polled(b, t), later);
      }
    } else {
      MulMono(b.RefillPerMs(), 1, b.lastRefillMs - t);
      assert Refilled(Polled(b, t), b.lastRefillMs) > Refilled(b, b.lastRefillMs);
    }
  }

  // ---------- the suggested wait ----------

  lemma Quotient(x: real, rate: real, k: int)
    requires rate > 0.0
    ensures k as real >= x / rate <==> k as real * rate >= x
  {
    assert x == (x / rate) * rate;
    if k as real >= x / rate {
      assert (k as real - x / rate) * rate >= 0.0;
    } else {
      assert (x / rate - k as real) * rate > 0.0;
    }
  }

  /** The wait a refused caller is given is the first number of milliseconds after which a lone retry is
      granted, provided the bucket can hold a token at all; it is forever exactly when the bucket does not
      fill, and then no retry is ever granted. */
  lemma RetryAfterIsExact(b: Bucket, t: Time, k: nat)
    requires Sound(b) && Verdict(b, t).Denied?
    ensures var wait := Verdict(b, t).retryAfter;
      && (wait.Forever? <==> b.rpm == 0.0)
      && (wait.After? ==> wait.ms >= 1)
      && (Verdict(Polled(b, t), t + k).Granted? <==> wait.After? && k >= wait.ms && b.capacity >= 1.0)
  {
    if b.rpm > 0.0 {
      PositiveRetryAfter(b, t, k);
    }
  }

  lemma PositiveRetryAfter(b: Bucket, t: Time, k: nat)
    requires Sound(b) && b.rpm > 0.0 && Verdict(b, t).Denied?
    ensures var wait := Verdict(b, t).retryAfter;
      && wait.After? && wait.ms >= 1
      && (Verdict(Polled(b, t), t + k).Granted? <==> k >= wait.ms && b.capacity >= 1.0)
  {
    var level, rate := Refilled(b, t), b.RefillPerMs();
    assert rate > 0.0;
    LevelBound(b, t);
    var q := (1.0 - level) / rate;
    Quotient(1.0 - level, rate, k);
    Quotient(1.0 - level, rate, 0);
    assert Ceil(q) <= k <==> q <= k as real;
    assert Polled(b, t).RefillPerMs() == rate;
  }
}
