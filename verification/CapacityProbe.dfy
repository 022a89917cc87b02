/** Probing a model's capacity: a latency phase, then bursts of rising size until the provider pushes back.
    Budgets and burst sizes are JavaScript numbers, so they need not be whole. */
module CapacityProbe {
  import opened Numbers

  /** The answer to one call; the number of the call decides it. */
  datatype Answer = Fine(durationMs: real) | TooMany | OtherError

  datatype Wave = Wave(targetRpm: real, actualCalls: nat, ok: nat, errors429: nat, errorsOther: nat)

  /** The recommended rate is the safe one times a fraction, rounded down. */
  datatype Probe = Probe(
    available: bool, okSamples: nat, waves: seq<Wave>, safeRpm: real, recommendedRpm: int, ceilingFound: bool,
    budgetExhausted: bool)

  /** How often a loop that counts up from zero while below `x` goes round. */
  function Rounds(x: real): (n: nat)
    ensures x <= n as real
    ensures n > 0 ==> n as real < x + 1.0
  {
    if x <= 0.0 then 0 else Ceil(x)
  }

  function CountFine(answers: nat -> Answer, from: nat, n: nat): (r: nat)
    ensures r <= n
  {
    if n == 0 then 0 else CountFine(answers, from, n - 1) + (if answers(from + n - 1).Fine? then 1 else 0)
  }

  function CountTooMany(answers: nat -> Answer, from: nat, n: nat): (r: nat)
    ensures r + CountFine(answers, from, n) <= n
  {
    if n == 0 then 0 else CountTooMany(answers, from, n - 1) + (if answers(from + n - 1).TooMany? then 1 else 0)
  }

  /** The tally of a wave is that of the answers to its calls, which are numbered from `from` on. */
  predicate Heard(w: Wave, from: nat, answers: nat -> Answer) {
    && w.ok + w.errors429 + w.errorsOther == w.actualCalls
    && w.ok == CountFine(answers, from, w.actualCalls) && w.errors429 == CountTooMany(answers, from, w.actualCalls)
  }

  /** Every wave was heard, each after the calls of those before it. */
  predicate AllHeard(waves: seq<Wave>, from: nat, answers: nat -> Answer) {
    waves == [] || (Heard(waves[0], from, answers) && AllHeard(waves[1..], from + waves[0].actualCalls, answers))
  }

  /** The share of a wave's calls that were turned away. */
  function Rate429(w: Wave): real {
    if w.actualCalls > 0 then w.errors429 as real / w.actualCalls as real else 0.0
  }

  /** The wave of a burst: as many calls as its size asks for, each tallied by its answer. */
  function WaveOf(targetRpm: real, from: nat, answers: nat -> Answer): Wave {
    var n := Rounds(targetRpm);
    var ok, errors429 := CountFine(answers, from, n), CountTooMany(answers, from, n);
    Wave(targetRpm, n, ok, errors429, n - ok - errors429)
  }

  /** The wave was refused more often than the limit allows. */
  predicate PushesBack(w: Wave, stop: real) {
    Rate429(w) > stop
  }

  /** A burst of calls numbered from `from` on, and its tally. */
  method RunBurstWave(targetRpm: real, from: nat, answers: nat -> Answer) returns (w: Wave)
    ensures w == WaveOf(targetRpm, from, answers)
  {
    var ok, errors429, errorsOther := 0, 0, 0;
    var i := 0;
    while i as real < targetRpm
      invariant i <= Rounds(targetRpm)
      invariant ok + errors429 + errorsOther == i
      invariant ok == CountFine(answers, from, i) && errors429 == CountTooMany(answers, from, i)
      decreases Rounds(targetRpm) - i
    {
      match answers(from + i) {
        case Fine(_) => ok := ok + 1;
        case TooMany => errors429 := errors429 + 1;
        case OtherError => errorsOther := errorsOther + 1;
      }
      i := i + 1;
    }
    w := Wave(targetRpm, i, ok, errors429, errorsOther);
  }

  /** Every wave but the last stayed within the limit on refusals. */
  predicate Ramped(waves: seq<Wave>, ramp: seq<real>, stop: real, ceilingFound: bool) {
    && |waves| <= |ramp|
    && (forall i | 0 <= i < |waves| :: waves[i].targetRpm == ramp[i] && waves[i].actualCalls == Rounds(ramp[i]))
    && (forall i | 0 <= i < |waves| - 1 :: !PushesBack(waves[i], stop))
    && (ceilingFound <==> waves != [] && PushesBack(waves[|waves| - 1], stop))
  }

  /** The last size that was not pushed back. */
  function SafeRpm(waves: seq<Wave>, ceilingFound: bool): real {
    var n := if ceilingFound then |waves| - 1 else |waves|;
    if 0 < n <= |waves| then waves[n - 1].targetRpm else 0.0
  }

  /** More of the wave's calls were turned away than the limit's share of them; a wave without calls counts as
      none turned away. */
  predicate Refused(w: Wave, stop: real) {
    if w.actualCalls > 0 then w.errors429 as real > stop * w.actualCalls as real else stop < 0.0
  }

  lemma RefusedExactlyWhen(w: Wave, stop: real)
    ensures Refused(w, stop) <==> PushesBack(w, stop)
  {
    if w.actualCalls > 0 {
      var calls, refused := w.actualCalls as real, w.errors429 as real;
      assert Rate429(w) * calls == refused;
      if Rate429(w) > stop {
        assert (Rate429(w) - stop) * calls > 0.0;
      } else {
        assert (stop - Rate429(w)) * calls >= 0.0;
      }
    }
  }

  /** The size of wave `k` is the greatest position of the ramp that was run and not refused. */
  predicate SafestAt(waves: seq<Wave>, stop: real, k: int) {
    0 <= k < |waves| && !Refused(waves[k], stop) && forall j | k < j < |waves| :: Refused(waves[j], stop)
  }

  /** The safe rate is the size at that position, or nothing when every wave was refused. */
  ghost predicate IsSafeRate(waves: seq<Wave>, ramp: seq<real>, stop: real, safeRpm: real) {
    if forall j | 0 <= j < |waves| :: Refused(waves[j], stop) then safeRpm == 0.0
    else exists k :: SafestAt(waves, stop, k) && k < |ramp| && safeRpm == ramp[k]
  }

  lemma SafeRateMeaning(waves: seq<Wave>, ramp: seq<real>, stop: real, ceilingFound: bool)
    requires Ramped(waves, ramp, stop, ceilingFound)
    ensures IsSafeRate(waves, ramp, stop, SafeRpm(waves, ceilingFound))
  {
    forall j | 0 <= j < |waves| ensures Refused(waves[j], stop) <==> PushesBack(waves[j], stop) {
      RefusedExactlyWhen(waves[j], stop);
    }
    var n := if ceilingFound then |waves| - 1 else |waves|;
    if n > 0 {
      assert SafestAt(waves, stop, n - 1);
    }
  }

  function TotalCalls(waves: seq<Wave>): nat {
    if waves == [] then 0 else waves[0].actualCalls + TotalCalls(waves[1..])
  }

  /** The waves after `calls` calls: sizes are tried while the budget left covers them, up to the first
      whose refusals exceed the limit. */
  function Waves(budgetCalls: real, calls: nat, ramp: seq<real>, stop: real, answers: nat -> Answer): seq<Wave>
    decreases |ramp|
  {
    if ramp == [] || budgetCalls - calls as real < ramp[0] then []
    else
      var w := WaveOf(ramp[0], calls, answers);
      if PushesBack(w, stop) then [w] else [w] + Waves(budgetCalls, calls + w.actualCalls, ramp[1..], stop, answers)
  }

  /** All provider calls of a probe: the latency samples and, unless each of them failed, the waves. */
  function Calls(budgetCalls: real, latencySamples: real, ramp: seq<real>, stop: real, answers: nat -> Answer): nat {
    var sampled := Rounds(Min(latencySamples, budgetCalls));
    if sampled > 0 && CountFine(answers, 0, sampled) == 0 then sampled
    else sampled + TotalCalls(Waves(budgetCalls, sampled, ramp, stop, answers))
  }

  /** Waves are heard one after the other. */
  lemma {:induction false} WavesHeard(
      budgetCalls: real, calls: nat, ramp: seq<real>, stop: real, answers: nat -> Answer)
    ensures AllHeard(Waves(budgetCalls, calls, ramp, stop, answers), calls, answers)
    decreases |ramp|
  {
    if Waves(budgetCalls, calls, ramp, stop, answers) != [] {
      var w := FirstWave(budgetCalls, calls, ramp, stop, answers);
      if PushesBack(w, stop) {
        HeardFirst(w, [], calls, answers);
      } else {
        WavesHeard(budgetCalls, calls + w.actualCalls, ramp[1..], stop, answers);
        HeardFirst(w, Waves(budgetCalls, calls + w.actualCalls, ramp[1..], stop, answers), calls, answers);
      }
    }
  }

  /** Their calls never exceed the rounded budget. */
  lemma {:induction false} WavesStayWithin(
      budgetCalls: real, calls: nat, ramp: seq<real>, stop: real, answers: nat -> Answer)
    requires calls <= Rounds(budgetCalls)
    ensures calls + TotalCalls(Waves(budgetCalls, calls, ramp, stop, answers)) <= Rounds(budgetCalls)
    decreases |ramp|
  {
    if Waves(budgetCalls, calls, ramp, stop, answers) != [] {
      var w := FirstWave(budgetCalls, calls, ramp, stop, answers);
      StaysWithin(budgetCalls, calls, ramp[0]);
      if PushesBack(w, stop) {
        TotalFirst(w, []);
      } else {
        WavesStayWithin(budgetCalls, calls + w.actualCalls, ramp[1..], stop, answers);
        TotalFirst(w, Waves(budgetCalls, calls + w.actualCalls, ramp[1..], stop, answers));
      }
    }
  }

  lemma TotalFirst(w: Wave, rest: seq<Wave>)
    ensures TotalCalls([w] + rest) == w.actualCalls + TotalCalls(rest)
    ensures [w] + [] == [w]
  {
    assert ([w] + rest)[1..] == rest;
  }

  lemma HeardFirst(w: Wave, rest: seq<Wave>, from: nat, answers: nat -> Answer)
    requires Heard(w, from, answers) && AllHeard(rest, from + w.actualCalls, answers)
    ensures AllHeard([w] + rest, from, answers) && [w] + [] == [w]
  {
    assert ([w] + rest)[1..] == rest;
  }

  lemma {:induction false} OneMoreTotal(waves: seq<Wave>, wave: Wave)
    ensures TotalCalls(waves + [wave]) == TotalCalls(waves) + wave.actualCalls
  {
    if waves == [] {
      assert [] + [wave] == [wave];
    } else {
      assert (waves + [wave])[1..] == waves[1..] + [wave];
      OneMoreTotal(waves[1..], wave);
    }
  }

  lemma Regroup(waves: seq<Wave>, wave: Wave, rest: seq<Wave>)
    ensures waves + ([wave] + rest) == waves + [wave] + rest
  {
  }

  lemma FirstWave(budgetCalls: real, calls: nat, ramp: seq<real>, stop: real, answers: nat -> Answer) returns (w: Wave)
    requires Waves(budgetCalls, calls, ramp, stop, answers) != []
    ensures ramp != [] && ramp[0] <= budgetCalls - calls as real
    ensures w.targetRpm == ramp[0] && w.actualCalls == Rounds(ramp[0]) && Heard(w, calls, answers)
    ensures Waves(budgetCalls, calls, ramp, stop, answers)
         == if PushesBack(w, stop) then [w]
            else [w] + Waves(budgetCalls, calls + w.actualCalls, ramp[1..], stop, answers)
  {
    w := WaveOf(ramp[0], calls, answers);
  }

  /** The waves that follow those up to position `k` of the ramp. */
  function Rest(budgetCalls: real, calls: nat, ramp: seq<real>, k: nat, stop: real, answers: nat -> Answer): seq<Wave>
    requires k <= |ramp|
  {
    Waves(budgetCalls, calls, ramp[k..], stop, answers)
  }

  /** What position `k` of the ramp adds to the waves before it. */
  lemma NextWave(waves: seq<Wave>, budgetCalls: real, calls: nat, ramp: seq<real>, k: nat,
                 stop: real, answers: nat -> Answer, w: Wave)
    requires k < |ramp| && ramp[k] <= budgetCalls - calls as real && w == WaveOf(ramp[k], calls, answers)
    ensures waves + Rest(budgetCalls, calls, ramp, k, stop, answers)
         == if PushesBack(w, stop) then waves + [w]
            else waves + [w] + Rest(budgetCalls, calls + w.actualCalls, ramp, k + 1, stop, answers)
  {
    var rest := ramp[k..];
    assert rest[0] == ramp[k] && rest[1..] == ramp[k + 1..];
    Regroup(waves, w, Waves(budgetCalls, calls + w.actualCalls, ramp[k + 1..], stop, answers));
  }

  lemma NoMoreWaves(waves: seq<Wave>, budgetCalls: real, calls: nat, ramp: seq<real>, k: nat, stop: real,
                    answers: nat -> Answer)
    requires k <= |ramp| && (k < |ramp| ==> budgetCalls - calls as real < ramp[k])
    ensures waves + Rest(budgetCalls, calls, ramp, k, stop, answers) == waves
  {
  }

  /** The last wave was refused too often. */
  predicate Pushed(waves: seq<Wave>, stop: real) {
    waves != [] && PushesBack(waves[|waves| - 1], stop)
  }

  lemma RampedPrepend(w: Wave, waves: seq<Wave>, ramp: seq<real>, stop: real)
    requires ramp != [] && w.targetRpm == ramp[0] && w.actualCalls == Rounds(ramp[0]) && !PushesBack(w, stop)
    requires Ramped(waves, ramp[1..], stop, Pushed(waves, stop))
    ensures Ramped([w] + waves, ramp, stop, Pushed([w] + waves, stop))
  {
    var all := [w] + waves;
    forall i | 0 <= i < |all| ensures all[i].targetRpm == ramp[i] && all[i].actualCalls == Rounds(ramp[i]) {
      if i > 0 {
        assert all[i] == waves[i - 1] && ramp[i] == ramp[1..][i - 1];
      }
    }
    forall i | 0 <= i < |all| - 1 ensures !PushesBack(all[i], stop) {
      if i > 0 {
        assert all[i] == waves[i - 1];
      }
    }
    assert waves != [] ==> all[|all| - 1] == waves[|waves| - 1];
  }

  lemma {:induction false} WavesRamped(
      budgetCalls: real, calls: nat, ramp: seq<real>, stop: real, answers: nat -> Answer)
    ensures var waves := Waves(budgetCalls, calls, ramp, stop, answers); Ramped(waves, ramp, stop, Pushed(waves, stop))
    decreases |ramp|
  {
    var waves := Waves(budgetCalls, calls, ramp, stop, answers);
    if waves != [] {
      var w := FirstWave(budgetCalls, calls, ramp, stop, answers);
      if PushesBack(w, stop) {
        RampedSingle(w, ramp, stop);
      } else {
        WavesRamped(budgetCalls, calls + w.actualCalls, ramp[1..], stop, answers);
        RampedPrepend(w, Waves(budgetCalls, calls + w.actualCalls, ramp[1..], stop, answers), ramp, stop);
      }
    }
  }

  lemma RampedSingle(w: Wave, ramp: seq<real>, stop: real)
    requires ramp != [] && w.targetRpm == ramp[0] && w.actualCalls == Rounds(ramp[0]) && PushesBack(w, stop)
    ensures Ramped([w], ramp, stop, Pushed([w], stop))
  {
  }

  /** The latency phase: one call after the other. */
  method SampleLatency(samplesToTake: real, answers: nat -> Answer) returns (ok: nat, calls: nat)
    ensures calls == Rounds(samplesToTake) && ok == CountFine(answers, 0, calls)
  {
    ok, calls := 0, 0;
    while calls as real < samplesToTake
      invariant calls <= Rounds(samplesToTake) && ok == CountFine(answers, 0, calls)
      decreases Rounds(samplesToTake) - calls
    {
      var answer := answers(calls);
      calls := calls + 1;
      if answer.Fine? {
        ok := ok + 1;
      }
    }
  }

  /** The burst-ramp phase, after `sampled` calls: waves follow the ramp while the budget covers them and
      the provider does not push back. */
  method Ramp(budgetCalls: real, sampled: nat, ramp: seq<real>, stop: real, answers: nat -> Answer)
      returns (waves: seq<Wave>, safeRpm: real, ceilingFound: bool, budgetExhausted: bool, calls: nat)
    ensures calls == sampled + TotalCalls(waves) && waves == Waves(budgetCalls, sampled, ramp, stop, answers)
    ensures Ramped(waves, ramp, stop, ceilingFound) && safeRpm == SafeRpm(waves, ceilingFound)
    ensures budgetExhausted ==> |waves| < |ramp| && budgetCalls - calls as real < ramp[|waves|]
    ensures !budgetExhausted && !ceilingFound ==> |waves| == |ramp|
  {
    var remaining := budgetCalls - sampled as real;
    waves, safeRpm, ceilingFound, budgetExhausted, calls := [], 0.0, false, false, sampled;
    ghost var all := Waves(budgetCalls, sampled, ramp, stop, answers);
    assert all == [] + Rest(budgetCalls, calls, ramp, 0, stop, answers) by {
      assert ramp[0..] == ramp;
    }
    for k := 0 to |ramp|
      invariant !ceilingFound && !budgetExhausted && !Pushed(waves, stop)
      invariant |waves| == k && all == waves + Rest(budgetCalls, calls, ramp, k, stop, answers)
      invariant remaining == budgetCalls - calls as real && calls == sampled + TotalCalls(waves)
      invariant safeRpm == SafeRpm(waves, false)
    {
      if remaining < ramp[k] {
        budgetExhausted := true;
        break;
      }
      var wave := RunBurstWave(ramp[k], calls, answers);
      NextWave(waves, budgetCalls, calls, ramp, k, stop, answers, wave);
      OneMoreTotal(waves, wave);
      remaining, calls, waves := remaining - wave.actualCalls as real, calls + wave.actualCalls, waves + [wave];
      if PushesBack(wave, stop) {
        ceilingFound := true;
        break;
      }
      safeRpm := ramp[k];
    }
    if !ceilingFound {
      NoMoreWaves(waves, budgetCalls, calls, ramp, |waves|, stop, answers);
    }
    assert ceilingFound == Pushed(waves, stop);
    assert Ramped(waves, ramp, stop, ceilingFound) by {
      WavesRamped(budgetCalls, sampled, ramp, stop, answers);
    }
  }

  /** The greatest whole rate within the fraction of the safe one. */
  function Recommended(safeRpm: real, fraction: real): (r: int)
    ensures r as real <= safeRpm * fraction < r as real + 1.0
  {
    (safeRpm * fraction).Floor
  }

  /** The whole probe; `calls` counts the provider calls made. */
  method ProbeModelCapacity(budgetCalls: real, latencySamples: real, ramp: seq<real>, stop: real, fraction: real,
                            answers: nat -> Answer)
      returns (p: Probe, calls: nat)
    ensures calls == Calls(budgetCalls, latencySamples, ramp, stop, answers) && calls <= Rounds(budgetCalls)
    ensures p.recommendedRpm == Recommended(p.safeRpm, fraction)
    ensures p.waves ==
      if p.available then Waves(budgetCalls, Rounds(Min(latencySamples, budgetCalls)), ramp, stop, answers) else []
    ensures var sampled := Rounds(Min(latencySamples, budgetCalls));
      && calls == sampled + TotalCalls(p.waves)
      && p.okSamples == CountFine(answers, 0, sampled)
      && AllHeard(p.waves, sampled, answers)
    ensures !p.available <==> Min(latencySamples, budgetCalls) > 0.0 && p.okSamples == 0
    ensures p.available ==> Ramped(p.waves, ramp, stop, p.ceilingFound) && p.safeRpm == SafeRpm(p.waves, p.ceilingFound)
    ensures p.available ==> IsSafeRate(p.waves, ramp, stop, p.safeRpm)
    ensures p.budgetExhausted ==> |p.waves| < |ramp| && budgetCalls - calls as real < ramp[|p.waves|]
    ensures p.available && !p.budgetExhausted && !p.ceilingFound ==> |p.waves| == |ramp|
  {
    var samplesToTake := Min(latencySamples, budgetCalls);
    var latencyOk, sampled := SampleLatency(samplesToTake, answers);
    RoundsGrow(samplesToTake, budgetCalls);
    if samplesToTake > 0.0 && latencyOk == 0 {
      return Probe(false, latencyOk, [], 0.0, Recommended(0.0, fraction), false, false), sampled;
    }
    WavesHeard(budgetCalls, sampled, ramp, stop, answers);
    WavesStayWithin(budgetCalls, sampled, ramp, stop, answers);
    var waves, safeRpm, ceilingFound, budgetExhausted, total := Ramp(budgetCalls, sampled, ramp, stop, answers);
    SafeRateMeaning(waves, ramp, stop, ceilingFound);
    return Probe(true, latencyOk, waves, safeRpm, Recommended(safeRpm, fraction), ceilingFound, budgetExhausted), total;
  }

  lemma RoundsGrow(x: real, y: real)
    requires x <= y
    ensures Rounds(x) <= Rounds(y)
  {
  }

  /** A burst that the remaining budget covers keeps the count within the rounded budget. */
  lemma StaysWithin(budget: real, calls: nat, target: real)
    requires calls <= Rounds(budget) && target <= budget - calls as real
    ensures calls + Rounds(target) <= Rounds(budget)
  {
  }
}
