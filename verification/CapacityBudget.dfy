/** When a probe stays within its budget, whatever the provider answers. */
module CapacityBudget {
  import opened Numbers
  import opened CapacityProbe

  lemma WholeRounds(x: real)
    requires IsWhole(x)
    ensures Rounds(x) as real == if x <= 0.0 then 0.0 else x
  {
    var k := x.Floor;
    assert -x == (-k) as real;
  }

  /** Every size of the ramp that the budget left covers is still covered once it is rounded up to calls.
      With a negative limit on refusals the first wave is the last. */
  predicate Fits(left: real, ramp: seq<real>, stop: real)
    decreases |ramp|
  {
    ramp == [] || left < ramp[0]
    || (Rounds(ramp[0]) as real <= left && (stop < 0.0 || Fits(left - Rounds(ramp[0]) as real, ramp[1..], stop)))
  }

  /** The same for the latency samples and then the ramp; a budget that is not positive buys nothing. */
  predicate Affordable(budgetCalls: real, latencySamples: real, ramp: seq<real>, stop: real) {
    var sampled := Rounds(Min(latencySamples, budgetCalls)) as real;
    budgetCalls <= 0.0 || (sampled <= budgetCalls && Fits(budgetCalls - sampled, ramp, stop))
  }

  predicate WithinBudget(budgetCalls: real, calls: nat) {
    calls as real <= if budgetCalls <= 0.0 then 0.0 else budgetCalls
  }

  lemma RefusalsAreNotNegative(w: Wave)
    ensures Rate429(w) >= 0.0
    ensures w.errors429 == 0 ==> Rate429(w) == 0.0
  {
  }

  lemma {:induction false} FittingWavesStayWithin(
      budgetCalls: real, calls: nat, ramp: seq<real>, stop: real, answers: nat -> Answer)
    requires calls as real <= budgetCalls && Fits(budgetCalls - calls as real, ramp, stop)
    ensures (calls + TotalCalls(Waves(budgetCalls, calls, ramp, stop, answers))) as real <= budgetCalls
    decreases |ramp|
  {
    if ramp != [] && ramp[0] <= budgetCalls - calls as real {
      var w := WaveOf(ramp[0], calls, answers);
      RefusalsAreNotNegative(w);
      if !PushesBack(w, stop) {
        FittingWavesStayWithin(budgetCalls, calls + w.actualCalls, ramp[1..], stop, answers);
      }
    }
  }

  function AllFine(): nat -> Answer {
    n => Fine(0.0)
  }

  lemma {:induction false} AllFineCounts(from: nat, n: nat)
    ensures CountFine(AllFine(), from, n) == n && CountTooMany(AllFine(), from, n) == 0
  {
    if n > 0 {
      AllFineCounts(from, n - 1);
    }
  }

  lemma {:induction false} OtherwiseWavesOverrun(budgetCalls: real, calls: nat, ramp: seq<real>, stop: real)
    requires calls as real <= budgetCalls && !Fits(budgetCalls - calls as real, ramp, stop)
    ensures (calls + TotalCalls(Waves(budgetCalls, calls, ramp, stop, AllFine()))) as real > budgetCalls
    decreases |ramp|
  {
    var w := WaveOf(ramp[0], calls, AllFine());
    AllFineCounts(calls, w.actualCalls);
    RefusalsAreNotNegative(w);
    if Rounds(ramp[0]) as real <= budgetCalls - calls as real {
      OtherwiseWavesOverrun(budgetCalls, calls + w.actualCalls, ramp[1..], stop);
    }
  }

  lemma {:induction false} NothingForNothing(
      budgetCalls: real, ramp: seq<real>, stop: real, answers: nat -> Answer)
    requires budgetCalls <= 0.0
    ensures TotalCalls(Waves(budgetCalls, 0, ramp, stop, answers)) == 0
    decreases |ramp|
  {
    if ramp != [] && ramp[0] <= budgetCalls && !PushesBack(WaveOf(ramp[0], 0, answers), stop) {
      NothingForNothing(budgetCalls, ramp[1..], stop, answers);
    }
  }

  lemma AffordableStaysWithin(
      budgetCalls: real, latencySamples: real, ramp: seq<real>, stop: real, answers: nat -> Answer)
    requires Affordable(budgetCalls, latencySamples, ramp, stop)
    ensures WithinBudget(budgetCalls, Calls(budgetCalls, latencySamples, ramp, stop, answers))
  {
    if budgetCalls <= 0.0 {
      NothingForNothing(budgetCalls, ramp, stop, answers);
    } else {
      FittingWavesStayWithin(budgetCalls, Rounds(Min(latencySamples, budgetCalls)), ramp, stop, answers);
    }
  }

  lemma OtherwiseOverruns(budgetCalls: real, latencySamples: real, ramp: seq<real>, stop: real)
    requires !Affordable(budgetCalls, latencySamples, ramp, stop)
    ensures !WithinBudget(budgetCalls, Calls(budgetCalls, latencySamples, ramp, stop, AllFine()))
  {
    var sampled := Rounds(Min(latencySamples, budgetCalls));
    AllFineCounts(0, sampled);
    if sampled as real <= budgetCalls {
      OtherwiseWavesOverrun(budgetCalls, sampled, ramp, stop);
    }
  }

  /** A probe stays within its budget for all answers exactly when it is affordable; any shortfall shows
      when every call is answered. */
  lemma BudgetHoldsExactlyWhen(budgetCalls: real, latencySamples: real, ramp: seq<real>, stop: real)
    ensures (forall answers :: WithinBudget(budgetCalls, Calls(budgetCalls, latencySamples, ramp, stop, answers)))
      <==> Affordable(budgetCalls, latencySamples, ramp, stop)
  {
    if Affordable(budgetCalls, latencySamples, ramp, stop) {
      forall answers ensures WithinBudget(budgetCalls, Calls(budgetCalls, latencySamples, ramp, stop, answers)) {
        AffordableStaysWithin(budgetCalls, latencySamples, ramp, stop, answers);
      }
    } else {
      OtherwiseOverruns(budgetCalls, latencySamples, ramp, stop);
    }
  }

  predicate WholeRamp(ramp: seq<real>) {
    forall i | 0 <= i < |ramp| :: IsWhole(ramp[i])
  }

  lemma {:induction false} WholeRampsFit(left: real, ramp: seq<real>, stop: real)
    requires left >= 0.0 && (WholeRamp(ramp) || IsWhole(left))
    ensures Fits(left, ramp, stop)
    decreases |ramp|
  {
    if ramp != [] && ramp[0] <= left {
      CoveredStaysCovered(left, ramp[0]);
      WholeRampsFit(left - Rounds(ramp[0]) as real, ramp[1..], stop);
    }
  }

  lemma CoveredStaysCovered(left: real, size: real)
    requires 0.0 <= left && size <= left && (IsWhole(size) || IsWhole(left))
    ensures Rounds(size) as real <= left
    ensures IsWhole(left) ==> IsWhole(left - Rounds(size) as real)
  {
    if IsWhole(size) {
      WholeRounds(size);
    }
    if IsWhole(left) {
      assert left - Rounds(size) as real == (left.Floor - Rounds(size)) as real;
    }
  }

  /** With whole numbers of samples and whole sizes, exactly a fractional budget smaller than the samples
      asked for is overrun. */
  lemma WholeRequestsHoldExactlyWhen(budgetCalls: real, latencySamples: real, ramp: seq<real>, stop: real)
    requires IsWhole(latencySamples) && WholeRamp(ramp)
    ensures (forall answers :: WithinBudget(budgetCalls, Calls(budgetCalls, latencySamples, ramp, stop, answers)))
      <==> budgetCalls <= 0.0 || IsWhole(budgetCalls) || latencySamples <= budgetCalls
  {
    BudgetHoldsExactlyWhen(budgetCalls, latencySamples, ramp, stop);
    if budgetCalls > 0.0 {
      var asked := Min(latencySamples, budgetCalls);
      var sampled := Rounds(asked);
      if IsWhole(asked) {
        WholeRounds(asked);
        WholeRampsFit(budgetCalls - sampled as real, ramp, stop);
      }
    }
  }

  /** A whole budget holds whatever fractions the samples and the ramp have. */
  lemma WholeBudgetsHold(budgetCalls: real, latencySamples: real, ramp: seq<real>, stop: real, answers: nat -> Answer)
    requires IsWhole(budgetCalls)
    ensures WithinBudget(budgetCalls, Calls(budgetCalls, latencySamples, ramp, stop, answers))
  {
    if budgetCalls > 0.0 {
      CoveredStaysCovered(budgetCalls, Min(latencySamples, budgetCalls));
      WholeRampsFit(budgetCalls - Rounds(Min(latencySamples, budgetCalls)) as real, ramp, stop);
    }
    AffordableStaysWithin(budgetCalls, latencySamples, ramp, stop, answers);
  }

  const DEFAULT_SAMPLES := 3.0
  const DEFAULT_RAMP := [5.0, 10.0, 20.0, 40.0, 60.0, 80.0, 100.0, 150.0, 200.0]
  const DEFAULT_STOP := 0.1

  /** With the default samples and ramp the budget holds exactly unless it is a fraction below three. */
  lemma DefaultsHoldExactlyWhen(budgetCalls: real)
    ensures (forall answers ::
        WithinBudget(budgetCalls, Calls(budgetCalls, DEFAULT_SAMPLES, DEFAULT_RAMP, DEFAULT_STOP, answers)))
      <==> budgetCalls <= 0.0 || IsWhole(budgetCalls) || 3.0 <= budgetCalls
  {
    assert IsWhole(3.0);
    assert forall i | 0 <= i < |DEFAULT_RAMP| :: IsWhole(DEFAULT_RAMP[i]);
    WholeRequestsHoldExactlyWhen(budgetCalls, DEFAULT_SAMPLES, DEFAULT_RAMP, DEFAULT_STOP);
  }

  /** A budget of two and a half calls pays for three latency samples. */
  lemma SamplesOverrun()
    ensures Calls(2.5, DEFAULT_SAMPLES, [], DEFAULT_STOP, AllFine()) == 3
  {
    AllFineCounts(0, 3);
  }

  /** After three samples out of 100.5 calls, a burst of 97.25 makes 98 calls where 97.5 were left. */
  lemma FractionalBurstOverruns()
    ensures Calls(100.5, DEFAULT_SAMPLES, [97.25], DEFAULT_STOP, AllFine()) == 101
  {
    AllFineCounts(0, 3);
    AllFineCounts(3, 98);
    var w := WaveOf(97.25, 3, AllFine());
    RefusalsAreNotNegative(w);
    assert TotalCalls([w]) == 98;
  }
}
