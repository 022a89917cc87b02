/** Retry and requeue submit a command again under the policy its source was stored with. */
module Resubmission {
  import opened Options
  import opened Numbers
  import opened ExecutionPolicy
  import opened PolicyDefaults

  /** The envelope policy a retry or requeue asks for. */
  function Resubmitted(p: Policy): Requested {
    Requested(p.allowSideEffects, Some(p.requireVerification), Some(p.maxRuntimeSeconds as real),
              Some(MaxInt(0, p.maxAttempts - 1) as real), Some(p.backoffMs as real))
  }

  /** What the envelope schema accepts: whole numbers in range. */
  predicate Accepted(r: Requested) {
    && (r.maxRuntimeSeconds.Some? ==> IsWhole(r.maxRuntimeSeconds.value) && r.maxRuntimeSeconds.value >= 1.0)
    && (r.maxRetries.Some? ==> IsWhole(r.maxRetries.value) && 0.0 <= r.maxRetries.value <= 9.0)
    && (r.retryBackoffMs.Some? ==> IsWhole(r.retryBackoffMs.value) && r.retryBackoffMs.value >= 0.0)
  }

  /** The policy of the copy that a source with policy `p` leaves behind when routed to `c`. */
  function Copy(p: Policy, c: Context): Policy {
    Execution(Store(Build(Resubmitted(p), c)), c)
  }

  /** The schema lets a copy of a stored policy through exactly when it has at most ten attempts. */
  lemma CopyIsAcceptedExactlyWhen(stored: Stored, c: Context)
    requires Clean(c.sideEffects)
    ensures var p := Execution(stored, c); Accepted(Resubmitted(p)) <==> p.maxAttempts <= 10
  {
    ExecutionIsNormal(stored, c);
  }

  lemma WholeThousands(n: int)
    ensures Ceil((1000 * n) as real / 1000.0) == n
  {
    assert (1000 * n) as real / 1000.0 == n as real;
  }

  lemma DefaultsAreWholeSeconds(verb: string)
    ensures exists n :: 60 <= n <= 600 && TimeoutForVerb(verb) == (1000 * n) as real
  {
    assert 600000.0 == (1000 * 600) as real && 180000.0 == (1000 * 180) as real && 60000.0 == (1000 * 60) as real;
  }

  /** A budget in whole seconds within the verb's default is granted as it is. */
  lemma WholeSecondsAreGranted(verb: string, seconds: int)
    requires 1 <= seconds && (1000 * seconds) as real <= TimeoutForVerb(verb)
    ensures BudgetedTimeoutMs(verb, Some(seconds as real)) == (1000 * seconds) as real
  {
    assert seconds as real * 1000.0 == (1000 * seconds) as real;
  }

  /** The budget of any submission lies between a second and the verb's default. */
  lemma BudgetBounds(r: Requested, c: Context)
    ensures var p := Execution(Store(Build(r, c)), c);
      && 1 <= p.maxRuntimeSeconds
      && p.maxRuntimeMs <= (1000 * p.maxRuntimeSeconds) as real <= TimeoutForVerb(c.verb)
      && (1000 * p.maxRuntimeSeconds) as real < Build(r, c).maxRuntimeMs + 1000.0
  {
    var ms := Build(r, c).maxRuntimeMs;
    var n :| 60 <= n <= 600 && TimeoutForVerb(c.verb) == (1000 * n) as real by { DefaultsAreWholeSeconds(c.verb); }
    assert 1000.0 <= ms <= (1000 * n) as real;
    var s := Ceil(ms / 1000.0);
    assert ms / 1000.0 <= n as real;
    assert 1 <= s <= n;
  }

  lemma BuiltParts(r: Requested, c: Context)
    requires Clean(c.sideEffects)
    ensures var b, p := Build(r, c), Execution(Store(Build(r, c)), c);
      && p == b.(maxRuntimeMs := b.maxRuntimeMs.Floor as real)
      && 1 <= b.maxAttempts <= 10 && Normal(p)
  {
    BaseChecks(c);
    ExecutionIsNormal(Store(Build(r, c)), c);
    BudgetBounds(r, c);
    CleanListsSurvive(Build(r, c).verifierChecks);
    CleanListsSurvive(c.sideEffects);
  }

  /** A submitted command carries its built policy with the runtime budget floored; reading loses nothing else. */
  lemma SubmittedPolicyIsBuilt(r: Requested, c: Context)
    requires Clean(c.sideEffects)
    ensures var b := Build(r, c); Execution(Store(b), c) == b.(maxRuntimeMs := b.maxRuntimeMs.Floor as real)
  {
    BuiltParts(r, c);
  }

  /** What a copy of a submitted command keeps under any plan for a verb with the same side effects,
      and that its budget is the source's rounded up to whole seconds. */
  lemma CopyKeeps(r: Requested, c: Context, plan: Context)
    requires Clean(c.sideEffects) && plan.verb == c.verb && plan.sideEffects == c.sideEffects
    ensures var p := Execution(Store(Build(r, c)), c); var q := Copy(p, plan);
      && q.maxAttempts == p.maxAttempts && q.backoffMs == p.backoffMs && q.retryOnFailed == p.retryOnFailed
      && q.allowSideEffects == p.allowSideEffects && q.sideEffects == p.sideEffects
      && q.maxRuntimeSeconds == p.maxRuntimeSeconds
      && q.maxRuntimeMs == (1000 * p.maxRuntimeSeconds) as real
  {
    BuiltParts(r, c);
    BudgetBounds(r, c);
    var p := Execution(Store(Build(r, c)), c);
    WholeSecondsAreGranted(c.verb, p.maxRuntimeSeconds);
    WholeThousands(p.maxRuntimeSeconds);
    BuiltParts(Resubmitted(p), plan);
  }

  /** The runtime budget is kept exactly when it was a whole number of seconds. */
  lemma BudgetIsKeptExactlyWhen(r: Requested, c: Context, plan: Context)
    requires Clean(c.sideEffects) && plan.verb == c.verb && plan.sideEffects == c.sideEffects
    ensures var ms := Build(r, c).maxRuntimeMs;
      Copy(Execution(Store(Build(r, c)), c), plan).maxRuntimeMs == ms <==> IsWhole(ms / 1000.0)
  {
    CopyKeeps(r, c, plan);
    BudgetBounds(r, c);
    var ms := Build(r, c).maxRuntimeMs;
    WholeQuotient(ms, MaxInt(1, Ceil(ms / 1000.0)));
  }

  lemma WholeQuotient(ms: real, s: int)
    requires ms <= (1000 * s) as real < ms + 1000.0
    ensures (1000 * s) as real == ms <==> IsWhole(ms / 1000.0)
  {
    assert (1000 * s) as real == 1000.0 * s as real;
    if IsWhole(ms / 1000.0) {
      var n := (ms / 1000.0).Floor;
      assert ms == 1000.0 * n as real;
      assert n <= s < n + 1;
    }
  }

  /** A requirement to verify is never lost, and one is never gained exactly when the new plan asks for none. */
  lemma VerificationIsKeptExactlyWhen(p: Policy, plan: Context)
    requires Normal(p) && Clean(plan.sideEffects)
    ensures Copy(p, plan).requireVerification == p.requireVerification
      <==> p.requireVerification || !PlanAsks(plan)
  {
    BuiltParts(Resubmitted(p), plan);
  }

  /** Under an unchanged plan the whole policy of a copy is known: the budget is rounded up to seconds and
      a requirement to verify is spelled out. */
  lemma CopyUnderTheSamePlan(r: Requested, c: Context)
    requires Clean(c.sideEffects)
    ensures var p := Execution(Store(Build(r, c)), c);
      Copy(p, c) == p.(maxRuntimeMs := (1000 * p.maxRuntimeSeconds) as real,
                       verifierMode := if p.requireVerification then Required else p.verifierMode)
  {
    CopyKeeps(r, c, c);
    BaseChecks(c);
    var p := Execution(Store(Build(r, c)), c);
    BuiltParts(r, c);
    BuiltParts(Resubmitted(p), c);
  }

  /** For any budget, a copy of the copy has the copy's policy exactly. */
  lemma SecondCopyEqualsTheFirst(r: Requested, c: Context)
    requires Clean(c.sideEffects)
    ensures var q := Copy(Execution(Store(Build(r, c)), c), c); Copy(q, c) == q
  {
    var p := Execution(Store(Build(r, c)), c);
    CopyUnderTheSamePlan(r, c);
    CopyUnderTheSamePlan(Resubmitted(p), c);
    CopyKeeps(r, c, c);
  }

  /** When the copy was planned anew, the second copy still equals the first exactly unless the new plan
      brought in verification before side effects that the source had not asked for. */
  lemma SecondCopyEqualsTheFirstExactlyWhen(r: Requested, c: Context, plan: Context)
    requires Clean(c.sideEffects) && plan.verb == c.verb && plan.sideEffects == c.sideEffects
    ensures var p := Execution(Store(Build(r, c)), c); var q := Copy(p, plan);
      Copy(q, plan) == q
      <==> p.requireVerification || BaseVerifier(plan).mode != BeforeSideEffect || plan.sideEffects == []
  {
    var p := Execution(Store(Build(r, c)), c);
    var q := Copy(p, plan);
    CopyKeeps(r, c, plan);
    BuiltParts(Resubmitted(p), plan);
    CopyUnderTheSamePlan(Resubmitted(p), plan);
  }

  predicate WithinDefault(r: Requested, verb: string) {
    r.maxRuntimeSeconds.Some? && 1000.0 * r.maxRuntimeSeconds.value <= TimeoutForVerb(verb)
  }

  /** What a submission that the schema accepts is granted: its retries and backoff as asked or their
      defaults, its budget in whole seconds up to the verb's default, verification if asked or planned. */
  lemma AcceptedIsGranted(r: Requested, c: Context)
    requires Accepted(r)
    ensures var p, retryable := Build(r, c), (c.action.Some? && c.action.value.dryRunSafe) || c.sideEffects == [];
      && p.maxAttempts as real
          == (if r.maxRetries.Some? then r.maxRetries.value + 1.0 else if retryable then 2.0 else 1.0)
      && p.backoffMs as real == (if r.retryBackoffMs.Some? then r.retryBackoffMs.value else 500.0)
      && (1000 * p.maxRuntimeSeconds) as real == p.maxRuntimeMs
      && (WithinDefault(r, c.verb) ==> p.maxRuntimeSeconds as real == r.maxRuntimeSeconds.value)
      && p.requireVerification == (r.requireVerification == Some(true) || PlanAsks(c))
  {
    var n :| 60 <= n <= 600 && TimeoutForVerb(c.verb) == (1000 * n) as real by { DefaultsAreWholeSeconds(c.verb); }
    WholeThousands(n);
    if r.maxRuntimeSeconds.Some? {
      var s := r.maxRuntimeSeconds.value.Floor;
      assert r.maxRuntimeSeconds.value * 1000.0 == (1000 * s) as real;
      WholeThousands(s);
    }
  }

  /** A copy of an accepted submission under the same plan keeps its whole policy, the budget included; a
      requirement to verify is spelled out. */
  lemma AcceptedCopyKeepsEverything(r: Requested, c: Context)
    requires Accepted(r) && Clean(c.sideEffects)
    ensures var p := Execution(Store(Build(r, c)), c);
      Copy(p, c) == p.(verifierMode := if p.requireVerification then Required else p.verifierMode)
  {
    AcceptedIsGranted(r, c);
    BuiltParts(r, c);
    CopyUnderTheSamePlan(r, c);
  }
}
