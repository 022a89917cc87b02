/** What policies come to, in terms of the plan, the envelope and the stored JSON: budgets by verb, verification
    by plan, and the default of every field. */
module PolicyDefaults {
  import opened Options
  import opened Numbers
  import opened ExecutionPolicy

  /** Ten minutes for project verbs, three for ops verbs, one for any other. */
  lemma BudgetPerVerb(verb: string)
    ensures TimeoutForVerb(verb) ==
      if |verb| >= 8 && verb[..8] == "project." then 600000.0
      else if |verb| >= 4 && verb[..4] == "ops." then 180000.0
      else 60000.0
  {
  }

  // ---------- verification by plan ----------

  /** The plan verifies or smoke-tests a project. */
  predicate ProjectCheck(a: Action) {
    a.family == "project" && a.subcommand in {"verify", "smoke"}
  }

  /** The plan invokes this registered adapter with these further words. */
  predicate Invokes(c: Context, spec: AdapterSpec, rest: seq<string>) {
    match c.action
    case None => false
    case Some(a) =>
      && a.family == "adapter" && a.subcommand == "invoke" && |a.args| >= 2
      && (a.args[0], a.args[1]) in c.registry && spec == c.registry[(a.args[0], a.args[1])] && rest == a.args[2..]
  }

  predicate FirstFlag(words: seq<string>, k: int) {
    0 <= k < |words| && words[k] == "--mode" && forall j | 0 <= j < k :: words[j] != "--mode"
  }

  /** The mode asked for is the word after the first `--mode`, "read" if there is none. */
  ghost predicate AsksMode(words: seq<string>, mode: string) {
    if "--mode" !in words then mode == "read"
    else exists k :: FirstFlag(words, k) && mode == if k + 1 < |words| then words[k + 1] else "read"
  }

  lemma {:induction false} ModeIsAsked(words: seq<string>)
    ensures AsksMode(words, ModeArgument(words))
  {
    if words != [] && words[0] == "--mode" {
      assert FirstFlag(words, 0);
    } else if words != [] {
      var rest := words[1..];
      ModeIsAsked(rest);
      if "--mode" in rest {
        var k :| FirstFlag(rest, k) && ModeArgument(rest) == if k + 1 < |rest| then rest[k + 1] else "read";
        FlagLater(words, k);
        assert "--mode" in words;
      } else {
        assert "--mode" !in words;
      }
    }
  }

  lemma FlagLater(words: seq<string>, k: int)
    requires words != [] && words[0] != "--mode" && FirstFlag(words[1..], k)
    ensures FirstFlag(words, k + 1)
    ensures k + 1 < |words[1..]| ==> words[1..][k + 1] == words[k + 2]
  {
    assert forall j | 0 <= j < |words| - 1 :: words[1..][j] == words[j + 1];
  }

  /** How a plan is verified: in any case when there is no action, when a project is checked, or when an adapter
      without side effects is invoked or one is only asked to read or propose; otherwise before side effects. */
  lemma ModePerPlan(c: Context, spec: AdapterSpec, rest: seq<string>, mode: string)
    ensures c.action.None? ==> BaseVerifier(c).mode == Required
    ensures c.action.Some? && ProjectCheck(c.action.value) ==> BaseVerifier(c).mode == Required
    ensures Invokes(c, spec, rest) ==>
      exists asked :: AsksMode(rest, asked)
        && BaseVerifier(c).mode == if spec.noSideEffects || asked in {"read", "propose"} then Required
                                   else BeforeSideEffect
    ensures c.action.Some? && !ProjectCheck(c.action.value) && !InvokesSome(c) ==>
      BaseVerifier(c).mode == BeforeSideEffect
  {
    ModeIsAsked(rest);
  }

  predicate InvokesSome(c: Context) {
    match c.action
    case None => false
    case Some(a) =>
      a.family == "adapter" && a.subcommand == "invoke" && |a.args| >= 2 && (a.args[0], a.args[1]) in c.registry
  }

  const HINTS := {"tests", "lint", "policy", "trace_grade", "artifact_schema", "human_review"}

  lemma {:induction false} SupportedExactlyWhen(hints: seq<string>, x: string)
    ensures x in SupportedHints(hints) <==> x in hints && x in HINTS
  {
    if hints != [] {
      SupportedExactlyWhen(hints[1..], x);
    }
  }

  lemma KnownWordsAreTrimmed(x: string)
    requires x in HINTS
    ensures x != "" && Trimmed(x)
  {
  }

  lemma {:induction false} UniqueExactlyWhen(checks: seq<string>, x: string)
    requires forall y | y in checks :: y in HINTS
    ensures x in UniqueChecks(checks) <==> x in checks
    ensures forall i, j | 0 <= i < j < |UniqueChecks(checks)| :: UniqueChecks(checks)[i] != UniqueChecks(checks)[j]
  {
    if checks != [] {
      var init, last := checks[..|checks| - 1], checks[|checks| - 1];
      assert checks == init + [last];
      UniqueExactlyWhen(init, x);
      KnownWordsAreTrimmed(last);
      UniqueExactlyWhen(init, last);
    }
  }

  /** Every plan is checked for its artifact schema, a checked project for its trace too, and an invoked adapter
      for what it hints at as far as that is known, nothing twice. */
  lemma {:induction false} ChecksPerPlan(c: Context, spec: AdapterSpec, rest: seq<string>, x: string)
    ensures x in BaseVerifier(c).checks <==>
      || x == "artifact_schema"
      || (c.action.Some? && ProjectCheck(c.action.value) && x == "trace_grade")
      || (InvokesSome(c) && x in HINTS && x in c.registry[(c.action.value.args[0], c.action.value.args[1])].hints)
    ensures var checks := BaseVerifier(c).checks; forall i, j | 0 <= i < j < |checks| :: checks[i] != checks[j]
  {
    if InvokesSome(c) {
      var hints := c.registry[(c.action.value.args[0], c.action.value.args[1])].hints;
      var all := [REQUIRED_CHECK] + SupportedHints(hints);
      forall y ensures y in all <==> y == "artifact_schema" || (y in HINTS && y in hints) {
        SupportedExactlyWhen(hints, y);
      }
      UniqueExactlyWhen(all, x);
    }
  }

  // ---------- building from an envelope ----------

  /** The plan asks for verification: its verifier is required, or there are side effects to verify before. */
  predicate PlanAsks(c: Context) {
    BaseVerifier(c).mode == Required || (BaseVerifier(c).mode == BeforeSideEffect && c.sideEffects != [])
  }

  /** A whole number of attempts between one and ten: one more than the retries asked for, rounded down, or than
      the one retry of plans that are safe to repeat. */
  predicate AttemptsGranted(r: Requested, c: Context, attempts: int) {
    match r.maxRetries
    case Some(x) =>
      if x < 0.0 then DefaultAttempts(c, attempts)
      else attempts == if x >= 9.0 then 10 else x.Floor + 1
    case None => DefaultAttempts(c, attempts)
  }

  predicate DefaultAttempts(c: Context, attempts: int) {
    attempts == if c.sideEffects == [] || (c.action.Some? && c.action.value.dryRunSafe) then 2 else 1
  }

  /** The runtime asked for, at least a second and at most the verb's default, which stands for anything else. */
  predicate RuntimeGranted(r: Requested, verb: string, ms: real) {
    match r.maxRuntimeSeconds
    case Some(s) =>
      if s <= 0.0 then ms == TimeoutForVerb(verb)
      else if s * 1000.0 >= TimeoutForVerb(verb) then ms == TimeoutForVerb(verb)
      else if s * 1000.0 <= 1000.0 then ms == 1000.0
      else ms == s * 1000.0
    case None => ms == TimeoutForVerb(verb)
  }

  /** Every field of a policy built from any envelope. */
  lemma BuiltFields(r: Requested, c: Context)
    ensures var p := Build(r, c);
      && AttemptsGranted(r, c, p.maxAttempts)
      && (p.backoffMs == match r.retryBackoffMs case Some(x) => (if x >= 0.0 then x.Floor else 500) case None => 500)
      && p.retryOnFailed
      && RuntimeGranted(r, c.verb, p.maxRuntimeMs)
      && (p.verifierMode == if r.requireVerification == Some(true) then Required else BaseVerifier(c).mode)
      && p.verifierChecks == BaseVerifier(c).checks
      && (p.requireVerification <==>
            p.verifierMode == Required || (p.verifierMode == BeforeSideEffect && c.sideEffects != []))
      && p.allowSideEffects == r.allowSideEffects && p.sideEffects == c.sideEffects
  {
    BaseChecks(c);
    BudgetPerVerb(c.verb);
  }

  // ---------- reading what is stored ----------

  /** A stored number, rounded down, but no less than the least; the default for anything else. */
  predicate Whole(value: Json, least: int, fallback: real, r: real) {
    match value
    case Num(x) => r == (if x.Floor < least then least else x.Floor) as real
    case _ => r == fallback
  }

  predicate Flag(value: Json, fallback: bool, r: bool) {
    match value
    case Bool(b) => r == b
    case _ => r == fallback
  }

  lemma SecondsPerVerb(verb: string)
    ensures Ceil(TimeoutForVerb(verb) / 1000.0) as real == TimeoutForVerb(verb) / 1000.0
    ensures TimeoutForVerb(verb) >= 60000.0
  {
    BudgetPerVerb(verb);
  }

  /** Every number read from stored JSON: what is missing or of another type is one attempt, half a second of
      backoff, and the verb's budget. */
  lemma ReadNumbers(stored: Stored, c: Context)
    ensures var p, ms := Execution(stored, c), TimeoutForVerb(c.verb);
      && Whole(stored.maxAttempts, 1, 1.0, p.maxAttempts as real)
      && Whole(stored.backoffMs, 0, 500.0, p.backoffMs as real)
      && Whole(stored.maxRuntimeMs, 0, ms, p.maxRuntimeMs)
      && Whole(stored.maxRuntimeSeconds, 1, ms / 1000.0, p.maxRuntimeSeconds as real)
  {
    SecondsPerVerb(c.verb);
  }

  /** Every other field: retry on failure, no word on side effects, and what the plan says. */
  lemma ReadFields(stored: Stored, c: Context)
    ensures var p := Execution(stored, c);
      && Flag(stored.retryOnFailed, true, p.retryOnFailed)
      && Flag(stored.requireVerification, PlanAsks(c), p.requireVerification)
      && ModeRead(stored.verifierMode, BaseVerifier(c).mode, p.verifierMode)
      && ListRead(stored.verifierChecks, BaseVerifier(c).checks, p.verifierChecks)
      && ListRead(stored.sideEffects, c.sideEffects, p.sideEffects)
      && p.allowSideEffects == match stored.allowSideEffects case Bool(b) => Some(b) case _ => None
  {
  }

  predicate ModeRead(value: Json, fallback: VerifierMode, mode: VerifierMode) {
    if value == Str("none") then mode == NoVerifier
    else if value == Str("required") then mode == Required
    else if value == Str("required_before_side_effect") then mode == BeforeSideEffect
    else mode == fallback
  }

  /** What a list says is in `ListsAreTrimmed`. */
  predicate ListRead(value: Json, fallback: seq<string>, r: seq<string>) {
    match value
    case Arr(items) => r == TrimmedStrings(items)
    case _ => r == fallback
  }

  ghost predicate AllSpace(s: string) {
    forall i | 0 <= i < |s| :: IsSpace(s[i])
  }

  /** `t` with spaces before and after it. */
  ghost predicate Padded(s: string, t: string) {
    exists a, b :: s == a + t + b && AllSpace(a) && AllSpace(b)
  }

  lemma PadBefore(s: string, t: string)
    requires s != "" && IsSpace(s[0]) && Padded(s[1..], t)
    ensures Padded(s, t)
  {
    var a, b :| s[1..] == a + t + b && AllSpace(a) && AllSpace(b);
    assert s == [s[0]] + a + t + b && AllSpace([s[0]] + a);
  }

  lemma PadAfter(s: string, t: string)
    requires s != "" && IsSpace(s[|s| - 1]) && Padded(s[..|s| - 1], t)
    ensures Padded(s, t)
  {
    var n := |s| - 1;
    var a, b :| s[..n] == a + t + b && AllSpace(a) && AllSpace(b);
    assert s == a + t + (b + [s[n]]) && AllSpace(b + [s[n]]);
  }

  lemma Unpadded(s: string)
    ensures Padded(s, s)
  {
    assert s == "" + s + "" && AllSpace("");
  }

  /** Trimming takes away spaces at the two ends and nothing else. */
  lemma {:induction false} TrimTakesSpaces(s: string)
    ensures Padded(s, Trim(s))
    decreases |s|
  {
    if s != "" && IsSpace(s[0]) {
      TrimTakesSpaces(s[1..]);
      PadBefore(s, Trim(s));
    } else if s != "" && IsSpace(s[|s| - 1]) {
      TrimTakesSpaces(s[..|s| - 1]);
      PadAfter(s, Trim(s));
    } else {
      Unpadded(s);
    }
  }

  lemma OneItem(item: Json)
    ensures TrimmedStrings([item]) == match item
      case Str(s) => if AllSpace(s) then [] else [Trim(s)]
      case _ => []
  {
    assert [item][1..] == [];
    if item.Str? {
      BlankExactlyWhen(item.s);
    }
  }

  lemma Regroup(a: seq<string>, b: seq<string>, c: seq<string>)
    ensures a + b + c == a + (b + c)
  {
  }

  lemma {:induction false} ItemsConcat(a: seq<Json>, b: seq<Json>)
    ensures TrimmedStrings(a + b) == TrimmedStrings(a) + TrimmedStrings(b)
    decreases |a|
  {
    if a == [] {
      assert a + b == b;
    } else {
      var head := if a[0].Str? && Trim(a[0].s) != "" then [Trim(a[0].s)] else [];
      ItemsConcat(a[1..], b);
      assert (a + b)[1..] == a[1..] + b && (a + b)[0] == a[0];
      Regroup(head, TrimmedStrings(a[1..]), TrimmedStrings(b));
    }
  }

  /** Of a stored list the strings are kept in order, trimmed, unless that leaves nothing; all else goes. */
  lemma {:induction false} ListsAreTrimmed(items: seq<Json>, last: Json)
    ensures TrimmedStrings(items + [last]) ==
      TrimmedStrings(items)
      + match last
        case Str(s) => if AllSpace(s) then [] else [Trim(s)]
        case _ => []
  {
    ItemsConcat(items, [last]);
    OneItem(last);
  }

  lemma {:induction false} BlankExactlyWhen(s: string)
    ensures Trim(s) == "" <==> AllSpace(s)
    decreases |s|
  {
    if s != "" && IsSpace(s[0]) {
      BlankExactlyWhen(s[1..]);
      assert s == [s[0]] + s[1..];
    } else if s != "" && IsSpace(s[|s| - 1]) {
      BlankExactlyWhen(s[..|s| - 1]);
      assert s == s[..|s| - 1] + [s[|s| - 1]];
    }
  }
}
