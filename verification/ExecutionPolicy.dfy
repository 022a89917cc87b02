/** Execution policies of commands: built from an envelope, stored as JSON, read back with defaults. */
module ExecutionPolicy {
  import opened Options
  import opened Numbers

  /** JSON numbers are finite; an absent field reads as `Null`. */
  datatype Json =
    | Null
    | Bool(b: bool)
    | Num(x: real)
    | Str(s: string)
    | Arr(items: seq<Json>)
    | Obj(fields: map<string, Json>)

  datatype VerifierMode = NoVerifier | BeforeSideEffect | Required

  datatype Verifier = Verifier(mode: VerifierMode, checks: seq<string>)

  datatype Policy = Policy(
    maxAttempts: int,
    backoffMs: int,
    retryOnFailed: bool,
    maxRuntimeMs: real,
    maxRuntimeSeconds: int,
    requireVerification: bool,
    verifierMode: VerifierMode,
    verifierChecks: seq<string>,
    allowSideEffects: Option<bool>,
    sideEffects: seq<string>)

  /** The optional policy part of a command envelope. */
  datatype Requested = Requested(
    allowSideEffects: Option<bool>,
    requireVerification: Option<bool>,
    maxRuntimeSeconds: Option<real>,
    maxRetries: Option<real>,
    retryBackoffMs: Option<real>)

  datatype Action = Action(family: string, subcommand: string, args: seq<string>, dryRunSafe: bool)

  datatype AdapterSpec = AdapterSpec(noSideEffects: bool, hints: seq<string>)

  /** Where a command was routed, its plan, and the adapter registry that answers for it. */
  datatype Context = Context(
    verb: string, sideEffects: seq<string>, action: Option<Action>, registry: map<(string, string), AdapterSpec>)

  // ---------- numbers ----------

  function PositiveInteger(value: Json, fallback: int): int {
    if value.Num? then MaxInt(1, value.x.Floor) else fallback
  }

  function NonNegativeInteger(value: Json, fallback: real): real {
    if value.Num? then MaxInt(0, value.x.Floor) as real else fallback
  }

  // ---------- building ----------

  const REQUIRED_CHECK := "artifact_schema"

  predicate StartsWith(s: string, prefix: string) {
    |prefix| <= |s| && s[..|prefix|] == prefix
  }

  function TimeoutForVerb(verb: string): real {
    if StartsWith(verb, "project.") then 600000.0
    else if StartsWith(verb, "ops.") then 180000.0
    else 60000.0
  }

  function BudgetedTimeoutMs(verb: string, maxRuntimeSeconds: Option<real>): real {
    match maxRuntimeSeconds
    case Some(s) => if s <= 0.0 then TimeoutForVerb(verb) else Min(TimeoutForVerb(verb), Max(1000.0, s * 1000.0))
    case None => TimeoutForVerb(verb)
  }

  function SupportedHints(hints: seq<string>): seq<string> {
    if hints == [] then []
    else
      var known := ["tests", "lint", "policy", "trace_grade", "artifact_schema", "human_review"];
      (if hints[0] in known then [hints[0]] else [])
         + SupportedHints(hints[1..])
  }

  /** First occurrences, in order; blank entries go. */
  function UniqueChecks(checks: seq<string>): seq<string> {
    if checks == [] then []
    else
      var init, last := UniqueChecks(checks[..|checks| - 1]), Trim(checks[|checks| - 1]);
      if last == "" || last in init then init else init + [last]
  }

  function ModeArgument(args: seq<string>): string {
    if args == [] then "read"
    else if args[0] == "--mode" then (if |args| > 1 then args[1] else "read")
    else ModeArgument(args[1..])
  }

  function AdapterVerifier(c: Context, base: Verifier): Verifier {
    match c.action
    case Some(a) =>
      if a.family == "adapter" && a.subcommand == "invoke" && |a.args| >= 2 && (a.args[0], a.args[1]) in c.registry then
        var spec, mode := c.registry[(a.args[0], a.args[1])], ModeArgument(a.args[2..]);
        Verifier(if spec.noSideEffects || mode == "read" || mode == "propose" then Required else base.mode,
                 UniqueChecks(base.checks + SupportedHints(spec.hints)))
      else base
    case None => base
  }

  function BaseVerifier(c: Context): Verifier {
    var base := match c.action
      case None => Verifier(Required, [REQUIRED_CHECK])
      case Some(a) =>
        if a.family == "project" && (a.subcommand == "verify" || a.subcommand == "smoke")
        then Verifier(Required, [REQUIRED_CHECK, "trace_grade"])
        else Verifier(BeforeSideEffect, [REQUIRED_CHECK]);
    AdapterVerifier(c, base)
  }

  function VerifierFor(c: Context, requireVerification: Option<bool>): Verifier {
    var base := BaseVerifier(c);
    if requireVerification == Some(true)
    then Verifier(Required, if base.checks != [] then base.checks else [REQUIRED_CHECK])
    else base
  }

  function VerificationRequired(mode: VerifierMode, sideEffects: seq<string>): bool {
    mode.Required? || (mode.BeforeSideEffect? && sideEffects != [])
  }

  function MaxRetries(r: Requested, c: Context): real {
    if r.maxRetries.Some? && r.maxRetries.value >= 0.0 then r.maxRetries.value
    else if (c.action.Some? && c.action.value.dryRunSafe) || c.sideEffects == [] then 1.0 else 0.0
  }

  function BackoffMs(r: Requested): int {
    if r.retryBackoffMs.Some? && r.retryBackoffMs.value >= 0.0 then r.retryBackoffMs.value.Floor else 500
  }

  function Build(r: Requested, c: Context): Policy {
    var verifier, ms := VerifierFor(c, r.requireVerification), BudgetedTimeoutMs(c.verb, r.maxRuntimeSeconds);
    Policy(MinInt(10, MaxInt(1, MaxRetries(r, c).Floor + 1)), BackoffMs(r), true,
           ms, MaxInt(1, Ceil(ms / 1000.0)),
           VerificationRequired(verifier.mode, c.sideEffects), verifier.mode, verifier.checks,
           r.allowSideEffects, c.sideEffects)
  }

  // ---------- storing and reading back ----------

  datatype Stored = Stored(
    maxAttempts: Json, backoffMs: Json, retryOnFailed: Json, maxRuntimeMs: Json, maxRuntimeSeconds: Json,
    requireVerification: Json, verifierMode: Json, verifierChecks: Json, allowSideEffects: Json, sideEffects: Json)

  function ModeName(mode: VerifierMode): string {
    match mode
    case NoVerifier => "none"
    case BeforeSideEffect => "required_before_side_effect"
    case Required => "required"
  }

  function Strings(items: seq<string>): Json {
    Arr(seq(|items|, i requires 0 <= i < |items| => Str(items[i])))
  }

  function Store(p: Policy): Stored {
    Stored(Num(p.maxAttempts as real), Num(p.backoffMs as real), Bool(p.retryOnFailed), Num(p.maxRuntimeMs),
           Num(p.maxRuntimeSeconds as real), Bool(p.requireVerification), Str(ModeName(p.verifierMode)),
           Strings(p.verifierChecks), if p.allowSideEffects.Some? then Bool(p.allowSideEffects.value) else Null,
           Strings(p.sideEffects))
  }

  predicate IsSpace(c: char) {
    var n := c as int;
    || 0x9 <= n <= 0xD || n == 0x20 || n == 0xA0 || n == 0x1680 || 0x2000 <= n <= 0x200A
    || n == 0x2028 || n == 0x2029 || n == 0x202F || n == 0x205F || n == 0x3000 || n == 0xFEFF
  }

  predicate Trimmed(s: string) {
    s == "" || (!IsSpace(s[0]) && !IsSpace(s[|s| - 1]))
  }

  function Trim(s: string): (t: string)
    ensures Trimmed(t)
    ensures Trimmed(s) ==> t == s
    decreases |s|
  {
    if s == "" then ""
    else if IsSpace(s[0]) then Trim(s[1..])
    else if IsSpace(s[|s| - 1]) then Trim(s[..|s| - 1])
    else s
  }

  function TrimmedStrings(items: seq<Json>): (r: seq<string>)
    ensures forall i | 0 <= i < |r| :: Trimmed(r[i]) && r[i] != ""
  {
    if items == [] then []
    else (if items[0].Str? && Trim(items[0].s) != "" then [Trim(items[0].s)] else []) + TrimmedStrings(items[1..])
  }

  function StringArray(value: Json, fallback: seq<string>): seq<string> {
    if value.Arr? then TrimmedStrings(value.items) else fallback
  }

  function BoolOr(value: Json, fallback: bool): bool {
    if value.Bool? then value.b else fallback
  }

  function ModeOr(value: Json, fallback: VerifierMode): VerifierMode {
    if value == Str("none") then NoVerifier
    else if value == Str("required") then Required
    else if value == Str("required_before_side_effect") then BeforeSideEffect
    else fallback
  }

  /** What a stored policy means; fields that are missing or of another type fall back. */
  function Execution(stored: Stored, c: Context): Policy {
    var verifier, ms := BaseVerifier(c), TimeoutForVerb(c.verb);
    Policy(PositiveInteger(stored.maxAttempts, 1),
           NonNegativeInteger(stored.backoffMs, 500.0).Floor,
           BoolOr(stored.retryOnFailed, true),
           NonNegativeInteger(stored.maxRuntimeMs, ms),
           PositiveInteger(stored.maxRuntimeSeconds, MaxInt(1, Ceil(ms / 1000.0))),
           BoolOr(stored.requireVerification, VerificationRequired(verifier.mode, c.sideEffects)),
           ModeOr(stored.verifierMode, verifier.mode),
           StringArray(stored.verifierChecks, verifier.checks),
           if stored.allowSideEffects.Bool? then Some(stored.allowSideEffects.b) else None,
           StringArray(stored.sideEffects, c.sideEffects))
  }

  // ---------- what reading back guarantees ----------

  /** Whole numbers in range and clean lists. */
  predicate Normal(p: Policy) {
    && p.maxAttempts >= 1 && p.backoffMs >= 0 && p.maxRuntimeSeconds >= 1
    && p.maxRuntimeMs >= 0.0 && IsWhole(p.maxRuntimeMs)
    && Clean(p.verifierChecks) && Clean(p.sideEffects)
  }

  predicate Clean(items: seq<string>) {
    forall i | 0 <= i < |items| :: Trimmed(items[i]) && items[i] != ""
  }

  lemma {:induction false} UniqueChecksAreClean(checks: seq<string>)
    ensures Clean(UniqueChecks(checks))
    ensures forall x | x in checks && Trimmed(x) && x != "" :: x in UniqueChecks(checks)
  {
    if checks != [] {
      UniqueChecksAreClean(checks[..|checks| - 1]);
      assert checks == checks[..|checks| - 1] + [checks[|checks| - 1]];
    }
  }

  /** Every plan is checked for its artifact schema at least. */
  lemma BaseChecks(c: Context)
    ensures var checks := BaseVerifier(c).checks; Clean(checks) && REQUIRED_CHECK in checks
  {
    if c.action.Some? {
      var a := c.action.value;
      if a.family == "adapter" && a.subcommand == "invoke" && |a.args| >= 2 && (a.args[0], a.args[1]) in c.registry {
        UniqueChecksAreClean([REQUIRED_CHECK] + SupportedHints(c.registry[(a.args[0], a.args[1])].hints));
      }
    }
  }

  /** Whatever JSON is stored, the policy read back is normal. */
  lemma ExecutionIsNormal(stored: Stored, c: Context)
    requires Clean(c.sideEffects)
    ensures Normal(Execution(stored, c))
  {
    BaseChecks(c);
  }

  lemma {:induction false} CleanListsSurvive(items: seq<string>)
    requires Clean(items)
    ensures TrimmedStrings(Strings(items).items) == items
  {
    if items != [] {
      CleanListsSurvive(items[1..]);
      assert Strings(items).items[1..] == Strings(items[1..]).items;
      assert items == [items[0]] + items[1..];
    }
  }

  /** A normal policy survives being stored and read back, whatever the context has become. */
  lemma NormalPoliciesSurvive(p: Policy, c: Context)
    requires Normal(p)
    ensures Execution(Store(p), c) == p
  {
    CleanListsSurvive(p.verifierChecks);
    CleanListsSurvive(p.sideEffects);
  }

  /** Reading a stored policy, storing what was read and reading again changes nothing. */
  lemma ReadingTwiceIsReadingOnce(stored: Stored, c: Context)
    requires Clean(c.sideEffects)
    ensures Execution(Store(Execution(stored, c)), c) == Execution(stored, c)
  {
    ExecutionIsNormal(stored, c);
    NormalPoliciesSurvive(Execution(stored, c), c);
  }
}
