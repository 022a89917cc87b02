/** The rewrite of a work graph under an execution policy, and its laws. */
module PolicyRewrite {
  import opened Options
  import opened Numbers
  import opened ExecutionPolicy

  datatype Retry = Retry(maxAttempts: real, backoffMs: Option<real>, retryOnFailed: Option<bool>)

  datatype NodeVerifier = NodeVerifier(mode: VerifierMode, checks: Option<seq<string>>, config: Json)

  datatype Input = Input(kind: string, value: Json)

  /** `rest` stands for the fields the rewrite copies as they are. */
  datatype Node = Node(
    nodeId: string, dependencies: seq<string>, retry: Option<Retry>, verifier: NodeVerifier, inputs: seq<Input>,
    rest: Json)

  datatype Graph = Graph(budgets: Option<map<string, real>>, nodes: seq<Node>, rest: Json)

  // ---------- the rewrite ----------

  /** An input that runs a command line: a structured payload whose `cli` field is an object. */
  predicate RunsCli(input: Input) {
    input.kind == "structured_payload" && input.value.Obj? && "cli" in input.value.fields
        && input.value.fields["cli"].Obj?
  }

  function Cli(input: Input): map<string, Json>
    requires RunsCli(input)
  {
    input.value.fields["cli"].fields
  }

  function TimeoutField(input: Input): Json
    requires RunsCli(input)
  {
    if "timeoutMs" in Cli(input) then Cli(input)["timeoutMs"] else Null
  }

  function WithTimeout(input: Input, ms: real): Input
    requires RunsCli(input)
  {
    input.(value := Obj(input.value.fields["cli" := Obj(Cli(input)["timeoutMs" := Num(ms)])]))
  }

  function Clamp(field: Json, budget: real): real {
    Min(NonNegativeInteger(field, budget), budget)
  }

  function ApplyToInput(input: Input, p: Policy): Input {
    if RunsCli(input) then WithTimeout(input, Clamp(TimeoutField(input), p.maxRuntimeMs)) else input
  }

  function ApplyToInputs(inputs: seq<Input>, p: Policy): (r: seq<Input>)
    ensures |r| == |inputs| && forall i | 0 <= i < |inputs| :: r[i] == ApplyToInput(inputs[i], p)
  {
    seq(|inputs|, i requires 0 <= i < |inputs| => ApplyToInput(inputs[i], p))
  }

  function ApplyToVerifier(v: NodeVerifier, p: Policy): NodeVerifier {
    if !p.requireVerification || v.mode.Required? then v
    else
      var checks := if v.checks.Some? && v.checks.value != [] then v.checks.value else p.verifierChecks;
      v.(mode := Required, checks := Some(checks))
  }

  function RetryOf(p: Policy): Retry {
    Retry(p.maxAttempts as real, Some(p.backoffMs as real), Some(p.retryOnFailed))
  }

  function ApplyToNode(node: Node, p: Policy): Node {
    node.(retry := if node.retry.Some? then node.retry else Some(RetryOf(p)),
          verifier := ApplyToVerifier(node.verifier, p),
          inputs := ApplyToInputs(node.inputs, p))
  }

  function ApplyToNodes(nodes: seq<Node>, p: Policy): (r: seq<Node>)
    ensures |r| == |nodes| && forall i | 0 <= i < |nodes| :: r[i] == ApplyToNode(nodes[i], p)
  {
    seq(|nodes|, i requires 0 <= i < |nodes| => ApplyToNode(nodes[i], p))
  }

  function WithBudgets(budgets: map<string, real>, p: Policy): map<string, real> {
    var timed := budgets["maxRuntimeMs" := p.maxRuntimeMs];
    timed["maxAttempts" := p.maxAttempts as real]["backoffMs" := p.backoffMs as real]
  }

  function Apply(graph: Graph, p: Policy): Graph {
    graph.(budgets := Some(WithBudgets(if graph.budgets.Some? then graph.budgets.value else map[], p)),
           nodes := ApplyToNodes(graph.nodes, p))
  }

  /** Policies applied one after the other, the first one first. */
  function ApplyAll(graph: Graph, policies: seq<Policy>): Graph {
    if policies == [] then graph
    else Apply(ApplyAll(graph, policies[..|policies| - 1]), policies[|policies| - 1])
  }

  // ---------- twice is once ----------

  /** Budgets under which clamping twice is clamping once. */
  predicate Steady(budget: real) {
    budget <= 0.0 || IsWhole(budget)
  }

  lemma TimeoutStored(input: Input, ms: real)
    requires RunsCli(input)
    ensures RunsCli(WithTimeout(input, ms)) && TimeoutField(WithTimeout(input, ms)) == Num(ms)
  {
  }

  lemma LastTimeoutWins(input: Input, a: real, b: real)
    requires RunsCli(input)
    ensures WithTimeout(WithTimeout(input, a), b) == WithTimeout(input, b)
  {
    var once := WithTimeout(input, a);
    assert Cli(once)["timeoutMs" := Num(b)] == Cli(input)["timeoutMs" := Num(b)];
    assert once.value.fields["cli" := Obj(Cli(input)["timeoutMs" := Num(b)])]
      == input.value.fields["cli" := Obj(Cli(input)["timeoutMs" := Num(b)])];
  }

  lemma InputTwice(input: Input, p: Policy)
    requires Steady(p.maxRuntimeMs)
    ensures ApplyToInput(ApplyToInput(input, p), p) == ApplyToInput(input, p)
  {
    if RunsCli(input) {
      var ms := Clamp(TimeoutField(input), p.maxRuntimeMs);
      TimeoutStored(input, ms);
      LastTimeoutWins(input, ms, Clamp(Num(ms), p.maxRuntimeMs));
    }
  }

  lemma NodeTwice(node: Node, p: Policy)
    requires Steady(p.maxRuntimeMs)
    ensures ApplyToNode(ApplyToNode(node, p), p) == ApplyToNode(node, p)
  {
    forall i | 0 <= i < |node.inputs|
      ensures ApplyToInput(ApplyToInput(node.inputs[i], p), p) == ApplyToInput(node.inputs[i], p)
    {
      InputTwice(node.inputs[i], p);
    }
    assert ApplyToInputs(ApplyToInputs(node.inputs, p), p) == ApplyToInputs(node.inputs, p);
  }

  lemma GraphTwice(graph: Graph, p: Policy)
    requires Steady(p.maxRuntimeMs)
    ensures Apply(Apply(graph, p), p) == Apply(graph, p)
  {
    forall i | 0 <= i < |graph.nodes|
      ensures ApplyToNode(ApplyToNode(graph.nodes[i], p), p) == ApplyToNode(graph.nodes[i], p)
    {
      NodeTwice(graph.nodes[i], p);
    }
    assert ApplyToNodes(ApplyToNodes(graph.nodes, p), p) == ApplyToNodes(graph.nodes, p);
    var budgets := WithBudgets(if graph.budgets.Some? then graph.budgets.value else map[], p);
    assert WithBudgets(budgets, p) == budgets;
  }

  /** A graph of one node whose command line carries no timeout. */
  function OneCli(): Graph {
    var input := Input("structured_payload", Obj(map["cli" := Obj(map[])]));
    Graph(None, [Node("n", [], None, NodeVerifier(Required, None, Null), [input], Null)], Null)
  }

  lemma OneCliTwice(p: Policy)
    requires Apply(Apply(OneCli(), p), p) == Apply(OneCli(), p)
    ensures Steady(p.maxRuntimeMs)
  {
    var input, ms := OneCli().nodes[0].inputs[0], p.maxRuntimeMs;
    TimeoutStored(input, ms);
    var once := Apply(OneCli(), p).nodes[0].inputs[0];
    assert once == ApplyToInput(input, p) == WithTimeout(input, ms);
    var twice := Apply(Apply(OneCli(), p), p).nodes[0].inputs[0];
    assert twice == ApplyToInput(once, p) == WithTimeout(once, Clamp(Num(ms), ms));
    TimeoutStored(once, Clamp(Num(ms), ms));
  }

  /** Applying a policy twice equals applying it once, for all graphs, exactly when its runtime budget is a
      whole number of milliseconds or not positive. */
  lemma TwiceIsOnceExactlyWhen(p: Policy)
    ensures (forall graph :: Apply(Apply(graph, p), p) == Apply(graph, p)) <==> Steady(p.maxRuntimeMs)
  {
    if Steady(p.maxRuntimeMs) {
      forall graph ensures Apply(Apply(graph, p), p) == Apply(graph, p) {
        GraphTwice(graph, p);
      }
    } else if forall graph :: Apply(Apply(graph, p), p) == Apply(graph, p) {
      assert Apply(Apply(OneCli(), p), p) == Apply(OneCli(), p);
      OneCliTwice(p);
    }
  }

  /** The worker applies policies it read from the store; for those, twice is always once. */
  lemma StoredPolicyTwiceIsOnce(graph: Graph, stored: Stored, c: Context)
    requires Clean(c.sideEffects)
    ensures var p := Execution(stored, c); Apply(Apply(graph, p), p) == Apply(graph, p)
  {
    ExecutionIsNormal(stored, c);
    GraphTwice(graph, Execution(stored, c));
  }

  // ---------- many policies ----------

  /** The least of a limit and the policies' runtime budgets. */
  function Least(limit: real, policies: seq<Policy>): (r: real)
    ensures r <= limit && forall p | p in policies :: r <= p.maxRuntimeMs
    ensures r == limit || exists p :: p in policies && r == p.maxRuntimeMs
  {
    if policies == [] then limit
    else Min(Least(limit, policies[..|policies| - 1]), policies[|policies| - 1].maxRuntimeMs)
  }

  function ApplyAllToInput(input: Input, policies: seq<Policy>): Input {
    if policies == [] then input
    else ApplyToInput(ApplyAllToInput(input, policies[..|policies| - 1]), policies[|policies| - 1])
  }

  lemma {:induction false} NodesAndInputs(graph: Graph, policies: seq<Policy>)
    ensures var r := ApplyAll(graph, policies);
      && |r.nodes| == |graph.nodes| && r.rest == graph.rest
      && forall n | 0 <= n < |graph.nodes| ::
           |r.nodes[n].inputs| == |graph.nodes[n].inputs|
           && forall i | 0 <= i < |graph.nodes[n].inputs| ::
               r.nodes[n].inputs[i] == ApplyAllToInput(graph.nodes[n].inputs[i], policies)
  {
    if policies != [] {
      NodesAndInputs(graph, policies[..|policies| - 1]);
    }
  }

  /** What clamping starts from: a numeric timeout floored and not negative, anything else the first budget. */
  function Initial(timeout: Option<Json>, budget: real): real {
    match timeout
    case Some(Num(x)) => if x <= 0.0 then 0.0 else x.Floor as real
    case _ => budget
  }

  lemma {:induction false} InputUnderAll(input: Input, policies: seq<Policy>)
    requires RunsCli(input) && policies != []
    requires forall p | p in policies :: p.maxRuntimeMs >= 0.0 && IsWhole(p.maxRuntimeMs)
    ensures ApplyAllToInput(input, policies)
         == WithTimeout(input, Least(NonNegativeInteger(TimeoutField(input), policies[0].maxRuntimeMs), policies))
  {
    var init, last := policies[..|policies| - 1], policies[|policies| - 1];
    var start := NonNegativeInteger(TimeoutField(input), policies[0].maxRuntimeMs);
    if init == [] {
      assert ApplyAllToInput(input, policies) == ApplyToInput(input, last);
    } else {
      InputUnderAll(input, init);
      var ms := Least(start, init);
      assert policies[0] in policies;
      assert IsWhole(ms) && ms >= 0.0;
      TimeoutStored(input, ms);
      LastTimeoutWins(input, ms, Min(ms, last.maxRuntimeMs));
    }
  }

  /** A structured payload with these fields, among them a command line with those. */
  predicate IsCli(input: Input, fields: map<string, Json>, cli: map<string, Json>) {
    input == Input("structured_payload", Obj(fields)) && "cli" in fields && fields["cli"] == Obj(cli)
  }

  /** After any sequence of policies a command line's timeout is the least of all the budgets and of its
      floored, non-negative original if that was a number; every other field of the input is as it was. */
  lemma TimeoutIsLeastBudget(
      graph: Graph, policies: seq<Policy>, n: nat, i: nat, fields: map<string, Json>, cli: map<string, Json>)
    requires policies != [] && forall p | p in policies :: Normal(p)
    requires n < |graph.nodes| && i < |graph.nodes[n].inputs| && IsCli(graph.nodes[n].inputs[i], fields, cli)
    ensures var r := ApplyAll(graph, policies);
      var timeout := if "timeoutMs" in cli then Some(cli["timeoutMs"]) else None;
      var ms := Least(Initial(timeout, policies[0].maxRuntimeMs), policies);
      && n < |r.nodes| && i < |r.nodes[n].inputs|
      && IsCli(r.nodes[n].inputs[i], fields["cli" := Obj(cli["timeoutMs" := Num(ms)])], cli["timeoutMs" := Num(ms)])
  {
    NodesAndInputs(graph, policies);
    InputUnderAll(graph.nodes[n].inputs[i], policies);
  }

  /** Inputs that run no command line come through untouched. */
  lemma OtherInputsUntouched(graph: Graph, policies: seq<Policy>, n: nat, i: nat)
    requires n < |graph.nodes| && i < |graph.nodes[n].inputs|
    requires forall fields, cli :: !IsCli(graph.nodes[n].inputs[i], fields, cli)
    ensures var r := ApplyAll(graph, policies);
      n < |r.nodes| && i < |r.nodes[n].inputs| && r.nodes[n].inputs[i] == graph.nodes[n].inputs[i]
  {
    var input := graph.nodes[n].inputs[i];
    NodesAndInputs(graph, policies);
    if RunsCli(input) {
      assert IsCli(input, input.value.fields, Cli(input));
    }
    NoCliUntouched(input, policies);
  }

  lemma {:induction false} NoCliUntouched(input: Input, policies: seq<Policy>)
    requires !RunsCli(input)
    ensures ApplyAllToInput(input, policies) == input
  {
    if policies != [] {
      NoCliUntouched(input, policies[..|policies| - 1]);
    }
  }

  /** The first of the policies to require verification. */
  predicate FirstRequiring(policies: seq<Policy>, k: int) {
    0 <= k < |policies| && policies[k].requireVerification && forall j | 0 <= j < k :: !policies[j].requireVerification
  }

  /** A retry policy stays; a missing one has attempts, backoff and retry-on-failure of the first policy. */
  predicate RetryUnderAll(before: Option<Retry>, after: Option<Retry>, policies: seq<Policy>) {
    if before.Some? || policies == [] then after == before
    else
      && after.Some?
      && after.value.maxAttempts == policies[0].maxAttempts as real
      && after.value.backoffMs == Some(policies[0].backoffMs as real)
      && after.value.retryOnFailed == Some(policies[0].retryOnFailed)
  }

  /** A verifier stays when it is required already or no policy asks; otherwise it becomes required, with its
      own checks or else those of the first policy that asks. */
  ghost predicate VerifierUnderAll(before: NodeVerifier, after: NodeVerifier, policies: seq<Policy>) {
    if before.mode == Required || forall p | p in policies :: !p.requireVerification then after == before
    else
      && after.mode == Required && after.config == before.config
      && after.checks.Some?
      && if before.checks.Some? && before.checks.value != [] then after.checks == before.checks
         else exists k :: FirstRequiring(policies, k) && after.checks.value == policies[k].verifierChecks
  }

  /** What the node-level parts of a graph become under any sequence of policies. */
  ghost predicate NodeUnderAll(before: Node, after: Node, policies: seq<Policy>) {
    && after.nodeId == before.nodeId && after.dependencies == before.dependencies && after.rest == before.rest
    && RetryUnderAll(before.retry, after.retry, policies)
    && VerifierUnderAll(before.verifier, after.verifier, policies)
  }

  lemma VerifierUnderOneMore(before: NodeVerifier, mid: NodeVerifier, init: seq<Policy>, last: Policy)
    requires VerifierUnderAll(before, mid, init)
    ensures VerifierUnderAll(before, ApplyToVerifier(mid, last), init + [last])
  {
    var policies := init + [last];
    assert policies[|init|] == last && forall j | 0 <= j < |init| :: policies[j] == init[j];
    if forall p | p in init :: !p.requireVerification {
      assert last.requireVerification ==> FirstRequiring(policies, |init|);
    } else {
      var p :| p in init && p.requireVerification;
      assert p in policies;
      assert forall k | FirstRequiring(init, k) :: FirstRequiring(policies, k);
    }
  }

  lemma NodeUnderOneMore(before: Node, mid: Node, init: seq<Policy>, last: Policy)
    requires NodeUnderAll(before, mid, init)
    ensures NodeUnderAll(before, ApplyToNode(mid, last), init + [last])
  {
    assert init != [] ==> (init + [last])[0] == init[0];
    VerifierUnderOneMore(before.verifier, mid.verifier, init, last);
  }

  /** Ids, dependencies and existing retry policies stay, a missing retry policy comes from the first policy,
      and verification becomes required exactly when some policy requires it and is never weakened. */
  lemma {:induction false} NodesUnderAll(graph: Graph, policies: seq<Policy>, n: nat)
    requires n < |graph.nodes|
    ensures n < |ApplyAll(graph, policies).nodes| == |graph.nodes|
    ensures NodeUnderAll(graph.nodes[n], ApplyAll(graph, policies).nodes[n], policies)
  {
    if policies != [] {
      var init, last := policies[..|policies| - 1], policies[|policies| - 1];
      NodesUnderAll(graph, init, n);
      NodeUnderOneMore(graph.nodes[n], ApplyAll(graph, init).nodes[n], init, last);
      assert policies == init + [last];
    }
  }

  /** The graph's runtime, attempt and backoff budgets are those of the last policy, its other budgets and
      everything outside budgets and nodes stay. */
  lemma {:induction false} BudgetsUnderAll(graph: Graph, policies: seq<Policy>)
    requires policies != []
    ensures var r, last := ApplyAll(graph, policies), policies[|policies| - 1];
      var was := if graph.budgets.Some? then graph.budgets.value else map[];
      && r.rest == graph.rest && r.budgets.Some?
      && r.budgets.value.Keys == was.Keys + {"maxRuntimeMs", "maxAttempts", "backoffMs"}
      && r.budgets.value["maxRuntimeMs"] == last.maxRuntimeMs
      && r.budgets.value["maxAttempts"] == last.maxAttempts as real
      && r.budgets.value["backoffMs"] == last.backoffMs as real
      && forall name | name in was && name !in {"maxRuntimeMs", "maxAttempts", "backoffMs"} ::
           r.budgets.value[name] == was[name]
  {
    if |policies| > 1 {
      BudgetsUnderAll(graph, policies[..|policies| - 1]);
    }
  }

  /** The order of policies does not matter to any timeout. */
  lemma TimeoutsIgnoreOrder(graph: Graph, a: seq<Policy>, b: seq<Policy>, n: nat, i: nat)
    requires a != [] && multiset(a) == multiset(b) && forall p | p in a :: Normal(p)
    requires n < |graph.nodes| && i < |graph.nodes[n].inputs|
    ensures n < |ApplyAll(graph, a).nodes| && i < |ApplyAll(graph, a).nodes[n].inputs|
    ensures n < |ApplyAll(graph, b).nodes| && i < |ApplyAll(graph, b).nodes[n].inputs|
    ensures ApplyAll(graph, a).nodes[n].inputs[i] == ApplyAll(graph, b).nodes[n].inputs[i]
  {
    var input := graph.nodes[n].inputs[i];
    SameMembers(a, b);
    NodesAndInputs(graph, a);
    NodesAndInputs(graph, b);
    if RunsCli(input) {
      InputUnderAll(input, a);
      InputUnderAll(input, b);
      var field := TimeoutField(input);
      LeastIgnoresOrder(
        NonNegativeInteger(field, a[0].maxRuntimeMs), NonNegativeInteger(field, b[0].maxRuntimeMs), a, b);
    } else {
      NoCliUntouched(input, a);
      NoCliUntouched(input, b);
    }
  }

  lemma SameMembers(a: seq<Policy>, b: seq<Policy>)
    requires multiset(a) == multiset(b)
    ensures (forall p :: p in a <==> p in b) && (a != [] ==> b != [])
  {
    forall p ensures p in a <==> p in b {
      assert p in a <==> p in multiset(a);
      assert p in b <==> p in multiset(b);
    }
    if a != [] {
      assert a[0] in a;
    }
  }

  /** A limit that is among the budgets is no limit of its own. */
  lemma LeastIgnoresOrder(x: real, y: real, a: seq<Policy>, b: seq<Policy>)
    requires a != [] && b != [] && forall p :: p in a <==> p in b
    requires x == y || (x == a[0].maxRuntimeMs && y == b[0].maxRuntimeMs)
    ensures Least(x, a) == Least(y, b)
  {
    assert a[0] in a && b[0] in b && a[0] in b && b[0] in a;
  }
}
