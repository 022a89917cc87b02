/** The safety check a work graph must pass before it runs unattended. */
module GhostSafety {
  import opened Options

  datatype Node = Node(nodeId: string, approvalClass: int, sideEffects: seq<string>, unverified: bool)

  datatype Graph = Graph(defaultClass: int, nodes: seq<Node>)

  datatype Code = UnsafeApprovalPolicy | ClassTooHigh | DangerousSideEffect

  datatype Rejection = Rejection(code: Code, nodeId: Option<string>)

  const MAX_CLASS := 1

  const DANGEROUS: set<string> :=
    {"auth_change", "billable_action", "deploy", "destructive_action", "external_message", "financial_action"}

  predicate SharedWrite(node: Node) {
    "repo_write" in node.sideEffects || "shared_write" in node.sideEffects || "pr_open" in node.sideEffects
  }

  function EffectRejections(node: Node, count: nat): seq<Rejection>
    requires count <= |node.sideEffects|
  {
    if count == 0 then []
    else EffectRejections(node, count - 1)
         + (if node.sideEffects[count - 1] in DANGEROUS then [Rejection(DangerousSideEffect, Some(node.nodeId))]
            else [])
  }

  function NodeRejections(node: Node): seq<Rejection> {
    (if node.approvalClass > MAX_CLASS then [Rejection(ClassTooHigh, Some(node.nodeId))] else [])
    + EffectRejections(node, |node.sideEffects|)
  }

  function Warned(node: Node): bool {
    SharedWrite(node) && node.unverified
  }

  function NodesRejections(nodes: seq<Node>): seq<Rejection> {
    if nodes == [] then [] else NodesRejections(nodes[..|nodes| - 1]) + NodeRejections(nodes[|nodes| - 1])
  }

  function NodesWarnings(nodes: seq<Node>): seq<string> {
    if nodes == [] then []
    else NodesWarnings(nodes[..|nodes| - 1]) + (if Warned(nodes[|nodes| - 1]) then [nodes[|nodes| - 1].nodeId] else [])
  }

  function Rejections(graph: Graph): seq<Rejection> {
    (if graph.defaultClass > MAX_CLASS then [Rejection(UnsafeApprovalPolicy, None)] else [])
        + NodesRejections(graph.nodes)
  }

  /** The two arrays every check pushes into. */
  class Report {
    var rejections: seq<Rejection>
    var warnings: seq<string>

    constructor ()
      ensures rejections == [] && warnings == []
    {
      rejections, warnings := [], [];
    }

    method AssessNode(node: Node)
      modifies this
      ensures rejections == old(rejections) + NodeRejections(node)
      ensures warnings == old(warnings) + (if Warned(node) then [node.nodeId] else [])
    {
      ghost var before := rejections;
      if node.approvalClass > MAX_CLASS {
        rejections := rejections + [Rejection(ClassTooHigh, Some(node.nodeId))];
      }
      ghost var classed := rejections;
      for i := 0 to |node.sideEffects|
        invariant rejections == classed + EffectRejections(node, i)
        invariant warnings == old(warnings)
      {
        if node.sideEffects[i] in DANGEROUS {
          rejections := rejections + [Rejection(DangerousSideEffect, Some(node.nodeId))];
        }
      }
      assert rejections == before + NodeRejections(node);
      if SharedWrite(node) && node.unverified {
        warnings := warnings + [node.nodeId];
      }
    }
  }

  lemma OneMoreNode(policy: seq<Rejection>, nodes: seq<Node>, i: nat)
    requires i < |nodes|
    ensures policy + NodesRejections(nodes[..i + 1]) == policy + NodesRejections(nodes[..i]) + NodeRejections(nodes[i])
    ensures NodesWarnings(nodes[..i + 1])
         == NodesWarnings(nodes[..i]) + (if Warned(nodes[i]) then [nodes[i].nodeId] else [])
  {
    assert nodes[..i + 1][..i] == nodes[..i];
  }

  method AssessGraph(graph: Graph) returns (safe: bool, rejections: seq<Rejection>, warnings: seq<string>)
    ensures rejections == Rejections(graph) && warnings == NodesWarnings(graph.nodes)
    ensures safe <==> Safe(graph)
  {
    var report := new Report();
    if graph.defaultClass > MAX_CLASS {
      report.rejections := report.rejections + [Rejection(UnsafeApprovalPolicy, None)];
    }
    ghost var policy := report.rejections;
    for i := 0 to |graph.nodes|
      invariant report.rejections == policy + NodesRejections(graph.nodes[..i])
      invariant report.warnings == NodesWarnings(graph.nodes[..i])
    {
      OneMoreNode(policy, graph.nodes, i);
      report.AssessNode(graph.nodes[i]);
    }
    assert graph.nodes[..|graph.nodes|] == graph.nodes;
    rejections, warnings := report.rejections, report.warnings;
    safe := |rejections| == 0;
    assert safe <==> Safe(graph) by { NothingRejectedExactlyWhen(graph); }
  }

  /** Low approval classes throughout, and no dangerous side effect on any node. */
  predicate Safe(graph: Graph) {
    && graph.defaultClass <= MAX_CLASS
    && forall i | 0 <= i < |graph.nodes| :: SafeNode(graph.nodes[i])
  }

  predicate SafeNode(node: Node) {
    node.approvalClass <= MAX_CLASS && forall effect | effect in node.sideEffects :: effect !in DANGEROUS
  }

  lemma {:induction false} EffectsClearExactlyWhen(node: Node, count: nat)
    requires count <= |node.sideEffects|
    ensures EffectRejections(node, count) == [] <==> forall i | 0 <= i < count :: node.sideEffects[i] !in DANGEROUS
  {
    if count > 0 {
      EffectsClearExactlyWhen(node, count - 1);
    }
  }

  lemma LastNode(nodes: seq<Node>)
    requires nodes != []
    ensures var n := |nodes| - 1;
      (forall i | 0 <= i < |nodes| :: SafeNode(nodes[i]))
      <==> (forall i | 0 <= i < n :: SafeNode(nodes[..n][i])) && SafeNode(nodes[n])
  {
    var n := |nodes| - 1;
    assert forall i | 0 <= i < n :: nodes[..n][i] == nodes[i];
  }

  lemma {:induction false} NodesClearExactlyWhen(nodes: seq<Node>)
    ensures NodesRejections(nodes) == [] <==> forall i | 0 <= i < |nodes| :: SafeNode(nodes[i])
  {
    if nodes != [] {
      var n := |nodes| - 1;
      NodesClearExactlyWhen(nodes[..n]);
      EffectsClearExactlyWhen(nodes[n], |nodes[n].sideEffects|);
      LastNode(nodes);
    }
  }

  /** Nothing is rejected exactly when the graph is safe. */
  lemma NothingRejectedExactlyWhen(graph: Graph)
    ensures Rejections(graph) == [] <==> Safe(graph)
  {
    NodesClearExactlyWhen(graph.nodes);
  }

  // ---------- what is reported ----------

  /** An effect that nobody may cause unattended. */
  predicate Refused(effect: string) {
    || effect == "auth_change" || effect == "billable_action" || effect == "deploy"
    || effect == "destructive_action" || effect == "external_message" || effect == "financial_action"
  }

  /** A graph is safe exactly when its default class and that of each node are at most one and no node has a
      refused effect. */
  lemma SafeExactlyWhen(graph: Graph)
    ensures Safe(graph) <==>
      && graph.defaultClass <= 1
      && forall node | node in graph.nodes ::
           node.approvalClass <= 1 && forall effect | effect in node.sideEffects :: !Refused(effect)
  {
    assert forall i | 0 <= i < |graph.nodes| :: graph.nodes[i] in graph.nodes;
  }

  /** What a rejection is about. */
  predicate Grounds(r: Rejection, node: Node) {
    && r.nodeId == Some(node.nodeId)
    && match r.code
       case ClassTooHigh => node.approvalClass > 1
       case DangerousSideEffect => exists effect :: effect in node.sideEffects && Refused(effect)
       case UnsafeApprovalPolicy => false
  }

  lemma {:induction false} EffectGrounds(node: Node, count: nat, r: Rejection)
    requires count <= |node.sideEffects|
    ensures r in EffectRejections(node, count)
      <==> r == Rejection(DangerousSideEffect, Some(node.nodeId))
           && exists i :: 0 <= i < count && Refused(node.sideEffects[i])
  {
    if count > 0 {
      EffectGrounds(node, count - 1, r);
    }
  }

  lemma NodeGrounds(node: Node, r: Rejection)
    ensures r in NodeRejections(node) <==> Grounds(r, node)
  {
    EffectGrounds(node, |node.sideEffects|, r);
    assert (exists effect :: effect in node.sideEffects && Refused(effect))
      <==> exists i :: 0 <= i < |node.sideEffects| && Refused(node.sideEffects[i]);
  }

  lemma {:induction false} NodesGrounds(nodes: seq<Node>, r: Rejection)
    ensures r in NodesRejections(nodes) <==> exists node :: node in nodes && Grounds(r, node)
  {
    if nodes != [] {
      var init, last := nodes[..|nodes| - 1], nodes[|nodes| - 1];
      NodesGrounds(init, r);
      NodeGrounds(last, r);
      assert nodes == init + [last];
    }
  }

  /** Exactly what is wrong is reported: the default class of the graph, and of each node its class and that it
      has a refused effect. */
  lemma RejectedExactlyWhen(graph: Graph, r: Rejection)
    ensures r in Rejections(graph)
      <==> || (r == Rejection(UnsafeApprovalPolicy, None) && graph.defaultClass > 1)
           || exists node :: node in graph.nodes && Grounds(r, node)
  {
    NodesGrounds(graph.nodes, r);
  }

  /** Exactly the nodes that write where others see it without a verifier are warned about. */
  lemma {:induction false} WarnedExactlyWhen(nodes: seq<Node>, id: string)
    ensures id in NodesWarnings(nodes)
      <==> exists node :: node in nodes && node.nodeId == id && node.unverified
             && exists effect :: effect in node.sideEffects && effect in ["repo_write", "shared_write", "pr_open"]
  {
    if nodes != [] {
      var init, last := nodes[..|nodes| - 1], nodes[|nodes| - 1];
      WarnedExactlyWhen(init, id);
      assert nodes == init + [last];
      assert SharedWrite(last)
        <==> exists effect :: effect in last.sideEffects && effect in ["repo_write", "shared_write", "pr_open"];
    }
  }
}
