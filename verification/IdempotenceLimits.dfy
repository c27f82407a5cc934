/** Exactly which small plans are idempotent: the hypotheses of PlanIdempotent are needed. */
module IdempotenceLimits {
  import opened Prelude
  import opened Values
  import opened Domain
  import opened Filters
  import opened Cypher
  import opened Upsert
  import opened Invariants
  import opened PlanInvariants
  import opened Idempotence
  import opened PlanIdempotence

  /** From every graph, a second application after a successful first one only skips. */
  ghost predicate IdempotentPlan(env: Env, plan: MutationPlan) {
    forall tx: Tx, again: nat :: ApplyPlan(env, tx, plan).Ok? ==> SecondRunSkips(env, tx, plan, again)
  }

  ghost predicate SecondRunSkips(env: Env, tx: Tx, plan: MutationPlan, again: nat)
    requires ApplyPlan(env, tx, plan).Ok?
  {
    var g := ApplyPlan(env, tx, plan).value.0.graph;
    OnlySkips(ApplyPlan(env, Tx(g, again), plan), g, |plan.nodes|, TotalFanout(g.nodes, plan.relationships))
  }

  lemma ReapplicableIsIdempotent(env: Env, plan: MutationPlan)
    requires Reapplicable(env, plan)
    ensures IdempotentPlan(env, plan)
  {
    hide Reapplicable, ApplyPlan, OnlySkips, TotalFanout;
    forall tx: Tx, again: nat | ApplyPlan(env, tx, plan).Ok?
      ensures SecondRunSkips(env, tx, plan, again)
    {
      PlanIdempotent(env, tx, plan, again);
    }
  }

  const EMPTY: Graph := Graph(map[], map[])

  function NodePlan(nodes: seq<GraphNode>): MutationPlan {
    MutationPlan(nodes, [])
  }

  lemma NodePlanUnfold(env: Env, tx: Tx, nodes: seq<GraphNode>)
    ensures ApplyPlan(env, tx, NodePlan(nodes)).Ok? <==> ApplyNodes(env, tx, nodes).Ok?
    ensures ApplyNodes(env, tx, nodes).Ok? ==>
      ApplyPlan(env, tx, NodePlan(nodes)).value == ApplyNodes(env, tx, nodes).value
    ensures ApplyNodes(env, tx, nodes).Err? ==>
      ApplyPlan(env, tx, NodePlan(nodes)).error == ApplyNodes(env, tx, nodes).error
  {
    hide ApplyNodes;
    assert forall t: Totals :: Plus(t, Zero()) == t;
  }

  lemma OneNodeUnfold(env: Env, tx: Tx, node: GraphNode)
    ensures ApplyNodes(env, tx, [node]) ==
      match ApplyNode(env, tx, node)
      case Err(e) => Err(e)
      case Ok((after, action)) => Ok((after, WithNode(Zero(), action)))
  {
  }

  /* ----- one node ----- */

  lemma CreatedFromEmpty(env: Env, node: GraphNode)
    requires PlannedNode(node) && ValidLabels(node.types) && !node.policy.Unknown?
    ensures ApplyNode(env, Tx(EMPTY, 0), node) == Ok((Tx(NodeCreated(EMPTY, node, env.clock(0)), 1), Created))
    ensures var h := NodeCreated(EMPTY, node, env.clock(0));
      |NodeMatches(h, node)| == 1 && forall id :: id in NodeMatches(h, node) ==>
        h.nodes[id].props == MergeProps(map[NAME := Text(node.name)], CreationProps(node, env.clock(0)))
  {
    hide MergeProps, CreationProps, PlannedNode;
    var h, id := NodeCreated(EMPTY, node, env.clock(0)), FreshId(EMPTY.nodes.Keys);
    CreatedNodeProps(EMPTY, node, env.clock(0));
    assert NodeMatches(EMPTY, node) == {};
    assert NodeMatches(h, node) == {id};
  }

  /** A second run over a freshly created node skips it exactly when the policy says so. */
  lemma SecondRunFromEmpty(env: Env, node: GraphNode)
    requires PlannedNode(node) && ValidLabels(node.types) && !node.policy.Unknown?
    requires !(node.policy.Create? || (node.policy.MergeAtChange? && Settled(ManagedNodeProps(node))))
    ensures var h := NodeCreated(EMPTY, node, env.clock(0));
      ApplyNode(env, Tx(h, 1), node).Ok? && ApplyNode(env, Tx(h, 1), node).value.1 == Updated
  {
    hide CreationProps, PlannedNode, Settled, ShouldUpdate, ManagedNodeProps, NodeCreated;
    CreatedFromEmpty(env, node);
    if node.policy.MergeAtChange? {
      var h := NodeCreated(EMPTY, node, env.clock(0));
      var id := Only(NodeMatches(h, node));
      assert id in NodeMatches(h, node);
      UnsettledAlwaysDiffers(h.nodes[id].props, ManagedNodeProps(node));
    }
  }

  /**
   * A plan of one node is idempotent if and only if its policy is create, or it is
   * merge_at_change and no compared property is null or contains NaN.
   */
  lemma OneNodeIdempotentExactly(env: Env, node: GraphNode)
    requires PlannedNode(node) && ValidLabels(node.types) && !node.policy.Unknown?
    ensures IdempotentPlan(env, NodePlan([node]))
      <==> node.policy.Create? || (node.policy.MergeAtChange? && Settled(ManagedNodeProps(node)))
  {
    var plan := NodePlan([node]);
    if node.policy.Create? || (node.policy.MergeAtChange? && Settled(ManagedNodeProps(node))) {
      ReapplicableIsIdempotent(env, plan);
    } else {
      OneNodeNotIdempotent(env, node);
    }
  }

  lemma OneNodeNotIdempotent(env: Env, node: GraphNode)
    requires PlannedNode(node) && ValidLabels(node.types) && !node.policy.Unknown?
    requires !(node.policy.Create? || (node.policy.MergeAtChange? && Settled(ManagedNodeProps(node))))
    ensures !IdempotentPlan(env, NodePlan([node]))
  {
    hide ApplyPlan, ApplyNodes, ApplyNode, PlannedNode, NodeCreated, NodeMatches, TotalFanout;
    var plan, tx := NodePlan([node]), Tx(EMPTY, 0);
    var h := NodeCreated(EMPTY, node, env.clock(0));
    CreatedFromEmpty(env, node);
    SecondRunFromEmpty(env, node);
    OneNodeUnfold(env, tx, node);
    OneNodeUnfold(env, Tx(h, 1), node);
    NodePlanUnfold(env, tx, [node]);
    NodePlanUnfold(env, Tx(h, 1), [node]);
    assert !SecondRunSkips(env, tx, plan, 1);
  }

  /* ----- two nodes ----- */

  lemma TwoNodesUnfold(env: Env, tx: Tx, a: GraphNode, b: GraphNode)
    ensures ApplyNodes(env, tx, [a, b]) ==
      match ApplyNode(env, tx, a)
      case Err(e) => Err(e)
      case Ok((middle, first)) =>
        match ApplyNode(env, middle, b)
        case Err(e) => Err(e)
        case Ok((after, second)) => Ok((after, WithNode(WithNode(Zero(), first), second)))
  {
    hide ApplyNode;
    assert [a, b][..1] == [a];
    OneNodeUnfold(env, tx, a);
  }

  /** Narrow labels first, wide labels second: both are created, then the narrow query is ambiguous. */
  lemma GrowingLabelsBecomeAmbiguous(env: Env, a: GraphNode, b: GraphNode, again: nat)
    requires CalmNode(a) && CalmNode(b) && ValidLabels(a.types) && ValidLabels(b.types)
    requires a.name == b.name && LabelSet(a.types) < LabelSet(b.types)
    ensures ApplyNodes(env, Tx(EMPTY, 0), [a, b]).Ok?
    ensures ApplyNodes(env, Tx(ApplyNodes(env, Tx(EMPTY, 0), [a, b]).value.0.graph, again), [a, b]) == Err(AmbiguousNodeMatch)
  {
    hide MergeProps, CreationProps, PlannedNode, Settled, ManagedNodeProps;
    var tx := Tx(EMPTY, 0);
    CreatedFromEmpty(env, a);
    var h := NodeCreated(EMPTY, a, env.clock(0));
    CreatedNodeProps(EMPTY, a, env.clock(0));
    assert NodeMatches(h, b) == {};
    var k := NodeCreated(h, b, env.clock(1));
    CreatedNodeProps(h, b, env.clock(1));
    TwoNodesUnfold(env, tx, a, b);
    assert ApplyNodes(env, tx, [a, b]).value.0.graph == k;
    var i, j := FreshId(EMPTY.nodes.Keys), FreshId(h.nodes.Keys);
    assert i in h.nodes && i != j;
    assert {i, j} <= NodeMatches(k, a);
    assert |NodeMatches(k, a)| > 1 by {
      assert |NodeMatches(k, a) - {i, j}| == |NodeMatches(k, a)| - 2;
    }
    TwoNodesUnfold(env, Tx(k, again), a, b);
  }

  /** One node that both plan nodes match, and nothing that they compare. */
  function Shared(a: GraphNode, b: GraphNode): Graph {
    Graph(map[0 := Node(LabelSet(a.types) + LabelSet(b.types), map[NAME := Text(a.name)])], map[])
  }

  lemma SharedMatches(a: GraphNode, b: GraphNode)
    requires a.name == b.name
    ensures NodeMatches(Shared(a, b), a) == {0} && NodeMatches(Shared(a, b), b) == {0}
  {
  }

  lemma OnlyZero()
    ensures Only({0}) == 0
  {
    var only := Only({0});
    assert only in {0};
  }

  /** A compared value that is missing or different is written. */
  lemma WritesKey(env: Env, tx: Tx, node: GraphNode, k: string)
    requires CalmNode(node) && node.policy.MergeAtChange? && ValidLabels(node.types)
    requires NodeMatches(tx.graph, node) == {0} && k in ManagedNodeProps(node)
    requires Differs(tx.graph.nodes[0].props, ManagedNodeProps(node), k)
    ensures ApplyNode(env, tx, node) == Ok((Tx(NodeUpdated(tx.graph, node, env.clock(tx.tick)), tx.tick + 1), Updated))
    ensures var h := NodeUpdated(tx.graph, node, env.clock(tx.tick));
      0 in h.nodes && k in h.nodes[0].props && h.nodes[0].props[k] == node.props[k]
  {
    hide NodeUpdated, UpdateProps, PlannedNode;
    OnlyZero();
    GivenNodeProps(node, env.clock(tx.tick));
    UpdatedAt(tx.graph, node, env.clock(tx.tick), k);
  }

  lemma UpdatedAt(g: Graph, node: GraphNode, now: int, k: string)
    requires NodeMatches(g, node) == {0} && k in UpdateProps(node, now) && UpdateProps(node, now)[k] != Null
    ensures var h := NodeUpdated(g, node, now); 0 in h.nodes && k in h.nodes[0].props && h.nodes[0].props[k] == UpdateProps(node, now)[k]
  {
    hide UpdateProps;
    assert 0 in NodeMatches(g, node);
  }

  /** Two nodes that contradict each other overwrite each other again and again. */
  lemma DisagreeingNodesNeverSettle(env: Env, a: GraphNode, b: GraphNode)
    requires CalmNode(a) && CalmNode(b) && ValidLabels(a.types) && ValidLabels(b.types) && a.name == b.name
    requires a.policy.MergeAtChange? && b.policy.MergeAtChange? && !Agree(ManagedNodeProps(a), ManagedNodeProps(b))
    ensures !IdempotentPlan(env, NodePlan([a, b]))
  {
    hide NodeUpdated, NodeMatches, CalmNode, ApplyNode, ApplyNodes, ApplyPlan, TotalFanout, Shared, Equal;
    var k :| k in ManagedNodeProps(a) && k in ManagedNodeProps(b) && !Equal(ManagedNodeProps(b)[k], ManagedNodeProps(a)[k]);
    var plan, tx := NodePlan([a, b]), Tx(Shared(a, b), 0);
    SharedMatches(a, b);
    FirstIsMissing(a, b, k);
    EqualIsEquivalence(a.props[k], b.props[k], a.props[k]);
    WritesKey(env, tx, a, k);
    var m := ApplyNode(env, tx, a).value.0;
    MatchesStay(tx.graph, a, env.clock(0), a, b);
    WritesKey(env, m, b, k);
    var after := ApplyNode(env, m, b).value.0;
    MatchesStay(m.graph, b, env.clock(1), a, b);
    WritesKey(env, Tx(after.graph, 0), a, k);
    TwoNodesUnfold(env, tx, a, b);
    TwoNodesUnfold(env, Tx(after.graph, 0), a, b);
    NodePlanUnfold(env, tx, [a, b]);
    NodePlanUnfold(env, Tx(after.graph, 0), [a, b]);
    assert !SecondRunSkips(env, tx, plan, 0);
  }

  lemma MatchesStay(g: Graph, updated: GraphNode, now: int, a: GraphNode, b: GraphNode)
    requires CalmNode(updated)
    ensures NodeMatches(NodeUpdated(g, updated, now), a) == NodeMatches(g, a)
    ensures NodeMatches(NodeUpdated(g, updated, now), b) == NodeMatches(g, b)
  {
    hide NodeUpdated, NodeMatches, PlannedNode;
    UpdateKeepsMatches(g, updated, now, a);
    UpdateKeepsMatches(g, updated, now, b);
  }

  lemma FirstIsMissing(a: GraphNode, b: GraphNode, k: string)
    requires CalmNode(a) && CalmNode(b) && a.name == b.name
    requires k in ManagedNodeProps(a) && k in ManagedNodeProps(b) && !Equal(ManagedNodeProps(b)[k], ManagedNodeProps(a)[k])
    ensures Differs(Shared(a, b).nodes[0].props, ManagedNodeProps(a), k)
    ensures ManagedNodeProps(a)[k] == a.props[k] && ManagedNodeProps(b)[k] == b.props[k]
  {
    if k == NAME {
      EqualIsEquivalence(Text(a.name), Text(a.name), Text(a.name));
    }
  }

  /** Two nodes form an idempotent plan if and only if the second is compatible with the first. */
  lemma TwoNodesIdempotentExactly(env: Env, a: GraphNode, b: GraphNode)
    requires CalmNode(a) && CalmNode(b) && ValidLabels(a.types) && ValidLabels(b.types)
    ensures IdempotentPlan(env, NodePlan([a, b])) <==> Compatible(a, b)
  {
    hide CalmNode, Agree, ManagedNodeProps, ApplyPlan, ApplyNodes, SecondRunSkips, TotalFanout;
    var plan, tx := NodePlan([a, b]), Tx(EMPTY, 0);
    if Compatible(a, b) {
      ReapplicableIsIdempotent(env, plan);
    } else if LabelSet(a.types) < LabelSet(b.types) {
      GrowingLabelsBecomeAmbiguous(env, a, b, 0);
      NodePlanUnfold(env, tx, [a, b]);
      NodePlanUnfold(env, Tx(ApplyPlan(env, tx, plan).value.0.graph, 0), [a, b]);
      FailedSecondRun(env, tx, plan, 0);
    } else {
      DisagreeingNodesNeverSettle(env, a, b);
    }
  }

  lemma FailedSecondRun(env: Env, tx: Tx, plan: MutationPlan, again: nat)
    requires ApplyPlan(env, tx, plan).Ok?
    requires ApplyPlan(env, Tx(ApplyPlan(env, tx, plan).value.0.graph, again), plan).Err?
    ensures !IdempotentPlan(env, plan)
  {
    hide ApplyPlan, TotalFanout;
    assert !SecondRunSkips(env, tx, plan, again);
  }
}
