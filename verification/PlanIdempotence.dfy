/** The idempotence theorem for whole plans, and why its hypotheses are needed. */
module PlanIdempotence {
  import opened Prelude
  import opened Values
  import opened Domain
  import opened Filters
  import opened Cypher
  import opened Upsert
  import opened PlanInvariants
  import opened Idempotence

  /**
   * Plans that can be reapplied: only create and merge_at_change, no compared null
   * or NaN, no node followed by a same-name node with strictly more labels, and no
   * later element contradicting an earlier one on a shared compared key.
   */
  predicate Reapplicable(env: Env, plan: MutationPlan) {
    && (forall n :: n in plan.nodes ==> CalmNode(n))
    && (forall r :: r in plan.relationships ==> CalmRel(r))
    && (forall i, j :: 0 <= i < j < |plan.nodes| ==> Compatible(plan.nodes[i], plan.nodes[j]))
    && (forall i, j :: 0 <= i < j < |plan.relationships| ==>
          CompatibleRels(env, plan.relationships[i], plan.relationships[j]))
  }

  /* ----- the first run leaves everything satisfied: nodes ----- */

  predicate NodeDone(g: Graph, node: GraphNode) {
    ValidLabels(node.types) && NodeSatisfied(g, node)
  }

  lemma NodeStepDone(env: Env, tx: Tx, node: GraphNode)
    requires CalmNode(node) && ApplyNode(env, tx, node).Ok?
    ensures NodeDone(ApplyNode(env, tx, node).value.0.graph, node)
  {
    hide NodeSatisfied, CalmNode, NodeCreated, NodeUpdated, NodeNeedsUpdate;
    AppliedNodeIsSatisfied(env, tx, node);
  }

  lemma NodeStepKeepsDone(env: Env, tx: Tx, earlier: GraphNode, later: GraphNode)
    requires CalmNode(earlier) && CalmNode(later) && Compatible(earlier, later)
    requires NodeDone(tx.graph, earlier) && ApplyNode(env, tx, later).Ok?
    ensures NodeDone(ApplyNode(env, tx, later).value.0.graph, earlier)
  {
    hide NodeSatisfied, CalmNode, Compatible, ApplyNode;
    LaterNodeKeepsSatisfied(env, tx, earlier, later);
  }

  lemma {:induction false} NodesDone(env: Env, tx: Tx, nodes: seq<GraphNode>, i: nat)
    requires i < |nodes| && ApplyNodes(env, tx, nodes).Ok?
    requires forall n :: n in nodes ==> CalmNode(n)
    requires forall a, b :: 0 <= a < b < |nodes| ==> Compatible(nodes[a], nodes[b])
    ensures NodeDone(ApplyNodes(env, tx, nodes).value.0.graph, nodes[i])
    decreases |nodes|
  {
    hide *;
    var init, last := nodes[..|nodes| - 1], nodes[|nodes| - 1];
    NodesUnfold(env, tx, nodes);
    var (before, _) := ApplyNodes(env, tx, init).value;
    assert last in nodes && nodes[i] in nodes;
    if i == |init| {
      NodeStepDone(env, before, last);
    } else {
      assert init[i] == nodes[i];
      assert forall n :: n in init ==> n in nodes;
      NodesDone(env, tx, init, i);
      NodeStepKeepsDone(env, before, nodes[i], last);
    }
  }

  /* ----- the first run leaves everything satisfied: relationships ----- */

  lemma CompatibleWithItself(env: Env, rel: GraphRelationship, s: MatchedNode, t: MatchedNode)
    requires CalmRel(rel)
    ensures CompatibleRels(env, rel, RelationshipForMatch(env, rel, s, t))
  {
    ForMatchKeeps(env, Graph(map[], map[]), rel, s, t);
    if rel.policy.MergeAtChange? {
      var managed := ManagedRelProps(rel);
      forall k | k in managed
        ensures Equal(managed[k], managed[k])
      {
        EqualReflexiveExactly(managed[k]);
      }
    }
  }

  lemma CompatibleForMatch(env: Env, earlier: GraphRelationship, later: GraphRelationship, s: MatchedNode, t: MatchedNode)
    requires CompatibleRels(env, earlier, later)
    ensures CompatibleRels(env, earlier, RelationshipForMatch(env, later, s, t))
  {
  }

  predicate PairDone(env: Env, g: Graph, rel: GraphRelationship, pair: Pair) {
    IsIdentifier(rel.kind) && RelSatisfied(env, g, rel, pair.0.id, pair.1.id)
  }

  lemma PairStepDone(env: Env, tx: Tx, rel: GraphRelationship, pair: Pair)
    requires CalmRel(rel) && ApplyPair(env, tx, rel, pair).Ok?
    ensures PairDone(env, ApplyPair(env, tx, rel, pair).value.0.graph, rel, pair)
  {
    hide RelSatisfied, CalmRel, UpsertRel, RelationshipForMatch, TemplateHashOf, ManagedRelProps;
    var r := RelationshipForMatch(env, rel, pair.0, pair.1);
    ForMatchKeeps(env, tx.graph, rel, pair.0, pair.1);
    AppliedRelIsSatisfied(env, tx, r, pair.0.id, pair.1.id);
    ForMatchSatisfied(env, ApplyPair(env, tx, rel, pair).value.0.graph, rel, pair.0, pair.1, pair.0.id, pair.1.id);
  }

  lemma PairStepKeepsDone(env: Env, tx: Tx, earlier: GraphRelationship, done: Pair, later: GraphRelationship, pair: Pair)
    requires CalmRel(later) && (earlier == later || CompatibleRels(env, earlier, later))
    requires PairDone(env, tx.graph, earlier, done) && ApplyPair(env, tx, later, pair).Ok?
    ensures PairDone(env, ApplyPair(env, tx, later, pair).value.0.graph, earlier, done)
    ensures ApplyPair(env, tx, later, pair).value.0.graph.nodes == tx.graph.nodes
  {
    hide RelSatisfied, CalmRel, RelationshipForMatch, TemplateHashOf, ManagedRelProps, CompatibleRels, RelMatches, RelNeedsUpdate;
    var r := RelationshipForMatch(env, later, pair.0, pair.1);
    ForMatchKeeps(env, tx.graph, later, pair.0, pair.1);
    if earlier == later {
      CompatibleWithItself(env, later, pair.0, pair.1);
    } else {
      CompatibleForMatch(env, earlier, later, pair.0, pair.1);
    }
    LaterRelKeepsSatisfied(env, tx, earlier, done.0.id, done.1.id, r, pair.0.id, pair.1.id);
  }

  lemma {:induction false} PairsKeepDone(env: Env, tx: Tx, earlier: GraphRelationship, done: Pair,
                                         later: GraphRelationship, pairs: seq<Pair>)
    requires CalmRel(later) && (earlier == later || CompatibleRels(env, earlier, later))
    requires PairDone(env, tx.graph, earlier, done) && ApplyPairs(env, tx, later, pairs).Ok?
    ensures PairDone(env, ApplyPairs(env, tx, later, pairs).value.0.graph, earlier, done)
    decreases |pairs|
  {
    hide *;
    PairsUnfold(env, tx, later, pairs);
    if pairs != [] {
      var init, last := pairs[..|pairs| - 1], pairs[|pairs| - 1];
      PairsKeepDone(env, tx, earlier, done, later, init);
      PairStepKeepsDone(env, ApplyPairs(env, tx, later, init).value.0, earlier, done, later, last);
    }
  }

  lemma {:induction false} PairsDone(env: Env, tx: Tx, rel: GraphRelationship, pairs: seq<Pair>, i: nat)
    requires i < |pairs| && CalmRel(rel) && ApplyPairs(env, tx, rel, pairs).Ok?
    ensures PairDone(env, ApplyPairs(env, tx, rel, pairs).value.0.graph, rel, pairs[i])
    decreases |pairs|
  {
    hide *;
    PairsUnfold(env, tx, rel, pairs);
    var init, last := pairs[..|pairs| - 1], pairs[|pairs| - 1];
    var (before, _) := ApplyPairs(env, tx, rel, init).value;
    if i == |init| {
      PairStepDone(env, before, rel, last);
    } else {
      assert init[i] == pairs[i];
      PairsDone(env, tx, rel, init, i);
      PairStepKeepsDone(env, before, rel, pairs[i], rel, last);
    }
  }

  lemma {:induction false} PairsLeaveNodes(env: Env, tx: Tx, rel: GraphRelationship, pairs: seq<Pair>)
    requires ApplyPairs(env, tx, rel, pairs).Ok?
    ensures ApplyPairs(env, tx, rel, pairs).value.0.graph.nodes == tx.graph.nodes
    decreases |pairs|
  {
    hide *;
    PairsUnfold(env, tx, rel, pairs);
    if pairs != [] {
      var init, last := pairs[..|pairs| - 1], pairs[|pairs| - 1];
      PairsLeaveNodes(env, tx, rel, init);
      PairLeavesNodes(env, ApplyPairs(env, tx, rel, init).value.0, rel, last);
    }
  }

  lemma PairLeavesNodes(env: Env, tx: Tx, rel: GraphRelationship, pair: Pair)
    requires ApplyPair(env, tx, rel, pair).Ok?
    ensures ApplyPair(env, tx, rel, pair).value.0.graph.nodes == tx.graph.nodes
  {
  }

  /** Both selectors can be read, as far as applyRelationship reads them. */
  ghost predicate Readable(env: Env, nodes: map<nat, Node>, rel: GraphRelationship) {
    var sources := FindMatches(env, nodes, rel.source);
    sources.Ok? && (sources.value != [] ==> FindMatches(env, nodes, rel.target).Ok?)
  }

  ghost predicate RelDone(env: Env, g: Graph, rel: GraphRelationship) {
    var pairs := SelectedPairs(env, g.nodes, rel);
    Readable(env, g.nodes, rel) && forall i :: 0 <= i < |pairs| ==> PairDone(env, g, rel, pairs[i])
  }

  lemma RelationshipUnfold(env: Env, tx: Tx, rel: GraphRelationship)
    ensures ApplyRelationship(env, tx, rel).Ok? ==>
      && Readable(env, tx.graph.nodes, rel)
      && ApplyPairs(env, tx, rel, SelectedPairs(env, tx.graph.nodes, rel)).Ok?
      && ApplyRelationship(env, tx, rel).value.0 == ApplyPairs(env, tx, rel, SelectedPairs(env, tx.graph.nodes, rel)).value.0
    ensures Readable(env, tx.graph.nodes, rel) ==>
      ApplyRelationship(env, tx, rel) ==
        if SelectedPairs(env, tx.graph.nodes, rel) == [] then Ok((tx, OneSkip()))
        else ApplyPairs(env, tx, rel, SelectedPairs(env, tx.graph.nodes, rel))
  {
    hide FindMatches, Product;
    var nodes := tx.graph.nodes;
    if FindMatches(env, nodes, rel.source).Ok? && FindMatches(env, nodes, rel.target).Ok? {
      var sources, targets := FindMatches(env, nodes, rel.source).value, FindMatches(env, nodes, rel.target).value;
      if sources != [] && targets != [] {
        assert |Product(sources, targets)| > 0;
      }
    }
  }

  lemma RelationshipStepDone(env: Env, tx: Tx, rel: GraphRelationship)
    requires CalmRel(rel) && ApplyRelationship(env, tx, rel).Ok?
    ensures RelDone(env, ApplyRelationship(env, tx, rel).value.0.graph, rel)
    ensures ApplyRelationship(env, tx, rel).value.0.graph.nodes == tx.graph.nodes
  {
    hide CalmRel, PairDone, ApplyRelationship, ApplyPairs, SelectedPairs, Readable;
    RelationshipUnfold(env, tx, rel);
    var pairs := SelectedPairs(env, tx.graph.nodes, rel);
    PairsLeaveNodes(env, tx, rel, pairs);
    forall i | 0 <= i < |pairs|
      ensures PairDone(env, ApplyPairs(env, tx, rel, pairs).value.0.graph, rel, pairs[i])
    {
      PairsDone(env, tx, rel, pairs, i);
    }
  }

  lemma RelationshipStepKeepsDone(env: Env, tx: Tx, earlier: GraphRelationship, later: GraphRelationship)
    requires CalmRel(later) && CompatibleRels(env, earlier, later)
    requires RelDone(env, tx.graph, earlier) && ApplyRelationship(env, tx, later).Ok?
    ensures RelDone(env, ApplyRelationship(env, tx, later).value.0.graph, earlier)
  {
    hide CalmRel, CompatibleRels, PairDone, ApplyRelationship, ApplyPairs, SelectedPairs, Readable;
    RelationshipUnfold(env, tx, later);
    var pairs := SelectedPairs(env, tx.graph.nodes, later);
    PairsLeaveNodes(env, tx, later, pairs);
    var done := SelectedPairs(env, tx.graph.nodes, earlier);
    forall i | 0 <= i < |done|
      ensures PairDone(env, ApplyPairs(env, tx, later, pairs).value.0.graph, earlier, done[i])
    {
      PairsKeepDone(env, tx, earlier, done[i], later, pairs);
    }
  }

  lemma RelationshipsUnfold(env: Env, tx: Tx, rels: seq<GraphRelationship>)
    requires rels != []
    ensures var init, last := rels[..|rels| - 1], rels[|rels| - 1];
      ApplyRelationships(env, tx, rels) ==
        match ApplyRelationships(env, tx, init)
        case Err(e) => Err(e)
        case Ok((before, totals)) =>
          match ApplyRelationship(env, before, last)
          case Err(e) => Err(e)
          case Ok((after, more)) => Ok((after, Plus(totals, more)))
  {
    hide ApplyRelationship;
  }

  lemma {:induction false} RelationshipsDone(env: Env, tx: Tx, rels: seq<GraphRelationship>, i: nat)
    requires i < |rels| && ApplyRelationships(env, tx, rels).Ok?
    requires forall r :: r in rels ==> CalmRel(r)
    requires forall a, b :: 0 <= a < b < |rels| ==> CompatibleRels(env, rels[a], rels[b])
    ensures RelDone(env, ApplyRelationships(env, tx, rels).value.0.graph, rels[i])
    decreases |rels|
  {
    hide *;
    var init, last := rels[..|rels| - 1], rels[|rels| - 1];
    RelationshipsUnfold(env, tx, rels);
    assert ApplyRelationships(env, tx, init).Ok?;
    var (before, _) := ApplyRelationships(env, tx, init).value;
    assert last in rels;
    if i == |init| {
      RelationshipStepDone(env, before, last);
    } else {
      assert init[i] == rels[i];
      assert forall r :: r in init ==> r in rels;
      RelationshipsDone(env, tx, init, i);
      RelationshipStepKeepsDone(env, before, rels[i], last);
    }
  }

  lemma {:induction false} RelationshipsLeaveNodes(env: Env, tx: Tx, rels: seq<GraphRelationship>)
    requires ApplyRelationships(env, tx, rels).Ok?
    requires forall r :: r in rels ==> CalmRel(r)
    ensures ApplyRelationships(env, tx, rels).value.0.graph.nodes == tx.graph.nodes
    decreases |rels|
  {
    hide CalmRel, ApplyRelationship;
    if rels != [] {
      var init, last := rels[..|rels| - 1], rels[|rels| - 1];
      RelationshipsUnfold(env, tx, rels);
      assert forall r :: r in init ==> r in rels;
      RelationshipsLeaveNodes(env, tx, init);
      RelationshipStepDone(env, ApplyRelationships(env, tx, init).value.0, last);
    }
  }

  /* ----- the second run skips everything ----- */

  function Skips(nodes: nat, rels: nat): Totals {
    Totals(0, 0, nodes, 0, 0, rels)
  }

  lemma DoneNodeIsSkipped(env: Env, tx: Tx, node: GraphNode)
    requires Calm(node.policy) && NodeDone(tx.graph, node)
    ensures ApplyNode(env, tx, node) == Ok((tx.(tick := tx.tick + 1), Skipped))
  {
  }

  lemma {:induction false} DoneNodesAreSkipped(env: Env, tx: Tx, nodes: seq<GraphNode>)
    requires forall n :: n in nodes ==> Calm(n.policy) && NodeDone(tx.graph, n)
    ensures ApplyNodes(env, tx, nodes) == Ok((tx.(tick := tx.tick + |nodes|), Skips(|nodes|, 0)))
  {
    hide NodeDone, ApplyNode;
    if nodes != [] {
      var init, last := nodes[..|nodes| - 1], nodes[|nodes| - 1];
      assert last in nodes && forall n :: n in init ==> n in nodes;
      DoneNodesAreSkipped(env, tx, init);
      DoneNodeIsSkipped(env, tx.(tick := tx.tick + |init|), last);
    }
  }

  lemma DonePairIsSkipped(env: Env, tx: Tx, rel: GraphRelationship, pair: Pair)
    requires Calm(rel.policy) && PairDone(env, tx.graph, rel, pair)
    ensures ApplyPair(env, tx, rel, pair) == Ok((tx.(tick := tx.tick + 1), Skipped))
  {
    hide RelSatisfied, UpsertRel, RelationshipForMatch, CalmRel, TemplateHashOf, ManagedRelProps;
    ForMatchKeeps(env, tx.graph, rel, pair.0, pair.1);
    ForMatchSatisfied(env, tx.graph, rel, pair.0, pair.1, pair.0.id, pair.1.id);
    SatisfiedRelIsSkipped(env, tx, RelationshipForMatch(env, rel, pair.0, pair.1), pair.0.id, pair.1.id);
  }

  lemma {:induction false} DonePairsAreSkipped(env: Env, tx: Tx, rel: GraphRelationship, pairs: seq<Pair>)
    requires Calm(rel.policy) && forall i :: 0 <= i < |pairs| ==> PairDone(env, tx.graph, rel, pairs[i])
    ensures ApplyPairs(env, tx, rel, pairs) == Ok((tx.(tick := tx.tick + |pairs|), Skips(0, |pairs|)))
    decreases |pairs|
  {
    hide PairDone, ApplyPair;
    if pairs != [] {
      var init, last := pairs[..|pairs| - 1], pairs[|pairs| - 1];
      assert forall i :: 0 <= i < |init| ==> init[i] == pairs[i];
      DonePairsAreSkipped(env, tx, rel, init);
      DonePairIsSkipped(env, tx.(tick := tx.tick + |init|), rel, last);
    }
  }

  lemma PairsOfCount(env: Env, nodes: map<nat, Node>, rel: GraphRelationship)
    requires Readable(env, nodes, rel)
    ensures Fanout(nodes, rel) == if SelectedPairs(env, nodes, rel) == [] then 1 else |SelectedPairs(env, nodes, rel)|
  {
    hide FindMatches, Product, Fanout;
    FanoutIsPairCount(env, nodes, rel);
    if FindMatches(env, nodes, rel.target).Ok? {
      var sources, targets := FindMatches(env, nodes, rel.source).value, FindMatches(env, nodes, rel.target).value;
      if sources != [] && targets != [] {
        assert |Product(sources, targets)| > 0;
      }
    }
  }

  /** The graph is unchanged and the counters say only "skipped". */
  predicate OnlySkips(r: Result<(Tx, Totals), Failure>, g: Graph, nodes: nat, rels: nat) {
    r.Ok? && r.value.0.graph == g && r.value.1 == Skips(nodes, rels)
  }

  lemma DoneRelationshipIsSkipped(env: Env, tx: Tx, rel: GraphRelationship)
    requires Calm(rel.policy) && RelDone(env, tx.graph, rel)
    ensures OnlySkips(ApplyRelationship(env, tx, rel), tx.graph, 0, Fanout(tx.graph.nodes, rel))
  {
    hide PairDone, ApplyRelationship, ApplyPairs, SelectedPairs, Readable, Fanout;
    RelationshipUnfold(env, tx, rel);
    PairsOfCount(env, tx.graph.nodes, rel);
    var pairs := SelectedPairs(env, tx.graph.nodes, rel);
    if pairs != [] {
      DonePairsAreSkipped(env, tx, rel, pairs);
    }
  }

  lemma SkipsUnfold(env: Env, tx: Tx, rels: seq<GraphRelationship>)
    requires rels != []
    requires var init, last := rels[..|rels| - 1], rels[|rels| - 1];
      && OnlySkips(ApplyRelationships(env, tx, init), tx.graph, 0, TotalFanout(tx.graph.nodes, init))
      && OnlySkips(ApplyRelationship(env, ApplyRelationships(env, tx, init).value.0, last),
                   tx.graph, 0, Fanout(tx.graph.nodes, last))
    ensures OnlySkips(ApplyRelationships(env, tx, rels), tx.graph, 0, TotalFanout(tx.graph.nodes, rels))
  {
    hide ApplyRelationship, Fanout;
  }

  lemma {:induction false} DoneRelationshipsAreSkipped(env: Env, tx: Tx, rels: seq<GraphRelationship>)
    requires forall r :: r in rels ==> Calm(r.policy) && RelDone(env, tx.graph, r)
    ensures OnlySkips(ApplyRelationships(env, tx, rels), tx.graph, 0, TotalFanout(tx.graph.nodes, rels))
    decreases |rels|
  {
    if rels != [] {
      DoneRelationshipsStep(env, tx, rels);
    }
  }

  lemma DoneRelationshipsStep(env: Env, tx: Tx, rels: seq<GraphRelationship>)
    requires rels != [] && forall r :: r in rels ==> Calm(r.policy) && RelDone(env, tx.graph, r)
    ensures OnlySkips(ApplyRelationships(env, tx, rels), tx.graph, 0, TotalFanout(tx.graph.nodes, rels))
    decreases |rels|, 0
  {
    hide RelDone, ApplyRelationship, ApplyRelationships, TotalFanout, Fanout;
    var init, last := rels[..|rels| - 1], rels[|rels| - 1];
    assert last in rels && forall r :: r in init ==> r in rels;
    DoneRelationshipsAreSkipped(env, tx, init);
    DoneRelationshipIsSkipped(env, ApplyRelationships(env, tx, init).value.0, last);
    SkipsUnfold(env, tx, rels);
  }

  /* ----- the theorem ----- */

  /**
   * Idempotence: once a reapplicable plan has succeeded, applying it again at any
   * later time succeeds, leaves the graph exactly as it is, and reports only skips.
   */
  lemma PlanIdempotent(env: Env, tx: Tx, plan: MutationPlan, again: nat)
    requires Reapplicable(env, plan) && ApplyPlan(env, tx, plan).Ok?
    ensures var g := ApplyPlan(env, tx, plan).value.0.graph;
      OnlySkips(ApplyPlan(env, Tx(g, again), plan), g, |plan.nodes|, TotalFanout(g.nodes, plan.relationships))
  {
    hide ApplyNodes, ApplyRelationships, NodeDone, RelDone, Compatible, CompatibleRels, TotalFanout;
    var (middle, _) := ApplyNodes(env, tx, plan.nodes).value;
    var (after, _) := ApplyRelationships(env, middle, plan.relationships).value;
    RelationshipsLeaveNodes(env, middle, plan.relationships);
    var second := Tx(after.graph, again);
    forall n | n in plan.nodes
      ensures NodeDone(after.graph, n)
    {
      var i :| 0 <= i < |plan.nodes| && plan.nodes[i] == n;
      NodesDone(env, tx, plan.nodes, i);
      NodeDoneDependsOnNodes(middle.graph, after.graph, n);
    }
    forall r | r in plan.relationships
      ensures RelDone(env, after.graph, r)
    {
      var i :| 0 <= i < |plan.relationships| && plan.relationships[i] == r;
      RelationshipsDone(env, middle, plan.relationships, i);
    }
    DoneNodesAreSkipped(env, second, plan.nodes);
    var third := second.(tick := again + |plan.nodes|);
    DoneRelationshipsAreSkipped(env, third, plan.relationships);
  }

  lemma NodeDoneDependsOnNodes(g: Graph, h: Graph, node: GraphNode)
    requires g.nodes == h.nodes && NodeDone(g, node)
    ensures NodeDone(h, node)
  {
  }
}
