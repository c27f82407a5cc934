/** The invariants and the accounting of whole plans and of runs of plans. */
module PlanInvariants {
  import opened Prelude
  import opened Domain
  import opened Cypher
  import opened Upsert
  import opened Invariants

  /**
   * Between two transaction states the invariants are kept, the counters add up to
   * the given numbers of actions, created counters equal the graph's growth, and
   * without creations or updates nothing changed.
   */
  predicate Accounted(env: Env, tx: Tx, after: Tx, totals: Totals, nodeActions: nat, relActions: nat) {
    && tx.tick <= after.tick
    && Keeps(tx.graph, after.graph, env.clock(tx.tick), env.clock(after.tick))
    && Counts(totals, nodeActions, relActions)
    && |after.graph.nodes| == |tx.graph.nodes| + totals.nodesCreated
    && |after.graph.rels| == |tx.graph.rels| + totals.relsCreated
    && (nodeActions == 0 ==> after.graph.nodes == tx.graph.nodes)
    && (Quiet(totals) ==> after.graph == tx.graph)
  }

  lemma AccountedNothing(env: Env, tx: Tx)
    ensures Accounted(env, tx, tx, Zero(), 0, 0)
    ensures Accounted(env, tx, tx, OneSkip(), 0, 1)
  {
  }

  lemma StepAccounted(env: Env, tx: Tx, after: Tx, totals: Totals, nodeActions: nat, relActions: nat)
    requires tx.tick <= after.tick
    requires Keeps(tx.graph, after.graph, env.clock(tx.tick), env.clock(after.tick))
    requires Counts(totals, nodeActions, relActions)
    requires |after.graph.nodes| == |tx.graph.nodes| + totals.nodesCreated
    requires |after.graph.rels| == |tx.graph.rels| + totals.relsCreated
    requires nodeActions == 0 ==> after.graph.nodes == tx.graph.nodes
    requires Quiet(totals) ==> after.graph == tx.graph
    ensures Accounted(env, tx, after, totals, nodeActions, relActions)
  {
  }

  lemma AccountedTransitive(env: Env, tx: Tx, middle: Tx, after: Tx, t1: Totals, t2: Totals,
                            n1: nat, n2: nat, r1: nat, r2: nat)
    requires Accounted(env, tx, middle, t1, n1, r1) && Accounted(env, middle, after, t2, n2, r2)
    ensures Accounted(env, tx, after, Plus(t1, t2), n1 + n2, r1 + r2)
  {
    hide Keeps;
    KeepsTransitive(tx.graph, middle.graph, after.graph,
                    env.clock(tx.tick), env.clock(middle.tick), env.clock(after.tick));
  }

  /* ----- nodes of a plan ----- */

  lemma NodeAccounted(env: Env, tx: Tx, node: GraphNode)
    requires Monotone(env) && PlannedNode(node)
    requires ApplyNode(env, tx, node).Ok?
    ensures var (after, action) := ApplyNode(env, tx, node).value;
      Accounted(env, tx, after, WithNode(Zero(), action), 1, 0)
  {
    hide Keeps, Accounted, ApplyNode, PlannedNode, Monotone;
    NodeStep(env, tx, node);
    var (after, action) := ApplyNode(env, tx, node).value;
    StepAccounted(env, tx, after, WithNode(Zero(), action), 1, 0);
  }

  lemma NodesUnfold(env: Env, tx: Tx, nodes: seq<GraphNode>)
    requires ApplyNodes(env, tx, nodes).Ok?
    ensures nodes == [] ==> ApplyNodes(env, tx, nodes).value == (tx, Zero())
    ensures nodes != [] ==> var init, last := nodes[..|nodes| - 1], nodes[|nodes| - 1];
      && ApplyNodes(env, tx, init).Ok?
      && ApplyNode(env, ApplyNodes(env, tx, init).value.0, last).Ok?
      && var (before, totals) := ApplyNodes(env, tx, init).value;
         var (after, action) := ApplyNode(env, before, last).value;
         ApplyNodes(env, tx, nodes).value == (after, Plus(totals, WithNode(Zero(), action)))
  {
  }

  lemma {:induction false} NodesAccounted(env: Env, tx: Tx, nodes: seq<GraphNode>)
    requires Monotone(env) && forall n :: n in nodes ==> PlannedNode(n)
    requires ApplyNodes(env, tx, nodes).Ok?
    ensures var (after, totals) := ApplyNodes(env, tx, nodes).value;
      Accounted(env, tx, after, totals, |nodes|, 0)
  {
    hide *;
    NodesUnfold(env, tx, nodes);
    AccountedNothing(env, tx);
    if nodes != [] {
      var init, last := nodes[..|nodes| - 1], nodes[|nodes| - 1];
      assert forall n :: n in init ==> n in nodes;
      NodesAccounted(env, tx, init);
      var (before, totals) := ApplyNodes(env, tx, init).value;
      NodeAccounted(env, before, last);
      var (after, action) := ApplyNode(env, before, last).value;
      AccountedTransitive(env, tx, before, after, totals, WithNode(Zero(), action), |init|, 1, 0, 0);
    }
  }

  /* ----- relationships of a plan ----- */

  lemma PairAccounted(env: Env, tx: Tx, rel: GraphRelationship, pair: Pair)
    requires Monotone(env) && PlannedRel(rel)
    requires ApplyPair(env, tx, rel, pair).Ok?
    ensures var (after, action) := ApplyPair(env, tx, rel, pair).value;
      Accounted(env, tx, after, WithRelationship(Zero(), action), 0, 1)
  {
    hide Keeps, Accounted, UpsertRel, PlannedRel, RelationshipForMatch, Monotone;
    ForMatchStaysPlanned(env, rel, pair.0, pair.1);
    RelStep(env, tx, RelationshipForMatch(env, rel, pair.0, pair.1), pair.0.id, pair.1.id);
    var (after, action) := ApplyPair(env, tx, rel, pair).value;
    StepAccounted(env, tx, after, WithRelationship(Zero(), action), 0, 1);
  }

  lemma PairsUnfold(env: Env, tx: Tx, rel: GraphRelationship, pairs: seq<Pair>)
    requires ApplyPairs(env, tx, rel, pairs).Ok?
    ensures pairs == [] ==> ApplyPairs(env, tx, rel, pairs).value == (tx, Zero())
    ensures pairs != [] ==> var init, last := pairs[..|pairs| - 1], pairs[|pairs| - 1];
      && ApplyPairs(env, tx, rel, init).Ok?
      && ApplyPair(env, ApplyPairs(env, tx, rel, init).value.0, rel, last).Ok?
      && var (before, totals) := ApplyPairs(env, tx, rel, init).value;
         var (after, action) := ApplyPair(env, before, rel, last).value;
         ApplyPairs(env, tx, rel, pairs).value == (after, Plus(totals, WithRelationship(Zero(), action)))
  {
  }

  lemma {:induction false} PairsAccounted(env: Env, tx: Tx, rel: GraphRelationship, pairs: seq<Pair>)
    requires Monotone(env) && PlannedRel(rel)
    requires ApplyPairs(env, tx, rel, pairs).Ok?
    ensures var (after, totals) := ApplyPairs(env, tx, rel, pairs).value;
      Accounted(env, tx, after, totals, 0, |pairs|)
  {
    hide *;
    PairsUnfold(env, tx, rel, pairs);
    AccountedNothing(env, tx);
    if pairs != [] {
      var init, last := pairs[..|pairs| - 1], pairs[|pairs| - 1];
      PairsAccounted(env, tx, rel, init);
      var (before, totals) := ApplyPairs(env, tx, rel, init).value;
      PairAccounted(env, before, rel, last);
      var (after, action) := ApplyPair(env, before, rel, last).value;
      AccountedTransitive(env, tx, before, after, totals, WithRelationship(Zero(), action), 0, 0, |init|, 1);
    }
  }

  /** The pairs one planned relationship is applied to; 1 stands for the single skip. */
  ghost function Fanout(nodes: map<nat, Node>, rel: GraphRelationship): nat {
    var pairs := |SelectNodes(nodes, rel.source)| * |SelectNodes(nodes, rel.target)|;
    if pairs == 0 then 1 else pairs
  }

  ghost function TotalFanout(nodes: map<nat, Node>, rels: seq<GraphRelationship>): nat {
    if rels == [] then 0
    else TotalFanout(nodes, rels[..|rels| - 1]) + Fanout(nodes, rels[|rels| - 1])
  }

  lemma MatchCount(env: Env, nodes: map<nat, Node>, selector: NodeSelector)
    requires FindMatches(env, nodes, selector).Ok?
    ensures |FindMatches(env, nodes, selector).value| == |SelectNodes(nodes, selector)|
  {
    var rows := OrderRows(nodes, SelectNodes(nodes, selector));
    assert |rows| == |multiset(rows)|;
  }

  lemma FanoutIsPairCount(env: Env, nodes: map<nat, Node>, rel: GraphRelationship)
    requires FindMatches(env, nodes, rel.source).Ok?
    ensures FindMatches(env, nodes, rel.source).value == [] ==> Fanout(nodes, rel) == 1
    ensures FindMatches(env, nodes, rel.target).Ok? && FindMatches(env, nodes, rel.target).value == [] ==> Fanout(nodes, rel) == 1
    ensures FindMatches(env, nodes, rel.target).Ok?
      && FindMatches(env, nodes, rel.source).value != [] && FindMatches(env, nodes, rel.target).value != []
      ==> Fanout(nodes, rel) == |Product(FindMatches(env, nodes, rel.source).value, FindMatches(env, nodes, rel.target).value)|
  {
    hide FindMatches, SelectNodes;
    MatchCount(env, nodes, rel.source);
    if FindMatches(env, nodes, rel.target).Ok? {
      MatchCount(env, nodes, rel.target);
    }
  }

  lemma RelationshipAccounted(env: Env, tx: Tx, rel: GraphRelationship)
    requires Monotone(env) && PlannedRel(rel)
    requires ApplyRelationship(env, tx, rel).Ok?
    ensures var (after, totals) := ApplyRelationship(env, tx, rel).value;
      Accounted(env, tx, after, totals, 0, Fanout(tx.graph.nodes, rel))
  {
    hide Accounted, FindMatches, PlannedRel, ApplyPairs, Monotone, Fanout, Product;
    FanoutIsPairCount(env, tx.graph.nodes, rel);
    AccountedNothing(env, tx);
    var sources := FindMatches(env, tx.graph.nodes, rel.source).value;
    if sources != [] {
      var targets := FindMatches(env, tx.graph.nodes, rel.target).value;
      if targets != [] {
        PairsAccounted(env, tx, rel, Product(sources, targets));
      }
    }
  }

  lemma {:induction false} RelationshipsAccounted(env: Env, tx: Tx, rels: seq<GraphRelationship>)
    requires Monotone(env) && forall r :: r in rels ==> PlannedRel(r)
    requires ApplyRelationships(env, tx, rels).Ok?
    ensures var (after, totals) := ApplyRelationships(env, tx, rels).value;
      Accounted(env, tx, after, totals, 0, TotalFanout(tx.graph.nodes, rels))
      && after.graph.nodes == tx.graph.nodes
  {
    hide Accounted, ApplyRelationship, PlannedRel, Fanout;
    if rels == [] {
      AccountedNothing(env, tx);
    } else {
      var init, last := rels[..|rels| - 1], rels[|rels| - 1];
      assert forall r :: r in init ==> r in rels;
      RelationshipsAccounted(env, tx, init);
      var (before, totals) := ApplyRelationships(env, tx, init).value;
      RelationshipAccounted(env, before, last);
      var (after, more) := ApplyRelationship(env, before, last).value;
      AccountedTransitive(env, tx, before, after, totals, more,
        0, 0, TotalFanout(tx.graph.nodes, init), Fanout(before.graph.nodes, last));
      NodesUntouched(env, before, after, more, Fanout(before.graph.nodes, last));
    }
  }

  lemma NodesUntouched(env: Env, tx: Tx, after: Tx, totals: Totals, relActions: nat)
    requires Accounted(env, tx, after, totals, 0, relActions)
    ensures after.graph.nodes == tx.graph.nodes
  {
  }

  /* ----- whole plans ----- */

  /**
   * A successful plan keeps every invariant, does as many node actions as it has
   * nodes and one relationship action per source and target pair, and its created
   * counters are exactly the growth of the graph.
   */
  lemma PlanAccounted(env: Env, tx: Tx, plan: MutationPlan)
    requires Monotone(env) && Planned(plan)
    requires ApplyPlan(env, tx, plan).Ok?
    ensures var (after, totals) := ApplyPlan(env, tx, plan).value;
      Accounted(env, tx, after, totals, |plan.nodes|, TotalFanout(after.graph.nodes, plan.relationships))
  {
    hide Accounted, ApplyNodes, ApplyRelationships, PlannedRel, PlannedNode, TotalFanout;
    NodesAccounted(env, tx, plan.nodes);
    var (middle, nodeTotals) := ApplyNodes(env, tx, plan.nodes).value;
    RelationshipsAccounted(env, middle, plan.relationships);
    var (after, relTotals) := ApplyRelationships(env, middle, plan.relationships).value;
    AccountedTransitive(env, tx, middle, after, nodeTotals, relTotals,
      |plan.nodes|, 0, 0, TotalFanout(middle.graph.nodes, plan.relationships));
  }

  /**
   * Over any run of plans, failed ones included, each later graph extends each
   * earlier one: z4j_created_at is written once, identities stay unique, and
   * z4j_created_at <= z4j_updated_at <= now everywhere.
   */
  lemma {:induction false} RunsKeep(env: Env, tx: Tx, plans: seq<MutationPlan>, i: nat)
    requires Monotone(env) && i <= |plans|
    requires forall p :: p in plans ==> Planned(p)
    ensures var earlier, later := RunPlans(env, tx, plans[..i]), RunPlans(env, tx, plans);
      && earlier.tick <= later.tick
      && Keeps(earlier.graph, later.graph, env.clock(earlier.tick), env.clock(later.tick))
    decreases |plans|
  {
    hide Keeps, Planned, ApplyPlan;
    if i == |plans| {
      assert plans[..i] == plans;
      var end := RunPlans(env, tx, plans);
      KeepsReflexive(end.graph, env.clock(end.tick), env.clock(end.tick));
    } else {
      var init, last := plans[..|plans| - 1], plans[|plans| - 1];
      assert init[..i] == plans[..i];
      RunsKeep(env, tx, init, i);
      var before := RunPlans(env, tx, init);
      var after := Commit(env, before, last);
      if ApplyPlan(env, before, last).Ok? {
        PlanAccounted(env, before, last);
      } else {
        KeepsReflexive(before.graph, env.clock(before.tick), env.clock(before.tick));
      }
      var earlier := RunPlans(env, tx, plans[..i]);
      KeepsTransitive(earlier.graph, before.graph, after.graph,
                      env.clock(earlier.tick), env.clock(before.tick), env.clock(after.tick));
    }
  }

  /* ----- the ambiguous relationship error ----- */

  lemma {:induction false} NodesNeverAmbiguousRel(env: Env, tx: Tx, nodes: seq<GraphNode>)
    ensures ApplyNodes(env, tx, nodes) != Err(AmbiguousRelationshipMatch)
  {
    if nodes != [] {
      NodesNeverAmbiguousRel(env, tx, nodes[..|nodes| - 1]);
    }
  }

  lemma {:induction false} PairsNeverAmbiguous(env: Env, tx: Tx, rel: GraphRelationship, pairs: seq<Pair>)
    requires Monotone(env) && PlannedRel(rel) && UniqueRels(tx.graph)
    ensures ApplyPairs(env, tx, rel, pairs) != Err(AmbiguousRelationshipMatch)
  {
    hide PlannedRel, UniqueRels, UpsertRel, RelationshipForMatch, Extends, AllStamped, UniqueNodes;
    if pairs != [] {
      var init, pair := pairs[..|pairs| - 1], pairs[|pairs| - 1];
      PairsNeverAmbiguous(env, tx, rel, init);
      if ApplyPairs(env, tx, rel, init).Ok? {
        PairsAccounted(env, tx, rel, init);
        var (before, _) := ApplyPairs(env, tx, rel, init).value;
        NoAmbiguousRelationship(env, before, RelationshipForMatch(env, rel, pair.0, pair.1), pair.0.id, pair.1.id);
      }
    }
  }

  lemma {:induction false} RowsNeverAmbiguous(nodes: map<nat, Node>, rows: seq<nat>)
    requires forall id :: id in rows ==> id in nodes
    ensures ReadRows(nodes, rows) != Err(AmbiguousRelationshipMatch)
  {
    if rows != [] {
      RowsNeverAmbiguous(nodes, rows[..|rows| - 1]);
    }
  }

  lemma RelationshipNeverAmbiguous(env: Env, tx: Tx, rel: GraphRelationship)
    requires Monotone(env) && UniqueRels(tx.graph) && PlannedRel(rel)
    ensures ApplyRelationship(env, tx, rel) != Err(AmbiguousRelationshipMatch)
  {
    hide PlannedRel, UniqueRels, ApplyPairs, SelectNodes;
    var nodes := tx.graph.nodes;
    RowsNeverAmbiguous(nodes, SelectorRows(nodes, rel.source));
    RowsNeverAmbiguous(nodes, SelectorRows(nodes, rel.target));
    if FindMatches(env, nodes, rel.source).Ok? && FindMatches(env, nodes, rel.target).Ok? {
      PairsNeverAmbiguous(env, tx, rel,
        Product(FindMatches(env, nodes, rel.source).value, FindMatches(env, nodes, rel.target).value));
    }
  }

  lemma {:induction false} RelationshipsNeverAmbiguous(env: Env, tx: Tx, rels: seq<GraphRelationship>)
    requires Monotone(env) && UniqueRels(tx.graph)
    requires forall r :: r in rels ==> PlannedRel(r)
    ensures ApplyRelationships(env, tx, rels) != Err(AmbiguousRelationshipMatch)
  {
    hide PlannedRel, UniqueRels, ApplyRelationship, Extends, AllStamped, UniqueNodes, TotalFanout;
    if rels != [] {
      var init, last := rels[..|rels| - 1], rels[|rels| - 1];
      assert forall r :: r in init ==> r in rels;
      RelationshipsNeverAmbiguous(env, tx, init);
      if ApplyRelationships(env, tx, init).Ok? {
        RelationshipsAccounted(env, tx, init);
        var (before, _) := ApplyRelationships(env, tx, init).value;
        RelationshipNeverAmbiguous(env, before, last);
      }
    }
  }

  /** From a graph with unique relationships no plan ends in the ambiguity error. */
  lemma PlanNeverAmbiguousRel(env: Env, tx: Tx, plan: MutationPlan)
    requires Monotone(env) && Planned(plan) && UniqueRels(tx.graph)
    ensures ApplyPlan(env, tx, plan) != Err(AmbiguousRelationshipMatch)
  {
    hide UniqueRels, ApplyNodes, ApplyRelationships, PlannedRel, PlannedNode;
    NodesNeverAmbiguousRel(env, tx, plan.nodes);
    if ApplyNodes(env, tx, plan.nodes).Ok? {
      NodesAccounted(env, tx, plan.nodes);
      var (middle, _) := ApplyNodes(env, tx, plan.nodes).value;
      RelationshipsNeverAmbiguous(env, middle, plan.relationships);
    }
  }

  /* ----- expiry under merge_at_change ----- */

  /** Neither creation nor update writes z4j_expires_at under merge_at_change. */
  lemma MergeAtChangeNeverExpires(env: Env, tx: Tx, node: GraphNode)
    requires PlannedNode(node) && node.policy.MergeAtChange?
    requires ApplyNode(env, tx, node).Ok?
    ensures var h := ApplyNode(env, tx, node).value.0.graph;
      forall id :: id in h.nodes ==>
        if id in tx.graph.nodes then SameAt(tx.graph.nodes[id].props, h.nodes[id].props, FIELD_EXPIRES_AT)
        else FIELD_EXPIRES_AT !in h.nodes[id].props
  {
    FieldsDistinct();
  }

  lemma MergeAtChangeNeverExpiresRel(env: Env, tx: Tx, rel: GraphRelationship, s: nat, t: nat)
    requires PlannedRel(rel) && rel.policy.MergeAtChange?
    requires UpsertRel(env, tx, rel, s, t).Ok?
    ensures var h := UpsertRel(env, tx, rel, s, t).value.0.graph;
      forall id :: id in h.rels ==>
        if id in tx.graph.rels then SameAt(tx.graph.rels[id].props, h.rels[id].props, FIELD_EXPIRES_AT)
        else FIELD_EXPIRES_AT !in h.rels[id].props
  {
    hide RelMatches, TemplateHashOf, RelNeedsUpdate;
    FieldsDistinct();
  }
}
