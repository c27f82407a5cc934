/** Applying a successful plan a second time changes nothing. */
module Idempotence {
  import opened Prelude
  import opened Values
  import opened Domain
  import opened Filters
  import opened Cypher
  import opened Upsert
  import opened Invariants

  /* ----- one node ----- */

  /** The policies under which an existing, equal element is left alone. */
  predicate Calm(policy: UpdatePolicy) {
    policy.Create? || policy.MergeAtChange?
  }

  predicate CalmNode(node: GraphNode) {
    PlannedNode(node) && Calm(node.policy) && (node.policy.MergeAtChange? ==> Settled(ManagedNodeProps(node)))
  }

  /** The graph already holds what the node asks for. */
  predicate NodeSatisfied(g: Graph, node: GraphNode) {
    var ids := NodeMatches(g, node);
    |ids| == 1 &&
    (node.policy.MergeAtChange? ==>
      forall id :: id in ids ==> !ShouldUpdate(g.nodes[id].props, ManagedNodeProps(node)))
  }

  /** Written properties satisfy the change detection that reads them back. */
  lemma WrittenPropsSettle(node: GraphNode, current: Props, given: Props)
    requires Settled(ManagedNodeProps(node))
    requires forall k :: k in ManagedNodeProps(node) ==> k in given && given[k] == node.props[k]
    ensures !ShouldUpdate(MergeProps(current, given), ManagedNodeProps(node))
  {
    var managed := ManagedNodeProps(node);
    forall k | k in managed
      ensures !Differs(MergeProps(current, given), managed, k)
    {
      EqualReflexiveExactly(managed[k]);
    }
  }

  lemma GivenNodeProps(node: GraphNode, now: int)
    requires PlannedNode(node)
    ensures forall k :: k in ManagedNodeProps(node) ==>
      && k in CreationProps(node, now) && CreationProps(node, now)[k] == node.props[k]
      && k in UpdateProps(node, now) && UpdateProps(node, now)[k] == node.props[k]
    ensures forall k :: k !in node.props && k !in AUTOMATIC_NODE ==> k !in UpdateProps(node, now)
  {
  }

  /** An update changes neither which nodes a query matches... */
  lemma UpdateKeepsMatches(g: Graph, updated: GraphNode, now: int, node: GraphNode)
    requires PlannedNode(updated)
    ensures NodeMatches(NodeUpdated(g, updated, now), node) == NodeMatches(g, node)
  {
    hide MergeProps, UpdateProps, Stamped, PlannedNode;
    var h := NodeUpdated(g, updated, now);
    assert h.nodes.Keys == g.nodes.Keys;
    forall id | id in g.nodes
      ensures id in NodeMatches(h, node) <==> id in NodeMatches(g, node)
    {
      NodeUpdateKeeps(g, updated, now, id);
    }
  }

  lemma CreatedNodeProps(g: Graph, node: GraphNode, now: int)
    requires PlannedNode(node)
    ensures var h, id := NodeCreated(g, node, now), FreshId(g.nodes.Keys);
      && h.nodes.Keys == g.nodes.Keys + {id}
      && (forall a :: a in g.nodes ==> h.nodes[a] == g.nodes[a])
      && h.nodes[id].labels == LabelSet(node.types)
      && h.nodes[id].props == MergeProps(map[NAME := Text(node.name)], CreationProps(node, now))
      && HasText(h.nodes[id].props, NAME, node.name)
  {
    NodeCreationIsStamped(node, now);
  }

  lemma AppliedNodeIsSatisfied(env: Env, tx: Tx, node: GraphNode)
    requires CalmNode(node) && ApplyNode(env, tx, node).Ok?
    ensures NodeSatisfied(ApplyNode(env, tx, node).value.0.graph, node)
  {
    var g, now := tx.graph, env.clock(tx.tick);
    var ids := NodeMatches(g, node);
    GivenNodeProps(node, now);
    if |ids| == 0 {
      CreatedSatisfies(g, node, now);
    } else if NodeNeedsUpdate(g, node) {
      UpdatedSatisfies(g, node, now);
    }
  }

  lemma CreatedSatisfies(g: Graph, node: GraphNode, now: int)
    requires CalmNode(node) && NodeMatches(g, node) == {}
    ensures NodeSatisfied(NodeCreated(g, node, now), node)
  {
    hide MergeProps, CreationProps, ShouldUpdate, Settled, ManagedNodeProps;
    var h, id := NodeCreated(g, node, now), FreshId(g.nodes.Keys);
    CreatedNodeProps(g, node, now);
    forall a | a in g.nodes
      ensures a !in NodeMatches(h, node)
    {
      assert a !in NodeMatches(g, node);
    }
    assert NodeMatches(h, node) == {id};
    if node.policy.MergeAtChange? {
      GivenNodeProps(node, now);
      WrittenPropsSettle(node, map[NAME := Text(node.name)], CreationProps(node, now));
    }
  }

  lemma UpdatedSatisfies(g: Graph, node: GraphNode, now: int)
    requires CalmNode(node) && |NodeMatches(g, node)| == 1
    ensures NodeSatisfied(NodeUpdated(g, node, now), node)
  {
    hide MergeProps, UpdateProps, ShouldUpdate, Settled, ManagedNodeProps;
    UpdateKeepsMatches(g, node, now, node);
    if node.policy.MergeAtChange? {
      GivenNodeProps(node, now);
      forall id | id in NodeMatches(g, node)
        ensures !ShouldUpdate(NodeUpdated(g, node, now).nodes[id].props, ManagedNodeProps(node))
      {
        WrittenPropsSettle(node, g.nodes[id].props, UpdateProps(node, now));
      }
    }
  }

  /* ----- a later node leaves an earlier one satisfied ----- */

  predicate Agree(earlier: Props, later: Props) {
    forall k :: k in earlier && k in later ==> Equal(later[k], earlier[k])
  }

  /** A later node of the same name neither extends the labels nor contradicts. */
  predicate Compatible(earlier: GraphNode, later: GraphNode) {
    earlier.name == later.name ==>
      && !(LabelSet(earlier.types) < LabelSet(later.types))
      && (earlier.policy.MergeAtChange? && later.policy.MergeAtChange? ==>
            Agree(ManagedNodeProps(earlier), ManagedNodeProps(later)))
  }

  lemma CreationKeepsMatches(g: Graph, earlier: GraphNode, later: GraphNode, now: int)
    requires PlannedNode(later) && Compatible(earlier, later)
    requires NodeMatches(g, earlier) != {} && NodeMatches(g, later) == {}
    ensures NodeMatches(NodeCreated(g, later, now), earlier) == NodeMatches(g, earlier)
  {
    hide MergeProps, CreationProps, PlannedNode;
    var h, id := NodeCreated(g, later, now), FreshId(g.nodes.Keys);
    CreatedNodeProps(g, later, now);
    var known :| known in NodeMatches(g, earlier);
    assert known !in NodeMatches(g, later);
    assert id !in NodeMatches(h, earlier);
  }

  lemma AgreeingUpdateSettles(earlier: GraphNode, later: GraphNode, current: Props, now: int)
    requires PlannedNode(later) && Settled(ManagedNodeProps(later))
    requires Agree(ManagedNodeProps(earlier), ManagedNodeProps(later))
    requires !ShouldUpdate(current, ManagedNodeProps(earlier))
    ensures !ShouldUpdate(MergeProps(current, UpdateProps(later, now)), ManagedNodeProps(earlier))
  {
  }

  lemma LaterNodeKeepsSatisfied(env: Env, tx: Tx, earlier: GraphNode, later: GraphNode)
    requires CalmNode(earlier) && CalmNode(later) && Compatible(earlier, later)
    requires NodeSatisfied(tx.graph, earlier) && ApplyNode(env, tx, later).Ok?
    ensures NodeSatisfied(ApplyNode(env, tx, later).value.0.graph, earlier)
  {
    var g, now := tx.graph, env.clock(tx.tick);
    if |NodeMatches(g, later)| == 0 {
      CreationKeepsSatisfied(g, earlier, later, now);
    } else if NodeNeedsUpdate(g, later) {
      UpdateKeepsSatisfied(g, earlier, later, now);
    }
  }

  lemma CreationKeepsSatisfied(g: Graph, earlier: GraphNode, later: GraphNode, now: int)
    requires PlannedNode(later) && Compatible(earlier, later)
    requires NodeSatisfied(g, earlier) && NodeMatches(g, later) == {}
    ensures NodeSatisfied(NodeCreated(g, later, now), earlier)
  {
    hide MergeProps, CreationProps, PlannedNode, ShouldUpdate, Agree;
    CreationKeepsMatches(g, earlier, later, now);
    CreatedNodeProps(g, later, now);
  }

  lemma UpdateKeepsSatisfied(g: Graph, earlier: GraphNode, later: GraphNode, now: int)
    requires CalmNode(later) && later.policy.MergeAtChange? && Compatible(earlier, later)
    requires NodeSatisfied(g, earlier)
    ensures NodeSatisfied(NodeUpdated(g, later, now), earlier)
  {
    hide MergeProps, UpdateProps, ShouldUpdate, Agree, Settled, PlannedNode, ManagedNodeProps;
    UpdateKeepsMatches(g, later, now, earlier);
    if earlier.policy.MergeAtChange? {
      forall id | id in NodeMatches(g, earlier)
        ensures !ShouldUpdate(NodeUpdated(g, later, now).nodes[id].props, ManagedNodeProps(earlier))
      {
        if id in NodeMatches(g, later) {
          AgreeingUpdateSettles(earlier, later, g.nodes[id].props, now);
        }
      }
    }
  }

  /* ----- one relationship ----- */

  predicate CalmRel(rel: GraphRelationship) {
    PlannedRel(rel) && Calm(rel.policy) && (rel.policy.MergeAtChange? ==> Settled(ManagedRelProps(rel)))
  }

  predicate RelSatisfied(env: Env, g: Graph, rel: GraphRelationship, s: nat, t: nat) {
    var ids := RelMatches(env, g, rel, s, t);
    |ids| == 1 &&
    (rel.policy.MergeAtChange? ==>
      forall id :: id in ids ==> !ShouldUpdate(g.rels[id].props, ManagedRelProps(rel)))
  }

  lemma SatisfiedRelIsSkipped(env: Env, tx: Tx, rel: GraphRelationship, s: nat, t: nat)
    requires IsIdentifier(rel.kind) && Calm(rel.policy) && RelSatisfied(env, tx.graph, rel, s, t)
    ensures UpsertRel(env, tx, rel, s, t) == Ok((tx.(tick := tx.tick + 1), Skipped))
  {
  }

  lemma WrittenRelPropsSettle(rel: GraphRelationship, current: Props, given: Props)
    requires Settled(ManagedRelProps(rel))
    requires forall k :: k in ManagedRelProps(rel) ==> k in given && given[k] == rel.props[k]
    ensures !ShouldUpdate(MergeProps(current, given), ManagedRelProps(rel))
  {
    var managed := ManagedRelProps(rel);
    forall k | k in managed
      ensures !Differs(MergeProps(current, given), managed, k)
    {
      EqualReflexiveExactly(managed[k]);
    }
  }

  lemma GivenRelProps(env: Env, rel: GraphRelationship, now: int)
    ensures forall k :: k in ManagedRelProps(rel) ==>
      && k in RelCreationProps(env, rel, now) && RelCreationProps(env, rel, now)[k] == rel.props[k]
      && k in RelUpdateProps(env, rel, now) && RelUpdateProps(env, rel, now)[k] == rel.props[k]
    ensures forall k :: k !in rel.props && k !in AUTOMATIC_REL ==> k !in RelUpdateProps(env, rel, now)
  {
  }

  lemma UpdateKeepsRelMatches(env: Env, g: Graph, updated: GraphRelationship, s1: nat, t1: nat, now: int,
                              rel: GraphRelationship, s: nat, t: nat)
    requires PlannedRel(updated)
    ensures RelMatches(env, RelUpdated(env, g, updated, s1, t1, now), rel, s, t) == RelMatches(env, g, rel, s, t)
  {
    hide MergeProps, RelUpdateProps, PlannedRel, TemplateHashOf;
    var h := RelUpdated(env, g, updated, s1, t1, now);
    assert h.rels.Keys == g.rels.Keys;
    forall id | id in g.rels
      ensures id in RelMatches(env, h, rel, s, t) <==> id in RelMatches(env, g, rel, s, t)
    {
      if id in RelMatches(env, g, updated, s1, t1) {
        RelUpdateKeeps(env, updated, now, g.rels[id]);
      }
    }
  }

  lemma CreatedRelProps(env: Env, g: Graph, rel: GraphRelationship, s: nat, t: nat, now: int)
    requires PlannedRel(rel)
    ensures var h, id := RelCreated(env, g, rel, s, t, now), FreshId(g.rels.Keys);
      && h.rels.Keys == g.rels.Keys + {id}
      && (forall a :: a in g.rels ==> h.rels[a] == g.rels[a])
      && h.rels[id].source == s && h.rels[id].target == t && h.rels[id].kind == rel.kind
      && h.rels[id].props == MergeProps(map[], RelCreationProps(env, rel, now))
      && HasText(h.rels[id].props, FIELD_TEMPLATE_HASH, TemplateHashOf(env, rel))
  {
    RelCreationIsStamped(env, rel, now);
  }

  lemma CreatedRelSatisfies(env: Env, g: Graph, rel: GraphRelationship, s: nat, t: nat, now: int)
    requires CalmRel(rel) && RelMatches(env, g, rel, s, t) == {}
    ensures RelSatisfied(env, RelCreated(env, g, rel, s, t, now), rel, s, t)
  {
    hide MergeProps, RelCreationProps, ShouldUpdate, Settled, ManagedRelProps, TemplateHashOf;
    var h, id := RelCreated(env, g, rel, s, t, now), FreshId(g.rels.Keys);
    CreatedRelProps(env, g, rel, s, t, now);
    forall a | a in g.rels
      ensures a !in RelMatches(env, h, rel, s, t)
    {
      assert a !in RelMatches(env, g, rel, s, t);
    }
    assert RelMatches(env, h, rel, s, t) == {id};
    if rel.policy.MergeAtChange? {
      GivenRelProps(env, rel, now);
      WrittenRelPropsSettle(rel, map[], RelCreationProps(env, rel, now));
    }
  }

  lemma UpdatedRelSatisfies(env: Env, g: Graph, rel: GraphRelationship, s: nat, t: nat, now: int)
    requires CalmRel(rel) && |RelMatches(env, g, rel, s, t)| == 1
    ensures RelSatisfied(env, RelUpdated(env, g, rel, s, t, now), rel, s, t)
  {
    hide MergeProps, RelUpdateProps, ShouldUpdate, Settled, ManagedRelProps, TemplateHashOf;
    UpdateKeepsRelMatches(env, g, rel, s, t, now, rel, s, t);
    if rel.policy.MergeAtChange? {
      GivenRelProps(env, rel, now);
      forall id | id in RelMatches(env, g, rel, s, t)
        ensures !ShouldUpdate(RelUpdated(env, g, rel, s, t, now).rels[id].props, ManagedRelProps(rel))
      {
        WrittenRelPropsSettle(rel, g.rels[id].props, RelUpdateProps(env, rel, now));
      }
    }
  }

  lemma AppliedRelIsSatisfied(env: Env, tx: Tx, rel: GraphRelationship, s: nat, t: nat)
    requires CalmRel(rel) && UpsertRel(env, tx, rel, s, t).Ok?
    ensures RelSatisfied(env, UpsertRel(env, tx, rel, s, t).value.0.graph, rel, s, t)
    ensures IsIdentifier(rel.kind)
  {
    var g, now := tx.graph, env.clock(tx.tick);
    if |RelMatches(env, g, rel, s, t)| == 0 {
      CreatedRelSatisfies(env, g, rel, s, t, now);
    } else if RelNeedsUpdate(env, g, rel, s, t) {
      UpdatedRelSatisfies(env, g, rel, s, t, now);
    }
  }

  /* ----- a later relationship leaves an earlier one satisfied ----- */

  /** Compared relationships of the same type and template hash agree on shared keys. */
  predicate CompatibleRels(env: Env, earlier: GraphRelationship, later: GraphRelationship) {
    && earlier.policy.MergeAtChange? && later.policy.MergeAtChange?
    && earlier.kind == later.kind && TemplateHashOf(env, earlier) == TemplateHashOf(env, later) ==>
      Agree(ManagedRelProps(earlier), ManagedRelProps(later))
  }

  lemma AgreeingRelUpdateSettles(env: Env, earlier: GraphRelationship, later: GraphRelationship, current: Props, now: int)
    requires Settled(ManagedRelProps(later))
    requires Agree(ManagedRelProps(earlier), ManagedRelProps(later))
    requires !ShouldUpdate(current, ManagedRelProps(earlier))
    ensures !ShouldUpdate(MergeProps(current, RelUpdateProps(env, later, now)), ManagedRelProps(earlier))
  {
  }

  lemma CreationKeepsRelSatisfied(env: Env, g: Graph, earlier: GraphRelationship, s: nat, t: nat,
                                  later: GraphRelationship, s1: nat, t1: nat, now: int)
    requires PlannedRel(later)
    requires RelSatisfied(env, g, earlier, s, t) && RelMatches(env, g, later, s1, t1) == {}
    ensures RelSatisfied(env, RelCreated(env, g, later, s1, t1, now), earlier, s, t)
  {
    hide MergeProps, RelCreationProps, PlannedRel, ShouldUpdate, ManagedRelProps;
    var h, id := RelCreated(env, g, later, s1, t1, now), FreshId(g.rels.Keys);
    CreatedRelProps(env, g, later, s1, t1, now);
    var known :| known in RelMatches(env, g, earlier, s, t);
    assert known !in RelMatches(env, g, later, s1, t1);
    assert id !in RelMatches(env, h, earlier, s, t);
    assert RelMatches(env, h, earlier, s, t) == RelMatches(env, g, earlier, s, t);
  }

  lemma UpdateKeepsRelSatisfied(env: Env, g: Graph, earlier: GraphRelationship, s: nat, t: nat,
                                later: GraphRelationship, s1: nat, t1: nat, now: int)
    requires CalmRel(later) && later.policy.MergeAtChange? && CompatibleRels(env, earlier, later)
    requires RelSatisfied(env, g, earlier, s, t)
    ensures RelSatisfied(env, RelUpdated(env, g, later, s1, t1, now), earlier, s, t)
  {
    hide MergeProps, RelUpdateProps, ShouldUpdate, Agree, Settled, PlannedRel, ManagedRelProps, TemplateHashOf;
    UpdateKeepsRelMatches(env, g, later, s1, t1, now, earlier, s, t);
    if earlier.policy.MergeAtChange? {
      forall id | id in RelMatches(env, g, earlier, s, t)
        ensures !ShouldUpdate(RelUpdated(env, g, later, s1, t1, now).rels[id].props, ManagedRelProps(earlier))
      {
        if id in RelMatches(env, g, later, s1, t1) {
          assert Text(TemplateHashOf(env, earlier)) == Text(TemplateHashOf(env, later));
          AgreeingRelUpdateSettles(env, earlier, later, g.rels[id].props, now);
        }
      }
    }
  }

  lemma LaterRelKeepsSatisfied(env: Env, tx: Tx, earlier: GraphRelationship, s: nat, t: nat,
                               later: GraphRelationship, s1: nat, t1: nat)
    requires CalmRel(later) && CompatibleRels(env, earlier, later)
    requires RelSatisfied(env, tx.graph, earlier, s, t) && UpsertRel(env, tx, later, s1, t1).Ok?
    ensures RelSatisfied(env, UpsertRel(env, tx, later, s1, t1).value.0.graph, earlier, s, t)
  {
    var g, now := tx.graph, env.clock(tx.tick);
    if |RelMatches(env, g, later, s1, t1)| == 0 {
      CreationKeepsRelSatisfied(env, g, earlier, s, t, later, s1, t1, now);
    } else if RelNeedsUpdate(env, g, later, s1, t1) {
      UpdateKeepsRelSatisfied(env, g, earlier, s, t, later, s1, t1, now);
    }
  }

  /** The relationship written for a pair differs from the planned one only in z4j_rel_uid. */
  lemma ForMatchKeeps(env: Env, g: Graph, rel: GraphRelationship, s: MatchedNode, t: MatchedNode)
    ensures var r := RelationshipForMatch(env, rel, s, t);
      && r.kind == rel.kind && r.policy == rel.policy
      && TemplateHashOf(env, r) == TemplateHashOf(env, rel)
      && ManagedRelProps(r) == ManagedRelProps(rel)
      && (CalmRel(rel) ==> CalmRel(r))
  {
  }

  lemma ForMatchSatisfied(env: Env, g: Graph, rel: GraphRelationship, s: MatchedNode, t: MatchedNode, a: nat, b: nat)
    ensures RelSatisfied(env, g, RelationshipForMatch(env, rel, s, t), a, b) <==> RelSatisfied(env, g, rel, a, b)
  {
    hide RelationshipForMatch, ManagedRelProps, TemplateHashOf, CalmRel, ShouldUpdate;
    ForMatchKeeps(env, g, rel, s, t);
  }
}
