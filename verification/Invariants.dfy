/**
 * What every create and update keeps: identities stay unique, identity and
 * creation time never change, and the counters count the graph's growth.
 */
module Invariants {
  import opened Prelude
  import opened Values
  import opened Domain
  import opened Cypher
  import opened Upsert

  /* ----- plans as the planner builds them ----- */

  predicate ClockFree(props: Props) {
    FIELD_CREATED_AT !in props && FIELD_UPDATED_AT !in props && FIELD_EXPIRES_AT !in props
  }

  predicate PlannedNode(node: GraphNode) {
    ClockFree(node.props) && (NAME in node.props ==> node.props[NAME] == Text(node.name))
  }

  predicate PlannedRel(rel: GraphRelationship) {
    ClockFree(rel.props)
  }

  predicate Planned(plan: MutationPlan) {
    (forall n :: n in plan.nodes ==> PlannedNode(n)) &&
    (forall r :: r in plan.relationships ==> PlannedRel(r))
  }

  /* ----- the invariants ----- */

  predicate SameNodeIdentity(a: Node, b: Node) {
    a.labels == b.labels && NAME in a.props && NAME in b.props
    && a.props[NAME].Text? && a.props[NAME] == b.props[NAME]
  }

  predicate SameRelIdentity(a: Rel, b: Rel) {
    a.source == b.source && a.target == b.target && a.kind == b.kind
    && FIELD_TEMPLATE_HASH in a.props && FIELD_TEMPLATE_HASH in b.props
    && a.props[FIELD_TEMPLATE_HASH].Text? && a.props[FIELD_TEMPLATE_HASH] == b.props[FIELD_TEMPLATE_HASH]
  }

  /** At most one node per exact label set and name. */
  predicate UniqueNodes(g: Graph) {
    forall a, b :: a in g.nodes && b in g.nodes && SameNodeIdentity(g.nodes[a], g.nodes[b]) ==> a == b
  }

  /** At most one relationship per source, target, type and template hash. */
  predicate UniqueRels(g: Graph) {
    forall a, b :: a in g.rels && b in g.rels && SameRelIdentity(g.rels[a], g.rels[b]) ==> a == b
  }

  predicate SameAt(p: Props, q: Props, key: string) {
    (key in p <==> key in q) && (key in p ==> p[key] == q[key])
  }

  predicate KeepsNode(a: Node, b: Node) {
    a.labels == b.labels && SameAt(a.props, b.props, NAME) && SameAt(a.props, b.props, FIELD_CREATED_AT)
  }

  predicate KeepsRel(a: Rel, b: Rel) {
    a.source == b.source && a.target == b.target && a.kind == b.kind
    && SameAt(a.props, b.props, FIELD_TEMPLATE_HASH) && SameAt(a.props, b.props, FIELD_CREATED_AT)
  }

  /** Nothing disappears, and no identity or creation time changes. */
  predicate Extends(g: Graph, h: Graph) {
    (forall id :: id in g.nodes ==> id in h.nodes && KeepsNode(g.nodes[id], h.nodes[id])) &&
    (forall id :: id in g.rels ==> id in h.rels && KeepsRel(g.rels[id], h.rels[id]))
  }

  predicate Stamped(props: Props, now: int) {
    FIELD_CREATED_AT in props && FIELD_UPDATED_AT in props
    && props[FIELD_CREATED_AT].Stamp? && props[FIELD_UPDATED_AT].Stamp?
    && props[FIELD_CREATED_AT].seconds <= props[FIELD_UPDATED_AT].seconds <= now
  }

  /** Everything was created no later than it was last updated, and not in the future. */
  predicate AllStamped(g: Graph, now: int) {
    (forall id :: id in g.nodes ==> Stamped(g.nodes[id].props, now)) &&
    (forall id :: id in g.rels ==> Stamped(g.rels[id].props, now))
  }

  lemma FieldsDistinct()
    ensures NAME !in AUTOMATIC_NODE && NAME !in AUTOMATIC_REL
    ensures FIELD_CREATED_AT != FIELD_UPDATED_AT && FIELD_CREATED_AT != FIELD_EXPIRES_AT
    ensures FIELD_UPDATED_AT != FIELD_EXPIRES_AT
    ensures FIELD_TEMPLATE_HASH !in AUTOMATIC_NODE
    ensures FIELD_REL_UID !in {FIELD_TEMPLATE_HASH, FIELD_CREATED_AT, FIELD_UPDATED_AT, FIELD_EXPIRES_AT}
    ensures FIELD_NODE_UID !in {FIELD_CREATED_AT, FIELD_UPDATED_AT, FIELD_EXPIRES_AT, FIELD_TEMPLATE_HASHES, FIELD_ORIGIN, NAME}
    ensures FIELD_ORIGIN !in {FIELD_CREATED_AT, FIELD_UPDATED_AT, FIELD_EXPIRES_AT, NAME, FIELD_TEMPLATE_HASH, FIELD_REL_UID}
    ensures FIELD_TEMPLATE_HASHES !in {FIELD_CREATED_AT, FIELD_UPDATED_AT, FIELD_EXPIRES_AT, NAME, FIELD_ORIGIN}
  {
  }

  lemma ExtendsReflexive(g: Graph)
    ensures Extends(g, g)
  {
  }

  lemma ExtendsTransitive(f: Graph, g: Graph, h: Graph)
    requires Extends(f, g) && Extends(g, h)
    ensures Extends(f, h)
  {
    forall id | id in f.nodes
      ensures id in h.nodes && KeepsNode(f.nodes[id], h.nodes[id])
    {
      assert KeepsNode(f.nodes[id], g.nodes[id]) && KeepsNode(g.nodes[id], h.nodes[id]);
    }
    forall id | id in f.rels
      ensures id in h.rels && KeepsRel(f.rels[id], h.rels[id])
    {
      assert KeepsRel(f.rels[id], g.rels[id]) && KeepsRel(g.rels[id], h.rels[id]);
    }
  }

  /* ----- one node ----- */

  lemma NodeUpdateKeeps(g: Graph, node: GraphNode, now: int, id: nat)
    requires PlannedNode(node) && id in g.nodes
    ensures KeepsNode(g.nodes[id], NodeUpdated(g, node, now).nodes[id])
    ensures Stamped(g.nodes[id].props, now) ==> Stamped(NodeUpdated(g, node, now).nodes[id].props, now)
  {
    FieldsDistinct();
    if id in NodeMatches(g, node) {
      var given := UpdateProps(node, now);
      assert NAME in given ==> given[NAME] == Text(node.name);
      assert FIELD_CREATED_AT !in given;
      assert given[FIELD_UPDATED_AT] == Stamp(now);
    }
  }

  lemma NodeCreationIsStamped(node: GraphNode, now: int)
    requires PlannedNode(node)
    ensures var props := MergeProps(map[NAME := Text(node.name)], CreationProps(node, now));
      HasText(props, NAME, node.name) && Stamped(props, now)
  {
  }

  /** No node matches, so in particular none has the created node's identity. */
  lemma NodeCreationKeepsUnique(g: Graph, node: GraphNode, now: int)
    requires PlannedNode(node) && UniqueNodes(g) && NodeMatches(g, node) == {}
    ensures UniqueNodes(NodeCreated(g, node, now))
  {
    NodeCreationIsStamped(node, now);
    var h := NodeCreated(g, node, now);
    var id := FreshId(g.nodes.Keys);
    forall a | a in g.nodes
      ensures !SameNodeIdentity(g.nodes[a], h.nodes[id]) && !SameNodeIdentity(h.nodes[id], g.nodes[a])
    {
      assert a !in NodeMatches(g, node);
    }
  }

  lemma NodeUpdateKeepsUnique(g: Graph, node: GraphNode, now: int)
    requires PlannedNode(node) && UniqueNodes(g)
    ensures UniqueNodes(NodeUpdated(g, node, now))
  {
    var h := NodeUpdated(g, node, now);
    forall a, b | a in h.nodes && b in h.nodes && SameNodeIdentity(h.nodes[a], h.nodes[b])
      ensures a == b
    {
      NodeUpdateKeeps(g, node, now, a);
      NodeUpdateKeeps(g, node, now, b);
      assert SameNodeIdentity(g.nodes[a], g.nodes[b]);
    }
  }

  /** What a change from g to h keeps, between two clock readings. */
  predicate Keeps(g: Graph, h: Graph, before: int, after: int) {
    && Extends(g, h)
    && (UniqueNodes(g) ==> UniqueNodes(h))
    && (UniqueRels(g) ==> UniqueRels(h))
    && (AllStamped(g, before) ==> AllStamped(h, after))
  }

  lemma KeepsReflexive(g: Graph, before: int, after: int)
    requires before <= after
    ensures Keeps(g, g, before, after)
  {
  }

  lemma KeepsTransitive(f: Graph, g: Graph, h: Graph, t0: int, t1: int, t2: int)
    requires Keeps(f, g, t0, t1) && Keeps(g, h, t1, t2)
    ensures Keeps(f, h, t0, t2)
  {
    ExtendsTransitive(f, g, h);
  }

  lemma AddedNodeExtends(g: Graph, id: nat, node: Node)
    requires id !in g.nodes
    ensures Extends(g, g.(nodes := g.nodes[id := node]))
  {
  }

  lemma AddedNodeStamped(g: Graph, id: nat, node: Node, now: int, later: int)
    requires id !in g.nodes && Stamped(node.props, now) && now <= later && AllStamped(g, now)
    ensures AllStamped(g.(nodes := g.nodes[id := node]), later)
  {
  }

  lemma NodeCreatedStep(g: Graph, node: GraphNode, now: int, later: int)
    requires PlannedNode(node) && NodeMatches(g, node) == {} && now <= later
    ensures Keeps(g, NodeCreated(g, node, now), now, later)
    ensures |NodeCreated(g, node, now).nodes| == |g.nodes| + 1
    ensures NodeCreated(g, node, now).rels == g.rels
  {
    var h, id := NodeCreated(g, node, now), FreshId(g.nodes.Keys);
    assert h.nodes.Keys == g.nodes.Keys + {id};
    AddedNodeExtends(g, id, h.nodes[id]);
    if UniqueNodes(g) {
      NodeCreationKeepsUnique(g, node, now);
    }
    if AllStamped(g, now) {
      NodeCreationIsStamped(node, now);
      AddedNodeStamped(g, id, h.nodes[id], now, later);
    }
  }

  lemma StampedLater(props: Props, now: int, later: int)
    requires now <= later
    ensures Stamped(props, now) ==> Stamped(props, later)
  {
  }

  lemma NodeUpdatedStep(g: Graph, node: GraphNode, now: int, later: int)
    requires PlannedNode(node) && now <= later
    ensures Keeps(g, NodeUpdated(g, node, now), now, later)
    ensures |NodeUpdated(g, node, now).nodes| == |g.nodes|
    ensures NodeUpdated(g, node, now).rels == g.rels
  {
    hide MergeProps, UpdateProps, KeepsNode, Stamped, PlannedNode;
    var h := NodeUpdated(g, node, now);
    assert h.nodes.Keys == g.nodes.Keys;
    forall id | id in g.nodes
      ensures KeepsNode(g.nodes[id], h.nodes[id])
      ensures Stamped(g.nodes[id].props, now) ==> Stamped(h.nodes[id].props, later)
    {
      NodeUpdateKeeps(g, node, now, id);
      StampedLater(h.nodes[id].props, now, later);
    }
    forall id | id in g.rels
      ensures KeepsRel(g.rels[id], h.rels[id])
      ensures Stamped(g.rels[id].props, now) ==> Stamped(h.rels[id].props, later)
    {
      StampedLater(h.rels[id].props, now, later);
    }
    if UniqueNodes(g) {
      NodeUpdateKeepsUnique(g, node, now);
    }
  }

  lemma NodeStep(env: Env, tx: Tx, node: GraphNode)
    requires Monotone(env) && PlannedNode(node)
    requires ApplyNode(env, tx, node).Ok?
    ensures var (after, action) := ApplyNode(env, tx, node).value;
      && after.tick == tx.tick + 1
      && after.graph.rels == tx.graph.rels
      && Keeps(tx.graph, after.graph, env.clock(tx.tick), env.clock(after.tick))
      && |after.graph.nodes| == |tx.graph.nodes| + (if action.Created? then 1 else 0)
      && (action.Skipped? ==> after.graph == tx.graph)
  {
    hide Keeps, NodeCreated, NodeUpdated, PlannedNode, NodeNeedsUpdate;
    var now, later := env.clock(tx.tick), env.clock(tx.tick + 1);
    if NodeMatches(tx.graph, node) == {} {
      NodeCreatedStep(tx.graph, node, now, later);
    } else {
      NodeUpdatedStep(tx.graph, node, now, later);
      KeepsReflexive(tx.graph, now, later);
    }
  }

  /* ----- one relationship ----- */

  lemma RelCreationIsStamped(env: Env, rel: GraphRelationship, now: int)
    requires PlannedRel(rel)
    ensures var props := MergeProps(map[], RelCreationProps(env, rel, now));
      HasText(props, FIELD_TEMPLATE_HASH, TemplateHashOf(env, rel)) && Stamped(props, now)
  {
    FieldsDistinct();
    var given := RelCreationProps(env, rel, now);
    assert given[FIELD_CREATED_AT] == Stamp(now) && given[FIELD_UPDATED_AT] == Stamp(now);
    assert given[FIELD_TEMPLATE_HASH] == Text(TemplateHashOf(env, rel));
  }

  lemma RelUpdateKeeps(env: Env, rel: GraphRelationship, now: int, r: Rel)
    requires PlannedRel(rel) && HasText(r.props, FIELD_TEMPLATE_HASH, TemplateHashOf(env, rel))
    ensures var after := r.(props := MergeProps(r.props, RelUpdateProps(env, rel, now)));
      KeepsRel(r, after) && (Stamped(r.props, now) ==> Stamped(after.props, now))
  {
  }

  function RelCreated(env: Env, g: Graph, rel: GraphRelationship, s: nat, t: nat, now: int): Graph {
    CreateRel(g, s, t, rel.kind, RelCreationProps(env, rel, now))
  }

  function RelUpdated(env: Env, g: Graph, rel: GraphRelationship, s: nat, t: nat, now: int): Graph {
    SetOnRels(g, RelMatches(env, g, rel, s, t), RelUpdateProps(env, rel, now))
  }

  lemma RelCreationKeepsUnique(env: Env, g: Graph, rel: GraphRelationship, s: nat, t: nat, now: int)
    requires PlannedRel(rel) && UniqueRels(g) && RelMatches(env, g, rel, s, t) == {}
    ensures UniqueRels(RelCreated(env, g, rel, s, t, now))
  {
    RelCreationIsStamped(env, rel, now);
    var h := RelCreated(env, g, rel, s, t, now);
    var id := FreshId(g.rels.Keys);
    forall a | a in g.rels
      ensures !SameRelIdentity(g.rels[a], h.rels[id]) && !SameRelIdentity(h.rels[id], g.rels[a])
    {
      assert a !in RelMatches(env, g, rel, s, t);
    }
  }

  lemma AddedRelExtends(g: Graph, id: nat, rel: Rel)
    requires id !in g.rels
    ensures Extends(g, g.(rels := g.rels[id := rel]))
  {
  }

  lemma AddedRelStamped(g: Graph, id: nat, rel: Rel, now: int, later: int)
    requires id !in g.rels && Stamped(rel.props, now) && now <= later && AllStamped(g, now)
    ensures AllStamped(g.(rels := g.rels[id := rel]), later)
  {
  }

  lemma RelCreatedStep(env: Env, g: Graph, rel: GraphRelationship, s: nat, t: nat, now: int, later: int)
    requires PlannedRel(rel) && RelMatches(env, g, rel, s, t) == {} && now <= later
    ensures var h := RelCreated(env, g, rel, s, t, now);
      Keeps(g, h, now, later) && |h.rels| == |g.rels| + 1 && h.nodes == g.nodes
  {
    hide RelCreationProps;
    var h, id := RelCreated(env, g, rel, s, t, now), FreshId(g.rels.Keys);
    assert h.rels.Keys == g.rels.Keys + {id};
    AddedRelExtends(g, id, h.rels[id]);
    if UniqueRels(g) {
      RelCreationKeepsUnique(env, g, rel, s, t, now);
    }
    if AllStamped(g, now) {
      RelCreationIsStamped(env, rel, now);
      AddedRelStamped(g, id, h.rels[id], now, later);
    }
  }

  lemma KeptRelsStayUnique(g: Graph, h: Graph)
    requires UniqueRels(g) && h.rels.Keys == g.rels.Keys
    requires forall id :: id in g.rels ==> KeepsRel(g.rels[id], h.rels[id])
    ensures UniqueRels(h)
  {
  }

  lemma RelUpdatedStep(env: Env, g: Graph, rel: GraphRelationship, s: nat, t: nat, now: int, later: int)
    requires PlannedRel(rel) && now <= later
    ensures var h := RelUpdated(env, g, rel, s, t, now);
      Keeps(g, h, now, later) && |h.rels| == |g.rels| && h.nodes == g.nodes
  {
    hide MergeProps, RelUpdateProps, KeepsRel, Stamped, PlannedRel, TemplateHashOf;
    var h := RelUpdated(env, g, rel, s, t, now);
    assert h.rels.Keys == g.rels.Keys;
    forall id | id in g.rels
      ensures KeepsRel(g.rels[id], h.rels[id])
      ensures Stamped(g.rels[id].props, now) ==> Stamped(h.rels[id].props, later)
    {
      if id in RelMatches(env, g, rel, s, t) {
        RelUpdateKeeps(env, rel, now, g.rels[id]);
      } else {
        RelKeepsItself(g.rels[id]);
      }
      StampedLater(h.rels[id].props, now, later);
    }
    forall id | id in g.nodes
      ensures Stamped(g.nodes[id].props, now) ==> Stamped(h.nodes[id].props, later)
    {
      StampedLater(h.nodes[id].props, now, later);
    }
    ExtendsReflexive(g);
    if UniqueRels(g) {
      KeptRelsStayUnique(g, h);
    }
  }

  lemma RelKeepsItself(r: Rel)
    ensures KeepsRel(r, r)
  {
  }

  lemma ForMatchStaysPlanned(env: Env, rel: GraphRelationship, s: MatchedNode, t: MatchedNode)
    ensures PlannedRel(rel) ==> PlannedRel(RelationshipForMatch(env, rel, s, t))
  {
  }

  lemma RelStep(env: Env, tx: Tx, rel: GraphRelationship, s: nat, t: nat)
    requires Monotone(env) && PlannedRel(rel)
    requires UpsertRel(env, tx, rel, s, t).Ok?
    ensures var (after, action) := UpsertRel(env, tx, rel, s, t).value;
      && after.tick == tx.tick + 1
      && after.graph.nodes == tx.graph.nodes
      && Keeps(tx.graph, after.graph, env.clock(tx.tick), env.clock(after.tick))
      && |after.graph.rels| == |tx.graph.rels| + (if action.Created? then 1 else 0)
      && (action.Skipped? ==> after.graph == tx.graph)
  {
    hide Keeps, CreateRel, SetOnRels, PlannedRel, RelNeedsUpdate, RelMatches;
    var now, later := env.clock(tx.tick), env.clock(tx.tick + 1);
    if RelMatches(env, tx.graph, rel, s, t) == {} {
      RelCreatedStep(env, tx.graph, rel, s, t, now, later);
    } else {
      RelUpdatedStep(env, tx.graph, rel, s, t, now, later);
      KeepsReflexive(tx.graph, now, later);
    }
  }

  /** From a graph with unique relationships the ambiguity error cannot arise. */
  lemma NoAmbiguousRelationship(env: Env, tx: Tx, rel: GraphRelationship, s: nat, t: nat)
    requires UniqueRels(tx.graph)
    ensures UpsertRel(env, tx, rel, s, t) != Err(AmbiguousRelationshipMatch)
  {
    var ids := RelMatches(env, tx.graph, rel, s, t);
    if ids != {} {
      var a :| a in ids;
      forall b | b in ids
        ensures a == b
      {
        assert SameRelIdentity(tx.graph.rels[a], tx.graph.rels[b]);
      }
      assert ids == {a};
    }
  }
}
