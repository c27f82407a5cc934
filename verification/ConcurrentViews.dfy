/**
 * The view of an open transaction: committed data under its own writes. Writes never
 * change an identity, so identities of the view are the committed ones and the created ones.
 */
module ConcurrentViews {
  import opened Values
  import opened Domain
  import opened Filters
  import opened Cypher
  import opened Upsert
  import opened Invariants
  import opened Concurrency

  /* ----- SET inside a transaction ----- */

  lemma MergeTwice(props: Props, first: Props, second: Props)
    ensures MergeProps(MergeProps(props, first), second) == MergeProps(props, first + second)
    ensures MergeProps(props, map[]) == props
  {
  }

  lemma SeenNodeAfterSet(node: Node, id: nat, sets: map<nat, Props>, ids: set<nat>, props: Props)
    ensures var seen := SeenNode(node, id, sets);
      SeenNode(node, id, MoreSets(sets, ids, props)) ==
        if id in ids then seen.(props := MergeProps(seen.props, props)) else seen
  {
    hide MergeProps;
    MergeTwice(node.props, if id in sets then sets[id] else map[], if id in ids then props else map[]);
    MergeTwice(node.props, props, map[]);
    assert map[] + props == props;
    assert id in sets ==> sets[id] + map[] == sets[id];
  }

  lemma SeenRelAfterSet(rel: Rel, id: nat, sets: map<nat, Props>, ids: set<nat>, props: Props)
    ensures var seen := SeenRel(rel, id, sets);
      SeenRel(rel, id, MoreSets(sets, ids, props)) ==
        if id in ids then seen.(props := MergeProps(seen.props, props)) else seen
  {
    hide MergeProps;
    MergeTwice(rel.props, if id in sets then sets[id] else map[], if id in ids then props else map[]);
    MergeTwice(rel.props, props, map[]);
    assert map[] + props == props;
    assert id in sets ==> sets[id] + map[] == sets[id];
  }

  /** Collecting a SET among the writes is applying it to the view. */
  lemma ViewAfterSetNodes(g: Graph, w: Pending, ids: set<nat>, props: Props)
    requires w.nodes.Keys !! g.nodes.Keys
    ensures Overlay(g, SetNodes(w, ids, props)) == SetOnNodes(Overlay(g, w), ids, props)
  {
    hide MergeProps, SeenNode, MoreSets, SeenRel;
    var left, right := Overlay(g, SetNodes(w, ids, props)).nodes, SetOnNodes(Overlay(g, w), ids, props).nodes;
    assert left.Keys == right.Keys;
    forall id | id in left
      ensures left[id] == right[id]
    {
      if id in g.nodes {
        SeenNodeAfterSet(g.nodes[id], id, w.nodeSets, ids - w.nodes.Keys, props);
      }
    }
  }

  lemma ViewAfterSetRels(g: Graph, w: Pending, ids: set<nat>, props: Props)
    requires w.rels.Keys !! g.rels.Keys
    ensures Overlay(g, SetRels(w, ids, props)) == SetOnRels(Overlay(g, w), ids, props)
  {
    hide MergeProps, SeenNode, MoreSets, SeenRel;
    var left, right := Overlay(g, SetRels(w, ids, props)).rels, SetOnRels(Overlay(g, w), ids, props).rels;
    assert left.Keys == right.Keys;
    forall id | id in left
      ensures left[id] == right[id]
    {
      if id in g.rels {
        SeenRelAfterSet(g.rels[id], id, w.relSets, ids - w.rels.Keys, props);
      }
    }
  }

  /* ----- identities ----- */

  datatype NodeKey = NodeKey(labels: set<string>, name: string)

  function NodeIdents(nodes: map<nat, Node>): map<nat, NodeKey> {
    map id | id in nodes && NAME in nodes[id].props && nodes[id].props[NAME].Text?
      :: NodeKey(nodes[id].labels, nodes[id].props[NAME].s)
  }

  function RelIdents(rels: map<nat, Rel>): map<nat, Link> {
    map id | id in rels && FIELD_TEMPLATE_HASH in rels[id].props && rels[id].props[FIELD_TEMPLATE_HASH].Text?
      :: Link(rels[id].source, rels[id].target, rels[id].kind, rels[id].props[FIELD_TEMPLATE_HASH].s)
  }

  /** A SET that writes a key writes the value that is already there. */
  predicate Repeats(props: Props, sets: Props, key: string) {
    key in sets ==> key in props && props[key] == sets[key] && sets[key] != Null
  }

  predicate NodesTidy(nodes: map<nat, Node>, created: map<nat, Node>, sets: map<nat, Props>) {
    && created.Keys !! nodes.Keys
    && forall id :: id in sets ==> id in nodes && Repeats(nodes[id].props, sets[id], NAME)
  }

  predicate RelsTidy(rels: map<nat, Rel>, created: map<nat, Rel>, sets: map<nat, Props>) {
    && created.Keys !! rels.Keys
    && forall id :: id in sets ==> id in rels && Repeats(rels[id].props, sets[id], FIELD_TEMPLATE_HASH)
  }

  /** Created elements are new, and no write changes a name or a template hash. */
  predicate Tidy(g: Graph, w: Pending) {
    NodesTidy(g.nodes, w.nodes, w.nodeSets) && RelsTidy(g.rels, w.rels, w.relSets)
  }

  lemma SeenNodeIdent(node: Node, id: nat, sets: map<nat, Props>)
    requires id in sets ==> Repeats(node.props, sets[id], NAME)
    ensures var seen := SeenNode(node, id, sets); seen.labels == node.labels && SameAt(seen.props, node.props, NAME)
  {
  }

  lemma SeenRelIdent(rel: Rel, id: nat, sets: map<nat, Props>)
    requires id in sets ==> Repeats(rel.props, sets[id], FIELD_TEMPLATE_HASH)
    ensures var seen := SeenRel(rel, id, sets); seen == rel.(props := seen.props) && SameAt(seen.props, rel.props, FIELD_TEMPLATE_HASH)
  {
  }

  lemma OverlayNodeIdents(g: Graph, w: Pending)
    requires Tidy(g, w)
    ensures NodeIdents(Overlay(g, w).nodes) == NodeIdents(g.nodes) + NodeIdents(w.nodes)
  {
    hide SeenNode, SeenRel, Repeats, RelsTidy;
    var seen := Overlay(g, w).nodes;
    forall id | id in g.nodes
      ensures id in seen && seen[id].labels == g.nodes[id].labels && SameAt(seen[id].props, g.nodes[id].props, NAME)
    {
      SeenNodeIdent(g.nodes[id], id, w.nodeSets);
    }
  }

  lemma RelIdentsOfBoth(a: map<nat, Rel>, b: map<nat, Rel>)
    requires a.Keys !! b.Keys
    ensures RelIdents(a + b) == RelIdents(a) + RelIdents(b)
  {
  }

  lemma OverlayRelIdents(g: Graph, w: Pending)
    requires Tidy(g, w)
    ensures RelIdents(Overlay(g, w).rels) == RelIdents(g.rels) + RelIdents(w.rels)
  {
    hide SeenNode, SeenRel, Repeats, NodesTidy;
    var seen := map id | id in g.rels :: SeenRel(g.rels[id], id, w.relSets);
    forall id | id in g.rels
      ensures seen[id] == g.rels[id].(props := seen[id].props) && SameAt(seen[id].props, g.rels[id].props, FIELD_TEMPLATE_HASH)
    {
      SeenRelIdent(g.rels[id], id, w.relSets);
    }
    assert RelIdents(seen) == RelIdents(g.rels);
    RelIdentsOfBoth(seen, w.rels);
  }

  /* ----- what commits keep ----- */

  predicate NodesKept(before: map<nat, Node>, after: map<nat, Node>) {
    forall id :: id in before ==>
      id in after && after[id].labels == before[id].labels && SameAt(before[id].props, after[id].props, NAME)
  }

  predicate RelsKept(before: map<nat, Rel>, after: map<nat, Rel>) {
    forall id :: id in before ==>
      && id in after && after[id].source == before[id].source && after[id].target == before[id].target
      && after[id].kind == before[id].kind && SameAt(before[id].props, after[id].props, FIELD_TEMPLATE_HASH)
  }

  /** Nothing disappears and no identity changes. */
  predicate Kept(g: Graph, h: Graph) {
    NodesKept(g.nodes, h.nodes) && RelsKept(g.rels, h.rels)
  }

  lemma OverlayKeeps(g: Graph, w: Pending)
    requires Tidy(g, w)
    ensures Kept(g, Overlay(g, w))
  {
  }

  lemma KeptTransitive(f: Graph, g: Graph, h: Graph)
    requires Kept(f, g) && Kept(g, h)
    ensures Kept(f, h)
  {
  }

  /** Open writes stay tidy when another transaction commits, if it created other elements. */
  lemma StaysTidy(g: Graph, h: Graph, w: Pending)
    requires Tidy(g, w) && Kept(g, h)
    requires h.nodes.Keys !! w.nodes.Keys && h.rels.Keys !! w.rels.Keys
    ensures Tidy(h, w)
  {
  }

  /* ----- the writes of one step ----- */

  /** A name among a node's properties is its own name, as the planner makes it. */
  predicate Named(node: GraphNode) {
    NAME in node.props ==> node.props[NAME] == Text(node.name)
  }

  predicate NamedPlan(plan: MutationPlan) {
    forall n :: n in plan.nodes ==> Named(n)
  }

  lemma UpdateRepeatsName(g: Graph, w: Pending, node: GraphNode, now: int, id: nat)
    requires Tidy(g, w) && Named(node) && id in NodeMatches(Overlay(g, w), node) && id !in w.nodes
    ensures id in g.nodes && Repeats(g.nodes[id].props, UpdateProps(node, now), NAME)
  {
    FieldsDistinct();
  }

  lemma MoreNodeSetsTidy(nodes: map<nat, Node>, created: map<nat, Node>, sets: map<nat, Props>, ids: set<nat>, props: Props)
    requires NodesTidy(nodes, created, sets)
    requires forall id :: id in ids ==> id in nodes && Repeats(nodes[id].props, props, NAME)
    ensures NodesTidy(nodes, created, MoreSets(sets, ids, props))
  {
  }

  lemma MoreRelSetsTidy(rels: map<nat, Rel>, created: map<nat, Rel>, sets: map<nat, Props>, ids: set<nat>, props: Props)
    requires RelsTidy(rels, created, sets)
    requires forall id :: id in ids ==> id in rels && Repeats(rels[id].props, props, FIELD_TEMPLATE_HASH)
    ensures RelsTidy(rels, created, MoreSets(sets, ids, props))
  {
  }

  lemma NodeIdentsAfterSet(nodes: map<nat, Node>, ids: set<nat>, props: Props)
    requires forall id :: id in nodes && id in ids ==> Repeats(nodes[id].props, props, NAME)
    ensures NodeIdents(map id | id in nodes ::
      if id in ids then nodes[id].(props := MergeProps(nodes[id].props, props)) else nodes[id]) == NodeIdents(nodes)
  {
  }

  lemma RelIdentsAfterSet(rels: map<nat, Rel>, ids: set<nat>, props: Props)
    requires forall id :: id in rels && id in ids ==> Repeats(rels[id].props, props, FIELD_TEMPLATE_HASH)
    ensures RelIdents(map id | id in rels ::
      if id in ids then rels[id].(props := MergeProps(rels[id].props, props)) else rels[id]) == RelIdents(rels)
  {
  }

  lemma SetNodesTidy(g: Graph, w: Pending, node: GraphNode, now: int)
    requires Tidy(g, w) && Named(node)
    ensures var next := SetNodes(w, NodeMatches(Overlay(g, w), node), UpdateProps(node, now));
      Tidy(g, next) && next.nodes.Keys == w.nodes.Keys && next.rels == w.rels
      && NodeIdents(next.nodes) == NodeIdents(w.nodes)
  {
    hide UpdateProps, NodeMatches, NodeIdents, MoreSets, Repeats, Overlay, MergeProps, RelsTidy;
    var ids, props := NodeMatches(Overlay(g, w), node), UpdateProps(node, now);
    forall id | id in ids && id !in w.nodes
      ensures id in g.nodes && Repeats(g.nodes[id].props, props, NAME)
    {
      UpdateRepeatsName(g, w, node, now, id);
    }
    forall id | id in w.nodes && id in ids
      ensures Repeats(w.nodes[id].props, props, NAME)
    {
      OwnUpdateRepeatsName(g, w, node, now, id);
    }
    MoreNodeSetsTidy(g.nodes, w.nodes, w.nodeSets, ids - w.nodes.Keys, props);
    NodeIdentsAfterSet(w.nodes, ids, props);
  }

  lemma OwnUpdateRepeatsName(g: Graph, w: Pending, node: GraphNode, now: int, id: nat)
    requires Named(node) && id in NodeMatches(Overlay(g, w), node) && id in w.nodes
    ensures Repeats(w.nodes[id].props, UpdateProps(node, now), NAME)
  {
    FieldsDistinct();
  }

  lemma UpdateRepeatsHash(env: Env, g: Graph, w: Pending, rel: GraphRelationship, s: nat, t: nat, now: int, id: nat)
    requires Tidy(g, w) && id in RelMatches(env, Overlay(g, w), rel, s, t)
    ensures id !in w.rels ==> id in g.rels && Repeats(g.rels[id].props, RelUpdateProps(env, rel, now), FIELD_TEMPLATE_HASH)
    ensures id in w.rels ==> Repeats(w.rels[id].props, RelUpdateProps(env, rel, now), FIELD_TEMPLATE_HASH)
  {
    FieldsDistinct();
  }

  lemma SetRelsTidy(env: Env, g: Graph, w: Pending, rel: GraphRelationship, s: nat, t: nat, now: int)
    requires Tidy(g, w)
    ensures var next := SetRels(w, RelMatches(env, Overlay(g, w), rel, s, t), RelUpdateProps(env, rel, now));
      Tidy(g, next) && next.rels.Keys == w.rels.Keys && next.nodes == w.nodes
      && RelIdents(next.rels) == RelIdents(w.rels)
  {
    hide RelUpdateProps, RelMatches, RelIdents, MoreSets, Repeats, Overlay, MergeProps, NodesTidy;
    var ids, props := RelMatches(env, Overlay(g, w), rel, s, t), RelUpdateProps(env, rel, now);
    forall id | id in ids
      ensures id !in w.rels ==> id in g.rels && Repeats(g.rels[id].props, props, FIELD_TEMPLATE_HASH)
      ensures id in w.rels ==> Repeats(w.rels[id].props, props, FIELD_TEMPLATE_HASH)
    {
      UpdateRepeatsHash(env, g, w, rel, s, t, now, id);
    }
    MoreRelSetsTidy(g.rels, w.rels, w.relSets, ids - w.rels.Keys, props);
    RelIdentsAfterSet(w.rels, ids, props);
  }

  lemma NewNodeIdent(node: GraphNode, now: int)
    requires Named(node)
    ensures var n := NewNode(node, now);
      NAME in n.props && n.props[NAME] == Text(node.name) && n.labels == LabelSet(node.types)
  {
    FieldsDistinct();
  }

  lemma NewRelIdent(env: Env, rel: GraphRelationship, s: nat, t: nat, now: int)
    ensures var r := NewRel(env, rel, s, t, now);
      && FIELD_TEMPLATE_HASH in r.props && r.props[FIELD_TEMPLATE_HASH] == Text(TemplateHashOf(env, rel))
      && r.source == s && r.target == t && r.kind == rel.kind
  {
    FieldsDistinct();
  }
}
