/**
 * What the graph holds after a successful application, said by the keys of the plan's
 * element alone: what is carried, and when nothing is written.
 */
module PostStates {
  import opened Values
  import opened Domain
  import opened Filters
  import opened Cypher
  import opened Upsert
  import opened Invariants

  /* ----- nodes ----- */

  /** A property of the user, with a value that can be stored and compared. */
  predicate Asked(props: Props, k: string) {
    k in props && !Reserved(k) && props[k] != Null && NaNFree(props[k])
  }

  predicate Carries(current: Props, asked: Props, k: string)
    requires k in asked
  {
    k in current && Equal(current[k], asked[k])
  }

  /** A node with the labels and the name. */
  predicate Identified(n: Node, node: GraphNode) {
    LabelSet(node.types) <= n.labels && HasText(n.props, NAME, node.name)
  }

  lemma NotAutomatic(k: string)
    requires !Reserved(k)
    ensures k !in AUTOMATIC_NODE && k !in AUTOMATIC_REL
  {
    assert Reserved(FIELD_NODE_UID) && Reserved(FIELD_REL_UID) && Reserved(FIELD_ORIGIN) && Reserved(FIELD_CREATED_AT);
    assert Reserved(FIELD_UPDATED_AT) && Reserved(FIELD_EXPIRES_AT);
    assert Reserved(FIELD_TEMPLATE_HASHES) && Reserved(FIELD_TEMPLATE_HASH);
  }

  lemma WrittenIsCarried(current: Props, given: Props, asked: Props, k: string)
    requires Asked(asked, k) && k in given && given[k] == asked[k]
    ensures Carries(MergeProps(current, given), asked, k)
  {
    EqualReflexiveExactly(asked[k]);
  }

  /**
   * After merge and merge_at_change every node with the labels and the name carries
   * every value that was asked for.
   */
  lemma NodeCarries(env: Env, tx: Tx, node: GraphNode, id: nat, k: string)
    requires ApplyNode(env, tx, node).Ok? && (node.policy.Merge? || node.policy.MergeAtChange?) && Asked(node.props, k)
    ensures var h := ApplyNode(env, tx, node).value.0.graph;
      id in h.nodes && Identified(h.nodes[id], node) ==> Carries(h.nodes[id].props, node.props, k)
  {
    hide MergeProps, Equal, Asked, Carries;
    var g, now := tx.graph, env.clock(tx.tick);
    var h := ApplyNode(env, tx, node).value.0.graph;
    if id in h.nodes && Identified(h.nodes[id], node) {
      GivenIsAsked(node, now, k);
      if NodeMatches(g, node) == {} {
        assert id in g.nodes ==> id !in NodeMatches(g, node);
        WrittenIsCarried(map[NAME := Text(node.name)], CreationProps(node, now), node.props, k);
      } else if NodeNeedsUpdate(g, node) {
        UpdateMatched(g, node, now, id);
        WrittenIsCarried(g.nodes[id].props, UpdateProps(node, now), node.props, k);
      } else {
        assert id in NodeMatches(g, node);
        UnchangedCarries(g, node, id, k);
      }
    }
  }

  lemma GivenIsAsked(node: GraphNode, now: int, k: string)
    requires Asked(node.props, k)
    ensures k !in AUTOMATIC_NODE && k in node.props && k in CreationProps(node, now) && CreationProps(node, now)[k] == node.props[k]
    ensures k in UpdateProps(node, now) && UpdateProps(node, now)[k] == node.props[k]
  {
    NotAutomatic(k);
  }

  /** A node that has the identity after an update is one that was updated. */
  lemma UpdateMatched(g: Graph, node: GraphNode, now: int, id: nat)
    requires id in g.nodes && Identified(NodeUpdated(g, node, now).nodes[id], node)
    ensures id in NodeMatches(g, node)
  {
  }

  lemma UnchangedCarries(g: Graph, node: GraphNode, id: nat, k: string)
    requires |NodeMatches(g, node)| == 1 && id in NodeMatches(g, node) && Asked(node.props, k) && k !in AUTOMATIC_NODE
    requires node.policy.MergeAtChange? && !NodeNeedsUpdate(g, node)
    ensures Carries(g.nodes[id].props, node.props, k)
  {
    assert id == Only(NodeMatches(g, node));
    assert k in ManagedNodeProps(node) && !Differs(g.nodes[id].props, ManagedNodeProps(node), k);
  }

  const COMMON_FIELDS: set<string> := {FIELD_ORIGIN, FIELD_CREATED_AT, FIELD_UPDATED_AT, FIELD_EXPIRES_AT}

  /** The only reserved keys are these fields. */
  predicate ReservedAmong(props: Props, fields: set<string>) {
    forall k :: k in props && Reserved(k) ==> k in fields
  }

  /** Everything that was asked for under a user's key is there. */
  predicate CarriesAll(current: Props, asked: Props) {
    forall k :: k in asked && !Reserved(k) ==> Carries(current, asked, k)
  }

  lemma ComparedExactly(current: Props, asked: Props, automatic: set<string>, fields: set<string>)
    requires ReservedAmong(asked, fields) && fields <= automatic && forall k :: k in automatic ==> Reserved(k)
    ensures ShouldUpdate(current, FilterManaged(asked, automatic)) <==> !CarriesAll(current, asked)
  {
    hide Equal, Reserved;
    var compared := FilterManaged(asked, automatic);
    if CarriesAll(current, asked) {
      forall k | k in compared
        ensures !Differs(current, compared, k)
      {
        assert !Reserved(k);
      }
    } else {
      var k :| k in asked && !Reserved(k) && !Carries(current, asked, k);
      assert k in compared && Differs(current, compared, k);
    }
  }

  lemma AutomaticIsReserved()
    ensures forall k :: k in AUTOMATIC_NODE + AUTOMATIC_REL ==> Reserved(k)
  {
    assert Reserved(FIELD_NODE_UID) && Reserved(FIELD_REL_UID) && Reserved(FIELD_ORIGIN) && Reserved(FIELD_CREATED_AT);
    assert Reserved(FIELD_UPDATED_AT) && Reserved(FIELD_EXPIRES_AT);
    assert Reserved(FIELD_TEMPLATE_HASHES) && Reserved(FIELD_TEMPLATE_HASH);
  }

  /**
   * The outcome for a node, by the nodes that have its labels and name: none means
   * created; create leaves one alone, merge writes it, and merge_at_change writes it
   * exactly when some user's value is missing or different.
   */
  lemma NodeOutcome(env: Env, tx: Tx, node: GraphNode, id: nat)
    requires ReservedAmong(node.props, {FIELD_NODE_UID, FIELD_TEMPLATE_HASHES} + COMMON_FIELDS) && ApplyNode(env, tx, node).Ok?
    requires id in tx.graph.nodes && Identified(tx.graph.nodes[id], node)
    ensures var (after, action) := ApplyNode(env, tx, node).value;
      var writes := node.policy.Merge? || (node.policy.MergeAtChange? && !CarriesAll(tx.graph.nodes[id].props, node.props));
      if writes then action == Updated else action == Skipped && after.graph == tx.graph
  {
    hide Equal, CarriesAll, LabelSet, ShouldUpdate, ReservedAmong, UpdateProps;
    assert id in NodeMatches(tx.graph, node);
    AutomaticIsReserved();
    ComparedExactly(tx.graph.nodes[id].props, node.props, AUTOMATIC_NODE, {FIELD_NODE_UID, FIELD_TEMPLATE_HASHES} + COMMON_FIELDS);
  }

  ghost predicate OneIdentified(g: Graph, node: GraphNode) {
    forall i, j :: i in g.nodes && j in g.nodes && Identified(g.nodes[i], node) && Identified(g.nodes[j], node) ==> i == j
  }

  /** Success, failure and creation, by the same nodes: at most one of them, and created when there is none. */
  lemma NodeSucceedsExactly(env: Env, tx: Tx, node: GraphNode)
    ensures ApplyNode(env, tx, node).Ok? <==>
      ValidLabels(node.types) && !node.policy.Unknown? && OneIdentified(tx.graph, node)
    ensures ApplyNode(env, tx, node).Ok? || ApplyNode(env, tx, node).error ==
      (if !ValidLabels(node.types) then InvalidIdentifier
       else if node.policy.Unknown? then UnsupportedPolicy else AmbiguousNodeMatch)
    ensures ApplyNode(env, tx, node).Ok? ==>
      (ApplyNode(env, tx, node).value.1 == Created <==> forall i :: i in tx.graph.nodes ==> !Identified(tx.graph.nodes[i], node))
  {
    hide NodeCreated, NodeUpdated, NodeNeedsUpdate, LabelSet, ValidLabels;
    var ids := NodeMatches(tx.graph, node);
    assert forall i :: i in tx.graph.nodes && Identified(tx.graph.nodes[i], node) <==> i in ids;
    AtMostOne(ids);
  }

  lemma AtMostOne(ids: set<nat>)
    ensures |ids| <= 1 <==> forall i, j :: i in ids && j in ids ==> i == j
  {
    if ids != {} {
      var i :| i in ids;
      assert |ids - {i}| == |ids| - 1;
      if ids - {i} != {} {
        var j :| j in ids - {i};
      }
    }
  }

  /* ----- relationships ----- */

  /** A relationship of the type and template hash from one node to the other. */
  predicate Connects(env: Env, r: Rel, rel: GraphRelationship, s: nat, t: nat) {
    r.source == s && r.target == t && r.kind == rel.kind && HasText(r.props, FIELD_TEMPLATE_HASH, TemplateHashOf(env, rel))
  }

  /** The same for relationships: after merge and merge_at_change every one that connects the pair carries what was asked for. */
  lemma RelCarries(env: Env, tx: Tx, rel: GraphRelationship, s: nat, t: nat, id: nat, k: string)
    requires UpsertRel(env, tx, rel, s, t).Ok? && (rel.policy.Merge? || rel.policy.MergeAtChange?) && Asked(rel.props, k)
    ensures var h := UpsertRel(env, tx, rel, s, t).value.0.graph;
      id in h.rels && Connects(env, h.rels[id], rel, s, t) ==> Carries(h.rels[id].props, rel.props, k)
  {
    hide MergeProps, Equal, Asked, Carries, TemplateHashOf;
    var g, now := tx.graph, env.clock(tx.tick);
    var h := UpsertRel(env, tx, rel, s, t).value.0.graph;
    if id in h.rels && Connects(env, h.rels[id], rel, s, t) {
      RelGivenIsAsked(env, rel, now, k);
      if RelMatches(env, g, rel, s, t) == {} {
        assert id in g.rels ==> id !in RelMatches(env, g, rel, s, t);
        WrittenIsCarried(map[], RelCreationProps(env, rel, now), rel.props, k);
      } else if RelNeedsUpdate(env, g, rel, s, t) {
        RelUpdateMatched(env, g, rel, s, t, now, id);
        WrittenIsCarried(g.rels[id].props, RelUpdateProps(env, rel, now), rel.props, k);
      } else {
        assert id in RelMatches(env, g, rel, s, t);
        RelUnchangedCarries(env, g, rel, s, t, id, k);
      }
    }
  }

  lemma RelGivenIsAsked(env: Env, rel: GraphRelationship, now: int, k: string)
    requires Asked(rel.props, k)
    ensures k !in AUTOMATIC_REL && k in rel.props && k in RelCreationProps(env, rel, now) && RelCreationProps(env, rel, now)[k] == rel.props[k]
    ensures k in RelUpdateProps(env, rel, now) && RelUpdateProps(env, rel, now)[k] == rel.props[k]
  {
    NotAutomatic(k);
  }

  lemma RelUpdateMatched(env: Env, g: Graph, rel: GraphRelationship, s: nat, t: nat, now: int, id: nat)
    requires id in g.rels
    requires Connects(env, SetOnRels(g, RelMatches(env, g, rel, s, t), RelUpdateProps(env, rel, now)).rels[id], rel, s, t)
    ensures id in RelMatches(env, g, rel, s, t)
  {
  }

  lemma RelUnchangedCarries(env: Env, g: Graph, rel: GraphRelationship, s: nat, t: nat, id: nat, k: string)
    requires |RelMatches(env, g, rel, s, t)| == 1 && id in RelMatches(env, g, rel, s, t) && Asked(rel.props, k) && k !in AUTOMATIC_REL
    requires rel.policy.MergeAtChange? && !RelNeedsUpdate(env, g, rel, s, t)
    ensures Carries(g.rels[id].props, rel.props, k)
  {
    assert id == Only(RelMatches(env, g, rel, s, t));
    assert k in ManagedRelProps(rel) && !Differs(g.rels[id].props, ManagedRelProps(rel), k);
  }

  /** And the outcome, by the relationships that connect the pair already. */
  lemma RelOutcome(env: Env, tx: Tx, rel: GraphRelationship, s: nat, t: nat, id: nat)
    requires ReservedAmong(rel.props, {FIELD_REL_UID, FIELD_TEMPLATE_HASH} + COMMON_FIELDS) && UpsertRel(env, tx, rel, s, t).Ok?
    requires id in tx.graph.rels && Connects(env, tx.graph.rels[id], rel, s, t)
    ensures var (after, action) := UpsertRel(env, tx, rel, s, t).value;
      var writes := rel.policy.Merge? || (rel.policy.MergeAtChange? && !CarriesAll(tx.graph.rels[id].props, rel.props));
      if writes then action == Updated else action == Skipped && after.graph == tx.graph
  {
    hide Equal, CarriesAll, TemplateHashOf, ShouldUpdate, ReservedAmong, RelUpdateProps, RelCreationProps;
    assert id in RelMatches(env, tx.graph, rel, s, t);
    AutomaticIsReserved();
    ComparedExactly(tx.graph.rels[id].props, rel.props, AUTOMATIC_REL, {FIELD_REL_UID, FIELD_TEMPLATE_HASH} + COMMON_FIELDS);
  }

  /**
   * The hash that a new relationship is stored under, by which later applications find it: the
   * property as it is if it is text, the field where there is no property, otherwise the printed property.
   */
  lemma NewRelHash(env: Env, tx: Tx, rel: GraphRelationship, s: nat, t: nat, id: nat)
    requires UpsertRel(env, tx, rel, s, t).Ok?
    ensures var h := UpsertRel(env, tx, rel, s, t).value.0.graph;
      var given := if FIELD_TEMPLATE_HASH in rel.props then rel.props[FIELD_TEMPLATE_HASH] else Null;
      id in h.rels && id !in tx.graph.rels ==>
        && FIELD_TEMPLATE_HASH in h.rels[id].props
        && h.rels[id].props[FIELD_TEMPLATE_HASH] ==
             if given.Text? then given else if given == Null then Text(rel.templateHash) else Text(env.sprint(given))
  {
    FieldsDistinct();
    hide RelMatches, RelNeedsUpdate, RelUpdateProps;
  }

  ghost predicate OneConnects(env: Env, g: Graph, rel: GraphRelationship, s: nat, t: nat) {
    forall i, j :: i in g.rels && j in g.rels && Connects(env, g.rels[i], rel, s, t) && Connects(env, g.rels[j], rel, s, t) ==> i == j
  }

  lemma RelSucceedsExactly(env: Env, tx: Tx, rel: GraphRelationship, s: nat, t: nat)
    ensures UpsertRel(env, tx, rel, s, t).Ok? <==>
      IsIdentifier(rel.kind) && !rel.policy.Unknown? && OneConnects(env, tx.graph, rel, s, t)
    ensures UpsertRel(env, tx, rel, s, t).Ok? || UpsertRel(env, tx, rel, s, t).error ==
      (if !IsIdentifier(rel.kind) then InvalidIdentifier
       else if !OneConnects(env, tx.graph, rel, s, t) then AmbiguousRelationshipMatch else UnsupportedPolicy)
    ensures UpsertRel(env, tx, rel, s, t).Ok? ==>
      (UpsertRel(env, tx, rel, s, t).value.1 == Created <==>
         forall i :: i in tx.graph.rels ==> !Connects(env, tx.graph.rels[i], rel, s, t))
  {
    hide CreateRel, SetOnRels, RelNeedsUpdate, TemplateHashOf, IsIdentifier, RelUpdateProps, RelCreationProps;
    var ids := RelMatches(env, tx.graph, rel, s, t);
    assert forall i :: i in tx.graph.rels && Connects(env, tx.graph.rels[i], rel, s, t) <==> i in ids;
    AtMostOne(ids);
  }
}
