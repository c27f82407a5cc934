/**
 * What one transaction does to the graph, as functions: the specification of
 * the methods in Repository.dfy.
 */
module Upsert {
  import opened Prelude
  import opened Strings
  import opened Values
  import opened Domain
  import opened Filters
  import opened Cypher

  datatype Failure =
    | InvalidIdentifier
    | AmbiguousNodeMatch
    | AmbiguousRelationshipMatch
    | UnsupportedPolicy
    | UnexpectedUidType
    | NoRows
    | QueryRejected

  /**
   * The world outside the module: successive readings of time.Now in seconds, the UUID
   * text made from a digest of its argument, fmt.Sprint, and what a parameter name consists of.
   */
  datatype Env = Env(clock: nat -> int, uuid: string -> string, sprint: Value -> string, namePart: NamePart)

  ghost predicate Monotone(env: Env) {
    forall i: nat, j: nat :: i <= j ==> env.clock(i) <= env.clock(j)
  }

  /** The transaction's view of the graph and the number of clock readings so far. */
  datatype Tx = Tx(graph: Graph, tick: nat)

  function Only(ids: set<nat>): (id: nat)
    requires |ids| == 1
    ensures ids == {id}
  {
    var id :| id in ids;
    assert ids == {id} by {
      assert |ids - {id}| == 0;
    }
    id
  }

  /* ----- expiration.go ----- */

  predicate ShouldSetExpiration(policy: UpdatePolicy, minutes: Option<int>) {
    minutes.Some? && (policy.Create? || policy.Merge?)
  }

  function ApplyExpiration(props: Props, policy: UpdatePolicy, minutes: Option<int>, now: int): Props {
    if ShouldSetExpiration(policy, minutes) then props[FIELD_EXPIRES_AT := Stamp(now + 60 * minutes.value)] else props
  }

  /* ----- nodes.go ----- */

  const AUTOMATIC_NODE: set<string> :=
    {FIELD_NODE_UID, FIELD_TEMPLATE_HASHES, FIELD_ORIGIN, FIELD_CREATED_AT, FIELD_UPDATED_AT, FIELD_EXPIRES_AT}

  function ManagedNodeProps(node: GraphNode): Props {
    FilterManaged(node.props, AUTOMATIC_NODE)
  }

  function CreationProps(node: GraphNode, now: int): Props {
    ApplyExpiration(
      node.props[FIELD_CREATED_AT := Stamp(now)][FIELD_UPDATED_AT := Stamp(now)],
      node.policy, node.expirationMinutes, now)
  }

  function UpdateProps(node: GraphNode, now: int): Props {
    ApplyExpiration(node.props[FIELD_UPDATED_AT := Stamp(now)], node.policy, node.expirationMinutes, now)
  }

  function NodeMatches(g: Graph, node: GraphNode): set<nat> {
    MatchNodes(g, LabelSet(node.types), node.name)
  }

  function NodeCreated(g: Graph, node: GraphNode, now: int): Graph {
    CreateNode(g, LabelSet(node.types), node.name, CreationProps(node, now))
  }

  function NodeUpdated(g: Graph, node: GraphNode, now: int): Graph {
    SetOnNodes(g, NodeMatches(g, node), UpdateProps(node, now))
  }

  /** Whether an existing node is rewritten. */
  predicate NodeNeedsUpdate(g: Graph, node: GraphNode)
    requires |NodeMatches(g, node)| == 1
  {
    node.policy.Merge? ||
    (node.policy.MergeAtChange? &&
     ShouldUpdate(g.nodes[Only(NodeMatches(g, node))].props, ManagedNodeProps(node)))
  }

  function ApplyNode(env: Env, tx: Tx, node: GraphNode): Result<(Tx, PersistAction), Failure> {
    var ids := NodeMatches(tx.graph, node);
    var now := env.clock(tx.tick);
    if !ValidLabels(node.types) then Err(InvalidIdentifier)
    else if node.policy.Unknown? then Err(UnsupportedPolicy)
    else if |ids| > 1 then Err(AmbiguousNodeMatch)
    else if |ids| == 0 then Ok((Tx(NodeCreated(tx.graph, node, now), tx.tick + 1), Created))
    else if NodeNeedsUpdate(tx.graph, node) then Ok((Tx(NodeUpdated(tx.graph, node, now), tx.tick + 1), Updated))
    else Ok((tx.(tick := tx.tick + 1), Skipped))
  }

  function ApplyNodes(env: Env, tx: Tx, nodes: seq<GraphNode>): Result<(Tx, Totals), Failure> {
    if nodes == [] then Ok((tx, Zero()))
    else
      var (before, totals) :- ApplyNodes(env, tx, nodes[..|nodes| - 1]);
      var (after, action) :- ApplyNode(env, before, nodes[|nodes| - 1]);
      Ok((after, WithNode(totals, action)))
  }

  /* ----- relationships.go ----- */

  const AUTOMATIC_REL: set<string> :=
    {FIELD_REL_UID, FIELD_TEMPLATE_HASH, FIELD_ORIGIN, FIELD_CREATED_AT, FIELD_UPDATED_AT, FIELD_EXPIRES_AT}

  function MatchedNodeIdentity(n: MatchedNode): string {
    if n.uid != "" then FIELD_NODE_UID + ":" + n.uid else "element_id:" + ElementText(n.id)
  }

  function MatchTokens(rel: GraphRelationship, s: MatchedNode, t: MatchedNode): seq<string> {
    [rel.uid, MatchedNodeIdentity(s), MatchedNodeIdentity(t)]
  }

  function RelationshipForMatch(env: Env, rel: GraphRelationship, s: MatchedNode, t: MatchedNode): GraphRelationship {
    var uid := env.uuid(Join(MatchTokens(rel, s, t), UNIT_SEPARATOR));
    rel.(props := rel.props[FIELD_REL_UID := Text(uid)])
  }

  function TemplateHashOf(env: Env, rel: GraphRelationship): string {
    if FIELD_TEMPLATE_HASH in rel.props && rel.props[FIELD_TEMPLATE_HASH] != Null
    then match rel.props[FIELD_TEMPLATE_HASH] case Text(s) => s case v => env.sprint(v)
    else rel.templateHash
  }

  function ManagedRelProps(rel: GraphRelationship): Props {
    FilterManaged(rel.props, AUTOMATIC_REL)
  }

  function RelCreationProps(env: Env, rel: GraphRelationship, now: int): Props {
    ApplyExpiration(
      rel.props[FIELD_TEMPLATE_HASH := Text(TemplateHashOf(env, rel))]
        [FIELD_CREATED_AT := Stamp(now)][FIELD_UPDATED_AT := Stamp(now)],
      rel.policy, rel.expirationMinutes, now)
  }

  function RelUpdateProps(env: Env, rel: GraphRelationship, now: int): Props {
    ApplyExpiration(
      rel.props[FIELD_TEMPLATE_HASH := Text(TemplateHashOf(env, rel))][FIELD_UPDATED_AT := Stamp(now)],
      rel.policy, rel.expirationMinutes, now)
  }

  function RelMatches(env: Env, g: Graph, rel: GraphRelationship, s: nat, t: nat): set<nat> {
    MatchRels(g, s, t, rel.kind, TemplateHashOf(env, rel))
  }

  predicate RelNeedsUpdate(env: Env, g: Graph, rel: GraphRelationship, s: nat, t: nat)
    requires |RelMatches(env, g, rel, s, t)| == 1
  {
    rel.policy.Merge? ||
    (rel.policy.MergeAtChange? &&
     ShouldUpdate(g.rels[Only(RelMatches(env, g, rel, s, t))].props, ManagedRelProps(rel)))
  }

  /** applyRelationshipMatch after relationshipForMatch. */
  function UpsertRel(env: Env, tx: Tx, rel: GraphRelationship, s: nat, t: nat): Result<(Tx, PersistAction), Failure> {
    var ids := RelMatches(env, tx.graph, rel, s, t);
    var now := env.clock(tx.tick);
    if !IsIdentifier(rel.kind) then Err(InvalidIdentifier)
    else if |ids| > 1 then Err(AmbiguousRelationshipMatch)
    else if rel.policy.Unknown? then Err(UnsupportedPolicy)
    else if |ids| == 0 then
      Ok((Tx(CreateRel(tx.graph, s, t, rel.kind, RelCreationProps(env, rel, now)), tx.tick + 1), Created))
    else if RelNeedsUpdate(env, tx.graph, rel, s, t) then
      Ok((Tx(SetOnRels(tx.graph, ids, RelUpdateProps(env, rel, now)), tx.tick + 1), Updated))
    else Ok((tx.(tick := tx.tick + 1), Skipped))
  }

  type Pair = (MatchedNode, MatchedNode)

  function ApplyPair(env: Env, tx: Tx, rel: GraphRelationship, pair: Pair): Result<(Tx, PersistAction), Failure> {
    UpsertRel(env, tx, RelationshipForMatch(env, rel, pair.0, pair.1), pair.0.id, pair.1.id)
  }

  function ApplyPairs(env: Env, tx: Tx, rel: GraphRelationship, pairs: seq<Pair>): Result<(Tx, Totals), Failure> {
    if pairs == [] then Ok((tx, Zero()))
    else
      var (before, totals) :- ApplyPairs(env, tx, rel, pairs[..|pairs| - 1]);
      var (after, action) :- ApplyPair(env, before, rel, pairs[|pairs| - 1]);
      Ok((after, WithRelationship(totals, action)))
  }

  function RowOf(s: MatchedNode, targets: seq<MatchedNode>): (pairs: seq<Pair>)
    ensures |pairs| == |targets|
  {
    seq(|targets|, j requires 0 <= j < |targets| => (s, targets[j]))
  }

  /** Every source with every target, source by source. */
  function Product(sources: seq<MatchedNode>, targets: seq<MatchedNode>): (pairs: seq<Pair>)
    ensures |pairs| == |sources| * |targets|
  {
    if sources == [] then []
    else Product(sources[..|sources| - 1], targets) + RowOf(sources[|sources| - 1], targets)
  }

  function ReadRows(nodes: map<nat, Node>, rows: seq<nat>): (r: Result<seq<MatchedNode>, Failure>)
    requires forall id :: id in rows ==> id in nodes
    ensures r.Ok? ==> |r.value| == |rows| && forall i :: 0 <= i < |rows| ==> r.value[i].id == rows[i]
  {
    if rows == [] then Ok([])
    else
      var read :- ReadRows(nodes, rows[..|rows| - 1]);
      match RowUid(nodes[rows[|rows| - 1]])
      case None => Err(UnexpectedUidType)
      case Some(uid) => Ok(read + [MatchedNode(rows[|rows| - 1], uid)])
  }

  ghost function SelectorRows(nodes: map<nat, Node>, selector: NodeSelector): (rows: seq<nat>)
    ensures forall id :: id in rows <==> id in SelectNodes(nodes, selector)
    ensures forall id :: id in rows ==> id in nodes
  {
    var rows := OrderRows(nodes, SelectNodes(nodes, selector));
    assert forall id :: id in rows <==> id in multiset(rows);
    rows
  }

  ghost function FindMatches(env: Env, nodes: map<nat, Node>, selector: NodeSelector): Result<seq<MatchedNode>, Failure> {
    if !IsIdentifier(selector.kind) then Err(InvalidIdentifier)
    else if !ReadableNames(env.namePart, "selector", selector.attributes) then Err(QueryRejected)
    else ReadRows(nodes, SelectorRows(nodes, selector))
  }

  /** The pairs a relationship is applied to: none if a selector matches nothing or is rejected. */
  ghost function SelectedPairs(env: Env, nodes: map<nat, Node>, rel: GraphRelationship): seq<Pair> {
    match (FindMatches(env, nodes, rel.source), FindMatches(env, nodes, rel.target))
    case (Ok(sources), Ok(targets)) => if sources != [] && targets != [] then Product(sources, targets) else []
    case _ => []
  }

  function OneSkip(): Totals {
    WithRelationship(Zero(), Skipped)
  }

  ghost function ApplyRelationship(env: Env, tx: Tx, rel: GraphRelationship): Result<(Tx, Totals), Failure> {
    var sources :- FindMatches(env, tx.graph.nodes, rel.source);
    if sources == [] then Ok((tx, OneSkip()))
    else
      var targets :- FindMatches(env, tx.graph.nodes, rel.target);
      if targets == [] then Ok((tx, OneSkip()))
      else ApplyPairs(env, tx, rel, Product(sources, targets))
  }

  ghost function ApplyRelationships(env: Env, tx: Tx, rels: seq<GraphRelationship>): Result<(Tx, Totals), Failure> {
    if rels == [] then Ok((tx, Zero()))
    else
      var (before, totals) :- ApplyRelationships(env, tx, rels[..|rels| - 1]);
      var (after, more) :- ApplyRelationship(env, before, rels[|rels| - 1]);
      Ok((after, Plus(totals, more)))
  }

  /* ----- client.go ----- */

  ghost function ApplyPlan(env: Env, tx: Tx, plan: MutationPlan): Result<(Tx, Totals), Failure> {
    var (middle, nodeTotals) :- ApplyNodes(env, tx, plan.nodes);
    var (after, relTotals) :- ApplyRelationships(env, middle, plan.relationships);
    Ok((after, Plus(nodeTotals, relTotals)))
  }

  /** A failed plan is rolled back; its clock readings are dropped with it. */
  ghost function Commit(env: Env, tx: Tx, plan: MutationPlan): Tx {
    match ApplyPlan(env, tx, plan)
    case Ok((after, _)) => after
    case Err(_) => tx
  }

  ghost function RunPlans(env: Env, tx: Tx, plans: seq<MutationPlan>): Tx {
    if plans == [] then tx
    else Commit(env, RunPlans(env, tx, plans[..|plans| - 1]), plans[|plans| - 1])
  }
}
