/**
 * Which elements a plan consists of: one for each template all of whose conditions hold,
 * in template order, and when a plan exists at all.
 */
module PlanShape {
  import opened Prelude
  import opened Strings
  import opened Values
  import opened Domain
  import opened Config
  import opened Rules
  import opened RuleLaws
  import opened Planner
  import opened Validate
  import opened Soundness

  /* ----- the templates that apply ----- */

  ghost function ChosenNodes(f: Foreign, ts: seq<NodeTemplate>, d: Datapoint): seq<NodeTemplate> {
    if ts == [] then []
    else (if AllHold(f, ts[0].conditions, d) then [ts[0]] else []) + ChosenNodes(f, ts[1..], d)
  }

  ghost function ChosenRelationships(f: Foreign, ts: seq<RelationshipTemplate>, d: Datapoint): seq<RelationshipTemplate> {
    if ts == [] then []
    else (if AllHold(f, ts[0].conditions, d) then [ts[0]] else []) + ChosenRelationships(f, ts[1..], d)
  }

  /** The node that a template asks for. */
  ghost predicate NodeOf(f: Foreign, t: NodeTemplate, d: Datapoint, node: GraphNode) {
    var resolved := ResolvedProperties(f, t.rules, d);
    && resolved.Ok? && NAME in resolved.value
    && node.name == TrimSpace(f.sprint(resolved.value[NAME]))
    && PlannedFrom(f, t, node) && Resolved(node.props, resolved.value, AUTOMATIC)
  }

  /** The relationship that a template asks for. */
  ghost predicate RelationshipOf(f: Foreign, t: RelationshipTemplate, d: Datapoint, rel: GraphRelationship) {
    var resolved := ResolvedProperties(f, t.rules, d);
    && resolved.Ok? && Resolved(rel.props, resolved.value, AUTOMATIC_ON_RELATIONSHIPS)
    && rel.kind == t.kind && rel.templateHash == TrimSpace(t.templateHash)
    && rel.policy == NormalizeUpdatePolicy(f, t.updatePolicy) && rel.expirationMinutes == t.expirationMinutes
    && ResolvedSelector(f, t.source, d) == Ok(rel.source) && ResolvedSelector(f, t.target, d) == Ok(rel.target)
    && rel.uid == RelationshipUID(f, rel.kind, rel.templateHash, rel.source, rel.target)
    && FIELD_REL_UID in rel.props && rel.props[FIELD_REL_UID] == Text(rel.uid)
    && FIELD_TEMPLATE_HASH in rel.props && rel.props[FIELD_TEMPLATE_HASH] == Text(rel.templateHash)
    && FIELD_ORIGIN in rel.props && rel.props[FIELD_ORIGIN] == Text("auto")
  }

  lemma NodeOrNone(f: Foreign, t: NodeTemplate, d: Datapoint)
    requires ValidNodeTemplate(f, t) && PlanNode(f, t, d).Ok?
    ensures PlanNode(f, t, d).value.Some? <==> AllHold(f, t.conditions, d)
    ensures PlanNode(f, t, d).value.Some? ==> NodeOf(f, t, d, PlanNode(f, t, d).value.value)
  {
    hide MatchCondition, MatchConditions, AllHold, ResolvedProperties, ValidNodeTemplate, PlannedFrom, Resolved, TrimSpace, NodeUID, NormalizedTypes,
         TextList, NormalizeUpdatePolicy;
    ConditionsAreAll(f, t.conditions, d);
    if PlanNode(f, t, d).value.Some? {
      NodePlanned(f, t, d);
    }
  }

  lemma ConditionsAreAll(f: Foreign, conditions: seq<Condition>, d: Datapoint)
    ensures MatchConditions(f, conditions, d) == Ok(true) <==> AllHold(f, conditions, d)
  {
    hide MatchCondition, MatchConditions;
    ConditionsDecidedByFirst(f, conditions, d);
  }

  lemma RelationshipOrNone(f: Foreign, t: RelationshipTemplate, d: Datapoint)
    requires ValidRelationshipTemplate(f, t) && PlanRelationship(f, t, d).Ok?
    ensures PlanRelationship(f, t, d).value.Some? <==> AllHold(f, t.conditions, d)
    ensures PlanRelationship(f, t, d).value.Some? ==> RelationshipOf(f, t, d, PlanRelationship(f, t, d).value.value)
  {
    hide MatchCondition, MatchConditions, AllHold, ResolvedProperties, ResolvedSelector, ValidRelationshipTemplate, Resolved, TrimSpace,
         RelationshipUID, NormalizeUpdatePolicy;
    ConditionsAreAll(f, t.conditions, d);
    if PlanRelationship(f, t, d).value.Some? {
      RelationshipPlanned(f, t, d);
    }
  }

  lemma {:induction false} NodesOfTemplates(f: Foreign, ts: seq<NodeTemplate>, d: Datapoint)
    requires (forall t :: t in ts ==> ValidNodeTemplate(f, t)) && PlanNodes(f, ts, d).Ok?
    ensures var nodes, chosen := PlanNodes(f, ts, d).value, ChosenNodes(f, ts, d);
      |nodes| == |chosen| && forall k :: 0 <= k < |nodes| ==> NodeOf(f, chosen[k], d, nodes[k])
    decreases |ts|
  {
    hide ValidNodeTemplate, PlanNode, NodeOf, AllHold;
    if ts != [] {
      assert ts[0] in ts;
      NodeOrNone(f, ts[0], d);
      NodesOfTemplates(f, ts[1..], d);
    }
  }

  lemma {:induction false} RelationshipsOfTemplates(f: Foreign, ts: seq<RelationshipTemplate>, d: Datapoint)
    requires (forall t :: t in ts ==> ValidRelationshipTemplate(f, t)) && PlanRelationships(f, ts, d).Ok?
    ensures var rels, chosen := PlanRelationships(f, ts, d).value, ChosenRelationships(f, ts, d);
      |rels| == |chosen| && forall k :: 0 <= k < |rels| ==> RelationshipOf(f, chosen[k], d, rels[k])
    decreases |ts|
  {
    hide ValidRelationshipTemplate, PlanRelationship, RelationshipOf, AllHold;
    if ts != [] {
      assert ts[0] in ts;
      RelationshipOrNone(f, ts[0], d);
      RelationshipsOfTemplates(f, ts[1..], d);
    }
  }

  /**
   * A plan of a validated job has exactly one node for each node template all of whose
   * conditions hold, in template order, and likewise for relationships.
   */
  lemma PlanIsTemplatewise(f: Foreign, job: Job, d: Datapoint)
    requires ValidJob(f, job) && PlanOf(f, job, d).Ok?
    ensures var plan := PlanOf(f, job, d).value;
      var nodes, rels := ChosenNodes(f, job.nodes, d), ChosenRelationships(f, job.relationships, d);
      && |plan.nodes| == |nodes| && (forall k :: 0 <= k < |nodes| ==> NodeOf(f, nodes[k], d, plan.nodes[k]))
      && |plan.relationships| == |rels| && (forall k :: 0 <= k < |rels| ==> RelationshipOf(f, rels[k], d, plan.relationships[k]))
  {
    hide ValidNodeTemplate, ValidRelationshipTemplate, PlanNodes, PlanRelationships, NodeOf, RelationshipOf, ChosenNodes, ChosenRelationships;
    NodesOfTemplates(f, job.nodes, d);
    RelationshipsOfTemplates(f, job.relationships, d);
  }

  /* ----- when there is a plan ----- */

  /** Some condition fails before any of them is in error, or none is. */
  ghost predicate Decided(f: Foreign, conditions: seq<Condition>, d: Datapoint) {
    AllHold(f, conditions, d) || exists i: nat :: FailsFirst(f, conditions, d, i)
  }

  /** The condition that decides against. */
  ghost predicate FailsFirst(f: Foreign, conditions: seq<Condition>, d: Datapoint, i: nat) {
    && i < |conditions| && MatchCondition(f, conditions[i], d) == Ok(false)
    && forall j :: 0 <= j < i ==> MatchCondition(f, conditions[j], d) == Ok(true)
  }

  lemma DecidedExactly(f: Foreign, conditions: seq<Condition>, d: Datapoint)
    ensures MatchConditions(f, conditions, d).Ok? <==> Decided(f, conditions, d)
  {
    hide MatchCondition, MatchConditions;
    ConditionsDecidedByFirst(f, conditions, d);
    if !AllHold(f, conditions, d) {
      var k: nat :| k < |conditions| && MatchCondition(f, conditions[k], d) == MatchConditions(f, conditions, d)
        && forall j :: 0 <= j < k ==> MatchCondition(f, conditions[j], d) == Ok(true);
      match MatchConditions(f, conditions, d)
      case Ok(holds) =>
        assert !holds;
        assert FailsFirst(f, conditions, d, k);
      case Err(_) =>
      forall i: nat | FailsFirst(f, conditions, d, i)
        ensures i == k
      {
      }
    }
  }

  /** A template that applies has a name to give. */
  ghost predicate NodeReady(f: Foreign, t: NodeTemplate, d: Datapoint) {
    Decided(f, t.conditions, d) &&
    (AllHold(f, t.conditions, d) ==>
       var resolved := ResolvedProperties(f, t.rules, d);
       resolved.Ok? && NAME in resolved.value && TrimSpace(f.sprint(resolved.value[NAME])) !in {"", "<nil>"})
  }

  ghost predicate RelationshipReady(f: Foreign, t: RelationshipTemplate, d: Datapoint) {
    Decided(f, t.conditions, d) &&
    (AllHold(f, t.conditions, d) ==>
       ResolvedProperties(f, t.rules, d).Ok? && ResolvedSelector(f, t.source, d).Ok? && ResolvedSelector(f, t.target, d).Ok?)
  }

  lemma NodePlansExactly(f: Foreign, t: NodeTemplate, d: Datapoint)
    ensures PlanNode(f, t, d).Ok? <==> NodeReady(f, t, d)
  {
    hide MatchCondition, MatchConditions, AllHold, Decided, ResolvedProperties, TrimSpace, NodeFrom;
    ConditionsAreAll(f, t.conditions, d);
    DecidedExactly(f, t.conditions, d);
  }

  lemma RelationshipPlansExactly(f: Foreign, t: RelationshipTemplate, d: Datapoint)
    ensures PlanRelationship(f, t, d).Ok? <==> RelationshipReady(f, t, d)
  {
    hide MatchCondition, MatchConditions, AllHold, Decided, ResolvedProperties, ResolvedSelector, RelationshipFrom;
    ConditionsAreAll(f, t.conditions, d);
    DecidedExactly(f, t.conditions, d);
  }

  lemma {:induction false} NodesPlanExactly(f: Foreign, ts: seq<NodeTemplate>, d: Datapoint)
    ensures PlanNodes(f, ts, d).Ok? <==> forall t :: t in ts ==> NodeReady(f, t, d)
    decreases |ts|
  {
    hide PlanNode, NodeReady;
    if ts != [] {
      NodePlansExactly(f, ts[0], d);
      NodesPlanExactly(f, ts[1..], d);
      assert ts == [ts[0]] + ts[1..];
    }
  }

  lemma {:induction false} RelationshipsPlanExactly(f: Foreign, ts: seq<RelationshipTemplate>, d: Datapoint)
    ensures PlanRelationships(f, ts, d).Ok? <==> forall t :: t in ts ==> RelationshipReady(f, t, d)
    decreases |ts|
  {
    hide PlanRelationship, RelationshipReady;
    if ts != [] {
      RelationshipPlansExactly(f, ts[0], d);
      RelationshipsPlanExactly(f, ts[1..], d);
      assert ts == [ts[0]] + ts[1..];
    }
  }

  /** There is a plan if and only if every template is ready: nothing else fails, and nothing is passed over. */
  lemma PlansExactly(f: Foreign, job: Job, d: Datapoint)
    ensures PlanOf(f, job, d).Ok? <==>
      && (forall t :: t in job.nodes ==> NodeReady(f, t, d))
      && (forall t :: t in job.relationships ==> RelationshipReady(f, t, d))
  {
    hide PlanNodes, PlanRelationships, NodeReady, RelationshipReady;
    NodesPlanExactly(f, job.nodes, d);
    RelationshipsPlanExactly(f, job.relationships, d);
  }
}
