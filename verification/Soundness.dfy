/**
 * Validated configurations do not go wrong: which errors the planner can still raise
 * after validation, and what every plan it returns looks like.
 */
module Soundness {
  import opened Prelude
  import opened Strings
  import opened Values
  import opened Domain
  import opened Config
  import opened Rules
  import opened Planner
  import opened Validate
  import Invariants

  /* ----- conditions ----- */

  /** A value condition whose operand is not numeric: the validator does not look at operands. */
  predicate NonNumeric(f: Foreign, c: Condition) {
    f.lower(TrimSpace(c.kind)) == "value" &&
    ((c.equals != Null && ToFloat64(f, c.equals).Err?) || (c.notEquals != Null && ToFloat64(f, c.notEquals).Err?))
  }

  lemma ConditionFailsExactly(f: Foreign, c: Condition, d: Datapoint)
    requires ValidCondition(f, c)
    ensures MatchCondition(f, c, d).Err? <==> NonNumeric(f, c)
    ensures MatchCondition(f, c, d).Err? ==> MatchCondition(f, c, d).error == NonNumericOperand
  {
  }

  predicate SomeNonNumeric(f: Foreign, cs: seq<Condition>) {
    exists c :: c in cs && NonNumeric(f, c)
  }

  lemma {:induction false} ConditionsFail(f: Foreign, cs: seq<Condition>, d: Datapoint)
    requires ValidConditions(f, cs) && MatchConditions(f, cs, d).Err?
    ensures MatchConditions(f, cs, d).error == NonNumericOperand && SomeNonNumeric(f, cs)
  {
    hide MatchCondition, NonNumeric, ValidCondition;
    assert cs[0] in cs;
    ConditionFailsExactly(f, cs[0], d);
    if MatchCondition(f, cs[0], d).Ok? {
      assert forall c :: c in cs[1..] ==> c in cs;
      ConditionsFail(f, cs[1..], d);
    }
  }

  /* ----- transforms ----- */

  lemma ProcessNeverFails(f: Foreign, v: Value, p: Process)
    requires ValidProcess(f, p)
    ensures ApplyProcess(f, v, p).Ok?
  {
  }

  lemma {:induction false} ProcessesNeverFail(f: Foreign, v: Value, ps: seq<Process>)
    requires forall p :: p in ps ==> ValidProcess(f, p)
    ensures RunProcesses(f, v, ps).Ok?
    decreases |ps|
  {
    hide ValidProcess, ApplyProcess;
    if ps != [] {
      ProcessNeverFails(f, v, ps[0]);
      ProcessesNeverFail(f, ApplyProcess(f, v, ps[0]).value, ps[1..]);
    }
  }

  lemma {:induction false} TransformsNeverFail(f: Foreign, props: Props, ts: seq<Transform>, userNames: bool)
    requires ValidTransforms(f, ts, userNames)
    ensures ApplyTransforms(f, props, ts).Ok?
    decreases |ts|
  {
    hide ValidProcess, RunProcesses, UserName;
    if ts != [] {
      var t := ts[0];
      assert ValidTransform(f, t, userNames);
      if t.property in props {
        ProcessesNeverFail(f, props[t.property], t.process);
      }
      TransformsNeverFail(f, ApplyTransform(f, props, t).value, ts[1..], userNames);
    }
  }

  /* ----- properties ----- */

  predicate ConditionalNonNumeric(f: Foreign, cs: seq<ConditionalProperty>) {
    exists c :: c in cs && SomeNonNumeric(f, c.conditions)
  }

  lemma ConditionalFails(f: Foreign, c: ConditionalProperty, d: Datapoint)
    requires ValidConditional(f, c) && ConditionalValue(f, c, d).Err?
    ensures ConditionalValue(f, c, d).error == NonNumericOperand && SomeNonNumeric(f, c.conditions)
  {
    hide MatchConditions, ValidConditions, UserName, SomeNonNumeric, ResolveOptionalToken;
    KindsDiffer();
    if MatchConditions(f, c.conditions, d).Err? {
      ConditionsFail(f, c.conditions, d);
    }
  }

  lemma {:induction false} ConditionalsFail(f: Foreign, props: Props, cs: seq<ConditionalProperty>, d: Datapoint)
    requires forall c :: c in cs ==> ValidConditional(f, c)
    requires ApplyConditionals(f, props, cs, d).Err?
    ensures ApplyConditionals(f, props, cs, d).error == NonNumericOperand && ConditionalNonNumeric(f, cs)
    decreases |cs|
  {
    hide ValidConditional, ConditionalValue, SomeNonNumeric;
    assert cs[0] in cs;
    match ConditionalValue(f, cs[0], d)
    case Err(_) => ConditionalFails(f, cs[0], d);
    case Ok(v) =>
      ConditionalsFail(f, if v.Some? then props[cs[0].name := v.value] else props, cs[1..], d);
      var c :| c in cs[1..] && SomeNonNumeric(f, c.conditions);
      assert c in cs;
  }

  lemma RulesFail(f: Foreign, rules: PropertyRules, d: Datapoint)
    requires ValidRules(f, rules) && ResolvedProperties(f, rules, d).Err?
    ensures ResolvedProperties(f, rules, d).error == NonNumericOperand && ConditionalNonNumeric(f, rules.conditional)
  {
    hide ApplyConditionals, ApplyTransforms, ValidTransforms, ValidConditional, ConditionalNonNumeric;
    var base := rules.staticProps + FoundLabels(f, rules.labelProps, d);
    match ApplyConditionals(f, base, rules.conditional, d)
    case Err(_) => ConditionalsFail(f, base, rules.conditional, d);
    case Ok(layered) => TransformsNeverFail(f, layered, rules.transforms, true);
  }

  /* ----- selectors ----- */

  predicate TokenMissing(f: Foreign, labels: map<string, string>, d: Datapoint) {
    exists k :: k in labels && ResolveOptionalToken(f, labels[k], d).None?
  }

  lemma SelectorFailsExactly(f: Foreign, e: Endpoint, d: Datapoint)
    requires ValidSelector(f, e)
    ensures ResolvedSelector(f, e, d).Err? <==> TokenMissing(f, e.labelAttrs, d)
    ensures ResolvedSelector(f, e, d).Err? ==> ResolvedSelector(f, e, d).error == MissingLabel
  {
    hide ApplyTransforms, ValidTransforms, ResolveOptionalToken;
    if TokenValues(f, e.labelAttrs, d).Ok? {
      TransformsNeverFail(f, TokenValues(f, e.labelAttrs, d).value, e.priorTransform, false);
    }
  }

  /* ----- templates ----- */

  /** The template's name can only come from a label that the datapoint lacks. */
  predicate NameUnresolved(f: Foreign, rules: PropertyRules, d: Datapoint) {
    NAME !in rules.staticProps && NAME in rules.labelProps && ResolveOptionalToken(f, rules.labelProps[NAME], d).None?
  }

  predicate NameBlank(f: Foreign, rules: PropertyRules, d: Datapoint) {
    var r := ResolvedProperties(f, rules, d);
    r.Ok? && NAME in r.value && TrimSpace(f.sprint(r.value[NAME])) in {"", "<nil>"}
  }

  predicate TemplateNonNumeric(f: Foreign, conditions: seq<Condition>, rules: PropertyRules) {
    SomeNonNumeric(f, conditions) || ConditionalNonNumeric(f, rules.conditional)
  }

  lemma NodeFails(f: Foreign, t: NodeTemplate, d: Datapoint)
    requires ValidNodeTemplate(f, t) && PlanNode(f, t, d).Err?
    ensures match PlanNode(f, t, d).error
      case NonNumericOperand => TemplateNonNumeric(f, t.conditions, t.rules)
      case NameAbsent => NameUnresolved(f, t.rules, d)
      case NameEmpty => NameBlank(f, t.rules, d)
      case _ => false
  {
    hide MatchConditions, ResolvedProperties, ValidConditions, ValidRules, SomeNonNumeric, ConditionalNonNumeric, RunProcesses;
    if MatchConditions(f, t.conditions, d).Err? {
      ConditionsFail(f, t.conditions, d);
    } else if ResolvedProperties(f, t.rules, d).Err? {
      RulesFail(f, t.rules, d);
    } else if NAME !in ResolvedProperties(f, t.rules, d).value {
      PropertyMeans(f, t.rules, d, NAME);
    }
  }

  lemma RelationshipFails(f: Foreign, t: RelationshipTemplate, d: Datapoint)
    requires ValidRelationshipTemplate(f, t) && PlanRelationship(f, t, d).Err?
    ensures match PlanRelationship(f, t, d).error
      case NonNumericOperand => TemplateNonNumeric(f, t.conditions, t.rules)
      case MissingLabel => TokenMissing(f, t.source.labelAttrs, d) || TokenMissing(f, t.target.labelAttrs, d)
      case _ => false
  {
    hide MatchConditions, ResolvedProperties, ResolvedSelector, ValidConditions, ValidRules, ValidSelector,
         SomeNonNumeric, ConditionalNonNumeric, TokenMissing;
    if MatchConditions(f, t.conditions, d).Err? {
      ConditionsFail(f, t.conditions, d);
    } else if ResolvedProperties(f, t.rules, d).Err? {
      RulesFail(f, t.rules, d);
    } else {
      SelectorFailsExactly(f, t.source, d);
      SelectorFailsExactly(f, t.target, d);
    }
  }

  /* ----- jobs ----- */

  predicate JobNonNumeric(f: Foreign, job: Job) {
    || (exists t :: t in job.nodes && TemplateNonNumeric(f, t.conditions, t.rules))
    || (exists t :: t in job.relationships && TemplateNonNumeric(f, t.conditions, t.rules))
  }

  predicate SomeTokenMissing(f: Foreign, job: Job, d: Datapoint) {
    exists t :: t in job.relationships && (TokenMissing(f, t.source.labelAttrs, d) || TokenMissing(f, t.target.labelAttrs, d))
  }

  predicate SomeNameUnresolved(f: Foreign, job: Job, d: Datapoint) {
    exists t :: t in job.nodes && NameUnresolved(f, t.rules, d)
  }

  predicate SomeNameBlank(f: Foreign, job: Job, d: Datapoint) {
    exists t :: t in job.nodes && NameBlank(f, t.rules, d)
  }

  /** Every error that is left has a cause in the datapoint or in an operand. */
  predicate Blamed(f: Foreign, job: Job, d: Datapoint, e: RuleError) {
    match e
    case NonNumericOperand => JobNonNumeric(f, job)
    case MissingLabel => SomeTokenMissing(f, job, d)
    case NameAbsent => SomeNameUnresolved(f, job, d)
    case NameEmpty => SomeNameBlank(f, job, d)
    case _ => false
  }

  lemma {:induction false} NodesFail(f: Foreign, ts: seq<NodeTemplate>, d: Datapoint) returns (t: NodeTemplate)
    requires PlanNodes(f, ts, d).Err?
    ensures t in ts && PlanNode(f, t, d) == Err(PlanNodes(f, ts, d).error)
    decreases |ts|
  {
    hide PlanNode;
    t := ts[0];
    if PlanNode(f, ts[0], d).Ok? {
      t := NodesFail(f, ts[1..], d);
    }
  }

  lemma {:induction false} RelationshipsFail(f: Foreign, ts: seq<RelationshipTemplate>, d: Datapoint)
    returns (t: RelationshipTemplate)
    requires PlanRelationships(f, ts, d).Err?
    ensures t in ts && PlanRelationship(f, t, d) == Err(PlanRelationships(f, ts, d).error)
    decreases |ts|
  {
    hide PlanRelationship;
    t := ts[0];
    if PlanRelationship(f, ts[0], d).Ok? {
      t := RelationshipsFail(f, ts[1..], d);
    }
  }

  /**
   * For every validated job and every datapoint, planning fails only because an operand
   * of a value condition is not numeric, a selector's label is missing, or a node's name
   * is absent or blank. No unsupported type, operator or processor and no invalid
   * pattern is ever met.
   */
  lemma ValidatedJobsDoNotGoWrong(f: Foreign, job: Job, d: Datapoint)
    requires ValidJob(f, job) && PlanOf(f, job, d).Err?
    ensures Blamed(f, job, d, PlanOf(f, job, d).error)
  {
    hide PlanNodes, PlanRelationships, ValidNodeTemplate, ValidRelationshipTemplate, TemplateNonNumeric,
         NameUnresolved, NameBlank, TokenMissing;
    if PlanNodes(f, job.nodes, d).Err? {
      var t := NodesFail(f, job.nodes, d);
      NodeFails(f, t, d);
    } else {
      var t := RelationshipsFail(f, job.relationships, d);
      RelationshipFails(f, t, d);
    }
  }

  /* ----- what a plan looks like ----- */

  lemma {:induction false} TrimRightKeeps(s: string, p: string)
    requires p != [] && p <= s && forall i :: 0 <= i < |p| ==> !IsSpace(p[i])
    ensures p <= TrimRight(s)
  {
    assert p[|p| - 1] == s[|p| - 1];
    if IsSpace(s[|s| - 1]) {
      TrimRightKeeps(s[..|s| - 1], p);
    }
  }

  /** Trimming cannot hide the reserved prefix. */
  lemma UserNamesAreNotReserved(name: string)
    requires UserName(name)
    ensures !Reserved(name)
  {
    if Reserved(name) {
      assert name[0] == APP_FIELD_PREFIX[0];
      assert TrimLeft(name) == name;
      TrimRightKeeps(name, APP_FIELD_PREFIX);
      assert false;
    }
  }

  lemma {:induction false} SettersAreUserNames(f: Foreign, key: string, cs: seq<ConditionalProperty>, d: Datapoint)
    requires forall c :: c in cs ==> ValidConditional(f, c)
    requires LastSetter(f, key, cs, d).Some?
    ensures UserName(key)
  {
    hide ConditionalValue, UserName, ValidConditions;
    var last := cs[|cs| - 1];
    assert last in cs;
    if last.name != key {
      SettersAreUserNames(f, key, cs[..|cs| - 1], d);
    } else {
      assert ValidConditional(f, last);
    }
  }

  /** The reserved prefix survives resolution. */
  lemma ResolvedKeysAreUserNames(f: Foreign, rules: PropertyRules, d: Datapoint, key: string)
    requires ValidRules(f, rules) && ResolvedProperties(f, rules, d).Ok? && key in ResolvedProperties(f, rules, d).value
    ensures !Reserved(key)
  {
    hide ResolvedProperties, LastSetter, UserName, RunProcesses, ValidTransforms, ValidConditional;
    PropertyMeans(f, rules, d, key);
    if LastSetter(f, key, rules.conditional, d).Some? {
      SettersAreUserNames(f, key, rules.conditional, d);
    }
    UserNamesAreNotReserved(key);
  }

  /** A node as the planner promises it. */
  ghost predicate PlannedFrom(f: Foreign, t: NodeTemplate, node: GraphNode) {
    && Invariants.PlannedNode(node)
    && node.uid == NodeUID(f, node.types, node.name, node.templateHashes)
    && node.templateHashes == t.templateHashes && node.templateHashes != []
    && node.types != [] && Sorted(node.types) && multiset(node.types) == multiset(NormalizedTypes(t.types))
    && node.name != "" && Trimmed(node.name)
    && !node.policy.Unknown?
    && node.policy == NormalizeUpdatePolicy(f, t.updatePolicy) && node.expirationMinutes == t.expirationMinutes
    && AutomaticNodeProps(node)
  }

  /** A list value of exactly these texts. */
  predicate TextsOf(v: Value, texts: seq<string>) {
    v.List? && |v.items| == |texts| && forall i :: 0 <= i < |texts| ==> v.items[i] == Text(texts[i])
  }

  predicate AutomaticNodeProps(node: GraphNode) {
    && NAME in node.props && node.props[NAME] == Text(node.name)
    && FIELD_NODE_UID in node.props && node.props[FIELD_NODE_UID] == Text(node.uid)
    && FIELD_TEMPLATE_HASHES in node.props && TextsOf(node.props[FIELD_TEMPLATE_HASHES], node.templateHashes)
    && FIELD_ORIGIN in node.props && node.props[FIELD_ORIGIN] == Text("auto")
  }

  const AUTOMATIC: set<string> := {NAME, FIELD_NODE_UID, FIELD_TEMPLATE_HASHES, FIELD_ORIGIN}
  const AUTOMATIC_ON_RELATIONSHIPS: set<string> := {FIELD_REL_UID, FIELD_TEMPLATE_HASH, FIELD_ORIGIN}

  /** Every property outside the automatic ones is the resolved one. */
  ghost predicate Resolved(props: Props, resolved: Props, automatic: set<string>) {
    forall k :: k !in automatic ==> Invariants.SameAt(props, resolved, k)
  }

  lemma NodeFromProps(f: Foreign, t: NodeTemplate, properties: Props, name: string)
    requires Invariants.ClockFree(properties)
    ensures var node := NodeFrom(f, t, properties, name);
      Invariants.PlannedNode(node) && AutomaticNodeProps(node) && Resolved(node.props, properties, AUTOMATIC)
  {
    hide NodeUID, NormalizedTypes, NormalizeUpdatePolicy, Sort;
    Invariants.FieldsDistinct();
  }

  lemma NodeFromPlanned(f: Foreign, t: NodeTemplate, properties: Props, name: string)
    requires Invariants.ClockFree(properties) && name != "" && Trimmed(name)
    requires NormalizedTypes(t.types) != [] && t.templateHashes != []
    ensures PlannedFrom(f, t, NodeFrom(f, t, properties, name))
    ensures Resolved(NodeFrom(f, t, properties, name).props, properties, AUTOMATIC)
  {
    hide NodeUID, NormalizedTypes, Sort, Sorted, TextList, Invariants.PlannedNode, Trimmed, AutomaticNodeProps,
         Resolved, NormalizeUpdatePolicy;
    PolicyKnown(f, t.updatePolicy);
    NodeFromProps(f, t, properties, name);
    var types := NormalizedTypes(t.types);
    SortSorted(types);
    assert |Sort(types)| == |multiset(Sort(types))| == |types|;
  }

  lemma PolicyKnown(f: Foreign, raw: string)
    ensures !NormalizeUpdatePolicy(f, raw).Unknown?
  {
  }

  lemma NodePlanned(f: Foreign, t: NodeTemplate, d: Datapoint)
    requires ValidNodeTemplate(f, t) && PlanNode(f, t, d).Ok? && PlanNode(f, t, d).value.Some?
    ensures var node := PlanNode(f, t, d).value.value;
      PlannedFrom(f, t, node) && Resolved(node.props, ResolvedProperties(f, t.rules, d).value, AUTOMATIC)
  {
    hide ResolvedProperties, MatchConditions, ValidConditions, ValidRules, NormalizedTypes, TrimSpace, NodeFrom,
         PlannedFrom, Trimmed,
         Resolved;
    var properties := ResolvedProperties(f, t.rules, d).value;
    NotReservedClocks(f, t.rules, d);
    TrimSpaceTrims(f.sprint(properties[NAME]));
    NodeFromPlanned(f, t, properties, TrimSpace(f.sprint(properties[NAME])));
  }

  lemma NotReservedClocks(f: Foreign, rules: PropertyRules, d: Datapoint)
    requires ValidRules(f, rules) && ResolvedProperties(f, rules, d).Ok?
    ensures Invariants.ClockFree(ResolvedProperties(f, rules, d).value)
  {
    hide ResolvedProperties, ValidRules;
    var r := ResolvedProperties(f, rules, d).value;
    forall key | key in r
      ensures !Reserved(key)
    {
      ResolvedKeysAreUserNames(f, rules, d, key);
    }
    assert Reserved(FIELD_CREATED_AT) && Reserved(FIELD_UPDATED_AT) && Reserved(FIELD_EXPIRES_AT);
  }

  lemma RelationshipPlanned(f: Foreign, t: RelationshipTemplate, d: Datapoint)
    requires ValidRelationshipTemplate(f, t) && PlanRelationship(f, t, d).Ok? && PlanRelationship(f, t, d).value.Some?
    ensures var rel := PlanRelationship(f, t, d).value.value;
      && Invariants.PlannedRel(rel) && !rel.policy.Unknown?
      && rel.templateHash != "" && Trimmed(rel.templateHash)
      && rel.kind == t.kind && rel.templateHash == TrimSpace(t.templateHash)
      && rel.policy == NormalizeUpdatePolicy(f, t.updatePolicy) && rel.expirationMinutes == t.expirationMinutes
      && ResolvedSelector(f, t.source, d) == Ok(rel.source) && ResolvedSelector(f, t.target, d) == Ok(rel.target)
      && rel.uid == RelationshipUID(f, rel.kind, rel.templateHash, rel.source, rel.target)
      && FIELD_REL_UID in rel.props && rel.props[FIELD_REL_UID] == Text(rel.uid)
      && FIELD_TEMPLATE_HASH in rel.props && rel.props[FIELD_TEMPLATE_HASH] == Text(rel.templateHash)
      && FIELD_ORIGIN in rel.props && rel.props[FIELD_ORIGIN] == Text("auto")
      && Resolved(rel.props, ResolvedProperties(f, t.rules, d).value, AUTOMATIC_ON_RELATIONSHIPS)
  {
    hide ResolvedProperties, ResolvedSelector, MatchConditions, ValidConditions, ValidRules, ValidSelector,
         RelationshipUID, TrimSpace,
         NormalizeUpdatePolicy;
    PolicyKnown(f, t.updatePolicy);
    NotReservedClocks(f, t.rules, d);
    Invariants.FieldsDistinct();
    TrimSpaceTrims(t.templateHash);
    TrimmedIsFixed(TrimSpace(t.templateHash));
  }

  lemma {:induction false} NodesPlanned(f: Foreign, ts: seq<NodeTemplate>, d: Datapoint)
    requires (forall t :: t in ts ==> ValidNodeTemplate(f, t)) && PlanNodes(f, ts, d).Ok?
    ensures forall n :: n in PlanNodes(f, ts, d).value ==> exists t :: t in ts && PlannedFrom(f, t, n)
    decreases |ts|
  {
    hide ValidNodeTemplate, PlanNode, PlannedFrom;
    if ts != [] {
      assert ts[0] in ts;
      NodesPlanned(f, ts[1..], d);
      if PlanNode(f, ts[0], d).value.Some? {
        NodePlanned(f, ts[0], d);
      }
      forall n | n in PlanNodes(f, ts, d).value
        ensures exists t :: t in ts && PlannedFrom(f, t, n)
      {
        if n in PlanNodes(f, ts[1..], d).value {
          var t :| t in ts[1..] && PlannedFrom(f, t, n);
          assert t in ts;
        }
      }
    }
  }

  lemma {:induction false} RelationshipsPlanned(f: Foreign, ts: seq<RelationshipTemplate>, d: Datapoint)
    requires (forall t :: t in ts ==> ValidRelationshipTemplate(f, t)) && PlanRelationships(f, ts, d).Ok?
    ensures forall r :: r in PlanRelationships(f, ts, d).value ==> Invariants.PlannedRel(r) && !r.policy.Unknown?
    decreases |ts|
  {
    hide ValidRelationshipTemplate, PlanRelationship;
    if ts != [] {
      assert ts[0] in ts;
      RelationshipsPlanned(f, ts[1..], d);
      if PlanRelationship(f, ts[0], d).value.Some? {
        RelationshipPlanned(f, ts[0], d);
      }
    }
  }

  /** Every plan of a validated job satisfies the hypotheses of the graph invariants. */
  lemma ValidatedJobsMakePlannedPlans(f: Foreign, job: Job, d: Datapoint)
    requires ValidJob(f, job) && PlanOf(f, job, d).Ok?
    ensures var plan := PlanOf(f, job, d).value;
      && Invariants.Planned(plan)
      && (forall n :: n in plan.nodes ==> exists t :: t in job.nodes && PlannedFrom(f, t, n))
      && (forall r :: r in plan.relationships ==> !r.policy.Unknown?)
  {
    hide PlanNodes, PlanRelationships, ValidNodeTemplate, ValidRelationshipTemplate, PlannedFrom;
    NodesPlanned(f, job.nodes, d);
    RelationshipsPlanned(f, job.relationships, d);
    var plan := PlanOf(f, job, d).value;
    forall n | n in plan.nodes
      ensures Invariants.PlannedNode(n)
    {
      var t :| t in job.nodes && PlannedFrom(f, t, n);
      PlannedFromIsPlanned(f, t, n);
    }
  }

  lemma PlannedFromIsPlanned(f: Foreign, t: NodeTemplate, n: GraphNode)
    requires PlannedFrom(f, t, n)
    ensures Invariants.PlannedNode(n) && !n.policy.Unknown?
  {
  }
}
