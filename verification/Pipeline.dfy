/**
 * From validated configuration to graph: the planner's promises joined with the
 * invariants of the upsert engine.
 */
module Pipeline {
  import opened Prelude
  import opened Strings
  import opened Values
  import opened Domain
  import opened Cypher
  import opened Upsert
  import opened Invariants
  import opened PlanInvariants
  import opened Config
  import opened Rules
  import opened Planner
  import opened Validate
  import opened Soundness

  /* ----- the errors that remain after validation do occur ----- */

  function NoRules(): PropertyRules {
    PropertyRules(map[], map[], [], [])
  }

  function NodeJob(rules: PropertyRules, conditions: seq<Condition>): Job {
    Job("job", "query", 60, [NodeTemplate(["Host"], ["hash"], "create", None, rules, conditions)], [])
  }

  lemma WordsAreTrimmed()
    ensures forall s :: s in {"job", "query", "Host", "create", "hash", "name", "value", "host", "Link"} ==> TrimSpace(s) == s
  {
    forall s | s in {"job", "query", "Host", "create", "hash", "name", "value", "host", "Link"}
      ensures TrimSpace(s) == s
    {
      TrimmedIsFixed(s);
    }
  }

  lemma NameIsUserName()
    ensures UserName(NAME)
  {
  }

  lemma NodeJobIsValid(f: Foreign, rules: PropertyRules, conditions: seq<Condition>)
    requires Lawful(f) && ValidRules(f, rules) && ValidConditions(f, conditions)
    requires NAME in rules.staticProps || NAME in rules.labelProps
    ensures ValidJob(f, NodeJob(rules, conditions))
  {
    hide Lawful, ValidRules, ValidConditions, TrimSpace;
    WordsAreTrimmed();
    LowerWords(f);
    assert ["Host"][..0] == [];
    assert NormalizedTypes([]) == [];
    assert NormalizedTypes(["Host"]) == ["Host"];
  }

  lemma LowerWords(f: Foreign)
    requires Lawful(f)
    ensures f.lower("create") == "create" && f.lower("value") == "value"
  {
    assert LowerAscii("create") == "create" && LowerAscii("value") == "value";
  }

  lemma PlanOneNode(f: Foreign, rules: PropertyRules, conditions: seq<Condition>, d: Datapoint)
    requires PlanNode(f, NodeJob(rules, conditions).nodes[0], d).Err?
    ensures PlanOf(f, NodeJob(rules, conditions), d) == Err(PlanNode(f, NodeJob(rules, conditions).nodes[0], d).error)
  {
    hide PlanNode;
  }

  const BARE: Datapoint := Datapoint(map[], Finite(1.0), 0)

  lemma NameAbsentOccurs(f: Foreign) returns (job: Job)
    requires Lawful(f)
    ensures ValidJob(f, job) && PlanOf(f, job, BARE) == Err(NameAbsent)
  {
    var rules := NoRules().(labelProps := map[NAME := "host"]);
    hide Lawful, TrimSpace, UserName;
    WordsAreTrimmed();
    NameIsUserName();
    NodeJobIsValid(f, rules, []);
    assert "host" != "__value__" && "host" != "__timestamp__" by {
      assert "host"[0] != "__value__"[0] && "host"[0] != "__timestamp__"[0];
    }
    assert FoundLabels(f, rules.labelProps, BARE) == map[];
    job := NodeJob(rules, []);
    PlanOneNode(f, rules, [], BARE);
  }

  lemma NameEmptyOccurs(f: Foreign) returns (job: Job)
    requires Lawful(f)
    ensures ValidJob(f, job) && PlanOf(f, job, BARE) == Err(NameEmpty)
  {
    var rules := NoRules().(staticProps := map[NAME := Text("")]);
    assert f.sprint(Text("")) == "";
    hide Lawful, UserName;
    NameIsUserName();
    NodeJobIsValid(f, rules, []);
    assert FoundLabels(f, rules.labelProps, BARE) == map[];
    job := NodeJob(rules, []);
    PlanOneNode(f, rules, [], BARE);
  }

  const ODD: Condition := Condition("value", "", Bool(true), Null, None, None)

  lemma OddConditionFails(f: Foreign)
    requires f.lower("value") == "value"
    ensures ValidCondition(f, ODD) && MatchCondition(f, ODD, BARE) == Err(NonNumericOperand)
  {
  }

  lemma OddNodeFails(f: Foreign, rules: PropertyRules)
    requires MatchCondition(f, ODD, BARE) == Err(NonNumericOperand)
    ensures PlanNode(f, NodeJob(rules, [ODD]).nodes[0], BARE) == Err(NonNumericOperand)
  {
    hide MatchCondition, ResolvedProperties, NodeFrom;
  }

  lemma NonNumericOperandOccurs(f: Foreign) returns (job: Job)
    requires Lawful(f)
    ensures ValidJob(f, job) && PlanOf(f, job, BARE) == Err(NonNumericOperand)
  {
    hide Lawful, UserName, TrimSpace, MatchCondition, ValidCondition, ResolvedProperties, ValidJob, PlanOf, PlanNode;
    var rules := NoRules().(staticProps := map[NAME := Text("x")]);
    LowerWords(f);
    OddConditionFails(f);
    OddNodeFails(f, rules);
    NameIsUserName();
    NodeJobIsValid(f, rules, [ODD]);
    job := NodeJob(rules, [ODD]);
    PlanOneNode(f, rules, [ODD], BARE);
  }

  const HOST_END: Endpoint := Endpoint("Host", map[], map[NAME := "host"], [])

  lemma HostEndFails(f: Foreign)
    ensures ValidSelector(f, HOST_END) && ResolvedSelector(f, HOST_END, BARE) == Err(MissingLabel)
  {
    hide TrimSpace;
    WordsAreTrimmed();
    assert NAME in HOST_END.labelAttrs && TrimSpace("Host") == "Host" && TrimSpace(NAME) == NAME && TrimSpace("host") == "host";
    assert "host" != "__value__" && "host" != "__timestamp__" by {
      assert "host"[0] != "__value__"[0] && "host"[0] != "__timestamp__"[0];
    }
    assert ResolveOptionalToken(f, HOST_END.labelAttrs[NAME], BARE).None?;
    SelectorFailsExactly(f, HOST_END, BARE);
  }

  lemma NoRulesResolve(f: Foreign)
    ensures ValidRules(f, NoRules()) && ResolvedProperties(f, NoRules(), BARE).Ok?
  {
  }

  const LINK: RelationshipTemplate :=
    RelationshipTemplate("Link", "hash", "create", None, PropertyRules(map[], map[], [], []), [], HOST_END, HOST_END)

  lemma LinkIsValid(f: Foreign)
    requires Lawful(f)
    ensures ValidRelationshipTemplate(f, LINK)
  {
    LowerWords(f);
    hide Lawful, TrimSpace, ValidSelector, ValidRules;
    WordsAreTrimmed();
    HostEndFails(f);
    NoRulesResolve(f);
    assert TrimSpace("Link") == "Link" && TrimSpace("hash") == "hash" && TrimSpace("create") == "create";
  }

  lemma PlanOneRelationship(f: Foreign, job: Job, t: RelationshipTemplate, d: Datapoint)
    requires job.nodes == [] && job.relationships == [t] && PlanRelationship(f, t, d).Err?
    ensures PlanOf(f, job, d) == Err(PlanRelationship(f, t, d).error)
  {
    hide PlanRelationship;
  }

  lemma MissingLabelOccurs(f: Foreign) returns (job: Job)
    requires Lawful(f)
    ensures ValidJob(f, job) && PlanOf(f, job, BARE) == Err(MissingLabel)
  {
    hide Lawful, TrimSpace, ValidRelationshipTemplate, PlanRelationship, PlanOf;
    WordsAreTrimmed();
    LinkIsValid(f);
    job := Job("job", "query", 60, [], [LINK]);
    assert TrimSpace("job") == "job" && TrimSpace("query") == "query";
    HostRelationshipFails(f, LINK);
    PlanOneRelationship(f, job, LINK, BARE);
  }

  lemma HostRelationshipFails(f: Foreign, template: RelationshipTemplate)
    requires template.conditions == [] && template.rules == NoRules() && template.source == HOST_END
    ensures PlanRelationship(f, template, BARE) == Err(MissingLabel)
  {
    hide ResolvedProperties, ResolvedSelector, ValidSelector, ValidRules;
    HostEndFails(f);
    NoRulesResolve(f);
  }

  /* ----- runs of plans from validated configurations ----- */

  /** A plan that the planner made for some validated job and some datapoint. */
  ghost predicate FromValidated(f: Foreign, plan: MutationPlan) {
    exists job, d :: ValidJob(f, job) && PlanOf(f, job, d) == Ok(plan)
  }

  predicate PoliciesKnown(plan: MutationPlan) {
    && (forall n :: n in plan.nodes ==> !n.policy.Unknown?)
    && (forall r :: r in plan.relationships ==> !r.policy.Unknown?)
  }

  lemma ValidatedPlans(f: Foreign, plan: MutationPlan)
    requires FromValidated(f, plan)
    ensures Planned(plan) && PoliciesKnown(plan)
  {
    hide ValidJob, PlanOf, PlannedFrom, Planned;
    var job, d :| ValidJob(f, job) && PlanOf(f, job, d) == Ok(plan);
    ValidatedJobsMakePlannedPlans(f, job, d);
    forall n | n in plan.nodes
      ensures !n.policy.Unknown?
    {
      var t :| t in job.nodes && PlannedFrom(f, t, n);
      PlannedFromIsPlanned(f, t, n);
    }
  }

  lemma {:induction false} NodesPolicyKnown(env: Env, tx: Tx, nodes: seq<GraphNode>)
    requires forall n :: n in nodes ==> !n.policy.Unknown?
    ensures ApplyNodes(env, tx, nodes) != Err(UnsupportedPolicy)
  {
    if nodes != [] {
      NodesPolicyKnown(env, tx, nodes[..|nodes| - 1]);
    }
  }

  lemma {:induction false} PairsPolicyKnown(env: Env, tx: Tx, rel: GraphRelationship, pairs: seq<Pair>)
    requires !rel.policy.Unknown?
    ensures ApplyPairs(env, tx, rel, pairs) != Err(UnsupportedPolicy)
  {
    if pairs != [] {
      PairsPolicyKnown(env, tx, rel, pairs[..|pairs| - 1]);
    }
  }

  lemma {:induction false} RowsPolicyKnown(nodes: map<nat, Node>, rows: seq<nat>)
    requires forall id :: id in rows ==> id in nodes
    ensures ReadRows(nodes, rows) != Err(UnsupportedPolicy)
  {
    if rows != [] {
      RowsPolicyKnown(nodes, rows[..|rows| - 1]);
    }
  }

  lemma RelationshipPolicyKnown(env: Env, tx: Tx, rel: GraphRelationship)
    requires !rel.policy.Unknown?
    ensures ApplyRelationship(env, tx, rel) != Err(UnsupportedPolicy)
  {
    hide ApplyPairs, SelectorRows;
    var nodes := tx.graph.nodes;
    RowsPolicyKnown(nodes, SelectorRows(nodes, rel.source));
    RowsPolicyKnown(nodes, SelectorRows(nodes, rel.target));
    if FindMatches(env, nodes, rel.source).Ok? && FindMatches(env, nodes, rel.target).Ok? {
      PairsPolicyKnown(env, tx, rel, Product(FindMatches(env, nodes, rel.source).value, FindMatches(env, nodes, rel.target).value));
    }
  }

  lemma {:induction false} RelationshipsPolicyKnown(env: Env, tx: Tx, rels: seq<GraphRelationship>)
    requires forall r :: r in rels ==> !r.policy.Unknown?
    ensures ApplyRelationships(env, tx, rels) != Err(UnsupportedPolicy)
  {
    hide ApplyRelationship;
    if rels != [] {
      var init := rels[..|rels| - 1];
      assert forall r :: r in init ==> r in rels;
      RelationshipsPolicyKnown(env, tx, init);
      if ApplyRelationships(env, tx, init).Ok? {
        RelationshipPolicyKnown(env, ApplyRelationships(env, tx, init).value.0, rels[|rels| - 1]);
      }
    }
  }

  lemma PlanPolicyKnown(env: Env, tx: Tx, plan: MutationPlan)
    requires PoliciesKnown(plan)
    ensures ApplyPlan(env, tx, plan) != Err(UnsupportedPolicy)
  {
    hide ApplyNodes, ApplyRelationships;
    NodesPolicyKnown(env, tx, plan.nodes);
    if ApplyNodes(env, tx, plan.nodes).Ok? {
      RelationshipsPolicyKnown(env, ApplyNodes(env, tx, plan.nodes).value.0, plan.relationships);
    }
  }

  /**
   * Timestamp and identity history of every run of plans from validated configurations,
   * failed plans included, from any point of the run to any later one.
   */
  lemma ValidatedRunsKeep(f: Foreign, env: Env, tx: Tx, plans: seq<MutationPlan>, i: nat)
    requires Monotone(env) && i <= |plans|
    requires forall p :: p in plans ==> FromValidated(f, p)
    ensures var earlier, later := RunPlans(env, tx, plans[..i]), RunPlans(env, tx, plans);
      Keeps(earlier.graph, later.graph, env.clock(earlier.tick), env.clock(later.tick))
  {
    hide FromValidated, Keeps, RunPlans, Planned;
    forall p | p in plans
      ensures Planned(p)
    {
      ValidatedPlans(f, p);
    }
    RunsKeep(env, tx, plans, i);
  }

  /** In such a run two errors never occur: an unknown policy and an ambiguous relationship. */
  lemma ValidatedRunsExcludeErrors(f: Foreign, env: Env, tx: Tx, plans: seq<MutationPlan>, next: MutationPlan)
    requires Monotone(env) && FromValidated(f, next) && forall p :: p in plans ==> FromValidated(f, p)
    requires UniqueRels(tx.graph)
    ensures var before := RunPlans(env, tx, plans);
      && ApplyPlan(env, before, next) != Err(AmbiguousRelationshipMatch)
      && ApplyPlan(env, before, next) != Err(UnsupportedPolicy)
  {
    hide FromValidated, RunPlans, Planned, PoliciesKnown, ApplyPlan, UniqueNodes, UniqueRels, AllStamped, Extends;
    var before := RunPlans(env, tx, plans);
    ValidatedRunsKeep(f, env, tx, plans, 0);
    NothingRun(env, tx, plans);
    ValidatedPlans(f, next);
    PlanNeverAmbiguousRel(env, before, next);
    PlanPolicyKnown(env, before, next);
  }

  lemma NothingRun(env: Env, tx: Tx, plans: seq<MutationPlan>)
    ensures RunPlans(env, tx, plans[..0]) == tx
  {
    assert plans[..0] == [];
  }
}
