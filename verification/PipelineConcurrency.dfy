/**
 * Configuration and locks: which planned elements are safe to write concurrently, and
 * which configurations are safe for any number of concurrent datapoints.
 */
module PipelineConcurrency {
  import opened Prelude
  import opened Strings
  import opened Values
  import opened Domain
  import opened Filters
  import opened Cypher
  import opened Upsert
  import opened Invariants
  import opened Config
  import opened Rules
  import opened Planner
  import opened Validate
  import opened Soundness
  import opened Identity
  import opened Locks
  import opened Concurrency
  import opened ConcurrentViews
  import opened ConcurrentWrites
  import opened ConcurrentRuns
  import opened ConcurrencyLimits
  import opened ConcurrentLinkLimits
  import opened ConcurrentNamedEnds
  import Nodes = ConcurrentNodes

  /* ----- which planned elements are safe to write concurrently ----- */

  /** The digest tells these two texts apart, and a UUID text is never empty. */
  predicate Distinguishes(f: Foreign, a: string, b: string) {
    f.uuid(a) != "" && f.uuid(b) != "" && (f.uuid(a) == f.uuid(b) ==> a == b)
  }

  lemma SamePrefix(prefix: string, a: string, b: string)
    ensures prefix + a == prefix + b <==> a == b
  {
    if prefix + a == prefix + b {
      assert a == (prefix + a)[|prefix|..] && b == (prefix + b)[|prefix|..];
    }
  }

  predicate CleanNode(n: GraphNode) {
    UnitFree(n.templateHashes) && UNIT !in n.name
  }

  /** Labels that the repository accepts contain no separator. */
  lemma LabelsArePlain(types: seq<string>)
    requires ValidLabels(types) && types != []
    ensures Plain(types)
  {
    forall t | t in types
      ensures UNIT !in t && '|' !in t
    {
    }
  }

  lemma PlannedLockKeys(f: Foreign, ta: NodeTemplate, tb: NodeTemplate, a: GraphNode, b: GraphNode)
    requires PlannedFrom(f, ta, a) && PlannedFrom(f, tb, b) && CleanNode(a) && CleanNode(b)
    requires ValidLabels(a.types) && ValidLabels(b.types)
    requires Distinguishes(f, NodeText(a.types, a.name, a.templateHashes), NodeText(b.types, b.name, b.templateHashes))
    ensures NodeLockKey(a) == NodeLockKey(b) <==> a.types == b.types && a.name == b.name && SameHashes(a, b)
  {
    hide NodeText, Plain, PlannedNode, ValidLabels, Pieces, Sort;
    LabelsArePlain(a.types);
    LabelsArePlain(b.types);
    PlainSorted(a.types);
    PlainSorted(b.types);
    SortedIsSort(a.types);
    SortedIsSort(b.types);
    NodeTextsAgree(a.types, a.name, a.templateHashes, b.types, b.name, b.templateHashes);
    SamePrefix(FIELD_NODE_UID + ":", a.uid, b.uid);
  }

  /** The code accepts both, they are one node, and the graph does not hold it yet. */
  predicate BothCreate(g: Graph, a: GraphNode, b: GraphNode) {
    && ValidLabels(a.types) && ValidLabels(b.types)
    && LabelSet(a.types) == LabelSet(b.types) && a.name == b.name && NodeMatches(g, a) == {}
  }

  /** Up to order and up to cuts at "|". */
  predicate SameHashes(a: GraphNode, b: GraphNode) {
    Pieces(Sort(a.templateHashes), '|') == Pieces(Sort(b.templateHashes), '|')
  }

  lemma SortedIsSort(items: seq<string>)
    requires Sorted(items)
    ensures Sort(items) == items
  {
    SortSorted(items);
    SortedIsUnique(Sort(items), items);
  }

  lemma PlannedIsNamed(f: Foreign, t: NodeTemplate, n: GraphNode)
    requires PlannedFrom(f, t, n)
    ensures Named(n) && !n.policy.Unknown?
  {
  }

  /**
   * Two planned nodes written by two concurrent calls are never duplicated, in any
   * interleaving, exactly if equal labels and names come with equal types and with
   * template hashes that make one identity: the lock key knows the hashes, the graph does not.
   */
  lemma PlannedNodesSafeExactly(f: Foreign, env: Env, g: Graph, ta: NodeTemplate, tb: NodeTemplate,
                                a: GraphNode, b: GraphNode, retries: nat)
    requires UniqueNodes(g) && PlannedFrom(f, ta, a) && PlannedFrom(f, tb, b) && CleanNode(a) && CleanNode(b)
    requires Distinguishes(f, NodeText(a.types, a.name, a.templateHashes), NodeText(b.types, b.name, b.templateHashes))
    ensures NodesSafe(env, NodeWriters(g, a, b, retries)) <==> (BothCreate(g, a, b) ==> a.types == b.types && SameHashes(a, b))
  {
    hide PlannedFrom, CleanNode, Distinguishes, NodeText, NodesSafe, NodeWriters, NodeLockKey, LabelSet, ValidLabels,
         UniqueNodes, NodeMatches,
         SameHashes, Named;
    PlannedIsNamed(f, ta, a);
    PlannedIsNamed(f, tb, b);
    TwoNodeWritersExactly(env, g, a, b, retries);
    if ValidLabels(a.types) && ValidLabels(b.types) {
      PlannedLockKeys(f, ta, tb, a, b);
    }
  }

  /* ----- whole configurations: nodes ----- */

  /** A plan that the planner made for one of the jobs and some datapoint. */
  ghost predicate FromJobs(f: Foreign, jobs: seq<Job>, plan: MutationPlan) {
    exists job, d :: job in jobs && ValidJob(f, job) && PlanOf(f, job, d) == Ok(plan)
  }

  ghost predicate FromTemplate(f: Foreign, jobs: seq<Job>, n: GraphNode) {
    exists job, t :: job in jobs && t in job.nodes && PlannedFrom(f, t, n)
  }

  /** Node templates with equal labels have equal types and hashes, up to order. */
  predicate LabelsFixHashes(jobs: seq<Job>) {
    forall i, j, s, t :: i in jobs && j in jobs && s in i.nodes && t in j.nodes && SameTemplateLabels(s, t) ==> SameTemplateIdentity(s, t)
  }

  predicate SameTemplateLabels(s: NodeTemplate, t: NodeTemplate) {
    LabelSet(NormalizedTypes(s.types)) == LabelSet(NormalizedTypes(t.types))
  }

  predicate SameTemplateIdentity(s: NodeTemplate, t: NodeTemplate) {
    && multiset(NormalizedTypes(s.types)) == multiset(NormalizedTypes(t.types))
    && multiset(s.templateHashes) == multiset(t.templateHashes)
  }

  lemma PlannedTemplates(f: Foreign, jobs: seq<Job>, plan: MutationPlan)
    requires FromJobs(f, jobs, plan)
    ensures NamedPlan(plan) && forall n :: n in plan.nodes ==> FromTemplate(f, jobs, n)
  {
    hide ValidJob, PlanOf, PlannedFrom, Planned, Named;
    var job, d :| job in jobs && ValidJob(f, job) && PlanOf(f, job, d) == Ok(plan);
    ValidatedJobsMakePlannedPlans(f, job, d);
    forall n | n in plan.nodes
      ensures Named(n) && FromTemplate(f, jobs, n)
    {
      var t :| t in job.nodes && PlannedFrom(f, t, n);
      PlannedIsNamed(f, t, n);
    }
  }

  lemma SameLabels(a: seq<string>, b: seq<string>)
    requires multiset(a) == multiset(b)
    ensures LabelSet(a) == LabelSet(b)
  {
    forall s
      ensures s in a <==> s in b
    {
      assert s in a <==> s in multiset(a);
      assert s in b <==> s in multiset(b);
    }
  }

  /** Under that condition one identity has one uid, hence one lock key. */
  lemma OneIdentityOneKey(f: Foreign, jobs: seq<Job>, m: GraphNode, n: GraphNode)
    requires LabelsFixHashes(jobs) && FromTemplate(f, jobs, m) && FromTemplate(f, jobs, n) && KeyOf(m) == KeyOf(n)
    ensures NodeLockKey(m) == NodeLockKey(n)
  {
    hide LabelSet, NormalizedTypes, Sort, Join, Sorted, PlannedNode, NormalizeUpdatePolicy;
    var i, s :| i in jobs && s in i.nodes && PlannedFrom(f, s, m);
    var j, t :| j in jobs && t in j.nodes && PlannedFrom(f, t, n);
    SameLabels(m.types, NormalizedTypes(s.types));
    SameLabels(n.types, NormalizedTypes(t.types));
    assert SameTemplateLabels(s, t) && SameTemplateIdentity(s, t);
    SortIsCanonical(m.types, n.types);
    SortIsCanonical(m.templateHashes, n.templateHashes);
    assert m.uid == n.uid;
  }

  /**
   * Any number of datapoints of the jobs, processed concurrently in any interleaving,
   * never duplicate a node, if templates with equal labels have equal types and hashes.
   */
  lemma ConfiguredNodesSafe(f: Foreign, env: Env, jobs: seq<Job>, s: State)
    requires LabelsFixHashes(jobs) && Initial(s) && UniqueNodes(s.committed)
    requires forall p :: 0 <= p < |s.calls| ==> FromJobs(f, jobs, s.calls[p].plan)
    ensures NodesSafe(env, s)
  {
    hide LabelsFixHashes, FromJobs, FromTemplate, Initial, UniqueNodes, NamedPlan, Exec, NodeLockKey, KeyOf,
         Nodes.CreatableNode, Nodes.NodesGuarded;
    forall p | 0 <= p < |s.calls|
      ensures NamedPlan(s.calls[p].plan) && forall n :: n in s.calls[p].plan.nodes ==> FromTemplate(f, jobs, n)
    {
      PlannedTemplates(f, jobs, s.calls[p].plan);
    }
    forall p, q | 0 <= p < q < |s.calls|
      ensures NodesFixKeys(s.calls[p].plan, s.calls[q].plan)
    {
      forall m, n | m in s.calls[p].plan.nodes && n in s.calls[q].plan.nodes && KeyOf(m) == KeyOf(n)
        ensures NodeLockKey(m) == NodeLockKey(n)
      {
        OneIdentityOneKey(f, jobs, m, n);
      }
    }
    FixedKeysGuard(s.committed, s);
    forall schedule: Schedule | Exec(env, s, schedule).Some?
      ensures UniqueNodes(Exec(env, s, schedule).value.committed)
    {
      NoDuplicateNodes(env, s, schedule);
    }
  }

  /* ----- two planned relationships ----- */

  ghost function TextOf(f: Foreign, r: GraphRelationship): string {
    RelationshipText(CanonicalValue(f), r.kind, r.templateHash, r.source, r.target)
  }

  /** Planned for some datapoint. */
  ghost predicate RelFrom(f: Foreign, r: GraphRelationship) {
    exists t, d :: PlanRelationship(f, t, d) == Ok(Some(r))
  }

  lemma PlannedRelationship(f: Foreign, r: GraphRelationship)
    requires RelFrom(f, r)
    ensures r.uid == f.uuid(TextOf(f, r))
    ensures FIELD_REL_UID in r.props && r.props[FIELD_REL_UID] == Text(r.uid)
    ensures FIELD_TEMPLATE_HASH in r.props && r.props[FIELD_TEMPLATE_HASH] == Text(r.templateHash)
  {
    hide ResolvedProperties, ResolvedSelector, MatchConditions, RelationshipText, TrimSpace;
    var t, d :| PlanRelationship(f, t, d) == Ok(Some(r));
    FieldsDistinct();
  }

  /** Both selectors agree, up to canonical value text, or the texts overlap at a "selector" attribute. */
  ghost predicate OneIdentity(f: Foreign, a: GraphRelationship, b: GraphRelationship) {
    var s, t, s2, t2 := ViewOf(CanonicalValue(f), a.source), ViewOf(CanonicalValue(f), a.target),
                        ViewOf(CanonicalValue(f), b.source), ViewOf(CanonicalValue(f), b.target);
    (s == s2 && t == t2) || Overlap(s, t, s2, t2) || Overlap(s2, t2, s, t)
  }

  ghost predicate CleanRel(f: Foreign, r: GraphRelationship) {
    CleanRelationship(CanonicalValue(f), r.kind, r.templateHash, r.source, r.target)
  }

  lemma PlannedRelLockKeys(f: Foreign, a: GraphRelationship, b: GraphRelationship)
    requires RelFrom(f, a) && RelFrom(f, b) && CleanRel(f, a) && CleanRel(f, b)
    requires Distinguishes(f, TextOf(f, a), TextOf(f, b))
    ensures RelationshipLockKey(a) == RelationshipLockKey(b)
      <==> a.kind == b.kind && a.templateHash == b.templateHash && OneIdentity(f, a, b)
  {
    hide RelFrom, ViewOf, Overlap, RelationshipText, CleanRelationship;
    PlannedRelationship(f, a);
    PlannedRelationship(f, b);
    RelationshipTextsAgree(CanonicalValue(f), a.kind, a.templateHash, a.source, a.target, b.kind, b.templateHash, b.source, b.target);
    SamePrefix(FIELD_REL_UID + ":", a.uid, b.uid);
  }

  lemma SharedLinkMeans(f: Foreign, env: Env, g: Graph, a: GraphRelationship, b: GraphRelationship)
    requires RelFrom(f, a) && RelFrom(f, b) && ShareNewLink(env, g, a, b)
    ensures a.kind == b.kind && a.templateHash == b.templateHash
  {
    hide RelFrom, SelectedPairs;
    PlannedRelationship(f, a);
    PlannedRelationship(f, b);
  }

  /**
   * The same for relationships, on any graph without duplicate links: two that share a
   * new link must have one identity. The lock knows the selectors, not the nodes they match.
   */
  lemma PlannedRelationshipsSafeExactly(f: Foreign, env: Env, g: Graph, a: GraphRelationship, b: GraphRelationship, retries: nat)
    requires UniqueRels(g) && RelFrom(f, a) && RelFrom(f, b) && CleanRel(f, a) && CleanRel(f, b)
    requires Distinguishes(f, TextOf(f, a), TextOf(f, b))
    ensures LinksSafe(env, LinkWriters(g, a, b, retries)) <==> (ShareNewLink(env, g, a, b) ==> OneIdentity(f, a, b))
  {
    hide RelFrom, CleanRel, LinksSafe, LinkWriters, UniqueRels, OneIdentity, ShareNewLink, Distinguishes, RelationshipLockKey;
    PlannedRelLockKeys(f, a, b);
    TwoRelWritersExactly(env, g, a, b, retries);
    if ShareNewLink(env, g, a, b) {
      SharedLinkMeans(f, env, g, a, b);
    }
  }

  /* ----- whole configurations: relationships ----- */

  /** The end is selected by its name alone: by a text, or by a label or the time stamp. */
  predicate ByName(e: Endpoint) {
    && e.staticAttrs.Keys + e.labelAttrs.Keys == {NAME}
    && (NAME in e.labelAttrs ==> e.labelAttrs[NAME] != "__value__")
    && (NAME !in e.labelAttrs ==> NAME in e.staticAttrs && e.staticAttrs[NAME].Text?)
  }

  predicate EndsByName(jobs: seq<Job>) {
    forall job, t :: job in jobs && t in job.relationships ==> ByName(t.source) && ByName(t.target)
  }

  /** Templates of one type and hash connect nodes of the same types. */
  predicate TypeFixesEnds(jobs: seq<Job>) {
    forall i, j, s, t :: i in jobs && j in jobs && s in i.relationships && t in j.relationships && SameTypeAndHash(s, t) ==>
      s.source.kind == t.source.kind && s.target.kind == t.target.kind
  }

  predicate SameTypeAndHash(s: RelationshipTemplate, t: RelationshipTemplate) {
    s.kind == t.kind && TrimSpace(s.templateHash) == TrimSpace(t.templateHash)
  }

  ghost predicate FromRelTemplate(f: Foreign, jobs: seq<Job>, r: GraphRelationship) {
    exists job, t, d :: job in jobs && t in job.relationships && PlanRelationship(f, t, d) == Ok(Some(r))
  }

  lemma {:induction false} RelationshipsFrom(f: Foreign, ts: seq<RelationshipTemplate>, d: Datapoint)
    requires PlanRelationships(f, ts, d).Ok?
    ensures forall r :: r in PlanRelationships(f, ts, d).value ==> exists t :: t in ts && PlanRelationship(f, t, d) == Ok(Some(r))
    decreases |ts|
  {
    hide PlanRelationship;
    if ts != [] {
      RelationshipsFrom(f, ts[1..], d);
      forall r | r in PlanRelationships(f, ts, d).value
        ensures exists t :: t in ts && PlanRelationship(f, t, d) == Ok(Some(r))
      {
        if PlanRelationship(f, ts[0], d) == Ok(Some(r)) {
          assert ts[0] in ts;
        } else {
          var t :| t in ts[1..] && PlanRelationship(f, t, d) == Ok(Some(r));
          assert t in ts;
        }
      }
    }
  }

  lemma PlannedRelTemplates(f: Foreign, jobs: seq<Job>, plan: MutationPlan)
    requires FromJobs(f, jobs, plan)
    ensures forall r :: r in plan.relationships ==> FromRelTemplate(f, jobs, r)
  {
    hide ValidJob, PlanNodes, PlanRelationships, PlanRelationship;
    var job, d :| job in jobs && ValidJob(f, job) && PlanOf(f, job, d) == Ok(plan);
    RelationshipsFrom(f, job.relationships, d);
  }

  lemma ByNameResolves(f: Foreign, e: Endpoint, d: Datapoint)
    requires ByName(e) && ResolvedSelector(f, e, d).Ok?
    ensures NameOnly(ResolvedSelector(f, e, d).value) && ResolvedSelector(f, e, d).value.kind == e.kind
  {
    hide TokenValues, ApplyTransforms, RunProcesses, AttributeValues;
    var a := ResolvedSelector(f, e, d).value.attributes;
    forall key
      ensures key in a <==> key in {NAME}
    {
      SelectorMeans(f, e, d, key);
      assert key in e.staticAttrs.Keys + e.labelAttrs.Keys <==> key in {NAME};
    }
    SelectorMeans(f, e, d, NAME);
    if NAME in e.labelAttrs {
      OnlyTextIsTransformed(f, ResolveOptionalToken(f, e.labelAttrs[NAME], d).value, ProcessesFor(e.labelAttrs[NAME], e.priorTransform));
    }
  }

  /** What a planned relationship takes from its template. */
  lemma FromTemplateShape(f: Foreign, t: RelationshipTemplate, d: Datapoint, r: GraphRelationship)
    requires PlanRelationship(f, t, d) == Ok(Some(r))
    ensures ResolvedSelector(f, t.source, d) == Ok(r.source) && ResolvedSelector(f, t.target, d) == Ok(r.target)
    ensures r.kind == t.kind && r.templateHash == TrimSpace(t.templateHash)
  {
    hide ResolvedProperties, ResolvedSelector, MatchConditions, RelationshipUID, TrimSpace;
  }

  lemma TemplateNamesEnds(f: Foreign, jobs: seq<Job>, r: GraphRelationship)
    requires FromRelTemplate(f, jobs, r) && EndsByName(jobs)
    ensures NameOnly(r.source) && NameOnly(r.target)
  {
    hide PlanRelationship, NameOnly, ByName, ResolvedSelector;
    var job, t, d :| job in jobs && t in job.relationships && PlanRelationship(f, t, d) == Ok(Some(r));
    FromTemplateShape(f, t, d, r);
    ByNameResolves(f, t.source, d);
    ByNameResolves(f, t.target, d);
  }

  lemma SameEndsSameKey(f: Foreign, env: Env, jobs: seq<Job>, m: GraphRelationship, n: GraphRelationship)
    requires FromRelTemplate(f, jobs, m) && FromRelTemplate(f, jobs, n) && EndsByName(jobs) && TypeFixesEnds(jobs)
    requires SameEnds(env, m, n)
    ensures RelationshipLockKey(m) == RelationshipLockKey(n)
  {
    hide PlanRelationship, NameOnly, ByName, ResolvedSelector, TrimSpace, RelationshipText;
    var i, s, c :| i in jobs && s in i.relationships && PlanRelationship(f, s, c) == Ok(Some(m));
    var j, t, d :| j in jobs && t in j.relationships && PlanRelationship(f, t, d) == Ok(Some(n));
    FromTemplateShape(f, s, c, m);
    FromTemplateShape(f, t, d, n);
    PlannedRelationship(f, m);
    PlannedRelationship(f, n);
    ByNameResolves(f, s.source, c);
    ByNameResolves(f, s.target, c);
    ByNameResolves(f, t.source, d);
    ByNameResolves(f, t.target, d);
    assert SameTypeAndHash(s, t);
    assert m.source == n.source && m.target == n.target;
  }

  /**
   * Any number of datapoints of the jobs, processed concurrently in any interleaving,
   * never duplicate a relationship, if ends are selected by name alone and templates of
   * one type and hash connect nodes of the same types. Nothing is asked of the nodes.
   */
  lemma ConfiguredLinksSafe(f: Foreign, env: Env, jobs: seq<Job>, s: State)
    requires EndsByName(jobs) && TypeFixesEnds(jobs) && Initial(s) && UniqueRels(s.committed)
    requires forall p :: 0 <= p < |s.calls| ==> FromJobs(f, jobs, s.calls[p].plan)
    ensures LinksSafe(env, s)
  {
    hide EndsByName, TypeFixesEnds, FromJobs, FromTemplate, FromRelTemplate, Initial, UniqueRels, NamedPlan, NameOnly,
         SameEnds, LinksSafe,
         RelationshipLockKey;
    forall p | 0 <= p < |s.calls|
      ensures NamedPlan(s.calls[p].plan) && NamedEnds(s.calls[p].plan)
      ensures forall r :: r in s.calls[p].plan.relationships ==> FromRelTemplate(f, jobs, r)
    {
      PlannedTemplates(f, jobs, s.calls[p].plan);
      PlannedRelTemplates(f, jobs, s.calls[p].plan);
      forall r | r in s.calls[p].plan.relationships
        ensures NameOnly(r.source) && NameOnly(r.target)
      {
        TemplateNamesEnds(f, jobs, r);
      }
    }
    forall p, q | 0 <= p < q < |s.calls|
      ensures EndsFixKeys(env, s.calls[p].plan, s.calls[q].plan)
    {
      forall m, n | m in s.calls[p].plan.relationships && n in s.calls[q].plan.relationships && SameEnds(env, m, n)
        ensures RelationshipLockKey(m) == RelationshipLockKey(n)
      {
        SameEndsSameKey(f, env, jobs, m, n);
      }
    }
    NamedEndsSafe(env, s);
  }
}
