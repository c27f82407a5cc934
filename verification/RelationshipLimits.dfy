/** Exactly which one-relationship plans are idempotent. */
module RelationshipLimits {
  import opened Prelude
  import opened Values
  import opened Domain
  import opened Filters
  import opened Cypher
  import opened Upsert
  import opened Invariants
  import opened PlanInvariants
  import opened Written
  import opened Idempotence
  import opened PlanIdempotence
  import opened IdempotenceLimits

  predicate StoredRels(g: Graph) {
    forall id :: id in g.rels ==> Stored(g.rels[id].props)
  }

  lemma MergedIsStored(current: Props, given: Props)
    requires Stored(current)
    ensures Stored(MergeProps(current, given))
  {
  }

  lemma UpsertKeepsStored(env: Env, tx: Tx, rel: GraphRelationship, s: nat, t: nat)
    requires StoredRels(tx.graph) && UpsertRel(env, tx, rel, s, t).Ok?
    ensures StoredRels(UpsertRel(env, tx, rel, s, t).value.0.graph)
  {
    hide MergeProps, Stored, RelUpdateProps, RelCreationProps, RelMatches, RelNeedsUpdate;
    forall props: Props, given: Props | Stored(props)
      ensures Stored(MergeProps(props, given))
    {
      MergedIsStored(props, given);
    }
    NothingIsStored();
  }

  lemma NothingIsStored()
    ensures Stored(map[])
  {
  }

  lemma {:induction false} PairsKeepStored(env: Env, tx: Tx, rel: GraphRelationship, pairs: seq<Pair>)
    requires StoredRels(tx.graph) && ApplyPairs(env, tx, rel, pairs).Ok?
    ensures StoredRels(ApplyPairs(env, tx, rel, pairs).value.0.graph)
  {
    hide StoredRels, UpsertRel, RelationshipForMatch;
    if pairs != [] {
      var init, last := pairs[..|pairs| - 1], pairs[|pairs| - 1];
      PairsKeepStored(env, tx, rel, init);
      UpsertKeepsStored(env, ApplyPairs(env, tx, rel, init).value.0, RelationshipForMatch(env, rel, last.0, last.1), last.0.id, last.1.id);
    }
  }

  /** On a graph without duplicate links nothing goes wrong. */
  lemma {:induction false} PairsSucceed(env: Env, tx: Tx, rel: GraphRelationship, pairs: seq<Pair>)
    requires Monotone(env) && PlannedRel(rel) && UniqueRels(tx.graph) && IsIdentifier(rel.kind) && !rel.policy.Unknown?
    ensures ApplyPairs(env, tx, rel, pairs).Ok?
  {
    hide PlannedRel, UniqueRels, RelMatches, RelNeedsUpdate, RelCreationProps, RelUpdateProps, CreateRel, SetOnRels, IsIdentifier;
    PairsNeverAmbiguous(env, tx, rel, pairs);
    if pairs != [] {
      PairsSucceed(env, tx, rel, pairs[..|pairs| - 1]);
    }
  }

  /** Existing relationships are written again. */
  predicate Restless(rel: GraphRelationship) {
    rel.policy.Merge? || (rel.policy.MergeAtChange? && !Settled(ManagedRelProps(rel)))
  }

  lemma ForMatchManaged(env: Env, rel: GraphRelationship, s: MatchedNode, t: MatchedNode)
    ensures ManagedRelProps(RelationshipForMatch(env, rel, s, t)) == ManagedRelProps(rel)
    ensures var given := RelationshipForMatch(env, rel, s, t);
      given.policy == rel.policy && given.kind == rel.kind && TemplateHashOf(env, given) == TemplateHashOf(env, rel)
  {
    FieldsDistinct();
  }

  lemma LinkedMatches(env: Env, g: Graph, rel: GraphRelationship, s: nat, t: nat)
    requires Linked(g, rel.kind, TemplateHashOf(env, rel), s, t)
    ensures RelMatches(env, g, rel, s, t) != {}
  {
    hide TemplateHashOf;
    var id :| id in g.rels && Joins(g.rels[id], rel.kind, TemplateHashOf(env, rel), s, t);
    assert id in RelMatches(env, g, rel, s, t);
  }

  lemma RestlessPairIsUpdated(env: Env, tx: Tx, rel: GraphRelationship, pair: Pair)
    requires Restless(rel) && StoredRels(tx.graph) && Linked(tx.graph, rel.kind, TemplateHashOf(env, rel), pair.0.id, pair.1.id)
    requires ApplyPair(env, tx, rel, pair).Ok?
    ensures ApplyPair(env, tx, rel, pair).value.1 == Updated
  {
    hide Linked, RelMatches, RelationshipForMatch, ManagedRelProps, TemplateHashOf, SetOnRels, CreateRel, ShouldUpdate,
         Settled, Stored,
         RelUpdateProps, RelCreationProps;
    var given, s, t := RelationshipForMatch(env, rel, pair.0, pair.1), pair.0.id, pair.1.id;
    ForMatchManaged(env, rel, pair.0, pair.1);
    LinkedMatches(env, tx.graph, given, s, t);
    if rel.policy.MergeAtChange? {
      var ids := RelMatches(env, tx.graph, given, s, t);
      assert Only(ids) in ids;
      MatchIsThere(env, tx.graph, given, s, t, Only(ids));
      UnsettledAlwaysDiffers(tx.graph.rels[Only(ids)].props, ManagedRelProps(given));
    }
  }

  lemma MatchIsThere(env: Env, g: Graph, rel: GraphRelationship, s: nat, t: nat, id: nat)
    requires id in RelMatches(env, g, rel, s, t)
    ensures id in g.rels
  {
  }

  lemma {:induction false} UpdatesOfPrefix(env: Env, tx: Tx, rel: GraphRelationship, pairs: seq<Pair>, k: nat)
    requires k <= |pairs| && ApplyPairs(env, tx, rel, pairs).Ok?
    ensures ApplyPairs(env, tx, rel, pairs[..k]).Ok?
    ensures ApplyPairs(env, tx, rel, pairs[..k]).value.1.relsUpdated <= ApplyPairs(env, tx, rel, pairs).value.1.relsUpdated
    decreases |pairs|
  {
    hide ApplyPair;
    if k == |pairs| {
      assert pairs[..k] == pairs;
    } else {
      assert pairs[..|pairs| - 1][..k] == pairs[..k];
      UpdatesOfPrefix(env, tx, rel, pairs[..|pairs| - 1], k);
    }
  }

  /** Applied to pairs that are linked already, a restless relationship does not only skip. */
  lemma RestlessPairsUpdate(env: Env, tx: Tx, rel: GraphRelationship, pairs: seq<Pair>)
    requires Restless(rel) && StoredRels(tx.graph) && AllLinked(tx.graph, rel.kind, TemplateHashOf(env, rel), pairs)
    requires pairs != []
    requires ApplyPairs(env, tx, rel, pairs).Ok?
    ensures ApplyPairs(env, tx, rel, pairs).value.1.relsUpdated > 0
  {
    hide Restless, StoredRels, Linked, ApplyPair, TemplateHashOf;
    UpdatesOfPrefix(env, tx, rel, pairs, 1);
    assert pairs[..1][..0] == [] && pairs[..1][0] == pairs[0] && pairs[0] in pairs;
    RestlessPairIsUpdated(env, tx, rel, pairs[0]);
  }

  function RelPlan(rel: GraphRelationship): MutationPlan {
    MutationPlan([], [rel])
  }

  lemma OneRelationshipUnfold(env: Env, tx: Tx, rel: GraphRelationship)
    ensures ApplyRelationships(env, tx, [rel]) == ApplyRelationship(env, tx, rel)
  {
    hide ApplyRelationship;
    assert [rel][..0] == [];
    assert ApplyRelationships(env, tx, []) == Ok((tx, Zero()));
    if ApplyRelationship(env, tx, rel).Ok? {
      var (after, totals) := ApplyRelationship(env, tx, rel).value;
      assert Plus(Zero(), totals) == totals;
    }
  }

  lemma RelPlanUnfold(env: Env, tx: Tx, rel: GraphRelationship)
    ensures ApplyPlan(env, tx, RelPlan(rel)) == ApplyRelationship(env, tx, rel)
  {
    hide ApplyRelationship, ApplyRelationships;
    OneRelationshipUnfold(env, tx, rel);
    assert ApplyNodes(env, tx, []) == Ok((tx, Zero()));
    if ApplyRelationship(env, tx, rel).Ok? {
      var (after, totals) := ApplyRelationship(env, tx, rel).value;
      assert Plus(Zero(), totals) == totals;
    }
  }

  lemma OneFanout(nodes: map<nat, Node>, rel: GraphRelationship)
    ensures TotalFanout(nodes, [rel]) == Fanout(nodes, rel)
  {
    hide Fanout;
    assert [rel][..0] == [] && TotalFanout(nodes, []) == 0;
  }

  /** Some graph has a pair for the relationship: both selectors match something together. */
  ghost predicate CanSelect(env: Env, rel: GraphRelationship) {
    exists nodes: map<nat, Node> :: SelectedPairs(env, nodes, rel) != []
  }

  lemma SelectedIsReadable(env: Env, nodes: map<nat, Node>, rel: GraphRelationship)
    requires SelectedPairs(env, nodes, rel) != []
    ensures Readable(env, nodes, rel)
  {
    hide FindMatches;
  }

  lemma RestlessNotIdempotent(env: Env, rel: GraphRelationship, nodes: map<nat, Node>)
    requires Monotone(env) && PlannedRel(rel) && IsIdentifier(rel.kind) && Restless(rel) && SelectedPairs(env, nodes, rel) != []
    ensures !IdempotentPlan(env, RelPlan(rel))
  {
    hide SelectedPairs, Readable, ApplyRelationship, ApplyPairs, ApplyPlan, PlannedRel, AllLinked, TemplateHashOf,
         TotalFanout, IsIdentifier;
    var plan, tx, pairs := RelPlan(rel), Tx(Graph(nodes, map[]), 0), SelectedPairs(env, nodes, rel);
    SelectedIsReadable(env, nodes, rel);
    RelationshipUnfold(env, tx, rel);
    PairsSucceed(env, tx, rel, pairs);
    RelPlanUnfold(env, tx, rel);
    var g := ApplyPairs(env, tx, rel, pairs).value.0.graph;
    PairsLeaveNodes(env, tx, rel, pairs);
    PairsKeepStored(env, tx, rel, pairs);
    PairsLinked(env, tx, rel, pairs);
    var second := Tx(g, 0);
    RelationshipUnfold(env, second, rel);
    RelPlanUnfold(env, second, rel);
    if ApplyPairs(env, second, rel, pairs).Ok? {
      RestlessPairsUpdate(env, second, rel, pairs);
    }
    assert !SecondRunSkips(env, tx, plan, 0);
  }

  /** Nothing is ever selected: one skip, always. */
  lemma UnselectedIsIdempotent(env: Env, rel: GraphRelationship)
    requires !CanSelect(env, rel)
    ensures IdempotentPlan(env, RelPlan(rel))
  {
    hide SelectedPairs, Readable, ApplyRelationship, ApplyPairs, ApplyPlan, Fanout, TotalFanout;
    forall tx: Tx, again: nat | ApplyPlan(env, tx, RelPlan(rel)).Ok?
      ensures SecondRunSkips(env, tx, RelPlan(rel), again)
    {
      RelPlanUnfold(env, tx, rel);
      RelationshipUnfold(env, tx, rel);
      var nodes := tx.graph.nodes;
      assert SelectedPairs(env, nodes, rel) == [];
      var second := Tx(tx.graph, again);
      RelPlanUnfold(env, second, rel);
      RelationshipUnfold(env, second, rel);
      PairsOfCount(env, nodes, rel);
      OneFanout(nodes, rel);
    }
  }

  lemma CalmIsReapplicable(env: Env, rel: GraphRelationship)
    requires CalmRel(rel)
    ensures Reapplicable(env, RelPlan(rel))
  {
  }

  /**
   * A plan of one relationship is idempotent if and only if existing relationships are
   * left alone, by policy or because every compared value settles, or nothing is ever selected.
   */
  lemma OneRelationshipIdempotentExactly(env: Env, rel: GraphRelationship)
    requires Monotone(env) && PlannedRel(rel) && IsIdentifier(rel.kind) && !rel.policy.Unknown?
    ensures IdempotentPlan(env, RelPlan(rel)) <==> !Restless(rel) || !CanSelect(env, rel)
  {
    hide IdempotentPlan, Reapplicable, Settled, ManagedRelProps, IsIdentifier, SelectedPairs, PlannedRel;
    if !CanSelect(env, rel) {
      UnselectedIsIdempotent(env, rel);
    } else if Restless(rel) {
      var nodes: map<nat, Node> :| SelectedPairs(env, nodes, rel) != [];
      RestlessNotIdempotent(env, rel, nodes);
    } else {
      CalmIsReapplicable(env, rel);
      ReapplicableIsIdempotent(env, RelPlan(rel));
    }
  }
}
