/**
 * The repository object and the methods that run inside one managed transaction
 * (client.go, nodes.go, relationships.go), proved equal to the functions of Upsert.
 */
module Repository {
  import opened Prelude
  import opened Strings
  import opened Values
  import opened Domain
  import opened Filters
  import opened Cypher
  import opened Upsert
  import opened Locks

  /* ----- an error in a prefix is the error of the whole ----- */

  lemma {:induction false} NodesPrefixError(env: Env, tx: Tx, nodes: seq<GraphNode>, i: nat)
    requires i <= |nodes| && ApplyNodes(env, tx, nodes[..i]).Err?
    ensures ApplyNodes(env, tx, nodes) == Err(ApplyNodes(env, tx, nodes[..i]).error)
  {
    hide ApplyNode;
    if i == |nodes| {
      assert nodes[..i] == nodes;
    } else {
      var init := nodes[..|nodes| - 1];
      assert init[..i] == nodes[..i];
      NodesPrefixError(env, tx, init, i);
    }
  }

  lemma {:induction false} PairsPrefixError(env: Env, tx: Tx, rel: GraphRelationship, pairs: seq<Pair>, more: seq<Pair>)
    requires ApplyPairs(env, tx, rel, pairs).Err?
    ensures ApplyPairs(env, tx, rel, pairs + more) == Err(ApplyPairs(env, tx, rel, pairs).error)
  {
    hide ApplyPair;
    if more == [] {
      assert pairs + more == pairs;
    } else {
      assert (pairs + more)[..|pairs + more| - 1] == pairs + more[..|more| - 1];
      PairsPrefixError(env, tx, rel, pairs, more[..|more| - 1]);
    }
  }

  lemma {:induction false} RelationshipsPrefixError(env: Env, tx: Tx, rels: seq<GraphRelationship>, i: nat)
    requires i <= |rels| && ApplyRelationships(env, tx, rels[..i]).Err?
    ensures ApplyRelationships(env, tx, rels) == Err(ApplyRelationships(env, tx, rels[..i]).error)
  {
    hide ApplyRelationship;
    if i == |rels| {
      assert rels[..i] == rels;
    } else {
      var init := rels[..|rels| - 1];
      assert init[..i] == rels[..i];
      RelationshipsPrefixError(env, tx, init, i);
    }
  }

  lemma {:induction false} RowsPrefixError(nodes: map<nat, Node>, rows: seq<nat>, i: nat)
    requires forall id :: id in rows ==> id in nodes
    requires i <= |rows| && ReadRows(nodes, rows[..i]).Err?
    ensures ReadRows(nodes, rows) == Err(ReadRows(nodes, rows[..i]).error)
  {
    if i == |rows| {
      assert rows[..i] == rows;
    } else {
      var init := rows[..|rows| - 1];
      assert init[..i] == rows[..i];
      RowsPrefixError(nodes, init, i);
    }
  }

  lemma {:induction false} ProductPrefix(sources: seq<MatchedNode>, targets: seq<MatchedNode>, i: nat)
    returns (more: seq<Pair>)
    requires i < |sources|
    ensures Product(sources, targets) == Product(sources[..i], targets) + RowOf(sources[i], targets) + more
    decreases |sources|
  {
    var last := |sources| - 1;
    if i == last {
      more := [];
    } else {
      var init := sources[..last];
      assert init[..i] == sources[..i] && init[i] == sources[i];
      more := ProductPrefix(init, targets, i);
      more := more + RowOf(sources[last], targets);
    }
  }

  /** joinWithUnitSeparator in relationship_uid.go */
  method JoinWithUnitSeparator(parts: seq<string>) returns (joined: string)
    ensures joined == Join(parts, UNIT_SEPARATOR)
  {
    if |parts| == 0 {
      return "";
    }
    joined := parts[0];
    for index := 1 to |parts|
      invariant joined == Join(parts[..index], UNIT_SEPARATOR)
    {
      assert parts[..index + 1] == parts[..index] + [parts[index]];
      JoinSnoc(parts[..index], parts[index], UNIT_SEPARATOR);
      joined := joined + (UNIT_SEPARATOR + parts[index]);
    }
    assert parts[..|parts|] == parts;
  }

  class Transaction {
    const env: Env
    var graph: Graph
    var tick: nat

    constructor (env: Env, graph: Graph, tick: nat)
      ensures this.env == env && View() == Tx(graph, tick)
    {
      this.env, this.graph, this.tick := env, graph, tick;
    }

    function View(): Tx
      reads this
    {
      Tx(graph, tick)
    }

    /** time.Now() */
    method Now() returns (now: int)
      modifies this`tick
      ensures now == env.clock(old(tick)) && tick == old(tick) + 1
    {
      now := env.clock(tick);
      tick := tick + 1;
    }

    /* ----- nodes.go ----- */

    method CountNodesByIdentity(node: GraphNode) returns (r: Result<nat, Failure>)
      ensures r == if ValidLabels(node.types) then Ok(|NodeMatches(graph, node)|) else Err(InvalidIdentifier)
    {
      var labels := LabelsFragment(node.types);
      if labels.Err? {
        return Err(InvalidIdentifier);
      }
      r := Ok(|MatchNodes(graph, (set l | l in labels.value), node.name)|);
    }

    method CreateNode(node: GraphNode, now: int) returns (r: Result<PersistAction, Failure>)
      modifies this`graph
      ensures r == if ValidLabels(node.types) then Ok(Created) else Err(InvalidIdentifier)
      ensures graph == if r.Ok? then NodeCreated(old(graph), node, now) else old(graph)
    {
      var labels := LabelsFragment(node.types);
      if labels.Err? {
        return Err(InvalidIdentifier);
      }
      var properties := node.props;
      properties := properties[FIELD_CREATED_AT := Stamp(now)];
      properties := properties[FIELD_UPDATED_AT := Stamp(now)];
      properties := ApplyExpiration(properties, node.policy, node.expirationMinutes, now);
      graph := Cypher.CreateNode(graph, (set l | l in labels.value), node.name, properties);
      r := Ok(Created);
    }

    method LoadNodeProperties(node: GraphNode) returns (r: Result<Props, Failure>)
      ensures !ValidLabels(node.types) ==> r == Err(InvalidIdentifier)
      ensures ValidLabels(node.types) && NodeMatches(graph, node) == {} ==> r == Err(NoRows)
      ensures ValidLabels(node.types) && NodeMatches(graph, node) != {} ==>
        r.Ok? && exists id :: id in NodeMatches(graph, node) && r.value == graph.nodes[id].props
    {
      var labels := LabelsFragment(node.types);
      if labels.Err? {
        return Err(InvalidIdentifier);
      }
      var ids := MatchNodes(graph, (set l | l in labels.value), node.name);
      if ids == {} {
        return Err(NoRows);
      }
      var id :| id in ids;
      r := Ok(graph.nodes[id].props);
    }

    method UpdateNode(node: GraphNode, now: int) returns (r: Result<PersistAction, Failure>)
      modifies this`graph
      ensures r == if ValidLabels(node.types) then Ok(Updated) else Err(InvalidIdentifier)
      ensures graph == if r.Ok? then NodeUpdated(old(graph), node, now) else old(graph)
    {
      var labels := LabelsFragment(node.types);
      if labels.Err? {
        return Err(InvalidIdentifier);
      }
      var properties := node.props;
      properties := properties[FIELD_UPDATED_AT := Stamp(now)];
      properties := ApplyExpiration(properties, node.policy, node.expirationMinutes, now);
      graph := SetOnNodes(graph, MatchNodes(graph, (set l | l in labels.value), node.name), properties);
      r := Ok(Updated);
    }

    method UpdateNodeAtChange(node: GraphNode, now: int) returns (r: Result<PersistAction, Failure>)
      modifies this`graph
      ensures !ValidLabels(node.types) ==> r == Err(InvalidIdentifier)
      ensures ValidLabels(node.types) && NodeMatches(old(graph), node) == {} ==> r == Err(NoRows)
      ensures ValidLabels(node.types) && |NodeMatches(old(graph), node)| == 1 ==>
        var changed := ShouldUpdate(old(graph).nodes[Only(NodeMatches(old(graph), node))].props, ManagedNodeProps(node));
        r == Ok(if changed then Updated else Skipped)
        && graph == if changed then NodeUpdated(old(graph), node, now) else old(graph)
    {
      var properties :- LoadNodeProperties(node);
      var managed := FilterManagedProperties(node.props, AUTOMATIC_NODE);
      var update := ShouldUpdateProperties(properties, managed);
      if !update {
        return Ok(Skipped);
      }
      r := UpdateNode(node, now);
    }

    method ApplyNode(node: GraphNode) returns (r: Result<PersistAction, Failure>)
      modifies this
      ensures match Upsert.ApplyNode(env, old(View()), node)
        case Ok((after, action)) => View() == after && r == Ok(action)
        case Err(e) => r == Err(e) && graph == old(graph)
      ensures tick >= old(tick)
    {
      var existing :- CountNodesByIdentity(node);
      var now := Now();
      match node.policy
      case Create =>
        if existing > 1 {
          return Err(AmbiguousNodeMatch);
        }
        if existing > 0 {
          return Ok(Skipped);
        }
        r := CreateNode(node, now);
      case Merge =>
        if existing == 0 {
          r := CreateNode(node, now);
          return;
        }
        if existing > 1 {
          return Err(AmbiguousNodeMatch);
        }
        r := UpdateNode(node, now);
      case MergeAtChange =>
        if existing == 0 {
          r := CreateNode(node, now);
          return;
        }
        if existing > 1 {
          return Err(AmbiguousNodeMatch);
        }
        r := UpdateNodeAtChange(node, now);
      case Unknown(_) =>
        return Err(UnsupportedPolicy);
    }

    /* ----- relationships.go ----- */

    method CountRelationshipsByIdentity(s: nat, t: nat, rel: GraphRelationship) returns (r: Result<nat, Failure>)
      ensures r == if IsIdentifier(rel.kind) then Ok(|RelMatches(env, graph, rel, s, t)|) else Err(InvalidIdentifier)
    {
      if !IsIdentifier(rel.kind) {
        return Err(InvalidIdentifier);
      }
      r := Ok(|MatchRels(graph, s, t, rel.kind, TemplateHashOf(env, rel))|);
    }

    method CreateRelationship(s: nat, t: nat, rel: GraphRelationship, now: int) returns (r: Result<PersistAction, Failure>)
      modifies this`graph
      ensures r == if IsIdentifier(rel.kind) then Ok(Created) else Err(InvalidIdentifier)
      ensures graph == if r.Err? then old(graph) else
        CreateRel(old(graph), s, t, rel.kind, RelCreationProps(env, rel, now))
    {
      if !IsIdentifier(rel.kind) {
        return Err(InvalidIdentifier);
      }
      var properties := rel.props;
      properties := properties[FIELD_TEMPLATE_HASH := Text(TemplateHashOf(env, rel))];
      properties := properties[FIELD_CREATED_AT := Stamp(now)];
      properties := properties[FIELD_UPDATED_AT := Stamp(now)];
      properties := ApplyExpiration(properties, rel.policy, rel.expirationMinutes, now);
      graph := CreateRel(graph, s, t, rel.kind, properties);
      r := Ok(Created);
    }

    method LoadRelationshipProperties(s: nat, t: nat, rel: GraphRelationship) returns (r: Result<Props, Failure>)
      ensures !IsIdentifier(rel.kind) ==> r == Err(InvalidIdentifier)
      ensures IsIdentifier(rel.kind) && RelMatches(env, graph, rel, s, t) == {} ==> r == Err(NoRows)
      ensures IsIdentifier(rel.kind) && RelMatches(env, graph, rel, s, t) != {} ==>
        r.Ok? && exists id :: id in RelMatches(env, graph, rel, s, t) && r.value == graph.rels[id].props
    {
      if !IsIdentifier(rel.kind) {
        return Err(InvalidIdentifier);
      }
      var ids := MatchRels(graph, s, t, rel.kind, TemplateHashOf(env, rel));
      if ids == {} {
        return Err(NoRows);
      }
      var id :| id in ids;
      r := Ok(graph.rels[id].props);
    }

    method UpdateRelationship(s: nat, t: nat, rel: GraphRelationship, now: int) returns (r: Result<PersistAction, Failure>)
      modifies this`graph
      ensures r == if IsIdentifier(rel.kind) then Ok(Updated) else Err(InvalidIdentifier)
      ensures graph == if r.Err? then old(graph) else
        SetOnRels(old(graph), RelMatches(env, old(graph), rel, s, t), RelUpdateProps(env, rel, now))
    {
      if !IsIdentifier(rel.kind) {
        return Err(InvalidIdentifier);
      }
      var hash := TemplateHashOf(env, rel);
      var properties := rel.props;
      properties := properties[FIELD_TEMPLATE_HASH := Text(hash)];
      properties := properties[FIELD_UPDATED_AT := Stamp(now)];
      properties := ApplyExpiration(properties, rel.policy, rel.expirationMinutes, now);
      graph := SetOnRels(graph, MatchRels(graph, s, t, rel.kind, hash), properties);
      r := Ok(Updated);
    }

    method UpdateRelationshipAtChange(s: nat, t: nat, rel: GraphRelationship, now: int)
      returns (r: Result<PersistAction, Failure>)
      modifies this`graph
      ensures !IsIdentifier(rel.kind) ==> r == Err(InvalidIdentifier)
      ensures IsIdentifier(rel.kind) && RelMatches(env, old(graph), rel, s, t) == {} ==> r == Err(NoRows)
      ensures IsIdentifier(rel.kind) && |RelMatches(env, old(graph), rel, s, t)| == 1 ==>
        var ids := RelMatches(env, old(graph), rel, s, t);
        var changed := ShouldUpdate(old(graph).rels[Only(ids)].props, ManagedRelProps(rel));
        r == Ok(if changed then Updated else Skipped)
        && graph == if changed then SetOnRels(old(graph), ids, RelUpdateProps(env, rel, now)) else old(graph)
    {
      var properties :- LoadRelationshipProperties(s, t, rel);
      var managed := FilterManagedProperties(rel.props, AUTOMATIC_REL);
      var update := ShouldUpdateProperties(properties, managed);
      if !update {
        return Ok(Skipped);
      }
      r := UpdateRelationship(s, t, rel, now);
    }

    /** relationshipForMatch: the planned uid is replaced by the uid of the matched pair. */
    method RelationshipForMatch(rel: GraphRelationship, s: MatchedNode, t: MatchedNode) returns (r: GraphRelationship)
      ensures r == Upsert.RelationshipForMatch(env, rel, s, t)
    {
      var joined := JoinWithUnitSeparator([rel.uid, MatchedNodeIdentity(s), MatchedNodeIdentity(t)]);
      var properties := rel.props;
      properties := properties[FIELD_REL_UID := Text(env.uuid(joined))];
      r := rel.(props := properties);
    }

    method ApplyRelationshipMatch(planned: GraphRelationship, s: MatchedNode, t: MatchedNode)
      returns (r: Result<PersistAction, Failure>)
      modifies this
      ensures match ApplyPair(env, old(View()), planned, (s, t))
        case Ok((after, action)) => View() == after && r == Ok(action)
        case Err(e) => r == Err(e) && graph == old(graph)
      ensures tick >= old(tick)
    {
      var rel := RelationshipForMatch(planned, s, t);
      var existing :- CountRelationshipsByIdentity(s.id, t.id, rel);
      if existing > 1 {
        return Err(AmbiguousRelationshipMatch);
      }
      var now := Now();
      match rel.policy
      case Create =>
        if existing > 0 {
          return Ok(Skipped);
        }
        r := CreateRelationship(s.id, t.id, rel, now);
      case Merge =>
        if existing == 0 {
          r := CreateRelationship(s.id, t.id, rel, now);
          return;
        }
        r := UpdateRelationship(s.id, t.id, rel, now);
      case MergeAtChange =>
        if existing == 0 {
          r := CreateRelationship(s.id, t.id, rel, now);
          return;
        }
        r := UpdateRelationshipAtChange(s.id, t.id, rel, now);
      case Unknown(_) =>
        return Err(UnsupportedPolicy);
    }

    method FindSelectorMatches(selector: NodeSelector) returns (r: Result<seq<MatchedNode>, Failure>)
      ensures r == FindMatches(env, graph.nodes, selector)
    {
      hide OrderRows, SelectNodes, FilterParameters, FilterClause, ReadableNames, RowUid;
      var labels := LabelsFragment([selector.kind]);
      if labels.Err? {
        return Err(InvalidIdentifier);
      }
      assert selector.kind in [selector.kind];
      assert LabelSet([selector.kind]) == {BASE_LABEL, selector.kind};
      var clause, parameters := BuildPropertyFilters("n", selector.attributes, "selector");
      FilterTextIs(selector.attributes);
      ghost var spec := SelectorRows(graph.nodes, selector);
      var rows := RunSelectorQuery(env.namePart, graph.nodes, (set l | l in labels.value), clause, parameters, selector);
      if rows.None? {
        return Err(QueryRejected);
      }
      assert rows.value == spec;
      r := ReadMatches(rows.value);
    }

    method ReadMatches(rows: seq<nat>) returns (r: Result<seq<MatchedNode>, Failure>)
      requires forall id :: id in rows ==> id in graph.nodes
      ensures r == ReadRows(graph.nodes, rows)
    {
      var matches := [];
      for i := 0 to |rows|
        invariant ReadRows(graph.nodes, rows[..i]) == Ok(matches)
      {
        assert rows[..i + 1][..i] == rows[..i] && rows[..i + 1][i] == rows[i];
        match RowUid(graph.nodes[rows[i]])
        case None =>
          RowsPrefixError(graph.nodes, rows, i + 1);
          return Err(UnexpectedUidType);
        case Some(uid) =>
          matches := matches + [MatchedNode(rows[i], uid)];
      }
      assert rows[..|rows|] == rows;
      r := Ok(matches);
    }

    method ApplyRelationship(rel: GraphRelationship) returns (r: Result<Totals, Failure>)
      modifies this
      ensures match Upsert.ApplyRelationship(env, old(View()), rel)
        case Ok((after, totals)) => View() == after && r == Ok(totals)
        case Err(e) => r == Err(e)
      ensures tick >= old(tick)
    {
      hide FindMatches, ApplyPairs, Product;
      var sources :- FindSelectorMatches(rel.source);
      if |sources| == 0 {
        var skip := new ApplyStats();
        skip.AddRelationship(Skipped);
        return Ok(skip.Value());
      }
      var targets :- FindSelectorMatches(rel.target);
      if |targets| == 0 {
        var skip := new ApplyStats();
        skip.AddRelationship(Skipped);
        return Ok(skip.Value());
      }
      r := ApplyAllPairs(rel, sources, targets);
    }

    /** Every source with every target, the statistics kept alongside. */
    method ApplyAllPairs(rel: GraphRelationship, sources: seq<MatchedNode>, targets: seq<MatchedNode>)
      returns (r: Result<Totals, Failure>)
      modifies this
      ensures match ApplyPairs(env, old(View()), rel, Product(sources, targets))
        case Ok((after, totals)) => View() == after && r == Ok(totals)
        case Err(e) => r == Err(e)
      ensures tick >= old(tick)
    {
      hide ApplyPairs, RowOf;
      ghost var start := View();
      var stats := new ApplyStats();
      NoPairs(env, start, rel);
      for i := 0 to |sources|
        invariant ApplyPairs(env, start, rel, Product(sources[..i], targets)) == Ok((View(), stats.Value()))
        invariant tick >= old(tick)
        modifies this, stats
      {
        assert sources[..i + 1][..i] == sources[..i];
        ghost var before := Product(sources[..i], targets);
        var failed := ApplyRow(rel, sources[i], targets, stats, start, before);
        if failed.Some? {
          ghost var more := ProductPrefix(sources, targets, i);
          PairsPrefixError(env, start, rel, before + RowOf(sources[i], targets), more);
          return Err(failed.value);
        }
      }
      assert sources[..|sources|] == sources;
      r := Ok(stats.Value());
    }

    /** The inner loop: one source with every target. */
    method ApplyRow(rel: GraphRelationship, source: MatchedNode, targets: seq<MatchedNode>, stats: ApplyStats,
                    ghost start: Tx, ghost before: seq<Pair>)
      returns (failed: Option<Failure>)
      requires ApplyPairs(env, start, rel, before) == Ok((View(), stats.Value()))
      modifies this, stats
      ensures ApplyPairs(env, start, rel, before + RowOf(source, targets)) ==
        match failed case None => Ok((View(), stats.Value())) case Some(e) => Err(e)
      ensures tick >= old(tick)
    {
      hide ApplyPair, RowOf;
      ghost var row := RowOf(source, targets);
      assert before + row[..0] == before;
      for j := 0 to |targets|
        invariant ApplyPairs(env, start, rel, before + row[..j]) == Ok((View(), stats.Value()))
        invariant tick >= old(tick)
      {
        RowAt(source, targets, j);
        assert row[..j + 1] == row[..j] + [(source, targets[j])];
        assert (before + row[..j + 1])[..|before| + j] == before + row[..j];
        var action := ApplyRelationshipMatch(rel, source, targets[j]);
        if action.Err? {
          assert before + row[..j + 1] + row[j + 1..] == before + row;
          PairsPrefixError(env, start, rel, before + row[..j + 1], row[j + 1..]);
          return Some(action.error);
        }
        stats.AddRelationship(action.value);
      }
      assert row[..|targets|] == row;
      failed := None;
    }
  }

  lemma NoPairs(env: Env, tx: Tx, rel: GraphRelationship)
    ensures ApplyPairs(env, tx, rel, []) == Ok((tx, Zero()))
  {
  }

  lemma FilterTextIs(attributes: Props)
    requires SortedKeysWithin(attributes)
    ensures FilterParameters("selector", attributes) == Parameters("selector", SortedKeys(attributes.Keys), attributes)
    ensures FilterClause("n", "selector", attributes) == Join(RenderTests("n", "selector", SortedKeys(attributes.Keys)), " AND ")
  {
  }

  lemma RowAt(s: MatchedNode, targets: seq<MatchedNode>, j: nat)
    requires j < |targets|
    ensures RowOf(s, targets)[j] == (s, targets[j])
  {
  }

  method ApplyAllNodes(tx: Transaction, stats: ApplyStats, nodes: seq<GraphNode>) returns (failed: Option<Failure>)
    requires stats.Value() == Zero()
    modifies tx, stats
    ensures match ApplyNodes(tx.env, old(tx.View()), nodes)
      case Ok((after, totals)) => failed == None && tx.View() == after && stats.Value() == totals
      case Err(e) => failed == Some(e)
    ensures tx.tick >= old(tx.tick)
  {
    hide Upsert.ApplyNode;
    for i := 0 to |nodes|
      invariant ApplyNodes(tx.env, old(tx.View()), nodes[..i]) == Ok((tx.View(), stats.Value()))
      invariant tx.tick >= old(tx.tick)
    {
      assert nodes[..i + 1][..i] == nodes[..i];
      var action := tx.ApplyNode(nodes[i]);
      if action.Err? {
        NodesPrefixError(tx.env, old(tx.View()), nodes, i + 1);
        return Some(action.error);
      }
      stats.AddNode(action.value);
    }
    assert nodes[..|nodes|] == nodes;
    failed := None;
  }

  method ApplyAllRelationships(tx: Transaction, stats: ApplyStats, rels: seq<GraphRelationship>)
    returns (failed: Option<Failure>)
    modifies tx, stats
    ensures match ApplyRelationships(tx.env, old(tx.View()), rels)
      case Ok((after, totals)) => failed == None && tx.View() == after && stats.Value() == Plus(old(stats.Value()), totals)
      case Err(e) => failed == Some(e)
    ensures tx.tick >= old(tx.tick)
  {
    hide Upsert.ApplyRelationship;
    ghost var totals := Zero();
    for j := 0 to |rels|
      invariant ApplyRelationships(tx.env, old(tx.View()), rels[..j]) == Ok((tx.View(), totals))
      invariant stats.Value() == Plus(old(stats.Value()), totals)
      invariant tx.tick >= old(tx.tick)
    {
      assert rels[..j + 1][..j] == rels[..j];
      var more := tx.ApplyRelationship(rels[j]);
      if more.Err? {
        RelationshipsPrefixError(tx.env, old(tx.View()), rels, j + 1);
        return Some(more.error);
      }
      stats.MergeWith(more.value);
      totals := Plus(totals, more.value);
    }
    assert rels[..|rels|] == rels;
    failed := None;
  }

  /** The callback that session.ExecuteWrite runs, from fresh statistics. */
  method RunCallback(tx: Transaction, plan: MutationPlan) returns (r: Result<Totals, Failure>)
    modifies tx
    ensures match Upsert.ApplyPlan(tx.env, old(tx.View()), plan)
      case Ok((after, totals)) => tx.View() == after && r == Ok(totals)
      case Err(e) => r == Err(e)
    ensures tx.tick >= old(tx.tick)
  {
    hide ApplyNodes, ApplyRelationships;
    var stats := new ApplyStats();
    var failed := ApplyAllNodes(tx, stats, plan.nodes);
    if failed.Some? {
      return Err(failed.value);
    }
    failed := ApplyAllRelationships(tx, stats, plan.relationships);
    if failed.Some? {
      return Err(failed.value);
    }
    r := Ok(stats.Value());
  }

  class Repository {
    const env: Env
    const locks: LockTable
    var store: Graph
    var tick: nat

    constructor (env: Env, store: Graph)
      ensures this.env == env && this.store == store && fresh(locks) && locks.held == {}
    {
      this.env, this.store, this.tick := env, store, 0;
      locks := new LockTable();
    }

    /**
     * ApplyPlan with some number of transient failures: each failed attempt runs the
     * callback on its own view of the store, which is then dropped. Whatever happened
     * before, the last attempt alone decides the new store and the result, and every
     * mutex is released again.
     */
    method ApplyPlan(plan: MutationPlan, transientFailures: nat) returns (r: Result<Totals, Failure>, ghost start: nat)
      requires forall k :: k in LockList(plan) ==> k !in locks.held
      modifies this`store, this`tick, locks
      ensures locks.held == old(locks.held)
      ensures tick >= start >= old(tick)
      ensures match Upsert.ApplyPlan(env, Tx(old(store), start), plan)
        case Ok((after, totals)) => Tx(store, tick) == after && r == Ok(totals)
        case Err(e) => store == old(store) && r == Err(e)
    {
      hide Upsert.ApplyPlan, LockList;
      var taken := locks.LockPlan(plan);
      for attempt := 0 to transientFailures
        invariant store == old(store) && tick >= old(tick)
        invariant locks.held == old(locks.held) + set k | k in taken
        modifies this`tick
      {
        var discarded := new Transaction(env, store, tick);
        var _ := RunCallback(discarded, plan);
        tick := discarded.tick;
      }
      start := tick;
      var tx := new Transaction(env, store, tick);
      r := RunCallback(tx, plan);
      if r.Ok? {
        store := tx.graph;
      }
      tick := tx.tick;
      locks.UnlockAll(taken);
      assert locks.held == old(locks.held);
    }
  }
}
