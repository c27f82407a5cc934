/** What one application writes on the elements it touches, and that it touches no others. */
module Written {
  import opened Prelude
  import opened Values
  import opened Domain
  import opened Filters
  import opened Cypher
  import opened Upsert
  import opened Invariants

  /** The properties of an element that was just written at a moment. */
  predicate WrittenAt(props: Props, given: Props, policy: UpdatePolicy, minutes: Option<int>, now: int) {
    && FIELD_UPDATED_AT in props && props[FIELD_UPDATED_AT] == Stamp(now)
    && (forall k :: k in given && given[k] != Null ==> k in props && props[k] == given[k])
    && (forall k :: k in given && given[k] == Null ==> k !in props)
    && (minutes.Some? && (policy.Create? || policy.Merge?) ==>
          FIELD_EXPIRES_AT in props && props[FIELD_EXPIRES_AT] == Stamp(now + 60 * minutes.value))
  }

  predicate CreatedAt(props: Props, now: int) {
    FIELD_CREATED_AT in props && props[FIELD_CREATED_AT] == Stamp(now)
  }

  /** Properties that an application neither gives nor manages stay as they were. */
  ghost predicate OthersKept(before: Props, after: Props, given: Props) {
    forall k :: k !in given && k !in {FIELD_UPDATED_AT, FIELD_EXPIRES_AT, FIELD_TEMPLATE_HASH} ==> SameAt(before, after, k)
  }

  lemma UpdatedPropsWritten(node: GraphNode, before: Props, now: int)
    requires PlannedNode(node)
    ensures WrittenAt(MergeProps(before, UpdateProps(node, now)), node.props, node.policy, node.expirationMinutes, now)
  {
    FieldsDistinct();
  }

  lemma UpdatedOthersKept(node: GraphNode, before: Props, now: int)
    ensures OthersKept(before, MergeProps(before, UpdateProps(node, now)), node.props)
  {
  }

  lemma CreatedPropsWritten(node: GraphNode, now: int)
    requires PlannedNode(node)
    ensures var props := MergeProps(map[NAME := Text(node.name)], CreationProps(node, now));
      WrittenAt(props, node.props, node.policy, node.expirationMinutes, now) && CreatedAt(props, now)
  {
    FieldsDistinct();
  }

  /**
   * Applying a node: every node that is new or different afterwards carries the given
   * properties, this moment as its update time and, under create and merge, an expiry
   * counted from this moment; its other properties are kept. A new one is created now.
   */
  lemma NodeWritten(env: Env, tx: Tx, node: GraphNode, id: nat)
    requires PlannedNode(node) && ApplyNode(env, tx, node).Ok?
    ensures var h := ApplyNode(env, tx, node).value.0.graph;
      id in h.nodes && (id !in tx.graph.nodes || h.nodes[id] != tx.graph.nodes[id]) ==>
        && WrittenAt(h.nodes[id].props, node.props, node.policy, node.expirationMinutes, env.clock(tx.tick))
        && (id in tx.graph.nodes ==> OthersKept(tx.graph.nodes[id].props, h.nodes[id].props, node.props))
        && (id !in tx.graph.nodes ==>
              h.nodes[id].labels == LabelSet(node.types) && CreatedAt(h.nodes[id].props, env.clock(tx.tick)))
  {
    hide CreatedAt, WrittenAt, OthersKept, MergeProps, CreationProps, UpdateProps, PlannedNode, NodeMatches, NodeNeedsUpdate, LabelSet;
    var now := env.clock(tx.tick);
    CreatedPropsWritten(node, now);
    if id in tx.graph.nodes {
      UpdatedPropsWritten(node, tx.graph.nodes[id].props, now);
      UpdatedOthersKept(node, tx.graph.nodes[id].props, now);
    }
  }

  lemma UpdatedRelPropsWritten(env: Env, rel: GraphRelationship, before: Props, now: int)
    requires PlannedRel(rel) && (FIELD_TEMPLATE_HASH in rel.props ==> rel.props[FIELD_TEMPLATE_HASH].Text?)
    ensures WrittenAt(MergeProps(before, RelUpdateProps(env, rel, now)), rel.props, rel.policy, rel.expirationMinutes, now)
  {
    FieldsDistinct();
  }

  lemma UpdatedRelOthersKept(env: Env, rel: GraphRelationship, before: Props, now: int)
    ensures OthersKept(before, MergeProps(before, RelUpdateProps(env, rel, now)), rel.props)
  {
    hide TemplateHashOf;
  }

  lemma CreatedRelPropsWritten(env: Env, rel: GraphRelationship, now: int)
    requires PlannedRel(rel) && (FIELD_TEMPLATE_HASH in rel.props ==> rel.props[FIELD_TEMPLATE_HASH].Text?)
    ensures var props := MergeProps(map[], RelCreationProps(env, rel, now));
      WrittenAt(props, rel.props, rel.policy, rel.expirationMinutes, now) && CreatedAt(props, now)
  {
    FieldsDistinct();
  }

  /** The same for a relationship between one pair; a new one joins exactly that pair. */
  lemma RelWritten(env: Env, tx: Tx, rel: GraphRelationship, s: nat, t: nat, id: nat)
    requires PlannedRel(rel) && (FIELD_TEMPLATE_HASH in rel.props ==> rel.props[FIELD_TEMPLATE_HASH].Text?)
    requires UpsertRel(env, tx, rel, s, t).Ok?
    ensures var h := UpsertRel(env, tx, rel, s, t).value.0.graph;
      id in h.rels && (id !in tx.graph.rels || h.rels[id] != tx.graph.rels[id]) ==>
        && WrittenAt(h.rels[id].props, rel.props, rel.policy, rel.expirationMinutes, env.clock(tx.tick))
        && h.rels[id].source == s && h.rels[id].target == t && h.rels[id].kind == rel.kind
        && (id in tx.graph.rels ==> OthersKept(tx.graph.rels[id].props, h.rels[id].props, rel.props))
        && (id !in tx.graph.rels ==> CreatedAt(h.rels[id].props, env.clock(tx.tick)))
  {
    hide CreatedAt, WrittenAt, OthersKept, MergeProps, RelCreationProps, RelUpdateProps, PlannedRel, RelNeedsUpdate, TemplateHashOf;
    var now := env.clock(tx.tick);
    CreatedRelPropsWritten(env, rel, now);
    if id in tx.graph.rels {
      UpdatedRelPropsWritten(env, rel, tx.graph.rels[id].props, now);
      UpdatedRelOthersKept(env, rel, tx.graph.rels[id].props, now);
    }
  }

  /* ----- which relationships exist after one relationship has been applied ----- */

  /** A relationship of the type and template hash that leads from one node to another. */
  predicate Joins(r: Rel, kind: string, hash: string, s: nat, t: nat) {
    r.source == s && r.target == t && r.kind == kind && HasText(r.props, FIELD_TEMPLATE_HASH, hash)
  }

  ghost predicate Linked(g: Graph, kind: string, hash: string, s: nat, t: nat) {
    exists id :: id in g.rels && Joins(g.rels[id], kind, hash, s, t)
  }

  lemma ForMatchKeepsHash(env: Env, rel: GraphRelationship, s: MatchedNode, t: MatchedNode)
    ensures TemplateHashOf(env, RelationshipForMatch(env, rel, s, t)) == TemplateHashOf(env, rel)
    ensures RelationshipForMatch(env, rel, s, t).kind == rel.kind
  {
    FieldsDistinct();
  }

  /** After one pair has been applied the pair is linked, and only that pair can be newly linked. */
  lemma PairLinked(env: Env, tx: Tx, rel: GraphRelationship, pair: Pair)
    requires Monotone(env) && PlannedRel(rel) && ApplyPair(env, tx, rel, pair).Ok?
    ensures var h := ApplyPair(env, tx, rel, pair).value.0.graph;
      && Linked(h, rel.kind, TemplateHashOf(env, rel), pair.0.id, pair.1.id)
      && Extends(tx.graph, h)
      && forall id :: id in h.rels && id !in tx.graph.rels ==>
           Joins(h.rels[id], rel.kind, TemplateHashOf(env, rel), pair.0.id, pair.1.id)
  {
    hide RelationshipForMatch, TemplateHashOf, Extends, AllStamped, UniqueNodes, UniqueRels, Monotone;
    var given := RelationshipForMatch(env, rel, pair.0, pair.1);
    ForMatchKeepsHash(env, rel, pair.0, pair.1);
    ForMatchStaysPlanned(env, rel, pair.0, pair.1);
    RelStep(env, tx, given, pair.0.id, pair.1.id);
    UpsertLinks(env, tx, given, pair.0.id, pair.1.id);
  }

  lemma UpsertLinks(env: Env, tx: Tx, rel: GraphRelationship, s: nat, t: nat)
    requires PlannedRel(rel) && UpsertRel(env, tx, rel, s, t).Ok?
    ensures var h := UpsertRel(env, tx, rel, s, t).value.0.graph;
      && Linked(h, rel.kind, TemplateHashOf(env, rel), s, t)
      && forall id :: id in h.rels && id !in tx.graph.rels ==> Joins(h.rels[id], rel.kind, TemplateHashOf(env, rel), s, t)
  {
    hide TemplateHashOf, RelCreationProps, RelUpdateProps, MergeProps, RelNeedsUpdate, Linked;
    var now := env.clock(tx.tick);
    var h := UpsertRel(env, tx, rel, s, t).value.0.graph;
    var hash := TemplateHashOf(env, rel);
    RelCreationIsStamped(env, rel, now);
    if RelMatches(env, tx.graph, rel, s, t) == {} {
      LinkedBy(h, rel.kind, hash, s, t, FreshId(tx.graph.rels.Keys));
    } else {
      var id :| id in RelMatches(env, tx.graph, rel, s, t);
      RelUpdateKeeps(env, rel, now, tx.graph.rels[id]);
      LinkedBy(h, rel.kind, hash, s, t, id);
    }
  }

  lemma LinkedBy(g: Graph, kind: string, hash: string, s: nat, t: nat, id: nat)
    requires id in g.rels && Joins(g.rels[id], kind, hash, s, t)
    ensures Linked(g, kind, hash, s, t)
  {
  }

  lemma LinkedLater(g: Graph, h: Graph, kind: string, hash: string, s: nat, t: nat)
    requires Linked(g, kind, hash, s, t) && Extends(g, h)
    ensures Linked(h, kind, hash, s, t)
  {
    var id :| id in g.rels && Joins(g.rels[id], kind, hash, s, t);
    assert KeepsRel(g.rels[id], h.rels[id]);
    LinkedBy(h, kind, hash, s, t, id);
  }

  /** The new relationships of h lead between pairs of the list. */
  ghost predicate OnlyBetween(g: Graph, h: Graph, kind: string, hash: string, pairs: seq<Pair>) {
    forall id :: id in h.rels && id !in g.rels ==> exists p :: p in pairs && Joins(h.rels[id], kind, hash, p.0.id, p.1.id)
  }

  ghost predicate AllLinked(h: Graph, kind: string, hash: string, pairs: seq<Pair>) {
    forall p :: p in pairs ==> Linked(h, kind, hash, p.0.id, p.1.id)
  }

  lemma OnePairMore(g: Graph, m: Graph, h: Graph, kind: string, hash: string, pairs: seq<Pair>, last: Pair)
    requires OnlyBetween(g, m, kind, hash, pairs) && AllLinked(m, kind, hash, pairs) && Extends(m, h)
    requires Linked(h, kind, hash, last.0.id, last.1.id)
    requires forall id :: id in h.rels && id !in m.rels ==> Joins(h.rels[id], kind, hash, last.0.id, last.1.id)
    ensures OnlyBetween(g, h, kind, hash, pairs + [last]) && AllLinked(h, kind, hash, pairs + [last])
  {
    hide Linked;
    var all := pairs + [last];
    assert last in all && forall p :: p in pairs ==> p in all;
    forall id | id in h.rels && id !in g.rels
      ensures exists p :: p in all && Joins(h.rels[id], kind, hash, p.0.id, p.1.id)
    {
      if id in m.rels {
        var p :| p in pairs && Joins(m.rels[id], kind, hash, p.0.id, p.1.id);
        assert KeepsRel(m.rels[id], h.rels[id]);
        assert p in all && Joins(h.rels[id], kind, hash, p.0.id, p.1.id);
      }
    }
    forall p | p in all
      ensures Linked(h, kind, hash, p.0.id, p.1.id)
    {
      if p in pairs {
        LinkedLater(m, h, kind, hash, p.0.id, p.1.id);
      }
    }
  }

  lemma {:induction false} PairsLinked(env: Env, tx: Tx, rel: GraphRelationship, pairs: seq<Pair>)
    requires Monotone(env) && PlannedRel(rel) && ApplyPairs(env, tx, rel, pairs).Ok?
    ensures var h := ApplyPairs(env, tx, rel, pairs).value.0.graph;
      && OnlyBetween(tx.graph, h, rel.kind, TemplateHashOf(env, rel), pairs)
      && AllLinked(h, rel.kind, TemplateHashOf(env, rel), pairs)
  {
    hide PlannedRel, TemplateHashOf, ApplyPair, Linked, Extends, OnlyBetween, AllLinked;
    if pairs == [] {
      NoPairsLinked(tx.graph, rel.kind, TemplateHashOf(env, rel));
    } else {
      var init, last := pairs[..|pairs| - 1], pairs[|pairs| - 1];
      assert pairs == init + [last];
      PairsLinked(env, tx, rel, init);
      var (before, _) := ApplyPairs(env, tx, rel, init).value;
      PairLinked(env, before, rel, last);
      var (after, _) := ApplyPair(env, before, rel, last).value;
      OnePairMore(tx.graph, before.graph, after.graph, rel.kind, TemplateHashOf(env, rel), init, last);
    }
  }

  lemma NoPairsLinked(g: Graph, kind: string, hash: string)
    ensures OnlyBetween(g, g, kind, hash, []) && AllLinked(g, kind, hash, [])
  {
  }

  lemma {:induction false} ProductMember(sources: seq<MatchedNode>, targets: seq<MatchedNode>, p: Pair)
    ensures p in Product(sources, targets) <==> p.0 in sources && p.1 in targets
  {
    if sources != [] {
      var init, last := sources[..|sources| - 1], sources[|sources| - 1];
      assert sources == init + [last];
      ProductMember(init, targets, p);
      RowMember(last, targets, p);
    }
  }

  lemma RowMember(s: MatchedNode, targets: seq<MatchedNode>, p: Pair)
    ensures p in RowOf(s, targets) <==> p.0 == s && p.1 in targets
  {
    if p.0 == s && p.1 in targets {
      var j :| 0 <= j < |targets| && targets[j] == p.1;
      assert RowOf(s, targets)[j] == p;
    }
  }

  lemma MatchMember(env: Env, nodes: map<nat, Node>, selector: NodeSelector, id: nat)
    requires FindMatches(env, nodes, selector).Ok?
    ensures id in SelectNodes(nodes, selector) <==> exists m :: m in FindMatches(env, nodes, selector).value && m.id == id
  {
    hide SelectNodes;
    var rows, matches := SelectorRows(nodes, selector), FindMatches(env, nodes, selector).value;
    if id in SelectNodes(nodes, selector) {
      var i :| 0 <= i < |rows| && rows[i] == id;
      assert matches[i].id == id && matches[i] in matches;
    }
    if m :| m in matches && m.id == id {
      var i :| 0 <= i < |matches| && matches[i] == m;
      assert rows[i] == id;
    }
  }

  /**
   * What applying a relationship achieves: afterwards every node its source selector
   * matches is linked to every node its target selector matches, and every new
   * relationship leads from such a source to such a target.
   */
  lemma RelationshipLinks(env: Env, tx: Tx, rel: GraphRelationship)
    requires Monotone(env) && PlannedRel(rel) && ApplyRelationship(env, tx, rel).Ok?
    ensures var h, nodes := ApplyRelationship(env, tx, rel).value.0.graph, tx.graph.nodes;
      && (forall s, t :: s in SelectNodes(nodes, rel.source) && t in SelectNodes(nodes, rel.target)
            ==> Linked(h, rel.kind, TemplateHashOf(env, rel), s, t))
      && (forall id :: id in h.rels && id !in tx.graph.rels ==>
            && h.rels[id].source in SelectNodes(nodes, rel.source)
            && h.rels[id].target in SelectNodes(nodes, rel.target)
            && Joins(h.rels[id], rel.kind, TemplateHashOf(env, rel), h.rels[id].source, h.rels[id].target))
  {
    hide PlannedRel, TemplateHashOf, ApplyPairs, Linked, Product, FindMatches, SelectNodes, Monotone;
    var h, nodes := ApplyRelationship(env, tx, rel).value.0.graph, tx.graph.nodes;
    var sources := FindMatches(env, nodes, rel.source).value;
    forall s | s in SelectNodes(nodes, rel.source)
      ensures exists m :: m in sources && m.id == s
    {
      MatchMember(env, nodes, rel.source, s);
    }
    if sources != [] {
      var targets := FindMatches(env, nodes, rel.target).value;
      forall t | t in SelectNodes(nodes, rel.target)
        ensures exists m :: m in targets && m.id == t
      {
        MatchMember(env, nodes, rel.target, t);
      }
      if targets != [] {
        ProductLinks(env, tx, rel, sources, targets);
      }
    }
  }

  lemma ProductLinks(env: Env, tx: Tx, rel: GraphRelationship, sources: seq<MatchedNode>, targets: seq<MatchedNode>)
    requires Monotone(env) && PlannedRel(rel) && ApplyPairs(env, tx, rel, Product(sources, targets)).Ok?
    requires FindMatches(env, tx.graph.nodes, rel.source) == Ok(sources)
    requires FindMatches(env, tx.graph.nodes, rel.target) == Ok(targets)
    ensures var h := ApplyPairs(env, tx, rel, Product(sources, targets)).value.0.graph;
      && (forall s, t :: s in sources && t in targets ==> Linked(h, rel.kind, TemplateHashOf(env, rel), s.id, t.id))
      && (forall id :: id in h.rels && id !in tx.graph.rels ==>
            && h.rels[id].source in SelectNodes(tx.graph.nodes, rel.source)
            && h.rels[id].target in SelectNodes(tx.graph.nodes, rel.target)
            && Joins(h.rels[id], rel.kind, TemplateHashOf(env, rel), h.rels[id].source, h.rels[id].target))
  {
    hide PlannedRel, TemplateHashOf, ApplyPairs, Linked, Product, FindMatches, SelectNodes, Monotone;
    var pairs := Product(sources, targets);
    PairsLinked(env, tx, rel, pairs);
    var h := ApplyPairs(env, tx, rel, pairs).value.0.graph;
    forall s, t | s in sources && t in targets
      ensures Linked(h, rel.kind, TemplateHashOf(env, rel), s.id, t.id)
    {
      ProductMember(sources, targets, (s, t));
      assert (s, t) in pairs;
    }
    forall id | id in h.rels && id !in tx.graph.rels
      ensures h.rels[id].source in SelectNodes(tx.graph.nodes, rel.source)
      ensures h.rels[id].target in SelectNodes(tx.graph.nodes, rel.target)
      ensures Joins(h.rels[id], rel.kind, TemplateHashOf(env, rel), h.rels[id].source, h.rels[id].target)
    {
      var p :| p in pairs && Joins(h.rels[id], rel.kind, TemplateHashOf(env, rel), p.0.id, p.1.id);
      ProductMember(sources, targets, p);
      MatchMember(env, tx.graph.nodes, rel.source, p.0.id);
      MatchMember(env, tx.graph.nodes, rel.target, p.1.id);
    }
  }
}
