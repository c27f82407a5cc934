/**
 * Which nodes a selector matches (relationships.go), and the uid of a relationship
 * between one pair of them (relationship_uid.go).
 */
module Matching {
  import opened Prelude
  import opened Strings
  import opened Values
  import opened Domain
  import opened Filters
  import opened Cypher
  import opened Upsert
  import opened Invariants
  import Written

  /* ----- the matched nodes ----- */

  /** No two attribute names sanitize to one parameter name. */
  predicate NamesApart(attributes: Props) {
    forall a, b :: a in attributes && b in attributes && ParameterName("selector", a) == ParameterName("selector", b) ==> a == b
  }

  /** A collected node of the type that has every attribute. */
  predicate Wanted(n: Node, selector: NodeSelector) {
    "Entity" in n.labels && selector.kind in n.labels && Selects(n.props, selector.attributes)
  }

  /** Exactly the wanted nodes are matched. */
  lemma MatchesExactly(env: Env, nodes: map<nat, Node>, selector: NodeSelector, id: nat)
    requires FindMatches(env, nodes, selector).Ok? && NamesApart(selector.attributes)
    ensures (exists m :: m in FindMatches(env, nodes, selector).value && m.id == id) <==> id in nodes && Wanted(nodes[id], selector)
  {
    hide FindMatches, FilterHolds, Selects;
    Written.MatchMember(env, nodes, selector, id);
    if id in nodes {
      FilterWithoutCollisions(nodes[id].props, "selector", selector.attributes);
    }
  }

  predicate ReadableUid(n: Node) {
    FIELD_NODE_UID in n.props ==> n.props[FIELD_NODE_UID] == Null || n.props[FIELD_NODE_UID].Text?
  }

  /** When a selector can be run at all, and which error it gives otherwise. */
  lemma MatchingFailsExactly(env: Env, nodes: map<nat, Node>, selector: NodeSelector)
    requires NamesApart(selector.attributes)
    ensures var r := FindMatches(env, nodes, selector);
      if !IsIdentifier(selector.kind) then r == Err(InvalidIdentifier)
      else if !ReadableNames(env.namePart, "selector", selector.attributes) then r == Err(QueryRejected)
      else if exists id :: id in nodes && Wanted(nodes[id], selector) && !ReadableUid(nodes[id]) then r == Err(UnexpectedUidType)
      else r.Ok?
  {
    hide SelectorRows, ReadableNames, FilterHolds, Selects, IsIdentifier, ReadableUid;
    ReadingFailsExactly(nodes, SelectorRows(nodes, selector));
    forall id | id in nodes
      ensures id in SelectorRows(nodes, selector) <==> Wanted(nodes[id], selector)
    {
      FilterWithoutCollisions(nodes[id].props, "selector", selector.attributes);
    }
  }

  lemma {:induction false} ReadingFailsExactly(nodes: map<nat, Node>, rows: seq<nat>)
    requires forall id :: id in rows ==> id in nodes
    ensures if exists id :: id in rows && !ReadableUid(nodes[id]) then ReadRows(nodes, rows) == Err(UnexpectedUidType)
            else ReadRows(nodes, rows).Ok?
  {
    if rows != [] {
      var init, last := rows[..|rows| - 1], rows[|rows| - 1];
      assert rows == init + [last];
      ReadingFailsExactly(nodes, init);
    }
  }

  /* ----- the hashed text ----- */

  /** An element id contains digits only. */
  lemma {:induction false} ElementTextIsDigits(id: nat)
    ensures ElementText(id) != [] && forall c :: c in ElementText(id) ==> '0' <= c <= '9'
  {
    if id >= 10 {
      ElementTextIsDigits(id / 10);
    }
  }

  lemma IdentityIsClean(n: MatchedNode)
    requires UNIT !in n.uid
    ensures UNIT !in MatchedNodeIdentity(n)
  {
    ElementTextIsDigits(n.id);
    assert UNIT !in FIELD_NODE_UID + ":" && UNIT !in "element_id:";
  }

  /** Relationships of one plan on different pairs of matched nodes get different digest inputs. */
  lemma MatchTextExactly(a: GraphRelationship, s: MatchedNode, t: MatchedNode, b: GraphRelationship, s2: MatchedNode, t2: MatchedNode)
    requires UNIT !in a.uid && UNIT !in b.uid && UNIT !in s.uid && UNIT !in t.uid && UNIT !in s2.uid && UNIT !in t2.uid
    ensures Join(MatchTokens(a, s, t), UNIT_SEPARATOR) == Join(MatchTokens(b, s2, t2), UNIT_SEPARATOR)
      <==> (&& a.uid == b.uid
            && MatchedNodeIdentity(s) == MatchedNodeIdentity(s2) && MatchedNodeIdentity(t) == MatchedNodeIdentity(t2))
  {
    hide MatchedNodeIdentity, Join, Split;
    IdentityIsClean(s);
    IdentityIsClean(t);
    IdentityIsClean(s2);
    IdentityIsClean(t2);
    var p, q := MatchTokens(a, s, t), MatchTokens(b, s2, t2);
    SplitJoin(p, UNIT);
    SplitJoin(q, UNIT);
    if Join(p, UNIT_SEPARATOR) == Join(q, UNIT_SEPARATOR) {
      assert p == q;
      assert p[0] == q[0] && p[1] == q[1] && p[2] == q[2];
    }
  }

  /* ----- the uid that is stored ----- */

  /** The uid column of a row is the text stored on the node, and empty where there is none. */
  predicate RowOfNode(node: Node, m: MatchedNode) {
    if FIELD_NODE_UID in node.props && node.props[FIELD_NODE_UID] != Null then node.props[FIELD_NODE_UID] == Text(m.uid) else m.uid == ""
  }

  /** The selector query reads every node's own uid, or fails on one that is not text. */
  lemma RowsCarryUids(env: Env, nodes: map<nat, Node>, selector: NodeSelector)
    requires FindMatches(env, nodes, selector).Ok?
    ensures forall m :: m in FindMatches(env, nodes, selector).value ==> m.id in nodes && RowOfNode(nodes[m.id], m)
  {
    hide SelectorRows;
    ReadRowsCarryUids(nodes, SelectorRows(nodes, selector));
  }

  lemma {:induction false} ReadRowsCarryUids(nodes: map<nat, Node>, rows: seq<nat>)
    requires (forall id :: id in rows ==> id in nodes) && ReadRows(nodes, rows).Ok?
    ensures forall m :: m in ReadRows(nodes, rows).value ==> m.id in nodes && RowOfNode(nodes[m.id], m)
  {
    if rows != [] {
      ReadRowsCarryUids(nodes, rows[..|rows| - 1]);
    }
  }

  /** Two nodes are told apart: by their uids if both have one, otherwise by element id. */
  predicate ToldApart(s: MatchedNode, t: MatchedNode) {
    if s.uid != "" && t.uid != "" then s.uid != t.uid
    else if s.uid == "" && t.uid == "" then s.id != t.id
    else true
  }

  lemma {:induction false} ElementTextsDiffer(a: nat, b: nat)
    requires ElementText(a) == ElementText(b)
    ensures a == b
  {
    if a >= 10 && b >= 10 {
      var x, y := ElementText(a), ElementText(b);
      assert x[..|x| - 1] == ElementText(a / 10) && y[..|y| - 1] == ElementText(b / 10);
      assert x[|x| - 1] == '0' + (a % 10) as char && y[|y| - 1] == '0' + (b % 10) as char;
      ElementTextsDiffer(a / 10, b / 10);
    } else {
      ElementTextLength(a);
      ElementTextLength(b);
    }
  }

  lemma ElementTextLength(a: nat)
    ensures |ElementText(a)| >= 1 && (|ElementText(a)| == 1 <==> a < 10)
  {
    if a >= 10 {
      ElementTextIsDigits(a / 10);
    }
  }

  lemma IdentitiesDiffer(s: MatchedNode, t: MatchedNode)
    ensures MatchedNodeIdentity(s) != MatchedNodeIdentity(t) <==> ToldApart(s, t)
  {
    var byUid, byId := FIELD_NODE_UID + ":", "element_id:";
    assert byUid[0] != byId[0];
    if s.uid != "" && t.uid != "" {
      assert (byUid + s.uid)[|byUid|..] == s.uid && (byUid + t.uid)[|byUid|..] == t.uid;
    } else if s.uid == "" && t.uid == "" {
      assert (byId + ElementText(s.id))[|byId|..] == ElementText(s.id) && (byId + ElementText(t.id))[|byId|..] == ElementText(t.id);
      if MatchedNodeIdentity(s) == MatchedNodeIdentity(t) {
        ElementTextsDiffer(s.id, t.id);
      }
    } else {
      assert MatchedNodeIdentity(s)[0] != MatchedNodeIdentity(t)[0];
    }
  }

  /** The uid property that a pair's relationship is written with. */
  function StoredUid(env: Env, rel: GraphRelationship, s: MatchedNode, t: MatchedNode): Value {
    RelationshipForMatch(env, rel, s, t).props[FIELD_REL_UID]
  }

  /**
   * Two pairs of one relationship are stored under different uids exactly if a source or
   * a target is told apart, when the digest tells the two texts apart.
   */
  lemma StoredUidsDiffer(env: Env, rel: GraphRelationship, s: MatchedNode, t: MatchedNode, s2: MatchedNode, t2: MatchedNode)
    requires UNIT !in rel.uid && UNIT !in s.uid && UNIT !in t.uid && UNIT !in s2.uid && UNIT !in t2.uid
    requires forall a, b :: env.uuid(a) == env.uuid(b) ==> a == b
    ensures StoredUid(env, rel, s, t) != StoredUid(env, rel, s2, t2) <==> ToldApart(s, s2) || ToldApart(t, t2)
  {
    hide MatchedNodeIdentity, Join, ToldApart;
    MatchTextExactly(rel, s, t, rel, s2, t2);
    IdentitiesDiffer(s, s2);
    IdentitiesDiffer(t, t2);
  }

  /** A newly linked pair carries that uid in the graph. */
  lemma NewPairCarriesUid(env: Env, tx: Tx, rel: GraphRelationship, pair: Pair, id: nat)
    requires PlannedRel(rel) && (FIELD_TEMPLATE_HASH in rel.props ==> rel.props[FIELD_TEMPLATE_HASH].Text?)
    requires ApplyPair(env, tx, rel, pair).Ok?
    ensures var h := ApplyPair(env, tx, rel, pair).value.0.graph;
      id in h.rels && (id !in tx.graph.rels || h.rels[id] != tx.graph.rels[id]) ==>
        FIELD_REL_UID in h.rels[id].props && h.rels[id].props[FIELD_REL_UID] == StoredUid(env, rel, pair.0, pair.1)
  {
    hide UpsertRel, Join;
    FieldsDistinct();
    Written.RelWritten(env, tx, RelationshipForMatch(env, rel, pair.0, pair.1), pair.0.id, pair.1.id, id);
  }
}
