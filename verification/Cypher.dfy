/**
 * The property graph and the effect of each fixed query that
 * internal/repository/neo4j sends inside a transaction.
 */
module Cypher {
  import opened Prelude
  import opened Strings
  import opened Values
  import opened Domain
  import opened Filters

  datatype Node = Node(labels: set<string>, props: Props)

  datatype Rel = Rel(source: nat, target: nat, kind: string, props: Props)

  datatype Graph = Graph(nodes: map<nat, Node>, rels: map<nat, Rel>)

  datatype MatchedNode = MatchedNode(id: nat, uid: string)

  predicate HasText(props: Props, key: string, text: string) {
    key in props && props[key] == Text(text)
  }

  /* ----- element ids ----- */

  /** Some id outside the set: the database's choice for a created element. */
  function FreshFrom(taken: set<nat>, n: nat): (id: nat)
    ensures id !in taken && id >= n
    decreases |taken|
  {
    if n in taken then
      var id := FreshFrom(taken - {n}, n + 1);
      id
    else n
  }

  function FreshId(taken: set<nat>): (id: nat)
    ensures id !in taken
  {
    FreshFrom(taken, 0)
  }

  function ElementText(id: nat): string {
    if id < 10 then ['0' + id as char] else ElementText(id / 10) + ['0' + (id % 10) as char]
  }

  /* ----- node queries ----- */

  /** MATCH (n:Labels {name: $name}) */
  function MatchNodes(g: Graph, labels: set<string>, name: string): set<nat> {
    set id | id in g.nodes && labels <= g.nodes[id].labels && HasText(g.nodes[id].props, NAME, name)
  }

  /** CREATE (n:Labels {name: $name}) SET n += $properties */
  function CreateNode(g: Graph, labels: set<string>, name: string, props: Props): Graph {
    g.(nodes := g.nodes[FreshId(g.nodes.Keys) := Node(labels, MergeProps(map[NAME := Text(name)], props))])
  }

  /** MATCH ... SET n += $properties, on the matched nodes */
  function SetOnNodes(g: Graph, ids: set<nat>, props: Props): Graph {
    g.(nodes := map id | id in g.nodes ::
      if id in ids then g.nodes[id].(props := MergeProps(g.nodes[id].props, props)) else g.nodes[id])
  }

  /* ----- relationship queries ----- */

  /** MATCH (source)-[rel:KIND {z4j_template_hash: $hash}]->(target) */
  function MatchRels(g: Graph, source: nat, target: nat, kind: string, hash: string): set<nat> {
    set id | id in g.rels && g.rels[id].source == source && g.rels[id].target == target
      && g.rels[id].kind == kind && HasText(g.rels[id].props, FIELD_TEMPLATE_HASH, hash)
  }

  /** CREATE (source)-[rel:KIND]->(target) SET rel += $properties */
  function CreateRel(g: Graph, source: nat, target: nat, kind: string, props: Props): Graph {
    g.(rels := g.rels[FreshId(g.rels.Keys) := Rel(source, target, kind, MergeProps(map[], props))])
  }

  function SetOnRels(g: Graph, ids: set<nat>, props: Props): Graph {
    g.(rels := map id | id in g.rels ::
      if id in ids then g.rels[id].(props := MergeProps(g.rels[id].props, props)) else g.rels[id])
  }

  /* ----- selector query: filtered, then ORDER BY coalesce(uid, elementId) ----- */

  ghost function SelectNodes(nodes: map<nat, Node>, selector: NodeSelector): set<nat> {
    set id | id in nodes && {BASE_LABEL, selector.kind} <= nodes[id].labels
      && FilterHolds(nodes[id].props, "selector", selector.attributes)
  }

  function RowKey(nodes: map<nat, Node>, id: nat): string {
    if id in nodes && FIELD_NODE_UID in nodes[id].props && nodes[id].props[FIELD_NODE_UID].Text?
    then nodes[id].props[FIELD_NODE_UID].s
    else ElementText(id)
  }

  /** The order of the rows; the choice for equal keys is the database's and is fixed here by id. */
  predicate RowBefore(nodes: map<nat, Node>, a: nat, b: nat) {
    Less(RowKey(nodes, a), RowKey(nodes, b)) || (RowKey(nodes, a) == RowKey(nodes, b) && a < b)
  }

  function InsertRow(nodes: map<nat, Node>, id: nat, rows: seq<nat>): (r: seq<nat>)
    ensures multiset(r) == multiset(rows) + multiset{id}
  {
    if rows == [] then [id]
    else if RowBefore(nodes, rows[0], id) then
      assert rows == [rows[0]] + rows[1..];
      [rows[0]] + InsertRow(nodes, id, rows[1..])
    else [id] + rows
  }

  ghost function OrderRows(nodes: map<nat, Node>, ids: set<nat>): (rows: seq<nat>)
    ensures multiset(rows) == multiset(ids)
  {
    if ids == {} then []
    else
      var id :| id in ids;
      InsertRow(nodes, id, OrderRows(nodes, ids - {id}))
  }

  lemma RowBeforeTotal(nodes: map<nat, Node>, a: nat, b: nat)
    ensures a != b ==> (RowBefore(nodes, a, b) <==> !RowBefore(nodes, b, a))
    ensures !RowBefore(nodes, a, a)
  {
    var x, y := RowKey(nodes, a), RowKey(nodes, b);
    LessTotal(x, y);
    LessIrreflexive(x);
    if Less(x, y) && Less(y, x) {
      LessTransitive(x, y, x);
    }
  }

  lemma RowBeforeTransitive(nodes: map<nat, Node>, a: nat, b: nat, c: nat)
    requires RowBefore(nodes, a, b) && RowBefore(nodes, b, c)
    ensures RowBefore(nodes, a, c)
  {
    var x, y, z := RowKey(nodes, a), RowKey(nodes, b), RowKey(nodes, c);
    if Less(x, y) && Less(y, z) {
      LessTransitive(x, y, z);
    }
  }

  lemma {:induction false} InsertionsCommute(nodes: map<nat, Node>, a: nat, b: nat, rows: seq<nat>)
    requires a != b
    ensures InsertRow(nodes, a, InsertRow(nodes, b, rows)) == InsertRow(nodes, b, InsertRow(nodes, a, rows))
  {
    hide RowBefore;
    RowBeforeTotal(nodes, a, b);
    if rows != [] {
      var x := rows[0];
      InsertionsCommute(nodes, a, b, rows[1..]);
      if RowBefore(nodes, x, a) && RowBefore(nodes, a, b) {
        RowBeforeTransitive(nodes, x, a, b);
      }
      if RowBefore(nodes, x, b) && RowBefore(nodes, b, a) {
        RowBeforeTransitive(nodes, x, b, a);
      }
    }
  }

  /** The result does not depend on the order in which the nodes are found. */
  lemma {:induction false} OrderRowsAnyOrder(nodes: map<nat, Node>, ids: set<nat>, id: nat)
    requires id in ids
    ensures OrderRows(nodes, ids) == InsertRow(nodes, id, OrderRows(nodes, ids - {id}))
    decreases |ids|
  {
    hide InsertRow;
    var first :| first in ids && OrderRows(nodes, ids) == InsertRow(nodes, first, OrderRows(nodes, ids - {first}));
    if first != id {
      assert ids - {first} - {id} == ids - {id} - {first};
      OrderRowsAnyOrder(nodes, ids - {first}, id);
      OrderRowsAnyOrder(nodes, ids - {id}, first);
      InsertionsCommute(nodes, first, id, OrderRows(nodes, ids - {first} - {id}));
    }
  }

  predicate InOrder(nodes: map<nat, Node>, rows: seq<nat>) {
    forall i, j :: 0 <= i < j < |rows| ==> !RowBefore(nodes, rows[j], rows[i])
  }

  lemma InOrderCons(nodes: map<nat, Node>, first: nat, rest: seq<nat>)
    requires InOrder(nodes, rest) && forall k :: k in rest ==> !RowBefore(nodes, k, first)
    ensures InOrder(nodes, [first] + rest)
  {
    hide RowBefore;
  }

  lemma {:induction false} InsertKeepsOrder(nodes: map<nat, Node>, id: nat, rows: seq<nat>)
    requires InOrder(nodes, rows)
    ensures InOrder(nodes, InsertRow(nodes, id, rows))
  {
    hide RowBefore;
    if rows == [] {
    } else if RowBefore(nodes, rows[0], id) {
      var rest := InsertRow(nodes, id, rows[1..]);
      InsertKeepsOrder(nodes, id, rows[1..]);
      RowBeforeTotal(nodes, rows[0], id);
      forall k | k in rest
        ensures !RowBefore(nodes, k, rows[0])
      {
        assert k in multiset(rest);
        assert k == id || k in rows[1..];
      }
      InOrderCons(nodes, rows[0], rest);
    } else {
      forall k | k in rows
        ensures !RowBefore(nodes, k, id)
      {
        NotBeforeTransitive(nodes, k, rows[0], id);
      }
      InOrderCons(nodes, id, rows);
    }
  }

  lemma NotBeforeTransitive(nodes: map<nat, Node>, c: nat, b: nat, a: nat)
    requires !RowBefore(nodes, b, a) && (c == b || !RowBefore(nodes, c, b))
    ensures !RowBefore(nodes, c, a)
  {
    RowBeforeTotal(nodes, a, b);
    RowBeforeTotal(nodes, b, c);
    if RowBefore(nodes, c, a) && a != b {
      RowBeforeTransitive(nodes, c, a, b);
    }
  }

  /** Selector rows come in ascending order of their key. */
  lemma {:induction false} RowsInKeyOrder(nodes: map<nat, Node>, ids: set<nat>)
    ensures InOrder(nodes, OrderRows(nodes, ids))
    ensures var rows := OrderRows(nodes, ids);
      forall i, j :: 0 <= i < j < |rows| ==> AtMost(RowKey(nodes, rows[i]), RowKey(nodes, rows[j]))
  {
    if ids != {} {
      var id :| id in ids && OrderRows(nodes, ids) == InsertRow(nodes, id, OrderRows(nodes, ids - {id}));
      RowsInKeyOrder(nodes, ids - {id});
      InsertKeepsOrder(nodes, id, OrderRows(nodes, ids - {id}));
    }
  }

  /** The uid stored on a node, as text. */
  function UidText(n: Node): Option<string> {
    if FIELD_NODE_UID in n.props && n.props[FIELD_NODE_UID].Text? then Some(n.props[FIELD_NODE_UID].s) else None
  }

  /** Nodes with a uid come in the order of their uids, those without in the order of their element ids. */
  lemma RowsByUid(nodes: map<nat, Node>, ids: set<nat>, i: nat, j: nat)
    requires ids <= nodes.Keys && i < j < |OrderRows(nodes, ids)|
    ensures var a, b := OrderRows(nodes, ids)[i], OrderRows(nodes, ids)[j];
      && a in nodes && b in nodes
      && match (UidText(nodes[a]), UidText(nodes[b]))
         case (Some(x), Some(y)) => AtMost(x, y)
         case (Some(x), None) => AtMost(x, ElementText(b))
         case (None, Some(y)) => AtMost(ElementText(a), y)
         case (None, None) => AtMost(ElementText(a), ElementText(b))
  {
    hide OrderRows, Less;
    RowsInKeyOrder(nodes, ids);
    var rows := OrderRows(nodes, ids);
    assert rows[i] in multiset(rows) && rows[j] in multiset(rows);
  }

  lemma OrderRowsNext(nodes: map<nat, Node>, ids: set<nat>, rest: set<nat>, id: nat)
    requires id in rest && rest <= ids
    ensures OrderRows(nodes, ids - (rest - {id})) == InsertRow(nodes, id, OrderRows(nodes, ids - rest))
  {
    hide InsertRow, OrderRows;
    var done := ids - (rest - {id});
    assert done - {id} == ids - rest;
    OrderRowsAnyOrder(nodes, done, id);
  }

  lemma NoRows(nodes: map<nat, Node>)
    ensures OrderRows(nodes, {}) == []
  {
  }

  /** ORDER BY coalesce(n.z4j_node_uid, elementId(n)) */
  method OrderByKey(nodes: map<nat, Node>, ids: set<nat>) returns (rows: seq<nat>)
    ensures rows == OrderRows(nodes, ids)
  {
    hide InsertRow, RowBefore, OrderRows;
    rows := [];
    var rest := ids;
    assert ids - rest == {};
    NoRows(nodes);
    while rest != {}
      invariant rest <= ids && rows == OrderRows(nodes, ids - rest)
    {
      var id :| id in rest;
      OrderRowsNext(nodes, ids, rest, id);
      rows := InsertRow(nodes, id, rows);
      rest := rest - {id};
    }
    assert ids - rest == ids;
  }

  /** MATCH (n:Labels) WHERE clause RETURN ... ORDER BY ...; None is a clause the database does not understand. */
  method RunSelectorQuery(part: NamePart, nodes: map<nat, Node>, labels: set<string>, clause: string, parameters: Props,
                          ghost selector: NodeSelector)
    returns (rows: Option<seq<nat>>)
    requires labels == {BASE_LABEL, selector.kind}
    requires clause == FilterClause("n", "selector", selector.attributes)
    requires parameters == FilterParameters("selector", selector.attributes)
    ensures rows == if ReadableNames(part, "selector", selector.attributes)
                    then Some(OrderRows(nodes, SelectNodes(nodes, selector))) else None
  {
    hide TestsHold, FilterHolds, ReadClause, FilterClause, ReadableNames, FilterParameters, OrderRows;
    ClauseReadsExactly(part, "n", "selector", selector.attributes);
    var tests := ReadClause(part, "n", clause);
    if tests.None? {
      return None;
    }
    var found := set id | id in nodes && labels <= nodes[id].labels && TestsHold(nodes[id].props, tests.value, parameters);
    assert found == SelectNodes(nodes, selector);
    var ordered := OrderByKey(nodes, found);
    rows := Some(ordered);
  }

  /** The uid column of one row: absent reads as "", anything but text is an error. */
  function RowUid(node: Node): Option<string> {
    if FIELD_NODE_UID !in node.props || node.props[FIELD_NODE_UID] == Null then Some("")
    else match node.props[FIELD_NODE_UID]
      case Text(uid) => Some(uid)
      case _ => None
  }
}
