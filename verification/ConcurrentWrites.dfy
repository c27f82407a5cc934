/**
 * What holds of the graphs in every state: writes of open transactions stay apart and
 * change no identity, and nothing that was ever committed disappears.
 */
module ConcurrentWrites {
  import opened Prelude
  import opened Domain
  import opened Filters
  import opened Cypher
  import opened Upsert
  import opened Locks
  import opened Concurrency
  import opened ConcurrentViews

  /* ----- what holds of the graphs in every state ----- */

  predicate CallGrounded(committed: Graph, call: Call) {
    && Tidy(committed, call.pending)
    && NamedPlan(call.plan)
    && (!InTransaction(call) ==> call.pending == NOTHING && call.met == {})
  }

  predicate CreatedApart(a: Pending, b: Pending) {
    a.nodes.Keys !! b.nodes.Keys && a.rels.Keys !! b.rels.Keys
  }

  predicate Grounded(g0: Graph, s: State) {
    && Kept(g0, s.committed)
    && (forall p :: 0 <= p < |s.calls| ==> CallGrounded(s.committed, s.calls[p]))
    && (forall p, q :: 0 <= p < |s.calls| && 0 <= q < |s.calls| && p != q ==>
          CreatedApart(s.calls[p].pending, s.calls[q].pending))
  }

  predicate NamedItem(item: Item) {
    item.NodeItem? ==> Named(item.node)
  }

  predicate CreatesNode(move: Move, item: Item) {
    move == CreateIt && item.NodeItem?
  }

  predicate CreatesRel(move: Move, item: Item) {
    move == CreateIt && item.PairItem?
  }

  function KeyOf(node: GraphNode): NodeKey {
    NodeKey(LabelSet(node.types), node.name)
  }

  function ItemLink(env: Env, item: Item): Link
    requires item.PairItem?
  {
    Link(item.s, item.t, item.rel.kind, TemplateHashOf(env, item.rel))
  }

  /** What the last query for an element does to the transaction's writes. */
  predicate WroteItem(env: Env, w: Pending, next: Pending, move: Move, item: Item, id: nat) {
    && (if CreatesNode(move, item) then
          next.nodes.Keys == w.nodes.Keys + {id} && NodeIdents(next.nodes) == NodeIdents(w.nodes)[id := KeyOf(item.node)]
        else next.nodes.Keys == w.nodes.Keys && NodeIdents(next.nodes) == NodeIdents(w.nodes))
    && (if CreatesRel(move, item) then
          next.rels.Keys == w.rels.Keys + {id} && RelIdents(next.rels) == RelIdents(w.rels)[id := ItemLink(env, item)]
        else next.rels.Keys == w.rels.Keys && RelIdents(next.rels) == RelIdents(w.rels))
  }

  lemma AddedNodeIdent(nodes: map<nat, Node>, id: nat, node: GraphNode, now: int)
    requires Named(node)
    ensures NodeIdents(nodes[id := NewNode(node, now)]) == NodeIdents(nodes)[id := KeyOf(node)]
  {
    hide NewNode, LabelSet;
    NewNodeIdent(node, now);
  }

  lemma AddedRelIdent(env: Env, rels: map<nat, Rel>, id: nat, rel: GraphRelationship, s: nat, t: nat, now: int)
    ensures RelIdents(rels[id := NewRel(env, rel, s, t, now)]) == RelIdents(rels)[id := ItemLink(env, PairItem(rel, s, t))]
  {
    hide NewRel, TemplateHashOf;
    NewRelIdent(env, rel, s, t, now);
  }

  lemma WritesAreTidy(env: Env, g: Graph, w: Pending, item: Item, stage: Stage, id: nat)
    requires Tidy(g, w) && NamedItem(item)
    requires var move := MoveOf(env, Overlay(g, w), item, stage);
      (CreatesNode(move, item) ==> id !in g.nodes && id !in w.nodes) && (CreatesRel(move, item) ==> id !in g.rels && id !in w.rels)
    ensures var next := WritesAfter(env, Overlay(g, w), w, item, stage, id);
      Tidy(g, next) && WroteItem(env, w, next, MoveOf(env, Overlay(g, w), item, stage), item, id)
  {
    hide Tidy, Overlay, NodeMatches, RelMatches, NodeIdents, RelIdents, SetNodes, SetRels, NewNode, NewRel,
         UpdateProps, RelUpdateProps,
         KeyOf, ItemLink, MoveOf;
    var now := StageTime(stage);
    var next := WritesAfter(env, Overlay(g, w), w, item, stage, id);
    match (MoveOf(env, Overlay(g, w), item, stage), item)
    case (CreateIt, NodeItem(node)) =>
      AddedNodeIdent(w.nodes, id, node, now);
      AddedTidyNode(g, w, next, id);
    case (UpdateIt, NodeItem(node)) => SetNodesTidy(g, w, node, now);
    case (CreateIt, PairItem(rel, s, t)) =>
      AddedRelIdent(env, w.rels, id, rel, s, t, now);
      AddedTidyRel(g, w, next, id);
    case (UpdateIt, PairItem(rel, s, t)) => SetRelsTidy(env, g, w, rel, s, t, now);
    case _ =>
  }

  lemma AddedTidyNode(g: Graph, w: Pending, next: Pending, id: nat)
    requires Tidy(g, w) && id !in g.nodes && next == w.(nodes := next.nodes) && next.nodes.Keys == w.nodes.Keys + {id}
    ensures Tidy(g, next)
  {
    hide Repeats;
  }

  lemma AddedTidyRel(g: Graph, w: Pending, next: Pending, id: nat)
    requires Tidy(g, w) && id !in g.rels && next == w.(rels := next.rels) && next.rels.Keys == w.rels.Keys + {id}
    ensures Tidy(g, next)
  {
    hide Repeats;
  }

  /* ----- every step keeps it ----- */

  /** A step that leaves the writes of a call alone, or drops them. */
  predicate KeepsWrites(c: Choice) {
    c.Acquire? || c.Begin? || c.Count? || c.Load? || c.ReadSources? || c.ReadTargets? || c.Release?
  }

  lemma StepWrites(env: Env, s: State, p: nat, c: Choice)
    requires Enabled(env, s, p, c)
    ensures var call, next := s.calls[p], Do(env, s, p, c).calls[p];
      && (KeepsWrites(c) ==> next.pending == call.pending && (c.Acquire? || c.Release? ==> next.met == call.met))
      && (c.Commit? || c.Reject? || c.Fail? || c.Retry? ==> next.pending == NOTHING && next.met == {})
      && (c.Acquire? || c.Release? || c.Commit? || c.Reject? || c.Fail? ==> !InTransaction(next))
      && (c.Acquire? || c.Release? || c.Begin? ==> !InTransaction(call))
      && (c.Begin? ==> next.met == call.met && InTransaction(next))
      && (c.Commit? ==> InTransaction(call))
      && (c.Retry? ==> InTransaction(next))
      && (c.Count? || c.Load? || c.Write? || c.ReadSources? || c.ReadTargets? ==> InTransaction(call) && InTransaction(next))
  {
    hide LockList, View, MoveOf, Matches, WritesAfter, Changed, FindMatches, Product, LinksOf;
  }

  lemma WriteShape(env: Env, s: State, p: nat, id: nat) returns (item: Item, move: Move)
    requires Enabled(env, s, p, Write(id))
    ensures var call, next := s.calls[p], Do(env, s, p, Write(id)).calls[p];
      && ItemOf(env, call) == Some(item) && move == MoveOf(env, View(s, call), item, StageOf(call))
      && (move == CreateIt ==> Fresh(s, item, id))
      && next == call.(phase := AfterItem(call), pending := WritesAfter(env, View(s, call), call.pending, item, StageOf(call), id))
  {
    hide LockList, View, Matches, WritesAfter, MoveOf, AfterItem, ItemOf;
    item := ItemOf(env, s.calls[p]).value;
    move := MoveOf(env, View(s, s.calls[p]), item, StageOf(s.calls[p]));
  }

  lemma CountShape(env: Env, s: State, p: nat) returns (item: Item)
    requires Enabled(env, s, p, Count)
    ensures var call, next := s.calls[p], Do(env, s, p, Count).calls[p];
      && ItemOf(env, call) == Some(item) && Accepted(item)
      && next == call.(phase := WithStage(call.phase, Counted(|Matches(env, View(s, call), item)|, env.clock(s.tick))))
  {
    hide LockList, View, Matches, WithStage, ItemOf, Accepted;
    item := ItemOf(env, s.calls[p]).value;
  }

  lemma ItemsAreNamed(env: Env, call: Call)
    requires NamedPlan(call.plan) && ItemOf(env, call).Some?
    ensures NamedItem(ItemOf(env, call).value)
  {
    hide Named, RelationshipForMatch;
  }

  lemma WriteGrounded(env: Env, g0: Graph, s: State, p: nat, id: nat)
    requires Grounded(g0, s) && Enabled(env, s, p, Write(id))
    ensures var next := Do(env, s, p, Write(id)).calls[p];
      CallGrounded(s.committed, next)
      && forall q :: 0 <= q < |s.calls| && q != p ==> CreatedApart(next.pending, s.calls[q].pending)
  {
    hide Enabled, Do, View, ItemOf, MoveOf, WritesAfter, Tidy, Kept, NamedPlan, NodeIdents, RelIdents;
    OthersUnchanged(env, s, p, Write(id));
    var call := s.calls[p];
    var item, move := WriteShape(env, s, p, id);
    StepWrites(env, s, p, Write(id));
    ItemsAreNamed(env, call);
    ViewIsOverlay(s, call);
    WritesAreTidy(env, s.committed, call.pending, item, StageOf(call), id);
    assert forall q :: 0 <= q < |s.calls| && q != p ==> CreatedApart(call.pending, s.calls[q].pending);
  }

  lemma ViewIsOverlay(s: State, call: Call)
    ensures View(s, call) == Overlay(s.committed, call.pending)
  {
  }

  lemma UncommittedGrounded(env: Env, g0: Graph, s: State, p: nat, c: Choice)
    requires Grounded(g0, s) && Enabled(env, s, p, c) && !c.Commit?
    ensures Grounded(g0, Do(env, s, p, c))
  {
    hide Enabled, Do, Tidy, Kept, NamedPlan, View;
    var t := Do(env, s, p, c);
    OthersUnchanged(env, s, p, c);
    StepWrites(env, s, p, c);
    NothingIsTidy(s.committed);
    if c.Write? {
      WriteGrounded(env, g0, s, p, c.id);
    }
  }

  lemma NothingIsTidy(g: Graph)
    ensures Tidy(g, NOTHING)
  {
  }

  lemma CommitShape(env: Env, s: State, p: nat)
    requires Enabled(env, s, p, Commit)
    ensures p < |s.calls| && Do(env, s, p, Commit).committed == View(s, s.calls[p])
  {
    hide View;
  }

  /** Another call's writes stay tidy over the new committed graph. */
  lemma OthersStayTidy(g0: Graph, s: State, p: nat, q: nat)
    requires Grounded(g0, s) && p < |s.calls| && q < |s.calls| && q != p
    ensures Tidy(View(s, s.calls[p]), s.calls[q].pending)
  {
    hide Tidy, Kept, NamedPlan, Overlay;
    var w, other := s.calls[p].pending, s.calls[q].pending;
    assert CallGrounded(s.committed, s.calls[p]) && CallGrounded(s.committed, s.calls[q]) && CreatedApart(w, other);
    OverlayKeeps(s.committed, w);
    OverlayKeys(s.committed, w);
    TidyApart(s.committed, other);
    StaysTidy(s.committed, View(s, s.calls[p]), other);
  }

  lemma CommitGrounded(env: Env, g0: Graph, s: State, p: nat)
    requires Grounded(g0, s) && Enabled(env, s, p, Commit)
    ensures Grounded(g0, Do(env, s, p, Commit))
  {
    hide Enabled, Do, Tidy, Kept, NamedPlan, Overlay;
    var t := Do(env, s, p, Commit);
    CommitShape(env, s, p);
    OthersUnchanged(env, s, p, Commit);
    StepWrites(env, s, p, Commit);
    OverlayKeeps(s.committed, s.calls[p].pending);
    KeptTransitive(g0, s.committed, t.committed);
    NothingIsTidy(t.committed);
    forall q | 0 <= q < |s.calls| && q != p
      ensures Tidy(t.committed, s.calls[q].pending)
    {
      OthersStayTidy(g0, s, p, q);
    }
  }

  lemma KeptParts(g: Graph, h: Graph)
    requires Kept(g, h)
    ensures NodesKept(g.nodes, h.nodes) && RelsKept(g.rels, h.rels)
  {
  }

  lemma OverlayKeys(g: Graph, w: Pending)
    ensures Overlay(g, w).nodes.Keys == g.nodes.Keys + w.nodes.Keys && Overlay(g, w).rels.Keys == g.rels.Keys + w.rels.Keys
  {
  }

  lemma TidyApart(g: Graph, w: Pending)
    requires Tidy(g, w)
    ensures g.nodes.Keys !! w.nodes.Keys && g.rels.Keys !! w.rels.Keys
  {
  }

  lemma GroundedStep(env: Env, g0: Graph, s: State, p: nat, c: Choice)
    requires Grounded(g0, s) && Enabled(env, s, p, c)
    ensures Grounded(g0, Do(env, s, p, c))
  {
    hide Enabled, Do, Grounded;
    if c.Commit? {
      CommitGrounded(env, g0, s, p);
    } else {
      UncommittedGrounded(env, g0, s, p, c);
    }
  }
}
