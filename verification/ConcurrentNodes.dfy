/**
 * No node identity is ever committed twice, if calls that may create one node share a
 * mutex. Nothing is asked of relationships.
 */
module ConcurrentNodes {
  import opened Prelude
  import opened Domain
  import opened Filters
  import opened Cypher
  import opened Upsert
  import opened Invariants
  import opened Locks
  import opened Concurrency
  import opened ConcurrentLocks
  import opened ConcurrentViews
  import opened ConcurrentWrites
  import opened Kernel

  /** The code can create this node: its labels are identifiers and its policy is known. */
  predicate CreatableNode(node: GraphNode) {
    ValidLabels(node.types) && !node.policy.Unknown?
  }

  /** The node identities that a call may create: those that the first graph does not match. */
  ghost function NodeMay(g0: Graph, plan: MutationPlan): set<NodeKey> {
    set n | n in plan.nodes && CreatableNode(n) && NodeMatches(g0, n) == {} :: KeyOf(n)
  }

  /** The hypothesis: calls that may create one node share a mutex. */
  ghost predicate NodesGuarded(g0: Graph, s: State) {
    forall p, q :: 0 <= p < q < |s.calls| && !(NodeMay(g0, s.calls[p].plan) !! NodeMay(g0, s.calls[q].plan))
      ==> SharesKey(s.calls[p].plan, s.calls[q].plan)
  }

  /** The node that a call has counted and found missing. */
  function NodeAbsent(call: Call): Option<NodeKey> {
    match call.phase
    case Nodes(i, Counted(n, _)) =>
      if i < |call.plan.nodes| && n == 0 && !call.plan.nodes[i].policy.Unknown? then Some(KeyOf(call.plan.nodes[i])) else None
    case _ => None
  }

  ghost function NodeClient(g0: Graph, call: Call): Client<NodeKey> {
    Client(InTransaction(call), NodeIdents(call.pending.nodes), NodeMay(g0, call.plan), NodeAbsent(call))
  }

  ghost function NodeLedger(g0: Graph, s: State): (k: Ledger<NodeKey>)
    ensures |k.clients| == |s.calls| && forall q :: 0 <= q < |s.calls| ==> k.clients[q] == NodeClient(g0, s.calls[q])
  {
    Ledger(NodeIdents(s.committed.nodes), seq(|s.calls|, q requires 0 <= q < |s.calls| => NodeClient(g0, s.calls[q])))
  }

  /* ----- the client of the call that moved ----- */

  lemma AbsentAfter(env: Env, s: State, p: nat, c: Choice)
    requires Enabled(env, s, p, c) && !c.Count?
    ensures NodeAbsent(Do(env, s, p, c).calls[p]) == None
  {
    hide LockList, View, MoveOf, Matches, WritesAfter, Changed, FindMatches, Product, LinksOf;
  }

  /** What the first graph matches, every later view matches. */
  lemma MatchesPersist(g0: Graph, g: Graph, node: GraphNode)
    requires NodesKept(g0.nodes, g.nodes)
    ensures NodeMatches(g0, node) <= NodeMatches(g, node)
  {
  }

  lemma UnmatchedIsUnseen(g: Graph, node: GraphNode)
    requires NodeMatches(g, node) == {}
    ensures Unseen(NodeIdents(g.nodes), KeyOf(node))
  {
    hide LabelSet;
    var idents := NodeIdents(g.nodes);
    forall id | id in idents
      ensures idents[id] != KeyOf(node)
    {
      assert id !in NodeMatches(g, node);
    }
  }

  lemma CountedNodeSound(env: Env, g0: Graph, s: State, p: nat)
    requires Grounded(g0, s) && Enabled(env, s, p, Count)
    requires p < |s.calls| && ClientSound(NodeIdents(s.committed.nodes), NodeClient(g0, s.calls[p]))
    ensures ClientSound(NodeIdents(s.committed.nodes), NodeClient(g0, Do(env, s, p, Count).calls[p]))
  {
    hide Enabled, Do, Tidy, Kept, NamedPlan, NodeIdents, Overlay, Unique, KeyOf, LabelSet, ValidLabels, NodeMatches,
         RelMatches, LockList;
    OthersUnchanged(env, s, p, Count);
    var call, next := s.calls[p], Do(env, s, p, Count).calls[p];
    StepWrites(env, s, p, Count);
    var item := CountShape(env, s, p);
    if NodeAbsent(next).Some? {
      var node := item.node;
      assert CallGrounded(s.committed, call);
      OverlayKeeps(s.committed, call.pending);
      KeptTransitive(g0, s.committed, View(s, call));
      KeptParts(g0, View(s, call));
      MatchesPersist(g0, View(s, call), node);
      assert NodeMatches(View(s, call), node) == {};
      UnmatchedIsUnseen(View(s, call), node);
      OverlayNodeIdents(s.committed, call.pending);
      assert node in call.plan.nodes;
    }
  }

  lemma WrittenNodeSound(env: Env, g0: Graph, s: State, p: nat, id: nat)
    requires Grounded(g0, s) && Enabled(env, s, p, Write(id))
    requires p < |s.calls| && ClientSound(NodeIdents(s.committed.nodes), NodeClient(g0, s.calls[p]))
    ensures ClientSound(NodeIdents(s.committed.nodes), NodeClient(g0, Do(env, s, p, Write(id)).calls[p]))
  {
    hide Enabled, Do, Tidy, Kept, NamedPlan, NodeIdents, RelIdents, Unique, Unseen, KeyOf, Overlay, MoveOf,
         WritesAfter, AfterItem,
         ItemOf, NodeAbsent, StageOf;
    OthersUnchanged(env, s, p, Write(id));
    var call, next := s.calls[p], Do(env, s, p, Write(id)).calls[p];
    StepWrites(env, s, p, Write(id));
    AbsentAfter(env, s, p, Write(id));
    var item, move := WriteShape(env, s, p, id);
    ItemsAreNamed(env, call);
    ViewIsOverlay(s, call);
    WritesAreTidy(env, s.committed, call.pending, item, StageOf(call), id);
    if CreatesNode(move, item) {
      CreateMeansAbsent(env, s, call, item);
      IdentKeys(s.committed.nodes);
      IdentKeys(call.pending.nodes);
      AddAbsent(NodeIdents(s.committed.nodes), NodeClient(g0, call), id);
    }
  }

  lemma IdentKeys(nodes: map<nat, Node>)
    ensures NodeIdents(nodes).Keys <= nodes.Keys
  {
  }

  lemma CreateMeansAbsent(env: Env, s: State, call: Call, item: Item)
    requires ItemOf(env, call) == Some(item) && item.NodeItem?
    requires MoveOf(env, View(s, call), item, StageOf(call)) == CreateIt
    ensures NodeAbsent(call) == Some(KeyOf(item.node))
  {
    hide View, Matches, KeyOf;
  }

  lemma MovedClientSound(env: Env, g0: Graph, s: State, p: nat, c: Choice)
    requires Grounded(g0, s) && Enabled(env, s, p, c) && !c.Commit? && Unique(NodeIdents(s.committed.nodes))
    requires p < |s.calls| && ClientSound(NodeIdents(s.committed.nodes), NodeClient(g0, s.calls[p]))
    ensures ClientSound(NodeIdents(s.committed.nodes), NodeClient(g0, Do(env, s, p, c).calls[p]))
  {
    hide Enabled, Do, NodeAbsent, NodeMay, Unique, Unseen, Tidy, NamedPlan, Kept;
    OthersUnchanged(env, s, p, c);
    var call, next := s.calls[p], Do(env, s, p, c).calls[p];
    StepWrites(env, s, p, c);
    assert CallGrounded(s.committed, call);
    if c.Count? {
      CountedNodeSound(env, g0, s, p);
    } else if c.Write? {
      WrittenNodeSound(env, g0, s, p, c.id);
    } else {
      AbsentAfter(env, s, p, c);
      if !InTransaction(call) || next.pending == NOTHING {
        NothingAdded(NodeIdents(s.committed.nodes), NodeClient(g0, next));
      }
    }
  }

  /* ----- steps and runs ----- */

  ghost predicate NodesSound(g0: Graph, s: State) {
    Sound(NodeLedger(g0, s))
  }

  lemma GuardedNodesApart(g0: Graph, s: State)
    requires LocksOwned(s) && NodesGuarded(g0, s)
    ensures Apart(NodeLedger(g0, s))
  {
    hide LocksOwned, SharesKey, NodeMay, NodeIdents, NodeAbsent;
    var k := NodeLedger(g0, s);
    forall p, q | 0 <= p < q < |s.calls| && InTransaction(s.calls[p]) && InTransaction(s.calls[q])
      ensures NodeMay(g0, s.calls[p].plan) !! NodeMay(g0, s.calls[q].plan)
    {
      if SharesKey(s.calls[p].plan, s.calls[q].plan) {
        MutualExclusion(s, p, q);
      }
    }
  }

  lemma NodesStep(env: Env, g0: Graph, s: State, p: nat, c: Choice)
    requires Grounded(g0, s) && LocksOwned(s) && NodesGuarded(g0, s) && NodesSound(g0, s) && Enabled(env, s, p, c)
    ensures NodesSound(g0, Do(env, s, p, c))
  {
    hide Enabled, Do, LocksOwned, NodesGuarded, NodeClient, ClientSound, Unique, Grounded;
    var k, t := NodeLedger(g0, s), Do(env, s, p, c);
    OthersUnchanged(env, s, p, c);
    GroundedStep(env, g0, s, p, c);
    if c.Commit? {
      GuardedNodesApart(g0, s);
      CommitShape(env, s, p);
      CommittingClient(env, g0, s, p);
      CommitStep(k, p, NodeClient(g0, t.calls[p]));
      assert NodeLedger(g0, t) == Ledger(k.committed + k.clients[p].added, k.clients[p := NodeClient(g0, t.calls[p])]);
    } else {
      MovedClientSound(env, g0, s, p, c);
      AddedApart(g0, t, p);
      LocalStep(k, p, NodeClient(g0, t.calls[p]));
      assert NodeLedger(g0, t) == k.(clients := k.clients[p := NodeClient(g0, t.calls[p])]);
    }
  }

  lemma AddedApart(g0: Graph, t: State, p: nat)
    requires Grounded(g0, t) && p < |t.calls|
    ensures forall q :: 0 <= q < |t.calls| && q != p ==>
      NodeClient(g0, t.calls[p]).added.Keys !! NodeClient(g0, t.calls[q]).added.Keys
  {
    hide NodeIdents, NodeMay, NodeAbsent, CallGrounded, Kept;
    IdentKeys(t.calls[p].pending.nodes);
    forall q | 0 <= q < |t.calls| && q != p
      ensures NodeClient(g0, t.calls[p]).added.Keys !! NodeClient(g0, t.calls[q]).added.Keys
    {
      IdentKeys(t.calls[q].pending.nodes);
      assert CreatedApart(t.calls[p].pending, t.calls[q].pending);
    }
  }

  lemma CommittingClient(env: Env, g0: Graph, s: State, p: nat)
    requires Grounded(g0, s) && Enabled(env, s, p, Commit)
    ensures p < |s.calls| && NodeClient(g0, s.calls[p]).active
    ensures var t := Do(env, s, p, Commit);
      && NodeClient(g0, t.calls[p]).added == map[] && NodeClient(g0, t.calls[p]).absent == None
      && NodeIdents(t.committed.nodes) == NodeIdents(s.committed.nodes) + NodeClient(g0, s.calls[p]).added
  {
    hide Enabled, Do, NodeMay, NodeAbsent, Tidy, NamedPlan, Kept, Overlay;
    OthersUnchanged(env, s, p, Commit);
    StepWrites(env, s, p, Commit);
    CommitShape(env, s, p);
    AbsentAfter(env, s, p, Commit);
    assert CallGrounded(s.committed, s.calls[p]);
    OverlayNodeIdents(s.committed, s.calls[p].pending);
  }

  /** The graph's own uniqueness is the kernel's. */
  lemma UniqueNodesMeans(g: Graph)
    ensures UniqueNodes(g) <==> Unique(NodeIdents(g.nodes))
  {
    var idents := NodeIdents(g.nodes);
    forall a, b | a in g.nodes && b in g.nodes
      ensures SameNodeIdentity(g.nodes[a], g.nodes[b]) <==> a in idents && b in idents && idents[a] == idents[b]
    {
    }
    if Unique(idents) {
      forall a, b | a in g.nodes && b in g.nodes && SameNodeIdentity(g.nodes[a], g.nodes[b])
        ensures a == b
      {
      }
    }
  }
}
