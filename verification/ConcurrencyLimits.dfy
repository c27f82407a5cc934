/**
 * Exactly which pairs of concurrent writers are safe: unless the code rejects one of them,
 * or what they write exists already, the lock key must be fixed by the identity written.
 */
module ConcurrencyLimits {
  import opened Prelude
  import opened Strings
  import opened Domain
  import opened Filters
  import opened Cypher
  import opened Upsert
  import opened Invariants
  import opened Locks
  import opened Concurrency
  import opened ConcurrentLocks
  import opened ConcurrentViews
  import opened ConcurrentWrites
  import opened ConcurrentRuns
  import opened ConcurrentSequential
  import Nodes = ConcurrentNodes
  import Links = ConcurrentLinks
  import Kernel

  /** No interleaving ever commits one node identity twice. */
  ghost predicate NodesSafe(env: Env, s: State) {
    forall schedule: Schedule :: Exec(env, s, schedule).Some? ==> UniqueNodes(Exec(env, s, schedule).value.committed)
  }

  /** No interleaving ever commits two relationships of one source, target, type and hash. */
  ghost predicate LinksSafe(env: Env, s: State) {
    forall schedule: Schedule :: Exec(env, s, schedule).Some? ==> UniqueRels(Exec(env, s, schedule).value.committed)
  }

  function NewCall(plan: MutationPlan, retries: nat): Call {
    Call(plan, Acquiring(0), NOTHING, {}, retries)
  }

  function TwoCalls(g: Graph, a: MutationPlan, b: MutationPlan, retries: nat): State {
    State(g, 0, map[], [NewCall(a, retries), NewCall(b, retries)])
  }

  function NodeWriters(g: Graph, a: GraphNode, b: GraphNode, retries: nat): State {
    TwoCalls(g, MutationPlan([a], []), MutationPlan([b], []), retries)
  }

  function LinkWriters(g: Graph, a: GraphRelationship, b: GraphRelationship, retries: nat): State {
    TwoCalls(g, MutationPlan([], [a]), MutationPlan([], [b]), retries)
  }

  /* ----- the keys of one-element plans ----- */

  lemma SingletonKeys(key: string)
    ensures SortedKeys({key}) == [key]
  {
    SortedKeysListing({key});
    var keys := SortedKeys({key});
    assert keys[0] in keys;
  }

  lemma NodeLocks(node: GraphNode)
    ensures LockList(MutationPlan([node], [])) == [Key(NodeStore, NodeLockKey(node))]
  {
    var plan := MutationPlan([node], []);
    SingletonKeys(NodeLockKey(node));
    SortedKeysListing({});
    assert NodeKeySet(plan.nodes) == {NodeLockKey(node)} && RelationshipKeySet(plan.relationships) == {};
  }

  lemma RelLocks(rel: GraphRelationship)
    ensures LockList(MutationPlan([], [rel])) == [Key(RelationshipStore, RelationshipLockKey(rel))]
  {
    var plan := MutationPlan([], [rel]);
    SingletonKeys(RelationshipLockKey(rel));
    SortedKeysListing({});
    assert NodeKeySet(plan.nodes) == {} && RelationshipKeySet(plan.relationships) == {RelationshipLockKey(rel)};
  }

  /* ----- reaching a state ----- */

  ghost predicate Reaches(env: Env, s: State, t: State) {
    exists schedule: Schedule :: Runs(env, s, schedule, t)
  }

  lemma ReachesThen(env: Env, s: State, m: State, t: State)
    requires Reaches(env, s, m) && Reaches(env, m, t)
    ensures Reaches(env, s, t)
  {
    hide Exec;
    var a: Schedule :| Runs(env, s, a, m);
    var b: Schedule :| Runs(env, m, b, t);
    ExecConcat(env, s, a, b);
    assert Runs(env, s, a + b, t);
  }

  lemma ReachesAlone(env: Env, s: State, p: nat, t: State)
    requires Alone(env, s, p, t)
    ensures Reaches(env, s, t)
  {
    hide Runs;
  }

  lemma ReachesStep(env: Env, s: State, p: nat, c: Choice, t: State)
    requires StepTo(env, s, p, c, t) && !c.Fail? && !c.Retry?
    ensures Reaches(env, s, t)
  {
    hide StepTo, Alone;
    AloneStep(env, s, p, c, t);
    ReachesAlone(env, s, p, t);
  }

  lemma ReachedIsGrounded(env: Env, s: State, t: State)
    requires Initial(s) && NamedPlans(s) && Reaches(env, s, t)
    ensures Grounded(s.committed, t)
  {
    hide Exec, Initial, NamedPlans, Grounded;
    var schedule: Schedule :| Runs(env, s, schedule, t);
    RunGrounded(env, s, schedule);
  }

  lemma Acquires(env: Env, s: State, p: nat, key: Key)
    requires p < |s.calls| && s.calls[p].phase == Acquiring(0) && Keys(s.calls[p]) == [key] && key !in s.owner
    ensures StepTo(env, s, p, Acquire, s.(owner := s.owner[key := p], calls := s.calls[p := s.calls[p].(phase := Acquiring(1))]))
  {
    hide LockList;
  }

  lemma Begins(env: Env, s: State, p: nat)
    requires p < |s.calls| && s.calls[p].phase == Acquiring(1) && |Keys(s.calls[p])| == 1
    ensures StepTo(env, s, p, Begin, s.(calls := s.calls[p := s.calls[p].(phase := AtNode(s.calls[p].plan, 0))]))
  {
    hide LockList, AtNode;
  }

  function BothInside(g: Graph, pa: MutationPlan, pb: MutationPlan, a: Key, b: Key, retries: nat): State {
    State(g, 0, map[a := 0, b := 1],
          [Call(pa, AtNode(pa, 0), NOTHING, {}, retries), Call(pb, AtNode(pb, 0), NOTHING, {}, retries)])
  }

  /** With different keys both calls get into their transactions. */
  lemma BothEnter(env: Env, g: Graph, pa: MutationPlan, pb: MutationPlan, a: Key, b: Key, retries: nat)
    requires LockList(pa) == [a] && LockList(pb) == [b] && a != b
    ensures Reaches(env, TwoCalls(g, pa, pb, retries), BothInside(g, pa, pb, a, b, retries))
  {
    hide LockList, StepTo, Reaches, AtNode;
    var s := TwoCalls(g, pa, pb, retries);
    Acquires(env, s, 0, a);
    var s1 := s.(owner := map[a := 0], calls := s.calls[0 := s.calls[0].(phase := Acquiring(1))]);
    assert s.owner[a := 0] == map[a := 0];
    ReachesStep(env, s, 0, Acquire, s1);
    Acquires(env, s1, 1, b);
    var s2 := s1.(owner := map[a := 0, b := 1], calls := s1.calls[1 := s1.calls[1].(phase := Acquiring(1))]);
    assert s1.owner[b := 1] == map[a := 0, b := 1];
    ReachesStep(env, s1, 1, Acquire, s2);
    ReachesThen(env, s, s1, s2);
    Begins(env, s2, 0);
    var s3 := s2.(calls := s2.calls[0 := s2.calls[0].(phase := AtNode(pa, 0))]);
    ReachesStep(env, s2, 0, Begin, s3);
    ReachesThen(env, s, s2, s3);
    Begins(env, s3, 1);
    var s4 := s3.(calls := s3.calls[1 := s3.calls[1].(phase := AtNode(pb, 0))]);
    ReachesStep(env, s3, 1, Begin, s4);
    ReachesThen(env, s, s3, s4);
    assert s4 == BothInside(g, pa, pb, a, b, retries);
  }

  /** Both calls have done their work and commit, one after the other. */
  lemma BothCommit(env: Env, s: State) returns (t: State)
    requires |s.calls| == 2 && s.calls[0].phase == Rels(|s.calls[0].plan.relationships|, Selecting)
    requires s.calls[1].phase == Rels(|s.calls[1].plan.relationships|, Selecting)
    ensures Reaches(env, s, t)
    ensures t.committed == Overlay(Overlay(s.committed, s.calls[0].pending), s.calls[1].pending)
  {
    hide StepTo, Reaches, Overlay;
    var m := CommitsAfter(env, s, 0);
    ReachesStep(env, s, 0, Commit, m);
    t := CommitsAfter(env, m, 1);
    ReachesStep(env, m, 1, Commit, t);
    ReachesThen(env, s, m, t);
  }

  lemma CommitsAfter(env: Env, s: State, p: nat) returns (t: State)
    requires p < |s.calls| && s.calls[p].phase == Rels(|s.calls[p].plan.relationships|, Selecting)
    ensures StepTo(env, s, p, Commit, t) && t.committed == Overlay(s.committed, s.calls[p].pending)
    ensures |t.calls| == |s.calls| && forall q :: 0 <= q < |s.calls| && q != p ==> t.calls[q] == s.calls[q]
  {
    hide LockList, Overlay;
    t := Do(env, s, p, Commit);
  }

  /* ----- nodes ----- */

  /**
   * The unsafe pairs: both nodes can be created, they are one node, the graph does not
   * hold it yet, and the calls do not exclude each other.
   */
  ghost predicate NodesCollide(g: Graph, a: GraphNode, b: GraphNode) {
    && Nodes.CreatableNode(a) && Nodes.CreatableNode(b)
    && LabelSet(a.types) == LabelSet(b.types) && a.name == b.name
    && NodeMatches(g, a) == {}
    && NodeLockKey(a) != NodeLockKey(b)
  }

  lemma WritersShareKey(a: MutationPlan, b: MutationPlan, key: Key)
    requires key in LockList(a) && key in LockList(b)
    ensures SharesKey(a, b)
  {
    hide LockList;
  }

  lemma NodeWritersGuarded(g: Graph, a: GraphNode, b: GraphNode, retries: nat)
    requires !NodesCollide(g, a, b)
    ensures Nodes.NodesGuarded(g, NodeWriters(g, a, b, retries))
  {
    hide LockList, SharesKey, NodeLockKey, LabelSet, ValidLabels, NodeMatches;
    var s := NodeWriters(g, a, b, retries);
    var pa, pb := s.calls[0].plan, s.calls[1].plan;
    if !(Nodes.NodeMay(g, pa) !! Nodes.NodeMay(g, pb)) {
      var e :| e in Nodes.NodeMay(g, pa) && e in Nodes.NodeMay(g, pb);
      assert e == KeyOf(a) && e == KeyOf(b);
      NodeLocks(a);
      NodeLocks(b);
      WritersShareKey(pa, pb, Key(NodeStore, NodeLockKey(a)));
    }
  }

  lemma NodeWritersInitial(g: Graph, a: GraphNode, b: GraphNode, retries: nat)
    requires Named(a) && Named(b)
    ensures Initial(NodeWriters(g, a, b, retries)) && NamedPlans(NodeWriters(g, a, b, retries))
  {
    hide Named;
  }

  lemma NodeWritersSafe(env: Env, g: Graph, a: GraphNode, b: GraphNode, retries: nat)
    requires UniqueNodes(g) && Named(a) && Named(b) && !NodesCollide(g, a, b)
    ensures NodesSafe(env, NodeWriters(g, a, b, retries))
  {
    hide NodesCollide, UniqueNodes, Exec, Initial, NamedPlans, Nodes.NodesGuarded, Named;
    var s := NodeWriters(g, a, b, retries);
    NodeWritersGuarded(g, a, b, retries);
    NodeWritersInitial(g, a, b, retries);
    forall schedule: Schedule | Exec(env, s, schedule).Some?
      ensures UniqueNodes(Exec(env, s, schedule).value.committed)
    {
      NoDuplicateNodes(env, s, schedule);
    }
  }

  /** One of the two calls applies its node, which its view does not hold: the view holds it afterwards. */
  lemma CreatesOne(env: Env, s: State, p: nat, node: GraphNode) returns (t: State)
    requires p < |s.calls| && s.calls[p].plan == MutationPlan([node], []) && s.calls[p].phase == Phase.Nodes(0, ToCount)
    requires Tidy(s.committed, s.calls[p].pending) && Named(node)
    requires Nodes.CreatableNode(node) && NodeMatches(View(s, s.calls[p]), node) == {}
    ensures Reaches(env, s, t) && OnlyMoved(s, t, p) && t.calls[p].phase == Rels(0, Selecting)
    ensures exists id :: id in NodeIdents(View(t, t.calls[p]).nodes) && NodeIdents(View(t, t.calls[p]).nodes)[id] == KeyOf(node)
  {
    hide Alone, Reaches, Tidy, Fresh, Named, ValidLabels, NodeMatches, Applied, View, AtNode, KeyOf, NodeIdents;
    NodeItemAtStart(env, s.calls[p], node);
    var item := NodeItem(node);
    var id := SomeFreshId(s, item);
    t := ItemRuns(env, s, p, item, id);
    ReachesAlone(env, s, p, t);
    AppliedNewNode(env, View(s, s.calls[p]), node, env.clock(s.tick), id);
  }

  lemma NodeItemAtStart(env: Env, call: Call, node: GraphNode)
    requires call.plan == MutationPlan([node], []) && call.phase == Phase.Nodes(0, ToCount)
    ensures ItemOf(env, call) == Some(NodeItem(node)) && StageOf(call) == ToCount && AfterItem(call) == Rels(0, Selecting)
  {
  }

  lemma AppliedNewNode(env: Env, g: Graph, node: GraphNode, now: int, id: nat)
    requires NodeMatches(g, node) == {} && Named(node)
    ensures var idents := NodeIdents(Applied(env, g, NodeItem(node), now, id).nodes);
      id in idents && idents[id] == KeyOf(node)
  {
    hide NewNode, LabelSet;
    NewNodeIdent(node, now);
  }

  lemma OwnIdent(s: State, p: nat, e: NodeKey, id: nat)
    requires p < |s.calls| && Tidy(s.committed, s.calls[p].pending) && Kernel.Unseen(NodeIdents(s.committed.nodes), e)
    requires id in NodeIdents(View(s, s.calls[p]).nodes) && NodeIdents(View(s, s.calls[p]).nodes)[id] == e
    ensures id in NodeIdents(s.calls[p].pending.nodes) && NodeIdents(s.calls[p].pending.nodes)[id] == e
  {
    hide Tidy, Overlay, NodeIdents;
    OverlayNodeIdents(s.committed, s.calls[p].pending);
  }

  /** What two open calls hold is all committed when both commit. */
  lemma BothCommitted(g: Graph, v: Pending, w: Pending)
    requires Tidy(g, v) && Tidy(g, w) && CreatedApart(v, w)
    ensures NodeIdents(Overlay(Overlay(g, v), w).nodes) == NodeIdents(g.nodes) + NodeIdents(v.nodes) + NodeIdents(w.nodes)
    ensures RelIdents(Overlay(Overlay(g, v), w).rels) == RelIdents(g.rels) + RelIdents(v.rels) + RelIdents(w.rels)
  {
    hide Tidy, Overlay, NodeIdents, RelIdents, Kept;
    OverlayNodeIdents(g, v);
    OverlayRelIdents(g, v);
    OverlayKeeps(g, v);
    OverlayKeys(g, v);
    TidyApart(g, w);
    StaysTidy(g, Overlay(g, v), w);
    OverlayNodeIdents(Overlay(g, v), w);
    OverlayRelIdents(Overlay(g, v), w);
  }

  lemma TwiceCommitted(g: Graph, v: Pending, w: Pending, e: NodeKey)
    requires Tidy(g, v) && Tidy(g, w) && CreatedApart(v, w)
    requires exists i :: i in NodeIdents(v.nodes) && NodeIdents(v.nodes)[i] == e
    requires exists j :: j in NodeIdents(w.nodes) && NodeIdents(w.nodes)[j] == e
    ensures !UniqueNodes(Overlay(Overlay(g, v), w))
  {
    hide Tidy, Overlay, NodeIdents, UniqueNodes;
    var i :| i in NodeIdents(v.nodes) && NodeIdents(v.nodes)[i] == e;
    var j :| j in NodeIdents(w.nodes) && NodeIdents(w.nodes)[j] == e;
    BothCommitted(g, v, w);
    Nodes.IdentKeys(v.nodes);
    Nodes.IdentKeys(w.nodes);
    var all := NodeIdents(Overlay(Overlay(g, v), w).nodes);
    assert i in all && j in all && all[i] == all[j] && i != j;
    Nodes.UniqueNodesMeans(Overlay(Overlay(g, v), w));
  }

  lemma NodeWritersUnsafe(env: Env, g: Graph, a: GraphNode, b: GraphNode, retries: nat)
    requires Named(a) && Named(b) && NodesCollide(g, a, b)
    ensures !NodesSafe(env, NodeWriters(g, a, b, retries))
  {
    hide Reaches, LockList, NodeLockKey, Named, UniqueNodes, Tidy, Overlay, NodeIdents, NodeMatches, Initial,
         NamedPlans, Nodes.CreatableNode,
         LabelSet, Kernel.Unseen, CreatedApart;
    var s := NodeWriters(g, a, b, retries);
    var ka, kb := Key(NodeStore, NodeLockKey(a)), Key(NodeStore, NodeLockKey(b));
    NodeLocks(a);
    NodeLocks(b);
    NodeWritersInitial(g, a, b, retries);
    BothEnter(env, g, s.calls[0].plan, s.calls[1].plan, ka, kb, retries);
    var s0 := BothInside(g, s.calls[0].plan, s.calls[1].plan, ka, kb, retries);
    NothingIsTidy(g);
    NothingOverlays(g);
    SameMatches(g, a, b);
    var s1 := CreatesOne(env, s0, 0, a);
    ReachesThen(env, s, s0, s1);
    var s2 := CreatesOne(env, s1, 1, b);
    ReachesThen(env, s, s1, s2);
    ReachedIsGrounded(env, s, s2);
    Nodes.UnmatchedIsUnseen(g, a);
    var i :| i in NodeIdents(View(s2, s2.calls[0]).nodes) && NodeIdents(View(s2, s2.calls[0]).nodes)[i] == KeyOf(a);
    var j :| j in NodeIdents(View(s2, s2.calls[1]).nodes) && NodeIdents(View(s2, s2.calls[1]).nodes)[j] == KeyOf(b);
    assert CallGrounded(g, s2.calls[0]) && CallGrounded(g, s2.calls[1]);
    OwnIdent(s2, 0, KeyOf(a), i);
    OwnIdent(s2, 1, KeyOf(a), j);
    assert CreatedApart(s2.calls[0].pending, s2.calls[1].pending);
    var t := BothCommit(env, s2);
    ReachesThen(env, s, s2, t);
    TwiceCommitted(g, s2.calls[0].pending, s2.calls[1].pending, KeyOf(a));
    NodesUnsafeBy(env, s, t);
  }

  lemma SameMatches(g: Graph, a: GraphNode, b: GraphNode)
    requires LabelSet(a.types) == LabelSet(b.types) && a.name == b.name
    ensures NodeMatches(g, a) == NodeMatches(g, b)
  {
  }

  lemma NodesUnsafeBy(env: Env, s: State, t: State)
    requires Reaches(env, s, t) && !UniqueNodes(t.committed)
    ensures !NodesSafe(env, s)
  {
    hide Exec, UniqueNodes;
    var schedule: Schedule :| Runs(env, s, schedule, t);
  }

  /**
   * Two concurrent one-node plans never duplicate a node, in any interleaving, from any
   * graph without duplicates, if and only if they do not collide.
   */
  lemma TwoNodeWritersExactly(env: Env, g: Graph, a: GraphNode, b: GraphNode, retries: nat)
    requires UniqueNodes(g) && Named(a) && Named(b)
    ensures NodesSafe(env, NodeWriters(g, a, b, retries)) <==> !NodesCollide(g, a, b)
  {
    hide NodesSafe, NodesCollide, UniqueNodes, Named;
    if NodesCollide(g, a, b) {
      NodeWritersUnsafe(env, g, a, b, retries);
    } else {
      NodeWritersSafe(env, g, a, b, retries);
    }
  }
}
