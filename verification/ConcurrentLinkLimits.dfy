/**
 * Relationships of plans that write no nodes: what their selectors match is fixed by the
 * graph, so it can be said exactly which concurrent writers are safe.
 */
module ConcurrentLinkLimits {
  import opened Prelude
  import opened Values
  import opened Domain
  import opened Cypher
  import opened Upsert
  import opened Invariants
  import opened Locks
  import opened Concurrency
  import opened ConcurrentLocks
  import opened ConcurrentViews
  import opened ConcurrentWrites
  import opened ConcurrentRuns
  import opened ConcurrentSequential
  import opened ConcurrencyLimits
  import Links = ConcurrentLinks
  import Kernel

  /** The links that the code writes for a relationship. */
  ghost function LinksIn(env: Env, g: Graph, rel: GraphRelationship): set<Link> {
    LinksOf(env, rel, SelectedPairs(env, g.nodes, rel))
  }

  ghost function PlanLinks(env: Env, g: Graph, plan: MutationPlan): set<Link> {
    set rel, l | rel in plan.relationships && l in LinksIn(env, g, rel) :: l
  }

  /* ----- without nodes to write, selections are those of the first graph ----- */

  ghost predicate SelectsAsFirst(env: Env, g: Graph, call: Call) {
    call.phase.Rels? && call.phase.relStage.SourcesRead? && call.phase.current < |call.plan.relationships| ==>
      FindMatches(env, g.nodes, call.plan.relationships[call.phase.current].source) == Ok(call.phase.relStage.sources)
  }

  ghost predicate NodeFree(env: Env, g: Graph, call: Call) {
    && call.plan.nodes == [] && !call.phase.Nodes?
    && call.pending.nodes == map[] && call.pending.nodeSets == map[]
    && SelectsAsFirst(env, g, call)
    && call.met <= PlanLinks(env, g, call.plan)
  }

  ghost predicate AllNodeFree(env: Env, g: Graph, s: State) {
    s.committed.nodes == g.nodes && forall p :: 0 <= p < |s.calls| ==> NodeFree(env, g, s.calls[p])
  }

  lemma ViewNodes(s: State, call: Call)
    requires call.pending.nodes == map[] && call.pending.nodeSets == map[]
    ensures View(s, call).nodes == s.committed.nodes
  {
    assert View(s, call).nodes.Keys == s.committed.nodes.Keys;
  }

  lemma ReadSourcesFree(env: Env, g: Graph, s: State, p: nat)
    requires Enabled(env, s, p, ReadSources) && AllNodeFree(env, g, s)
    ensures NodeFree(env, g, Do(env, s, p, ReadSources).calls[p])
  {
    hide LockList, View, FindMatches, PlanLinks;
    ViewNodes(s, s.calls[p]);
  }

  lemma ReadTargetsFree(env: Env, g: Graph, s: State, p: nat)
    requires Enabled(env, s, p, ReadTargets) && AllNodeFree(env, g, s)
    ensures NodeFree(env, g, Do(env, s, p, ReadTargets).calls[p])
  {
    hide LockList, View, FindMatches, Product, LinksOf;
    var call := s.calls[p];
    ViewNodes(s, call);
    var rel := call.plan.relationships[call.phase.current];
    assert Do(env, s, p, ReadTargets).calls[p].met <= call.met + LinksIn(env, g, rel);
  }

  lemma WriteFree(env: Env, g: Graph, s: State, p: nat, id: nat)
    requires Enabled(env, s, p, Write(id)) && AllNodeFree(env, g, s)
    ensures NodeFree(env, g, Do(env, s, p, Write(id)).calls[p])
  {
    hide Enabled, Do, LockList, View, FindMatches, PlanLinks, MoveOf, Matches, RelationshipForMatch;
    OthersUnchanged(env, s, p, Write(id));
    var item, move := WriteShape(env, s, p, id);
  }

  lemma OtherFree(env: Env, g: Graph, s: State, p: nat, c: Choice)
    requires Enabled(env, s, p, c) && AllNodeFree(env, g, s) && !c.Write? && !c.ReadSources? && !c.ReadTargets?
    ensures NodeFree(env, g, Do(env, s, p, c).calls[p])
  {
    hide LockList, View, FindMatches, PlanLinks, MoveOf, Matches, RelationshipForMatch, Changed;
  }

  lemma NodeFreeStep(env: Env, g: Graph, s: State, p: nat, c: Choice)
    requires Enabled(env, s, p, c) && AllNodeFree(env, g, s)
    ensures AllNodeFree(env, g, Do(env, s, p, c))
  {
    hide Enabled, Do, SelectsAsFirst, PlanLinks, Overlay;
    OthersUnchanged(env, s, p, c);
    match c
    case ReadSources => ReadSourcesFree(env, g, s, p);
    case ReadTargets => ReadTargetsFree(env, g, s, p);
    case Write(id) => WriteFree(env, g, s, p, id);
    case Commit =>
      OtherFree(env, g, s, p, c);
      CommitShape(env, s, p);
      ViewNodes(s, s.calls[p]);
    case _ => OtherFree(env, g, s, p, c);
  }

  lemma InitialNodeFree(env: Env, s: State)
    requires Initial(s) && forall p :: 0 <= p < |s.calls| ==> s.calls[p].plan.nodes == []
    ensures AllNodeFree(env, s.committed, s)
  {
    hide PlanLinks;
  }

  lemma {:induction false} RunNodeFree(env: Env, s: State, schedule: Schedule)
    requires Initial(s) && Exec(env, s, schedule).Some? && forall p :: 0 <= p < |s.calls| ==> s.calls[p].plan.nodes == []
    ensures AllNodeFree(env, s.committed, Exec(env, s, schedule).value)
  {
    hide Enabled, Do, Initial, AllNodeFree;
    if schedule == [] {
      InitialNodeFree(env, s);
    } else {
      var init := schedule[..|schedule| - 1];
      var (p, c) := schedule[|schedule| - 1];
      RunNodeFree(env, s, init);
      NodeFreeStep(env, s.committed, Exec(env, s, init).value, p, c);
    }
  }

  /** Plans that would both create some link share a mutex. */
  ghost predicate PlansGuarded(env: Env, s: State) {
    forall p, q, l :: 0 <= p < q < |s.calls| && Links.NoLinkIn(s.committed, l)
      && l in PlanLinks(env, s.committed, s.calls[p].plan) && l in PlanLinks(env, s.committed, s.calls[q].plan)
      ==> SharesKey(s.calls[p].plan, s.calls[q].plan)
  }

  lemma PlansGuardLinks(env: Env, s: State, t: State)
    requires PlansGuarded(env, s) && AllNodeFree(env, s.committed, t) && SamePlans(s, t)
    ensures Links.LinksGuarded(s.committed, t)
  {
    hide SharesKey, PlanLinks, Links.NoLinkIn, SelectsAsFirst;
    forall p, q | 0 <= p < q < |t.calls| && !(Links.LinkMay(s.committed, t.calls[p]) !! Links.LinkMay(s.committed, t.calls[q]))
      ensures SharesKey(t.calls[p].plan, t.calls[q].plan)
    {
      var l :| l in Links.LinkMay(s.committed, t.calls[p]) && l in Links.LinkMay(s.committed, t.calls[q]);
      assert NodeFree(env, s.committed, t.calls[p]) && NodeFree(env, s.committed, t.calls[q]);
    }
  }

  /** Any number of plans without nodes never duplicate a link, if plans with a common new link share a key. */
  lemma NodeFreeLinksSafe(env: Env, s: State)
    requires Initial(s) && UniqueRels(s.committed) && PlansGuarded(env, s)
    requires forall p :: 0 <= p < |s.calls| ==> s.calls[p].plan.nodes == []
    ensures LinksSafe(env, s)
  {
    hide Exec, Initial, UniqueRels, PlansGuarded, AllNodeFree, Links.LinksGuarded, SamePlans;
    forall schedule: Schedule | Exec(env, s, schedule).Some?
      ensures UniqueRels(Exec(env, s, schedule).value.committed)
    {
      forall i | 0 <= i <= |schedule| && Exec(env, s, schedule[..i]).Some?
        ensures Links.LinksGuarded(s.committed, Exec(env, s, schedule[..i]).value)
      {
        RunNodeFree(env, s, schedule[..i]);
        RunGrounded(env, s, schedule[..i]);
        PlansGuardLinks(env, s, Exec(env, s, schedule[..i]).value);
      }
      NoDuplicateRelationships(env, s, schedule);
    }
  }

  /* ----- two writers ----- */

  /**
   * The code writes some link for both that the graph does not hold yet: type, template
   * hash and a pair of selected nodes agree, and the code rejects neither.
   */
  ghost predicate ShareNewLink(env: Env, g: Graph, a: GraphRelationship, b: GraphRelationship) {
    exists l :: l in LinksIn(env, g, a) && l in LinksIn(env, g, b) && Links.NoLinkIn(g, l)
  }

  /** The unsafe pairs: they share a new link, and the calls do not exclude each other. */
  ghost predicate LinksCollide(env: Env, g: Graph, a: GraphRelationship, b: GraphRelationship) {
    ShareNewLink(env, g, a, b) && RelationshipLockKey(a) != RelationshipLockKey(b)
  }

  lemma OnePlanLinks(env: Env, g: Graph, rel: GraphRelationship)
    ensures PlanLinks(env, g, MutationPlan([], [rel])) == LinksIn(env, g, rel)
  {
    hide LinksIn;
    assert rel in [rel];
  }

  lemma LinkWritersSafe(env: Env, g: Graph, a: GraphRelationship, b: GraphRelationship, retries: nat)
    requires UniqueRels(g) && !LinksCollide(env, g, a, b)
    ensures LinksSafe(env, LinkWriters(g, a, b, retries))
  {
    hide LinksSafe, LinksIn, UniqueRels, Links.NoLinkIn, LockList, SharesKey, PlanLinks, RelationshipLockKey;
    var s := LinkWriters(g, a, b, retries);
    OnePlanLinks(env, g, a);
    OnePlanLinks(env, g, b);
    if RelationshipLockKey(a) == RelationshipLockKey(b) {
      RelLocks(a);
      RelLocks(b);
      WritersShareKey(s.calls[0].plan, s.calls[1].plan, Key(RelationshipStore, RelationshipLockKey(a)));
    }
    NodeFreeLinksSafe(env, s);
  }

  /* ----- the unsafe run ----- */

  lemma UniqueMatches(env: Env, g: Graph, item: Item)
    requires item.PairItem? && Kernel.Unique(RelIdents(g.rels))
    ensures |Matches(env, g, item)| <= 1
  {
    var ids, idents := Matches(env, g, item), RelIdents(g.rels);
    forall x, y | x in ids && y in ids
      ensures x == y
    {
      assert x in idents && y in idents && idents[x] == idents[y];
    }
    if ids != {} {
      var x :| x in ids;
      assert ids == {x};
    }
  }

  lemma AppliedLinks(env: Env, g: Graph, item: Item, now: int, id: nat)
    requires item.PairItem?
    ensures RelIdents(Applied(env, g, item, now, id).rels) ==
      if Matches(env, g, item) == {} then RelIdents(g.rels)[id := ItemLink(env, item)] else RelIdents(g.rels)
  {
    hide RelIdents, NewRel, RelUpdateProps, RelNeedsUpdate, ItemLink, MergeProps;
    var ids := Matches(env, g, item);
    if ids == {} {
      AddedRelIdent(env, g.rels, id, item.rel, item.s, item.t, now);
    } else {
      forall k | k in g.rels && k in ids
        ensures Repeats(g.rels[k].props, RelUpdateProps(env, item.rel, now), FIELD_TEMPLATE_HASH)
      {
        MatchRepeatsHash(env, g, item.rel, item.s, item.t, now, k);
      }
      RelIdentsAfterSet(g.rels, ids, RelUpdateProps(env, item.rel, now));
    }
  }

  lemma MatchRepeatsHash(env: Env, g: Graph, rel: GraphRelationship, s: nat, t: nat, now: int, id: nat)
    requires id in RelMatches(env, g, rel, s, t)
    ensures Repeats(g.rels[id].props, RelUpdateProps(env, rel, now), FIELD_TEMPLATE_HASH)
  {
    FieldsDistinct();
  }

  predicate HasLink(g: Graph, l: Link) {
    !Links.NoLinkIn(g, l)
  }

  /** What the work on some pairs leads to: their links are there, and none was lost. */
  ghost predicate PairsDone(env: Env, s: State, t: State, p: nat, rel: GraphRelationship, pairs: seq<Pair>) {
    && OnlyMoved(s, t, p) && Tidy(t.committed, t.calls[p].pending)
    && (forall l :: l in LinksOf(env, rel, pairs) ==> HasLink(View(t, t.calls[p]), l))
    && (forall l :: HasLink(View(s, s.calls[p]), l) ==> HasLink(View(t, t.calls[p]), l))
  }

  lemma MatchedIsLinked(env: Env, g: Graph, item: Item)
    requires item.PairItem? && Matches(env, g, item) != {}
    ensures HasLink(g, ItemLink(env, item))
  {
    hide TemplateHashOf;
    var id :| id in Matches(env, g, item);
    assert id in RelIdents(g.rels) && RelIdents(g.rels)[id] == ItemLink(env, item);
  }

  lemma AddedUnique(m: map<nat, Link>, id: nat, l: Link)
    requires Kernel.Unique(m) && Kernel.Unseen(m, l)
    ensures Kernel.Unique(m[id := l])
  {
  }

  lemma AddedLink(g: Graph, h: Graph, id: nat, l: Link)
    requires id !in RelIdents(g.rels) && RelIdents(h.rels) == RelIdents(g.rels)[id := l]
    ensures HasLink(h, l) && forall k :: HasLink(g, k) ==> HasLink(h, k)
  {
    hide RelIdents;
    var before, after := RelIdents(g.rels), RelIdents(h.rels);
    assert id in after && after[id] == l;
    forall k | HasLink(g, k)
      ensures HasLink(h, k)
    {
      var i :| i in before && before[i] == k;
      assert i in after && after[i] == k;
    }
  }

  lemma SameLinks(g: Graph, h: Graph)
    requires RelIdents(g.rels) == RelIdents(h.rels)
    ensures forall l :: HasLink(g, l) <==> HasLink(h, l)
  {
    hide RelIdents;
  }

  /** One pair: its link is in the view afterwards, and the view stays without duplicates. */
  lemma PairRuns(env: Env, s: State, p: nat, item: Item) returns (t: State)
    requires p < |s.calls| && ItemOf(env, s.calls[p]) == Some(item) && StageOf(s.calls[p]) == ToCount && item.PairItem?
    requires Tidy(s.committed, s.calls[p].pending) && Kernel.Unique(RelIdents(View(s, s.calls[p]).rels))
    requires Accepted(item) && !PolicyOf(item).Unknown?
    ensures Reaches(env, s, t) && OnlyMoved(s, t, p) && t.calls[p].phase == AfterItem(s.calls[p])
    ensures Tidy(t.committed, t.calls[p].pending) && Kernel.Unique(RelIdents(View(t, t.calls[p]).rels))
    ensures HasLink(View(t, t.calls[p]), ItemLink(env, item))
    ensures forall l :: HasLink(View(s, s.calls[p]), l) ==> HasLink(View(t, t.calls[p]), l)
  {
    hide Alone, Reaches, Tidy, Fresh, Matches, Applied, View, AtNode, RelIdents, ItemOf, AfterItem, StageOf, Accepted,
         PolicyOf, ItemLink,
         Kernel.Unique, Kernel.Unseen, HasLink;
    var g := View(s, s.calls[p]);
    var id := SomeFreshId(s, item);
    UniqueMatches(env, g, item);
    t := ItemRuns(env, s, p, item, id);
    ReachesAlone(env, s, p, t);
    AppliedLinks(env, g, item, env.clock(s.tick), id);
    if Matches(env, g, item) == {} {
      Links.UnmatchedIsUnlinked(env, g, item);
      AddedUnique(RelIdents(g.rels), id, ItemLink(env, item));
      FreshInView(s, p, item, id);
      AddedLink(g, View(t, t.calls[p]), id, ItemLink(env, item));
    } else {
      MatchedIsLinked(env, g, item);
      SameLinks(g, View(t, t.calls[p]));
    }
  }

  lemma FreshInView(s: State, p: nat, item: Item, id: nat)
    requires p < |s.calls| && item.PairItem? && Fresh(s, item, id)
    ensures id !in RelIdents(View(s, s.calls[p]).rels)
  {
    OverlayKeys(s.committed, s.calls[p].pending);
    Links.IdentKeys(View(s, s.calls[p]).rels);
  }

  lemma {:induction false} PairsRun(env: Env, s: State, p: nat, j: nat, pairs: seq<Pair>) returns (t: State)
    requires p < |s.calls| && j < |s.calls[p].plan.relationships| && s.calls[p].phase == AtPairs(j, pairs)
    requires Creatable(s.calls[p].plan.relationships[j])
    requires Tidy(s.committed, s.calls[p].pending) && Kernel.Unique(RelIdents(View(s, s.calls[p]).rels))
    ensures PairsDone(env, s, t, p, s.calls[p].plan.relationships[j], pairs)
    ensures Reaches(env, s, t) && t.calls[p].phase == Rels(j + 1, Selecting)
    decreases |pairs|
  {
    hide Reaches, Alone, Tidy, View, RelIdents, Kernel.Unique, HasLink, RelationshipForMatch, LinkOf, ItemLink;
    var rel := s.calls[p].plan.relationships[j];
    if pairs == [] {
      t := s;
      AloneNothing(env, s, p);
      ReachesAlone(env, s, p, s);
    } else {
      PairItemOf(env, s.calls[p], j, pairs);
      var given := RelationshipForMatch(env, rel, pairs[0].0, pairs[0].1);
      var item := PairItem(given, pairs[0].0.id, pairs[0].1.id);
      Links.ForMatchKeeps(env, rel, pairs[0]);
      ForMatchLink(env, rel, pairs[0]);
      var m := PairRuns(env, s, p, item);
      t := PairsRun(env, m, p, j, pairs[1..]);
      ReachesThen(env, s, m, t);
      OnlyMovedThen(s, m, t, p);
      assert pairs == [pairs[0]] + pairs[1..];
    }
  }

  lemma ForMatchLink(env: Env, rel: GraphRelationship, pair: Pair)
    ensures ItemLink(env, PairItem(RelationshipForMatch(env, rel, pair.0, pair.1), pair.0.id, pair.1.id)) == LinkOf(env, rel, pair)
  {
    hide RelationshipForMatch;
    Links.ForMatchKeeps(env, rel, pair);
  }

  /** A call inside its transaction writes every link of its relationship. */
  lemma WritesLinks(env: Env, g: Graph, s: State, p: nat, rel: GraphRelationship) returns (t: State)
    requires p < |s.calls| && s.calls[p].plan == MutationPlan([], [rel]) && s.calls[p].phase == Rels(0, Selecting)
    requires s.calls[p].pending == NOTHING && s.committed == g && UniqueRels(g) && LinksIn(env, g, rel) != {}
    ensures Reaches(env, s, t) && OnlyMoved(s, t, p) && t.calls[p].phase == Rels(1, Selecting)
    ensures forall l :: l in LinksIn(env, g, rel) ==> HasLink(View(t, t.calls[p]), l)
  {
    hide Reaches, StepTo, Tidy, Overlay, RelIdents, Kernel.Unique, HasLink, UniqueRels, FindMatches, Product;
    NothingOverlays(g);
    NothingIsTidy(g);
    Links.UniqueRelsMeans(g);
    var sources, targets := FindMatches(env, g.nodes, rel.source).value, FindMatches(env, g.nodes, rel.target).value;
    EmptyProduct(sources, targets);
    NoSources(targets);
    var m := ReadStep(env, s, p, ReadSources);
    ReachesStep(env, s, p, ReadSources, m);
    var n := ReadStep(env, m, p, ReadTargets);
    ReachesStep(env, m, p, ReadTargets, n);
    ReachesThen(env, s, m, n);
    t := PairsRun(env, n, p, 0, Product(sources, targets));
    ReachesThen(env, s, n, t);
  }

  lemma NoSources(targets: seq<MatchedNode>)
    ensures Product([], targets) == []
  {
  }

  lemma OwnLink(s: State, p: nat, l: Link) returns (id: nat)
    requires p < |s.calls| && Tidy(s.committed, s.calls[p].pending)
    requires Links.NoLinkIn(s.committed, l) && HasLink(View(s, s.calls[p]), l)
    ensures id in RelIdents(s.calls[p].pending.rels) && RelIdents(s.calls[p].pending.rels)[id] == l
  {
    hide Tidy, Overlay, RelIdents;
    OverlayRelIdents(s.committed, s.calls[p].pending);
    id :| id in RelIdents(View(s, s.calls[p]).rels) && RelIdents(View(s, s.calls[p]).rels)[id] == l;
  }

  lemma TwiceLinked(g: Graph, v: Pending, w: Pending, i: nat, j: nat)
    requires Tidy(g, v) && Tidy(g, w) && CreatedApart(v, w)
    requires i in RelIdents(v.rels) && j in RelIdents(w.rels) && RelIdents(v.rels)[i] == RelIdents(w.rels)[j]
    ensures !UniqueRels(Overlay(Overlay(g, v), w))
  {
    hide Tidy, Overlay, RelIdents, UniqueRels;
    BothCommitted(g, v, w);
    Links.IdentKeys(v.rels);
    Links.IdentKeys(w.rels);
    var all := RelIdents(Overlay(Overlay(g, v), w).rels);
    assert i in all && j in all && all[i] == all[j] && i != j;
    Links.UniqueRelsMeans(Overlay(Overlay(g, v), w));
  }

  lemma LinksUnsafeBy(env: Env, s: State, t: State)
    requires Reaches(env, s, t) && !UniqueRels(t.committed)
    ensures !LinksSafe(env, s)
  {
    hide Exec, UniqueRels;
    var schedule: Schedule :| Runs(env, s, schedule, t);
  }

  lemma LinkWritersUnsafe(env: Env, g: Graph, a: GraphRelationship, b: GraphRelationship, retries: nat)
    requires UniqueRels(g) && LinksCollide(env, g, a, b)
    ensures !LinksSafe(env, LinkWriters(g, a, b, retries))
  {
    hide Reaches, LockList, RelationshipLockKey, UniqueRels, Tidy, Overlay, RelIdents, LinksIn, CreatedApart, HasLink,
         Links.NoLinkIn,
         LinksSafe;
    var s := LinkWriters(g, a, b, retries);
    var ka, kb := Key(RelationshipStore, RelationshipLockKey(a)), Key(RelationshipStore, RelationshipLockKey(b));
    var l :| l in LinksIn(env, g, a) && l in LinksIn(env, g, b) && Links.NoLinkIn(g, l);
    RelLocks(a);
    RelLocks(b);
    BothEnter(env, g, s.calls[0].plan, s.calls[1].plan, ka, kb, retries);
    var s0 := BothInside(g, s.calls[0].plan, s.calls[1].plan, ka, kb, retries);
    var s1 := WritesLinks(env, g, s0, 0, a);
    ReachesThen(env, s, s0, s1);
    var s2 := WritesLinks(env, g, s1, 1, b);
    ReachesThen(env, s, s1, s2);
    ReachedIsGrounded(env, s, s2);
    assert CallGrounded(g, s2.calls[0]) && CallGrounded(g, s2.calls[1]);
    var i := OwnLink(s2, 0, l);
    var j := OwnLink(s2, 1, l);
    assert CreatedApart(s2.calls[0].pending, s2.calls[1].pending);
    var t := BothCommit(env, s2);
    ReachesThen(env, s, s2, t);
    TwiceLinked(g, s2.calls[0].pending, s2.calls[1].pending, i, j);
    LinksUnsafeBy(env, s, t);
  }

  /**
   * Two concurrent one-relationship plans never duplicate a link, in any interleaving,
   * from any graph without duplicate links, if and only if they do not collide.
   */
  lemma TwoRelWritersExactly(env: Env, g: Graph, a: GraphRelationship, b: GraphRelationship, retries: nat)
    requires UniqueRels(g)
    ensures LinksSafe(env, LinkWriters(g, a, b, retries)) <==> !LinksCollide(env, g, a, b)
  {
    hide LinksSafe, LinksCollide, UniqueRels;
    if LinksCollide(env, g, a, b) {
      LinkWritersUnsafe(env, g, a, b, retries);
    } else {
      LinkWritersSafe(env, g, a, b, retries);
    }
  }
}
