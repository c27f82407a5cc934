/**
 * Relationships whose ends are selected by name only: names never change, so two calls
 * that have selected one pair of nodes have equal selectors, whatever else they write.
 */
module ConcurrentNamedEnds {
  import opened Values
  import opened Domain
  import opened Filters
  import opened Cypher
  import opened Upsert
  import opened Invariants
  import opened Locks
  import opened Concurrency
  import opened ConcurrentLocks
  import opened ConcurrentViews
  import opened ConcurrentWrites
  import opened ConcurrentRuns
  import opened ConcurrencyLimits
  import Links = ConcurrentLinks
  import Nodes = ConcurrentNodes
  import Written

  type Idents = map<nat, NodeKey>

  /** The selector has one attribute, a name that is text. */
  predicate NameOnly(selector: NodeSelector) {
    selector.attributes.Keys == {NAME} && selector.attributes[NAME].Text?
  }

  predicate NamedEnds(plan: MutationPlan) {
    forall rel :: rel in plan.relationships ==> NameOnly(rel.source) && NameOnly(rel.target)
  }

  predicate AllNamedEnds(s: State) {
    forall p :: 0 <= p < |s.calls| ==> NamedEnds(s.calls[p].plan)
  }

  /** The node identities that a call sees. */
  function SeenBy(s: State, call: Call): Idents {
    NodeIdents(s.committed.nodes) + NodeIdents(call.pending.nodes)
  }

  /** The node that a selector has found carries the name it asks for. */
  predicate EndFound(idents: Idents, id: nat, selector: NodeSelector) {
    NameOnly(selector) && id in idents && idents[id].name == selector.attributes[NAME].s
  }

  predicate LinkFound(env: Env, idents: Idents, rel: GraphRelationship, l: Link) {
    && l.kind == rel.kind && l.hash == TemplateHashOf(env, rel)
    && EndFound(idents, l.source, rel.source) && EndFound(idents, l.target, rel.target)
  }

  ghost predicate MetFound(env: Env, idents: Idents, call: Call) {
    forall l :: l in call.met ==> exists rel :: rel in call.plan.relationships && LinkFound(env, idents, rel, l)
  }

  predicate RowsFound(idents: Idents, rows: seq<MatchedNode>, selector: NodeSelector) {
    forall m :: m in rows ==> EndFound(idents, m.id, selector)
  }

  predicate SourcesFound(idents: Idents, call: Call) {
    match call.phase
    case Rels(j, SourcesRead(sources)) => j < |call.plan.relationships| ==> RowsFound(idents, sources, call.plan.relationships[j].source)
    case _ => true
  }

  ghost predicate Found(env: Env, idents: Idents, call: Call) {
    MetFound(env, idents, call) && SourcesFound(idents, call)
  }

  ghost predicate AllFound(env: Env, s: State) {
    forall p :: 0 <= p < |s.calls| ==> Found(env, SeenBy(s, s.calls[p]), s.calls[p])
  }

  predicate Within(a: Idents, b: Idents) {
    forall id :: id in a ==> id in b && b[id] == a[id]
  }

  lemma FoundStays(env: Env, a: Idents, b: Idents, call: Call)
    requires Found(env, a, call) && Within(a, b)
    ensures Found(env, b, call)
  {
    hide NameOnly, TemplateHashOf;
    forall l | l in call.met
      ensures exists rel :: rel in call.plan.relationships && LinkFound(env, b, rel, l)
    {
      var rel :| rel in call.plan.relationships && LinkFound(env, a, rel, l);
      assert LinkFound(env, b, rel, l);
    }
  }

  /** Nothing selected yet in this attempt. */
  lemma NothingFound(env: Env, idents: Idents, call: Call)
    requires call.met == {} && !(call.phase.Rels? && call.phase.relStage.SourcesRead?)
    ensures Found(env, idents, call)
  {
  }

  /* ----- selections ----- */

  lemma FilterFindsName(env: Env, nodes: map<nat, Node>, selector: NodeSelector)
    requires NameOnly(selector) && FindMatches(env, nodes, selector).Ok?
    ensures RowsFound(NodeIdents(nodes), FindMatches(env, nodes, selector).value, selector)
  {
    hide FilterHolds, Selects, FindMatches, SelectorRows;
    var rows := FindMatches(env, nodes, selector).value;
    forall m | m in rows
      ensures EndFound(NodeIdents(nodes), m.id, selector)
    {
      Written.MatchMember(env, nodes, selector, m.id);
      FilterWithoutCollisions(nodes[m.id].props, "selector", selector.attributes);
      SelectsByName(nodes[m.id].props, selector);
    }
  }

  lemma SelectsByName(props: Props, selector: NodeSelector)
    requires NameOnly(selector) && Selects(props, selector.attributes)
    ensures HasText(props, NAME, selector.attributes[NAME].s)
  {
    assert NAME in selector.attributes;
  }

  lemma PairsFound(env: Env, idents: Idents, rel: GraphRelationship, sources: seq<MatchedNode>, targets: seq<MatchedNode>)
    requires RowsFound(idents, sources, rel.source) && RowsFound(idents, targets, rel.target)
    ensures forall l :: l in LinksOf(env, rel, Product(sources, targets)) ==> LinkFound(env, idents, rel, l)
  {
    hide Product, TemplateHashOf, EndFound;
    forall l | l in LinksOf(env, rel, Product(sources, targets))
      ensures LinkFound(env, idents, rel, l)
    {
      var pair :| pair in Product(sources, targets) && l == LinkOf(env, rel, pair);
      Written.ProductMember(sources, targets, pair);
    }
  }

  /* ----- steps ----- */

  lemma SeenIsView(s: State, call: Call)
    requires Tidy(s.committed, call.pending)
    ensures NodeIdents(View(s, call).nodes) == SeenBy(s, call)
  {
    OverlayNodeIdents(s.committed, call.pending);
  }

  lemma ReadSourcesFound(env: Env, s: State, p: nat)
    requires Enabled(env, s, p, ReadSources) && Found(env, SeenBy(s, s.calls[p]), s.calls[p])
    requires Tidy(s.committed, s.calls[p].pending) && NamedEnds(s.calls[p].plan)
    ensures var next := Do(env, s, p, ReadSources).calls[p]; Found(env, SeenBy(s, s.calls[p]), next)
  {
    hide LockList, View, FindMatches, SeenBy, MetFound, RowsFound, NameOnly, Tidy;
    var call := s.calls[p];
    var rel := call.plan.relationships[call.phase.current];
    SeenIsView(s, call);
    FilterFindsName(env, View(s, call).nodes, rel.source);
    SameMet(env, SeenBy(s, call), call, Do(env, s, p, ReadSources).calls[p]);
  }

  lemma SameMet(env: Env, idents: Idents, call: Call, next: Call)
    requires MetFound(env, idents, call) && next.met == call.met && next.plan == call.plan
    ensures MetFound(env, idents, next)
  {
    hide LinkFound;
  }

  lemma ReadTargetsFound(env: Env, s: State, p: nat)
    requires Enabled(env, s, p, ReadTargets) && Found(env, SeenBy(s, s.calls[p]), s.calls[p])
    requires Tidy(s.committed, s.calls[p].pending) && NamedEnds(s.calls[p].plan)
    ensures var next := Do(env, s, p, ReadTargets).calls[p]; Found(env, SeenBy(s, s.calls[p]), next)
  {
    hide LockList, View, FindMatches, Product, LinksOf, SeenBy, MetFound, RowsFound, NameOnly, LinkFound, Tidy;
    var call, next := s.calls[p], Do(env, s, p, ReadTargets).calls[p];
    var rel := call.plan.relationships[call.phase.current];
    var pairs := Product(call.phase.relStage.sources, Selected(env, s, call).value);
    SeenIsView(s, call);
    FilterFindsName(env, View(s, call).nodes, rel.target);
    PairsFound(env, SeenBy(s, call), rel, call.phase.relStage.sources, Selected(env, s, call).value);
    MoreMet(env, SeenBy(s, call), call, next, rel, LinksOf(env, rel, pairs));
  }

  lemma MoreMet(env: Env, idents: Idents, call: Call, next: Call, rel: GraphRelationship, links: set<Link>)
    requires MetFound(env, idents, call) && next.plan == call.plan && next.met == call.met + links
    requires rel in call.plan.relationships && forall l :: l in links ==> LinkFound(env, idents, rel, l)
    ensures MetFound(env, idents, next)
  {
    hide LinkFound;
  }

  lemma WriteFound(env: Env, g0: Graph, s: State, p: nat, id: nat)
    requires Grounded(g0, s) && Enabled(env, s, p, Write(id)) && Found(env, SeenBy(s, s.calls[p]), s.calls[p])
    ensures var t := Do(env, s, p, Write(id)); Found(env, SeenBy(t, t.calls[p]), t.calls[p])
  {
    hide Enabled, Do, View, MoveOf, WritesAfter, Tidy, Kept, NamedPlan, NodeIdents, RelIdents, MetFound, ItemOf,
         StageOf, ItemLink, KeyOf;
    OthersUnchanged(env, s, p, Write(id));
    var call, t := s.calls[p], Do(env, s, p, Write(id));
    var item, move := WriteShape(env, s, p, id);
    assert CallGrounded(s.committed, call);
    StepWrites(env, s, p, Write(id));
    ItemsAreNamed(env, call);
    ViewIsOverlay(s, call);
    WritesAreTidy(env, s.committed, call.pending, item, StageOf(call), id);
    Links.IdentKeys(call.pending.rels);
    FreshIsUnseen(s, p, item, move, id);
    SameMet(env, SeenBy(s, call), call, t.calls[p]);
    FoundStays(env, SeenBy(s, call), SeenBy(t, t.calls[p]), t.calls[p]);
  }

  lemma FreshIsUnseen(s: State, p: nat, item: Item, move: Move, id: nat)
    requires p < |s.calls| && (CreatesNode(move, item) ==> Fresh(s, item, id))
    ensures CreatesNode(move, item) ==> id !in SeenBy(s, s.calls[p])
  {
  }

  lemma LocalFound(env: Env, g0: Graph, s: State, p: nat, c: Choice)
    requires Grounded(g0, s) && Enabled(env, s, p, c) && Found(env, SeenBy(s, s.calls[p]), s.calls[p])
    requires !c.Write? && !c.ReadSources? && !c.ReadTargets?
    ensures var t := Do(env, s, p, c); Found(env, SeenBy(t, t.calls[p]), t.calls[p])
  {
    hide Enabled, Do, Tidy, Kept, NamedPlan, NodeIdents, MetFound;
    OthersUnchanged(env, s, p, c);
    var call, t := s.calls[p], Do(env, s, p, c);
    StepWrites(env, s, p, c);
    assert CallGrounded(s.committed, call);
    NotReadingSources(env, s, p, c);
    if t.calls[p].met == {} {
      NothingFound(env, SeenBy(t, t.calls[p]), t.calls[p]);
    } else {
      QueryKeepsMet(env, s, p, c);
      SameMet(env, SeenBy(s, call), call, t.calls[p]);
    }
  }

  lemma NotReadingSources(env: Env, s: State, p: nat, c: Choice)
    requires Enabled(env, s, p, c) && !c.ReadSources?
    ensures var phase := Do(env, s, p, c).calls[p].phase; !(phase.Rels? && phase.relStage.SourcesRead?)
  {
    hide LockList, View, MoveOf, Matches, WritesAfter, Changed, FindMatches, Product, LinksOf;
  }

  lemma QueryKeepsMet(env: Env, s: State, p: nat, c: Choice)
    requires Enabled(env, s, p, c) && !c.ReadTargets?
    ensures var next := Do(env, s, p, c).calls[p]; next.met == s.calls[p].met || next.met == {}
  {
    hide LockList, View, MoveOf, Matches, WritesAfter, Changed, FindMatches, Product, LinksOf;
  }

  /** Another call's commit adds nodes and changes none. */
  lemma OthersSeeMore(env: Env, g0: Graph, s: State, p: nat, c: Choice, q: nat)
    requires Grounded(g0, s) && Enabled(env, s, p, c) && q < |s.calls| && q != p
    ensures var t := Do(env, s, p, c); t.calls[q] == s.calls[q] && Within(SeenBy(s, s.calls[q]), SeenBy(t, s.calls[q]))
  {
    hide Enabled, Do, Tidy, Kept, NamedPlan, NodeIdents, View;
    OthersUnchanged(env, s, p, c);
    if c.Commit? {
      CommitShape(env, s, p);
      assert CallGrounded(s.committed, s.calls[p]) && CallGrounded(s.committed, s.calls[q]);
      SeenIsView(s, s.calls[p]);
      TidyApart(s.committed, s.calls[p].pending);
      Nodes.IdentKeys(s.committed.nodes);
      Nodes.IdentKeys(s.calls[p].pending.nodes);
    }
  }

  lemma FoundStep(env: Env, g0: Graph, s: State, p: nat, c: Choice)
    requires Grounded(g0, s) && AllFound(env, s) && AllNamedEnds(s) && Enabled(env, s, p, c)
    ensures AllFound(env, Do(env, s, p, c))
  {
    hide Enabled, Do, Found, SeenBy, NamedEnds, Tidy, Kept, NamedPlan, Within;
    var t := Do(env, s, p, c);
    OthersUnchanged(env, s, p, c);
    StepWrites(env, s, p, c);
    assert CallGrounded(s.committed, s.calls[p]);
    forall q | 0 <= q < |t.calls| && q != p
      ensures Found(env, SeenBy(t, t.calls[q]), t.calls[q])
    {
      OthersSeeMore(env, g0, s, p, c, q);
      FoundStays(env, SeenBy(s, s.calls[q]), SeenBy(t, s.calls[q]), s.calls[q]);
    }
    match c
    case Write(id) => WriteFound(env, g0, s, p, id);
    case ReadSources =>
      ReadSourcesFound(env, s, p);
      SeenAlike(s, t, p);
    case ReadTargets =>
      ReadTargetsFound(env, s, p);
      SeenAlike(s, t, p);
    case _ => LocalFound(env, g0, s, p, c);
  }

  lemma SeenAlike(s: State, t: State, p: nat)
    requires p < |s.calls| == |t.calls| && t.committed == s.committed && t.calls[p].pending == s.calls[p].pending
    ensures SeenBy(t, t.calls[p]) == SeenBy(s, s.calls[p])
  {
  }

  lemma InitialFound(env: Env, s: State)
    requires Initial(s)
    ensures AllFound(env, s)
  {
  }

  lemma {:induction false} RunFound(env: Env, s: State, schedule: Schedule)
    requires Initial(s) && NamedPlans(s) && AllNamedEnds(s) && Exec(env, s, schedule).Some?
    ensures AllFound(env, Exec(env, s, schedule).value)
  {
    hide Enabled, Do, Initial, AllFound, NamedPlans, Grounded, NamedEnds;
    if schedule == [] {
      InitialFound(env, s);
    } else {
      var init := schedule[..|schedule| - 1];
      var (p, c) := schedule[|schedule| - 1];
      RunFound(env, s, init);
      RunGrounded(env, s, init);
      FoundStep(env, s.committed, Exec(env, s, init).value, p, c);
    }
  }

  /* ----- the theorem ----- */

  /** Relationships of one type and template hash whose selectors carry the same attributes have one lock key. */
  ghost predicate EndsFixKeys(env: Env, a: MutationPlan, b: MutationPlan) {
    forall m, n :: m in a.relationships && n in b.relationships && SameEnds(env, m, n) ==> RelationshipLockKey(m) == RelationshipLockKey(n)
  }

  predicate SameEnds(env: Env, m: GraphRelationship, n: GraphRelationship) {
    && m.kind == n.kind && TemplateHashOf(env, m) == TemplateHashOf(env, n)
    && m.source.attributes == n.source.attributes && m.target.attributes == n.target.attributes
  }

  /** A node that two open calls see is committed, so they see one name. */
  lemma SeenByBoth(g0: Graph, s: State, p: nat, q: nat, id: nat)
    requires Grounded(g0, s) && p < |s.calls| && q < |s.calls| && p != q
    requires id in SeenBy(s, s.calls[p]) && id in SeenBy(s, s.calls[q])
    ensures SeenBy(s, s.calls[p])[id] == SeenBy(s, s.calls[q])[id]
  {
    hide Tidy, Kept, NamedPlan, NodeIdents;
    assert CallGrounded(s.committed, s.calls[p]) && CallGrounded(s.committed, s.calls[q]);
    assert CreatedApart(s.calls[p].pending, s.calls[q].pending);
    TidyApart(s.committed, s.calls[p].pending);
    TidyApart(s.committed, s.calls[q].pending);
    Nodes.IdentKeys(s.committed.nodes);
    Nodes.IdentKeys(s.calls[p].pending.nodes);
    Nodes.IdentKeys(s.calls[q].pending.nodes);
  }

  lemma SameName(a: NodeSelector, b: NodeSelector)
    requires NameOnly(a) && NameOnly(b) && a.attributes[NAME].s == b.attributes[NAME].s
    ensures a.attributes == b.attributes
  {
    assert NAME in a.attributes && NAME in b.attributes;
  }

  lemma CommonLinkSharesKey(env: Env, g0: Graph, s: State, p: nat, q: nat, l: Link)
    requires Grounded(g0, s) && AllFound(env, s) && p < |s.calls| && q < |s.calls| && p != q
    requires l in s.calls[p].met && l in s.calls[q].met && EndsFixKeys(env, s.calls[p].plan, s.calls[q].plan)
    ensures SharesKey(s.calls[p].plan, s.calls[q].plan)
  {
    hide Grounded, SeenBy, NameOnly, TemplateHashOf, LockList, RelationshipLockKey;
    var a, b := s.calls[p], s.calls[q];
    assert Found(env, SeenBy(s, a), a) && Found(env, SeenBy(s, b), b);
    var m :| m in a.plan.relationships && LinkFound(env, SeenBy(s, a), m, l);
    var n :| n in b.plan.relationships && LinkFound(env, SeenBy(s, b), n, l);
    SeenByBoth(g0, s, p, q, l.source);
    SeenByBoth(g0, s, p, q, l.target);
    SameName(m.source, n.source);
    SameName(m.target, n.target);
    assert SameEnds(env, m, n);
    var key := Key(RelationshipStore, RelationshipLockKey(m));
    LockListKeys(a.plan, key);
    LockListKeys(b.plan, key);
  }

  lemma FoundGuards(env: Env, g0: Graph, s: State)
    requires Grounded(g0, s) && AllFound(env, s)
    requires forall p, q :: 0 <= p < q < |s.calls| ==> EndsFixKeys(env, s.calls[p].plan, s.calls[q].plan)
    ensures Links.LinksGuarded(g0, s)
  {
    hide Grounded, AllFound, EndsFixKeys, SharesKey, Links.NoLinkIn;
    forall p, q | 0 <= p < q < |s.calls| && !(Links.LinkMay(g0, s.calls[p]) !! Links.LinkMay(g0, s.calls[q]))
      ensures SharesKey(s.calls[p].plan, s.calls[q].plan)
    {
      var l :| l in Links.LinkMay(g0, s.calls[p]) && l in Links.LinkMay(g0, s.calls[q]);
      CommonLinkSharesKey(env, g0, s, p, q, l);
    }
  }

  /**
   * Any number of concurrent plans, whatever nodes they write, never duplicate a link if
   * ends are selected by name only and the lock key is fixed by type, hash and names.
   */
  lemma NamedEndsSafe(env: Env, s: State)
    requires Initial(s) && NamedPlans(s) && AllNamedEnds(s) && UniqueRels(s.committed)
    requires forall p, q :: 0 <= p < q < |s.calls| ==> EndsFixKeys(env, s.calls[p].plan, s.calls[q].plan)
    ensures LinksSafe(env, s)
  {
    hide Exec, Initial, NamedPlans, AllNamedEnds, UniqueRels, AllFound, Links.LinksGuarded, EndsFixKeys, Grounded;
    forall schedule: Schedule | Exec(env, s, schedule).Some?
      ensures UniqueRels(Exec(env, s, schedule).value.committed)
    {
      forall i | 0 <= i <= |schedule| && Exec(env, s, schedule[..i]).Some?
        ensures Links.LinksGuarded(s.committed, Exec(env, s, schedule[..i]).value)
      {
        RunFound(env, s, schedule[..i]);
        RunGrounded(env, s, schedule[..i]);
        FoundGuards(env, s.committed, Exec(env, s, schedule[..i]).value);
      }
      NoDuplicateRelationships(env, s, schedule);
    }
  }
}
