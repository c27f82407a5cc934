/**
 * No link is ever committed twice, if calls that have selected a common pair of nodes for
 * one type and template hash share a mutex. Nothing is asked of nodes.
 */
module ConcurrentLinks {
  import opened Prelude
  import opened Domain
  import opened Filters
  import opened Cypher
  import opened Upsert
  import opened Invariants
  import opened Locks
  import opened Concurrency
  import opened ConcurrentLocks
  import opened ConcurrentViews
  import opened ConcurrentWrites
  import opened Kernel

  predicate NoLinkIn(g: Graph, l: Link) {
    forall id :: id in RelIdents(g.rels) ==> RelIdents(g.rels)[id] != l
  }

  /** The links that a call may create: pairs its selectors have matched, not linked in the first graph. */
  ghost function LinkMay(g0: Graph, call: Call): set<Link> {
    set l | l in call.met && NoLinkIn(g0, l)
  }

  /**
   * The hypothesis, in one state: two open calls that have selected a common pair for one
   * type and template hash share a mutex. The pairs are those the selectors really matched.
   */
  ghost predicate LinksGuarded(g0: Graph, s: State) {
    forall p, q :: 0 <= p < q < |s.calls| && InTransaction(s.calls[p]) && InTransaction(s.calls[q])
      && !(LinkMay(g0, s.calls[p]) !! LinkMay(g0, s.calls[q]))
      ==> SharesKey(s.calls[p].plan, s.calls[q].plan)
  }

  /** The link that a call has counted and found missing. */
  function LinkAbsent(env: Env, call: Call): Option<Link> {
    match call.phase
    case Rels(j, Pairing(pairs, Counted(n, _))) =>
      if j < |call.plan.relationships| && pairs != [] && n == 0 && Creatable(call.plan.relationships[j])
      then Some(LinkOf(env, call.plan.relationships[j], pairs[0])) else None
    case _ => None
  }

  ghost function LinkClient(env: Env, g0: Graph, call: Call): Client<Link> {
    Client(InTransaction(call), RelIdents(call.pending.rels), LinkMay(g0, call), LinkAbsent(env, call))
  }

  ghost function LinkLedger(env: Env, g0: Graph, s: State): (k: Ledger<Link>)
    ensures |k.clients| == |s.calls| && forall q :: 0 <= q < |s.calls| ==> k.clients[q] == LinkClient(env, g0, s.calls[q])
  {
    Ledger(RelIdents(s.committed.rels), seq(|s.calls|, q requires 0 <= q < |s.calls| => LinkClient(env, g0, s.calls[q])))
  }

  /* ----- selected pairs stay selected ----- */

  /** The pairs that are left are among those selected. */
  predicate PairsMet(env: Env, call: Call) {
    match call.phase
    case Rels(j, Pairing(pairs, _)) =>
      j < |call.plan.relationships| ==> LinksOf(env, call.plan.relationships[j], pairs) <= call.met
    case _ => true
  }

  lemma FewerLinks(env: Env, rel: GraphRelationship, pairs: seq<Pair>)
    requires pairs != []
    ensures LinksOf(env, rel, pairs[1..]) <= LinksOf(env, rel, pairs)
    ensures Creatable(rel) ==> LinkOf(env, rel, pairs[0]) in LinksOf(env, rel, pairs)
  {
  }

  lemma PairsMetStep(env: Env, s: State, p: nat, c: Choice)
    requires Enabled(env, s, p, c) && PairsMet(env, s.calls[p])
    ensures PairsMet(env, Do(env, s, p, c).calls[p])
  {
    hide LockList, View, MoveOf, Matches, WritesAfter, Changed, FindMatches, Product, LinksOf;
    var call := s.calls[p];
    if c.Write? && call.phase.Rels? && call.phase.relStage.Pairing? && call.phase.relStage.pairs != [] {
      FewerLinks(env, call.plan.relationships[call.phase.current], call.phase.relStage.pairs);
    }
  }

  /* ----- the client of the call that moved ----- */

  lemma AbsentAfter(env: Env, s: State, p: nat, c: Choice)
    requires Enabled(env, s, p, c) && !c.Count?
    ensures LinkAbsent(env, Do(env, s, p, c).calls[p]) == None
  {
    hide LockList, View, MoveOf, Matches, WritesAfter, Changed, FindMatches, Product, LinksOf;
  }

  lemma MetGrows(env: Env, s: State, p: nat, c: Choice)
    requires Enabled(env, s, p, c) && (c.Count? || c.Load? || c.Write? || c.ReadSources? || c.ReadTargets?)
    ensures s.calls[p].met <= Do(env, s, p, c).calls[p].met
  {
    hide LockList, View, MoveOf, Matches, WritesAfter, Changed, FindMatches, Product, LinksOf;
  }

  lemma LinksPersist(g0: Graph, g: Graph, l: Link)
    requires RelsKept(g0.rels, g.rels) && NoLinkIn(g, l)
    ensures NoLinkIn(g0, l)
  {
    forall id | id in RelIdents(g0.rels)
      ensures RelIdents(g0.rels)[id] != l
    {
      assert id in RelIdents(g.rels) && RelIdents(g.rels)[id] == RelIdents(g0.rels)[id];
    }
  }

  lemma UnmatchedIsUnlinked(env: Env, g: Graph, item: Item)
    requires item.PairItem? && Matches(env, g, item) == {}
    ensures NoLinkIn(g, ItemLink(env, item)) && Unseen(RelIdents(g.rels), ItemLink(env, item))
  {
    hide TemplateHashOf;
    var idents := RelIdents(g.rels);
    forall id | id in idents
      ensures idents[id] != ItemLink(env, item)
    {
      assert id !in Matches(env, g, item);
    }
  }

  /** The pair that a call is working on. */
  lemma PairOfItem(env: Env, call: Call) returns (rel: GraphRelationship, pair: Pair)
    requires ItemOf(env, call).Some? && ItemOf(env, call).value.PairItem?
    ensures call.phase.Rels? && call.phase.relStage.Pairing? && call.phase.relStage.pairs != []
    ensures call.phase.current < |call.plan.relationships| && rel == call.plan.relationships[call.phase.current]
    ensures pair == call.phase.relStage.pairs[0]
    ensures ItemLink(env, ItemOf(env, call).value) == LinkOf(env, rel, pair)
    ensures Accepted(ItemOf(env, call).value) == IsIdentifier(rel.kind) && PolicyOf(ItemOf(env, call).value) == rel.policy
  {
    hide RelationshipForMatch, TemplateHashOf;
    rel, pair := call.plan.relationships[call.phase.current], call.phase.relStage.pairs[0];
    ForMatchKeeps(env, rel, pair);
  }

  lemma ForMatchKeeps(env: Env, rel: GraphRelationship, pair: Pair)
    ensures var given := RelationshipForMatch(env, rel, pair.0, pair.1);
      TemplateHashOf(env, given) == TemplateHashOf(env, rel) && given.kind == rel.kind && given.policy == rel.policy
  {
    FieldsDistinct();
  }

  lemma AbsentLink(env: Env, call: Call, n: nat, now: int) returns (rel: GraphRelationship, pair: Pair)
    requires ItemOf(env, call).Some? && LinkAbsent(env, call.(phase := WithStage(call.phase, Counted(n, now)))).Some?
    requires PairsMet(env, call)
    ensures ItemOf(env, call).value.PairItem? && n == 0
    ensures LinkAbsent(env, call.(phase := WithStage(call.phase, Counted(n, now)))) == Some(ItemLink(env, ItemOf(env, call).value))
    ensures ItemLink(env, ItemOf(env, call).value) in call.met
  {
    hide RelationshipForMatch, TemplateHashOf, LinksOf, LinkOf, ItemLink;
    rel, pair := PairOfItem(env, call);
    FewerLinks(env, rel, call.phase.relStage.pairs);
  }

  lemma CountedLinkSound(env: Env, g0: Graph, s: State, p: nat)
    requires Grounded(g0, s) && Enabled(env, s, p, Count)
    requires p < |s.calls| && ClientSound(RelIdents(s.committed.rels), LinkClient(env, g0, s.calls[p]))
    requires PairsMet(env, s.calls[p])
    ensures ClientSound(RelIdents(s.committed.rels), LinkClient(env, g0, Do(env, s, p, Count).calls[p]))
  {
    hide Enabled, Do, Tidy, Kept, NamedPlan, RelIdents, Overlay, Unique, ItemLink, NoLinkIn, NodeMatches, RelMatches,
         LockList, LinkAbsent,
         WithStage, PairsMet, ItemOf, Unseen, Accepted, Matches;
    OthersUnchanged(env, s, p, Count);
    var call, next := s.calls[p], Do(env, s, p, Count).calls[p];
    StepWrites(env, s, p, Count);
    var item := CountShape(env, s, p);
    if LinkAbsent(env, next).Some? {
      var rel, pair := AbsentLink(env, call, |Matches(env, View(s, call), item)|, env.clock(s.tick));
      assert CallGrounded(s.committed, call);
      OverlayKeeps(s.committed, call.pending);
      KeptTransitive(g0, s.committed, View(s, call));
      KeptParts(g0, View(s, call));
      assert Matches(env, View(s, call), item) == {};
      UnmatchedIsUnlinked(env, View(s, call), item);
      LinksPersist(g0, View(s, call), ItemLink(env, item));
      OverlayRelIdents(s.committed, call.pending);
    }
  }

  lemma WrittenLinkSound(env: Env, g0: Graph, s: State, p: nat, id: nat)
    requires Grounded(g0, s) && Enabled(env, s, p, Write(id))
    requires p < |s.calls| && ClientSound(RelIdents(s.committed.rels), LinkClient(env, g0, s.calls[p]))
    ensures ClientSound(RelIdents(s.committed.rels), LinkClient(env, g0, Do(env, s, p, Write(id)).calls[p]))
  {
    hide Enabled, Do, Tidy, Kept, NamedPlan, NodeIdents, RelIdents, Unique, Unseen, KeyOf, ItemLink, Overlay, MoveOf,
         WritesAfter, AfterItem,
         ItemOf, LinkAbsent, StageOf, NoLinkIn;
    OthersUnchanged(env, s, p, Write(id));
    var call, next := s.calls[p], Do(env, s, p, Write(id)).calls[p];
    StepWrites(env, s, p, Write(id));
    AbsentAfter(env, s, p, Write(id));
    var item, move := WriteShape(env, s, p, id);
    ItemsAreNamed(env, call);
    ViewIsOverlay(s, call);
    WritesAreTidy(env, s.committed, call.pending, item, StageOf(call), id);
    if CreatesRel(move, item) {
      CreateMeansAbsent(env, s, call, item);
      IdentKeys(s.committed.rels);
      IdentKeys(call.pending.rels);
      AddAbsent(RelIdents(s.committed.rels), LinkClient(env, g0, call), id);
    }
  }

  lemma IdentKeys(rels: map<nat, Rel>)
    ensures RelIdents(rels).Keys <= rels.Keys
  {
  }

  lemma CreateMeansAbsent(env: Env, s: State, call: Call, item: Item)
    requires ItemOf(env, call) == Some(item) && item.PairItem?
    requires MoveOf(env, View(s, call), item, StageOf(call)) == CreateIt
    ensures LinkAbsent(env, call) == Some(ItemLink(env, item))
  {
    hide View, Matches, RelationshipForMatch, TemplateHashOf, ItemLink, LinkOf;
    var rel, pair := PairOfItem(env, call);
  }

  lemma MovedClientSound(env: Env, g0: Graph, s: State, p: nat, c: Choice)
    requires Grounded(g0, s) && Enabled(env, s, p, c) && !c.Commit? && Unique(RelIdents(s.committed.rels))
    requires p < |s.calls| && ClientSound(RelIdents(s.committed.rels), LinkClient(env, g0, s.calls[p]))
    requires PairsMet(env, s.calls[p])
    ensures ClientSound(RelIdents(s.committed.rels), LinkClient(env, g0, Do(env, s, p, c).calls[p]))
  {
    hide Enabled, Do, LinkAbsent, Unique, Unseen, Tidy, NamedPlan, Kept, PairsMet, NoLinkIn;
    OthersUnchanged(env, s, p, c);
    var call, next := s.calls[p], Do(env, s, p, c).calls[p];
    StepWrites(env, s, p, c);
    assert CallGrounded(s.committed, call);
    if c.Count? {
      CountedLinkSound(env, g0, s, p);
    } else if c.Write? {
      WrittenLinkSound(env, g0, s, p, c.id);
    } else {
      AbsentAfter(env, s, p, c);
      if !InTransaction(call) || next.pending == NOTHING {
        NothingAdded(RelIdents(s.committed.rels), LinkClient(env, g0, next));
      } else {
        MetGrows(env, s, p, c);
      }
    }
  }

  /* ----- steps ----- */

  ghost predicate LinksSound(env: Env, g0: Graph, s: State) {
    Sound(LinkLedger(env, g0, s)) && forall p :: 0 <= p < |s.calls| ==> PairsMet(env, s.calls[p])
  }

  lemma GuardedLinksApart(env: Env, g0: Graph, s: State)
    requires LocksOwned(s) && LinksGuarded(g0, s)
    ensures Apart(LinkLedger(env, g0, s))
  {
    hide LocksOwned, SharesKey, LinkMay, RelIdents, LinkAbsent;
    forall p, q | 0 <= p < q < |s.calls| && InTransaction(s.calls[p]) && InTransaction(s.calls[q])
      ensures LinkMay(g0, s.calls[p]) !! LinkMay(g0, s.calls[q])
    {
      if SharesKey(s.calls[p].plan, s.calls[q].plan) {
        MutualExclusion(s, p, q);
      }
    }
  }

  lemma LinksStep(env: Env, g0: Graph, s: State, p: nat, c: Choice)
    requires Grounded(g0, s) && LocksOwned(s) && LinksGuarded(g0, s) && LinksSound(env, g0, s) && Enabled(env, s, p, c)
    ensures LinksSound(env, g0, Do(env, s, p, c))
  {
    hide Enabled, Do, LocksOwned, LinksGuarded, LinkClient, ClientSound, Unique, Grounded, PairsMet;
    var k, t := LinkLedger(env, g0, s), Do(env, s, p, c);
    OthersUnchanged(env, s, p, c);
    GroundedStep(env, g0, s, p, c);
    PairsMetStep(env, s, p, c);
    if c.Commit? {
      GuardedLinksApart(env, g0, s);
      CommitShape(env, s, p);
      CommittingClient(env, g0, s, p);
      CommitStep(k, p, LinkClient(env, g0, t.calls[p]));
      assert LinkLedger(env, g0, t) == Ledger(k.committed + k.clients[p].added, k.clients[p := LinkClient(env, g0, t.calls[p])]);
    } else {
      MovedClientSound(env, g0, s, p, c);
      AddedApart(env, g0, t, p);
      LocalStep(k, p, LinkClient(env, g0, t.calls[p]));
      assert LinkLedger(env, g0, t) == k.(clients := k.clients[p := LinkClient(env, g0, t.calls[p])]);
    }
  }

  lemma AddedApart(env: Env, g0: Graph, t: State, p: nat)
    requires Grounded(g0, t) && p < |t.calls|
    ensures forall q :: 0 <= q < |t.calls| && q != p ==>
      LinkClient(env, g0, t.calls[p]).added.Keys !! LinkClient(env, g0, t.calls[q]).added.Keys
  {
    hide RelIdents, LinkMay, LinkAbsent, CallGrounded, Kept;
    IdentKeys(t.calls[p].pending.rels);
    forall q | 0 <= q < |t.calls| && q != p
      ensures LinkClient(env, g0, t.calls[p]).added.Keys !! LinkClient(env, g0, t.calls[q]).added.Keys
    {
      IdentKeys(t.calls[q].pending.rels);
      assert CreatedApart(t.calls[p].pending, t.calls[q].pending);
    }
  }

  lemma CommittingClient(env: Env, g0: Graph, s: State, p: nat)
    requires Grounded(g0, s) && Enabled(env, s, p, Commit)
    ensures p < |s.calls| && LinkClient(env, g0, s.calls[p]).active
    ensures var t := Do(env, s, p, Commit);
      && LinkClient(env, g0, t.calls[p]).added == map[] && LinkClient(env, g0, t.calls[p]).absent == None
      && RelIdents(t.committed.rels) == RelIdents(s.committed.rels) + LinkClient(env, g0, s.calls[p]).added
  {
    hide Enabled, Do, LinkMay, LinkAbsent, Tidy, NamedPlan, Kept, Overlay;
    OthersUnchanged(env, s, p, Commit);
    StepWrites(env, s, p, Commit);
    CommitShape(env, s, p);
    AbsentAfter(env, s, p, Commit);
    assert CallGrounded(s.committed, s.calls[p]);
    OverlayRelIdents(s.committed, s.calls[p].pending);
  }

  /** The graph's own uniqueness is the kernel's. */
  lemma UniqueRelsMeans(g: Graph)
    ensures UniqueRels(g) <==> Unique(RelIdents(g.rels))
  {
    var idents := RelIdents(g.rels);
    forall a, b | a in g.rels && b in g.rels
      ensures SameRelIdentity(g.rels[a], g.rels[b]) <==> a in idents && b in idents && idents[a] == idents[b]
    {
    }
  }
}
