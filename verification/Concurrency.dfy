/**
 * Any number of concurrent ApplyPlan calls on one repository, as a transition system:
 * take one mutex, run one query of a transaction, commit or roll back, release one mutex.
 *
 * The queries and writes are those of Upsert, on the graph that the call's transaction
 * sees: committed data with its own writes over it. ConcurrentSequential proves that the
 * steps of one call alone are Upsert.ApplyPlan.
 */
module Concurrency {
  import opened Prelude
  import opened Values
  import opened Domain
  import opened Filters
  import opened Cypher
  import opened Upsert
  import opened Locks

  /* ----- the writes of an open transaction ----- */

  /** Created elements, and properties to be merged into committed ones. */
  datatype Pending = Pending(
    nodes: map<nat, Node>, rels: map<nat, Rel>,
    nodeSets: map<nat, Props>, relSets: map<nat, Props>)

  const NOTHING: Pending := Pending(map[], map[], map[], map[])

  function SeenNode(node: Node, id: nat, sets: map<nat, Props>): Node {
    if id in sets then node.(props := MergeProps(node.props, sets[id])) else node
  }

  function SeenRel(rel: Rel, id: nat, sets: map<nat, Props>): Rel {
    if id in sets then rel.(props := MergeProps(rel.props, sets[id])) else rel
  }

  /** The graph with the writes over it. */
  function Overlay(g: Graph, w: Pending): Graph {
    Graph((map id | id in g.nodes :: SeenNode(g.nodes[id], id, w.nodeSets)) + w.nodes,
          (map id | id in g.rels :: SeenRel(g.rels[id], id, w.relSets)) + w.rels)
  }

  function MoreSets(sets: map<nat, Props>, ids: set<nat>, props: Props): map<nat, Props> {
    map id | id in sets.Keys + ids :: (if id in sets then sets[id] else map[]) + (if id in ids then props else map[])
  }

  /** SET on some nodes: own ones are changed at once, committed ones when the transaction commits. */
  function SetNodes(w: Pending, ids: set<nat>, props: Props): Pending {
    w.(nodes := map id | id in w.nodes ::
         if id in ids then w.nodes[id].(props := MergeProps(w.nodes[id].props, props)) else w.nodes[id],
       nodeSets := MoreSets(w.nodeSets, ids - w.nodes.Keys, props))
  }

  function SetRels(w: Pending, ids: set<nat>, props: Props): Pending {
    w.(rels := map id | id in w.rels ::
         if id in ids then w.rels[id].(props := MergeProps(w.rels[id].props, props)) else w.rels[id],
       relSets := MoreSets(w.relSets, ids - w.rels.Keys, props))
  }

  /* ----- states ----- */

  /** The identity that must be unique among relationships. */
  datatype Link = Link(source: nat, target: nat, kind: string, hash: string)

  /** How far one element has come: counted, and under merge_at_change compared. */
  datatype Stage = ToCount | Counted(n: nat, now: int) | Loaded(update: bool, at: int)

  datatype RelStage =
    | Selecting
    | SourcesRead(sources: seq<MatchedNode>)
    | Pairing(pairs: seq<Pair>, stage: Stage)

  datatype Phase =
    | Acquiring(next: nat)                    // holds the first `next` keys
    | Nodes(index: nat, nodeStage: Stage)
    | Rels(current: nat, relStage: RelStage)
    | Releasing(left: nat)                    // still holds the first `left` keys

  /** `met` are the links that the open transaction may create: the pairs it has selected. */
  datatype Call = Call(plan: MutationPlan, phase: Phase, pending: Pending, met: set<Link>, retries: nat)

  /** The committed graph, the clock readings so far, the owner of every locked mutex, and all calls. */
  datatype State = State(committed: Graph, tick: nat, owner: map<Key, nat>, calls: seq<Call>)

  ghost function Keys(call: Call): seq<Key> {
    LockList(call.plan)
  }

  ghost function HeldCount(call: Call): nat {
    match call.phase
    case Acquiring(next) => next
    case Releasing(left) => left
    case _ => |Keys(call)|
  }

  /** The mutexes a call holds: always a prefix of its own list. */
  ghost function Held(call: Call): set<Key> {
    if HeldCount(call) <= |Keys(call)| then set k | k in Keys(call)[..HeldCount(call)] else {}
  }

  predicate InTransaction(call: Call) {
    call.phase.Nodes? || call.phase.Rels?
  }

  predicate Finished(call: Call) {
    call.phase == Releasing(0)
  }

  predicate AllFinished(s: State) {
    forall p :: 0 <= p < |s.calls| ==> Finished(s.calls[p])
  }

  /** What a query of the call sees. */
  function View(s: State, call: Call): Graph {
    Overlay(s.committed, call.pending)
  }

  /* ----- where the plan goes on ----- */

  function AtNode(plan: MutationPlan, i: nat): Phase {
    if i < |plan.nodes| then Nodes(i, ToCount) else Rels(0, Selecting)
  }

  function AtPairs(j: nat, pairs: seq<Pair>): Phase {
    if pairs == [] then Rels(j + 1, Selecting) else Rels(j, Pairing(pairs, ToCount))
  }

  /** The element that a call is working on. */
  datatype Item = NodeItem(node: GraphNode) | PairItem(rel: GraphRelationship, s: nat, t: nat)

  function ItemOf(env: Env, call: Call): Option<Item> {
    match call.phase
    case Nodes(i, _) => if i < |call.plan.nodes| then Some(NodeItem(call.plan.nodes[i])) else None
    case Rels(j, Pairing(pairs, _)) =>
      if j < |call.plan.relationships| && pairs != [] then
        Some(PairItem(RelationshipForMatch(env, call.plan.relationships[j], pairs[0].0, pairs[0].1), pairs[0].0.id, pairs[0].1.id))
      else None
    case _ => None
  }

  function StageOf(call: Call): Stage {
    match call.phase
    case Nodes(_, stage) => stage
    case Rels(_, Pairing(_, stage)) => stage
    case _ => ToCount
  }

  function WithStage(phase: Phase, stage: Stage): Phase {
    match phase
    case Nodes(i, _) => Nodes(i, stage)
    case Rels(j, Pairing(pairs, _)) => Rels(j, Pairing(pairs, stage))
    case _ => phase
  }

  function AfterItem(call: Call): Phase {
    match call.phase
    case Nodes(i, _) => AtNode(call.plan, i + 1)
    case Rels(j, Pairing(pairs, _)) => AtPairs(j, if pairs == [] then [] else pairs[1..])
    case _ => call.phase
  }

  /* ----- what the code does with one element ----- */

  predicate Accepted(item: Item) {
    match item
    case NodeItem(node) => ValidLabels(node.types)
    case PairItem(rel, _, _) => IsIdentifier(rel.kind)
  }

  function PolicyOf(item: Item): UpdatePolicy {
    match item case NodeItem(node) => node.policy case PairItem(rel, _, _) => rel.policy
  }

  function Matches(env: Env, g: Graph, item: Item): set<nat> {
    match item
    case NodeItem(node) => NodeMatches(g, node)
    case PairItem(rel, s, t) => RelMatches(env, g, rel, s, t)
  }

  datatype Move = CountIt | LoadIt | CreateIt | UpdateIt | SkipIt | RejectIt

  /** The next query for an element, or the error that the code returns instead. */
  function MoveOf(env: Env, g: Graph, item: Item, stage: Stage): Move {
    var policy := PolicyOf(item);
    if !Accepted(item) then RejectIt
    else match stage
    case ToCount => CountIt
    case Counted(n, _) =>
      if n > 1 || policy.Unknown? then RejectIt
      else if n == 0 then CreateIt
      else if policy.Create? then SkipIt
      else if Matches(env, g, item) == {} then RejectIt
      else if policy.Merge? then UpdateIt else LoadIt
    case Loaded(update, _) =>
      if !update then SkipIt else if Matches(env, g, item) == {} then RejectIt else UpdateIt
  }

  /** The answer of the comparison for one of the matching elements. */
  predicate Changed(g: Graph, item: Item, id: nat) {
    match item
    case NodeItem(node) => id in g.nodes && ShouldUpdate(g.nodes[id].props, ManagedNodeProps(node))
    case PairItem(rel, _, _) => id in g.rels && ShouldUpdate(g.rels[id].props, ManagedRelProps(rel))
  }

  function NewNode(node: GraphNode, now: int): Node {
    Node(LabelSet(node.types), MergeProps(map[NAME := Text(node.name)], CreationProps(node, now)))
  }

  function NewRel(env: Env, rel: GraphRelationship, s: nat, t: nat, now: int): Rel {
    Rel(s, t, rel.kind, MergeProps(map[], RelCreationProps(env, rel, now)))
  }

  function StageTime(stage: Stage): int {
    match stage case ToCount => 0 case Counted(_, now) => now case Loaded(_, at) => at
  }

  /** The transaction's writes after the last query for an element. */
  function WritesAfter(env: Env, g: Graph, w: Pending, item: Item, stage: Stage, id: nat): Pending {
    var now := StageTime(stage);
    match (MoveOf(env, g, item, stage), item)
    case (CreateIt, NodeItem(node)) => w.(nodes := w.nodes[id := NewNode(node, now)])
    case (UpdateIt, NodeItem(node)) => SetNodes(w, Matches(env, g, item), UpdateProps(node, now))
    case (CreateIt, PairItem(rel, s, t)) => w.(rels := w.rels[id := NewRel(env, rel, s, t, now)])
    case (UpdateIt, PairItem(rel, s, t)) => SetRels(w, Matches(env, g, item), RelUpdateProps(env, rel, now))
    case _ => w
  }

  predicate Creatable(rel: GraphRelationship) {
    IsIdentifier(rel.kind) && !rel.policy.Unknown?
  }

  function LinkOf(env: Env, rel: GraphRelationship, pair: Pair): Link {
    Link(pair.0.id, pair.1.id, rel.kind, TemplateHashOf(env, rel))
  }

  function LinksOf(env: Env, rel: GraphRelationship, pairs: seq<Pair>): set<Link> {
    if Creatable(rel) then set pair | pair in pairs :: LinkOf(env, rel, pair) else {}
  }

  /* ----- steps ----- */

  datatype Choice =
    | Acquire
    | Begin
    | Count
    | Load(id: nat)       // the row that LIMIT 1 returns
    | Write(id: nat)      // the id of a created element, the action otherwise
    | ReadSources
    | ReadTargets
    | Commit
    | Reject              // the code's own error: the transaction is rolled back
    | Fail                // any error of the database: the same
    | Retry               // a transient error: the callback runs again
    | Release

  /** The database gives every created element an id that is in use nowhere. */
  predicate Fresh(s: State, item: Item, id: nat) {
    match item
    case NodeItem(_) => id !in s.committed.nodes && forall q :: 0 <= q < |s.calls| ==> id !in s.calls[q].pending.nodes
    case PairItem(_, _, _) => id !in s.committed.rels && forall q :: 0 <= q < |s.calls| ==> id !in s.calls[q].pending.rels
  }

  predicate CanRetry(call: Call) {
    InTransaction(call) && call.retries > 0
  }

  ghost predicate Reading(call: Call) {
    call.phase.Rels? && call.phase.current < |call.plan.relationships| && !call.phase.relStage.Pairing?
  }

  /** What the selector query of the current relationship returns. */
  ghost function Selected(env: Env, s: State, call: Call): Result<seq<MatchedNode>, Failure>
    requires Reading(call)
  {
    var rel := call.plan.relationships[call.phase.current];
    FindMatches(env, View(s, call).nodes, if call.phase.relStage.Selecting? then rel.source else rel.target)
  }

  ghost predicate ItemEnabled(env: Env, s: State, call: Call, item: Item, c: Choice) {
    var g := View(s, call);
    var move := MoveOf(env, g, item, StageOf(call));
    match c
    case Count => move == CountIt
    case Load(id) => move == LoadIt && id in Matches(env, g, item)
    case Write(id) => move == UpdateIt || move == SkipIt || (move == CreateIt && Fresh(s, item, id))
    case Reject => move == RejectIt
    case _ => false
  }

  ghost predicate Enabled(env: Env, s: State, p: nat, c: Choice) {
    p < |s.calls| &&
    var call := s.calls[p];
    match c
    case Acquire => call.phase.Acquiring? && call.phase.next < |Keys(call)| && Keys(call)[call.phase.next] !in s.owner
    case Begin => call.phase.Acquiring? && call.phase.next == |Keys(call)|
    case Release => call.phase.Releasing? && 0 < call.phase.left <= |Keys(call)|
    case Commit => call.phase == Rels(|call.plan.relationships|, Selecting)
    case Fail => InTransaction(call)
    case Retry => CanRetry(call)
    case ReadSources => Reading(call) && call.phase.relStage.Selecting? && Selected(env, s, call).Ok?
    case ReadTargets => Reading(call) && call.phase.relStage.SourcesRead? && Selected(env, s, call).Ok?
    case Reject =>
      || (ItemOf(env, call).Some? && ItemEnabled(env, s, call, ItemOf(env, call).value, c))
      || (Reading(call) && Selected(env, s, call).Err?)
    case _ => ItemOf(env, call).Some? && ItemEnabled(env, s, call, ItemOf(env, call).value, c)
  }

  function WithCall(s: State, p: nat, call: Call): State
    requires p < |s.calls|
  {
    s.(calls := s.calls[p := call])
  }

  function RolledBack(call: Call, phase: Phase): Call {
    call.(phase := phase, pending := NOTHING, met := {})
  }

  /** The call after a step inside its transaction, or into it. */
  ghost function Moved(env: Env, s: State, call: Call, c: Choice): Call {
    var g, stage := View(s, call), StageOf(call);
    match c
    case Begin => call.(phase := AtNode(call.plan, 0))
    case Count =>
      if ItemOf(env, call).None? then call
      else call.(phase := WithStage(call.phase, Counted(|Matches(env, g, ItemOf(env, call).value)|, env.clock(s.tick))))
    case Load(id) =>
      if ItemOf(env, call).None? then call
      else call.(phase := WithStage(call.phase, Loaded(Changed(g, ItemOf(env, call).value, id), StageTime(stage))))
    case Write(id) =>
      if ItemOf(env, call).None? then call
      else call.(phase := AfterItem(call), pending := WritesAfter(env, g, call.pending, ItemOf(env, call).value, stage, id))
    case ReadSources =>
      if !Reading(call) || Selected(env, s, call).Err? then call
      else
        var sources := Selected(env, s, call).value;
        call.(phase := Rels(if sources == [] then call.phase.current + 1 else call.phase.current,
                            if sources == [] then Selecting else SourcesRead(sources)))
    case ReadTargets =>
      if !Reading(call) || !call.phase.relStage.SourcesRead? || Selected(env, s, call).Err? then call
      else
        var pairs := Product(call.phase.relStage.sources, Selected(env, s, call).value);
        call.(phase := AtPairs(call.phase.current, pairs),
              met := call.met + LinksOf(env, call.plan.relationships[call.phase.current], pairs))
    case Retry => RolledBack(call, AtNode(call.plan, 0)).(retries := if call.retries > 0 then call.retries - 1 else 0)
    case _ => RolledBack(call, Releasing(|Keys(call)|))
  }

  ghost function Do(env: Env, s: State, p: nat, c: Choice): State
    requires Enabled(env, s, p, c)
  {
    var call := s.calls[p];
    match c
    case Acquire =>
      var i := call.phase.next;
      WithCall(s.(owner := s.owner[Keys(call)[i] := p]), p, call.(phase := Acquiring(i + 1)))
    case Release =>
      var left := call.phase.left - 1;
      WithCall(s.(owner := s.owner - {Keys(call)[left]}), p, call.(phase := Releasing(left)))
    case Commit => WithCall(s.(committed := View(s, call)), p, Moved(env, s, call, c))
    case Count => WithCall(s.(tick := s.tick + 1), p, Moved(env, s, call, c))
    case _ => WithCall(s, p, Moved(env, s, call, c))
  }

  ghost predicate Next(env: Env, s: State, t: State) {
    exists p: nat, c: Choice :: Enabled(env, s, p, c) && t == Do(env, s, p, c)
  }

  predicate Initial(s: State) {
    s.owner == map[] &&
    forall p :: 0 <= p < |s.calls| ==>
      s.calls[p].phase == Acquiring(0) && s.calls[p].pending == NOTHING && s.calls[p].met == {}
  }

  /* ----- runs ----- */

  type Schedule = seq<(nat, Choice)>

  /** The state after a schedule, if each of its steps was enabled in turn. */
  ghost function Exec(env: Env, s: State, schedule: Schedule): Option<State> {
    if schedule == [] then Some(s)
    else
      var (p, c) := schedule[|schedule| - 1];
      match Exec(env, s, schedule[..|schedule| - 1])
      case None => None
      case Some(m) => if Enabled(env, m, p, c) then Some(Do(env, m, p, c)) else None
  }

  /** What a step leaves alone. */
  lemma OthersUnchanged(env: Env, s: State, p: nat, c: Choice)
    requires Enabled(env, s, p, c)
    ensures var t := Do(env, s, p, c);
      && |t.calls| == |s.calls| && p < |s.calls|
      && t.calls == s.calls[p := t.calls[p]]
      && (forall q :: 0 <= q < |s.calls| ==> t.calls[q].plan == s.calls[q].plan)
      && (forall q :: 0 <= q < |s.calls| && q != p ==> t.calls[q] == s.calls[q])
      && (!c.Commit? ==> t.committed == s.committed)
  {
    hide LockList, View, ItemOf, MoveOf, Matches, WritesAfter, Changed, AfterItem, WithStage, ItemEnabled;
  }
}
