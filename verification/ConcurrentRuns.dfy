/** Whole concurrent runs: no duplicates, no deadlock, no endless run. */
module ConcurrentRuns {
  import opened Domain
  import opened Cypher
  import opened Upsert
  import opened Invariants
  import opened Locks
  import opened Concurrency
  import opened ConcurrentLocks
  import opened ConcurrentViews
  import opened ConcurrentWrites
  import Nodes = ConcurrentNodes
  import Links = ConcurrentLinks
  import Kernel

  predicate NamedPlans(s: State) {
    forall p :: 0 <= p < |s.calls| ==> NamedPlan(s.calls[p].plan)
  }

  lemma InitialLocks(s: State)
    requires Initial(s)
    ensures LocksOwned(s)
  {
    hide LockList;
    assert forall p :: 0 <= p < |s.calls| ==> Held(s.calls[p]) == {};
  }

  lemma InitialGrounded(s: State)
    requires Initial(s) && NamedPlans(s)
    ensures Grounded(s.committed, s)
  {
    hide NamedPlan;
  }

  /** What every reachable state has, with no hypothesis on locks or identities. */
  lemma {:induction false} RunGrounded(env: Env, s: State, schedule: Schedule)
    requires Initial(s) && NamedPlans(s) && Exec(env, s, schedule).Some?
    ensures var t := Exec(env, s, schedule).value;
      LocksOwned(t) && Grounded(s.committed, t) && SamePlans(s, t)
  {
    hide Enabled, Do, Initial, LocksOwned, Grounded, NamedPlans;
    if schedule == [] {
      InitialLocks(s);
      InitialGrounded(s);
    } else {
      var init := schedule[..|schedule| - 1];
      var (p, c) := schedule[|schedule| - 1];
      RunGrounded(env, s, init);
      var m := Exec(env, s, init).value;
      OwnedStep(env, m, p, c);
      GroundedStep(env, s.committed, m, p, c);
      OthersUnchanged(env, m, p, c);
    }
  }

  predicate SamePlans(s: State, t: State) {
    |t.calls| == |s.calls| && forall p :: 0 <= p < |s.calls| ==> t.calls[p].plan == s.calls[p].plan
  }

  /* ----- nodes ----- */

  lemma InitialNodesSound(s: State)
    requires Initial(s) && UniqueNodes(s.committed)
    ensures Nodes.NodesSound(s.committed, s)
  {
    hide Kernel.ClientSound, Nodes.NodeMay, UniqueNodes, Kernel.Unique;
    Nodes.UniqueNodesMeans(s.committed);
    var k := Nodes.NodeLedger(s.committed, s);
    forall p | 0 <= p < |s.calls|
      ensures Kernel.ClientSound(k.committed, k.clients[p]) && k.clients[p].added == map[]
    {
      assert NodeIdents(map[]) == map[];
      Kernel.NothingAdded(k.committed, k.clients[p]);
    }
  }

  lemma SameNodesGuarded(g0: Graph, s: State, t: State)
    requires Nodes.NodesGuarded(g0, s) && SamePlans(s, t)
    ensures Nodes.NodesGuarded(g0, t)
  {
    hide Nodes.NodeMay, SharesKey;
  }

  lemma {:induction false} RunNodesSound(env: Env, s: State, schedule: Schedule)
    requires Initial(s) && NamedPlans(s) && Exec(env, s, schedule).Some?
    requires UniqueNodes(s.committed) && Nodes.NodesGuarded(s.committed, s)
    ensures Nodes.NodesSound(s.committed, Exec(env, s, schedule).value)
  {
    hide Enabled, Do, Initial, LocksOwned, Grounded, NamedPlans, UniqueNodes, Nodes.NodesGuarded, Nodes.NodesSound, SamePlans;
    if schedule == [] {
      InitialNodesSound(s);
    } else {
      var init := schedule[..|schedule| - 1];
      var (p, c) := schedule[|schedule| - 1];
      RunNodesSound(env, s, init);
      RunGrounded(env, s, init);
      var m := Exec(env, s, init).value;
      SameNodesGuarded(s.committed, s, m);
      Nodes.NodesStep(env, s.committed, m, p, c);
    }
  }

  /**
   * In every interleaving of any number of calls, no node identity is ever committed
   * twice, if calls that may create one node share a lock key.
   */
  lemma NoDuplicateNodes(env: Env, s: State, schedule: Schedule)
    requires Initial(s) && NamedPlans(s) && Exec(env, s, schedule).Some?
    requires UniqueNodes(s.committed) && Nodes.NodesGuarded(s.committed, s)
    ensures UniqueNodes(Exec(env, s, schedule).value.committed)
  {
    hide Exec, Initial, NamedPlans, UniqueNodes, Nodes.NodesGuarded, Kernel.ClientSound, Kernel.Unique;
    RunNodesSound(env, s, schedule);
    Nodes.UniqueNodesMeans(Exec(env, s, schedule).value.committed);
  }

  /** Equal identities with equal lock keys, for nodes that the code can create. */
  ghost predicate NodeIdentityFixesKey(s: State) {
    forall p, q :: 0 <= p < q < |s.calls| ==> NodesFixKeys(s.calls[p].plan, s.calls[q].plan)
  }

  ghost predicate NodesFixKeys(a: MutationPlan, b: MutationPlan) {
    forall m, n :: m in a.nodes && n in b.nodes && Nodes.CreatableNode(m) && Nodes.CreatableNode(n) && KeyOf(m) == KeyOf(n)
      ==> NodeLockKey(m) == NodeLockKey(n)
  }

  lemma FixedKeysShare(g0: Graph, a: MutationPlan, b: MutationPlan)
    requires NodesFixKeys(a, b) && !(Nodes.NodeMay(g0, a) !! Nodes.NodeMay(g0, b))
    ensures SharesKey(a, b)
  {
    hide LockList, NodeLockKey, KeyOf, Nodes.CreatableNode;
    var e :| e in Nodes.NodeMay(g0, a) && e in Nodes.NodeMay(g0, b);
    var m :| m in a.nodes && Nodes.CreatableNode(m) && KeyOf(m) == e;
    var n :| n in b.nodes && Nodes.CreatableNode(n) && KeyOf(n) == e;
    var key := Key(NodeStore, NodeLockKey(m));
    LockListKeys(a, key);
    LockListKeys(b, key);
  }

  lemma FixedKeysGuard(g0: Graph, s: State)
    requires NodeIdentityFixesKey(s)
    ensures Nodes.NodesGuarded(g0, s)
  {
    hide NodesFixKeys, Nodes.NodeMay, SharesKey;
    forall p, q | 0 <= p < q < |s.calls| && !(Nodes.NodeMay(g0, s.calls[p].plan) !! Nodes.NodeMay(g0, s.calls[q].plan))
      ensures SharesKey(s.calls[p].plan, s.calls[q].plan)
    {
      FixedKeysShare(g0, s.calls[p].plan, s.calls[q].plan);
    }
  }

  /* ----- relationships ----- */

  lemma InitialLinksSound(env: Env, s: State)
    requires Initial(s) && UniqueRels(s.committed)
    ensures Links.LinksSound(env, s.committed, s)
  {
    hide Kernel.ClientSound, Links.LinkMay, UniqueRels, Kernel.Unique;
    Links.UniqueRelsMeans(s.committed);
    var k := Links.LinkLedger(env, s.committed, s);
    forall p | 0 <= p < |s.calls|
      ensures Kernel.ClientSound(k.committed, k.clients[p]) && k.clients[p].added == map[]
    {
      assert RelIdents(map[]) == map[];
      Kernel.NothingAdded(k.committed, k.clients[p]);
    }
  }

  /** The hypothesis on relationships holds in every state of the run. */
  ghost predicate LinksGuardedAlong(env: Env, s: State, schedule: Schedule) {
    forall i :: 0 <= i <= |schedule| && Exec(env, s, schedule[..i]).Some?
      ==> Links.LinksGuarded(s.committed, Exec(env, s, schedule[..i]).value)
  }

  lemma GuardedPrefix(env: Env, s: State, schedule: Schedule)
    requires schedule != [] && LinksGuardedAlong(env, s, schedule)
    ensures LinksGuardedAlong(env, s, schedule[..|schedule| - 1])
    ensures Exec(env, s, schedule[..|schedule| - 1]).Some? ==>
      Links.LinksGuarded(s.committed, Exec(env, s, schedule[..|schedule| - 1]).value)
  {
    hide Exec, Links.LinksGuarded;
    var init := schedule[..|schedule| - 1];
    assert forall i :: 0 <= i <= |init| ==> init[..i] == schedule[..i];
  }

  lemma {:induction false} RunLinksSound(env: Env, s: State, schedule: Schedule)
    requires Initial(s) && NamedPlans(s) && Exec(env, s, schedule).Some?
    requires UniqueRels(s.committed) && LinksGuardedAlong(env, s, schedule)
    ensures Links.LinksSound(env, s.committed, Exec(env, s, schedule).value)
  {
    hide Enabled, Do, Initial, LocksOwned, Grounded, NamedPlans, UniqueRels, LinksGuardedAlong, Links.LinksGuarded,
         Links.LinksSound, SamePlans;
    if schedule == [] {
      InitialLinksSound(env, s);
    } else {
      var init := schedule[..|schedule| - 1];
      var (p, c) := schedule[|schedule| - 1];
      GuardedPrefix(env, s, schedule);
      RunLinksSound(env, s, init);
      RunGrounded(env, s, init);
      Links.LinksStep(env, s.committed, Exec(env, s, init).value, p, c);
    }
  }

  /**
   * In every interleaving of any number of calls, no two relationships of one source,
   * target, type and template hash are ever committed, if open calls that have selected
   * a common pair for one type and hash share a lock key.
   */
  lemma NoDuplicateRelationships(env: Env, s: State, schedule: Schedule)
    requires Initial(s) && NamedPlans(s) && Exec(env, s, schedule).Some?
    requires UniqueRels(s.committed) && LinksGuardedAlong(env, s, schedule)
    ensures UniqueRels(Exec(env, s, schedule).value.committed)
  {
    hide Exec, Initial, NamedPlans, UniqueRels, LinksGuardedAlong, Kernel.ClientSound, Kernel.Unique, Links.PairsMet;
    RunLinksSound(env, s, schedule);
    Links.UniqueRelsMeans(Exec(env, s, schedule).value.committed);
  }

  /* ----- deadlock freedom ----- */

  predicate PhaseBounded(call: Call) {
    match call.phase
    case Nodes(i, _) => i < |call.plan.nodes|
    case Rels(j, stage) =>
      && j <= |call.plan.relationships| && (stage.Selecting? || j < |call.plan.relationships|)
      && (stage.Pairing? ==> stage.pairs != [])
    case _ => true
  }

  predicate PhasesBounded(s: State) {
    forall p :: 0 <= p < |s.calls| ==> PhaseBounded(s.calls[p])
  }

  lemma MovedBounded(env: Env, s: State, p: nat, c: Choice)
    requires p < |s.calls| && PhaseBounded(s.calls[p]) && Enabled(env, s, p, c)
    ensures p < |Do(env, s, p, c).calls| && PhaseBounded(Do(env, s, p, c).calls[p])
  {
    hide LockList, View, MoveOf, Matches, WritesAfter, Changed, FindMatches, Product, LinksOf;
  }

  lemma BoundedStep(env: Env, s: State, p: nat, c: Choice)
    requires PhasesBounded(s) && Enabled(env, s, p, c)
    ensures PhasesBounded(Do(env, s, p, c))
  {
    hide Enabled, Do, PhaseBounded;
    OthersUnchanged(env, s, p, c);
    MovedBounded(env, s, p, c);
  }

  /** A call about to take a mutex. */
  ghost predicate Waiting(call: Call) {
    call.phase.Acquiring? && call.phase.next < |Keys(call)|
  }

  ghost function NextKey(call: Call): Key
    requires Waiting(call)
  {
    Keys(call)[call.phase.next]
  }

  predicate Productive(c: Choice) {
    !c.Fail? && !c.Retry?
  }

  /** Ids in use anywhere. */
  function Used(s: State, n: nat): (ids: set<nat>)
    requires n <= |s.calls|
    ensures s.committed.nodes.Keys + s.committed.rels.Keys <= ids
    ensures forall p :: 0 <= p < n ==> s.calls[p].pending.nodes.Keys + s.calls[p].pending.rels.Keys <= ids
  {
    if n == 0 then s.committed.nodes.Keys + s.committed.rels.Keys
    else Used(s, n - 1) + s.calls[n - 1].pending.nodes.Keys + s.calls[n - 1].pending.rels.Keys
  }

  lemma SomeFreshId(s: State, item: Item) returns (id: nat)
    ensures Fresh(s, item, id)
  {
    id := FreshId(Used(s, |s.calls|));
  }

  /** Whatever has become of an element, there is a next step for it. */
  lemma ItemMoves(env: Env, s: State, p: nat) returns (c: Choice)
    requires p < |s.calls| && ItemOf(env, s.calls[p]).Some?
    ensures Enabled(env, s, p, c) && Productive(c)
  {
    hide LockList, View, Matches, ItemOf, Fresh;
    var call := s.calls[p];
    var item := ItemOf(env, call).value;
    var id := SomeFreshId(s, item);
    match MoveOf(env, View(s, call), item, StageOf(call))
    case CountIt => c := Count;
    case LoadIt =>
      var row :| row in Matches(env, View(s, call), item);
      c := Load(row);
    case RejectIt => c := Reject;
    case _ => c := Write(id);
  }

  /** A call that is neither finished nor waiting for a mutex can always move. */
  lemma RunningCallMoves(env: Env, s: State, p: nat) returns (c: Choice)
    requires p < |s.calls| && PhaseBounded(s.calls[p]) && HeldCount(s.calls[p]) <= |Keys(s.calls[p])|
    requires !Finished(s.calls[p]) && !Waiting(s.calls[p])
    ensures Enabled(env, s, p, c) && Productive(c)
  {
    hide LockList, View, FindMatches, MoveOf, Matches, Fresh, RelationshipForMatch;
    var call := s.calls[p];
    match call.phase
    case Acquiring(_) => c := Begin;
    case Releasing(_) => c := Release;
    case Nodes(_, _) => c := ItemMoves(env, s, p);
    case Rels(j, stage) =>
      if stage.Pairing? {
        c := ItemMoves(env, s, p);
      } else if j == |call.plan.relationships| {
        c := Commit;
      } else if Selected(env, s, call).Err? {
        c := Reject;
      } else {
        c := if stage.Selecting? then ReadSources else ReadTargets;
      }
  }

  /** Among the first n calls, a waiting one whose next key is largest. */
  lemma {:induction false} LargestWaiting(s: State, n: nat) returns (p: nat)
    requires n <= |s.calls| && exists q :: 0 <= q < n && Waiting(s.calls[q])
    ensures p < n && Waiting(s.calls[p])
    ensures forall q :: 0 <= q < n && Waiting(s.calls[q]) ==> !KeyLess(NextKey(s.calls[p]), NextKey(s.calls[q]))
  {
    hide Waiting, NextKey, KeyLess;
    var last := n - 1;
    if exists q :: 0 <= q < last && Waiting(s.calls[q]) {
      p := LargestWaiting(s, last);
      if Waiting(s.calls[last]) {
        var a, b := NextKey(s.calls[p]), NextKey(s.calls[last]);
        KeyLessTotal(a, b);
        KeyLessTotal(b, b);
        if KeyLess(a, b) {
          forall q | 0 <= q < last && Waiting(s.calls[q])
            ensures !KeyLess(b, NextKey(s.calls[q]))
          {
            if KeyLess(b, NextKey(s.calls[q])) {
              KeyLessTransitive(a, b, NextKey(s.calls[q]));
            }
          }
          p := last;
        }
      }
    } else {
      p := last;
      KeyLessTotal(NextKey(s.calls[p]), NextKey(s.calls[p]));
    }
  }

  /** A waiting call that holds a key waits for a larger one. */
  lemma WaitsForLarger(call: Call, key: Key)
    requires Waiting(call) && key in Held(call)
    ensures KeyLess(key, NextKey(call))
  {
    hide LockList;
    LockListIncreasing(call.plan);
    var keys, i := Keys(call), call.phase.next;
    var j :| 0 <= j < i && keys[..i][j] == key;
    assert keys[j] == key;
  }

  lemma FinishedHoldsNothing(call: Call)
    requires Finished(call)
    ensures Held(call) == {}
  {
  }

  /** Deadlock freedom: as long as some call is unfinished, some call can move. */
  lemma Progress(env: Env, s: State) returns (p: nat, c: Choice)
    requires LocksOwned(s) && PhasesBounded(s) && !AllFinished(s)
    ensures Enabled(env, s, p, c) && Productive(c)
  {
    hide Waiting, LocksOwned, Held, LockList, PhaseBounded;
    if exists q :: 0 <= q < |s.calls| && !Finished(s.calls[q]) && !Waiting(s.calls[q]) {
      p :| 0 <= p < |s.calls| && !Finished(s.calls[p]) && !Waiting(s.calls[p]);
      OwnedBy(s, p);
      c := RunningCallMoves(env, s, p);
    } else {
      p := LargestWaiting(s, |s.calls|);
      c := Acquire;
      LargestIsFree(s, p);
      WaitingMoves(env, s, p);
    }
  }

  lemma LargestIsFree(s: State, p: nat)
    requires LocksOwned(s) && p < |s.calls| && Waiting(s.calls[p])
    requires forall q :: 0 <= q < |s.calls| ==> Finished(s.calls[q]) || Waiting(s.calls[q])
    requires forall q :: 0 <= q < |s.calls| && Waiting(s.calls[q]) ==> !KeyLess(NextKey(s.calls[p]), NextKey(s.calls[q]))
    ensures NextKey(s.calls[p]) !in s.owner
  {
    hide Waiting, LockList, KeyLess, OwnsExactly, NextKey;
    var key := NextKey(s.calls[p]);
    if key in s.owner {
      var q := s.owner[key];
      HeldByOwner(s, key);
      if Finished(s.calls[q]) {
        FinishedHoldsNothing(s.calls[q]);
      } else {
        WaitsForLarger(s.calls[q], key);
      }
    }
  }

  lemma HeldByOwner(s: State, key: Key)
    requires LocksOwned(s) && key in s.owner
    ensures s.owner[key] < |s.calls| && key in Held(s.calls[s.owner[key]])
  {
  }

  lemma WaitingMoves(env: Env, s: State, p: nat)
    requires p < |s.calls| && Waiting(s.calls[p]) && NextKey(s.calls[p]) !in s.owner
    ensures Enabled(env, s, p, Acquire)
  {
  }

  /* ----- termination ----- */

  /** Queries and commits left in one attempt at the transaction. */
  function AttemptWeight(plan: MutationPlan): nat {
    3 * |plan.nodes| + 2 * |plan.relationships| + 3
  }

  function RetryWeight(call: Call): nat {
    call.retries * (AttemptWeight(call.plan) + 1)
  }

  function Minus(a: nat, b: nat): nat {
    if b <= a then a - b else 0
  }

  function StageWork(stage: Stage): nat {
    match stage case ToCount => 3 case Counted(_, _) => 2 case Loaded(_, _) => 1
  }

  /** Coarse steps left: keys to take, queries, retries, keys to release. */
  ghost function Weight(call: Call): nat {
    var k, plan, retry := |Keys(call)|, call.plan, RetryWeight(call);
    match call.phase
    case Acquiring(i) => Minus(k, i) + 1 + AttemptWeight(plan) + retry + k
    case Nodes(i, stage) => 3 * Minus(|plan.nodes|, i + 1) + StageWork(stage) + 2 * |plan.relationships| + 2 + retry + k
    case Rels(j, Selecting) => 2 * Minus(|plan.relationships|, j) + 2 + retry + k
    case Rels(j, SourcesRead(_)) => 2 * Minus(|plan.relationships|, j) + 1 + retry + k
    case Rels(j, Pairing(_, _)) => 2 * Minus(|plan.relationships|, j + 1) + 2 + retry + k
    case Releasing(n) => n
  }

  /** Queries left for the pairs already selected; this part is only known at run time. */
  function PairWork(call: Call): nat {
    match call.phase
    case Rels(_, Pairing(pairs, stage)) => if pairs == [] then 0 else 3 * (|pairs| - 1) + StageWork(stage)
    case _ => 0
  }

  lemma RetriesCost(retries: nat, attempt: nat)
    requires retries > 0
    ensures retries * (attempt + 1) == (retries - 1) * (attempt + 1) + (attempt + 1)
  {
  }

  /** Less work is left for b than for a. */
  ghost predicate Less(b: Call, a: Call) {
    Weight(b) < Weight(a) || (Weight(b) == Weight(a) && PairWork(b) < PairWork(a))
  }

  lemma ItemStepShrinks(env: Env, s: State, p: nat, c: Choice)
    requires p < |s.calls| && Enabled(env, s, p, c) && (c.Count? || c.Load? || c.Write?)
    ensures p < |Do(env, s, p, c).calls| && Less(Do(env, s, p, c).calls[p], s.calls[p])
  {
    hide LockList, View, Matches, WritesAfter, Changed, FindMatches, Product, LinksOf, Fresh, RelationshipForMatch;
    assert Keys(Do(env, s, p, c).calls[p]) == Keys(s.calls[p]);
  }

  lemma ReadShrinks(env: Env, s: State, p: nat, c: Choice)
    requires p < |s.calls| && Enabled(env, s, p, c) && (c.ReadSources? || c.ReadTargets?)
    ensures p < |Do(env, s, p, c).calls| && Less(Do(env, s, p, c).calls[p], s.calls[p])
  {
    hide LockList, View, Matches, WritesAfter, Changed, FindMatches, Product, LinksOf, Fresh, RelationshipForMatch;
    assert Keys(Do(env, s, p, c).calls[p]) == Keys(s.calls[p]);
  }

  lemma EndShrinks(env: Env, s: State, p: nat, c: Choice)
    requires p < |s.calls| && Enabled(env, s, p, c) && (c.Commit? || c.Reject? || c.Fail?)
    ensures p < |Do(env, s, p, c).calls| && Less(Do(env, s, p, c).calls[p], s.calls[p])
  {
    hide LockList, View, Matches, WritesAfter, Changed, FindMatches, Product, LinksOf, Fresh, RelationshipForMatch;
    assert Keys(Do(env, s, p, c).calls[p]) == Keys(s.calls[p]);
  }

  lemma LockStepShrinks(env: Env, s: State, p: nat, c: Choice)
    requires p < |s.calls| && Enabled(env, s, p, c) && (c.Acquire? || c.Begin? || c.Release?)
    ensures p < |Do(env, s, p, c).calls| && Less(Do(env, s, p, c).calls[p], s.calls[p])
  {
    hide LockList, View, Matches, WritesAfter, Changed, FindMatches, Product, LinksOf, Fresh, RelationshipForMatch;
    assert Keys(Do(env, s, p, c).calls[p]) == Keys(s.calls[p]);
  }

  lemma RetryShrinks(env: Env, s: State, p: nat, c: Choice)
    requires p < |s.calls| && Enabled(env, s, p, c) && (c.Retry?)
    ensures p < |Do(env, s, p, c).calls| && Less(Do(env, s, p, c).calls[p], s.calls[p])
  {
    hide LockList, View, Matches, WritesAfter, Changed, FindMatches, Product, LinksOf, Fresh, RelationshipForMatch;
    RetriesCost(s.calls[p].retries, AttemptWeight(s.calls[p].plan));
    assert Keys(Do(env, s, p, c).calls[p]) == Keys(s.calls[p]);
  }

  lemma CallShrinks(env: Env, s: State, p: nat, c: Choice)
    requires Enabled(env, s, p, c)
    ensures p < |s.calls| && p < |Do(env, s, p, c).calls|
    ensures Less(Do(env, s, p, c).calls[p], s.calls[p])
  {
    hide Enabled, Do, Less;
    OthersUnchanged(env, s, p, c);
    match c
    case Count => ItemStepShrinks(env, s, p, c);
    case Load(_) => ItemStepShrinks(env, s, p, c);
    case Write(_) => ItemStepShrinks(env, s, p, c);
    case ReadSources => ReadShrinks(env, s, p, c);
    case ReadTargets => ReadShrinks(env, s, p, c);
    case Retry => RetryShrinks(env, s, p, c);
    case Acquire => LockStepShrinks(env, s, p, c);
    case Begin => LockStepShrinks(env, s, p, c);
    case Release => LockStepShrinks(env, s, p, c);
    case _ => EndShrinks(env, s, p, c);
  }

  ghost function TotalWeight(calls: seq<Call>): nat {
    if calls == [] then 0 else Weight(calls[0]) + TotalWeight(calls[1..])
  }

  function TotalPairWork(calls: seq<Call>): nat {
    if calls == [] then 0 else PairWork(calls[0]) + TotalPairWork(calls[1..])
  }

  lemma {:induction false} TotalsAfterChange(calls: seq<Call>, p: nat, next: Call)
    requires p < |calls|
    ensures TotalWeight(calls[p := next]) == TotalWeight(calls) - Weight(calls[p]) + Weight(next)
    ensures TotalPairWork(calls[p := next]) == TotalPairWork(calls) - PairWork(calls[p]) + PairWork(next)
  {
    hide Weight, PairWork;
    if p == 0 {
      assert calls[p := next][1..] == calls[1..];
    } else {
      assert calls[p := next][1..] == calls[1..][p - 1 := next];
      TotalsAfterChange(calls[1..], p - 1, next);
    }
  }

  ghost predicate Smaller(t: State, s: State) {
    || TotalWeight(t.calls) < TotalWeight(s.calls)
    || (TotalWeight(t.calls) == TotalWeight(s.calls) && TotalPairWork(t.calls) < TotalPairWork(s.calls))
  }

  /** Every step, failures and retries included, uses up some of the work left. */
  lemma StepShrinks(env: Env, s: State, t: State)
    requires Next(env, s, t)
    ensures Smaller(t, s)
  {
    hide Do, Enabled, Weight, PairWork;
    var p: nat, c: Choice :| Enabled(env, s, p, c) && t == Do(env, s, p, c);
    OthersUnchanged(env, s, p, c);
    CallShrinks(env, s, p, c);
    TotalsAfterChange(s.calls, p, t.calls[p]);
  }

  /** There is no endless run. */
  lemma NoEndlessRun(env: Env, run: nat -> State)
    ensures !(forall i: nat :: Next(env, run(i), run(i + 1)))
  {
    if forall i: nat :: Next(env, run(i), run(i + 1)) {
      EndlessRunShrinks(env, run, 0);
    }
  }

  lemma {:induction false} EndlessRunShrinks(env: Env, run: nat -> State, i: nat)
    requires forall j: nat :: Next(env, run(j), run(j + 1))
    ensures false
    decreases TotalWeight(run(i).calls), TotalPairWork(run(i).calls)
  {
    hide Next, TotalWeight, TotalPairWork;
    StepShrinks(env, run(i), run(i + 1));
    EndlessRunShrinks(env, run, i + 1);
  }

  /* ----- the theorem about complete runs ----- */

  lemma {:induction false} ReachableBounded(env: Env, s: State, schedule: Schedule)
    requires Initial(s) && Exec(env, s, schedule).Some?
    ensures PhasesBounded(Exec(env, s, schedule).value) && LocksOwned(Exec(env, s, schedule).value)
  {
    hide Enabled, Do, PhaseBounded, LocksOwned;
    if schedule == [] {
      InitialBounded(s);
      InitialLocks(s);
    } else {
      var init := schedule[..|schedule| - 1];
      var (p, c) := schedule[|schedule| - 1];
      ReachableBounded(env, s, init);
      BoundedStep(env, Exec(env, s, init).value, p, c);
      OwnedStep(env, Exec(env, s, init).value, p, c);
    }
  }

  lemma InitialBounded(s: State)
    requires Initial(s)
    ensures PhasesBounded(s)
  {
  }

  lemma AllFinishedUnlocked(s: State)
    requires LocksOwned(s) && AllFinished(s)
    ensures s.owner == map[]
  {
    hide LocksOwned, Held, LockList;
    forall key | key in s.owner
      ensures false
    {
      HeldByOwner(s, key);
      FinishedHoldsNothing(s.calls[s.owner[key]]);
    }
  }

  /**
   * A run that cannot be continued (and every run reaches such a point) has finished
   * every call and released every mutex, whatever the plans are.
   */
  lemma CompleteRun(env: Env, s: State, schedule: Schedule)
    requires Initial(s) && Exec(env, s, schedule).Some?
    requires forall p: nat, c: Choice :: Productive(c) ==> !Enabled(env, Exec(env, s, schedule).value, p, c)
    ensures AllFinished(Exec(env, s, schedule).value) && Exec(env, s, schedule).value.owner == map[]
  {
    hide Exec, Initial, LocksOwned, PhasesBounded, Enabled;
    var t := Exec(env, s, schedule).value;
    ReachableBounded(env, s, schedule);
    if !AllFinished(t) {
      var p, c := Progress(env, t);
    } else {
      AllFinishedUnlocked(t);
    }
  }
}
