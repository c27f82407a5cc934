/**
 * The steps of one call, when no other call intervenes, are Upsert.ApplyPlan: the
 * transition system and the sequential specification are about one program.
 */
module ConcurrentSequential {
  import opened Prelude
  import opened Values
  import opened Domain
  import opened Filters
  import opened Cypher
  import opened Upsert
  import opened Locks
  import opened Concurrency
  import opened ConcurrentViews
  import opened ConcurrentWrites

  /* ----- runs of one call ----- */

  ghost predicate StepTo(env: Env, s: State, p: nat, c: Choice, t: State) {
    Enabled(env, s, p, c) && Do(env, s, p, c) == t
  }

  ghost predicate Runs(env: Env, s: State, schedule: Schedule, t: State) {
    Exec(env, s, schedule) == Some(t)
  }

  /** Steps of call p only, none of them a failure of the database. */
  predicate Own(p: nat, schedule: Schedule) {
    forall i :: 0 <= i < |schedule| ==> schedule[i].0 == p && !schedule[i].1.Fail? && !schedule[i].1.Retry?
  }

  /** Call p alone leads from s to t. */
  ghost predicate Alone(env: Env, s: State, p: nat, t: State) {
    exists schedule :: Own(p, schedule) && Runs(env, s, schedule, t)
  }

  lemma {:induction false} ExecConcat(env: Env, s: State, a: Schedule, b: Schedule)
    requires Exec(env, s, a).Some?
    ensures Exec(env, s, a + b) == Exec(env, Exec(env, s, a).value, b)
  {
    hide Enabled, Do;
    if b == [] {
      assert a + b == a;
    } else {
      var init := b[..|b| - 1];
      assert (a + b)[..|a + b| - 1] == a + init;
      ExecConcat(env, s, a, init);
    }
  }

  lemma AloneNothing(env: Env, s: State, p: nat)
    ensures Alone(env, s, p, s)
  {
    assert Own(p, []) && Runs(env, s, [], s);
  }

  lemma AloneStep(env: Env, s: State, p: nat, c: Choice, t: State)
    requires StepTo(env, s, p, c, t) && !c.Fail? && !c.Retry?
    ensures Alone(env, s, p, t)
  {
    hide Enabled, Do;
    var schedule := [(p, c)];
    assert schedule[..0] == [] && Exec(env, s, []) == Some(s);
    assert Own(p, schedule) && Runs(env, s, schedule, t);
  }

  lemma AloneThen(env: Env, s: State, p: nat, m: State, t: State)
    requires Alone(env, s, p, m) && Alone(env, m, p, t)
    ensures Alone(env, s, p, t)
  {
    hide Exec;
    var a :| Own(p, a) && Runs(env, s, a, m);
    var b :| Own(p, b) && Runs(env, m, b, t);
    ExecConcat(env, s, a, b);
    assert Own(p, a + b) && Runs(env, s, a + b, t);
  }

  /** Only call p has moved, inside its transaction. */
  predicate OnlyMoved(s: State, t: State, p: nat) {
    && p < |s.calls| == |t.calls|
    && t.committed == s.committed && t.owner == s.owner && t.calls == s.calls[p := t.calls[p]]
    && t.calls[p].plan == s.calls[p].plan && t.calls[p].retries == s.calls[p].retries
  }

  lemma OnlyMovedThen(s: State, m: State, t: State, p: nat)
    requires OnlyMoved(s, m, p) && OnlyMoved(m, t, p)
    ensures OnlyMoved(s, t, p)
  {
  }

  function Put(s: State, p: nat, tick: nat, phase: Phase, pending: Pending): State
    requires p < |s.calls|
  {
    State(s.committed, tick, s.owner, s.calls[p := s.calls[p].(phase := phase, pending := pending)])
  }

  /* ----- one element ----- */

  lemma StageIrrelevant(env: Env, call: Call, stage: Stage)
    requires ItemOf(env, call).Some?
    ensures var next := call.(phase := WithStage(call.phase, stage));
      ItemOf(env, next) == ItemOf(env, call) && AfterItem(next) == AfterItem(call) && StageOf(next) == stage
  {
    hide RelationshipForMatch;
  }

  lemma CountsItem(env: Env, s: State, p: nat, item: Item)
    requires p < |s.calls| && ItemOf(env, s.calls[p]) == Some(item)
    requires MoveOf(env, View(s, s.calls[p]), item, StageOf(s.calls[p])) == CountIt
    ensures var n := |Matches(env, View(s, s.calls[p]), item)|;
      StepTo(env, s, p, Count,
             Put(s, p, s.tick + 1, WithStage(s.calls[p].phase, Counted(n, env.clock(s.tick))), s.calls[p].pending))
  {
    hide LockList, View, Matches, ItemOf, WithStage, MoveOf, StageOf;
  }

  lemma LoadsItem(env: Env, s: State, p: nat, item: Item, id: nat)
    requires p < |s.calls| && ItemOf(env, s.calls[p]) == Some(item)
    requires MoveOf(env, View(s, s.calls[p]), item, StageOf(s.calls[p])) == LoadIt
    requires id in Matches(env, View(s, s.calls[p]), item)
    ensures var update := Changed(View(s, s.calls[p]), item, id);
      StepTo(env, s, p, Load(id),
             Put(s, p, s.tick, WithStage(s.calls[p].phase, Loaded(update, StageTime(StageOf(s.calls[p])))), s.calls[p].pending))
  {
    hide LockList, View, Matches, ItemOf, WithStage, MoveOf, StageOf, StageTime, Changed;
  }

  lemma WritesItem(env: Env, s: State, p: nat, item: Item, id: nat)
    requires p < |s.calls| && ItemOf(env, s.calls[p]) == Some(item)
    requires var move := MoveOf(env, View(s, s.calls[p]), item, StageOf(s.calls[p]));
      move == UpdateIt || move == SkipIt || (move == CreateIt && Fresh(s, item, id))
    ensures var call := s.calls[p];
      StepTo(env, s, p, Write(id),
             Put(s, p, s.tick, AfterItem(call), WritesAfter(env, View(s, call), call.pending, item, StageOf(call), id)))
  {
    hide LockList, View, Matches, ItemOf, AfterItem, MoveOf, StageOf, WritesAfter, Fresh;
  }

  /** The graph after one element has been applied at a moment, a new element under the given id. */
  function Applied(env: Env, g: Graph, item: Item, now: int, id: nat): Graph {
    var ids := Matches(env, g, item);
    match item
    case NodeItem(node) =>
      if ids == {} then g.(nodes := g.nodes[id := NewNode(node, now)])
      else if |ids| == 1 && NodeNeedsUpdate(g, node) then SetOnNodes(g, ids, UpdateProps(node, now)) else g
    case PairItem(rel, s, t) =>
      if ids == {} then g.(rels := g.rels[id := NewRel(env, rel, s, t, now)])
      else if |ids| == 1 && RelNeedsUpdate(env, g, rel, s, t) then SetOnRels(g, ids, RelUpdateProps(env, rel, now)) else g
  }

  /** Whether the existing element is rewritten. */
  predicate Rewrites(env: Env, g: Graph, item: Item, id: nat) {
    PolicyOf(item).Merge? || (PolicyOf(item).MergeAtChange? && Changed(g, item, id))
  }

  lemma AppliedBy(env: Env, g: Graph, item: Item, now: int, id: nat, row: nat)
    requires Matches(env, g, item) == {row}
    ensures Applied(env, g, item, now, id) ==
      if !Rewrites(env, g, item, row) then g
      else match item
        case NodeItem(node) => SetOnNodes(g, {row}, UpdateProps(node, now))
        case PairItem(rel, _, _) => SetOnRels(g, {row}, RelUpdateProps(env, rel, now))
  {
    hide UpdateProps, RelUpdateProps, SetOnNodes, SetOnRels, ShouldUpdate, LabelSet, TemplateHashOf, ManagedNodeProps,
         ManagedRelProps;
    assert row in Matches(env, g, item);
    OnlyOne(row);
  }

  lemma OnlyOne(row: nat)
    ensures Only({row}) == row
  {
    var only := Only({row});
    assert only in {row};
  }

  lemma ViewAfterWrites(env: Env, g: Graph, w: Pending, item: Item, stage: Stage, id: nat)
    requires Tidy(g, w)
    ensures var view := Overlay(g, w);
      Overlay(g, WritesAfter(env, view, w, item, stage, id)) ==
        match (MoveOf(env, view, item, stage), item)
        case (CreateIt, NodeItem(node)) => view.(nodes := view.nodes[id := NewNode(node, StageTime(stage))])
        case (CreateIt, PairItem(rel, s, t)) => view.(rels := view.rels[id := NewRel(env, rel, s, t, StageTime(stage))])
        case (UpdateIt, NodeItem(node)) => SetOnNodes(view, Matches(env, view, item), UpdateProps(node, StageTime(stage)))
        case (UpdateIt, PairItem(rel, s, t)) => SetOnRels(view, Matches(env, view, item), RelUpdateProps(env, rel, StageTime(stage)))
        case _ => view
  {
    hide Overlay, Tidy, SetNodes, SetRels, SetOnNodes, SetOnRels, NewNode, NewRel, UpdateProps, RelUpdateProps,
         Matches, MoveOf, StageTime;
    var view, now := Overlay(g, w), StageTime(stage);
    TidyApart(g, w);
    match (MoveOf(env, view, item, stage), item)
    case (CreateIt, NodeItem(node)) => ViewAfterNode(g, w, id, NewNode(node, now));
    case (CreateIt, PairItem(rel, s, t)) => ViewAfterRel(g, w, id, NewRel(env, rel, s, t, now));
    case (UpdateIt, NodeItem(node)) => ViewAfterSetNodes(g, w, Matches(env, view, item), UpdateProps(node, now));
    case (UpdateIt, PairItem(rel, s, t)) => ViewAfterSetRels(g, w, Matches(env, view, item), RelUpdateProps(env, rel, now));
    case _ =>
  }

  lemma ViewAfterNode(g: Graph, w: Pending, id: nat, node: Node)
    ensures Overlay(g, w.(nodes := w.nodes[id := node])) == Overlay(g, w).(nodes := Overlay(g, w).nodes[id := node])
  {
    hide SeenNode, SeenRel;
  }

  lemma ViewAfterRel(g: Graph, w: Pending, id: nat, rel: Rel)
    ensures Overlay(g, w.(rels := w.rels[id := rel])) == Overlay(g, w).(rels := Overlay(g, w).rels[id := rel])
  {
    hide SeenNode, SeenRel;
  }

  /** What running one element alone leads to. */
  predicate ItemDone(env: Env, s: State, t: State, p: nat, item: Item, id: nat) {
    && OnlyMoved(s, t, p) && t.tick == s.tick + 1
    && t.calls[p].phase == AfterItem(s.calls[p]) && t.calls[p].met == s.calls[p].met
    && View(t, t.calls[p]) == Applied(env, View(s, s.calls[p]), item, env.clock(s.tick), id)
    && Tidy(t.committed, t.calls[p].pending)
  }

  /**
   * An element that the code can apply is applied by Count, under merge_at_change Load,
   * and Write: afterwards the call's view is the sequential result.
   */
  lemma ItemRuns(env: Env, s: State, p: nat, item: Item, id: nat) returns (t: State)
    requires p < |s.calls| && ItemOf(env, s.calls[p]) == Some(item) && StageOf(s.calls[p]) == ToCount
    requires Tidy(s.committed, s.calls[p].pending) && Fresh(s, item, id) && NamedItem(item)
    requires Accepted(item) && !PolicyOf(item).Unknown? && |Matches(env, View(s, s.calls[p]), item)| <= 1
    ensures Alone(env, s, p, t) && ItemDone(env, s, t, p, item, id)
  {
    hide Alone, StepTo, Tidy, Applied, Accepted, Matches, Fresh, ItemOf, AfterItem, WithStage, Overlay, WritesAfter,
         Changed, StageOf, PolicyOf;
    var call, g := s.calls[p], View(s, s.calls[p]);
    var n, now := |Matches(env, g, item)|, env.clock(s.tick);
    CountsItem(env, s, p, item);
    var counted := Counted(n, now);
    var s1 := Put(s, p, s.tick + 1, WithStage(call.phase, counted), call.pending);
    AloneStep(env, s, p, Count, s1);
    StageIrrelevant(env, call, counted);
    FreshLater(s, s1, p, item, id);
    if n == 1 && PolicyOf(item).MergeAtChange? {
      var row := Only(Matches(env, g, item));
      LoadsItem(env, s1, p, item, row);
      var loaded := Loaded(Changed(g, item, row), now);
      var s2 := Put(s1, p, s1.tick, WithStage(s1.calls[p].phase, loaded), call.pending);
      AloneStep(env, s1, p, Load(row), s2);
      AloneThen(env, s, p, s1, s2);
      StageIrrelevant(env, s1.calls[p], loaded);
      FreshLater(s1, s2, p, item, id);
      t := LastWrite(env, s, s2, p, item, loaded, id);
      AloneThen(env, s, p, s2, t);
    } else {
      t := LastWrite(env, s, s1, p, item, counted, id);
      AloneThen(env, s, p, s1, t);
    }
  }

  lemma FreshLater(s: State, t: State, p: nat, item: Item, id: nat)
    requires Fresh(s, item, id) && t.committed == s.committed && |t.calls| == |s.calls|
    requires forall q :: 0 <= q < |s.calls| ==> t.calls[q].pending == s.calls[q].pending
    ensures Fresh(t, item, id)
  {
  }

  /** The stage just before the write is the one that decides like the sequential code. */
  ghost predicate Ready(env: Env, g: Graph, item: Item, stage: Stage, now: int) {
    && StageTime(stage) == now
    && match stage
       case ToCount => false
       case Counted(n, _) => n == |Matches(env, g, item)| && !(n == 1 && PolicyOf(item).MergeAtChange?)
       case Loaded(update, _) =>
         PolicyOf(item).MergeAtChange? && exists row :: Matches(env, g, item) == {row} && update == Changed(g, item, row)
  }

  lemma ReadyMove(env: Env, g: Graph, item: Item, stage: Stage, now: int)
    requires Ready(env, g, item, stage, now) && Accepted(item) && !PolicyOf(item).Unknown? && |Matches(env, g, item)| <= 1
    ensures Matches(env, g, item) == {} ==> MoveOf(env, g, item, stage) == CreateIt
    ensures forall row :: Matches(env, g, item) == {row} ==>
      MoveOf(env, g, item, stage) == if Rewrites(env, g, item, row) then UpdateIt else SkipIt
  {
    hide Matches, Changed, Accepted;
    forall row | Matches(env, g, item) == {row}
      ensures MoveOf(env, g, item, stage) == if Rewrites(env, g, item, row) then UpdateIt else SkipIt
    {
      assert row in Matches(env, g, item);
      if stage.Loaded? {
        var other :| Matches(env, g, item) == {other} && stage.update == Changed(g, item, other);
        assert other in {row};
      }
    }
  }

  lemma LastWrite(env: Env, s: State, m: State, p: nat, item: Item, stage: Stage, id: nat) returns (t: State)
    requires OnlyMoved(s, m, p) && m.tick == s.tick + 1 && m.calls[p] == s.calls[p].(phase := m.calls[p].phase)
    requires ItemOf(env, m.calls[p]) == Some(item) && StageOf(m.calls[p]) == stage
    requires AfterItem(m.calls[p]) == AfterItem(s.calls[p])
    requires Tidy(s.committed, s.calls[p].pending) && Fresh(m, item, id) && NamedItem(item)
    requires Accepted(item) && !PolicyOf(item).Unknown? && |Matches(env, View(s, s.calls[p]), item)| <= 1
    requires Ready(env, View(s, s.calls[p]), item, stage, env.clock(s.tick))
    ensures Alone(env, m, p, t) && ItemDone(env, s, t, p, item, id)
  {
    hide Alone, StepTo, Tidy, Accepted, Matches, Fresh, ItemOf, AfterItem, Overlay, WritesAfter, Changed, StageOf,
         PolicyOf, MoveOf, Ready,
         Applied, Rewrites, SetOnNodes, SetOnRels, NewNode, NewRel, UpdateProps, RelUpdateProps;
    var g, w, now := View(s, s.calls[p]), s.calls[p].pending, env.clock(s.tick);
    assert View(m, m.calls[p]) == g;
    ReadyMove(env, g, item, stage, now);
    FreshMeans(m, p, item, id);
    WritesAreTidy(env, s.committed, w, item, stage, id);
    OneOrNone(Matches(env, g, item));
    WritesItem(env, m, p, item, id);
    t := Put(m, p, m.tick, AfterItem(m.calls[p]), WritesAfter(env, g, w, item, stage, id));
    AloneStep(env, m, p, Write(id), t);
    ViewAfterWrites(env, s.committed, w, item, stage, id);
    ReadyTime(env, g, item, stage, now);
    if Matches(env, g, item) == {} {
      AppliedNew(env, g, item, now, id);
    } else {
      var row :| Matches(env, g, item) == {row};
      AppliedBy(env, g, item, now, id, row);
    }
  }

  lemma FreshMeans(s: State, p: nat, item: Item, id: nat)
    requires Fresh(s, item, id) && p < |s.calls|
    ensures item.NodeItem? ==> id !in s.committed.nodes && id !in s.calls[p].pending.nodes
    ensures item.PairItem? ==> id !in s.committed.rels && id !in s.calls[p].pending.rels
  {
  }

  lemma ReadyTime(env: Env, g: Graph, item: Item, stage: Stage, now: int)
    requires Ready(env, g, item, stage, now)
    ensures StageTime(stage) == now
  {
  }

  lemma AppliedNew(env: Env, g: Graph, item: Item, now: int, id: nat)
    requires Matches(env, g, item) == {}
    ensures Applied(env, g, item, now, id) == match item
      case NodeItem(node) => g.(nodes := g.nodes[id := NewNode(node, now)])
      case PairItem(rel, s, t) => g.(rels := g.rels[id := NewRel(env, rel, s, t, now)])
  {
    hide NewNode, NewRel, LabelSet, TemplateHashOf;
  }

  lemma OneOrNone(ids: set<nat>)
    requires |ids| <= 1
    ensures ids == {} || exists row :: ids == {row}
  {
    if ids != {} {
      var row := Only(ids);
      assert ids == {row};
    }
  }

  /* ----- one element is one step of Upsert ----- */

  /** Upsert.ApplyNode, or Upsert.UpsertRel on a matched pair. */
  function ApplyItem(env: Env, tx: Tx, item: Item): Result<(Tx, PersistAction), Failure> {
    match item
    case NodeItem(node) => ApplyNode(env, tx, node)
    case PairItem(rel, s, t) => UpsertRel(env, tx, rel, s, t)
  }

  /** The id that the sequential specification gives a created element. */
  function SequentialId(g: Graph, item: Item): nat {
    match item case NodeItem(_) => FreshId(g.nodes.Keys) case PairItem(_, _, _) => FreshId(g.rels.Keys)
  }

  lemma CreatedAlike(g: Graph, node: GraphNode, now: int)
    ensures NodeCreated(g, node, now) == g.(nodes := g.nodes[FreshId(g.nodes.Keys) := NewNode(node, now)])
  {
    hide CreationProps, MergeProps, FreshId;
  }

  lemma CreatedRelAlike(env: Env, g: Graph, rel: GraphRelationship, s: nat, t: nat, now: int)
    ensures CreateRel(g, s, t, rel.kind, RelCreationProps(env, rel, now))
      == g.(rels := g.rels[FreshId(g.rels.Keys) := NewRel(env, rel, s, t, now)])
  {
    hide RelCreationProps, MergeProps, FreshId;
  }

  /** The specification succeeds exactly on what the transition system does not reject, with the same graph. */
  lemma ItemIsUpsert(env: Env, tx: Tx, item: Item)
    ensures ApplyItem(env, tx, item).Ok? <==>
      Accepted(item) && !PolicyOf(item).Unknown? && |Matches(env, tx.graph, item)| <= 1
    ensures ApplyItem(env, tx, item).Ok? ==>
      ApplyItem(env, tx, item).value.0 ==
        Tx(Applied(env, tx.graph, item, env.clock(tx.tick), SequentialId(tx.graph, item)), tx.tick + 1)
  {
    hide NodeMatches, RelMatches, NodeCreated, CreateRel, SetOnRels, SetOnNodes, NewNode, NewRel, UpdateProps,
         RelUpdateProps, NodeNeedsUpdate,
         RelNeedsUpdate, FreshId, ValidLabels, IsIdentifier, RelCreationProps;
    var g, now := tx.graph, env.clock(tx.tick);
    match item
    case NodeItem(node) =>
      CreatedAlike(g, node, now);
      UpdatedAlike(g, node, now);
    case PairItem(rel, s, t) => CreatedRelAlike(env, g, rel, s, t, now);
  }

  lemma UpdatedAlike(g: Graph, node: GraphNode, now: int)
    ensures NodeUpdated(g, node, now) == SetOnNodes(g, NodeMatches(g, node), UpdateProps(node, now))
  {
  }

  /** And where the specification fails, the call rejects: at once, or after its count. */
  lemma ItemRejects(env: Env, s: State, p: nat, item: Item) returns (t: State)
    requires p < |s.calls| && ItemOf(env, s.calls[p]) == Some(item) && StageOf(s.calls[p]) == ToCount
    requires ApplyItem(env, Tx(View(s, s.calls[p]), s.tick), item).Err?
    ensures Alone(env, s, p, t) && OnlyMoved(s, t, p) && View(t, t.calls[p]) == View(s, s.calls[p])
    ensures Enabled(env, t, p, Reject)
  {
    hide Alone, StepTo, Applied, Accepted, Matches, ItemOf, WithStage, Overlay, StageOf, PolicyOf, ApplyItem;
    var call, g := s.calls[p], View(s, s.calls[p]);
    ItemIsUpsert(env, Tx(g, s.tick), item);
    if !Accepted(item) {
      t := s;
      AloneNothing(env, s, p);
    } else {
      CountsItem(env, s, p, item);
      var counted := Counted(|Matches(env, g, item)|, env.clock(s.tick));
      t := Put(s, p, s.tick + 1, WithStage(call.phase, counted), call.pending);
      AloneStep(env, s, p, Count, t);
      StageIrrelevant(env, call, counted);
      assert View(t, t.calls[p]) == g;
    }
  }

  /* ----- a whole plan ----- */

  /** No other call has anything uncommitted. */
  predicate OthersIdle(s: State, p: nat) {
    p < |s.calls| && Tidy(s.committed, s.calls[p].pending)
    && forall q :: 0 <= q < |s.calls| && q != p ==> s.calls[q].pending == NOTHING
  }

  lemma SequentialIdIsFresh(s: State, p: nat, item: Item)
    requires OthersIdle(s, p)
    ensures Fresh(s, item, SequentialId(View(s, s.calls[p]), item))
  {
    hide FreshId, SeenNode, SeenRel, Tidy;
    OverlayKeys(s.committed, s.calls[p].pending);
  }

  lemma StaysIdle(env: Env, s: State, t: State, p: nat)
    requires OthersIdle(s, p) && OnlyMoved(s, t, p) && Tidy(t.committed, t.calls[p].pending)
    ensures OthersIdle(t, p)
  {
  }

  /** One element of a call that runs alone: its view moves as Upsert says. */
  lemma ItemRunsAlone(env: Env, s: State, p: nat, item: Item) returns (t: State)
    requires OthersIdle(s, p) && ItemOf(env, s.calls[p]) == Some(item) && StageOf(s.calls[p]) == ToCount && NamedItem(item)
    requires ApplyItem(env, Tx(View(s, s.calls[p]), s.tick), item).Ok?
    ensures Alone(env, s, p, t) && OnlyMoved(s, t, p) && OthersIdle(t, p)
    ensures t.calls[p].phase == AfterItem(s.calls[p])
    ensures Tx(View(t, t.calls[p]), t.tick) == ApplyItem(env, Tx(View(s, s.calls[p]), s.tick), item).value.0
  {
    hide Alone, Tidy, Applied, Accepted, Matches, Fresh, ItemOf, AfterItem, Overlay, StageOf, PolicyOf, ApplyItem,
         SequentialId, View;
    var tx := Tx(View(s, s.calls[p]), s.tick);
    var id := SequentialId(tx.graph, item);
    ItemIsUpsert(env, tx, item);
    SequentialIdIsFresh(s, p, item);
    t := ItemRuns(env, s, p, item, id);
    StaysIdle(env, s, t, p);
  }

  lemma NodeItemOf(env: Env, call: Call, i: nat)
    requires i < |call.plan.nodes| && call.phase == AtNode(call.plan, i)
    ensures ItemOf(env, call) == Some(NodeItem(call.plan.nodes[i])) && StageOf(call) == ToCount
    ensures AfterItem(call) == AtNode(call.plan, i + 1)
    ensures NamedPlan(call.plan) ==> NamedItem(NodeItem(call.plan.nodes[i]))
  {
    hide Named;
    assert call.plan.nodes[i] in call.plan.nodes;
  }

  lemma {:induction false} NodesRunAlone(env: Env, s: State, p: nat, i: nat) returns (t: State)
    requires p < |s.calls| && OthersIdle(s, p) && NamedPlan(s.calls[p].plan) && s.calls[p].phase == AtNode(s.calls[p].plan, 0)
    requires i <= |s.calls[p].plan.nodes|
    requires ApplyNodes(env, Tx(View(s, s.calls[p]), s.tick), s.calls[p].plan.nodes[..i]).Ok?
    ensures Alone(env, s, p, t) && OnlyMoved(s, t, p) && OthersIdle(t, p)
    ensures t.calls[p].phase == AtNode(s.calls[p].plan, i)
    ensures Tx(View(t, t.calls[p]), t.tick) == ApplyNodes(env, Tx(View(s, s.calls[p]), s.tick), s.calls[p].plan.nodes[..i]).value.0
  {
    hide Alone, OthersIdle, View, ApplyNode, AtNode, NamedPlan;
    var nodes := s.calls[p].plan.nodes;
    if i == 0 {
      t := s;
      AloneNothing(env, s, p);
    } else {
      assert nodes[..i][..i - 1] == nodes[..i - 1] && nodes[..i][i - 1] == nodes[i - 1];
      var m := NodesRunAlone(env, s, p, i - 1);
      NodeItemOf(env, m.calls[p], i - 1);
      t := ItemRunsAlone(env, m, p, NodeItem(nodes[i - 1]));
      AloneThen(env, s, p, m, t);
      OnlyMovedThen(s, m, t, p);
    }
  }

  lemma PairItemOf(env: Env, call: Call, j: nat, pairs: seq<Pair>)
    requires j < |call.plan.relationships| && pairs != [] && call.phase == AtPairs(j, pairs)
    ensures var given := RelationshipForMatch(env, call.plan.relationships[j], pairs[0].0, pairs[0].1);
      ItemOf(env, call) == Some(PairItem(given, pairs[0].0.id, pairs[0].1.id)) && StageOf(call) == ToCount
    ensures AfterItem(call) == AtPairs(j, pairs[1..])
  {
    hide RelationshipForMatch;
  }

  lemma {:induction false} PairsRunAlone(env: Env, s: State, p: nat, j: nat, pairs: seq<Pair>, k: nat) returns (t: State)
    requires p < |s.calls| && OthersIdle(s, p) && j < |s.calls[p].plan.relationships|
    requires s.calls[p].phase == AtPairs(j, pairs) && k <= |pairs|
    requires ApplyPairs(env, Tx(View(s, s.calls[p]), s.tick), s.calls[p].plan.relationships[j], pairs[..k]).Ok?
    ensures Alone(env, s, p, t) && OnlyMoved(s, t, p) && OthersIdle(t, p)
    ensures t.calls[p].phase == AtPairs(j, pairs[k..])
    ensures Tx(View(t, t.calls[p]), t.tick)
      == ApplyPairs(env, Tx(View(s, s.calls[p]), s.tick), s.calls[p].plan.relationships[j], pairs[..k]).value.0
  {
    hide Alone, OthersIdle, View, UpsertRel, AtPairs, RelationshipForMatch;
    var rel := s.calls[p].plan.relationships[j];
    if k == 0 {
      t := s;
      AloneNothing(env, s, p);
      assert pairs[0..] == pairs;
    } else {
      assert pairs[..k][..k - 1] == pairs[..k - 1] && pairs[..k][k - 1] == pairs[k - 1];
      var m := PairsRunAlone(env, s, p, j, pairs, k - 1);
      var left, pair := pairs[k - 1..], pairs[k - 1];
      assert left[0] == pair && left[1..] == pairs[k..];
      PairItemOf(env, m.calls[p], j, left);
      t := ItemRunsAlone(env, m, p, PairItem(RelationshipForMatch(env, rel, pair.0, pair.1), pair.0.id, pair.1.id));
      AloneThen(env, s, p, m, t);
      OnlyMovedThen(s, m, t, p);
    }
  }

  /** A selector query changes nothing but the call's own progress. */
  lemma ReadStep(env: Env, s: State, p: nat, c: Choice) returns (t: State)
    requires p < |s.calls| && (c.ReadSources? || c.ReadTargets?) && Enabled(env, s, p, c)
    ensures StepTo(env, s, p, c, t) && OnlyMoved(s, t, p) && t.tick == s.tick && t.calls[p].pending == s.calls[p].pending
    ensures Reading(s.calls[p]) && Selected(env, s, s.calls[p]).Ok?
    ensures var j, found := s.calls[p].phase.current, Selected(env, s, s.calls[p]).value;
      t.calls[p].phase ==
        if c.ReadSources? then (if found == [] then Rels(j + 1, Selecting) else Rels(j, SourcesRead(found)))
        else if s.calls[p].phase.relStage.SourcesRead? then AtPairs(j, Product(s.calls[p].phase.relStage.sources, found))
        else s.calls[p].phase
  {
    hide LockList, View, FindMatches, Product, LinksOf, AtPairs;
    t := Do(env, s, p, c);
  }

  lemma RelationshipRunsAlone(env: Env, s: State, p: nat, j: nat) returns (t: State)
    requires p < |s.calls| && OthersIdle(s, p) && j < |s.calls[p].plan.relationships| && s.calls[p].phase == Rels(j, Selecting)
    requires ApplyRelationship(env, Tx(View(s, s.calls[p]), s.tick), s.calls[p].plan.relationships[j]).Ok?
    ensures Alone(env, s, p, t) && OnlyMoved(s, t, p) && OthersIdle(t, p)
    ensures t.calls[p].phase == Rels(j + 1, Selecting)
    ensures Tx(View(t, t.calls[p]), t.tick)
      == ApplyRelationship(env, Tx(View(s, s.calls[p]), s.tick), s.calls[p].plan.relationships[j]).value.0
  {
    hide Alone, StepTo, OthersIdle, Overlay, FindMatches, ApplyPairs, Product;
    var rel := s.calls[p].plan.relationships[j];
    var sources := FindMatches(env, View(s, s.calls[p]).nodes, rel.source).value;
    t := ReadStep(env, s, p, ReadSources);
    AloneStep(env, s, p, ReadSources, t);
    IdleWithSameWrites(s, t, p);
    if sources != [] {
      var m := t;
      var targets := FindMatches(env, View(s, s.calls[p]).nodes, rel.target).value;
      var n := ReadStep(env, m, p, ReadTargets);
      AloneStep(env, m, p, ReadTargets, n);
      AloneThen(env, s, p, m, n);
      IdleWithSameWrites(m, n, p);
      OnlyMovedThen(s, m, n, p);
      var pairs := Product(sources, targets);
      EmptyProduct(sources, targets);
      NoPairs(env, Tx(View(s, s.calls[p]), s.tick), rel);
      assert pairs[..|pairs|] == pairs && pairs[|pairs|..] == [];
      t := PairsRunAlone(env, n, p, j, pairs, |pairs|);
      AloneThen(env, s, p, n, t);
      OnlyMovedThen(s, n, t, p);
    }
  }

  lemma EmptyProduct(sources: seq<MatchedNode>, targets: seq<MatchedNode>)
    ensures targets == [] ==> Product(sources, targets) == []
  {
    assert |Product(sources, targets)| == |sources| * |targets|;
  }

  lemma NoPairs(env: Env, tx: Tx, rel: GraphRelationship)
    ensures ApplyPairs(env, tx, rel, []) == Ok((tx, Zero()))
  {
  }

  lemma IdleWithSameWrites(s: State, t: State, p: nat)
    requires p < |s.calls| && OthersIdle(s, p) && OnlyMoved(s, t, p) && t.calls[p].pending == s.calls[p].pending
    ensures OthersIdle(t, p) && View(t, t.calls[p]) == View(s, s.calls[p])
  {
  }

  lemma {:induction false} RelationshipsRunAlone(env: Env, s: State, p: nat, j: nat) returns (t: State)
    requires p < |s.calls| && OthersIdle(s, p) && s.calls[p].phase == Rels(0, Selecting) && j <= |s.calls[p].plan.relationships|
    requires ApplyRelationships(env, Tx(View(s, s.calls[p]), s.tick), s.calls[p].plan.relationships[..j]).Ok?
    ensures Alone(env, s, p, t) && OnlyMoved(s, t, p) && OthersIdle(t, p)
    ensures t.calls[p].phase == Rels(j, Selecting)
    ensures Tx(View(t, t.calls[p]), t.tick)
      == ApplyRelationships(env, Tx(View(s, s.calls[p]), s.tick), s.calls[p].plan.relationships[..j]).value.0
  {
    hide Alone, OthersIdle, View, ApplyRelationship;
    var rels := s.calls[p].plan.relationships;
    if j == 0 {
      t := s;
      AloneNothing(env, s, p);
    } else {
      assert rels[..j][..j - 1] == rels[..j - 1] && rels[..j][j - 1] == rels[j - 1];
      var m := RelationshipsRunAlone(env, s, p, j - 1);
      t := RelationshipRunsAlone(env, m, p, j - 1);
      AloneThen(env, s, p, m, t);
      OnlyMovedThen(s, m, t, p);
    }
  }

  /**
   * A call that holds its mutexes, runs while no other call has anything uncommitted and
   * meets no failure of the database, commits exactly the graph of Upsert.ApplyPlan.
   */
  lemma PlanRunsAlone(env: Env, s: State, p: nat) returns (t: State)
    requires p < |s.calls| && OthersIdle(s, p) && NamedPlan(s.calls[p].plan)
    requires s.calls[p].phase == Acquiring(|Keys(s.calls[p])|) && s.calls[p].pending == NOTHING
    requires ApplyPlan(env, Tx(s.committed, s.tick), s.calls[p].plan).Ok?
    ensures Alone(env, s, p, t)
    ensures Tx(t.committed, t.tick) == ApplyPlan(env, Tx(s.committed, s.tick), s.calls[p].plan).value.0
    ensures |t.calls| == |s.calls| && t.calls[p].phase == Releasing(|Keys(s.calls[p])|)
  {
    hide Alone, StepTo, OthersIdle, LockList, ApplyNodes, ApplyRelationships, NamedPlan, AtNode, Overlay;
    var plan := s.calls[p].plan;
    NothingOverlays(s.committed);
    var m := BeginStep(env, s, p);
    AloneStep(env, s, p, Begin, m);
    IdleWithSameWrites(s, m, p);
    assert plan.nodes[..|plan.nodes|] == plan.nodes && plan.relationships[..|plan.relationships|] == plan.relationships;
    var n := NodesRunAlone(env, m, p, |plan.nodes|);
    AloneThen(env, s, p, m, n);
    NodesEnd(plan);
    var r := RelationshipsRunAlone(env, n, p, |plan.relationships|);
    AloneThen(env, s, p, n, r);
    t := CommitsView(env, r, p);
    AloneStep(env, r, p, Commit, t);
    AloneThen(env, s, p, r, t);
  }

  lemma NodesEnd(plan: MutationPlan)
    ensures AtNode(plan, |plan.nodes|) == Rels(0, Selecting)
  {
  }

  lemma NothingOverlays(g: Graph)
    ensures Overlay(g, NOTHING) == g
  {
  }

  lemma BeginStep(env: Env, s: State, p: nat) returns (t: State)
    requires p < |s.calls| && s.calls[p].phase == Acquiring(|Keys(s.calls[p])|)
    ensures StepTo(env, s, p, Begin, t) && OnlyMoved(s, t, p) && t.tick == s.tick && t.calls[p].pending == s.calls[p].pending
    ensures t.calls[p].phase == AtNode(s.calls[p].plan, 0)
  {
    hide LockList, AtNode;
    t := Do(env, s, p, Begin);
  }

  lemma CommitsView(env: Env, s: State, p: nat) returns (t: State)
    requires p < |s.calls| && s.calls[p].phase == Rels(|s.calls[p].plan.relationships|, Selecting)
    ensures StepTo(env, s, p, Commit, t) && t.committed == View(s, s.calls[p]) && t.tick == s.tick
    ensures |t.calls| == |s.calls| && t.calls[p].phase == Releasing(|Keys(s.calls[p])|)
  {
    hide LockList, View;
    t := Do(env, s, p, Commit);
  }
}
