/**
 * The scheduler (internal/scheduler/scheduler.go): goroutines that execute jobs under an
 * atomic `running` flag, and the counters they update (internal/observability/metrics.go).
 */
module Scheduler {
  import opened Prelude

  /** Where a goroutine is in loop and execute. */
  datatype Phase =
    | Entering     // about to compare and swap the flag
    | Flagged      // owns the flag, not yet counted
    | Running      // inside job.run
    | Recorded     // counted as finished, flag not yet cleared
    | Waiting      // in the select
    | Ticked       // about to load the flag
    | Stopped

  datatype Goroutine = Goroutine(job: nat, phase: Phase)

  datatype Metrics = Metrics(started: nat, completed: nat, failed: nat, skipped: nat)

  datatype State = State(flags: set<nat>, goroutines: seq<Goroutine>, metrics: Metrics)

  datatype Choice = Swap | Start | Finish(ok: bool) | Clear | Tick | Check | Stop

  predicate Enabled(s: State, g: nat, c: Choice) {
    g < |s.goroutines| &&
    match (s.goroutines[g].phase, c)
    case (Entering, Swap) => true
    case (Flagged, Start) => true
    case (Running, Finish(_)) => true
    case (Recorded, Clear) => true
    case (Waiting, Tick) => true
    case (Waiting, Stop) => true
    case (Ticked, Check) => true
    case _ => false
  }

  function Move(s: State, g: nat, phase: Phase): State
    requires g < |s.goroutines|
  {
    s.(goroutines := s.goroutines[g := s.goroutines[g].(phase := phase)])
  }

  function Do(s: State, g: nat, c: Choice): State
    requires Enabled(s, g, c)
  {
    var job, m := s.goroutines[g].job, s.metrics;
    match c
    case Swap => if job in s.flags then Move(s, g, Waiting) else Move(s, g, Flagged).(flags := s.flags + {job})
    case Start => Move(s, g, Running).(metrics := m.(started := m.started + 1))
    case Finish(ok) =>
      Move(s, g, Recorded).(metrics := if ok then m.(completed := m.completed + 1) else m.(failed := m.failed + 1))
    case Clear => Move(s, g, Waiting).(flags := s.flags - {job})
    case Tick => Move(s, g, Ticked)
    case Check => if job in s.flags then Move(s, g, Waiting).(metrics := m.(skipped := m.skipped + 1)) else Move(s, g, Entering)
    case Stop => Move(s, g, Stopped)
  }

  /* ----- at most one execution of each job ----- */

  predicate Owns(g: Goroutine) {
    g.phase.Flagged? || g.phase.Running? || g.phase.Recorded?
  }

  /** A set flag has exactly one owner; a goroutine between swap and clear owns its job's flag. */
  ghost predicate FlagsOwned(s: State) {
    && (forall g :: 0 <= g < |s.goroutines| && Owns(s.goroutines[g]) ==> s.goroutines[g].job in s.flags)
    && (forall g, h :: 0 <= g < h < |s.goroutines| && Owns(s.goroutines[g]) && Owns(s.goroutines[h])
          ==> s.goroutines[g].job != s.goroutines[h].job)
    && (forall job :: job in s.flags ==> exists g :: 0 <= g < |s.goroutines| && Owns(s.goroutines[g]) && s.goroutines[g].job == job)
  }

  function RunningCount(gs: seq<Goroutine>): nat {
    if gs == [] then 0 else RunningCount(gs[1..]) + if gs[0].phase.Running? then 1 else 0
  }

  /** Jobs started are completed, failed or still running. */
  predicate Balanced(s: State) {
    s.metrics.started == s.metrics.completed + s.metrics.failed + RunningCount(s.goroutines)
  }

  lemma {:induction false} RunningAfterMove(gs: seq<Goroutine>, g: nat, next: Goroutine)
    requires g < |gs|
    ensures RunningCount(gs[g := next]) + (if gs[g].phase.Running? then 1 else 0)
      == RunningCount(gs) + (if next.phase.Running? then 1 else 0)
  {
    if g == 0 {
      assert gs[g := next][1..] == gs[1..];
    } else {
      assert gs[g := next][1..] == gs[1..][g - 1 := next];
      RunningAfterMove(gs[1..], g - 1, next);
    }
  }

  lemma BalancedStep(s: State, g: nat, c: Choice)
    requires Balanced(s) && Enabled(s, g, c)
    ensures Balanced(Do(s, g, c))
  {
    hide RunningCount;
    RunningAfterMove(s.goroutines, g, Do(s, g, c).goroutines[g]);
  }

  /** A step changes one goroutine; the flag changes exactly when its ownership does. */
  lemma StepShape(s: State, g: nat, c: Choice)
    requires Enabled(s, g, c)
    ensures var t := Do(s, g, c);
      && g < |s.goroutines| == |t.goroutines|
      && (forall h :: 0 <= h < |s.goroutines| && h != g ==> t.goroutines[h] == s.goroutines[h])
      && t.goroutines[g].job == s.goroutines[g].job
      && (Owns(t.goroutines[g]) && !Owns(s.goroutines[g]) ==>
            s.goroutines[g].job !in s.flags && t.flags == s.flags + {s.goroutines[g].job})
      && (!Owns(t.goroutines[g]) && Owns(s.goroutines[g]) ==> t.flags == s.flags - {s.goroutines[g].job})
      && (Owns(t.goroutines[g]) == Owns(s.goroutines[g]) ==> t.flags == s.flags)
  {
  }

  lemma FlagsStep(s: State, g: nat, c: Choice)
    requires FlagsOwned(s) && Enabled(s, g, c)
    ensures FlagsOwned(Do(s, g, c))
  {
    hide Do, Enabled, Owns;
    StepShape(s, g, c);
    var t := Do(s, g, c);
    forall j | j in t.flags
      ensures exists h :: 0 <= h < |t.goroutines| && Owns(t.goroutines[h]) && t.goroutines[h].job == j
    {
      if j in s.flags {
        var h :| 0 <= h < |s.goroutines| && Owns(s.goroutines[h]) && s.goroutines[h].job == j;
        assert Owns(t.goroutines[h]) && t.goroutines[h].job == j;
      } else {
        assert Owns(t.goroutines[g]) && t.goroutines[g].job == j;
      }
    }
  }

  /** Some goroutine is between setting and clearing the flag of the job. */
  ghost predicate Executing(s: State, job: nat) {
    exists h :: 0 <= h < |s.goroutines| && Owns(s.goroutines[h]) && s.goroutines[h].job == job
  }

  /** A tick is skipped, and counted as such, exactly while its job is executing; a swap succeeds exactly while it is not. */
  lemma OverlapExactly(s: State, g: nat, c: Choice)
    requires FlagsOwned(s) && Enabled(s, g, c)
    ensures var t, overlap := Do(s, g, c), Executing(s, s.goroutines[g].job);
      && (c.Check? ==> t.goroutines[g].phase == if overlap then Waiting else Entering)
      && (c.Swap? ==> t.goroutines[g].phase == if overlap then Waiting else Flagged)
      && t.metrics.skipped == s.metrics.skipped + if c.Check? && overlap then 1 else 0
  {
    var job := s.goroutines[g].job;
    assert job in s.flags <==> Executing(s, job);
  }

  /* ----- one goroutine per job ----- */

  predicate OneGoroutinePerJob(s: State) {
    forall g, h :: 0 <= g < |s.goroutines| && 0 <= h < |s.goroutines| && s.goroutines[g].job == s.goroutines[h].job ==> g == h
  }

  /** With one loop goroutine per job, as Run starts them, the overlap branch is never taken. */
  lemma NeverSkips(s: State, g: nat, c: Choice)
    requires FlagsOwned(s) && OneGoroutinePerJob(s) && Enabled(s, g, c)
    ensures Do(s, g, c).metrics.skipped == s.metrics.skipped
    ensures c.Swap? ==> Do(s, g, c).goroutines[g].phase.Flagged?
    ensures OneGoroutinePerJob(Do(s, g, c))
  {
  }

  /* ----- runs ----- */

  type Schedule = seq<(nat, Choice)>

  ghost function Exec(s: State, schedule: Schedule): Option<State> {
    if schedule == [] then Some(s)
    else match Exec(s, schedule[..|schedule| - 1])
      case None => None
      case Some(m) =>
        var (g, c) := schedule[|schedule| - 1];
        if Enabled(m, g, c) then Some(Do(m, g, c)) else None
  }

  predicate Initial(s: State) {
    s.flags == {} && s.metrics == Metrics(0, 0, 0, 0) && forall g :: 0 <= g < |s.goroutines| ==> s.goroutines[g].phase == Entering
  }

  lemma {:induction false} NoneRunning(gs: seq<Goroutine>)
    requires forall g :: 0 <= g < |gs| ==> gs[g].phase == Entering
    ensures RunningCount(gs) == 0
  {
    if gs != [] {
      NoneRunning(gs[1..]);
    }
  }

  /**
   * In every run, with any number of goroutines per job: no two execute one job at the
   * same time, and the counters balance. With one goroutine per job nothing is skipped.
   */
  lemma {:induction false} RunsAreSafe(s: State, schedule: Schedule)
    requires Initial(s) && Exec(s, schedule).Some?
    ensures var t := Exec(s, schedule).value;
      && FlagsOwned(t) && Balanced(t)
      && (OneGoroutinePerJob(s) ==> OneGoroutinePerJob(t) && t.metrics.skipped == 0)
  {
    if schedule == [] {
      NoneRunning(s.goroutines);
    } else {
      hide FlagsOwned, Balanced, OneGoroutinePerJob, Enabled, Do;
      var init := schedule[..|schedule| - 1];
      var (g, c) := schedule[|schedule| - 1];
      RunsAreSafe(s, init);
      var m := Exec(s, init).value;
      FlagsStep(m, g, c);
      BalancedStep(m, g, c);
      if OneGoroutinePerJob(s) {
        NeverSkips(m, g, c);
      }
    }
  }

  /* ----- what the counters count ----- */

  /** How often a step was taken, by any goroutine. */
  function Taken(schedule: Schedule, c: Choice): nat {
    if schedule == [] then 0
    else Taken(schedule[..|schedule| - 1], c) + if schedule[|schedule| - 1].1 == c then 1 else 0
  }

  function InPhase(gs: seq<Goroutine>, phase: Phase): nat {
    if gs == [] then 0 else InPhase(gs[1..], phase) + if gs[0].phase == phase then 1 else 0
  }

  /**
   * Every execution that was begun is counted as started and every end by its result; every
   * round, begun at the start or by a tick, has tried to execute its job or was skipped, unless it is still deciding.
   */
  predicate Accounted(s: State, schedule: Schedule, t: State) {
    && t.metrics.started == Taken(schedule, Start)
    && t.metrics.completed == Taken(schedule, Finish(true)) && t.metrics.failed == Taken(schedule, Finish(false))
    && |s.goroutines| + Taken(schedule, Tick)
         == Taken(schedule, Swap) + t.metrics.skipped + InPhase(t.goroutines, Ticked) + InPhase(t.goroutines, Entering)
  }

  lemma {:induction false} InPhaseAfterMove(gs: seq<Goroutine>, g: nat, next: Goroutine, phase: Phase)
    requires g < |gs|
    ensures InPhase(gs[g := next], phase) + (if gs[g].phase == phase then 1 else 0)
      == InPhase(gs, phase) + if next.phase == phase then 1 else 0
  {
    if g == 0 {
      assert gs[g := next][1..] == gs[1..];
    } else {
      assert gs[g := next][1..] == gs[1..][g - 1 := next];
      InPhaseAfterMove(gs[1..], g - 1, next, phase);
    }
  }

  lemma {:induction false} AllInPhase(gs: seq<Goroutine>, phase: Phase, other: Phase)
    requires forall g :: 0 <= g < |gs| ==> gs[g].phase == phase
    ensures InPhase(gs, phase) == |gs| && (other != phase ==> InPhase(gs, other) == 0)
  {
    if gs != [] {
      AllInPhase(gs[1..], phase, other);
    }
  }

  lemma {:induction false} CountersAccount(s: State, schedule: Schedule)
    requires Initial(s) && Exec(s, schedule).Some?
    ensures Accounted(s, schedule, Exec(s, schedule).value)
  {
    if schedule == [] {
      AllInPhase(s.goroutines, Entering, Ticked);
    } else {
      hide InPhase, Accounted, Do, Enabled;
      var init := schedule[..|schedule| - 1];
      var (g, c) := schedule[|schedule| - 1];
      CountersAccount(s, init);
      AccountedStep(s, schedule, Exec(s, init).value, g, c);
    }
  }

  lemma AccountedStep(s: State, schedule: Schedule, m: State, g: nat, c: Choice)
    requires schedule != [] && schedule[|schedule| - 1] == (g, c) && Enabled(m, g, c)
    requires Accounted(s, schedule[..|schedule| - 1], m)
    ensures Accounted(s, schedule, Do(m, g, c))
  {
    hide InPhase;
    InPhaseAfterMove(m.goroutines, g, Do(m, g, c).goroutines[g], Ticked);
    InPhaseAfterMove(m.goroutines, g, Do(m, g, c).goroutines[g], Entering);
  }

  /* ----- the loops that Run starts ----- */

  /** The state in which Run has started one loop per added job. */
  function Started(jobs: nat): State {
    State({}, seq(jobs, i requires 0 <= i < jobs => Goroutine(i, Entering)), Metrics(0, 0, 0, 0))
  }

  lemma StartedOnePerJob(jobs: nat)
    ensures Initial(Started(jobs)) && OneGoroutinePerJob(Started(jobs))
  {
  }

  /** What Run's own start guarantees: one execution per job at a time, balanced counters, and no skips, ever. */
  lemma StartedRunsNeverSkip(jobs: nat, schedule: Schedule)
    requires Exec(Started(jobs), schedule).Some?
    ensures var t := Exec(Started(jobs), schedule).value; FlagsOwned(t) && Balanced(t) && t.metrics.skipped == 0
  {
    hide Exec, FlagsOwned, Balanced, Initial, OneGoroutinePerJob;
    StartedOnePerJob(jobs);
    RunsAreSafe(Started(jobs), schedule);
  }

  /* ----- once mode ----- */

  /** execute, step by step: a set flag means nothing is done and no error is reported. */
  method Execute(s: State, g: nat, result: Option<string>) returns (t: State, error: Option<string>)
    requires Enabled(s, g, Swap)
    ensures g < |s.goroutines| == |t.goroutines| && t.goroutines == s.goroutines[g := Goroutine(s.goroutines[g].job, Waiting)]
    ensures t.flags == s.flags
    ensures if s.goroutines[g].job in s.flags then error == None && t.metrics == s.metrics
            else error == result && t.metrics == AfterJob(s.metrics, result)
  {
    t := Do(s, g, Swap);
    if t.goroutines[g].phase.Waiting? {
      return t, None;
    }
    t := Do(t, g, Start);
    t := Do(t, g, Finish(result.None?));
    t := Do(t, g, Clear);
    error := result;
  }

  function AfterJob(m: Metrics, result: Option<string>): Metrics {
    Metrics(m.started + 1, m.completed + (if result.None? then 1 else 0), m.failed + (if result.Some? then 1 else 0), m.skipped)
  }

  /** The errors among the results, in order. */
  function Failures(results: seq<Option<string>>): seq<string> {
    if results == [] then []
    else
      var last := results[|results| - 1];
      Failures(results[..|results| - 1]) + if last.Some? then [last.value] else []
  }

  /** They come in the order of the jobs, one for each job that fails. */
  lemma {:induction false} FailuresInOrder(a: seq<Option<string>>, e: string, b: seq<Option<string>>)
    ensures Failures(a + [Some(e)] + b) == Failures(a) + [e] + Failures(b)
    ensures Failures(a + [None] + b) == Failures(a) + Failures(b)
  {
    if b == [] {
      assert a + [Some(e)] + b == a + [Some(e)] && a + [None] + b == a + [None];
      assert (a + [Some(e)])[..|a|] == a && (a + [None])[..|a|] == a;
    } else {
      var init, last := b[..|b| - 1], b[|b| - 1];
      FailuresInOrder(a, e, init);
      assert (a + [Some(e)] + b)[..|a| + |b|] == a + [Some(e)] + init && (a + [None] + b)[..|a| + |b|] == a + [None] + init;
    }
  }

  lemma {:induction false} FailuresMean(results: seq<Option<string>>)
    ensures forall e :: e in Failures(results) <==> Some(e) in results
  {
    if results != [] {
      var init := results[..|results| - 1];
      assert results == init + [results[|results| - 1]];
      FailuresMean(init);
    }
  }

  /**
   * Run in once mode: one goroutine executes every job in turn, each exactly once, and
   * joins their errors in order; nil is the empty list. No flag stays set.
   */
  method RunOnce(results: seq<Option<string>>) returns (joined: seq<string>, final: State)
    ensures joined == Failures(results) && |joined| <= |results| && final.flags == {}
    ensures final.metrics == Metrics(|results|, |results| - |joined|, |joined|, 0)
    ensures joined == [] <==> forall k :: 0 <= k < |results| ==> results[k].None?
    ensures forall e :: e in joined <==> Some(e) in results
  {
    joined := [];
    final := State({}, [], Metrics(0, 0, 0, 0));
    for index := 0 to |results|
      invariant joined == Failures(results[..index]) && |joined| <= index && final.flags == {}
      invariant final.metrics == Metrics(index, index - |joined|, |joined|, 0)
      invariant joined == [] <==> forall k :: 0 <= k < index ==> results[k].None?
    {
      assert results[..index + 1][..index] == results[..index];
      var ready := final.(goroutines := [Goroutine(index, Entering)]);
      var after, error := Execute(ready, 0, results[index]);
      final := after;
      if error.Some? {
        joined := joined + [error.value];
      }
    }
    assert results[..|results|] == results;
    FailuresMean(results);
  }
}
