/**
 * The worker pool (internal/scheduler/worker_pool.go): the concurrent branch of Run
 * as a transition system, and what all of its runs have in common with the sequential branch.
 *
 * The callback is called at most once for each index, so its results in a run are a
 * function of the index: nil (None) or an error.
 */
module WorkerPool {
  import opened Prelude

  type Error = string
  type Outcome = nat -> Option<Error>

  datatype Worker =
    | Idle                     // ranging over the index channel
    | Busy(index: nat)         // running the callback
    | Sending(error: Error)    // blocked on the error channel
    | Exited

  datatype Stage = Dispatching | Draining | Returned

  datatype Pool = Pool(
    total: nat,
    next: nat,                 // indices handed out so far
    stage: Stage,
    cancelled: bool,           // ctx.Done() is closed
    aborted: bool,             // the loop left through ctx.Done()
    workers: seq<Worker>,
    calls: seq<nat>,           // indices in the order their callbacks finished
    errs: seq<Error>)          // contents of the error channel

  function Start(total: nat, workerCount: nat): Pool {
    Pool(total, 0, Dispatching, false, false, seq(workerCount, _ => Idle), [], [])
  }

  /* ----- steps ----- */

  datatype Choice =
    | Dispatch(w: nat)         // rendezvous on the unbuffered index channel
    | Finish(w: nat)
    | Send(w: nat)
    | Cancel
    | Abort
    | Close
    | Exit(w: nat)
    | Return

  predicate AllExited(s: Pool) {
    forall w :: 0 <= w < |s.workers| ==> s.workers[w].Exited?
  }

  predicate Enabled(s: Pool, c: Choice) {
    match c
    case Dispatch(w) => s.stage.Dispatching? && s.next < s.total && w < |s.workers| && s.workers[w].Idle?
    case Finish(w) => w < |s.workers| && s.workers[w].Busy?
    case Send(w) => w < |s.workers| && s.workers[w].Sending? && |s.errs| < s.total
    case Cancel => !s.cancelled
    case Abort => s.stage.Dispatching? && s.next < s.total && s.cancelled
    case Close => s.stage.Dispatching? && s.next == s.total
    case Exit(w) => s.stage.Draining? && w < |s.workers| && s.workers[w].Idle?
    case Return => s.stage.Draining? && AllExited(s)
  }

  function Become(s: Pool, w: nat, worker: Worker): Pool
    requires w < |s.workers|
  {
    s.(workers := s.workers[w := worker])
  }

  function Do(outcome: Outcome, s: Pool, c: Choice): Pool
    requires Enabled(s, c)
  {
    match c
    case Dispatch(w) => Become(s, w, Busy(s.next)).(next := s.next + 1)
    case Finish(w) =>
      var index := s.workers[w].index;
      var after := match outcome(index) case None => Idle case Some(e) => Sending(e);
      Become(s, w, after).(calls := s.calls + [index])
    case Send(w) => Become(s, w, Idle).(errs := s.errs + [s.workers[w].error])
    case Cancel => s.(cancelled := true)
    case Abort => s.(stage := Draining, aborted := true)
    case Close => s.(stage := Draining)
    case Exit(w) => Become(s, w, Exited)
    case Return => s.(stage := Returned)
  }

  /* ----- conservation: every index is somewhere, exactly once ----- */

  ghost function IndexOf(worker: Worker): multiset<nat> {
    if worker.Busy? then multiset{worker.index} else multiset{}
  }

  ghost function ErrorOf(worker: Worker): multiset<Error> {
    if worker.Sending? then multiset{worker.error} else multiset{}
  }

  function Weight(worker: Worker): nat {
    match worker case Idle => 1 case Busy(_) => 3 case Sending(_) => 2 case Exited => 0
  }

  ghost function BusyIndices(workers: seq<Worker>): multiset<nat> {
    if workers == [] then multiset{} else BusyIndices(workers[1..]) + IndexOf(workers[0])
  }

  ghost function PendingErrors(workers: seq<Worker>): multiset<Error> {
    if workers == [] then multiset{} else PendingErrors(workers[1..]) + ErrorOf(workers[0])
  }

  function TotalWeight(workers: seq<Worker>): nat {
    if workers == [] then 0 else TotalWeight(workers[1..]) + Weight(workers[0])
  }

  ghost function Upto(n: nat): multiset<nat> {
    if n == 0 then multiset{} else Upto(n - 1) + multiset{n - 1}
  }

  function OneError(outcome: Outcome, index: nat): seq<Error> {
    match outcome(index) case None => [] case Some(e) => [e]
  }

  /** The errors of a list of calls, in that order. */
  function ErrorsOf(outcome: Outcome, calls: seq<nat>): seq<Error> {
    if calls == [] then []
    else ErrorsOf(outcome, calls[..|calls| - 1]) + OneError(outcome, calls[|calls| - 1])
  }

  ghost predicate Conserved(outcome: Outcome, s: Pool) {
    && multiset(s.calls) + BusyIndices(s.workers) == Upto(s.next)
    && multiset(s.errs) + PendingErrors(s.workers) == multiset(ErrorsOf(outcome, s.calls))
  }

  ghost predicate Inv(outcome: Outcome, s: Pool) {
    && s.next <= s.total && 0 < |s.workers|
    && Conserved(outcome, s)
    && (s.aborted ==> s.cancelled && s.next < s.total)
    && (!s.stage.Dispatching? && !s.aborted ==> s.next == s.total)
    && (s.stage.Dispatching? ==> !s.aborted && forall w :: 0 <= w < |s.workers| ==> !s.workers[w].Exited?)
    && (s.stage.Returned? ==> AllExited(s))
  }

  lemma {:induction false} AfterBecome(workers: seq<Worker>, w: nat, worker: Worker)
    requires w < |workers|
    ensures BusyIndices(workers[w := worker]) + IndexOf(workers[w]) == BusyIndices(workers) + IndexOf(worker)
    ensures PendingErrors(workers[w := worker]) + ErrorOf(workers[w]) == PendingErrors(workers) + ErrorOf(worker)
    ensures TotalWeight(workers[w := worker]) + Weight(workers[w]) == TotalWeight(workers) + Weight(worker)
  {
    hide IndexOf, ErrorOf, Weight;
    var after := workers[w := worker];
    if w == 0 {
      assert after[1..] == workers[1..];
    } else {
      var rest := workers[1..];
      assert after[1..] == rest[w - 1 := worker];
      AfterBecome(rest, w - 1, worker);
      AddToBoth(BusyIndices(after[1..]), BusyIndices(rest), IndexOf(workers[0]), IndexOf(workers[w]), IndexOf(worker));
      AddToBoth(PendingErrors(after[1..]), PendingErrors(rest), ErrorOf(workers[0]), ErrorOf(workers[w]), ErrorOf(worker));
    }
  }

  lemma AddToBoth<T>(a: multiset<T>, b: multiset<T>, c: multiset<T>, x: multiset<T>, y: multiset<T>)
    requires a + x == b + y
    ensures (a + c) + x == (b + c) + y
  {
    assert (a + c) + x == (a + x) + c;
    assert (b + c) + y == (b + y) + c;
  }

  /** What a step does to the workers: at most one of them changes. */
  function Moved(outcome: Outcome, s: Pool, c: Choice): Option<(nat, Worker)>
    requires Enabled(s, c)
  {
    match c
    case Dispatch(w) => Some((w, Busy(s.next)))
    case Finish(w) => Some((w, match outcome(s.workers[w].index) case None => Idle case Some(e) => Sending(e)))
    case Send(w) => Some((w, Idle))
    case Exit(w) => Some((w, Worker.Exited))
    case _ => None
  }

  lemma StepMoves(outcome: Outcome, s: Pool, c: Choice)
    requires Enabled(s, c)
    ensures match Moved(outcome, s, c)
      case None => Do(outcome, s, c).workers == s.workers
      case Some((w, worker)) => w < |s.workers| && Do(outcome, s, c).workers == s.workers[w := worker]
  {
  }

  /** A worker's old and new contents, as the two conservation laws see them. */
  lemma Balance<T>(a: multiset<T>, b: multiset<T>, x: multiset<T>, y: multiset<T>)
    requires a + x == b + y
    ensures x == multiset{} ==> a == b + y
    ensures y == multiset{} ==> a + x == b
  {
  }

  lemma MovedWorker(workers: seq<Worker>, w: nat, worker: Worker)
    requires w < |workers|
    ensures var after := workers[w := worker];
      && (IndexOf(workers[w]) == multiset{} ==> BusyIndices(after) == BusyIndices(workers) + IndexOf(worker))
      && (IndexOf(worker) == multiset{} ==> BusyIndices(after) + IndexOf(workers[w]) == BusyIndices(workers))
      && (ErrorOf(workers[w]) == multiset{} ==> PendingErrors(after) == PendingErrors(workers) + ErrorOf(worker))
      && (ErrorOf(worker) == multiset{} ==> PendingErrors(after) + ErrorOf(workers[w]) == PendingErrors(workers))
  {
    hide *;
    AfterBecome(workers, w, worker);
    var after := workers[w := worker];
    Balance(BusyIndices(after), BusyIndices(workers), IndexOf(workers[w]), IndexOf(worker));
    Balance(PendingErrors(after), PendingErrors(workers), ErrorOf(workers[w]), ErrorOf(worker));
  }

  lemma ConservedStep(outcome: Outcome, s: Pool, c: Choice)
    requires Conserved(outcome, s) && Enabled(s, c)
    ensures Conserved(outcome, Do(outcome, s, c))
  {
    match c
    case Dispatch(w) => DispatchConserves(outcome, s, w);
    case Finish(w) => FinishConserves(outcome, s, w);
    case Send(w) => SendConserves(outcome, s, w);
    case Exit(w) => ExitConserves(outcome, s, w);
    case _ =>
  }

  lemma DispatchConserves(outcome: Outcome, s: Pool, w: nat)
    requires Conserved(outcome, s) && Enabled(s, Dispatch(w))
    ensures Conserved(outcome, Do(outcome, s, Dispatch(w)))
  {
    hide *;
    ConservedMeans(outcome, s);
    ConservedMeans(outcome, Do(outcome, s, Dispatch(w)));
    DispatchShape(outcome, s, w);
    MovedWorker(s.workers, w, Busy(s.next));
    UptoNext(s.next);
    assert multiset(s.calls) + (BusyIndices(s.workers) + multiset{s.next}) == Upto(s.next) + multiset{s.next};
    assert PendingErrors(s.workers) + multiset{} == PendingErrors(s.workers);
  }

  lemma DispatchShape(outcome: Outcome, s: Pool, w: nat)
    requires Enabled(s, Dispatch(w))
    ensures w < |s.workers| && IndexOf(s.workers[w]) == multiset{} && ErrorOf(s.workers[w]) == multiset{}
    ensures IndexOf(Busy(s.next)) == multiset{s.next} && ErrorOf(Busy(s.next)) == multiset{}
    ensures var t := Do(outcome, s, Dispatch(w));
      t.workers == s.workers[w := Busy(s.next)] && t.calls == s.calls && t.errs == s.errs && t.next == s.next + 1
  {
  }

  lemma SendConserves(outcome: Outcome, s: Pool, w: nat)
    requires Conserved(outcome, s) && Enabled(s, Send(w))
    ensures Conserved(outcome, Do(outcome, s, Send(w)))
  {
    hide *;
    ConservedMeans(outcome, s);
    ConservedMeans(outcome, Do(outcome, s, Send(w)));
    var error := SendShape(outcome, s, w);
    MovedWorker(s.workers, w, Idle);
    assert BusyIndices(s.workers) + multiset{} == BusyIndices(s.workers);
  }

  lemma SendShape(outcome: Outcome, s: Pool, w: nat) returns (error: Error)
    requires Enabled(s, Send(w))
    ensures w < |s.workers| && IndexOf(s.workers[w]) == multiset{} && ErrorOf(s.workers[w]) == multiset{error}
    ensures IndexOf(Idle) == multiset{} && ErrorOf(Idle) == multiset{}
    ensures var t := Do(outcome, s, Send(w));
      t.workers == s.workers[w := Idle] && t.calls == s.calls && t.errs == s.errs + [error] && t.next == s.next
  {
    hide AllExited;
    error := s.workers[w].error;
  }

  lemma ExitConserves(outcome: Outcome, s: Pool, w: nat)
    requires Conserved(outcome, s) && Enabled(s, Choice.Exit(w))
    ensures Conserved(outcome, Do(outcome, s, Choice.Exit(w)))
  {
    hide *;
    ConservedMeans(outcome, s);
    ConservedMeans(outcome, Do(outcome, s, Choice.Exit(w)));
    ExitShape(outcome, s, w);
    MovedWorker(s.workers, w, Worker.Exited);
    assert BusyIndices(s.workers) + multiset{} == BusyIndices(s.workers);
    assert PendingErrors(s.workers) + multiset{} == PendingErrors(s.workers);
  }

  lemma ExitShape(outcome: Outcome, s: Pool, w: nat)
    requires Enabled(s, Choice.Exit(w))
    ensures w < |s.workers| && IndexOf(s.workers[w]) == multiset{} && ErrorOf(s.workers[w]) == multiset{}
    ensures IndexOf(Worker.Exited) == multiset{} && ErrorOf(Worker.Exited) == multiset{}
    ensures var t := Do(outcome, s, Choice.Exit(w));
      t.workers == s.workers[w := Worker.Exited] && t.calls == s.calls && t.errs == s.errs && t.next == s.next
  {
  }

  lemma UptoNext(n: nat)
    ensures Upto(n + 1) == Upto(n) + multiset{n}
  {
  }

  lemma FinishConserves(outcome: Outcome, s: Pool, w: nat)
    requires Conserved(outcome, s) && Enabled(s, Finish(w))
    ensures Conserved(outcome, Do(outcome, s, Finish(w)))
  {
    hide *;
    ConservedMeans(outcome, s);
    ConservedMeans(outcome, Do(outcome, s, Finish(w)));
    var index, worker := FinishShape(outcome, s, w);
    MovedWorker(s.workers, w, worker);
    ErrorsNext(outcome, s.calls, index);
  }

  lemma ConservedMeans(outcome: Outcome, s: Pool)
    ensures Conserved(outcome, s) <==>
      && multiset(s.calls) + BusyIndices(s.workers) == Upto(s.next)
      && multiset(s.errs) + PendingErrors(s.workers) == multiset(ErrorsOf(outcome, s.calls))
  {
  }

  lemma FinishShape(outcome: Outcome, s: Pool, w: nat) returns (index: nat, worker: Worker)
    requires Enabled(s, Finish(w))
    ensures w < |s.workers| && IndexOf(s.workers[w]) == multiset{index} && ErrorOf(s.workers[w]) == multiset{}
    ensures IndexOf(worker) == multiset{}
    ensures ErrorOf(worker) == multiset(OneError(outcome, index))
    ensures var t := Do(outcome, s, Finish(w));
      t.workers == s.workers[w := worker] && t.calls == s.calls + [index] && t.errs == s.errs && t.next == s.next
  {
    hide AllExited;
    index := s.workers[w].index;
    worker := match outcome(index) case None => Idle case Some(e) => Sending(e);
  }

  lemma ErrorsNext(outcome: Outcome, calls: seq<nat>, index: nat)
    ensures ErrorsOf(outcome, calls + [index]) == ErrorsOf(outcome, calls) + OneError(outcome, index)
  {
  }

  lemma {:induction false} IdleWorkers(n: nat)
    ensures BusyIndices(seq(n, _ => Idle)) == multiset{}
    ensures PendingErrors(seq(n, _ => Idle)) == multiset{}
    ensures TotalWeight(seq(n, _ => Idle)) == n
  {
    if n > 0 {
      var workers: seq<Worker> := seq(n, _ => Idle);
      assert workers[1..] == seq(n - 1, _ => Idle);
      IdleWorkers(n - 1);
    }
  }

  lemma StartInv(outcome: Outcome, total: nat, workerCount: nat)
    requires 0 < workerCount
    ensures Inv(outcome, Start(total, workerCount))
  {
    IdleWorkers(workerCount);
  }

  lemma InvStep(outcome: Outcome, s: Pool, c: Choice)
    requires Inv(outcome, s) && Enabled(s, c)
    ensures Inv(outcome, Do(outcome, s, c))
  {
    hide Conserved;
    ConservedStep(outcome, s, c);
  }

  /* ----- sends never block, and something can always happen ----- */

  lemma {:induction false} ErrorsAtMostCalls(outcome: Outcome, calls: seq<nat>)
    ensures |ErrorsOf(outcome, calls)| <= |calls|
  {
    if calls != [] {
      ErrorsAtMostCalls(outcome, calls[..|calls| - 1]);
    }
  }

  lemma {:induction false} UptoCounts(n: nat)
    ensures |Upto(n)| == n
    ensures forall i: nat :: Upto(n)[i] == if i < n then 1 else 0
  {
    if n > 0 {
      UptoCounts(n - 1);
    }
  }

  lemma {:induction false} PendingError(workers: seq<Worker>, w: nat)
    requires w < |workers| && workers[w].Sending?
    ensures workers[w].error in PendingErrors(workers)
  {
    if w > 0 {
      PendingError(workers[1..], w - 1);
    }
  }

  /** The error channel holds `total` errors, and no more than that are ever sent. */
  lemma SendNeverBlocks(outcome: Outcome, s: Pool, w: nat)
    requires Inv(outcome, s) && w < |s.workers| && s.workers[w].Sending?
    ensures Enabled(s, Send(w))
  {
    hide BusyIndices, PendingErrors, Upto, ErrorsOf;
    var errors := ErrorsOf(outcome, s.calls);
    PendingError(s.workers, w);
    UptoCounts(s.next);
    ErrorsAtMostCalls(outcome, s.calls);
    var sent, pending := multiset(s.errs), PendingErrors(s.workers);
    assert |sent + pending| == |sent| + |pending| && |pending| >= 1;
    assert |multiset(errors)| == |errors| && |sent| == |s.errs|;
    assert |multiset(s.calls)| == |s.calls|;
    assert |multiset(s.calls) + BusyIndices(s.workers)| == |s.calls| + |BusyIndices(s.workers)|;
  }

  /** The step of the first worker that is still alive, or the dispatcher's. */
  function NextStep(s: Pool): Choice
    requires 0 < |s.workers|
  {
    LiveStep(s, |s.workers|)
  }

  function LiveStep(s: Pool, n: nat): Choice
    requires n <= |s.workers| && 0 < |s.workers|
  {
    if n == 0 then
      (if s.stage.Draining? then Return else if s.next < s.total then Dispatch(0) else Close)
    else match s.workers[n - 1]
      case Busy(_) => Finish(n - 1)
      case Sending(_) => Send(n - 1)
      case Idle => if s.stage.Draining? then Exit(n - 1) else LiveStep(s, n - 1)
      case Exited => LiveStep(s, n - 1)
  }

  lemma {:induction false} LiveStepEnabled(outcome: Outcome, s: Pool, n: nat)
    requires Inv(outcome, s) && !s.stage.Returned? && n <= |s.workers|
    requires forall w :: n <= w < |s.workers| ==> s.workers[w].Exited? || (s.workers[w].Idle? && s.stage.Dispatching?)
    ensures Enabled(s, LiveStep(s, n)) && LiveStep(s, n) != Cancel
    decreases n
  {
    hide Conserved;
    if n > 0 {
      match s.workers[n - 1]
      case Sending(_) => SendNeverBlocks(outcome, s, n - 1);
      case Busy(_) =>
      case _ =>
        if !(s.workers[n - 1].Idle? && s.stage.Draining?) {
          LiveStepEnabled(outcome, s, n - 1);
        }
    }
  }

  /** Until Run returns, some step other than an outside cancellation is possible. */
  lemma Progress(outcome: Outcome, s: Pool)
    requires Inv(outcome, s) && !s.stage.Returned?
    ensures Enabled(s, NextStep(s)) && NextStep(s) != Cancel
  {
    LiveStepEnabled(outcome, s, |s.workers|);
  }

  /** Undispatched indices, the dispatcher's stages, a possible cancellation. */
  function Cost(s: Pool): nat
    requires s.next <= s.total
  {
    3 * (s.total - s.next)
    + (match s.stage case Dispatching => 2 case Draining => 1 case Returned => 0)
    + (if s.cancelled then 0 else 1)
  }

  /** The above, and busy and live workers. */
  function Measure(s: Pool): nat
    requires s.next <= s.total
  {
    Cost(s) + TotalWeight(s.workers)
  }

  lemma CostDecreases(outcome: Outcome, s: Pool, c: Choice)
    requires s.next <= s.total && Enabled(s, c)
    ensures var t := Do(outcome, s, c);
      t.next <= s.total && t.total == s.total &&
      match Moved(outcome, s, c)
      case None => Cost(t) < Cost(s)
      case Some((w, worker)) => w < |s.workers| && Cost(t) + Weight(worker) < Cost(s) + Weight(s.workers[w])
  {
    hide AllExited;
  }

  lemma MeasureDecreases(outcome: Outcome, s: Pool, c: Choice)
    requires s.next <= s.total && Enabled(s, c)
    ensures Do(outcome, s, c).next <= Do(outcome, s, c).total && Measure(Do(outcome, s, c)) < Measure(s)
  {
    hide Do, Enabled, Moved, Cost, TotalWeight, Weight;
    StepMoves(outcome, s, c);
    CostDecreases(outcome, s, c);
    match Moved(outcome, s, c)
    case None =>
    case Some((w, worker)) => AfterBecome(s.workers, w, worker);
  }

  /* ----- whole runs ----- */

  function Exec(outcome: Outcome, s: Pool, schedule: seq<Choice>): Option<Pool> {
    if schedule == [] then Some(s)
    else match Exec(outcome, s, schedule[..|schedule| - 1])
      case None => None
      case Some(m) =>
        var c := schedule[|schedule| - 1];
        if Enabled(m, c) then Some(Do(outcome, m, c)) else None
  }

  lemma {:induction false} Reachable(outcome: Outcome, s: Pool, schedule: seq<Choice>)
    requires Inv(outcome, s) && Exec(outcome, s, schedule).Some?
    ensures var t := Exec(outcome, s, schedule).value;
      Inv(outcome, t) && t.total == s.total && |schedule| + Measure(t) <= Measure(s)
  {
    hide Inv, Enabled, Do, Measure;
    if schedule != [] {
      var init, c := schedule[..|schedule| - 1], schedule[|schedule| - 1];
      Reachable(outcome, s, init);
      var m := Exec(outcome, s, init).value;
      InvBounds(outcome, m);
      InvStep(outcome, m, c);
      MeasureDecreases(outcome, m, c);
      SameTotal(outcome, m, c);
    } else {
      InvBounds(outcome, s);
    }
  }

  lemma InvBounds(outcome: Outcome, s: Pool)
    requires Inv(outcome, s)
    ensures s.next <= s.total
  {
  }

  lemma SameTotal(outcome: Outcome, s: Pool, c: Choice)
    requires Enabled(s, c)
    ensures Do(outcome, s, c).total == s.total
  {
  }

  lemma {:induction false} ExitedHoldNothing(workers: seq<Worker>)
    requires forall w :: 0 <= w < |workers| ==> workers[w].Exited?
    ensures BusyIndices(workers) == multiset{} && PendingErrors(workers) == multiset{}
  {
    if workers != [] {
      ExitedHoldNothing(workers[1..]);
    }
  }

  /** 0, 1, ..., n - 1: the order of the sequential loop. */
  function Range(n: nat): seq<nat> {
    if n == 0 then [] else Range(n - 1) + [n - 1]
  }

  lemma {:induction false} RangeIsUpto(n: nat)
    ensures multiset(Range(n)) == Upto(n)
  {
    if n > 0 {
      RangeIsUpto(n - 1);
    }
  }

  /** The last call of one order, found in another. */
  lemma RemoveOne(a: seq<nat>, b: seq<nat>) returns (k: nat)
    requires a != [] && multiset(a) == multiset(b)
    ensures k < |b| && b[k] == a[|a| - 1] && b == b[..k] + [a[|a| - 1]] + b[k + 1..]
    ensures multiset(a[..|a| - 1]) == multiset(b[..k] + b[k + 1..])
  {
    var init, last := a[..|a| - 1], a[|a| - 1];
    assert a == init + [last];
    assert last in multiset(b);
    k :| 0 <= k < |b| && b[k] == last;
    assert b == b[..k] + [last] + b[k + 1..];
    assert multiset(b) == multiset(b[..k]) + multiset{last} + multiset(b[k + 1..]);
    assert multiset(init) == multiset(a) - multiset{last};
    assert multiset(b[..k] + b[k + 1..]) == multiset(b) - multiset{last};
  }

  /** The errors of a list of calls do not depend on the order of the calls. */
  lemma {:induction false} ErrorsAnyOrder(outcome: Outcome, a: seq<nat>, b: seq<nat>)
    requires multiset(a) == multiset(b)
    ensures multiset(ErrorsOf(outcome, a)) == multiset(ErrorsOf(outcome, b))
  {
    if a == [] {
      assert |b| == |multiset(b)| == 0;
    } else {
      hide ErrorsOf, OneError;
      var init, last := a[..|a| - 1], a[|a| - 1];
      var k := RemoveOne(a, b);
      assert a == init + [last];
      ErrorsNext(outcome, init, last);
      ErrorsAnyOrder(outcome, init, b[..k] + b[k + 1..]);
      ErrorsAround(outcome, b[..k], last, b[k + 1..]);
    }
  }

  lemma {:induction false} ErrorsAround(outcome: Outcome, a: seq<nat>, x: nat, b: seq<nat>)
    ensures multiset(ErrorsOf(outcome, a + [x] + b)) == multiset(ErrorsOf(outcome, a + b)) + multiset(OneError(outcome, x))
  {
    hide ErrorsOf, OneError;
    if b == [] {
      assert a + [x] + b == a + [x] && a + b == a;
      ErrorsNext(outcome, a, x);
    } else {
      var init, last := b[..|b| - 1], b[|b| - 1];
      assert a + [x] + b == (a + [x] + init) + [last] && a + b == (a + init) + [last];
      ErrorsNext(outcome, a + [x] + init, last);
      ErrorsNext(outcome, a + init, last);
      ErrorsAround(outcome, a, x, init);
    }
  }

  /**
   * What every run that has returned has done, whatever the interleaving: the indices
   * 0 .. next - 1 were each processed once and no others, and the joined errors are those
   * of the sequential loop over the same indices. It was aborted exactly if next is not total.
   */
  lemma RefinesSequentialLoop(outcome: Outcome, s: Pool)
    requires Inv(outcome, s) && s.stage.Returned?
    ensures multiset(s.calls) == Upto(s.next)
    ensures forall i: nat :: multiset(s.calls)[i] == if i < s.next then 1 else 0
    ensures multiset(s.errs) == multiset(ErrorsOf(outcome, Range(s.next)))
    ensures s.next <= s.total && (s.next < s.total <==> s.aborted) && (s.aborted ==> s.cancelled)
  {
    hide BusyIndices, PendingErrors, Upto, ErrorsOf, Range;
    ExitedHoldNothing(s.workers);
    UptoCounts(s.next);
    RangeIsUpto(s.next);
    ErrorsAnyOrder(outcome, s.calls, Range(s.next));
  }

  /** No schedule is longer than the measure of its first state. */
  lemma NoEndlessRun(outcome: Outcome, total: nat, workerCount: nat, schedule: seq<Choice>)
    requires 0 < workerCount && Exec(outcome, Start(total, workerCount), schedule).Some?
    ensures |schedule| <= 3 * total + workerCount + 3
  {
    hide Inv, Exec, BusyIndices, PendingErrors, TotalWeight;
    StartInv(outcome, total, workerCount);
    IdleWorkers(workerCount);
    Reachable(outcome, Start(total, workerCount), schedule);
  }

  /** A run that was not cancelled processes everything and reports exactly the sequential errors. */
  lemma UncancelledRun(outcome: Outcome, total: nat, workerCount: nat, schedule: seq<Choice>)
    requires 0 < workerCount && Exec(outcome, Start(total, workerCount), schedule).Some?
    requires var t := Exec(outcome, Start(total, workerCount), schedule).value; t.stage.Returned? && !t.cancelled
    ensures var t := Exec(outcome, Start(total, workerCount), schedule).value;
      && (forall i: nat :: multiset(t.calls)[i] == if i < total then 1 else 0)
      && multiset(t.errs) == multiset(ErrorsOf(outcome, Range(total)))
  {
    hide Inv, Exec, Upto, ErrorsOf, Range;
    StartInv(outcome, total, workerCount);
    Reachable(outcome, Start(total, workerCount), schedule);
    RefinesSequentialLoop(outcome, Exec(outcome, Start(total, workerCount), schedule).value);
  }

  /* ----- the joined errors ----- */

  /** How many of the indices 0 .. n - 1 fail with an error. */
  function Failing(outcome: Outcome, e: Error, n: nat): nat {
    if n == 0 then 0 else Failing(outcome, e, n - 1) + if outcome(n - 1) == Some(e) then 1 else 0
  }

  lemma RangeNext(n: nat)
    ensures Range(n + 1) == Range(n) + [n]
  {
  }

  lemma OneErrorCounts(outcome: Outcome, index: nat, e: Error)
    ensures multiset(OneError(outcome, index))[e] == if outcome(index) == Some(e) then 1 else 0
  {
  }

  lemma CountOfConcat(a: seq<Error>, b: seq<Error>, e: Error)
    ensures multiset(a + b)[e] == multiset(a)[e] + multiset(b)[e]
  {
  }

  /** How many of them fail at all. */
  function FailingAtAll(outcome: Outcome, n: nat): nat {
    if n == 0 then 0 else FailingAtAll(outcome, n - 1) + if outcome(n - 1).Some? then 1 else 0
  }

  lemma {:induction false} ErrorsAreCounted(outcome: Outcome, n: nat)
    ensures |ErrorsOf(outcome, Range(n))| == FailingAtAll(outcome, n)
  {
    hide ErrorsOf, Range;
    if n == 0 {
      NoErrors(outcome);
    } else {
      RangeNext(n - 1);
      ErrorsNext(outcome, Range(n - 1), n - 1);
      ErrorsAreCounted(outcome, n - 1);
    }
  }

  lemma NoErrors(outcome: Outcome)
    ensures ErrorsOf(outcome, Range(0)) == []
  {
  }

  /** Every failing index contributes its own error once, and nothing else is joined. */
  lemma {:induction false} ErrorsAreFailures(outcome: Outcome, n: nat, e: Error)
    ensures multiset(ErrorsOf(outcome, Range(n)))[e] == Failing(outcome, e, n)
  {
    hide ErrorsOf, OneError, Range;
    if n == 0 {
      NoErrors(outcome);
    } else {
      RangeNext(n - 1);
      ErrorsNext(outcome, Range(n - 1), n - 1);
      ErrorsAreFailures(outcome, n - 1, e);
      OneErrorCounts(outcome, n - 1, e);
      CountOfConcat(ErrorsOf(outcome, Range(n - 1)), OneError(outcome, n - 1), e);
    }
  }

  /** An error is joined if and only if some processed index failed with it. */
  lemma {:induction false} SomeFailure(outcome: Outcome, n: nat, e: Error)
    ensures Failing(outcome, e, n) > 0 <==> exists i :: 0 <= i < n && outcome(i) == Some(e)
  {
    if n > 0 {
      SomeFailure(outcome, n - 1, e);
      if outcome(n - 1) != Some(e) && exists i :: 0 <= i < n && outcome(i) == Some(e) {
        var i :| 0 <= i < n && outcome(i) == Some(e);
        assert i < n - 1;
      }
    }
  }

  /** In the sequential order, the error of an index comes after those of the indices before it. */
  lemma {:induction false} ErrorsInOrder(outcome: Outcome, n: nat, i: nat)
    requires i < n && outcome(i).Some?
    ensures FailingAtAll(outcome, i) < |ErrorsOf(outcome, Range(n))|
    ensures ErrorsOf(outcome, Range(n))[FailingAtAll(outcome, i)] == outcome(i).value
  {
    hide ErrorsOf, Range, FailingAtAll;
    RangeNext(n - 1);
    ErrorsNext(outcome, Range(n - 1), n - 1);
    ErrorsAreCounted(outcome, n - 1);
    if i < n - 1 {
      ErrorsInOrder(outcome, n - 1, i);
    }
  }

  /* ----- how many callbacks run at once ----- */

  function BusyCount(workers: seq<Worker>): (n: nat)
    ensures n <= |workers|
  {
    if workers == [] then 0 else BusyCount(workers[1..]) + if workers[0].Busy? then 1 else 0
  }

  lemma SameWorkers(outcome: Outcome, s: Pool, c: Choice)
    requires Enabled(s, c)
    ensures |Do(outcome, s, c).workers| == |s.workers|
  {
  }

  /* ----- the pool object ----- */

  /** A Go error: nil is the empty list; the context error is kept apart from the callbacks' errors. */
  datatype Joined = Joined(context: bool, errors: seq<Error>)

  /** The scheduler never cancels. */
  ghost predicate NeverCancels(pick: Pool -> Choice) {
    forall s :: !pick(s).Cancel?
  }

  /** Exactly the errors of the callbacks of the indices 0 .. n - 1, each as often as it occurs. */
  ghost predicate JoinsFailures(outcome: Outcome, joined: Joined, n: nat) {
    && |joined.errors| == FailingAtAll(outcome, n)
    && forall e ::
         && multiset(joined.errors)[e] == Failing(outcome, e, n)
         && (e in joined.errors <==> exists i :: 0 <= i < n && outcome(i) == Some(e))
  }

  lemma NothingRun(outcome: Outcome)
    ensures JoinsFailures(outcome, Joined(false, []), 0)
    ensures multiset([]) == Upto(0) && ErrorsOf(outcome, Range(0)) == []
  {
    NoErrors(outcome);
    FailuresOfRange(outcome, Joined(false, []), 0);
  }

  class PoolRunner {
    const workers: nat

    constructor (workers: int)
      ensures this.workers >= 1 && (workers >= 1 ==> this.workers == workers)
    {
      this.workers := if workers <= 0 then 1 else workers;
    }

    /**
     * Run under any scheduler: `pick` proposes the next step of the concurrent branch
     * and is overruled when its step is not possible. The loop always ends. `peak` is the
     * largest number of callbacks that ran at the same time.
     */
    method Run(total: int, outcome: Outcome, pick: Pool -> Choice) returns (joined: Joined, calls: seq<nat>, ghost peak: nat)
      ensures peak <= (if workers <= 1 then 1 else workers) && (total >= 0 ==> peak <= total)
      ensures total <= 0 ==> calls == [] && joined == Joined(false, [])
      ensures forall i: nat :: multiset(calls)[i] == if i < |calls| then 1 else 0
      ensures multiset(calls) == Upto(|calls|)
      ensures total >= 0 ==> |calls| <= total
      ensures multiset(joined.errors) == multiset(ErrorsOf(outcome, Range(|calls|)))
      ensures total >= 0 ==> (joined.context <==> |calls| < total)
      ensures NeverCancels(pick) ==> !joined.context
      ensures JoinsFailures(outcome, joined, |calls|)
      ensures total > 0 && (workers <= 1 || total == 1) ==> joined == Joined(false, ErrorsOf(outcome, Range(total)))
    {
      hide *;
      peak := 0;
      if total <= 0 {
        NothingRun(outcome);
        return Joined(false, []), [], peak;
      }
      if workers <= 1 || total == 1 {
        joined, calls := RunSequential(total, outcome);
        FailuresOfRange(outcome, joined, total);
        peak := 1;
        return;
      }
      joined, calls, peak := RunConcurrent(total, if total < workers then total else workers, outcome, pick);
    }

    method RunSequential(total: nat, outcome: Outcome) returns (joined: Joined, calls: seq<nat>)
      ensures calls == Range(total) && |calls| == total
      ensures joined == Joined(false, ErrorsOf(outcome, Range(total)))
      ensures multiset(calls) == Upto(total) && forall i: nat :: multiset(calls)[i] == if i < total then 1 else 0
    {
      calls := [];
      var errors: seq<Error> := [];
      for index := 0 to total
        invariant calls == Range(index) && |calls| == index && errors == ErrorsOf(outcome, calls)
      {
        assert (calls + [index])[..|calls|] == calls;
        calls := calls + [index];
        match outcome(index)
        case Some(e) => errors := errors + [e];
        case None =>
      }
      joined := Joined(false, errors);
      RangeIsUpto(total);
      UptoCounts(total);
    }

    method RunConcurrent(total: nat, workerCount: nat, outcome: Outcome, pick: Pool -> Choice)
      returns (joined: Joined, calls: seq<nat>, ghost peak: nat)
      requires 0 < workerCount
      ensures peak <= workerCount
      ensures |calls| <= total && (joined.context <==> |calls| < total) && (NeverCancels(pick) ==> !joined.context)
      ensures JoinsFailures(outcome, joined, |calls|)
      ensures multiset(calls) == Upto(|calls|) && forall i: nat :: multiset(calls)[i] == if i < |calls| then 1 else 0
      ensures multiset(joined.errors) == multiset(ErrorsOf(outcome, Range(|calls|)))
    {
      hide Inv, Enabled, Do, Measure, NextStep;
      var s := Start(total, workerCount);
      StartInv(outcome, total, workerCount);
      InvBounds(outcome, s);
      peak := 0;
      while !s.stage.Returned?
        invariant Inv(outcome, s) && s.total == total && s.next <= s.total
        invariant NeverCancels(pick) ==> !s.cancelled
        invariant peak <= workerCount == |s.workers|
        decreases Measure(s)
      {
        var c := pick(s);
        if !Enabled(s, c) {
          Progress(outcome, s);
          HasWorkers(outcome, s);
          c := NextStep(s);
        }
        InvStep(outcome, s, c);
        MeasureDecreases(outcome, s, c);
        SameTotal(outcome, s, c);
        SameWorkers(outcome, s, c);
        OnlyCancelCancels(outcome, s, c);
        s := Do(outcome, s, c);
        peak := if BusyCount(s.workers) > peak then BusyCount(s.workers) else peak;
      }
      RefinesSequentialLoop(outcome, s);
      UptoCounts(s.next);
      assert |s.calls| == |multiset(s.calls)|;
      joined, calls := Joined(s.aborted, s.errs), s.calls;
      FailuresOfRange(outcome, joined, |calls|);
    }
  }

  lemma FailuresOfRange(outcome: Outcome, joined: Joined, n: nat)
    requires multiset(joined.errors) == multiset(ErrorsOf(outcome, Range(n)))
    ensures JoinsFailures(outcome, joined, n)
  {
    hide ErrorsOf, Range;
    ErrorsAreCounted(outcome, n);
    assert |multiset(joined.errors)| == |joined.errors| && |multiset(ErrorsOf(outcome, Range(n)))| == |ErrorsOf(outcome, Range(n))|;
    forall e
      ensures multiset(joined.errors)[e] == Failing(outcome, e, n)
      ensures e in joined.errors <==> exists i :: 0 <= i < n && outcome(i) == Some(e)
    {
      ErrorsAreFailures(outcome, n, e);
      SomeFailure(outcome, n, e);
      assert e in joined.errors <==> e in multiset(joined.errors);
    }
  }

  lemma OnlyCancelCancels(outcome: Outcome, s: Pool, c: Choice)
    requires Enabled(s, c)
    ensures Do(outcome, s, c).cancelled <==> s.cancelled || c.Cancel?
  {
  }

  lemma HasWorkers(outcome: Outcome, s: Pool)
    requires Inv(outcome, s)
    ensures 0 < |s.workers|
  {
  }
}
