/**
 * Processing one job (internal/engine/processor.go): what one datapoint contributes,
 * and an account of the whole job that does not depend on the order of completion.
 */
module Processor {
  import opened Prelude
  import opened Domain
  import opened WorkerPool

  /* ----- one datapoint ----- */

  type ApplyPlan = MutationPlan -> Result<Totals, Error>

  const NO_REPOSITORY: Error := "neo4j repository is not configured"

  /**
   * processDatapoint for a planner result, an optional repository and the result of
   * sleepIfNeeded. A failed sleep is an error although the plan has been applied.
   */
  method ProcessDatapoint(planned: Result<MutationPlan, Error>, dryRun: bool, repository: Option<ApplyPlan>, slept: Option<Error>)
    returns (stats: Totals, err: Option<Error>, applied: bool)
    ensures applied <==> planned.Ok? && !dryRun && repository.Some? && repository.value(planned.value).Ok?
    ensures err.None? <==> planned.Ok? && slept.None? && (dryRun || applied)
    ensures err.None? && dryRun ==>
      && stats.nodesSkipped == |planned.value.nodes| && stats.relsSkipped == |planned.value.relationships|
      && stats.nodesCreated == stats.nodesUpdated == 0 && stats.relsCreated == stats.relsUpdated == 0
    ensures err.None? && !dryRun ==> stats == repository.value(planned.value).value
    ensures planned.Err? ==> err == Some(planned.error)
    ensures planned.Ok? && !dryRun && repository.None? ==> err == Some(NO_REPOSITORY)
    ensures planned.Ok? && !dryRun && repository.Some? && !applied ==> err == Some(repository.value(planned.value).error)
    ensures planned.Ok? && (dryRun || applied) ==> err == slept
  {
    stats, applied := Zero(), false;
    if planned.Err? {
      return stats, Some(planned.error), applied;
    }
    var plan := planned.value;
    if dryRun {
      stats := stats.(nodesSkipped := stats.nodesSkipped + |plan.nodes|);
      stats := stats.(relsSkipped := stats.relsSkipped + |plan.relationships|);
      if slept.Some? {
        return stats, slept, applied;
      }
      return stats, None, applied;
    }
    if repository.None? {
      return stats, Some(NO_REPOSITORY), applied;
    }
    var result := repository.value(plan);
    if result.Err? {
      return stats, Some(result.error), applied;
    }
    applied := true;
    if slept.Some? {
      return result.value, slept, applied;
    }
    return result.value, None, applied;
  }

  /* ----- the account of a job ----- */

  type Results = nat -> Result<Totals, Error>

  datatype Tally = Tally(errors: nat, successes: nat, applied: Totals, joined: seq<Error>)

  function WithResult(t: Tally, r: Result<Totals, Error>): Tally {
    match r
    case Ok(totals) => t.(successes := t.successes + 1, applied := Plus(t.applied, totals))
    case Err(e) => t.(errors := t.errors + 1, joined := t.joined + [e])
  }

  /** The account after the datapoints of `calls` have finished in that order. */
  function Account(results: Results, calls: seq<nat>): Tally {
    if calls == [] then Tally(0, 0, Zero(), [])
    else WithResult(Account(results, calls[..|calls| - 1]), results(calls[|calls| - 1]))
  }

  /** Equal up to the order of the joined errors. */
  ghost predicate SameTally(a: Tally, b: Tally) {
    a.errors == b.errors && a.successes == b.successes && a.applied == b.applied && multiset(a.joined) == multiset(b.joined)
  }

  lemma AccountNext(results: Results, calls: seq<nat>, index: nat)
    ensures Account(results, calls + [index]) == WithResult(Account(results, calls), results(index))
  {
  }

  lemma PlusCommutes(a: Totals, b: Totals, c: Totals)
    ensures Plus(Plus(a, b), c) == Plus(Plus(a, c), b)
  {
  }

  lemma ErrorsCommute(joined: seq<Error>, more: seq<Error>, x: Error, y: Error)
    requires multiset(joined) == multiset(more + [x])
    ensures multiset(joined + [y]) == multiset(more + [y] + [x])
  {
    assert multiset(more + [y] + [x]) == multiset(more) + multiset{y} + multiset{x};
  }

  lemma ResultsCommute(a: Tally, b: Tally, x: Result<Totals, Error>, y: Result<Totals, Error>)
    requires SameTally(a, WithResult(b, x))
    ensures SameTally(WithResult(a, y), WithResult(WithResult(b, y), x))
  {
    hide Plus;
    match (x, y)
    case (Ok(t), Ok(u)) => PlusCommutes(b.applied, t, u);
    case (Err(e), Err(g)) => ErrorsCommute(a.joined, b.joined, e, g);
    case _ =>
  }

  lemma {:induction false} AccountAround(results: Results, a: seq<nat>, x: nat, b: seq<nat>)
    ensures SameTally(Account(results, a + [x] + b), WithResult(Account(results, a + b), results(x)))
  {
    hide Account, WithResult;
    if b == [] {
      assert a + [x] + b == a + [x] && a + b == a;
      AccountNext(results, a, x);
    } else {
      var init, last := b[..|b| - 1], b[|b| - 1];
      assert a + [x] + b == (a + [x] + init) + [last] && a + b == (a + init) + [last];
      AccountNext(results, a + [x] + init, last);
      AccountNext(results, a + init, last);
      AccountAround(results, a, x, init);
      ResultsCommute(Account(results, a + [x] + init), Account(results, a + init), results(x), results(last));
    }
  }

  lemma SameTallyNext(a: Tally, b: Tally, x: Result<Totals, Error>)
    requires SameTally(a, b)
    ensures SameTally(WithResult(a, x), WithResult(b, x))
  {
  }

  /** Statistics and errors do not depend on the order in which datapoints finish. */
  lemma {:induction false} AccountAnyOrder(results: Results, a: seq<nat>, b: seq<nat>)
    requires multiset(a) == multiset(b)
    ensures SameTally(Account(results, a), Account(results, b))
  {
    if a == [] {
      assert |b| == |multiset(b)| == 0;
    } else {
      var init, last := a[..|a| - 1], a[|a| - 1];
      var k := RemoveOne(a, b);
      hide Account, WithResult;
      assert a == init + [last];
      AccountNext(results, init, last);
      AccountAnyOrder(results, init, b[..k] + b[k + 1..]);
      AccountAround(results, b[..k], last, b[k + 1..]);
      SameTallyNext(Account(results, init), Account(results, b[..k] + b[k + 1..]), results(last));
    }
  }

  /** Every finished datapoint is an error or a success, and every error is reported. */
  lemma {:induction false} EveryDatapointCounted(results: Results, calls: seq<nat>)
    ensures var t := Account(results, calls);
      t.errors + t.successes == |calls| && |t.joined| == t.errors
  {
    if calls != [] {
      EveryDatapointCounted(results, calls[..|calls| - 1]);
    }
  }

  /* ----- what the account says, index by index ----- */

  /** One counter, summed over the indices 0 .. n - 1 that were applied. */
  function SumOver(results: Results, counter: Totals -> nat, n: nat): nat {
    if n == 0 then 0
    else SumOver(results, counter, n - 1) + match results(n - 1) case Ok(totals) => counter(totals) case Err(_) => 0
  }

  /** Each of the six counters is the sum of that counter over the applied datapoints. */
  predicate SumsUp(results: Results, applied: Totals, n: nat) {
    && applied.nodesCreated == SumOver(results, (t: Totals) => t.nodesCreated, n)
    && applied.nodesUpdated == SumOver(results, (t: Totals) => t.nodesUpdated, n)
    && applied.nodesSkipped == SumOver(results, (t: Totals) => t.nodesSkipped, n)
    && applied.relsCreated == SumOver(results, (t: Totals) => t.relsCreated, n)
    && applied.relsUpdated == SumOver(results, (t: Totals) => t.relsUpdated, n)
    && applied.relsSkipped == SumOver(results, (t: Totals) => t.relsSkipped, n)
  }

  lemma {:induction false} AccountSumsUp(results: Results, n: nat)
    ensures SumsUp(results, Account(results, Range(n)).applied, n)
  {
    hide Account, Range;
    if n > 0 {
      RangeNext(n - 1);
      AccountNext(results, Range(n - 1), n - 1);
      AccountSumsUp(results, n - 1);
    } else {
      NothingAccounted(results);
    }
  }

  /** What fails, as the pool would see it. */
  function FailureOf(results: Results): Outcome {
    (index: nat) => match results(index) case Ok(_) => None case Err(e) => Some(e)
  }

  /** The number of failed datapoints, and their errors, each as often as it occurs. */
  ghost predicate ReportsErrors(results: Results, errors: nat, joined: seq<Error>, n: nat) {
    errors == FailingAtAll(FailureOf(results), n) && JoinsFailures(FailureOf(results), Joined(false, joined), n)
  }

  lemma NothingAccounted(results: Results)
    ensures Account(results, Range(0)) == Tally(0, 0, Zero(), []) && ErrorsOf(FailureOf(results), Range(0)) == []
  {
  }

  lemma {:induction false} AccountErrors(results: Results, n: nat)
    ensures Account(results, Range(n)).joined == ErrorsOf(FailureOf(results), Range(n))
    ensures Account(results, Range(n)).errors == FailingAtAll(FailureOf(results), n)
  {
    hide Account, ErrorsOf, Range;
    if n > 0 {
      RangeNext(n - 1);
      AccountNext(results, Range(n - 1), n - 1);
      ErrorsNext(FailureOf(results), Range(n - 1), n - 1);
      AccountErrors(results, n - 1);
    } else {
      NothingAccounted(results);
    }
  }

  /** In whatever order the errors were joined. */
  lemma AccountReportsErrors(results: Results, n: nat, joined: seq<Error>)
    requires multiset(joined) == multiset(Account(results, Range(n)).joined)
    ensures ReportsErrors(results, Account(results, Range(n)).errors, joined, n)
  {
    hide Account, ErrorsOf, Range, JoinsFailures, FailingAtAll;
    AccountErrors(results, n);
    FailuresOfRange(FailureOf(results), Joined(false, joined), n);
  }

  /* ----- the shared state of ProcessJob ----- */

  class JobAccount {
    const datapoints: nat
    var errors: nat
    const applied: ApplyStats
    var joined: seq<Error>

    constructor (datapoints: nat)
      ensures this.datapoints == datapoints && errors == 0 && joined == []
      ensures fresh(applied) && applied.Value() == Zero()
    {
      this.datapoints, errors, joined := datapoints, 0, [];
      applied := new ApplyStats();
    }

    /** The section that the callback runs under the mutex. */
    method Record(result: Result<Totals, Error>)
      modifies this, applied
      ensures match result
        case Err(e) => errors == old(errors) + 1 && joined == old(joined) + [e] && applied.Value() == old(applied.Value())
        case Ok(totals) => errors == old(errors) && joined == old(joined) && applied.Value() == Plus(old(applied.Value()), totals)
    {
      match result
      case Err(e) =>
        errors := errors + 1;
        joined := joined + [e];
      case Ok(totals) =>
        applied.MergeWith(totals);
    }
  }

  datatype JobReport = JobReport(datapoints: nat, errors: nat, applied: Totals, joined: Joined)

  lemma {:induction false} NilErrors(calls: seq<nat>)
    ensures ErrorsOf(_ => None, calls) == []
  {
    if calls != [] {
      NilErrors(calls[..|calls| - 1]);
    }
  }

  /**
   * ProcessJob for a collector that returns `queried` datapoints, under any scheduling of
   * the pool. `dispatched` is the length of the prefix that was processed: all of the
   * datapoints unless the context was cancelled.
   */
  method ProcessJob(queried: Result<nat, Error>, results: Results, pool: PoolRunner, pick: Pool -> Choice)
    returns (r: Result<JobReport, Error>, ghost dispatched: nat)
    ensures queried.Err? ==> r == Err(queried.error)
    ensures queried.Ok? ==> r.Ok? && r.value.datapoints == queried.value
    ensures r.Ok? ==> dispatched <= r.value.datapoints && (r.value.joined.context <==> dispatched < r.value.datapoints)
    ensures r.Ok? && NeverCancels(pick) ==> dispatched == r.value.datapoints && !r.value.joined.context
    ensures r.Ok? ==> SumsUp(results, r.value.applied, dispatched)
    ensures r.Ok? ==> ReportsErrors(results, r.value.errors, r.value.joined.errors, dispatched)
    ensures r.Ok? ==> r.value.errors + Account(results, Range(dispatched)).successes == dispatched
  {
    dispatched := 0;
    if queried.Err? {
      return Err(queried.error), dispatched;
    }
    var account := new JobAccount(queried.value);
    var joined, calls, _ := pool.Run(queried.value, _ => None, pick);
    NilErrors(Range(|calls|));
    assert joined.errors == [] by {
      assert |joined.errors| == |multiset(joined.errors)|;
    }
    RecordAll(account, results, calls);
    dispatched := |calls|;
    RangeIsUpto(dispatched);
    AccountAnyOrder(results, calls, Range(dispatched));
    EveryDatapointCounted(results, calls);
    AccountSumsUp(results, dispatched);
    AccountReportsErrors(results, dispatched, account.joined);
    r := Ok(JobReport(account.datapoints, account.errors, account.applied.Value(), joined.(errors := account.joined)));
  }

  /** The callbacks' critical sections, in the order in which they got the mutex. */
  method RecordAll(account: JobAccount, results: Results, calls: seq<nat>)
    requires account.errors == 0 && account.joined == [] && account.applied.Value() == Zero()
    modifies account, account.applied
    ensures var t := Account(results, calls);
      account.errors == t.errors && account.joined == t.joined && account.applied.Value() == t.applied
  {
    for k := 0 to |calls|
      invariant var t := Account(results, calls[..k]);
        account.errors == t.errors && account.joined == t.joined && account.applied.Value() == t.applied
    {
      assert calls[..k + 1] == calls[..k] + [calls[k]];
      AccountNext(results, calls[..k], calls[k]);
      account.Record(results(calls[k]));
    }
    assert calls[..|calls|] == calls;
  }
}
