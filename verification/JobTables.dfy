/** Jobs, their retries, and the transaction that records a batch of results. */
module JobTables {
  import opened Wrappers

  /** Times are in seconds. */
  datatype Job = Job(
    id: int, args: string, createdAt: int, live: bool, name: string, numErrors: int, tryAt: int)

  datatype JobException = JobException(errors: seq<string>, occurredAt: int)

  datatype JobResult = JobResult(job: Job, e: Option<seq<string>>)

  /** The `job` and `job_exception` tables. Exceptions are keyed by the job they
      belong to, which is unique among them. */
  datatype Tables = Tables(jobs: map<int, Job>, exceptions: map<int, JobException>)

  const MAX_ERRORS := 10
  const MAX_JOBS := 1000
  const I64_MAX := 0x7fff_ffff_ffff_ffff

  // ---- Retries ---------------------------------------------------------------

  function Fourth(n: int): int {
    n * n * n * n
  }

  function NextRetry(numErrors: int): int {
    Fourth(numErrors) + 3
  }

  function CreateErroredJob(job: Job, now: int): Job {
    var numErrors := job.numErrors + 1;
    var live := numErrors < MAX_ERRORS;
    job.(live := live, numErrors := numErrors, tryAt := if live then now + NextRetry(numErrors) else now)
  }

  /** The delays that follow the first `n` failures, added up. */
  function TotalDelay(n: nat): int {
    if n == 0 then 0 else TotalDelay(n - 1) + NextRetry(n)
  }

  lemma FourthStep(n: int)
    ensures var m := n - 1;
            6 * Fourth(n) * n + 15 * Fourth(n) + 10 * n * n * n - n
            == 6 * Fourth(m) * m + 15 * Fourth(m) + 10 * m * m * m - m + 30 * Fourth(n)
  {
    var m := n - 1;
    var n2, n3 := n * n, n * n * n;
    assert m * m == n2 - 2 * n + 1;
    assert m * m * m == n3 - 3 * n2 + 3 * n - 1 by {
      assert (n2 - 2 * n + 1) * m == n2 * n - n2 - 2 * n2 + 2 * n + n - 1;
    }
    assert Fourth(m) == Fourth(n) - 4 * n3 + 6 * n2 - 4 * n + 1 by {
      assert (n3 - 3 * n2 + 3 * n - 1) * m == n3 * n - n3 - 3 * n3 + 3 * n2 + 3 * n2 - 3 * n - n + 1;
    }
    assert Fourth(m) * m == Fourth(n) * n - 5 * Fourth(n) + 10 * n3 - 10 * n2 + 5 * n - 1 by {
      assert (Fourth(n) - 4 * n3 + 6 * n2 - 4 * n + 1) * m
          == Fourth(n) * n - Fourth(n) - 4 * (n3 * n) + 4 * n3 + 6 * (n2 * n) - 6 * n2 - 4 * n2 + 4 * n + n - 1;
      assert n3 * n == Fourth(n) && n2 * n == n3;
    }
  }

  /** The sum of fourth powers in closed form, thirty times over. */
  lemma {:induction false} TotalDelayClosedForm(n: nat)
    ensures 30 * TotalDelay(n) == 6 * Fourth(n) * n + 15 * Fourth(n) + 10 * n * n * n - n + 90 * n
  {
    if n > 0 {
      TotalDelayClosedForm(n - 1);
      FourthStep(n);
    }
  }

  /** The nine delays a job can go through come to 15360 seconds. */
  lemma DelaysBeforeLastAttempt()
    ensures TotalDelay(MAX_ERRORS - 1) == 15360
  {
    TotalDelayClosedForm(9);
  }

  /** The power is only computed for live jobs, hence never overflows. */
  lemma RetryNeverOverflows(job: Job)
    requires job.numErrors >= 0 && CreateErroredJob(job, 0).live
    ensures 4 <= NextRetry(job.numErrors + 1) <= 6564 <= I64_MAX
  {
    var n := job.numErrors + 1;
    assert 1 <= n * n <= 81 by {
      assert n * n <= 9 * n;
    }
    assert Fourth(n) == (n * n) * (n * n);
    assert (n * n) * (n * n) <= 81 * (n * n);
  }

  // ---- Statements --------------------------------------------------------------

  predicate DistinctIds(jobs: seq<Job>) {
    forall i, j :: 0 <= i < j < |jobs| ==> jobs[i].id != jobs[j].id
  }

  function IdSet(jobs: seq<Job>): set<int> {
    set job | job in jobs :: job.id
  }

  function SetOf(ids: seq<int>): set<int> {
    set id | id in ids
  }

  predicate DistinctResults(results: seq<JobResult>) {
    forall i, j :: 0 <= i < j < |results| ==> results[i].job.id != results[j].job.id
  }

  function ResultIds(results: seq<JobResult>): set<int> {
    set r | r in results :: r.job.id
  }

  /** What `ON CONFLICT (id) DO UPDATE` leaves under a job's id. */
  function Merged(jobs: map<int, Job>, row: Job): Job {
    if row.id in jobs then jobs[row.id].(live := row.live, numErrors := row.numErrors, tryAt := row.tryAt) else row
  }

  function UpsertJobs(jobs: map<int, Job>, rows: seq<Job>): map<int, Job> {
    if rows == [] then jobs
    else
      var before := UpsertJobs(jobs, rows[..|rows| - 1]);
      var row := rows[|rows| - 1];
      before[row.id := Merged(before, row)]
  }

  function UpsertExceptions(
    exceptions: map<int, JobException>, errored: seq<JobResult>, now: int
  ): map<int, JobException>
    requires forall r <- errored :: r.e.Some?
  {
    if errored == [] then exceptions
    else
      var r := errored[|errored| - 1];
      UpsertExceptions(exceptions, errored[..|errored| - 1], now)[r.job.id := JobException(r.e.value, now)]
  }

  function JobsOf(results: seq<JobResult>): seq<Job> {
    seq(|results|, i requires 0 <= i < |results| => results[i].job)
  }

  /** The four statements of the recording transaction. */
  function Recorded(t: Tables, succeededIds: seq<int>, errored: seq<JobResult>, now: int): Tables
    requires forall r <- errored :: r.e.Some?
  {
    var succeeded := SetOf(succeededIds);
    Tables(UpsertJobs(t.jobs - succeeded, JobsOf(errored)),
           UpsertExceptions(t.exceptions - succeeded, errored, now))
  }

  /** The two tables with the constraint that Postgres checks at the end of each
      statement: every exception refers to a job. */
  class JobDatabase {
    var jobs: map<int, Job>
    var exceptions: map<int, JobException>

    ghost predicate Valid()
      reads this
    {
      exceptions.Keys <= jobs.Keys
    }

    function Contents(): Tables
      reads this
    {
      Tables(jobs, exceptions)
    }

    constructor (t: Tables)
      requires t.exceptions.Keys <= t.jobs.Keys
      ensures Valid() && Contents() == t
    {
      jobs, exceptions := t.jobs, t.exceptions;
    }

    method DeleteJobExceptions(ids: seq<int>)
      requires Valid()
      modifies this
      ensures Valid() && jobs == old(jobs) && exceptions == old(exceptions) - SetOf(ids)
    {
      exceptions := exceptions - SetOf(ids);
    }

    /** Restricted: a job that an exception still refers to cannot be deleted. */
    method DeleteJobs(ids: seq<int>)
      requires Valid() && forall id <- ids :: id !in exceptions
      modifies this
      ensures Valid() && exceptions == old(exceptions) && jobs == old(jobs) - SetOf(ids)
    {
      forall id | id in exceptions ensures id !in ids {
      }
      jobs := jobs - SetOf(ids);
    }

    /** One statement cannot update the same row twice. */
    method Upsert(rows: seq<Job>)
      requires Valid() && DistinctIds(rows)
      modifies this
      ensures Valid() && exceptions == old(exceptions) && jobs == UpsertJobs(old(jobs), rows)
      ensures forall row <- rows :: row.id in jobs
    {
      for i := 0 to |rows|
        invariant exceptions == old(exceptions) && Valid()
        invariant jobs == UpsertJobs(old(jobs), rows[..i])
        invariant forall k :: 0 <= k < i ==> rows[k].id in jobs
      {
        assert rows[..i + 1][..i] == rows[..i];
        jobs := jobs[rows[i].id := Merged(jobs, rows[i])];
      }
      assert rows[..|rows|] == rows;
    }

    /** Every exception inserted must refer to a job. */
    method UpsertJobExceptions(errored: seq<JobResult>, now: int)
      requires Valid() && DistinctResults(errored)
      requires forall r <- errored :: r.e.Some? && r.job.id in jobs
      modifies this
      ensures Valid() && jobs == old(jobs) && exceptions == UpsertExceptions(old(exceptions), errored, now)
    {
      for i := 0 to |errored|
        invariant jobs == old(jobs) && Valid()
        invariant exceptions == UpsertExceptions(old(exceptions), errored[..i], now)
      {
        assert errored[..i + 1][..i] == errored[..i];
        exceptions := exceptions[errored[i].job.id := JobException(errored[i].e.value, now)];
      }
      assert errored[..|errored|] == errored;
    }

    /** Records a batch. Each statement's constraints are met when it runs, so
        none of them can fail on a foreign key or a doubled row. */
    method RecordResultsInner(succeededIds: seq<int>, errored: seq<JobResult>, now: int)
      requires Valid() && DistinctResults(errored) && forall r <- errored :: r.e.Some?
      modifies this
      ensures Valid() && Contents() == Recorded(old(Contents()), succeededIds, errored, now)
    {
      DeleteJobExceptions(succeededIds);
      DeleteJobs(succeededIds);
      if errored == [] {
        assert JobsOf(errored) == [];
        return;
      }
      var rows: seq<Job> := [];
      for i := 0 to |errored|
        invariant rows == JobsOf(errored)[..i]
        invariant Valid() && jobs == old(jobs) - SetOf(succeededIds)
        invariant exceptions == old(exceptions) - SetOf(succeededIds)
      {
        rows := rows + [errored[i].job];
      }
      assert rows == JobsOf(errored);
      Upsert(rows);
      forall r | r in errored ensures r.job.id in jobs {
        var i :| 0 <= i < |errored| && errored[i] == r;
        assert rows[i] in rows;
      }
      UpsertJobExceptions(errored, now);
    }
  }

  // ---- Collecting results --------------------------------------------------------

  function SucceededIds(results: seq<JobResult>): seq<int> {
    if results == [] then []
    else
      var r := results[|results| - 1];
      SucceededIds(results[..|results| - 1]) + if r.e.None? then [r.job.id] else []
  }

  function Errored(results: seq<JobResult>): (errored: seq<JobResult>)
    ensures forall r :: r in errored <==> r in results && r.e.Some?
  {
    if results == [] then []
    else
      var r := results[|results| - 1];
      Errored(results[..|results| - 1]) + if r.e.Some? then [r] else []
  }

  /** Sorts the results that arrive, in the order they arrive. */
  method WaitResults(received: seq<JobResult>, numJobs: nat) returns (succeededIds: seq<int>, errored: seq<JobResult>)
    requires |received| >= numJobs
    ensures succeededIds == SucceededIds(received[..numJobs])
    ensures errored == Errored(received[..numJobs])
    ensures |succeededIds| + |errored| == numJobs
  {
    succeededIds, errored := [], [];
    for i := 0 to numJobs
      invariant succeededIds == SucceededIds(received[..i])
      invariant errored == Errored(received[..i])
      invariant |succeededIds| + |errored| == i
    {
      assert received[..i + 1][..i] == received[..i];
      match received[i].e {
        case None => succeededIds := succeededIds + [received[i].job.id];
        case Some(_) => errored := errored + [received[i]];
      }
    }
  }

  // ---- What recording does ---------------------------------------------------------

  /** Jobs alike but for when they are tried next. */
  predicate SameButTime(a: Job, b: Job) {
    a.(tryAt := b.tryAt) == b
  }

  function SucceededSet(batch: seq<Job>, handle: Job -> Option<seq<string>>): set<int> {
    set job | job in batch && handle(job).None? :: job.id
  }

  function FailedSet(batch: seq<Job>, handle: Job -> Option<seq<string>>): set<int> {
    set job | job in batch && handle(job).Some? :: job.id
  }

  /** The tables after every job of `batch` was worked once with the outcomes
      `handle`: jobs that succeeded are gone along with their exceptions, jobs
      that failed have moved on by one error, and other rows are untouched. */
  ghost predicate Settled(t: Tables, t': Tables, batch: seq<Job>, handle: Job -> Option<seq<string>>) {
    && RowsMoved(t, t', SucceededSet(batch, handle), FailedSet(batch, handle))
    && forall job <- batch :: handle(job).Some? ==> Advanced(t', job, handle(job).value)
  }

  ghost predicate RowsMoved(t: Tables, t': Tables, succeeded: set<int>, failed: set<int>) {
    && t'.jobs.Keys == t.jobs.Keys - succeeded
    && t'.exceptions.Keys == t.exceptions.Keys - succeeded + failed
    && (forall id :: id in t'.jobs && id !in failed ==> t'.jobs[id] == t.jobs[id])
    && (forall id :: id in t'.exceptions && id !in failed ==> t'.exceptions[id] == t.exceptions[id])
  }

  predicate Advanced(t: Tables, job: Job, errors: seq<string>) {
    && job.id in t.jobs && SameButTime(t.jobs[job.id], CreateErroredJob(job, 0))
    && job.id in t.exceptions && t.exceptions[job.id].errors == errors
  }

  /** Tables with the times erased that depend on when a job was worked. */
  function Timeless(t: Tables): Tables {
    Tables(map id | id in t.jobs :: t.jobs[id].(tryAt := 0),
           map id | id in t.exceptions :: t.exceptions[id].(occurredAt := 0))
  }

  lemma SettledOneWay(t: Tables, t1: Tables, t2: Tables, batch: seq<Job>, handle: Job -> Option<seq<string>>)
    requires Settled(t, t1, batch, handle) && Settled(t, t2, batch, handle)
    ensures Timeless(t1) == Timeless(t2)
  {
    forall id | id in t1.jobs ensures t1.jobs[id].(tryAt := 0) == t2.jobs[id].(tryAt := 0) {
      SettledJob(t, t1, t2, batch, handle, id);
    }
    forall id | id in t1.exceptions
      ensures t1.exceptions[id].(occurredAt := 0) == t2.exceptions[id].(occurredAt := 0)
    {
      SettledException(t, t1, t2, batch, handle, id);
    }
  }

  lemma SettledJob(
    t: Tables, t1: Tables, t2: Tables, batch: seq<Job>, handle: Job -> Option<seq<string>>, id: int)
    requires Settled(t, t1, batch, handle) && Settled(t, t2, batch, handle) && id in t1.jobs
    ensures id in t2.jobs && t1.jobs[id].(tryAt := 0) == t2.jobs[id].(tryAt := 0)
  {
    if job :| job in batch && handle(job).Some? && job.id == id {
      var next := CreateErroredJob(job, 0);
      assert t1.jobs[id].(tryAt := 0) == next.(tryAt := 0) == t2.jobs[id].(tryAt := 0);
    }
  }

  lemma SettledException(
    t: Tables, t1: Tables, t2: Tables, batch: seq<Job>, handle: Job -> Option<seq<string>>, id: int)
    requires Settled(t, t1, batch, handle) && Settled(t, t2, batch, handle) && id in t1.exceptions
    ensures id in t2.exceptions && t1.exceptions[id].(occurredAt := 0) == t2.exceptions[id].(occurredAt := 0)
  {
    if job :| job in batch && handle(job).Some? && job.id == id {
      assert t1.exceptions[id].errors == t2.exceptions[id].errors;
    }
  }

  /** `r` is `jobs` with every row merged in. */
  ghost predicate Upserted(jobs: map<int, Job>, rows: seq<Job>, r: map<int, Job>) {
    && r.Keys == jobs.Keys + IdSet(rows)
    && (forall row <- rows :: r[row.id] == Merged(jobs, row))
    && (forall id :: id in jobs && id !in IdSet(rows) ==> r[id] == jobs[id])
  }

  lemma UpsertOne(jobs: map<int, Job>, init: seq<Job>, row: Job, before: map<int, Job>)
    requires Upserted(jobs, init, before) && row.id !in IdSet(init)
    ensures Upserted(jobs, init + [row], before[row.id := Merged(before, row)])
  {
    assert IdSet(init + [row]) == IdSet(init) + {row.id};
    assert Merged(before, row) == Merged(jobs, row);
  }

  lemma {:induction false} UpsertedJobs(jobs: map<int, Job>, rows: seq<Job>)
    requires DistinctIds(rows)
    ensures Upserted(jobs, rows, UpsertJobs(jobs, rows))
    decreases |rows|
  {
    if rows != [] {
      var init, row := rows[..|rows| - 1], rows[|rows| - 1];
      UpsertedJobs(jobs, init);
      assert rows == init + [row];
      UpsertOne(jobs, init, row, UpsertJobs(jobs, init));
    }
  }

  lemma {:induction false} UpsertedExceptions(exceptions: map<int, JobException>, errored: seq<JobResult>, now: int)
    requires DistinctResults(errored) && forall r <- errored :: r.e.Some?
    ensures var x := UpsertExceptions(exceptions, errored, now);
            && x.Keys == exceptions.Keys + ResultIds(errored)
            && (forall r <- errored :: r.job.id in x && x[r.job.id] == JobException(r.e.value, now))
            && (forall id :: id in exceptions && id !in ResultIds(errored) ==> x[id] == exceptions[id])
    decreases |errored|
  {
    if errored != [] {
      var init, r := errored[..|errored| - 1], errored[|errored| - 1];
      UpsertedExceptions(exceptions, init, now);
      assert errored == init + [r];
      assert r.job.id !in ResultIds(init);
    }
  }

  lemma {:induction false} SucceededIdsAre(results: seq<JobResult>)
    ensures forall id :: id in SucceededIds(results) <==> exists r :: r in results && r.e.None? && r.job.id == id
    decreases |results|
  {
    if results != [] {
      var init, r := results[..|results| - 1], results[|results| - 1];
      SucceededIdsAre(init);
      assert results == init + [r];
      assert r in results;
    }
  }

  lemma {:induction false} ErroredAreDistinct(results: seq<JobResult>)
    requires DistinctResults(results)
    ensures DistinctResults(Errored(results))
    decreases |results|
  {
    if results != [] {
      var init, r := results[..|results| - 1], results[|results| - 1];
      ErroredAreDistinct(init);
      forall q | q in Errored(init) ensures q.job.id != r.job.id {
        assert q in init;
      }
      assert forall i :: 0 <= i < |Errored(init)| ==> Errored(init)[i] in Errored(init);
    }
  }

  /** `r` is what working `job` once leads to. */
  predicate ResultFor(job: Job, handle: Job -> Option<seq<string>>, r: JobResult) {
    && r.job.id == job.id
    && r.e == handle(job)
    && (r.e.None? ==> r.job == job)
    && (r.e.Some? ==> SameButTime(r.job, CreateErroredJob(job, 0)))
  }

  /** The results of a batch, all in and in whatever order they came. */
  ghost predicate ResultsOf(batch: seq<Job>, handle: Job -> Option<seq<string>>, results: seq<JobResult>) {
    && DistinctIds(batch)
    && DistinctResults(results)
    && ResultIds(results) == IdSet(batch)
    && (forall r, job :: r in results && job in batch && r.job.id == job.id ==> ResultFor(job, handle, r))
  }

  predicate RowsPresent(t: Tables, batch: seq<Job>) {
    forall job <- batch :: job.id in t.jobs && t.jobs[job.id] == job
  }

  lemma JobOfResult(batch: seq<Job>, handle: Job -> Option<seq<string>>, results: seq<JobResult>, r: JobResult)
    returns (job: Job)
    requires ResultsOf(batch, handle, results) && r in results
    ensures job in batch && ResultFor(job, handle, r)
  {
    assert r.job.id in IdSet(batch);
    job :| job in batch && job.id == r.job.id;
  }

  lemma ResultOfJob(batch: seq<Job>, handle: Job -> Option<seq<string>>, results: seq<JobResult>, job: Job)
    returns (r: JobResult)
    requires ResultsOf(batch, handle, results) && job in batch
    ensures r in results && ResultFor(job, handle, r)
  {
    assert job.id in ResultIds(results);
    r :| r in results && r.job.id == job.id;
  }

  lemma SucceededSetsAgree(batch: seq<Job>, handle: Job -> Option<seq<string>>, results: seq<JobResult>)
    requires ResultsOf(batch, handle, results)
    ensures SetOf(SucceededIds(results)) == SucceededSet(batch, handle)
  {
    SucceededIdsAre(results);
    forall id | id in SucceededSet(batch, handle) ensures id in SucceededIds(results) {
      var job :| job in batch && handle(job).None? && job.id == id;
      var r := ResultOfJob(batch, handle, results, job);
    }
    forall id | id in SucceededIds(results) ensures id in SucceededSet(batch, handle) {
      var r :| r in results && r.e.None? && r.job.id == id;
      var job := JobOfResult(batch, handle, results, r);
    }
  }

  lemma FailedSetsAgree(batch: seq<Job>, handle: Job -> Option<seq<string>>, results: seq<JobResult>)
    requires ResultsOf(batch, handle, results)
    ensures ResultIds(Errored(results)) == FailedSet(batch, handle)
  {
    forall id | id in FailedSet(batch, handle) ensures id in ResultIds(Errored(results)) {
      var job :| job in batch && handle(job).Some? && job.id == id;
      var r := ResultOfJob(batch, handle, results, job);
      assert r in Errored(results);
    }
    forall id | id in ResultIds(Errored(results)) ensures id in FailedSet(batch, handle) {
      var r :| r in Errored(results) && r.job.id == id;
      var job := JobOfResult(batch, handle, results, r);
    }
  }

  lemma OutcomesAreDisjoint(batch: seq<Job>, handle: Job -> Option<seq<string>>)
    requires DistinctIds(batch)
    ensures SucceededSet(batch, handle) !! FailedSet(batch, handle)
  {
    forall a, b | a in batch && b in batch && a.id == b.id ensures a == b {
    }
  }

  lemma JobIdsOf(results: seq<JobResult>)
    ensures IdSet(JobsOf(results)) == ResultIds(results)
    ensures forall r <- results :: r.job in JobsOf(results)
  {
    var rows := JobsOf(results);
    forall r | r in results ensures r.job in rows {
      var i :| 0 <= i < |results| && results[i] == r;
      assert rows[i] in rows;
    }
  }

  lemma RecordedRows(t: Tables, succeededIds: seq<int>, errored: seq<JobResult>, now: int)
    requires DistinctResults(errored) && forall r <- errored :: r.e.Some?
    requires ResultIds(errored) <= t.jobs.Keys - SetOf(succeededIds)
    ensures var t' := Recorded(t, succeededIds, errored, now);
            && RowsMoved(t, t', SetOf(succeededIds), ResultIds(errored))
            && forall r <- errored ::
                 && r.job.id in t'.jobs && t'.jobs[r.job.id] == Merged(t.jobs, r.job)
                 && r.job.id in t'.exceptions && t'.exceptions[r.job.id] == JobException(r.e.value, now)
  {
    var succeeded := SetOf(succeededIds);
    JobIdsOf(errored);
    UpsertedJobs(t.jobs - succeeded, JobsOf(errored));
    UpsertedExceptions(t.exceptions - succeeded, errored, now);
    assert forall r <- errored :: r.job.id in ResultIds(errored);
  }

  /** Main result: the one transaction for a whole batch settles every job of it, and
      each job that failed has its errors recorded with the time. */
  lemma RecordingSettles(
    t: Tables, batch: seq<Job>, handle: Job -> Option<seq<string>>, results: seq<JobResult>, now: int)
    requires ResultsOf(batch, handle, results) && RowsPresent(t, batch)
    ensures Settled(t, Recorded(t, SucceededIds(results), Errored(results), now), batch, handle)
    ensures var t' := Recorded(t, SucceededIds(results), Errored(results), now);
            forall job <- batch :: handle(job).Some? ==>
              job.id in t'.exceptions && t'.exceptions[job.id] == JobException(handle(job).value, now)
  {
    SucceededSetsAgree(batch, handle, results);
    FailedSetsAgree(batch, handle, results);
    OutcomesAreDisjoint(batch, handle);
    ErroredAreDistinct(results);
    RecordedRows(t, SucceededIds(results), Errored(results), now);
    var t' := Recorded(t, SucceededIds(results), Errored(results), now);
    forall job | job in batch && handle(job).Some?
      ensures Advanced(t', job, handle(job).value)
      ensures job.id in t'.exceptions && t'.exceptions[job.id] == JobException(handle(job).value, now)
    {
      var r := ResultOfJob(batch, handle, results, job);
      assert r in Errored(results);
    }
  }

  /** The row of a job that failed is as its result has it. */
  lemma ErroredRow(
    t: Tables, batch: seq<Job>, handle: Job -> Option<seq<string>>, results: seq<JobResult>, now: int,
    job: Job, r: JobResult)
    requires ResultsOf(batch, handle, results) && RowsPresent(t, batch)
    requires job in batch && r in results && r.job.id == job.id && handle(job).Some?
    ensures var t' := Recorded(t, SucceededIds(results), Errored(results), now);
            job.id in t'.jobs && t'.jobs[job.id] == r.job
  {
    SucceededSetsAgree(batch, handle, results);
    FailedSetsAgree(batch, handle, results);
    OutcomesAreDisjoint(batch, handle);
    ErroredAreDistinct(results);
    RecordedRows(t, SucceededIds(results), Errored(results), now);
    assert ResultFor(job, handle, r);
    assert r in Errored(results);
  }

  /** Works and records a single job. */
  function ProcessOne(t: Tables, job: Job, e: Option<seq<string>>, now: int): Tables {
    if e.None? then Recorded(t, [job.id], [], now)
    else Recorded(t, [], [JobResult(CreateErroredJob(job, now), e)], now)
  }

  /** The reference: the batch one job at a time, each at a time of its own. */
  function ProcessAll(t: Tables, batch: seq<Job>, handle: Job -> Option<seq<string>>, at: int -> int): Tables {
    if batch == [] then t
    else
      var job := batch[|batch| - 1];
      ProcessOne(ProcessAll(t, batch[..|batch| - 1], handle, at), job, handle(job), at(job.id))
  }

  lemma OneSettles(t: Tables, job: Job, handle: Job -> Option<seq<string>>, now: int)
    requires job.id in t.jobs && t.jobs[job.id] == job
    ensures Settled(t, ProcessOne(t, job, handle(job), now), [job], handle)
  {
    var e := handle(job);
    var r := JobResult(if e.Some? then CreateErroredJob(job, now) else job, e);
    assert ResultFor(job, handle, r) && r in [r] && job in [job];
    assert [r][..0] == [];
    assert SucceededIds([r]) == if e.None? then [job.id] else [];
    assert Errored([r]) == if e.Some? then [r] else [];
    RecordingSettles(t, [job], handle, [r], now);
  }

  lemma RowsMovedTwice(
    t: Tables, t1: Tables, t2: Tables, s1: set<int>, f1: set<int>, s2: set<int>, f2: set<int>)
    requires RowsMoved(t, t1, s1, f1) && RowsMoved(t1, t2, s2, f2) && f1 !! s2
    ensures RowsMoved(t, t2, s1 + s2, f1 + f2)
  {
  }

  lemma OutcomeSetsSnoc(init: seq<Job>, job: Job, handle: Job -> Option<seq<string>>)
    ensures SucceededSet(init + [job], handle) == SucceededSet(init, handle) + SucceededSet([job], handle)
    ensures FailedSet(init + [job], handle) == FailedSet(init, handle) + FailedSet([job], handle)
    ensures SucceededSet([job], handle) <= {job.id} && FailedSet([job], handle) <= {job.id}
    ensures SucceededSet(init, handle) <= IdSet(init) && FailedSet(init, handle) <= IdSet(init)
  {
  }

  lemma SettledSnoc(
    t: Tables, t1: Tables, t2: Tables, init: seq<Job>, job: Job, handle: Job -> Option<seq<string>>)
    requires Settled(t, t1, init, handle) && Settled(t1, t2, [job], handle) && job.id !in IdSet(init)
    ensures Settled(t, t2, init + [job], handle)
  {
    var batch := init + [job];
    OutcomeSetsSnoc(init, job, handle);
    RowsMovedTwice(t, t1, t2, SucceededSet(init, handle), FailedSet(init, handle),
                   SucceededSet([job], handle), FailedSet([job], handle));
    forall other | other in batch && handle(other).Some? ensures Advanced(t2, other, handle(other).value) {
      if other in init {
        assert other.id in IdSet(init);
      }
    }
  }

  lemma {:induction false} SequenceSettles(
    t: Tables, batch: seq<Job>, handle: Job -> Option<seq<string>>, at: int -> int)
    requires DistinctIds(batch) && RowsPresent(t, batch)
    ensures Settled(t, ProcessAll(t, batch, handle, at), batch, handle)
    decreases |batch|
  {
    if batch != [] {
      var init, job := batch[..|batch| - 1], batch[|batch| - 1];
      var t1 := ProcessAll(t, init, handle, at);
      SequenceSettles(t, init, handle, at);
      assert job.id !in IdSet(init);
      assert job.id !in SucceededSet(init, handle) && job.id !in FailedSet(init, handle);
      OneSettles(t1, job, handle, at(job.id));
      SettledSnoc(t, t1, ProcessOne(t1, job, handle(job), at(job.id)), init, job, handle);
      assert init + [job] == batch;
    }
  }

  /** Main result: recording a batch at once leaves the tables that working it
      one job at a time would, whatever the order and times of either. */
  lemma BatchEqualsSequence(
    t: Tables, batch: seq<Job>, handle: Job -> Option<seq<string>>, results: seq<JobResult>, now: int, at: int -> int)
    requires ResultsOf(batch, handle, results) && RowsPresent(t, batch)
    ensures Timeless(Recorded(t, SucceededIds(results), Errored(results), now))
         == Timeless(ProcessAll(t, batch, handle, at))
  {
    RecordingSettles(t, batch, handle, results, now);
    SequenceSettles(t, batch, handle, at);
    SettledOneWay(t, Recorded(t, SucceededIds(results), Errored(results), now),
                  ProcessAll(t, batch, handle, at), batch, handle);
  }
}
