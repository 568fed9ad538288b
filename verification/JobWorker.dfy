/** The job worker: one control thread, any number of workers and two bounded
    channels, as a state machine over their steps. */
module JobWorker {
  import opened Wrappers
  import opened Collections
  import opened JobTables

  datatype Worker =
    | Idle
    | Working(job: Job)
    | Holding(result: JobResult)
    | Exited

  /** `Closing` counts the workers joined since the work channel was closed. In
      `Aborted` the control thread has left with an error, joining nobody. */
  datatype Phase = Selecting | Batching | Closing(joined: nat) | Aborted

  /** What happened to each job id so far: how often it was attempted, when it first
      and last failed as far as recorded, when it failed since without being
      recorded yet, and how many of its results were lost. Nothing in the program
      reads it. */
  datatype History = History(
    attempts: map<int, nat>,
    first: map<int, int>,
    last: map<int, int>,
    pending: map<int, int>,
    lost: map<int, nat>)

  datatype Totals = Totals(numJobs: nat, numSucceeded: nat, numErrored: nat)

  /** `handle` gives the outcome of working a job row. */
  datatype Config = Config(runOnce: bool, handle: Job -> Option<seq<string>>)

  datatype State = State(
    tables: Tables,
    clock: int,
    phase: Phase,
    batch: seq<Job>,
    toSend: seq<Job>,
    workQueue: seq<Job>,
    workers: seq<Worker>,
    results: seq<JobResult>,
    collected: seq<JobResult>,
    done: map<int, JobResult>,
    history: History,
    totals: Totals)

  /** `Tick` and `Enqueue` are the environment's steps, the others the program's. */
  datatype Step =
    | Tick(now: int)
    | Enqueue(job: Job)
    | Select(jobs: seq<Job>)
    | Send
    | Receive(w: nat)
    | Finish(w: nat)
    | Report(w: nat)
    | Collect
    | Record
    | RecordFails
    | Exit(w: nat)
    | Join

  // ---- Steps -------------------------------------------------------------------

  predicate Due(t: Tables, now: int, id: int) {
    id in t.jobs && t.jobs[id].live && t.jobs[id].tryAt <= now
  }

  /** Any due jobs in any order, up to the limit and only fewer when there are
      no more. */
  predicate IsSelection(t: Tables, now: int, jobs: seq<Job>) {
    && |jobs| <= MAX_JOBS
    && DistinctIds(jobs)
    && (forall job <- jobs :: Due(t, now, job.id) && t.jobs[job.id] == job)
    && (|jobs| == MAX_JOBS || forall id <- t.jobs :: Due(t, now, id) ==> id in IdSet(jobs))
  }

  predicate Fresh(job: Job) {
    job.live && job.numErrors == 0
  }

  function ResultOf(c: Config, job: Job, now: int): JobResult {
    match c.handle(job)
    case None => JobResult(job, None)
    case Some(e) => JobResult(CreateErroredJob(job, now), Some(e))
  }

  function Attempted(h: History, id: int, failed: bool, now: int): History {
    h.(attempts := h.attempts[id := (if id in h.attempts then h.attempts[id] else 0) + 1],
       pending := if failed then h.pending[id := now] else h.pending)
  }

  /** The pending failures are recorded. */
  function Settle(h: History): History {
    var first := map id | id in h.first.Keys + h.pending.Keys :: if id in h.first then h.first[id] else h.pending[id];
    h.(first := first, last := h.last + h.pending, pending := map[])
  }

  function Lost(h: History, id: int): nat {
    if id in h.lost then h.lost[id] else 0
  }

  /** The results of these jobs are lost, and with them the pending failures. */
  function Lose(h: History, ids: set<int>): History {
    h.(pending := map[],
       lost := map id | id in h.lost.Keys + ids :: Lost(h, id) + if id in ids then 1 else 0)
  }

  /** The control thread counts a batch's results before it records them. */
  function Counted(totals: Totals, collected: seq<JobResult>): Totals {
    totals.(numSucceeded := totals.numSucceeded + |SucceededIds(collected)|,
            numErrored := totals.numErrored + |Errored(collected)|)
  }

  function AfterBatch(c: Config): Phase {
    if c.runOnce then Closing(0) else Selecting
  }

  /** The state after a step, or `None` when the step is blocked. The recording
      transaction may fail, which rolls it back and ends the run. A send waits for
      room in its channel, a receive for something to receive, the control
      thread for as many results as jobs, and a join for the worker to exit. */
  function Apply(c: Config, s: State, step: Step): Option<State> {
    match step
    case Tick(now) =>
      if now > s.clock then Some(s.(clock := now)) else None
    case Enqueue(job) =>
      if Fresh(job) && job.id !in s.tables.jobs && job.id !in s.history.attempts then
        Some(s.(tables := s.tables.(jobs := s.tables.jobs[job.id := job]),
                history := s.history.(attempts := s.history.attempts[job.id := 0])))
      else None
    case Select(jobs) =>
      if s.phase == Selecting && IsSelection(s.tables, s.clock, jobs) then
        if jobs == [] then Some(s.(phase := AfterBatch(c)))
        else Some(s.(phase := Batching, batch := jobs, toSend := jobs,
                     totals := s.totals.(numJobs := s.totals.numJobs + |jobs|)))
      else None
    case Send =>
      if s.phase == Batching && s.toSend != [] && |s.workQueue| < MAX_JOBS then
        Some(s.(toSend := s.toSend[1..], workQueue := s.workQueue + [s.toSend[0]]))
      else None
    case Receive(w) =>
      if w < |s.workers| && s.workers[w] == Idle && s.workQueue != [] then
        Some(s.(workQueue := s.workQueue[1..], workers := s.workers[w := Working(s.workQueue[0])]))
      else None
    case Finish(w) =>
      if w < |s.workers| && s.workers[w].Working? then
        var job := s.workers[w].job;
        var r := ResultOf(c, job, s.clock);
        Some(s.(workers := s.workers[w := Holding(r)], done := s.done[job.id := r],
                history := Attempted(s.history, job.id, r.e.Some?, s.clock)))
      else None
    case Report(w) =>
      if w < |s.workers| && s.workers[w].Holding? && |s.results| < MAX_JOBS then
        Some(s.(workers := s.workers[w := Idle], results := s.results + [s.workers[w].result]))
      else None
    case Collect =>
      if s.phase == Batching && s.toSend == [] && |s.collected| < |s.batch| && s.results != [] then
        Some(s.(results := s.results[1..], collected := s.collected + [s.results[0]]))
      else None
    case Record =>
      if s.phase == Batching && s.toSend == [] && |s.collected| == |s.batch| then
        var succeededIds, errored := SucceededIds(s.collected), Errored(s.collected);
        Some(s.(tables := Recorded(s.tables, succeededIds, errored, s.clock),
                phase := AfterBatch(c), batch := [], collected := [], done := map[],
                history := Settle(s.history), totals := Counted(s.totals, s.collected)))
      else None
    case RecordFails =>
      if s.phase == Batching && s.toSend == [] && |s.collected| == |s.batch| then
        Some(s.(phase := Aborted, batch := [], collected := [], done := map[],
                history := Lose(s.history, s.done.Keys), totals := Counted(s.totals, s.collected)))
      else None
    case Exit(w) =>
      if (s.phase.Closing? || s.phase.Aborted?) && w < |s.workers| && s.workers[w] == Idle && s.workQueue == [] then
        Some(s.(workers := s.workers[w := Exited]))
      else None
    case Join =>
      if s.phase.Closing? && s.phase.joined < |s.workers| && s.workers[s.phase.joined] == Exited then
        Some(s.(phase := Closing(s.phase.joined + 1)))
      else None
  }

  /** The run is over: every worker has been joined, or has exited after an error. */
  predicate Over(s: State) {
    s.phase == Closing(|s.workers|) || (s.phase.Aborted? && forall w <- s.workers :: w == Exited)
  }

  // ---- Where the jobs are ---------------------------------------------------------

  function Count<T(==)>(s: seq<T>, x: T): nat {
    if s == [] then 0 else (if s[0] == x then 1 else 0) + Count(s[1..], x)
  }

  /** How often a job stands unworked: unsent, queued or in a worker's hands. */
  function Todo(s: State, job: Job): nat {
    Count(s.toSend, job) + Count(s.workQueue, job) + Count(s.workers, Working(job))
  }

  /** How often a result stands unrecorded: held by a worker, in the channel or
      collected. */
  function Unrecorded(s: State, r: JobResult): nat {
    Count(s.workers, Holding(r)) + Count(s.results, r) + Count(s.collected, r)
  }

  function InHand(ws: seq<Worker>): nat {
    if ws == [] then 0 else (if ws[0].Working? || ws[0].Holding? then 1 else 0) + InHand(ws[1..])
  }

  function Places(s: State): nat {
    |s.toSend| + |s.workQueue| + InHand(s.workers) + |s.results| + |s.collected|
  }

  /** Main invariant: every job of the batch is in exactly one place, as a job
      before it is worked and as its result afterwards, and nothing else is. */
  ghost predicate Conserved(s: State) {
    && Places(s) == |s.batch|
    && s.done.Keys <= IdSet(s.batch)
    && (forall job :: Todo(s, job) == if job in s.batch && job.id !in s.done then 1 else 0)
    && (forall r :: Unrecorded(s, r) == if r.job.id in s.done && s.done[r.job.id] == r then 1 else 0)
  }

  /** The batch is as the table has it, and finished jobs have their results. */
  ghost predicate BatchSound(c: Config, s: State) {
    && |s.batch| <= MAX_JOBS
    && DistinctIds(s.batch)
    && (s.phase != Batching ==> s.batch == [] && s.toSend == [])
    && RowsPresent(s.tables, s.batch)
    && (forall job <- s.batch :: Due(s.tables, s.clock, job.id))
    && (forall job <- s.batch :: job.id in s.done ==> ResultFor(job, c.handle, s.done[job.id]))
  }

  ghost predicate WorkersSound(s: State) {
    && (!s.phase.Closing? && !s.phase.Aborted? ==> forall i :: 0 <= i < |s.workers| ==> s.workers[i] != Exited)
    && (s.phase.Closing? ==> s.phase.joined <= |s.workers|
                             && forall i :: 0 <= i < s.phase.joined ==> s.workers[i] == Exited)
  }

  ghost predicate TablesSound(s: State) {
    && s.tables.exceptions.Keys <= s.tables.jobs.Keys
    && (forall id <- s.tables.jobs :: s.tables.jobs[id].id == id)
    && s.totals.numJobs == s.totals.numSucceeded + s.totals.numErrored + |s.batch|
  }

  ghost predicate Inv(c: Config, s: State) {
    Conserved(s) && BatchSound(c, s) && WorkersSound(s) && TablesSound(s)
  }

  // ---- The invariant is kept --------------------------------------------------------

  lemma {:induction false} CountIn<T>(s: seq<T>, x: T)
    ensures Count(s, x) > 0 <==> x in s
  {
    if s != [] {
      CountIn(s[1..], x);
      assert s == [s[0]] + s[1..];
    }
  }

  lemma {:induction false} CountSnoc<T>(s: seq<T>, y: T, x: T)
    ensures Count(s + [y], x) == Count(s, x) + if x == y then 1 else 0
  {
    if s == [] {
      assert s + [y] == [y];
    } else {
      assert (s + [y])[1..] == s[1..] + [y];
      CountSnoc(s[1..], y, x);
    }
  }

  lemma {:induction false} CountReplaced<T>(s: seq<T>, i: nat, y: T, x: T)
    requires i < |s|
    ensures Count(s[i := y], x) + (if s[i] == x then 1 else 0) == Count(s, x) + if y == x then 1 else 0
  {
    if i == 0 {
      assert s[i := y][1..] == s[1..];
    } else {
      assert s[i := y][1..] == s[1..][i - 1 := y];
      CountReplaced(s[1..], i - 1, y, x);
    }
  }

  lemma {:induction false} BatchCount(batch: seq<Job>, job: Job)
    requires DistinctIds(batch)
    ensures Count(batch, job) == if job in batch then 1 else 0
  {
    if batch != [] {
      BatchCount(batch[1..], job);
      assert batch == [batch[0]] + batch[1..];
      if batch[0] in batch[1..] {
        var i :| 0 <= i < |batch[1..]| && batch[1..][i] == batch[0];
        assert batch[i + 1] == batch[0];
      }
    }
  }

  lemma {:induction false} InHandReplaced(ws: seq<Worker>, i: nat, w: Worker)
    requires i < |ws|
    ensures InHand(ws[i := w]) + InHand([ws[i]]) == InHand(ws) + InHand([w])
  {
    if i == 0 {
      assert ws[i := w][1..] == ws[1..];
    } else {
      assert ws[i := w][1..] == ws[1..][i - 1 := w];
      InHandReplaced(ws[1..], i - 1, w);
    }
  }

  /** Nothing is gained, lost or finished. */
  ghost predicate OnlyMoves(s: State, s': State) {
    && Places(s') == Places(s) && s'.batch == s.batch && s'.done == s.done
    && (forall job :: Todo(s', job) == Todo(s, job))
    && (forall r :: Unrecorded(s', r) == Unrecorded(s, r))
  }

  lemma SendMoves(c: Config, s: State, s': State)
    requires Apply(c, s, Send) == Some(s')
    ensures OnlyMoves(s, s')
  {
    forall job ensures Todo(s', job) == Todo(s, job) {
      CountSnoc(s.workQueue, s.toSend[0], job);
    }
  }

  lemma ReceiveMoves(c: Config, s: State, w: nat, s': State)
    requires Apply(c, s, Receive(w)) == Some(s')
    ensures OnlyMoves(s, s')
  {
    var x := Working(s.workQueue[0]);
    InHandReplaced(s.workers, w, x);
    forall job ensures Todo(s', job) == Todo(s, job) {
      CountReplaced(s.workers, w, x, Working(job));
    }
    forall r ensures Unrecorded(s', r) == Unrecorded(s, r) {
      CountReplaced(s.workers, w, x, Holding(r));
    }
  }

  lemma ReportMoves(c: Config, s: State, w: nat, s': State)
    requires Apply(c, s, Report(w)) == Some(s')
    ensures OnlyMoves(s, s')
  {
    InHandReplaced(s.workers, w, Idle);
    forall job ensures Todo(s', job) == Todo(s, job) {
      CountReplaced(s.workers, w, Idle, Working(job));
    }
    forall r ensures Unrecorded(s', r) == Unrecorded(s, r) {
      CountReplaced(s.workers, w, Idle, Holding(r));
      CountSnoc(s.results, s.workers[w].result, r);
    }
  }

  lemma CollectMoves(c: Config, s: State, s': State)
    requires Apply(c, s, Collect) == Some(s')
    ensures OnlyMoves(s, s')
  {
    forall r ensures Unrecorded(s', r) == Unrecorded(s, r) {
      CountSnoc(s.collected, s.results[0], r);
    }
  }

  lemma ExitMoves(c: Config, s: State, w: nat, s': State)
    requires Apply(c, s, Exit(w)) == Some(s')
    ensures OnlyMoves(s, s')
  {
    InHandReplaced(s.workers, w, Exited);
    forall job ensures Todo(s', job) == Todo(s, job) {
      CountReplaced(s.workers, w, Exited, Working(job));
    }
    forall r ensures Unrecorded(s', r) == Unrecorded(s, r) {
      CountReplaced(s.workers, w, Exited, Holding(r));
    }
  }

  lemma WorkedJob(c: Config, s: State, w: nat)
    requires Conserved(s) && w < |s.workers| && s.workers[w].Working?
    ensures var job := s.workers[w].job; job in s.batch && job.id !in s.done
  {
    var job := s.workers[w].job;
    CountIn(s.workers, Working(job));
    assert Todo(s, job) >= 1;
  }

  lemma FinishConserves(c: Config, s: State, w: nat, s': State)
    requires Conserved(s) && DistinctIds(s.batch) && Apply(c, s, Finish(w)) == Some(s')
    ensures Conserved(s')
  {
    var job := s.workers[w].job;
    var r := ResultOf(c, job, s.clock);
    WorkedJob(c, s, w);
    InHandReplaced(s.workers, w, Holding(r));
    assert job.id in IdSet(s.batch);
    forall other ensures Todo(s', other) == if other in s'.batch && other.id !in s'.done then 1 else 0 {
      CountReplaced(s.workers, w, Holding(r), Working(other));
      if other in s.batch && other.id == job.id {
        assert other == job;
      }
    }
    forall q ensures Unrecorded(s', q) == if q.job.id in s'.done && s'.done[q.job.id] == q then 1 else 0 {
      CountReplaced(s.workers, w, Holding(r), Holding(q));
    }
  }

  lemma {:induction false} NothingInHand(ws: seq<Worker>)
    requires InHand(ws) == 0
    ensures forall w <- ws :: w == Idle || w == Exited
  {
    if ws != [] {
      NothingInHand(ws[1..]);
      assert ws == [ws[0]] + ws[1..];
    }
  }

  lemma SelectConserves(c: Config, s: State, jobs: seq<Job>, s': State)
    requires Conserved(s) && s.batch == [] && DistinctIds(jobs)
    requires Apply(c, s, Select(jobs)) == Some(s') && jobs != []
    ensures Conserved(s')
  {
    NothingInHand(s.workers);
    assert s.done == map[];
    forall job ensures Todo(s', job) == if job in jobs then 1 else 0 {
      BatchCount(jobs, job);
      CountIn(s.workers, Working(job));
    }
    forall r ensures Unrecorded(s', r) == 0 {
      CountIn(s.workers, Holding(r));
    }
  }

  lemma {:induction false} CountTwice<T>(s: seq<T>, i: nat, j: nat)
    requires i < j < |s| && s[i] == s[j]
    ensures Count(s, s[i]) >= 2
  {
    if i == 0 {
      CountIn(s[1..], s[i]);
      assert s[1..][j - 1] == s[j];
    } else {
      CountTwice(s[1..], i - 1, j - 1);
    }
  }

  lemma CollectedCount(s: State, r: JobResult)
    requires Conserved(s) && |s.collected| == |s.batch|
    ensures Count(s.collected, r) == if r.job.id in s.done && s.done[r.job.id] == r then 1 else 0
    ensures r in s.collected <==> r.job.id in s.done && s.done[r.job.id] == r
  {
    NothingInHand(s.workers);
    CountIn(s.workers, Holding(r));
    CountIn(s.collected, r);
    assert Unrecorded(s, r) == Count(s.collected, r);
  }

  lemma AllWorked(s: State, job: Job)
    requires Conserved(s) && |s.collected| == |s.batch| && job in s.batch
    ensures job.id in s.done
  {
    NothingInHand(s.workers);
    CountIn(s.workers, Working(job));
    assert Todo(s, job) == 0;
  }

  /** Once as many results as jobs are in, they are the results of the batch. */
  lemma AllCollected(c: Config, s: State)
    requires Conserved(s) && BatchSound(c, s) && |s.collected| == |s.batch|
    ensures ResultsOf(s.batch, c.handle, s.collected)
    ensures s.done.Keys == IdSet(s.batch)
  {
    var rs := s.collected;
    forall i, j | 0 <= i < j < |rs| ensures rs[i].job.id != rs[j].job.id {
      CollectedCount(s, rs[i]);
      CollectedCount(s, rs[j]);
      if rs[i] == rs[j] {
        CountTwice(rs, i, j);
      }
    }
    forall r, job | r in rs && job in s.batch && r.job.id == job.id ensures ResultFor(job, c.handle, r) {
      CollectedCount(s, r);
    }
    forall id | id in IdSet(s.batch) ensures id in s.done && id in ResultIds(rs) {
      var job :| job in s.batch && job.id == id;
      AllWorked(s, job);
      CollectedCount(s, s.done[id]);
    }
    forall id | id in ResultIds(rs) ensures id in IdSet(s.batch) {
      var r :| r in rs && r.job.id == id;
      CollectedCount(s, r);
    }
  }

  lemma RecordConserves(c: Config, s: State, s': State)
    requires Conserved(s) && (Apply(c, s, Record) == Some(s') || Apply(c, s, RecordFails) == Some(s'))
    ensures Conserved(s')
  {
    NothingInHand(s.workers);
    forall job ensures Todo(s', job) == 0 {
      CountIn(s.workers, Working(job));
    }
    forall r ensures Unrecorded(s', r) == 0 {
      CountIn(s.workers, Holding(r));
    }
  }

  lemma ConservedStep(c: Config, s: State, step: Step, s': State)
    requires Inv(c, s) && Apply(c, s, step) == Some(s')
    ensures Conserved(s')
  {
    match step
    case Tick(_) => assert forall job :: Todo(s', job) == Todo(s, job);
    case Enqueue(_) => assert forall job :: Todo(s', job) == Todo(s, job);
    case Join => assert forall job :: Todo(s', job) == Todo(s, job);
    case Select(jobs) =>
      if jobs == [] {
        assert forall job :: Todo(s', job) == Todo(s, job);
      } else {
        SelectConserves(c, s, jobs, s');
      }
    case Send => SendMoves(c, s, s');
    case Receive(w) => ReceiveMoves(c, s, w, s');
    case Finish(w) => FinishConserves(c, s, w, s');
    case Report(w) => ReportMoves(c, s, w, s');
    case Collect => CollectMoves(c, s, s');
    case Record => RecordConserves(c, s, s');
    case RecordFails => RecordConserves(c, s, s');
    case Exit(w) => ExitMoves(c, s, w, s');
  }

  lemma BatchSoundStep(c: Config, s: State, step: Step, s': State)
    requires Inv(c, s) && Apply(c, s, step) == Some(s')
    ensures BatchSound(c, s')
  {
    if step.Finish? {
      var job := s.workers[step.w].job;
      WorkedJob(c, s, step.w);
      assert ResultFor(job, c.handle, ResultOf(c, job, s.clock));
      forall other | other in s.batch && other.id == job.id ensures other == job {
      }
    }
    if step.Select? && step.jobs != [] {
      assert s.done == map[];
    }
  }

  lemma WorkersSoundStep(c: Config, s: State, step: Step, s': State)
    requires Inv(c, s) && Apply(c, s, step) == Some(s')
    ensures WorkersSound(s')
  {
  }

  lemma {:induction false} OutcomesAddUp(results: seq<JobResult>)
    ensures |SucceededIds(results)| + |Errored(results)| == |results|
  {
    if results != [] {
      OutcomesAddUp(results[..|results| - 1]);
    }
  }

  lemma CollectedHold(c: Config, s: State)
    requires Conserved(s) && BatchSound(c, s) && |s.collected| == |s.batch|
    ensures forall job <- s.batch ::
              job.id in s.done && s.done[job.id] in s.collected && s.done[job.id].job.id == job.id
  {
    forall job | job in s.batch
      ensures job.id in s.done && s.done[job.id] in s.collected && s.done[job.id].job.id == job.id
    {
      AllWorked(s, job);
      CollectedCount(s, s.done[job.id]);
    }
  }

  lemma RecordingWrites(c: Config, s: State, s': State)
    requires Apply(c, s, Record) == Some(s')
    ensures |s.collected| == |s.batch|
    ensures s'.tables == Recorded(s.tables, SucceededIds(s.collected), Errored(s.collected), s.clock)
  {
  }

  /** What recording a batch makes of the tables. */
  lemma RecordStep(c: Config, s: State, s': State)
    requires Inv(c, s) && Apply(c, s, Record) == Some(s')
    ensures Settled(s.tables, s'.tables, s.batch, c.handle)
    ensures s.done.Keys == IdSet(s.batch)
    ensures forall job <- s.batch :: c.handle(job).Some? ==>
              job.id in s.done && job.id in s'.tables.jobs && s'.tables.jobs[job.id] == s.done[job.id].job
  {
    RecordingWrites(c, s, s');
    AllCollected(c, s);
    CollectedHold(c, s);
    BatchRows(s.tables, s.batch, c.handle, s.collected, s.clock, s.done, s'.tables);
  }

  lemma BatchRows(
    t: Tables, batch: seq<Job>, handle: Job -> Option<seq<string>>, results: seq<JobResult>, now: int,
    done: map<int, JobResult>, t': Tables)
    requires ResultsOf(batch, handle, results) && RowsPresent(t, batch)
    requires t' == Recorded(t, SucceededIds(results), Errored(results), now)
    requires forall job <- batch :: job.id in done && done[job.id] in results && done[job.id].job.id == job.id
    ensures Settled(t, t', batch, handle)
    ensures forall job <- batch :: handle(job).Some? ==>
              job.id in done && job.id in t'.jobs && t'.jobs[job.id] == done[job.id].job
  {
    RecordingSettles(t, batch, handle, results, now);
    forall job | job in batch && handle(job).Some?
      ensures job.id in t'.jobs && t'.jobs[job.id] == done[job.id].job
    {
      ErroredRow(t, batch, handle, results, now, job, done[job.id]);
    }
  }

  lemma SettledTablesSound(t: Tables, t': Tables, batch: seq<Job>, handle: Job -> Option<seq<string>>)
    requires Settled(t, t', batch, handle)
    requires t.exceptions.Keys <= t.jobs.Keys && forall id <- t.jobs :: t.jobs[id].id == id
    ensures t'.exceptions.Keys <= t'.jobs.Keys && forall id <- t'.jobs :: t'.jobs[id].id == id
  {
    var failed := FailedSet(batch, handle);
    forall id | id in failed ensures id in t'.jobs && t'.jobs[id].id == id {
      var job :| job in batch && handle(job).Some? && job.id == id;
      assert Advanced(t', job, handle(job).value);
    }
  }

  lemma TablesSoundStep(c: Config, s: State, step: Step, s': State)
    requires Inv(c, s) && Apply(c, s, step) == Some(s')
    ensures TablesSound(s')
  {
    if step.Record? {
      RecordStep(c, s, s');
      SettledTablesSound(s.tables, s'.tables, s.batch, c.handle);
      OutcomesAddUp(s.collected);
    } else if step.RecordFails? {
      OutcomesAddUp(s.collected);
    } else {
      UnrecordedTablesSound(c, s, step, s');
    }
  }

  lemma UnrecordedTablesSound(c: Config, s: State, step: Step, s': State)
    requires TablesSound(s) && (s.phase != Batching ==> s.batch == [])
    requires Apply(c, s, step) == Some(s') && !step.Record? && !step.RecordFails?
    ensures TablesSound(s')
  {
  }

  // ---- Runs ---------------------------------------------------------------------------

  function Execute(c: Config, s: State, steps: seq<Step>): Option<State>
    decreases |steps|
  {
    if steps == [] then Some(s)
    else
      match Apply(c, s, steps[0])
      case None => None
      case Some(s1) => Execute(c, s1, steps[1..])
  }

  function Started(t: Tables, clock: int, numWorkers: nat): State {
    State(t, clock, Selecting, [], [], [], seq(numWorkers, _ => Idle), [], [], map[],
          History(map id | id in t.jobs :: 0, map[], map[], map[], map[]), Totals(0, 0, 0))
  }

  ghost predicate WellFormed(t: Tables) {
    t.exceptions.Keys <= t.jobs.Keys && forall id <- t.jobs :: t.jobs[id].id == id
  }

  lemma {:induction false} AllIdle(n: nat, x: Worker)
    ensures InHand(seq(n, _ => Idle)) == 0 && Count(seq(n, _ => Idle), x) == if x == Idle then n else 0
  {
    if n > 0 {
      assert seq(n, _ => Idle)[1..] == seq(n - 1, _ => Idle);
      AllIdle(n - 1, x);
    }
  }

  lemma StartedInv(c: Config, t: Tables, clock: int, numWorkers: nat)
    requires WellFormed(t)
    ensures Inv(c, Started(t, clock, numWorkers))
  {
    var s := Started(t, clock, numWorkers);
    AllIdle(numWorkers, Idle);
    forall job ensures Todo(s, job) == 0 {
      AllIdle(numWorkers, Working(job));
    }
    forall r ensures Unrecorded(s, r) == 0 {
      AllIdle(numWorkers, Holding(r));
    }
  }

  lemma InvStep(c: Config, s: State, step: Step, s': State)
    requires Inv(c, s) && Apply(c, s, step) == Some(s')
    ensures Inv(c, s')
  {
    ConservedStep(c, s, step, s');
    BatchSoundStep(c, s, step, s');
    WorkersSoundStep(c, s, step, s');
    TablesSoundStep(c, s, step, s');
  }

  /** Main result: in every state any interleaving can reach from the start, all
      jobs of the batch are accounted for exactly once. */
  lemma {:induction false} InvAlways(c: Config, s: State, steps: seq<Step>, s': State)
    requires Inv(c, s) && Execute(c, s, steps) == Some(s')
    ensures Inv(c, s')
    decreases |steps|
  {
    if steps != [] {
      var s1 := Apply(c, s, steps[0]).value;
      InvStep(c, s, steps[0], s1);
      InvAlways(c, s1, steps[1..], s');
    }
  }

  /** Whichever way the workers interleaved, a batch that can be recorded meets what
      the recording statements ask: every exception refers to a job, and no errored
      job is there twice or without its errors. */
  lemma RecordIsCalledSoundly(c: Config, s: State)
    requires Inv(c, s) && Apply(c, s, Record).Some?
    ensures s.tables.exceptions.Keys <= s.tables.jobs.Keys
    ensures DistinctResults(Errored(s.collected)) && forall r <- Errored(s.collected) :: r.e.Some?
    ensures |SucceededIds(s.collected)| + |Errored(s.collected)| == |s.batch|
  {
    AllCollected(c, s);
    ErroredAreDistinct(s.collected);
    OutcomesAddUp(s.collected);
  }

  /** Main result: whichever way the workers interleaved, the tables recorded for
      a batch are those of working it one job at a time, up to timestamps. */
  lemma RecordEqualsSequence(c: Config, s: State, s': State, at: int -> int)
    requires Inv(c, s) && Apply(c, s, Record) == Some(s')
    ensures Timeless(s'.tables) == Timeless(ProcessAll(s.tables, s.batch, c.handle, at))
  {
    AllCollected(c, s);
    BatchEqualsSequence(s.tables, s.batch, c.handle, s.collected, s.clock, at);
  }

  // ---- Totals ---------------------------------------------------------------------------

  lemma {:induction false} SucceededOnce(results: seq<JobResult>)
    requires DistinctResults(results)
    ensures |SucceededIds(results)| == |SetOf(SucceededIds(results))|
    decreases |results|
  {
    if results != [] {
      var init, last := results[..|results| - 1], results[|results| - 1];
      SucceededOnce(init);
      SucceededIdsAre(init);
      assert last.job.id !in SucceededIds(init);
      if last.e.None? {
        SetOfSnoc(SucceededIds(init), last.job.id);
      } else {
        assert SucceededIds(results) == SucceededIds(init);
      }
    }
  }

  lemma SetOfSnoc(ids: seq<int>, id: int)
    ensures SetOf(ids + [id]) == SetOf(ids) + {id}
  {
  }

  lemma {:induction false} ResultsOnce(results: seq<JobResult>)
    requires DistinctResults(results)
    ensures |ResultIds(results)| == |results|
    decreases |results|
  {
    if results != [] {
      var init, last := results[..|results| - 1], results[|results| - 1];
      ResultsOnce(init);
      assert results == init + [last];
      assert last.job.id !in ResultIds(init);
      assert ResultIds(results) == ResultIds(init) + {last.job.id};
    }
  }

  /** Main result: whether or not the recording then fails, a batch raises the totals by
      the number of its jobs that succeed and of those that fail. */
  lemma BatchIsCounted(c: Config, s: State, s': State)
    requires Inv(c, s) && (Apply(c, s, Record) == Some(s') || Apply(c, s, RecordFails) == Some(s'))
    ensures s'.totals.numSucceeded == s.totals.numSucceeded + |SucceededSet(s.batch, c.handle)|
    ensures s'.totals.numErrored == s.totals.numErrored + |FailedSet(s.batch, c.handle)|
    ensures s'.totals.numJobs == s.totals.numJobs
  {
    RecordingCounts(c, s, s');
    CollectedAreCounted(c, s);
  }

  lemma RecordingCounts(c: Config, s: State, s': State)
    requires Apply(c, s, Record) == Some(s') || Apply(c, s, RecordFails) == Some(s')
    ensures |s.collected| == |s.batch| && s'.totals == Counted(s.totals, s.collected)
  {
  }

  lemma CollectedAreCounted(c: Config, s: State)
    requires Inv(c, s) && |s.collected| == |s.batch|
    ensures |SucceededIds(s.collected)| == |SucceededSet(s.batch, c.handle)|
    ensures |Errored(s.collected)| == |FailedSet(s.batch, c.handle)|
  {
    AllCollected(c, s);
    OutcomesAreCounted(s.batch, c.handle, s.collected);
  }

  lemma OutcomesAreCounted(batch: seq<Job>, handle: Job -> Option<seq<string>>, results: seq<JobResult>)
    requires ResultsOf(batch, handle, results)
    ensures |SucceededIds(results)| == |SucceededSet(batch, handle)|
    ensures |Errored(results)| == |FailedSet(batch, handle)|
  {
    SucceededSetsAgree(batch, handle, results);
    FailedSetsAgree(batch, handle, results);
    SucceededOnce(results);
    ErroredAreDistinct(results);
    ResultsOnce(Errored(results));
  }

  /** The jobs worked in the batch so far with this outcome. */
  function Worked(done: map<int, JobResult>, failed: bool): set<int> {
    set id | id in done && done[id].e.Some? == failed
  }

  function TotalOf(totals: Totals, failed: bool): nat {
    if failed then totals.numErrored else totals.numSucceeded
  }

  /** A worker finishes a job, and its handler has this outcome. */
  predicate Finishes(c: Config, s: State, step: Step, failed: bool) {
    && step.Finish? && step.w < |s.workers| && s.workers[step.w].Working?
    && c.handle(s.workers[step.w].job).Some? == failed
  }

  /** How many of the jobs worked during these steps had this outcome. */
  function Finished(c: Config, s: State, steps: seq<Step>, failed: bool): nat
    decreases |steps|
  {
    if steps == [] || Apply(c, s, steps[0]).None? then 0
    else
      (if Finishes(c, s, steps[0], failed) then 1 else 0)
      + Finished(c, Apply(c, s, steps[0]).value, steps[1..], failed)
  }

  lemma BatchWorked(c: Config, s: State, failed: bool)
    requires Inv(c, s) && Apply(c, s, Record).Some?
    ensures Worked(s.done, failed) == if failed then FailedSet(s.batch, c.handle) else SucceededSet(s.batch, c.handle)
  {
    AllCollected(c, s);
    var outcome := if failed then FailedSet(s.batch, c.handle) else SucceededSet(s.batch, c.handle);
    forall id | id in s.done
      ensures id in Worked(s.done, failed) <==> id in outcome
    {
      var job :| job in s.batch && job.id == id;
      assert ResultFor(job, c.handle, s.done[id]);
      forall other | other in s.batch && other.id == id ensures other == job {
      }
    }
    forall id | id in outcome ensures id in s.done {
      assert id in IdSet(s.batch);
    }
  }

  lemma CountsStep(c: Config, s: State, step: Step, s': State, failed: bool)
    requires Inv(c, s) && Apply(c, s, step) == Some(s')
    ensures TotalOf(s'.totals, failed) + |Worked(s'.done, failed)| ==
            TotalOf(s.totals, failed) + |Worked(s.done, failed)| + if Finishes(c, s, step, failed) then 1 else 0
  {
    if step.Record? || step.RecordFails? {
      BatchIsCounted(c, s, s');
      BatchWorked(c, s, failed);
      assert Worked(s'.done, failed) == {};
    } else if step.Finish? {
      FinishCounts(c, s, step.w, s', failed);
    } else {
      OthersCountNothing(c, s, step, s');
    }
  }

  lemma OneMore(before: set<int>, after: set<int>, x: int, more: bool)
    requires x !in before
    requires forall y :: y in after <==> (y in before || (y == x && more))
    ensures |after| == |before| + if more then 1 else 0
  {
    var expected := if more then before + {x} else before;
    assert forall y :: y in after <==> y in expected;
    assert after == expected;
  }

  lemma OneMoreWorked(done: map<int, JobResult>, id: int, r: JobResult, failed: bool)
    requires id !in done
    ensures |Worked(done[id := r], failed)| == |Worked(done, failed)| + if r.e.Some? == failed then 1 else 0
  {
    var before, after := Worked(done, failed), Worked(done[id := r], failed);
    forall other ensures other in after <==> other in before || (other == id && r.e.Some? == failed) {
    }
    OneMore(before, after, id, r.e.Some? == failed);
  }

  lemma FinishCounts(c: Config, s: State, w: nat, s': State, failed: bool)
    requires Inv(c, s) && Apply(c, s, Finish(w)) == Some(s')
    ensures s'.totals == s.totals
    ensures |Worked(s'.done, failed)| == |Worked(s.done, failed)| + if Finishes(c, s, Finish(w), failed) then 1 else 0
  {
    WorkedJob(c, s, w);
    var job := s.workers[w].job;
    OneMoreWorked(s.done, job.id, ResultOf(c, job, s.clock), failed);
  }

  lemma OthersCountNothing(c: Config, s: State, step: Step, s': State)
    requires Apply(c, s, step) == Some(s') && !step.Record? && !step.RecordFails? && !step.Finish?
    ensures s'.done == s.done
    ensures s'.totals.numSucceeded == s.totals.numSucceeded && s'.totals.numErrored == s.totals.numErrored
  {
  }

  lemma {:induction false} TotalsFollow(c: Config, s: State, steps: seq<Step>, s': State, failed: bool)
    requires Inv(c, s) && Execute(c, s, steps) == Some(s')
    ensures TotalOf(s'.totals, failed) + |Worked(s'.done, failed)| ==
            TotalOf(s.totals, failed) + |Worked(s.done, failed)| + Finished(c, s, steps, failed)
    decreases |steps|
  {
    if steps != [] {
      var s1 := Apply(c, s, steps[0]).value;
      InvStep(c, s, steps[0], s1);
      CountsStep(c, s, steps[0], s1, failed);
      TotalsFollow(c, s1, steps[1..], s', failed);
    }
  }

  /** Main result: between batches, and so at the end of a run, each total is the number
      of jobs worked since the start with that outcome, however the workers
      interleaved. */
  lemma TotalsAreOutcomes(c: Config, t: Tables, clock: int, numWorkers: nat, steps: seq<Step>, s': State)
    requires WellFormed(t) && Execute(c, Started(t, clock, numWorkers), steps) == Some(s') && s'.phase != Batching
    ensures var s := Started(t, clock, numWorkers);
            && s'.totals.numSucceeded == Finished(c, s, steps, false)
            && s'.totals.numErrored == Finished(c, s, steps, true)
            && s'.totals.numJobs == s'.totals.numSucceeded + s'.totals.numErrored
  {
    var s := Started(t, clock, numWorkers);
    StartedInv(c, t, clock, numWorkers);
    InvAlways(c, s, steps, s');
    TotalsFollow(c, s, steps, s', false);
    TotalsFollow(c, s, steps, s', true);
    assert s'.done == map[];
    assert Worked(map[], false) == {} && Worked(map[], true) == {};
  }

  // ---- Batches ---------------------------------------------------------------------------

  /** A batch holds live jobs that are due, as their rows have them: all of them, or a
      thousand. */
  lemma BatchesAreDue(c: Config, s: State, jobs: seq<Job>)
    requires Apply(c, s, Select(jobs)).Some?
    ensures forall job <- jobs ::
              && job.id in s.tables.jobs && s.tables.jobs[job.id] == job
              && job.live && job.tryAt <= s.clock
    ensures DistinctIds(jobs) && |jobs| <= 1000
    ensures |jobs| < 1000 ==>
              forall id :: id in s.tables.jobs && s.tables.jobs[id].live && s.tables.jobs[id].tryAt <= s.clock
                           ==> id in IdSet(jobs)
  {
  }

  /** After a batch, or when there is nothing to do, a worker told to run once closes
      its work channel, and any other looks for jobs again. */
  lemma NextBatch(c: Config, s: State, step: Step, s': State)
    requires Apply(c, s, step) == Some(s') && (step.Record? || (step.Select? && step.jobs == []))
    ensures s'.phase == if c.runOnce then Closing(0) else Selecting
  {
  }

  /** Without being told to, a worker never stops unless a recording fails. */
  lemma {:induction false} LoopsOn(c: Config, s: State, steps: seq<Step>, s': State)
    requires !c.runOnce && (s.phase == Selecting || s.phase == Batching) && Execute(c, s, steps) == Some(s')
    requires forall i :: 0 <= i < |steps| ==> !steps[i].RecordFails?
    ensures s'.phase == Selecting || s'.phase == Batching
    decreases |steps|
  {
    if steps != [] {
      StaysOpen(c, s, steps[0], Apply(c, s, steps[0]).value);
      LoopsOn(c, Apply(c, s, steps[0]).value, steps[1..], s');
    }
  }

  lemma StaysOpen(c: Config, s: State, step: Step, s': State)
    requires !c.runOnce && (s.phase == Selecting || s.phase == Batching) && Apply(c, s, step) == Some(s')
    requires !step.RecordFails?
    ensures s'.phase == Selecting || s'.phase == Batching
  {
  }

  // ---- Progress -------------------------------------------------------------------------

  /** Main result: because a batch is no larger than either channel, no send
      ever waits. */
  lemma SendsNeverBlock(c: Config, s: State)
    requires Inv(c, s)
    ensures s.toSend != [] ==> Apply(c, s, Send).Some?
    ensures forall w: nat :: w < |s.workers| && s.workers[w].Holding? ==> Apply(c, s, Report(w)).Some?
  {
    forall w: nat | w < |s.workers| && s.workers[w].Holding? ensures |s.results| < MAX_JOBS {
      InHandAtLeast(s.workers, w);
    }
  }

  lemma {:induction false} InHandAtLeast(ws: seq<Worker>, w: nat)
    requires w < |ws| && (ws[w].Holding? || ws[w].Working?)
    ensures InHand(ws) >= 1
  {
    if w > 0 {
      InHandAtLeast(ws[1..], w - 1);
    }
  }

  lemma {:induction false} SomeInHand(ws: seq<Worker>) returns (w: nat)
    requires InHand(ws) > 0
    ensures w < |ws| && (ws[w].Working? || ws[w].Holding?)
  {
    if ws[0].Working? || ws[0].Holding? {
      w := 0;
    } else {
      var v := SomeInHand(ws[1..]);
      w := v + 1;
    }
  }

  lemma {:induction false} DueJobsOf(t: Tables, now: int, ids: set<int>) returns (jobs: seq<Job>)
    requires forall id <- t.jobs :: t.jobs[id].id == id
    requires forall id <- ids :: Due(t, now, id)
    ensures DistinctIds(jobs) && IdSet(jobs) == ids
    ensures forall job <- jobs :: job.id in t.jobs && t.jobs[job.id] == job
  {
    jobs := [];
    if ids != {} {
      var id := PickOne(ids);
      var rest := DueJobsOf(t, now, ids - {id});
      assert forall job <- rest :: job.id in IdSet(rest);
      jobs := [t.jobs[id]] + rest;
      assert IdSet(jobs) == {id} + IdSet(rest);
    }
  }

  lemma SelectionExists(t: Tables, now: int) returns (jobs: seq<Job>)
    requires forall id <- t.jobs :: t.jobs[id].id == id
    ensures IsSelection(t, now, jobs)
  {
    var due := set id | id in t.jobs && Due(t, now, id);
    var all := DueJobsOf(t, now, due);
    jobs := if |all| <= MAX_JOBS then all else all[..MAX_JOBS];
    assert forall job <- jobs :: job in all && job.id in IdSet(all);
  }

  predicate IsProgram(step: Step) {
    !step.Tick? && !step.Enqueue?
  }

  /** Main result: there is no deadlock. With at least one worker the program
      can always move until the run is over. */
  lemma NeverStuck(c: Config, s: State) returns (step: Step)
    requires Inv(c, s) && s.workers != [] && !Over(s)
    ensures IsProgram(step) && !step.RecordFails? && Apply(c, s, step).Some?
  {
    match s.phase
    case Selecting =>
      var jobs := SelectionExists(s.tables, s.clock);
      step := Select(jobs);
    case Batching =>
      SendsNeverBlock(c, s);
      if s.toSend != [] {
        step := Send;
      } else if |s.collected| == |s.batch| {
        step := Record;
      } else if s.results != [] {
        step := Collect;
      } else if InHand(s.workers) > 0 {
        var w := SomeInHand(s.workers);
        step := if s.workers[w].Holding? then Report(w) else Finish(w);
      } else {
        NothingInHand(s.workers);
        assert s.workers[0] in s.workers;
        step := Receive(0);
      }
    case Closing(n) =>
      NothingInHand(s.workers);
      assert s.workers[n] in s.workers;
      step := if s.workers[n] == Exited then Join else Exit(n);
    case Aborted =>
      NothingInHand(s.workers);
      var w: nat :| w < |s.workers| && s.workers[w] != Exited;
      assert s.workers[w] in s.workers;
      step := Exit(w);
  }

  function Load(w: Worker): nat {
    match w
    case Idle => 1
    case Working(_) => 4
    case Holding(_) => 3
    case Exited => 0
  }

  function TotalLoad(ws: seq<Worker>): nat {
    if ws == [] then 0 else Load(ws[0]) + TotalLoad(ws[1..])
  }

  /** How many steps the program can still take, at most, before a batch is
      recorded; when it runs once, before the run is over. */
  function Measure(s: State): nat {
    var n := |s.workers|;
    var left := 5 * |s.toSend| + 4 * |s.workQueue| + TotalLoad(s.workers) + |s.results|;
    match s.phase
    case Selecting => left + 5 * MAX_JOBS + n + 2
    case Batching => left + n + 1
    case Closing(joined) => left + if joined <= n then n - joined else 0
    case Aborted => left
  }

  lemma {:induction false} LoadReplaced(ws: seq<Worker>, i: nat, w: Worker)
    requires i < |ws|
    ensures TotalLoad(ws[i := w]) + Load(ws[i]) == TotalLoad(ws) + Load(w)
  {
    if i == 0 {
      assert ws[i := w][1..] == ws[1..];
    } else {
      assert ws[i := w][1..] == ws[1..][i - 1 := w];
      LoadReplaced(ws[1..], i - 1, w);
    }
  }

  lemma LoadFalls(c: Config, s: State, step: Step, s': State)
    requires Apply(c, s, step) == Some(s')
    requires step.Receive? || step.Finish? || step.Report? || step.Exit?
    ensures |s'.workers| == |s.workers| && Measure(s') == Measure(s) - 1
  {
    match step
    case Receive(w) => LoadReplaced(s.workers, w, Working(s.workQueue[0]));
    case Finish(w) => LoadReplaced(s.workers, w, Holding(ResultOf(c, s.workers[w].job, s.clock)));
    case Report(w) => LoadReplaced(s.workers, w, Idle);
    case Exit(w) => LoadReplaced(s.workers, w, Exited);
  }

  lemma MeasureFalls(c: Config, s: State, step: Step, s': State)
    requires Inv(c, s) && Apply(c, s, step) == Some(s')
    ensures |s'.workers| == |s.workers|
    ensures !IsProgram(step) ==> Measure(s') == Measure(s)
    ensures IsProgram(step) && (c.runOnce || !(step.Select? || step.Record?)) ==> Measure(s') < Measure(s)
  {
    if step.Receive? || step.Finish? || step.Report? || step.Exit? {
      LoadFalls(c, s, step, s');
    }
  }

  function ProgramSteps(steps: seq<Step>): nat {
    if steps == [] then 0 else (if IsProgram(steps[0]) then 1 else 0) + ProgramSteps(steps[1..])
  }

  /** The steps within one batch: nothing is selected or recorded. */
  predicate WithinBatch(steps: seq<Step>) {
    forall i :: 0 <= i < |steps| ==> !steps[i].Select? && !steps[i].Record?
  }

  /** Main result: between a selection and the recording of its results the program
      takes boundedly many steps however it interleaves, looping worker or not. */
  lemma {:induction false} BatchesAreBounded(c: Config, s: State, steps: seq<Step>, s': State)
    requires Inv(c, s) && WithinBatch(steps) && Execute(c, s, steps) == Some(s')
    ensures ProgramSteps(steps) + Measure(s') <= Measure(s)
    decreases |steps|
  {
    if steps != [] {
      var s1 := Apply(c, s, steps[0]).value;
      InvStep(c, s, steps[0], s1);
      MeasureFalls(c, s, steps[0], s1);
      BatchesAreBounded(c, s1, steps[1..], s');
    }
  }

  /** A step of a batch in progress, short of recording it, goes on with it. */
  lemma BatchGoesOn(c: Config, s: State, step: Step, s': State)
    requires s.phase == Batching && IsProgram(step) && !step.Record? && !step.RecordFails?
    requires Apply(c, s, step) == Some(s')
    ensures !step.Select? && s'.phase == Batching && s'.batch == s.batch
  {
  }

  /** Main result: a batch in progress can always be worked until all its results are
      collected and can be recorded, looping worker or not. */
  lemma {:induction false} BatchesFinish(c: Config, s: State) returns (steps: seq<Step>, s': State)
    requires Inv(c, s) && s.phase == Batching && s.workers != []
    ensures WithinBatch(steps) && Execute(c, s, steps) == Some(s')
    ensures s'.phase == Batching && s'.batch == s.batch && |s'.collected| == |s.batch|
    ensures Apply(c, s', Record).Some?
    decreases Measure(s)
  {
    var step := NeverStuck(c, s);
    var s1 := Apply(c, s, step).value;
    if step.Record? {
      steps, s' := [], s;
    } else {
      BatchGoesOn(c, s, step, s1);
      InvStep(c, s, step, s1);
      MeasureFalls(c, s, step, s1);
      var rest;
      rest, s' := BatchesFinish(c, s1);
      steps := [step] + rest;
      assert steps[1..] == rest;
    }
  }

  /** Main result: a run that works one batch takes boundedly many steps however
      it interleaves and whatever the environment does in between. */
  lemma {:induction false} RunsAreBounded(c: Config, s: State, steps: seq<Step>, s': State)
    requires c.runOnce && Inv(c, s) && Execute(c, s, steps) == Some(s')
    ensures ProgramSteps(steps) + Measure(s') <= Measure(s)
    decreases |steps|
  {
    if steps != [] {
      var s1 := Apply(c, s, steps[0]).value;
      InvStep(c, s, steps[0], s1);
      MeasureFalls(c, s, steps[0], s1);
      RunsAreBounded(c, s1, steps[1..], s');
    }
  }

  /** Main result: from anywhere it can be finished, and then every worker has
      exited, all were joined, nothing is left in a channel, and every job
      counted has succeeded or errored. */
  lemma {:induction false} RunsFinish(c: Config, s: State) returns (steps: seq<Step>, s': State)
    requires c.runOnce && Inv(c, s) && s.workers != []
    ensures Execute(c, s, steps) == Some(s') && Over(s')
    ensures s'.workQueue == [] && s'.results == [] && s'.collected == []
    ensures forall i :: 0 <= i < |s'.workers| ==> s'.workers[i] == Exited
    ensures s'.totals.numJobs == s'.totals.numSucceeded + s'.totals.numErrored
    decreases Measure(s)
  {
    if Over(s) {
      steps, s' := [], s;
      assert forall i :: 0 <= i < |s.workers| ==> s.workers[i] in s.workers;
    } else {
      var step := NeverStuck(c, s);
      var s1 := Apply(c, s, step).value;
      InvStep(c, s, step, s1);
      MeasureFalls(c, s, step, s1);
      var rest;
      rest, s' := RunsFinish(c, s1);
      steps := [step] + rest;
      assert steps[1..] == rest;
    }
  }

  // ---- Retries over whole runs ---------------------------------------------------------------

  /** A row's retry state agrees with when it failed. */
  predicate FailuresSound(h: History, clock: int, job: Job) {
    var id := job.id;
    && (job.numErrors == 0 ==> id !in h.first && id !in h.last)
    && (job.numErrors > 0 ==>
          && id in h.first && id in h.last
          && h.first[id] + TotalDelay(job.numErrors - 1) <= h.last[id] <= clock
          && (job.live ==> job.tryAt == h.last[id] + NextRetry(job.numErrors)))
  }

  /** Both histories say the same of when a job first and last failed. */
  predicate SameFailures(h: History, h': History, id: int) {
    && (id in h.first <==> id in h'.first) && (id in h.first ==> h.first[id] == h'.first[id])
    && (id in h.last <==> id in h'.last) && (id in h.last ==> h.last[id] == h'.last[id])
  }

  lemma FailuresCarry(h: History, h': History, clock: int, clock': int, job: Job)
    requires FailuresSound(h, clock, job) && SameFailures(h, h', job.id) && clock <= clock'
    ensures FailuresSound(h', clock', job)
  {
  }

  predicate RetrySound(s: State, id: int)
    requires id in s.tables.jobs
  {
    var job := s.tables.jobs[id];
    && 0 <= job.numErrors <= MAX_ERRORS
    && (job.live <==> job.numErrors < MAX_ERRORS)
    && id in s.history.attempts
    && s.history.attempts[id] == job.numErrors + Lost(s.history, id) + (if id in s.done then 1 else 0)
    && FailuresSound(s.history, s.clock, job)
    && (id in s.done && s.done[id].e.Some? ==> FailuresSound(Settle(s.history), s.clock, s.done[id].job))
  }

  /** Attempts are bounded, and nothing is remembered of jobs never enqueued. */
  ghost predicate HistorySound(h: History, done: map<int, JobResult>) {
    && (forall id <- h.attempts :: h.attempts[id] <= MAX_ERRORS + Lost(h, id))
    && (forall id <- h.pending :: id in done && done[id].e.Some? && id in h.attempts)
    && h.first.Keys <= h.attempts.Keys
    && h.last.Keys <= h.attempts.Keys
    && h.lost.Keys <= h.attempts.Keys
  }

  ghost predicate RetriesSound(s: State) {
    (forall id <- s.tables.jobs :: RetrySound(s, id)) && HistorySound(s.history, s.done)
  }

  /** A step does not touch what the retry state of a job depends on. */
  ghost predicate Untouched(s: State, s': State, id: int) {
    && id in s.tables.jobs && id in s'.tables.jobs && s'.tables.jobs[id] == s.tables.jobs[id]
    && s.clock <= s'.clock
    && id in s.history.attempts && id in s'.history.attempts
    && s'.history.attempts[id] == s.history.attempts[id] && Lost(s'.history, id) == Lost(s.history, id)
    && (id in s.done <==> id in s'.done) && (id in s.done ==> s'.done[id] == s.done[id])
    && SameFailures(s.history, s'.history, id)
    && SameFailures(Settle(s.history), Settle(s'.history), id)
  }

  lemma UntouchedRow(s: State, s': State, id: int)
    requires id in s.tables.jobs && RetrySound(s, id) && Untouched(s, s', id)
    requires s.tables.jobs[id].id == id && (id in s.done ==> s.done[id].job.id == id)
    ensures RetrySound(s', id)
  {
    FailuresCarry(s.history, s'.history, s.clock, s'.clock, s.tables.jobs[id]);
    if id in s.done && s.done[id].e.Some? {
      FailuresCarry(Settle(s.history), Settle(s'.history), s.clock, s'.clock, s.done[id].job);
    }
  }

  /** A result is kept under its own job's id. */
  lemma OwnResult(c: Config, s: State, id: int)
    requires Inv(c, s) && id in s.done
    ensures s.done[id].job.id == id
  {
    var job :| job in s.batch && job.id == id;
    assert ResultFor(job, c.handle, s.done[id]);
  }

  /** A due job that fails moves to its next sound retry state. */
  lemma FailureMovesOn(h: History, clock: int, job: Job)
    requires FailuresSound(h, clock, job) && 0 <= job.numErrors < MAX_ERRORS && job.live && job.tryAt <= clock
    ensures FailuresSound(Settle(Attempted(h, job.id, true, clock)), clock, CreateErroredJob(job, clock))
  {
    if job.numErrors > 0 {
      assert TotalDelay(job.numErrors) == TotalDelay(job.numErrors - 1) + NextRetry(job.numErrors);
    } else {
      assert TotalDelay(0) == 0;
    }
  }

  lemma FinishOwnRow(c: Config, s: State, w: nat, s': State)
    requires Inv(c, s) && RetriesSound(s) && Apply(c, s, Finish(w)) == Some(s')
    ensures var job := s.workers[w].job;
            && job.id in s'.tables.jobs && RetrySound(s', job.id)
            && s'.history.attempts[job.id] <= MAX_ERRORS + Lost(s'.history, job.id)
  {
    var job := s.workers[w].job;
    WorkedJob(c, s, w);
    assert Due(s.tables, s.clock, job.id) && s.tables.jobs[job.id] == job;
    assert RetrySound(s, job.id);
    FailureMovesOn(s.history, s.clock, job);
  }

  lemma FinishLeavesOthers(c: Config, s: State, w: nat, s': State, id: int)
    requires Apply(c, s, Finish(w)) == Some(s') && id in s.tables.jobs && id in s.history.attempts
    requires id != s.workers[w].job.id
    ensures Untouched(s, s', id)
  {
  }

  lemma FinishOtherRow(c: Config, s: State, w: nat, s': State, id: int)
    requires Inv(c, s) && Apply(c, s, Finish(w)) == Some(s')
    requires id in s.tables.jobs && id != s.workers[w].job.id && RetrySound(s, id)
    ensures RetrySound(s', id)
  {
    FinishLeavesOthers(c, s, w, s', id);
    if id in s.done {
      OwnResult(c, s, id);
    }
    UntouchedRow(s, s', id);
  }

  lemma FinishHistory(h: History, done: map<int, JobResult>, id: int, r: JobResult, now: int)
    requires HistorySound(h, done) && id in h.attempts && id !in done
    requires h.attempts[id] < MAX_ERRORS + Lost(h, id)
    ensures HistorySound(Attempted(h, id, r.e.Some?, now), done[id := r])
  {
    var h' := Attempted(h, id, r.e.Some?, now);
    assert forall other <- h'.attempts :: Lost(h', other) == Lost(h, other);
  }

  lemma FinishRetries(c: Config, s: State, w: nat, s': State)
    requires Inv(c, s) && RetriesSound(s) && Apply(c, s, Finish(w)) == Some(s')
    ensures RetriesSound(s')
  {
    var job := s.workers[w].job;
    WorkedJob(c, s, w);
    FinishOwnRow(c, s, w, s');
    forall id | id in s'.tables.jobs ensures RetrySound(s', id) {
      if id != job.id {
        FinishOtherRow(c, s, w, s', id);
      }
    }
    assert Due(s.tables, s.clock, job.id) && RetrySound(s, job.id);
    FinishHistory(s.history, s.done, job.id, ResultOf(c, job, s.clock), s.clock);
  }

  /** Recording leaves no result and no failure pending. */
  predicate SettledFrom(s: State, s': State) {
    s'.history == Settle(s.history) && s'.done == map[] && s'.clock == s.clock
  }

  /** A failure that is recorded becomes the row's last. */
  lemma FailedRow(s: State, s': State, id: int)
    requires id in s.tables.jobs && RetrySound(s, id) && SettledFrom(s, s')
    requires s.tables.jobs[id].live && id in s.done && s.done[id].e.Some?
    requires SameButTime(s.done[id].job, CreateErroredJob(s.tables.jobs[id], 0))
    requires id in s'.tables.jobs && s'.tables.jobs[id] == s.done[id].job
    ensures RetrySound(s', id)
  {
  }

  lemma UnworkedRow(s: State, s': State, id: int)
    requires id in s.tables.jobs && RetrySound(s, id) && SettledFrom(s, s')
    requires id !in s.done && id !in s.history.pending && s.tables.jobs[id].id == id
    requires id in s'.tables.jobs && s'.tables.jobs[id] == s.tables.jobs[id]
    ensures RetrySound(s', id)
  {
    FailuresCarry(s.history, s'.history, s.clock, s'.clock, s.tables.jobs[id]);
  }

  lemma SettledHistory(h: History, done: map<int, JobResult>)
    requires HistorySound(h, done)
    ensures HistorySound(Settle(h), map[])
  {
    var h' := Settle(h);
    forall id | id in h'.first ensures id in h'.attempts {
      assert id in h.first.Keys || id in h.pending;
    }
    forall id | id in h'.last ensures id in h'.attempts {
      assert id in h.last.Keys || id in h.pending;
    }
    assert forall id <- h'.attempts :: h'.attempts[id] == h.attempts[id] && Lost(h', id) == Lost(h, id);
  }

  lemma WorkedRowFailed(c: Config, s: State, t': Tables, id: int)
    requires BatchSound(c, s) && Settled(s.tables, t', s.batch, c.handle)
    requires s.done.Keys == IdSet(s.batch) && id in s.done && id in t'.jobs
    requires forall job <- s.batch :: c.handle(job).Some? ==>
               job.id in s.done && job.id in t'.jobs && t'.jobs[job.id] == s.done[job.id].job
    ensures id in s.tables.jobs && s.tables.jobs[id].live && s.done[id].e.Some?
    ensures SameButTime(s.done[id].job, CreateErroredJob(s.tables.jobs[id], 0)) && t'.jobs[id] == s.done[id].job
  {
    var job :| job in s.batch && job.id == id;
    assert Due(s.tables, s.clock, id) && ResultFor(job, c.handle, s.done[id]);
    assert c.handle(job).Some? by {
      assert id !in SucceededSet(s.batch, c.handle);
    }
  }

  lemma RecordedRow(c: Config, s: State, s': State, id: int)
    requires Inv(c, s) && RetriesSound(s) && Apply(c, s, Record) == Some(s') && id in s'.tables.jobs
    ensures RetrySound(s', id)
  {
    RecordStep(c, s, s');
    assert id in s.tables.jobs && RetrySound(s, id);
    if id in s.done {
      WorkedRowFailed(c, s, s'.tables, id);
      FailedRow(s, s', id);
    } else {
      assert id !in FailedSet(s.batch, c.handle);
      UnworkedRow(s, s', id);
    }
  }

  lemma RecordRetries(c: Config, s: State, s': State)
    requires Inv(c, s) && RetriesSound(s) && Apply(c, s, Record) == Some(s')
    ensures RetriesSound(s')
  {
    forall id | id in s'.tables.jobs ensures RetrySound(s', id) {
      RecordedRow(c, s, s', id);
    }
    SettledHistory(s.history, s.done);
  }

  /** A recording that fails leaves the rows as they were, and costs each job worked
      one attempt. */
  lemma RecordFailsRetries(c: Config, s: State, s': State)
    requires Inv(c, s) && RetriesSound(s) && Apply(c, s, RecordFails) == Some(s')
    ensures RetriesSound(s')
  {
    LosingRetries(c, s, s');
  }

  lemma LosingRetries(c: Config, s: State, s': State)
    requires Inv(c, s) && RetriesSound(s)
    requires s'.tables == s.tables && s'.clock == s.clock && s'.done == map[]
    requires s'.history == Lose(s.history, s.done.Keys)
    ensures RetriesSound(s')
  {
    forall id | id in s.done ensures id in s.history.attempts {
      var job :| job in s.batch && job.id == id;
      assert RetrySound(s, id);
    }
    forall id | id in s'.tables.jobs ensures RetrySound(s', id) {
      assert RetrySound(s, id);
      LostRow(s, s', id);
    }
    LostHistory(s.history, s.done);
  }

  lemma LostRow(s: State, s': State, id: int)
    requires id in s.tables.jobs && RetrySound(s, id) && s.tables.jobs[id].id == id
    requires s'.tables == s.tables && s'.clock == s.clock && s'.done == map[]
    requires s'.history == Lose(s.history, s.done.Keys)
    ensures RetrySound(s', id)
  {
    FailuresCarry(s.history, s'.history, s.clock, s'.clock, s.tables.jobs[id]);
  }

  lemma LostHistory(h: History, done: map<int, JobResult>)
    requires HistorySound(h, done) && forall id <- done :: id in h.attempts
    ensures HistorySound(Lose(h, done.Keys), map[])
  {
    var h' := Lose(h, done.Keys);
    assert forall id <- h'.attempts :: Lost(h', id) >= Lost(h, id);
  }

  /** Steps that leave rows, results and history alone keep retries sound. */
  lemma RetriesStay(s: State, s': State)
    requires RetriesSound(s)
    requires s'.tables == s.tables && s'.done == s.done && s'.history == s.history && s'.clock >= s.clock
    ensures RetriesSound(s')
  {
    forall id | id in s'.tables.jobs ensures RetrySound(s', id) {
      assert RetrySound(s, id);
    }
  }

  lemma EnqueueRetries(c: Config, s: State, job: Job, s': State)
    requires Inv(c, s) && RetriesSound(s) && Apply(c, s, Enqueue(job)) == Some(s')
    ensures RetriesSound(s')
  {
    assert job.id !in s.done by {
      assert job.id !in IdSet(s.batch) by {
        assert forall other <- s.batch :: other.id in s.tables.jobs;
      }
    }
    forall id | id in s'.tables.jobs ensures RetrySound(s', id) {
      if id != job.id {
        assert RetrySound(s, id);
        if id in s.done {
          OwnResult(c, s, id);
        }
        UntouchedRow(s, s', id);
      } else {
        EnqueuedRow(s, s', job);
      }
    }
  }

  lemma EnqueuedRow(s: State, s': State, job: Job)
    requires Fresh(job) && job.id !in s.done && job.id !in s.history.attempts && HistorySound(s.history, s.done)
    requires job.id in s'.tables.jobs && s'.tables.jobs[job.id] == job && s'.done == s.done
    requires s'.history == s.history.(attempts := s.history.attempts[job.id := 0])
    ensures RetrySound(s', job.id)
  {
  }

  lemma RetriesStep(c: Config, s: State, step: Step, s': State)
    requires Inv(c, s) && RetriesSound(s) && Apply(c, s, step) == Some(s')
    ensures RetriesSound(s')
  {
    match step
    case Enqueue(job) => EnqueueRetries(c, s, job, s');
    case Finish(w) => FinishRetries(c, s, w, s');
    case Record => RecordRetries(c, s, s');
    case RecordFails => RecordFailsRetries(c, s, s');
    case _ => RetriesStay(s, s');
  }

  /** Main result: over every run from freshly enqueued jobs, a job is live exactly
      while fewer than ten failures of it are recorded, its next attempt due the
      agreed delay after the last; it is attempted at most ten times, and once more
      for each of its results that a failed recording lost. */
  lemma {:induction false} RetriesAlways(c: Config, s: State, steps: seq<Step>, s': State)
    requires Inv(c, s) && RetriesSound(s) && Execute(c, s, steps) == Some(s')
    ensures RetriesSound(s')
    decreases |steps|
  {
    if steps != [] {
      var s1 := Apply(c, s, steps[0]).value;
      InvStep(c, s, steps[0], s1);
      RetriesStep(c, s, steps[0], s1);
      RetriesAlways(c, s1, steps[1..], s');
    }
  }

  lemma OnlyFailedRecordingsLose(c: Config, s: State, step: Step, s': State)
    requires Apply(c, s, step) == Some(s') && !step.RecordFails?
    ensures s'.history.lost == s.history.lost
  {
  }

  /** Main result: while no recording fails, no job is attempted more than ten times. */
  lemma {:induction false} AtMostTenAttempts(c: Config, s: State, steps: seq<Step>, s': State)
    requires Inv(c, s) && RetriesSound(s) && s.history.lost == map[] && Execute(c, s, steps) == Some(s')
    requires forall i :: 0 <= i < |steps| ==> !steps[i].RecordFails?
    ensures s'.history.lost == map[]
    ensures forall id <- s'.history.attempts :: s'.history.attempts[id] <= MAX_ERRORS
    decreases |steps|
  {
    if steps != [] {
      var s1 := Apply(c, s, steps[0]).value;
      InvStep(c, s, steps[0], s1);
      RetriesStep(c, s, steps[0], s1);
      OnlyFailedRecordingsLose(c, s, steps[0], s1);
      AtMostTenAttempts(c, s1, steps[1..], s');
    }
  }

  /** The next run on the same tables. Results not recorded by then are lost, whether
      the run before it was over, failed to record them or was killed. */
  function Restarted(s: State, numWorkers: nat): State {
    Started(s.tables, s.clock, numWorkers).(history := Lose(s.history, s.done.Keys))
  }

  /** A run of the program: its settings and its steps. */
  datatype Run = Run(c: Config, numWorkers: nat, steps: seq<Step>)

  function ExecuteRuns(s: State, runs: seq<Run>): Option<State>
    decreases |runs|
  {
    if runs == [] then Some(s)
    else
      match Execute(runs[0].c, Restarted(s, runs[0].numWorkers), runs[0].steps)
      case None => None
      case Some(s1) => ExecuteRuns(s1, runs[1..])
  }

  lemma RestartKeeps(c: Config, c': Config, s: State, numWorkers: nat)
    requires Inv(c, s) && RetriesSound(s)
    ensures Inv(c', Restarted(s, numWorkers)) && RetriesSound(Restarted(s, numWorkers))
  {
    StartedInv(c', s.tables, s.clock, numWorkers);
    LosingRetries(c, s, Restarted(s, numWorkers));
    assert Conserved(Restarted(s, numWorkers)) by {
      var started, restarted := Started(s.tables, s.clock, numWorkers), Restarted(s, numWorkers);
      assert forall job :: Todo(restarted, job) == Todo(started, job);
      assert forall r :: Unrecorded(restarted, r) == Unrecorded(started, r);
    }
  }

  /** Main result: the same over every sequence of runs on one job table, each ended
      anywhere: finished, stopped by a failed recording, or killed in mid-batch. */
  lemma {:induction false} RetriesAcrossRuns(c: Config, s: State, runs: seq<Run>, s': State)
    returns (last: Config)
    requires Inv(c, s) && RetriesSound(s) && ExecuteRuns(s, runs) == Some(s')
    ensures Inv(last, s') && RetriesSound(s')
    decreases |runs|
  {
    last := c;
    if runs != [] {
      var run := runs[0];
      var begun := Restarted(s, run.numWorkers);
      RestartKeeps(c, run.c, s, run.numWorkers);
      var s1 := Execute(run.c, begun, run.steps).value;
      InvAlways(run.c, begun, run.steps, s1);
      RetriesAlways(run.c, begun, run.steps, s1);
      last := RetriesAcrossRuns(run.c, s1, runs[1..], s');
    }
  }

  lemma StartedRetries(t: Tables, clock: int, numWorkers: nat)
    requires WellFormed(t) && forall id <- t.jobs :: Fresh(t.jobs[id])
    ensures RetriesSound(Started(t, clock, numWorkers))
  {
  }

  /** A job selected after its k-th failure waited k^4 + 3 seconds since then, and
      all the delays up to then since its first. Before the tenth attempt these
      come to 15360 seconds. */
  lemma DelaysAreRespected(c: Config, s: State, jobs: seq<Job>, s': State, job: Job)
    requires Inv(c, s) && RetriesSound(s) && Apply(c, s, Select(jobs)) == Some(s') && job in jobs
    requires job.numErrors > 0
    ensures job.id in s.history.first && job.id in s.history.last
    ensures s.clock >= s.history.last[job.id] + NextRetry(job.numErrors)
    ensures s.clock >= s.history.first[job.id] + TotalDelay(job.numErrors)
    ensures job.numErrors == MAX_ERRORS - 1 ==> s.clock >= s.history.first[job.id] + 15360
  {
    assert Due(s.tables, s.clock, job.id);
    assert RetrySound(s, job.id);
    assert s.done == map[];
    assert TotalDelay(job.numErrors) == TotalDelay(job.numErrors - 1) + NextRetry(job.numErrors);
    DelaysBeforeLastAttempt();
  }

  /** A dead job is never selected, and nothing the worker does revives it. */
  lemma DeadStaysDead(c: Config, s: State, step: Step, s': State, id: int)
    requires Inv(c, s) && Apply(c, s, step) == Some(s') && id in s.tables.jobs && !s.tables.jobs[id].live
    ensures id in s'.tables.jobs && s'.tables.jobs[id] == s.tables.jobs[id]
    ensures step.Select? ==> id !in IdSet(step.jobs)
  {
    if step.Record? {
      RecordStep(c, s, s');
      forall job | job in s.batch ensures job.id != id {
        assert Due(s.tables, s.clock, job.id);
      }
      assert id !in SucceededSet(s.batch, c.handle) && id !in FailedSet(s.batch, c.handle);
    }
  }
}
