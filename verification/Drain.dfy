/**
  The queue drains.  Once crashes, shutdowns, lost claims and lost updates stop, and whatever the
  database clock does but run backwards, every schedule makes boundedly many claims and moves
  between two losses of a lease.  From any reachable state and any clock some schedule loses
  none, and completes or fails every job.
 */
module Drain {
  import opened Options
  import opened Sums
  import opened JobQueue
  import opened Protocol
  import opened Invariant
  import opened QueueTheorems

  // ----- Which claims are still going to be reported

  /**
    At clock t the row is claimed, within its lease, by a worker that will neither release it
    nor fail on its deleted document.
   */
  predicate Live(s: State, t: int, id: JobId) {
    && id in s.db.jobs && s.db.jobs[id].worker.Some?
    && var w := s.db.jobs[id].worker.value;
    && OwnedInLease(s.db.jobs[id], w, t)
    && BusyAt(s, w) && s.workers[w].id == id && !s.workers[w].heartbeat.Broken?
    && (s.workers[w].pc.Done? && s.workers[w].pc.result.Indexed? ==> s.workers[w].pc.result.doc in s.db.documents)
  }

  predicate HoldsLive(s: State, t: int, w: WorkerId) {
    BusyAt(s, w) && Live(s, t, s.workers[w].id) && Owned(s.db.jobs[s.workers[w].id], w)
  }

  predicate Terminal(job: Job) {
    job.status.Completed? || job.status.Failed?
  }

  /**
    A step of a calm period: nothing crashes or arrives, claims are answered, and the calls of a
    worker within its lease reach the database.  A lease may still be lost by being late.
   */
  ghost predicate Quiet(s: State, t: int, step: Step)
    requires Enabled(s, step)
  {
    match step
    case ClaimNext(_, _, _, delivered) => delivered
    case RenewLease(w, _, delivery, cancelled) => HoldsLive(s, t, w) ==> delivery.Delivered? || cancelled
    case Finish(w, _, shutdown, delivery) => !shutdown && (HoldsLive(s, t, w) ==> !delivery.NotExecuted?)
    case Spawn(_) | RecoverAll(_) | StopHeartbeat(_) | Lookup(_) | Create(_, _, _, _) | Load(_) | Replace(_, _, _)
      | IndexError(_, _) => true
    case _ => false
  }

  /** Steps that move some job or worker forward; renewals and idle recoveries do not. */
  ghost predicate Progress(s: State, step: Step) {
    match step
    case Spawn(_) | RenewLease(_, _, _, _) => false
    case RecoverAll(now) => exists id :: id in s.db.jobs && Expired(s.db.jobs[id], now)
    case _ => true
  }

  /** The database clock at a step that follows clock t. */
  function At(t: int, step: Step): int {
    if Clock(step).Some? then Clock(step).value else t
  }

  ghost predicate QuietStep(s: State, t: int, step: Step) {
    Enabled(s, step) && t <= At(t, step) && Quiet(s, At(t, step), step)
  }

  /** A run of quiet steps from clock t on, with a clock that does not run backwards. */
  ghost predicate QuietRun(c: Config, s: State, t: int, steps: seq<Step>)
    decreases |steps|
  {
    steps == [] || (QuietStep(s, t, steps[0]) && QuietRun(c, Next(c, s, steps[0]), At(t, steps[0]), steps[1..]))
  }

  // ----- How much work is left

  /** The claims a job can still take: an expired one has to be taken again. */
  function Debt(c: Config, s: State, t: int, id: JobId): int {
    if id !in s.db.jobs || Terminal(s.db.jobs[id]) then 0
    else |c.delays| + 1 - s.db.jobs[id].retryCount - (if Live(s, t, id) then 1 else 0)
  }

  function Orphan(s: State, t: int, id: JobId): int {
    if id in s.db.jobs && s.db.jobs[id].status.Processing? && !Live(s, t, id) then 1 else 0
  }

  function Rank(s: State, w: WorkerId): int {
    if !BusyAt(s, w) then 0
    else
      var worker := s.workers[w];
      1 + (if worker.heartbeat.Beating? then 1 else 0)
        + (match worker.pc case Start => 2 case Building => 1 case Loaded(_) => 1 case Done(_) => 0)
  }

  function Weight(c: Config, s: State, t: int, id: JobId): int {
    6 * Debt(c, s, t, id) + Orphan(s, t, id)
  }

  /** |RetryDelays| + 1 - retry_count for a job that is not over yet. */
  function Budget(c: Config, s: State, id: JobId): int {
    if id !in s.db.jobs || Terminal(s.db.jobs[id]) then 0 else |c.delays| + 1 - s.db.jobs[id].retryCount
  }

  ghost function TotalDebt(c: Config, s: State, t: int): int { Sum(s.db.jobs.Keys, id => Debt(c, s, t, id)) }
  ghost function TotalBudget(c: Config, s: State): int { Sum(s.db.jobs.Keys, id => Budget(c, s, id)) }
  ghost function TotalWeight(c: Config, s: State, t: int): int { Sum(s.db.jobs.Keys, id => Weight(c, s, t, id)) }
  ghost function TotalRank(s: State): int { Sum(s.workers.Keys, w => Rank(s, w)) }
  ghost function Measure(c: Config, s: State, t: int): int {
    TotalWeight(c, s, t) + TotalRank(s)
  }

  // ----- The clock moves on

  /** 1 for a claim that was in its lease at t and no longer is at t'. */
  function Lapse(s: State, t: int, t': int, id: JobId): int {
    One(Live(s, t, id) && !Live(s, t', id))
  }

  ghost function LapsesAt(s: State, t: int, t': int): int { Sum(s.db.jobs.Keys, id => Lapse(s, t, t', id)) }

  /** Each lost lease is owed again. */
  lemma ClockMoves(c: Config, s: State, t: int, t': int)
    requires Inv(c, s) && t <= t'
    ensures TotalDebt(c, s, t') == TotalDebt(c, s, t) + LapsesAt(s, t, t')
    ensures TotalWeight(c, s, t') == TotalWeight(c, s, t) + 7 * LapsesAt(s, t, t')
    ensures 0 <= LapsesAt(s, t, t')
    ensures (forall id | Live(s, t, id) :: Live(s, t', id)) ==> LapsesAt(s, t, t') == 0
  {
    var jobs, lapse := s.db.jobs.Keys, id => Lapse(s, t, t', id);
    SumLinear(jobs, id => Debt(c, s, t, id), lapse, 1, id => Debt(c, s, t', id));
    SumLinear(jobs, id => Weight(c, s, t, id), lapse, 7, id => Weight(c, s, t', id));
    SumNonNegative(jobs, lapse);
    if forall id | Live(s, t, id) :: Live(s, t', id) {
      SumCongruent(jobs, lapse, _ => 0);
      SumZero(jobs);
    }
  }

  // ----- One step, at its own clock

  ghost predicate StepAt(s: State, t: int, step: Step) {
    Enabled(s, step) && At(t, step) == t && Quiet(s, t, step)
  }

  predicate Moves(step: Step, w: WorkerId) {
    match step
    case RecoverAll(_) | Upload(_, _, _) | ReadSource(_, _, _) | Reindex(_, _, _) | Abandon(_) | Delete(_) => false
    case _ => step.w == w
  }

  lemma OthersStay(c: Config, s: State, step: Step, w: WorkerId)
    requires Enabled(s, step) && !Moves(step, w) && BusyAt(s, w)
    ensures BusyAt(Next(c, s, step), w) && Next(c, s, step).workers[w] == s.workers[w]
  {
  }

  lemma DocumentsStay(c: Config, s: State, t: int, step: Step, d: DocId)
    requires Inv(c, s) && StepAt(s, t, step) && d in s.db.documents
    ensures d in Next(c, s, step).db.documents
  {
    if step.RecoverAll? || step.ClaimNext? || step.RenewLease? {
      assert Next(c, s, step).db.documents == s.db.documents;
    } else if step.Finish? {
      var worker := s.workers[step.w];
      assert WorkerOk(s, step.w, worker);
      ReportShape(s.db, worker.id, step.w, ReportOf(c, worker, step.shutdown), step.now);
    }
  }

  /** A quiet report of a live claim is accepted: the claim ends in a retry, a completion or a failure. */
  lemma LiveReport(c: Config, s: State, t: int, step: Step, id: JobId)
    requires Inv(c, s) && StepAt(s, t, step) && step.Finish? && Live(s, t, id)
    requires s.db.jobs[id].worker == Some(step.w)
    ensures id in Next(c, s, step).db.jobs
    ensures var row, row' := s.db.jobs[id], Next(c, s, step).db.jobs[id];
      Terminal(row') || (row'.status.Queued? && row'.retryCount == row.retryCount + 1)
    ensures var row, row' := s.db.jobs[id], Next(c, s, step).db.jobs[id];
      match s.workers[step.w].pc.result
      case Indexed(doc) => row'.status == Completed && row'.documentId == Some(doc)
      case IndexFailed(retryable) => if retryable && row.retryCount < |c.delays| then row'.status == Queued
                                     else row'.status == Failed
  {
    var worker := s.workers[step.w];
    assert HoldsLive(s, t, step.w);
    ReportMeans(c, s, step, id);
    var report := ReportOf(c, worker, false);
    assert !report.ReleaseIt? && (report.CompleteIt? ==> report.doc in s.db.documents);
    assert Next(c, s, step).db == Apply(s.db, id, step.w, report, step.now).db;
  }

  lemma OwnMoveKeepsLive(c: Config, s: State, t: int, step: Step, id: JobId)
    requires Inv(c, s) && StepAt(s, t, step) && Live(s, t, id) && !step.Finish?
    requires Moves(step, s.db.jobs[id].worker.value)
    ensures var w := s.db.jobs[id].worker.value;
      var s' := Next(c, s, step);
      && BusyAt(s', w) && s'.workers[w].id == id && !s'.workers[w].heartbeat.Broken?
      && (s'.workers[w].pc.Done? && s'.workers[w].pc.result.Indexed? ==> s'.workers[w].pc.result.doc in s'.db.documents)
  {
    assert HoldsLive(s, t, s.db.jobs[id].worker.value);
  }

  lemma LiveKept(c: Config, s: State, t: int, step: Step, id: JobId)
    requires Inv(c, s) && StepAt(s, t, step) && Live(s, t, id)
    requires id in Next(c, s, step).db.jobs && Next(c, s, step).db.jobs[id].status.Processing?
    ensures Live(Next(c, s, step), t, id)
  {
    var w := s.db.jobs[id].worker.value;
    RowStep(c, s, step, id);
    if step.Finish? && Moves(step, w) {
      LiveReport(c, s, t, step, id);
    } else if Moves(step, w) {
      OwnMoveKeepsLive(c, s, t, step, id);
    } else {
      OthersStay(c, s, step, w);
      if s.workers[w].pc.Done? && s.workers[w].pc.result.Indexed? {
        DocumentsStay(c, s, t, step, s.workers[w].pc.result.doc);
      }
    }
  }

  predicate ClaimOf(step: Step, id: JobId) {
    step.ClaimNext? && step.id == id
  }

  /** A claim whose reply arrives is live at once. */
  lemma ClaimIsLive(c: Config, s: State, t: int, step: Step, id: JobId)
    requires Inv(c, s) && StepAt(s, t, step) && ClaimOf(step, id)
    ensures Live(Next(c, s, step), t, id)
  {
  }

  /** Row by row, a quiet step never adds debt or weight, and a claim pays one unit of debt. */
  lemma RowDebt(c: Config, s: State, t: int, step: Step, id: JobId)
    requires Inv(c, s) && StepAt(s, t, step) && id in s.db.jobs
    ensures var s' := Next(c, s, step);
      && Debt(c, s', t, id) + One(ClaimOf(step, id)) <= Debt(c, s, t, id)
      && Weight(c, s', t, id) + 6 * One(ClaimOf(step, id)) <= Weight(c, s, t, id)
  {
    var s' := Next(c, s, step);
    RowStep(c, s, step, id);
    if Live(s, t, id) {
      if step.Finish? && s.db.jobs[id].worker == Some(step.w) {
        LiveReport(c, s, t, step, id);
      } else if s'.db.jobs[id].status.Processing? {
        LiveKept(c, s, t, step, id);
      }
    }
    if ClaimOf(step, id) {
      ClaimIsLive(c, s, t, step, id);
    }
  }

  lemma JobsStay(c: Config, s: State, t: int, step: Step)
    requires Inv(c, s) && StepAt(s, t, step)
    ensures Next(c, s, step).db.jobs.Keys == s.db.jobs.Keys
  {
    if step.Finish? {
      var worker := s.workers[step.w];
      assert WorkerOk(s, step.w, worker);
      ReportShape(s.db, worker.id, step.w, ReportOf(c, worker, step.shutdown), step.now);
    }
  }

  lemma DebtStep(c: Config, s: State, t: int, step: Step)
    requires Inv(c, s) && StepAt(s, t, step)
    ensures TotalDebt(c, Next(c, s, step), t) + One(step.ClaimNext?) <= TotalDebt(c, s, t)
  {
    var s' := Next(c, s, step);
    var before, after := id => Debt(c, s, t, id), id => Debt(c, s', t, id);
    JobsStay(c, s, t, step);
    forall id | id in s.db.jobs ensures after(id) + One(ClaimOf(step, id)) <= before(id) {
      RowDebt(c, s, t, step, id);
    }
    if step.ClaimNext? {
      SumDrop(s.db.jobs.Keys, before, after, step.id, 1);
    } else {
      SumMonotone(s.db.jobs.Keys, after, before);
    }
  }

  lemma WeightStep(c: Config, s: State, t: int, step: Step)
    requires Inv(c, s) && StepAt(s, t, step)
    ensures TotalWeight(c, Next(c, s, step), t)
      + (if step.ClaimNext? then 6 else if step.RecoverAll? && Progress(s, step) then 1 else 0)
      <= TotalWeight(c, s, t)
  {
    var s' := Next(c, s, step);
    var before, after := id => Weight(c, s, t, id), id => Weight(c, s', t, id);
    JobsStay(c, s, t, step);
    forall id | id in s.db.jobs ensures after(id) + 6 * One(ClaimOf(step, id)) <= before(id) {
      RowDebt(c, s, t, step, id);
    }
    if step.ClaimNext? {
      SumDrop(s.db.jobs.Keys, before, after, step.id, 6);
    } else if step.RecoverAll? && Progress(s, step) {
      var id :| id in s.db.jobs && Expired(s.db.jobs[id], step.now);
      RowDebt(c, s, t, step, id);
      assert s'.db.jobs[id] == Requeued(s.db.jobs[id], step.now);
      assert Orphan(s, t, id) == 1 && Orphan(s', t, id) == 0;
      SumDrop(s.db.jobs.Keys, before, after, id, 1);
    } else {
      SumMonotone(s.db.jobs.Keys, after, before);
    }
  }

  lemma RankOfMover(c: Config, s: State, t: int, step: Step, w: WorkerId)
    requires Inv(c, s) && StepAt(s, t, step) && Moves(step, w)
    ensures step.ClaimNext? ==> Rank(Next(c, s, step), w) <= 4
    ensures !step.ClaimNext? ==>
      Rank(Next(c, s, step), w) + One(Progress(s, step)) <= Rank(s, w)
  {
  }

  lemma RankOfOthers(c: Config, s: State, step: Step, w: WorkerId)
    requires Enabled(s, step) && !Moves(step, w) && w in s.workers
    ensures w in Next(c, s, step).workers && Rank(Next(c, s, step), w) == Rank(s, w)
  {
  }

  lemma WorkersStay(c: Config, s: State, step: Step)
    requires Enabled(s, step)
    ensures Next(c, s, step).workers.Keys == s.workers.Keys + (if step.Spawn? then {step.w} else {})
  {
  }

  lemma SpawnAddsNoRank(s: State, w: WorkerId)
    requires w !in s.workers
    ensures TotalRank(WithWorker(s, w, Idle)) == TotalRank(s)
  {
    var s' := WithWorker(s, w, Idle);
    SumRemove(s'.workers.Keys, v => Rank(s', v), w);
    assert s'.workers.Keys - {w} == s.workers.Keys;
    SumCongruent(s.workers.Keys, v => Rank(s, v), v => Rank(s', v));
  }

  lemma MoveChangesOneRank(s: State, s': State, w: WorkerId)
    requires s'.workers.Keys == s.workers.Keys && w in s.workers
    requires forall v | v in s.workers && v != w :: Rank(s', v) == Rank(s, v)
    ensures TotalRank(s') - TotalRank(s) == Rank(s', w) - Rank(s, w)
  {
    SumUpdate(s.workers.Keys, v => Rank(s, v), v => Rank(s', v), w);
  }

  lemma RankStep(c: Config, s: State, t: int, step: Step)
    requires Inv(c, s) && StepAt(s, t, step)
    ensures TotalRank(Next(c, s, step))
      <= TotalRank(s) + (if step.ClaimNext? then 4 else if Progress(s, step) && !step.RecoverAll? then -1 else 0)
  {
    var s' := Next(c, s, step);
    if step.Spawn? {
      SpawnAddsNoRank(s, step.w);
    } else if step.RecoverAll? {
      SumCongruent(s.workers.Keys, v => Rank(s, v), v => Rank(s', v));
    } else {
      WorkersStay(c, s, step);
      forall v | v in s.workers && v != step.w ensures Rank(s', v) == Rank(s, v) {
        RankOfOthers(c, s, step, v);
      }
      RankOfMover(c, s, t, step, step.w);
      MoveChangesOneRank(s, s', step.w);
    }
  }

  lemma MeasureStep(c: Config, s: State, t: int, step: Step)
    requires Inv(c, s) && StepAt(s, t, step)
    ensures Measure(c, Next(c, s, step), t) + One(Progress(s, step)) <= Measure(c, s, t)
  {
    WeightStep(c, s, t, step);
    RankStep(c, s, t, step);
  }

  // ----- Whole runs

  function Claims(steps: seq<Step>): int {
    if steps == [] then 0 else One(steps[0].ClaimNext?) + Claims(steps[1..])
  }

  ghost function Moved(c: Config, s: State, t: int, steps: seq<Step>): int
    requires QuietRun(c, s, t, steps)
    decreases |steps|
  {
    if steps == [] then 0
    else One(Progress(s, steps[0])) + Moved(c, Next(c, s, steps[0]), At(t, steps[0]), steps[1..])
  }

  /** How many leases of live claims run out along the way. */
  ghost function Lapses(c: Config, s: State, t: int, steps: seq<Step>): int
    requires QuietRun(c, s, t, steps)
    decreases |steps|
  {
    if steps == [] then 0
    else LapsesAt(s, t, At(t, steps[0])) + Lapses(c, Next(c, s, steps[0]), At(t, steps[0]), steps[1..])
  }

  function ClockAfter(t: int, steps: seq<Step>): int
    decreases |steps|
  {
    if steps == [] then t else ClockAfter(At(t, steps[0]), steps[1..])
  }

  lemma {:induction false} QuietRunRuns(c: Config, s: State, t: int, steps: seq<Step>)
    requires Inv(c, s) && QuietRun(c, s, t, steps)
    ensures Runs(c, s, steps) && Inv(c, Exec(c, s, steps))
    decreases |steps|
  {
    if steps != [] {
      InvKept(c, s, steps[0]);
      QuietRunRuns(c, Next(c, s, steps[0]), At(t, steps[0]), steps[1..]);
    }
  }

  /** A quiet step pays for its claim and its progress, after the clock has moved on. */
  lemma QuietStepPays(c: Config, s: State, t: int, step: Step)
    requires Inv(c, s) && QuietStep(s, t, step)
    ensures var s', t' := Next(c, s, step), At(t, step);
      && TotalDebt(c, s', t') + One(step.ClaimNext?) <= TotalDebt(c, s, t) + LapsesAt(s, t, t')
      && Measure(c, s', t') + One(Progress(s, step)) <= Measure(c, s, t) + 7 * LapsesAt(s, t, t')
  {
    var t' := At(t, step);
    ClockMoves(c, s, t, t');
    DebtStep(c, s, t', step);
    MeasureStep(c, s, t', step);
  }

  lemma {:induction false} RunPays(c: Config, s: State, t: int, steps: seq<Step>)
    requires Inv(c, s) && QuietRun(c, s, t, steps)
    requires Runs(c, s, steps)
    ensures var end, u := Exec(c, s, steps), ClockAfter(t, steps);
      && Claims(steps) + TotalDebt(c, end, u) <= TotalDebt(c, s, t) + Lapses(c, s, t, steps)
      && Moved(c, s, t, steps) + Measure(c, end, u) <= Measure(c, s, t) + 7 * Lapses(c, s, t, steps)
    decreases |steps|
  {
    if steps != [] {
      InvKept(c, s, steps[0]);
      QuietStepPays(c, s, t, steps[0]);
      RunPays(c, Next(c, s, steps[0]), At(t, steps[0]), steps[1..]);
    }
  }

  lemma DebtsAreNonNegative(c: Config, s: State, t: int)
    requires Inv(c, s)
    ensures 0 <= TotalDebt(c, s, t) <= TotalBudget(c, s) && 0 <= Measure(c, s, t)
  {
    forall id | id in s.db.jobs ensures 0 <= Debt(c, s, t, id) <= Budget(c, s, id) && 0 <= Weight(c, s, t, id) {
      assert RowOk(c, s.db.jobs[id]);
    }
    SumNonNegative(s.db.jobs.Keys, id => Debt(c, s, t, id));
    SumMonotone(s.db.jobs.Keys, id => Debt(c, s, t, id), id => Budget(c, s, id));
    SumNonNegative(s.db.jobs.Keys, id => Weight(c, s, t, id));
    SumNonNegative(s.workers.Keys, w => Rank(s, w));
  }

  /**
    From any reachable state and clock, a quiet run of any length makes at most the remaining
    budget of claims, summed over the jobs that are not over, and one more for every lease that
    is lost on the way; and its moves are bounded in the same manner.
   */
  lemma DrainBound(c: Config, s: State, t: int, steps: seq<Step>)
    requires Reachable(c, s) && QuietRun(c, s, t, steps)
    ensures Claims(steps) <= TotalBudget(c, s) + Lapses(c, s, t, steps)
    ensures Moved(c, s, t, steps) <= Measure(c, s, t) + 7 * Lapses(c, s, t, steps)
  {
    ReachableInv(c, s);
    QuietRunRuns(c, s, t, steps);
    RunPays(c, s, t, steps);
    DebtsAreNonNegative(c, s, t);
    DebtsAreNonNegative(c, Exec(c, s, steps), ClockAfter(t, steps));
  }

  // ----- No job is stranded

  /** The step can be taken at clock t or later, moves something, and lets no lease run out. */
  ghost predicate MovesOn(s: State, t: int, step: Step) {
    QuietStep(s, t, step) && Progress(s, step) && forall id | Live(s, t, id) :: Live(s, At(t, step), id)
  }

  /** A busy worker can move at once, whether its lease still runs or not. */
  lemma BusyWorkerMoves(s: State, t: int, w: WorkerId) returns (step: Step)
    requires BusyAt(s, w)
    ensures MovesOn(s, t, step)
  {
    var worker := s.workers[w];
    if worker.heartbeat.Beating? {
      step := StopHeartbeat(w);
    } else if !worker.pc.Done? {
      step := IndexError(w, false);
    } else {
      step := Finish(w, t, false, Delivered);
    }
  }

  function Later(a: int, b: int): int {
    if a < b then b else a
  }

  /**
    While a job is not over and some worker survives, at every clock a quiet step at that clock or
    later moves things forward without letting a lease run out.
   */
  lemma NotStranded(c: Config, s: State, t: int, id: JobId, survivor: WorkerId) returns (step: Step)
    requires Inv(c, s) && id in s.db.jobs && !Terminal(s.db.jobs[id])
    requires survivor in s.workers && !s.workers[survivor].Gone?
    ensures MovesOn(s, t, step)
  {
    var row := s.db.jobs[id];
    assert RowOk(c, row);
    if w :| w in s.workers && s.workers[w].Busy? {
      step := BusyWorkerMoves(s, t, w);
    } else if row.status.Queued? {
      step := ClaimNext(survivor, id, Later(t, row.nextAttemptAt), true);
    } else {
      step := RecoverAll(Later(t, row.leaseUntil.value + 1));
      assert Expired(row, step.now);
    }
  }

  ghost predicate AllOver(s: State) {
    forall id | id in s.db.jobs :: Terminal(s.db.jobs[id])
  }

  /** A quiet run that has come to rest, with a worker left, leaves every job completed or failed. */
  lemma DrainedAtRest(c: Config, s: State, t: int, steps: seq<Step>, survivor: WorkerId)
    requires Reachable(c, s) && QuietRun(c, s, t, steps)
    requires Runs(c, s, steps)
    requires var end := Exec(c, s, steps);
      && survivor in end.workers && !end.workers[survivor].Gone?
      && forall step :: !MovesOn(end, ClockAfter(t, steps), step)
    ensures AllOver(Exec(c, s, steps))
  {
    var end := Exec(c, s, steps);
    ReachableInv(c, s);
    QuietRunRuns(c, s, t, steps);
    forall id | id in end.db.jobs ensures Terminal(end.db.jobs[id]) {
      if !Terminal(end.db.jobs[id]) {
        var step := NotStranded(c, end, ClockAfter(t, steps), id, survivor);
        assert false;
      }
    }
  }

  lemma SurvivorStays(c: Config, s: State, t: int, step: Step, w: WorkerId)
    requires QuietStep(s, t, step) && w in s.workers && !s.workers[w].Gone?
    ensures w in Next(c, s, step).workers && !Next(c, s, step).workers[w].Gone?
  {
  }

  /** A run that loses no lease and ends with every job over. */
  ghost predicate Drains(c: Config, s: State, t: int, steps: seq<Step>) {
    && QuietRun(c, s, t, steps) && Runs(c, s, steps) && Lapses(c, s, t, steps) == 0
    && AllOver(Exec(c, s, steps))
  }

  lemma DrainsStep(c: Config, s: State, t: int, step: Step, rest: seq<Step>)
    requires Inv(c, s) && MovesOn(s, t, step) && Drains(c, Next(c, s, step), At(t, step), rest)
    ensures Drains(c, s, t, [step] + rest)
  {
    assert ([step] + rest)[1..] == rest;
    ClockMoves(c, s, t, At(t, step));
  }

  /**
    From any reachable state and clock, with a worker left, the queue can be drained without
    losing a lease, within the remaining budget of claims.
   */
  lemma CanDrain(c: Config, s: State, t: int, survivor: WorkerId) returns (steps: seq<Step>)
    requires Reachable(c, s) && survivor in s.workers && !s.workers[survivor].Gone?
    ensures Drains(c, s, t, steps) && Claims(steps) <= TotalBudget(c, s)
  {
    ReachableInv(c, s);
    steps := DrainFrom(c, s, t, survivor);
    DrainBound(c, s, t, steps);
  }

  lemma {:induction false} DrainFrom(c: Config, s: State, t: int, survivor: WorkerId) returns (steps: seq<Step>)
    requires Inv(c, s) && survivor in s.workers && !s.workers[survivor].Gone?
    ensures Drains(c, s, t, steps)
    decreases Measure(c, s, t)
  {
    if AllOver(s) {
      steps := [];
    } else {
      var id :| id in s.db.jobs && !Terminal(s.db.jobs[id]);
      var step := NotStranded(c, s, t, id, survivor);
      var s', t' := Next(c, s, step), At(t, step);
      InvKept(c, s, step);
      ClockMoves(c, s, t, t');
      QuietStepPays(c, s, t, step);
      DebtsAreNonNegative(c, s', t');
      SurvivorStays(c, s, t, step, survivor);
      var rest := DrainFrom(c, s', t', survivor);
      steps := [step] + rest;
      DrainsStep(c, s, t, step, rest);
    }
  }
}
