/** What the protocol guarantees about claims, retries, leases and documents, over all runs. */
module QueueTheorems {
  import opened Options
  import opened JobQueue
  import opened Protocol
  import opened Invariant

  // ----- The moves of a row

  /** Two rows that differ at most by a cleared link to a deleted document. */
  predicate SameRow(a: Job, b: Job) {
    b == a || b == a.(documentId := None)
  }

  /** What a worker's report does to the row it owns. */
  predicate ReportMove(row: Job, row': Job, w: WorkerId, report: Report, now: int) {
    match report
    case ReleaseIt => Owned(row, w) && row' == Requeued(row, now)
    case CompleteIt(doc) => OwnedInLease(row, w, now) && row' == Finished(row, doc, now)
    case RetryIt(delay) => OwnedInLease(row, w, now) && row' == FailedFor(row, Some(delay), now)
    case FailIt => OwnedInLease(row, w, now) && row' == FailedFor(row, None, now)
  }

  /** The worker holds this claim of the row, and not an earlier one. */
  ghost predicate Holds(s: State, w: WorkerId, id: JobId, row: Job) {
    BusyAt(s, w) && s.workers[w].id == id && row.worker == Some(w)
    && row.attempts == s.workers[w].job.attempts && row.retryCount == s.workers[w].job.retryCount
  }

  /** Every way in which a step can change the row of job `id`. */
  ghost predicate RowMove(c: Config, s: State, step: Step, id: JobId, row: Job, row': Job) {
    || row' == row
    || (step.Delete? && row' == row.(documentId := None))
    || (step.RecoverAll? && Expired(row, step.now) && row' == Requeued(row, step.now))
    || (step.ClaimNext? && step.id == id && Claimable(row, step.now) && row' == Claimed(row, step.w, c.lease, step.now))
    || (step.RenewLease? && Holds(s, step.w, id, row) && OwnedInLease(row, step.w, step.now)
        && row' == Renewed(row, c.lease, step.now))
    || (step.Finish? && Holds(s, step.w, id, row) && s.workers[step.w].pc.Done?
        && ReportMove(row, row', step.w, ReportOf(c, s.workers[step.w], step.shutdown), step.now))
  }

  lemma ReportIsMove(db: Db, id: JobId, w: WorkerId, report: Report, now: int)
    requires id in db.jobs && Apply(db, id, w, report, now).reply.Updated?
    ensures var out := Apply(db, id, w, report, now);
      id in out.db.jobs && ReportMove(db.jobs[id], out.db.jobs[id], w, report, now)
  {
  }

  lemma FinishMove(c: Config, s: State, step: Step, id: JobId)
    requires Inv(c, s) && Enabled(s, step) && id in s.db.jobs && step.Finish?
    ensures id in Next(c, s, step).db.jobs
    ensures RowMove(c, s, step, id, s.db.jobs[id], Next(c, s, step).db.jobs[id])
  {
    var worker := s.workers[step.w];
    var report := ReportOf(c, worker, step.shutdown);
    assert WorkerOk(s, step.w, worker);
    ReportShape(s.db, worker.id, step.w, report, step.now);
    if Apply(s.db, worker.id, step.w, report, step.now).reply.Updated? {
      ReportIsMove(s.db, worker.id, step.w, report, step.now);
    }
  }

  lemma RowStep(c: Config, s: State, step: Step, id: JobId)
    requires Inv(c, s) && Enabled(s, step) && id in s.db.jobs
    ensures id in Next(c, s, step).db.jobs
    ensures RowMove(c, s, step, id, s.db.jobs[id], Next(c, s, step).db.jobs[id])
    ensures step.ClaimNext? && step.id == id ==>
      Claimable(s.db.jobs[id], step.now) && Next(c, s, step).db.jobs[id] == Claimed(s.db.jobs[id], step.w, c.lease, step.now)
  {
    if step.Finish? {
      FinishMove(c, s, step, id);
    } else if step.RenewLease? {
      assert WorkerOk(s, step.w, s.workers[step.w]);
    }
  }

  /** Only an upload or a reindex adds a job, and it starts queued and unclaimed. */
  lemma NewRow(c: Config, s: State, step: Step, id: JobId)
    requires Inv(c, s) && Enabled(s, step) && id !in s.db.jobs && id in Next(c, s, step).db.jobs
    ensures var row := Next(c, s, step).db.jobs[id];
      row.status.Queued? && row.attempts == 0 && row.retryCount == 0
  {
    if step.Finish? {
      var worker := s.workers[step.w];
      assert WorkerOk(s, step.w, worker);
      ReportShape(s.db, worker.id, step.w, ReportOf(c, worker, step.shutdown), step.now);
    }
  }

  // ----- Fencing

  /** A statement that a busy worker issues for the job it holds. */
  predicate ByHolder(step: Step) {
    step.RenewLease? || step.Finish?
  }

  /**
    Every renewal or report that changes a row hits the very claim it was issued for: the row
    still carries the attempt number the worker received, although the statement only
    compares the worker's identifier.
   */
  lemma Fencing(c: Config, s: State, step: Step, id: JobId)
    requires Reachable(c, s) && Enabled(s, step) && ByHolder(step)
    requires id in s.db.jobs && id in Next(c, s, step).db.jobs
    requires Next(c, s, step).db.jobs[id] != s.db.jobs[id]
    ensures BusyAt(s, step.w) && s.workers[step.w].id == id
    ensures s.db.jobs[id].worker == Some(step.w)
    ensures s.db.jobs[id].attempts == s.workers[step.w].job.attempts
  {
    ReachableInv(c, s);
    RowStep(c, s, step, id);
  }

  /**
    The statements alone would not fence.  Were a worker to issue a completion for a claim it
    lost, after the same worker claimed the job again, the row of the newer claim would take it.
    It is the loop that handles one job at a time, with its heartbeat joined, that rules this out.
   */
  lemma StatementsAloneDoNotFence(db: Db, id: JobId, w: WorkerId, doc: DocId, lease: nat, now: int)
    requires id in db.jobs && Claimable(db.jobs[id], now) && doc in db.documents
    ensures var first := Claim(db, id, w, lease, now);
      var later := now + lease + 1;
      var recovered := Recover(first, later);
      && Claimable(recovered.jobs[id], later)
      && var second := Claim(recovered, id, w, lease, later);
         second.jobs[id].attempts == first.jobs[id].attempts + 1
         && Complete(second, id, w, doc, later).reply.Updated?
  {
  }

  // ----- The retry budget

  /** No reachable row has been retried more often than there are delays. */
  lemma RetryBudget(c: Config, s: State, id: JobId)
    requires Reachable(c, s) && id in s.db.jobs
    ensures s.db.jobs[id].retryCount <= |c.delays|
  {
    ReachableInv(c, s);
    assert RowOk(c, s.db.jobs[id]);
  }

  /**
    A row is retried only by its holder's report, and the delay is the one for the row's own
    count at that moment, although the worker chose it from the row its claim returned.
   */
  lemma AcceptedRetry(c: Config, s: State, step: Step, id: JobId)
    requires Reachable(c, s) && Enabled(s, step)
    requires id in s.db.jobs && id in Next(c, s, step).db.jobs
    requires Next(c, s, step).db.jobs[id].retryCount != s.db.jobs[id].retryCount
    ensures var row, row' := s.db.jobs[id], Next(c, s, step).db.jobs[id];
      && step.Finish? && row.retryCount < |c.delays|
      && row'.retryCount == row.retryCount + 1 && row'.status.Queued?
      && row'.nextAttemptAt == step.now + c.delays[row.retryCount]
  {
    ReachableInv(c, s);
    RowStep(c, s, step, id);
  }

  // ----- What stays of a job, and what a report makes of it

  /** The worker has a result for the job, and reports it. */
  predicate Reports(s: State, step: Step, id: JobId) {
    step.Finish? && BusyAt(s, step.w) && s.workers[step.w].id == id && s.workers[step.w].pc.Done?
  }

  lemma MoveKeepsIdentity(c: Config, s: State, step: Step, id: JobId, row: Job, row': Job)
    requires RowMove(c, s, step, id, row, row')
    ensures row'.payload == row.payload && row'.reindex == row.reindex && row'.createdAt == row.createdAt
    ensures row'.documentId != row.documentId ==>
      || (step.Delete? && row' == row.(documentId := None))
      || (Reports(s, step, id) && row'.status.Completed? && s.workers[step.w].pc.result.Indexed?
          && row'.documentId == Some(s.workers[step.w].pc.result.doc))
  {
  }

  /** A job keeps what it was created with. */
  lemma JobKeepsIdentity(c: Config, s: State, step: Step, id: JobId)
    requires Inv(c, s) && Enabled(s, step) && id in s.db.jobs
    ensures id in Next(c, s, step).db.jobs
    ensures var row, row' := s.db.jobs[id], Next(c, s, step).db.jobs[id];
      row'.payload == row.payload && row'.reindex == row.reindex && row'.createdAt == row.createdAt
  {
    RowStep(c, s, step, id);
    MoveKeepsIdentity(c, s, step, id, s.db.jobs[id], Next(c, s, step).db.jobs[id]);
  }

  /** The document and its chunks are gone, and so are the links to it; everything else stays. */
  lemma DeleteMeans(c: Config, s: State, doc: DocId)
    ensures var s' := Next(c, s, Delete(doc));
      && s'.db.documents.Keys == s.db.documents.Keys - {doc} && s'.db.chunks.Keys == s.db.chunks.Keys - {doc}
      && (forall d | d in s'.db.documents :: s'.db.documents[d] == s.db.documents[d])
      && (forall d | d in s'.db.chunks :: s'.db.chunks[d] == s.db.chunks[d])
      && s'.db.jobs.Keys == s.db.jobs.Keys
      && (forall id | id in s.db.jobs ::
            s'.db.jobs[id] == if s.db.jobs[id].documentId == Some(doc) then s.db.jobs[id].(documentId := None)
                              else s.db.jobs[id])
      && s'.workers == s.workers && s'.requests == s.requests && s'.born == s.born
  {
  }

  /**
    A job's document changes in two ways only: it is cleared when that document is deleted, and
    set when the job is completed, to the document the worker indexed.
   */
  lemma DocumentLinkChanges(c: Config, s: State, step: Step, id: JobId)
    requires Inv(c, s) && Enabled(s, step) && id in s.db.jobs
    requires id in Next(c, s, step).db.jobs && Next(c, s, step).db.jobs[id].documentId != s.db.jobs[id].documentId
    ensures var row, row' := s.db.jobs[id], Next(c, s, step).db.jobs[id];
      || (step.Delete? && row.documentId == Some(step.doc) && row' == row.(documentId := None))
      || (Reports(s, step, id) && row'.status.Completed? && s.workers[step.w].pc.result.Indexed?
          && row'.documentId == Some(s.workers[step.w].pc.result.doc))
  {
    RowStep(c, s, step, id);
    MoveKeepsIdentity(c, s, step, id, s.db.jobs[id], Next(c, s, step).db.jobs[id]);
    if step.Delete? {
      DeleteMeans(c, s, step.doc);
    }
  }

  /**
    What an executed report makes of a row within its lease, when the worker is neither shut down
    nor has lost its heartbeat: completed with the indexed document if that exists, retried after
    the delay for its count if the failure may be retried and the budget allows, else failed.
   */
  lemma ReportMeans(c: Config, s: State, step: Step, id: JobId)
    requires Inv(c, s) && Enabled(s, step) && Reports(s, step, id) && !step.delivery.NotExecuted?
    requires id in s.db.jobs && s.db.jobs[id].status == Processing && s.db.jobs[id].worker == Some(step.w)
    requires s.db.jobs[id].leaseUntil.Some? && step.now <= s.db.jobs[id].leaseUntil.value
    requires !step.shutdown && s.workers[step.w].heartbeat == Joined
    ensures id in Next(c, s, step).db.jobs
    ensures var row, row' := s.db.jobs[id], Next(c, s, step).db.jobs[id];
      match s.workers[step.w].pc.result
      case Indexed(doc) =>
        row' == if doc in s.db.documents
          then row.(status := Completed, documentId := Some(doc), leaseUntil := None, worker := None, updatedAt := step.now)
          else row
      case IndexFailed(retryable) =>
        row' == if retryable && row.retryCount < |c.delays|
          then row.(status := Queued, retryCount := row.retryCount + 1, nextAttemptAt := step.now + c.delays[row.retryCount],
                    leaseUntil := None, worker := None, updatedAt := step.now)
          else row.(status := Failed, leaseUntil := None, worker := None, updatedAt := step.now)
  {
    assert WorkerOk(s, step.w, s.workers[step.w]);
    assert ClaimOk(s, step.w, s.workers[step.w]);
  }

  /** A report after a shutdown or a lost heartbeat gives the job back, due at once, within its lease or not. */
  lemma ReleaseMeans(c: Config, s: State, step: Step, id: JobId)
    requires Inv(c, s) && Enabled(s, step) && Reports(s, step, id) && !step.delivery.NotExecuted?
    requires id in s.db.jobs && s.db.jobs[id].status == Processing && s.db.jobs[id].worker == Some(step.w)
    requires step.shutdown || s.workers[step.w].heartbeat == Broken
    ensures id in Next(c, s, step).db.jobs
    ensures var row, row' := s.db.jobs[id], Next(c, s, step).db.jobs[id];
      row' == row.(status := Queued, nextAttemptAt := step.now, leaseUntil := None, worker := None, updatedAt := step.now)
  {
  }

  // ----- Conservation of claims over whole runs

  datatype Event = ClaimedEv | ReleasedEv | RecoveredEv | CompletedEv

  ghost predicate Happens(e: Event, c: Config, s: State, step: Step, id: JobId)
    requires Enabled(s, step)
  {
    var s' := Next(c, s, step);
    id in s.db.jobs && id in s'.db.jobs && EventOn(e, step, s.db.jobs[id], s'.db.jobs[id])
  }

  ghost function Count(e: Event, c: Config, s: State, steps: seq<Step>, id: JobId): nat
    requires Runs(c, s, steps)
    decreases |steps|
  {
    if steps == [] then 0
    else (if Happens(e, c, s, steps[0], id) then 1 else 0) + Count(e, c, Next(c, s, steps[0]), steps[1..], id)
  }

  function Attempts(db: Db, id: JobId): int {
    if id in db.jobs then db.jobs[id].attempts else 0
  }

  function Retries(db: Db, id: JobId): int {
    if id in db.jobs then db.jobs[id].retryCount else 0
  }

  /** 1 while the last claim is neither retried, released nor recovered. */
  function Standing(db: Db, id: JobId): int {
    if id in db.jobs && !db.jobs[id].status.Queued? then 1 else 0
  }

  function Successes(db: Db, id: JobId): int {
    if id in db.jobs && db.jobs[id].status.Completed? then 1 else 0
  }

  function One(b: bool): int { if b then 1 else 0 }

  ghost predicate EventOn(e: Event, step: Step, row: Job, row': Job) {
    match e
    case ClaimedEv => step.ClaimNext? && row.status.Queued? && row'.status.Processing?
    case ReleasedEv =>
      step.Finish? && row.status.Processing? && row'.status.Queued? && row'.retryCount == row.retryCount
    case RecoveredEv => step.RecoverAll? && row.status.Processing? && row'.status.Queued?
    case CompletedEv => !row.status.Completed? && row'.status.Completed?
  }

  lemma MoveBalance(c: Config, s: State, step: Step, id: JobId, row: Job, row': Job)
    requires RowMove(c, s, step, id, row, row')
    ensures row'.attempts == row.attempts + One(EventOn(ClaimedEv, step, row, row'))
    ensures One(!row'.status.Queued?) + row'.retryCount - row'.attempts
      + One(EventOn(ReleasedEv, step, row, row')) + One(EventOn(RecoveredEv, step, row, row'))
      == One(!row.status.Queued?) + row.retryCount - row.attempts
    ensures One(row'.status.Completed?) == One(row.status.Completed?) + One(EventOn(CompletedEv, step, row, row'))
  {
  }

  lemma StepBalance(c: Config, s: State, step: Step, id: JobId)
    requires Inv(c, s) && Enabled(s, step)
    ensures var s' := Next(c, s, step);
      && Attempts(s'.db, id) == Attempts(s.db, id) + One(Happens(ClaimedEv, c, s, step, id))
      && Standing(s'.db, id) + Retries(s'.db, id) - Attempts(s'.db, id)
         + One(Happens(ReleasedEv, c, s, step, id)) + One(Happens(RecoveredEv, c, s, step, id))
         == Standing(s.db, id) + Retries(s.db, id) - Attempts(s.db, id)
      && Successes(s'.db, id) == Successes(s.db, id) + One(Happens(CompletedEv, c, s, step, id))
  {
    var s' := Next(c, s, step);
    if id in s.db.jobs {
      RowStep(c, s, step, id);
      MoveBalance(c, s, step, id, s.db.jobs[id], s'.db.jobs[id]);
    } else if id in s'.db.jobs {
      NewRow(c, s, step, id);
    }
  }

  lemma {:induction false} RunBalance(c: Config, s: State, steps: seq<Step>, id: JobId)
    requires Inv(c, s) && Runs(c, s, steps)
    ensures var s' := Exec(c, s, steps);
      && Attempts(s'.db, id) == Attempts(s.db, id) + Count(ClaimedEv, c, s, steps, id)
      && Standing(s'.db, id) + Retries(s'.db, id) - Attempts(s'.db, id)
         + Count(ReleasedEv, c, s, steps, id) + Count(RecoveredEv, c, s, steps, id)
         == Standing(s.db, id) + Retries(s.db, id) - Attempts(s.db, id)
      && Successes(s'.db, id) == Successes(s.db, id) + Count(CompletedEv, c, s, steps, id)
    decreases |steps|
  {
    if steps != [] {
      StepBalance(c, s, steps[0], id);
      InvKept(c, s, steps[0]);
      RunBalance(c, Next(c, s, steps[0]), steps[1..], id);
    }
  }

  /**
    Over any run from the empty database, attempts counts the claims of a job, and every claim
    is accounted for: by a retry, a release, a recovery, or by standing.  A job completes at
    most once, and exactly once when its row says so.
   */
  lemma ClaimConservation(c: Config, steps: seq<Step>, id: JobId)
    requires Runs(c, INITIAL, steps)
    requires id in Exec(c, INITIAL, steps).db.jobs
    ensures var row := Exec(c, INITIAL, steps).db.jobs[id];
      && row.attempts == Count(ClaimedEv, c, INITIAL, steps, id)
      && row.attempts == row.retryCount + Count(ReleasedEv, c, INITIAL, steps, id)
           + Count(RecoveredEv, c, INITIAL, steps, id) + (if row.status.Queued? then 0 else 1)
      && Count(CompletedEv, c, INITIAL, steps, id) == (if row.status.Completed? then 1 else 0)
  {
    RunBalance(c, INITIAL, steps, id);
  }

  /** The attempt number that a claim returns tells which claim of the job it is. */
  lemma AttemptsNumberClaims(c: Config, steps: seq<Step>, step: Step)
    requires Runs(c, INITIAL, steps) && Enabled(Exec(c, INITIAL, steps), step) && step.ClaimNext?
    ensures step.id in Next(c, Exec(c, INITIAL, steps), step).db.jobs
    ensures Next(c, Exec(c, INITIAL, steps), step).db.jobs[step.id].attempts
      == Count(ClaimedEv, c, INITIAL, steps, step.id) + 1
  {
    ClaimConservation(c, steps, step.id);
  }

  // ----- Rows that are done, leased or waiting

  /** completed and failed are absorbing. */
  lemma TerminalIsAbsorbing(c: Config, s: State, step: Step, id: JobId)
    requires Inv(c, s) && Enabled(s, step) && id in s.db.jobs
    requires s.db.jobs[id].status.Completed? || s.db.jobs[id].status.Failed?
    ensures id in Next(c, s, step).db.jobs && SameRow(s.db.jobs[id], Next(c, s, step).db.jobs[id])
  {
    RowStep(c, s, step, id);
  }

  /** A claim or renewal that changes a row leases it to its worker, for a full lease from its clock. */
  lemma GrantsFullLease(c: Config, s: State, step: Step, id: JobId)
    requires Inv(c, s) && Enabled(s, step) && (step.ClaimNext? || step.RenewLease?)
    requires id in s.db.jobs && id in Next(c, s, step).db.jobs && Next(c, s, step).db.jobs[id] != s.db.jobs[id]
    ensures var row, row' := s.db.jobs[id], Next(c, s, step).db.jobs[id];
      && Owned(row', step.w) && row'.leaseUntil == Some(step.now + c.lease)
      && (step.ClaimNext? <==> row.status.Queued?)
  {
    RowStep(c, s, step, id);
  }

  lemma MoveBack(c: Config, s: State, step: Step, id: JobId, row: Job, row': Job)
    requires RowMove(c, s, step, id, row, row') && row.status.Processing? && row'.status.Queued?
    ensures step.Finish? || step.RecoverAll?
    ensures row'.retryCount == row.retryCount ==> Claimable(row', step.now)
  {
  }

  /** A job that is given back or recovered, not retried, can be claimed again at once. */
  lemma GivenBackAtOnce(c: Config, s: State, step: Step, id: JobId)
    requires Inv(c, s) && Enabled(s, step) && id in s.db.jobs && id in Next(c, s, step).db.jobs
    requires s.db.jobs[id].status.Processing? && Next(c, s, step).db.jobs[id].status.Queued?
    ensures step.Finish? || step.RecoverAll?
    ensures Next(c, s, step).db.jobs[id].retryCount == s.db.jobs[id].retryCount ==>
      Claimable(Next(c, s, step).db.jobs[id], step.now)
  {
    RowStep(c, s, step, id);
    MoveBack(c, s, step, id, s.db.jobs[id], Next(c, s, step).db.jobs[id]);
  }

  /** The database clock read by a step, if it reads one. */
  function Clock(step: Step): Option<int> {
    match step
    case Upload(_, _, now) => Some(now)
    case Reindex(_, _, now) => Some(now)
    case RecoverAll(now) => Some(now)
    case ClaimNext(_, _, now, _) => Some(now)
    case RenewLease(_, now, _, _) => Some(now)
    case Finish(_, now, _, _) => Some(now)
    case _ => None
  }

  ghost predicate ClocksUpTo(steps: seq<Step>, limit: int) {
    forall i | 0 <= i < |steps| && Clock(steps[i]).Some? :: Clock(steps[i]).value <= limit
  }

  predicate OwnAction(step: Step, w: WorkerId) {
    ByHolder(step) && step.w == w
  }

  lemma LeaseStep(c: Config, s: State, step: Step, id: JobId, w: WorkerId)
    requires Inv(c, s) && Enabled(s, step) && id in s.db.jobs
    requires Owned(s.db.jobs[id], w)
    requires Clock(step).Some? ==> s.db.jobs[id].leaseUntil.Some? && Clock(step).value <= s.db.jobs[id].leaseUntil.value
    requires !OwnAction(step, w)
    ensures id in Next(c, s, step).db.jobs && SameRow(s.db.jobs[id], Next(c, s, step).db.jobs[id])
  {
    RowStep(c, s, step, id);
  }

  /**
    While its lease has not expired on the database clock, a claimed row changes only by its
    owner's own renewals and reports, whatever all the others do in the meantime.
   */
  lemma {:induction false} LeaseProtects(c: Config, s: State, steps: seq<Step>, id: JobId, w: WorkerId)
    requires Inv(c, s) && Runs(c, s, steps) && id in s.db.jobs && Owned(s.db.jobs[id], w)
    requires s.db.jobs[id].leaseUntil.Some? && ClocksUpTo(steps, s.db.jobs[id].leaseUntil.value)
    requires forall i | 0 <= i < |steps| :: !OwnAction(steps[i], w)
    ensures id in Exec(c, s, steps).db.jobs && SameRow(s.db.jobs[id], Exec(c, s, steps).db.jobs[id])
    decreases |steps|
  {
    if steps != [] {
      LeaseStep(c, s, steps[0], id, w);
      InvKept(c, s, steps[0]);
      LeaseProtects(c, Next(c, s, steps[0]), steps[1..], id, w);
    }
  }

  lemma ExpiredMove(c: Config, s: State, step: Step, id: JobId, row: Job, row': Job)
    requires RowMove(c, s, step, id, row, row') && ByHolder(step) && Expired(row, step.now)
    ensures row' == row || (step.Finish? && EventOn(ReleasedEv, step, row, row') && row' == Requeued(row, step.now))
  {
  }

  /** Once its lease is over, an owner can still give the job back, and nothing else. */
  lemma ExpiredOwnerCanOnlyRelease(c: Config, s: State, step: Step, id: JobId)
    requires Inv(c, s) && Enabled(s, step) && ByHolder(step)
    requires id in s.db.jobs && id in Next(c, s, step).db.jobs
    requires Expired(s.db.jobs[id], step.now)
    ensures var row, row' := s.db.jobs[id], Next(c, s, step).db.jobs[id];
      row' == row || (step.Finish? && Happens(ReleasedEv, c, s, step, id) && row' == Requeued(row, step.now))
  {
    RowStep(c, s, step, id);
    ExpiredMove(c, s, step, id, s.db.jobs[id], Next(c, s, step).db.jobs[id]);
  }

  lemma QueuedStep(c: Config, s: State, step: Step, id: JobId)
    requires Inv(c, s) && Enabled(s, step) && id in s.db.jobs && s.db.jobs[id].status.Queued?
    ensures id in Next(c, s, step).db.jobs
    ensures step.ClaimNext? && step.id == id ==> s.db.jobs[id].nextAttemptAt <= step.now
    ensures !(step.ClaimNext? && step.id == id) ==> SameRow(s.db.jobs[id], Next(c, s, step).db.jobs[id])
  {
    RowStep(c, s, step, id);
  }

  /** A queued job rests until its back-off is over: no run claims it at an earlier clock. */
  lemma {:induction false} BackoffRespected(c: Config, s: State, steps: seq<Step>, id: JobId)
    requires Inv(c, s) && Runs(c, s, steps) && id in s.db.jobs && s.db.jobs[id].status.Queued?
    requires forall i | 0 <= i < |steps| && steps[i].ClaimNext? && steps[i].id == id ::
      steps[i].now < s.db.jobs[id].nextAttemptAt
    ensures id in Exec(c, s, steps).db.jobs && SameRow(s.db.jobs[id], Exec(c, s, steps).db.jobs[id])
    decreases |steps|
  {
    if steps != [] {
      QueuedStep(c, s, steps[0], id);
      InvKept(c, s, steps[0]);
      BackoffRespected(c, Next(c, s, steps[0]), steps[1..], id);
    }
  }

  // ----- Document integrity

  lemma OneDocumentPerChecksum(c: Config, s: State, d: DocId, e: DocId)
    requires Reachable(c, s) && d in s.db.documents && e in s.db.documents
    requires s.db.documents[d].checksum == s.db.documents[e].checksum
    ensures d == e
  {
    ReachableInv(c, s);
    assert DocumentOk(s, d) && DocumentOk(s, e);
  }

  /** The stored chunks of a document are always cut from that document's own bytes. */
  lemma ChunksBelongToDocument(c: Config, s: State, d: DocId)
    requires Reachable(c, s) && d in s.db.documents
    ensures d in s.db.chunks && s.db.documents[d].checksum == Sha256(s.db.chunks[d])
  {
    ReachableInv(c, s);
    assert DocumentOk(s, d);
  }

  /** A completed job that still has its document holds its exact bytes, or is a reindex without any. */
  lemma CompletedJobHoldsItsDocument(c: Config, s: State, id: JobId, d: DocId)
    requires Reachable(c, s) && id in s.db.jobs && CompletedFor(s.db.jobs[id], d)
    ensures d in s.db.documents
    ensures s.db.documents[d].checksum == Sha256(s.db.jobs[id].payload)
      || (s.db.jobs[id].reindex && s.db.jobs[id].payload == [])
  {
    ReachableInv(c, s);
    assert LinkOk(s, s.db.jobs[id]) && DocumentOk(s, d);
  }

  /** The source lookup of a reindex request never returns another document's bytes. */
  lemma SourceIsOwnBytes(c: Config, s: State, d: DocId, payload: Bytes)
    requires Reachable(c, s) && d in s.db.documents && IsSource(s.db, d, payload)
    ensures payload == [] || s.db.documents[d].checksum == Sha256(payload)
  {
    if payload != [] {
      var id :| id in s.db.jobs && CompletedFor(s.db.jobs[id], d) && s.db.jobs[id].payload == payload;
      CompletedJobHoldsItsDocument(c, s, id, d);
    }
  }

  /** Right after a completion the source of its document is the completed job's payload. */
  lemma LatestCompletionIsSource(db: Db, id: JobId, w: WorkerId, doc: DocId, now: int, payload: Bytes)
    requires Complete(db, id, w, doc, now).reply.Updated?
    requires forall other | other in db.jobs && CompletedFor(db.jobs[other], doc) :: db.jobs[other].updatedAt < now
    ensures IsSource(Complete(db, id, w, doc, now).db, doc, payload) <==> payload == db.jobs[id].payload
  {
    var after := Complete(db, id, w, doc, now).db;
    assert CompletedFor(after.jobs[id], doc) && after.jobs[id].payload == db.jobs[id].payload;
    forall other | other in after.jobs && CompletedFor(after.jobs[other], doc)
      ensures AsRecent(after.jobs[id], after.jobs[other])
      ensures other != id ==> !AsRecent(after.jobs[other], after.jobs[id])
    {
      assert other != id ==> after.jobs[other] == db.jobs[other];
    }
  }
}
