/**
  The tables behind the ingestion queue and the effect of every SQL statement on them.

  Identifiers are natural numbers; a cleared worker_id column is None.  `now` is the database
  clock read by the statement.  The digest of a payload is injective, which is what the
  uniqueness of documents.checksum relies on.
 */
module JobQueue {
  import opened Options

  type JobId = nat
  type WorkerId = nat
  type DocId = nat
  newtype Byte = b: int | 0 <= b < 256
  type Bytes = seq<Byte>
  datatype Digest = Sha256(data: Bytes)

  datatype Status = Queued | Processing | Completed | Failed

  datatype Job = Job(
    payload: Bytes, reindex: bool, status: Status, attempts: nat, retryCount: nat,
    nextAttemptAt: int, leaseUntil: Option<int>, worker: Option<WorkerId>,
    documentId: Option<DocId>, createdAt: int, updatedAt: int)

  datatype Document = Document(checksum: Digest)

  /** `chunks` maps a document to the bytes its stored chunks were cut from. */
  datatype Db = Db(jobs: map<JobId, Job>, documents: map<DocId, Document>, chunks: map<DocId, Bytes>)

  /** What the caller of an UPDATE sees: one row changed, no row changed, or an error. */
  datatype Reply = Updated | Rejected | DbError
  datatype Outcome = Outcome(db: Db, reply: Reply)

  const EMPTY_DB := Db(map[], map[], map[])

  // ----- Guards in the WHERE clauses

  predicate Claimable(job: Job, now: int) {
    job.status.Queued? && job.nextAttemptAt <= now
  }

  predicate Expired(job: Job, now: int) {
    job.status.Processing? && (job.leaseUntil.None? || job.leaseUntil.value < now)
  }

  predicate Owned(job: Job, w: WorkerId) {
    job.status.Processing? && job.worker == Some(w)
  }

  predicate OwnedInLease(job: Job, w: WorkerId, now: int) {
    Owned(job, w) && job.leaseUntil.Some? && now <= job.leaseUntil.value
  }

  // ----- The SET clauses

  function Requeued(job: Job, now: int): Job {
    job.(status := Queued, nextAttemptAt := now, leaseUntil := None, worker := None, updatedAt := now)
  }

  function Claimed(job: Job, w: WorkerId, lease: int, now: int): Job {
    job.(status := Processing, attempts := job.attempts + 1, leaseUntil := Some(now + lease),
         worker := Some(w), updatedAt := now)
  }

  function Renewed(job: Job, lease: int, now: int): Job {
    job.(leaseUntil := Some(now + lease), updatedAt := now)
  }

  function Finished(job: Job, doc: DocId, now: int): Job {
    job.(status := Completed, documentId := Some(doc), leaseUntil := None, worker := None, updatedAt := now)
  }

  function FailedFor(job: Job, retry: Option<int>, now: int): Job {
    if retry.Some? then
      job.(status := Queued, retryCount := job.retryCount + 1, nextAttemptAt := now + retry.value,
           leaseUntil := None, worker := None, updatedAt := now)
    else
      job.(status := Failed, leaseUntil := None, worker := None, updatedAt := now)
  }

  // ----- Statements

  function Recover(db: Db, now: int): Db {
    db.(jobs := map id | id in db.jobs ::
      if Expired(db.jobs[id], now) then Requeued(db.jobs[id], now) else db.jobs[id])
  }

  function Claim(db: Db, id: JobId, w: WorkerId, lease: int, now: int): Db
    requires id in db.jobs
  {
    db.(jobs := db.jobs[id := Claimed(db.jobs[id], w, lease, now)])
  }

  function Renew(db: Db, id: JobId, w: WorkerId, lease: int, now: int): Outcome {
    if id in db.jobs && OwnedInLease(db.jobs[id], w, now) then
      Outcome(db.(jobs := db.jobs[id := Renewed(db.jobs[id], lease, now)]), Updated)
    else Outcome(db, Rejected)
  }

  /** The foreign key on document_id is only checked when a row matches. */
  function Complete(db: Db, id: JobId, w: WorkerId, doc: DocId, now: int): Outcome {
    if id !in db.jobs || !OwnedInLease(db.jobs[id], w, now) then Outcome(db, Rejected)
    else if doc !in db.documents then Outcome(db, DbError)
    else Outcome(db.(jobs := db.jobs[id := Finished(db.jobs[id], doc, now)]), Updated)
  }

  /** `retry` carries the back-off delay of a retry, None is the permanent failure. */
  function Fail(db: Db, id: JobId, w: WorkerId, retry: Option<int>, now: int): Outcome {
    if id in db.jobs && OwnedInLease(db.jobs[id], w, now) then
      Outcome(db.(jobs := db.jobs[id := FailedFor(db.jobs[id], retry, now)]), Updated)
    else Outcome(db, Rejected)
  }

  /** Unlike the others, a release does not look at the lease. */
  function Release(db: Db, id: JobId, w: WorkerId, now: int): Outcome {
    if id in db.jobs && Owned(db.jobs[id], w) then
      Outcome(db.(jobs := db.jobs[id := Requeued(db.jobs[id], now)]), Updated)
    else Outcome(db, Rejected)
  }

  function CreateJob(db: Db, id: JobId, payload: Bytes, doc: Option<DocId>, reindex: bool, now: int): Outcome
    requires id !in db.jobs
  {
    if doc.Some? && doc.value !in db.documents then Outcome(db, DbError)
    else
      var job := Job(payload, reindex, Queued, 0, 0, now, None, None, doc, now, now);
      Outcome(db.(jobs := db.jobs[id := job]), Updated)
  }

  /** Deleting a document cascades to its chunks and clears the jobs that point at it. */
  function DeleteDocument(db: Db, doc: DocId): Db {
    Db(map id | id in db.jobs ::
         if db.jobs[id].documentId == Some(doc) then db.jobs[id].(documentId := None) else db.jobs[id],
       db.documents - {doc},
       db.chunks - {doc})
  }

  /** documents.checksum is UNIQUE; the document and its chunks commit together. */
  function CreateDocument(db: Db, doc: DocId, data: Bytes): Outcome {
    if exists d | d in db.documents :: db.documents[d].checksum == Sha256(data) then Outcome(db, DbError)
    else Outcome(db.(documents := db.documents[doc := Document(Sha256(data))], chunks := db.chunks[doc := data]), Updated)
  }

  /** chunks.document_id references documents, so replacing the chunks of a deleted document fails. */
  function ReplaceChunks(db: Db, doc: DocId, data: Bytes): Outcome {
    if doc !in db.documents then Outcome(db, DbError)
    else Outcome(db.(chunks := db.chunks[doc := data]), Updated)
  }

  // ----- The source lookup of a reindex request

  predicate CompletedFor(job: Job, doc: DocId) {
    job.status.Completed? && job.documentId == Some(doc)
  }

  /** ORDER BY updated_at DESC, created_at DESC */
  predicate AsRecent(a: Job, b: Job) {
    a.updatedAt > b.updatedAt || (a.updatedAt == b.updatedAt && a.createdAt >= b.createdAt)
  }

  /** `payload` may be returned as the source of `doc`: a latest completed job's payload, or empty. */
  predicate IsSource(db: Db, doc: DocId, payload: Bytes) {
    || (payload == [] && forall id | id in db.jobs :: !CompletedFor(db.jobs[id], doc))
    || exists id | id in db.jobs ::
         && CompletedFor(db.jobs[id], doc)
         && db.jobs[id].payload == payload
         && forall other | other in db.jobs && CompletedFor(db.jobs[other], doc) :: AsRecent(db.jobs[id], db.jobs[other])
  }

  // ----- The report a worker makes when its job is over

  datatype IndexResult = Indexed(doc: DocId) | IndexFailed(retryable: bool)
  datatype Report = ReleaseIt | CompleteIt(doc: DocId) | RetryIt(delay: int) | FailIt

  /** The branch order of `process` after indexing returned and the heartbeat was joined. */
  function ReportFor(retryCount: nat, shutdown: bool, heartbeatFailed: bool, result: IndexResult,
        delays: seq<int>): Report {
    if shutdown || heartbeatFailed then ReleaseIt
    else match result
      case Indexed(doc) => CompleteIt(doc)
      case IndexFailed(retryable) =>
        if retryable && retryCount < |delays| then RetryIt(delays[retryCount]) else FailIt
  }

  function Apply(db: Db, id: JobId, w: WorkerId, report: Report, now: int): Outcome {
    match report
    case ReleaseIt => Release(db, id, w, now)
    case CompleteIt(doc) => Complete(db, id, w, doc, now)
    case RetryIt(delay) => Fail(db, id, w, Some(delay), now)
    case FailIt => Fail(db, id, w, None, now)
  }
}
