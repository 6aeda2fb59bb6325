/** The store and the worker in the form of their source: objects whose methods update tables in place. */
module QueueStore {
  import opened Options
  import opened JobQueue

  datatype ClaimedJob = ClaimedJob(id: JobId, job: Job)

  /** ORDER BY next_attempt_at, created_at */
  predicate Before(a: Job, b: Job) {
    a.nextAttemptAt < b.nextAttemptAt || (a.nextAttemptAt == b.nextAttemptAt && a.createdAt <= b.createdAt)
  }

  /** The row is processing and names the worker. */
  predicate IsOwned(jobs: map<JobId, Job>, id: JobId, w: WorkerId) {
    id in jobs && jobs[id].status == Processing && jobs[id].worker == Some(w)
  }

  /** No document has the checksum of the payload. */
  predicate IsNewPayload(documents: map<DocId, Document>, payload: Bytes) {
    forall d | d in documents :: documents[d].checksum != Sha256(payload)
  }

  /** The worker owns the row, and its lease has not run out. */
  predicate IsHeld(jobs: map<JobId, Job>, id: JobId, w: WorkerId, now: int) {
    && IsOwned(jobs, id, w)
    && jobs[id].leaseUntil.Some? && jobs[id].leaseUntil.value >= now
  }

  class Store {
    var jobs: map<JobId, Job>
    var documents: map<DocId, Document>
    var chunks: map<DocId, Bytes>

    constructor ()
      ensures Tables() == EMPTY_DB
    {
      jobs, documents, chunks := map[], map[], map[];
    }

    function Tables(): Db
      reads this
    {
      Db(jobs, documents, chunks)
    }

    method RecoverExpiredIngestionJobs(now: int) returns (recovered: nat)
      modifies this`jobs
      ensures Tables() == Recover(old(Tables()), now)
      ensures recovered == |set id | id in old(jobs) && Expired(old(jobs)[id], now)|
      ensures jobs.Keys == old(jobs).Keys
      ensures forall id | id in jobs ::
        var row := old(jobs)[id];
        jobs[id] ==
          if row.status == Processing && (row.leaseUntil.None? || row.leaseUntil.value < now)
          then row.(status := Queued, nextAttemptAt := now, leaseUntil := None, worker := None, updatedAt := now)
          else row
    {
      var expired := set id | id in jobs && Expired(jobs[id], now);
      recovered := |expired|;
      jobs := map id | id in jobs :: if id in expired then Requeued(jobs[id], now) else jobs[id];
    }

    /** Rows locked by other claims are skipped; the first of the remaining claimable rows is taken. */
    method ClaimNextIngestionJob(w: WorkerId, lease: int, locked: set<JobId>, now: int)
      returns (claim: Option<ClaimedJob>)
      modifies this`jobs
      ensures claim.None? ==>
        Tables() == old(Tables()) && forall id | id in jobs && id !in locked :: !Claimable(jobs[id], now)
      ensures claim.Some? ==>
        var id := claim.value.id;
        && id in old(jobs) && id !in locked && Claimable(old(jobs)[id], now)
        && (forall other | other in old(jobs) && other !in locked && Claimable(old(jobs)[other], now) ::
              Before(old(jobs)[id], old(jobs)[other]))
        && Tables() == Claim(old(Tables()), id, w, lease, now)
        && claim.value.job == jobs[id]
      // the same without the names of the statement: which row is taken, and what becomes of it
      ensures claim.None? <==>
        forall id | id in old(jobs) && id !in locked :: old(jobs)[id].status != Queued || now < old(jobs)[id].nextAttemptAt
      ensures claim.Some? ==>
        var id := claim.value.id;
        && id in old(jobs) && id !in locked
        && var row := old(jobs)[id];
        && row.status == Queued && row.nextAttemptAt <= now
        && (forall other | other in old(jobs) && other !in locked && old(jobs)[other].status == Queued
                           && old(jobs)[other].nextAttemptAt <= now ::
              || row.nextAttemptAt < old(jobs)[other].nextAttemptAt
              || (row.nextAttemptAt == old(jobs)[other].nextAttemptAt && row.createdAt <= old(jobs)[other].createdAt))
        && jobs == old(jobs)[id := row.(status := Processing, attempts := row.attempts + 1,
                                        leaseUntil := Some(now + lease), worker := Some(w), updatedAt := now)]
    {
      var todo := set id | id in jobs && id !in locked && Claimable(jobs[id], now);
      var next: Option<JobId> := None;
      while todo != {}
        invariant forall id | id in todo :: id in jobs && id !in locked && Claimable(jobs[id], now)
        invariant next.Some? ==> next.value in jobs && next.value !in locked && Claimable(jobs[next.value], now)
        invariant forall id | id in jobs && id !in locked && Claimable(jobs[id], now) && id !in todo ::
          next.Some? && Before(jobs[next.value], jobs[id])
        decreases todo
      {
        var id :| id in todo;
        if next.None? || !Before(jobs[next.value], jobs[id]) {
          next := Some(id);
        }
        todo := todo - {id};
      }
      if next.None? {
        return None;
      }
      var id := next.value;
      jobs := jobs[id := Claimed(jobs[id], w, lease, now)];
      claim := Some(ClaimedJob(id, jobs[id]));
    }

    method RenewIngestionJobLease(id: JobId, w: WorkerId, lease: int, now: int) returns (reply: Reply)
      modifies this`jobs
      ensures Outcome(Tables(), reply) == Renew(old(Tables()), id, w, lease, now)
      ensures reply.Updated? <==> IsHeld(old(jobs), id, w, now)
      ensures jobs == if reply.Updated?
        then old(jobs)[id := old(jobs)[id].(leaseUntil := Some(now + lease), updatedAt := now)] else old(jobs)
    {
      if id in jobs && OwnedInLease(jobs[id], w, now) {
        jobs := jobs[id := Renewed(jobs[id], lease, now)];
        return Updated;
      }
      return Rejected;
    }

    method CompleteIngestionJob(id: JobId, w: WorkerId, doc: DocId, now: int) returns (reply: Reply)
      modifies this`jobs
      ensures Outcome(Tables(), reply) == Complete(old(Tables()), id, w, doc, now)
      ensures reply.Rejected? <==> !IsHeld(old(jobs), id, w, now)
      ensures reply.Updated? <==> !reply.Rejected? && doc in documents
      ensures jobs == if reply.Updated?
        then old(jobs)[id := old(jobs)[id].(status := Completed, documentId := Some(doc), leaseUntil := None,
                                            worker := None, updatedAt := now)]
        else old(jobs)
    {
      if id !in jobs || !OwnedInLease(jobs[id], w, now) {
        return Rejected;
      }
      if doc !in documents {
        return DbError;
      }
      jobs := jobs[id := Finished(jobs[id], doc, now)];
      return Updated;
    }

    method FailIngestionJob(id: JobId, w: WorkerId, retry: Option<int>, now: int) returns (reply: Reply)
      modifies this`jobs
      ensures Outcome(Tables(), reply) == Fail(old(Tables()), id, w, retry, now)
      ensures reply.Updated? <==> IsHeld(old(jobs), id, w, now)
      ensures !reply.Updated? ==> jobs == old(jobs)
      ensures reply.Updated? && retry.Some? ==>
        jobs == old(jobs)[id := old(jobs)[id].(status := Queued, retryCount := old(jobs)[id].retryCount + 1,
                                               nextAttemptAt := now + retry.value, leaseUntil := None,
                                               worker := None, updatedAt := now)]
      ensures reply.Updated? && retry.None? ==>
        jobs == old(jobs)[id := old(jobs)[id].(status := Failed, leaseUntil := None, worker := None, updatedAt := now)]
    {
      if id in jobs && OwnedInLease(jobs[id], w, now) {
        jobs := jobs[id := FailedFor(jobs[id], retry, now)];
        return Updated;
      }
      return Rejected;
    }

    method ReleaseIngestionJob(id: JobId, w: WorkerId, now: int) returns (reply: Reply)
      modifies this`jobs
      ensures Outcome(Tables(), reply) == Release(old(Tables()), id, w, now)
      ensures reply.Updated? <==> IsOwned(old(jobs), id, w)
      ensures jobs == if reply.Updated?
        then old(jobs)[id := old(jobs)[id].(status := Queued, nextAttemptAt := now, leaseUntil := None,
                                            worker := None, updatedAt := now)]
        else old(jobs)
    {
      if id in jobs && Owned(jobs[id], w) {
        jobs := jobs[id := Requeued(jobs[id], now)];
        return Updated;
      }
      return Rejected;
    }

    method CreateIngestionJob(id: JobId, payload: Bytes, doc: Option<DocId>, reindex: bool, now: int)
      returns (reply: Reply)
      requires id !in jobs
      modifies this`jobs
      ensures Outcome(Tables(), reply) == CreateJob(old(Tables()), id, payload, doc, reindex, now)
      ensures reply.Updated? <==> doc.None? || doc.value in documents
      ensures jobs == if reply.Updated?
        then old(jobs)[id := Job(payload, reindex, Queued, 0, 0, now, None, None, doc, now, now)] else old(jobs)
    {
      if doc.Some? && doc.value !in documents {
        return DbError;
      }
      jobs := jobs[id := Job(payload, reindex, Queued, 0, 0, now, None, None, doc, now, now)];
      return Updated;
    }

    method DeleteDocument(doc: DocId)
      modifies this
      ensures Tables() == JobQueue.DeleteDocument(old(Tables()), doc)
      ensures doc !in documents && doc !in chunks
      ensures forall d | d != doc :: (d in documents <==> d in old(documents)) && (d in chunks <==> d in old(chunks))
      ensures forall d | d in documents :: documents[d] == old(documents)[d]
      ensures forall d | d in chunks :: chunks[d] == old(chunks)[d]
      ensures jobs.Keys == old(jobs).Keys
      ensures forall id | id in jobs ::
        jobs[id] == if old(jobs)[id].documentId == Some(doc) then old(jobs)[id].(documentId := None) else old(jobs)[id]
    {
      jobs := map id | id in jobs ::
        if jobs[id].documentId == Some(doc) then jobs[id].(documentId := None) else jobs[id];
      documents, chunks := documents - {doc}, chunks - {doc};
    }

    /** The source of a reindex: the payload of a latest completed job, looked for row by row. */
    method GetDocumentSource(doc: DocId) returns (source: Option<Bytes>)
      ensures source.Some? <==> doc in documents
      ensures source.Some? ==> IsSource(Tables(), doc, source.value)
      ensures source.Some? ==>
        || (source.value == [] && forall id | id in jobs :: jobs[id].status != Completed || jobs[id].documentId != Some(doc))
        || exists id | id in jobs ::
             && jobs[id].status == Completed && jobs[id].documentId == Some(doc) && jobs[id].payload == source.value
             && forall other | other in jobs && jobs[other].status == Completed && jobs[other].documentId == Some(doc) ::
                  || jobs[id].updatedAt > jobs[other].updatedAt
                  || (jobs[id].updatedAt == jobs[other].updatedAt && jobs[id].createdAt >= jobs[other].createdAt)
    {
      if doc !in documents {
        return None;
      }
      var todo := set id | id in jobs && CompletedFor(jobs[id], doc);
      var latest: Option<JobId> := None;
      while todo != {}
        invariant forall id | id in todo :: id in jobs && CompletedFor(jobs[id], doc)
        invariant latest.Some? ==> latest.value in jobs && CompletedFor(jobs[latest.value], doc)
        invariant forall id | id in jobs && CompletedFor(jobs[id], doc) && id !in todo ::
          latest.Some? && AsRecent(jobs[latest.value], jobs[id])
        decreases todo
      {
        var id :| id in todo;
        if latest.None? || !AsRecent(jobs[latest.value], jobs[id]) {
          latest := Some(id);
        }
        todo := todo - {id};
      }
      source := Some(if latest.None? then [] else jobs[latest.value].payload);
    }

    method FindDocumentByChecksum(checksum: Digest) returns (found: Option<DocId>)
      ensures found.Some? ==> found.value in documents && documents[found.value].checksum == checksum
      ensures found.None? ==> forall d | d in documents :: documents[d].checksum != checksum
    {
      if d :| d in documents && documents[d].checksum == checksum {
        found := Some(d);
      } else {
        found := None;
      }
    }

    method CreateDocument(doc: DocId, data: Bytes) returns (reply: Reply)
      modifies this
      ensures Outcome(Tables(), reply) == JobQueue.CreateDocument(old(Tables()), doc, data)
      ensures jobs == old(jobs)
      ensures reply
        == if exists d | d in old(documents) :: old(documents)[d].checksum == Sha256(data) then DbError else Updated
      ensures documents == if reply.Updated? then old(documents)[doc := Document(Sha256(data))] else old(documents)
      ensures chunks == if reply.Updated? then old(chunks)[doc := data] else old(chunks)
    {
      var existing := FindDocumentByChecksum(Sha256(data));
      if existing.Some? {
        return DbError;
      }
      documents, chunks := documents[doc := Document(Sha256(data))], chunks[doc := data];
      return Updated;
    }

    method ReplaceDocumentChunks(doc: DocId, data: Bytes) returns (reply: Reply)
      modifies this`chunks
      ensures Outcome(Tables(), reply) == ReplaceChunks(old(Tables()), doc, data)
      ensures reply == if doc in documents then Updated else DbError
      ensures chunks == if reply.Updated? then old(chunks)[doc := data] else old(chunks)
    {
      if doc !in documents {
        return DbError;
      }
      chunks := chunks[doc := data];
      return Updated;
    }
  }

  /** Indexing a payload a second time finds the first document and writes nothing. */
  method IndexDocument(store: Store, data: Bytes, newId: DocId, readable: bool) returns (result: IndexResult)
    modifies store
    ensures store.jobs == old(store.jobs)
    ensures result.Indexed? ==> result.doc in store.documents && store.documents[result.doc].checksum == Sha256(data)
    ensures (exists d | d in old(store.documents) :: old(store.documents)[d].checksum == Sha256(data)) ==>
      result.Indexed? && store.Tables() == old(store.Tables())
    ensures (forall d | d in old(store.documents) :: old(store.documents)[d].checksum != Sha256(data)) && readable ==>
      result == Indexed(newId) && store.Tables() == JobQueue.CreateDocument(old(store.Tables()), newId, data).db
    ensures result.IndexFailed? ==> store.Tables() == old(store.Tables())
  {
    var existing := store.FindDocumentByChecksum(Sha256(data));
    if existing.Some? {
      return Indexed(existing.value);
    }
    if !readable {
      return IndexFailed(false);
    }
    var reply := store.CreateDocument(newId, data);
    if reply != Updated {
      return IndexFailed(true);
    }
    return Indexed(newId);
  }

  /** Chunks of the given bytes take the place of the document's chunks; without a document id it fails. */
  method ReindexDocument(store: Store, doc: Option<DocId>, data: Bytes, readable: bool) returns (result: IndexResult)
    modifies store`chunks
    ensures doc.Some? && doc.value in store.documents && readable ==>
      result == Indexed(doc.value) && store.chunks == old(store.chunks)[doc.value := data]
    ensures !(doc.Some? && doc.value in store.documents && readable) ==>
      result == IndexFailed(false) && store.chunks == old(store.chunks)
  {
    if doc.None? || !readable {
      return IndexFailed(false);
    }
    var reply := store.ReplaceDocumentChunks(doc.value, data);
    if reply != Updated {
      return IndexFailed(false);
    }
    return Indexed(doc.value);
  }

  /** The stored chunks are embedded again: they show the bytes they showed before. */
  method ReindexStoredChunks(store: Store, doc: Option<DocId>) returns (result: IndexResult)
    modifies store`chunks
    ensures store.chunks == old(store.chunks)
    ensures result
      == if doc.Some? && doc.value in store.chunks && doc.value in store.documents then Indexed(doc.value)
         else IndexFailed(false)
  {
    if doc.None? || doc.value !in store.chunks {
      return IndexFailed(false);
    }
    var reply := store.ReplaceDocumentChunks(doc.value, store.chunks[doc.value]);
    if reply != Updated {
      return IndexFailed(false);
    }
    return Indexed(doc.value);
  }

  class IngestionWorker {
    const store: Store
    const workerId: WorkerId
    const retryDelays: seq<int>

    constructor (store: Store, workerId: WorkerId, retryDelays: seq<int>)
      ensures this.store == store && this.workerId == workerId && this.retryDelays == retryDelays
    {
      this.store, this.workerId, this.retryDelays := store, workerId, retryDelays;
    }

    /** index: what a claimed job has done to its document. */
    method Index(job: Job, newId: DocId, readable: bool) returns (result: IndexResult)
      modifies store
      ensures store.jobs == old(store.jobs)
      // an upload finds the document of its bytes, or creates it
      ensures !job.reindex && !IsNewPayload(old(store.documents), job.payload) ==>
        result.Indexed? && result.doc in store.documents && store.documents[result.doc].checksum == Sha256(job.payload)
        && store.Tables() == old(store.Tables())
      ensures !job.reindex && readable && IsNewPayload(old(store.documents), job.payload) ==>
        && result == Indexed(newId) && store.documents == old(store.documents)[newId := Document(Sha256(job.payload))]
        && store.chunks == old(store.chunks)[newId := job.payload]
      // a reindex replaces the chunks of the job's own document
      ensures job.reindex ==> store.documents == old(store.documents)
      ensures (job.reindex && job.payload != [] && readable
        && job.documentId.Some? && job.documentId.value in store.documents) ==>
        result == Indexed(job.documentId.value) && store.chunks == old(store.chunks)[job.documentId.value := job.payload]
      ensures job.reindex && job.payload == [] ==> store.chunks == old(store.chunks)
      ensures job.reindex && job.payload == [] && job.documentId.Some? && job.documentId.value in store.documents ==>
        result == if job.documentId.value in store.chunks then Indexed(job.documentId.value) else IndexFailed(false)
      ensures job.reindex && (job.documentId.None? || job.documentId.value !in store.documents) ==>
        result == IndexFailed(false) && store.chunks == old(store.chunks)
    {
      if job.reindex {
        if job.payload == [] {
          result := ReindexStoredChunks(store, job.documentId);
          return;
        }
        result := ReindexDocument(store, job.documentId, job.payload, readable);
        return;
      }
      result := IndexDocument(store, job.payload, newId, readable);
    }

    /**
      The end of `process`, after indexing returned and the heartbeat was joined: exactly one
      report reaches the store, the one the protocol prescribes.
     */
    method Process(id: JobId, job: Job, shutdown: bool, heartbeatFailed: bool, result: IndexResult, now: int)
      returns (reply: Reply)
      modifies store
      ensures var report := ReportFor(job.retryCount, shutdown, heartbeatFailed, result, retryDelays);
        Outcome(store.Tables(), reply) == Apply(old(store.Tables()), id, workerId, report, now)
      // what that comes to: only the row of the job changes, and only while the worker holds it
      ensures store.documents == old(store.documents) && store.chunks == old(store.chunks)
      ensures !reply.Updated? ==> store.jobs == old(store.jobs)
      ensures !reply.Rejected? ==> IsOwned(old(store.jobs), id, workerId)
      // a shutdown or a lost lease gives the job back, due at once
      ensures (shutdown || heartbeatFailed) && IsOwned(old(store.jobs), id, workerId) ==>
        && reply == Updated
        && store.jobs == old(store.jobs)[id := old(store.jobs)[id].(status := Queued, nextAttemptAt := now,
                                                 leaseUntil := None, worker := None, updatedAt := now)]
      // otherwise the lease must not have run out
      ensures !shutdown && !heartbeatFailed && !IsHeld(old(store.jobs), id, workerId, now) ==> reply == Rejected
      // an indexed job is completed with its document
      ensures !shutdown && !heartbeatFailed && IsHeld(old(store.jobs), id, workerId, now) && result.Indexed? ==>
        && reply == (if result.doc in store.documents then Updated else DbError)
        && (reply.Updated? ==>
              store.jobs == old(store.jobs)[id := old(store.jobs)[id].(status := Completed, documentId := Some(result.doc),
                                                       leaseUntil := None, worker := None, updatedAt := now)])
      // a retryable failure within the budget is retried after its delay, any other one is final
      ensures !shutdown && !heartbeatFailed && IsHeld(old(store.jobs), id, workerId, now) && result.IndexFailed? ==>
        && reply == Updated
        && var row := old(store.jobs)[id];
           store.jobs == old(store.jobs)[id :=
             if result.retryable && job.retryCount < |retryDelays|
             then row.(status := Queued, retryCount := row.retryCount + 1,
                       nextAttemptAt := now + retryDelays[job.retryCount],
                       leaseUntil := None, worker := None, updatedAt := now)
             else row.(status := Failed, leaseUntil := None, worker := None, updatedAt := now)]
    {
      if shutdown {
        reply := store.ReleaseIngestionJob(id, workerId, now);
        return;
      }
      if heartbeatFailed {
        reply := store.ReleaseIngestionJob(id, workerId, now);
        return;
      }
      if result.Indexed? {
        reply := store.CompleteIngestionJob(id, workerId, result.doc, now);
        return;
      }
      var retry := result.retryable && job.retryCount < |retryDelays|;
      var delay := None;
      if retry {
        delay := Some(retryDelays[job.retryCount]);
      }
      reply := store.FailIngestionJob(id, workerId, delay, now);
    }
  }
}
