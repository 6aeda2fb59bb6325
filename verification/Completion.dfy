/** What the steps of indexing do, and how a claimed job comes to be completed. */
module Completion {
  import opened Options
  import opened JobQueue
  import opened Protocol

  // ----- New jobs

  /** An upload is due at once, with its bytes and without a document. */
  lemma UploadMeans(c: Config, s: State, id: JobId, payload: Bytes, now: int)
    requires Enabled(s, Upload(id, payload, now))
    ensures Next(c, s, Upload(id, payload, now))
      == s.(db := s.db.(jobs := s.db.jobs[id := Job(payload, false, Queued, 0, 0, now, None, None, None, now, now)]))
  {
  }

  /** A reindex request becomes a job with the source it read, for its document, if that still exists. */
  lemma ReindexMeans(c: Config, s: State, r: nat, id: JobId, now: int)
    requires Enabled(s, Reindex(r, id, now))
    ensures var request, s' := s.requests[r], Next(c, s, Reindex(r, id, now));
      && s'.requests == s.requests - {r} && s'.workers == s.workers && s'.born == s.born
      && s'.db == if request.doc in s.db.documents
         then s.db.(jobs := s.db.jobs[id :=
                Job(request.payload, true, Queued, 0, 0, now, None, None, Some(request.doc), now, now)])
         else s.db
  {
  }

  // ----- The steps of indexing

  /** A claim that is answered makes the worker busy with the row it took. */
  lemma ClaimMeans(c: Config, s: State, w: WorkerId, id: JobId, now: int)
    requires Enabled(s, ClaimNext(w, id, now, true))
    ensures var row := s.db.jobs[id].(status := Processing, attempts := s.db.jobs[id].attempts + 1,
                                      leaseUntil := Some(now + c.lease), worker := Some(w), updatedAt := now);
      Next(c, s, ClaimNext(w, id, now, true))
        == s.(db := s.db.(jobs := s.db.jobs[id := row]), workers := s.workers[w := Busy(id, row, Start, Beating)])
  {
  }

  /** The lookup of an upload finds a document with the checksum of its bytes, or there is none. */
  lemma LookupMeans(c: Config, s: State, w: WorkerId) returns (pc: IndexPc)
    requires Enabled(s, Lookup(w))
    ensures Next(c, s, Lookup(w)) == s.(workers := s.workers[w := s.workers[w].(pc := pc)])
    ensures match pc
      case Done(Indexed(doc)) => doc in s.db.documents && s.db.documents[doc].checksum == Sha256(s.workers[w].job.payload)
      case Building => forall d | d in s.db.documents :: s.db.documents[d].checksum != Sha256(s.workers[w].job.payload)
      case _ => false
  {
    pc := Next(c, s, Lookup(w)).workers[w].pc;
  }

  /** Creating the document of an upload adds it with its checksum and chunks, unless the checksum was taken. */
  lemma CreateMeans(c: Config, s: State, w: WorkerId, doc: DocId, retryable: bool)
    requires Enabled(s, Create(w, doc, true, retryable))
    ensures var worker, s' := s.workers[w], Next(c, s, Create(w, doc, true, retryable));
      if exists d | d in s.db.documents :: s.db.documents[d].checksum == Sha256(worker.job.payload)
      then s' == s.(workers := s.workers[w := worker.(pc := Done(IndexFailed(true)))])
      else s' == s.(db := s.db.(documents := s.db.documents[doc := Document(Sha256(worker.job.payload))],
                                chunks := s.db.chunks[doc := worker.job.payload]),
                    born := s.born[doc := worker.job.payload],
                    workers := s.workers[w := worker.(pc := Done(Indexed(doc)))])
  {
  }

  /** A reindex without bytes reads the stored chunks of its document, and fails for good without any. */
  lemma LoadMeans(c: Config, s: State, w: WorkerId)
    requires Enabled(s, Load(w))
    ensures var doc := s.workers[w].job.documentId;
      Next(c, s, Load(w)) == s.(workers := s.workers[w := s.workers[w].(pc :=
        if doc.Some? && doc.value in s.db.chunks then Loaded(s.db.chunks[doc.value]) else Done(IndexFailed(false)))])
  {
  }

  /** A reindex replaces the chunks of its own document by its bytes, or by those it read. */
  lemma ReplaceMeans(c: Config, s: State, w: WorkerId, retryable: bool)
    requires Enabled(s, Replace(w, true, retryable))
    ensures var worker, s' := s.workers[w], Next(c, s, Replace(w, true, retryable));
      var doc := worker.job.documentId;
      if doc.Some? && doc.value in s.db.documents
      then s' == s.(db := s.db.(chunks := s.db.chunks[doc.value :=
                      if worker.job.payload == [] then worker.pc.source else worker.job.payload]),
                    workers := s.workers[w := worker.(pc := Done(Indexed(doc.value)))])
      else s' == s.(workers := s.workers[w := worker.(pc := Done(IndexFailed(false)))])
  {
  }

  /** An answered report of an indexed job by a worker within its lease completes the row. */
  lemma CompletionMeans(c: Config, s: State, w: WorkerId, now: int, doc: DocId)
    requires Enabled(s, Finish(w, now, false, Delivered))
    requires s.workers[w].pc == Done(Indexed(doc)) && s.workers[w].heartbeat == Joined && doc in s.db.documents
    requires s.workers[w].id in s.db.jobs
    requires var row := s.db.jobs[s.workers[w].id];
      row.status == Processing && row.worker == Some(w) && row.leaseUntil.Some? && now <= row.leaseUntil.value
    ensures var id := s.workers[w].id;
      Next(c, s, Finish(w, now, false, Delivered))
        == s.(workers := s.workers[w := Idle],
              db := s.db.(jobs := s.db.jobs[id := s.db.jobs[id].(status := Completed, documentId := Some(doc),
                                                      leaseUntil := None, worker := None, updatedAt := now)]))
  {
  }

  /** Renewing a claim that is owned and within its lease extends the lease; the heartbeat ends on anything else. */
  lemma RenewMeans(c: Config, s: State, w: WorkerId, now: int, delivery: Delivery, cancelled: bool)
    requires Enabled(s, RenewLease(w, now, delivery, cancelled))
    ensures var worker, s' := s.workers[w], Next(c, s, RenewLease(w, now, delivery, cancelled));
      var held := worker.id in s.db.jobs && s.db.jobs[worker.id].status == Processing
        && s.db.jobs[worker.id].worker == Some(w)
        && s.db.jobs[worker.id].leaseUntil.Some? && now <= s.db.jobs[worker.id].leaseUntil.value;
      && s'.workers == s.workers[w := worker.(heartbeat :=
           if delivery == Delivered then (if held then Beating else Broken) else if cancelled then Joined else Broken)]
      && s'.born == s.born && s'.requests == s.requests
      && s'.db == (if held && delivery != NotExecuted
                   then s.db.(jobs := s.db.jobs[worker.id :=
                          s.db.jobs[worker.id].(leaseUntil := Some(now + c.lease), updatedAt := now)])
                   else s.db)
  {
  }

  // ----- Whole jobs

  lemma OneStep(c: Config, s: State, step: Step, rest: seq<Step>, end: State)
    requires Enabled(s, step) && Runs(c, Next(c, s, step), rest) && Exec(c, Next(c, s, step), rest) == end
    ensures Runs(c, s, [step] + rest) && Exec(c, s, [step] + rest) == end
  {
    assert ([step] + rest)[1..] == rest;
  }

  /** The row of a job as its completion leaves it, after one claim at the same clock. */
  function ClaimedAndCompleted(row: Job, doc: DocId, now: int): Job {
    row.(status := Completed, attempts := row.attempts + 1, documentId := Some(doc),
         leaseUntil := None, worker := None, updatedAt := now)
  }

  /** The state after the claimed job is completed, with the database that indexing left behind. */
  function CompletedBy(s: State, w: WorkerId, id: JobId, doc: DocId, now: int): State
    requires id in s.db.jobs
  {
    s.(workers := s.workers[w := Idle],
       db := s.db.(jobs := s.db.jobs[id := s.db.jobs[id].(status := Completed, documentId := Some(doc),
                                               leaseUntil := None, worker := None, updatedAt := now)]))
  }

  /** The worker has claimed the job at this clock, with its heartbeat beating. */
  predicate HasClaimed(c: Config, s: State, w: WorkerId, id: JobId, now: int) {
    && BusyAt(s, w) && s.workers[w].id == id && s.workers[w].heartbeat == Beating && id in s.db.jobs
    && s.db.jobs[id].status == Processing && s.db.jobs[id].worker == Some(w)
    && s.db.jobs[id].leaseUntil == Some(now + c.lease)
  }

  /** The last two steps of a claimed and indexed job. */
  lemma ThenCompletes(c: Config, s: State, w: WorkerId, id: JobId, doc: DocId, now: int)
    requires HasClaimed(c, s, w, id, now) && s.workers[w].pc == Done(Indexed(doc)) && doc in s.db.documents
    ensures var steps := [StopHeartbeat(w)] + [Finish(w, now, false, Delivered)];
      Runs(c, s, steps) && Exec(c, s, steps) == CompletedBy(s, w, id, doc, now)
  {
    var s1 := Next(c, s, StopHeartbeat(w));
    CompletionMeans(c, s1, w, now, doc);
    var end := Next(c, s1, Finish(w, now, false, Delivered));
    OneStep(c, s1, Finish(w, now, false, Delivered), [], end);
    assert [Finish(w, now, false, Delivered)] + [] == [Finish(w, now, false, Delivered)];
    OneStep(c, s, StopHeartbeat(w), [Finish(w, now, false, Delivered)], end);
  }

  lemma CreateThenCompletes(c: Config, s: State, w: WorkerId, id: JobId, doc: DocId, now: int)
    requires HasClaimed(c, s, w, id, now) && s.workers[w].pc == Building && s.workers[w].job.payload != [] && doc !in s.born
    requires forall d | d in s.db.documents :: s.db.documents[d].checksum != Sha256(s.workers[w].job.payload)
    ensures var steps := [Create(w, doc, true, false)] + ([StopHeartbeat(w)] + [Finish(w, now, false, Delivered)]);
      var payload := s.workers[w].job.payload;
      && Runs(c, s, steps)
      && Exec(c, s, steps) == CompletedBy(
           s.(born := s.born[doc := payload],
              db := Db(s.db.jobs, s.db.documents[doc := Document(Sha256(payload))], s.db.chunks[doc := payload])),
           w, id, doc, now)
  {
    CreateMeans(c, s, w, doc, false);
    var s1 := Next(c, s, Create(w, doc, true, false));
    ThenCompletes(c, s1, w, id, doc, now);
    var last := [StopHeartbeat(w)] + [Finish(w, now, false, Delivered)];
    OneStep(c, s, Create(w, doc, true, false), last, Exec(c, s1, last));
  }

  lemma ReplaceThenCompletes(c: Config, s: State, w: WorkerId, id: JobId, doc: DocId, now: int)
    requires HasClaimed(c, s, w, id, now) && CanReplace(s.workers[w])
    requires s.workers[w].job.documentId == Some(doc) && doc in s.db.documents
    ensures var steps := [Replace(w, true, false)] + ([StopHeartbeat(w)] + [Finish(w, now, false, Delivered)]);
      var source := if s.workers[w].job.payload == [] then s.workers[w].pc.source else s.workers[w].job.payload;
      && Runs(c, s, steps)
      && Exec(c, s, steps) == CompletedBy(s.(db := s.db.(chunks := s.db.chunks[doc := source])), w, id, doc, now)
  {
    ReplaceMeans(c, s, w, false);
    var s1 := Next(c, s, Replace(w, true, false));
    ThenCompletes(c, s1, w, id, doc, now);
    var last := [StopHeartbeat(w)] + [Finish(w, now, false, Delivered)];
    OneStep(c, s, Replace(w, true, false), last, Exec(c, s1, last));
  }

  /** An upload of new bytes can be claimed, indexed as a document of its own, and completed. */
  lemma UploadCompletes(c: Config, s: State, w: WorkerId, id: JobId, doc: DocId, now: int)
    requires w in s.workers && s.workers[w].Idle? && id in s.db.jobs && doc !in s.born
    requires var row := s.db.jobs[id];
      && row.status == Queued && row.nextAttemptAt <= now && !row.reindex && row.payload != []
      && forall d | d in s.db.documents :: s.db.documents[d].checksum != Sha256(row.payload)
    ensures var steps := [ClaimNext(w, id, now, true)] + ([Lookup(w)] + ([Create(w, doc, true, false)]
        + ([StopHeartbeat(w)] + [Finish(w, now, false, Delivered)])));
      var payload := s.db.jobs[id].payload;
      && Runs(c, s, steps)
      && Exec(c, s, steps) == s.(workers := s.workers[w := Idle], born := s.born[doc := payload],
           db := Db(s.db.jobs[id := ClaimedAndCompleted(s.db.jobs[id], doc, now)],
                    s.db.documents[doc := Document(Sha256(payload))], s.db.chunks[doc := payload]))
  {
    ClaimMeans(c, s, w, id, now);
    var s1 := Next(c, s, ClaimNext(w, id, now, true));
    var pc := LookupMeans(c, s1, w);
    var s2 := Next(c, s1, Lookup(w));
    CreateThenCompletes(c, s2, w, id, doc, now);
    var last := [Create(w, doc, true, false)] + ([StopHeartbeat(w)] + [Finish(w, now, false, Delivered)]);
    var end := Exec(c, s2, last);
    OneStep(c, s1, Lookup(w), last, end);
    OneStep(c, s, ClaimNext(w, id, now, true), [Lookup(w)] + last, end);
  }

  /** A reindex with bytes replaces its document's chunks by them, and is completed. */
  lemma ReindexCompletes(c: Config, s: State, w: WorkerId, id: JobId, doc: DocId, now: int)
    requires w in s.workers && s.workers[w].Idle? && id in s.db.jobs && doc in s.db.documents
    requires var row := s.db.jobs[id];
      row.status == Queued && row.nextAttemptAt <= now && row.reindex && row.payload != [] && row.documentId == Some(doc)
    ensures var steps := [ClaimNext(w, id, now, true)] + ([Replace(w, true, false)]
        + ([StopHeartbeat(w)] + [Finish(w, now, false, Delivered)]));
      && Runs(c, s, steps)
      && Exec(c, s, steps) == s.(workers := s.workers[w := Idle],
           db := Db(s.db.jobs[id := ClaimedAndCompleted(s.db.jobs[id], doc, now)], s.db.documents,
                    s.db.chunks[doc := s.db.jobs[id].payload]))
  {
    ClaimMeans(c, s, w, id, now);
    var s1 := Next(c, s, ClaimNext(w, id, now, true));
    ReplaceThenCompletes(c, s1, w, id, doc, now);
    var last := [Replace(w, true, false)] + ([StopHeartbeat(w)] + [Finish(w, now, false, Delivered)]);
    OneStep(c, s, ClaimNext(w, id, now, true), last, Exec(c, s1, last));
  }

  /** A reindex without bytes rebuilds its document's chunks from themselves, and is completed. */
  lemma StoredReindexCompletes(c: Config, s: State, w: WorkerId, id: JobId, doc: DocId, now: int)
    requires w in s.workers && s.workers[w].Idle? && id in s.db.jobs
    requires doc in s.db.documents && doc in s.db.chunks
    requires var row := s.db.jobs[id];
      row.status == Queued && row.nextAttemptAt <= now && row.reindex && row.payload == [] && row.documentId == Some(doc)
    ensures var steps := [ClaimNext(w, id, now, true)] + ([Load(w)] + ([Replace(w, true, false)]
        + ([StopHeartbeat(w)] + [Finish(w, now, false, Delivered)])));
      && Runs(c, s, steps)
      && Exec(c, s, steps) == s.(workers := s.workers[w := Idle],
           db := s.db.(jobs := s.db.jobs[id := ClaimedAndCompleted(s.db.jobs[id], doc, now)]))
  {
    ClaimMeans(c, s, w, id, now);
    var s1 := Next(c, s, ClaimNext(w, id, now, true));
    LoadMeans(c, s1, w);
    var s2 := Next(c, s1, Load(w));
    ReplaceThenCompletes(c, s2, w, id, doc, now);
    assert s2.db.chunks[doc := s.db.chunks[doc]] == s.db.chunks;
    var last := [Replace(w, true, false)] + ([StopHeartbeat(w)] + [Finish(w, now, false, Delivered)]);
    var end := Exec(c, s2, last);
    OneStep(c, s1, Load(w), last, end);
    OneStep(c, s, ClaimNext(w, id, now, true), [Load(w)] + last, end);
  }
}
