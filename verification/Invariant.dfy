/** The joint invariant holds in every reachable state of the protocol. */
module Invariant {
  import opened Options
  import opened JobQueue
  import opened Protocol

  lemma KeptByLocalMove(c: Config, s: State, w: WorkerId, worker: Worker)
    requires Inv(c, s) && WorkerOk(s, w, worker)
    ensures Inv(c, WithWorker(s, w, worker))
  {
  }

  lemma KeptByNewJob(c: Config, s: State, id: JobId, payload: Bytes, doc: Option<DocId>, reindex: bool, now: int)
    requires Inv(c, s) && id !in s.db.jobs
    requires doc.Some? ==> doc.value in s.born && Matches(payload, reindex, s.born[doc.value])
    ensures Inv(c, s.(db := CreateJob(s.db, id, payload, doc, reindex, now).db))
  {
  }

  lemma KeptByDelete(c: Config, s: State, doc: DocId)
    requires Inv(c, s)
    ensures Inv(c, s.(db := DeleteDocument(s.db, doc)))
  {
    var s' := s.(db := DeleteDocument(s.db, doc));
    forall id | id in s'.db.jobs ensures RowOk(c, s'.db.jobs[id]) && LinkOk(s', s'.db.jobs[id]) {
      assert RowOk(c, s.db.jobs[id]) && LinkOk(s, s.db.jobs[id]);
    }
    forall w | w in s'.workers ensures WorkerOk(s', w, s'.workers[w]) {
      assert WorkerOk(s, w, s.workers[w]);
    }
    forall d | d in s'.db.documents ensures DocumentOk(s', d) {
      assert DocumentOk(s, d);
    }
  }

  lemma KeptByRecover(c: Config, s: State, now: int)
    requires Inv(c, s)
    ensures Inv(c, s.(db := Recover(s.db, now)))
  {
  }

  lemma KeptByClaim(c: Config, s: State, w: WorkerId, id: JobId, now: int, delivered: bool)
    requires Inv(c, s) && Enabled(s, ClaimNext(w, id, now, delivered))
    ensures Inv(c, Next(c, s, ClaimNext(w, id, now, delivered)))
  {
  }

  /** An update of one row that grants nobody a claim keeps the invariant. */
  lemma KeptByRow(c: Config, s: State, id: JobId, row: Job)
    requires Inv(c, s) && id in s.db.jobs && RowOk(c, row) && LinkOk(s, row)
    requires var before := s.db.jobs[id];
      && row.payload == before.payload && row.reindex == before.reindex && row.attempts == before.attempts
      && (row.worker.Some? ==> row.worker == before.worker && row.retryCount == before.retryCount)
    ensures Inv(c, s.(db := s.db.(jobs := s.db.jobs[id := row])))
  {
  }

  lemma KeptByNewDocument(c: Config, s: State, doc: DocId, data: Bytes)
    requires Inv(c, s) && doc !in s.born && CreateDocument(s.db, doc, data).reply.Updated?
    ensures Inv(c, s.(db := CreateDocument(s.db, doc, data).db, born := s.born[doc := data]))
  {
    var s' := s.(db := CreateDocument(s.db, doc, data).db, born := s.born[doc := data]);
    forall d | d in s'.db.documents ensures DocumentOk(s', d) {
      assert d != doc ==> DocumentOk(s, d);
    }
    forall id | id in s'.db.jobs ensures LinkOk(s', s'.db.jobs[id]) {
      assert LinkOk(s, s.db.jobs[id]);
    }
    forall w | w in s'.workers ensures WorkerOk(s', w, s'.workers[w]) {
      assert WorkerOk(s, w, s.workers[w]);
    }
    assert RequestsOk(s) && RowsOk(c, s);
  }

  lemma KeptByNewChunks(c: Config, s: State, doc: DocId, data: Bytes)
    requires Inv(c, s) && doc in s.db.documents && s.born[doc] == data
    ensures Inv(c, s.(db := ReplaceChunks(s.db, doc, data).db))
  {
  }

  lemma KeptByRenew(c: Config, s: State, w: WorkerId, now: int, delivery: Delivery, cancelled: bool)
    requires Inv(c, s) && Enabled(s, RenewLease(w, now, delivery, cancelled))
    ensures Inv(c, Next(c, s, RenewLease(w, now, delivery, cancelled)))
  {
    var worker := s.workers[w];
    var out := if delivery.NotExecuted? then Outcome(s.db, DbError) else Renew(s.db, worker.id, w, c.lease, now);
    var mid := s.(db := out.db);
    if out.reply.Updated? {
      KeptByRow(c, s, worker.id, Renewed(s.db.jobs[worker.id], c.lease, now));
    }
    assert Inv(c, mid);
    KeptByLocalMove(c, mid, w, worker.(heartbeat := AfterRenew(out.reply, delivery, cancelled)));
  }

  lemma KeptByCreate(c: Config, s: State, w: WorkerId, doc: DocId, delivered: bool, retryable: bool)
    requires Inv(c, s) && Enabled(s, Create(w, doc, delivered, retryable))
    ensures Inv(c, Next(c, s, Create(w, doc, delivered, retryable)))
  {
    var worker := s.workers[w];
    var data := worker.job.payload;
    var out := CreateDocument(s.db, doc, data);
    if out.reply.Updated? {
      KeptByNewDocument(c, s, doc, data);
      KeptByLocalMove(c, s.(db := out.db, born := s.born[doc := data]), w,
        worker.(pc := Done(if delivered then Indexed(doc) else IndexFailed(retryable))));
    } else {
      KeptByLocalMove(c, s, w, worker.(pc := Done(IndexFailed(true))));
    }
  }

  lemma KeptByReplace(c: Config, s: State, w: WorkerId, delivered: bool, retryable: bool)
    requires Inv(c, s) && Enabled(s, Replace(w, delivered, retryable))
    ensures Inv(c, Next(c, s, Replace(w, delivered, retryable)))
  {
    var worker := s.workers[w];
    if worker.job.documentId.Some? && worker.job.documentId.value in s.db.documents {
      var doc := worker.job.documentId.value;
      var source := if worker.job.payload == [] then worker.pc.source else worker.job.payload;
      KeptByNewChunks(c, s, doc, source);
      KeptByLocalMove(c, s.(db := ReplaceChunks(s.db, doc, source).db), w,
        worker.(pc := Done(if delivered then Indexed(doc) else IndexFailed(retryable))));
    } else {
      KeptByLocalMove(c, s, w, worker.(pc := Done(IndexFailed(false))));
    }
  }

  /** A report changes at most the one row it names, and ends the claim when it does. */
  lemma ReportShape(db: Db, id: JobId, w: WorkerId, report: Report, now: int)
    requires id in db.jobs
    ensures var out := Apply(db, id, w, report, now);
      && (!out.reply.Updated? ==> out.db == db)
      && (out.reply.Updated? ==>
            && Owned(db.jobs[id], w) && id in out.db.jobs
            && out.db == db.(jobs := db.jobs[id := out.db.jobs[id]])
            && out.db.jobs[id].worker.None? && out.db.jobs[id].leaseUntil.None?
            && out.db.jobs[id].attempts == db.jobs[id].attempts
            && out.db.jobs[id].payload == db.jobs[id].payload
            && out.db.jobs[id].reindex == db.jobs[id].reindex)
  {
  }

  /** What the report makes of the row fits the invariant. */
  lemma ReportRow(c: Config, s: State, w: WorkerId, shutdown: bool, now: int)
    requires Inv(c, s) && BusyAt(s, w) && s.workers[w].pc.Done?
    requires Apply(s.db, s.workers[w].id, w, ReportOf(c, s.workers[w], shutdown), now).reply.Updated?
    ensures var worker := s.workers[w];
      var report := ReportOf(c, worker, shutdown);
      var out := Apply(s.db, worker.id, w, report, now);
      && worker.id in out.db.jobs
      && RowOk(c, out.db.jobs[worker.id])
      && LinkOk(s, out.db.jobs[worker.id])
  {
    var worker := s.workers[w];
    assert WorkerOk(s, w, worker) && PcOk(s, worker);
    var row := s.db.jobs[worker.id];
    ReportShape(s.db, worker.id, w, ReportOf(c, worker, shutdown), now);
    assert RowOk(c, row) && LinkOk(s, row);
  }

  lemma KeptByFinish(c: Config, s: State, w: WorkerId, now: int, shutdown: bool, delivery: Delivery)
    requires Inv(c, s) && Enabled(s, Finish(w, now, shutdown, delivery))
    ensures Inv(c, Next(c, s, Finish(w, now, shutdown, delivery)))
  {
    var worker := s.workers[w];
    var next := if shutdown then Gone else Idle;
    if delivery.NotExecuted? {
      KeptByLocalMove(c, s, w, next);
    } else {
      var report := ReportOf(c, worker, shutdown);
      var out := Apply(s.db, worker.id, w, report, now);
      ReportShape(s.db, worker.id, w, report, now);
      if out.reply.Updated? {
        ReportRow(c, s, w, shutdown, now);
        KeptByRow(c, s, worker.id, out.db.jobs[worker.id]);
      }
      assert Inv(c, s.(db := out.db));
      KeptByLocalMove(c, s.(db := out.db), w, next);
    }
  }

  predicate IsLocal(step: Step) {
    step.Spawn? || step.Crash? || step.StopHeartbeat? || step.Lookup? || step.Load? || step.IndexError?
  }

  lemma KeptByLocalStep(c: Config, s: State, step: Step)
    requires Inv(c, s) && Enabled(s, step) && IsLocal(step)
    ensures Inv(c, Next(c, s, step))
  {
    var s' := Next(c, s, step);
    KeptByLocalMove(c, s, step.w, s'.workers[step.w]);
    assert s' == WithWorker(s, step.w, s'.workers[step.w]);
  }

  lemma KeptByRequestStep(c: Config, s: State, step: Step)
    requires Inv(c, s) && Enabled(s, step) && (step.ReadSource? || step.Reindex? || step.Abandon?)
    ensures Inv(c, Next(c, s, step))
  {
    if step.Reindex? {
      var request := s.requests[step.r];
      KeptByNewJob(c, s.(requests := s.requests - {step.r}), step.id, request.payload, Some(request.doc), true, step.now);
    }
  }

  lemma InvKept(c: Config, s: State, step: Step)
    requires Inv(c, s) && Enabled(s, step)
    ensures Inv(c, Next(c, s, step))
  {
    match step
    case Upload(id, payload, now) => KeptByNewJob(c, s, id, payload, None, false, now);
    case Delete(doc) => KeptByDelete(c, s, doc);
    case RecoverAll(now) => KeptByRecover(c, s, now);
    case ClaimNext(w, id, now, delivered) => KeptByClaim(c, s, w, id, now, delivered);
    case RenewLease(w, now, delivery, cancelled) => KeptByRenew(c, s, w, now, delivery, cancelled);
    case Create(w, doc, delivered, retryable) => KeptByCreate(c, s, w, doc, delivered, retryable);
    case Replace(w, delivered, retryable) => KeptByReplace(c, s, w, delivered, retryable);
    case Finish(w, now, shutdown, delivery) => KeptByFinish(c, s, w, now, shutdown, delivery);
    case _ =>
      if IsLocal(step) {
        KeptByLocalStep(c, s, step);
      } else {
        KeptByRequestStep(c, s, step);
      }
  }

  lemma {:induction false} RunKeepsInv(c: Config, s: State, steps: seq<Step>)
    requires Inv(c, s) && Runs(c, s, steps)
    ensures Inv(c, Exec(c, s, steps))
    decreases |steps|
  {
    if steps != [] {
      InvKept(c, s, steps[0]);
      RunKeepsInv(c, Next(c, s, steps[0]), steps[1..]);
    }
  }

  lemma ReachableInv(c: Config, s: State)
    requires Reachable(c, s)
    ensures Inv(c, s)
  {
    var steps :| Runs(c, INITIAL, steps) && Exec(c, INITIAL, steps) == s;
    RunKeepsInv(c, INITIAL, steps);
  }
}
