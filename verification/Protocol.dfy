/**
  The ingestion protocol as a state machine: the database, any number of workers, and the
  HTTP handlers that upload, reindex and delete.  Each step is one SQL statement or
  transaction, or a local move of one worker, and carries the clock its statement reads.
  A statement can be executed with its reply lost, or not executed at all.
 */
module Protocol {
  import opened Options
  import opened JobQueue

  datatype Config = Config(lease: nat, delays: seq<int>)

  /** Where `index` stands for the claimed job. */
  datatype IndexPc = Start | Building | Loaded(source: Bytes) | Done(result: IndexResult)

  /** The heartbeat goroutine: ticking, finished with nil, or finished with an error. */
  datatype Heartbeat = Beating | Joined | Broken

  /** A busy worker holds the row that its claim returned. */
  datatype Worker = Idle | Busy(id: JobId, job: Job, pc: IndexPc, heartbeat: Heartbeat) | Gone

  /** A reindex request between reading the source and inserting the job. */
  datatype Request = Request(doc: DocId, payload: Bytes)

  /** `born` records every document ever created with its bytes; identifiers are never reused. */
  datatype State = State(
    db: Db, workers: map<WorkerId, Worker>, requests: map<nat, Request>,
    born: map<DocId, Bytes>)

  datatype Delivery = Delivered | ReplyLost | NotExecuted

  datatype Step =
    | Spawn(w: WorkerId)
    | Crash(w: WorkerId)
    | Upload(id: JobId, payload: Bytes, now: int)
    | ReadSource(r: nat, doc: DocId, source: Bytes)
    | Reindex(r: nat, id: JobId, now: int)
    | Abandon(r: nat)
    | Delete(doc: DocId)
    | RecoverAll(now: int)
    | ClaimNext(w: WorkerId, id: JobId, now: int, delivered: bool)
    | RenewLease(w: WorkerId, now: int, delivery: Delivery, cancelled: bool)
    | StopHeartbeat(w: WorkerId)
    | Lookup(w: WorkerId)
    | Create(w: WorkerId, doc: DocId, delivered: bool, retryable: bool)
    | Load(w: WorkerId)
    | Replace(w: WorkerId, delivered: bool, retryable: bool)
    | IndexError(w: WorkerId, retryable: bool)
    | Finish(w: WorkerId, now: int, shutdown: bool, delivery: Delivery)

  const INITIAL := State(EMPTY_DB, map[], map[], map[])

  // ----- What a step needs

  predicate BusyAt(s: State, w: WorkerId) {
    w in s.workers && s.workers[w].Busy?
  }

  predicate Indexing(s: State, w: WorkerId) {
    BusyAt(s, w) && !s.workers[w].pc.Done?
  }

  /** The bytes a replacement is built from: the payload, or the chunks loaded earlier. */
  predicate CanReplace(worker: Worker)
    requires worker.Busy?
  {
    worker.job.reindex && (if worker.job.payload == [] then worker.pc.Loaded? else worker.pc.Start?)
  }

  ghost predicate Enabled(s: State, step: Step) {
    match step
    case Spawn(w) => w !in s.workers
    case Crash(w) => w in s.workers
    case Upload(id, _, _) => id !in s.db.jobs
    case ReadSource(r, doc, source) => r !in s.requests && doc in s.db.documents && IsSource(s.db, doc, source)
    case Reindex(r, id, _) => r in s.requests && id !in s.db.jobs
    case Abandon(r) => r in s.requests
    case Delete(_) => true
    case RecoverAll(_) => true
    case ClaimNext(w, id, now, _) =>
      w in s.workers && s.workers[w].Idle? && id in s.db.jobs && Claimable(s.db.jobs[id], now)
    case RenewLease(w, _, _, _) => BusyAt(s, w) && s.workers[w].heartbeat.Beating?
    case StopHeartbeat(w) => BusyAt(s, w) && s.workers[w].heartbeat.Beating?
    case Lookup(w) => BusyAt(s, w) && s.workers[w].pc.Start? && !s.workers[w].job.reindex
    case Create(w, doc, _, _) =>
      BusyAt(s, w) && s.workers[w].pc.Building? && s.workers[w].job.payload != [] && doc !in s.born
    case Load(w) => BusyAt(s, w) && s.workers[w].pc.Start? && s.workers[w].job.reindex && s.workers[w].job.payload == []
    case Replace(w, _, _) => BusyAt(s, w) && CanReplace(s.workers[w])
    case IndexError(w, _) => Indexing(s, w)
    case Finish(w, _, _, _) => BusyAt(s, w) && s.workers[w].pc.Done? && !s.workers[w].heartbeat.Beating?
  }

  // ----- What a step does

  function WithWorker(s: State, w: WorkerId, worker: Worker): State {
    s.(workers := s.workers[w := worker])
  }

  function WithPc(s: State, w: WorkerId, pc: IndexPc): State
    requires BusyAt(s, w)
  {
    WithWorker(s, w, s.workers[w].(pc := pc))
  }

  /** A delivered reply keeps the heartbeat beating only when a row was renewed. */
  function AfterRenew(reply: Reply, delivery: Delivery, cancelled: bool): Heartbeat {
    if delivery.Delivered? then (if reply.Updated? then Beating else Broken)
    else if cancelled then Joined else Broken
  }

  ghost function FoundByChecksum(s: State, data: Bytes): (doc: Option<DocId>)
    ensures doc.Some? ==> doc.value in s.db.documents && s.db.documents[doc.value].checksum == Sha256(data)
    ensures doc.None? ==> forall d | d in s.db.documents :: s.db.documents[d].checksum != Sha256(data)
  {
    if d :| d in s.db.documents && s.db.documents[d].checksum == Sha256(data) then Some(d) else None
  }

  function AfterCreate(s: State, w: WorkerId, doc: DocId, delivered: bool, retryable: bool): State
    requires BusyAt(s, w)
  {
    var data := s.workers[w].job.payload;
    var out := CreateDocument(s.db, doc, data);
    if out.reply.Updated? then
      WithPc(s.(db := out.db, born := s.born[doc := data]), w,
             Done(if delivered then Indexed(doc) else IndexFailed(retryable)))
    else WithPc(s, w, Done(IndexFailed(true)))
  }

  function AfterLoad(s: State, w: WorkerId): State
    requires BusyAt(s, w)
  {
    var doc := s.workers[w].job.documentId;
    WithPc(s, w, if doc.Some? && doc.value in s.db.chunks then Loaded(s.db.chunks[doc.value])
                 else Done(IndexFailed(false)))
  }

  function AfterReplace(s: State, w: WorkerId, delivered: bool, retryable: bool): State
    requires BusyAt(s, w) && CanReplace(s.workers[w])
  {
    var worker := s.workers[w];
    if worker.job.documentId.None? then WithPc(s, w, Done(IndexFailed(false)))
    else
      var doc := worker.job.documentId.value;
      var source := if worker.job.payload == [] then worker.pc.source else worker.job.payload;
      var out := ReplaceChunks(s.db, doc, source);
      if out.reply.Updated? then
        WithPc(s.(db := out.db), w, Done(if delivered then Indexed(doc) else IndexFailed(retryable)))
      else WithPc(s, w, Done(IndexFailed(false)))
  }

  function ReportOf(c: Config, worker: Worker, shutdown: bool): Report
    requires worker.Busy? && worker.pc.Done?
  {
    ReportFor(worker.job.retryCount, shutdown, worker.heartbeat.Broken?, worker.pc.result, c.delays)
  }

  function AfterFinish(c: Config, s: State, w: WorkerId, now: int, shutdown: bool, delivery: Delivery): State
    requires BusyAt(s, w) && s.workers[w].pc.Done?
  {
    var worker := s.workers[w];
    var rest := WithWorker(s, w, if shutdown then Gone else Idle);
    if delivery.NotExecuted? then rest
    else rest.(db := Apply(s.db, worker.id, w, ReportOf(c, worker, shutdown), now).db)
  }

  ghost function Next(c: Config, s: State, step: Step): State
    requires Enabled(s, step)
  {
    match step
    case Spawn(w) => WithWorker(s, w, Idle)
    case Crash(w) => WithWorker(s, w, Gone)
    case Upload(id, payload, now) => s.(db := CreateJob(s.db, id, payload, None, false, now).db)
    case ReadSource(r, doc, source) => s.(requests := s.requests[r := Request(doc, source)])
    case Reindex(r, id, now) =>
      var request := s.requests[r];
      s.(requests := s.requests - {r},
         db := CreateJob(s.db, id, request.payload, Some(request.doc), true, now).db)
    case Abandon(r) => s.(requests := s.requests - {r})
    case Delete(doc) => s.(db := DeleteDocument(s.db, doc))
    case RecoverAll(now) => s.(db := Recover(s.db, now))
    case ClaimNext(w, id, now, delivered) =>
      var db := Claim(s.db, id, w, c.lease, now);
      WithWorker(s.(db := db), w, if delivered then Busy(id, db.jobs[id], Start, Beating) else Idle)
    case RenewLease(w, now, delivery, cancelled) =>
      var out := if delivery.NotExecuted? then Outcome(s.db, DbError)
                 else Renew(s.db, s.workers[w].id, w, c.lease, now);
      WithWorker(s.(db := out.db), w, s.workers[w].(heartbeat := AfterRenew(out.reply, delivery, cancelled)))
    case StopHeartbeat(w) => WithWorker(s, w, s.workers[w].(heartbeat := Joined))
    case Lookup(w) =>
      var found := FoundByChecksum(s, s.workers[w].job.payload);
      WithPc(s, w, if found.Some? then Done(Indexed(found.value)) else Building)
    case Create(w, doc, delivered, retryable) => AfterCreate(s, w, doc, delivered, retryable)
    case Load(w) => AfterLoad(s, w)
    case Replace(w, delivered, retryable) => AfterReplace(s, w, delivered, retryable)
    case IndexError(w, retryable) => WithPc(s, w, Done(IndexFailed(retryable)))
    case Finish(w, now, shutdown, delivery) => AfterFinish(c, s, w, now, shutdown, delivery)
  }

  // ----- Runs

  ghost predicate Runs(c: Config, s: State, steps: seq<Step>)
    decreases |steps|
  {
    steps == [] || (Enabled(s, steps[0]) && Runs(c, Next(c, s, steps[0]), steps[1..]))
  }

  ghost function Exec(c: Config, s: State, steps: seq<Step>): State
    requires Runs(c, s, steps)
    decreases |steps|
  {
    if steps == [] then s else Exec(c, Next(c, s, steps[0]), steps[1..])
  }

  ghost predicate Reachable(c: Config, s: State) {
    exists steps :: Runs(c, INITIAL, steps) && Exec(c, INITIAL, steps) == s
  }

  // ----- The joint invariant

  ghost predicate RowOk(c: Config, job: Job) {
    && (job.status.Processing? <==> job.worker.Some?)
    && (job.status.Processing? <==> job.leaseUntil.Some?)
    && job.retryCount <= |c.delays|
  }

  ghost predicate RowsOk(c: Config, s: State) {
    forall id | id in s.db.jobs :: RowOk(c, s.db.jobs[id])
  }

  ghost predicate DocumentOk(s: State, d: DocId)
    requires d in s.db.documents
  {
    d in s.born && d in s.db.chunks && s.db.documents[d].checksum == Sha256(s.born[d]) && s.db.chunks[d] == s.born[d]
  }

  ghost predicate DocumentsOk(s: State) {
    && s.db.chunks.Keys == s.db.documents.Keys
    && (forall d | d in s.db.documents :: DocumentOk(s, d))
    && forall d, e | d in s.db.documents && e in s.db.documents && d != e :: s.born[d] != s.born[e]
  }

  /** The payload is the document's exact bytes, or the empty payload of a reindex-only job. */
  predicate Matches(payload: Bytes, reindex: bool, bytes: Bytes) {
    payload == bytes || (reindex && payload == [])
  }

  ghost predicate LinkOk(s: State, job: Job) {
    job.documentId.Some? ==>
      && job.documentId.value in s.db.documents
      && job.documentId.value in s.born
      && Matches(job.payload, job.reindex, s.born[job.documentId.value])
  }

  ghost predicate LinksOk(s: State) {
    forall id | id in s.db.jobs :: LinkOk(s, s.db.jobs[id])
  }

  /** `doc` is or was the document holding the bytes of the job. */
  ghost predicate Fits(s: State, job: Job, doc: DocId) {
    doc in s.born && Matches(job.payload, job.reindex, s.born[doc])
  }

  ghost predicate PcOk(s: State, worker: Worker)
    requires worker.Busy?
  {
    match worker.pc
    case Loaded(source) =>
      worker.job.documentId.Some? && worker.job.documentId.value in s.born && source == s.born[worker.job.documentId.value]
    case Done(Indexed(doc)) => Fits(s, worker.job, doc)
    case _ => true
  }

  /** The heart of fencing: while the row names this worker, it is still the claim the worker holds. */
  ghost predicate ClaimOk(s: State, w: WorkerId, worker: Worker)
    requires worker.Busy?
  {
    && worker.id in s.db.jobs
    && var row := s.db.jobs[worker.id];
    && worker.job.attempts <= row.attempts
    && row.payload == worker.job.payload && row.reindex == worker.job.reindex
    && (Owned(row, w) ==> row.attempts == worker.job.attempts && row.retryCount == worker.job.retryCount)
  }

  ghost predicate WorkerOk(s: State, w: WorkerId, worker: Worker) {
    worker.Busy? ==>
      && ClaimOk(s, w, worker)
      && (worker.job.documentId.Some? ==> Fits(s, worker.job, worker.job.documentId.value))
      && PcOk(s, worker)
  }

  ghost predicate WorkersOk(s: State) {
    forall w | w in s.workers :: WorkerOk(s, w, s.workers[w])
  }

  ghost predicate RequestsOk(s: State) {
    forall r | r in s.requests ::
      s.requests[r].doc in s.born && Matches(s.requests[r].payload, true, s.born[s.requests[r].doc])
  }

  ghost predicate Inv(c: Config, s: State) {
    RowsOk(c, s) && DocumentsOk(s) && LinksOk(s) && WorkersOk(s) && RequestsOk(s)
  }
}
