/**
  The durable job protocol of `worker.py` as a step machine.

  A step is one SQL transaction, one queue operation, one answer to a poll, or the death or
  the start of the process.  Handler, coordinator and heartbeat threads interleave freely; a
  crash is possible in every state.  Storage faults other than a refused primary key are not
  part of the model.
 */
module WorkerProtocol {
  import opened Prelude
  import opened Models
  import opened JobStore

  /** `DurableEmitter`: the last sequence number that it used or tried to use. */
  datatype Emitter = Emitter(job: JobId, sequence: int)

  /** Where the request-handling thread stands; `em` indexes `State.emitters`. */
  datatype HandlerPc =
    | ProcessDown                            // no worker process
    | Recovered                              // interrupted jobs are failed, queue not loaded yet
    | Ready                                  // between two requests
    | OpenLog(job: JobId, stage: string)     // submit or resume has written `queued`
    | Announce(job: JobId, em: nat, stage: string)
    | Enqueue(job: JobId)
    | CancelReads(job: JobId)                // cancel has raised the flag
    | CancelWrites(job: JobId)               // and has read `queued`
    | CancelOpensLog(job: JobId)
    | CancelAnnounces(job: JobId, em: nat)
    | Polling(status: JobStatus)             // a poll has read the job, not the events
    | Stopping(pending: Option<JobId>)       // killed by a refused primary key

  /** Where the coordinator thread stands. */
  datatype CoordinatorPc =
    | Idle
    | Took(job: JobId)
    | Saw(job: JobId, cancelRequested: bool)
    | DropQueued(job: JobId, em: nat)
    | AnnounceDrop(job: JobId, em: nat)
    | Claims(job: JobId, em: nat)
    | Executes(job: JobId, em: nat)
    | Reported(job: JobId, em: nat)
    | ObservedCancel(job: JobId, em: nat)
    | Raised(job: JobId, em: nat, result: ResultState, guarded: bool)
    | AnnounceOutcome(job: JobId, em: nat, stage: string, guarded: bool)
    | ThreadDied

  /** A client of `_run_worker_check` that polls `status` with the highest sequence seen. */
  datatype Client = Client(job: JobId, since: int, received: seq<Event>, lastStatus: Option<JobStatus>)

  datatype State = State(
    db: Db,
    queue: seq<JobId>,
    emitters: seq<Emitter>,
    heartbeats: set<nat>,
    handler: HandlerPc,
    coordinator: CoordinatorPc,
    client: Client)

  datatype LifeStep = Crash | RecoverJobs | LoadQueue(order: seq<JobId>)

  datatype Request =
    | Submit(id: JobId, createdAt: TimeKey)
    | Resume(id: JobId)
    | CancelFlag(id: JobId)
    | PollJob

  datatype CoordinatorStep =
    | Take
    | Lookup
    | OpenCoordinatorLog
    | DropCancelled
    | Claim
    | Progress(stage: string)
    | Report
    | CompleteWith(hash: string, path: string, result: ResultState)
    | ObserveCancel
    | CancelExecution
    | Raise(raised: ResultState, guarded: bool)
    | FailWith(message: string)
    | AnnounceEnd

  /** The steps; their parameters are the choices that the environment makes. */
  datatype Label =
    | Life(life: LifeStep)
    | Ask(request: Request)
    | HandlerStep
    | PollEvents
    | Coordinate(step: CoordinatorStep)
    | Heartbeat(em: nat)
    | HeartbeatEnds(em: nat)

  function Start(job: JobId): State {
    State(Db(map[], map[]), [], [], {}, ProcessDown, Idle, Client(job, 0, [], None))
  }

  // ----- emitters -------------------------------------------------------------------------

  /** `DurableEmitter.__init__`: one read of the stored maximum. */
  function OpenEmitter(s: State, job: JobId): State {
    s.(emitters := s.emitters + [Emitter(job, MaxSequence(Log(s.db, job)))])
  }

  /** `DurableEmitter.emit`: the counter advances even when the insert is refused. */
  function Emit(s: State, em: nat, stage: string): (State, bool)
    requires em < |s.emitters|
  {
    var e := s.emitters[em];
    var next := e.sequence + 1;
    var counted := s.(emitters := s.emitters[em := Emitter(e.job, next)]);
    match AppendEvent(s.db, e.job, Event(next, stage))
    case Some(db) => (counted.(db := db), true)
    case None => (counted, false)
  }

  // ----- steps: each answers None when it is not enabled ------------------------------------

  function HandlerNext(s: State): Option<State> {
    match s.handler
    case OpenLog(job, stage) =>
      Some(OpenEmitter(s, job).(handler := Announce(job, |s.emitters|, stage)))
    case Announce(job, em, stage) =>
      if em < |s.emitters| then
        var (t, ok) := Emit(s, em, stage);
        Some(t.(handler := if ok then Enqueue(job) else Stopping(Some(job))))
      else None
    case Enqueue(job) => Some(s.(queue := s.queue + [job], handler := Ready))
    case CancelReads(job) =>
      Some(s.(handler := if job in s.db.jobs && s.db.jobs[job].status == Queued
                         then CancelWrites(job) else Ready))
    case CancelWrites(job) =>
      Some(s.(db := MarkCancelled(s.db, job), handler := CancelOpensLog(job)))
    case CancelOpensLog(job) =>
      Some(OpenEmitter(s, job).(handler := CancelAnnounces(job, |s.emitters|)))
    case CancelAnnounces(_, em) =>
      if em < |s.emitters| then
        var (t, ok) := Emit(s, em, "cancelled");
        Some(t.(handler := if ok then Ready else Stopping(None)))
      else None
    case _ => None
  }

  function RequestNext(s: State, r: Request): Option<State> {
    if s.handler != Ready then None
    else
      match r
      case Submit(id, createdAt) =>
        (match CreateJob(s.db, id, createdAt)
         case None => None
         case Some(db) => Some(s.(db := db, handler := OpenLog(id, "queue"))))
      case Resume(id) =>
        var (db, ok) := ResumeJob(s.db, id);
        if ok then Some(s.(db := db, handler := OpenLog(id, "resume"))) else None
      case CancelFlag(id) =>
        var (db, ok) := RequestCancel(s.db, id);
        if ok then Some(s.(db := db, handler := CancelReads(id))) else None
      case PollJob =>
        if s.client.job in s.db.jobs then Some(s.(handler := Polling(s.db.jobs[s.client.job].status)))
        else None
  }

  /** The reply of `status` reaches the client, whose loop keeps the highest sequence. */
  function PollNext(s: State): Option<State> {
    if s.handler.Polling? then
      var events := EventsSince(Log(s.db, s.client.job), s.client.since);
      Some(s.(handler := Ready,
              client := s.client.(since := Max(s.client.since, MaxSequence(events)),
                                  received := s.client.received + events,
                                  lastStatus := Some(s.handler.status))))
    else None
  }

  function CoordinatorNext(s: State, c: CoordinatorStep): Option<State> {
    match (s.coordinator, c)
    case (Idle, Take) =>
      if s.queue == [] || s.handler in {ProcessDown, Recovered} then None
      else Some(s.(queue := s.queue[1..], coordinator := Took(s.queue[0])))
    case (Took(job), Lookup) =>
      Some(s.(coordinator := if job in s.db.jobs && s.db.jobs[job].status == Queued
                             then Saw(job, s.db.jobs[job].cancelRequested) else Idle))
    case (Saw(job, cancelRequested), OpenCoordinatorLog) =>
      var em := |s.emitters|;
      Some(OpenEmitter(s, job).(coordinator := if cancelRequested then DropQueued(job, em) else Claims(job, em)))
    case (DropQueued(job, em), DropCancelled) =>
      Some(s.(db := MarkCancelled(s.db, job), coordinator := AnnounceDrop(job, em)))
    case (AnnounceDrop(job, em), AnnounceEnd) =>
      if em < |s.emitters| then
        var (t, ok) := Emit(s, em, "cancelled");
        Some(t.(coordinator := if ok then Idle else Raised(job, em, InternalError, false)))
      else None
    case (Claims(job, em), Claim) =>
      var (db, ok) := MarkRunning(s.db, job);
      if ok then Some(s.(db := db, coordinator := Executes(job, em), heartbeats := s.heartbeats + {em}))
      else Some(s.(coordinator := Idle))
    case (_, _) => ExecutionNext(s, c)
  }

  /** The part of the coordinator loop that runs an `execute_*` function. */
  function ExecutionNext(s: State, c: CoordinatorStep): Option<State> {
    match (s.coordinator, c)
    case (Executes(job, em), Progress(stage)) =>
      if em < |s.emitters| then
        var (t, ok) := Emit(s, em, stage);
        Some(if ok then t else t.(coordinator := Raised(job, em, InternalError, true)))
      else None
    case (Executes(job, em), Report) =>
      if em < |s.emitters| then
        var (t, ok) := Emit(s, em, "report");
        Some(t.(coordinator := if ok then Reported(job, em) else Raised(job, em, InternalError, true)))
      else None
    case (Reported(job, em), CompleteWith(hash, path, result)) =>
      Some(s.(db := CompleteJob(s.db, job, hash, path, result), coordinator := Idle))
    case (Executes(job, em), ObserveCancel) =>
      if job in s.db.jobs && s.db.jobs[job].cancelRequested
      then Some(s.(coordinator := ObservedCancel(job, em))) else None
    case (ObservedCancel(job, em), CancelExecution) =>
      Some(s.(db := MarkCancelled(s.db, job), coordinator := AnnounceOutcome(job, em, "cancelled", true)))
    case (Executes(job, em), Raise(result, guarded)) =>
      if result in {AnalysisIncomplete, InternalError}
      then Some(s.(coordinator := Raised(job, em, result, guarded))) else None
    case (Raised(job, em, result, guarded), FailWith(message)) =>
      Some(s.(db := FailJob(s.db, job, message, result), coordinator := AnnounceOutcome(job, em, "error", guarded)))
    case (AnnounceOutcome(_, em, stage, guarded), AnnounceEnd) =>
      if em < |s.emitters| then
        var (t, ok) := Emit(s, em, stage);
        Some(t.(coordinator := if ok || guarded then Idle else ThreadDied))
      else None
    case (_, _) => None
  }

  function HeartbeatNext(s: State, em: nat): Option<State> {
    if em in s.heartbeats && em < |s.emitters| then
      var (t, ok) := Emit(s, em, "heartbeat");
      Some(if ok then t else t.(heartbeats := s.heartbeats - {em}))
    else None
  }

  ghost function LifeNext(s: State, life: LifeStep): Option<State> {
    match life
    case Crash =>
      // everything in memory is lost; the tables and the client's own process survive
      if s.handler == ProcessDown then None
      else Some(s.(queue := [], emitters := [], heartbeats := {}, handler := ProcessDown, coordinator := Idle))
    case RecoverJobs =>
      if s.handler == ProcessDown
      then Some(s.(db := RecoverInterruptedJobs(s.db), handler := Recovered)) else None
    case LoadQueue(order) =>
      if s.handler == Recovered && IsListing(s.db, order)
      then Some(s.(queue := QueuedOldestFirst(s.db, order[..Min(|order|, LIST_LIMIT)]), handler := Ready))
      else None
  }

  ghost function Next(s: State, l: Label): Option<State> {
    match l
    case Life(life) => LifeNext(s, life)
    case Ask(request) => RequestNext(s, request)
    case HandlerStep => HandlerNext(s)
    case PollEvents => PollNext(s)
    case Coordinate(step) => CoordinatorNext(s, step)
    case Heartbeat(em) => HeartbeatNext(s, em)
    case HeartbeatEnds(em) =>
      if em in s.heartbeats then Some(s.(heartbeats := s.heartbeats - {em})) else None
  }

  /** The state after a whole run, or None when the run is not one of the machine. */
  ghost function Run(start: State, labels: seq<Label>): Option<State> {
    if labels == [] then Some(start)
    else
      match Run(start, labels[..|labels| - 1])
      case None => None
      case Some(s) => Next(s, labels[|labels| - 1])
  }
}
