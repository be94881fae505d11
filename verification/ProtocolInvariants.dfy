/** What every step of the job protocol keeps, and the safety theorems over all runs. */
module ProtocolInvariants {
  import opened Prelude
  import opened Models
  import opened JobStore
  import opened WorkerProtocol

  // ----- references between the parts of a state --------------------------------------------

  ghost predicate Holds(s: State, em: nat, job: JobId) {
    em < |s.emitters| && s.emitters[em].job == job
  }

  ghost predicate HandlerRefs(s: State) {
    match s.handler
    case OpenLog(job, _) => job in s.db.jobs
    case Announce(job, em, _) => job in s.db.jobs && Holds(s, em, job)
    case Enqueue(job) => job in s.db.jobs
    case CancelReads(job) => job in s.db.jobs
    case CancelWrites(job) => job in s.db.jobs
    case CancelOpensLog(job) => job in s.db.jobs
    case CancelAnnounces(job, em) => job in s.db.jobs && Holds(s, em, job)
    case Stopping(Some(job)) => job in s.db.jobs
    case Polling(_) => s.client.job in s.db.jobs
    case ProcessDown => s.queue == [] && s.coordinator == Idle && s.heartbeats == {}
    case Recovered => s.queue == [] && s.coordinator == Idle && s.heartbeats == {}
    case _ => true
  }

  ghost predicate CoordinatorRefs(s: State) {
    match s.coordinator
    case Took(job) => job in s.db.jobs
    case Saw(job, _) => job in s.db.jobs
    case DropQueued(job, em) => job in s.db.jobs && Holds(s, em, job)
    case AnnounceDrop(job, em) => job in s.db.jobs && Holds(s, em, job)
    case Claims(job, em) => job in s.db.jobs && Holds(s, em, job)
    case Executes(job, em) => job in s.db.jobs && Holds(s, em, job)
    case Reported(job, em) => job in s.db.jobs && Holds(s, em, job)
    case ObservedCancel(job, em) => job in s.db.jobs && Holds(s, em, job)
    case Raised(job, em, result, _) =>
      job in s.db.jobs && Holds(s, em, job) && result in {AnalysisIncomplete, InternalError}
    case AnnounceOutcome(job, em, _, _) => job in s.db.jobs && Holds(s, em, job)
    case _ => true
  }

  ghost predicate RefsOk(s: State) {
    && HandlerRefs(s)
    && CoordinatorRefs(s)
    && (forall em :: em in s.heartbeats ==> em < |s.emitters|)
    && (forall id :: id in s.queue ==> id in s.db.jobs)
  }

  // ----- logs ---------------------------------------------------------------------------------

  ghost predicate EmitterBehind(s: State, e: Emitter) {
    0 <= e.sequence <= |Log(s.db, e.job)|
  }

  /** Every log is 1..k, and no emitter's counter is ahead of the stored maximum. */
  ghost predicate LogsOk(s: State) {
    && (forall id :: Contiguous(Log(s.db, id)))
    && (forall i :: 0 <= i < |s.emitters| ==> EmitterBehind(s, s.emitters[i]))
  }

  /** An attempt to emit extends the log by exactly one, or hits the primary key and changes no row. */
  lemma EmitExtendsOrConflicts(s: State, em: nat, stage: string)
    requires LogsOk(s) && em < |s.emitters|
    ensures var (t, ok) := Emit(s, em, stage);
            var job := s.emitters[em].job;
            && LogsOk(t)
            && (ok <==> s.emitters[em].sequence == |Log(s.db, job)|)
            && Log(t.db, job) == Log(s.db, job) + (if ok then [Event(|Log(s.db, job)| + 1, stage)] else [])
            && (forall id :: id != job ==> Log(t.db, id) == Log(s.db, id))
            && t.db.jobs == s.db.jobs
            && |t.emitters| == |s.emitters|
            && (forall i :: 0 <= i < |s.emitters| ==> t.emitters[i].job == s.emitters[i].job)
            && t == s.(db := t.db, emitters := t.emitters)
  {
    var e := s.emitters[em];
    var log := Log(s.db, e.job);
    if e.sequence < |log| {
      assert log[e.sequence].sequence == e.sequence + 1;
      assert HasSequence(log, e.sequence + 1);
    }
    var (t, ok) := Emit(s, em, stage);
    forall i | 0 <= i < |t.emitters| ensures EmitterBehind(t, t.emitters[i]) {
      if i != em { assert EmitterBehind(s, s.emitters[i]); }
    }
    forall id ensures Contiguous(Log(t.db, id)) {
      if id != e.job { assert Log(t.db, id) == Log(s.db, id); }
    }
  }

  lemma OpenEmitterBehind(s: State, job: JobId)
    requires LogsOk(s)
    ensures LogsOk(OpenEmitter(s, job))
    ensures OpenEmitter(s, job) == s.(emitters := s.emitters + [Emitter(job, |Log(s.db, job)|)])
  {
    MaxSequenceOfRun(Log(s.db, job), 1);
    var t := OpenEmitter(s, job);
    forall i | 0 <= i < |t.emitters| ensures EmitterBehind(t, t.emitters[i]) {
      if i < |s.emitters| { assert EmitterBehind(s, s.emitters[i]); }
    }
  }

  // ----- what a step does to the tables ---------------------------------------------------------

  /** The step is one call of `Emit`, up to the program counters. */
  ghost predicate Emits(s: State, em: nat, stage: string, t: State) {
    && em < |s.emitters|
    && t.db == Emit(s, em, stage).0.db
    && t.emitters == Emit(s, em, stage).0.emitters
    && t.client == s.client && t.queue == s.queue
  }

  /** The step touches no event row; it keeps the emitters, opens one, or loses them all in a crash. */
  ghost predicate Quiet(s: State, t: State) {
    && t.db.events == s.db.events
    && (t.emitters == s.emitters || t.emitters == [] || exists job :: OpensEmitter(s, job, t))
  }

  ghost predicate OpensEmitter(s: State, job: JobId, t: State) {
    t.emitters == OpenEmitter(s, job).emitters
  }

  ghost predicate LogEffect(s: State, t: State) {
    Quiet(s, t) || exists em, stage :: Emits(s, em, stage, t)
  }

  lemma HandlerLogEffect(s: State, t: State)
    requires HandlerNext(s) == Some(t)
    ensures LogEffect(s, t)
  {
    match s.handler
    case OpenLog(job, _) => assert OpensEmitter(s, job, t);
    case CancelOpensLog(job) => assert OpensEmitter(s, job, t);
    case Announce(_, em, stage) => assert Emits(s, em, stage, t);
    case CancelAnnounces(_, em) => assert Emits(s, em, "cancelled", t);
    case _ =>
  }

  ghost function CoordinatorEmitter(c: CoordinatorPc): nat {
    match c
    case AnnounceDrop(_, em) => em
    case Executes(_, em) => em
    case AnnounceOutcome(_, em, _, _) => em
    case _ => 0
  }

  /** The coordinator emits through its own emitter only. */
  ghost predicate CoordinatorLogEffectOk(s: State, t: State) {
    Quiet(s, t) || exists stage :: Emits(s, CoordinatorEmitter(s.coordinator), stage, t)
  }

  lemma CoordinatorLogEffect(s: State, c: CoordinatorStep, t: State)
    requires CoordinatorNext(s, c) == Some(t) && ExecutionNext(s, c) == None
    ensures CoordinatorLogEffectOk(s, t)
  {
    match s.coordinator
    case Saw(job, _) => assert OpensEmitter(s, job, t);
    case AnnounceDrop(_, em) => assert Emits(s, CoordinatorEmitter(s.coordinator), "cancelled", t);
    case _ =>
  }

  lemma ExecutionLogEffect(s: State, c: CoordinatorStep, t: State)
    requires ExecutionNext(s, c) == Some(t)
    ensures CoordinatorLogEffectOk(s, t)
  {
    match c
    case Progress(stage) => assert Emits(s, CoordinatorEmitter(s.coordinator), stage, t);
    case Report => assert Emits(s, CoordinatorEmitter(s.coordinator), "report", t);
    case AnnounceEnd => assert Emits(s, CoordinatorEmitter(s.coordinator), s.coordinator.stage, t);
    case _ =>
  }

  lemma StepLogEffect(s: State, l: Label, t: State)
    requires Next(s, l) == Some(t)
    ensures LogEffect(s, t)
  {
    match l
    case Life(_) => assert Quiet(s, t);
    case Ask(_) => assert Quiet(s, t);
    case HandlerStep => HandlerLogEffect(s, t);
    case PollEvents => assert Quiet(s, t);
    case Coordinate(c) =>
      if ExecutionNext(s, c).Some? {
        assert CoordinatorNext(s, c) == ExecutionNext(s, c);
        ExecutionLogEffect(s, c, t);
      } else {
        CoordinatorLogEffect(s, c, t);
      }
    case Heartbeat(em) => assert Emits(s, em, "heartbeat", t);
    case HeartbeatEnds(_) => assert Quiet(s, t);
  }

  lemma StepKeepsLogsOk(s: State, l: Label, t: State)
    requires LogsOk(s) && Next(s, l) == Some(t)
    ensures LogsOk(t)
    ensures forall id :: Log(s.db, id) <= Log(t.db, id)
  {
    StepLogEffect(s, l, t);
    if Quiet(s, t) {
      assert forall id :: Log(t.db, id) == Log(s.db, id);
      forall i | 0 <= i < |t.emitters| ensures EmitterBehind(t, t.emitters[i]) {
        if t.emitters != s.emitters {
          var job :| OpensEmitter(s, job, t);
          OpenEmitterBehind(s, job);
          assert EmitterBehind(OpenEmitter(s, job), t.emitters[i]);
        } else {
          assert EmitterBehind(s, s.emitters[i]);
        }
      }
    } else {
      var em, stage :| Emits(s, em, stage, t);
      EmitExtendsOrConflicts(s, em, stage);
      var e := Emit(s, em, stage).0;
      assert forall id :: Log(t.db, id) == Log(e.db, id);
      forall i | 0 <= i < |t.emitters| ensures EmitterBehind(t, t.emitters[i]) {
        assert EmitterBehind(e, e.emitters[i]);
      }
    }
  }

  // ----- what a step does to the job table ------------------------------------------------------

  datatype TableOp =
    | NoChange
    | Creates(id: JobId, createdAt: TimeKey)
    | ClaimsRow(id: JobId)
    | Flags(id: JobId)
    | Cancels(id: JobId)
    | Requeues(id: JobId)
    | Recovers
    | Completes(id: JobId, hash: string, path: string, result: ResultState)
    | Fails(id: JobId, error: string, result: ResultState)

  ghost function Applied(db: Db, op: TableOp): map<JobId, JobRow> {
    match op
    case NoChange => db.jobs
    case Creates(id, createdAt) =>
      (match CreateJob(db, id, createdAt) case Some(created) => created.jobs case None => db.jobs)
    case ClaimsRow(id) => MarkRunning(db, id).0.jobs
    case Flags(id) => RequestCancel(db, id).0.jobs
    case Cancels(id) => MarkCancelled(db, id).jobs
    case Requeues(id) => ResumeJob(db, id).0.jobs
    case Recovers => RecoverInterruptedJobs(db).jobs
    case Completes(id, hash, path, result) => CompleteJob(db, id, hash, path, result).jobs
    case Fails(id, error, result) => FailJob(db, id, error, result).jobs
  }

  ghost function RequestOp(r: Request): TableOp {
    match r
    case Submit(id, createdAt) => Creates(id, createdAt)
    case Resume(id) => Requeues(id)
    case CancelFlag(id) => Flags(id)
    case PollJob => NoChange
  }

  ghost function CoordinatorOp(pc: CoordinatorPc, c: CoordinatorStep): TableOp {
    match (pc, c)
    case (DropQueued(job, _), DropCancelled) => Cancels(job)
    case (ObservedCancel(job, _), CancelExecution) => Cancels(job)
    case (Claims(job, _), Claim) => ClaimsRow(job)
    case (Reported(job, _), CompleteWith(hash, path, result)) => Completes(job, hash, path, result)
    case (Raised(job, _, result, _), FailWith(message)) => Fails(job, message, result)
    case (_, _) => NoChange
  }

  ghost function OpOf(s: State, l: Label): TableOp {
    match l
    case Life(life) => if life.RecoverJobs? then Recovers else NoChange
    case Ask(request) => RequestOp(request)
    case HandlerStep => if s.handler.CancelWrites? then Cancels(s.handler.job) else NoChange
    case Coordinate(c) => CoordinatorOp(s.coordinator, c)
    case _ => NoChange
  }

  lemma EmitKeepsJobs(s: State, em: nat, stage: string)
    requires em < |s.emitters|
    ensures Emit(s, em, stage).0.db.jobs == s.db.jobs
  {
  }

  lemma HandlerTable(s: State, t: State)
    requires HandlerNext(s) == Some(t)
    ensures t.db.jobs == Applied(s.db, OpOf(s, HandlerStep))
  {
    match s.handler
    case Announce(_, em, stage) => EmitKeepsJobs(s, em, stage);
    case CancelAnnounces(_, em) => EmitKeepsJobs(s, em, "cancelled");
    case _ =>
  }

  lemma CoordinatorTable(s: State, c: CoordinatorStep, t: State)
    requires CoordinatorNext(s, c) == Some(t) && ExecutionNext(s, c) == None
    ensures t.db.jobs == Applied(s.db, CoordinatorOp(s.coordinator, c))
  {
    match s.coordinator
    case AnnounceDrop(_, em) => EmitKeepsJobs(s, em, "cancelled");
    case _ =>
  }

  lemma ExecutionTable(s: State, c: CoordinatorStep, t: State)
    requires ExecutionNext(s, c) == Some(t)
    ensures t.db.jobs == Applied(s.db, CoordinatorOp(s.coordinator, c))
  {
    match c
    case Progress(stage) => EmitKeepsJobs(s, s.coordinator.em, stage);
    case Report => EmitKeepsJobs(s, s.coordinator.em, "report");
    case AnnounceEnd => EmitKeepsJobs(s, s.coordinator.em, s.coordinator.stage);
    case _ =>
  }

  /** Every step makes the one change to the job table that its label names. */
  lemma StepTable(s: State, l: Label, t: State)
    requires Next(s, l) == Some(t)
    ensures t.db.jobs == Applied(s.db, OpOf(s, l))
  {
    match l
    case Life(_) =>
    case Ask(_) =>
    case HandlerStep => HandlerTable(s, t);
    case PollEvents =>
    case Coordinate(c) =>
      if ExecutionNext(s, c).Some? {
        assert CoordinatorNext(s, c) == ExecutionNext(s, c);
        ExecutionTable(s, c, t);
      } else {
        CoordinatorTable(s, c, t);
      }
    case Heartbeat(em) => EmitKeepsJobs(s, em, "heartbeat");
    case HeartbeatEnds(_) =>
  }

  lemma TableGrows(db: Db, op: TableOp)
    ensures db.jobs.Keys <= Applied(db, op).Keys
  {
  }
}
