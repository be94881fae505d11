/** The invariant of the job protocol and the theorems about every run. */
module ProtocolSafety {
  import opened Prelude
  import opened Models
  import opened JobStore
  import opened WorkerProtocol
  import opened ProtocolInvariants

  // ----- references -----------------------------------------------------------------------------

  lemma EmitKeepsRefs(s: State, em: nat, stage: string)
    requires RefsOk(s) && em < |s.emitters|
    ensures RefsOk(Emit(s, em, stage).0)
  {
    EmitKeepsJobs(s, em, stage);
  }

  lemma HandlerKeepsRefs(s: State, t: State)
    requires RefsOk(s) && HandlerNext(s) == Some(t)
    ensures RefsOk(t)
  {
    HandlerTable(s, t);
    TableGrows(s.db, OpOf(s, HandlerStep));
    match s.handler
    case OpenLog(_, _) =>
    case Announce(_, em, stage) => EmitKeepsRefs(s, em, stage);
    case Enqueue(_) =>
    case CancelReads(_) =>
    case CancelWrites(_) =>
    case CancelOpensLog(_) =>
    case CancelAnnounces(_, em) => EmitKeepsRefs(s, em, "cancelled");
    case _ =>
  }

  lemma CoordinatorKeepsRefs(s: State, c: CoordinatorStep, t: State)
    requires RefsOk(s) && CoordinatorNext(s, c) == Some(t) && ExecutionNext(s, c) == None
    ensures RefsOk(t)
  {
    CoordinatorTable(s, c, t);
    TableGrows(s.db, CoordinatorOp(s.coordinator, c));
  }

  lemma ExecutionKeepsRefs(s: State, c: CoordinatorStep, t: State)
    requires RefsOk(s) && ExecutionNext(s, c) == Some(t)
    ensures RefsOk(t)
  {
    ExecutionTable(s, c, t);
    TableGrows(s.db, CoordinatorOp(s.coordinator, c));
  }

  lemma KnownJobsStayKnown(s: State, l: Label, t: State)
    requires Next(s, l) == Some(t)
    ensures s.db.jobs.Keys <= t.db.jobs.Keys
  {
    StepTable(s, l, t);
    TableGrows(s.db, OpOf(s, l));
  }

  lemma LifeKeepsRefs(s: State, life: LifeStep, t: State)
    requires RefsOk(s) && LifeNext(s, life) == Some(t)
    ensures RefsOk(t)
  {
  }

  lemma RequestKeepsRefs(s: State, r: Request, t: State)
    requires RefsOk(s) && RequestNext(s, r) == Some(t)
    ensures RefsOk(t)
  {
    KnownJobsStayKnown(s, Ask(r), t);
  }

  lemma StepKeepsRefs(s: State, l: Label, t: State)
    requires RefsOk(s) && Next(s, l) == Some(t)
    ensures RefsOk(t)
  {
    match l
    case Life(life) => LifeKeepsRefs(s, life, t);
    case Ask(r) => RequestKeepsRefs(s, r, t);
    case HandlerStep => HandlerKeepsRefs(s, t);
    case PollEvents =>
    case Coordinate(c) =>
      if ExecutionNext(s, c).Some? {
        assert CoordinatorNext(s, c) == ExecutionNext(s, c);
        ExecutionKeepsRefs(s, c, t);
      } else {
        CoordinatorKeepsRefs(s, c, t);
      }
    case Heartbeat(em) => EmitKeepsRefs(s, em, "heartbeat");
    case HeartbeatEnds(_) =>
  }

  // ----- rows -------------------------------------------------------------------------------------

  /** Every table operation keeps every row well formed, whatever the state of the threads. */
  lemma OperationKeepsRows(db: Db, op: TableOp)
    requires RowsOk(db)
    requires op.Fails? ==> op.result in {AnalysisIncomplete, InternalError}
    ensures forall id :: id in Applied(db, op) ==> RowOk(Applied(db, op)[id])
  {
  }

  lemma StepKeepsRows(s: State, l: Label, t: State)
    requires RefsOk(s) && RowsOk(s.db) && Next(s, l) == Some(t)
    ensures RowsOk(t.db)
  {
    StepTable(s, l, t);
    OperationKeepsRows(s.db, OpOf(s, l));
  }

  // ----- at most one running job ------------------------------------------------------------------

  /** The coordinator has claimed the job and has not yet written its outcome. */
  ghost predicate Executing(c: CoordinatorPc, id: JobId) {
    match c
    case Executes(job, _) => job == id
    case Reported(job, _) => job == id
    case ObservedCancel(job, _) => job == id
    case Raised(job, _, _, _) => job == id
    case _ => false
  }

  ghost predicate IsStatus(db: Db, id: JobId, status: JobStatus) {
    id in db.jobs && db.jobs[id].status == status
  }

  ghost predicate RunningOk(s: State) {
    && (s.handler != ProcessDown ==>
          forall id :: IsStatus(s.db, id, Running) ==> s.handler != Recovered && Executing(s.coordinator, id))
    && (forall i, j :: IsStatus(s.db, i, Running) && IsStatus(s.db, j, Running) ==> i == j)
  }

  /** Only a claim makes a row `running`; every outcome, and recovery, ends it. */
  lemma RunningAfter(db: Db, op: TableOp, jobs: map<JobId, JobRow>)
    requires jobs == Applied(db, op)
    ensures forall id :: id in jobs && jobs[id].status == Running ==>
              op == ClaimsRow(id) || IsStatus(db, id, Running)
    ensures forall id :: id in jobs && jobs[id].status == Running ==>
              && op != Recovers && op != Cancels(id)
              && !(op.Completes? && op.id == id) && !(op.Fails? && op.id == id)
  {
  }

  lemma CoordinatorKeepsRunning(s: State, c: CoordinatorStep, t: State)
    requires RefsOk(s) && RunningOk(s) && CoordinatorNext(s, c) == Some(t)
    requires t.db.jobs == Applied(s.db, CoordinatorOp(s.coordinator, c))
    ensures RunningOk(t)
  {
    RunningAfter(s.db, CoordinatorOp(s.coordinator, c), t.db.jobs);
    forall id | IsStatus(t.db, id, Running)
      ensures s.handler != Recovered && Executing(t.coordinator, id)
    {
      assert IsStatus(s.db, id, Running) ==> Executing(s.coordinator, id);
    }
  }

  lemma StepKeepsRunning(s: State, l: Label, t: State)
    requires RefsOk(s) && RunningOk(s) && Next(s, l) == Some(t)
    ensures RunningOk(t)
  {
    StepTable(s, l, t);
    RunningAfter(s.db, OpOf(s, l), t.db.jobs);
    if l.Coordinate? {
      CoordinatorKeepsRunning(s, l.step, t);
    } else {
      OthersLeaveTheCoordinator(s, l, t);
    }
  }

  lemma OthersLeaveTheCoordinator(s: State, l: Label, t: State)
    requires Next(s, l) == Some(t) && !l.Coordinate?
    ensures t.coordinator == s.coordinator || t.handler == ProcessDown
    ensures t.handler == Recovered ==> s.handler == Recovered || OpOf(s, l) == Recovers
    ensures s.handler == ProcessDown ==> OpOf(s, l) == Recovers || t.handler == ProcessDown
    ensures OpOf(s, l) == NoChange || OpOf(s, l).Creates? || OpOf(s, l).Flags? || OpOf(s, l).Cancels?
            || OpOf(s, l).Requeues? || OpOf(s, l) == Recovers
  {
    match l
    case Life(_) =>
    case Ask(_) =>
    case HandlerStep =>
    case PollEvents =>
    case Heartbeat(_) =>
    case HeartbeatEnds(_) =>
  }

  // ----- no queued job is lost --------------------------------------------------------------------

  /** The coordinator has taken the id from the queue and not yet decided on it. */
  ghost predicate Undecided(c: CoordinatorPc, id: JobId) {
    match c
    case Took(job) => job == id
    case Saw(job, _) => job == id
    case DropQueued(job, _) => job == id
    case Claims(job, _) => job == id
    case _ => false
  }

  /** The handler has written `queued`, lives, and has not yet enqueued the id. */
  ghost predicate AboutToEnqueue(h: HandlerPc, id: JobId) {
    match h
    case OpenLog(job, _) => job == id
    case Announce(job, _, _) => job == id
    case Enqueue(job) => job == id
    case _ => false
  }

  ghost predicate NotLost(s: State, id: JobId) {
    id in s.queue || Undecided(s.coordinator, id) || AboutToEnqueue(s.handler, id)
  }

  ghost predicate IsUp(s: State) { s.handler != ProcessDown && s.handler != Recovered }

  /** Every queued job is on its way, but for the one that a dying handler was about to enqueue. */
  ghost predicate QueueOk(s: State) {
    IsUp(s) ==> forall id :: IsStatus(s.db, id, Queued) ==> NotLost(s, id) || s.handler == Stopping(Some(id))
  }

  lemma HandlerKeepsQueue(s: State, t: State)
    requires RefsOk(s) && QueueOk(s) && HandlerNext(s) == Some(t)
    ensures QueueOk(t)
  {
    HandlerTable(s, t);
    forall id | IsStatus(t.db, id, Queued) ensures NotLost(t, id) || t.handler == Stopping(Some(id)) {
      assert IsStatus(s.db, id, Queued);
      assert NotLost(s, id) || s.handler == Stopping(Some(id));
    }
  }

  lemma CoordinatorKeepsQueue(s: State, c: CoordinatorStep, t: State)
    requires RefsOk(s) && QueueOk(s) && CoordinatorNext(s, c) == Some(t)
    ensures QueueOk(t)
  {
    StepTable(s, Coordinate(c), t);
    if IsUp(t) {
      forall id | IsStatus(t.db, id, Queued) ensures NotLost(t, id) || t.handler == Stopping(Some(id)) {
        assert IsStatus(s.db, id, Queued);
        assert NotLost(s, id) || s.handler == Stopping(Some(id));
      }
    }
  }

  /** Startup loads exactly the queued jobs among the 1,000 newest rows: the rest are lost. */
  lemma RestartLosesExactly(s: State, order: seq<JobId>, t: State)
    requires RefsOk(s) && Next(s, Life(LoadQueue(order))) == Some(t)
    ensures forall i :: 0 <= i < |order| && IsStatus(t.db, order[i], Queued) ==>
              (NotLost(t, order[i]) <==> i < LIST_LIMIT)
  {
    forall i | 0 <= i < |order| && IsStatus(t.db, order[i], Queued)
      ensures NotLost(t, order[i]) <==> i < LIST_LIMIT
    {
      var loaded := order[..Min(|order|, LIST_LIMIT)];
      if i < LIST_LIMIT { assert loaded[i] == order[i]; }
    }
  }

  /** `a` stands before `b` in the queue. */
  ghost predicate Precedes(queue: seq<JobId>, a: JobId, b: JobId) {
    exists p, q :: 0 <= p < q < |queue| && queue[p] == a && queue[q] == b
  }

  lemma PrecedesMore(queue: seq<JobId>, a: JobId, b: JobId, last: JobId)
    requires Precedes(queue, a, b) || (a in queue && b == last)
    ensures Precedes(queue + [last], a, b)
  {
    var more := queue + [last];
    if Precedes(queue, a, b) {
      var p, q :| 0 <= p < q < |queue| && queue[p] == a && queue[q] == b;
      assert more[p] == a && more[q] == b;
    } else {
      var p :| 0 <= p < |queue| && queue[p] == a;
      assert more[p] == a && more[|queue|] == b;
    }
  }

  lemma {:induction false} QueueIsReversed(db: Db, listing: seq<JobId>)
    requires NoDuplicates(listing)
    ensures NoDuplicates(QueuedOldestFirst(db, listing))
    ensures forall i, j ::
              0 <= i < j < |listing| && IsStatus(db, listing[i], Queued) && IsStatus(db, listing[j], Queued) ==>
              Precedes(QueuedOldestFirst(db, listing), listing[j], listing[i])
  {
    if listing != [] {
      var rest, head := listing[1..], listing[0];
      var older := QueuedOldestFirst(db, rest);
      QueueIsReversed(db, rest);
      assert forall i :: 0 <= i < |rest| ==> rest[i] == listing[i + 1];
      forall i, j | 0 <= i < j < |listing| && IsStatus(db, listing[i], Queued) && IsStatus(db, listing[j], Queued)
        ensures Precedes(QueuedOldestFirst(db, listing), listing[j], listing[i])
      {
        if i > 0 {
          assert Precedes(older, rest[j - 1], rest[i - 1]);
        } else {
          assert rest[j - 1] in older;
        }
        if IsStatus(db, head, Queued) { PrecedesMore(older, listing[j], listing[i], head); }
      }
    }
  }

  /** Along the queue creation times never decrease. */
  ghost predicate ByCreation(queue: seq<JobId>, jobs: map<JobId, JobRow>) {
    forall p, q :: 0 <= p < q < |queue| ==>
      queue[p] in jobs && queue[q] in jobs && jobs[queue[p]].createdAt <= jobs[queue[q]].createdAt
  }

  /**
    A start queues no job twice, and of two jobs the one first that is further down in the newest-first listing:
    along the queue creation times never decrease.
   */
  lemma RestartQueuesOldestFirst(s: State, order: seq<JobId>, t: State)
    requires Next(s, Life(LoadQueue(order))) == Some(t)
    ensures NoDuplicates(t.queue)
    ensures forall i, j :: 0 <= i < j < Min(|order|, LIST_LIMIT)
              && IsStatus(s.db, order[i], Queued) && IsStatus(s.db, order[j], Queued)
              ==> Precedes(t.queue, order[j], order[i])
    ensures ByCreation(t.queue, s.db.jobs)
  {
    var loaded := order[..Min(|order|, LIST_LIMIT)];
    QueueIsReversed(s.db, loaded);
    QueueIsByCreation(s.db, loaded);
    forall i, j | 0 <= i < j < |loaded| && IsStatus(s.db, order[i], Queued) && IsStatus(s.db, order[j], Queued)
      ensures Precedes(t.queue, order[j], order[i])
    {
      assert loaded[i] == order[i] && loaded[j] == order[j];
    }
  }

  lemma QueueIsByCreation(db: Db, listing: seq<JobId>)
    requires NoDuplicates(listing) && forall id <- listing :: id in db.jobs
    requires forall i, j :: 0 <= i < j < |listing| ==> db.jobs[listing[i]].createdAt >= db.jobs[listing[j]].createdAt
    ensures ByCreation(QueuedOldestFirst(db, listing), db.jobs)
  {
    var queue := QueuedOldestFirst(db, listing);
    QueueIsReversed(db, listing);
    forall p, q | 0 <= p < q < |queue|
      ensures queue[p] in db.jobs && queue[q] in db.jobs
      ensures db.jobs[queue[p]].createdAt <= db.jobs[queue[q]].createdAt
    {
      NotBoth(queue, p, q);
      assert queue[p] in queue && queue[q] in queue;
      var i :| 0 <= i < |listing| && listing[i] == queue[p];
      var j :| 0 <= j < |listing| && listing[j] == queue[q];
      assert j <= i;
    }
  }

  /** In a queue without repetitions only one of two jobs precedes the other. */
  lemma NotBoth(queue: seq<JobId>, p: nat, q: nat)
    requires NoDuplicates(queue) && p < q < |queue|
    ensures !Precedes(queue, queue[q], queue[p])
  {
  }

  // ----- the queue is first in, first out -----------------------------------------------------------------

  /** The jobs that the coordinator takes in a run, in order. */
  ghost function Taken(s: State, labels: seq<Label>): seq<JobId> {
    if labels == [] then []
    else
      var n := |labels| - 1;
      var before, after := Run(s, labels[..n]), Run(s, labels);
      Taken(s, labels[..n])
      + if before.Some? && after.Some? && !before.value.coordinator.Took? && after.value.coordinator.Took?
        then [after.value.coordinator.job] else []
  }

  /** The jobs that the handler is done with announcing in a run, in order. */
  ghost function Enqueued(s: State, labels: seq<Label>): seq<JobId> {
    if labels == [] then []
    else
      var n := |labels| - 1;
      var before, after := Run(s, labels[..n]), Run(s, labels);
      Enqueued(s, labels[..n])
      + if before.Some? && after.Some? && before.value.handler.Enqueue? && after.value.handler == Ready
        then [before.value.handler.job] else []
  }

  /** Until a crash nothing is lost, doubled or overtaken between the handler and the coordinator. */
  lemma {:induction false} QueueIsFifo(s: State, labels: seq<Label>, t: State)
    requires Run(s, labels) == Some(t) && forall i :: 0 <= i < |labels| ==> !labels[i].Life?
    ensures Taken(s, labels) + t.queue == s.queue + Enqueued(s, labels)
  {
    if labels == [] {
      assert [] + t.queue == s.queue + [];
    } else {
      var n := |labels| - 1;
      var before := Run(s, labels[..n]).value;
      QueueIsFifo(s, labels[..n], before);
      FifoStep(before, labels[n], t, Taken(s, labels[..n]), s.queue + Enqueued(s, labels[..n]));
    }
  }

  lemma FifoStep(s: State, l: Label, t: State, taken: seq<JobId>, all: seq<JobId>)
    requires Next(s, l) == Some(t) && !l.Life? && taken + s.queue == all
    ensures var takes, gives := !s.coordinator.Took? && t.coordinator.Took?, s.handler.Enqueue? && t.handler == Ready;
      taken + (if takes then [t.coordinator.job] else []) + t.queue
      == all + if gives then [s.handler.job] else []
  {
  }

  lemma LoadKeepsQueue(s: State, order: seq<JobId>, t: State)
    requires RefsOk(s) && Next(s, Life(LoadQueue(order))) == Some(t) && |s.db.jobs| <= LIST_LIMIT
    ensures QueueOk(t) && forall id :: IsStatus(t.db, id, Queued) ==> NotLost(t, id)
  {
    ListingLength(order, s.db.jobs.Keys);
    RestartLosesExactly(s, order, t);
    forall id | IsStatus(t.db, id, Queued) ensures NotLost(t, id) {
      var i :| 0 <= i < |order| && order[i] == id;
    }
  }

  lemma StepKeepsQueue(s: State, l: Label, t: State)
    requires RefsOk(s) && QueueOk(s) && Next(s, l) == Some(t) && |s.db.jobs| <= LIST_LIMIT
    ensures QueueOk(t)
  {
    match l
    case Life(life) => if life.LoadQueue? { LoadKeepsQueue(s, life.order, t); }
    case HandlerStep => HandlerKeepsQueue(s, t);
    case Coordinate(c) => CoordinatorKeepsQueue(s, c, t);
    case _ =>
      StepTable(s, l, t);
      if IsUp(t) {
        forall id | IsStatus(t.db, id, Queued) ensures NotLost(t, id) || t.handler == Stopping(Some(id)) {
          assert IsStatus(s.db, id, Queued) ==> NotLost(s, id) || s.handler == Stopping(Some(id));
        }
      }
  }

  // ----- a complete job has its report event ------------------------------------------------------

  ghost predicate HasReport(log: seq<Event>) {
    exists i :: 0 <= i < |log| && log[i].stage == "report"
  }

  lemma ReportIsMonotone(a: seq<Event>, b: seq<Event>)
    requires a <= b && HasReport(a)
    ensures HasReport(b)
  {
    var i :| 0 <= i < |a| && a[i].stage == "report";
    assert b[i] == a[i];
  }

  ghost predicate ReportOk(s: State) {
    && (forall id :: IsStatus(s.db, id, Complete) ==> HasReport(Log(s.db, id)))
    && (s.coordinator.Reported? ==> HasReport(Log(s.db, s.coordinator.job)))
    && (s.handler == Polling(Complete) ==> HasReport(Log(s.db, s.client.job)))
  }

  lemma ReportFollowsTheEvent(s: State, em: nat)
    requires LogsOk(s) && em < |s.emitters| && Emit(s, em, "report").1
    ensures HasReport(Log(Emit(s, em, "report").0.db, s.emitters[em].job))
  {
    EmitExtendsOrConflicts(s, em, "report");
    var log := Log(Emit(s, em, "report").0.db, s.emitters[em].job);
    assert log[|log| - 1].stage == "report";
  }

  /** The coordinator reaches `Reported` only behind a stored report event. */
  lemma ReportedHasReport(s: State, c: CoordinatorStep, t: State)
    requires RefsOk(s) && LogsOk(s) && ReportOk(s) && CoordinatorNext(s, c) == Some(t)
    requires t.coordinator.Reported?
    ensures HasReport(Log(t.db, t.coordinator.job))
  {
    if s.coordinator.Executes? && c.Report? { ReportFollowsTheEvent(s, s.coordinator.em); }
  }

  /** A row becomes `complete` only behind the coordinator's own `Reported`. */
  lemma CompletedHasReport(s: State, l: Label, id: JobId)
    requires ReportOk(s)
    requires id in Applied(s.db, OpOf(s, l)) && Applied(s.db, OpOf(s, l))[id].status == Complete
    ensures HasReport(Log(s.db, id))
  {
    assert IsStatus(s.db, id, Complete) || (s.coordinator.Reported? && s.coordinator.job == id);
  }

  lemma StepKeepsReport(s: State, l: Label, t: State)
    requires RefsOk(s) && LogsOk(s) && ReportOk(s) && Next(s, l) == Some(t)
    ensures ReportOk(t)
  {
    StepKeepsLogsOk(s, l, t);
    StepTable(s, l, t);
    forall id | IsStatus(t.db, id, Complete) ensures HasReport(Log(t.db, id)) {
      CompletedHasReport(s, l, id);
      ReportIsMonotone(Log(s.db, id), Log(t.db, id));
    }
    if t.coordinator.Reported? {
      if l.Coordinate? {
        ReportedHasReport(s, l.step, t);
      } else {
        ReportIsMonotone(Log(s.db, s.coordinator.job), Log(t.db, s.coordinator.job));
      }
    }
    if t.handler == Polling(Complete) {
      PolledStatus(s, l, t);
      ReportIsMonotone(Log(s.db, s.client.job), Log(t.db, s.client.job));
    }
  }

  /** A poll holds a status that the table had when it was read. */
  lemma PolledStatus(s: State, l: Label, t: State)
    requires Next(s, l) == Some(t) && t.handler.Polling?
    ensures t.client == s.client
    ensures t.handler == s.handler || IsStatus(s.db, s.client.job, t.handler.status)
  {
    match l
    case Life(_) =>
    case Ask(_) =>
    case _ =>
  }

  // ----- the polling client -----------------------------------------------------------------------

  ghost predicate ClientOk(s: State) {
    && s.client.received <= Log(s.db, s.client.job)
    && s.client.since == |s.client.received|
    && (s.client.lastStatus == Some(Complete) ==> HasReport(s.client.received))
  }

  lemma PollDelivers(s: State, t: State)
    requires LogsOk(s) && ReportOk(s) && ClientOk(s) && PollNext(s) == Some(t)
    ensures t.client.received == Log(s.db, s.client.job)
    ensures t.client.since == |t.client.received|
    ensures ClientOk(t)
  {
    var log := Log(s.db, s.client.job);
    EventsSinceContiguous(log, s.client.since);
    MaxSequenceOfRun(log[s.client.since..], s.client.since + 1);
    assert log[..s.client.since] + log[s.client.since..] == log;
  }

  lemma OnlyPollsReachTheClient(s: State, l: Label, t: State)
    requires Next(s, l) == Some(t) && l != PollEvents
    ensures t.client == s.client
  {
    match l
    case Life(_) =>
    case Ask(_) =>
    case HandlerStep =>
    case Coordinate(c) => if ExecutionNext(s, c).Some? { assert ExecutionNext(s, c) == Some(t); }
    case Heartbeat(_) =>
    case HeartbeatEnds(_) =>
  }

  lemma StepKeepsClient(s: State, l: Label, t: State)
    requires LogsOk(s) && ReportOk(s) && ClientOk(s) && Next(s, l) == Some(t)
    ensures ClientOk(t)
    ensures t.client.job == s.client.job && s.client.received <= t.client.received
  {
    if l == PollEvents {
      PollDelivers(s, t);
    } else {
      OnlyPollsReachTheClient(s, l, t);
      StepKeepsLogsOk(s, l, t);
    }
  }
}
