/** The theorems about every run of the job protocol, and runs that show what it does not promise. */
module ProtocolTheorems {
  import opened Prelude
  import opened Models
  import opened JobStore
  import opened WorkerProtocol
  import opened ProtocolInvariants
  import opened ProtocolSafety

  // ----- a submit meets an empty log --------------------------------------------------------------

  ghost function CoordinatorJob(c: CoordinatorPc): Option<JobId> {
    match c
    case Idle => None
    case ThreadDied => None
    case _ => Some(c.job)
  }

  /** Nobody but the handler knows the job that is being submitted. */
  ghost predicate Private(s: State, job: JobId) {
    && job !in s.queue
    && CoordinatorJob(s.coordinator) != Some(job)
    && Log(s.db, job) == []
  }

  ghost predicate SubmitOk(s: State) {
    && (forall i :: 0 <= i < |s.emitters| ==> s.emitters[i].job in s.db.jobs)
    && (forall id :: id !in s.db.jobs ==> Log(s.db, id) == [])
    && (match s.handler
        case OpenLog(job, stage) =>
          stage == "queue" ==> Private(s, job) && forall i :: 0 <= i < |s.emitters| ==> s.emitters[i].job != job
        case Announce(job, em, stage) =>
          stage == "queue" ==>
            Private(s, job) && em < |s.emitters| && em !in s.heartbeats && s.emitters[em] == Emitter(job, 0)
                               && forall i :: 0 <= i < |s.emitters| && i != em ==> s.emitters[i].job != job
        case _ => true)
  }

  lemma QuietKeepsSubmit(s: State, l: Label, t: State)
    requires RefsOk(s) && SubmitOk(s) && Next(s, l) == Some(t)
    requires l.Life? || l.Ask? || l == PollEvents || l.HeartbeatEnds?
    ensures SubmitOk(t)
  {
    KnownJobsStayKnown(s, l, t);
    assert t.db.events == s.db.events;
    assert forall id :: Log(t.db, id) == Log(s.db, id);
  }

  lemma CoordinatorKeepsItsJob(s: State, c: CoordinatorStep, t: State)
    requires CoordinatorNext(s, c) == Some(t)
    ensures t.handler == s.handler
    ensures t.heartbeats == s.heartbeats || (s.coordinator.Claims? && t.heartbeats == s.heartbeats + {s.coordinator.em})
    ensures CoordinatorJob(t.coordinator) == None || CoordinatorJob(t.coordinator) == CoordinatorJob(s.coordinator)
            || (s.queue != [] && CoordinatorJob(t.coordinator) == Some(s.queue[0]))
    ensures forall id :: id in t.queue ==> id in s.queue
  {
    if ExecutionNext(s, c).Some? { assert ExecutionNext(s, c) == Some(t); }
  }

  /** An emission by anybody else, for a job that is not the private one. */
  lemma EmissionKeepsSubmit(s: State, em: nat, stage: string, t: State)
    requires LogsOk(s) && SubmitOk(s) && Emits(s, em, stage, t)
    requires t.handler == s.handler && t.db.jobs == s.db.jobs && t.heartbeats <= s.heartbeats
    requires s.handler.OpenLog? || s.handler.Announce? ==>
               s.emitters[em].job != s.handler.job || s.handler.stage != "queue"
    requires CoordinatorJob(t.coordinator) == None || CoordinatorJob(t.coordinator) == CoordinatorJob(s.coordinator)
    ensures SubmitOk(t)
  {
    EmitExtendsOrConflicts(s, em, stage);
    var e := Emit(s, em, stage).0;
    assert forall id :: Log(t.db, id) == Log(e.db, id);
  }

  lemma HandlerKeepsSubmit(s: State, t: State)
    requires RefsOk(s) && LogsOk(s) && SubmitOk(s) && HandlerNext(s) == Some(t)
    ensures SubmitOk(t)
  {
    HandlerTable(s, t);
    TableGrows(s.db, OpOf(s, HandlerStep));
    match s.handler
    case OpenLog(job, stage) => OpenEmitterBehind(s, job);
    case CancelOpensLog(job) => OpenEmitterBehind(s, job);
    case Announce(_, em, stage) => EmitExtendsOrConflicts(s, em, stage);
    case CancelAnnounces(_, em) => EmitExtendsOrConflicts(s, em, "cancelled");
    case _ =>
  }

  lemma QuietCoordinatorKeepsSubmit(s: State, c: CoordinatorStep, t: State)
    requires RefsOk(s) && SubmitOk(s) && CoordinatorNext(s, c) == Some(t) && Quiet(s, t)
    requires s.db.jobs.Keys <= t.db.jobs.Keys
    ensures SubmitOk(t)
  {
    CoordinatorKeepsItsJob(s, c, t);
    assert forall id :: Log(t.db, id) == Log(s.db, id);
    if t.emitters != s.emitters { CoordinatorOpens(s, c, t); }
  }

  lemma CoordinatorOpens(s: State, c: CoordinatorStep, t: State)
    requires CoordinatorNext(s, c) == Some(t) && Quiet(s, t) && t.emitters != s.emitters
    ensures s.coordinator.Saw? && t.emitters == OpenEmitter(s, s.coordinator.job).emitters
            && t.heartbeats == s.heartbeats
  {
  }

  lemma CoordinatorKeepsSubmit(s: State, c: CoordinatorStep, t: State)
    requires RefsOk(s) && LogsOk(s) && SubmitOk(s) && CoordinatorNext(s, c) == Some(t)
    ensures SubmitOk(t)
  {
    KnownJobsStayKnown(s, Coordinate(c), t);
    if Quiet(s, t) {
      QuietCoordinatorKeepsSubmit(s, c, t);
    } else {
      CoordinatorEmission(s, c, t);
      var stage :| Emits(s, CoordinatorEmitter(s.coordinator), stage, t);
      EmissionKeepsSubmit(s, CoordinatorEmitter(s.coordinator), stage, t);
    }
  }

  lemma CoordinatorEmission(s: State, c: CoordinatorStep, t: State)
    requires RefsOk(s) && CoordinatorNext(s, c) == Some(t) && !Quiet(s, t)
    ensures exists stage :: Emits(s, CoordinatorEmitter(s.coordinator), stage, t)
    ensures Some(s.emitters[CoordinatorEmitter(s.coordinator)].job) == CoordinatorJob(s.coordinator)
    ensures t.handler == s.handler && t.db.jobs == s.db.jobs && t.heartbeats == s.heartbeats
    ensures CoordinatorJob(t.coordinator) in {None, CoordinatorJob(s.coordinator)}
  {
    if ExecutionNext(s, c).Some? {
      assert ExecutionNext(s, c) == Some(t);
      ExecutionLogEffect(s, c, t);
      ExecutionTable(s, c, t);
    } else {
      CoordinatorLogEffect(s, c, t);
      CoordinatorTable(s, c, t);
    }
  }

  lemma HeartbeatKeepsSubmit(s: State, em: nat, t: State)
    requires RefsOk(s) && LogsOk(s) && SubmitOk(s) && HeartbeatNext(s, em) == Some(t)
    ensures SubmitOk(t)
  {
    EmitKeepsJobs(s, em, "heartbeat");
    EmissionKeepsSubmit(s, em, "heartbeat", t);
  }

  lemma StepKeepsSubmit(s: State, l: Label, t: State)
    requires RefsOk(s) && LogsOk(s) && SubmitOk(s) && Next(s, l) == Some(t)
    ensures SubmitOk(t)
  {
    if l.HandlerStep? { HandlerKeepsSubmit(s, t); }
    else if l.Coordinate? { CoordinatorKeepsSubmit(s, l.step, t); }
    else if l.Heartbeat? { HeartbeatKeepsSubmit(s, l.em, t); }
    else { QuietKeepsSubmit(s, l, t); }
  }

  // ----- the invariant over all runs ----------------------------------------------------------------

  ghost predicate Inv(s: State) {
    && RefsOk(s)
    && LogsOk(s)
    && RowsOk(s.db)
    && RunningOk(s)
    && ReportOk(s)
    && ClientOk(s)
    && SubmitOk(s)
    && (|s.db.jobs| <= LIST_LIMIT ==> QueueOk(s))
  }

  lemma SmallerTable(a: map<JobId, JobRow>, b: map<JobId, JobRow>)
    requires a.Keys <= b.Keys
    ensures |a| <= |b|
  {
    assert b.Keys == a.Keys + (b.Keys - a.Keys);
    assert |a| == |a.Keys| && |b| == |b.Keys|;
  }

  /** Every step of every thread, every crash and every restart keeps the invariant. */
  lemma StepKeepsInv(s: State, l: Label, t: State)
    requires Inv(s) && Next(s, l) == Some(t)
    ensures Inv(t)
  {
    StepKeepsRefs(s, l, t);
    StepKeepsLogsOk(s, l, t);
    StepKeepsRows(s, l, t);
    StepKeepsRunning(s, l, t);
    StepKeepsReport(s, l, t);
    StepKeepsClient(s, l, t);
    StepKeepsSubmit(s, l, t);
    KnownJobsStayKnown(s, l, t);
    SmallerTable(s.db.jobs, t.db.jobs);
    if |t.db.jobs| <= LIST_LIMIT { StepKeepsQueue(s, l, t); }
  }

  lemma {:induction false} RunKeepsInv(job: JobId, labels: seq<Label>, s: State)
    requires Run(Start(job), labels) == Some(s)
    ensures Inv(s) && s.client.job == job
  {
    if labels != [] {
      var front := labels[..|labels| - 1];
      var before := Run(Start(job), front).value;
      RunKeepsInv(job, front, before);
      StepKeepsInv(before, labels[|labels| - 1], s);
      StepKeepsClient(before, labels[|labels| - 1], s);
    }
  }

  /** In every interleaving, across crashes and restarts, while the handler lives: a queued job is on its way. */
  lemma NoJobIsLost(job: JobId, labels: seq<Label>, s: State, id: JobId)
    requires Run(Start(job), labels) == Some(s)
    requires |s.db.jobs| <= LIST_LIMIT && IsUp(s) && !s.handler.Stopping?
    requires IsStatus(s.db, id, Queued)
    ensures id in s.queue || Undecided(s.coordinator, id) || AboutToEnqueue(s.handler, id)
  {
    RunKeepsInv(job, labels, s);
  }

  /** A handler that the primary key has killed holds back at most the one job that it was announcing. */
  lemma StoppedWorkerHoldsOne(job: JobId, labels: seq<Label>, s: State, id: JobId)
    requires Run(Start(job), labels) == Some(s)
    requires |s.db.jobs| <= LIST_LIMIT && s.handler.Stopping?
    requires IsStatus(s.db, id, Queued)
    ensures id in s.queue || Undecided(s.coordinator, id) || s.handler.pending == Some(id)
  {
    RunKeepsInv(job, labels, s);
  }

  /** The event log of every job is 1..k after every step. */
  lemma LogsAreContiguous(job: JobId, labels: seq<Label>, s: State, id: JobId)
    requires Run(Start(job), labels) == Some(s)
    ensures forall i :: 0 <= i < |Log(s.db, id)| ==> Log(s.db, id)[i].sequence == i + 1
  {
    RunKeepsInv(job, labels, s);
    assert Contiguous(Log(s.db, id));
  }

  /** At most one job is `running`; while a worker serves requests, the coordinator is executing it. */
  lemma OneRunningJob(job: JobId, labels: seq<Label>, s: State, id: JobId, other: JobId)
    requires Run(Start(job), labels) == Some(s)
    requires IsStatus(s.db, id, Running)
    ensures IsStatus(s.db, other, Running) ==> other == id
    ensures IsUp(s) ==> Executing(s.coordinator, id)
  {
    RunKeepsInv(job, labels, s);
  }

  /** Result, error, report and flag of every row fit its status, in every reachable state. */
  lemma RowsAreWellFormed(job: JobId, labels: seq<Label>, s: State)
    requires Run(Start(job), labels) == Some(s)
    ensures RowsOk(s.db)
  {
    RunKeepsInv(job, labels, s);
  }

  /** The client has received a prefix of the log, each event once and in order. */
  lemma ClientHasPrefix(job: JobId, labels: seq<Label>, s: State)
    requires Run(Start(job), labels) == Some(s)
    ensures s.client.received <= Log(s.db, job)
    ensures s.client.since == |s.client.received|
    ensures forall i :: 0 <= i < |s.client.received| ==> s.client.received[i].sequence == i + 1
    ensures s.client.lastStatus == Some(Complete) ==> HasReport(s.client.received)
  {
    RunKeepsInv(job, labels, s);
    assert Contiguous(Log(s.db, job));
    forall i | 0 <= i < |s.client.received| ensures s.client.received[i].sequence == i + 1 {
      assert s.client.received[i] == Log(s.db, job)[..|s.client.received|][i];
    }
  }

  /** A submit never meets the primary key: only cancel and resume can bring the worker down. */
  lemma SubmitNeverConflicts(job: JobId, labels: seq<Label>, s: State, t: State)
    requires Run(Start(job), labels) == Some(s)
    requires s.handler.Announce? && s.handler.stage == "queue"
    requires Next(s, HandlerStep) == Some(t)
    ensures t.handler == Enqueue(s.handler.job)
    ensures Log(t.db, s.handler.job) == [Event(1, "queue")]
  {
    RunKeepsInv(job, labels, s);
    EmitExtendsOrConflicts(s, s.handler.em, "queue");
  }

  // ----- attempts and the cancel flag -----------------------------------------------------------------

  /** How often `mark_running` succeeded for one job in a run. */
  ghost function Claimed(start: State, labels: seq<Label>, id: JobId): nat {
    if labels == [] then 0
    else
      var front := labels[..|labels| - 1];
      Claimed(start, front, id) +
      (match Run(start, front)
       case None => 0
       case Some(s) => if OpOf(s, labels[|labels| - 1]) == ClaimsRow(id) && MarkRunning(s.db, id).1 then 1 else 0)
  }

  lemma {:induction false} AttemptCountsClaims(job: JobId, labels: seq<Label>, s: State, id: JobId)
    requires Run(Start(job), labels) == Some(s)
    ensures id in s.db.jobs ==> s.db.jobs[id].attempt == Claimed(Start(job), labels, id)
    ensures id !in s.db.jobs ==> Claimed(Start(job), labels, id) == 0
  {
    if labels != [] {
      var front, last := labels[..|labels| - 1], labels[|labels| - 1];
      var before := Run(Start(job), front).value;
      AttemptCountsClaims(job, front, before, id);
      StepTable(before, last, s);
    }
  }

  /** Along `labels` the row of `id` is `running` in every state that is passed. */
  ghost predicate StaysRunning(start: State, labels: seq<Label>, id: JobId) {
    forall k :: 0 <= k <= |labels| ==>
      Run(start, labels[..k]).Some? && IsStatus(Run(start, labels[..k]).value.db, id, Running)
  }

  lemma FlagStepSticks(s: State, l: Label, t: State, id: JobId)
    requires Next(s, l) == Some(t) && IsStatus(s.db, id, Running) && IsStatus(t.db, id, Running)
    requires s.db.jobs[id].cancelRequested
    ensures t.db.jobs[id].cancelRequested
  {
    StepTable(s, l, t);
  }

  /** A cancel flag that is up while the job runs stays up until the row leaves `running`. */
  lemma {:induction false} CancelFlagSticks(start: State, labels: seq<Label>, s: State, id: JobId)
    requires StaysRunning(start, labels, id) && Run(start, labels) == Some(s)
    requires id in start.db.jobs && start.db.jobs[id].cancelRequested
    ensures id in s.db.jobs && s.db.jobs[id].cancelRequested
  {
    assert labels[..|labels|] == labels;
    if labels != [] {
      var front := labels[..|labels| - 1];
      forall k | 0 <= k <= |front|
        ensures Run(start, front[..k]).Some? && IsStatus(Run(start, front[..k]).value.db, id, Running)
      {
        assert front[..k] == labels[..k];
      }
      var before := Run(start, front).value;
      CancelFlagSticks(start, front, before, id);
      assert IsStatus(before.db, id, Running) by { assert front == labels[..|labels| - 1]; }
      FlagStepSticks(before, labels[|labels| - 1], s, id);
    }
  }

  // ----- who cancels a running job ------------------------------------------------------------------------------

  /** While the coordinator acts on a cancel that it has seen, the flag of its running job is up. */
  ghost predicate CancelOk(s: State) {
    s.coordinator.ObservedCancel? && IsStatus(s.db, s.coordinator.job, Running) ==>
      s.db.jobs[s.coordinator.job].cancelRequested
  }

  lemma ObservesTheFlag(s: State, l: Label, t: State)
    requires Next(s, l) == Some(t) && t.coordinator.ObservedCancel?
    ensures s.coordinator == t.coordinator
         || (t.db == s.db && t.coordinator.job in s.db.jobs && s.db.jobs[t.coordinator.job].cancelRequested)
  {
    match l
    case HandlerStep =>
    case Coordinate(c) =>
      if ExecutionNext(s, c).Some? { assert ExecutionNext(s, c) == Some(t); }
    case _ =>
  }

  lemma StepKeepsCancelOk(s: State, l: Label, t: State)
    requires CancelOk(s) && Next(s, l) == Some(t)
    ensures CancelOk(t)
  {
    if t.coordinator.ObservedCancel? {
      ObservesTheFlag(s, l, t);
      var id := t.coordinator.job;
      StepTable(s, l, t);
      RunningAfter(s.db, OpOf(s, l), t.db.jobs);
      if IsStatus(s.db, id, Running) && IsStatus(t.db, id, Running) && s.db.jobs[id].cancelRequested {
        FlagStepSticks(s, l, t, id);
      }
    }
  }

  lemma {:induction false} RunKeepsCancelOk(job: JobId, labels: seq<Label>, s: State)
    requires Run(Start(job), labels) == Some(s)
    ensures CancelOk(s)
  {
    if labels != [] {
      var front := labels[..|labels| - 1];
      var before := Run(Start(job), front).value;
      RunKeepsCancelOk(job, front, before);
      StepKeepsCancelOk(before, labels[|labels| - 1], s);
    }
  }

  /** A running job becomes cancelled only with its flag up, or by a cancel that had read it as queued. */
  lemma CancelsAreRequested(job: JobId, labels: seq<Label>, s: State, l: Label, t: State, id: JobId)
    requires Run(Start(job), labels) == Some(s) && Next(s, l) == Some(t)
    requires IsStatus(s.db, id, Running) && IsStatus(t.db, id, Cancelled)
    ensures s.db.jobs[id].cancelRequested || s.handler == CancelWrites(id)
  {
    RunKeepsInv(job, labels, s);
    RunKeepsCancelOk(job, labels, s);
    StepTable(s, l, t);
    assert OpOf(s, l) == Cancels(id);
  }

  // ----- a poll ------------------------------------------------------------------------------------------------

  /** A poll is answered while the worker serves requests, with the status of the job and the rest of its log. */
  lemma PollIsAnswered(job: JobId, labels: seq<Label>, s: State) returns (asked: State, t: State)
    requires Run(Start(job), labels) == Some(s) && s.handler == Ready && job in s.db.jobs
    ensures Next(s, Ask(PollJob)) == Some(asked) && Next(asked, PollEvents) == Some(t)
    ensures t.client == Client(job, |Log(s.db, job)|, Log(s.db, job), Some(s.db.jobs[job].status))
    ensures t == s.(client := t.client)
  {
    RunKeepsInv(job, labels, s);
    asked := Next(s, Ask(PollJob)).value;
    StepKeepsInv(s, Ask(PollJob), asked);
    t := Next(asked, PollEvents).value;
    PollDelivers(asked, t);
  }
}
