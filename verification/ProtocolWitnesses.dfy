/** Runs of the job protocol that show which promises it does not make. */
module ProtocolWitnesses {
  import opened Prelude
  import opened Models
  import opened JobStore
  import opened WorkerProtocol
  import opened ProtocolInvariants
  import opened ProtocolSafety
  import opened ProtocolTheorems
  import opened ProtocolConflicts
  import opened ProtocolStops

  lemma RunSnoc(start: State, labels: seq<Label>, s: State, l: Label)
    requires Run(start, labels) == Some(s)
    ensures Run(start, labels + [l]) == Next(s, l)
  {
    var all := labels + [l];
    assert all[..|all| - 1] == labels && all[|all| - 1] == l;
  }

  // ----- more than 1,000 jobs: a restart loses the oldest -------------------------------------------

  function Unary(n: nat): (id: JobId)
    ensures |id| == n
  {
    seq(n, _ => '1')
  }

  /** Start an empty store and submit jobs 0, 1, ..., n-1, each created later than the one before. */
  ghost function Submits(n: nat): seq<Label> {
    if n == 0 then [Life(RecoverJobs), Life(LoadQueue([]))]
    else Submits(n - 1) + [Ask(Submit(Unary(n - 1), n - 1)), HandlerStep, HandlerStep, HandlerStep]
  }

  ghost predicate Submitted(s: State, n: nat) {
    && s.handler == Ready && s.coordinator == Idle
    && (forall id :: id in s.db.jobs <==> exists k: nat :: k < n && id == Unary(k))
    && (forall k: nat :: k < n ==> IsStatus(s.db, Unary(k), Queued) && s.db.jobs[Unary(k)].createdAt == k)
  }

  lemma StartsEmpty(client: JobId) returns (s: State)
    ensures Run(Start(client), Submits(0)) == Some(s) && Submitted(s, 0)
    ensures s == Start(client).(handler := Ready)
  {
    var s0 := Start(client);
    assert Run(s0, []) == Some(s0);
    RunSnoc(s0, [], s0, Life(RecoverJobs));
    var s1 := Next(s0, Life(RecoverJobs)).value;
    assert [] + [Life(RecoverJobs)] == [Life(RecoverJobs)];
    RunSnoc(s0, [Life(RecoverJobs)], s1, Life(LoadQueue([])));
    assert [Life(RecoverJobs)] + [Life(LoadQueue([]))] == Submits(0);
    assert IsListing(s1.db, []);
    s := Next(s1, Life(LoadQueue([]))).value;
  }

  lemma SubmitWrites(s: State, n: nat) returns (t: State)
    requires Submitted(s, n)
    ensures Next(s, Ask(Submit(Unary(n), n))) == Some(t)
    ensures t.handler == OpenLog(Unary(n), "queue") && t.coordinator == Idle
    ensures t.db.jobs == s.db.jobs[Unary(n) := JobRow(n, Queued, 0, false, None, None, None, None)]
  {
    assert Unary(n) !in s.db.jobs;
    t := Next(s, Ask(Submit(Unary(n), n))).value;
  }

  /** A submit that has written its row always reaches the queue. */
  lemma SubmitEnqueues(client: JobId, labels: seq<Label>, s: State) returns (t: State)
    requires Run(Start(client), labels) == Some(s)
    requires s.handler.OpenLog? && s.handler.stage == "queue" && s.coordinator == Idle
    ensures Run(Start(client), labels + [HandlerStep, HandlerStep, HandlerStep]) == Some(t)
    ensures t.handler == Ready && t.coordinator == Idle && t.db.jobs == s.db.jobs
  {
    var start := Start(client);
    RunSnoc(start, labels, s, HandlerStep);
    var ready := Next(s, HandlerStep).value;
    RunSnoc(start, labels + [HandlerStep], ready, HandlerStep);
    var announced := Next(ready, HandlerStep).value;
    SubmitNeverConflicts(client, labels + [HandlerStep], ready, announced);
    HandlerTable(ready, announced);
    assert announced.coordinator == Idle;
    var all := labels + [HandlerStep] + [HandlerStep];
    RunSnoc(start, all, announced, HandlerStep);
    t := Next(announced, HandlerStep).value;
    assert all + [HandlerStep] == labels + [HandlerStep, HandlerStep, HandlerStep];
  }

  lemma SubmittedGrows(s: State, n: nat, t: State)
    requires Submitted(s, n) && t.handler == Ready && t.coordinator == Idle
    requires t.db.jobs == s.db.jobs[Unary(n) := JobRow(n, Queued, 0, false, None, None, None, None)]
    ensures Submitted(t, n + 1)
  {
    forall id ensures id in t.db.jobs <==> exists k: nat :: k < n + 1 && id == Unary(k) {
      if id in s.db.jobs { var k: nat :| k < n && id == Unary(k); }
    }
    forall k: nat | k < n + 1
      ensures IsStatus(t.db, Unary(k), Queued) && t.db.jobs[Unary(k)].createdAt == k
    {
      assert |Unary(k)| == k && |Unary(n)| == n;
      if k < n { assert IsStatus(s.db, Unary(k), Queued); }
    }
  }

  lemma SubmitOne(client: JobId, labels: seq<Label>, s: State, n: nat) returns (t: State)
    requires Run(Start(client), labels) == Some(s) && Submitted(s, n)
    ensures Run(Start(client), labels + [Ask(Submit(Unary(n), n)), HandlerStep, HandlerStep, HandlerStep]) == Some(t)
    ensures Submitted(t, n + 1)
  {
    var l := Ask(Submit(Unary(n), n));
    var written := SubmitWrites(s, n);
    RunSnoc(Start(client), labels, s, l);
    t := SubmitEnqueues(client, labels + [l], written);
    assert labels + [l] + [HandlerStep, HandlerStep, HandlerStep]
        == labels + [l, HandlerStep, HandlerStep, HandlerStep];
    SubmittedGrows(s, n, t);
  }

  lemma {:induction false} SubmitMany(client: JobId, n: nat) returns (s: State)
    ensures Run(Start(client), Submits(n)) == Some(s) && Submitted(s, n)
  {
    if n == 0 {
      s := StartsEmpty(client);
    } else {
      var before := SubmitMany(client, n - 1);
      s := SubmitOne(client, Submits(n - 1), before, n - 1);
    }
  }

  ghost function NewestFirst(n: nat): seq<JobId> {
    seq(n, i requires 0 <= i < n => Unary(n - 1 - i))
  }

  /** A crash and the recovery of interrupted jobs leave queued jobs as they are. */
  lemma RestartUntilLoad(client: JobId, labels: seq<Label>, s: State, n: nat) returns (t: State)
    requires Run(Start(client), labels) == Some(s) && Submitted(s, n)
    ensures Run(Start(client), labels + [Life(Crash), Life(RecoverJobs)]) == Some(t)
    ensures t.handler == Recovered && t.coordinator == Idle && t.db.jobs == s.db.jobs
  {
    RunSnoc(Start(client), labels, s, Life(Crash));
    var down := Next(s, Life(Crash)).value;
    RunSnoc(Start(client), labels + [Life(Crash)], down, Life(RecoverJobs));
    assert labels + [Life(Crash)] + [Life(RecoverJobs)] == labels + [Life(Crash), Life(RecoverJobs)];
    t := Next(down, Life(RecoverJobs)).value;
    forall id | id in s.db.jobs ensures t.db.jobs[id] == s.db.jobs[id] {
      var k: nat :| k < n && id == Unary(k);
      assert IsStatus(s.db, Unary(k), Queued);
    }
  }

  lemma OldestIsForgotten(s: State, n: nat, t: State)
    requires n > LIST_LIMIT && RefsOk(s) && Next(s, Life(LoadQueue(NewestFirst(n)))) == Some(t)
    requires IsStatus(t.db, Unary(0), Queued)
    ensures !NotLost(t, Unary(0))
  {
    var order := NewestFirst(n);
    assert order[n - 1] == Unary(0);
    RestartLosesExactly(s, order, t);
  }

  /** For every number of rows above the limit there is a run whose restart forgets the oldest job. */
  lemma RestartCanLoseAJob(client: JobId, n: nat) returns (labels: seq<Label>, s: State)
    requires n > LIST_LIMIT
    ensures |s.db.jobs.Keys| == n
    ensures Run(Start(client), labels) == Some(s)
    ensures IsUp(s) && IsStatus(s.db, Unary(0), Queued) && !NotLost(s, Unary(0))
  {
    var full := SubmitMany(client, n);
    assert IsStatus(full.db, Unary(0), Queued);
    labels := Submits(n) + [Life(Crash), Life(RecoverJobs)];
    var recovered := RestartUntilLoad(client, Submits(n), full, n);
    RunKeepsRefs(client, labels, recovered);
    var order := NewestFirst(n);
    ListingOfUnary(recovered.db, n, order);
    RunSnoc(Start(client), labels, recovered, Life(LoadQueue(order)));
    labels := labels + [Life(LoadQueue(order))];
    s := Next(recovered, Life(LoadQueue(order))).value;
    OldestIsForgotten(recovered, n, s);
    ListingLength(order, s.db.jobs.Keys);
  }

  lemma RunKeepsRefs(client: JobId, labels: seq<Label>, s: State)
    requires Run(Start(client), labels) == Some(s)
    ensures RefsOk(s) && LogsOk(s)
  {
    RunKeepsInv(client, labels, s);
  }

  lemma ListingOfUnary(db: Db, n: nat, order: seq<JobId>)
    requires order == NewestFirst(n)
    requires forall id :: id in db.jobs <==> exists k: nat :: k < n && id == Unary(k)
    requires forall k: nat :: k < n ==> Unary(k) in db.jobs && db.jobs[Unary(k)].createdAt == k
    ensures IsListing(db, order)
  {
    forall i, j | 0 <= i < j < |order|
      ensures order[i] != order[j] && db.jobs[order[i]].createdAt >= db.jobs[order[j]].createdAt
    {
      assert |order[i]| == n - 1 - i && |order[j]| == n - 1 - j;
    }
    forall id ensures id in order <==> id in db.jobs {
      if id in db.jobs {
        var k: nat :| k < n && id == Unary(k);
        assert order[n - 1 - k] == id;
      }
    }
  }

  // ----- a resume can take the worker down -----------------------------------------------------------

  const JOB: JobId := "a"

  function OneJob(row: JobRow, log: seq<Event>): Db { Db(map[JOB := row], map[JOB := log]) }

  function FailedRow(): JobRow {
    JobRow(0, Failed, 1, false, None, None, Some(AnalysisIncomplete), Some("boom"))
  }

  function QueuedRow(attempt: nat): JobRow { JobRow(0, Queued, attempt, false, None, None, None, None) }

  lemma QueueOneJob(client: JobId) returns (labels: seq<Label>, s: State)
    ensures Run(Start(client), labels) == Some(s)
    ensures s == State(OneJob(QueuedRow(0), [Event(1, "queue")]), [JOB], [Emitter(JOB, 1)], {}, Ready, Idle,
                       Client(client, 0, [], None))
  {
    var s0 := StartsEmpty(client);
    assert s0 == Start(client).(handler := Ready);
    labels := Submits(0);
    RunSnoc(Start(client), labels, s0, Ask(Submit(JOB, 0)));
    labels := labels + [Ask(Submit(JOB, 0))];
    var s1 := Next(s0, Ask(Submit(JOB, 0))).value;
    RunSnoc(Start(client), labels, s1, HandlerStep);
    var s2 := Next(s1, HandlerStep).value;
    assert s2.emitters == [Emitter(JOB, 0)];
    labels := labels + [HandlerStep];
    RunSnoc(Start(client), labels, s2, HandlerStep);
    var s3 := Next(s2, HandlerStep).value;
    assert [] + [Event(1, "queue")] == [Event(1, "queue")];
    labels := labels + [HandlerStep];
    RunSnoc(Start(client), labels, s3, HandlerStep);
    labels, s := labels + [HandlerStep], Next(s3, HandlerStep).value;
  }

  lemma ExecuteOneJob(client: JobId) returns (labels: seq<Label>, s: State)
    ensures Run(Start(client), labels) == Some(s)
    ensures s.db == OneJob(QueuedRow(0).(status := Running, attempt := 1), [Event(1, "queue")])
    ensures s.queue == [] && s.emitters == [Emitter(JOB, 1), Emitter(JOB, 1)]
    ensures s.handler == Ready && s.coordinator == Executes(JOB, 1)
  {
    labels, s := QueueOneJob(client);
    RunSnoc(Start(client), labels, s, Coordinate(Take));
    labels, s := labels + [Coordinate(Take)], Next(s, Coordinate(Take)).value;
    RunSnoc(Start(client), labels, s, Coordinate(Lookup));
    labels, s := labels + [Coordinate(Lookup)], Next(s, Coordinate(Lookup)).value;
    RunSnoc(Start(client), labels, s, Coordinate(OpenCoordinatorLog));
    labels, s := labels + [Coordinate(OpenCoordinatorLog)], Next(s, Coordinate(OpenCoordinatorLog)).value;
    RunSnoc(Start(client), labels, s, Coordinate(Claim));
    labels, s := labels + [Coordinate(Claim)], Next(s, Coordinate(Claim)).value;
  }

  lemma FailOneJob(client: JobId) returns (labels: seq<Label>, s: State)
    ensures Run(Start(client), labels) == Some(s)
    ensures s.db == OneJob(FailedRow(), [Event(1, "queue")])
    ensures s.queue == [] && s.emitters == [Emitter(JOB, 1), Emitter(JOB, 1)]
    ensures s.handler == Ready && s.coordinator == AnnounceOutcome(JOB, 1, "error", true)
  {
    labels, s := ExecuteOneJob(client);
    var raise, fail := Coordinate(Raise(AnalysisIncomplete, true)), Coordinate(FailWith("boom"));
    RunSnoc(Start(client), labels, s, raise);
    labels, s := labels + [raise], Next(s, raise).value;
    RunSnoc(Start(client), labels, s, fail);
    labels, s := labels + [fail], Next(s, fail).value;
  }

  /** The resumed job has opened its log before the coordinator announces the failure. */
  lemma ResumeOpensTooEarly(client: JobId) returns (labels: seq<Label>, s: State)
    ensures Run(Start(client), labels) == Some(s)
    ensures s.db == OneJob(QueuedRow(1), [Event(1, "queue")]) && s.queue == []
    ensures s.emitters == [Emitter(JOB, 1), Emitter(JOB, 1), Emitter(JOB, 1)]
    ensures s.handler == Announce(JOB, 2, "resume") && s.coordinator == AnnounceOutcome(JOB, 1, "error", true)
  {
    labels, s := FailOneJob(client);
    RunSnoc(Start(client), labels, s, Ask(Resume(JOB)));
    labels, s := labels + [Ask(Resume(JOB))], Next(s, Ask(Resume(JOB))).value;
    RunSnoc(Start(client), labels, s, HandlerStep);
    labels, s := labels + [HandlerStep], Next(s, HandlerStep).value;
  }

  /**
    A resume between the coordinator's `failed` and its "error" event opens its log too early: the
    insert hits the primary key, nothing in the request loop handles that, and the worker stops with
    the job queued but not enqueued.  Only the next start of a worker picks it up.
   */
  lemma ResumeCanStopTheWorker(client: JobId) returns (labels: seq<Label>, s: State)
    ensures Run(Start(client), labels) == Some(s)
    ensures s.handler == Stopping(Some(JOB)) && IsStatus(s.db, JOB, Queued) && s.queue == []
    ensures s.coordinator == Idle
  {
    var first, s1 := ResumeOpensTooEarly(client);
    RunKeepsRefs(client, first, s1);
    EmitExtendsOrConflicts(s1, 1, "error");
    RunSnoc(Start(client), first, s1, Coordinate(AnnounceEnd));
    var second, s2 := first + [Coordinate(AnnounceEnd)], Next(s1, Coordinate(AnnounceEnd)).value;
    StepKeepsLogsOk(s1, Coordinate(AnnounceEnd), s2);
    EmitExtendsOrConflicts(s2, 2, "resume");
    RunSnoc(Start(client), second, s2, HandlerStep);
    labels, s := second + [HandlerStep], Next(s2, HandlerStep).value;
  }

  /** So can a cancel of a queued job, when the coordinator takes the job in between. */
  lemma CancelCanStopTheWorker(client: JobId) returns (labels: seq<Label>, s: State)
    ensures Run(Start(client), labels) == Some(s) && s.handler.Stopping?
  {
    var before, queued := QueueOneJob(client);
    assert IsStatus(queued.db, JOB, Queued) && Next(queued, Ask(CancelFlag(JOB))).Some?;
    assert WillOpen(queued, JOB, true);
    CancelStopsIff(client, before, queued, JOB);
    var more, t :| IsRunOf(CancelFlag(JOB), more) && Run(queued, more) == Some(t) && t.handler.Stopping?;
    RunConcat(Start(client), before, queued, more);
    labels, s := before + more, t;
  }

  // ----- the coordinator can die ------------------------------------------------------------------------

  /** One more step of a run. */
  lemma Step(client: JobId, labels: seq<Label>, s: State, l: Label) returns (more: seq<Label>, t: State)
    requires Run(Start(client), labels) == Some(s) && Next(s, l).Some?
    ensures Run(Start(client), more) == Some(t) && Next(s, l) == Some(t)
  {
    RunSnoc(Start(client), labels, s, l);
    more, t := labels + [l], Next(s, l).value;
  }

  /** A cancel has read `queued` when the coordinator, seeing the flag, drops the job itself. */
  lemma CancelAndDrop(client: JobId) returns (labels: seq<Label>, s: State)
    ensures Run(Start(client), labels) == Some(s)
    ensures s.db == OneJob(DroppedRow(), [Event(1, "queue")])
    ensures s.queue == [] && s.heartbeats == {} && s.emitters == [Emitter(JOB, 1), Emitter(JOB, 1)]
    ensures s.handler == CancelWrites(JOB) && s.coordinator == AnnounceDrop(JOB, 1)
  {
    labels, s := QueueOneJob(client);
    labels, s := Step(client, labels, s, Ask(CancelFlag(JOB)));
    labels, s := Step(client, labels, s, HandlerStep);
    labels, s := Step(client, labels, s, Coordinate(Take));
    labels, s := Step(client, labels, s, Coordinate(Lookup));
    labels, s := Step(client, labels, s, Coordinate(OpenCoordinatorLog));
    labels, s := Step(client, labels, s, Coordinate(DropCancelled));
  }

  function DroppedRow(): JobRow {
    QueuedRow(0).(status := Cancelled, cancelRequested := true, result := Some(RunCancelled))
  }

  /** The handler writes the cancel once more and opens its log. */
  lemma CancelOpened(client: JobId) returns (labels: seq<Label>, s: State)
    ensures Run(Start(client), labels) == Some(s)
    ensures s.db == OneJob(DroppedRow(), [Event(1, "queue")])
    ensures s.queue == [] && s.heartbeats == {} && s.emitters == [Emitter(JOB, 1), Emitter(JOB, 1), Emitter(JOB, 1)]
    ensures s.handler == CancelAnnounces(JOB, 2) && s.coordinator == AnnounceDrop(JOB, 1)
  {
    labels, s := CancelAndDrop(client);
    labels, s := Step(client, labels, s, HandlerStep);
    labels, s := Step(client, labels, s, HandlerStep);
  }

  /** The handler announces its cancel before the coordinator does. */
  lemma CancelAnnounced(client: JobId) returns (labels: seq<Label>, s: State)
    ensures Run(Start(client), labels) == Some(s)
    ensures s.db == OneJob(DroppedRow(), [Event(1, "queue"), Event(2, "cancelled")])
    ensures s.queue == [] && s.heartbeats == {} && s.emitters == [Emitter(JOB, 1), Emitter(JOB, 1), Emitter(JOB, 2)]
    ensures s.handler == Ready && s.coordinator == AnnounceDrop(JOB, 1)
  {
    labels, s := CancelOpened(client);
    RunKeepsRefs(client, labels, s);
    EmitExtendsOrConflicts(s, 2, "cancelled");
    labels, s := Step(client, labels, s, HandlerStep);
    assert Log(s.db, JOB) == [Event(1, "queue"), Event(2, "cancelled")];
  }

  /** The coordinator's announcement is refused. */
  lemma DropRefused(client: JobId) returns (labels: seq<Label>, s: State)
    ensures Run(Start(client), labels) == Some(s)
    ensures s.db == OneJob(DroppedRow(), [Event(1, "queue"), Event(2, "cancelled")])
    ensures s.queue == [] && s.heartbeats == {} && s.emitters == [Emitter(JOB, 1), Emitter(JOB, 2), Emitter(JOB, 2)]
    ensures s.handler == Ready && s.coordinator == Raised(JOB, 1, InternalError, false)
  {
    labels, s := CancelAnnounced(client);
    RunKeepsRefs(client, labels, s);
    EmitExtendsOrConflicts(s, 1, "cancelled");
    labels, s := Step(client, labels, s, Coordinate(AnnounceEnd));
  }

  /** So it fails the job, which can then be resumed. */
  lemma RefusedDrop(client: JobId) returns (labels: seq<Label>, s: State)
    ensures Run(Start(client), labels) == Some(s)
    ensures s.db.jobs.Keys == {JOB} && IsStatus(s.db, JOB, Failed)
    ensures Log(s.db, JOB) == [Event(1, "queue"), Event(2, "cancelled")]
    ensures s.queue == [] && s.heartbeats == {} && s.emitters == [Emitter(JOB, 1), Emitter(JOB, 2), Emitter(JOB, 2)]
    ensures s.handler == Ready && s.coordinator == AnnounceOutcome(JOB, 1, "error", false)
  {
    labels, s := DropRefused(client);
    labels, s := Step(client, labels, s, Coordinate(FailWith("")));
  }

  /** The job is resumed while the coordinator has yet to announce the error. */
  lemma ResumeAccepted(client: JobId) returns (labels: seq<Label>, s: State)
    ensures Run(Start(client), labels) == Some(s)
    ensures IsStatus(s.db, JOB, Queued) && Log(s.db, JOB) == [Event(1, "queue"), Event(2, "cancelled")]
    ensures s.queue == [] && s.heartbeats == {} && s.emitters == [Emitter(JOB, 1), Emitter(JOB, 2), Emitter(JOB, 2)]
    ensures s.handler == OpenLog(JOB, "resume") && s.coordinator == AnnounceOutcome(JOB, 1, "error", false)
  {
    labels, s := RefusedDrop(client);
    labels, s := Step(client, labels, s, Ask(Resume(JOB)));
  }

  lemma ResumeOpened(client: JobId) returns (labels: seq<Label>, s: State)
    ensures Run(Start(client), labels) == Some(s)
    ensures IsStatus(s.db, JOB, Queued) && Log(s.db, JOB) == [Event(1, "queue"), Event(2, "cancelled")]
    ensures s.queue == [] && s.heartbeats == {}
    ensures s.emitters == [Emitter(JOB, 1), Emitter(JOB, 2), Emitter(JOB, 2), Emitter(JOB, 2)]
    ensures s.handler == Announce(JOB, 3, "resume") && s.coordinator == AnnounceOutcome(JOB, 1, "error", false)
  {
    labels, s := ResumeAccepted(client);
    RunKeepsRefs(client, labels, s);
    OpenEmitterBehind(s, JOB);
    labels, s := Step(client, labels, s, HandlerStep);
  }

  /** The resume is announced and enqueued first. */
  lemma ResumeOvertakes(client: JobId) returns (labels: seq<Label>, s: State)
    ensures Run(Start(client), labels) == Some(s)
    ensures IsStatus(s.db, JOB, Queued) && |Log(s.db, JOB)| == 3 && s.queue == [JOB] && s.heartbeats == {}
    ensures |s.emitters| > 1 && s.emitters[1] == Emitter(JOB, 2)
    ensures s.handler == Ready && s.coordinator == AnnounceOutcome(JOB, 1, "error", false)
  {
    labels, s := ResumeOpened(client);
    RunKeepsRefs(client, labels, s);
    EmitExtendsOrConflicts(s, 3, "resume");
    labels, s := Step(client, labels, s, HandlerStep);
    labels, s := Step(client, labels, s, HandlerStep);
  }

  /**
    Two announcements of the coordinator are refused, and the second refusal is raised where nothing handles
    it: the coordinator is dead, while the handler serves requests and a queued job waits in the queue.
   */
  lemma CoordinatorCanDie(client: JobId) returns (labels: seq<Label>, s: State)
    ensures Run(Start(client), labels) == Some(s)
    ensures s.coordinator == ThreadDied && s.handler == Ready && s.queue == [JOB] && IsStatus(s.db, JOB, Queued)
  {
    labels, s := ResumeOvertakes(client);
    RunKeepsRefs(client, labels, s);
    EmitExtendsOrConflicts(s, 1, "error");
    labels, s := Step(client, labels, s, Coordinate(AnnounceEnd));
  }

  /**
    That the job is queued and with the coordinator does not suffice for a cancel to stop the worker: here the
    coordinator's one attempt is refused, it dies of it, and nobody is left to write.
   */
  lemma DoomedCoordinatorIsHarmless(client: JobId) returns (labels: seq<Label>, s: State)
    ensures Run(Start(client), labels) == Some(s) && Next(s, Ask(CancelFlag(JOB))).Some?
    ensures JOB in s.queue && s.coordinator == AnnounceOutcome(JOB, 1, "error", false)
    ensures !CanStop(s, CancelFlag(JOB))
  {
    labels, s := ResumeOvertakes(client);
    assert Behind(s, 1) == 1;
    CancelStopsIff(client, labels, s, JOB);
  }
}
