/**
  The coordinator is nowhere safe: from every state in which the worker serves requests, some run without a crash
  kills it.
 */
module ProtocolDeaths {
  import opened Prelude
  import opened Models
  import opened JobStore
  import opened WorkerProtocol
  import opened ProtocolInvariants
  import opened ProtocolSafety
  import opened ProtocolTheorems
  import opened ProtocolConflicts
  import opened ProtocolStops

  ghost predicate CrashFree(labels: seq<Label>) { forall i :: 0 <= i < |labels| ==> !labels[i].Life? }

  /** Some run without a crash ends with a dead coordinator. */
  ghost predicate CanDie(s: State) {
    exists labels, t :: Run(s, labels) == Some(t) && CrashFree(labels) && t.coordinator == ThreadDied
  }

  ghost predicate Serving(s: State) { Sane(s) && s.handler == Ready }

  lemma DiesNow(s: State)
    requires s.coordinator == ThreadDied
    ensures CanDie(s)
  {
    assert Run(s, []) == Some(s) && CrashFree([]);
  }

  lemma DiesAfter(s: State, l: Label, t: State)
    requires Next(s, l) == Some(t) && !l.Life? && CanDie(t)
    ensures CanDie(s)
  {
    var labels, u :| Run(t, labels) == Some(u) && CrashFree(labels) && u.coordinator == ThreadDied;
    RunOne(s, l);
    RunConcat(s, [l], t, labels);
    assert CrashFree([l] + labels);
  }

  // ----- from an execution to its death -----------------------------------------------------------------------

  /** The unguarded announcement of the coordinator is refused. */
  lemma RefusalKills(s: State)
    requires Sane(s) && s.coordinator.AnnounceOutcome? && !s.coordinator.guarded
    requires Behind(s, s.coordinator.em) > 0
    ensures CanDie(s)
  {
    OnwardEmits(s);
    var t := CoordinatorNext(s, AnnounceEnd).value;
    DiesNow(t);
    DiesAfter(s, Coordinate(AnnounceEnd), t);
  }

  /** The handler announces a resume through a log that it has just opened. */
  lemma AnnouncedResumeKills(s: State)
    requires Sane(s) && s.coordinator.AnnounceOutcome? && !s.coordinator.guarded
    requires Behind(s, s.coordinator.em) == 0
    requires s.handler.Announce? && s.handler.job == s.coordinator.job && Behind(s, s.handler.em) == 0
    ensures CanDie(s)
  {
    var em := s.handler.em;
    EmitExtendsOrConflicts(s, em, s.handler.stage);
    var t := HandlerNext(s).value;
    StepKeepsSane(s, HandlerStep, t);
    BehindAfter(s, em, s.handler.stage, s.coordinator.em);
    RefusalKills(t);
    DiesAfter(s, HandlerStep, t);
  }

  /** A resume gets in between the failure of a job and its announcement. */
  lemma ResumeKills(s: State)
    requires Serving(s) && s.coordinator.AnnounceOutcome? && !s.coordinator.guarded
    requires Behind(s, s.coordinator.em) == 0 && IsStatus(s.db, s.coordinator.job, Failed)
    ensures CanDie(s)
  {
    var job := s.coordinator.job;
    var t := Next(s, Ask(Resume(job))).value;
    StepKeepsSane(s, Ask(Resume(job)), t);
    assert Log(t.db, job) == Log(s.db, job);
    var u := HandlerNext(t).value;
    OpenEmitterBehind(t, job);
    StepKeepsSane(t, HandlerStep, u);
    AnnouncedResumeKills(u);
    DiesAfter(t, HandlerStep, u);
    DiesAfter(s, Ask(Resume(job)), t);
  }

  /** A job that runs can raise where only the coordinator's own handler is left; one resume then suffices. */
  lemma ExecutionCanDie(s: State)
    requires Serving(s) && s.coordinator.Executes?
    ensures CanDie(s)
  {
    var raise, fail := Coordinate(Raise(InternalError, false)), Coordinate(FailWith(""));
    var t := Next(s, raise).value;
    StepKeepsSane(s, raise, t);
    var u := Next(t, fail).value;
    StepKeepsSane(t, fail, u);
    assert EmitterBehind(u, u.emitters[u.coordinator.em]);
    if Behind(u, u.coordinator.em) > 0 { RefusalKills(u); } else { ResumeKills(u); }
    DiesAfter(t, fail, u);
    DiesAfter(s, raise, t);
  }

  // ----- from any state to an execution -------------------------------------------------------------------------

  /** A job that waits unflagged at the head of the queue is executed. */
  lemma HeadCanDie(s: State)
    requires Serving(s) && s.coordinator == Idle && s.queue != []
    requires IsStatus(s.db, s.queue[0], Queued) && !s.db.jobs[s.queue[0]].cancelRequested
    ensures CanDie(s)
  {
    var job := s.queue[0];
    var took := Next(s, Coordinate(Take)).value;
    StepKeepsSane(s, Coordinate(Take), took);
    var saw := Next(took, Coordinate(Lookup)).value;
    StepKeepsSane(took, Coordinate(Lookup), saw);
    var logged := Next(saw, Coordinate(OpenCoordinatorLog)).value;
    StepKeepsSane(saw, Coordinate(OpenCoordinatorLog), logged);
    var claimed := Next(logged, Coordinate(Claim)).value;
    StepKeepsSane(logged, Coordinate(Claim), claimed);
    ExecutionCanDie(claimed);
    DiesAfter(logged, Coordinate(Claim), claimed);
    DiesAfter(saw, Coordinate(OpenCoordinatorLog), logged);
    DiesAfter(took, Coordinate(Lookup), saw);
    DiesAfter(s, Coordinate(Take), took);
  }

  lemma {:induction false} LongerThanAll(ids: set<JobId>) returns (n: nat)
    ensures forall id <- ids :: |id| < n
  {
    if id :| id in ids {
      var m := LongerThanAll(ids - {id});
      n := Max(m, |id| + 1);
    } else {
      n := 0;
    }
  }

  lemma AnnouncedJobCanDie(s: State, id: JobId)
    requires Sane(s) && s.handler.Announce? && s.handler.job == id && Behind(s, s.handler.em) == 0
    requires s.coordinator == Idle && s.queue == []
    requires IsStatus(s.db, id, Queued) && !s.db.jobs[id].cancelRequested
    ensures CanDie(s)
  {
    EmitExtendsOrConflicts(s, s.handler.em, s.handler.stage);
    var announced := Next(s, HandlerStep).value;
    StepKeepsSane(s, HandlerStep, announced);
    var queued := Next(announced, HandlerStep).value;
    StepKeepsSane(announced, HandlerStep, queued);
    assert queued.queue == [id];
    HeadCanDie(queued);
    DiesAfter(announced, HandlerStep, queued);
    DiesAfter(s, HandlerStep, announced);
  }

  /** With nothing to do, a submitted job is the next to run. */
  lemma SubmitCanDie(s: State)
    requires Serving(s) && s.coordinator == Idle && s.queue == []
    ensures CanDie(s)
  {
    var n := LongerThanAll(s.db.jobs.Keys);
    var id: JobId := seq(n, i => 'a');
    var submitted := Next(s, Ask(Submit(id, 0))).value;
    StepKeepsSane(s, Ask(Submit(id, 0)), submitted);
    var logged := Next(submitted, HandlerStep).value;
    OpenEmitterBehind(submitted, id);
    StepKeepsSane(submitted, HandlerStep, logged);
    AnnouncedJobCanDie(logged, id);
    DiesAfter(submitted, HandlerStep, logged);
    DiesAfter(s, Ask(Submit(id, 0)), submitted);
  }

  /** The coordinator comes back to its queue, or dies on the way. */
  lemma GoesHome(s: State)
    requires Serving(s) && s.coordinator != Idle && s.coordinator != ThreadDied
    ensures var l := Coordinate(Homeward(s.coordinator));
      && Next(s, l).Some? && Serving(Next(s, l).value)
      && Next(s, l).value.queue == s.queue && Rank(Next(s, l).value.coordinator) < Rank(s.coordinator)
  {
    var l := Coordinate(Homeward(s.coordinator));
    if s.coordinator.AnnounceDrop? || s.coordinator.AnnounceOutcome? { OnwardEmits(s); }
    StepKeepsSane(s, l, Next(s, l).value);
  }

  lemma {:induction false} ServedCanDie(s: State)
    requires Serving(s)
    ensures CanDie(s)
    decreases |s.queue|, Rank(s.coordinator)
  {
    if s.coordinator == ThreadDied {
      DiesNow(s);
    } else if s.coordinator == Idle && s.queue == [] {
      SubmitCanDie(s);
    } else {
      var l := if s.coordinator == Idle then Coordinate(Take) else Coordinate(Homeward(s.coordinator));
      if s.coordinator == Idle {
        StepKeepsSane(s, l, Next(s, l).value);
      } else {
        GoesHome(s);
      }
      ServedCanDie(Next(s, l).value);
      DiesAfter(s, l, Next(s, l).value);
    }
  }

  /** From every reachable state in which the worker serves requests, a run without a crash kills the coordinator. */
  lemma CoordinatorIsNeverSafe(client: JobId, labels: seq<Label>, s: State)
    requires Run(Start(client), labels) == Some(s) && s.handler == Ready
    ensures CanDie(s)
  {
    RunKeepsSane(client, labels, s);
    ServedCanDie(s);
  }
}
