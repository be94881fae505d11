/**
  The other half: when somebody may write to the log of a job, some interleaving of a resume or a cancel stops
  the worker.  So for both requests the condition is exact; a submit never stops it.
 */
module ProtocolStops {
  import opened Prelude
  import opened Models
  import opened JobStore
  import opened WorkerProtocol
  import opened ProtocolInvariants
  import opened ProtocolSafety
  import opened ProtocolTheorems
  import opened ProtocolConflicts

  // ----- somebody may write: a run in which it happens ------------------------------------------------------------

  ghost predicate Reaches(s: State, labels: seq<Label>, t: State) {
    Run(s, labels) == Some(t) && forall i :: 0 <= i < |labels| ==> IsOther(labels[i])
  }

  ghost predicate CanGrow(s: State, job: JobId) {
    exists labels, t :: Reaches(s, labels, t) && |Log(t.db, job)| > |Log(s.db, job)|
  }

  lemma ReachesOne(s: State, l: Label, t: State, labels: seq<Label>, u: State)
    requires Next(s, l) == Some(t) && IsOther(l) && Reaches(t, labels, u)
    ensures Reaches(s, [l] + labels, u)
  {
    RunOne(s, l);
    RunConcat(s, [l], t, labels);
  }

  lemma GrowsAfter(s: State, l: Label, t: State, job: JobId)
    requires Sane(s) && IsOther(l) && Next(s, l) == Some(t)
    requires |Log(t.db, job)| > |Log(s.db, job)| || CanGrow(t, job)
    ensures CanGrow(s, job)
  {
    OtherStep(s, l, t);
    if |Log(t.db, job)| > |Log(s.db, job)| {
      RunOne(s, l);
      assert Reaches(s, [l], t);
    } else {
      var labels, u :| Reaches(t, labels, u) && |Log(u.db, job)| > |Log(t.db, job)|;
      ReachesOne(s, l, t, labels, u);
    }
  }

  /** An attempt through an emitter that is up to date extends the log. */
  lemma AttemptGrows(s: State, em: nat, stage: string)
    requires LogsOk(s) && em < |s.emitters| && Behind(s, em) == 0
    ensures Emit(s, em, stage).1
    ensures |Log(Emit(s, em, stage).0.db, s.emitters[em].job)| > |Log(s.db, s.emitters[em].job)|
  {
    EmitExtendsOrConflicts(s, em, stage);
  }

  /** An attempt through one that is behind brings it one event nearer. */
  lemma AttemptCatchesUp(s: State, em: nat, stage: string)
    requires LogsOk(s) && em < |s.emitters| && Behind(s, em) > 0
    ensures var (t, ok) := Emit(s, em, stage);
      && !ok && em < |t.emitters| && t.emitters[em].job == s.emitters[em].job && Behind(t, em) == Behind(s, em) - 1
      && t.db.jobs == s.db.jobs
  {
    EmitExtendsOrConflicts(s, em, stage);
  }

  ghost function Rank(c: CoordinatorPc): nat {
    match c
    case Took(_) => 12
    case Saw(_, _) => 11
    case DropQueued(_, _) => 10
    case AnnounceDrop(_, _) => 9
    case Claims(_, _) => 8
    case Executes(_, _) => 7
    case ObservedCancel(_, _) => 6
    case Reported(_, _) => 6
    case Raised(_, _, _, _) => 5
    case AnnounceOutcome(_, _, _, _) => 4
    case _ => 0
  }

  /** The coordinator's next step towards its own next emission or its queue. */
  ghost function Onward(c: CoordinatorPc): CoordinatorStep {
    match c
    case Idle => Take
    case Took(_) => Lookup
    case Saw(_, _) => OpenCoordinatorLog
    case DropQueued(_, _) => DropCancelled
    case Claims(_, _) => Claim
    case Executes(_, _) => Progress("progress")
    case ObservedCancel(_, _) => CancelExecution
    case Reported(_, _) => CompleteWith("", "", NoConfirmedIssues)
    case Raised(_, _, _, _) => FailWith("")
    case _ => AnnounceEnd
  }

  lemma BeatGrows(s: State, job: JobId, em: nat)
    requires Sane(s) && BeatsInTime(s, job, em)
    ensures CanGrow(s, job)
  {
    AttemptGrows(s, em, "heartbeat");
    GrowsAfter(s, Heartbeat(em), HeartbeatNext(s, em).value, job);
  }

  /** Where a refused insert sends the coordinator. */
  ghost function AfterRefusal(c: CoordinatorPc): CoordinatorPc {
    match c
    case AnnounceDrop(job, em) => Raised(job, em, InternalError, false)
    case Executes(job, em) => Raised(job, em, InternalError, true)
    case AnnounceOutcome(_, _, _, guarded) => if guarded then Idle else ThreadDied
    case _ => c
  }

  /** What an attempt of the coordinator to emit comes to. */
  lemma OnwardEmits(s: State)
    requires Sane(s) && (s.coordinator.AnnounceDrop? || s.coordinator.Executes? || s.coordinator.AnnounceOutcome?)
    ensures CoordinatorNext(s, Onward(s.coordinator)).Some?
    ensures var t, em := CoordinatorNext(s, Onward(s.coordinator)).value, s.coordinator.em;
      && em < |s.emitters| && em < |t.emitters| && t.emitters[em].job == s.emitters[em].job
      && t.heartbeats == s.heartbeats && t.queue == s.queue && t.db.jobs == s.db.jobs
      && if Behind(s, em) == 0
         then |Log(t.db, s.emitters[em].job)| > |Log(s.db, s.emitters[em].job)|
              && (t.coordinator == Idle || s.coordinator.Executes?)
         else Behind(t, em) == Behind(s, em) - 1 && t.coordinator == AfterRefusal(s.coordinator)
  {
    var em := s.coordinator.em;
    assert EmitterBehind(s, s.emitters[em]);
    var stage := if s.coordinator.AnnounceDrop? then "cancelled"
                 else if s.coordinator.Executes? then "progress" else s.coordinator.stage;
    if Behind(s, em) == 0 { AttemptGrows(s, em, stage); } else { AttemptCatchesUp(s, em, stage); }
    EmitExtendsOrConflicts(s, em, stage);
  }

  /** The coordinator's emitter catches up, and its next attempt extends the log. */
  lemma {:induction false} HeldGrows(s: State, job: JobId)
    requires Sane(s) && HeldCatchesUp(s, job, false)
    ensures CanGrow(s, job)
    decreases Rank(s.coordinator), Beats(s, s.coordinator.em)
  {
    var em := s.coordinator.em;
    assert EmitterBehind(s, s.emitters[em]);
    match s.coordinator
    case DropQueued(_, _) => HeldGoesOn(s, job);
    case ObservedCancel(_, _) => HeldGoesOn(s, job);
    case Raised(_, _, _, _) => HeldGoesOn(s, job);
    case AnnounceDrop(_, _) => HeldAttempts(s, job);
    case Executes(_, _) => HeldAttempts(s, job);
    case AnnounceOutcome(_, _, _, _) =>
      if Behind(s, em) == 0 { HeldAttempts(s, job); } else { HeldBeats(s, job); }
    case _ => BeatGrows(s, job, em);
  }

  lemma {:induction false} HeldGoesOn(s: State, job: JobId)
    requires Sane(s) && HeldCatchesUp(s, job, false)
    requires s.coordinator.DropQueued? || s.coordinator.ObservedCancel? || s.coordinator.Raised?
    ensures CanGrow(s, job)
    decreases Rank(s.coordinator), -1
  {
    var l := Coordinate(Onward(s.coordinator));
    var t := Next(s, l).value;
    OtherStep(s, l, t);
    assert Log(t.db, job) == Log(s.db, job);
    HeldGrows(t, job);
    GrowsAfter(s, l, t, job);
  }

  lemma {:induction false} HeldAttempts(s: State, job: JobId)
    requires Sane(s) && HeldCatchesUp(s, job, false)
    requires s.coordinator.AnnounceDrop? || s.coordinator.Executes?
             || (s.coordinator.AnnounceOutcome? && Behind(s, s.coordinator.em) == 0)
    ensures CanGrow(s, job)
    decreases Rank(s.coordinator), -1
  {
    var l := Coordinate(Onward(s.coordinator));
    OnwardEmits(s);
    var t := Next(s, l).value;
    OtherStep(s, l, t);
    if Behind(s, s.coordinator.em) > 0 { HeldGrows(t, job); }
    GrowsAfter(s, l, t, job);
  }

  lemma {:induction false} HeldBeats(s: State, job: JobId)
    requires Sane(s) && HeldCatchesUp(s, job, false)
    requires s.coordinator.AnnounceOutcome? && Behind(s, s.coordinator.em) > 0
    ensures CanGrow(s, job)
    decreases Rank(s.coordinator), Beats(s, s.coordinator.em), -1
  {
    var em := s.coordinator.em;
    AttemptCatchesUp(s, em, "heartbeat");
    var l, t := Heartbeat(em), HeartbeatNext(s, em).value;
    OtherStep(s, l, t);
    HeldGrows(t, job);
    GrowsAfter(s, l, t, job);
  }

  lemma ArmedGrows(s: State, job: JobId)
    requires Sane(s) && MayWrite(s, job, false)
    ensures CanGrow(s, job)
  {
    if em :| BeatsInTime(s, job, em) {
      BeatGrows(s, job, em);
    } else if HeldCatchesUp(s, job, false) {
      HeldGrows(s, job);
    } else {
      var l := Coordinate(OpenCoordinatorLog);
      var t := Next(s, l).value;
      OtherStep(s, l, t);
      OpenEmitterBehind(s, job);
      HeldGrows(t, job);
      GrowsAfter(s, l, t, job);
    }
  }

  // ----- from a queued row to somebody who will write ---------------------------------------------------------------

  /** Others can bring it about that somebody will write to the log, whatever becomes of the row. */
  ghost predicate CanArm(s: State, job: JobId) {
    exists labels, t :: Reaches(s, labels, t) && MayWrite(t, job, false)
  }

  lemma ArmsNow(s: State, job: JobId)
    requires MayWrite(s, job, false)
    ensures CanArm(s, job)
  {
    assert Reaches(s, [], s);
  }

  lemma ArmsAfter(s: State, l: Label, t: State, job: JobId)
    requires IsOther(l) && Next(s, l) == Some(t) && CanArm(t, job)
    ensures CanArm(s, job)
  {
    var labels, u :| Reaches(t, labels, u) && MayWrite(u, job, false);
    ReachesOne(s, l, t, labels, u);
  }

  lemma ClaimArms(s: State, job: JobId)
    requires Sane(s) && IsStatus(s.db, job, Queued) && s.coordinator.Claims? && HeldCatchesUp(s, job, true)
    ensures CanArm(s, job)
  {
    var t := CoordinatorNext(s, Claim).value;
    assert Log(t.db, job) == Log(s.db, job);
    ArmsNow(t, job);
    ArmsAfter(s, Coordinate(Claim), t, job);
  }

  lemma SawArms(s: State, job: JobId)
    requires Sane(s) && IsStatus(s.db, job, Queued) && s.coordinator.Saw? && s.coordinator.job == job
    ensures CanArm(s, job)
  {
    if s.coordinator.cancelRequested {
      ArmsNow(s, job);
    } else {
      var l := Coordinate(OpenCoordinatorLog);
      var t := Next(s, l).value;
      OtherStep(s, l, t);
      OpenEmitterBehind(s, job);
      ClaimArms(t, job);
      ArmsAfter(s, l, t, job);
    }
  }

  lemma TookArms(s: State, job: JobId)
    requires Sane(s) && IsStatus(s.db, job, Queued) && s.coordinator == Took(job)
    ensures CanArm(s, job)
  {
    var t := CoordinatorNext(s, Lookup).value;
    OtherStep(s, Coordinate(Lookup), t);
    SawArms(t, job);
    ArmsAfter(s, Coordinate(Lookup), t, job);
  }

  ghost predicate Waiting(s: State, job: JobId) {
    Sane(s) && IsUp(s) && IsStatus(s.db, job, Queued) && job in s.queue && Clears(s, job)
  }

  /** The coordinator can always be brought back to its queue, and through it to the job. */
  lemma {:induction false} QueueArms(s: State, job: JobId)
    requires Waiting(s, job)
    ensures CanArm(s, job)
    decreases |s.queue|, Rank(s.coordinator), 1
  {
    if s.coordinator == Took(job) {
      TookArms(s, job);
    } else if s.coordinator.Saw? && s.coordinator.job == job {
      SawArms(s, job);
    } else if s.coordinator.AnnounceOutcome? && !s.coordinator.guarded && Behind(s, s.coordinator.em) > 0 {
      QueueBeats(s, job);
    } else {
      QueueGoesOn(s, job);
    }
  }

  /** A doomed announcement is saved by a heartbeat that takes the refusal upon itself. */
  lemma {:induction false} QueueBeats(s: State, job: JobId)
    requires Waiting(s, job)
    requires s.coordinator.AnnounceOutcome? && !s.coordinator.guarded && Behind(s, s.coordinator.em) > 0
    ensures CanArm(s, job)
    decreases |s.queue|, Rank(s.coordinator), 0
  {
    var em := s.coordinator.em;
    AttemptCatchesUp(s, em, "heartbeat");
    var l, t := Heartbeat(em), HeartbeatNext(s, em).value;
    OtherStep(s, l, t);
    var after := CoordinatorNext(t, AnnounceEnd).value;
    OnwardEmits(t);
    OtherStep(t, Coordinate(AnnounceEnd), after);
    QueueArms(after, job);
    ArmsAfter(t, Coordinate(AnnounceEnd), after, job);
    ArmsAfter(s, l, t, job);
  }

  /** The coordinator's way to its queue: the run it is in ends with an error. */
  ghost function Homeward(c: CoordinatorPc): CoordinatorStep {
    if c.Executes? then Raise(AnalysisIncomplete, true) else Onward(c)
  }

  lemma HomewardStep(s: State, job: JobId)
    requires Waiting(s, job) && s.coordinator != Took(job) && !(s.coordinator.Saw? && s.coordinator.job == job)
    requires s.coordinator.AnnounceOutcome? && !s.coordinator.guarded ==> Behind(s, s.coordinator.em) == 0
    ensures CoordinatorNext(s, Homeward(s.coordinator)).Some?
    ensures var t := CoordinatorNext(s, Homeward(s.coordinator)).value;
      && Sane(t) && IsUp(t) && IsStatus(t.db, job, Queued)
      && (t.coordinator == Took(job) || Waiting(t, job))
      && (|t.queue| < |s.queue| || (t.queue == s.queue && Rank(t.coordinator) < Rank(s.coordinator)))
  {
    if s.coordinator.AnnounceDrop? || s.coordinator.AnnounceOutcome? {
      HomewardEmission(s, job);
    } else {
      HomewardQuietly(s, job);
    }
  }

  lemma HomewardEmission(s: State, job: JobId)
    requires Waiting(s, job) && (s.coordinator.AnnounceDrop? || s.coordinator.AnnounceOutcome?)
    requires s.coordinator.AnnounceOutcome? && !s.coordinator.guarded ==> Behind(s, s.coordinator.em) == 0
    ensures CoordinatorNext(s, Homeward(s.coordinator)).Some?
    ensures var t := CoordinatorNext(s, Homeward(s.coordinator)).value;
      Waiting(t, job) && t.queue == s.queue && Rank(t.coordinator) < Rank(s.coordinator)
  {
    OnwardEmits(s);
    assert EmitterBehind(s, s.emitters[s.coordinator.em]);
    OtherStep(s, Coordinate(AnnounceEnd), CoordinatorNext(s, AnnounceEnd).value);
  }

  lemma HomewardQuietly(s: State, job: JobId)
    requires Waiting(s, job) && s.coordinator != Took(job) && !(s.coordinator.Saw? && s.coordinator.job == job)
    requires !s.coordinator.AnnounceDrop? && !s.coordinator.AnnounceOutcome?
    ensures CoordinatorNext(s, Homeward(s.coordinator)).Some?
    ensures var t := CoordinatorNext(s, Homeward(s.coordinator)).value;
      && Sane(t) && IsUp(t) && IsStatus(t.db, job, Queued)
      && (t.coordinator == Took(job) || Waiting(t, job))
      && (|t.queue| < |s.queue| || (t.queue == s.queue && Rank(t.coordinator) < Rank(s.coordinator)))
  {
    var c := Homeward(s.coordinator);
    var t := CoordinatorNext(s, c).value;
    OtherStep(s, Coordinate(c), t);
    if s.coordinator == Idle {
      assert s.queue == [s.queue[0]] + s.queue[1..];
    } else {
      HomewardClears(s, job);
    }
  }

  lemma HomewardClears(s: State, job: JobId)
    requires Waiting(s, job) && !s.coordinator.Idle?
    requires s.coordinator != Took(job) && !(s.coordinator.Saw? && s.coordinator.job == job)
    requires !s.coordinator.AnnounceDrop? && !s.coordinator.AnnounceOutcome?
    ensures CoordinatorNext(s, Homeward(s.coordinator)).Some?
    ensures var t := CoordinatorNext(s, Homeward(s.coordinator)).value;
      Clears(t, job) && IsStatus(t.db, job, Queued) && t.queue == s.queue && Rank(t.coordinator) < Rank(s.coordinator)
  {
    var t := CoordinatorNext(s, Homeward(s.coordinator)).value;
    assert forall id :: Log(t.db, id) == Log(s.db, id);
    if s.coordinator.Saw? { OpenEmitterBehind(s, s.coordinator.job); }
  }

  lemma {:induction false} QueueGoesOn(s: State, job: JobId)
    requires Waiting(s, job) && s.coordinator != Took(job) && !(s.coordinator.Saw? && s.coordinator.job == job)
    requires s.coordinator.AnnounceOutcome? && !s.coordinator.guarded ==> Behind(s, s.coordinator.em) == 0
    ensures CanArm(s, job)
    decreases |s.queue|, Rank(s.coordinator), 0
  {
    HomewardStep(s, job);
    var l := Coordinate(Homeward(s.coordinator));
    var t := Next(s, l).value;
    if t.coordinator == Took(job) { TookArms(t, job); } else { QueueArms(t, job); }
    ArmsAfter(s, l, t, job);
  }

  lemma QueuedArms(s: State, job: JobId)
    requires Sane(s) && IsUp(s) && IsStatus(s.db, job, Queued) && MayWrite(s, job, true)
    ensures CanArm(s, job)
  {
    if MayWrite(s, job, false) {
      ArmsNow(s, job);
    } else if s.coordinator == Took(job) {
      TookArms(s, job);
    } else if s.coordinator.Saw? && s.coordinator.job == job {
      SawArms(s, job);
    } else if job in s.queue && Clears(s, job) {
      QueueArms(s, job);
    } else {
      ClaimArms(s, job);
    }
  }

  // ----- exactly when a request can stop the worker ------------------------------------------------------------------

  ghost predicate CanStopFrom(s: State) {
    exists labels, t :: Run(s, labels) == Some(t) && t.handler.Stopping? && Unasked(labels)
  }

  lemma StopsNow(s: State)
    requires s.handler.Stopping?
    ensures CanStopFrom(s)
  {
    assert Run(s, []) == Some(s) && Unasked([]);
  }

  lemma StopsAfter(s: State, l: Label, t: State)
    requires Next(s, l) == Some(t) && (IsOther(l) || l == HandlerStep) && CanStopFrom(t)
    ensures CanStopFrom(s)
  {
    var labels, u :| Run(t, labels) == Some(u) && u.handler.Stopping? && Unasked(labels);
    PrependStep(s, l, t, labels, u);
  }

  lemma PrependStep(s: State, l: Label, t: State, labels: seq<Label>, u: State)
    requires Next(s, l) == Some(t) && (IsOther(l) || l == HandlerStep) && Run(t, labels) == Some(u) && Unasked(labels)
    ensures Run(s, [l] + labels) == Some(u) && Unasked([l] + labels)
  {
    RunOne(s, l);
    RunConcat(s, [l], t, labels);
  }

  lemma StopsAfterOthers(s: State, labels: seq<Label>, t: State)
    requires Reaches(s, labels, t) && CanStopFrom(t)
    ensures CanStopFrom(s)
  {
    var more, u :| Run(t, more) == Some(u) && u.handler.Stopping? && Unasked(more);
    RunConcat(s, labels, t, more);
    assert Run(s, labels + more) == Some(u) && Unasked(labels + more);
  }

  lemma {:induction false} OthersKeep(s: State, labels: seq<Label>, t: State)
    requires Sane(s) && Reaches(s, labels, t)
    ensures Sane(t) && KeepsAnnouncer(s, t) && forall id :: |Log(t.db, id)| >= |Log(s.db, id)|
  {
    if labels != [] {
      var n := |labels| - 1;
      var before := Run(s, labels[..n]).value;
      assert Reaches(s, labels[..n], before);
      OthersKeep(s, labels[..n], before);
      OtherStep(before, labels[n], t);
    }
  }

  /** An announcement that has fallen behind stops the worker at its next step. */
  lemma FallenBehindStops(s: State, job: JobId, em: nat)
    requires Sane(s) && Announcing(s.handler, job, em) && s.emitters[em].sequence < |Log(s.db, job)|
    ensures CanStopFrom(s)
  {
    var t := Next(s, HandlerStep).value;
    AnnouncementStep(s, job, em, t);
    StopsNow(t);
    StopsAfter(s, HandlerStep, t);
  }

  lemma AnnouncingStops(s: State, job: JobId, em: nat)
    requires Sane(s) && Announcing(s.handler, job, em) && MayWrite(s, job, false)
    ensures CanStopFrom(s)
  {
    ArmedGrows(s, job);
    var labels, t :| Reaches(s, labels, t) && |Log(t.db, job)| > |Log(s.db, job)|;
    OthersKeep(s, labels, t);
    assert EmitterBehind(s, s.emitters[em]);
    FallenBehindStops(t, job, em);
    StopsAfterOthers(s, labels, t);
  }

  lemma AcceptedStops(s: State, r: Request, t: State)
    requires Next(s, Ask(r)) == Some(t) && CanStopFrom(t)
    ensures CanStop(s, r)
  {
    var labels, u :| Run(t, labels) == Some(u) && u.handler.Stopping? && Unasked(labels);
    RunOne(s, Ask(r));
    RunConcat(s, [Ask(r)], t, labels);
    assert ([Ask(r)] + labels)[1..] == labels;
    assert IsRunOf(r, [Ask(r)] + labels);
  }

  /** Accepting a request moves nothing that decides who may write. */
  lemma AskingChangesNothing(s: State, r: Request, t: State, job: JobId, queued: bool)
    requires Sane(s) && Next(s, Ask(r)) == Some(t)
    ensures MayWrite(t, job, queued) <==> MayWrite(s, job, queued)
    ensures Sane(t)
  {
    StepKeepsSane(s, Ask(r), t);
    assert forall id :: Log(t.db, id) == Log(s.db, id);
    assert forall em :: BeatsInTime(t, job, em) <==> BeatsInTime(s, job, em);
    assert Clears(t, job) <==> Clears(s, job);
  }

  /** The handler opens its log: its own emitter is up to date, and the others may write as before. */
  lemma OpeningKeepsWriters(s: State, t: State, job: JobId, queued: bool)
    requires Sane(s) && t == OpenEmitter(s, job).(handler := t.handler) && MayWrite(s, job, queued)
    ensures MayWrite(t, job, queued)
  {
    assert forall id :: Log(t.db, id) == Log(s.db, id);
    if em :| BeatsInTime(s, job, em) { assert BeatsInTime(t, job, em); }
  }

  lemma WritingKeepsWriters(s: State, t: State, job: JobId)
    requires MayWrite(s, job, false) && t == s.(db := t.db, handler := t.handler) && t.db.events == s.db.events
    ensures MayWrite(t, job, false)
  {
    assert forall id :: Log(t.db, id) == Log(s.db, id);
    if em :| BeatsInTime(s, job, em) { assert BeatsInTime(t, job, em); }
  }

  /**
    Exactly when a resume can stop the worker: when, at the moment it is accepted, the coordinator or a
    heartbeat may still write to the log of the job.
   */
  lemma ResumeStopsIff(client: JobId, labels: seq<Label>, s: State, job: JobId)
    requires Run(Start(client), labels) == Some(s) && Next(s, Ask(Resume(job))).Some?
    ensures CanStop(s, Resume(job)) <==> MayWrite(s, job, true)
  {
    RunKeepsSane(client, labels, s);
    var t := Next(s, Ask(Resume(job))).value;
    AskingChangesNothing(s, Resume(job), t, job, true);
    if MayWrite(s, job, true) {
      ResumedStops(t, job);
      AcceptedStops(s, Resume(job), t);
    } else {
      SafeRequest(s, Resume(job), t, job);
    }
  }

  lemma ResumedStops(t: State, job: JobId)
    requires Sane(t) && t.handler == OpenLog(job, "resume") && IsStatus(t.db, job, Queued) && MayWrite(t, job, true)
    ensures CanStopFrom(t)
  {
    var u := Next(t, HandlerStep).value;
    StepKeepsSane(t, HandlerStep, u);
    OpeningKeepsWriters(t, u, job, true);
    QueuedArms(u, job);
    var labels, v :| Reaches(u, labels, v) && MayWrite(v, job, false);
    OthersKeep(u, labels, v);
    AnnouncingStops(v, job, u.handler.em);
    StopsAfterOthers(u, labels, v);
    StopsAfter(t, HandlerStep, u);
  }

  /**
    Exactly when a cancel can stop the worker: when the job is queued, and the coordinator or a heartbeat
    may write to its log.
   */
  lemma CancelStopsIff(client: JobId, labels: seq<Label>, s: State, job: JobId)
    requires Run(Start(client), labels) == Some(s) && Next(s, Ask(CancelFlag(job))).Some?
    ensures CanStop(s, CancelFlag(job)) <==> IsStatus(s.db, job, Queued) && MayWrite(s, job, true)
  {
    RunKeepsSane(client, labels, s);
    var t := Next(s, Ask(CancelFlag(job))).value;
    AskingChangesNothing(s, CancelFlag(job), t, job, true);
    if !IsStatus(s.db, job, Queued) {
      RunningIsNotCancelled(s, job, t);
    } else if MayWrite(s, job, true) {
      CancelledStops(t, job);
      AcceptedStops(s, CancelFlag(job), t);
    } else {
      SafeRequest(s, CancelFlag(job), t, job);
    }
  }

  lemma CancelledStops(t: State, job: JobId)
    requires Sane(t) && t.handler == CancelReads(job) && IsStatus(t.db, job, Queued) && MayWrite(t, job, true)
    ensures CanStopFrom(t)
  {
    var u := Next(t, HandlerStep).value;
    StepKeepsSane(t, HandlerStep, u);
    assert u == t.(handler := CancelWrites(job));
    assert forall em :: BeatsInTime(u, job, em) <==> BeatsInTime(t, job, em);
    QueuedArms(u, job);
    var labels, v :| Reaches(u, labels, v) && MayWrite(v, job, false);
    OthersKeep(u, labels, v);
    WrittenStops(v, job);
    StopsAfterOthers(u, labels, v);
    StopsAfter(t, HandlerStep, u);
  }

  lemma WrittenStops(v: State, job: JobId)
    requires Sane(v) && v.handler == CancelWrites(job) && MayWrite(v, job, false)
    ensures CanStopFrom(v)
  {
    var w := Next(v, HandlerStep).value;
    StepKeepsSane(v, HandlerStep, w);
    WritingKeepsWriters(v, w, job);
    var x := Next(w, HandlerStep).value;
    StepKeepsSane(w, HandlerStep, x);
    OpeningKeepsWriters(w, x, job, false);
    AnnouncingStops(x, job, x.handler.em);
    StopsAfter(w, HandlerStep, x);
    StopsAfter(v, HandlerStep, w);
  }

  // ----- a cancel of a running job is only a flag -------------------------------------------------------------------

  /** The job is not queued, and the handler has at most its flag to read. */
  ghost predicate OnlyFlags(s: State, job: JobId) {
    !IsStatus(s.db, job, Queued) && (s.handler == CancelReads(job) || s.handler == Ready)
  }

  lemma FlagStep(s: State, l: Label, t: State, job: JobId)
    requires Sane(s) && OnlyFlags(s, job) && (IsOther(l) || l == HandlerStep) && Next(s, l) == Some(t)
    ensures Sane(t) && OnlyFlags(t, job)
  {
    StepKeepsSane(s, l, t);
    StepTable(s, l, t);
    if l != HandlerStep { OtherStep(s, l, t); }
  }

  lemma {:induction false} FlagRun(s: State, labels: seq<Label>, t: State, job: JobId)
    requires Sane(s) && OnlyFlags(s, job) && Run(s, labels) == Some(t) && Unasked(labels)
    ensures Sane(t) && OnlyFlags(t, job)
  {
    if labels != [] {
      var n := |labels| - 1;
      var before := Run(s, labels[..n]).value;
      FlagRun(s, labels[..n], before, job);
      FlagStep(before, labels[n], t, job);
    }
  }

  lemma RunningIsNotCancelled(s: State, job: JobId, t: State)
    requires Sane(s) && Next(s, Ask(CancelFlag(job))) == Some(t) && !IsStatus(s.db, job, Queued)
    ensures !CanStop(s, CancelFlag(job))
  {
    var r := CancelFlag(job);
    StepKeepsSane(s, Ask(r), t);
    forall labels, u | IsRunOf(r, labels) && Run(s, labels) == Some(u) ensures !u.handler.Stopping? {
      RunOne(s, Ask(r));
      assert labels == [Ask(r)] + labels[1..];
      RunConcat(s, [Ask(r)], t, labels[1..]);
      FlagRun(t, labels[1..], u, job);
    }
  }

  // ----- a submit ---------------------------------------------------------------------------------------------

  /** No interleaving of a submit stops the worker: nobody else knows the new job. */
  lemma SubmitNeverStops(client: JobId, labels: seq<Label>, s: State, id: JobId, createdAt: TimeKey)
    requires Run(Start(client), labels) == Some(s)
    ensures !CanStop(s, Submit(id, createdAt))
  {
    RunKeepsSane(client, labels, s);
    RunKeepsInv(client, labels, s);
    var r := Submit(id, createdAt);
    if Next(s, Ask(r)).Some? {
      var t := Next(s, Ask(r)).value;
      StepKeepsInv(s, Ask(r), t);
      assert Private(t, id) && forall i :: 0 <= i < |t.emitters| ==> t.emitters[i].job != id;
      SafeRequest(s, r, t, id);
    } else {
      RunNeedsFirst(s, r);
    }
  }

  lemma RunNeedsFirst(s: State, r: Request)
    requires Next(s, Ask(r)).None?
    ensures !CanStop(s, r)
  {
    forall labels | IsRunOf(r, labels) ensures Run(s, labels) == None {
      assert labels == [Ask(r)] + labels[1..];
      NoRunAfter(s, Ask(r), labels[1..]);
    }
  }

  lemma {:induction false} NoRunAfter(s: State, l: Label, labels: seq<Label>)
    requires Next(s, l).None?
    ensures Run(s, [l] + labels) == None
  {
    if labels == [] {
      assert [l] + labels == [l];
      RunOne(s, l);
    } else {
      var n := |labels| - 1;
      NoRunAfter(s, l, labels[..n]);
      assert ([l] + labels)[..n + 1] == [l] + labels[..n];
    }
  }

  /** Whoever may write is in the queue, with the coordinator, or a heartbeat. */
  lemma WritersAreKnown(s: State, job: JobId, queued: bool)
    requires Sane(s) && MayWrite(s, job, queued)
    ensures job in s.queue || CoordinatorJob(s.coordinator) == Some(job)
         || exists em :: em in s.heartbeats && em < |s.emitters| && s.emitters[em].job == job
  {
    if em :| BeatsInTime(s, job, em) { assert em in s.heartbeats; }
  }

  /** Heartbeats end one after the other, and only those that run. */
  lemma {:induction false} HeartbeatsEnd(s: State) returns (beats: seq<Label>)
    ensures Run(s, beats) == Some(s.(heartbeats := {}))
    ensures forall em :: Next(s, HeartbeatEnds(em)).Some? <==> em in s.heartbeats
    decreases s.heartbeats
  {
    beats := [];
    if s.heartbeats != {} {
      var em :| em in s.heartbeats;
      var t := s.(heartbeats := s.heartbeats - {em});
      var more := HeartbeatsEnd(t);
      RunOne(s, HeartbeatEnds(em));
      RunConcat(s, [HeartbeatEnds(em)], t, more);
      beats := [HeartbeatEnds(em)] + more;
    }
  }

  /** So a resume of a job that is neither queued nor with the coordinator is safe once the heartbeats have ended. */
  lemma WaitingIsSafe(client: JobId, labels: seq<Label>, s: State, job: JobId) returns (beats: seq<Label>)
    requires Run(Start(client), labels) == Some(s) && Next(s, Ask(Resume(job))).Some?
    requires job !in s.queue && CoordinatorJob(s.coordinator) != Some(job)
    ensures Run(s, beats) == Some(s.(heartbeats := {})) && !CanStop(s.(heartbeats := {}), Resume(job))
  {
    beats := HeartbeatsEnd(s);
    var t := s.(heartbeats := {});
    RunConcat(Start(client), labels, s, beats);
    ResumeStopsIff(client, labels + beats, t, job);
    if MayWrite(t, job, true) {
      RunKeepsSane(client, labels + beats, t);
      WritersAreKnown(t, job, true);
    }
  }

  // ----- what a stopped worker or a dead coordinator leaves behind ---------------------------------------------

  /** A coordinator that has died takes nothing more: the queue only grows, and no row becomes `running`. */
  lemma {:induction false} DeadCoordinatorTakesNothing(s: State, labels: seq<Label>, t: State, id: JobId)
    requires s.coordinator == ThreadDied && s.handler != ProcessDown && s.handler != Recovered
    requires Run(s, labels) == Some(t) && Life(Crash) !in labels
    ensures t.coordinator == ThreadDied && t.handler != ProcessDown && t.handler != Recovered
    ensures id in s.queue ==> id in t.queue
    ensures IsStatus(t.db, id, Running) ==> IsStatus(s.db, id, Running)
  {
    if labels != [] {
      var n := |labels| - 1;
      var before := Run(s, labels[..n]).value;
      DeadCoordinatorTakesNothing(s, labels[..n], before, id);
      StepTable(before, labels[n], t);
    }
  }

  /** A restart with at most 1,000 rows puts every queued job into the queue of a living coordinator. */
  lemma RestartReloads(
    client: JobId, labels: seq<Label>, s: State, down: State, recovered: State, order: seq<JobId>, t: State, id: JobId)
    requires Run(Start(client), labels) == Some(s) && |s.db.jobs| <= LIST_LIMIT && IsStatus(s.db, id, Queued)
    requires Next(s, Life(Crash)) == Some(down) && Next(down, Life(RecoverJobs)) == Some(recovered)
    requires Next(recovered, Life(LoadQueue(order))) == Some(t)
    ensures IsStatus(t.db, id, Queued) && id in t.queue && t.coordinator == Idle && t.handler == Ready
    ensures NoDuplicates(t.queue) && ByCreation(t.queue, s.db.jobs)
  {
    RunKeepsSane(client, labels, s);
    StepKeepsRefs(s, Life(Crash), down);
    RecoveryKeepsQueued(down, recovered, id);
    LoadKeepsQueue(recovered, order, t);
    RestartQueuesOldestFirst(recovered, order, t);
    RecoveryKeepsCreation(down, recovered, t.queue);
    assert NotLost(t, id);
  }

  lemma SameCreation(queue: seq<JobId>, jobs: map<JobId, JobRow>, later: map<JobId, JobRow>)
    requires ByCreation(queue, later)
    requires forall id <- later :: id in jobs && later[id].createdAt == jobs[id].createdAt
    ensures ByCreation(queue, jobs)
  {
  }

  lemma RecoveryKeepsCreation(s: State, t: State, queue: seq<JobId>)
    requires Next(s, Life(RecoverJobs)) == Some(t) && ByCreation(queue, t.db.jobs)
    ensures ByCreation(queue, s.db.jobs)
  {
    assert t.db.jobs.Keys == s.db.jobs.Keys;
    assert forall id <- s.db.jobs :: t.db.jobs[id] == RecoverRow(s.db.jobs[id]);
    SameCreation(queue, s.db.jobs, t.db.jobs);
  }

  lemma RecoveryKeepsQueued(s: State, t: State, id: JobId)
    requires RefsOk(s) && Next(s, Life(RecoverJobs)) == Some(t) && IsStatus(s.db, id, Queued)
    ensures RefsOk(t) && IsStatus(t.db, id, Queued) && |t.db.jobs| == |s.db.jobs|
  {
    StepKeepsRefs(s, Life(RecoverJobs), t);
    assert t.db.jobs.Keys == s.db.jobs.Keys;
    assert |t.db.jobs.Keys| == |t.db.jobs| && |s.db.jobs.Keys| == |s.db.jobs|;
  }
}
