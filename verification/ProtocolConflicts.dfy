/**
  When an event meets the primary key: the steps in which it happens, who may still write to the log of a
  job, and that a request is safe while nobody may.
 */
module ProtocolConflicts {
  import opened Prelude
  import opened Models
  import opened JobStore
  import opened WorkerProtocol
  import opened ProtocolInvariants
  import opened ProtocolSafety
  import opened ProtocolTheorems

  // ----- one step ------------------------------------------------------------------------------------------

  /** How many events of its log an emitter has not counted. */
  ghost function Behind(s: State, em: nat): int
    requires em < |s.emitters|
  {
    |Log(s.db, s.emitters[em].job)| - s.emitters[em].sequence
  }

  ghost predicate Announcing(h: HandlerPc, job: JobId, em: nat) {
    (h.Announce? || h.CancelAnnounces?) && h.job == job && h.em == em
  }

  /** The handler's announcement stops the worker exactly if its emitter is behind its log. */
  lemma AnnouncementStopsIffBehind(client: JobId, labels: seq<Label>, s: State, job: JobId, em: nat, t: State)
    requires Run(Start(client), labels) == Some(s)
    requires Announcing(s.handler, job, em) && Next(s, HandlerStep) == Some(t)
    ensures em < |s.emitters| && s.emitters[em].job == job
    ensures t.handler.Stopping? <==> s.emitters[em].sequence < |Log(s.db, job)|
  {
    RunKeepsInv(client, labels, s);
    AnnouncementStep(s, job, em, t);
  }

  lemma AnnouncementStep(s: State, job: JobId, em: nat, t: State)
    requires RefsOk(s) && LogsOk(s)
    requires Announcing(s.handler, job, em) && Next(s, HandlerStep) == Some(t)
    ensures t.handler.Stopping? <==> s.emitters[em].sequence < |Log(s.db, job)|
  {
    assert EmitterBehind(s, s.emitters[em]);
    EmitExtendsOrConflicts(s, em, if s.handler.Announce? then s.handler.stage else "cancelled");
  }

  /** The coordinator dies exactly in an unguarded announcement through an emitter that is behind. */
  lemma CoordinatorDiesIffBehind(client: JobId, labels: seq<Label>, s: State, l: Label, t: State)
    requires Run(Start(client), labels) == Some(s) && Next(s, l) == Some(t) && s.coordinator != ThreadDied
    ensures t.coordinator == ThreadDied <==>
              && l == Coordinate(AnnounceEnd) && s.coordinator.AnnounceOutcome? && !s.coordinator.guarded
              && s.coordinator.em < |s.emitters| && Behind(s, s.coordinator.em) > 0
  {
    RunKeepsInv(client, labels, s);
    if l.Coordinate? {
      if s.coordinator.AnnounceOutcome? && l.step == AnnounceEnd {
        assert EmitterBehind(s, s.emitters[s.coordinator.em]);
        EmitExtendsOrConflicts(s, s.coordinator.em, s.coordinator.stage);
        assert ExecutionNext(s, l.step) == Some(t);
      } else if ExecutionNext(s, l.step).Some? {
        assert ExecutionNext(s, l.step) == Some(t);
      }
    } else {
      OthersLeaveTheCoordinator(s, l, t);
      if t.handler == ProcessDown { DownIsIdle(s, l, t); }
    }
  }

  lemma DownIsIdle(s: State, l: Label, t: State)
    requires RefsOk(s) && Next(s, l) == Some(t) && t.handler == ProcessDown
    ensures t.coordinator == Idle
  {
    StepKeepsRefs(s, l, t);
  }

  // ----- runs of one request ----------------------------------------------------------------------------------

  /** A step of the coordinator or of a heartbeat. */
  predicate IsOther(l: Label) { l.Coordinate? || l.Heartbeat? || l.HeartbeatEnds? }

  /** Steps of the handler, the coordinator and the heartbeats, in any order. */
  ghost predicate Unasked(labels: seq<Label>) {
    forall i :: 0 <= i < |labels| ==> IsOther(labels[i]) || labels[i] == HandlerStep
  }

  /** The request, and then such steps. */
  ghost predicate IsRunOf(r: Request, labels: seq<Label>) {
    labels != [] && labels[0] == Ask(r)
    && Unasked(labels[1..])
  }

  /** Some interleaving of the request ends with a handler that the primary key has killed. */
  ghost predicate CanStop(s: State, r: Request) {
    exists labels, t :: IsRunOf(r, labels) && Run(s, labels) == Some(t) && t.handler.Stopping?
  }

  lemma {:induction false} RunConcat(s: State, a: seq<Label>, t: State, b: seq<Label>)
    requires Run(s, a) == Some(t)
    ensures Run(s, a + b) == Run(t, b)
  {
    if b == [] {
      assert a + b == a;
    } else {
      var n := |b| - 1;
      RunConcat(s, a, t, b[..n]);
      assert (a + b)[..|a + b| - 1] == a + b[..n] && (a + b)[|a + b| - 1] == b[n];
    }
  }

  lemma RunOne(s: State, l: Label)
    ensures Run(s, [l]) == Next(s, l)
  {
    assert [l][..0] == [];
  }

  // ----- emitters that nobody shares -------------------------------------------------------------------------

  ghost function Held(c: CoordinatorPc): Option<nat> {
    match c
    case Idle => None
    case Took(_) => None
    case Saw(_, _) => None
    case ThreadDied => None
    case _ => Some(c.em)
  }

  /** Before the claim the coordinator's emitter has no heartbeat; the handler's is its own. */
  ghost predicate Apart(s: State) {
    && (s.coordinator.DropQueued? || s.coordinator.AnnounceDrop? || s.coordinator.Claims? ==>
          s.coordinator.em !in s.heartbeats)
    && (s.handler.Announce? || s.handler.CancelAnnounces? ==>
          s.handler.em !in s.heartbeats && Held(s.coordinator) != Some(s.handler.em))
  }

  ghost predicate Sane(s: State) { RefsOk(s) && LogsOk(s) && Apart(s) }

  lemma CoordinatorKeepsApart(s: State, c: CoordinatorStep, t: State)
    requires Sane(s) && CoordinatorNext(s, c) == Some(t)
    ensures Apart(t)
  {
    if ExecutionNext(s, c).Some? { assert ExecutionNext(s, c) == Some(t); }
  }

  lemma OthersKeepApart(s: State, l: Label, t: State)
    requires Sane(s) && Next(s, l) == Some(t) && !l.Coordinate?
    ensures Apart(t)
  {
    match l
    case Life(_) =>
    case Ask(_) =>
    case HandlerStep =>
    case PollEvents =>
    case Heartbeat(_) =>
    case HeartbeatEnds(_) =>
  }

  lemma StepKeepsSane(s: State, l: Label, t: State)
    requires Sane(s) && Next(s, l) == Some(t)
    ensures Sane(t)
  {
    StepKeepsRefs(s, l, t);
    StepKeepsLogsOk(s, l, t);
    if l.Coordinate? { CoordinatorKeepsApart(s, l.step, t); } else { OthersKeepApart(s, l, t); }
  }

  lemma {:induction false} RunKeepsSane(client: JobId, labels: seq<Label>, s: State)
    requires Run(Start(client), labels) == Some(s)
    ensures Sane(s)
  {
    if labels != [] {
      var front := labels[..|labels| - 1];
      var before := Run(Start(client), front).value;
      RunKeepsSane(client, front, before);
      StepKeepsSane(before, labels[|labels| - 1], s);
    }
  }

  // ----- who may still write to a log -------------------------------------------------------------------------

  /**
    How often the coordinator will still try to emit through the emitter that it holds; a claim needs the
    row to be queued.
   */
  ghost function Attempts(c: CoordinatorPc, queued: bool): nat {
    match c
    case DropQueued(_, _) => 2
    case AnnounceDrop(_, _) => 2
    case Claims(_, _) => if queued then 2 else 0
    case Executes(_, _) => 2
    case ObservedCancel(_, _) => 1
    case Raised(_, _, _, _) => 1
    case AnnounceOutcome(_, _, _, _) => 1
    case _ => 0
  }

  /** A heartbeat through the same emitter is one attempt more; a refused attempt ends it. */
  ghost function Chances(s: State, queued: bool): nat
    requires Held(s.coordinator).Some?
  {
    Attempts(s.coordinator, queued)
    + if s.coordinator.em in s.heartbeats || (s.coordinator.Claims? && queued) then 1 else 0
  }

  /** The emitter that the coordinator holds catches up with its log before the attempts run out. */
  ghost predicate HeldCatchesUp(s: State, job: JobId, queued: bool) {
    && Held(s.coordinator).Some? && s.coordinator.em < |s.emitters| && s.emitters[s.coordinator.em].job == job
    && Behind(s, s.coordinator.em) < Chances(s, queued)
  }

  ghost predicate BeatsInTime(s: State, job: JobId, em: nat) {
    em in s.heartbeats && em < |s.emitters| && s.emitters[em].job == job && Behind(s, em) == 0
  }

  ghost function Beats(s: State, em: nat): int { if em in s.heartbeats then 1 else 0 }

  /** The coordinator can come back to its queue without dying and without writing the row of `job`. */
  ghost predicate Clears(s: State, job: JobId) {
    match s.coordinator
    case Idle => true
    case Took(_) => true
    case Saw(_, _) => true
    case DropQueued(j, em) => j != job && em < |s.emitters| && Behind(s, em) <= 1 + Beats(s, em)
    case AnnounceDrop(j, em) => j != job && em < |s.emitters| && Behind(s, em) <= 1 + Beats(s, em)
    case Raised(j, em, _, guarded) => j != job && em < |s.emitters| && (guarded || Behind(s, em) <= Beats(s, em))
    case AnnounceOutcome(_, em, _, guarded) => em < |s.emitters| && (guarded || Behind(s, em) <= Beats(s, em))
    case Claims(j, _) => j != job
    case Executes(j, _) => j != job
    case Reported(j, _) => j != job
    case ObservedCancel(j, _) => j != job
    case ThreadDied => false
  }

  /** The coordinator is about to open a log for the job. */
  ghost predicate WillOpen(s: State, job: JobId, queued: bool) {
    || (s.coordinator == Took(job) && queued)
    || (s.coordinator.Saw? && s.coordinator.job == job && (s.coordinator.cancelRequested || queued))
    || (queued && job in s.queue && Clears(s, job))
  }

  /** Somebody other than the handler may still extend the log of the job; `queued` is the status of its row. */
  ghost predicate MayWrite(s: State, job: JobId, queued: bool) {
    WillOpen(s, job, queued) || HeldCatchesUp(s, job, queued) || exists em :: BeatsInTime(s, job, em)
  }

  ghost predicate MayWriteNow(s: State, job: JobId) { MayWrite(s, job, IsStatus(s.db, job, Queued)) }

  // ----- nobody may write: nobody does ------------------------------------------------------------------------

  /** Nobody but the handler touches its emitter, and the log of a job that nobody may write stays as it is. */
  lemma SilentCoordinator(s: State, c: CoordinatorStep, t: State, job: JobId)
    requires Sane(s) && !MayWriteNow(s, job) && CoordinatorNext(s, c) == Some(t)
    ensures !MayWriteNow(t, job) && Log(t.db, job) == Log(s.db, job)
  {
    if ExecutionNext(s, c).Some? {
      assert ExecutionNext(s, c) == Some(t);
      SilentExecution(s, c, t, job);
    } else {
      SilentBefore(s, c, t, job);
    }
  }

  /** An emission moves its own emitter up to its log, or one nearer; others of the same log fall back. */
  lemma BehindAfter(s: State, em: nat, stage: string, i: nat)
    requires LogsOk(s) && em < |s.emitters| && i < |s.emitters|
    ensures var (t, ok) := Emit(s, em, stage);
      && |t.emitters| == |s.emitters| && t.emitters[i].job == s.emitters[i].job
      && (ok <==> Behind(s, em) == 0)
      && Behind(t, i) == if i == em then (if ok then 0 else Behind(s, em) - 1)
                         else Behind(s, i) + if ok && s.emitters[i].job == s.emitters[em].job then 1 else 0
  {
    EmitExtendsOrConflicts(s, em, stage);
    assert EmitterBehind(s, s.emitters[em]);
  }

  /** The coordinator's own emission for a job that it cannot write: another job's, or a refused one. */
  lemma EmissionStaysSilent(s: State, stage: string, t: State, job: JobId)
    requires Sane(s) && !MayWriteNow(s, job) && Held(s.coordinator).Some? && s.coordinator.em < |s.emitters|
    requires Attempts(s.coordinator, false) > 0
    requires Emits(s, s.coordinator.em, stage, t) && t.db.jobs == s.db.jobs && t.heartbeats == s.heartbeats
    ensures Log(t.db, job) == Log(s.db, job)
    ensures forall x: nat :: !BeatsInTime(t, job, x)
    ensures |t.emitters| == |s.emitters| && t.emitters[s.coordinator.em].job == s.emitters[s.coordinator.em].job
    ensures Behind(t, s.coordinator.em) == Max(0, Behind(s, s.coordinator.em) - 1)
    ensures s.emitters[s.coordinator.em].job == job ==> Behind(s, s.coordinator.em) >= Chances(s, false)
  {
    var em := s.coordinator.em;
    EmitExtendsOrConflicts(s, em, stage);
    BehindAfter(s, em, stage, em);
    assert EmitterBehind(s, s.emitters[em]);
    assert s.emitters[em].job == job ==> !HeldCatchesUp(s, job, IsStatus(s.db, job, Queued));
    var e := Emit(s, em, stage).0;
    assert forall id :: Log(t.db, id) == Log(e.db, id);
    forall x: nat | x < |t.emitters| ensures !BeatsInTime(t, job, x) {
      BehindAfter(s, em, stage, x);
      assert Behind(t, x) == Behind(e, x);
      assert EmitterBehind(s, s.emitters[x]);
      assert !BeatsInTime(s, job, x);
    }
  }

  lemma SilentBefore(s: State, c: CoordinatorStep, t: State, job: JobId)
    requires Sane(s) && !MayWriteNow(s, job) && CoordinatorNext(s, c) == Some(t) && ExecutionNext(s, c) == None
    ensures !MayWriteNow(t, job) && Log(t.db, job) == Log(s.db, job)
  {
    if s.coordinator.AnnounceDrop? {
      EmissionStaysSilent(s, "cancelled", t, job);
    } else {
      assert forall id :: Log(t.db, id) == Log(s.db, id);
      assert |t.emitters| >= |s.emitters| && forall i :: 0 <= i < |s.emitters| ==> t.emitters[i] == s.emitters[i];
      forall x ensures !BeatsInTime(t, job, x) {
        assert !BeatsInTime(s, job, x);
        QuietBefore(s, c, t, job, x);
      }
      QuietHeld(s, c, t, job);
    }
  }

  lemma QuietBefore(s: State, c: CoordinatorStep, t: State, job: JobId, x: nat)
    requires Sane(s) && !MayWriteNow(s, job) && CoordinatorNext(s, c) == Some(t) && ExecutionNext(s, c) == None
    requires !s.coordinator.AnnounceDrop?
    ensures !BeatsInTime(t, job, x)
  {
    assert !BeatsInTime(s, job, x);
    assert !HeldCatchesUp(s, job, IsStatus(s.db, job, Queued));
  }

  lemma QuietHeld(s: State, c: CoordinatorStep, t: State, job: JobId)
    requires Sane(s) && !MayWriteNow(s, job) && CoordinatorNext(s, c) == Some(t) && ExecutionNext(s, c) == None
    requires !s.coordinator.AnnounceDrop?
    ensures !WillOpen(t, job, IsStatus(t.db, job, Queued)) && !HeldCatchesUp(t, job, IsStatus(t.db, job, Queued))
  {
    var queued := IsStatus(s.db, job, Queued);
    assert !WillOpen(s, job, queued) && !HeldCatchesUp(s, job, queued);
    match c
    case Take => assert t.queue == s.queue[1..];
    case Lookup =>
    case OpenCoordinatorLog => OpenEmitterBehind(s, s.coordinator.job);
    case DropCancelled =>
    case Claim =>
    case _ =>
  }

  lemma SilentExecution(s: State, c: CoordinatorStep, t: State, job: JobId)
    requires Sane(s) && !MayWriteNow(s, job) && ExecutionNext(s, c) == Some(t)
    ensures !MayWriteNow(t, job) && Log(t.db, job) == Log(s.db, job)
  {
    match c
    case Progress(stage) => EmitKeepsJobs(s, s.coordinator.em, stage); EmissionStaysSilent(s, stage, t, job);
    case Report => EmitKeepsJobs(s, s.coordinator.em, "report"); EmissionStaysSilent(s, "report", t, job);
    case AnnounceEnd =>
      EmitKeepsJobs(s, s.coordinator.em, s.coordinator.stage);
      EmissionStaysSilent(s, s.coordinator.stage, t, job);
    case _ => QuietExecution(s, c, t, job);
  }

  lemma QuietExecution(s: State, c: CoordinatorStep, t: State, job: JobId)
    requires Sane(s) && !MayWriteNow(s, job) && ExecutionNext(s, c) == Some(t)
    requires !c.Progress? && !c.Report? && !c.AnnounceEnd?
    ensures !MayWriteNow(t, job) && Log(t.db, job) == Log(s.db, job)
  {
    var queued := IsStatus(s.db, job, Queued);
    assert !WillOpen(s, job, queued) && !HeldCatchesUp(s, job, queued);
    assert t.emitters == s.emitters && t.heartbeats == s.heartbeats && t.queue == s.queue;
    assert forall id :: Log(t.db, id) == Log(s.db, id);
    forall x ensures !BeatsInTime(t, job, x) { assert !BeatsInTime(s, job, x); }
  }

  lemma SilentHeartbeat(s: State, em: nat, t: State, job: JobId)
    requires Sane(s) && !MayWriteNow(s, job) && HeartbeatNext(s, em) == Some(t)
    ensures !MayWriteNow(t, job) && Log(t.db, job) == Log(s.db, job)
  {
    var queued := IsStatus(s.db, job, Queued);
    assert !WillOpen(s, job, queued) && !HeldCatchesUp(s, job, queued) && !BeatsInTime(s, job, em);
    EmitExtendsOrConflicts(s, em, "heartbeat");
    var e := Emit(s, em, "heartbeat").0;
    assert forall id :: Log(t.db, id) == Log(e.db, id);
    forall x: nat | x < |t.emitters|
      ensures !BeatsInTime(t, job, x)
      ensures Behind(t, x) >= Behind(s, x) - if x == em && Behind(s, em) > 0 then 1 else 0
      ensures t.emitters[x].job == s.emitters[x].job
    {
      BehindAfter(s, em, "heartbeat", x);
      assert Behind(t, x) == Behind(e, x);
      assert EmitterBehind(s, s.emitters[x]);
      assert !BeatsInTime(s, job, x);
    }
    assert em !in t.heartbeats <==> Behind(s, em) > 0 by {
      BehindAfter(s, em, "heartbeat", em);
      assert EmitterBehind(s, s.emitters[em]);
    }
    assert t.coordinator == s.coordinator && t.queue == s.queue;
  }

  lemma SilentOther(s: State, l: Label, t: State, job: JobId)
    requires Sane(s) && !MayWriteNow(s, job) && IsOther(l) && Next(s, l) == Some(t)
    ensures !MayWriteNow(t, job) && Log(t.db, job) == Log(s.db, job)
  {
    match l
    case Coordinate(c) => SilentCoordinator(s, c, t, job);
    case Heartbeat(em) => SilentHeartbeat(s, em, t, job);
    case HeartbeatEnds(em) =>
      assert !HeldCatchesUp(s, job, IsStatus(s.db, job, Queued)) && !WillOpen(s, job, IsStatus(s.db, job, Queued));
      forall x ensures !BeatsInTime(t, job, x) { assert !BeatsInTime(s, job, x); }
  }

  /** The emitter of the handler's announcement is as it was. */
  ghost predicate KeepsAnnouncer(s: State, t: State) {
    && t.handler == s.handler
    && (s.handler.Announce? || s.handler.CancelAnnounces? ==>
          s.handler.em < |s.emitters| && s.handler.em < |t.emitters|
          && t.emitters[s.handler.em] == s.emitters[s.handler.em])
  }

  lemma CoordinatorKeepsAnnouncer(s: State, c: CoordinatorStep, t: State)
    requires Sane(s) && CoordinatorNext(s, c) == Some(t)
    ensures KeepsAnnouncer(s, t)
  {
    if ExecutionNext(s, c).Some? { assert ExecutionNext(s, c) == Some(t); }
  }

  /** Others leave the handler, its emitter, and every logged event alone. */
  lemma OtherStep(s: State, l: Label, t: State)
    requires Sane(s) && IsOther(l) && Next(s, l) == Some(t)
    ensures Sane(t) && KeepsAnnouncer(s, t)
    ensures forall id :: |Log(t.db, id)| >= |Log(s.db, id)|
  {
    StepKeepsSane(s, l, t);
    LogsGrow(s, l, t);
    match l
    case Coordinate(c) => CoordinatorKeepsAnnouncer(s, c, t);
    case Heartbeat(_) =>
    case HeartbeatEnds(_) =>
  }

  lemma LogsGrow(s: State, l: Label, t: State)
    requires Sane(s) && Next(s, l) == Some(t)
    ensures forall id :: |Log(t.db, id)| >= |Log(s.db, id)|
  {
    StepKeepsLogsOk(s, l, t);
    assert forall id :: Log(s.db, id) <= Log(t.db, id);
  }

  // ----- the handler on its way to an announcement --------------------------------------------------------------

  /** The handler serves a request for the job; nobody may write to the log, and its emitter is up to date. */
  ghost predicate SafeWith(s: State, job: JobId) {
    match s.handler
    case OpenLog(j, _) => j == job && !MayWriteNow(s, job)
    case Announce(j, em, _) => j == job && !MayWriteNow(s, job) && em < |s.emitters| && Behind(s, em) == 0
    case CancelReads(j) => j == job && !MayWriteNow(s, job)
    case CancelWrites(j) => j == job && !MayWriteNow(s, job)
    case CancelOpensLog(j) => j == job && !MayWriteNow(s, job)
    case CancelAnnounces(j, em) => j == job && !MayWriteNow(s, job) && em < |s.emitters| && Behind(s, em) == 0
    case Enqueue(_) => true
    case Ready => true
    case _ => false
  }

  lemma MoreWhileQueued(s: State, job: JobId)
    ensures MayWrite(s, job, false) ==> MayWrite(s, job, true)
  {
  }

  lemma OpeningStaysSilent(s: State, t: State, job: JobId)
    requires Sane(s) && !MayWriteNow(s, job) && t == OpenEmitter(s, job).(handler := t.handler)
    ensures !MayWriteNow(t, job) && Behind(t, |s.emitters|) == 0
  {
    var queued := IsStatus(s.db, job, Queued);
    assert !WillOpen(s, job, queued) && !HeldCatchesUp(s, job, queued);
    OpenEmitterBehind(s, job);
    forall x ensures !BeatsInTime(t, job, x) { assert !BeatsInTime(s, job, x); }
  }

  lemma SafeHandlerStep(s: State, t: State, job: JobId)
    requires Sane(s) && SafeWith(s, job) && Next(s, HandlerStep) == Some(t)
    ensures SafeWith(t, job)
  {
    match s.handler
    case OpenLog(_, _) => OpeningStaysSilent(s, t, job);
    case CancelOpensLog(_) => OpeningStaysSilent(s, t, job);
    case Announce(_, em, stage) => EmitExtendsOrConflicts(s, em, stage);
    case CancelAnnounces(_, em) => EmitExtendsOrConflicts(s, em, "cancelled");
    case CancelWrites(_) => WritingStaysSilent(s, t, job);
    case CancelReads(_) => WritingStaysSilent(s, t, job);
    case _ =>
  }

  /** A write to the row that does not queue the job only takes chances away. */
  lemma WritingStaysSilent(s: State, t: State, job: JobId)
    requires !MayWriteNow(s, job) && t == s.(db := t.db, handler := t.handler) && t.db.events == s.db.events
    requires IsStatus(t.db, job, Queued) ==> IsStatus(s.db, job, Queued)
    ensures !MayWriteNow(t, job)
  {
    var queued := IsStatus(s.db, job, Queued);
    MoreWhileQueued(s, job);
    assert !WillOpen(s, job, queued) && !HeldCatchesUp(s, job, queued);
    assert forall id :: Log(t.db, id) == Log(s.db, id);
    forall x ensures !BeatsInTime(t, job, x) { assert !BeatsInTime(s, job, x); }
  }

  lemma SafeStep(s: State, l: Label, t: State, job: JobId)
    requires Sane(s) && SafeWith(s, job) && (IsOther(l) || l == HandlerStep) && Next(s, l) == Some(t)
    ensures Sane(t) && SafeWith(t, job)
  {
    StepKeepsSane(s, l, t);
    if l == HandlerStep {
      SafeHandlerStep(s, t, job);
    } else {
      OtherStep(s, l, t);
      if !s.handler.Enqueue? && s.handler != Ready {
        SilentOther(s, l, t, job);
      }
    }
  }

  lemma {:induction false} SafeRun(s: State, labels: seq<Label>, t: State, job: JobId)
    requires Sane(s) && SafeWith(s, job) && Run(s, labels) == Some(t)
    requires Unasked(labels)
    ensures Sane(t) && SafeWith(t, job)
  {
    if labels != [] {
      var n := |labels| - 1;
      var before := Run(s, labels[..n]).value;
      SafeRun(s, labels[..n], before, job);
      SafeStep(before, labels[n], t, job);
    }
  }

  /** If nobody may write when the request is accepted, no interleaving stops the worker. */
  lemma SafeRequest(s: State, r: Request, t: State, job: JobId)
    requires Sane(s) && Next(s, Ask(r)) == Some(t) && SafeWith(t, job)
    ensures !CanStop(s, r)
  {
    StepKeepsSane(s, Ask(r), t);
    forall labels, u | IsRunOf(r, labels) && Run(s, labels) == Some(u) ensures !u.handler.Stopping? {
      RunOne(s, Ask(r));
      assert labels == [Ask(r)] + labels[1..];
      RunConcat(s, [Ask(r)], t, labels[1..]);
      SafeRun(t, labels[1..], u, job);
    }
  }
}
