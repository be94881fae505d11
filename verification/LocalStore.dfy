/**
  `LocalStore`'s job and event tables, `DurableEmitter` and the client's event loop as the
  mutable objects that they are.  Each store method is one transaction and moves the tables
  exactly as the function of JobStore.dfy does that the step machine uses; its contract says
  first what that means to a caller: which row changes, what stays, and what may follow.
 */
module LocalStore {
  import opened Prelude
  import opened Models
  import opened JobStore

  class Store {
    var jobs: map<JobId, JobRow>
    var events: map<JobId, seq<Event>>

    ghost function Contents(): Db
      reads this
    {
      Db(jobs, events)
    }

    constructor ()
      ensures Contents() == Db(map[], map[])
    {
      jobs, events := map[], map[];
    }

    /** Only the row of `id` may have changed. */
    twostate predicate OnlyTheRowOf(id: JobId)
      reads this
    {
      && events == old(events)
      && old(jobs).Keys <= jobs.Keys <= old(jobs).Keys + {id}
      && (forall other :: other in jobs && other != id ==> jobs[other] == old(jobs)[other])
    }

    /** Rows that were well formed still are. */
    twostate predicate KeepsRows()
      reads this
    {
      RowsOk(old(Contents())) ==> RowsOk(Contents())
    }

    /** Of the row, whatever else becomes of it, these fields stay. */
    twostate predicate KeepsOrigin(id: JobId)
      reads this
    {
      id in jobs ==> id in old(jobs) && jobs[id].createdAt == old(jobs)[id].createdAt
    }

    /** Where its report is and what it is about, which stay unless a job completes. */
    twostate predicate KeepsReport(id: JobId)
      reads this
    {
      id in jobs ==>
        id in old(jobs) && jobs[id].reportPath == old(jobs)[id].reportPath
        && jobs[id].snapshotHash == old(jobs)[id].snapshotHash
    }

    /** A new job is queued, waits to be claimed, and has no events of its own making. */
    method Create(id: JobId, createdAt: TimeKey) returns (ok: bool)
      modifies this
      ensures ok <==> id !in old(jobs)
      ensures KeepsRows() && OnlyTheRowOf(id) && (!ok ==> Contents() == old(Contents()))
      ensures ok ==>
                id in jobs && jobs[id].createdAt == createdAt && jobs[id].attempt == 0 && MarkRunning(Contents(), id).1
      ensures ok ==> jobs[id].status == Queued && !jobs[id].cancelRequested && jobs[id].result == None
                     && jobs[id].error == None && jobs[id].reportPath == None && jobs[id].snapshotHash == None
      ensures ok ==> Some(Contents()) == CreateJob(old(Contents()), id, createdAt)
    {
      ok := id !in jobs;
      if ok { jobs := jobs[id := JobRow(createdAt, Queued, 0, false, None, None, None, None)]; }
    }

    /** Exactly a queued job can be claimed, and only once; the claim takes back an accepted cancel. */
    method Claim(id: JobId) returns (claimed: bool)
      modifies this
      ensures claimed <==> id in old(jobs) && old(jobs)[id].status == Queued
      ensures KeepsRows() && OnlyTheRowOf(id) && (!claimed ==> Contents() == old(Contents()))
      ensures claimed ==> jobs[id].status == Running && jobs[id].attempt == old(jobs)[id].attempt + 1
                          && !jobs[id].cancelRequested && jobs[id].error == None
      ensures KeepsOrigin(id) && KeepsReport(id)
      ensures !MarkRunning(Contents(), id).1
      ensures (Contents(), claimed) == MarkRunning(old(Contents()), id)
    {
      claimed := id in jobs && jobs[id].status == Queued;
      if claimed {
        jobs := jobs[id := jobs[id].(status := Running, attempt := jobs[id].attempt + 1,
                                     cancelRequested := false, error := None)];
      }
    }

    /** A cancel is accepted exactly while the job waits or runs; it moves the job nowhere. */
    method RaiseCancelFlag(id: JobId) returns (accepted: bool)
      modifies this
      ensures accepted <==> id in old(jobs) && old(jobs)[id].status in {Queued, Running}
      ensures KeepsRows() && OnlyTheRowOf(id) && (!accepted ==> Contents() == old(Contents()))
      ensures accepted ==> jobs[id] == old(jobs)[id].(cancelRequested := true)
      ensures MarkRunning(Contents(), id).1 == MarkRunning(old(Contents()), id).1
      ensures (Contents(), accepted) == RequestCancel(old(Contents()), id)
    {
      accepted := id in jobs && (jobs[id].status == Queued || jobs[id].status == Running);
      if accepted { jobs := jobs[id := jobs[id].(cancelRequested := true)]; }
    }

    /** Whatever the job was doing, it can now be resumed, and neither claimed nor cancelled. */
    method Cancel(id: JobId)
      modifies this
      ensures KeepsRows() && OnlyTheRowOf(id) && jobs.Keys == old(jobs).Keys
      ensures id in jobs ==> ResumeJob(Contents(), id).1 && jobs[id].attempt == old(jobs)[id].attempt
                             && jobs[id].status == Cancelled && jobs[id].result == Some(RunCancelled)
      ensures KeepsOrigin(id) && KeepsReport(id)
      ensures !MarkRunning(Contents(), id).1 && !RequestCancel(Contents(), id).1
      ensures Contents() == MarkCancelled(old(Contents()), id)
    {
      if id in jobs { jobs := jobs[id := jobs[id].(status := Cancelled, result := Some(RunCancelled))]; }
    }

    /** Exactly a failed or cancelled job is resumed; it can be claimed again, with no trace of its end. */
    method Resume(id: JobId) returns (resumed: bool)
      modifies this
      ensures resumed <==> id in old(jobs) && old(jobs)[id].status in {Failed, Cancelled}
      ensures KeepsRows() && OnlyTheRowOf(id) && (!resumed ==> Contents() == old(Contents()))
      ensures resumed ==> MarkRunning(Contents(), id).1 && jobs[id].result == None && jobs[id].error == None
                          && !jobs[id].cancelRequested && jobs[id].attempt == old(jobs)[id].attempt
                          && jobs[id].status == Queued
      ensures KeepsOrigin(id) && KeepsReport(id)
      ensures !ResumeJob(Contents(), id).1
      ensures (Contents(), resumed) == ResumeJob(old(Contents()), id)
    {
      resumed := id in jobs && (jobs[id].status == Failed || jobs[id].status == Cancelled);
      if resumed {
        jobs := jobs[id := jobs[id].(status := Queued, cancelRequested := false, result := None, error := None)];
      }
    }

    /** Fails every interrupted job, one row after the other. */
    method Recover() returns (recovered: nat)
      modifies this
      ensures Contents() == RecoverInterruptedJobs(old(Contents()))
      ensures jobs.Keys == old(jobs).Keys && events == old(events)
      ensures forall id <- jobs ::
                if old(jobs)[id].status == Running then
                  && jobs[id].status == Failed && jobs[id].result == Some(AnalysisIncomplete)
                  && jobs[id].error == Some("worker interrupted") && jobs[id].attempt == old(jobs)[id].attempt
                  && jobs[id].cancelRequested == old(jobs)[id].cancelRequested
                  && KeepsOrigin(id) && KeepsReport(id)
                else jobs[id] == old(jobs)[id]
      ensures recovered == |set id | id in old(jobs) && old(jobs)[id].status == Running|
    {
      var interrupted := set id | id in jobs && jobs[id].status == Running;
      recovered := |interrupted|;
      var todo := interrupted;
      while todo != {}
        invariant todo <= interrupted
        invariant events == old(events) && jobs.Keys == old(jobs).Keys
        invariant forall id :: id in jobs ==>
                    jobs[id] == if id in todo then old(jobs)[id] else RecoverRow(old(jobs)[id])
        decreases todo
      {
        var id :| id in todo;
        jobs := jobs[id := jobs[id].(status := Failed, result := Some(AnalysisIncomplete),
                                     error := Some("worker interrupted"))];
        todo := todo - {id};
      }
    }

    /** A completed job is final to every guarded transition: no claim, cancel or resume follows. */
    method Complete(id: JobId, hash: string, path: string, result: ResultState)
      modifies this
      ensures KeepsRows() && OnlyTheRowOf(id) && jobs.Keys == old(jobs).Keys
      ensures id in jobs ==>
                && jobs[id].reportPath == Some(path) && jobs[id].snapshotHash == Some(hash)
                && jobs[id].result == Some(result) && jobs[id].status == JobStatus.Complete
                && jobs[id].error == None && !jobs[id].cancelRequested && jobs[id].attempt == old(jobs)[id].attempt
      ensures KeepsOrigin(id)
      ensures id in jobs ==>
                !MarkRunning(Contents(), id).1 && !RequestCancel(Contents(), id).1 && !ResumeJob(Contents(), id).1
      ensures Contents() == CompleteJob(old(Contents()), id, hash, path, result)
    {
      if id in jobs {
        jobs := jobs[id := jobs[id].(status := JobStatus.Complete, snapshotHash := Some(hash), reportPath := Some(path),
                                     result := Some(result), cancelRequested := false, error := None)];
      }
    }

    /** A failed job says why, and can be resumed. */
    method Fail(id: JobId, error: string, result: ResultState)
      modifies this
      ensures result in {AnalysisIncomplete, InternalError} ==> KeepsRows()
      ensures OnlyTheRowOf(id) && jobs.Keys == old(jobs).Keys
      ensures id in jobs ==>
                && ResumeJob(Contents(), id).1 && jobs[id].error == Some(error) && jobs[id].result == Some(result)
                && jobs[id].status == Failed && jobs[id].attempt == old(jobs)[id].attempt
                && jobs[id].cancelRequested == old(jobs)[id].cancelRequested
      ensures KeepsOrigin(id) && KeepsReport(id)
      ensures !MarkRunning(Contents(), id).1 && !RequestCancel(Contents(), id).1
      ensures Contents() == FailJob(old(Contents()), id, error, result)
    {
      if id in jobs {
        jobs := jobs[id := jobs[id].(status := Failed, result := Some(result), error := Some(error))];
      }
    }

    /**
      INSERT into the event table, refused when the primary key is taken.  Either way the number is taken
      afterwards, and no stored event is lost or moved.
     */
    method Append(id: JobId, e: Event) returns (ok: bool)
      modifies this
      ensures jobs == old(jobs) && HasSequence(Log(Contents(), id), e.sequence)
      ensures !ok <==> HasSequence(Log(old(Contents()), id), e.sequence)
      ensures forall other :: old(Log(Contents(), other)) <= Log(Contents(), other)
      ensures !ok ==> Contents() == old(Contents())
      ensures ok ==> Some(Contents()) == AppendEvent(old(Contents()), id, e)
    {
      var log := if id in events then events[id] else [];
      ok := !HasSequence(log, e.sequence);
      if ok {
        events := events[id := log + [e]];
        assert (log + [e])[|log|] == e;
      }
    }
  }

  class DurableEmitter {
    const store: Store
    const job: JobId
    var sequence: int

    /** Starts at the stored maximum of the job's log. */
    constructor (store: Store, job: JobId)
      ensures this.store == store && this.job == job
      ensures sequence == MaxSequence(Log(store.Contents(), job))
    {
      this.store, this.job := store, job;
      sequence := MaxSequence(if job in store.events then store.events[job] else []);
    }

    /**
      The counter moves first.  While it is not ahead of a contiguous log, an emission either
      extends the log by the next number or leaves it unchanged, and the counter is not ahead after.
     */
    method Emit(stage: string) returns (ok: bool)
      modifies this`sequence, store
      ensures sequence == old(sequence) + 1
      ensures store.jobs == old(store.jobs)
      ensures ok <==> !HasSequence(Log(old(store.Contents()), job), sequence)
      ensures Log(store.Contents(), job)
           == Log(old(store.Contents()), job) + (if ok then [Event(sequence, stage)] else [])
      ensures forall id :: id != job ==> Log(store.Contents(), id) == Log(old(store.Contents()), id)
      ensures Contiguous(Log(old(store.Contents()), job)) && 0 <= old(sequence) <= |Log(old(store.Contents()), job)|
              ==> Contiguous(Log(store.Contents(), job)) && sequence <= |Log(store.Contents(), job)|
                  && (ok <==> old(sequence) == |Log(old(store.Contents()), job)|)
    {
      ghost var before := Log(store.Contents(), job);
      sequence := sequence + 1;
      ok := store.Append(job, Event(sequence, stage));
      assert Contiguous(before) && 0 < sequence <= |before| ==> before[sequence - 1].sequence == sequence;
    }
  }

  /** The client's loop over one reply keeps the highest sequence number that it has seen. */
  method HighestSeen(since: nat, events: seq<Event>) returns (sequence: int)
    ensures sequence == Max(since, MaxSequence(events))
    ensures sequence >= since && forall i :: 0 <= i < |events| ==> events[i].sequence <= sequence
  {
    sequence := since;
    for i := 0 to |events|
      invariant sequence == Max(since, MaxSequence(events[..i]))
      invariant forall k :: 0 <= k < i ==> events[k].sequence <= sequence
    {
      assert events[..i + 1][..i] == events[..i];
      sequence := Max(sequence, events[i].sequence);
    }
    assert events[..|events|] == events;
  }
}
