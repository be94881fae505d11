/**
  The job table and the event table of `store.py`, as values.  Each function is one SQL
  transaction; the class `LocalStore` in LocalStore.dfy runs the same transactions in place.
 */
module JobStore {
  import opened Prelude
  import opened Models

  type JobId = string

  /** Creation times are kept as keys in the order in which SQL compares their text. */
  type TimeKey = int

  datatype JobRow = JobRow(
    createdAt: TimeKey,
    status: JobStatus,
    attempt: nat,
    cancelRequested: bool,
    snapshotHash: Option<string>,
    reportPath: Option<string>,
    result: Option<ResultState>,
    error: Option<string>)

  datatype Event = Event(sequence: int, stage: string)

  /** `events[id]` are the event rows of one job in the order of their insertion. */
  datatype Db = Db(jobs: map<JobId, JobRow>, events: map<JobId, seq<Event>>)

  const LIST_LIMIT := 1000

  function Log(db: Db, id: JobId): seq<Event> {
    if id in db.events then db.events[id] else []
  }

  // ----- jobs ---------------------------------------------------------------------------

  function CreateJob(db: Db, id: JobId, createdAt: TimeKey): Option<Db> {
    if id in db.jobs then None
    else Some(db.(jobs := db.jobs[id := JobRow(createdAt, Queued, 0, false, None, None, None, None)]))
  }

  function MarkRunning(db: Db, id: JobId): (Db, bool) {
    if id in db.jobs && db.jobs[id].status == Queued then
      var row := db.jobs[id];
      (db.(jobs := db.jobs[id := row.(status := Running, attempt := row.attempt + 1,
                                      cancelRequested := false, error := None)]), true)
    else (db, false)
  }

  function RequestCancel(db: Db, id: JobId): (Db, bool) {
    if id in db.jobs && db.jobs[id].status in {Queued, Running} then
      (db.(jobs := db.jobs[id := db.jobs[id].(cancelRequested := true)]), true)
    else (db, false)
  }

  function MarkCancelled(db: Db, id: JobId): Db {
    if id in db.jobs then
      db.(jobs := db.jobs[id := db.jobs[id].(status := Cancelled, result := Some(RunCancelled))])
    else db
  }

  function ResumeJob(db: Db, id: JobId): (Db, bool) {
    if id in db.jobs && db.jobs[id].status in {Failed, Cancelled} then
      (db.(jobs := db.jobs[id := db.jobs[id].(status := Queued, cancelRequested := false,
                                              result := None, error := None)]), true)
    else (db, false)
  }

  function RecoverRow(row: JobRow): JobRow {
    if row.status == Running then
      row.(status := Failed, result := Some(AnalysisIncomplete), error := Some("worker interrupted"))
    else row
  }

  function RecoverInterruptedJobs(db: Db): Db {
    db.(jobs := map id | id in db.jobs :: RecoverRow(db.jobs[id]))
  }

  function CompleteJob(db: Db, id: JobId, hash: string, path: string, result: ResultState): Db {
    if id in db.jobs then
      db.(jobs := db.jobs[id := db.jobs[id].(status := Complete, snapshotHash := Some(hash),
                                             reportPath := Some(path), result := Some(result),
                                             cancelRequested := false, error := None)])
    else db
  }

  function FailJob(db: Db, id: JobId, error: string, result: ResultState): Db {
    if id in db.jobs then
      db.(jobs := db.jobs[id := db.jobs[id].(status := Failed, result := Some(result), error := Some(error))])
    else db
  }

  /** `order` is an answer of `SELECT * FROM jobs ORDER BY created_at DESC`. */
  ghost predicate IsListing(db: Db, order: seq<JobId>) {
    && NoDuplicates(order)
    && (forall id :: id in order <==> id in db.jobs)
    && (forall i, j :: 0 <= i < j < |order| ==> db.jobs[order[i]].createdAt >= db.jobs[order[j]].createdAt)
  }

  /** The queued jobs of a newest-first listing, oldest first. */
  function QueuedOldestFirst(db: Db, listing: seq<JobId>): (queue: seq<JobId>)
    ensures forall id :: id in queue <==> id in listing && id in db.jobs && db.jobs[id].status == Queued
  {
    if listing == [] then []
    else
      var older := QueuedOldestFirst(db, listing[1..]);
      if listing[0] in db.jobs && db.jobs[listing[0]].status == Queued then older + [listing[0]] else older
  }

  // ----- events -------------------------------------------------------------------------

  predicate HasSequence(log: seq<Event>, n: int) {
    exists i :: 0 <= i < |log| && log[i].sequence == n
  }

  /** INSERT refuses a second row with the same `(job_id, sequence)`. */
  function AppendEvent(db: Db, id: JobId, e: Event): Option<Db> {
    if HasSequence(Log(db, id), e.sequence) then None
    else Some(db.(events := db.events[id := Log(db, id) + [e]]))
  }

  /** `COALESCE(MAX(sequence), 0)` */
  function MaxSequence(log: seq<Event>): int {
    if log == [] then 0
    else if |log| == 1 then log[0].sequence
    else Max(MaxSequence(log[..|log| - 1]), log[|log| - 1].sequence)
  }

  function InsertSorted(e: Event, sorted: seq<Event>): seq<Event> {
    if sorted == [] || e.sequence <= sorted[0].sequence then [e] + sorted
    else [sorted[0]] + InsertSorted(e, sorted[1..])
  }

  /** `SELECT ... WHERE sequence > since ORDER BY sequence` */
  function EventsSince(log: seq<Event>, since: int): seq<Event> {
    if log == [] then []
    else if log[0].sequence > since then InsertSorted(log[0], EventsSince(log[1..], since))
    else EventsSince(log[1..], since)
  }

  // ----- a log whose sequence numbers are exactly 1..k ------------------------------------

  ghost predicate Contiguous(log: seq<Event>) {
    forall i :: 0 <= i < |log| ==> log[i].sequence == i + 1
  }

  lemma {:induction false} MaxSequenceOfRun(log: seq<Event>, first: int)
    requires forall i :: 0 <= i < |log| ==> log[i].sequence == first + i
    ensures MaxSequence(log) == if log == [] then 0 else first + |log| - 1
  {
    if |log| > 1 { MaxSequenceOfRun(log[..|log| - 1], first); }
  }

  /** On a run of consecutive sequence numbers the query returns the part after `since`, in order. */
  lemma {:induction false} EventsSinceOfRun(log: seq<Event>, since: int, first: int)
    requires forall i :: 0 <= i < |log| ==> log[i].sequence == first + i
    ensures EventsSince(log, since) == log[Min(|log|, Max(0, since + 1 - first))..]
  {
    if log != [] {
      EventsSinceOfRun(log[1..], since, first + 1);
      if log[0].sequence > since {
        assert EventsSince(log[1..], since) == log[1..];
        assert InsertSorted(log[0], log[1..]) == log;
      } else {
        assert log[Min(|log|, Max(0, since + 1 - first))..]
            == log[1..][Min(|log| - 1, Max(0, since - first))..];
      }
    }
  }

  /** The answer to a poll is exactly the part of the log that the client has not seen. */
  lemma EventsSinceContiguous(log: seq<Event>, since: nat)
    requires Contiguous(log) && since <= |log|
    ensures EventsSince(log, since) == log[since..]
  {
    EventsSinceOfRun(log, since, 1);
  }

  // ----- row shape ------------------------------------------------------------------------

  /** What every row of the table looks like between two transactions. */
  ghost predicate RowOk(row: JobRow) {
    match row.status
    case Queued => row.result == None && row.error == None
    case Running => row.result == None && row.error == None
    case Complete => row.snapshotHash.Some? && row.reportPath.Some? && row.result.Some?
                     && row.error == None && !row.cancelRequested
    case Failed => row.result in {Some(AnalysisIncomplete), Some(InternalError)} && row.error.Some?
    case Cancelled => row.result == Some(RunCancelled)
  }

  ghost predicate RowsOk(db: Db) {
    forall id :: id in db.jobs ==> RowOk(db.jobs[id])
  }
}
