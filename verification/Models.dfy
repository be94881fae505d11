/** The vocabularies of `models.py` that several modules speak. */
module Models {
  import opened Prelude

  /** What a diagnosis concludes; `None` in a job row means that there is no conclusion yet. */
  datatype ResultState =
    | ConfirmedIssues
    | NoConfirmedIssues
    | Indeterminate
    | AnalysisIncomplete
    | RunCancelled
    | InternalError

  datatype JobStatus = Queued | Running | Complete | Failed | Cancelled

  datatype Severity = Info | LowSeverity | MediumSeverity | HighSeverity | Critical

  datatype Confidence = LowConfidence | MediumConfidence | HighConfidence

  /** What a diagnosis did, did not do, could not do, and failed to do. */
  datatype Coverage = Coverage(
    completed: seq<string>, skipped: seq<string>, unsupported: seq<string>, failed: seq<string>)
}
