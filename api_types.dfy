/** The records exchanged with the analysis service and the page's status
    enumeration. They carry no behaviour of their own. */
module ApiTypes {

  datatype Option<+T> = None | Some(value: T) {
    function GetOr(default: T): T {
      match this
      case Some(v) => v
      case None => default
    }
  }

  /** Overall status of the page: "idle" | "uploading" | "processing" | "completed" | "error". */
  datatype AppStatus = Idle | Uploading | Processing | Completed | Error

  /** Status reported by the service for one job: "queued" | "processing" | "completed" | "failed". */
  datatype JobPhase = JobQueued | JobProcessing | JobCompleted | JobFailed

  datatype JobResult = JobResult(appleCount: nat, framesProcessed: nat, totalFrames: nat)

  /** One polled snapshot. `progress` is None when the service sent nothing usable
      (absent or not a number). */
  datatype JobStatus = JobStatus(
    phase: JobPhase,
    progress: Option<int>,
    result: Option<JobResult>,
    videoPath: Option<string>,
    error: Option<string>)

  /** Body of a successful submit. A missing `job_id` field is None. */
  datatype SubmitVideoResponse = SubmitVideoResponse(jobId: Option<string>, status: string)

  /** JavaScript truthiness of an optional string: present and not empty. */
  predicate Truthy(s: Option<string>) {
    s.Some? && s.value != ""
  }
}
