/** The page's session state machine. Every timer firing and every network
    completion is one event; the functions After* give the state after it, and
    SyncPolling plays the polling effect, which React re-runs whenever `jobId` or
    `status` changed. */
module IndexSpec {
  import opened ApiTypes
  import opened Toasts
  import opened UploadArea

  const FakeProgressStep: int := 5
  const FakeProgressCap: int := 95
  const ErrorThreshold: nat := 5
  const BasePollMs: nat := 3000
  const BackoffPollMs: nat := 8000
  const MissingJobIdMessage: string := "No job ID returned from server"
  const UnknownUploadError: string := "Unknown error occurred"
  const UnknownProcessingError: string := "Unknown error occurred during processing"

  /** The `statusInterval` handle: no interval, or one repeating every `periodMs`. */
  datatype PollTimer = Stopped | Every(periodMs: nat)

  /** How the submit call settled: it resolved with a body, or it threw (`message`
      is None when the thrown value is not an Error). */
  datatype SubmitOutcome =
    | Responded(response: SubmitVideoResponse)
    | Threw(message: Option<string>)

  /** The six state hooks plus the timers and the call in flight:
      `uploadTicking` is the 200 ms fake-progress interval, `submitPending` the
      unsettled submit call, `handoffArmed` the 500 ms hand-off timeout,
      `statusInterval` the poll interval and `errorTimeoutArmed` the 5000 ms
      connection-problem timeout. `notices` logs the toasts raised so far. */
  datatype SessionState = SessionState(
    videoFile: Option<VideoFile>,
    jobId: Option<string>,
    status: AppStatus,
    progress: int,
    results: Option<JobResult>,
    networkErrorCount: nat,
    uploadTicking: bool,
    submitPending: bool,
    handoffArmed: bool,
    statusInterval: PollTimer,
    errorTimeoutArmed: bool,
    notices: seq<Notice>)

  /** The state on first render. */
  function Initial(): SessionState {
    SessionState(None, None, Idle, 0, None, 0, false, false, false, Stopped, false, [])
  }

  /** The guard at the top of the polling effect: a truthy job id and status "processing". */
  predicate PollingWanted(jobId: Option<string>, status: AppStatus) {
    Truthy(jobId) && status == Processing
  }

  /** The polling effect after a state change. When neither `jobId` nor `status`
      changed the effect does not re-run. Otherwise its cleanup clears the interval
      and the error timeout, and if polling is wanted it checks at once and starts
      the base interval. */
  function SyncPolling(prevJobId: Option<string>, prevStatus: AppStatus, s: SessionState): (r: SessionState)
    ensures prevJobId == s.jobId && prevStatus == s.status ==> r == s
    ensures prevJobId != s.jobId || prevStatus != s.status ==>
      && r == s.(statusInterval := r.statusInterval, errorTimeoutArmed := false)
      && (r.statusInterval.Every? <==> PollingWanted(s.jobId, s.status))
      && (r.statusInterval.Every? ==> r.statusInterval.periodMs == BasePollMs)
  {
    if prevJobId == s.jobId && prevStatus == s.status then s
    else s.(statusInterval := if PollingWanted(s.jobId, s.status) then Every(BasePollMs) else Stopped,
            errorTimeoutArmed := false)
  }

  /** The facts every reachable state keeps: polling timers run only while polling
      is wanted, at most one of the two poll timers is armed, the interval is the
      base or the back-off one, the retry timeout is armed only after the error
      threshold was reached, and a stored job id is never empty. */
  predicate Inv(s: SessionState) {
    && (s.statusInterval.Every? || s.errorTimeoutArmed ==> PollingWanted(s.jobId, s.status))
    && !(s.statusInterval.Every? && s.errorTimeoutArmed)
    && (s.statusInterval.Every? ==> s.statusInterval.periodMs == BasePollMs || s.statusInterval.periodMs == BackoffPollMs)
    && (s.errorTimeoutArmed ==> s.networkErrorCount >= ErrorThreshold)
    && (s.jobId.Some? ==> s.jobId.value != "")
  }

  /** `handleVideoUploaded`: a file was provided. The job id is left as it was. */
  function AfterFileProvided(s: SessionState, file: VideoFile): (r: SessionState)
    ensures r.videoFile == Some(file) && r.status == Uploading && r.progress == 0
    ensures r.results == None && r.networkErrorCount == 0
    ensures r.uploadTicking && r.submitPending
    ensures r.jobId == s.jobId && r.handoffArmed == s.handoffArmed && r.notices == s.notices
    ensures Inv(s) ==> r.statusInterval == Stopped && !r.errorTimeoutArmed
  {
    SyncPolling(s.jobId, s.status,
      s.(videoFile := Some(file), status := Uploading, progress := 0, results := None,
         networkErrorCount := 0, uploadTicking := true, submitPending := true))
  }

  /** One 200 ms fake-progress tick: +5 below 95; at 95 or more the value is pinned
      at 95 and the interval clears itself. Nothing else changes. */
  function AfterUploadTick(s: SessionState): (r: SessionState)
    requires s.uploadTicking
    ensures r == s.(progress := r.progress, uploadTicking := r.uploadTicking)
    ensures r.uploadTicking <==> s.progress < FakeProgressCap
    ensures s.progress < FakeProgressCap ==> r.progress == s.progress + FakeProgressStep
    ensures s.progress >= FakeProgressCap ==> r.progress == FakeProgressCap
  {
    if s.progress >= FakeProgressCap then s.(progress := FakeProgressCap, uploadTicking := false)
    else s.(progress := s.progress + FakeProgressStep)
  }

  /** A submit that resolved with a truthy `job_id`. */
  predicate Accepted(outcome: SubmitOutcome) {
    outcome.Responded? && Truthy(outcome.response.jobId)
  }

  /** Description of the "Upload failed" notice: the thrown error's message, the
      generic text for a non-Error value, or the missing-id message. */
  function UploadFailureText(outcome: SubmitOutcome): string {
    match outcome
    case Responded(_) => MissingJobIdMessage
    case Threw(message) => message.GetOr(UnknownUploadError)
  }

  /** The submit call settled. With a truthy `job_id` the id is stored, progress jumps
      to 100 and the hand-off timeout is armed while the status stays as it was;
      without one, or on a throw, the status becomes "error". Only a resolved call
      clears the fake-progress interval: after a throw it keeps running. */
  function AfterSubmit(s: SessionState, outcome: SubmitOutcome): (r: SessionState)
    requires s.submitPending
    ensures !r.submitPending && r.results == s.results && r.networkErrorCount == s.networkErrorCount
    ensures Accepted(outcome) ==>
      && r.status == s.status && r.jobId == outcome.response.jobId && r.progress == 100
      && r.handoffArmed && !r.uploadTicking
      && r.notices == s.notices + [UploadSucceeded(outcome.response.jobId.value)]
    ensures !Accepted(outcome) ==>
      && r.status == Error && r.jobId == s.jobId && r.progress == s.progress
      && r.handoffArmed == s.handoffArmed
      && r.notices == s.notices + [UploadFailed(UploadFailureText(outcome))]
    ensures outcome.Responded? ==> !r.uploadTicking
    ensures outcome.Threw? ==> r.uploadTicking == s.uploadTicking
  {
    var settled := s.(submitPending := false);
    match outcome
    case Responded(response) =>
      if Truthy(response.jobId) then
        SyncPolling(s.jobId, s.status,
          settled.(uploadTicking := false, jobId := response.jobId, progress := 100, handoffArmed := true,
                   notices := s.notices + [UploadSucceeded(response.jobId.value)]))
      else
        SyncPolling(s.jobId, s.status,
          settled.(uploadTicking := false, status := Error,
                   notices := s.notices + [UploadFailed(MissingJobIdMessage)]))
    case Threw(_) =>
      SyncPolling(s.jobId, s.status,
        settled.(status := Error, notices := s.notices + [UploadFailed(UploadFailureText(outcome))]))
  }

  /** The 500 ms hand-off delay elapsed: status "processing", progress 0. Polling then
      starts at the base interval when a job id is stored; with none, nothing polls. */
  function AfterHandoff(s: SessionState): (r: SessionState)
    requires s.handoffArmed
    ensures r.status == Processing && r.progress == 0 && !r.handoffArmed
    ensures r == s.(status := Processing, progress := 0, handoffArmed := false,
                    statusInterval := r.statusInterval, errorTimeoutArmed := r.errorTimeoutArmed)
    ensures s.status != Processing && Truthy(s.jobId) ==>
      r.statusInterval == Every(BasePollMs) && !r.errorTimeoutArmed
    ensures Inv(s) && !Truthy(s.jobId) ==> r.statusInterval == Stopped && !r.errorTimeoutArmed
  {
    SyncPolling(s.jobId, s.status, s.(handoffArmed := false, status := Processing, progress := 0))
  }

  /** `statusData.progress || 0`. */
  function ReportedProgress(snapshot: JobStatus): int {
    snapshot.progress.GetOr(0)
  }

  /** `statusData.error || "Unknown error occurred during processing"`. */
  function FailureText(snapshot: JobStatus): string {
    if Truthy(snapshot.error) then snapshot.error.value else UnknownProcessingError
  }

  /** A poll returned a snapshot. The error count is reset in every case. "completed"
      finishes the session with its result (or none); "failed" ends it in "error"
      with progress untouched; any other phase only updates the progress. */
  function AfterSnapshot(s: SessionState, snapshot: JobStatus): (r: SessionState)
    requires s.statusInterval.Every?
    ensures r.networkErrorCount == 0 && r.jobId == s.jobId
    ensures snapshot.phase == JobCompleted ==>
      && r.status == Completed && r.progress == 100 && r.results == snapshot.result
      && r.statusInterval == Stopped
      && r.notices == s.notices + [AnalysisComplete(if snapshot.result.Some? then Some(snapshot.result.value.appleCount) else None)]
    ensures snapshot.phase == JobFailed ==>
      && r.status == Error && r.progress == s.progress && r.results == s.results
      && r.statusInterval == Stopped
      && r.notices == s.notices + [ProcessingFailed(FailureText(snapshot))]
    ensures snapshot.phase == JobQueued || snapshot.phase == JobProcessing ==>
      r == s.(networkErrorCount := 0, progress := ReportedProgress(snapshot))
    ensures Inv(s) ==> !r.errorTimeoutArmed
  {
    var ok := s.(networkErrorCount := 0);
    match snapshot.phase
    case JobCompleted =>
      var found := if snapshot.result.Some? then Some(snapshot.result.value.appleCount) else None;
      SyncPolling(s.jobId, s.status,
        ok.(status := Completed, progress := 100, results := snapshot.result, statusInterval := Stopped,
            notices := s.notices + [AnalysisComplete(found)]))
    case JobFailed =>
      SyncPolling(s.jobId, s.status,
        ok.(status := Error, statusInterval := Stopped, notices := s.notices + [ProcessingFailed(FailureText(snapshot))]))
    case _ =>
      ok.(progress := ReportedProgress(snapshot))
  }

  /** A poll fetch failed. The status and everything the user sees stay as they are;
      the error count grows by one, and on reaching the threshold the interval is
      cleared and the connection-problem timeout is armed instead. */
  function AfterPollFailure(s: SessionState): (r: SessionState)
    requires s.statusInterval.Every?
    ensures r == s.(networkErrorCount := r.networkErrorCount, statusInterval := r.statusInterval,
                    errorTimeoutArmed := r.errorTimeoutArmed)
    ensures r.networkErrorCount == s.networkErrorCount + 1
    ensures r.networkErrorCount < ErrorThreshold ==> r.statusInterval == s.statusInterval
    ensures r.networkErrorCount >= ErrorThreshold ==> r.statusInterval == Stopped && r.errorTimeoutArmed
    ensures Inv(s) ==> (r.errorTimeoutArmed <==> r.networkErrorCount >= ErrorThreshold)
  {
    var count := s.networkErrorCount + 1;
    if count >= ErrorThreshold then s.(networkErrorCount := count, statusInterval := Stopped, errorTimeoutArmed := true)
    else s.(networkErrorCount := count)
  }

  /** The 5000 ms connection-problem timeout fired: one "Connection problems" notice,
      the error count back to 0, and polling restarted at the back-off interval. */
  function AfterErrorTimeout(s: SessionState): (r: SessionState)
    requires s.errorTimeoutArmed
    ensures r == s.(networkErrorCount := 0, statusInterval := Every(BackoffPollMs), errorTimeoutArmed := false,
                    notices := s.notices + [ConnectionProblems])
    ensures r.statusInterval.periodMs > BasePollMs
  {
    s.(errorTimeoutArmed := false, notices := s.notices + [ConnectionProblems],
       networkErrorCount := 0, statusInterval := Every(BackoffPollMs))
  }

  /** `resetAnalysis`: back to "idle" with nothing stored. The polling timers stop
      through the effect; the hand-off timeout, the fake-progress interval and a
      submit in flight are not cancelled. */
  function AfterReset(s: SessionState): (r: SessionState)
    ensures r.status == Idle && r.progress == 0 && r.jobId == None && r.results == None
    ensures r.videoFile == None && r.networkErrorCount == 0 && r.notices == s.notices
    ensures r.uploadTicking == s.uploadTicking && r.submitPending == s.submitPending
    ensures r.handoffArmed == s.handoffArmed
    ensures Inv(s) ==> r.statusInterval == Stopped && !r.errorTimeoutArmed
  {
    SyncPolling(s.jobId, s.status,
      s.(videoFile := None, jobId := None, status := Idle, progress := 0, results := None, networkErrorCount := 0))
  }

  /** The upload area is rendered unless the status is "completed", and it is disabled
      while uploading; a drop that reaches `onDrop` either raises one notice or hands
      the first file to `handleVideoUploaded`. */
  function AfterDrop(s: SessionState, acceptedFiles: seq<VideoFile>): (r: SessionState)
    ensures s.status == Completed || s.status == Uploading ==> r == s
    ensures s.status != Completed && s.status != Uploading ==>
      match OnDrop(acceptedFiles)
      case Handed(file) => r == AfterFileProvided(s, file)
      case _ => r == s.(notices := s.notices + [DropNotice(OnDrop(acceptedFiles)).value])
  {
    if s.status == Completed then s
    else
      match Intake(s.status == Uploading, acceptedFiles)
      case None => s
      case Some(Handed(file)) => AfterFileProvided(s, file)
      case Some(rejected) => s.(notices := s.notices + [DropNotice(rejected).value])
  }

  /** The events of a session, in the order they happen. */
  datatype Event =
    | FilesDropped(acceptedFiles: seq<VideoFile>)
    | ProgressTick
    | SubmitSettled(outcome: SubmitOutcome)
    | HandoffDelay
    | PollSnapshot(snapshot: JobStatus)
    | PollFailure
    | ErrorTimeout
    | ResetRequested

  /** Whether the event can happen: a timer fires only while armed, a call settles
      only while in flight, a poll completes only while the interval runs, and the
      "Analyze Another Video" button, the only caller of `resetAnalysis`, is rendered
      only in "completed" with results. A drop is always possible; `AfterDrop` says
      what the hidden or disabled upload area makes of it. */
  predicate Enabled(s: SessionState, e: Event)
    ensures Inv(s) && Enabled(s, e) && (e.PollSnapshot? || e.PollFailure? || e.ErrorTimeout?) ==>
      Truthy(s.jobId) && s.status == Processing
    ensures Enabled(s, e) && e.ResetRequested? ==> s.status == Completed && s.results.Some?
  {
    match e
    case FilesDropped(_) => true
    case ProgressTick => s.uploadTicking
    case SubmitSettled(_) => s.submitPending
    case HandoffDelay => s.handoffArmed
    case PollSnapshot(_) => s.statusInterval.Every?
    case PollFailure => s.statusInterval.Every?
    case ErrorTimeout => s.errorTimeoutArmed
    case ResetRequested => s.status == Completed && s.results.Some?
  }

  /** One event; an event that cannot happen leaves the state as it is. */
  function Step(s: SessionState, e: Event): SessionState {
    if !Enabled(s, e) then s
    else
      match e
      case FilesDropped(acceptedFiles) => AfterDrop(s, acceptedFiles)
      case ProgressTick => AfterUploadTick(s)
      case SubmitSettled(outcome) => AfterSubmit(s, outcome)
      case HandoffDelay => AfterHandoff(s)
      case PollSnapshot(snapshot) => AfterSnapshot(s, snapshot)
      case PollFailure => AfterPollFailure(s)
      case ErrorTimeout => AfterErrorTimeout(s)
      case ResetRequested => AfterReset(s)
  }

  /** A sequence of events applied in order. */
  function Run(s: SessionState, trace: seq<Event>): SessionState
    decreases |trace|
  {
    if trace == [] then s else Step(Run(s, trace[..|trace| - 1]), trace[|trace| - 1])
  }

  /** The polling effect keeps the invariant for any state change that keeps it
      apart from the poll timers. */
  lemma SyncPollingKeepsInv(prevJobId: Option<string>, prevStatus: AppStatus, s: SessionState)
    requires s.jobId.Some? ==> s.jobId.value != ""
    requires !(s.statusInterval.Every? && s.errorTimeoutArmed)
    requires s.statusInterval.Every? ==> s.statusInterval.periodMs == BasePollMs || s.statusInterval.periodMs == BackoffPollMs
    requires s.errorTimeoutArmed ==> s.networkErrorCount >= ErrorThreshold
    requires s.statusInterval.Every? || s.errorTimeoutArmed ==>
      PollingWanted(prevJobId, prevStatus) || prevJobId != s.jobId || prevStatus != s.status
    requires prevJobId == s.jobId && prevStatus == s.status ==>
      (s.statusInterval.Every? || s.errorTimeoutArmed ==> PollingWanted(s.jobId, s.status))
    ensures Inv(SyncPolling(prevJobId, prevStatus, s))
  {
  }

  /** Providing a file keeps the invariant. */
  lemma FileProvidedPreservesInv(s: SessionState, file: VideoFile)
    requires Inv(s)
    ensures Inv(AfterFileProvided(s, file))
  {
  }

  /** `resetAnalysis` keeps the invariant, whatever state it is called in. */
  lemma ResetPreservesInv(s: SessionState)
    requires Inv(s)
    ensures Inv(AfterReset(s))
  {
  }

  /** A poll snapshot keeps the invariant. */
  lemma SnapshotPreservesInv(s: SessionState, snapshot: JobStatus)
    requires Inv(s) && s.statusInterval.Every?
    ensures Inv(AfterSnapshot(s, snapshot))
  {
  }

  /** Every event keeps the invariant. */
  lemma StepPreservesInv(s: SessionState, e: Event)
    requires Inv(s)
    ensures Inv(Step(s, e))
  {
    if Enabled(s, e) {
      match e
      case FilesDropped(acceptedFiles) =>
        if s.status != Completed && s.status != Uploading && OnDrop(acceptedFiles).Handed? {
          FileProvidedPreservesInv(s, OnDrop(acceptedFiles).file);
        }
      case ProgressTick =>
      case SubmitSettled(outcome) =>
      case HandoffDelay =>
      case PollSnapshot(snapshot) => SnapshotPreservesInv(s, snapshot);
      case PollFailure =>
      case ErrorTimeout =>
      case ResetRequested => ResetPreservesInv(s);
    }
  }
}
