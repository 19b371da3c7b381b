/** The page component as an object: the state hooks and timer handles are
    fields, and each event handler updates them in place. Every handler is
    proved to produce exactly the state the matching IndexSpec transition gives. */
module IndexSession {
  import opened ApiTypes
  import opened Toasts
  import opened UploadArea
  import opened IndexSpec

  class Session {
    var videoFile: Option<VideoFile>
    var jobId: Option<string>
    var status: AppStatus
    var progress: int
    var results: Option<JobResult>
    var networkErrorCount: nat
    var uploadTicking: bool
    var submitPending: bool
    var handoffArmed: bool
    var statusInterval: PollTimer
    var errorTimeoutArmed: bool
    var notices: seq<Notice>

    /** The fields as one value. */
    function State(): SessionState
      reads this
    {
      SessionState(videoFile, jobId, status, progress, results, networkErrorCount,
                   uploadTicking, submitPending, handoffArmed, statusInterval, errorTimeoutArmed, notices)
    }

    ghost predicate Valid()
      reads this
    {
      Inv(State())
    }

    constructor ()
      ensures State() == Initial() && Valid()
    {
      videoFile, jobId, status, progress, results, networkErrorCount := None, None, Idle, 0, None, 0;
      uploadTicking, submitPending, handoffArmed := false, false, false;
      statusInterval, errorTimeoutArmed, notices := Stopped, false, [];
    }

    /** The polling effect after a handler changed the state: re-run only when
        `jobId` or `status` differ from their values before the handler. */
    method RerunPollingEffect(prevJobId: Option<string>, prevStatus: AppStatus)
      modifies this
      ensures State() == SyncPolling(prevJobId, prevStatus, old(State()))
    {
      if prevJobId != jobId || prevStatus != status {
        statusInterval := Stopped;
        errorTimeoutArmed := false;
        if Truthy(jobId) && status == Processing {
          statusInterval := Every(BasePollMs);
        }
      }
    }

    method HandleVideoUploaded(file: VideoFile)
      requires Valid()
      modifies this
      ensures Valid() && State() == AfterFileProvided(old(State()), file)
    {
      var prevJobId, prevStatus := jobId, status;
      videoFile := Some(file);
      status := Uploading;
      progress := 0;
      results := None;
      networkErrorCount := 0;
      uploadTicking := true;
      submitPending := true;
      RerunPollingEffect(prevJobId, prevStatus);
      FileProvidedPreservesInv(old(State()), file);
    }

    method FakeProgressTick()
      requires Valid() && uploadTicking
      modifies this
      ensures Valid() && State() == AfterUploadTick(old(State()))
    {
      if progress >= FakeProgressCap {
        uploadTicking := false;
        progress := FakeProgressCap;
      } else {
        progress := progress + FakeProgressStep;
      }
    }

    method SubmitSettled(outcome: SubmitOutcome)
      requires Valid() && submitPending
      modifies this
      ensures Valid() && State() == AfterSubmit(old(State()), outcome)
    {
      var prevJobId, prevStatus := jobId, status;
      submitPending := false;
      match outcome {
        case Responded(response) =>
          uploadTicking := false;
          if Truthy(response.jobId) {
            jobId := response.jobId;
            progress := 100;
            handoffArmed := true;
            notices := notices + [UploadSucceeded(response.jobId.value)];
          } else {
            status := Error;
            notices := notices + [UploadFailed(MissingJobIdMessage)];
          }
        case Threw(message) =>
          status := Error;
          notices := notices + [UploadFailed(message.GetOr(UnknownUploadError))];
      }
      RerunPollingEffect(prevJobId, prevStatus);
      StepPreservesInv(old(State()), Event.SubmitSettled(outcome));
    }

    method HandoffElapsed()
      requires Valid() && handoffArmed
      modifies this
      ensures Valid() && State() == AfterHandoff(old(State()))
    {
      var prevJobId, prevStatus := jobId, status;
      handoffArmed := false;
      status := Processing;
      progress := 0;
      RerunPollingEffect(prevJobId, prevStatus);
      StepPreservesInv(old(State()), HandoffDelay);
    }

    method StatusReceived(snapshot: JobStatus)
      requires Valid() && statusInterval.Every?
      modifies this
      ensures Valid() && State() == AfterSnapshot(old(State()), snapshot)
    {
      var prevJobId, prevStatus := jobId, status;
      networkErrorCount := 0;
      if snapshot.phase == JobCompleted {
        status := Completed;
        progress := 100;
        results := snapshot.result;
        statusInterval := Stopped;
        var found := if snapshot.result.Some? then Some(snapshot.result.value.appleCount) else None;
        notices := notices + [AnalysisComplete(found)];
        RerunPollingEffect(prevJobId, prevStatus);
      } else if snapshot.phase == JobFailed {
        status := Error;
        statusInterval := Stopped;
        notices := notices + [ProcessingFailed(FailureText(snapshot))];
        RerunPollingEffect(prevJobId, prevStatus);
      } else {
        progress := snapshot.progress.GetOr(0);
      }
      SnapshotPreservesInv(old(State()), snapshot);
    }

    method StatusFetchFailed()
      requires Valid() && statusInterval.Every?
      modifies this
      ensures Valid() && State() == AfterPollFailure(old(State()))
    {
      networkErrorCount := networkErrorCount + 1;
      if networkErrorCount >= ErrorThreshold {
        statusInterval := Stopped;
        errorTimeoutArmed := true;
      }
      StepPreservesInv(old(State()), PollFailure);
    }

    method ErrorTimeoutElapsed()
      requires Valid() && errorTimeoutArmed
      modifies this
      ensures Valid() && State() == AfterErrorTimeout(old(State()))
    {
      errorTimeoutArmed := false;
      notices := notices + [ConnectionProblems];
      networkErrorCount := 0;
      statusInterval := Every(BackoffPollMs);
      StepPreservesInv(old(State()), ErrorTimeout);
    }

    method ResetAnalysis()
      requires Valid()
      modifies this
      ensures Valid() && State() == AfterReset(old(State()))
    {
      var prevJobId, prevStatus := jobId, status;
      videoFile := None;
      jobId := None;
      status := Idle;
      progress := 0;
      results := None;
      networkErrorCount := 0;
      RerunPollingEffect(prevJobId, prevStatus);
      ResetPreservesInv(old(State()));
    }

    /** A drop on the upload area, which is shown unless "completed" and disabled
        while "uploading". */
    method Drop(acceptedFiles: seq<VideoFile>) returns (outcome: Option<DropOutcome>)
      requires Valid()
      modifies this
      ensures Valid() && State() == AfterDrop(old(State()), acceptedFiles)
      ensures outcome.None? <==> old(status) == Completed || old(status) == Uploading
      ensures outcome.Some? ==> outcome.value == OnDrop(acceptedFiles)
    {
      if status == Completed || status == Uploading {
        return None;
      }
      var decided := OnDrop(acceptedFiles);
      outcome := Some(decided);
      match decided
      case Handed(file) =>
        HandleVideoUploaded(file);
      case _ =>
        notices := notices + [DropNotice(decided).value];
    }
  }
}
