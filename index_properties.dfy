/** Properties of whole event sequences of the page's session. */
module IndexProperties {
  import opened ApiTypes
  import opened Toasts
  import opened UploadArea
  import opened IndexSpec
  import ProgressCard
  import ResultsDisplay

  /** The same event n times. */
  function Repeat(e: Event, n: nat): (t: seq<Event>)
    ensures |t| == n
  {
    seq(n, _ => e)
  }

  /** Running a trace extended by one event is one more step. */
  lemma RunSnoc(s: SessionState, t: seq<Event>, e: Event)
    ensures Run(s, t + [e]) == Step(Run(s, t), e)
  {
    assert (t + [e])[..|t|] == t;
  }

  /** Every state reachable from a state that keeps the invariant keeps it. */
  lemma {:induction false} InvAlongTrace(s: SessionState, t: seq<Event>)
    requires Inv(s)
    ensures Inv(Run(s, t))
    decreases |t|
  {
    if t != [] {
      InvAlongTrace(s, t[..|t| - 1]);
      StepPreservesInv(Run(s, t[..|t| - 1]), t[|t| - 1]);
    }
  }

  /** The first render keeps the invariant, hence so does every reachable state. */
  lemma ReachableStatesKeepInv(t: seq<Event>)
    ensures Inv(Run(Initial(), t))
  {
    InvAlongTrace(Initial(), t);
  }

  /** Fake progress: from a multiple of 5 in [0, 95] with the interval running, n ticks
      give min(p + 5n, 95); the interval is still running exactly while p + 5n <= 95,
      and nothing but progress and the interval changes. */
  lemma {:induction false} FakeProgressClimbs(s: SessionState, n: nat)
    requires s.uploadTicking && 0 <= s.progress <= FakeProgressCap && s.progress % FakeProgressStep == 0
    ensures var r := Run(s, Repeat(ProgressTick, n));
      && r.progress == (if s.progress + 5 * n <= FakeProgressCap then s.progress + 5 * n else FakeProgressCap)
      && (r.uploadTicking <==> s.progress + 5 * n <= FakeProgressCap)
      && r.progress % FakeProgressStep == 0
      && r == s.(progress := r.progress, uploadTicking := r.uploadTicking)
  {
    if n > 0 {
      FakeProgressClimbs(s, n - 1);
      assert Repeat(ProgressTick, n) == Repeat(ProgressTick, n - 1) + [ProgressTick];
      RunSnoc(s, Repeat(ProgressTick, n - 1), ProgressTick);
    }
  }

  /** The number of poll failures in a trace. */
  function Failures(t: seq<Event>): nat {
    if t == [] then 0 else Failures(t[..|t| - 1]) + (if t[|t| - 1].PollFailure? then 1 else 0)
  }

  /** One event: five times the "Connection problems" notices plus the error count
      grows by at most one, and only on a poll failure. */
  lemma StepNoticeBudget(s: SessionState, e: Event)
    requires Inv(s)
    ensures var r := Step(s, e);
      ErrorThreshold * ConnectionNotices(r.notices) + r.networkErrorCount
        <= ErrorThreshold * ConnectionNotices(s.notices) + s.networkErrorCount + (if e.PollFailure? then 1 else 0)
  {
    if Enabled(s, e) {
      match e
      case FilesDropped(acceptedFiles) =>
        if s.status != Completed && s.status != Uploading && !OnDrop(acceptedFiles).Handed? {
          ConnectionNoticesAppend(s.notices, DropNotice(OnDrop(acceptedFiles)).value);
        }
      case ProgressTick =>
      case SubmitSettled(outcome) =>
        var r := AfterSubmit(s, outcome);
        assert |r.notices| == |s.notices| + 1 && r.notices == s.notices + [r.notices[|s.notices|]];
        ConnectionNoticesAppend(s.notices, r.notices[|s.notices|]);
      case HandoffDelay =>
      case PollSnapshot(snapshot) =>
        var r := AfterSnapshot(s, snapshot);
        if snapshot.phase == JobCompleted || snapshot.phase == JobFailed {
          assert |r.notices| == |s.notices| + 1 && r.notices == s.notices + [r.notices[|s.notices|]];
          ConnectionNoticesAppend(s.notices, r.notices[|s.notices|]);
        }
      case PollFailure =>
      case ErrorTimeout =>
        ConnectionNoticesAppend(s.notices, ConnectionProblems);
      case ResetRequested =>
    }
  }

  /** The connection-problem notice is raised at most once per batch of failures:
      along any trace, five times the notices added plus the final error count never
      exceed the initial error count plus the number of poll failures. */
  lemma {:induction false} ConnectionNoticesPerBatch(s: SessionState, t: seq<Event>)
    requires Inv(s)
    ensures var r := Run(s, t);
      ErrorThreshold * (ConnectionNotices(r.notices) - ConnectionNotices(s.notices)) + r.networkErrorCount
        <= s.networkErrorCount + Failures(t)
    decreases |t|
  {
    if t != [] {
      var init := t[..|t| - 1];
      ConnectionNoticesPerBatch(s, init);
      InvAlongTrace(s, init);
      StepNoticeBudget(Run(s, init), t[|t| - 1]);
    }
  }

  /** Fewer failures than the threshold only raise the error count. */
  lemma {:induction false} FailuresBelowThreshold(s: SessionState, n: nat)
    requires s.statusInterval.Every? && s.networkErrorCount + n < ErrorThreshold
    ensures Run(s, Repeat(PollFailure, n)) == s.(networkErrorCount := s.networkErrorCount + n)
  {
    if n > 0 {
      var earlier := Repeat(PollFailure, n - 1);
      FailuresBelowThreshold(s, n - 1);
      assert Repeat(PollFailure, n) == earlier + [PollFailure];
      RunSnoc(s, earlier, PollFailure);
      var mid := Run(s, earlier);
      assert mid == s.(networkErrorCount := s.networkErrorCount + n - 1);
      assert Step(mid, PollFailure) == AfterPollFailure(mid);
    }
  }

  /** Five failures in a row while polling stop the interval and arm the 5000 ms
      timeout without touching the status or raising a notice; when it fires, one
      notice is raised, the count is back to 0 and polling resumes every 8000 ms. */
  lemma BackoffAfterFiveFailures(s: SessionState)
    requires s.statusInterval.Every? && s.networkErrorCount == 0
    ensures var r := Run(s, Repeat(PollFailure, 5));
      && r.statusInterval == Stopped && r.errorTimeoutArmed && r.networkErrorCount == ErrorThreshold
      && r.status == s.status && r.progress == s.progress && r.notices == s.notices
    ensures var r := Run(s, Repeat(PollFailure, 5) + [ErrorTimeout]);
      && r.statusInterval == Every(BackoffPollMs) && !r.errorTimeoutArmed && r.networkErrorCount == 0
      && r.status == s.status && r.notices == s.notices + [ConnectionProblems]
  {
    FailuresBelowThreshold(s, 4);
    assert Repeat(PollFailure, 5) == Repeat(PollFailure, 4) + [PollFailure];
    RunSnoc(s, Repeat(PollFailure, 4), PollFailure);
    RunSnoc(s, Repeat(PollFailure, 5), ErrorTimeout);
  }

  /** No timer armed, no call in flight, and not "processing". */
  predicate Quiet(s: SessionState) {
    && !s.handoffArmed && !s.submitPending
    && s.statusInterval == Stopped && !s.errorTimeoutArmed
    && s.status != Processing
  }

  /** No drop in the trace would hand a file over, whatever the upload area's state. */
  predicate NoNewUpload(t: seq<Event>) {
    forall i :: 0 <= i < |t| && t[i].FilesDropped? ==> !OnDrop(t[i].acceptedFiles).Handed?
  }

  predicate NoReset(t: seq<Event>) {
    forall i :: 0 <= i < |t| ==> !t[i].ResetRequested?
  }

  /** A quiet session stays quiet until a new file is provided: it never reaches
      "processing" and never polls. Without a reset its status, job id and results
      stay as they are, so "completed" and "error" are terminal until reset. */
  lemma {:induction false} QuietSessionStaysQuiet(s: SessionState, t: seq<Event>)
    requires Quiet(s) && NoNewUpload(t)
    ensures Quiet(Run(s, t))
    ensures NoReset(t) ==>
      Run(s, t).status == s.status && Run(s, t).jobId == s.jobId && Run(s, t).results == s.results
    decreases |t|
  {
    if t != [] {
      QuietSessionStaysQuiet(s, t[..|t| - 1]);
    }
  }

  /** A submit without a usable `job_id`, or one that throws, ends the upload in
      "error"; until a new file is provided the session never reaches "processing"
      and never polls, and without a reset it stays in "error". */
  lemma RejectedSubmitNeverPolls(s: SessionState, outcome: SubmitOutcome, t: seq<Event>)
    requires Inv(s) && s.status == Uploading && s.submitPending && !s.handoffArmed
    requires !Accepted(outcome) && NoNewUpload(t)
    ensures var r := Run(Step(s, SubmitSettled(outcome)), t);
      r.status != Processing && r.statusInterval == Stopped && !r.errorTimeoutArmed
    ensures NoReset(t) ==> Run(Step(s, SubmitSettled(outcome)), t).status == Error
  {
    QuietSessionStaysQuiet(Step(s, SubmitSettled(outcome)), t);
  }

  /** The fake-progress interval is cleared only on the resolve path: after a thrown
      submit the session is in "error", and the ticks that follow keep raising the
      progress to 95 without changing that status. */
  lemma ThrownSubmitKeepsTicking(s: SessionState, message: Option<string>, n: nat)
    requires s.uploadTicking && s.submitPending
    requires 0 <= s.progress <= FakeProgressCap && s.progress % FakeProgressStep == 0
    ensures var r := Run(Step(s, SubmitSettled(Threw(message))), Repeat(ProgressTick, n));
      && r.status == Error
      && r.progress == (if s.progress + 5 * n <= FakeProgressCap then s.progress + 5 * n else FakeProgressCap)
      && (r.uploadTicking <==> s.progress + 5 * n <= FakeProgressCap)
  {
    FakeProgressClimbs(Step(s, SubmitSettled(Threw(message))), n);
  }

  /** The invariant of the states the page itself can reach, on top of `Inv`: an
      armed hand-off follows a settled submit with the fake progress stopped and the
      status still "uploading"; a submit is in flight only while "uploading"; and the
      fake-progress interval runs only while "uploading" or, after a throw, "error". */
  predicate PageInv(s: SessionState) {
    && Inv(s)
    && (s.handoffArmed ==> s.status == Uploading && !s.submitPending && !s.uploadTicking)
    && (s.submitPending ==> s.status == Uploading)
    && (s.uploadTicking ==> s.status == Uploading || s.status == Error)
  }

  /** Every event keeps the page invariant. */
  lemma StepPreservesPageInv(s: SessionState, e: Event)
    requires PageInv(s)
    ensures PageInv(Step(s, e))
  {
    StepPreservesInv(s, e);
  }

  /** Every state reachable from the first render keeps the page invariant. */
  lemma {:induction false} ReachableStatesKeepPageInv(t: seq<Event>)
    ensures PageInv(Run(Initial(), t))
    decreases |t|
  {
    if t != [] {
      ReachableStatesKeepPageInv(t[..|t| - 1]);
      StepPreservesPageInv(Run(Initial(), t[..|t| - 1]), t[|t| - 1]);
    }
  }

  /** `resetAnalysis` cancels only the poll timers, but where the page offers it
      nothing else is running: no hand-off, no submit, no fake progress, no poll or
      retry timer, before the reset or after it. */
  lemma ResetFindsNothingRunning(t: seq<Event>)
    requires Enabled(Run(Initial(), t), ResetRequested)
    ensures var s := Run(Initial(), t);
      && !s.handoffArmed && !s.submitPending && !s.uploadTicking
      && s.statusInterval == Stopped && !s.errorTimeoutArmed
    ensures var r := Step(Run(Initial(), t), ResetRequested);
      && Quiet(r) && !r.uploadTicking && r.status == Idle
  {
    ReachableStatesKeepPageInv(t);
  }

  /** A "completed" snapshot without a result hides the upload area and renders no
      results panel, so no reset button either: a reachable session in that state
      never leaves it, whatever happens next. */
  lemma {:induction false} CompletedWithoutResultIsFinal(s: SessionState, t: seq<Event>)
    requires PageInv(s) && s.status == Completed && s.results.None?
    ensures Run(s, t) == s
    decreases |t|
  {
    if t != [] {
      CompletedWithoutResultIsFinal(s, t[..|t| - 1]);
    }
  }

  /** Only the hand-off delay moves a session into "processing". */
  lemma OnlyHandoffStartsProcessing(s: SessionState, e: Event)
    requires s.status != Processing && Step(s, e).status == Processing
    ensures e.HandoffDelay?
  {
  }

  /** While the poller is active, the card shows the progress bar and names the
      stored job id. */
  lemma PollingShowsProcessingCard(s: SessionState)
    requires Inv(s) && (s.statusInterval.Every? || s.errorTimeoutArmed)
    ensures ProgressCard.ShowProgress(s.status)
    ensures ProgressCard.Describe(s.status, s.jobId).statusText
      == ProgressCard.JobIdPrefix + s.jobId.value + ")"
  {
  }

  /** The upload happy path: accepted file, job "abc123", hand-off, a "processing"
      snapshot at 42 %, then "completed" with 17 apples in 300 of 300 frames. */
  lemma HappyPathScenario()
    ensures var file := VideoFile("orchard.mp4", "video/mp4");
      var s1 := Step(Initial(), FilesDropped([file]));
      var s2 := Step(s1, SubmitSettled(Responded(SubmitVideoResponse(Some("abc123"), "queued"))));
      var s3 := Step(s2, HandoffDelay);
      var s4 := Step(s3, PollSnapshot(JobStatus(JobProcessing, Some(42), None, None, None)));
      var result := JobResult(17, 300, 300);
      var s5 := Step(s4, PollSnapshot(JobStatus(JobCompleted, Some(100), Some(result), None, None)));
      && s1.status == Uploading && s1.videoFile == Some(file)
      && s2.status == Uploading && s2.progress == 100 && s2.jobId == Some("abc123")
      && s3.status == Processing && s3.progress == 0 && s3.statusInterval == Every(BasePollMs)
      && s4.status == Processing && s4.progress == 42
      && s5.status == Completed && s5.progress == 100 && s5.results == Some(result)
      && s5.statusInterval == Stopped && Quiet(s5)
      && ResultsDisplay.ShownAfter(17, ResultsDisplay.FinishTick(17)) == 17
      && ResultsDisplay.FramesPercent(300, 300) == 100
  {
    ResultsDisplay.FramesPercentInRange(300, 300);
  }

  /** A submit that fails with HTTP 500: "error", one "Upload failed" notice, no job id
      stored, nothing polling. */
  lemma ServerErrorScenario()
    ensures var file := VideoFile("orchard.mp4", "video/mp4");
      var s1 := Step(Initial(), FilesDropped([file]));
      var s2 := Step(s1, SubmitSettled(Threw(Some("Failed to upload video: 500 - boom"))));
      && s2.status == Error && s2.jobId == None && s2.statusInterval == Stopped
      && s2.notices == [UploadFailed("Failed to upload video: 500 - boom")]
  {
  }
}
